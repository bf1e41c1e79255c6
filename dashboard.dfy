/**
 * The dashboard's figures (src/pages/Dashboard.tsx): income, expenses and
 * balance, the expense breakdown by category, and the validation of
 * the initial balance the user types in.
 */
module Dashboard {
  import opened Wrappers
  import opened Ledger
  import opened OrderedRecord

  /** Total income: the positive amounts, summed. */
  function Income(s: seq<Transaction>): (r: real)
    ensures r >= 0.0
  {
    SumAmountsNonNegative(Keep(s, IsIncome));
    SumAmounts(Keep(s, IsIncome))
  }

  /** Total expenses: the magnitudes of the negative amounts, summed. */
  function Expenses(s: seq<Transaction>): (r: real)
    ensures r >= 0.0
  {
    SumAbs(Keep(s, IsExpense))
  }

  /** What a transaction adds to the income total. */
  function IncomePart(t: Transaction): real
  {
    if t.amount > 0.0 then t.amount else 0.0
  }

  /** What a transaction adds to the expense total. */
  function ExpensePart(t: Transaction): real
  {
    if t.amount < 0.0 then -t.amount else 0.0
  }

  /**
   * Appending one transaction adds its amount to income when it is
   * positive, its magnitude to expenses when it is negative, and nothing
   * to either when it is zero.
   */
  lemma {:induction false} TotalsStep(s: seq<Transaction>, t: Transaction)
    ensures Income(s + [t]) == Income(s) + IncomePart(t)
    ensures Expenses(s + [t]) == Expenses(s) + ExpensePart(t)
  {
    IncomeStep(s, t);
    ExpenseStep(s, t);
  }

  /** One more transaction adds its income part to the income total. */
  lemma IncomeStep(s: seq<Transaction>, t: Transaction)
    ensures Income(s + [t]) == Income(s) + IncomePart(t)
  {
    KeepAppend(s, [t], IsIncome);
    KeepSingleton(t, IsIncome);
    SumAmountsAppend(Keep(s, IsIncome), Keep([t], IsIncome));
    assert SumAmounts([t]) == t.amount by {
      assert [t][..0] == [];
    }
  }

  /** One more transaction adds its expense part to the expense total. */
  lemma ExpenseStep(s: seq<Transaction>, t: Transaction)
    ensures Expenses(s + [t]) == Expenses(s) + ExpensePart(t)
  {
    KeepAppend(s, [t], IsExpense);
    KeepSingleton(t, IsExpense);
    SumAbsAppend(Keep(s, IsExpense), Keep([t], IsExpense));
    assert SumAbs([t]) == Abs(t.amount) by {
      assert [t][..0] == [];
    }
  }

  /** The totals of a concatenation are the sums of the totals. */
  lemma {:induction false} TotalsAppend(a: seq<Transaction>, b: seq<Transaction>)
    ensures Income(a + b) == Income(a) + Income(b)
    ensures Expenses(a + b) == Expenses(a) + Expenses(b)
  {
    KeepAppend(a, b, IsIncome);
    KeepAppend(a, b, IsExpense);
    SumAmountsAppend(Keep(a, IsIncome), Keep(b, IsIncome));
    SumAbsAppend(Keep(a, IsExpense), Keep(b, IsExpense));
  }

  /**
   * A transaction inserted anywhere in the list adds exactly its own part
   * to each total; in particular a zero amount changes neither.
   */
  lemma TotalsInsert(a: seq<Transaction>, t: Transaction, b: seq<Transaction>)
    ensures Income(a + [t] + b) == Income(a + b) + IncomePart(t)
    ensures Expenses(a + [t] + b) == Expenses(a + b) + ExpensePart(t)
  {
    TotalsAppend(a + [t], b);
    TotalsAppend(a, b);
    TotalsStep(a, t);
  }

  /** The totals do not depend on the order of the list. */
  lemma {:induction false} TotalsOrderIndependent(a: seq<Transaction>, b: seq<Transaction>)
    requires multiset(a) == multiset(b)
    ensures Income(a) == Income(b) && Expenses(a) == Expenses(b)
    decreases |a|
  {
    if a == [] {
      assert b == [] by {
        assert |multiset(b)| == 0;
      }
    } else {
      var a', t := a[..|a| - 1], a[|a| - 1];
      assert a == a' + [t];
      assert t in multiset(b);
      var i :| 0 <= i < |b| && b[i] == t;
      var b' := b[..i] + b[i + 1..];
      assert b == b[..i] + [t] + b[i + 1..];
      RemoveOne(a', t, b[..i], b[i + 1..]);
      TotalsOrderIndependent(a', b');
      TotalsStep(a', t);
      TotalsInsert(b[..i], t, b[i + 1..]);
    }
  }

  /** Removing the same element from two lists with equal contents leaves equal contents. */
  lemma RemoveOne(a: seq<Transaction>, t: Transaction, b1: seq<Transaction>, b2: seq<Transaction>)
    requires multiset(a + [t]) == multiset(b1 + [t] + b2)
    ensures multiset(b1 + b2) == multiset(a)
  {
    assert multiset(b1 + [t] + b2) == multiset(b1) + multiset{t} + multiset(b2);
    assert multiset(a + [t]) == multiset(a) + multiset{t};
    forall x ensures multiset(b1 + b2)[x] == multiset(a)[x] {
      assert multiset(b1 + [t] + b2)[x] == multiset(b1 + b2)[x] + multiset{t}[x];
    }
  }

  /** `{ income, expenses, balance }` */
  datatype Stats = Stats(income: real, expenses: real, balance: real)

  /** The dashboard's three figures, for the given initial balance. */
  function ComputeStats(s: seq<Transaction>, initialBalance: real): (r: Stats)
    ensures r.income == Income(s) && r.expenses == Expenses(s)
    ensures r.income >= 0.0 && r.expenses >= 0.0
    ensures r.balance == initialBalance + r.income - r.expenses
  {
    var income := Income(s);
    var expenses := Expenses(s);
    Stats(income, expenses, initialBalance + income - expenses)
  }

  /** With no transactions the balance is the initial balance and both totals are zero. */
  lemma StatsOfEmpty(initialBalance: real)
    ensures ComputeStats([], initialBalance) == Stats(0.0, 0.0, initialBalance)
  {
    assert Keep([], IsIncome) == [] && Keep([], IsExpense) == [];
  }

  /**
   * The balance moves by exactly one transaction's signed amount when that
   * transaction is added.
   */
  lemma BalanceStep(s: seq<Transaction>, t: Transaction, initialBalance: real)
    ensures ComputeStats(s + [t], initialBalance).balance
         == ComputeStats(s, initialBalance).balance + t.amount
  {
    TotalsStep(s, t);
  }

  const OtherCategory := "Other"

  /** `t.category || 'Other'`: a missing or empty category is counted as "Other". */
  function CategoryOf(t: Transaction): (c: string)
    ensures c != ""
    ensures t.category.None? || t.category == Some("") ==> c == OtherCategory
    ensures t.category.Some? && t.category.value != "" ==> c == t.category.value
  {
    match t.category
    case None => OtherCategory
    case Some(name) => if name == "" then OtherCategory else name
  }

  /** The category of each transaction, in list order. */
  function CategoriesOf(s: seq<Transaction>): (cs: seq<string>)
    ensures |cs| == |s| && forall i :: 0 <= i < |s| ==> cs[i] == CategoryOf(s[i])
  {
    seq(|s|, i requires 0 <= i < |s| => CategoryOf(s[i]))
  }

  /** One more transaction appends its category. */
  lemma CategoriesOfSnoc(s: seq<Transaction>, t: Transaction)
    ensures CategoriesOf(s + [t]) == CategoriesOf(s) + [CategoryOf(t)]
  {
  }

  function AddAmount(v: real): real -> real
  {
    x => x + v
  }

  /** The numeric value of a category entry. */
  function Amount(x: real): real
  {
    x
  }

  /** The transactions whose category (after the "Other" rule) is `c`. */
  function InCategory(c: string): Transaction -> bool
  {
    t => CategoryOf(t) == c
  }

  /**
   * The `forEach` over the expense list: each transaction adds its
   * magnitude to its category's entry, creating the entry on first sight.
   */
  function Tally(e: seq<Transaction>): (r: seq<Entry<real>>)
    ensures UniqueKeys(r)
    ensures Keys(r) == FirstOccurrences(CategoriesOf(e))
  {
    if e == [] then []
    else
      var e', t := e[..|e| - 1], e[|e| - 1];
      var r0 := Tally(e');
      assert e == e' + [t];
      CategoriesOfSnoc(e', t);
      UpsertFirstOccurrences(r0, CategoriesOf(e'), CategoryOf(t), AddAmount(Abs(t.amount)), 0.0);
      Upsert(r0, CategoryOf(t), AddAmount(Abs(t.amount)), 0.0)
  }

  /**
   * `categoryData`: the expense transactions only, tallied by category,
   * one slice per category in the order its first expense appears.
   */
  function CategoryBreakdown(s: seq<Transaction>): (r: seq<Entry<real>>)
    ensures UniqueKeys(r)
    ensures Keys(r) == FirstOccurrences(CategoriesOf(Keep(s, IsExpense)))
  {
    Tally(Keep(s, IsExpense))
  }

  /**
   * Each category appears once, and a name appears exactly when some
   * expense transaction falls under it; income and zero-amount
   * transactions never create an entry.
   */
  lemma CategoryBreakdownKeys(s: seq<Transaction>)
    ensures UniqueKeys(CategoryBreakdown(s))
    ensures forall c :: c in Keys(CategoryBreakdown(s)) <==>
      exists t :: t in s && IsExpense(t) && CategoryOf(t) == c
  {
    var e := Keep(s, IsExpense);
    forall c ensures c in CategoriesOf(e) <==> exists t :: t in s && IsExpense(t) && CategoryOf(t) == c {
      if c in CategoriesOf(e) {
        CategoryFrom(e, c);
      }
      if t :| t in s && IsExpense(t) && CategoryOf(t) == c {
        CategoryOfMember(e, t);
      }
    }
  }

  /** Every category of a list comes from one of its transactions. */
  lemma CategoryFrom(e: seq<Transaction>, c: string)
    requires c in CategoriesOf(e)
    ensures exists t :: t in e && CategoryOf(t) == c
  {
    var i :| 0 <= i < |e| && CategoriesOf(e)[i] == c;
    assert e[i] in e;
  }

  /** Every transaction of a list lends its category to the list's categories. */
  lemma CategoryOfMember(e: seq<Transaction>, t: Transaction)
    requires t in e
    ensures CategoryOf(t) in CategoriesOf(e)
  {
    var i :| 0 <= i < |e| && e[i] == t;
    assert CategoriesOf(e)[i] == CategoryOf(t);
  }

  lemma {:induction false} TallySum(e: seq<Transaction>)
    ensures SumBy(Tally(e), Amount) == SumAbs(e)
  {
    if e != [] {
      var e', t := e[..|e| - 1], e[|e| - 1];
      TallySum(e');
      SumByUpsert(Tally(e'), CategoryOf(t), AddAmount(Abs(t.amount)), 0.0, Amount, Abs(t.amount));
    }
  }

  /** The category values add up to the expense total of the whole list. */
  lemma CategoryBreakdownSum(s: seq<Transaction>)
    ensures SumBy(CategoryBreakdown(s), Amount) == Expenses(s)
  {
    TallySum(Keep(s, IsExpense));
  }

  /** The magnitude of the transactions of `e` that fall under category `c`. */
  function CategoryTotal(e: seq<Transaction>, c: string): real
  {
    if e == [] then 0.0
    else
      var last := e[|e| - 1];
      CategoryTotal(e[..|e| - 1], c) + if CategoryOf(last) == c then Abs(last.amount) else 0.0
  }

  /** The category total is the magnitude summed over the category's transactions. */
  lemma {:induction false} CategoryTotalIsFilteredSum(e: seq<Transaction>, c: string)
    ensures CategoryTotal(e, c) == SumAbs(Keep(e, InCategory(c)))
  {
    if e != [] {
      var e', t := e[..|e| - 1], e[|e| - 1];
      assert e == e' + [t];
      CategoryTotalIsFilteredSum(e', c);
      KeepAppend(e', [t], InCategory(c));
      KeepSingleton(t, InCategory(c));
      SumAbsAppend(Keep(e', InCategory(c)), Keep([t], InCategory(c)));
      assert SumAbs([t]) == Abs(t.amount) by {
        assert [t][..0] == [];
      }
    }
  }

  /** One more transaction adds its magnitude to its own category's total only. */
  lemma CategoryTotalStep(e: seq<Transaction>, t: Transaction, k: string)
    ensures CategoryTotal(e + [t], k) == CategoryTotal(e, k) + if CategoryOf(t) == k then Abs(t.amount) else 0.0
  {
    assert (e + [t])[..|e|] == e;
  }

  lemma {:induction false} NoneInCategory(e: seq<Transaction>, k: string)
    requires k !in CategoriesOf(e)
    ensures CategoryTotal(e, k) == 0.0
  {
    if e != [] {
      assert CategoriesOf(e[..|e| - 1]) == CategoriesOf(e)[..|e| - 1];
      NoneInCategory(e[..|e| - 1], k);
    }
  }

  lemma {:induction false} TallyValues(e: seq<Transaction>)
    ensures forall i :: 0 <= i < |Tally(e)| ==> Tally(e)[i].value == CategoryTotal(e, Tally(e)[i].key)
  {
    if e != [] {
      var e', t := e[..|e| - 1], e[|e| - 1];
      assert e == e' + [t];
      TallyValues(e');
      TallySnoc(e', t);
      var r0 := Tally(e');
      if CategoryOf(t) !in Keys(r0) {
        NoneInCategory(e', CategoryOf(t));
      }
      forall i | 0 <= i < |Tally(e)| ensures Tally(e)[i].value == CategoryTotal(e, Tally(e)[i].key) {
        TallyValueStep(r0, e', t, i);
      }
    }
  }

  /**
   * Upserting one more expense into entries that hold their categories'
   * totals keeps every entry equal to its category's total.
   */
  lemma TallyValueStep(r0: seq<Entry<real>>, e: seq<Transaction>, t: Transaction, i: nat)
    requires UniqueKeys(r0)
    requires forall j :: 0 <= j < |r0| ==> r0[j].value == CategoryTotal(e, r0[j].key)
    requires CategoryOf(t) !in Keys(r0) ==> CategoryTotal(e, CategoryOf(t)) == 0.0
    requires i < |Upsert(r0, CategoryOf(t), AddAmount(Abs(t.amount)), 0.0)|
    ensures var r := Upsert(r0, CategoryOf(t), AddAmount(Abs(t.amount)), 0.0);
            r[i].value == CategoryTotal(e + [t], r[i].key)
  {
    var k, v := CategoryOf(t), Abs(t.amount);
    var r := Upsert(r0, k, AddAmount(v), 0.0);
    UpsertAt(r0, k, AddAmount(v), 0.0, i);
    CategoryTotalStep(e, t, r[i].key);
    if i < |r0| {
      if r0[i].key == k {
        assert r[i].value == r0[i].value + v;
      } else {
        assert r[i] == r0[i];
      }
    } else {
      assert r[i] == Entry(k, 0.0 + v);
    }
  }

  /** Tallying one more expense upserts its magnitude under its category. */
  lemma TallySnoc(e: seq<Transaction>, t: Transaction)
    ensures Tally(e + [t]) == Upsert(Tally(e), CategoryOf(t), AddAmount(Abs(t.amount)), 0.0)
  {
    assert (e + [t])[..|e|] == e;
  }

  /** Each category's value is the expense total of that category's transactions. */
  lemma CategoryBreakdownValues(s: seq<Transaction>)
    ensures forall i :: 0 <= i < |CategoryBreakdown(s)| ==>
      CategoryBreakdown(s)[i].value == Expenses(Keep(s, InCategory(CategoryBreakdown(s)[i].key)))
  {
    var e := Keep(s, IsExpense);
    TallyValues(e);
    forall i | 0 <= i < |Tally(e)|
      ensures Tally(e)[i].value == Expenses(Keep(s, InCategory(Tally(e)[i].key)))
    {
      CategoryTotalIsFilteredSum(e, Tally(e)[i].key);
      KeepCommutes(s, IsExpense, InCategory(Tally(e)[i].key));
    }
  }

  /** Adding an income or zero-amount transaction leaves the breakdown as it was. */
  lemma CategoryBreakdownIgnoresNonExpenses(s: seq<Transaction>, t: Transaction)
    requires t.amount >= 0.0
    ensures CategoryBreakdown(s + [t]) == CategoryBreakdown(s)
  {
    KeepAppend(s, [t], IsExpense);
    assert Keep([t], IsExpense) == [];
  }

  /**
   * The `forEach` callback of `categoryData`:
   * `categories[cat] = (categories[cat] || 0) + Math.abs(t.amount)`.
   */
  method AddExpense(order: seq<string>, categories: map<string, real>, t: Transaction)
    returns (order': seq<string>, categories': map<string, real>)
    requires RecordShape(order, categories)
    ensures RecordShape(order', categories')
    ensures Entries(order', categories')
         == Upsert(Entries(order, categories), CategoryOf(t), AddAmount(Abs(t.amount)), 0.0)
  {
    var cat := CategoryOf(t);
    var previous := if cat in categories then categories[cat] else 0.0;
    order' := if cat in categories then order else order + [cat];
    categories' := categories[cat := previous + Abs(t.amount)];
    assert AddAmount(Abs(t.amount))(previous) == previous + Abs(t.amount);
    EntriesUpsert(order, categories, cat, AddAmount(Abs(t.amount)), 0.0, order', categories');
  }

  /**
   * The `categoryData` loop: a record from category to total, filled in
   * list order, then listed with `Object.entries`.
   */
  method CategoryData(transactions: seq<Transaction>) returns (data: seq<Entry<real>>)
    ensures data == CategoryBreakdown(transactions)
  {
    var expenses := Keep(transactions, IsExpense);
    var categories: map<string, real> := map[];
    var order: seq<string> := [];
    for i := 0 to |expenses|
      invariant RecordShape(order, categories)
      invariant Entries(order, categories) == Tally(expenses[..i])
    {
      order, categories := AddExpense(order, categories, expenses[i]);
      assert expenses[..i + 1][..i] == expenses[..i];
    }
    assert expenses[..|expenses|] == expenses;
    data := Entries(order, categories);
  }

  /** The only way the initial-balance form fails: "Please enter a valid amount". */
  datatype BalanceError = InvalidAmount

  /**
   * The acceptance test in `saveInitialBalance`; `parsed` is the result of
   * `parseFloat` on the input, `None` standing for NaN.
   */
  function CheckInitialBalance(parsed: Option<real>): (r: Result<real, BalanceError>)
    ensures r.Ok? <==> parsed.Some? && parsed.value >= 0.0
    ensures r.Ok? ==> r.value == parsed.value
  {
    if parsed.None? || parsed.value < 0.0 then Err(InvalidAmount) else Ok(parsed.value)
  }

  /**
   * The dashboard's balance state: the initial balance in use, the value in
   * the device-storage slot for this user, and whether the prompt is open.
   */
  class BalanceSettings {
    var initialBalance: real
    var stored: Option<real>
    var showModal: bool

    /**
     * The component's first render: the `useState` defaults (balance 0, the
     * prompt closed) beside whatever the storage slot already holds.
     */
    constructor (stored: Option<real>)
      ensures initialBalance == 0.0 && this.stored == stored && !showModal
    {
      initialBalance := 0.0;
      this.stored := stored;
      showModal := false;
    }

    /**
     * `loadInitialBalance`: a saved value becomes the balance in use; with
     * nothing saved the prompt opens and the balance stays as it was.
     */
    method LoadInitialBalance()
      modifies this
      ensures stored == old(stored)
      ensures old(stored).Some? ==> initialBalance == old(stored).value && showModal == old(showModal)
      ensures old(stored).None? ==> initialBalance == old(initialBalance) && showModal
    {
      if stored.Some? {
        initialBalance := stored.value;
      } else {
        showModal := true;
      }
    }

    /**
     * `saveInitialBalance`: an accepted amount becomes the balance in use
     * and the stored one and closes the prompt; a rejected one changes
     * nothing.
     */
    method SaveInitialBalance(parsed: Option<real>) returns (outcome: Result<real, BalanceError>)
      modifies this
      ensures outcome == CheckInitialBalance(parsed)
      ensures outcome.Err? ==> initialBalance == old(initialBalance) && stored == old(stored)
                                && showModal == old(showModal)
      ensures outcome.Ok? ==> initialBalance == outcome.value && stored == Some(outcome.value)
                              && !showModal
    {
      outcome := CheckInitialBalance(parsed);
      if outcome.Ok? {
        stored := Some(outcome.value);
        initialBalance := outcome.value;
        showModal := false;
      }
    }
  }
}
