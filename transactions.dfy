/**
 * The transaction list page (src/pages/Transactions.tsx): validation of the
 * add-transaction form, the signed amount it stores, the income/expense
 * filter and the CSV text of the export.
 */
module TransactionsPage {
  import opened Wrappers
  import opened Ledger
  import opened Text
  import Dashboard

  // ---------------------------------------------------------------------
  // The filter buttons
  // ---------------------------------------------------------------------

  datatype FilterSetting = All | IncomeOnly | ExpenseOnly

  /**
   * Whether a transaction is listed under the chosen filter: "all" lists
   * everything, and the other two use the dashboard's income and expense
   * tests.
   */
  function Shows(f: FilterSetting): (p: Transaction -> bool)
    ensures f == All ==> forall t :: p(t)
    ensures f == IncomeOnly ==> forall t :: p(t) == IsIncome(t)
    ensures f == ExpenseOnly ==> forall t :: p(t) == IsExpense(t)
  {
    (t: Transaction) =>
      match f
      case All => true
      case IncomeOnly => t.amount > 0.0
      case ExpenseOnly => t.amount < 0.0
  }

  /** `filteredTransactions`: the listed transactions, in the loaded order. */
  function Filtered(s: seq<Transaction>, f: FilterSetting): (r: seq<Transaction>)
    ensures forall t :: t in r <==> t in s && Shows(f)(t)
  {
    Keep(s, Shows(f))
  }

  /**
   * The filter keeps the order of the list, keeps every copy of a listed
   * transaction, drops every copy of the others, and hides nothing under "all".
   */
  lemma FilteredSpec(s: seq<Transaction>, f: FilterSetting)
    ensures IsSubsequence(Filtered(s, f), s)
    ensures forall t :: multiset(Filtered(s, f))[t] == if Shows(f)(t) then multiset(s)[t] else 0
    ensures f == All ==> Filtered(s, f) == s
  {
    KeepIsSubsequence(s, Shows(f));
    KeepCounts(s, Shows(f));
    if f == All {
      KeepAll(s, Shows(f));
    }
  }

  /**
   * Income and expenses are disjoint views; together with the zero-amount
   * rows, which neither view lists, they account for the whole list.
   */
  lemma IncomeExpensePartition(s: seq<Transaction>)
    ensures forall t :: t in Filtered(s, IncomeOnly) ==> t !in Filtered(s, ExpenseOnly)
    ensures multiset(Filtered(s, IncomeOnly)) + multiset(Filtered(s, ExpenseOnly))
            + multiset(Keep(s, (t: Transaction) => t.amount == 0.0)) == multiset(s)
  {
    var zero := (t: Transaction) => t.amount == 0.0;
    KeepCounts(s, Shows(IncomeOnly));
    KeepCounts(s, Shows(ExpenseOnly));
    KeepCounts(s, zero);
    var lhs := multiset(Filtered(s, IncomeOnly)) + multiset(Filtered(s, ExpenseOnly)) + multiset(Keep(s, zero));
    forall t ensures lhs[t] == multiset(s)[t] {
    }
  }

  /** The income and expense views sum to the dashboard's totals. */
  lemma FilteredTotals(s: seq<Transaction>)
    ensures SumAmounts(Filtered(s, IncomeOnly)) == Dashboard.Income(s)
    ensures SumAbs(Filtered(s, ExpenseOnly)) == Dashboard.Expenses(s)
  {
    KeepAgreeing(s, Shows(IncomeOnly), IsIncome);
    KeepAgreeing(s, Shows(ExpenseOnly), IsExpense);
  }

  // ---------------------------------------------------------------------
  // The add-transaction form
  // ---------------------------------------------------------------------

  datatype EntryType = Income | Expense

  /** The raw form fields, as typed. `note` is absent when the field was never set. */
  datatype TransactionForm = TransactionForm(
    amount: string,
    category: string,
    note: Option<string>,
    date: string,
    kind: EntryType)

  /** The three schema messages. */
  datatype FieldError = AmountNotNonZeroNumber | CategoryRequired | DateRequired

  /**
   * `transactionSchema`: every failing field reports its message, in field
   * order. `toNumber` is `Number(...)`, with `None` for NaN.
   */
  function Validate(form: TransactionForm, toNumber: string -> Option<real>): (r: seq<FieldError>)
    ensures AmountNotNonZeroNumber in r <==> toNumber(form.amount) == None || toNumber(form.amount) == Some(0.0)
    ensures CategoryRequired in r <==> form.category == ""
    ensures DateRequired in r <==> form.date == ""
    ensures |r| <= 3
  {
    var n := toNumber(form.amount);
    (if n.None? || n.value == 0.0 then [AmountNotNonZeroNumber] else [])
    + (if |form.category| < 1 then [CategoryRequired] else [])
    + (if |form.date| < 1 then [DateRequired] else [])
  }

  /** The stored amount: the magnitude typed, negative for an expense, positive for income. */
  function SignedAmount(kind: EntryType, n: real): (r: real)
    ensures Abs(r) == Abs(n)
    ensures kind == Expense ==> r <= 0.0
    ensures kind == Income ==> r >= 0.0
    ensures n != 0.0 ==> r != 0.0
  {
    if kind == Expense then -Abs(n) else Abs(n)
  }

  /**
   * `onSubmit` after validation: the record sent to `createTransaction`.
   * `toDay` reads the `yyyy-MM-dd` date field as a day number.
   */
  function Submit(form: TransactionForm, toNumber: string -> Option<real>, toDay: string -> int)
    : (r: Result<Transaction, seq<FieldError>>)
    ensures r.Err? <==> Validate(form, toNumber) != []
    ensures r.Err? ==> r.error == Validate(form, toNumber)
    ensures r.Ok? ==> toNumber(form.amount).Some?
                      && r.value.amount != 0.0
                      && Abs(r.value.amount) == Abs(toNumber(form.amount).value)
                      && (IsExpense(r.value) <==> form.kind == Expense)
                      && (IsIncome(r.value) <==> form.kind == Income)
                      && r.value.currency == "INR"
                      && r.value.category == Some(form.category) && form.category != ""
                      && r.value.note == form.note
                      && r.value.date == toDay(form.date)
  {
    var errors := Validate(form, toNumber);
    if errors != [] then Err(errors)
    else
      Ok(Transaction(SignedAmount(form.kind, toNumber(form.amount).value), "INR",
                     Some(form.category), form.note, toDay(form.date)))
  }

  /**
   * A submitted transaction shows up under the filter matching its type and
   * under its own category on the dashboard, never under "Other" by default.
   */
  lemma SubmittedShowsUnderItsType(s: seq<Transaction>, form: TransactionForm,
                                   toNumber: string -> Option<real>, toDay: string -> int)
    requires Submit(form, toNumber, toDay).Ok?
    ensures var t := Submit(form, toNumber, toDay).value;
            var f := if form.kind == Income then IncomeOnly else ExpenseOnly;
            var other := if form.kind == Income then ExpenseOnly else IncomeOnly;
            Filtered(s + [t], f) == Filtered(s, f) + [t]
            && Filtered(s + [t], other) == Filtered(s, other)
            && Dashboard.CategoryOf(t) == form.category
  {
    var t := Submit(form, toNumber, toDay).value;
    KeepAppend(s, [t], Shows(IncomeOnly));
    KeepAppend(s, [t], Shows(ExpenseOnly));
    KeepSingleton(t, Shows(IncomeOnly));
    KeepSingleton(t, Shows(ExpenseOnly));
  }

  // ---------------------------------------------------------------------
  // CSV export
  // ---------------------------------------------------------------------

  const Header: string := "Date,Category,Note,Amount"

  /** The header cells, joined as the export joins every row. */
  lemma HeaderCells()
    ensures Join(["Date", "Category", "Note", "Amount"], ',') == Header
  {
  }

  /** A missing category or note is an empty cell. */
  function CellOf(v: Option<string>): (c: string)
    ensures v.Some? ==> c == v.value
    ensures v.None? ==> c == ""
  {
    match v
    case None => ""
    case Some(x) => x
  }

  /**
   * The four cells of a row. `dateText` is the `yyyy-MM-dd` formatting of the
   * date and `amountText` is `amount.toString()`.
   */
  function Cells(t: Transaction, dateText: int -> string, amountText: real -> string): (cs: seq<string>)
    ensures |cs| == 4
    ensures cs[1] == "" <==> t.category.None? || t.category == Some("")
    ensures cs[2] == "" <==> t.note.None? || t.note == Some("")
  {
    [dateText(t.date), CellOf(t.category), CellOf(t.note), amountText(t.amount)]
  }

  /**
   * One data line of the export: the cells joined by commas, without
   * quoting, so every line break in a row comes from one of its cells.
   */
  function Row(t: Transaction, dateText: int -> string, amountText: real -> string): (line: string)
    ensures Occurrences(line, '\n') == OccurrencesIn(Cells(t, dateText, amountText), '\n')
  {
    Join(Cells(t, dateText, amountText), ',')
  }

  function Rows(s: seq<Transaction>, dateText: int -> string, amountText: real -> string): (rs: seq<string>)
    ensures |rs| == |s|
  {
    seq(|s|, i requires 0 <= i < |s| => Row(s[i], dateText, amountText))
  }

  /**
   * `csvContent`: the header line followed by one line per listed
   * transaction. Whatever the cells hold, the first line is the header.
   */
  function Csv(s: seq<Transaction>, dateText: int -> string, amountText: real -> string): (text: string)
    ensures Split(text, '\n')[0] == Header
  {
    var lines := [Header] + Rows(s, dateText, amountText);
    SplitJoinHead(lines, '\n');
    Join(lines, '\n')
  }

  /** How many line breaks the cells of the listed transactions hold in all. */
  function CellBreaks(s: seq<Transaction>, dateText: int -> string, amountText: real -> string): nat
  {
    if s == [] then 0
    else OccurrencesIn(Cells(s[0], dateText, amountText), '\n') + CellBreaks(s[1..], dateText, amountText)
  }

  /** Whether no cell of the export holds a line break. */
  predicate SingleLineCells(s: seq<Transaction>, dateText: int -> string, amountText: real -> string)
  {
    forall t :: t in s ==> forall j :: 0 <= j < 4 ==> '\n' !in Cells(t, dateText, amountText)[j]
  }

  /** An export with nothing listed is the header alone. */
  lemma CsvOfEmpty(dateText: int -> string, amountText: real -> string)
    ensures Csv([], dateText, amountText) == Header
  {
  }

  /**
   * Read back line by line, the export is the header followed by one row per
   * listed transaction, in list order, as long as no cell holds a line break.
   */
  lemma CsvLines(s: seq<Transaction>, dateText: int -> string, amountText: real -> string)
    requires SingleLineCells(s, dateText, amountText)
    ensures Split(Csv(s, dateText, amountText), '\n') == [Header] + Rows(s, dateText, amountText)
    ensures |Split(Csv(s, dateText, amountText), '\n')| == |s| + 1
  {
    var lines := [Header] + Rows(s, dateText, amountText);
    forall i | 0 <= i < |lines| ensures '\n' !in lines[i] {
      if i > 0 {
        var t := s[i - 1];
        JoinAvoids(Cells(t, dateText, amountText), ',', '\n');
      }
    }
    SplitJoin(lines, '\n');
  }

  /**
   * Read back line by line, the export has the header line, one line per
   * listed transaction, and one more line for every line break inside a
   * cell (a note typed over several lines, say), since cells are not quoted.
   */
  lemma CsvLineCount(s: seq<Transaction>, dateText: int -> string, amountText: real -> string)
    ensures |Split(Csv(s, dateText, amountText), '\n')| == |s| + 1 + CellBreaks(s, dateText, amountText)
  {
    SplitCount(Csv(s, dateText, amountText), '\n');
    CsvBreaks(s, dateText, amountText);
  }

  /** The export's line breaks: one before each row, plus those inside cells. */
  lemma CsvBreaks(s: seq<Transaction>, dateText: int -> string, amountText: real -> string)
    ensures Occurrences(Csv(s, dateText, amountText), '\n') == |s| + CellBreaks(s, dateText, amountText)
  {
    HeaderSingleLine();
    JoinAfterHead(Header, Rows(s, dateText, amountText), '\n');
    RowsBreaks(s, dateText, amountText);
  }

  lemma HeaderSingleLine()
    ensures Occurrences(Header, '\n') == 0
  {
    assert forall i :: 0 <= i < |Header| ==> Header[i] != '\n';
  }

  lemma {:induction false} RowsBreaks(s: seq<Transaction>, dateText: int -> string, amountText: real -> string)
    ensures OccurrencesIn(Rows(s, dateText, amountText), '\n') == CellBreaks(s, dateText, amountText)
  {
    if s != [] {
      var rs := Rows(s, dateText, amountText);
      assert rs[1..] == Rows(s[1..], dateText, amountText);
      RowsBreaks(s[1..], dateText, amountText);
    }
  }

  /**
   * A missing or empty category exports as an empty cell, while the
   * dashboard files the same transaction under "Other"; any other category
   * is the same text in both places.
   */
  lemma CategoryCellAndSlice(t: Transaction, dateText: int -> string, amountText: real -> string)
    ensures t.category.None? || t.category == Some("") ==>
              Cells(t, dateText, amountText)[1] == "" && Dashboard.CategoryOf(t) == Dashboard.OtherCategory
    ensures t.category.Some? && t.category.value != "" ==>
              Cells(t, dateText, amountText)[1] == Dashboard.CategoryOf(t) != ""
  {
  }

  /**
   * Cells are not quoted, so a row reads back as exactly its four cells when
   * no cell holds a comma, and every comma inside a cell adds a column.
   */
  lemma RowColumns(t: Transaction, dateText: int -> string, amountText: real -> string)
    ensures |Split(Row(t, dateText, amountText), ',')|
            == 4 + OccurrencesIn(Cells(t, dateText, amountText), ',')
    ensures (forall j :: 0 <= j < 4 ==> ',' !in Cells(t, dateText, amountText)[j])
            ==> Split(Row(t, dateText, amountText), ',') == Cells(t, dateText, amountText)
  {
    var cells := Cells(t, dateText, amountText);
    SplitCount(Row(t, dateText, amountText), ',');
    JoinOccurrences(cells, ',');
    if forall j :: 0 <= j < 4 ==> ',' !in cells[j] {
      SplitJoin(cells, ',');
    }
  }
}
