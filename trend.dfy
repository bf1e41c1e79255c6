/**
 * The dashboard's 30-day trend (`trendData` in src/pages/Dashboard.tsx):
 * keep the transactions at most 30 days old, sort them by date, then
 * accumulate income and expenses per display label.
 *
 * The display label (`format(date, 'MMM dd')`) is a parameter `dayLabel`
 * from day number to text; two days with the same label share a bucket.
 */
module DashboardTrend {
  import opened Ledger
  import opened OrderedRecord
  import Dashboard

  /** `1000 * 60 * 60 * 24` */
  const MsPerDay: int := 86_400_000

  const WindowDays: int := 30

  /**
   * `Math.floor((Date.now() - new Date(t.date).getTime()) / MsPerDay)` for a
   * date stored as a UTC day number; Dafny's `/` rounds toward negative
   * infinity for a positive divisor, as `Math.floor` does: the result is
   * the number of whole days in the age.
   */
  function DaysAgo(nowMs: int, day: int): (n: int)
    ensures n * MsPerDay <= nowMs - day * MsPerDay < (n + 1) * MsPerDay
  {
    (nowMs - day * MsPerDay) / MsPerDay
  }

  predicate InWindow(nowMs: int, t: Transaction)
  {
    DaysAgo(nowMs, t.date) <= WindowDays
  }

  function WithinWindow(nowMs: int): Transaction -> bool
  {
    (t: Transaction) => InWindow(nowMs, t)
  }

  /** The age in days is today's day number minus the transaction's day number. */
  lemma DaysAgoIsDayDifference(nowMs: int, day: int)
    ensures DaysAgo(nowMs, day) == nowMs / MsPerDay - day
  {
    var q, r := nowMs / MsPerDay, nowMs % MsPerDay;
    assert nowMs - day * MsPerDay == (q - day) * MsPerDay + r;
  }

  /**
   * The window keeps exactly the days from 30 days before today onward:
   * older transactions are excluded and future-dated ones are kept.
   */
  lemma InWindowBoundary(nowMs: int, t: Transaction)
    ensures InWindow(nowMs, t) <==> t.date >= nowMs / MsPerDay - WindowDays
  {
    DaysAgoIsDayDifference(nowMs, t.date);
  }

  predicate SortedByDate(s: seq<Transaction>)
  {
    forall i, j :: 0 <= i < j < |s| ==> s[i].date <= s[j].date
  }

  function DatedOn(d: int): Transaction -> bool
  {
    (t: Transaction) => t.date == d
  }

  /** Places `x` after every element of `r` dated on or before `x`'s day. */
  function InsertByDate(r: seq<Transaction>, x: Transaction): seq<Transaction>
  {
    if r == [] || r[|r| - 1].date <= x.date then r + [x]
    else InsertByDate(r[..|r| - 1], x) + [r[|r| - 1]]
  }

  /**
   * `sort((a, b) => getTime(a) - getTime(b))`: `Array.prototype.sort` is
   * stable, so this is the ascending-by-date order that keeps same-day
   * transactions in list order.
   */
  function SortByDate(s: seq<Transaction>): (r: seq<Transaction>)
    ensures SortedByDate(r)
    ensures multiset(r) == multiset(s)
  {
    if s == [] then []
    else
      var s', last := s[..|s| - 1], s[|s| - 1];
      assert s == s' + [last];
      InsertByDateSorted(SortByDate(s'), last);
      InsertByDateCounts(SortByDate(s'), last);
      InsertByDate(SortByDate(s'), last)
  }

  lemma {:induction false} InsertByDateCounts(r: seq<Transaction>, x: Transaction)
    ensures multiset(InsertByDate(r, x)) == multiset(r) + multiset{x}
  {
    if r != [] && r[|r| - 1].date > x.date {
      var r', last := r[..|r| - 1], r[|r| - 1];
      InsertByDateCounts(r', x);
      assert r == r' + [last];
    }
  }

  lemma {:induction false} InsertByDateSorted(r: seq<Transaction>, x: Transaction)
    requires SortedByDate(r)
    ensures SortedByDate(InsertByDate(r, x))
  {
    if r != [] && r[|r| - 1].date > x.date {
      var r', last := r[..|r| - 1], r[|r| - 1];
      InsertByDateSorted(r', x);
      InsertByDateCounts(r', x);
      var q := InsertByDate(r', x);
      forall i | 0 <= i < |q| ensures q[i].date <= last.date {
        assert q[i] in multiset(q);
        if q[i] != x {
          assert q[i] in multiset(r');
          var j :| 0 <= j < |r'| && r'[j] == q[i];
          assert r[j] == q[i];
        }
      }
    }
  }

  /**
   * Inserting `x` leaves every day's transactions in their order and puts
   * `x` after those of its own day.
   */
  lemma {:induction false} InsertByDateStable(r: seq<Transaction>, x: Transaction, d: int)
    ensures Keep(InsertByDate(r, x), DatedOn(d)) == Keep(r, DatedOn(d)) + Keep([x], DatedOn(d))
  {
    if r == [] || r[|r| - 1].date <= x.date {
      KeepAppend(r, [x], DatedOn(d));
    } else {
      var r', last := r[..|r| - 1], r[|r| - 1];
      assert r == r' + [last];
      var D := DatedOn(d);
      InsertByDateStable(r', x, d);
      KeepAppend(InsertByDate(r', x), [last], D);
      KeepAppend(r', [last], D);
      KeepSingleton(x, D);
      KeepSingleton(last, D);
      SwapAroundEmpty(Keep(r', D), Keep([x], D), Keep([last], D));
    }
  }

  /** Two lists of which one is empty can trade places. */
  lemma SwapAroundEmpty(a: seq<Transaction>, x: seq<Transaction>, l: seq<Transaction>)
    requires x == [] || l == []
    ensures a + x + l == a + l + x
  {
    if x == [] {
      assert a + x == a && l + x == l;
    } else {
      assert x + l == x && a + l == a;
    }
  }

  /**
   * The date sort is ascending, is a permutation of its input, and is
   * stable: each day's transactions keep their relative order.
   */
  lemma {:induction false} SortByDateCorrect(s: seq<Transaction>)
    ensures SortedByDate(SortByDate(s))
    ensures multiset(SortByDate(s)) == multiset(s)
    ensures forall d :: Keep(SortByDate(s), DatedOn(d)) == Keep(s, DatedOn(d))
  {
    if s != [] {
      var s', last := s[..|s| - 1], s[|s| - 1];
      assert s == s' + [last];
      SortByDateCorrect(s');
      InsertByDateSorted(SortByDate(s'), last);
      InsertByDateCounts(SortByDate(s'), last);
      forall d ensures Keep(SortByDate(s), DatedOn(d)) == Keep(s, DatedOn(d)) {
        InsertByDateStable(SortByDate(s'), last, d);
        KeepAppend(s', [last], DatedOn(d));
      }
    }
  }

  /** Two lists with the same multiset have the same members. */
  lemma SameMembers(a: seq<Transaction>, b: seq<Transaction>)
    requires multiset(a) == multiset(b)
    ensures forall t :: t in a <==> t in b
  {
    forall t ensures t in a <==> t in b {
      assert t in a <==> t in multiset(a);
      assert t in b <==> t in multiset(b);
    }
  }

  /** `last30Days`: the in-window transactions, earliest day first. */
  function Window(s: seq<Transaction>, nowMs: int): (w: seq<Transaction>)
    ensures SortedByDate(w)
    ensures forall t :: t in w <==> t in s && InWindow(nowMs, t)
  {
    var kept := Keep(s, WithinWindow(nowMs));
    SameMembers(SortByDate(kept), kept);
    SortByDate(kept)
  }

  /**
   * The window holds every in-window occurrence and nothing else, sorted
   * by date, with each day's transactions in their list order.
   */
  lemma WindowContents(s: seq<Transaction>, nowMs: int)
    ensures SortedByDate(Window(s, nowMs))
    ensures forall t :: multiset(Window(s, nowMs))[t] == if InWindow(nowMs, t) then multiset(s)[t] else 0
    ensures forall d :: Keep(Window(s, nowMs), DatedOn(d)) == Keep(Keep(s, WithinWindow(nowMs)), DatedOn(d))
  {
    SortByDateCorrect(Keep(s, WithinWindow(nowMs)));
    KeepCounts(s, WithinWindow(nowMs));
  }

  /** `{ income, expenses }` of one label. */
  datatype Bucket = Bucket(income: real, expenses: real)

  const EmptyBucket := Bucket(0.0, 0.0)

  /**
   * The `forEach` update: a positive amount goes to income, any other
   * amount (zero included) adds its magnitude to expenses.
   */
  function Credit(t: Transaction): Bucket -> Bucket
  {
    (b: Bucket) => if t.amount > 0.0 then Bucket(b.income + t.amount, b.expenses)
         else Bucket(b.income, b.expenses + Abs(t.amount))
  }

  /**
   * Crediting a bucket adds exactly what the transaction adds to the
   * dashboard's income and expense cards; a zero amount adds nothing.
   */
  lemma CreditMatchesCards(t: Transaction, b: Bucket)
    ensures Credit(t)(b) == Bucket(b.income + Dashboard.IncomePart(t), b.expenses + Dashboard.ExpensePart(t))
  {
  }

  function BucketIncome(b: Bucket): real
  {
    b.income
  }

  function BucketExpenses(b: Bucket): real
  {
    b.expenses
  }

  /** The label of each transaction, in list order. */
  function LabelsOf(w: seq<Transaction>, dayLabel: int -> string): (ls: seq<string>)
    ensures |ls| == |w| && forall i :: 0 <= i < |w| ==> ls[i] == dayLabel(w[i].date)
  {
    seq(|w|, i requires 0 <= i < |w| => dayLabel(w[i].date))
  }

  /** One more transaction appends its label. */
  lemma LabelsOfSnoc(w: seq<Transaction>, t: Transaction, dayLabel: int -> string)
    ensures LabelsOf(w + [t], dayLabel) == LabelsOf(w, dayLabel) + [dayLabel(t.date)]
  {
  }

  function HasLabel(dayLabel: int -> string, k: string): Transaction -> bool
  {
    (t: Transaction) => dayLabel(t.date) == k
  }

  /** The `forEach` over the window, as entries of the `grouped` record. */
  function GroupByLabel(w: seq<Transaction>, dayLabel: int -> string): (r: seq<Entry<Bucket>>)
    ensures UniqueKeys(r)
    ensures Keys(r) == FirstOccurrences(LabelsOf(w, dayLabel))
  {
    if w == [] then []
    else
      var w', t := w[..|w| - 1], w[|w| - 1];
      var r0 := GroupByLabel(w', dayLabel);
      assert w == w' + [t];
      LabelsOfSnoc(w', t, dayLabel);
      UpsertFirstOccurrences(r0, LabelsOf(w', dayLabel), dayLabel(t.date), Credit(t), EmptyBucket);
      Upsert(r0, dayLabel(t.date), Credit(t), EmptyBucket)
  }

  /** `trendData`: one point per day label of the window, in first-seen order. */
  function Trend(s: seq<Transaction>, nowMs: int, dayLabel: int -> string): (r: seq<Entry<Bucket>>)
    ensures UniqueKeys(r)
    ensures Keys(r) == FirstOccurrences(LabelsOf(Window(s, nowMs), dayLabel))
  {
    GroupByLabel(Window(s, nowMs), dayLabel)
  }

  /** Across all buckets, income and expenses add up to the totals of the grouped list. */
  lemma {:induction false} GroupTotals(w: seq<Transaction>, dayLabel: int -> string)
    ensures SumBy(GroupByLabel(w, dayLabel), BucketIncome) == Dashboard.Income(w)
    ensures SumBy(GroupByLabel(w, dayLabel), BucketExpenses) == Dashboard.Expenses(w)
  {
    if w == [] {
      assert Keep(w, IsIncome) == [] && Keep(w, IsExpense) == [];
    } else {
      GroupTotals(w[..|w| - 1], dayLabel);
      GroupTotalsStep(w, dayLabel);
    }
  }

  /**
   * Crediting the last transaction of `w` to buckets that sum to the totals
   * of the rest of `w` gives buckets that sum to the totals of `w`.
   */
  lemma GroupTotalsStep(w: seq<Transaction>, dayLabel: int -> string)
    requires w != []
    requires SumBy(GroupByLabel(w[..|w| - 1], dayLabel), BucketIncome) == Dashboard.Income(w[..|w| - 1])
    requires SumBy(GroupByLabel(w[..|w| - 1], dayLabel), BucketExpenses) == Dashboard.Expenses(w[..|w| - 1])
    ensures var t := w[|w| - 1];
            var r := Upsert(GroupByLabel(w[..|w| - 1], dayLabel), dayLabel(t.date), Credit(t), EmptyBucket);
            SumBy(r, BucketIncome) == Dashboard.Income(w) && SumBy(r, BucketExpenses) == Dashboard.Expenses(w)
  {
    var w', t := w[..|w| - 1], w[|w| - 1];
    CreditTotals(GroupByLabel(w', dayLabel), w', t, dayLabel(t.date));
    Ledger.SnocLast(w);
  }

  /** Crediting one bucket keeps the bucket sums equal to the totals of the credited list. */
  lemma CreditTotals(r0: seq<Entry<Bucket>>, w: seq<Transaction>, t: Transaction, k: string)
    requires SumBy(r0, BucketIncome) == Dashboard.Income(w)
    requires SumBy(r0, BucketExpenses) == Dashboard.Expenses(w)
    ensures SumBy(Upsert(r0, k, Credit(t), EmptyBucket), BucketIncome) == Dashboard.Income(w + [t])
    ensures SumBy(Upsert(r0, k, Credit(t), EmptyBucket), BucketExpenses) == Dashboard.Expenses(w + [t])
  {
    Dashboard.TotalsStep(w, t);
    forall b ensures BucketIncome(Credit(t)(b)) == BucketIncome(b) + Dashboard.IncomePart(t)
                && BucketExpenses(Credit(t)(b)) == BucketExpenses(b) + Dashboard.ExpensePart(t) {
      CreditMatchesCards(t, b);
    }
    SumByUpsert(r0, k, Credit(t), EmptyBucket, BucketIncome, Dashboard.IncomePart(t));
    SumByUpsert(r0, k, Credit(t), EmptyBucket, BucketExpenses, Dashboard.ExpensePart(t));
  }

  /** The bucket `dayLabel`-labelled transactions of `w` should add up to. */
  function LabelTotals(w: seq<Transaction>, dayLabel: int -> string, k: string): Bucket
  {
    var mine := Keep(w, HasLabel(dayLabel, k));
    Bucket(Dashboard.Income(mine), Dashboard.Expenses(mine))
  }

  lemma LabelTotalsStep(w: seq<Transaction>, t: Transaction, dayLabel: int -> string, k: string)
    ensures LabelTotals(w + [t], dayLabel, k)
         == if dayLabel(t.date) == k then Credit(t)(LabelTotals(w, dayLabel, k)) else LabelTotals(w, dayLabel, k)
  {
    var mine := Keep(w, HasLabel(dayLabel, k));
    KeepAppend(w, [t], HasLabel(dayLabel, k));
    KeepSingleton(t, HasLabel(dayLabel, k));
    if dayLabel(t.date) == k {
      BucketStep(mine, t);
    }
  }

  /** The bucket of a list with one more transaction is the old bucket credited with it. */
  lemma BucketStep(mine: seq<Transaction>, t: Transaction)
    ensures Bucket(Dashboard.Income(mine + [t]), Dashboard.Expenses(mine + [t]))
         == Credit(t)(Bucket(Dashboard.Income(mine), Dashboard.Expenses(mine)))
  {
    Dashboard.TotalsStep(mine, t);
  }

  lemma NoneLabelled(w: seq<Transaction>, dayLabel: int -> string, k: string)
    requires k !in LabelsOf(w, dayLabel)
    ensures Keep(w, HasLabel(dayLabel, k)) == []
  {
    forall u | u in w ensures !HasLabel(dayLabel, k)(u) {
      var j :| 0 <= j < |w| && w[j] == u;
      assert LabelsOf(w, dayLabel)[j] == dayLabel(u.date);
    }
  }

  lemma LabelTotalsAbsent(w: seq<Transaction>, dayLabel: int -> string, k: string)
    requires k !in LabelsOf(w, dayLabel)
    ensures LabelTotals(w, dayLabel, k) == EmptyBucket
  {
    NoneLabelled(w, dayLabel, k);
    Dashboard.StatsOfEmpty(0.0);
  }

  /** Each bucket holds the income and the expenses of the transactions carrying its label. */
  lemma {:induction false} GroupValues(w: seq<Transaction>, dayLabel: int -> string)
    ensures forall i :: 0 <= i < |GroupByLabel(w, dayLabel)| ==>
      GroupByLabel(w, dayLabel)[i].value == LabelTotals(w, dayLabel, GroupByLabel(w, dayLabel)[i].key)
  {
    if w != [] {
      var w', t := w[..|w| - 1], w[|w| - 1];
      assert w == w' + [t];
      GroupValues(w', dayLabel);
      GroupSnoc(w', t, dayLabel);
      var r0 := GroupByLabel(w', dayLabel);
      if dayLabel(t.date) !in Keys(r0) {
        LabelTotalsAbsent(w', dayLabel, dayLabel(t.date));
      }
      forall i | 0 <= i < |GroupByLabel(w, dayLabel)|
        ensures GroupByLabel(w, dayLabel)[i].value == LabelTotals(w, dayLabel, GroupByLabel(w, dayLabel)[i].key)
      {
        GroupValueStep(r0, w', t, dayLabel, i);
      }
    }
  }

  /** Grouping one more transaction upserts it into its label's bucket. */
  lemma GroupSnoc(w: seq<Transaction>, t: Transaction, dayLabel: int -> string)
    ensures GroupByLabel(w + [t], dayLabel) == Upsert(GroupByLabel(w, dayLabel), dayLabel(t.date), Credit(t), EmptyBucket)
  {
    assert (w + [t])[..|w|] == w;
  }

  /**
   * Crediting one more transaction to buckets that hold their labels'
   * totals keeps every bucket equal to its label's totals.
   */
  lemma GroupValueStep(r0: seq<Entry<Bucket>>, w: seq<Transaction>, t: Transaction, dayLabel: int -> string, i: nat)
    requires UniqueKeys(r0)
    requires forall j :: 0 <= j < |r0| ==> r0[j].value == LabelTotals(w, dayLabel, r0[j].key)
    requires dayLabel(t.date) !in Keys(r0) ==> LabelTotals(w, dayLabel, dayLabel(t.date)) == EmptyBucket
    requires i < |Upsert(r0, dayLabel(t.date), Credit(t), EmptyBucket)|
    ensures var r := Upsert(r0, dayLabel(t.date), Credit(t), EmptyBucket);
            r[i].value == LabelTotals(w + [t], dayLabel, r[i].key)
  {
    var k := dayLabel(t.date);
    var r := Upsert(r0, k, Credit(t), EmptyBucket);
    UpsertAt(r0, k, Credit(t), EmptyBucket, i);
    LabelTotalsStep(w, t, dayLabel, r[i].key);
    if i < |r0| {
      if r0[i].key == k {
        assert r[i].value == Credit(t)(r0[i].value);
      } else {
        assert r[i] == r0[i];
      }
    } else {
      assert r[i] == Entry(k, Credit(t)(EmptyBucket));
    }
  }

  /** With no transactions the trend is empty. */
  lemma TrendOfEmpty(nowMs: int, dayLabel: int -> string)
    ensures Trend([], nowMs, dayLabel) == []
  {
    assert Keep([], WithinWindow(nowMs)) == [];
  }

  /**
   * Labels are unique, and a label appears exactly when some transaction
   * in the window carries it.
   */
  lemma TrendLabels(s: seq<Transaction>, nowMs: int, dayLabel: int -> string)
    ensures UniqueKeys(Trend(s, nowMs, dayLabel))
    ensures forall k :: k in Keys(Trend(s, nowMs, dayLabel)) <==>
      exists t :: t in s && InWindow(nowMs, t) && dayLabel(t.date) == k
  {
    var w := Window(s, nowMs);
    forall k ensures k in LabelsOf(w, dayLabel) <==> exists t :: t in s && InWindow(nowMs, t) && dayLabel(t.date) == k {
      if k in LabelsOf(w, dayLabel) {
        WindowLabelFrom(s, nowMs, dayLabel, k);
      }
      if t :| t in s && InWindow(nowMs, t) && dayLabel(t.date) == k {
        WindowLabelOf(s, nowMs, dayLabel, t);
      }
    }
  }

  /** Every label in the window comes from an in-window transaction of the list. */
  lemma WindowLabelFrom(s: seq<Transaction>, nowMs: int, dayLabel: int -> string, k: string)
    requires k in LabelsOf(Window(s, nowMs), dayLabel)
    ensures exists t :: t in s && InWindow(nowMs, t) && dayLabel(t.date) == k
  {
    var w := Window(s, nowMs);
    WindowContents(s, nowMs);
    var i :| 0 <= i < |w| && LabelsOf(w, dayLabel)[i] == k;
    assert w[i] in multiset(w);
  }

  /** Every in-window transaction of the list lends its label to the window. */
  lemma WindowLabelOf(s: seq<Transaction>, nowMs: int, dayLabel: int -> string, t: Transaction)
    requires t in s && InWindow(nowMs, t)
    ensures dayLabel(t.date) in LabelsOf(Window(s, nowMs), dayLabel)
  {
    var w := Window(s, nowMs);
    WindowContents(s, nowMs);
    assert t in multiset(w);
    var i :| 0 <= i < |w| && w[i] == t;
    assert LabelsOf(w, dayLabel)[i] == dayLabel(t.date);
  }

  /** Across all buckets, income and expenses add up to the totals of the window. */
  lemma TrendTotals(s: seq<Transaction>, nowMs: int, dayLabel: int -> string)
    ensures SumBy(Trend(s, nowMs, dayLabel), BucketIncome) == Dashboard.Income(Keep(s, WithinWindow(nowMs)))
    ensures SumBy(Trend(s, nowMs, dayLabel), BucketExpenses) == Dashboard.Expenses(Keep(s, WithinWindow(nowMs)))
  {
    GroupTotals(Window(s, nowMs), dayLabel);
    SortByDateCorrect(Keep(s, WithinWindow(nowMs)));
    Dashboard.TotalsOrderIndependent(Window(s, nowMs), Keep(s, WithinWindow(nowMs)));
  }

  /** The day of the earliest window transaction that carries label `k`. */
  function FirstDate(w: seq<Transaction>, dayLabel: int -> string, k: string): int
    requires k in LabelsOf(w, dayLabel)
  {
    w[FirstIndex(LabelsOf(w, dayLabel), k)].date
  }

  /**
   * The trend is chronological: each bucket's earliest day comes strictly
   * before the next bucket's, whatever order the labels would sort in.
   */
  lemma TrendChronological(s: seq<Transaction>, nowMs: int, dayLabel: int -> string, i: nat, j: nat)
    requires i < j < |Trend(s, nowMs, dayLabel)|
    ensures var tr, w := Trend(s, nowMs, dayLabel), Window(s, nowMs);
      tr[i].key in LabelsOf(w, dayLabel) && tr[j].key in LabelsOf(w, dayLabel) &&
      FirstDate(w, dayLabel, tr[i].key) < FirstDate(w, dayLabel, tr[j].key)
  {
    var w := Window(s, nowMs);
    WindowContents(s, nowMs);
    GroupChronological(w, dayLabel, i, j);
  }

  /** Over a date-sorted list, the buckets' earliest days strictly increase. */
  lemma GroupChronological(w: seq<Transaction>, dayLabel: int -> string, i: nat, j: nat)
    requires SortedByDate(w)
    requires i < j < |GroupByLabel(w, dayLabel)|
    ensures var tr := GroupByLabel(w, dayLabel);
      tr[i].key in LabelsOf(w, dayLabel) && tr[j].key in LabelsOf(w, dayLabel) &&
      FirstDate(w, dayLabel, tr[i].key) < FirstDate(w, dayLabel, tr[j].key)
  {
    var ls := LabelsOf(w, dayLabel);
    var d := FirstOccurrences(ls);
    assert Keys(GroupByLabel(w, dayLabel)) == d;
    FirstOccurrencesInOrder(ls, i, j);
    EarlierFirstIndex(w, dayLabel, d[i], d[j]);
  }

  /** Of two distinct labels, the one that occurs first in a date-sorted list has the earlier first day. */
  lemma EarlierFirstIndex(w: seq<Transaction>, dayLabel: int -> string, x: string, y: string)
    requires SortedByDate(w)
    requires x in LabelsOf(w, dayLabel) && y in LabelsOf(w, dayLabel) && x != y
    requires FirstIndex(LabelsOf(w, dayLabel), x) < FirstIndex(LabelsOf(w, dayLabel), y)
    ensures FirstDate(w, dayLabel, x) < FirstDate(w, dayLabel, y)
  {
    var ls := LabelsOf(w, dayLabel);
    var a, b := FirstIndex(ls, x), FirstIndex(ls, y);
    assert w[a].date <= w[b].date;
    assert dayLabel(w[a].date) == x && dayLabel(w[b].date) == y;
  }

  /**
   * A transaction older than the window leaves the trend unchanged yet
   * still counts in the dashboard totals.
   */
  lemma OldTransactionOnlyInTotals(s: seq<Transaction>, t: Transaction, nowMs: int, dayLabel: int -> string)
    requires !InWindow(nowMs, t)
    ensures Trend(s + [t], nowMs, dayLabel) == Trend(s, nowMs, dayLabel)
    ensures Dashboard.Income(s + [t]) == Dashboard.Income(s) + Dashboard.IncomePart(t)
    ensures Dashboard.Expenses(s + [t]) == Dashboard.Expenses(s) + Dashboard.ExpensePart(t)
  {
    KeepAppend(s, [t], WithinWindow(nowMs));
    assert Keep([t], WithinWindow(nowMs)) == [];
    Dashboard.TotalsStep(s, t);
  }

  /**
   * A zero-amount transaction in the window still opens a bucket for its
   * label, holding zero income and zero expenses.
   */
  lemma ZeroAmountOpensBucket(t: Transaction, nowMs: int, dayLabel: int -> string)
    requires t.amount == 0.0 && InWindow(nowMs, t)
    ensures Trend([t], nowMs, dayLabel) == [Entry(dayLabel(t.date), EmptyBucket)]
  {
    assert Keep([t], WithinWindow(nowMs)) == [t];
    assert SortByDate([t]) == [t];
    assert GroupByLabel([t], dayLabel) == Upsert([], dayLabel(t.date), Credit(t), EmptyBucket);
  }

  /** Two different days with the same label share one bucket. */
  lemma SameLabelMerges(t1: Transaction, t2: Transaction, nowMs: int, dayLabel: int -> string)
    requires InWindow(nowMs, t1) && InWindow(nowMs, t2)
    requires t1.date < t2.date && dayLabel(t1.date) == dayLabel(t2.date)
    ensures Keys(Trend([t1, t2], nowMs, dayLabel)) == [dayLabel(t1.date)]
  {
    var w := Window([t1, t2], nowMs);
    var k := dayLabel(t1.date);
    WindowContents([t1, t2], nowMs);
    assert multiset([t1, t2])[t1] > 0;
    assert t1 in multiset(w);
    forall i | 0 <= i < |w| ensures LabelsOf(w, dayLabel)[i] == k {
      assert w[i] in multiset(w);
      assert w[i] in multiset([t1, t2]);
      assert w[i] == t1 || w[i] == t2;
    }
    FirstOccurrencesConstant(LabelsOf(w, dayLabel), k);
  }

  /**
   * The `forEach` callback of `trendData`: create the label's bucket on
   * first sight, then add to its income or its expenses.
   */
  method AddToBucket(order: seq<string>, grouped: map<string, Bucket>, t: Transaction, dayLabel: int -> string)
    returns (order': seq<string>, grouped': map<string, Bucket>)
    requires RecordShape(order, grouped)
    ensures RecordShape(order', grouped')
    ensures Entries(order', grouped') == Upsert(Entries(order, grouped), dayLabel(t.date), Credit(t), EmptyBucket)
  {
    var date := dayLabel(t.date);
    order', grouped' := order, grouped;
    if date !in grouped' {
      grouped' := grouped'[date := EmptyBucket];
      order' := order' + [date];
    }
    if t.amount > 0.0 {
      grouped' := grouped'[date := grouped'[date].(income := grouped'[date].income + t.amount)];
    } else {
      grouped' := grouped'[date := grouped'[date].(expenses := grouped'[date].expenses + Abs(t.amount))];
    }
    assert grouped' == grouped[date := Credit(t)(if date in grouped then grouped[date] else EmptyBucket)];
    EntriesUpsert(order, grouped, date, Credit(t), EmptyBucket, order', grouped');
  }

  /**
   * `trendData`: the window, then a record from label to bucket filled in
   * window order, listed with `Object.entries`.
   */
  method TrendData(transactions: seq<Transaction>, nowMs: int, dayLabel: int -> string)
    returns (trend: seq<Entry<Bucket>>)
    ensures trend == Trend(transactions, nowMs, dayLabel)
  {
    var last30Days := Window(transactions, nowMs);
    var grouped: map<string, Bucket> := map[];
    var order: seq<string> := [];
    for i := 0 to |last30Days|
      invariant RecordShape(order, grouped)
      invariant Entries(order, grouped) == GroupByLabel(last30Days[..i], dayLabel)
    {
      order, grouped := AddToBucket(order, grouped, last30Days[i], dayLabel);
      assert last30Days[..i + 1][..i] == last30Days[..i];
    }
    assert last30Days[..|last30Days|] == last30Days;
    trend := Entries(order, grouped);
  }
}
