/**
 * The transaction record shared by the dashboard and the transaction list
 * (src/services/transactions.ts), and the list helpers both pages use:
 * `Array.prototype.filter`, the sign tests and the two sums.
 */
module Ledger {
  import opened Wrappers

  /**
   * One row of the `transactions` table. `amount` is an exact decimal:
   * positive is income, negative is an expense. `date` is a calendar day,
   * counted in days since 1970-01-01 (UTC).
   */
  datatype Transaction = Transaction(
    amount: real,
    currency: string,
    category: Option<string>,
    note: Option<string>,
    date: int)

  predicate IsIncome(t: Transaction) { t.amount > 0.0 }

  predicate IsExpense(t: Transaction) { t.amount < 0.0 }

  /** `Math.abs` */
  function Abs(x: real): (r: real)
    ensures r >= 0.0
    ensures r == x || r == -x
  {
    if x < 0.0 then -x else x
  }

  /** `Array.prototype.filter`: keeps, in order, the elements that satisfy `p`. */
  function Keep(s: seq<Transaction>, p: Transaction -> bool): (r: seq<Transaction>)
    ensures forall t :: t in r <==> t in s && p(t)
  {
    if s == [] then []
    else
      var last := s[|s| - 1];
      assert s == s[..|s| - 1] + [last];
      var r0 := Keep(s[..|s| - 1], p);
      if p(last) then r0 + [last] else r0
  }

  /** A filter keeps every occurrence of a satisfying element and drops every other one. */
  lemma {:induction false} KeepCounts(s: seq<Transaction>, p: Transaction -> bool)
    ensures forall t :: multiset(Keep(s, p))[t] == if p(t) then multiset(s)[t] else 0
  {
    if s != [] {
      var s', last := s[..|s| - 1], s[|s| - 1];
      KeepCounts(s', p);
      assert s == s' + [last];
      assert multiset(s) == multiset(s') + multiset{last};
    }
  }

  /** `r` is `s` with some elements removed and the rest in their original order. */
  predicate IsSubsequence(r: seq<Transaction>, s: seq<Transaction>)
    decreases |s|
  {
    if r == [] then true
    else if s == [] then false
    else if r[|r| - 1] == s[|s| - 1] then IsSubsequence(r[..|r| - 1], s[..|s| - 1])
    else IsSubsequence(r, s[..|s| - 1])
  }

  lemma {:induction false} SubsequenceExtend(r: seq<Transaction>, s: seq<Transaction>, x: Transaction)
    requires IsSubsequence(r, s)
    ensures IsSubsequence(r, s + [x])
    decreases |s|, 1
  {
    assert (s + [x])[..|s|] == s;
    if r != [] && r[|r| - 1] == x {
      SubsequenceDropLast(r, s);
    }
  }

  lemma {:induction false} SubsequenceDropLast(r: seq<Transaction>, s: seq<Transaction>)
    requires r != [] && IsSubsequence(r, s)
    ensures IsSubsequence(r[..|r| - 1], s)
    decreases |s|, 0
  {
    var r', s' := r[..|r| - 1], s[..|s| - 1];
    assert s == s' + [s[|s| - 1]];
    if r[|r| - 1] == s[|s| - 1] {
      SubsequenceExtend(r', s', s[|s| - 1]);
    } else {
      SubsequenceDropLast(r, s');
      SubsequenceExtend(r', s', s[|s| - 1]);
    }
  }

  /** A filter result is an order-preserving subsequence of its input. */
  lemma {:induction false} KeepIsSubsequence(s: seq<Transaction>, p: Transaction -> bool)
    ensures IsSubsequence(Keep(s, p), s)
  {
    if s != [] {
      var s', last := s[..|s| - 1], s[|s| - 1];
      KeepIsSubsequence(s', p);
      if p(last) {
        assert Keep(s, p) == Keep(s', p) + [last];
        assert (Keep(s', p) + [last])[..|Keep(s', p)|] == Keep(s', p);
      } else {
        SubsequenceExtend(Keep(s', p), s', last);
        assert s == s' + [last];
      }
    }
  }

  lemma KeepSingleton(x: Transaction, p: Transaction -> bool)
    ensures Keep([x], p) == if p(x) then [x] else []
  {
    assert [x][..0] == [];
  }

  lemma {:induction false} KeepAll(s: seq<Transaction>, p: Transaction -> bool)
    requires forall t :: t in s ==> p(t)
    ensures Keep(s, p) == s
  {
    if s != [] {
      var s', last := s[..|s| - 1], s[|s| - 1];
      assert last in s;
      assert forall t :: t in s' ==> t in s;
      KeepAll(s', p);
      calc {
        Keep(s, p);
        Keep(s', p) + [last];
        s' + [last];
        s;
      }
    }
  }

  /** Two tests that agree on every transaction filter alike. */
  lemma {:induction false} KeepAgreeing(s: seq<Transaction>, p: Transaction -> bool, q: Transaction -> bool)
    requires forall t :: p(t) == q(t)
    ensures Keep(s, p) == Keep(s, q)
  {
    if s != [] {
      KeepAgreeing(s[..|s| - 1], p, q);
    }
  }

  lemma {:induction false} KeepAppend(a: seq<Transaction>, b: seq<Transaction>, p: Transaction -> bool)
    ensures Keep(a + b, p) == Keep(a, p) + Keep(b, p)
    decreases |b|
  {
    if b == [] {
      assert a + b == a;
    } else {
      var b', last := b[..|b| - 1], b[|b| - 1];
      KeepAppend(a, b', p);
      var ab := a + b;
      assert ab[..|ab| - 1] == a + b' && ab[|ab| - 1] == last;
      assert Keep(ab, p) == Keep(a + b', p) + (if p(last) then [last] else []);
      assert Keep(b, p) == Keep(b', p) + (if p(last) then [last] else []);
    }
  }

  lemma {:induction false} KeepCommutes(s: seq<Transaction>, p: Transaction -> bool, q: Transaction -> bool)
    ensures Keep(Keep(s, p), q) == Keep(Keep(s, q), p)
  {
    if s != [] {
      var s', last := s[..|s| - 1], s[|s| - 1];
      KeepCommutes(s', p, q);
      KeepAppend(Keep(s', p), [last], q);
      KeepAppend(Keep(s', q), [last], p);
      assert Keep([last], p) == if p(last) then [last] else [];
      assert Keep([last], q) == if q(last) then [last] else [];
    }
  }

  /** A non-empty list is its front followed by its last element. */
  lemma SnocLast(s: seq<Transaction>)
    requires s != []
    ensures s[..|s| - 1] + [s[|s| - 1]] == s
  {
  }

  /** Every amount in `s` is positive. */
  predicate AllIncome(s: seq<Transaction>)
  {
    forall t :: t in s ==> t.amount > 0.0
  }

  /** Every amount in `s` is zero. */
  predicate AllZero(s: seq<Transaction>)
  {
    forall t :: t in s ==> t.amount == 0.0
  }

  /**
   * `reduce((sum, t) => sum + t.amount, 0)`. Over income transactions the
   * sum is positive exactly when there is at least one of them.
   */
  function SumAmounts(s: seq<Transaction>): (r: real)
    ensures AllIncome(s) ==> r >= 0.0 && (r > 0.0 <==> s != [])
  {
    if s == [] then 0.0 else SumAmounts(s[..|s| - 1]) + s[|s| - 1].amount
  }

  /**
   * `reduce((sum, t) => sum + Math.abs(t.amount), 0)`: never negative, and
   * zero exactly when every amount is zero.
   */
  function SumAbs(s: seq<Transaction>): (r: real)
    ensures r >= 0.0
    ensures r == 0.0 <==> AllZero(s)
  {
    if s == [] then 0.0 else SumAbs(s[..|s| - 1]) + Abs(s[|s| - 1].amount)
  }

  lemma {:induction false} SumAmountsAppend(a: seq<Transaction>, b: seq<Transaction>)
    ensures SumAmounts(a + b) == SumAmounts(a) + SumAmounts(b)
    decreases |b|
  {
    if b == [] {
      assert a + b == a;
    } else {
      SumAmountsAppend(a, b[..|b| - 1]);
      assert (a + b)[..|a + b| - 1] == a + b[..|b| - 1];
    }
  }

  lemma {:induction false} SumAbsAppend(a: seq<Transaction>, b: seq<Transaction>)
    ensures SumAbs(a + b) == SumAbs(a) + SumAbs(b)
    decreases |b|
  {
    if b == [] {
      assert a + b == a;
    } else {
      SumAbsAppend(a, b[..|b| - 1]);
      assert (a + b)[..|a + b| - 1] == a + b[..|b| - 1];
    }
  }

  lemma {:induction false} SumAmountsNonNegative(s: seq<Transaction>)
    requires forall t :: t in s ==> t.amount >= 0.0
    ensures SumAmounts(s) >= 0.0
  {
    if s != [] {
      SumAmountsNonNegative(s[..|s| - 1]);
      assert s[|s| - 1] in s;
    }
  }
}
