/**
 * A JavaScript `Record<string, V>` used as an accumulator: `Object.entries`
 * lists string keys in the order they were first assigned, and assigning to
 * an existing key keeps its position. Both dashboard breakdowns are built
 * this way.
 */
module OrderedRecord {

  /** One `[key, value]` pair of `Object.entries`. */
  datatype Entry<V> = Entry(key: string, value: V)

  function Keys<V>(es: seq<Entry<V>>): (ks: seq<string>)
  {
    seq(|es|, i requires 0 <= i < |es| => es[i].key)
  }

  predicate Distinct(s: seq<string>)
  {
    forall i, j :: 0 <= i < j < |s| ==> s[i] != s[j]
  }

  /** No key is listed twice. */
  predicate UniqueKeys<V>(es: seq<Entry<V>>)
  {
    Distinct(Keys(es))
  }

  /**
   * `rec[k] = f(rec[k] ?? init)` on the entry list: an existing key is
   * updated where it stands, a new key is appended with `f(init)`.
   */
  function Upsert<V>(es: seq<Entry<V>>, k: string, f: V -> V, init: V): (r: seq<Entry<V>>)
    ensures |r| == if k in Keys(es) then |es| else |es| + 1
    ensures forall i :: 0 <= i < |es| ==> r[i].key == es[i].key
    ensures k !in Keys(es) ==> r[|es|] == Entry(k, f(init))
  {
    if es == [] then [Entry(k, f(init))]
    else
      assert k in Keys(es) <==> es[0].key == k || k in Keys(es[1..]) by {
        assert Keys(es) == [es[0].key] + Keys(es[1..]);
      }
      if es[0].key == k then [Entry(k, f(es[0].value))] + es[1..]
      else [es[0]] + Upsert(es[1..], k, f, init)
  }

  /** Upserting appends `k` to the keys exactly when it is new. */
  lemma UpsertKeys<V>(es: seq<Entry<V>>, k: string, f: V -> V, init: V)
    ensures Keys(Upsert(es, k, f, init)) == if k in Keys(es) then Keys(es) else Keys(es) + [k]
  {
    var r := Upsert(es, k, f, init);
    var ks := Keys(es);
    assert |Keys(r)| == |r|;
    if k in ks {
      assert |r| == |es|;
      forall i | 0 <= i < |r| ensures Keys(r)[i] == ks[i] {
        assert Keys(r)[i] == r[i].key;
      }
    } else {
      assert |r| == |es| + 1;
      forall i | 0 <= i < |r| ensures Keys(r)[i] == (ks + [k])[i] {
        assert Keys(r)[i] == r[i].key;
        if i < |es| {
          assert (ks + [k])[i] == ks[i] == es[i].key;
        } else {
          assert i == |es| && (ks + [k])[i] == k;
        }
      }
    }
  }

  /**
   * With unique keys, an upsert changes only the entry under `k`, applying
   * `f` to its value, or appends `k` with `f(init)`.
   */
  lemma {:induction false} UpsertAt<V>(es: seq<Entry<V>>, k: string, f: V -> V, init: V, i: nat)
    requires UniqueKeys(es) && i < |Upsert(es, k, f, init)|
    ensures i < |es| && es[i].key == k ==> Upsert(es, k, f, init)[i] == Entry(k, f(es[i].value))
    ensures i < |es| && es[i].key != k ==> Upsert(es, k, f, init)[i] == es[i]
    ensures |es| <= i ==> i == |es| && k !in Keys(es) && Upsert(es, k, f, init)[i] == Entry(k, f(init))
  {
    if es != [] && i > 0 {
      UniqueKeysTail(es);
      if es[0].key != k {
        UpsertAt(es[1..], k, f, init, i - 1);
      }
    }
  }

  /** Past the first entry, keys stay unique and differ from the first key. */
  lemma UniqueKeysTail<V>(es: seq<Entry<V>>)
    requires UniqueKeys(es) && es != []
    ensures UniqueKeys(es[1..])
    ensures forall j :: 1 <= j < |es| ==> es[j].key != es[0].key
  {
    var ks := Keys(es);
    assert Keys(es[1..]) == ks[1..];
    forall j | 1 <= j < |es| ensures es[j].key != es[0].key {
      assert ks[0] == es[0].key && ks[j] == es[j].key;
    }
  }

  /** Upserting keeps the keys unique. */

  lemma UpsertUnique<V>(es: seq<Entry<V>>, k: string, f: V -> V, init: V)
    requires UniqueKeys(es)
    ensures UniqueKeys(Upsert(es, k, f, init))
  {
    UpsertKeys(es, k, f, init);
    var ks := Keys(es);
    if k !in ks {
      forall i, j | 0 <= i < j < |ks| + 1 ensures (ks + [k])[i] != (ks + [k])[j] {
        if j == |ks| {
          assert ks[i] in ks;
        }
      }
    }
  }

  /**
   * The record's shape: `order` is the insertion order of the keys of `m`,
   * each listed once.
   */
  ghost predicate RecordShape<V>(order: seq<string>, m: map<string, V>)
  {
    Distinct(order) && forall k :: k in m <==> k in order
  }

  /** `Object.entries(rec)` for a record whose keys were inserted in `order`. */
  function Entries<V>(order: seq<string>, m: map<string, V>): (es: seq<Entry<V>>)
    requires forall k :: k in order ==> k in m
    ensures Keys(es) == order
  {
    seq(|order|, i requires 0 <= i < |order| => Entry(order[i], m[order[i]]))
  }

  /** An accumulation step keeps the record's shape. */
  lemma RecordShapeUpsert<V>(order: seq<string>, m: map<string, V>, k: string, v: V)
    requires RecordShape(order, m)
    ensures RecordShape(if k in m then order else order + [k], m[k := v])
  {
  }

  lemma EntriesUnique<V>(order: seq<string>, m: map<string, V>)
    requires Distinct(order) && forall j :: j in order ==> j in m
    ensures UniqueKeys(Entries(order, m))
  {
    var es := Entries(order, m);
    forall i, j | 0 <= i < j < |es| ensures es[i].key != es[j].key {
      assert es[i].key == order[i] && es[j].key == order[j];
    }
  }

  lemma EntriesUpdate<V>(order: seq<string>, m: map<string, V>, k: string, f: V -> V, init: V)
    requires Distinct(order) && (forall j :: j in order ==> j in m) && k in order
    ensures Entries(order, m[k := f(m[k])]) == Upsert(Entries(order, m), k, f, init)
  {
    var es := Entries(order, m);
    assert k in Keys(es);
    var r := Upsert(es, k, f, init);
    var e' := Entries(order, m[k := f(m[k])]);
    assert |e'| == |order| == |r|;
    forall i | 0 <= i < |r| ensures e'[i] == r[i] {
      EntryUpdatedAt(order, m, k, f, init, i);
    }
  }

  lemma EntryUpdatedAt<V>(order: seq<string>, m: map<string, V>, k: string, f: V -> V, init: V, i: nat)
    requires Distinct(order) && (forall j :: j in order ==> j in m) && k in order && i < |order|
    ensures Entries(order, m[k := f(m[k])])[i] == Upsert(Entries(order, m), k, f, init)[i]
  {
    var es := Entries(order, m);
    EntriesUnique(order, m);
    UpsertAt(es, k, f, init, i);
    assert es[i] == Entry(order[i], m[order[i]]);
  }

  lemma EntriesInsert<V>(order: seq<string>, m: map<string, V>, k: string, f: V -> V, init: V)
    requires RecordShape(order, m) && k !in m
    ensures Entries(order + [k], m[k := f(init)]) == Upsert(Entries(order, m), k, f, init)
  {
    var es := Entries(order, m);
    assert k !in Keys(es);
    var r := Upsert(es, k, f, init);
    var e' := Entries(order + [k], m[k := f(init)]);
    assert |e'| == |r|;
    EntriesUnique(order, m);
    forall i | 0 <= i < |r| ensures e'[i] == r[i] {
      UpsertAt(es, k, f, init, i);
      if i < |es| {
        assert es[i] == Entry(order[i], m[order[i]]);
        assert (order + [k])[i] == order[i] != k;
      }
    }
  }

  /**
   * One accumulation step on the record (a map plus its insertion order) is
   * the same as `Upsert` on its entry list.
   */
  lemma EntriesUpsert<V>(order: seq<string>, m: map<string, V>, k: string, f: V -> V, init: V,
                         order': seq<string>, m': map<string, V>)
    requires RecordShape(order, m)
    requires order' == if k in m then order else order + [k]
    requires m' == m[k := f(if k in m then m[k] else init)]
    ensures RecordShape(order', m')
    ensures Entries(order', m') == Upsert(Entries(order, m), k, f, init)
  {
    RecordShapeUpsert(order, m, k, f(if k in m then m[k] else init));
    if k in m {
      EntriesUpdate(order, m, k, f, init);
    } else {
      EntriesInsert(order, m, k, f, init);
    }
  }

  /** The distinct elements of `s`, in the order in which each first occurs. */
  function FirstOccurrences(s: seq<string>): (d: seq<string>)
    ensures Distinct(d)
    ensures forall x :: x in d <==> x in s
  {
    if s == [] then []
    else
      var d0 := FirstOccurrences(s[..|s| - 1]);
      var last := s[|s| - 1];
      assert s == s[..|s| - 1] + [last];
      if last in d0 then d0 else d0 + [last]
  }

  /**
   * Upserting key `k` into entries whose keys are the first occurrences of
   * `s` gives entries whose keys are the first occurrences of `s + [k]`.
   */
  lemma UpsertFirstOccurrences<V>(es: seq<Entry<V>>, s: seq<string>, k: string, f: V -> V, init: V)
    requires UniqueKeys(es) && Keys(es) == FirstOccurrences(s)
    ensures UniqueKeys(Upsert(es, k, f, init))
    ensures Keys(Upsert(es, k, f, init)) == FirstOccurrences(s + [k])
  {
    UpsertKeys(es, k, f, init);
    UpsertUnique(es, k, f, init);
    assert (s + [k])[..|s|] == s;
  }

  /** A non-empty list of one repeated value has that value as its only first occurrence. */
  lemma {:induction false} FirstOccurrencesConstant(s: seq<string>, k: string)
    requires |s| > 0 && forall i :: 0 <= i < |s| ==> s[i] == k
    ensures FirstOccurrences(s) == [k]
  {
    if |s| > 1 {
      FirstOccurrencesConstant(s[..|s| - 1], k);
    }
  }

  /** `s.indexOf(x)` */
  function FirstIndex(s: seq<string>, x: string): (n: nat)
    requires x in s
    ensures n < |s| && s[n] == x && x !in s[..n]
  {
    if s[0] == x then 0 else 1 + FirstIndex(s[1..], x)
  }

  lemma FirstIndexUnique(s: seq<string>, x: string, n: nat)
    requires n < |s| && s[n] == x && x !in s[..n]
    ensures FirstIndex(s, x) == n
  {
  }

  /**
   * `FirstOccurrences` lists values in the order of their first
   * occurrence in `s`.
   */
  lemma {:induction false} FirstOccurrencesInOrder(s: seq<string>, i: nat, j: nat)
    requires i < j < |FirstOccurrences(s)|
    ensures FirstIndex(s, FirstOccurrences(s)[i]) < FirstIndex(s, FirstOccurrences(s)[j])
  {
    var s', last := s[..|s| - 1], s[|s| - 1];
    assert s == s' + [last];
    var d, d0 := FirstOccurrences(s), FirstOccurrences(s');
    var x, y := d[i], d[j];
    assert x in s' by {
      if j < |d0| { assert x == d0[i]; } else { assert x in d0; }
    }
    var n := FirstIndex(s', x);
    FirstIndexUnique(s, x, n) by {
      assert s[..n] == s'[..n];
    }
    if j < |d0| {
      assert y == d0[j] && x == d0[i];
      FirstOccurrencesInOrder(s', i, j);
      FirstIndexUnique(s, y, FirstIndex(s', y)) by {
        assert s[..FirstIndex(s', y)] == s'[..FirstIndex(s', y)];
      }
    } else {
      assert y == last && y !in s';
      FirstIndexUnique(s, y, |s'|) by {
        assert s[..|s'|] == s';
      }
    }
  }

  /** Sum of a numeric view `m` of the values, in entry order. */
  function SumBy<V>(es: seq<Entry<V>>, m: V -> real): real
  {
    if es == [] then 0.0 else m(es[0].value) + SumBy(es[1..], m)
  }

  /**
   * When `f` adds `delta` to the view `m` and the default value weighs
   * nothing, an upsert adds exactly `delta` to the sum.
   */
  lemma {:induction false} SumByUpsert<V>(es: seq<Entry<V>>, k: string, f: V -> V, init: V, m: V -> real, delta: real)
    requires m(init) == 0.0
    requires forall x :: m(f(x)) == m(x) + delta
    ensures SumBy(Upsert(es, k, f, init), m) == SumBy(es, m) + delta
  {
    if es != [] && es[0].key != k {
      SumByUpsert(es[1..], k, f, init, m, delta);
      var r := Upsert(es, k, f, init);
      assert r[1..] == Upsert(es[1..], k, f, init);
    } else if es != [] {
      var r := Upsert(es, k, f, init);
      assert r[1..] == es[1..];
    }
  }
}
