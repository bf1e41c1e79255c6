// Joining and splitting text on a one-character separator, as the
// transaction export uses `Array.prototype.join` to build rows and lines.
// `Split` mirrors `String.prototype.split` with a one-character separator and
// serves as the reference reading of joined text.

module Text {

  /**
   * `parts.join(sep)`: no separator before the first part or after the
   * last, and no character but the separator is added to the parts.
   */
  function Join(parts: seq<string>, sep: char): (r: string)
    ensures forall c :: c != sep ==> Occurrences(r, c) == OccurrencesIn(parts, c)
  {
    if |parts| == 0 then ""
    else if |parts| == 1 then parts[0]
    else
      var rest := Join(parts[1..], sep);
      OccurrencesConcatAll(parts[0] + [sep], rest);
      OccurrencesConcatAll(parts[0], [sep]);
      parts[0] + [sep] + rest
  }

  /** `s.split(sep)`: every separator ends one field; the empty text is one empty field. */
  function Split(s: string, sep: char): (r: seq<string>)
    ensures |r| >= 1
  {
    if |s| == 0 then [""]
    else if s[0] == sep then [""] + Split(s[1..], sep)
    else
      var rest := Split(s[1..], sep);
      [[s[0]] + rest[0]] + rest[1..]
  }

  /** How many times `c` occurs in `s`. */
  function Occurrences(s: string, c: char): (n: nat)
    ensures n <= |s|
    ensures n == 0 <==> c !in s
  {
    if |s| == 0 then 0
    else (if s[0] == c then 1 else 0) + Occurrences(s[1..], c)
  }

  lemma {:induction false} OccurrencesConcat(a: string, b: string, c: char)
    ensures Occurrences(a + b, c) == Occurrences(a, c) + Occurrences(b, c)
  {
    if |a| > 0 {
      assert (a + b)[1..] == a[1..] + b;
      OccurrencesConcat(a[1..], b, c);
    } else {
      assert a + b == b;
    }
  }

  lemma OccurrencesConcatAll(a: string, b: string)
    ensures forall c :: Occurrences(a + b, c) == Occurrences(a, c) + Occurrences(b, c)
  {
    forall c ensures Occurrences(a + b, c) == Occurrences(a, c) + Occurrences(b, c) {
      OccurrencesConcat(a, b, c);
    }
  }

  /** Total occurrences of `c` over all parts. */
  function OccurrencesIn(parts: seq<string>, c: char): nat
  {
    if |parts| == 0 then 0 else Occurrences(parts[0], c) + OccurrencesIn(parts[1..], c)
  }

  /** Joined after a separator-free head, parts add one separator each to their own. */
  lemma JoinAfterHead(h: string, rest: seq<string>, sep: char)
    requires Occurrences(h, sep) == 0
    ensures Occurrences(Join([h] + rest, sep), sep) == OccurrencesIn(rest, sep) + |rest|
  {
    JoinOccurrences([h] + rest, sep);
    assert ([h] + rest)[1..] == rest;
  }

  /** Splitting yields one more field than there are separators. */
  lemma {:induction false} SplitCount(s: string, sep: char)
    ensures |Split(s, sep)| == Occurrences(s, sep) + 1
  {
    if |s| > 0 {
      SplitCount(s[1..], sep);
    }
  }

  /** The joined text holds every separator of the parts plus one between each pair of parts. */
  lemma {:induction false} JoinOccurrences(parts: seq<string>, sep: char)
    requires |parts| >= 1
    ensures Occurrences(Join(parts, sep), sep) == OccurrencesIn(parts, sep) + |parts| - 1
  {
    if |parts| > 1 {
      JoinOccurrences(parts[1..], sep);
      OccurrencesConcat(parts[0] + [sep], Join(parts[1..], sep), sep);
      OccurrencesConcat(parts[0], [sep], sep);
    }
  }

  /** A character that is neither the separator nor in any part is not in the joined text. */
  lemma {:induction false} JoinAvoids(parts: seq<string>, sep: char, c: char)
    requires c != sep
    requires forall i :: 0 <= i < |parts| ==> c !in parts[i]
    ensures c !in Join(parts, sep)
  {
    if |parts| > 1 {
      JoinAvoids(parts[1..], sep, c);
    }
  }

  /** Text without the separator is a single field. */
  lemma {:induction false} SplitWhole(a: string, sep: char)
    requires sep !in a
    ensures Split(a, sep) == [a]
  {
    if |a| > 0 {
      SplitWhole(a[1..], sep);
      assert [a[0]] + a[1..] == a;
    }
  }

  /** A separator-free field followed by a separator splits off as the first field. */
  lemma {:induction false} SplitPrefix(a: string, b: string, sep: char)
    requires sep !in a
    ensures Split(a + [sep] + b, sep) == [a] + Split(b, sep)
  {
    var s := a + [sep] + b;
    if |a| == 0 {
      assert s == [sep] + b;
      assert s[1..] == b;
    } else {
      assert s[0] == a[0];
      assert s[1..] == a[1..] + [sep] + b;
      SplitPrefix(a[1..], b, sep);
      assert [a[0]] + a[1..] == a;
    }
  }

  /** Splitting joined text gives the parts back, as long as no part holds the separator. */
  lemma {:induction false} SplitJoin(parts: seq<string>, sep: char)
    requires |parts| >= 1
    requires forall i :: 0 <= i < |parts| ==> sep !in parts[i]
    ensures Split(Join(parts, sep), sep) == parts
  {
    if |parts| == 1 {
      SplitWhole(parts[0], sep);
    } else {
      SplitJoin(parts[1..], sep);
      SplitPrefix(parts[0], Join(parts[1..], sep), sep);
      assert [parts[0]] + parts[1..] == parts;
    }
  }

  /** A first part free of the separator is the first field of the joined text. */
  lemma SplitJoinHead(parts: seq<string>, sep: char)
    requires |parts| >= 1 && sep !in parts[0]
    ensures Split(Join(parts, sep), sep)[0] == parts[0]
  {
    if |parts| == 1 {
      SplitWhole(parts[0], sep);
    } else {
      SplitPrefix(parts[0], Join(parts[1..], sep), sep);
    }
  }

  /** Prepending a character to the first field prepends it to the joined text. */
  lemma JoinConsHead(c: char, r: seq<string>, sep: char)
    requires |r| >= 1
    ensures Join([[c] + r[0]] + r[1..], sep) == [c] + Join(r, sep)
  {
    var q := [[c] + r[0]] + r[1..];
    assert q[1..] == r[1..];
  }

  /** Joining the fields of any text restores the text. */
  lemma {:induction false} JoinSplit(s: string, sep: char)
    ensures Join(Split(s, sep), sep) == s
  {
    if |s| > 0 {
      JoinSplit(s[1..], sep);
      var rest := Split(s[1..], sep);
      if s[0] == sep {
        var q := [""] + rest;
        assert q[1..] == rest;
        assert [sep] + s[1..] == s;
      } else {
        JoinConsHead(s[0], rest, sep);
        assert [s[0]] + s[1..] == s;
      }
    }
  }
}
