/**
 * Character-level string operations the logger relies on: deleting every
 * occurrence of one character (Python's `s.replace(c, "")`) and splitting on
 * one separator character (Python's `s.split(sep)`), with its inverse `Join`.
 */
module Strings {

  /** `s` with every occurrence of `c` deleted; the other characters keep their order. */
  function Without(s: string, c: char): (r: string)
    ensures c !in r
    ensures |r| <= |s|
  {
    if s == [] then [] else (if s[0] == c then [] else [s[0]]) + Without(s[1..], c)
  }

  /** The indices of `s` that do not hold `c`, in increasing order. */
  function KeptPositions(s: string, c: char): (p: seq<nat>)
    ensures forall k :: 0 <= k < |p| ==> p[k] < |s|
  {
    if s == [] then []
    else
      var rest := KeptPositions(s[1..], c);
      (if s[0] == c then [] else [0]) + Shifted(rest)
  }

  /** Shifting every position of `p` by one. */
  function Shifted(p: seq<nat>): (q: seq<nat>)
    ensures |q| == |p|
    ensures forall k :: 0 <= k < |q| ==> q[k] == p[k] + 1
  {
    seq(|p|, k requires 0 <= k < |p| => p[k] + 1)
  }

  /** One kept position per kept character, each holding that character. */
  lemma {:induction false} KeptPositionsHoldResult(s: string, c: char)
    ensures |KeptPositions(s, c)| == |Without(s, c)|
    ensures forall k :: 0 <= k < |KeptPositions(s, c)| ==> s[KeptPositions(s, c)[k]] == Without(s, c)[k]
  {
    if s != [] {
      KeptPositionsHoldResult(s[1..], c);
      assert KeptPositions(s, c) == (if s[0] == c then [] else [0]) + Shifted(KeptPositions(s[1..], c));
    }
  }

  /** Kept positions are strictly increasing. */
  lemma {:induction false} KeptPositionsIncrease(s: string, c: char)
    ensures forall k, l :: 0 <= k < l < |KeptPositions(s, c)| ==> KeptPositions(s, c)[k] < KeptPositions(s, c)[l]
  {
    if s != [] {
      KeptPositionsIncrease(s[1..], c);
      assert KeptPositions(s, c) == (if s[0] == c then [] else [0]) + Shifted(KeptPositions(s[1..], c));
    }
  }

  /** A position is kept exactly when it does not hold `c`. */
  lemma {:induction false} KeptPositionsExact(s: string, c: char)
    ensures forall i :: 0 <= i < |s| ==> (s[i] != c <==> i in KeptPositions(s, c))
  {
    if s != [] {
      var t := s[1..];
      KeptPositionsExact(t, c);
      var p', p := KeptPositions(t, c), KeptPositions(s, c);
      var shifted := Shifted(p');
      assert p == (if s[0] == c then [] else [0]) + shifted;
      forall i | 0 <= i < |s|
        ensures s[i] != c <==> i in p
      {
        if i == 0 {
          assert 0 !in shifted;
        } else {
          assert s[i] == t[i - 1];
          if i - 1 in p' {
            var k :| 0 <= k < |p'| && p'[k] == i - 1;
            assert shifted[k] == i;
          }
          if i in shifted {
            var k :| 0 <= k < |shifted| && shifted[k] == i;
            assert p'[k] == i - 1;
          }
        }
      }
    }
  }

  /**
   * Deleting `c` keeps exactly the other characters, in their original order:
   * the k-th kept character is `s[p[k]]` for strictly increasing positions `p`,
   * and the positions in `p` are exactly those of `s` that do not hold `c`.
   */
  lemma WithoutKeepsOthersInOrder(s: string, c: char)
    ensures var r, p := Without(s, c), KeptPositions(s, c);
      && |p| == |r|
      && (forall k :: 0 <= k < |p| ==> s[p[k]] == r[k])
      && (forall k, l :: 0 <= k < l < |p| ==> p[k] < p[l])
      && (forall i :: 0 <= i < |s| ==> (s[i] != c <==> i in p))
  {
    KeptPositionsHoldResult(s, c);
    KeptPositionsIncrease(s, c);
    KeptPositionsExact(s, c);
  }

  /** Deletion distributes over concatenation. */
  lemma {:induction false} WithoutAppend(a: string, b: string, c: char)
    ensures Without(a + b, c) == Without(a, c) + Without(b, c)
  {
    if a == [] {
      assert a + b == b;
    } else {
      assert (a + b)[0] == a[0] && (a + b)[1..] == a[1..] + b;
      WithoutAppend(a[1..], b, c);
    }
  }

  /** Deleting `c` changes nothing exactly when `c` does not occur. */
  lemma {:induction false} WithoutIdentity(s: string, c: char)
    ensures Without(s, c) == s <==> c !in s
  {
    if s != [] {
      WithoutIdentity(s[1..], c);
      if c !in s {
        assert c !in s[1..];
      }
    }
  }

  /** Deleting twice is deleting once. */
  lemma WithoutIdempotent(s: string, c: char)
    ensures Without(Without(s, c), c) == Without(s, c)
  {
    WithoutIdentity(Without(s, c), c);
  }

  /** The result is empty exactly when the input consists of `c` alone. */
  lemma {:induction false} WithoutEmpty(s: string, c: char)
    ensures Without(s, c) == [] <==> forall i :: 0 <= i < |s| ==> s[i] == c
  {
    if s != [] {
      WithoutEmpty(s[1..], c);
      assert forall i :: 1 <= i < |s| ==> s[i] == s[1..][i - 1];
    }
  }

  /**
   * Python's `s.split(sep)` with an explicit separator: every separator ends a
   * field, so empty fields are kept and the result is never empty.
   */
  function Split(s: string, sep: char): (r: seq<string>)
    ensures |r| >= 1
    ensures forall k :: 0 <= k < |r| ==> sep !in r[k]
  {
    if s == [] then [[]]
    else if s[0] == sep then [[]] + Split(s[1..], sep)
    else
      var rest := Split(s[1..], sep);
      [[s[0]] + rest[0]] + rest[1..]
  }

  /** The inverse of `Split`: the fields with `sep` between them (never given an empty list). */
  function Join(fields: seq<string>, sep: char): (s: string)
    requires |fields| >= 1
  {
    if |fields| == 1 then fields[0] else fields[0] + [sep] + Join(fields[1..], sep)
  }

  /** Joining the fields of a split gives back the original string. */
  lemma {:induction false} JoinSplit(s: string, sep: char)
    ensures Join(Split(s, sep), sep) == s
  {
    if s != [] {
      JoinSplit(s[1..], sep);
      var rest := Split(s[1..], sep);
      if s[0] != sep && |rest| > 1 {
        assert ([[s[0]] + rest[0]] + rest[1..])[1..] == rest[1..];
      }
    }
  }

  /** A string without the separator is a single field. */
  lemma {:induction false} SplitNoSeparator(s: string, sep: char)
    requires sep !in s
    ensures Split(s, sep) == [s]
  {
    if s != [] {
      assert sep !in s[1..];
      SplitNoSeparator(s[1..], sep);
      assert [s[0]] + s[1..] == s;
    }
  }

  /** A first field without the separator comes out whole. */
  lemma SplitLeadingField(field: string, rest: string, sep: char)
    requires sep !in field
    ensures Split(field + [sep] + rest, sep) == [field] + Split(rest, sep)
  {
    SplitAround(field, rest, sep);
    SplitNoSeparator(field, sep);
  }

  /** Extending the first field commutes with appending further fields. */
  lemma PrependToFirstField(c: char, left: seq<string>, right: seq<string>)
    requires |left| >= 1
    ensures var all := left + right;
      [[c] + all[0]] + all[1..] == ([[c] + left[0]] + left[1..]) + right
  {
    var all := left + right;
    assert all[0] == left[0];
    assert all[1..] == left[1..] + right;
  }

  /** A separator between two strings splits exactly there. */
  lemma {:induction false} SplitAround(a: string, b: string, sep: char)
    ensures Split(a + [sep] + b, sep) == Split(a, sep) + Split(b, sep)
  {
    if a == [] {
      assert a + [sep] + b == [sep] + b;
      assert ([sep] + b)[1..] == b;
    } else {
      var s := a + [sep] + b;
      assert s[0] == a[0] && s[1..] == a[1..] + [sep] + b;
      SplitAround(a[1..], b, sep);
      if a[0] != sep {
        var left := Split(a[1..], sep);
        assert Split(s[1..], sep) == left + Split(b, sep);
        PrependToFirstField(a[0], left, Split(b, sep));
      }
    }
  }
}
