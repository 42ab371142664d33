/** Small vocabulary shared by every module: optional values, bounds, duplicate-free
    sequences and the character-by-character order on identifiers. */
module Basics {
  type HostId = string
  type RequestId = string
  type SessionId = string
  type Token = string

  datatype Option<+T> = None | Some(value: T)

  function Min(a: int, b: int): int { if a <= b then a else b }

  function Max(a: int, b: int): int { if a >= b then a else b }

  /** Some element of a set. */
  method AnyOf<T>(s: set<T>) returns (x: T)
    requires s != {}
    ensures x in s
  {
    x :| x in s;
  }

  ghost function Chosen<T>(s: set<T>): (x: T)
    requires s != {}
    ensures x in s
  {
    var x :| x in s;
    x
  }

  /** The texts put together. */
  ghost function Together(texts: seq<string>): string {
    if texts == [] then "" else Together(texts[..|texts| - 1]) + texts[|texts| - 1]
  }

  lemma {:induction false} TogetherFromFront(texts: seq<string>)
    requires texts != []
    ensures |Together(texts)| == |texts[0]| + |Together(texts[1..])|
  {
    var n := |texts| - 1;
    if n > 0 {
      TogetherFromFront(texts[..n]);
      assert texts[..n][1..] == texts[1..][..n - 1];
    }
  }

  ghost predicate NoDup<T>(s: seq<T>) {
    forall i, j :: 0 <= i < j < |s| ==> s[i] != s[j]
  }

  ghost predicate NonDecreasing(ts: seq<int>) {
    forall i, j :: 0 <= i <= j < |ts| ==> ts[i] <= ts[j]
  }

  /** String comparison as the source's language does it: by the first differing
      character, a proper prefix first. */
  predicate AtMost(a: string, b: string) {
    a == [] || (b != [] && (a[0] < b[0] || (a[0] == b[0] && AtMost(a[1..], b[1..]))))
  }

  lemma {:induction false} AtMostTotal(a: string, b: string)
    ensures AtMost(a, b) || AtMost(b, a)
  {
    if a != [] && b != [] && a[0] == b[0] {
      AtMostTotal(a[1..], b[1..]);
    }
  }

  lemma {:induction false} AtMostAntisymmetric(a: string, b: string)
    requires AtMost(a, b) && AtMost(b, a)
    ensures a == b
  {
    if a != [] {
      AtMostAntisymmetric(a[1..], b[1..]);
      assert a == [a[0]] + a[1..] && b == [b[0]] + b[1..];
    }
  }

  lemma {:induction false} AtMostTransitive(a: string, b: string, c: string)
    requires AtMost(a, b) && AtMost(b, c)
    ensures AtMost(a, c)
  {
    if a != [] && a[0] == b[0] == c[0] {
      AtMostTransitive(a[1..], b[1..], c[1..]);
    }
  }

  /** Text a stands before text b at the first place where they differ. */
  ghost predicate DiffersBelow(a: string, b: string) {
    exists i :: 0 <= i < |a| && i < |b| && a[..i] == b[..i] && a[i] < b[i]
  }

  /** The order is by the first differing character, a text before its longer continuations. */
  lemma {:induction false} AtMostIsByFirstDifference(a: string, b: string)
    ensures AtMost(a, b) <==> a <= b || DiffersBelow(a, b)
  {
    if a != [] && b != [] && a[0] == b[0] {
      AtMostIsByFirstDifference(a[1..], b[1..]);
      assert a == [a[0]] + a[1..] && b == [b[0]] + b[1..];
      DifferenceMoves(a, b);
    } else if a != [] && b != [] {
      assert a[0] < b[0] ==> a[..0] == b[..0];
      assert forall i :: 0 < i < |a| && i < |b| ==> a[..i][0] != b[..i][0];
    }
  }

  lemma DifferenceMoves(a: string, b: string)
    requires a != [] && b != [] && a[0] == b[0]
    ensures DiffersBelow(a, b) <==> DiffersBelow(a[1..], b[1..])
  {
    if DiffersBelow(a, b) {
      var i :| 0 <= i < |a| && i < |b| && a[..i] == b[..i] && a[i] < b[i];
      assert a[1..][..i - 1] == a[..i][1..] && b[1..][..i - 1] == b[..i][1..];
      assert a[1..][i - 1] < b[1..][i - 1];
    }
    if DiffersBelow(a[1..], b[1..]) {
      var i :| 0 <= i < |a[1..]| && i < |b[1..]| && a[1..][..i] == b[1..][..i] && a[1..][i] < b[1..][i];
      assert a[..i + 1] == [a[0]] + a[1..][..i] && b[..i + 1] == [b[0]] + b[1..][..i];
      assert a[i + 1] < b[i + 1];
    }
  }

  /** A set of sequence elements is as large as the sequence when nothing repeats. */
  lemma {:induction false} NoDupCardinality<T>(s: seq<T>)
    requires NoDup(s)
    ensures |set x | x in s| == |s|
  {
    if s != [] {
      var init := s[..|s| - 1];
      NoDupCardinality(init);
      assert (set x | x in s) == (set x | x in init) + {s[|s| - 1]};
    } else {
      assert (set x | x in s) == {};
    }
  }

  /** The places of a sequence where a condition holds. */
  ghost function Places<T>(s: seq<T>, holds: T -> bool): set<int> { set i | 0 <= i < |s| && holds(s[i]) }

  lemma NoPlaces<T>(holds: T -> bool)
    ensures |Places([], holds)| == 0
  {
    assert Places([], holds) == {};
  }

  lemma PlacesOfMore<T>(s: seq<T>, x: T, holds: T -> bool)
    ensures |Places(s + [x], holds)| == |Places(s, holds)| + if holds(x) then 1 else 0
  {
    var before := Places(s, holds);
    assert Places(s + [x], holds) == if holds(x) then before + {|s|} else before;
  }

  lemma SamePlaces<T(!new)>(s: seq<T>, a: T -> bool, b: T -> bool)
    requires forall x :: a(x) == b(x)
    ensures Places(s, a) == Places(s, b)
  {
  }
}
