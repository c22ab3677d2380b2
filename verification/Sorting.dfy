/**
 Sorting by an integer key. The operator and the client both call a library sort that is not
 stable; everything proved elsewhere relies only on `IsSortOf`, which any such sort satisfies.
 */
module Sorting {

  predicate SortedBy<T>(key: T -> int, s: seq<T>) {
    forall i, j :: 0 <= i < j < |s| ==> key(s[i]) <= key(s[j])
  }

  /** `out` is some arrangement of `input` in key order. */
  ghost predicate IsSortOf<T>(key: T -> int, out: seq<T>, input: seq<T>) {
    SortedBy(key, out) && multiset(out) == multiset(input)
  }

  lemma SameElements<T>(a: seq<T>, b: seq<T>)
    requires multiset(a) == multiset(b)
    ensures |a| == |b|
    ensures forall x :: x in a <==> x in b
  {
    assert |a| == |multiset(a)| == |multiset(b)| == |b|;
    forall x ensures x in a <==> x in b {
      assert x in a <==> x in multiset(a);
      assert x in b <==> x in multiset(b);
    }
  }

  function Insert<T>(key: T -> int, x: T, s: seq<T>): (r: seq<T>)
    ensures multiset(r) == multiset(s) + multiset{x}
  {
    if s == [] then [x]
    else if key(x) <= key(s[0]) then [x] + s
    else
      assert s == [s[0]] + s[1..];
      [s[0]] + Insert(key, x, s[1..])
  }

  lemma {:induction false} InsertSorted<T>(key: T -> int, x: T, s: seq<T>)
    requires SortedBy(key, s)
    ensures SortedBy(key, Insert(key, x, s))
  {
    if s != [] && key(x) > key(s[0]) {
      InsertSorted(key, x, s[1..]);
      var r := Insert(key, x, s[1..]);
      forall y | y in r ensures key(s[0]) <= key(y) {
        assert y in multiset(r);
        assert y in s[1..] || y == x;
      }
    }
  }

  function Sort<T>(key: T -> int, s: seq<T>): (r: seq<T>)
    ensures IsSortOf(key, r, s)
  {
    if s == [] then []
    else
      InsertSorted(key, s[0], Sort(key, s[1..]));
      assert s == [s[0]] + s[1..];
      Insert(key, s[0], Sort(key, s[1..]))
  }

  predicate DistinctKeys<T>(key: T -> int, s: seq<T>) {
    forall i, j :: 0 <= i < j < |s| ==> key(s[i]) != key(s[j])
  }

  predicate StrictlySortedBy<T>(key: T -> int, s: seq<T>) {
    forall i, j :: 0 <= i < j < |s| ==> key(s[i]) < key(s[j])
  }

  /** A strictly sorted list is determined by its elements. */
  lemma {:induction false} StrictlySortedUnique<T>(key: T -> int, a: seq<T>, b: seq<T>)
    requires StrictlySortedBy(key, a) && StrictlySortedBy(key, b)
    requires forall x :: x in a <==> x in b
    ensures a == b
  {
    assert a != [] ==> a[0] in b;
    assert b != [] ==> b[0] in a;
    if a != [] {
      assert a[0] == b[0];
      forall x ensures x in a[1..] <==> x in b[1..] {
        if x in a[1..] { assert x in b; assert key(a[0]) < key(x); }
        if x in b[1..] { assert x in a; assert key(b[0]) < key(x); }
      }
      StrictlySortedUnique(key, a[1..], b[1..]);
    }
  }

  /** Two places holding the same element are two occurrences. */
  lemma TwoPlaces<T>(s: seq<T>, i: nat, j: nat)
    requires i < j < |s| && s[i] == s[j]
    ensures multiset(s)[s[i]] >= 2
  {
    assert s == s[..j] + [s[j]] + s[j + 1..];
    assert s[i] in s[..j];
  }

  lemma OnePlace<T>(s: seq<T>, i: nat)
    requires i < |s|
    requires forall j :: 0 <= j < |s| && j != i ==> s[j] != s[i]
    ensures multiset(s)[s[i]] == 1
  {
    assert s == s[..i] + [s[i]] + s[i + 1..];
    assert s[i] !in s[..i] && s[i] !in s[i + 1..];
  }

  /** Sorting a list with distinct keys leaves no ties, whichever sort is used. */
  lemma SortDistinct<T>(key: T -> int, out: seq<T>, input: seq<T>)
    requires IsSortOf(key, out, input) && DistinctKeys(key, input)
    ensures StrictlySortedBy(key, out)
  {
    SameElements(out, input);
    forall i, j | 0 <= i < j < |out| ensures key(out[i]) < key(out[j]) {
      if key(out[i]) == key(out[j]) {
        assert out[i] in input && out[j] in input;
        var a :| 0 <= a < |input| && input[a] == out[i];
        var b :| 0 <= b < |input| && input[b] == out[j];
        assert a == b;
        TwoPlaces(out, i, j);
        OnePlace(input, a);
        assert false;
      }
    }
  }
}
