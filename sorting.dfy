/** Sorting by a real-valued key, as List<T>.Sort with a key comparison does.
    List<T>.Sort is an introspective sort and not stable, so callers choose
    any sorted permutation; SortBy is a witness that one exists. */
module Sorting {
  /** Ascending by key; equal keys may appear in any order. */
  predicate SortedBy<T>(s: seq<T>, key: T -> real)
  {
    forall i, j :: 0 <= i < j < |s| ==> key(s[i]) <= key(s[j])
  }

  /** x placed before the first element whose key is not smaller. */
  function Insert<T>(x: T, s: seq<T>, key: T -> real): (r: seq<T>)
    ensures multiset(r) == multiset(s) + multiset{x}
    ensures |r| == |s| + 1
    ensures r[0] == x || (s != [] && r[0] == s[0])
  {
    if s == [] then [x]
    else if key(x) <= key(s[0]) then [x] + s
    else
      assert s == [s[0]] + s[1..];
      [s[0]] + Insert(x, s[1..], key)
  }

  /** Inserting into a sorted sequence keeps it sorted. */
  lemma {:induction false} InsertKeepsSorted<T>(x: T, s: seq<T>, key: T -> real)
    requires SortedBy(s, key)
    ensures SortedBy(Insert(x, s, key), key)
  {
    if s != [] && key(x) > key(s[0]) {
      var rest := Insert(x, s[1..], key);
      InsertKeepsSorted(x, s[1..], key);
      assert key(s[0]) <= key(rest[0]);
      var r := Insert(x, s, key);
      assert r == [s[0]] + rest;
      forall i, j | 0 <= i < j < |r| ensures key(r[i]) <= key(r[j]) {
        if i == 0 {
          assert key(rest[0]) <= key(rest[j - 1]) || j == 1;
        } else {
          assert r[i] == rest[i - 1] && r[j] == rest[j - 1];
        }
      }
    }
  }

  /** Insertion sort: a sorted permutation of s. */
  function SortBy<T>(s: seq<T>, key: T -> real): (r: seq<T>)
    ensures SortedBy(r, key)
    ensures multiset(r) == multiset(s)
  {
    if s == [] then []
    else
      assert s == [s[0]] + s[1..];
      var sorted := SortBy(s[1..], key);
      InsertKeepsSorted(s[0], sorted, key);
      Insert(s[0], sorted, key)
  }

  lemma SortedPermutationExists<T>(s: seq<T>, key: T -> real)
    ensures exists r :: multiset(r) == multiset(s) && SortedBy(r, key)
  {
    var r := SortBy(s, key);
    assert multiset(r) == multiset(s) && SortedBy(r, key);
  }
}
