/** `Array.prototype.sort` with a comparator `(a, b) => key(a) - key(b)`:
    ECMAScript requires a stable sort, and a comparator result of NaN counts
    as "equal". The model is a stable insertion sort over keys of type
    `Option<int>`, where `None` is NaN. */
module Sorting {
  import opened Js

  /** The comparator says "a before b": both keys are numbers and a's is smaller. */
  predicate Before(a: Option<int>, b: Option<int>) {
    a.Some? && b.Some? && a.value < b.value
  }

  /** Insert `x` after every element it is not strictly before. */
  function Insert<T>(x: T, s: seq<T>, key: T -> Option<int>): (r: seq<T>)
    ensures |r| == |s| + 1
    ensures multiset(r) == multiset(s) + multiset{x}
  {
    if s == [] then [x]
    else if Before(key(x), key(s[0])) then [x] + s
    else
      assert s == [s[0]] + s[1..];
      [s[0]] + Insert(x, s[1..], key)
  }

  function SortBy<T>(s: seq<T>, key: T -> Option<int>): (r: seq<T>)
    ensures |r| == |s|
    ensures multiset(r) == multiset(s)
  {
    if s == [] then []
    else
      assert s == s[..|s| - 1] + [s[|s| - 1]];
      Insert(s[|s| - 1], SortBy(s[..|s| - 1], key), key)
  }

  /** Every two elements whose keys are numbers are in ascending key order. */
  ghost predicate SortedOnDefined<T>(s: seq<T>, key: T -> Option<int>) {
    forall i, j :: 0 <= i < j < |s| && key(s[i]).Some? && key(s[j]).Some? ==>
      key(s[i]).value <= key(s[j]).value
  }

  /** Two defined keys of a sorted sequence, in index order. */
  lemma SortedAt<T>(s: seq<T>, key: T -> Option<int>, i: int, j: int)
    requires SortedOnDefined(s, key) && 0 <= i <= j < |s| && key(s[i]).Some? && key(s[j]).Some?
    ensures key(s[i]).value <= key(s[j]).value
  {
  }

  lemma {:induction false} InsertKeepsSorted<T>(x: T, s: seq<T>, key: T -> Option<int>)
    requires SortedOnDefined(s, key)
    ensures SortedOnDefined(Insert(x, s, key), key)
  {
    if s != [] && !Before(key(x), key(s[0])) {
      InsertKeepsSorted(x, s[1..], key);
      var tail := Insert(x, s[1..], key);
      assert multiset(tail) == multiset(s[1..]) + multiset{x};
      forall j | 0 <= j < |tail| && key(s[0]).Some? && key(tail[j]).Some?
        ensures key(s[0]).value <= key(tail[j]).value
      {
        assert tail[j] in multiset(tail);
        if tail[j] != x {
          assert tail[j] in multiset(s[1..]);
          var k :| 0 <= k < |s[1..]| && s[1..][k] == tail[j];
          assert s[k + 1] == tail[j];
        }
      }
    }
  }

  /** The sort puts all elements with a numeric key in ascending order. */
  lemma {:induction false} SortByIsSorted<T>(s: seq<T>, key: T -> Option<int>)
    ensures SortedOnDefined(SortBy(s, key), key)
  {
    if s != [] {
      SortByIsSorted(s[..|s| - 1], key);
      InsertKeepsSorted(s[|s| - 1], SortBy(s[..|s| - 1], key), key);
    }
  }

  lemma SortBySameElements<T>(s: seq<T>, key: T -> Option<int>, x: T)
    ensures x in SortBy(s, key) <==> x in s
  {
    assert x in SortBy(s, key) <==> x in multiset(SortBy(s, key));
    assert x in s <==> x in multiset(s);
  }

  /** The index of the first element satisfying `p`, if any (`findIndex`). */
  function FindFirst<T>(s: seq<T>, p: T -> bool): (r: Option<nat>)
    ensures r.Some? ==> r.value < |s| && p(s[r.value])
    ensures r.Some? ==> forall j :: 0 <= j < r.value ==> !p(s[j])
    ensures r.None? ==> forall j :: 0 <= j < |s| ==> !p(s[j])
  {
    if s == [] then None
    else if p(s[0]) then Some(0)
    else match FindFirst(s[1..], p)
      case None => None
      case Some(k) => Some(k + 1)
  }

  /** The index of the last element satisfying `p`, if any (`reverse().find`). */
  function FindLast<T>(s: seq<T>, p: T -> bool): (r: Option<nat>)
    ensures r.Some? ==> r.value < |s| && p(s[r.value])
    ensures r.Some? ==> forall j :: r.value < j < |s| ==> !p(s[j])
    ensures r.None? ==> forall j :: 0 <= j < |s| ==> !p(s[j])
  {
    if s == [] then None
    else if p(s[|s| - 1]) then Some(|s| - 1)
    else FindLast(s[..|s| - 1], p)
  }

  /** The first element after sorting by `key` (`….sort(…)[0]`): an element
      of `s` whose key, when it is a number, is the least numeric key. */
  function EarliestBy<T>(s: seq<T>, key: T -> Option<int>): (r: Option<T>)
    ensures r.None? <==> s == []
    ensures r.Some? ==> r.value in s
    ensures r.Some? && key(r.value).Some? ==>
              forall x :: x in s && key(x).Some? ==> key(r.value).value <= key(x).value
  {
    if s == [] then None
    else
      var sorted := SortBy(s, key);
      SortByIsSorted(s, key);
      assert sorted[0] in multiset(s);
      forall x | x in s ensures exists j :: 0 <= j < |sorted| && sorted[j] == x {
        assert x in multiset(sorted);
      }
      Some(sorted[0])
  }
}
