/** The LINQ operators the queries are built from, on sequences: `Where`, the stable
    `OrderBy` on an integer key, `Take`, and `List.Reverse` done in place on an array. */
module Sequences {
  import opened Wrappers

  /** `Where(p)`: the elements satisfying `p`, in their original order. */
  function Filter<T>(s: seq<T>, p: T -> bool): seq<T> {
    if s == [] then [] else (if p(s[0]) then [s[0]] else []) + Filter(s[1..], p)
  }

  /** `Where` keeps every element that satisfies `p`, as often as it occurs, and nothing else. */
  lemma {:induction false} FilterCount<T>(s: seq<T>, p: T -> bool)
    ensures forall x {:trigger multiset(Filter(s, p))[x]} ::
      multiset(Filter(s, p))[x] == if p(x) then multiset(s)[x] else 0
  {
    if s != [] {
      FilterCount(s[1..], p);
      assert s == [s[0]] + s[1..];
    }
  }

  lemma FilterMembership<T>(s: seq<T>, p: T -> bool)
    ensures multiset(Filter(s, p)) <= multiset(s)
    ensures forall x :: x in Filter(s, p) <==> x in s && p(x)
  {
    FilterCount(s, p);
    forall x ensures x in Filter(s, p) <==> x in s && p(x) {
      assert x in Filter(s, p) <==> x in multiset(Filter(s, p));
      assert x in s <==> x in multiset(s);
    }
  }

  /** `Where` yields nothing exactly when no element satisfies the predicate. */
  lemma {:induction false} FilterEmpty<T>(s: seq<T>, p: T -> bool)
    ensures Filter(s, p) == [] <==> forall x :: x in s ==> !p(x)
  {
    if s != [] {
      FilterEmpty(s[1..], p);
      assert forall x :: x in s <==> x == s[0] || x in s[1..];
    }
  }

  /** `Where` over a list with one more element at the end. */
  lemma {:induction false} FilterAppend<T>(s: seq<T>, x: T, p: T -> bool)
    ensures Filter(s + [x], p) == Filter(s, p) + (if p(x) then [x] else [])
  {
    if s != [] {
      assert (s + [x])[1..] == s[1..] + [x];
      FilterAppend(s[1..], x, p);
    }
  }

  /** The position of the first element satisfying `p` (`FirstOrDefault`, or `Find`
      on a primary key). */
  function IndexWhere<T>(s: seq<T>, p: T -> bool): (r: Option<nat>)
    ensures r.Some? ==> r.value < |s| && p(s[r.value])
    ensures r.Some? ==> forall i :: 0 <= i < r.value ==> !p(s[i])
    ensures r.None? ==> forall i :: 0 <= i < |s| ==> !p(s[i])
  {
    if s == [] then None
    else if p(s[0]) then Some(0)
    else match IndexWhere(s[1..], p)
      case None => None
      case Some(i) => Some(i + 1)
  }

  /** Keys never decrease along `s`. */
  predicate SortedBy<T>(s: seq<T>, key: T -> int) {
    forall i, j :: 0 <= i < j < |s| ==> key(s[i]) <= key(s[j])
  }

  /** Puts `x` in front of the first element whose key is at least `key(x)`. */
  function Insert<T>(x: T, s: seq<T>, key: T -> int): seq<T> {
    if s == [] || key(x) <= key(s[0]) then [x] + s
    else [s[0]] + Insert(x, s[1..], key)
  }

  /** `OrderBy(key)`: a stable insertion sort. */
  function SortBy<T>(s: seq<T>, key: T -> int): seq<T> {
    if s == [] then [] else Insert(s[0], SortBy(s[1..], key), key)
  }

  lemma {:induction false} InsertPermutes<T>(x: T, s: seq<T>, key: T -> int)
    ensures multiset(Insert(x, s, key)) == multiset(s) + multiset{x}
  {
    if s != [] && key(x) > key(s[0]) {
      InsertPermutes(x, s[1..], key);
      assert s == [s[0]] + s[1..];
    }
  }

  lemma {:induction false} InsertSorted<T>(x: T, s: seq<T>, key: T -> int)
    requires SortedBy(s, key)
    ensures SortedBy(Insert(x, s, key), key)
  {
    if s != [] && key(x) > key(s[0]) {
      var rest := Insert(x, s[1..], key);
      InsertSorted(x, s[1..], key);
      InsertPermutes(x, s[1..], key);
      forall y | y in rest ensures key(s[0]) <= key(y) {
        assert y in multiset(rest);
        assert y == x || y in multiset(s[1..]);
      }
    }
  }

  /** Inserting a key no larger than that of a last element leaves that element last. */
  lemma {:induction false} InsertBeforeLast<T>(y: T, t: seq<T>, x: T, key: T -> int)
    requires key(y) <= key(x)
    ensures Insert(y, t + [x], key) == Insert(y, t, key) + [x]
  {
    if t != [] && key(y) > key(t[0]) {
      assert (t + [x])[1..] == t[1..] + [x];
      InsertBeforeLast(y, t[1..], x, key);
    }
  }

  /** The sort is stable at the end: an element appended with a key at least every
      other key is sorted to the end, and the rest keep their sorted order. */
  lemma {:induction false} SortByAppendLargest<T>(s: seq<T>, x: T, key: T -> int)
    requires forall y :: y in s ==> key(y) <= key(x)
    ensures SortBy(s + [x], key) == SortBy(s, key) + [x]
  {
    if s != [] {
      assert (s + [x])[1..] == s[1..] + [x];
      assert s[0] == (s + [x])[0];
      assert forall y :: y in s[1..] ==> y in s;
      SortByAppendLargest(s[1..], x, key);
      InsertBeforeLast(s[0], SortBy(s[1..], key), x, key);
    }
  }

  /** `OrderBy` returns a rearrangement of its input in which keys never decrease. */
  lemma {:induction false} SortBySortsAndPermutes<T>(s: seq<T>, key: T -> int)
    ensures SortedBy(SortBy(s, key), key)
    ensures multiset(SortBy(s, key)) == multiset(s)
    ensures |SortBy(s, key)| == |s|
  {
    if s != [] {
      SortBySortsAndPermutes(s[1..], key);
      InsertSorted(s[0], SortBy(s[1..], key), key);
      InsertPermutes(s[0], SortBy(s[1..], key), key);
      assert s == [s[0]] + s[1..];
    }
  }

  /** `Take(n)`: the first `n` elements, all of them when there are fewer, none when `n <= 0`. */
  function Take<T>(s: seq<T>, n: int): seq<T> {
    if n <= 0 then [] else if n < |s| then s[..n] else s
  }

  /** `List.Reverse`. */
  function Reversed<T>(s: seq<T>): seq<T> {
    seq(|s|, i requires 0 <= i < |s| => s[|s| - 1 - i])
  }

  lemma {:induction false} ReversedPermutes<T>(s: seq<T>)
    ensures multiset(Reversed(s)) == multiset(s)
  {
    if s != [] {
      ReversedPermutes(s[1..]);
      assert Reversed(s) == Reversed(s[1..]) + [s[0]];
      assert s == [s[0]] + s[1..];
    }
  }

  /** In a sorted sequence, everything from position `k` on has a key at least as
      large as everything before `k`. */
  lemma SortedSplit<T>(t: seq<T>, k: nat, key: T -> int)
    requires SortedBy(t, key) && k <= |t|
    ensures forall x, i :: x in multiset(t[k..]) && 0 <= i < k ==> key(t[i]) <= key(x)
  {
    forall x, i | x in multiset(t[k..]) && 0 <= i < k ensures key(t[i]) <= key(x) {
      assert x in t[k..];
      var j :| k <= j < |t| && t[j] == x;
    }
  }

  /** Taking a prefix of a sorted sequence keeps the smallest keys: whatever is left
      out has a key at least as large as everything taken. */
  lemma TakeOfSorted<T>(t: seq<T>, n: int, key: T -> int)
    requires SortedBy(t, key)
    ensures |Take(t, n)| == (if n <= 0 then 0 else if n < |t| then n else |t|)
    ensures multiset(Take(t, n)) <= multiset(t)
    ensures forall x, i :: x in multiset(t) - multiset(Take(t, n)) && 0 <= i < |Take(t, n)| ==>
      key(Take(t, n)[i]) <= key(x)
  {
    var p := Take(t, n);
    var k := |p|;
    assert p == t[..k];
    assert t == p + t[k..];
    assert multiset(t) == multiset(p) + multiset(t[k..]);
    assert multiset(t) - multiset(p) == multiset(t[k..]);
    SortedSplit(t, k, key);
  }

  /** `OrderBy(key).Take(n)` followed by `Reverse()`. */
  function Page<T>(s: seq<T>, n: int, key: T -> int): seq<T> {
    Reversed(Take(SortBy(s, key), n))
  }

  /** A page holds at most `n` elements, all drawn from `s`, and all of `s` when `n`
      is large enough. */
  lemma PageBounds<T>(s: seq<T>, n: int, key: T -> int)
    ensures multiset(Page(s, n, key)) <= multiset(s)
    ensures |Page(s, n, key)| == (if n <= 0 then 0 else if n < |s| then n else |s|)
    ensures n >= |s| ==> multiset(Page(s, n, key)) == multiset(s)
  {
    var t := SortBy(s, key);
    SortBySortsAndPermutes(s, key);
    TakeOfSorted(t, n, key);
    ReversedPermutes(Take(t, n));
    assert n >= |s| ==> Take(t, n) == t;
  }

  /** Keys never increase along a page. */
  lemma PageDescending<T>(s: seq<T>, n: int, key: T -> int)
    ensures forall i, j :: 0 <= i < j < |Page(s, n, key)| ==>
      key(Page(s, n, key)[j]) <= key(Page(s, n, key)[i])
  {
    var t := SortBy(s, key);
    SortBySortsAndPermutes(s, key);
    var p := Take(t, n);
    var r := Page(s, n, key);
    var k := |p|;
    assert |r| == k;
    forall i, j | 0 <= i < j < k ensures key(r[j]) <= key(r[i]) {
      assert r[i] == t[k - 1 - i] && r[j] == t[k - 1 - j];
    }
  }

  /** The prefix `OrderBy(key).Take(n)` keeps the smallest keys of `s`. */
  lemma TakeOfSortByKeepsSmallestKeys<T>(s: seq<T>, n: int, key: T -> int, x: T, j: int)
    requires x in multiset(s) - multiset(Take(SortBy(s, key), n))
    requires 0 <= j < |Take(SortBy(s, key), n)|
    ensures key(Take(SortBy(s, key), n)[j]) <= key(x)
  {
    SortBySortsAndPermutes(s, key);
    TakeOfSorted(SortBy(s, key), n, key);
  }

  /** Every element of `s` left out of a page has a key at least as large as every
      element on it. */
  lemma PageKeepsSmallestKeys<T>(s: seq<T>, n: int, key: T -> int)
    ensures forall x, i :: x in multiset(s) - multiset(Page(s, n, key)) && 0 <= i < |Page(s, n, key)| ==>
      key(Page(s, n, key)[i]) <= key(x)
  {
    var p := Take(SortBy(s, key), n);
    var r := Page(s, n, key);
    ReversedPermutes(p);
    forall x, i | x in multiset(s) - multiset(r) && 0 <= i < |r| ensures key(r[i]) <= key(x) {
      var j := |p| - 1 - i;
      assert r[i] == p[j];
      TakeOfSortByKeepsSmallestKeys(s, n, key, x, j);
    }
  }

  /** `List.Reverse()` on the list the query built, done in place. */
  method ReverseInPlace<T>(a: array<T>)
    modifies a
    ensures a[..] == Reversed(old(a[..]))
  {
    var lo, hi := 0, a.Length - 1;
    while lo < hi
      invariant 0 <= lo <= hi + 1 && lo + hi == a.Length - 1
      invariant forall k :: 0 <= k < lo || hi < k < a.Length ==> a[k] == old(a[a.Length - 1 - k])
      invariant forall k :: lo <= k <= hi ==> a[k] == old(a[k])
    {
      a[lo], a[hi] := a[hi], a[lo];
      lo, hi := lo + 1, hi - 1;
    }
  }
}
