/** Ascending sort of a list of integers (Python's `list.sort()` on `int`)
    and the rank facts that make `sorted(xs)[len(xs) // 2]` an upper median. */
module Sorting {

  predicate SortedAsc(s: seq<int>) {
    forall i, j :: 0 <= i < j < |s| ==> s[i] <= s[j]
  }

  function Insert(x: int, s: seq<int>): (r: seq<int>)
    requires SortedAsc(s)
    ensures |r| == |s| + 1
    ensures SortedAsc(r)
    ensures multiset(r) == multiset(s) + multiset{x}
  {
    if s == [] || x <= s[0] then [x] + s
    else
      var rest := Insert(x, s[1..]);
      assert s == [s[0]] + s[1..];
      BoundCarries(s[0], x, s[1..], rest);
      ConsSorted(s[0], rest);
      assert multiset([s[0]] + rest) == multiset{s[0]} + multiset(s[1..]) + multiset{x};
      [s[0]] + rest
  }

  /** A lower bound of `x` and of every element of `s` bounds every element
      of a list holding the same elements as `s` plus `x`. */
  lemma BoundCarries(h: int, x: int, s: seq<int>, rest: seq<int>)
    requires h <= x && forall i :: 0 <= i < |s| ==> h <= s[i]
    requires multiset(rest) == multiset(s) + multiset{x}
    ensures forall i :: 0 <= i < |rest| ==> h <= rest[i]
  {
    forall i | 0 <= i < |rest| ensures h <= rest[i] {
      assert rest[i] in multiset(rest);
      if rest[i] != x {
        assert rest[i] in multiset(s);
        var j :| 0 <= j < |s| && s[j] == rest[i];
      }
    }
  }

  lemma ConsSorted(h: int, t: seq<int>)
    requires SortedAsc(t) && forall i :: 0 <= i < |t| ==> h <= t[i]
    ensures SortedAsc([h] + t)
  {
  }

  function Sort(s: seq<int>): (r: seq<int>)
    ensures |r| == |s|
    ensures SortedAsc(r)
    ensures multiset(r) == multiset(s)
  {
    if s == [] then []
    else
      assert s == [s[0]] + s[1..];
      Insert(s[0], Sort(s[1..]))
  }

  /** `y < v`, or `y <= v` when `orEqual`. */
  predicate Cmp(y: int, v: int, orEqual: bool) {
    if orEqual then y <= v else y < v
  }

  /** Number of elements of `s` below `v` (at most `v` when `orEqual`). */
  function CountCmp(s: seq<int>, v: int, orEqual: bool): (n: nat)
    ensures n <= |s|
  {
    if s == [] then 0 else (if Cmp(s[0], v, orEqual) then 1 else 0) + CountCmp(s[1..], v, orEqual)
  }

  lemma {:induction false} CountConcat(a: seq<int>, b: seq<int>, v: int, orEqual: bool)
    ensures CountCmp(a + b, v, orEqual) == CountCmp(a, v, orEqual) + CountCmp(b, v, orEqual)
  {
    if a == [] {
      assert a + b == b;
    } else {
      assert (a + b)[0] == a[0] && (a + b)[1..] == a[1..] + b;
      CountConcat(a[1..], b, v, orEqual);
    }
  }

  lemma {:induction false} CountInsert(x: int, s: seq<int>, v: int, orEqual: bool)
    requires SortedAsc(s)
    ensures CountCmp(Insert(x, s), v, orEqual) == CountCmp(s, v, orEqual) + (if Cmp(x, v, orEqual) then 1 else 0)
  {
    if s == [] || x <= s[0] {
      assert ([x] + s)[1..] == s;
    } else {
      var rest := Insert(x, s[1..]);
      assert ([s[0]] + rest)[1..] == rest;
      CountInsert(x, s[1..], v, orEqual);
    }
  }

  /** Sorting does not change how many elements lie below a bound. */
  lemma {:induction false} CountSort(s: seq<int>, v: int, orEqual: bool)
    ensures CountCmp(Sort(s), v, orEqual) == CountCmp(s, v, orEqual)
  {
    if s != [] {
      CountSort(s[1..], v, orEqual);
      CountInsert(s[0], Sort(s[1..]), v, orEqual);
    }
  }

  lemma {:induction false} CountAll(s: seq<int>, v: int, orEqual: bool)
    requires forall i :: 0 <= i < |s| ==> Cmp(s[i], v, orEqual)
    ensures CountCmp(s, v, orEqual) == |s|
  {
    if s != [] {
      CountAll(s[1..], v, orEqual);
    }
  }

  lemma {:induction false} CountNone(s: seq<int>, v: int, orEqual: bool)
    requires forall i :: 0 <= i < |s| ==> !Cmp(s[i], v, orEqual)
    ensures CountCmp(s, v, orEqual) == 0
  {
    if s != [] {
      CountNone(s[1..], v, orEqual);
    }
  }

  /** In a sorted list the element at index `k` has at most `k` elements
      strictly below it and at least `k + 1` elements at or below it. */
  lemma SortedRank(t: seq<int>, k: nat)
    requires SortedAsc(t) && k < |t|
    ensures CountCmp(t, t[k], false) <= k
    ensures CountCmp(t, t[k], true) >= k + 1
  {
    assert t == t[..k] + t[k..];
    CountConcat(t[..k], t[k..], t[k], false);
    CountNone(t[k..], t[k], false);
    assert t == t[..k + 1] + t[k + 1..];
    CountConcat(t[..k + 1], t[k + 1..], t[k], true);
    CountAll(t[..k + 1], t[k], true);
  }

  /** `sorted(s)[len(s) // 2]` is an element of `s` and an upper median of it:
      at most half of `s` lies strictly below it, more than half at or below it. */
  lemma UpperMedian(s: seq<int>)
    requires |s| >= 1
    ensures Sort(s)[|s| / 2] in s
    ensures CountCmp(s, Sort(s)[|s| / 2], false) <= |s| / 2
    ensures CountCmp(s, Sort(s)[|s| / 2], true) > |s| / 2
  {
    var t := Sort(s);
    assert |t| == |multiset(t)| == |s|;
    assert t[|s| / 2] in multiset(s);
    SortedRank(t, |s| / 2);
    CountSort(s, t[|s| / 2], false);
    CountSort(s, t[|s| / 2], true);
  }
}
