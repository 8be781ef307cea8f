/**
 List operations shared by the controllers and pages: `Array.prototype.filter`
 and `findIndex`, a query's `.sort({ createdAt: -1 })` and `.limit(n)`.
 */
module Seqs {
  import opened Options

  /** `s.filter(p)` */
  function Filter<T>(s: seq<T>, p: T -> bool): (r: seq<T>)
    ensures |r| <= |s|
    ensures forall i :: 0 <= i < |r| ==> p(r[i])
    ensures forall x | x in s :: x in r <==> p(x)
    ensures forall x | x in r :: x in s
  {
    if |s| == 0 then []
    else
      if p(s[0]) then [s[0]] + Filter(s[1..], p) else Filter(s[1..], p)
  }

  /** Filtering distributes over concatenation, so it keeps the relative order
      of the elements it keeps. */
  lemma {:induction false} FilterConcat<T>(a: seq<T>, b: seq<T>, p: T -> bool)
    ensures Filter(a + b, p) == Filter(a, p) + Filter(b, p)
  {
    if |a| == 0 {
      assert a + b == b;
    } else {
      assert (a + b)[1..] == a[1..] + b;
      FilterConcat(a[1..], b, p);
    }
  }

  /** A filter that every element passes is the identity; one that no element
      passes yields the empty list. */
  lemma {:induction false} FilterExtremes<T>(s: seq<T>, p: T -> bool)
    ensures (forall i :: 0 <= i < |s| ==> p(s[i])) ==> Filter(s, p) == s
    ensures (forall i :: 0 <= i < |s| ==> !p(s[i])) ==> Filter(s, p) == []
  {
    if |s| > 0 {
      FilterExtremes(s[1..], p);
      if forall i :: 0 <= i < |s| ==> p(s[i]) {
        assert forall i :: 0 <= i < |s[1..]| ==> p(s[1..][i]);
      }
      if forall i :: 0 <= i < |s| ==> !p(s[i]) {
        assert forall i :: 0 <= i < |s[1..]| ==> !p(s[1..][i]);
      }
    }
  }

  /** Filtering only drops elements: each is kept at most as often as it occurs. */
  lemma {:induction false} FilterSubMultiset<T>(s: seq<T>, p: T -> bool)
    ensures multiset(Filter(s, p)) <= multiset(s)
  {
    if |s| > 0 {
      assert s == [s[0]] + s[1..];
      FilterSubMultiset(s[1..], p);
    }
  }

  /** The number of elements of `s` that satisfy `p`. */
  function Count<T>(s: seq<T>, p: T -> bool): nat {
    |Filter(s, p)|
  }

  /** `s.findIndex(p)`, with -1 read as None. */
  function FirstIndex<T>(s: seq<T>, p: T -> bool): (r: Option<nat>)
    ensures r.Some? ==> r.value < |s| && p(s[r.value]) && forall j :: 0 <= j < r.value ==> !p(s[j])
    ensures r.None? ==> forall j :: 0 <= j < |s| ==> !p(s[j])
  {
    if |s| == 0 then None
    else if p(s[0]) then Some(0)
    else match FirstIndex(s[1..], p)
      case None => None
      case Some(k) => Some(k + 1)
  }

  /** `.limit(n)` */
  function Take<T>(s: seq<T>, n: nat): (r: seq<T>)
    ensures |r| == if |s| <= n then |s| else n
    ensures r == s[..|r|]
  {
    if |s| <= n then s else s[..n]
  }

  /** A prefix holds each element at most as often as the whole list. */
  lemma TakeSubMultiset<T>(s: seq<T>, n: nat)
    ensures multiset(Take(s, n)) <= multiset(s)
  {
    var r := Take(s, n);
    assert s == r + s[|r|..];
  }

  // ---------------------------------------------------------------------
  // Newest first

  /** Non-increasing by `key`: the order `.sort({ createdAt: -1 })` produces. */
  ghost predicate SortedDesc<T>(s: seq<T>, key: T -> int) {
    forall i, j :: 0 <= i < j < |s| ==> key(s[i]) >= key(s[j])
  }

  function InsertDesc<T>(x: T, s: seq<T>, key: T -> int): (r: seq<T>)
    requires SortedDesc(s, key)
    ensures SortedDesc(r, key)
    ensures multiset(r) == multiset(s) + multiset{x}
    ensures |r| == |s| + 1
    ensures forall j :: 0 <= j < |r| ==> r[j] == x || r[j] in s
  {
    if |s| == 0 then [x]
    else if key(x) >= key(s[0]) then [x] + s
    else
      var rest := InsertDesc(x, s[1..], key);
      assert s == [s[0]] + s[1..];
      HeadStaysFirst(s, x, rest, key);
      [s[0]] + rest
  }

  /** The head of a sorted list, newer than `x`, is no older than anything in
      the rest with `x` inserted, so it can stay in front. */
  lemma HeadStaysFirst<T>(s: seq<T>, x: T, rest: seq<T>, key: T -> int)
    requires |s| > 0 && SortedDesc(s, key) && SortedDesc(rest, key) && key(x) < key(s[0])
    requires forall j :: 0 <= j < |rest| ==> rest[j] == x || rest[j] in s[1..]
    ensures SortedDesc([s[0]] + rest, key)
  {
    forall j | 0 <= j < |rest|
      ensures key(s[0]) >= key(rest[j])
    {
      if rest[j] != x {
        var m :| 0 <= m < |s[1..]| && s[1..][m] == rest[j];
        assert s[m + 1] == rest[j];
      }
    }
  }

  /** Sorts newest first: the result is a permutation of `s`, non-increasing by `key`. */
  function SortDesc<T>(s: seq<T>, key: T -> int): (r: seq<T>)
    ensures SortedDesc(r, key)
    ensures multiset(r) == multiset(s)
    ensures |r| == |s|
  {
    if |s| == 0 then []
    else
      assert s == [s[0]] + s[1..];
      InsertDesc(s[0], SortDesc(s[1..], key), key)
  }

  /** The first `n` after sorting: as many as there are, up to `n`, sorted,
      and each taken from `s`. */
  lemma NewestFirstShape<T>(s: seq<T>, key: T -> int, n: nat)
    ensures var r := Take(SortDesc(s, key), n);
      && |r| == (if |s| < n then |s| else n)
      && SortedDesc(r, key)
      && (forall i :: 0 <= i < |r| ==> r[i] in s)
  {
    var sorted := SortDesc(s, key);
    var r := Take(sorted, n);
    forall i | 0 <= i < |r|
      ensures r[i] in s
    {
      assert r[i] == sorted[i];
      assert sorted[i] in multiset(sorted);
    }
  }

  /** The elements a sorted, limited query returns: at most `n`, all in `s`,
      newest first, and no element left out is newer than one returned. When
      fewer than `n` exist, all are returned. */
  lemma NewestFirstLimit<T>(s: seq<T>, key: T -> int, n: nat)
    ensures var r := Take(SortDesc(s, key), n);
      && |r| <= n
      && SortedDesc(r, key)
      && (forall x :: x in r ==> x in s)
      && (|s| <= n ==> multiset(r) == multiset(s))
      && multiset(r) <= multiset(s)
      && (forall x :: x in s && x !in r ==> |r| == n && forall y :: y in r ==> key(y) >= key(x))
  {
    NewestFirstShape(s, key, n);
    NewestFirstTop(s, key, n);
    TakeSubMultiset(SortDesc(s, key), n);
  }

  /** Anything left out of the first `n` is no newer than anything kept. */
  lemma NewestFirstTop<T>(s: seq<T>, key: T -> int, n: nat)
    ensures var r := Take(SortDesc(s, key), n);
      forall x :: x in s && x !in r ==> |r| == n && forall y :: y in r ==> key(y) >= key(x)
  {
    var sorted := SortDesc(s, key);
    var r := Take(sorted, n);
    forall x | x in s && x !in r
      ensures |r| == n && forall y :: y in r ==> key(y) >= key(x)
    {
      assert x in multiset(sorted);
      var j :| 0 <= j < |sorted| && sorted[j] == x;
      assert j >= |r|;
      forall y | y in r
        ensures key(y) >= key(x)
      {
        var i :| 0 <= i < |r| && r[i] == y;
        assert sorted[i] == y;
      }
    }
  }

}
