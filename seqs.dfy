/** Sequence helpers shared by the list screens: `Array.prototype.filter`,
    `Array.prototype.slice` and integer sums. */
module Seqs {

  /** `s.filter(p)`: the elements satisfying `p`, in their original order. */
  function Filter<T>(s: seq<T>, p: T -> bool): (r: seq<T>)
    ensures |r| <= |s|
    ensures forall i :: 0 <= i < |r| ==> p(r[i])
    decreases |s|
  {
    if s == [] then []
    else if p(s[0]) then [s[0]] + Filter(s[1..], p)
    else Filter(s[1..], p)
  }

  /** `r` can be obtained from `s` by deleting elements, keeping the order. */
  ghost predicate IsSubsequence<T>(r: seq<T>, s: seq<T>)
    decreases |s|
  {
    if r == [] then true
    else if s == [] then false
    else if r[0] == s[0] then IsSubsequence(r[1..], s[1..])
    else IsSubsequence(r, s[1..])
  }

  /** Filtering keeps exactly the elements that satisfy the predicate. */
  lemma {:induction false} FilterMembers<T>(s: seq<T>, p: T -> bool, x: T)
    ensures x in Filter(s, p) <==> x in s && p(x)
    decreases |s|
  {
    if s != [] {
      FilterMembers(s[1..], p, x);
      assert s == [s[0]] + s[1..];
    }
  }

  /** Filtering keeps every copy of a satisfying element and no copy of any
      other: the multiplicities are those of the input, or zero. */
  lemma {:induction false} FilterCount<T>(s: seq<T>, p: T -> bool, x: T)
    ensures multiset(Filter(s, p))[x] == if p(x) then multiset(s)[x] else 0
    decreases |s|
  {
    if s != [] {
      FilterCount(s[1..], p, x);
      assert s == [s[0]] + s[1..];
    }
  }

  /** Filtering only deletes elements: the result is an ordered subsequence. */
  lemma {:induction false} FilterIsSubsequence<T>(s: seq<T>, p: T -> bool)
    ensures IsSubsequence(Filter(s, p), s)
    decreases |s|
  {
    if s != [] {
      FilterIsSubsequence(s[1..], p);
      var r := Filter(s, p);
      if p(s[0]) {
        assert r[0] == s[0] && r[1..] == Filter(s[1..], p);
      } else if r != [] {
        assert p(r[0]);
        assert r[0] != s[0];
      }
    }
  }

  /** Filtering with a predicate every element satisfies changes nothing. */
  lemma {:induction false} FilterAll<T>(s: seq<T>, p: T -> bool)
    requires forall i :: 0 <= i < |s| ==> p(s[i])
    ensures Filter(s, p) == s
    decreases |s|
  {
    if s != [] {
      FilterAll(s[1..], p);
      assert s == [s[0]] + s[1..];
    }
  }

  /** Filtering distributes over appending one element. */
  lemma {:induction false} FilterAppendOne<T>(s: seq<T>, x: T, p: T -> bool)
    ensures Filter(s + [x], p) == Filter(s, p) + (if p(x) then [x] else [])
    decreases |s|
  {
    if s == [] {
      assert [] + [x] == [x];
      assert [x][1..] == [];
    } else {
      FilterAppendOne(s[1..], x, p);
      assert (s + [x])[1..] == s[1..] + [x];
    }
  }

  /** JavaScript's clamping of a `slice` bound against a length. */
  function SliceIndex(k: int, n: nat): (r: nat)
    ensures r <= n
    ensures k >= 0 ==> r == if k < n then k else n
  {
    if k < 0 then (if n + k < 0 then 0 else n + k) else if k < n then k else n
  }

  /** `s.slice(start, end)`, including negative and out-of-range bounds. */
  function Slice<T>(s: seq<T>, start: int, end: int): (r: seq<T>)
    ensures 0 <= start ==> |r| == if SliceIndex(end, |s|) > SliceIndex(start, |s|)
                                 then SliceIndex(end, |s|) - SliceIndex(start, |s|) else 0
    ensures 0 <= start ==> forall k :: 0 <= k < |r| ==> r[k] == s[start + k]
  {
    var lo := SliceIndex(start, |s|);
    var hi := SliceIndex(end, |s|);
    if lo < hi then s[lo..hi] else []
  }

  function Sum(s: seq<int>): int
    decreases |s|
  {
    if s == [] then 0 else s[0] + Sum(s[1..])
  }

  lemma {:induction false} SumAppend(a: seq<int>, b: seq<int>)
    ensures Sum(a + b) == Sum(a) + Sum(b)
    decreases |a|
  {
    if a != [] {
      SumAppend(a[1..], b);
      assert (a + b)[1..] == a[1..] + b;
    } else {
      assert a + b == b;
    }
  }
}
