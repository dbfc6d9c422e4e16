/**
 * The JavaScript array operations the services use on their in-memory tables:
 * `findIndex`, `find`, `filter`, `splice(i, 1)`, and the table rewrites
 * `Array.prototype.map` stands for.
 */
module Seqs {
  import opened Wrappers

  /** `s.findIndex(p)`: the first index whose element satisfies `p`, or -1. */
  function FindIndex<T>(s: seq<T>, p: T -> bool): (r: int)
    ensures -1 <= r < |s|
    ensures r >= 0 ==> p(s[r])
    ensures forall j :: 0 <= j < |s| && (r < 0 || j < r) ==> !p(s[j])
  {
    if s == [] then -1
    else if p(s[0]) then 0
    else
      var k := FindIndex(s[1..], p);
      if k < 0 then -1 else k + 1
  }

  /** `s.find(p)`: the first element satisfying `p`, or `undefined`. */
  function Find<T>(s: seq<T>, p: T -> bool): (r: Option<T>)
    ensures r.Some? ==> r.value in s && p(r.value)
    ensures r.None? <==> forall j :: 0 <= j < |s| ==> !p(s[j])
    ensures r.Some? ==> exists k :: 0 <= k < |s| && s[k] == r.value && forall j :: 0 <= j < k ==> !p(s[j])
  {
    var k := FindIndex(s, p);
    if k < 0 then None else Some(s[k])
  }

  /** `s.filter(p)`: the elements satisfying `p`, in their order. */
  function Filter<T>(s: seq<T>, p: T -> bool): (r: seq<T>)
    ensures |r| <= |s|
    ensures forall j :: 0 <= j < |r| ==> r[j] in s && p(r[j])
    ensures forall j :: 0 <= j < |s| && p(s[j]) ==> s[j] in r
  {
    if s == [] then []
    else (if p(s[0]) then [s[0]] else []) + Filter(s[1..], p)
  }

  /** `r` is `s` read at the increasing positions `idx`. */
  ghost predicate ReadAt<T>(r: seq<T>, s: seq<T>, idx: seq<nat>) {
    |idx| == |r|
    && (forall k :: 0 <= k < |idx| ==> idx[k] < |s| && r[k] == s[idx[k]])
    && (forall k, l :: 0 <= k < l < |idx| ==> idx[k] < idx[l])
  }

  /** `idx` holds every position of an element `p` accepts. */
  predicate Covers<T>(s: seq<T>, idx: seq<nat>, p: T -> bool) {
    forall j :: 0 <= j < |s| && p(s[j]) ==> j in idx
  }

  /** Every position moved one place on. */
  function Shifted(idx: seq<nat>): (r: seq<nat>)
    ensures |r| == |idx| && forall k :: 0 <= k < |idx| ==> r[k] == idx[k] + 1
  {
    seq(|idx|, k requires 0 <= k < |idx| => idx[k] + 1)
  }

  /** Positions in the tail, moved on, are positions in the whole sequence. */
  lemma {:induction false} ShiftedReadAt<T>(r: seq<T>, s: seq<T>, rest: seq<nat>)
    requires s != [] && ReadAt(r, s[1..], rest)
    ensures ReadAt(r, s, Shifted(rest))
  {
    var sh := Shifted(rest);
    forall k | 0 <= k < |sh|
      ensures sh[k] < |s| && r[k] == s[sh[k]]
    {
      assert s[1..][rest[k]] == s[sh[k]];
    }
  }

  /** Reading the first element at position 0 in front of later positions. */
  lemma {:induction false} ConsReadAt<T>(r: seq<T>, s: seq<T>, sh: seq<nat>)
    requires s != [] && ReadAt(r, s, sh) && forall k :: 0 <= k < |sh| ==> sh[k] >= 1
    ensures ReadAt([s[0]] + r, s, [0] + sh)
  {
    var idx := [0] + sh;
    forall k | 0 < k < |idx|
      ensures idx[k] < |s| && ([s[0]] + r)[k] == s[idx[k]]
    {
      assert idx[k] == sh[k - 1];
    }
  }

  /** The tail's accepted positions, moved on, cover the accepted positions after the first. */
  lemma {:induction false} ShiftedCovers<T>(s: seq<T>, rest: seq<nat>, p: T -> bool)
    requires s != [] && Covers(s[1..], rest, p)
    ensures forall j :: 1 <= j < |s| && p(s[j]) ==> j in Shifted(rest)
  {
    var sh := Shifted(rest);
    forall j | 1 <= j < |s| && p(s[j])
      ensures j in sh
    {
      assert s[1..][j - 1] == s[j];
      var k :| 0 <= k < |rest| && rest[k] == j - 1;
      assert sh[k] == j;
    }
  }

  /** The positions of `s` that `Filter(s, p)` keeps, in increasing order. */
  function KeptIndices<T>(s: seq<T>, p: T -> bool): (idx: seq<nat>)
    ensures ReadAt(Filter(s, p), s, idx) && Covers(s, idx, p)
  {
    if s == [] then []
    else
      var rest := KeptIndices(s[1..], p);
      ShiftedReadAt(Filter(s[1..], p), s, rest);
      ShiftedCovers(s, rest, p);
      if p(s[0]) then
        ConsReadAt(Filter(s[1..], p), s, Shifted(rest));
        [0] + Shifted(rest)
      else
        Shifted(rest)
  }

  /** A filter keeps the accepted elements in their order, each as often as it occurs. */
  lemma {:induction false} FilterInOrder<T>(s: seq<T>, p: T -> bool)
    ensures exists idx :: ReadAt(Filter(s, p), s, idx) && Covers(s, idx, p)
  {
    var idx := KeptIndices(s, p);
  }

  /** An element is kept by a filter exactly when it occurs in the sequence and satisfies the predicate. */
  lemma {:induction false} FilterMembers<T>(s: seq<T>, p: T -> bool)
    ensures forall x :: x in Filter(s, p) <==> x in s && p(x)
  {
    var r := Filter(s, p);
    forall x | x in r ensures x in s && p(x) {
      var j :| 0 <= j < |r| && r[j] == x;
    }
    forall x | x in s && p(x) ensures x in r {
      var j :| 0 <= j < |s| && s[j] == x;
    }
  }

  /** `s.splice(i, 1)`: `s` without its element at index `i`. */
  function RemoveAt<T>(s: seq<T>, i: nat): (r: seq<T>)
    requires i < |s|
    ensures |r| == |s| - 1
    ensures forall j :: 0 <= j < i ==> r[j] == s[j]
    ensures forall j :: i <= j < |r| ==> r[j] == s[j + 1]
    ensures multiset(r) + multiset{s[i]} == multiset(s)
  {
    assert s == s[..i] + [s[i]] + s[i + 1..];
    s[..i] + s[i + 1..]
  }

  lemma {:induction false} FilterAppend<T>(a: seq<T>, b: seq<T>, p: T -> bool)
    ensures Filter(a + b, p) == Filter(a, p) + Filter(b, p)
  {
    if a == [] {
      assert a + b == b;
    } else {
      assert (a + b)[0] == a[0] && (a + b)[1..] == a[1..] + b;
      FilterAppend(a[1..], b, p);
    }
  }

  /** Filtering twice keeps what both predicates keep, in either order. */
  lemma {:induction false} FilterCommutes<T>(s: seq<T>, p: T -> bool, q: T -> bool)
    ensures Filter(Filter(s, p), q) == Filter(Filter(s, q), p)
  {
    if s != [] {
      FilterCommutes(s[1..], p, q);
      var h := s[0];
      var rest := s[1..];
      FilterAppend(if p(h) then [h] else [], Filter(rest, p), q);
      FilterAppend(if q(h) then [h] else [], Filter(rest, q), p);
    }
  }

  /** A filter whose predicate holds of every element keeps the sequence whole. */
  lemma {:induction false} FilterAll<T>(s: seq<T>, p: T -> bool)
    requires forall j :: 0 <= j < |s| ==> p(s[j])
    ensures Filter(s, p) == s
  {
    if s != [] {
      FilterAll(s[1..], p);
    }
  }

  /** A filter whose predicate holds of no element leaves nothing. */
  lemma {:induction false} FilterNone<T>(s: seq<T>, p: T -> bool)
    requires forall j :: 0 <= j < |s| ==> !p(s[j])
    ensures Filter(s, p) == []
  {
    if s != [] {
      FilterNone(s[1..], p);
    }
  }

  /** `filter` keeps every occurrence an element it accepts has, and none of one it rejects. */
  lemma {:induction false} FilterMultiset<T>(s: seq<T>, p: T -> bool, x: T)
    ensures multiset(Filter(s, p))[x] == if p(x) then multiset(s)[x] else 0
  {
    if s != [] {
      FilterMultiset(s[1..], p, x);
      assert s == [s[0]] + s[1..];
    }
  }

  /** A filter keeps the whole sequence exactly when its predicate holds of every element. */
  lemma {:induction false} FilterFull<T>(s: seq<T>, p: T -> bool)
    ensures |Filter(s, p)| == |s| <==> forall j :: 0 <= j < |s| ==> p(s[j])
    ensures |Filter(s, p)| == |s| ==> Filter(s, p) == s
  {
    if forall j :: 0 <= j < |s| ==> p(s[j]) {
      FilterAll(s, p);
    } else {
      var j :| 0 <= j < |s| && !p(s[j]);
      FilterShorter(s, p, j);
    }
  }

  /** A filter that rejects some element is shorter than its input. */
  lemma {:induction false} FilterShorter<T>(s: seq<T>, p: T -> bool, j: nat)
    requires j < |s| && !p(s[j])
    ensures |Filter(s, p)| < |s|
  {
    if j > 0 {
      assert s[1..][j - 1] == s[j];
      FilterShorter(s[1..], p, j - 1);
    }
  }

  /** `s.map(f)`. */
  function Map<T, U>(s: seq<T>, f: T -> U): (r: seq<U>)
    ensures |r| == |s|
    ensures forall i :: 0 <= i < |s| ==> r[i] == f(s[i])
  {
    if s == [] then [] else [f(s[0])] + Map(s[1..], f)
  }

  /** `map` distributes over concatenation. */
  lemma {:induction false} MapAppend<T, U>(a: seq<T>, b: seq<T>, f: T -> U)
    ensures Map(a + b, f) == Map(a, f) + Map(b, f)
  {
    if a == [] {
      assert a + b == b;
    } else {
      assert (a + b)[1..] == a[1..] + b;
      MapAppend(a[1..], b, f);
    }
  }

  /** Mapping after removing one position removes that element's image. */
  lemma {:induction false} MapRemoveAt<T, U>(b: seq<T>, k: nat, f: T -> U)
    requires k < |b|
    ensures multiset(Map(b, f)) == multiset(Map(RemoveAt(b, k), f)) + multiset{f(b[k])}
  {
    assert b == b[..k] + ([b[k]] + b[k + 1..]);
    MapAppend(b[..k], [b[k]] + b[k + 1..], f);
    MapAppend([b[k]], b[k + 1..], f);
    MapAppend(b[..k], b[k + 1..], f);
  }

  /** Taking the same element out of two sequences with equal multisets leaves equal multisets. */
  lemma {:induction false} TailMultiset<T>(a: seq<T>, b: seq<T>, k: nat)
    requires a != [] && k < |b| && b[k] == a[0] && multiset(a) == multiset(b)
    ensures multiset(a[1..]) == multiset(RemoveAt(b, k))
  {
    assert a == [a[0]] + a[1..];
    assert multiset(a[1..]) == multiset(a) - multiset{a[0]};
  }

  /** The multiset of a map depends only on the multiset of its input. */
  lemma {:induction false} MapMultiset<T, U>(a: seq<T>, b: seq<T>, f: T -> U)
    requires multiset(a) == multiset(b)
    ensures multiset(Map(a, f)) == multiset(Map(b, f))
  {
    if a != [] {
      assert a[0] in multiset(b);
      var k :| 0 <= k < |b| && b[k] == a[0];
      var rest := RemoveAt(b, k);
      TailMultiset(a, b, k);
      MapMultiset(a[1..], rest, f);
      MapRemoveAt(b, k, f);
      assert Map(a, f) == [f(a[0])] + Map(a[1..], f);
    }
  }

  /** A filter rejecting exactly one position removes exactly that element. */
  lemma {:induction false} FilterDropsOne<T>(s: seq<T>, p: T -> bool, k: nat)
    requires k < |s| && !p(s[k])
    requires forall j :: 0 <= j < |s| && j != k ==> p(s[j])
    ensures Filter(s, p) == s[..k] + s[k + 1..]
  {
    var before, after := s[..k], s[k + 1..];
    forall j | 0 <= j < |before| ensures p(before[j]) {
      assert before[j] == s[j];
    }
    forall j | 0 <= j < |after| ensures p(after[j]) {
      assert after[j] == s[k + 1 + j];
    }
    FilterAround(before, s[k], after, p);
    assert s == before + ([s[k]] + after);
  }

  lemma {:induction false} FilterAround<T>(before: seq<T>, x: T, after: seq<T>, p: T -> bool)
    requires forall j :: 0 <= j < |before| ==> p(before[j])
    requires !p(x)
    requires forall j :: 0 <= j < |after| ==> p(after[j])
    ensures Filter(before + ([x] + after), p) == before + after
  {
    FilterAll(before, p);
    FilterAll(after, p);
    FilterSkipsRejected(x, after, p);
    FilterAppend(before, [x] + after, p);
  }

  lemma {:induction false} FilterSkipsRejected<T>(x: T, rest: seq<T>, p: T -> bool)
    requires !p(x)
    ensures Filter([x] + rest, p) == Filter(rest, p)
  {
    FilterAppend([x], rest, p);
    FilterNone([x], p);
  }

  /**
   * Three filters whose predicates single out exactly one of them for every element split the
   * sequence: together they hold every element as often as the sequence does.
   */
  lemma {:induction false} FilterPartition3<T>(s: seq<T>, p: T -> bool, q: T -> bool, r: T -> bool)
    requires forall j :: 0 <= j < |s| ==> (if p(s[j]) then 1 else 0) + (if q(s[j]) then 1 else 0) + (if r(s[j]) then 1 else 0) == 1
    ensures multiset(Filter(s, p)) + multiset(Filter(s, q)) + multiset(Filter(s, r)) == multiset(s)
  {
    forall x ensures (multiset(Filter(s, p)) + multiset(Filter(s, q)) + multiset(Filter(s, r)))[x] == multiset(s)[x] {
      FilterMultiset(s, p, x);
      FilterMultiset(s, q, x);
      FilterMultiset(s, r, x);
      if x in s {
        var j :| 0 <= j < |s| && s[j] == x;
        assert (if p(x) then 1 else 0) + (if q(x) then 1 else 0) + (if r(x) then 1 else 0) == 1;
      }
    }
  }
}
