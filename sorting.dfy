/**
 * The orderings the core asks for: `ORDER BY` a timestamp in queries and
 * `Array.prototype.sort` with a numeric comparator on the chat page, both modelled as a
 * stable insertion sort on a sequence by an integer key.
 */
module Sorting {
  import Seqs

  /** `s` is in non-decreasing order of `key`. */
  predicate SortedBy<T>(s: seq<T>, key: T -> int) {
    forall i, j :: 0 <= i < j < |s| ==> key(s[i]) <= key(s[j])
  }

  /** Puts `x` into the sorted `s` before the first element whose key is not smaller. */
  function Insert<T>(x: T, s: seq<T>, key: T -> int): (r: seq<T>)
    requires SortedBy(s, key)
    ensures SortedBy(r, key)
    ensures multiset(r) == multiset(s) + multiset{x}
    ensures |r| == |s| + 1
  {
    if s == [] || key(x) <= key(s[0]) then [x] + s
    else
      var rest := Insert(x, s[1..], key);
      assert s == [s[0]] + s[1..];
      LowerBoundKept(s[0], x, s[1..], rest, key);
      [s[0]] + rest
  }

  /** A key below that of `x` and of every element of `s` stays below everything in their merge. */
  lemma {:induction false} LowerBoundKept<T>(h: T, x: T, s: seq<T>, r: seq<T>, key: T -> int)
    requires key(h) <= key(x)
    requires forall k :: 0 <= k < |s| ==> key(h) <= key(s[k])
    requires multiset(r) == multiset(s) + multiset{x}
    ensures forall k :: 0 <= k < |r| ==> key(h) <= key(r[k])
  {
    forall k | 0 <= k < |r| ensures key(h) <= key(r[k]) {
      assert r[k] in multiset(r);
      if r[k] != x {
        assert r[k] in multiset(s);
      }
    }
  }

  /** The elements of `s` in non-decreasing order of `key`. */
  function SortBy<T>(s: seq<T>, key: T -> int): (r: seq<T>)
    ensures SortedBy(r, key)
    ensures multiset(r) == multiset(s)
    ensures |r| == |s|
  {
    if s == [] then []
    else
      assert s == [s[0]] + s[1..];
      Insert(s[0], SortBy(s[1..], key), key)
  }

  /** Sorting a filter keeps exactly the elements the filter accepts. */
  /** Mapping a sorted sequence gives the images of the input, each as often. */
  lemma SortedMapMultiset<T, U>(s: seq<T>, key: T -> int, f: T -> U)
    ensures multiset(Seqs.Map(SortBy(s, key), f)) == multiset(Seqs.Map(s, f))
  {
    Seqs.MapMultiset(SortBy(s, key), s, f);
  }

  lemma {:induction false} SortedFilterMembers<T>(s: seq<T>, p: T -> bool, key: T -> int)
    ensures var r := SortBy(Seqs.Filter(s, p), key);
      (forall i :: 0 <= i < |r| ==> r[i] in s && p(r[i]))
      && (forall k :: 0 <= k < |s| && p(s[k]) ==> s[k] in r)
  {
    var f := Seqs.Filter(s, p);
    var r := SortBy(f, key);
    forall i | 0 <= i < |r| ensures r[i] in s && p(r[i]) {
      assert r[i] in multiset(f);
    }
    forall k | 0 <= k < |s| && p(s[k]) ensures s[k] in r {
      assert s[k] in multiset(r);
    }
  }

  /** Nothing in a sorted sequence has a key below its head's. */
  lemma {:induction false} LeastIsHead<T>(r: seq<T>, key: T -> int, x: T)
    requires SortedBy(r, key) && x in r
    ensures key(r[0]) <= key(x)
  {
    var j :| 0 <= j < |r| && r[j] == x;
    if j > 0 {
      assert key(r[0]) <= key(r[j]);
    }
  }

  /** The head of a sorted arrangement of a filter is an accepted element with the least key of all accepted ones. */
  lemma {:induction false} SortedFilterHeadIsLeast<T>(s: seq<T>, p: T -> bool, key: T -> int, r: seq<T>)
    requires SortedBy(r, key) && multiset(r) == multiset(Seqs.Filter(s, p)) && r != []
    ensures r[0] in s && p(r[0])
    ensures forall k :: 0 <= k < |s| && p(s[k]) ==> key(r[0]) <= key(s[k])
  {
    var f := Seqs.Filter(s, p);
    assert r[0] in multiset(f);
    forall k | 0 <= k < |s| && p(s[k]) ensures key(r[0]) <= key(s[k]) {
      assert s[k] in multiset(r);
      LeastIsHead(r, key, s[k]);
    }
  }
}
