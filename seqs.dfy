/**
 * JavaScript's `Array.prototype.filter` and `sort` over sequences. `sort` is
 * modelled by a stable insertion sort driven by a JavaScript-style comparator
 * (negative, zero or positive); for a comparator that is a total preorder on
 * the elements, every stable sort returns this same sequence.
 */
module Seqs {

  function Filter<T(==)>(s: seq<T>, p: T -> bool): (r: seq<T>)
    ensures |r| <= |s|
    ensures forall i :: 0 <= i < |r| ==> p(r[i])
  {
    if s == [] then [] else (if p(s[0]) then [s[0]] else []) + Filter(s[1..], p)
  }

  /** `filter` keeps exactly the elements of s that pass p. */
  lemma {:induction false} FilterMembers<T>(s: seq<T>, p: T -> bool)
    ensures forall i :: 0 <= i < |Filter(s, p)| ==> Filter(s, p)[i] in s
    ensures forall i :: 0 <= i < |s| && p(s[i]) ==> s[i] in Filter(s, p)
  {
    if s != [] {
      FilterMembers(s[1..], p);
      var f := Filter(s, p);
      var rest := Filter(s[1..], p);
      assert f == (if p(s[0]) then [s[0]] else []) + rest;
      forall i | 0 <= i < |f| ensures f[i] in s {
        if p(s[0]) && i == 0 {
          assert f[0] == s[0];
        } else {
          var j := if p(s[0]) then i - 1 else i;
          assert f[i] == rest[j];
          assert rest[j] in s[1..];
        }
      }
      forall i | 0 <= i < |s| && p(s[i]) ensures s[i] in f {
        if i > 0 {
          assert s[i] == s[1..][i - 1];
        }
      }
    }
  }

  /**
   * The positions whose elements pass p, in increasing order; every position
   * whose element passes is among them.
   */
  function KeptIndices<T>(s: seq<T>, p: T -> bool): (ix: seq<nat>)
    ensures forall k :: 0 <= k < |ix| ==> ix[k] < |s| && p(s[ix[k]])
    ensures forall k, l :: 0 <= k < l < |ix| ==> ix[k] < ix[l]
    ensures forall i :: 0 <= i < |s| && p(s[i]) ==> i in ix
    decreases |s|
  {
    if s == [] then []
    else
      var rest := KeptIndices(s[1..], p);
      var shifted := Shifted(rest);
      KeptShifted(s, p, rest, shifted);
      ShiftedComplete(s, p, rest, shifted);
      if p(s[0]) then
        KeptFront(s, p, shifted);
        [0] + shifted
      else
        assert forall i :: 0 <= i < |s| && p(s[i]) ==> i >= 1;
        shifted
  }

  /** The elements of s at the positions ix, in order. */
  function Pick<T>(s: seq<T>, ix: seq<nat>): (r: seq<T>)
    requires forall k :: 0 <= k < |ix| ==> ix[k] < |s|
    ensures |r| == |ix| && forall k :: 0 <= k < |r| ==> r[k] == s[ix[k]]
  {
    seq(|ix|, k requires 0 <= k < |ix| => s[ix[k]])
  }

  /**
   * `filter` returns the passing elements in their original order: the input
   * at its kept positions, which increase.
   */
  lemma {:induction false} FilterKeepsOrder<T>(s: seq<T>, p: T -> bool)
    ensures Filter(s, p) == Pick(s, KeptIndices(s, p))
  {
    if s != [] {
      var rest := KeptIndices(s[1..], p);
      FilterKeepsOrder(s[1..], p);
      PickShifted(s, rest);
      assert Filter(s, p) == (if p(s[0]) then [s[0]] else []) + Filter(s[1..], p);
      if p(s[0]) {
        PickFront(s, Shifted(rest));
      }
    }
  }

  /** Picking the shifted positions from s is picking the positions from its tail. */
  lemma PickShifted<T>(s: seq<T>, rest: seq<nat>)
    requires s != [] && forall k :: 0 <= k < |rest| ==> rest[k] < |s| - 1
    ensures Pick(s, Shifted(rest)) == Pick(s[1..], rest)
  {
    var a, b := Pick(s, Shifted(rest)), Pick(s[1..], rest);
    forall k | 0 <= k < |a| ensures a[k] == b[k] {
      assert s[1..][rest[k]] == s[rest[k] + 1];
    }
  }

  /** Picking position 0 first puts the head in front. */
  lemma PickFront<T>(s: seq<T>, ix: seq<nat>)
    requires s != [] && forall k :: 0 <= k < |ix| ==> ix[k] < |s|
    ensures Pick(s, [0] + ix) == [s[0]] + Pick(s, ix)
  {
    var a, b := Pick(s, [0] + ix), [s[0]] + Pick(s, ix);
    forall k | 0 <= k < |a| ensures a[k] == b[k] {
      if k > 0 {
        assert ([0] + ix)[k] == ix[k - 1];
      }
    }
  }

  /** Every index moved up by one. */
  function Shifted(ix: seq<nat>): (r: seq<nat>)
    ensures |r| == |ix| && forall k :: 0 <= k < |r| ==> r[k] == ix[k] + 1
  {
    seq(|ix|, k requires 0 <= k < |ix| => ix[k] + 1)
  }

  /** Position 0 in front of increasing positions from 1 on. */
  lemma KeptFront<T>(s: seq<T>, p: T -> bool, shifted: seq<nat>)
    requires s != [] && p(s[0])
    requires forall k :: 0 <= k < |shifted| ==> 1 <= shifted[k] < |s| && p(s[shifted[k]])
    requires forall k, l :: 0 <= k < l < |shifted| ==> shifted[k] < shifted[l]
    requires forall i :: 1 <= i < |s| && p(s[i]) ==> i in shifted
    ensures var ix := [0] + shifted;
      && (forall k :: 0 <= k < |ix| ==> ix[k] < |s| && p(s[ix[k]]))
      && (forall k, l :: 0 <= k < l < |ix| ==> ix[k] < ix[l])
      && (forall i :: 0 <= i < |s| && p(s[i]) ==> i in ix)
  {
    var ix := [0] + shifted;
    forall k | 0 <= k < |ix| ensures ix[k] < |s| && p(s[ix[k]]) {
      if k > 0 {
        assert ix[k] == shifted[k - 1];
      }
    }
    forall k, l | 0 <= k < l < |ix| ensures ix[k] < ix[l] {
      assert ix[l] == shifted[l - 1];
      if k > 0 {
        assert ix[k] == shifted[k - 1];
      }
    }
    forall i | 0 <= i < |s| && p(s[i]) ensures i in ix {
      if i == 0 {
        assert ix[0] == 0;
      } else {
        var k :| 0 <= k < |shifted| && shifted[k] == i;
        assert ix[k + 1] == i;
      }
    }
  }

  /** The kept positions of the tail, moved up by one, are increasing positions of s that pass. */
  lemma KeptShifted<T>(s: seq<T>, p: T -> bool, rest: seq<nat>, shifted: seq<nat>)
    requires s != []
    requires forall k :: 0 <= k < |rest| ==> rest[k] < |s| - 1 && p(s[1..][rest[k]])
    requires forall k, l :: 0 <= k < l < |rest| ==> rest[k] < rest[l]
    requires |shifted| == |rest| && forall k :: 0 <= k < |shifted| ==> shifted[k] == rest[k] + 1
    ensures forall k :: 0 <= k < |shifted| ==> 1 <= shifted[k] < |s| && p(s[shifted[k]])
    ensures forall k, l :: 0 <= k < l < |shifted| ==> shifted[k] < shifted[l]
  {
    forall k | 0 <= k < |shifted| ensures 1 <= shifted[k] < |s| && p(s[shifted[k]]) {
      assert s[1..][rest[k]] == s[rest[k] + 1];
    }
  }

  /** Every position of s after 0 whose element passes is a shifted kept position of the tail. */
  lemma ShiftedComplete<T>(s: seq<T>, p: T -> bool, rest: seq<nat>, shifted: seq<nat>)
    requires s != []
    requires forall i :: 0 <= i < |s| - 1 && p(s[1..][i]) ==> i in rest
    requires |shifted| == |rest| && forall k :: 0 <= k < |shifted| ==> shifted[k] == rest[k] + 1
    ensures forall i :: 1 <= i < |s| && p(s[i]) ==> i in shifted
  {
    forall i | 1 <= i < |s| && p(s[i]) ensures i in shifted {
      assert s[1..][i - 1] == s[i];
      var k :| 0 <= k < |rest| && rest[k] == i - 1;
      assert shifted[k] == i;
    }
  }

  /** Filtering distributes over concatenation, so relative order is kept. */
  lemma {:induction false} FilterAppend<T>(a: seq<T>, b: seq<T>, p: T -> bool)
    ensures Filter(a + b, p) == Filter(a, p) + Filter(b, p)
  {
    if a == [] {
      assert a + b == b;
    } else {
      assert (a + b)[1..] == a[1..] + b;
      FilterAppend(a[1..], b, p);
    }
  }

  /** Filters by pointwise-equal predicates agree. */
  lemma {:induction false} FilterEquiv<T>(s: seq<T>, p: T -> bool, q: T -> bool)
    requires forall x :: p(x) == q(x)
    ensures Filter(s, p) == Filter(s, q)
  {
    if s != [] {
      FilterEquiv(s[1..], p, q);
    }
  }

  /** Filtering twice is filtering once by the conjunction. */
  lemma {:induction false} FilterBoth<T>(s: seq<T>, p: T -> bool, q: T -> bool, pq: T -> bool)
    requires forall x :: pq(x) == (p(x) && q(x))
    ensures Filter(Filter(s, p), q) == Filter(s, pq)
  {
    if s != [] {
      FilterBoth(s[1..], p, q, pq);
      if p(s[0]) {
        var fp := Filter(s, p);
        assert fp == [s[0]] + Filter(s[1..], p);
        assert fp[0] == s[0] && fp[1..] == Filter(s[1..], p);
        assert Filter(fp, q) == (if q(s[0]) then [s[0]] else []) + Filter(fp[1..], q);
      } else {
        assert [] + Filter(s[1..], p) == Filter(s[1..], p);
        assert Filter(s, p) == Filter(s[1..], p);
        assert !pq(s[0]);
        assert [] + Filter(s[1..], pq) == Filter(s[1..], pq);
        assert Filter(s, pq) == Filter(s[1..], pq);
      }
    }
  }

  /** A filter that keeps no element returns the empty sequence. */
  lemma {:induction false} FilterNone<T>(s: seq<T>, p: T -> bool)
    requires forall i :: 0 <= i < |s| ==> !p(s[i])
    ensures Filter(s, p) == []
  {
    if s != [] {
      assert forall i :: 0 <= i < |s[1..]| ==> s[1..][i] == s[i + 1];
      FilterNone(s[1..], p);
    }
  }

  /** A filter that keeps every element returns the sequence itself. */
  lemma {:induction false} FilterAll<T>(s: seq<T>, p: T -> bool)
    requires forall x :: x in s ==> p(x)
    ensures Filter(s, p) == s
  {
    if s != [] {
      FilterAll(s[1..], p);
    }
  }

  /** multiset(Filter(s, p)) keeps every occurrence that satisfies p. */
  lemma {:induction false} FilterMultiset<T>(s: seq<T>, p: T -> bool, x: T)
    ensures multiset(Filter(s, p))[x] == if p(x) then multiset(s)[x] else 0
  {
    if s != [] {
      var head := if p(s[0]) then [s[0]] else [];
      var rest := Filter(s[1..], p);
      FilterMultiset(s[1..], p, x);
      assert Filter(s, p) == head + rest;
      assert multiset(Filter(s, p)) == multiset(head) + multiset(rest);
      assert s == [s[0]] + s[1..];
      assert multiset(s) == multiset{s[0]} + multiset(s[1..]);
    }
  }

  /** Filtering for one value keeps exactly its occurrences. */
  lemma {:induction false} FilterCount<T>(s: seq<T>, p: T -> bool, c: T)
    requires forall x :: p(x) <==> x == c
    ensures |Filter(s, p)| == multiset(s)[c]
  {
    if s != [] {
      FilterCount(s[1..], p, c);
      assert |Filter(s, p)| == (if s[0] == c then 1 else 0) + |Filter(s[1..], p)|;
      assert s == [s[0]] + s[1..];
      assert multiset(s) == multiset{s[0]} + multiset(s[1..]);
    }
  }

  /** No element occurs twice. */
  ghost predicate Distinct<T>(s: seq<T>) {
    forall i :: 0 <= i < |s| ==> multiset(s)[s[i]] == 1
  }

  /** Appending a new element keeps a sequence free of repeats. */
  lemma DistinctAppend<T>(s: seq<T>, x: T)
    requires Distinct(s) && x !in s
    ensures Distinct(s + [x])
  {
    var r := s + [x];
    assert multiset(r) == multiset(s) + multiset{x};
    forall i | 0 <= i < |r| ensures multiset(r)[r[i]] == 1 {
      if i < |s| {
        assert r[i] == s[i] && s[i] != x;
      }
    }
  }

  /** No element comes after a later one, by the comparator's verdict. */
  ghost predicate Sorted<T>(s: seq<T>, cmp: (T, T) -> int) {
    forall i, j :: 0 <= i < j < |s| ==> cmp(s[i], s[j]) <= 0
  }

  /**
   * The comparator behaves as a total preorder on the values of xs: a
   * non-negative verdict one way gives a non-positive one the other way, and
   * "not after" is transitive.
   */
  ghost predicate ConsistentOn<T>(cmp: (T, T) -> int, xs: multiset<T>) {
    && (forall a, b :: a in xs && b in xs && cmp(a, b) >= 0 ==> cmp(b, a) <= 0)
    && (forall a, b, c :: a in xs && b in xs && c in xs && cmp(a, b) <= 0 && cmp(b, c) <= 0 ==> cmp(a, c) <= 0)
  }

  /** Three elements that break transitivity make a comparator inconsistent. */
  lemma BrokenTransitivity<T>(cmp: (T, T) -> int, xs: multiset<T>, a: T, b: T, c: T)
    requires a in xs && b in xs && c in xs
    requires cmp(a, b) <= 0 && cmp(b, c) <= 0 && cmp(a, c) > 0
    ensures !ConsistentOn(cmp, xs)
  {
  }

  /** Places x before the first element it must strictly precede. */
  function Insert<T>(x: T, s: seq<T>, cmp: (T, T) -> int): (r: seq<T>)
    ensures |r| == |s| + 1
  {
    if s == [] then [x]
    else if cmp(x, s[0]) < 0 then [x] + s
    else [s[0]] + Insert(x, s[1..], cmp)
  }

  /** Stable insertion sort: elements are inserted in their original order. */
  function Sort<T>(s: seq<T>, cmp: (T, T) -> int): (r: seq<T>)
    ensures |r| == |s|
  {
    if s == [] then [] else Insert(s[|s| - 1], Sort(s[..|s| - 1], cmp), cmp)
  }

  lemma {:induction false} InsertMultiset<T>(x: T, s: seq<T>, cmp: (T, T) -> int)
    ensures multiset(Insert(x, s, cmp)) == multiset(s) + multiset{x}
  {
    if s == [] {
      assert Insert(x, s, cmp) == [x];
    } else if cmp(x, s[0]) < 0 {
      assert Insert(x, s, cmp) == [x] + s;
      assert multiset([x] + s) == multiset{x} + multiset(s);
    } else {
      var rest := Insert(x, s[1..], cmp);
      InsertMultiset(x, s[1..], cmp);
      assert Insert(x, s, cmp) == [s[0]] + rest;
      assert multiset([s[0]] + rest) == multiset{s[0]} + multiset(rest);
      assert s == [s[0]] + s[1..];
      assert multiset(s) == multiset{s[0]} + multiset(s[1..]);
    }
  }

  /** The sort is a permutation of its input. */
  lemma {:induction false} SortMultiset<T>(s: seq<T>, cmp: (T, T) -> int)
    ensures multiset(Sort(s, cmp)) == multiset(s)
  {
    if s != [] {
      var init := s[..|s| - 1];
      SortMultiset(init, cmp);
      InsertMultiset(s[|s| - 1], Sort(init, cmp), cmp);
      assert Sort(s, cmp) == Insert(s[|s| - 1], Sort(init, cmp), cmp);
      assert s == init + [s[|s| - 1]];
      assert multiset(s) == multiset(init) + multiset{s[|s| - 1]};
    }
  }

  /** Consistency on a multiset carries over to every sub-multiset. */
  lemma ConsistentSub<T>(cmp: (T, T) -> int, xs: multiset<T>, ys: multiset<T>)
    requires ConsistentOn(cmp, xs) && ys <= xs
    ensures ConsistentOn(cmp, ys)
  {
  }

  /** A value not after x and not after any element of s is not after any element of Insert(x, s). */
  lemma {:induction false} InsertLowerBound<T>(b: T, x: T, s: seq<T>, cmp: (T, T) -> int)
    requires cmp(b, x) <= 0
    requires forall k :: 0 <= k < |s| ==> cmp(b, s[k]) <= 0
    ensures forall k :: 0 <= k < |Insert(x, s, cmp)| ==> cmp(b, Insert(x, s, cmp)[k]) <= 0
  {
    if s != [] && cmp(x, s[0]) >= 0 {
      InsertLowerBound(b, x, s[1..], cmp);
    }
  }

  lemma SortedCons<T>(b: T, t: seq<T>, cmp: (T, T) -> int)
    requires Sorted(t, cmp)
    requires forall k :: 0 <= k < |t| ==> cmp(b, t[k]) <= 0
    ensures Sorted([b] + t, cmp)
  {
    var r := [b] + t;
    forall i, j | 0 <= i < j < |r| ensures cmp(r[i], r[j]) <= 0 {
      if i > 0 {
        assert r[i] == t[i - 1] && r[j] == t[j - 1];
      } else {
        assert r[j] == t[j - 1];
      }
    }
  }

  /** Inserting x in front of an ordered list whose head x strictly precedes. */
  lemma InsertInFront<T>(x: T, s: seq<T>, cmp: (T, T) -> int)
    requires s != [] && cmp(x, s[0]) < 0 && Sorted(s, cmp)
    requires ConsistentOn(cmp, multiset(s) + multiset{x})
    ensures Sorted([x] + s, cmp)
  {
    var xs := multiset(s) + multiset{x};
    forall k | 0 <= k < |s| ensures cmp(x, s[k]) <= 0 {
      if k > 0 {
        assert cmp(s[0], s[k]) <= 0;
        assert x in xs && s[0] in xs && s[k] in xs;
      }
    }
    SortedCons(x, s, cmp);
  }

  /** The tail of an ordered list is ordered and not before its head. */
  lemma SortedTail<T>(s: seq<T>, cmp: (T, T) -> int)
    requires s != [] && Sorted(s, cmp)
    ensures Sorted(s[1..], cmp)
    ensures forall k :: 0 <= k < |s[1..]| ==> cmp(s[0], s[1..][k]) <= 0
  {
    var tail := s[1..];
    forall i, j | 0 <= i < j < |tail| ensures cmp(tail[i], tail[j]) <= 0 {
      assert tail[i] == s[i + 1] && tail[j] == s[j + 1];
    }
    forall k | 0 <= k < |tail| ensures cmp(s[0], tail[k]) <= 0 {
      assert tail[k] == s[k + 1];
    }
  }

  lemma {:induction false} InsertSorted<T>(x: T, s: seq<T>, cmp: (T, T) -> int)
    requires Sorted(s, cmp)
    requires ConsistentOn(cmp, multiset(s) + multiset{x})
    ensures Sorted(Insert(x, s, cmp), cmp)
  {
    if s == [] {
    } else if cmp(x, s[0]) < 0 {
      InsertInFront(x, s, cmp);
    } else {
      var tail := s[1..];
      var xs := multiset(s) + multiset{x};
      assert s == [s[0]] + tail;
      assert x in xs && s[0] in xs;
      assert cmp(s[0], x) <= 0;
      SortedTail(s, cmp);
      ConsistentSub(cmp, xs, multiset(tail) + multiset{x});
      InsertSorted(x, tail, cmp);
      InsertLowerBound(s[0], x, tail, cmp);
      SortedCons(s[0], Insert(x, tail, cmp), cmp);
    }
  }

  /** Under a consistent comparator the sort's output is ordered. */
  lemma {:induction false} SortSorted<T>(s: seq<T>, cmp: (T, T) -> int)
    requires ConsistentOn(cmp, multiset(s))
    ensures Sorted(Sort(s, cmp), cmp)
  {
    if s != [] {
      var init := s[..|s| - 1];
      assert s == init + [s[|s| - 1]];
      assert multiset(s) == multiset(init) + multiset{s[|s| - 1]};
      SortSorted(init, cmp);
      SortMultiset(init, cmp);
      InsertSorted(s[|s| - 1], Sort(init, cmp), cmp);
    }
  }

  /** Sorting keeps distinctness, since it is a permutation. */
  lemma SortDistinct<T>(s: seq<T>, cmp: (T, T) -> int)
    requires Distinct(s)
    ensures Distinct(Sort(s, cmp))
    ensures forall x :: x in Sort(s, cmp) <==> x in s
  {
    SortMultiset(s, cmp);
  }
}
