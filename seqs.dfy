/**
 * Sequence helpers shared by the model: distinctness, ordering, reversal,
 * prefixes, an ascending sort (the `(a, b) => a - b` comparator of
 * Array.prototype.sort) and counting facts about integer ranges.
 */
module Seqs {

  /** No value occurs twice. */
  predicate Distinct<T(==)>(s: seq<T>) {
    forall i, j :: 0 <= i < j < |s| ==> s[i] != s[j]
  }

  /** Non-decreasing order. */
  predicate Ascending(s: seq<int>) {
    forall i, j :: 0 <= i < j < |s| ==> s[i] <= s[j]
  }

  /** Strictly increasing order. */
  predicate StrictlyAscending(s: seq<int>) {
    forall i, j :: 0 <= i < j < |s| ==> s[i] < s[j]
  }

  /** `[...s].reverse()` */
  function Reverse<T>(s: seq<T>): (r: seq<T>)
    ensures |r| == |s|
    ensures forall i :: 0 <= i < |s| ==> r[i] == s[|s| - 1 - i]
  {
    if s == [] then [] else Reverse(s[1..]) + [s[0]]
  }

  /** `s.slice(0, n)` for n >= 0: the first n elements, or all of them. */
  function Take<T>(s: seq<T>, n: nat): (r: seq<T>)
    ensures |r| == if |s| < n then |s| else n
    ensures forall i :: 0 <= i < |r| ==> r[i] == s[i]
  {
    if |s| <= n then s else s[..n]
  }

  /** Reversing an appended sequence puts the new element first. */
  lemma {:induction false} ReverseSnoc<T>(s: seq<T>, x: T)
    ensures Reverse(s + [x]) == [x] + Reverse(s)
  {
    var r, l := Reverse(s + [x]), [x] + Reverse(s);
    assert |r| == |l|;
    forall i | 0 <= i < |r| ensures r[i] == l[i] {
      if i > 0 {
        assert r[i] == (s + [x])[|s| - i];
      }
    }
  }

  /** Insert x into an ascending sequence, keeping it ascending. */
  function Insert(x: int, s: seq<int>): (r: seq<int>)
    requires Ascending(s)
    ensures Ascending(r)
    ensures multiset(r) == multiset(s) + multiset{x}
    ensures |r| == |s| + 1
    ensures forall i :: 0 <= i < |r| ==> r[i] == x || r[i] in s
  {
    if s == [] then [x]
    else if x <= s[0] then [x] + s
    else
      var rest := Insert(x, s[1..]);
      assert s == [s[0]] + s[1..];
      [s[0]] + rest
  }

  /** `nums.sort((a, b) => a - b)`: an ascending permutation of the input. */
  function Sort(s: seq<int>): (r: seq<int>)
    ensures Ascending(r)
    ensures multiset(r) == multiset(s)
    ensures |r| == |s|
  {
    if s == [] then []
    else
      assert s == [s[0]] + s[1..];
      Insert(s[0], Sort(s[1..]))
  }

  /** A distinct sequence counts each of its values at most once. */
  lemma {:induction false} DistinctCounts<T>(s: seq<T>, x: T)
    requires Distinct(s)
    ensures multiset(s)[x] <= 1
  {
    if s != [] {
      assert s == [s[0]] + s[1..];
      DistinctCounts(s[1..], x);
      if x == s[0] {
        assert x !in s[1..];
      }
    }
  }

  /** Two positions holding the same value make it occur at least twice. */
  lemma RepeatCounts<T>(s: seq<T>, i: nat, j: nat)
    requires i < j < |s| && s[i] == s[j]
    ensures multiset(s)[s[i]] >= 2
  {
    assert s == s[..j] + [s[j]] + s[j + 1..];
    assert s[i] in multiset(s[..j]);
  }

  /** Values taken from a distinct sequence, each at most once, are distinct (so is a permutation of it). */
  lemma DistinctPart<T>(s: seq<T>, t: seq<T>)
    requires Distinct(s) && multiset(t) <= multiset(s)
    ensures Distinct(t)
  {
    forall i, j | 0 <= i < j < |t| ensures t[i] != t[j] {
      if t[i] == t[j] {
        RepeatCounts(t, i, j);
        DistinctCounts(s, t[i]);
      }
    }
  }

  /** An ascending distinct sequence is strictly ascending. */
  lemma AscendingDistinct(s: seq<int>)
    requires Ascending(s) && Distinct(s)
    ensures StrictlyAscending(s)
  {
  }

  /** The integers lo..hi (inclusive). */
  function Span(lo: int, hi: int): (r: set<int>)
    ensures forall x :: x in r <==> lo <= x <= hi
    decreases hi - lo
  {
    if hi < lo then {} else {lo} + Span(lo + 1, hi)
  }

  lemma {:induction false} SpanSize(lo: int, hi: int)
    requires lo <= hi + 1
    ensures |Span(lo, hi)| == hi - lo + 1
    decreases hi - lo
  {
    if lo <= hi {
      SpanSize(lo + 1, hi);
    }
  }

  lemma {:induction false} SubsetSize<T>(a: set<T>, b: set<T>)
    requires a <= b
    ensures |a| <= |b|
  {
    if a != {} {
      var x :| x in a;
      SubsetSize(a - {x}, b - {x});
    }
  }

  lemma {:induction false} DisjointUnionSize<T>(a: set<T>, b: set<T>)
    requires a * b == {}
    ensures |a + b| == |a| + |b|
  {
    if a != {} {
      var x :| x in a;
      DisjointUnionSize(a - {x}, b);
      assert a + b == (a - {x} + b) + {x};
    }
  }

  /** The set of a sequence's values is no larger than the sequence. */
  lemma {:induction false} ElementsSize<T>(s: seq<T>)
    ensures |set x | x in s| <= |s|
    ensures Distinct(s) ==> |set x | x in s| == |s|
  {
    if s != [] {
      var last := s[|s| - 1];
      var init := s[..|s| - 1];
      ElementsSize(init);
      assert (set x | x in s) == (set x | x in init) + {last};
      if Distinct(s) {
        assert Distinct(init);
        assert last !in init;
      }
    }
  }

  /**
   * Pigeonhole: fewer values than the range lo..hi cannot cover it, so some
   * value of the range is missing from s.
   */
  lemma MissingFromRange(s: seq<int>, lo: int, hi: int)
    requires lo <= hi + 1 && |s| < hi - lo + 1
    ensures exists x :: lo <= x <= hi && x !in s
  {
    if forall x :: lo <= x <= hi ==> x in s {
      SpanSize(lo, hi);
      ElementsSize(s);
      SubsetSize(Span(lo, hi), (set x | x in s));
      assert false;
    }
  }

  /** Distinct values taken from lo..hi number at most hi - lo + 1. */
  lemma DistinctInRange(s: seq<int>, lo: int, hi: int)
    requires lo <= hi + 1
    requires Distinct(s) && forall i :: 0 <= i < |s| ==> lo <= s[i] <= hi
    ensures |s| <= hi - lo + 1
  {
    SpanSize(lo, hi);
    ElementsSize(s);
    SubsetSize((set x | x in s), Span(lo, hi));
  }

  /** Distinct values taken from lo..hi leave exactly the rest of the range uncovered. */
  lemma UncoveredSize(s: seq<int>, lo: int, hi: int)
    requires lo <= hi + 1
    requires Distinct(s) && forall i :: 0 <= i < |s| ==> lo <= s[i] <= hi
    ensures |Span(lo, hi) - (set x | x in s)| == hi - lo + 1 - |s|
  {
    var all, covered := Span(lo, hi), set x | x in s;
    forall x | x in covered ensures x in all {
      var i :| 0 <= i < |s| && s[i] == x;
    }
    SpanSize(lo, hi);
    ElementsSize(s);
    DisjointUnionSize(all - covered, covered);
    assert (all - covered) + covered == all;
  }
}
