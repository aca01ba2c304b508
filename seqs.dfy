/** Sequence helpers shared by the pages: JavaScript's `Array.prototype.filter`,
    `slice(0, n)` and the "+N more" overflow badge. */
module Seqs {
  import opened Wrappers

  /** `s.filter(p)`: the elements of `s` satisfying `p`, in their original order. */
  function Filter<T>(s: seq<T>, p: T -> bool): (r: seq<T>)
    ensures |r| <= |s|
    ensures forall x :: x in r ==> x in s && p(x)
    ensures forall x :: x in s && p(x) ==> x in r
  {
    if s == [] then [] else (if p(s[0]) then [s[0]] else []) + Filter(s[1..], p)
  }

  /** Filtering keeps relative order: the filter of a concatenation is the
      concatenation of the filters. */
  lemma {:induction false} FilterConcat<T>(a: seq<T>, b: seq<T>, p: T -> bool)
    ensures Filter(a + b, p) == Filter(a, p) + Filter(b, p)
  {
    if a == [] {
      assert a + b == b;
    } else {
      assert (a + b)[0] == a[0];
      assert (a + b)[1..] == a[1..] + b;
      FilterConcat(a[1..], b, p);
    }
  }

  /** Filtering a sequence extended by one element. */
  lemma FilterSnoc<T>(a: seq<T>, x: T, p: T -> bool)
    ensures Filter(a + [x], p) == Filter(a, p) + (if p(x) then [x] else [])
  {
    FilterConcat(a, [x], p);
    assert Filter([x], p) == (if p(x) then [x] else []) + Filter([x][1..], p);
  }

  /** A filter keeps everything exactly when every element satisfies the predicate. */
  lemma {:induction false} FilterAll<T>(s: seq<T>, p: T -> bool)
    requires forall x :: x in s ==> p(x)
    ensures Filter(s, p) == s
  {
    if s != [] {
      FilterAll(s[1..], p);
    }
  }

  /** Filtering keeps relative order: any two kept elements come from two
      positions of `s` in the same order. */
  lemma FilterKeepsOrder<T>(s: seq<T>, f: T -> bool, p: nat, q: nat)
    requires p < q < |Filter(s, f)|
    ensures exists i, j :: 0 <= i < j < |s| && s[i] == Filter(s, f)[p] && s[j] == Filter(s, f)[q]
  {
    var i, j := FilterPositions(s, f, p, q);
  }

  /** The positions in `s` of the `p`-th and `q`-th kept elements. */
  lemma {:induction false} FilterPositions<T>(s: seq<T>, f: T -> bool, p: nat, q: nat) returns (i: nat, j: nat)
    requires p < q < |Filter(s, f)|
    ensures i < j < |s| && s[i] == Filter(s, f)[p] && s[j] == Filter(s, f)[q]
  {
    var r, rest := Filter(s, f), Filter(s[1..], f);
    assert r == (if f(s[0]) then [s[0]] else []) + rest;
    if !f(s[0]) {
      i, j := FilterPositions(s[1..], f, p, q);
      i, j := i + 1, j + 1;
    } else if p == 0 {
      assert r[q] == rest[q - 1];
      j := FilterPosition(s[1..], f, q - 1);
      i, j := 0, j + 1;
    } else {
      assert r[p] == rest[p - 1] && r[q] == rest[q - 1];
      i, j := FilterPositions(s[1..], f, p - 1, q - 1);
      i, j := i + 1, j + 1;
    }
  }

  /** The position in `s` of the `p`-th kept element. */
  lemma {:induction false} FilterPosition<T>(s: seq<T>, f: T -> bool, p: nat) returns (i: nat)
    requires p < |Filter(s, f)|
    ensures i < |s| && s[i] == Filter(s, f)[p]
  {
    var r, rest := Filter(s, f), Filter(s[1..], f);
    assert r == (if f(s[0]) then [s[0]] else []) + rest;
    if f(s[0]) && p == 0 {
      i := 0;
    } else {
      i := FilterPosition(s[1..], f, if f(s[0]) then p - 1 else p);
      i := i + 1;
    }
  }

  /** `s.slice(0, n)`: at most the first `n` elements. */
  function Take<T>(s: seq<T>, n: nat): (r: seq<T>)
    ensures |r| == if |s| < n then |s| else n
    ensures r <= s
  {
    if |s| <= n then s else s[..n]
  }

  /** The "+N more" badge shown after the first `shown` of `total` entries:
      present exactly when something was cut off, and then it counts what was cut. */
  function MoreBadge(total: nat, shown: nat): (r: Option<nat>)
    ensures r.Some? <==> total > shown
    ensures r.Some? ==> r.value > 0 && shown + r.value == total
  {
    if total > shown then Some(total - shown) else None
  }

  /** Sum of a sequence of naturals. */
  function Sum(s: seq<nat>): nat
  {
    if s == [] then 0 else s[0] + Sum(s[1..])
  }
}
