/** Order-preserving selection from sequences (`Array.prototype.filter`). */
module Sequences {

  /** `s.filter(p)`. */
  function Filter<T>(s: seq<T>, p: T -> bool): (r: seq<T>)
    ensures |r| <= |s|
    ensures forall k :: 0 <= k < |r| ==> p(r[k])
  {
    if |s| == 0 then []
    else (if p(s[0]) then [s[0]] else []) + Filter(s[1..], p)
  }

  /** The indices of the elements satisfying `p`, from `from` on, increasing. */
  function Positions<T>(s: seq<T>, p: T -> bool, from: nat): (ps: seq<nat>)
    requires from <= |s|
    ensures forall k :: 0 <= k < |ps| ==> from <= ps[k] < |s| && p(s[ps[k]])
    ensures forall k, l :: 0 <= k < l < |ps| ==> ps[k] < ps[l]
    ensures forall i :: from <= i < |s| && p(s[i]) ==> i in ps
    decreases |s| - from
  {
    if from == |s| then []
    else (if p(s[from]) then [from] else []) + Positions(s, p, from + 1)
  }

  /** The filter keeps, in order, exactly the elements at the satisfying
      indices: its `k`-th element is the one at the `k`-th such index. */
  lemma {:induction false} FilterAtPositions<T>(s: seq<T>, p: T -> bool, from: nat)
    requires from <= |s|
    ensures var r := Filter(s[from..], p);
      var ps := Positions(s, p, from);
      |r| == |ps| && forall k :: 0 <= k < |ps| ==> r[k] == s[ps[k]]
    decreases |s| - from
  {
    if from < |s| {
      FilterAtPositions(s, p, from + 1);
      PositionsStep(s, p, from);
    } else {
      assert s[from..] == [];
    }
  }

  /** One step of the induction: the element at `from`, kept or dropped, in
      front of what the rest keeps. */
  lemma PositionsStep<T>(s: seq<T>, p: T -> bool, from: nat)
    requires from < |s|
    requires var r1 := Filter(s[from + 1..], p);
      var ps1 := Positions(s, p, from + 1);
      |r1| == |ps1| && forall k :: 0 <= k < |ps1| ==> r1[k] == s[ps1[k]]
    ensures var r := Filter(s[from..], p);
      var ps := Positions(s, p, from);
      |r| == |ps| && forall k :: 0 <= k < |ps| ==> r[k] == s[ps[k]]
  {
    var t := s[from..];
    assert t[1..] == s[from + 1..];
    assert t[0] == s[from];
    var r, ps := Filter(t, p), Positions(s, p, from);
    var r1, ps1 := Filter(s[from + 1..], p), Positions(s, p, from + 1);
    if p(s[from]) {
      assert r == [s[from]] + r1 && ps == [from] + ps1;
      forall k | 0 <= k < |ps|
        ensures r[k] == s[ps[k]]
      {
        if k > 0 {
          assert r[k] == r1[k - 1] && ps[k] == ps1[k - 1];
        }
      }
    } else {
      assert r == r1 && ps == ps1;
    }
  }

  /** An element is kept exactly when it occurs and satisfies `p`. */
  lemma {:induction false} FilterMembership<T>(s: seq<T>, p: T -> bool, x: T)
    ensures x in Filter(s, p) <==> x in s && p(x)
    decreases |s|
  {
    if |s| > 0 {
      FilterMembership(s[1..], p, x);
      var head := if p(s[0]) then [s[0]] else [];
      assert Filter(s, p) == head + Filter(s[1..], p);
      assert s == [s[0]] + s[1..];
    }
  }

  /** Filtering twice keeps what satisfies both tests, in order. */
  lemma {:induction false} FilterFilter<T>(s: seq<T>, p: T -> bool, q: T -> bool, both: T -> bool)
    requires forall x :: both(x) == (p(x) && q(x))
    ensures Filter(Filter(s, p), q) == Filter(s, both)
    decreases |s|
  {
    if |s| > 0 {
      FilterFilter(s[1..], p, q, both);
      var head := if p(s[0]) then [s[0]] else [];
      FilterAppend(head, Filter(s[1..], p), q);
      if p(s[0]) {
        assert Filter(head, q) == if q(s[0]) then [s[0]] else [] by {
          assert head[1..] == [];
        }
      }
    }
  }

  /** Filtering a concatenation filters each part. */
  lemma {:induction false} FilterAppend<T>(a: seq<T>, b: seq<T>, p: T -> bool)
    ensures Filter(a + b, p) == Filter(a, p) + Filter(b, p)
    decreases |a|
  {
    if |a| > 0 {
      FilterAppend(a[1..], b, p);
      assert (a + b)[1..] == a[1..] + b;
    } else {
      assert a + b == b;
    }
  }

  /** Nothing passes a test no element meets. */
  lemma {:induction false} FilterNone<T>(s: seq<T>, p: T -> bool)
    requires forall i :: 0 <= i < |s| ==> !p(s[i])
    ensures Filter(s, p) == []
    decreases |s|
  {
    if |s| > 0 {
      FilterNone(s[1..], p);
    }
  }

  /** A test and its negation split a list: together they keep every element
      once. */
  lemma {:induction false} FilterSplit<T>(s: seq<T>, p: T -> bool, q: T -> bool)
    requires forall x :: q(x) == !p(x)
    ensures multiset(Filter(s, p)) + multiset(Filter(s, q)) == multiset(s)
    decreases |s|
  {
    if |s| > 0 {
      FilterSplit(s[1..], p, q);
      assert s == [s[0]] + s[1..];
    }
  }

  /** `s.map(f)`. */
  function Map<T, U>(s: seq<T>, f: T -> U): (r: seq<U>)
    ensures |r| == |s| && forall k :: 0 <= k < |s| ==> r[k] == f(s[k])
  {
    seq(|s|, k requires 0 <= k < |s| => f(s[k]))
  }

  /** Mapping a concatenation maps each part. */
  lemma MapAppend<T, U>(a: seq<T>, b: seq<T>, f: T -> U)
    ensures Map(a + b, f) == Map(a, f) + Map(b, f)
  {
    assert forall k :: 0 <= k < |a + b| ==> Map(a + b, f)[k] == (Map(a, f) + Map(b, f))[k];
  }

  /** Mapping the tail is the tail of the mapping. */
  lemma MapTail<T, U>(s: seq<T>, f: T -> U)
    requires |s| >= 1
    ensures Map(s, f)[1..] == Map(s[1..], f)
  {
    assert forall k :: 0 <= k < |s| - 1 ==> Map(s, f)[1..][k] == Map(s[1..], f)[k];
  }

  /** The image of a member is in the mapping. */
  lemma MapHas<T, U>(s: seq<T>, f: T -> U, x: T)
    requires x in s
    ensures f(x) in Map(s, f)
  {
    var k :| 0 <= k < |s| && s[k] == x;
    assert Map(s, f)[k] == f(x);
  }

  /** `s[0] ?? d`. */
  function FirstOr<T>(s: seq<T>, d: T): T
  {
    if |s| > 0 then s[0] else d
  }
}
