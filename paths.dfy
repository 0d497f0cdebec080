/**
 * Reachability over an arbitrary successor relation on vertex ids.
 *
 * Every breadth-first search of the engine (the plain reachability test, the
 * single-source closure, the label-constrained ground truth and the pruned
 * searches of the 2-hop indexes) is proved against `Reaches`: a vertex is
 * found iff a path leads to it. The searches establish that what they marked
 * is closed under the successor relation; `ClosedContainsReachable` turns
 * that into "nothing reachable was missed".
 */
module Paths {

  /** A non-empty vertex sequence whose consecutive vertices are successors. */
  ghost predicate IsPath(step: (nat, nat) -> bool, p: seq<nat>)
  {
    |p| >= 1 && forall i :: 0 <= i < |p| - 1 ==> step(p[i], p[i + 1])
  }

  /** `t` is reachable from `s`, possibly by the empty path when s == t. */
  ghost predicate Reaches(step: (nat, nat) -> bool, s: nat, t: nat)
  {
    exists p :: IsPath(step, p) && p[0] == s && p[|p| - 1] == t
  }

  /** A set of vertices that no successor step leaves. */
  ghost predicate Closed(step: (nat, nat) -> bool, c: set<nat>)
  {
    forall u, w :: u in c && step(u, w) ==> w in c
  }

  lemma ReachesSelf(step: (nat, nat) -> bool, s: nat)
    ensures Reaches(step, s, s)
  {
    assert IsPath(step, [s]);
  }

  /** A reachable vertex's successors are reachable. */
  lemma ReachesExtend(step: (nat, nat) -> bool, s: nat, u: nat, w: nat)
    requires Reaches(step, s, u) && step(u, w)
    ensures Reaches(step, s, w)
  {
    var p :| IsPath(step, p) && p[0] == s && p[|p| - 1] == u;
    var q := p + [w];
    forall i | 0 <= i < |q| - 1
      ensures step(q[i], q[i + 1])
    {
      if i < |p| - 1 {
        assert q[i] == p[i] && q[i + 1] == p[i + 1];
      }
    }
    assert IsPath(step, q) && q[0] == s && q[|q| - 1] == w;
  }

  lemma {:induction false} ClosedKeepsPath(step: (nat, nat) -> bool, c: set<nat>, p: seq<nat>)
    requires IsPath(step, p) && p[0] in c && Closed(step, c)
    ensures p[|p| - 1] in c
    decreases |p|
  {
    if |p| > 1 {
      var q := p[..|p| - 1];
      forall i | 0 <= i < |q| - 1
        ensures step(q[i], q[i + 1])
      {
        assert q[i] == p[i] && q[i + 1] == p[i + 1];
      }
      ClosedKeepsPath(step, c, q);
      assert step(p[|p| - 2], p[|p| - 1]);
    }
  }

  /** A closed set that holds the start holds everything reachable from it. */
  lemma ClosedContainsReachable(step: (nat, nat) -> bool, c: set<nat>, s: nat, t: nat)
    requires s in c && Closed(step, c) && Reaches(step, s, t)
    ensures t in c
  {
    var p :| IsPath(step, p) && p[0] == s && p[|p| - 1] == t;
    ClosedKeepsPath(step, c, p);
  }

  /** Following a path to u by a path from u reaches the end of the second. */
  lemma ReachesTrans(step: (nat, nat) -> bool, s: nat, u: nat, t: nat)
    requires Reaches(step, s, u) && Reaches(step, u, t)
    ensures Reaches(step, s, t)
  {
    var p :| IsPath(step, p) && p[0] == s && p[|p| - 1] == u;
    var q :| IsPath(step, q) && q[0] == u && q[|q| - 1] == t;
    var r := p + q[1..];
    forall i | 0 <= i < |r| - 1
      ensures step(r[i], r[i + 1])
    {
      if i < |p| - 1 {
        assert r[i] == p[i] && r[i + 1] == p[i + 1];
      } else {
        var k := i - |p| + 1;
        assert r[i] == q[k] && r[i + 1] == q[k + 1];
      }
    }
    assert IsPath(step, r) && r[0] == s && r[|r| - 1] == t;
  }

  /** A path of the converse relation, walked backwards, is a path of the relation. */
  lemma ReachesConverse(step: (nat, nat) -> bool, back: (nat, nat) -> bool, s: nat, t: nat)
    requires forall u, w :: back(u, w) ==> step(w, u)
    requires Reaches(back, s, t)
    ensures Reaches(step, t, s)
  {
    var p :| IsPath(back, p) && p[0] == s && p[|p| - 1] == t;
    var n := |p|;
    var q := seq(n, i requires 0 <= i < n => p[n - 1 - i]);
    forall i | 0 <= i < n - 1
      ensures step(q[i], q[i + 1])
    {
      assert back(p[n - 2 - i], p[n - 1 - i]);
    }
    assert IsPath(step, q) && q[0] == t && q[n - 1] == s;
  }

  /** The vertex ids below n. */
  function Range(n: nat): (r: set<nat>)
    ensures forall v: nat :: v in r <==> v < n
  {
    if n == 0 then {} else Range(n - 1) + {n - 1}
  }

  lemma {:induction false} RangeCard(n: nat)
    ensures |Range(n)| == n
  {
    if n > 0 {
      RangeCard(n - 1);
    }
  }

  /** A set of vertex ids below n has at most n members. */
  lemma SubsetOfRange(c: set<nat>, n: nat)
    requires forall v :: v in c ==> v < n
    ensures |c| <= n
  {
    assert c <= Range(n);
    SubsetCard(c, Range(n));
    RangeCard(n);
  }

  lemma SubsetCard(a: set<nat>, b: set<nat>)
    requires a <= b
    ensures |a| <= |b|
  {
    assert b == a + (b - a);
  }

  /** The ids below n whose entry in a bitset of length n is set. */
  function Marked(bits: seq<bool>): (r: set<nat>)
    ensures forall v: nat :: v in r <==> v < |bits| && bits[v]
  {
    set v: nat | v < |bits| && bits[v] :: v
  }

  /** The number of clear entries of a bitset: a search marks each vertex once, so this bounds its steps. */
  function CountFalse(bits: seq<bool>): (r: nat)
    ensures r <= |bits|
  {
    if |bits| == 0 then 0 else CountFalse(bits[..|bits| - 1]) + (if bits[|bits| - 1] then 0 else 1)
  }

  /** Setting a clear bit lowers the count of clear bits by one. */
  lemma {:induction false} CountFalseSet(bits: seq<bool>, i: nat)
    requires i < |bits| && !bits[i]
    ensures CountFalse(bits[i := true]) == CountFalse(bits) - 1
    decreases |bits|
  {
    var n := |bits| - 1;
    if i < n {
      assert bits[i := true][..n] == bits[..n][i := true];
      CountFalseSet(bits[..n], i);
    } else {
      assert bits[i := true][..n] == bits[..n];
    }
  }

  /** A bitset with a set entry has fewer clear entries than entries. */
  lemma {:induction false} CountFalseBelow(bits: seq<bool>, i: nat)
    requires i < |bits| && bits[i]
    ensures CountFalse(bits) < |bits|
    decreases |bits|
  {
    var n := |bits| - 1;
    if i < n {
      CountFalseBelow(bits[..n], i);
    }
  }
}
