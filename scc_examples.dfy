/**
 * What the condensation tarjanSCC computes fixes for the graphs of its
 * tests (test/sccTests.cpp): the number of components, and which vertices
 * share one.
 */
module SccExamples {
  import opened Tarjan
  import opened Paths
  import opened TarjanScc

  /** In a graph without edges a vertex reaches only itself. */
  lemma NoEdgesReach(succ: seq<seq<nat>>, u: nat, w: nat)
    requires forall v :: 0 <= v < |succ| ==> succ[v] == []
    requires Reaches(Step(succ), u, w)
    ensures u == w
  {
    assert Paths.Closed(Step(succ), {u});
    ClosedContainsReachable(Step(succ), {u}, u, w);
  }

  /** The numbers a mapping gives the vertices below n. */
  function Image(mapping: seq<nat>, n: nat): set<nat>
    requires n <= |mapping|
  {
    set v | 0 <= v < n :: mapping[v]
  }

  /** A mapping that gives the vertices below n distinct numbers uses n numbers. */
  lemma {:induction false} ImageCard(mapping: seq<nat>, n: nat)
    requires n <= |mapping|
    requires forall u, w :: 0 <= u < n && 0 <= w < n && mapping[u] == mapping[w] ==> u == w
    ensures |Image(mapping, n)| == n
  {
    if n > 0 {
      ImageCard(mapping, n - 1);
      assert Image(mapping, n) == Image(mapping, n - 1) + {mapping[n - 1]};
      assert mapping[n - 1] !in Image(mapping, n - 1);
    }
  }

  /** A mapping numbered below `count` uses exactly the numbers below count. */
  lemma NumberedImage(mapping: seq<nat>, count: nat)
    requires Numbered(mapping, count)
    ensures Image(mapping, |mapping|) == Range(count)
    ensures |Image(mapping, |mapping|)| == count
  {
    forall c | c in Range(count)
      ensures c in Image(mapping, |mapping|)
    {
      assert c in mapping;
      var v :| 0 <= v < |mapping| && mapping[v] == c;
    }
    RangeCard(count);
  }

  /**
   * GraphWithNoEdges, EmptyGraph and GraphWithSingleVertex: without edges
   * every vertex is a component of its own, so there are as many
   * components as vertices.
   */
  lemma NoEdgesComponents(succ: seq<seq<nat>>, mapping: seq<nat>, count: nat)
    requires forall v :: 0 <= v < |succ| ==> succ[v] == []
    requires Condensation(succ, mapping, count)
    ensures forall u, w :: 0 <= u < |succ| && 0 <= w < |succ| && mapping[u] == mapping[w] ==> u == w
    ensures count == |succ|
  {
    forall u, w | 0 <= u < |succ| && 0 <= w < |succ| && mapping[u] == mapping[w]
      ensures u == w
    {
      NoEdgesReach(succ, u, w);
    }
    ImageCard(mapping, |succ|);
    NumberedImage(mapping, count);
  }

  /** The graph of simpleGraph: edges 1 -> 0, 0 -> 2, 2 -> 1, 0 -> 3, 3 -> 4. */
  const SimpleGraph: seq<seq<nat>> := [[2, 3], [0], [1], [4], []]

  /** An edge of SimpleGraph is a reach. */
  lemma SimpleEdge(u: nat, w: nat)
    requires u < 5 && w in SimpleGraph[u]
    ensures Reaches(Step(SimpleGraph), u, w)
  {
    ReachesSelf(Step(SimpleGraph), u);
    ReachesExtend(Step(SimpleGraph), u, u, w);
  }

  /** Vertices 0, 1 and 2 of SimpleGraph lie on a cycle. */
  lemma SimpleGraphCycle()
    ensures Reaches(Step(SimpleGraph), 0, 1) && Reaches(Step(SimpleGraph), 1, 0)
    ensures Reaches(Step(SimpleGraph), 0, 2) && Reaches(Step(SimpleGraph), 2, 0)
  {
    var step := Step(SimpleGraph);
    SimpleEdge(0, 2);
    SimpleEdge(2, 1);
    SimpleEdge(1, 0);
    ReachesTrans(step, 0, 2, 1);
    ReachesTrans(step, 2, 1, 0);
  }

  /** From 3 SimpleGraph reaches only 3 and 4, and from 4 only 4. */
  lemma SimpleGraphNoReturn()
    ensures !Reaches(Step(SimpleGraph), 3, 0) && !Reaches(Step(SimpleGraph), 4, 0) && !Reaches(Step(SimpleGraph), 4, 3)
  {
    var step := Step(SimpleGraph);
    assert Paths.Closed(step, {3, 4}) by {
      forall u, w | u in {3, 4} && step(u, w)
        ensures w in {3, 4}
      {
      }
    }
    if Reaches(step, 3, 0) {
      ClosedContainsReachable(step, {3, 4}, 3, 0);
    }
    assert Paths.Closed(step, {4});
    if Reaches(step, 4, 0) {
      ClosedContainsReachable(step, {4}, 4, 0);
    }
    if Reaches(step, 4, 3) {
      ClosedContainsReachable(step, {4}, 4, 3);
    }
  }

  /**
   * simpleGraph: vertices 0, 1 and 2 form one component, 3 and 4 one each,
   * three in all.
   */
  lemma SimpleGraphComponents(mapping: seq<nat>, count: nat)
    requires Condensation(SimpleGraph, mapping, count)
    ensures mapping[0] == mapping[1] == mapping[2]
    ensures mapping[3] != mapping[0] && mapping[4] != mapping[0] && mapping[4] != mapping[3]
    ensures count == 3
  {
    SimpleGraphClasses(mapping);
    var a, b, c := mapping[0], mapping[3], mapping[4];
    forall x | x in Range(count)
      ensures x in {a, b, c}
    {
      assert x in mapping;
      var v :| 0 <= v < 5 && mapping[v] == x;
    }
    assert Range(count) == {a, b, c};
    RangeCard(count);
  }

  /** Which vertices of SimpleGraph share a number. */
  lemma SimpleGraphClasses(mapping: seq<nat>)
    requires |mapping| == 5 && SameIffMutual(SimpleGraph, mapping)
    ensures mapping[0] == mapping[1] == mapping[2]
    ensures mapping[3] != mapping[0] && mapping[4] != mapping[0] && mapping[4] != mapping[3]
  {
    SimpleGraphCycle();
    SimpleGraphNoReturn();
  }
}
