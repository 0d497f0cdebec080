/**
 * The imperative part of tarjanSCC (src/algorithms/tarjanSCC_labeledEdge.cpp):
 * iterativeDFS, the pop of a component, and the construction of the
 * component graph, each proved against the invariants of module Tarjan.
 */
module TarjanScc {
  import opened Tarjan
  import opened DiGraphs
  import opened Sorting
  import opened Paths
  import opened TarjanReach
  import Text

  /**
   * iterativeDFS from an undiscovered `start`, with the vertex and iterator
   * stacks as `path` and `its`. Every vertex it reaches is discovered, and
   * when it returns the Tarjan stack is empty again: every vertex it
   * discovered now sits in a component, and no edge leaves a component for
   * a later one. The components it pops are strongly connected.
   */
  method IterativeDFS(succ: seq<seq<nat>>, s0: State, start: nat) returns (s: State)
    requires Valid(succ, s0) && s0.tarjanStack == [] && start < |succ| && s0.discovery[start] == 0
    requires ReachOk(succ, s0, [])
    ensures Valid(succ, s) && s.tarjanStack == []
    ensures Kept(succ, s0, start, s)
    ensures ReachOk(succ, s, [])
  {
    StartStep(succ, s0, start);
    ReachStart(succ, s0, start);
    s := Discover(s0, start);
    var path: seq<nat>, its: seq<nat> := [start], [0];
    while path != []
      invariant DfsLoop(succ, s0, start, s, path, its)
      invariant ReachOk(succ, s, path)
      decreases Undiscovered(s.discovery), Remaining(succ, path, its)
    {
      var top := |path| - 1;
      if its[top] < |succ[path[top]]| {
        s, path, its := Advance(succ, s0, start, s, path, its);
      } else {
        s, path, its := Backtrack(succ, s0, start, s, path, its);
      }
    }
  }

  /**
   * One round of the loop whose iterator still has an edge: discover its
   * target, lower the top's lowLink to a target on the Tarjan stack, or
   * skip a target already in a component.
   */
  method Advance(succ: seq<seq<nat>>, ghost s0: State, ghost start: nat, s: State, path: seq<nat>, its: seq<nat>)
    returns (s': State, path': seq<nat>, its': seq<nat>)
    requires DfsLoop(succ, s0, start, s, path, its) && path != []
    requires its[|its| - 1] < |succ[path[|path| - 1]]|
    requires ReachOk(succ, s, path)
    ensures DfsLoop(succ, s0, start, s', path', its')
    ensures ReachOk(succ, s', path')
    ensures Undiscovered(s'.discovery) < Undiscovered(s.discovery) ||
            (s'.discovery == s.discovery && Remaining(succ, path', its') < Remaining(succ, path, its))
  {
    var vertex := path[|path| - 1];
    var adjVertex := succ[vertex][its[|its| - 1]];
    its' := its[|its| - 1 := its[|its| - 1] + 1];
    DfsLayout(succ, s, path, its);
    if s.discovery[adjVertex] == 0 {
      LoopDiscover(succ, s0, start, s, path, its, adjVertex);
      ReachDiscover(succ, s, path, adjVertex);
      s', path', its' := Discover(s, adjVertex), path + [adjVertex], its' + [0];
    } else if s.onStack[adjVertex] {
      LoopBackEdge(succ, s0, start, s, path, its, adjVertex);
      assert adjVertex in s.tarjanStack;
      ReachBackEdge(succ, s, path, adjVertex);
      s', path' := LowerTop(s, vertex, s.discovery[adjVertex]), path;
    } else {
      LoopCrossEdge(succ, s0, start, s, path, its, adjVertex);
      s', path' := s, path;
    }
  }

  /**
   * One round of the loop whose iterator is exhausted: a root pops its
   * component; then the vertex leaves the path and its parent, if any,
   * takes the minimum of the two lowLinks.
   */
  method Backtrack(succ: seq<seq<nat>>, ghost s0: State, ghost start: nat, s: State, path: seq<nat>, its: seq<nat>)
    returns (s': State, path': seq<nat>, its': seq<nat>)
    requires DfsLoop(succ, s0, start, s, path, its) && path != []
    requires its[|its| - 1] == |succ[path[|path| - 1]]|
    requires ReachOk(succ, s, path)
    ensures DfsLoop(succ, s0, start, s', path', its')
    ensures ReachOk(succ, s', path')
    ensures s'.discovery == s.discovery && Remaining(succ, path', its') < Remaining(succ, path, its)
  {
    var vertex := path[|path| - 1];
    if s.lowLink[vertex] == s.discovery[vertex] {
      assert vertex in s.tarjanStack;
      ghost var pos :| 0 <= pos < |s.tarjanStack| && s.tarjanStack[pos] == vertex;
      StackDistinct(succ, s);
      LoopRoot(succ, s0, start, s, path, its, pos);
      RootReach(succ, s, path, its, pos);
      s' := PopComponent(succ, s, vertex, pos);
      if |path| > 1 {
        s' := Parent(s', path[|path| - 2], vertex);
      }
    } else {
      LoopNonRoot(succ, s0, start, s, path, its);
      NonRootReach(succ, s, path, its);
      s' := Parent(s, path[|path| - 2], vertex);
    }
    path', its' := path[..|path| - 1], its[..|its| - 1];
  }

  /**
   * The do-while at a root: pop the Tarjan stack down to the root, clearing
   * each popped vertex's flag and mapping it to the new component, which
   * lists them in popping order.
   */
  method PopComponent(succ: seq<seq<nat>>, s0: State, vertex: nat, ghost pos: nat) returns (s: State)
    requires |s0.onStack| == |succ| && |s0.vertexMapping| == |succ|
    requires forall i :: 0 <= i < |s0.tarjanStack| ==> s0.tarjanStack[i] < |succ|
    requires pos < |s0.tarjanStack| && s0.tarjanStack[pos] == vertex
    requires forall i :: pos < i < |s0.tarjanStack| ==> s0.tarjanStack[i] != vertex
    ensures s == Popped(s0, pos)
  {
    var c := |s0.components|;
    var component: seq<nat> := [];
    s := s0;
    var done := false;
    while !done
      invariant PoppedTo(succ, s0, s, c, component)
      invariant pos <= |s.tarjanStack|
      invariant done <==> |s.tarjanStack| == pos
      decreases |s.tarjanStack|
    {
      var connectedVertex := s.tarjanStack[|s.tarjanStack| - 1];
      PopStep(succ, s0, s, c, component);
      s := PopOne(s, c);
      component := component + [connectedVertex];
      done := vertex == connectedVertex || s.tarjanStack == [];
    }
    PopDone(succ, s0, s, pos, component);
    s := s.(components := s.components + [component]);
  }

  /**
   * The outer loop of tarjanSCC: a DFS from every vertex still undiscovered,
   * after which every vertex is discovered and off the Tarjan stack, and
   * every component is non-empty and strongly connected.
   */
  method FindComponents(succ: seq<seq<nat>>) returns (s: State)
    requires Graph(succ)
    ensures Valid(succ, s) && s.tarjanStack == []
    ensures forall v :: 0 <= v < |succ| ==> Assigned(s, v)
    ensures Strong(succ, s.components) && NonEmpty(s.components)
  {
    s := Initial(|succ|);
    for vertex := 0 to |succ|
      invariant Between(succ, s, vertex)
    {
      s := SearchFrom(succ, s, vertex);
    }
  }

  /** The state between two turns of tarjanSCC's loop: the vertices before `vertex` are all discovered. */
  ghost predicate Between(succ: seq<seq<nat>>, s: State, vertex: nat)
  {
    Valid(succ, s) && s.tarjanStack == [] && ReachOk(succ, s, []) && vertex <= |succ| &&
    forall u :: 0 <= u < vertex ==> s.discovery[u] != 0
  }

  /** One turn of tarjanSCC's loop: a DFS from `vertex` unless it is already discovered. */
  method SearchFrom(succ: seq<seq<nat>>, s0: State, vertex: nat) returns (s: State)
    requires Between(succ, s0, vertex) && vertex < |succ|
    ensures Between(succ, s, vertex + 1)
  {
    s := s0;
    if s.discovery[vertex] == 0 {
      s := IterativeDFS(succ, s, vertex);
    }
  }

  /**
   * The result of the DFS as tarjanSCC hands it on: every vertex maps to a
   * component that lists it, and every listed vertex maps to its component.
   */
  ghost predicate Mapped(succ: seq<seq<nat>>, mapping: seq<nat>, components: seq<seq<nat>>)
  {
    Graph(succ) && |mapping| == |succ| &&
    (forall v :: 0 <= v < |succ| ==> mapping[v] < |components| && v in components[mapping[v]]) &&
    (forall c, x {:trigger x in components[c]} :: 0 <= c < |components| && x in components[c] ==>
       x < |succ| && mapping[x] == c)
  }

  /** Every edge leads to a component no later than the one it leaves. */
  ghost predicate Descending(succ: seq<seq<nat>>, mapping: seq<nat>)
  {
    forall u, k :: 0 <= u < |succ| && u < |mapping| && 0 <= k < |succ[u]| && succ[u][k] < |mapping| ==>
      mapping[succ[u][k]] <= mapping[u]
  }

  /** Some edge of the graph leaves a vertex of component `c` for a vertex of component `d`. */
  ghost predicate Crosses(succ: seq<seq<nat>>, mapping: seq<nat>, c: nat, d: nat)
  {
    exists u, k :: 0 <= u < |succ| && u < |mapping| && 0 <= k < |succ[u]| && succ[u][k] < |mapping| &&
      mapping[u] == c && mapping[succ[u][k]] == d
  }

  /** When every vertex is assigned, the invariant between DFS calls gives `Mapped` and `Descending`. */
  lemma FinishedMapped(succ: seq<seq<nat>>, s: State)
    requires Valid(succ, s) && forall v :: 0 <= v < |succ| ==> Assigned(s, v)
    ensures Mapped(succ, s.vertexMapping, s.components)
    ensures Descending(succ, s.vertexMapping)
  {
    assert MappedIn(succ, s) && MembersMapped(succ, s) && Tarjan.Closed(succ, s);
  }

  /** Reaching `w` from `u` never leads to a later component. */
  lemma ReachDescends(succ: seq<seq<nat>>, mapping: seq<nat>, u: nat, w: nat)
    requires Graph(succ) && |mapping| == |succ| && Descending(succ, mapping)
    requires u < |succ| && Reaches(Step(succ), u, w)
    ensures w < |succ| && mapping[w] <= mapping[u]
  {
    var below := set v | 0 <= v < |succ| && mapping[v] <= mapping[u];
    forall x, y | x in below && Step(succ)(x, y)
      ensures y in below
    {
      var k :| 0 <= k < |succ[x]| && succ[x][k] == y;
    }
    ClosedContainsReachable(Step(succ), below, u, w);
  }

  /** Two vertices that reach each other share a component. */
  lemma MutuallyReachableSameComponent(succ: seq<seq<nat>>, mapping: seq<nat>, u: nat, w: nat)
    requires Graph(succ) && |mapping| == |succ| && Descending(succ, mapping)
    requires u < |succ| && Reaches(Step(succ), u, w) && Reaches(Step(succ), w, u)
    ensures w < |succ| && mapping[u] == mapping[w]
  {
    ReachDescends(succ, mapping, u, w);
    ReachDescends(succ, mapping, w, u);
  }

  /**
   * `mapping` numbers the strongly connected components of the graph from 0
   * to count - 1: every number is used, and two vertices share a number
   * exactly when each reaches the other.
   */
  ghost predicate Condensation(succ: seq<seq<nat>>, mapping: seq<nat>, count: nat)
  {
    |mapping| == |succ| && Numbered(mapping, count) && SameIffMutual(succ, mapping)
  }

  /** The numbers in `mapping` are exactly those below count. */
  ghost predicate Numbered(mapping: seq<nat>, count: nat)
  {
    (forall v :: 0 <= v < |mapping| ==> mapping[v] < count) &&
    (forall c :: 0 <= c < count ==> c in mapping)
  }

  /** Two vertices share a number exactly when each reaches the other. */
  ghost predicate SameIffMutual(succ: seq<seq<nat>>, mapping: seq<nat>)
  {
    forall u, w :: 0 <= u < |succ| && 0 <= w < |succ| && u < |mapping| && w < |mapping| ==>
      (mapping[u] == mapping[w] <==> Reaches(Step(succ), u, w) && Reaches(Step(succ), w, u))
  }

  /** Non-empty, strongly connected components, mapped and descending, are the condensation. */
  lemma MappedCondensation(succ: seq<seq<nat>>, mapping: seq<nat>, components: seq<seq<nat>>)
    requires Mapped(succ, mapping, components) && Descending(succ, mapping)
    requires Strong(succ, components) && NonEmpty(components)
    ensures Condensation(succ, mapping, |components|)
  {
    forall c | 0 <= c < |components|
      ensures c in mapping
    {
      var x := components[c][0];
      assert x in components[c];
      assert mapping[x] == c;
    }
    forall u, w | 0 <= u < |succ| && 0 <= w < |succ|
      ensures mapping[u] == mapping[w] <==> Reaches(Step(succ), u, w) && Reaches(Step(succ), w, u)
    {
      if mapping[u] == mapping[w] {
        assert u in components[mapping[u]] && w in components[mapping[u]];
        assert Reach(succ, u, w) && Reach(succ, w, u);
      }
      if Reaches(Step(succ), u, w) && Reaches(Step(succ), w, u) {
        MutuallyReachableSameComponent(succ, mapping, u, w);
      }
    }
  }

  /** The state of the scan of one component's out-edges. */
  ghost predicate Collecting(succ: seq<seq<nat>>, mapping: seq<nat>, components: seq<seq<nat>>, c: nat,
                             edgeUsed: seq<int>, targets: seq<nat>)
  {
    |edgeUsed| == |components| && NoDuplicates(targets) &&
    (forall i :: 0 <= i < |targets| ==>
       targets[i] < |components| && targets[i] != c && Crosses(succ, mapping, c, targets[i])) &&
    (forall d :: 0 <= d < |edgeUsed| ==> edgeUsed[d] <= c && (edgeUsed[d] == c <==> d in targets))
  }

  /** Every edge out of the scanned members into another component has its target component recorded. */
  ghost predicate Scanned(succ: seq<seq<nat>>, mapping: seq<nat>, scanned: seq<nat>, c: nat, targets: seq<nat>)
  {
    forall u, k ::
      (u in scanned && 0 <= u < |succ| && 0 <= k < |succ[u]| && succ[u][k] < |mapping| && mapping[succ[u][k]] != c) ==>
      mapping[succ[u][k]] in targets
  }

  /**
   * The body of tarjanSCC's loop over source components: scan the edges of
   * every member, skip those within the component and those into a
   * component already recorded (edgeUsed), and record the rest.
   */
  method CollectTargets(succ: seq<seq<nat>>, mapping: seq<nat>, components: seq<seq<nat>>, c: nat, edgeUsed: array<int>)
    returns (targets: seq<nat>)
    requires Mapped(succ, mapping, components) && c < |components| && edgeUsed.Length == |components|
    requires forall d :: 0 <= d < edgeUsed.Length ==> edgeUsed[d] < c
    modifies edgeUsed
    ensures NoDuplicates(targets)
    ensures forall i :: 0 <= i < |targets| ==> targets[i] < |components|
    ensures forall d :: d in targets <==> d != c && Crosses(succ, mapping, c, d)
    ensures forall d :: 0 <= d < edgeUsed.Length ==> edgeUsed[d] <= c
  {
    targets := [];
    var members := components[c];
    for m := 0 to |members|
      invariant Collecting(succ, mapping, components, c, edgeUsed[..], targets)
      invariant Scanned(succ, mapping, members[..m], c, targets)
    {
      var source := members[m];
      assert source in components[c];
      var edges := succ[source];
      for k := 0 to |edges|
        invariant Collecting(succ, mapping, components, c, edgeUsed[..], targets)
        invariant Scanned(succ, mapping, members[..m], c, targets)
        invariant forall k' :: 0 <= k' < k && mapping[edges[k']] != c ==> mapping[edges[k']] in targets
      {
        var targetComponent := mapping[edges[k]];
        if targetComponent == c {
          continue;
        }
        if edgeUsed[targetComponent] == c {
          continue;
        }
        assert Crosses(succ, mapping, c, targetComponent) by {
          assert mapping[source] == c;
        }
        edgeUsed[targetComponent] := c;
        targets := targets + [targetComponent];
      }
      assert members[..m + 1] == members[..m] + [source];
    }
    assert members[..|members|] == members;
    forall d | d != c && Crosses(succ, mapping, c, d)
      ensures d in targets
    {
      var u, k :| 0 <= u < |succ| && u < |mapping| && 0 <= k < |succ[u]| && succ[u][k] < |mapping| &&
        mapping[u] == c && mapping[succ[u][k]] == d;
      assert u in members;
    }
  }

  /**
   * The loop of tarjanSCC over source components: one vertex per
   * component, and for each component the targets its scan records,
   * appended with addEdgesNoChecks.
   */
  method AddComponentEdges(succ: seq<seq<nat>>, mapping: seq<nat>, components: seq<seq<nat>>) returns (g: DiGraph)
    requires Mapped(succ, mapping, components)
    ensures fresh(g) && g.Valid() && |g.adj| == |components|
    ensures forall c :: 0 <= c < |g.adj| ==> NoDuplicates(g.adj[c])
    ensures forall c, d :: 0 <= c < |g.adj| ==> (d in g.adj[c] <==> d != c && Crosses(succ, mapping, c, d))
  {
    g := new DiGraph();
    g.SetVertices(|components|);
    var edgeUsed := new int[|components|](_ => -1);
    for sourceComponent := 0 to |components|
      invariant g.Valid() && |g.reverseAdj| == |components|
      invariant Built(succ, mapping, g.adj, |components|, sourceComponent)
      invariant forall d :: 0 <= d < edgeUsed.Length ==> edgeUsed[d] < sourceComponent
    {
      var targets := CollectTargets(succ, mapping, components, sourceComponent, edgeUsed);
      ghost var adj0 := g.adj;
      BuiltStep(succ, mapping, adj0, |components|, sourceComponent, targets);
      g.AddEdgesNoChecks(sourceComponent, targets);
    }
  }

  /**
   * The component lists of `adj` built so far: those before `upto` hold
   * each crossing target once, the rest are still empty.
   */
  ghost predicate Built(succ: seq<seq<nat>>, mapping: seq<nat>, adj: seq<seq<nat>>, n: nat, upto: nat)
  {
    |adj| == n && upto <= n &&
    (forall c :: upto <= c < n ==> adj[c] == []) &&
    (forall c :: 0 <= c < upto ==> NoDuplicates(adj[c])) &&
    (forall c, d :: 0 <= c < upto ==> (d in adj[c] <==> d != c && Crosses(succ, mapping, c, d)))
  }

  /** Appending one component's targets to its empty list extends what is built by one. */
  lemma BuiltStep(succ: seq<seq<nat>>, mapping: seq<nat>, adj: seq<seq<nat>>, n: nat, c: nat, targets: seq<nat>)
    requires Built(succ, mapping, adj, n, c) && c < n
    requires NoDuplicates(targets)
    requires forall d :: d in targets <==> d != c && Crosses(succ, mapping, c, d)
    ensures Built(succ, mapping, adj[c := adj[c] + targets], n, c + 1)
    ensures forall i :: 0 <= i < |targets| ==> targets[i] !in adj[c]
  {
    assert adj[c] + targets == targets;
  }

  /** The second half of tarjanSCC: the component graph after optimize. */
  method ComponentGraph(succ: seq<seq<nat>>, mapping: seq<nat>, components: seq<seq<nat>>) returns (g: DiGraph)
    requires Mapped(succ, mapping, components)
    ensures fresh(g) && g.Valid() && |g.adj| == |components|
    ensures forall c, d :: 0 <= c < |g.adj| ==> (d in g.adj[c] <==> d != c && Crosses(succ, mapping, c, d))
    ensures forall c :: 0 <= c < |g.adj| ==> StrictlySortedBy(g.adj[c], IntLe)
  {
    g := AddComponentEdges(succ, mapping, components);
    ghost var adj0 := g.adj;
    g.Optimize();
    SortEachKeeps(adj0, IntLe);
    SortEachSpec(adj0);
    forall c | 0 <= c < |g.adj|
      ensures StrictlySortedBy(g.adj[c], IntLe)
    {
      NoDuplicatesPermutation(adj0[c], g.adj[c]);
    }
  }

  /**
   * tarjanSCC: the components, the vertex-to-component mapping and the
   * component graph, whose edge c -> d stands for the graph edges from c
   * into a different component d. Components are numbered in the order
   * the DFS completes them, so every edge of the component graph leads to
   * a lower number, and each successor list is ascending after optimize.
   * The mapping numbers exactly the strongly connected components.
   */
  method TarjanSCC(succ: seq<seq<nat>>, includeComponents: bool)
    returns (g: DiGraph, vertexMapping: seq<nat>, components: Text.Option<seq<seq<nat>>>)
    requires Graph(succ)
    ensures fresh(g) && g.Valid()
    ensures |vertexMapping| == |succ|
    ensures forall v :: 0 <= v < |succ| ==> vertexMapping[v] < |g.adj|
    ensures Descending(succ, vertexMapping)
    ensures Condensation(succ, vertexMapping, |g.adj|)
    ensures forall c, d :: 0 <= c < |g.adj| ==> (d in g.adj[c] <==> d != c && Crosses(succ, vertexMapping, c, d))
    ensures forall c, d :: 0 <= c < |g.adj| && d in g.adj[c] ==> d < c
    ensures forall c :: 0 <= c < |g.adj| ==> StrictlySortedBy(g.adj[c], IntLe)
    ensures includeComponents <==> components.Some?
    ensures components.Some? ==>
      |components.value| == |g.adj| && Mapped(succ, vertexMapping, components.value) &&
      forall c :: 0 <= c < |components.value| ==> NoDuplicates(components.value[c])
  {
    var s := FindComponents(succ);
    FinishedMapped(succ, s);
    MappedCondensation(succ, s.vertexMapping, s.components);
    vertexMapping := s.vertexMapping;
    g := ComponentGraph(succ, vertexMapping, s.components);
    forall c, d | 0 <= c < |g.adj| && d in g.adj[c]
      ensures d < c
    {
      var u, k :| 0 <= u < |succ| && u < |vertexMapping| && 0 <= k < |succ[u]| && succ[u][k] < |vertexMapping| &&
        vertexMapping[u] == c && vertexMapping[succ[u][k]] == d;
    }
    assert forall c :: 0 <= c < |s.components| ==> NoDuplicates(s.components[c]) by {
      assert NoRepeats(s);
    }
    if includeComponents {
      components := Text.Some(s.components);
    } else {
      components := Text.None;
    }
  }
}
