/**
 * mergeGraphForLabels (src/algorithms/mergeGraphForLabels.cpp): the
 * unlabelled DiGraph that has an edge s -> t whenever the labelled graph has
 * an edge s -> t with some label of the label set, each target listed once in
 * the order its first such edge appears; and the edge-count statistics that
 * compare it with the largest single-label graph of the set.
 */
module MergeGraph {
  import opened Sorting
  import opened Text
  import opened LabeledEdgeGraphs
  import opened DiGraphs
  import opened SplitGraph

  /** Bit l of the label set is present and set. */
  predicate InSet(labelSet: seq<bool>, l: nat)
  {
    l < |labelSet| && labelSet[l]
  }

  /**
   * The targets the `visited` bitset lets through for one vertex's run of
   * edges: each edge with a label in the set adds its target unless an
   * earlier one already did.
   */
  function Merged(run: seq<Edge>, labelSet: seq<bool>): seq<nat>
  {
    if |run| == 0 then []
    else
      var m := Merged(run[..|run| - 1], labelSet);
      var e := run[|run| - 1];
      if InSet(labelSet, e.lbl) && e.target !in m then m + [e.target] else m
  }

  /** The merged targets are distinct, and a target is merged iff some edge of the run with a label in the set reaches it. */
  lemma {:induction false} MergedMembers(run: seq<Edge>, labelSet: seq<bool>)
    ensures NoDuplicates(Merged(run, labelSet))
    ensures forall t :: t in Merged(run, labelSet) <==>
      exists i :: 0 <= i < |run| && InSet(labelSet, run[i].lbl) && run[i].target == t
  {
    if |run| > 0 {
      var init, last := run[..|run| - 1], run[|run| - 1];
      var m := Merged(init, labelSet);
      MergedMembers(init, labelSet);
      forall t
        ensures t in Merged(run, labelSet) <==>
          exists i :: 0 <= i < |run| && InSet(labelSet, run[i].lbl) && run[i].target == t
      {
        if t in m {
          var i :| 0 <= i < |init| && InSet(labelSet, init[i].lbl) && init[i].target == t;
          assert run[i] == init[i];
        }
        if exists i :: 0 <= i < |run| && InSet(labelSet, run[i].lbl) && run[i].target == t {
          var i :| 0 <= i < |run| && InSet(labelSet, run[i].lbl) && run[i].target == t;
          if i < |init| {
            assert init[i] == run[i];
          }
        }
      }
    }
  }

  /**
   * The merged list of vertex s: t is in it iff the labelled graph has the
   * edge s -> t with some label of the set.
   */
  lemma MergedOutEdges(edges: seq<Edge>, labelSet: seq<bool>, s: nat)
    ensures forall t :: t in Merged(OutEdges(edges, s), labelSet) <==>
      exists l :: InSet(labelSet, l) && Edge(s, t, l) in edges
  {
    var run := OutEdges(edges, s);
    MergedMembers(run, labelSet);
    forall t
      ensures t in Merged(run, labelSet) <==> exists l :: InSet(labelSet, l) && Edge(s, t, l) in edges
    {
      if t in Merged(run, labelSet) {
        var i :| 0 <= i < |run| && InSet(labelSet, run[i].lbl) && run[i].target == t;
        assert run[i] in run;
        assert Edge(s, t, run[i].lbl) == run[i];
      }
      if exists l :: InSet(labelSet, l) && Edge(s, t, l) in edges {
        var l :| InSet(labelSet, l) && Edge(s, t, l) in edges;
        assert Edge(s, t, l) in run;
        var i :| 0 <= i < |run| && run[i] == Edge(s, t, l);
      }
    }
  }

  lemma MergedSnoc(edges: seq<Edge>, labelSet: seq<bool>, start: nat, c: nat)
    requires start <= c < |edges|
    ensures Merged(edges[start..c + 1], labelSet) ==
      var m := Merged(edges[start..c], labelSet);
      if InSet(labelSet, edges[c].lbl) && edges[c].target !in m then m + [edges[c].target] else m
  {
    assert edges[start..c + 1][..c - start] == edges[start..c];
  }

  /** Edges whose label is not in the set leave the merged list as it was. */
  lemma {:induction false} MergedSkip(edges: seq<Edge>, labelSet: seq<bool>, start: nat, i: nat, j: nat)
    requires start <= i <= j <= |edges|
    requires forall k :: i <= k < j ==> !InSet(labelSet, edges[k].lbl)
    ensures Merged(edges[start..j], labelSet) == Merged(edges[start..i], labelSet)
    decreases j - i
  {
    if i < j {
      MergedSkip(edges, labelSet, start, i, j - 1);
      MergedSnoc(edges, labelSet, start, j - 1);
    }
  }

  /**
   * The state of the iterator loop at position `cur`: the targets collected
   * are the merged list of the run so far and `seen` marks exactly them.
   */
  ghost predicate Collecting(edges: seq<Edge>, labelSet: seq<bool>, start: nat, cur: nat,
                             targets: seq<nat>, seen: seq<bool>, n: nat)
  {
    start <= cur <= |edges| && targets == Merged(edges[start..cur], labelSet) &&
    |seen| == n && (forall t :: 0 <= t < n ==> (seen[t] <==> t in targets)) &&
    (forall i :: 0 <= i < |targets| ==> targets[i] < n)
  }

  /** Edges whose label is not in the set change nothing. */
  lemma CollectSkip(edges: seq<Edge>, labelSet: seq<bool>, start: nat, cur: nat, j: nat,
                    targets: seq<nat>, seen: seq<bool>, n: nat)
    requires Collecting(edges, labelSet, start, cur, targets, seen, n) && cur <= j <= |edges|
    requires forall k :: cur <= k < j ==> !InSet(labelSet, edges[k].lbl)
    ensures Collecting(edges, labelSet, start, j, targets, seen, n)
  {
    MergedSkip(edges, labelSet, start, cur, j);
  }

  /** An edge with a label in the set: its target is appended and marked unless already marked. */
  lemma CollectEdge(edges: seq<Edge>, labelSet: seq<bool>, start: nat, c: nat,
                    targets: seq<nat>, seen: seq<bool>, n: nat)
    requires Collecting(edges, labelSet, start, c, targets, seen, n) && c < |edges|
    requires InSet(labelSet, edges[c].lbl) && edges[c].target < n
    ensures seen[edges[c].target] ==> Collecting(edges, labelSet, start, c + 1, targets, seen, n)
    ensures !seen[edges[c].target] ==>
      Collecting(edges, labelSet, start, c + 1, targets + [edges[c].target], seen[edges[c].target := true], n)
  {
    MergedSnoc(edges, labelSet, start, c);
  }

  /**
   * The iterator loop of one source: each edge with a label in the set whose
   * target is not yet visited marks the target and appends it. `visited`
   * comes in clear and goes out marking exactly the collected targets.
   */
  method CollectTargets(it: LabelSetIterator, visited: seq<bool>, ghost start: nat, ghost blockEnd: nat, ghost run: seq<Edge>)
    returns (targets: seq<nat>, seen: seq<bool>)
    requires !it.started && it.Valid() && it.currentIndex == start
    requires blockEnd == start + RunLength(it.edges, start, it.source) <= |it.edges|
    requires run == it.edges[start..blockEnd]
    requires forall i :: start <= i < blockEnd ==> it.edges[i].target < |visited|
    requires forall t :: 0 <= t < |visited| ==> !visited[t]
    modifies it
    ensures targets == Merged(run, it.labelSet)
    ensures |seen| == |visited| && forall t :: 0 <= t < |seen| ==> (seen[t] <==> t in targets)
    ensures forall i :: 0 <= i < |targets| ==> targets[i] < |visited|
  {
    targets, seen := [], visited;
    var more := it.Next();
    Advance(it.edges, it.source, start, start, it.currentIndex);
    CollectSkip(it.edges, it.labelSet, start, start, it.currentIndex, targets, seen, |visited|);
    while more
      invariant it.started && it.Valid() && start <= it.currentIndex <= blockEnd
      invariant more == it.IsValid()
      invariant !more ==> it.currentIndex == blockEnd
      invariant Collecting(it.edges, it.labelSet, start, it.currentIndex, targets, seen, |visited|)
      decreases blockEnd - it.currentIndex
    {
      more, targets, seen := CollectStep(it, targets, seen, start, blockEnd, |visited|);
    }
  }

  /** One round of the iterator loop: take the current edge, then advance. */
  method CollectStep(it: LabelSetIterator, targets: seq<nat>, seen: seq<bool>, ghost start: nat, ghost blockEnd: nat, ghost n: nat)
    returns (more: bool, targets': seq<nat>, seen': seq<bool>)
    requires it.started && it.Valid() && it.IsValid() && start <= it.currentIndex <= blockEnd
    requires blockEnd == start + RunLength(it.edges, start, it.source) <= |it.edges|
    requires forall i :: start <= i < blockEnd ==> it.edges[i].target < n
    requires Collecting(it.edges, it.labelSet, start, it.currentIndex, targets, seen, n)
    modifies it
    ensures it.started && it.Valid() && old(it.currentIndex) < it.currentIndex <= blockEnd
    ensures more == it.IsValid()
    ensures !more ==> it.currentIndex == blockEnd
    ensures Collecting(it.edges, it.labelSet, start, it.currentIndex, targets', seen', n)
  {
    var edge := it.Current();
    ghost var c := it.currentIndex;
    CollectEdge(it.edges, it.labelSet, start, c, targets, seen, n);
    targets', seen' := targets, seen;
    if !seen[edge.target] {
      seen' := seen[edge.target := true];
      targets' := targets + [edge.target];
    }
    more := it.Next();
    forall i | c + 1 <= i < it.currentIndex
      ensures i < |it.edges| && it.edges[i].source == it.source && !InSet(it.labelSet, it.edges[i].lbl)
    {
      assert c <= i && i != c;
    }
    Advance(it.edges, it.source, start, c + 1, it.currentIndex);
    CollectSkip(it.edges, it.labelSet, start, c + 1, it.currentIndex, targets', seen', n);
  }

  /**
   * Where the label-set iterator stops inside a run: having skipped only
   * edges of v from `from` on, it is still inside the run, and it is at the
   * run's end once it stands on an edge of another vertex (or past the list).
   */
  lemma Advance(edges: seq<Edge>, v: nat, start: nat, from: nat, j: nat)
    requires start <= from <= j && from <= start + RunLength(edges, start, v)
    requires forall i :: from <= i < j ==> i < |edges| && edges[i].source == v
    ensures j <= start + RunLength(edges, start, v)
    ensures (j >= |edges| || edges[j].source != v) ==> j == start + RunLength(edges, start, v)
  {
  }

  /** The lists once the sources below `upto` are merged: merged lists below, empty lists above. */
  ghost predicate Listed(adj: seq<seq<nat>>, edges: seq<Edge>, labelSet: seq<bool>, upto: nat, n: nat)
  {
    |adj| == n && upto <= n &&
    (forall s :: upto <= s < n ==> adj[s] == []) &&
    (forall s :: 0 <= s < upto ==> adj[s] == Merged(OutEdges(edges, s), labelSet))
  }

  /** Appending source s's merged targets to its empty list extends what is listed by one. */
  lemma ListedStep(adj: seq<seq<nat>>, edges: seq<Edge>, labelSet: seq<bool>, s: nat, n: nat, targets: seq<nat>)
    requires Listed(adj, edges, labelSet, s, n) && s < n
    requires targets == Merged(OutEdges(edges, s), labelSet)
    ensures Listed(adj[s := adj[s] + targets], edges, labelSet, s + 1, n)
    ensures adj[s] == []
  {
    assert adj[s] + targets == targets;
  }

  /** Every edge of an in-range graph, by index. */
  lemma EdgesInRange(g: LabeledEdgeGraph)
    requires g.InRange()
    ensures forall i :: 0 <= i < |g.adj| ==>
      g.adj[i].source < g.vertexCount && g.adj[i].target < g.vertexCount && g.adj[i].lbl < g.labelCount
  {
    forall i | 0 <= i < |g.adj|
      ensures g.adj[i].source < g.vertexCount && g.adj[i].target < g.vertexCount && g.adj[i].lbl < g.labelCount
    {
      assert g.adj[i] in g.adj;
    }
  }

  /** The first half of a round of the source loop: the source's merged targets, each a vertex. */
  method SourceTargets(g: LabeledEdgeGraph, labelSet: seq<bool>, source: nat, visited: seq<bool>) returns (targets: seq<nat>)
    requires OutBlocks(g.adj, g.adjStartLookup, g.vertexCount)
    requires source < g.vertexCount && |labelSet| >= g.labelCount
    requires forall i :: 0 <= i < |g.adj| ==>
      g.adj[i].source < g.vertexCount && g.adj[i].target < g.vertexCount && g.adj[i].lbl < g.labelCount
    requires |visited| == g.vertexCount && forall t :: 0 <= t < |visited| ==> !visited[t]
    ensures targets == Merged(OutEdges(g.adj, source), labelSet)
    ensures forall i :: 0 <= i < |targets| ==> targets[i] < g.vertexCount
  {
    ghost var start := g.adjStartLookup[source];
    ghost var blockEnd := start + RunLength(g.adj, start, source);
    var it := g.GetConnectedWithLabels(source, labelSet);
    var seen;
    targets, seen := CollectTargets(it, visited, start, blockEnd, OutEdges(g.adj, source));
  }

  /** One round of the source loop: collect the source's merged targets and add them. */
  method MergeSource(g: LabeledEdgeGraph, graph: DiGraph, labelSet: seq<bool>, source: nat, visited: seq<bool>)
    returns (cleared: seq<bool>)
    requires OutBlocks(g.adj, g.adjStartLookup, g.vertexCount)
    requires source < g.vertexCount && |labelSet| >= g.labelCount
    requires forall i :: 0 <= i < |g.adj| ==>
      g.adj[i].source < g.vertexCount && g.adj[i].target < g.vertexCount && g.adj[i].lbl < g.labelCount
    requires graph.Valid() && Listed(graph.adj, g.adj, labelSet, source, g.vertexCount)
    requires |visited| == g.vertexCount && forall t :: 0 <= t < |visited| ==> !visited[t]
    modifies graph
    ensures graph.Valid() && Listed(graph.adj, g.adj, labelSet, source + 1, g.vertexCount)
    ensures |cleared| == g.vertexCount && forall t :: 0 <= t < |cleared| ==> !cleared[t]
  {
    var n := g.vertexCount;
    var targets := SourceTargets(g, labelSet, source, visited);
    MergedMembers(OutEdges(g.adj, source), labelSet);
    ListedStep(graph.adj, g.adj, labelSet, source, n, targets);
    graph.AddEdgesNoChecks(source, targets);
    // edges.clear() and visited.reset()
    cleared := seq(n, _ => false);
  }

  /** The source loop over every vertex. */
  method MergeAll(g: LabeledEdgeGraph, graph: DiGraph, labelSet: seq<bool>)
    requires g.Optimized() && |labelSet| >= g.labelCount
    requires graph.Valid() && Listed(graph.adj, g.adj, labelSet, 0, g.vertexCount)
    modifies graph
    ensures graph.Valid() && Listed(graph.adj, g.adj, labelSet, g.vertexCount, g.vertexCount)
  {
    var n := g.vertexCount;
    EdgesInRange(g);
    OutBlocksOfLookup(g.adj, n);
    var visited := seq(n, _ => false);
    for source := 0 to n
      invariant graph.Valid() && Listed(graph.adj, g.adj, labelSet, source, n)
      invariant |visited| == n && forall t :: 0 <= t < n ==> !visited[t]
    {
      visited := MergeSource(g, graph, labelSet, source, visited);
    }
  }

  /** The largest edge count of a label below n in the set (0 when none is). */
  function MaxLabelCount(edges: seq<Edge>, labelSet: seq<bool>, n: nat): nat
  {
    if n == 0 then 0
    else
      var rest := MaxLabelCount(edges, labelSet, n - 1);
      var here := if InSet(labelSet, n - 1) then CountLabel(edges, n - 1) else 0;
      if here > rest then here else rest
  }

  /** MaxLabelCount bounds every label of the set below n and is reached by one of them (or is 0). */
  lemma {:induction false} MaxLabelCountIsMax(edges: seq<Edge>, labelSet: seq<bool>, n: nat)
    ensures forall l :: 0 <= l < n && InSet(labelSet, l) ==> CountLabel(edges, l) <= MaxLabelCount(edges, labelSet, n)
    ensures MaxLabelCount(edges, labelSet, n) == 0 ||
      exists l :: 0 <= l < n && InSet(labelSet, l) && CountLabel(edges, l) == MaxLabelCount(edges, labelSet, n)
  {
    if n > 0 {
      MaxLabelCountIsMax(edges, labelSet, n - 1);
    }
  }

  /** The label loop of mergeGraphForLabels: the largest getEdgeCount over the labels of the set. */
  method MaxEdgeCount(g: LabeledEdgeGraph, labelSet: seq<bool>) returns (maxEdgeCount: nat)
    requires |labelSet| >= g.labelCount
    ensures maxEdgeCount == MaxLabelCount(g.adj, labelSet, g.labelCount)
  {
    maxEdgeCount := 0;
    for lbl := 0 to g.labelCount
      invariant maxEdgeCount == MaxLabelCount(g.adj, labelSet, lbl)
    {
      if !labelSet[lbl] {
        continue;
      }
      var count := g.GetEdgeCount(lbl);
      if count > maxEdgeCount {
        maxEdgeCount := count;
      }
    }
  }

  /** With no bit set no edge is merged. */
  lemma {:induction false} CountSetZero(bits: seq<bool>)
    requires CountSet(bits) == 0
    ensures forall l :: 0 <= l < |bits| ==> !bits[l]
  {
    if |bits| > 0 {
      CountSetZero(bits[..|bits| - 1]);
      assert forall l :: 0 <= l < |bits| - 1 ==> bits[l] == bits[..|bits| - 1][l];
    }
  }

  /**
   * outStats.increase: untouched (None) when the set is empty; for several
   * labels the largest single-label edge count minus the merged edge count;
   * for one label the largest count itself.
   */
  function Increase(labelSet: seq<bool>, maxEdgeCount: nat, edgeCount: nat): (r: Option<int>)
    ensures r.None? <==> CountSet(labelSet) == 0
  {
    if CountSet(labelSet) == 0 then None
    else if CountSet(labelSet) > 1 then Some(maxEdgeCount - edgeCount)
    else Some(maxEdgeCount)
  }

  /**
   * mergeGraphForLabels: a DiGraph on the same vertices whose list of s is
   * the merged targets of s's edges, so t follows s iff some edge s -> t
   * carries a label of the set; and the increase statistic. The label loop
   * reads every bit below the label count.
   */
  method MergeGraphForLabels(g: LabeledEdgeGraph, labelSet: seq<bool>) returns (graph: DiGraph, increase: Option<int>)
    requires g.Optimized() && |labelSet| >= g.labelCount
    ensures fresh(graph) && graph.Valid() && |graph.adj| == g.vertexCount
    ensures forall s :: 0 <= s < g.vertexCount ==> graph.adj[s] == Merged(OutEdges(g.adj, s), labelSet)
    ensures forall s, t :: 0 <= s < g.vertexCount ==>
      (t in graph.adj[s] <==> exists l :: InSet(labelSet, l) && Edge(s, t, l) in g.adj)
    ensures increase == Increase(labelSet, MaxLabelCount(g.adj, labelSet, g.labelCount), graph.edgeCount)
  {
    var maxEdgeCount := MaxEdgeCount(g, labelSet);
    graph := MergedGraph(g, labelSet);
    if CountSet(labelSet) == 0 {
      return graph, None;
    }
    increase := if CountSet(labelSet) > 1 then Some(maxEdgeCount - graph.edgeCount) else Some(maxEdgeCount);
  }

  /** The lists of mergeGraphForLabels: left empty for an empty set, otherwise filled by the source loop. */
  method MergedGraph(g: LabeledEdgeGraph, labelSet: seq<bool>) returns (graph: DiGraph)
    requires g.Optimized() && |labelSet| >= g.labelCount
    ensures fresh(graph) && graph.Valid() && |graph.adj| == g.vertexCount
    ensures forall s :: 0 <= s < g.vertexCount ==> graph.adj[s] == Merged(OutEdges(g.adj, s), labelSet)
    ensures forall s, t :: 0 <= s < g.vertexCount ==>
      (t in graph.adj[s] <==> exists l :: InSet(labelSet, l) && Edge(s, t, l) in g.adj)
  {
    var n := g.vertexCount;
    graph := new DiGraph();
    graph.SetVertices(n);
    ResizedEmpty(n);
    if CountSet(labelSet) == 0 {
      NoneListed(g.adj, labelSet, graph.adj, n);
    } else {
      MergeAll(g, graph, labelSet);
    }
    MergedAll(g.adj, labelSet, graph.adj, n);
  }

  /** With an empty label set the empty lists are already the merged ones. */
  lemma NoneListed(edges: seq<Edge>, labelSet: seq<bool>, adj: seq<seq<nat>>, n: nat)
    requires CountSet(labelSet) == 0 && adj == seq(n, _ => [])
    ensures forall s :: 0 <= s < n ==> adj[s] == Merged(OutEdges(edges, s), labelSet)
  {
    CountSetZero(labelSet);
    forall s | 0 <= s < n
      ensures adj[s] == Merged(OutEdges(edges, s), labelSet)
    {
      MergedNone(OutEdges(edges, s), labelSet);
    }
  }

  lemma {:induction false} MergedNone(run: seq<Edge>, labelSet: seq<bool>)
    requires forall l :: 0 <= l < |labelSet| ==> !labelSet[l]
    ensures Merged(run, labelSet) == []
  {
    if |run| > 0 {
      MergedNone(run[..|run| - 1], labelSet);
    }
  }

  lemma MergedAll(edges: seq<Edge>, labelSet: seq<bool>, adj: seq<seq<nat>>, n: nat)
    requires |adj| == n && forall s :: 0 <= s < n ==> adj[s] == Merged(OutEdges(edges, s), labelSet)
    ensures forall s, t :: 0 <= s < n ==> (t in adj[s] <==> exists l :: InSet(labelSet, l) && Edge(s, t, l) in edges)
  {
    forall s | 0 <= s < n
      ensures forall t :: t in adj[s] <==> exists l :: InSet(labelSet, l) && Edge(s, t, l) in edges
    {
      MergedOutEdges(edges, labelSet, s);
    }
  }
}
