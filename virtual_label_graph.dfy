/**
 * createVirtualLabelGraph for a LabeledEdgeGraph
 * (src/algorithms/createVirtualLabelGraph.cpp): the `numMostFrequent` most
 * frequent labels keep a label of their own, numbered in frequency order,
 * and every other label is folded onto one of `numVirtual` virtual labels
 * by its rank modulo `numVirtual`. The graph is copied with the labels
 * mapped, then optimized.
 */
module VirtualLabelGraph {
  import opened Sorting
  import opened LabeledEdgeGraphs

  /** The label of rank i in the frequency order. */
  function VirtualLabel(i: nat, numMostFrequent: nat, numVirtual: nat): (r: nat)
    requires i < numMostFrequent || numVirtual > 0
    ensures r < numMostFrequent + numVirtual
    ensures i < numMostFrequent ==> r == i
    ensures i >= numMostFrequent ==> numMostFrequent <= r
  {
    if i < numMostFrequent then i else numMostFrequent + i % numVirtual
  }

  /** `labelOrder` lists every label below `labelCount` exactly once. */
  predicate LabelPermutation(labelOrder: seq<nat>, labelCount: nat)
  {
    |labelOrder| == labelCount && NoDuplicates(labelOrder) &&
    (forall i :: 0 <= i < |labelOrder| ==> labelOrder[i] < labelCount) &&
    (forall l :: 0 <= l < labelCount ==> l in labelOrder)
  }

  /** The labels of rank below `upto` already carry their mapped label. */
  ghost predicate Assigned(mapping: seq<nat>, labelOrder: seq<nat>, upto: nat, numMostFrequent: nat, numVirtual: nat)
  {
    upto <= |labelOrder| &&
    forall j :: 0 <= j < upto ==>
      labelOrder[j] < |mapping| && (j < numMostFrequent || numVirtual > 0) &&
      mapping[labelOrder[j]] == VirtualLabel(j, numMostFrequent, numVirtual)
  }

  /** Writing the label of rank i keeps the earlier ranks, since no label appears twice in the order. */
  lemma AssignStep(mapping: seq<nat>, labelOrder: seq<nat>, i: nat, numMostFrequent: nat, numVirtual: nat)
    requires NoDuplicates(labelOrder) && i < |labelOrder| && labelOrder[i] < |mapping|
    requires i < numMostFrequent || numVirtual > 0
    requires Assigned(mapping, labelOrder, i, numMostFrequent, numVirtual)
    ensures Assigned(mapping[labelOrder[i] := VirtualLabel(i, numMostFrequent, numVirtual)],
                     labelOrder, i + 1, numMostFrequent, numVirtual)
  {
    var m := mapping[labelOrder[i] := VirtualLabel(i, numMostFrequent, numVirtual)];
    forall j | 0 <= j < i
      ensures m[labelOrder[j]] == VirtualLabel(j, numMostFrequent, numVirtual)
    {
      assert labelOrder[j] != labelOrder[i];
    }
  }

  /** Once every rank is written, every label maps below the new label count. */
  lemma AssignedBounded(mapping: seq<nat>, labelOrder: seq<nat>, labelCount: nat, numMostFrequent: nat, numVirtual: nat)
    requires LabelPermutation(labelOrder, labelCount) && |mapping| == labelCount
    requires Assigned(mapping, labelOrder, labelCount, numMostFrequent, numVirtual)
    ensures forall l :: 0 <= l < labelCount ==> mapping[l] < numMostFrequent + numVirtual
  {
    forall l | 0 <= l < labelCount
      ensures mapping[l] < numMostFrequent + numVirtual
    {
      assert l in labelOrder;
      var i :| 0 <= i < |labelOrder| && labelOrder[i] == l;
    }
  }

  /**
   * The two mapping loops. `outVirtualLabelMapping` is resized to the label
   * count, so its old entries survive where nothing overwrites them; with a
   * permutation as the order every entry is overwritten.
   */
  method VirtualMapping(labelOrder: seq<nat>, labelCount: nat, numMostFrequent: nat, numVirtual: nat,
                        oldMapping: seq<nat>)
    returns (mapping: seq<nat>)
    requires LabelPermutation(labelOrder, labelCount)
    requires numMostFrequent <= labelCount
    requires numMostFrequent < labelCount ==> numVirtual > 0
    ensures |mapping| == labelCount
    ensures forall i :: 0 <= i < labelCount ==> mapping[labelOrder[i]] == VirtualLabel(i, numMostFrequent, numVirtual)
    ensures forall l :: 0 <= l < labelCount ==> mapping[l] < numMostFrequent + numVirtual
  {
    mapping := ResizeLookup(oldMapping, labelCount);
    var virtualLabelCounter := 0;
    for i := 0 to numMostFrequent
      invariant |mapping| == labelCount && virtualLabelCounter == i
      invariant Assigned(mapping, labelOrder, i, numMostFrequent, numVirtual)
    {
      var mostFrequent := labelOrder[i];
      AssignStep(mapping, labelOrder, i, numMostFrequent, numVirtual);
      mapping := mapping[mostFrequent := virtualLabelCounter];
      virtualLabelCounter := virtualLabelCounter + 1;
    }
    for i := numMostFrequent to labelCount
      invariant |mapping| == labelCount
      invariant Assigned(mapping, labelOrder, i, numMostFrequent, numVirtual)
    {
      var virtualLabelIndex := i % numVirtual;
      var mostFrequent := labelOrder[i];
      AssignStep(mapping, labelOrder, i, numMostFrequent, numVirtual);
      mapping := mapping[mostFrequent := virtualLabelCounter + virtualLabelIndex];
    }
    AssignedBounded(mapping, labelOrder, labelCount, numMostFrequent, numVirtual);
  }

  /** Every label of `edges` indexes the mapping. */
  predicate Mapped(edges: seq<Edge>, mapping: seq<nat>)
  {
    forall i :: 0 <= i < |edges| ==> edges[i].lbl < |mapping|
  }

  /** The edges the copy loop appends: every edge, its label mapped. */
  function Relabeled(edges: seq<Edge>, mapping: seq<nat>): (r: seq<Edge>)
    requires Mapped(edges, mapping)
    ensures |r| == |edges|
  {
    if |edges| == 0 then []
    else
      var last := edges[|edges| - 1];
      Relabeled(edges[..|edges| - 1], mapping) + [Edge(last.source, last.target, mapping[last.lbl])]
  }

  /** Relabelling keeps every edge in place with its endpoints and maps only its label. */
  lemma {:induction false} RelabeledAt(edges: seq<Edge>, mapping: seq<nat>)
    requires Mapped(edges, mapping)
    ensures forall i :: 0 <= i < |edges| ==>
      Relabeled(edges, mapping)[i] == Edge(edges[i].source, edges[i].target, mapping[edges[i].lbl])
    decreases |edges|
  {
    if |edges| > 0 {
      var init := edges[..|edges| - 1];
      RelabeledAt(init, mapping);
      forall i | 0 <= i < |edges| - 1
        ensures Relabeled(edges, mapping)[i] == Edge(edges[i].source, edges[i].target, mapping[edges[i].lbl])
      {
        assert init[i] == edges[i];
      }
    }
  }

  lemma RelabeledSnoc(edges: seq<Edge>, mapping: seq<nat>, i: nat)
    requires Mapped(edges, mapping) && i < |edges|
    ensures Mapped(edges[..i], mapping) && Mapped(edges[..i + 1], mapping)
    ensures Relabeled(edges[..i + 1], mapping) ==
      Relabeled(edges[..i], mapping) + [Edge(edges[i].source, edges[i].target, mapping[edges[i].lbl])]
  {
    assert edges[..i + 1][..i] == edges[..i];
  }

  /** The graph being built holds the relabelled prefix walked so far, mirrored. */
  ghost predicate Building(out: LabeledEdgeGraph, edges: seq<Edge>, mapping: seq<nat>,
                           upto: nat, vertexCount: nat, labelCount: nat)
    reads out
  {
    upto <= |edges| && Mapped(edges, mapping) &&
    out.adj == Relabeled(edges[..upto], mapping) && out.reverseAdj == FlipAll(out.adj) &&
    out.vertexCount == vertexCount && out.labelCount == labelCount &&
    |out.adjStartLookup| == vertexCount && |out.reverseAdjStartLookup| == vertexCount
  }

  /**
   * createVirtualLabelGraph: the mapping, and the graph with the same
   * vertices, numMostFrequent + numVirtual labels and, after optimize,
   * exactly the input edges with their labels mapped. The order must be a
   * permutation of the labels (orderLabelsByFrequency gives one), the modulo
   * needs a virtual label when some label is not among the most frequent,
   * and optimize needs a vertex.
   */
  method CreateVirtualLabelGraph(g: LabeledEdgeGraph, labelOrder: seq<nat>, numMostFrequent: nat, numVirtual: nat,
                                 oldMapping: seq<nat>)
    returns (out: LabeledEdgeGraph, mapping: seq<nat>)
    requires g.Optimized() && g.vertexCount > 0
    requires LabelPermutation(labelOrder, g.labelCount)
    requires numMostFrequent <= g.labelCount
    requires numMostFrequent < g.labelCount ==> numVirtual > 0
    ensures |mapping| == g.labelCount
    ensures forall i :: 0 <= i < g.labelCount ==> mapping[labelOrder[i]] == VirtualLabel(i, numMostFrequent, numVirtual)
    ensures fresh(out) && out.Optimized()
    ensures out.vertexCount == g.vertexCount && out.labelCount == numMostFrequent + numVirtual
    ensures Mapped(g.adj, mapping) && out.adj == Normalize(Relabeled(g.adj, mapping))
    ensures forall e :: e in out.adj <==>
      exists i :: 0 <= i < |g.adj| && e == Edge(g.adj[i].source, g.adj[i].target, mapping[g.adj[i].lbl])
  {
    mapping := VirtualMapping(labelOrder, g.labelCount, numMostFrequent, numVirtual, oldMapping);
    assert forall i :: 0 <= i < |g.adj| ==> g.adj[i] in g.adj;
    out := new LabeledEdgeGraph();
    out.SetSizes(g.vertexCount, numMostFrequent + numVirtual, |g.adj|);
    Walk(g, out, mapping);
    Finish(out, g.adj, mapping, g.vertexCount, numMostFrequent + numVirtual);
    NormalizeSpec(Relabeled(g.adj, mapping));
    RelabeledMembers(g.adj, mapping);
  }

  /** An edge is in the relabelled list iff it is an input edge with its label mapped. */
  lemma RelabeledMembers(edges: seq<Edge>, mapping: seq<nat>)
    requires Mapped(edges, mapping)
    ensures forall e :: e in Relabeled(edges, mapping) <==>
      exists i :: 0 <= i < |edges| && e == Edge(edges[i].source, edges[i].target, mapping[edges[i].lbl])
  {
    var relabeled := Relabeled(edges, mapping);
    RelabeledAt(edges, mapping);
    forall e
      ensures e in relabeled <==>
        exists i :: 0 <= i < |edges| && e == Edge(edges[i].source, edges[i].target, mapping[edges[i].lbl])
    {
      if e in relabeled {
        var i :| 0 <= i < |relabeled| && relabeled[i] == e;
      }
    }
  }

  /** The vertex loop over the whole edge list. */
  method Walk(g: LabeledEdgeGraph, out: LabeledEdgeGraph, mapping: seq<nat>)
    requires StrictlySortedBy(g.adj, EdgeLe) && g.adjStartLookup == Lookup(g.adj, g.vertexCount) && g.vertexCount > 0
    requires forall e {:trigger e in g.adj} :: e in g.adj ==> e.source < g.vertexCount
    requires out != g && Building(out, g.adj, mapping, 0, g.vertexCount, out.labelCount)
    modifies out
    ensures Building(out, g.adj, mapping, |g.adj|, g.vertexCount, old(out.labelCount))
  {
    var n := g.vertexCount;
    ghost var labelCount := out.labelCount;
    BlocksStart(g.adj, g.adjStartLookup, n);
    for vertex := 0 to n
      invariant Building(out, g.adj, mapping, BlockStart(g.adj, g.adjStartLookup, n, vertex), n, labelCount)
    {
      CopyVertex(g, out, mapping, vertex, labelCount);
    }
  }

  /** One round of the vertex loop. */
  method CopyVertex(g: LabeledEdgeGraph, out: LabeledEdgeGraph, mapping: seq<nat>, vertex: nat, ghost labelCount: nat)
    requires StrictlySortedBy(g.adj, EdgeLe) && g.adjStartLookup == Lookup(g.adj, g.vertexCount) && vertex < g.vertexCount
    requires forall e {:trigger e in g.adj} :: e in g.adj ==> e.source < g.vertexCount
    requires out != g
    requires Building(out, g.adj, mapping, BlockStart(g.adj, g.adjStartLookup, g.vertexCount, vertex),
                      g.vertexCount, labelCount)
    modifies out
    ensures Building(out, g.adj, mapping, BlockStart(g.adj, g.adjStartLookup, g.vertexCount, vertex + 1),
                     g.vertexCount, labelCount)
  {
    BlocksTile(g.adj, g.adjStartLookup, g.vertexCount, vertex);
    var it := g.GetConnected(vertex);
    CopyBlock(it, out, mapping, g.vertexCount, labelCount, BlockStart(g.adj, g.adjStartLookup, g.vertexCount, vertex + 1));
  }

  /** The iterator loop of one vertex: each edge appended with its label mapped. */
  method CopyBlock(it: EdgeIterator, out: LabeledEdgeGraph, mapping: seq<nat>,
                   ghost vertexCount: nat, ghost labelCount: nat, ghost blockEnd: nat)
    requires !it.started && it.Valid() && it.currentIndex == it.startIndex
    requires blockEnd == it.startIndex + RunLength(it.edges, it.startIndex, it.source) <= |it.edges|
    requires Building(out, it.edges, mapping, it.startIndex, vertexCount, labelCount)
    modifies it, out
    ensures Building(out, it.edges, mapping, blockEnd, vertexCount, labelCount)
  {
    ghost var run := RunLength(it.edges, it.startIndex, it.source);
    var more := it.Next();
    while more
      invariant it.started && it.startIndex <= it.currentIndex <= it.startIndex + run
      invariant more ==> it.Valid() && it.IsValid()
      invariant more <==> it.currentIndex < it.startIndex + run
      invariant Building(out, it.edges, mapping, it.currentIndex, vertexCount, labelCount)
      decreases it.startIndex + run - it.currentIndex
    {
      var edge := it.Current();
      var lbl := mapping[edge.lbl];
      RelabeledSnoc(it.edges, mapping, it.currentIndex);
      FlipAllSnoc(out.adj, Edge(edge.source, edge.target, lbl));
      out.AddEdge(edge.source, edge.target, lbl);
      more := it.Next();
    }
  }

  /** optimize on the copied graph. */
  method Finish(out: LabeledEdgeGraph, edges: seq<Edge>, mapping: seq<nat>, n: nat, labelCount: nat)
    requires Building(out, edges, mapping, |edges|, n, labelCount) && n > 0
    requires forall e {:trigger e in edges} :: e in edges ==> e.source < n && e.target < n
    requires forall l :: 0 <= l < |mapping| ==> mapping[l] < labelCount
    modifies out
    ensures out.Optimized() && out.adj == Normalize(Relabeled(edges, mapping))
    ensures out.vertexCount == n && out.labelCount == labelCount
  {
    var relabeled := Relabeled(edges, mapping);
    assert edges[..|edges|] == edges;
    RelabeledAt(edges, mapping);
    forall e | e in relabeled
      ensures e.source < n && e.target < n && e.lbl < labelCount
    {
      var i :| 0 <= i < |relabeled| && relabeled[i] == e;
      assert edges[i] in edges;
    }
    FlipAllMembers(relabeled);
    out.Optimize();
    NormalizeSpec(relabeled);
    NormalizeSpec(FlipAll(relabeled));
    NormalizeMirror(relabeled);
  }
}
