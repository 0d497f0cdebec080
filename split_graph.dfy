/**
 * splitGraph (src/algorithms/splitGraph.cpp): the subgraph of a labelled
 * graph that keeps only the edges whose label lies in a label set, each kept
 * label renumbered through a mapping, optimized afterwards.
 */
module SplitGraph {
  import opened Sorting
  import opened LabeledEdgeGraphs

  /** `boost::dynamic_bitset::count`: the number of set bits. */
  function CountSet(bits: seq<bool>): (r: nat)
    ensures r <= |bits|
  {
    if |bits| == 0 then 0 else CountSet(bits[..|bits| - 1]) + (if bits[|bits| - 1] then 1 else 0)
  }

  /** The edge with its label renumbered. */
  function Relabel(e: Edge, mapping: seq<nat>): Edge
    requires e.lbl < |mapping|
  {
    Edge(e.source, e.target, mapping[e.lbl])
  }

  /** Every label of `edges` indexes both the label set and the mapping. */
  predicate LabelsIndexed(edges: seq<Edge>, labels: seq<bool>, mapping: seq<nat>)
  {
    forall i :: 0 <= i < |edges| ==> edges[i].lbl < |labels| && edges[i].lbl < |mapping|
  }

  /** The edges the loop appends, in the order it meets them. */
  function Kept(edges: seq<Edge>, labels: seq<bool>, mapping: seq<nat>): seq<Edge>
    requires LabelsIndexed(edges, labels, mapping)
  {
    if |edges| == 0 then []
    else
      var last := edges[|edges| - 1];
      Kept(edges[..|edges| - 1], labels, mapping) + (if labels[last.lbl] then [Relabel(last, mapping)] else [])
  }

  /** An edge is kept iff it is the relabelled form of an input edge whose label is in the set. */
  lemma {:induction false} KeptMembers(edges: seq<Edge>, labels: seq<bool>, mapping: seq<nat>)
    requires LabelsIndexed(edges, labels, mapping)
    ensures forall e :: e in Kept(edges, labels, mapping) <==>
      exists i :: 0 <= i < |edges| && labels[edges[i].lbl] && e == Relabel(edges[i], mapping)
    decreases |edges|
  {
    if |edges| > 0 {
      var init, last := edges[..|edges| - 1], edges[|edges| - 1];
      KeptMembers(init, labels, mapping);
      forall e
        ensures e in Kept(edges, labels, mapping) <==>
          exists i :: 0 <= i < |edges| && labels[edges[i].lbl] && e == Relabel(edges[i], mapping)
      {
        if e in Kept(init, labels, mapping) {
          var i :| 0 <= i < |init| && labels[init[i].lbl] && e == Relabel(init[i], mapping);
          assert edges[i] == init[i];
        }
        if exists i :: 0 <= i < |edges| && labels[edges[i].lbl] && e == Relabel(edges[i], mapping) {
          var i :| 0 <= i < |edges| && labels[edges[i].lbl] && e == Relabel(edges[i], mapping);
          if i < |init| {
            assert init[i] == edges[i];
          }
        }
      }
    }
  }

  /** One more edge of the walk: Kept grows by that edge's contribution. */
  lemma KeptSnoc(edges: seq<Edge>, labels: seq<bool>, mapping: seq<nat>, i: nat)
    requires LabelsIndexed(edges, labels, mapping) && i < |edges|
    ensures LabelsIndexed(edges[..i], labels, mapping) && LabelsIndexed(edges[..i + 1], labels, mapping)
    ensures Kept(edges[..i + 1], labels, mapping) ==
      Kept(edges[..i], labels, mapping) + (if labels[edges[i].lbl] then [Relabel(edges[i], mapping)] else [])
  {
    assert edges[..i + 1][..i] == edges[..i];
  }

  /** The graph being built holds the kept edges of the prefix walked so far, mirrored. */
  ghost predicate Building(out: LabeledEdgeGraph, edges: seq<Edge>, labels: seq<bool>, mapping: seq<nat>,
                           upto: nat, vertexCount: nat, labelCount: nat)
    reads out
  {
    upto <= |edges| && LabelsIndexed(edges, labels, mapping) &&
    out.adj == Kept(edges[..upto], labels, mapping) && out.reverseAdj == FlipAll(out.adj) &&
    out.vertexCount == vertexCount && out.labelCount == labelCount &&
    |out.adjStartLookup| == vertexCount && |out.reverseAdjStartLookup| == vertexCount
  }

  /**
   * splitGraph: the graph with the same vertices, `labels.count()` labels
   * and, after optimize, exactly the relabelled edges whose label is in the
   * set. The source indexes the bitset and the mapping with every edge's
   * label and optimize needs a vertex; the kept labels must land below the
   * new label count, as the callers build the mapping.
   */
  method Split(g: LabeledEdgeGraph, labels: seq<bool>, mapping: seq<nat>) returns (out: LabeledEdgeGraph)
    requires g.Optimized() && g.vertexCount > 0
    requires LabelsIndexed(g.adj, labels, mapping)
    requires forall i :: 0 <= i < |g.adj| && labels[g.adj[i].lbl] ==> mapping[g.adj[i].lbl] < CountSet(labels)
    ensures fresh(out) && out.Optimized()
    ensures out.vertexCount == g.vertexCount && out.labelCount == CountSet(labels)
    ensures out.adj == Normalize(Kept(g.adj, labels, mapping))
    ensures forall e :: e in out.adj <==>
      exists i :: 0 <= i < |g.adj| && labels[g.adj[i].lbl] && e == Relabel(g.adj[i], mapping)
  {
    out := new LabeledEdgeGraph();
    out.SetSizes(g.vertexCount, CountSet(labels), 0);
    Walk(g, out, labels, mapping);
    Finish(out, g.adj, labels, mapping, g.vertexCount, CountSet(labels));
    NormalizeSpec(Kept(g.adj, labels, mapping));
    KeptMembers(g.adj, labels, mapping);
  }

  /** The vertex loop: every vertex's edges in turn, which after optimize is the whole edge list in order. */
  method Walk(g: LabeledEdgeGraph, out: LabeledEdgeGraph, labels: seq<bool>, mapping: seq<nat>)
    requires StrictlySortedBy(g.adj, EdgeLe) && g.adjStartLookup == Lookup(g.adj, g.vertexCount) && g.vertexCount > 0
    requires forall e {:trigger e in g.adj} :: e in g.adj ==> e.source < g.vertexCount
    requires out != g && Building(out, g.adj, labels, mapping, 0, g.vertexCount, CountSet(labels))
    modifies out
    ensures Building(out, g.adj, labels, mapping, |g.adj|, g.vertexCount, CountSet(labels))
  {
    var n := g.vertexCount;
    var edges := g.adj;
    BlocksStart(edges, g.adjStartLookup, n);
    for vertex := 0 to n
      invariant Building(out, edges, labels, mapping, BlockStart(edges, g.adjStartLookup, n, vertex), n, CountSet(labels))
    {
      CopyVertex(g, out, labels, mapping, vertex);
    }
  }

  /** One round of the vertex loop: the iterator of `vertex` over its block. */
  method CopyVertex(g: LabeledEdgeGraph, out: LabeledEdgeGraph, labels: seq<bool>, mapping: seq<nat>, vertex: nat)
    requires StrictlySortedBy(g.adj, EdgeLe) && g.adjStartLookup == Lookup(g.adj, g.vertexCount) && vertex < g.vertexCount
    requires forall e {:trigger e in g.adj} :: e in g.adj ==> e.source < g.vertexCount
    requires out != g
    requires Building(out, g.adj, labels, mapping, BlockStart(g.adj, g.adjStartLookup, g.vertexCount, vertex),
                      g.vertexCount, CountSet(labels))
    modifies out
    ensures Building(out, g.adj, labels, mapping, BlockStart(g.adj, g.adjStartLookup, g.vertexCount, vertex + 1),
                     g.vertexCount, CountSet(labels))
  {
    BlocksTile(g.adj, g.adjStartLookup, g.vertexCount, vertex);
    var it := g.GetConnected(vertex);
    CopyBlock(it, out, labels, mapping, g.vertexCount, CountSet(labels),
              BlockStart(g.adj, g.adjStartLookup, g.vertexCount, vertex + 1));
  }

  /** The iterator loop for one vertex: append each of its edges whose label is in the set. */
  method CopyBlock(it: EdgeIterator, out: LabeledEdgeGraph, labels: seq<bool>, mapping: seq<nat>,
                   ghost vertexCount: nat, ghost labelCount: nat, ghost blockEnd: nat)
    requires !it.started && it.Valid() && it.currentIndex == it.startIndex
    requires blockEnd == it.startIndex + RunLength(it.edges, it.startIndex, it.source) <= |it.edges|
    requires Building(out, it.edges, labels, mapping, it.startIndex, vertexCount, labelCount)
    modifies it, out
    ensures Building(out, it.edges, labels, mapping, blockEnd, vertexCount, labelCount)
  {
    ghost var run := RunLength(it.edges, it.startIndex, it.source);
    var more := it.Next();
    while more
      invariant it.started && it.startIndex <= it.currentIndex <= it.startIndex + run
      invariant more ==> it.Valid() && it.IsValid()
      invariant more <==> it.currentIndex < it.startIndex + run
      invariant Building(out, it.edges, labels, mapping, it.currentIndex, vertexCount, labelCount)
      decreases it.startIndex + run - it.currentIndex
    {
      var edge := it.Current();
      KeptSnoc(it.edges, labels, mapping, it.currentIndex);
      if labels[edge.lbl] {
        FlipAllSnoc(out.adj, Relabel(edge, mapping));
        out.AddEdge(edge.source, edge.target, mapping[edge.lbl]);
      }
      more := it.Next();
    }
  }

  /** With the whole list walked, optimize may run and leaves the mirrored, optimized graph. */
  method Finish(out: LabeledEdgeGraph, edges: seq<Edge>, labels: seq<bool>, mapping: seq<nat>,
                n: nat, labelCount: nat)
    requires Building(out, edges, labels, mapping, |edges|, n, labelCount) && n > 0
    requires forall e {:trigger e in edges} :: e in edges ==> e.source < n && e.target < n
    requires forall i :: 0 <= i < |edges| && labels[edges[i].lbl] ==> mapping[edges[i].lbl] < labelCount
    modifies out
    ensures out.Optimized() && out.adj == Normalize(Kept(edges, labels, mapping))
    ensures out.vertexCount == n && out.labelCount == labelCount
  {
    var kept := Kept(edges, labels, mapping);
    assert edges[..|edges|] == edges;
    KeptMembers(edges, labels, mapping);
    forall e | e in kept
      ensures e.source < n && e.target < n && e.lbl < labelCount
    {
      var i :| 0 <= i < |edges| && labels[edges[i].lbl] && e == Relabel(edges[i], mapping);
      assert edges[i] in edges;
    }
    FlipAllMembers(kept);
    out.Optimize();
    NormalizeSpec(kept);
    NormalizeSpec(FlipAll(kept));
    NormalizeMirror(kept);
  }
}
