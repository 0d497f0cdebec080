/**
 * The distributions of src/graphs/LabeledEdgeGraph.cpp: labelDistribution
 * (the number of edges of every label, as (count, label) pairs sorted with
 * `std::greater`), orderLabelsByFrequency (the labels read off that sorted
 * list) and vertexDistribution (every vertex's in- plus out-degree, as
 * (degree, vertex) pairs sorted the same way).
 */
module LabelDistribution {
  import opened Sorting
  import opened LabeledEdgeGraphs
  import opened VertexOrders
  import VirtualLabelGraph

  /** The number of edges of every label below n, indexed by label. */
  function Histogram(edges: seq<Edge>, n: nat): (r: seq<nat>)
    ensures |r| == n && forall l :: 0 <= l < n ==> r[l] == CountLabel(edges, l)
  {
    seq(n, l requires 0 <= l < n => CountLabel(edges, l))
  }

  /** Every edge label is below n. */
  predicate LabelsBelow(edges: seq<Edge>, n: nat)
  {
    forall i :: 0 <= i < |edges| ==> edges[i].lbl < n
  }

  /** One more edge: the pair of its label counts one more, every other pair stays. */
  lemma TallyStep(edges: seq<Edge>, n: nat, i: nat)
    requires i < |edges| && edges[i].lbl < n
    ensures Pairs(Histogram(edges[..i + 1], n)) ==
      Pairs(Histogram(edges[..i], n))[edges[i].lbl := ScoredVertex(CountLabel(edges[..i], edges[i].lbl) + 1, edges[i].lbl)]
  {
    assert edges[..i + 1][..i] == edges[..i];
  }

  /** The counting state after the edges before `upto`: each label's pair holds its count so far. */
  ghost predicate Tallied(distribution: seq<ScoredVertex>, edges: seq<Edge>, n: nat, upto: nat)
  {
    upto <= |edges| && LabelsBelow(edges, n) && distribution == Pairs(Histogram(edges[..upto], n))
  }

  /**
   * labelDistribution: the (count, label) pairs of every label, each count
   * the number of edges carrying the label, sorted with `std::greater`
   * (higher count first, ties by higher label). The resized vector of a
   * caller that passes an empty one starts with default pairs.
   */
  method LabelDistributionOf(g: LabeledEdgeGraph) returns (distribution: seq<ScoredVertex>)
    requires g.Optimized()
    ensures SortedBy(distribution, ComesFirst)
    ensures multiset(distribution) == multiset(Pairs(Histogram(g.adj, g.labelCount)))
    ensures distribution == Sort(Pairs(Histogram(g.adj, g.labelCount)), ComesFirst)
  {
    var n := g.labelCount;
    distribution := seq(n, _ => ScoredVertex(0, 0));
    for i := 0 to n
      invariant |distribution| == n
      invariant forall k :: 0 <= k < i ==> distribution[k] == ScoredVertex(0, k)
    {
      distribution := distribution[i := ScoredVertex(0, i)];
    }
    assert distribution == Pairs(Histogram(g.adj[..0], n));
    distribution := TallyAll(g, distribution);
    assert g.adj[..|g.adj|] == g.adj;
    ghost var pairs := distribution;
    distribution := Sort(distribution, ComesFirst);
    ComesFirstOrder();
    SortSorted(pairs, ComesFirst);
  }

  /** The vertex loop of labelDistribution: every vertex's edges in turn, which is the whole edge list in order. */
  method TallyAll(g: LabeledEdgeGraph, distribution: seq<ScoredVertex>) returns (tallied: seq<ScoredVertex>)
    requires g.Optimized()
    requires distribution == Pairs(Histogram(g.adj[..0], g.labelCount))
    ensures Tallied(tallied, g.adj, g.labelCount, |g.adj|)
  {
    var n := g.vertexCount;
    var edges := g.adj;
    forall i | 0 <= i < |edges|
      ensures edges[i].source < n && edges[i].lbl < g.labelCount
    {
      assert edges[i] in edges;
    }
    tallied := distribution;
    if n == 0 {
      if |edges| > 0 {
        assert false;
      }
      return;
    }
    BlocksStart(edges, g.adjStartLookup, n);
    for vertex := 0 to n
      invariant Tallied(tallied, edges, g.labelCount, BlockStart(edges, g.adjStartLookup, n, vertex))
    {
      BlocksTile(edges, g.adjStartLookup, n, vertex);
      var it := g.GetConnected(vertex);
      tallied := TallyBlock(it, tallied, g.labelCount, BlockStart(edges, g.adjStartLookup, n, vertex + 1));
    }
  }

  /** The iterator loop of one vertex: each edge adds one to its label's count. */
  method TallyBlock(it: EdgeIterator, distribution: seq<ScoredVertex>, ghost n: nat, ghost blockEnd: nat)
    returns (tallied: seq<ScoredVertex>)
    requires !it.started && it.Valid() && it.currentIndex == it.startIndex
    requires blockEnd == it.startIndex + RunLength(it.edges, it.startIndex, it.source) <= |it.edges|
    requires Tallied(distribution, it.edges, n, it.startIndex)
    modifies it
    ensures Tallied(tallied, it.edges, n, blockEnd)
  {
    tallied := distribution;
    ghost var run := RunLength(it.edges, it.startIndex, it.source);
    var more := it.Next();
    while more
      invariant it.started && it.startIndex <= it.currentIndex <= it.startIndex + run
      invariant more ==> it.Valid() && it.IsValid()
      invariant more <==> it.currentIndex < it.startIndex + run
      invariant Tallied(tallied, it.edges, n, it.currentIndex)
      decreases it.startIndex + run - it.currentIndex
    {
      var edge := it.Current();
      TallyStep(it.edges, n, it.currentIndex);
      tallied := tallied[edge.lbl := ScoredVertex(tallied[edge.lbl].score + 1, tallied[edge.lbl].vertex)];
      more := it.Next();
    }
  }

  /** A permutation of the labels lists each label once, which is what createVirtualLabelGraph needs of its order. */
  lemma PermutationLabels(order: seq<nat>, n: nat)
    requires IsPermutation(order, n)
    ensures VirtualLabelGraph.LabelPermutation(order, n)
  {
    PermutationMembers(order, n);
    NoDuplicatesPermutation(Iota(n), order);
    forall i | 0 <= i < |order|
      ensures order[i] < n
    {
      assert order[i] in order;
    }
  }

  /**
   * orderLabelsByFrequency: the labels of the sorted distribution in order,
   * so every label exactly once, the more frequent first.
   */
  method OrderLabelsByFrequency(g: LabeledEdgeGraph) returns (order: seq<nat>)
    requires g.Optimized()
    ensures IsPermutation(order, g.labelCount)
    ensures ByScore(Histogram(g.adj, g.labelCount), order)
    ensures VirtualLabelGraph.LabelPermutation(order, g.labelCount)
  {
    var numEdgesByLabel := LabelDistributionOf(g);
    order := ReadOff(numEdgesByLabel);
    SortedOrder(Histogram(g.adj, g.labelCount));
    PermutationLabels(order, g.labelCount);
  }

  /** The degree vertexDistribution uses: outgoing plus incoming edges, no product. */
  function Degree(adj: seq<Edge>, reverseAdj: seq<Edge>, v: nat): nat
  {
    |OutEdges(adj, v)| + |OutEdges(reverseAdj, v)|
  }

  function Degrees(adj: seq<Edge>, reverseAdj: seq<Edge>, n: nat): (r: seq<nat>)
    ensures |r| == n && forall v :: 0 <= v < n ==> r[v] == Degree(adj, reverseAdj, v)
  {
    seq(n, v requires 0 <= v < n => Degree(adj, reverseAdj, v))
  }

  /** calculateDegree of LabeledEdgeGraph.cpp: both runs counted from zero and added. */
  method CalculateTotalDegree(g: LabeledEdgeGraph, v: nat) returns (d: nat)
    requires g.Optimized() && v < g.vertexCount
    ensures d == Degree(g.adj, g.reverseAdj, v)
  {
    ConnectedIsOutEdges(g.adj, g.adjStartLookup, g.vertexCount, v);
    var it := g.GetConnected(v);
    var totalOutgoing := CountRun(it, g.adj, g.adjStartLookup, g.vertexCount, v, 0);
    ConnectedIsOutEdges(g.reverseAdj, g.reverseAdjStartLookup, g.vertexCount, v);
    var revIt := g.GetReverseConnected(v);
    var totalIncoming := CountRun(revIt, g.reverseAdj, g.reverseAdjStartLookup, g.vertexCount, v, 0);
    d := totalIncoming + totalOutgoing;
  }

  /**
   * vertexDistribution: the (degree, vertex) pair of every vertex, sorted
   * with `std::greater`, so a vertex with more edges comes first.
   */
  method VertexDistribution(g: LabeledEdgeGraph) returns (order: seq<ScoredVertex>)
    requires g.Optimized()
    ensures SortedBy(order, ComesFirst)
    ensures multiset(order) == multiset(Pairs(Degrees(g.adj, g.reverseAdj, g.vertexCount)))
    ensures Vertices(order) == Vertices(Sort(Pairs(Degrees(g.adj, g.reverseAdj, g.vertexCount)), ComesFirst))
    ensures IsPermutation(Vertices(order), g.vertexCount)
    ensures ByScore(Degrees(g.adj, g.reverseAdj, g.vertexCount), Vertices(order))
  {
    ghost var degrees := Degrees(g.adj, g.reverseAdj, g.vertexCount);
    var pairs := seq(g.vertexCount, _ => ScoredVertex(0, 0));
    for vertex := 0 to g.vertexCount
      invariant |pairs| == g.vertexCount
      invariant forall k :: 0 <= k < vertex ==> pairs[k] == ScoredVertex(degrees[k], k)
    {
      var degree := CalculateTotalDegree(g, vertex);
      pairs := pairs[vertex := ScoredVertex(degree, vertex)];
    }
    assert pairs == Pairs(degrees);
    order := Sort(pairs, ComesFirst);
    ComesFirstOrder();
    SortSorted(pairs, ComesFirst);
    SortedOrder(degrees);
  }
}
