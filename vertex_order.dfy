/**
 * vertexOrderByDegree (src/algorithms/vertexOrderByDegree.cpp): the landmark
 * order of the 2-hop indexes. Every vertex gets the score
 * (outgoing + 1) * (incoming + 1); the (score, vertex) pairs are sorted with
 * `std::greater`, and the vertices are read off in that order.
 */
module VertexOrders {
  import opened Sorting
  import opened DiGraphs
  import opened LabeledEdgeGraphs

  datatype ScoredVertex = ScoredVertex(score: nat, vertex: nat)

  /** `std::greater` on pairs, as "may come first": higher score, then higher vertex id. */
  predicate ComesFirst(a: ScoredVertex, b: ScoredVertex)
  {
    a.score > b.score || (a.score == b.score && a.vertex >= b.vertex)
  }

  /** The pair order is total and has no ties between distinct pairs, so the sorted result is unique. */
  lemma ComesFirstOrder()
    ensures TotalPreorder(ComesFirst) && Antisymmetric(ComesFirst)
  {
  }

  /** The score both graph kinds use; it grows with either degree. */
  function DegreeScore(outgoing: nat, incoming: nat): (r: nat)
    ensures r >= outgoing + 1 && r >= incoming + 1
  {
    assert (outgoing + 1) * (incoming + 1) == (outgoing + 1) * incoming + outgoing + 1;
    assert (outgoing + 1) * (incoming + 1) == outgoing * (incoming + 1) + incoming + 1;
    (outgoing + 1) * (incoming + 1)
  }

  /** A vertex with at least as many edges either way never scores lower. */
  lemma DegreeScoreMonotone(out1: nat, in1: nat, out2: nat, in2: nat)
    requires out1 <= out2 && in1 <= in2
    ensures DegreeScore(out1, in1) <= DegreeScore(out2, in2)
  {
    assert (out1 + 1) * (in1 + 1) <= (out2 + 1) * (in1 + 1);
    assert (out2 + 1) * (in1 + 1) <= (out2 + 1) * (in2 + 1);
  }

  /**
   * The LabeledEdgeGraph overload as written: both counters are 32-bit
   * `unsigned int`, so their product is taken modulo 2^32 before it is
   * widened to `size_t`.
   */
  function DegreeScore32(outgoing: nat, incoming: nat): (r: nat)
    ensures r < 0x1_0000_0000
    ensures DegreeScore(outgoing, incoming) < 0x1_0000_0000 ==> r == DegreeScore(outgoing, incoming)
  {
    DegreeScore(outgoing, incoming) % 0x1_0000_0000
  }

  /** With 65535 edges each way the 32-bit product wraps to 0, below a vertex with one edge each way. */
  lemma DegreeScore32Wraps()
    ensures DegreeScore32(65535, 65535) == 0
    ensures DegreeScore32(1, 1) == 4
    ensures DegreeScore(65535, 65535) > DegreeScore(1, 1)
  {
    assert DegreeScore(65535, 65535) == 0x1_0000_0000;
  }

  function Vertices(s: seq<ScoredVertex>): (r: seq<nat>)
    ensures |r| == |s| && forall i :: 0 <= i < |s| ==> r[i] == s[i].vertex
  {
    seq(|s|, i requires 0 <= i < |s| => s[i].vertex)
  }

  /** Taking the vertices commutes with splitting off the head. */
  lemma VerticesCons(s: seq<ScoredVertex>)
    requires |s| > 0
    ensures Vertices(s) == [s[0].vertex] + Vertices(s[1..])
  {
    assert Vertices(s) == [s[0].vertex] + Vertices(s[1..]);
  }

  lemma {:induction false} InsertVertices(x: ScoredVertex, s: seq<ScoredVertex>)
    ensures multiset(Vertices(Insert(x, s, ComesFirst))) == multiset(Vertices(s)) + multiset{x.vertex}
    decreases |s|
  {
    if |s| == 0 {
    } else if ComesFirst(x, s[0]) {
      assert Vertices([x] + s) == [x.vertex] + Vertices(s);
    } else {
      InsertVertices(x, s[1..]);
      assert Vertices([s[0]] + Insert(x, s[1..], ComesFirst)) == [s[0].vertex] + Vertices(Insert(x, s[1..], ComesFirst));
      VerticesCons(s);
    }
  }

  /** Sorting rearranges the pairs, so it rearranges their vertices. */
  lemma {:induction false} SortVertices(s: seq<ScoredVertex>)
    ensures multiset(Vertices(Sort(s, ComesFirst))) == multiset(Vertices(s))
    decreases |s|
  {
    if |s| > 0 {
      SortVertices(s[1..]);
      InsertVertices(s[0], Sort(s[1..], ComesFirst));
      VerticesCons(s);
    }
  }

  /** The vertex ids 0, 1, ..., n - 1. */
  function Iota(n: nat): (r: seq<nat>)
    ensures |r| == n && forall i :: 0 <= i < n ==> r[i] == i
  {
    seq(n, i requires 0 <= i < n => i)
  }

  /** `order` lists every vertex below n exactly once. */
  predicate IsPermutation(order: seq<nat>, n: nat)
  {
    multiset(order) == multiset(Iota(n))
  }

  /** A permutation of the vertices has n entries, each a vertex, and every vertex appears. */
  lemma PermutationMembers(order: seq<nat>, n: nat)
    requires IsPermutation(order, n)
    ensures |order| == n
    ensures forall v: nat :: v in order <==> v < n
  {
    assert |order| == |multiset(order)| == |multiset(Iota(n))| == n;
    forall v: nat
      ensures v in order <==> v < n
    {
      assert v in order <==> v in multiset(order);
      if v < n {
        assert Iota(n)[v] == v;
      }
      assert v in multiset(Iota(n)) <==> v in Iota(n);
    }
  }

  /** Each vertex of `order` comes no later than the vertices after it. */
  predicate ByScore(scores: seq<nat>, order: seq<nat>)
  {
    forall i, j :: 0 <= i < j < |order| ==>
      order[i] < |scores| && order[j] < |scores| &&
      ComesFirst(ScoredVertex(scores[order[i]], order[i]), ScoredVertex(scores[order[j]], order[j]))
  }

  /** The scores paired with their vertices, as the filling loops build them. */
  function Pairs(scores: seq<nat>): (r: seq<ScoredVertex>)
    ensures |r| == |scores| && forall v :: 0 <= v < |scores| ==> r[v] == ScoredVertex(scores[v], v)
  {
    seq(|scores|, v requires 0 <= v < |scores| => ScoredVertex(scores[v], v))
  }

  /** The sort and the read-off loop shared by the overloads. */
  method OrderPairs(ghost scores: seq<nat>, pairs: seq<ScoredVertex>) returns (order: seq<nat>)
    requires pairs == Pairs(scores)
    ensures IsPermutation(order, |scores|) && ByScore(scores, order)
  {
    var sorted := Sort(pairs, ComesFirst);
    order := ReadOff(sorted);
    SortedOrder(scores);
  }

  /** The sorted pairs' vertices are a permutation of the vertices, in score order. */
  lemma SortedOrder(scores: seq<nat>)
    ensures IsPermutation(Vertices(Sort(Pairs(scores), ComesFirst)), |scores|)
    ensures ByScore(scores, Vertices(Sort(Pairs(scores), ComesFirst)))
  {
    var pairs := Pairs(scores);
    ComesFirstOrder();
    SortSorted(pairs, ComesFirst);
    SortVertices(pairs);
    assert Vertices(pairs) == Iota(|scores|);
    SortedPairsScored(scores);
  }

  /** Every sorted pair is still some vertex with its own score. */
  lemma SortedPairsScored(scores: seq<nat>)
    ensures forall k :: 0 <= k < |Sort(Pairs(scores), ComesFirst)| ==>
      Sort(Pairs(scores), ComesFirst)[k] in Pairs(scores)
    ensures forall p :: p in Pairs(scores) ==> p.vertex < |scores| && p == ScoredVertex(scores[p.vertex], p.vertex)
  {
    var pairs := Pairs(scores);
    var sorted := Sort(pairs, ComesFirst);
    SortSorted(pairs, ComesFirst);
    forall k | 0 <= k < |sorted|
      ensures sorted[k] in pairs
    {
      assert sorted[k] in multiset(sorted);
    }
  }

  /** The read-off loop: the vertex of every pair, in order. */
  method ReadOff(sorted: seq<ScoredVertex>) returns (order: seq<nat>)
    ensures order == Vertices(sorted)
  {
    order := seq(|sorted|, _ => 0);
    var i := 0;
    while i < |sorted|
      invariant 0 <= i <= |sorted| && |order| == |sorted|
      invariant forall k :: 0 <= k < i ==> order[k] == sorted[k].vertex
    {
      order := order[i := sorted[i].vertex];
      i := i + 1;
    }
  }

  /** calculateDegree for a DiGraph: its list sizes plus one, multiplied. */
  function CalculateDegree(g: DiGraph, v: nat): nat
    reads g
    requires v < |g.adj| && |g.reverseAdj| == |g.adj|
  {
    (|g.adj[v]| + 1) * (|g.reverseAdj[v]| + 1)
  }

  /** The score of every vertex of a DiGraph's lists. */
  function DiGraphScores(adj: seq<seq<nat>>, reverseAdj: seq<seq<nat>>): (r: seq<nat>)
    requires |reverseAdj| == |adj|
    ensures |r| == |adj| && forall v :: 0 <= v < |adj| ==> r[v] == DegreeScore(|adj[v]|, |reverseAdj[v]|)
  {
    seq(|adj|, v requires 0 <= v < |adj| => DegreeScore(|adj[v]|, |reverseAdj[v]|))
  }

  /** vertexOrderByDegree for a DiGraph. */
  method VertexOrderByDegree(g: DiGraph) returns (order: seq<nat>)
    requires |g.reverseAdj| == |g.adj|
    ensures IsPermutation(order, |g.adj|)
    ensures ByScore(DiGraphScores(g.adj, g.reverseAdj), order)
  {
    ghost var scores := DiGraphScores(g.adj, g.reverseAdj);
    var pairs := [];
    var i := 0;
    while i < |g.adj|
      invariant 0 <= i <= |g.adj|
      invariant pairs == Pairs(scores[..i])
    {
      pairs := pairs + [ScoredVertex(CalculateDegree(g, i), i)];
      i := i + 1;
    }
    assert scores[..i] == scores;
    order := OrderPairs(scores, pairs);
  }

  /** The score of a vertex of a LabeledEdgeGraph, from its two edge runs. */
  function LabeledScore(adj: seq<Edge>, reverseAdj: seq<Edge>, v: nat): nat
  {
    DegreeScore(|OutEdges(adj, v)|, |OutEdges(reverseAdj, v)|)
  }

  /** The score of every vertex below n. */
  function LabeledScores(adj: seq<Edge>, reverseAdj: seq<Edge>, n: nat): (r: seq<nat>)
    ensures |r| == n && forall v :: 0 <= v < n ==> r[v] == LabeledScore(adj, reverseAdj, v)
  {
    seq(n, v requires 0 <= v < n => LabeledScore(adj, reverseAdj, v))
  }

  /** Counting loop over an edge iterator from `initial`: `initial` plus the number of edges of `v` in `edges`. */
  method CountRun(it: EdgeIterator, ghost edges: seq<Edge>, ghost lookup: seq<nat>, ghost n: nat, v: nat, initial: nat)
    returns (total: nat)
    requires StrictlySortedBy(edges, EdgeLe) && lookup == Lookup(edges, n) && v < n
    requires forall e {:trigger e in edges} :: e in edges ==> e.source < n
    requires it.edges == edges && it.source == v && it.startIndex == lookup[v] && !it.started && it.Valid()
    modifies it
    ensures total == |OutEdges(edges, v)| + initial
  {
    ConnectedIsOutEdges(edges, lookup, n, v);
    ghost var start, run := lookup[v], RunLength(edges, lookup[v], v);
    total := initial;
    var more := it.Next();
    while more
      invariant it.edges == edges && it.source == v && it.startIndex == start && it.started
      invariant start <= it.currentIndex <= start + run
      invariant more ==> it.Valid() && it.IsValid()
      invariant more <==> it.currentIndex < start + run
      invariant total == initial + it.currentIndex - start
      decreases start + run - it.currentIndex
    {
      total := total + 1;
      more := it.Next();
    }
  }

  /**
   * calculateDegree for a LabeledEdgeGraph: count both runs with the
   * iterators. The product is taken exactly here; the 32-bit product of the
   * source is `DegreeScore32`.
   */
  method CalculateLabeledDegree(g: LabeledEdgeGraph, v: nat) returns (d: nat)
    requires g.Optimized() && v < g.vertexCount
    ensures d == LabeledScore(g.adj, g.reverseAdj, v)
  {
    var totalOutgoing := CountOutgoing(g, v);
    var totalIncoming := CountIncoming(g, v);
    d := totalIncoming * totalOutgoing;
    ScoreCommutes(totalOutgoing - 1, totalIncoming - 1);
  }

  /** The outgoing counter of calculateDegree. */
  method CountOutgoing(g: LabeledEdgeGraph, v: nat) returns (total: nat)
    requires g.Optimized() && v < g.vertexCount
    ensures total == |OutEdges(g.adj, v)| + 1
  {
    ConnectedIsOutEdges(g.adj, g.adjStartLookup, g.vertexCount, v);
    var it := g.GetConnected(v);
    total := CountRun(it, g.adj, g.adjStartLookup, g.vertexCount, v, 1);
  }

  /** The incoming counter of calculateDegree. */
  method CountIncoming(g: LabeledEdgeGraph, v: nat) returns (total: nat)
    requires g.Optimized() && v < g.vertexCount
    ensures total == |OutEdges(g.reverseAdj, v)| + 1
  {
    ConnectedIsOutEdges(g.reverseAdj, g.reverseAdjStartLookup, g.vertexCount, v);
    var it := g.GetReverseConnected(v);
    total := CountRun(it, g.reverseAdj, g.reverseAdjStartLookup, g.vertexCount, v, 1);
  }

  /** The LabeledEdgeGraph overload multiplies the incoming factor first; the product is the same. */
  lemma ScoreCommutes(outgoing: nat, incoming: nat)
    ensures (incoming + 1) * (outgoing + 1) == DegreeScore(outgoing, incoming)
  {
  }

  /** vertexOrderByDegree for a LabeledEdgeGraph. */
  method VertexOrderByDegreeLabeled(g: LabeledEdgeGraph) returns (order: seq<nat>)
    requires g.Optimized()
    ensures IsPermutation(order, g.vertexCount)
    ensures ByScore(LabeledScores(g.adj, g.reverseAdj, g.vertexCount), order)
  {
    ghost var scores := LabeledScores(g.adj, g.reverseAdj, g.vertexCount);
    var pairs := [];
    var i := 0;
    while i < g.vertexCount
      invariant 0 <= i <= g.vertexCount
      invariant pairs == Pairs(scores[..i])
    {
      var d := CalculateLabeledDegree(g, i);
      pairs := pairs + [ScoredVertex(d, i)];
      i := i + 1;
    }
    assert scores[..i] == scores;
    order := OrderPairs(scores, pairs);
  }
}
