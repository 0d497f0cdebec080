/**
 * LabeledEdgeGraph of src/graphs/LabeledEdgeGraph.hpp: the engine's main
 * graph representation. Edges are collected in `adj` (and mirrored in
 * `reverseAdj`); `optimize` sorts them by (source, target, label), drops
 * duplicates and records in `adjStartLookup[v]` where the edges of `v`
 * begin. The three iterator classes walk the edges of one vertex.
 */
module LabeledEdgeGraphs {
  import opened Sorting

  datatype Edge = Edge(source: nat, target: nat, lbl: nat)

  /** The order of `source_target_label_pred`, made reflexive. */
  predicate EdgeLe(a: Edge, b: Edge)
  {
    a.source < b.source ||
    (a.source == b.source && (a.target < b.target || (a.target == b.target && a.lbl <= b.lbl)))
  }

  lemma EdgeLeTotal()
    ensures TotalPreorder(EdgeLe) && Antisymmetric(EdgeLe)
  {
  }

  function Flip(e: Edge): Edge
  {
    Edge(e.target, e.source, e.lbl)
  }

  function FlipAll(edges: seq<Edge>): (r: seq<Edge>)
    ensures |r| == |edges| && forall i :: 0 <= i < |edges| ==> r[i] == Flip(edges[i])
  {
    seq(|edges|, i requires 0 <= i < |edges| => Flip(edges[i]))
  }

  /** What `optimize` makes of an edge list: sorted, each edge once. */
  function Normalize(edges: seq<Edge>): seq<Edge>
  {
    Dedupe(Sort(edges, EdgeLe))
  }

  lemma NormalizeSpec(edges: seq<Edge>)
    ensures StrictlySortedBy(Normalize(edges), EdgeLe)
    ensures forall e :: e in Normalize(edges) <==> e in edges
  {
    EdgeLeTotal();
    SortSorted(edges, EdgeLe);
    DedupeStrictlySorted(Sort(edges, EdgeLe), EdgeLe);
    SortDedupeElements(edges, EdgeLe);
  }

  /** The number of edges whose source is below v. */
  function CountBelow(edges: seq<Edge>, v: nat): (r: nat)
    ensures r <= |edges|
  {
    if |edges| == 0 then 0
    else CountBelow(edges[..|edges| - 1], v) + (if edges[|edges| - 1].source < v then 1 else 0)
  }

  /** In an edge list ordered by source, the edges below v form a prefix of length p. */
  lemma {:induction false} CountBelowPrefix(edges: seq<Edge>, v: nat, p: nat)
    requires p <= |edges|
    requires forall i :: 0 <= i < p ==> edges[i].source < v
    requires forall i :: p <= i < |edges| ==> edges[i].source >= v
    ensures CountBelow(edges, v) == p
    decreases |edges|
  {
    if |edges| > 0 {
      var init := edges[..|edges| - 1];
      if p == |edges| {
        CountBelowPrefix(init, v, p - 1);
      } else {
        CountBelowPrefix(init, v, p);
      }
    }
  }

  predicate SourceSorted(edges: seq<Edge>)
  {
    forall i, j :: 0 <= i < j < |edges| ==> edges[i].source <= edges[j].source
  }

  lemma SortedBySource(edges: seq<Edge>)
    requires SortedBy(edges, EdgeLe)
    ensures SourceSorted(edges)
  {
  }

  /** The lookup `optimize` builds: entry v is the first position of a source >= v. */
  function Lookup(edges: seq<Edge>, n: nat): (r: seq<nat>)
    ensures |r| == n && forall v :: 0 <= v < n ==> r[v] == CountBelow(edges, v)
  {
    seq(n, v requires 0 <= v < n => CountBelow(edges, v))
  }

  /** The edges leaving v, in list order. */
  function OutEdges(edges: seq<Edge>, v: nat): (r: seq<Edge>)
    ensures forall e {:trigger e in r} {:trigger e in edges} :: e in r <==> e in edges && e.source == v
  {
    if |edges| == 0 then []
    else OutEdges(edges[..|edges| - 1], v) + (if edges[|edges| - 1].source == v then [edges[|edges| - 1]] else [])
  }

  /** The number of edges carrying `label` (getEdgeCount(label)). */
  function CountLabel(edges: seq<Edge>, lbl: nat): (r: nat)
    ensures r <= |edges|
  {
    if |edges| == 0 then 0
    else CountLabel(edges[..|edges| - 1], lbl) + (if edges[|edges| - 1].lbl == lbl then 1 else 0)
  }

  /**
   * In a source-sorted list the edges of v are exactly the block that starts
   * at CountBelow(v) and ends at CountBelow(v + 1).
   */
  lemma {:induction false} BlockOfSource(edges: seq<Edge>, v: nat)
    requires SourceSorted(edges)
    ensures CountBelow(edges, v) <= CountBelow(edges, v + 1)
    ensures edges[CountBelow(edges, v)..CountBelow(edges, v + 1)] == OutEdges(edges, v)
    ensures forall i :: CountBelow(edges, v) <= i < CountBelow(edges, v + 1) ==> edges[i].source == v
    ensures CountBelow(edges, v + 1) < |edges| ==> edges[CountBelow(edges, v + 1)].source > v
    decreases |edges|
  {
    if |edges| > 0 {
      var init := edges[..|edges| - 1];
      var last := edges[|edges| - 1];
      assert SourceSorted(init);
      BlockOfSource(init, v);
      if last.source < v {
        BlockLastBelow(edges, init, last, v);
      } else if last.source == v {
        assert forall i :: 0 <= i < |init| ==> init[i].source <= v;
        BlockLastAt(edges, init, last, v);
      } else {
        BlockLastAbove(edges, init, last, v);
      }
    }
  }

  /** The last edge lies below v: v's block is empty and sits at the end. */
  lemma BlockLastBelow(edges: seq<Edge>, init: seq<Edge>, last: Edge, v: nat)
    requires SourceSorted(edges) && |edges| > 0
    requires init == edges[..|edges| - 1] && last == edges[|edges| - 1] && last.source < v
    ensures CountBelow(edges, v) == CountBelow(edges, v + 1) == |edges|
    ensures OutEdges(edges, v) == []
  {
    assert forall i :: 0 <= i < |edges| ==> edges[i].source <= last.source;
    CountBelowPrefix(edges, v, |edges|);
    CountBelowPrefix(edges, v + 1, |edges|);
    OutEdgesNone(edges, v);
  }

  lemma {:induction false} OutEdgesNone(edges: seq<Edge>, v: nat)
    requires forall i :: 0 <= i < |edges| ==> edges[i].source != v
    ensures OutEdges(edges, v) == []
  {
    if |edges| > 0 {
      OutEdgesNone(edges[..|edges| - 1], v);
    }
  }

  /** The last edge belongs to v: v's block grows by it. */
  lemma BlockLastAt(edges: seq<Edge>, init: seq<Edge>, last: Edge, v: nat)
    requires |edges| > 0 && forall i :: 0 <= i < |init| ==> init[i].source <= v
    requires init == edges[..|edges| - 1] && last == edges[|edges| - 1] && last.source == v
    requires CountBelow(init, v) <= CountBelow(init, v + 1)
    requires init[CountBelow(init, v)..CountBelow(init, v + 1)] == OutEdges(init, v)
    requires forall i :: CountBelow(init, v) <= i < CountBelow(init, v + 1) ==> init[i].source == v
    ensures CountBelow(edges, v) <= CountBelow(edges, v + 1)
    ensures edges[CountBelow(edges, v)..CountBelow(edges, v + 1)] == OutEdges(edges, v)
    ensures forall i :: CountBelow(edges, v) <= i < CountBelow(edges, v + 1) ==> edges[i].source == v
    ensures CountBelow(edges, v + 1) == |edges|
  {
    var a, b := CountBelow(init, v), CountBelow(init, v + 1);
    CountBelowPrefix(init, v + 1, |init|);
    assert CountBelow(edges, v) == a;
    assert CountBelow(edges, v + 1) == b + 1 == |edges|;
    assert edges[a..b + 1] == init[a..b] + [last];
    forall i | a <= i < b + 1
      ensures edges[i].source == v
    {
      if i < b {
        assert edges[i] == init[i];
      }
    }
  }

  /** The last edge lies above v: v's block is unchanged. */
  lemma BlockLastAbove(edges: seq<Edge>, init: seq<Edge>, last: Edge, v: nat)
    requires |edges| > 0
    requires init == edges[..|edges| - 1] && last == edges[|edges| - 1] && last.source > v
    requires CountBelow(init, v) <= CountBelow(init, v + 1)
    requires init[CountBelow(init, v)..CountBelow(init, v + 1)] == OutEdges(init, v)
    requires forall i :: CountBelow(init, v) <= i < CountBelow(init, v + 1) ==> init[i].source == v
    requires CountBelow(init, v + 1) < |init| ==> init[CountBelow(init, v + 1)].source > v
    ensures CountBelow(edges, v) <= CountBelow(edges, v + 1)
    ensures edges[CountBelow(edges, v)..CountBelow(edges, v + 1)] == OutEdges(edges, v)
    ensures forall i :: CountBelow(edges, v) <= i < CountBelow(edges, v + 1) ==> edges[i].source == v
    ensures CountBelow(edges, v + 1) < |edges| ==> edges[CountBelow(edges, v + 1)].source > v
  {
    var a, b := CountBelow(init, v), CountBelow(init, v + 1);
    assert CountBelow(edges, v) == a && CountBelow(edges, v + 1) == b;
    assert edges[a..b] == init[a..b];
    assert OutEdges(edges, v) == OutEdges(init, v);
    forall i | a <= i < b
      ensures edges[i].source == v
    {
      assert edges[i] == init[i];
    }
    if b < |init| {
      assert edges[b] == init[b];
    }
  }

  /** Summing the label counts over all labels counts every edge once. */
  lemma {:induction false} LabelCountsSum(edges: seq<Edge>, labelCount: nat)
    requires forall e {:trigger e in edges} :: e in edges ==> e.lbl < labelCount
    ensures SumCounts(edges, labelCount) == |edges|
    decreases |edges|
  {
    if |edges| == 0 {
      SumCountsEmpty(edges, labelCount);
    } else {
      var init := edges[..|edges| - 1];
      assert forall e :: e in init ==> e in edges;
      LabelCountsSum(init, labelCount);
      SumCountsSplit(edges, init, edges[|edges| - 1], labelCount);
      assert edges[|edges| - 1] in edges;
    }
  }

  function SumCounts(edges: seq<Edge>, n: nat): nat
  {
    if n == 0 then 0 else SumCounts(edges, n - 1) + CountLabel(edges, n - 1)
  }

  lemma {:induction false} SumCountsEmpty(edges: seq<Edge>, n: nat)
    requires |edges| == 0
    ensures SumCounts(edges, n) == 0
  {
    if n > 0 {
      SumCountsEmpty(edges, n - 1);
    }
  }

  lemma {:induction false} SumCountsSplit(edges: seq<Edge>, init: seq<Edge>, last: Edge, n: nat)
    requires |edges| > 0 && init == edges[..|edges| - 1] && last == edges[|edges| - 1]
    ensures SumCounts(edges, n) == SumCounts(init, n) + (if last.lbl < n then 1 else 0)
  {
    if n > 0 {
      SumCountsSplit(edges, init, last, n - 1);
    }
  }

  // ---------------------------------------------------------------------
  // Iterators
  // ---------------------------------------------------------------------

  /** The number of consecutive edges with source v starting at `start`. */
  function RunLength(edges: seq<Edge>, start: nat, v: nat): (r: nat)
    ensures start + r <= |edges| || r == 0
    ensures forall i :: start <= i < start + r ==> edges[i].source == v
    ensures start + r < |edges| ==> edges[start + r].source != v
    decreases |edges| - start
  {
    if start >= |edges| || edges[start].source != v then 0
    else 1 + RunLength(edges, start + 1, v)
  }

  /** From the start of v's block the run of v's edges is the whole block. */
  lemma RunIsBlock(edges: seq<Edge>, v: nat)
    requires SourceSorted(edges)
    ensures CountBelow(edges, v) + RunLength(edges, CountBelow(edges, v), v) == CountBelow(edges, v + 1)
  {
    BlockOfSource(edges, v);
    RunFromBlock(edges, v, CountBelow(edges, v), CountBelow(edges, v + 1));
  }

  lemma {:induction false} RunFromBlock(edges: seq<Edge>, v: nat, i: nat, b: nat)
    requires i <= b <= |edges|
    requires forall k :: i <= k < b ==> edges[k].source == v
    requires b < |edges| ==> edges[b].source != v
    ensures i + RunLength(edges, i, v) == b
    decreases b - i
  {
    if i < b {
      RunFromBlock(edges, v, i + 1, b);
    }
  }

  /** LabeledEdgeGraphIterator: walks the run of edges of one source. */
  class EdgeIterator {
    const edges: seq<Edge>
    const startIndex: nat
    const numTotal: nat
    const source: nat
    var currentIndex: nat
    var started: bool

    ghost predicate Valid()
      reads this
    {
      startIndex <= currentIndex <= startIndex + RunLength(edges, startIndex, source) &&
      (!started ==> currentIndex == startIndex)
    }

    constructor (edges: seq<Edge>, currentIndex: nat, numTotal: nat, source: nat)
      ensures this.edges == edges && this.startIndex == currentIndex && this.currentIndex == currentIndex
      ensures this.numTotal == numTotal && this.source == source && !started
      ensures Valid()
    {
      this.edges := edges;
      this.startIndex := currentIndex;
      this.currentIndex := currentIndex;
      this.numTotal := numTotal;
      this.source := source;
      started := false;
    }

    predicate IsValid()
      reads this
    {
      currentIndex < |edges| && edges[currentIndex].source == source
    }

    /**
     * next: the first call stays on the start position, later calls step
     * forward; the result says whether the position holds an edge of `source`,
     * i.e. whether it lies inside the run.
     */
    method Next() returns (r: bool)
      requires Valid() && (started ==> IsValid())
      modifies this
      ensures started
      ensures currentIndex == if old(started) then old(currentIndex) + 1 else old(currentIndex)
      ensures r == IsValid()
      ensures r <==> currentIndex < startIndex + RunLength(edges, startIndex, source)
      ensures r ==> Valid()
    {
      if started {
        currentIndex := currentIndex + 1;
      } else {
        started := true;
      }
      r := currentIndex < |edges| && edges[currentIndex].source == source;
    }

    /** reset: back to the state the constructor left. */
    method Reset()
      modifies this
      ensures currentIndex == startIndex && !started && Valid()
    {
      currentIndex := startIndex;
      started := false;
    }

    function Current(): (e: Edge)
      reads this
      requires currentIndex < |edges|
      ensures e == edges[currentIndex]
    {
      edges[currentIndex]
    }
  }

  /** LabeledEdgeGraphLabelIterator (unsorted-label build): edges of one source with one label. */
  class LabelIterator {
    const edges: seq<Edge>
    const source: nat
    const lbl: nat
    var currentIndex: nat
    var started: bool

    constructor (edges: seq<Edge>, currentIndex: nat, source: nat, lbl: nat)
      ensures this.edges == edges && this.currentIndex == currentIndex && !started
      ensures this.source == source && this.lbl == lbl
    {
      this.edges := edges;
      this.currentIndex := currentIndex;
      this.source := source;
      this.lbl := lbl;
      started := false;
    }

    predicate IsValid()
      reads this
    {
      currentIndex < |edges| && edges[currentIndex].source == source && edges[currentIndex].lbl == lbl
    }

    /**
     * next: step past the current edge (after the first call), then skip the
     * edges of `source` with another label. On true the iterator sits on the
     * first matching edge at or after the starting point, and every edge it
     * skipped belongs to `source` with a different label.
     */
    method Next() returns (r: bool)
      modifies this
      ensures started
      ensures currentIndex >= if old(started) then old(currentIndex) + 1 else old(currentIndex)
      ensures r == IsValid()
      ensures forall i :: old(currentIndex) <= i < currentIndex && (old(started) ==> i != old(currentIndex)) ==>
        i < |edges| && edges[i].source == source && edges[i].lbl != lbl
    {
      if started {
        currentIndex := currentIndex + 1;
      } else {
        started := true;
      }
      ghost var from := currentIndex;
      assert from == if old(started) then old(currentIndex) + 1 else old(currentIndex);
      while currentIndex < |edges| && edges[currentIndex].source == source && edges[currentIndex].lbl != lbl
        invariant from <= currentIndex && started
        invariant from < currentIndex ==> currentIndex <= |edges|
        invariant forall i :: from <= i < currentIndex ==>
          i < |edges| && edges[i].source == source && edges[i].lbl != lbl
        decreases |edges| - currentIndex
      {
        currentIndex := currentIndex + 1;
      }
      forall i | old(currentIndex) <= i < currentIndex && (old(started) ==> i != old(currentIndex))
        ensures i < |edges| && edges[i].source == source && edges[i].lbl != lbl
      {
        assert from <= i < currentIndex <= |edges|;
        assert edges[i].source == source;
      }
      r := IsValid();
    }
  }

  /** LabeledEdgeGraphLabelSetIterator: edges of one source whose label is in a set. */
  class LabelSetIterator {
    const edges: seq<Edge>
    const source: nat
    const labelSet: seq<bool>
    var currentIndex: nat
    var started: bool

    constructor (edges: seq<Edge>, currentIndex: nat, source: nat, labelSet: seq<bool>)
      ensures this.edges == edges && this.currentIndex == currentIndex && !started
      ensures this.source == source && this.labelSet == labelSet
    {
      this.edges := edges;
      this.currentIndex := currentIndex;
      this.source := source;
      this.labelSet := labelSet;
      started := false;
    }

    /** Every edge of `source` has a label inside the bitset (the bitset is indexed by it). */
    ghost predicate Valid()
      reads this
    {
      forall i :: currentIndex <= i < |edges| && edges[i].source == source ==> edges[i].lbl < |labelSet|
    }

    predicate IsValid()
      reads this
      requires Valid()
    {
      currentIndex < |edges| && edges[currentIndex].source == source && labelSet[edges[currentIndex].lbl]
    }

    method Next() returns (r: bool)
      requires Valid()
      modifies this
      ensures started && Valid()
      ensures currentIndex >= if old(started) then old(currentIndex) + 1 else old(currentIndex)
      ensures r == IsValid()
      ensures forall i :: old(currentIndex) <= i < currentIndex && (old(started) ==> i != old(currentIndex)) ==>
        i < |edges| && edges[i].source == source && edges[i].lbl < |labelSet| && !labelSet[edges[i].lbl]
      ensures !r ==> currentIndex >= |edges| || edges[currentIndex].source != source
    {
      if started {
        currentIndex := currentIndex + 1;
      } else {
        started := true;
      }
      ghost var from := currentIndex;
      assert from == if old(started) then old(currentIndex) + 1 else old(currentIndex);
      while currentIndex < |edges| && edges[currentIndex].source == source && !labelSet[edges[currentIndex].lbl]
        invariant from <= currentIndex && started && Valid()
        invariant from < currentIndex ==> currentIndex <= |edges|
        invariant forall i :: from <= i < currentIndex ==>
          i < |edges| && edges[i].source == source && edges[i].lbl < |labelSet| && !labelSet[edges[i].lbl]
        decreases |edges| - currentIndex
      {
        currentIndex := currentIndex + 1;
      }
      forall i | old(currentIndex) <= i < currentIndex && (old(started) ==> i != old(currentIndex))
        ensures i < |edges| && edges[i].source == source && edges[i].lbl < |labelSet| && !labelSet[edges[i].lbl]
      {
        assert from <= i < currentIndex <= |edges|;
        assert edges[i].source == source;
      }
      r := IsValid();
    }

    function Current(): (e: Edge)
      reads this
      requires currentIndex < |edges|
      ensures e == edges[currentIndex]
    {
      edges[currentIndex]
    }
  }

  // ---------------------------------------------------------------------
  // The graph
  // ---------------------------------------------------------------------

  class LabeledEdgeGraph {
    var adj: seq<Edge>
    var reverseAdj: seq<Edge>
    var adjStartLookup: seq<nat>
    var reverseAdjStartLookup: seq<nat>
    var vertexCount: nat
    var labelCount: nat

    /** Every edge stays inside the vertex and label ranges. */
    ghost predicate InRange()
      reads this
    {
      (forall e {:trigger e in adj} :: e in adj ==> e.source < vertexCount && e.target < vertexCount && e.lbl < labelCount) &&
      (forall e {:trigger e in reverseAdj} :: e in reverseAdj ==> e.source < vertexCount && e.target < vertexCount && e.lbl < labelCount)
    }

    /** The state `optimize` leaves: both lists sorted without duplicates, mirrored, with lookups. */
    ghost predicate Optimized()
      reads this
    {
      InRange() &&
      StrictlySortedBy(adj, EdgeLe) && StrictlySortedBy(reverseAdj, EdgeLe) &&
      (forall e :: e in reverseAdj <==> Flip(e) in adj) &&
      adjStartLookup == Lookup(adj, vertexCount) &&
      reverseAdjStartLookup == Lookup(reverseAdj, vertexCount)
    }

    constructor ()
      ensures adj == [] && reverseAdj == [] && adjStartLookup == [] && reverseAdjStartLookup == []
      ensures vertexCount == 0 && labelCount == 0
    {
      adj, reverseAdj := [], [];
      adjStartLookup, reverseAdjStartLookup := [], [];
      vertexCount, labelCount := 0, 0;
    }

    /** setSizes: lookups resized to the vertex count (new entries 0), counts stored. */
    method SetSizes(vertices: nat, labels: nat, edges: nat)
      modifies this
      ensures adj == old(adj) && reverseAdj == old(reverseAdj)
      ensures vertexCount == vertices && labelCount == labels
      ensures adjStartLookup == ResizeLookup(old(adjStartLookup), vertices)
      ensures reverseAdjStartLookup == ResizeLookup(old(reverseAdjStartLookup), vertices)
    {
      adjStartLookup := ResizeLookup(adjStartLookup, vertices);
      reverseAdjStartLookup := ResizeLookup(reverseAdjStartLookup, vertices);
      vertexCount := vertices;
      labelCount := labels;
    }

    /** addEdge: the edge goes to the end of `adj`, its mirror to the end of `reverseAdj`. */
    method AddEdge(source: nat, target: nat, lbl: nat)
      modifies this
      ensures adj == old(adj) + [Edge(source, target, lbl)]
      ensures reverseAdj == old(reverseAdj) + [Edge(target, source, lbl)]
      ensures adjStartLookup == old(adjStartLookup) && reverseAdjStartLookup == old(reverseAdjStartLookup)
      ensures vertexCount == old(vertexCount) && labelCount == old(labelCount)
    {
      adj := adj + [Edge(source, target, lbl)];
      reverseAdj := reverseAdj + [Edge(target, source, lbl)];
    }

    /** getEdgeCount(label): one pass over `adj`. */
    method GetEdgeCount(lbl: nat) returns (count: nat)
      ensures count == CountLabel(adj, lbl)
    {
      count := 0;
      var i := 0;
      while i < |adj|
        invariant 0 <= i <= |adj|
        invariant count == CountLabel(adj[..i], lbl)
      {
        assert adj[..i + 1][..i] == adj[..i];
        if adj[i].lbl == lbl {
          count := count + 1;
        }
        i := i + 1;
      }
      assert adj[..i] == adj;
    }

    /**
     * optimize: sort and deduplicate both lists, then fill the lookups. The
     * source writes `adjStartLookup[0]` and `adjStartLookup[source]` for every
     * edge, so it needs at least one vertex and every edge inside the range.
     */
    method Optimize()
      requires vertexCount > 0
      requires |adjStartLookup| == vertexCount && |reverseAdjStartLookup| == vertexCount
      requires InRange()
      modifies this
      ensures adj == Normalize(old(adj)) && reverseAdj == Normalize(old(reverseAdj))
      ensures adjStartLookup == Lookup(adj, vertexCount)
      ensures reverseAdjStartLookup == Lookup(reverseAdj, vertexCount)
      ensures vertexCount == old(vertexCount) && labelCount == old(labelCount)
      ensures InRange()
    {
      var forward, backward := adj, reverseAdj;
      NormalizeSpec(forward);
      NormalizeSpec(backward);
      forward := Normalize(forward);
      var forwardLookup := FillLookup(forward, adjStartLookup, vertexCount);
      backward := Normalize(backward);
      var backwardLookup := FillLookup(backward, reverseAdjStartLookup, vertexCount);
      adj, adjStartLookup, reverseAdj, reverseAdjStartLookup := forward, forwardLookup, backward, backwardLookup;
    }

    /**
     * getConnected(source): an iterator from the start of the vertex's block;
     * its size is the distance to the next vertex's start (or to the end of
     * `adj` for the last vertex).
     */
    method GetConnected(source: nat) returns (it: EdgeIterator)
      requires source < vertexCount && |adjStartLookup| == vertexCount
      requires adjStartLookup[source] <= |adj|
      requires source + 1 < vertexCount ==> adjStartLookup[source] <= adjStartLookup[source + 1]
      ensures fresh(it) && !it.started && it.Valid()
      ensures it.edges == adj && it.source == source
      ensures it.startIndex == it.currentIndex == adjStartLookup[source]
      ensures it.numTotal == if source == vertexCount - 1 then |adj| - adjStartLookup[source]
                             else adjStartLookup[source + 1] - adjStartLookup[source]
    {
      if source == vertexCount - 1 {
        it := new EdgeIterator(adj, adjStartLookup[source], |adj| - adjStartLookup[source], source);
      } else {
        it := new EdgeIterator(adj, adjStartLookup[source],
                               adjStartLookup[source + 1] - adjStartLookup[source], source);
      }
    }

    /** getReverseConnected(source): the same over `reverseAdj`. */
    method GetReverseConnected(source: nat) returns (it: EdgeIterator)
      requires source < vertexCount && |reverseAdjStartLookup| == vertexCount
      requires reverseAdjStartLookup[source] <= |reverseAdj|
      requires source + 1 < vertexCount ==> reverseAdjStartLookup[source] <= reverseAdjStartLookup[source + 1]
      ensures fresh(it) && !it.started && it.Valid()
      ensures it.edges == reverseAdj && it.source == source
      ensures it.startIndex == it.currentIndex == reverseAdjStartLookup[source]
      ensures it.numTotal == if source == vertexCount - 1 then |reverseAdj| - reverseAdjStartLookup[source]
                             else reverseAdjStartLookup[source + 1] - reverseAdjStartLookup[source]
    {
      if source == vertexCount - 1 {
        it := new EdgeIterator(reverseAdj, reverseAdjStartLookup[source],
                               |reverseAdj| - reverseAdjStartLookup[source], source);
      } else {
        it := new EdgeIterator(reverseAdj, reverseAdjStartLookup[source],
                               reverseAdjStartLookup[source + 1] - reverseAdjStartLookup[source], source);
      }
    }

    /** getConnected(source, label). */
    method GetConnectedWithLabel(source: nat, lbl: nat) returns (it: LabelIterator)
      requires source < |adjStartLookup|
      ensures fresh(it) && !it.started
      ensures it.edges == adj && it.source == source && it.lbl == lbl
      ensures it.currentIndex == adjStartLookup[source]
    {
      it := new LabelIterator(adj, adjStartLookup[source], source, lbl);
    }

    /** getConnected(source, labelSet). */
    method GetConnectedWithLabels(source: nat, labelSet: seq<bool>) returns (it: LabelSetIterator)
      requires source < |adjStartLookup|
      ensures fresh(it) && !it.started
      ensures it.edges == adj && it.source == source && it.labelSet == labelSet
      ensures it.currentIndex == adjStartLookup[source]
    {
      it := new LabelSetIterator(adj, adjStartLookup[source], source, labelSet);
    }
  }

  /** `std::vector<uint32_t>::resize`: existing entries kept, new entries 0. */
  function ResizeLookup(s: seq<nat>, n: nat): (r: seq<nat>)
    ensures |r| == n
    ensures forall i :: 0 <= i < n ==> r[i] == if i < |s| then s[i] else 0
  {
    if n <= |s| then s[..n] else s + seq(n - |s|, _ => 0)
  }

  /**
   * The lookup loop of optimize: for each edge, every vertex up to its source
   * that has no entry yet gets the edge's position; the vertices after the
   * last source get the edge count.
   */
  method FillLookup(edges: seq<Edge>, lookup: seq<nat>, vertexCount: nat) returns (r: seq<nat>)
    requires vertexCount > 0 && |lookup| == vertexCount
    requires StrictlySortedBy(edges, EdgeLe)
    requires forall e {:trigger e in edges} :: e in edges ==> e.source < vertexCount
    ensures r == Lookup(edges, vertexCount)
  {
    SortedBySource(edges);
    r := lookup;
    var currentSource := 0;
    var currentPointer := 0;
    r := r[currentSource := currentPointer];
    while currentPointer < |edges|
      invariant 0 <= currentPointer <= |edges|
      invariant |r| == vertexCount
      invariant currentSource <= vertexCount
      invariant currentPointer == 0 ==> currentSource == 0
      invariant currentPointer > 0 ==> currentSource == edges[currentPointer - 1].source + 1
      invariant forall v :: 0 <= v < currentSource ==> r[v] == CountBelow(edges, v)
    {
      var source := edges[currentPointer].source;
      assert edges[currentPointer] in edges;
      while source >= currentSource
        invariant currentSource <= source + 1 <= vertexCount
        invariant |r| == vertexCount
        invariant currentPointer == 0 || currentSource > edges[currentPointer - 1].source
        invariant forall v :: 0 <= v < currentSource ==> r[v] == CountBelow(edges, v)
      {
        CountBelowPrefix(edges, currentSource, currentPointer);
        r := r[currentSource := currentPointer];
        currentSource := currentSource + 1;
      }
      currentPointer := currentPointer + 1;
    }
    while currentSource < vertexCount
      invariant currentSource <= vertexCount && |r| == vertexCount
      invariant forall v :: 0 <= v < currentSource ==> r[v] == CountBelow(edges, v)
      invariant |edges| > 0 ==> currentSource > edges[|edges| - 1].source
    {
      CountBelowPrefix(edges, currentSource, |edges|);
      r := r[currentSource := currentPointer];
      currentSource := currentSource + 1;
    }
  }

  /** Every vertex's iterator range holds exactly its out-edges, and the ranges come in vertex order. */
  ghost predicate OutBlocks(g: seq<Edge>, lookup: seq<nat>, n: nat)
  {
    |lookup| == n &&
    forall v {:trigger RunLength(g, lookup[v], v)} :: 0 <= v < n ==>
      lookup[v] + RunLength(g, lookup[v], v) <= |g| &&
      g[lookup[v]..lookup[v] + RunLength(g, lookup[v], v)] == OutEdges(g, v) &&
      (v + 1 < n ==> lookup[v] <= lookup[v + 1])
  }

  /** After optimize, the lookup table delimits every vertex's out-edges. */
  lemma OutBlocksOfLookup(g: seq<Edge>, n: nat)
    requires StrictlySortedBy(g, EdgeLe)
    requires forall e {:trigger e in g} :: e in g ==> e.source < n
    ensures OutBlocks(g, Lookup(g, n), n)
  {
    var lookup := Lookup(g, n);
    forall v | 0 <= v < n
      ensures lookup[v] + RunLength(g, lookup[v], v) <= |g|
      ensures g[lookup[v]..lookup[v] + RunLength(g, lookup[v], v)] == OutEdges(g, v)
      ensures v + 1 < n ==> lookup[v] <= lookup[v + 1]
    {
      ConnectedIsOutEdges(g, lookup, n, v);
    }
  }

  /** After optimize, the iterator of v yields exactly v's edges, in order, and its size is their number. */
  lemma ConnectedIsOutEdges(g: seq<Edge>, lookup: seq<nat>, n: nat, v: nat)
    requires StrictlySortedBy(g, EdgeLe) && lookup == Lookup(g, n) && v < n
    requires forall e {:trigger e in g} :: e in g ==> e.source < n
    ensures lookup[v] + RunLength(g, lookup[v], v) <= |g|
    ensures g[lookup[v]..lookup[v] + RunLength(g, lookup[v], v)] == OutEdges(g, v)
    ensures lookup[v] + |OutEdges(g, v)| == if v == n - 1 then |g| else lookup[v + 1]
  {
    SortedBySource(g);
    BlockOfSource(g, v);
    RunIsBlock(g, v);
    if v == n - 1 {
      forall i | 0 <= i < |g|
        ensures g[i].source < v + 1
      {
        assert g[i] in g;
      }
      CountBelowPrefix(g, v + 1, |g|);
    }
  }
  /** Where the iterator of vertex v starts; past the last vertex, the end of the edge list. */
  function BlockStart(edges: seq<Edge>, lookup: seq<nat>, n: nat, v: nat): nat
    requires |lookup| == n
  {
    if v < n then lookup[v] else |edges|
  }

  /**
   * After optimize, the iterators of vertices 0, 1, ..., n - 1 walk the edge
   * list block after block: the first starts at 0 and each ends where the
   * next begins.
   */
  lemma BlocksTile(edges: seq<Edge>, lookup: seq<nat>, n: nat, v: nat)
    requires StrictlySortedBy(edges, EdgeLe) && lookup == Lookup(edges, n) && v < n
    requires forall e {:trigger e in edges} :: e in edges ==> e.source < n
    ensures BlockStart(edges, lookup, n, v) + RunLength(edges, lookup[v], v) == BlockStart(edges, lookup, n, v + 1)
    ensures BlockStart(edges, lookup, n, v + 1) <= |edges|
  {
    ConnectedIsOutEdges(edges, lookup, n, v);
  }

  lemma BlocksStart(edges: seq<Edge>, lookup: seq<nat>, n: nat)
    requires lookup == Lookup(edges, n) && n > 0
    ensures BlockStart(edges, lookup, n, 0) == 0
  {
    CountBelowPrefix(edges, 0, 0);
  }

  /** An edge is in the mirrored list iff its mirror is in the original. */
  lemma FlipAllMembers(edges: seq<Edge>)
    ensures forall e :: e in FlipAll(edges) <==> Flip(e) in edges
  {
    forall e
      ensures e in FlipAll(edges) <==> Flip(e) in edges
    {
      if e in FlipAll(edges) {
        var i :| 0 <= i < |edges| && FlipAll(edges)[i] == e;
        assert Flip(e) == edges[i];
      }
      if Flip(e) in edges {
        var i :| 0 <= i < |edges| && edges[i] == Flip(e);
        assert FlipAll(edges)[i] == e;
      }
    }
  }

  /** Optimizing a list and its mirror keeps them mirrors of each other. */
  lemma NormalizeMirror(edges: seq<Edge>)
    ensures forall e :: e in Normalize(FlipAll(edges)) <==> Flip(e) in Normalize(edges)
  {
    NormalizeSpec(edges);
    NormalizeSpec(FlipAll(edges));
    FlipAllMembers(edges);
  }

  /** Appending one edge appends its mirror. */
  lemma FlipAllSnoc(edges: seq<Edge>, e: Edge)
    ensures FlipAll(edges + [e]) == FlipAll(edges) + [Flip(e)]
  {
  }
}
