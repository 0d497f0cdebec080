/**
 * BFSIndex::query (src/lcrIndex/BFSIndex.cpp): the label-constrained
 * reachability ground truth. A breadth-first search from the source that
 * only follows edges whose label is in the query's label set.
 */
module BFSIndex {
  import opened Paths
  import opened Sorting
  import opened LabeledEdgeGraphs
  import opened Queries

  /** The edge's label is one of the allowed labels. */
  predicate Allowed(labels: seq<bool>, e: Edge)
  {
    e.lbl < |labels| && labels[e.lbl]
  }

  /** One step along an edge of `adj` whose label is allowed. */
  ghost function LabelStep(adj: seq<Edge>, labels: seq<bool>): (nat, nat) -> bool
  {
    (u: nat, w: nat) => exists e {:trigger e in adj} :: e in adj && e.source == u && e.target == w && Allowed(labels, e)
  }

  /** `dynamic_bitset::none`: no bit is set. */
  predicate NoneSet(labels: seq<bool>)
  {
    forall i :: 0 <= i < |labels| ==> !labels[i]
  }

  /** Every edge joins two vertices below n. */
  predicate EdgesIn(adj: seq<Edge>, n: nat)
  {
    forall e {:trigger e in adj} :: e in adj ==> e.source < n && e.target < n
  }

  /**
   * The search invariant: queued vertices are visited, visited vertices are
   * reachable from the source along allowed edges, and every allowed edge
   * leaving a visited vertex that has left the queue (other than `u`, being
   * expanded) ends at a visited vertex.
   */
  ghost predicate LabelSearch(adj: seq<Edge>, labels: seq<bool>, source: nat, visited: seq<bool>, queue: seq<nat>, u: int)
  {
    EdgesIn(adj, |visited|) && source < |visited| && visited[source] &&
    (forall i :: 0 <= i < |queue| ==> queue[i] < |visited| && visited[queue[i]]) &&
    (forall v :: 0 <= v < |visited| && visited[v] ==> Reaches(LabelStep(adj, labels), source, v)) &&
    (forall e {:trigger e in adj} :: e in adj && visited[e.source] && e.source !in queue && e.source != u && Allowed(labels, e) ==>
       visited[e.target])
  }

  /** The search starts with only the source visited and queued. */
  lemma LabelSearchStart(adj: seq<Edge>, labels: seq<bool>, source: nat, visited: seq<bool>)
    requires EdgesIn(adj, |visited|) && source < |visited| && visited == seq(|visited|, v => v == source)
    ensures LabelSearch(adj, labels, source, visited, [source], -1)
  {
    ReachesSelf(LabelStep(adj, labels), source);
  }

  /** With an empty queue, the visited vertices are exactly those reachable along allowed edges. */
  lemma LabelSearchComplete(adj: seq<Edge>, labels: seq<bool>, source: nat, visited: seq<bool>, t: nat)
    requires LabelSearch(adj, labels, source, visited, [], -1)
    ensures Reaches(LabelStep(adj, labels), source, t) <==> t < |visited| && visited[t]
  {
    var c := Marked(visited);
    forall u, w | u in c && LabelStep(adj, labels)(u, w)
      ensures w in c
    {
      var e :| e in adj && e.source == u && e.target == w && Allowed(labels, e);
    }
    if Reaches(LabelStep(adj, labels), source, t) {
      ClosedContainsReachable(LabelStep(adj, labels), c, source, t);
    }
  }

  /** Without any allowed label there is no step at all. */
  lemma NoStep(adj: seq<Edge>, labels: seq<bool>, u: nat, w: nat)
    requires NoneSet(labels)
    ensures !LabelStep(adj, labels)(u, w)
  {
    forall e | e in adj
      ensures !Allowed(labels, e)
    {
    }
  }

  /** Without any allowed label only the source itself is reachable. */
  lemma NoLabelsNoPath(adj: seq<Edge>, labels: seq<bool>, source: nat, target: nat)
    requires NoneSet(labels) && source != target
    ensures !Reaches(LabelStep(adj, labels), source, target)
  {
    forall u: nat, w: nat
      ensures !LabelStep(adj, labels)(u, w)
    {
      NoStep(adj, labels, u, w);
    }
    assert Closed(LabelStep(adj, labels), {source});
    if Reaches(LabelStep(adj, labels), source, target) {
      ClosedContainsReachable(LabelStep(adj, labels), {source}, source, target);
    }
  }

  /** Every allowed edge at a position in [lo, hi) ends at a visited vertex. */
  ghost predicate Scanned(adj: seq<Edge>, labels: seq<bool>, visited: seq<bool>, lo: nat, hi: nat)
  {
    forall k :: lo <= k < hi && k < |adj| && Allowed(labels, adj[k]) && adj[k].target < |visited| ==>
      visited[adj[k].target]
  }

  /**
   * The state of the expansion of `u` once the edges at positions
   * [start, cur) are handled: the search invariant with `u` expanded,
   * those edges scanned, `target` still unvisited, and progress since the
   * expansion began from `visitedStart` and `queueStart`.
   */
  ghost predicate Visiting(adj: seq<Edge>, labels: seq<bool>, source: nat, target: nat, u: nat, start: nat, cur: nat,
                           visitedStart: seq<bool>, queueStart: seq<nat>, visited: seq<bool>, queue: seq<nat>)
  {
    |visited| == |visitedStart| && u < |visited| && visited[u] &&
    LabelSearch(adj, labels, source, visited, queue, u) && Scanned(adj, labels, visited, start, cur) &&
    (target < |visited| ==> !visited[target]) &&
    (CountFalse(visited) < CountFalse(visitedStart) || (visited == visitedStart && queue == queueStart))
  }

  /**
   * One edge of the dequeued vertex `u`, at position `cur`: an edge with a
   * label outside the set is skipped; reaching the target ends the search;
   * a new endpoint is visited and enqueued.
   */
  method VisitEdge(adj: seq<Edge>, labels: seq<bool>, source: nat, target: nat, u: nat, ghost start: nat, ghost cur: nat,
                   e: Edge, ghost visitedStart: seq<bool>, ghost queueStart: seq<nat>, visited0: seq<bool>, queue0: seq<nat>)
    returns (found: bool, visited: seq<bool>, queue: seq<nat>)
    requires start <= cur < |adj| && e == adj[cur] && e.source == u
    requires Visiting(adj, labels, source, target, u, start, cur, visitedStart, queueStart, visited0, queue0)
    ensures found ==> Reaches(LabelStep(adj, labels), source, target)
    ensures !found ==> Visiting(adj, labels, source, target, u, start, cur + 1, visitedStart, queueStart, visited, queue)
  {
    visited, queue := visited0, queue0;
    assert e in adj;
    if !Allowed(labels, e) {
      return false, visited, queue;
    }
    if e.target == target {
      ReachesExtend(LabelStep(adj, labels), source, u, e.target);
      return true, visited, queue;
    }
    if !visited[e.target] {
      ReachesExtend(LabelStep(adj, labels), source, u, e.target);
      CountFalseSet(visited, e.target);
      visited := visited[e.target := true];
      queue := queue + [e.target];
    }
    found := false;
  }

  /**
   * The body of the search loop: dequeue `u` and walk the iterator over its
   * edges, handing each to `VisitEdge`.
   */
  method ExpandLabeled(g: LabeledEdgeGraph, labels: seq<bool>, source: nat, target: nat,
                       visited0: seq<bool>, queue1: seq<nat>)
    returns (found: bool, visited: seq<bool>, queue: seq<nat>)
    requires |queue1| > 0
    requires OutBlocks(g.adj, g.adjStartLookup, g.vertexCount)
    requires g.vertexCount == |visited0|
    requires LabelSearch(g.adj, labels, source, visited0, queue1, -1)
    requires target < |visited0| ==> !visited0[target]
    ensures found ==> Reaches(LabelStep(g.adj, labels), source, target)
    ensures !found ==> LabelSearch(g.adj, labels, source, visited, queue, -1) && |visited| == |visited0|
    ensures !found ==> (target < |visited| ==> !visited[target])
    ensures !found ==> CountFalse(visited) < CountFalse(visited0) || (visited == visited0 && queue == queue1[1..])
  {
    var adj := g.adj;
    var u := queue1[0];
    var queue0 := queue1[1..];
    visited, queue := visited0, queue0;
    ghost var run := RunLength(adj, g.adjStartLookup[u], u);
    VisitStart(adj, labels, source, target, g.adjStartLookup[u], visited0, queue1);
    var it := g.GetConnected(u);
    found, visited, queue := ScanEdges(it, labels, source, target, visited0, queue0);
  }

  /**
   * The iterator loop of the expansion of `it.source`, each edge handed to
   * `VisitEdge`; the iterator walks exactly the source's out-edges.
   */
  method ScanEdges(it: EdgeIterator, labels: seq<bool>, source: nat, target: nat, visited0: seq<bool>, queue0: seq<nat>)
    returns (found: bool, visited: seq<bool>, queue: seq<nat>)
    requires !it.started && it.Valid() && it.currentIndex == it.startIndex
    requires it.startIndex + RunLength(it.edges, it.startIndex, it.source) <= |it.edges|
    requires it.edges[it.startIndex..it.startIndex + RunLength(it.edges, it.startIndex, it.source)] ==
      OutEdges(it.edges, it.source)
    requires Visiting(it.edges, labels, source, target, it.source, it.startIndex, it.startIndex, visited0, queue0,
                      visited0, queue0)
    modifies it
    ensures found ==> Reaches(LabelStep(it.edges, labels), source, target)
    ensures !found ==> LabelSearch(it.edges, labels, source, visited, queue, -1) && |visited| == |visited0|
    ensures !found ==> (target < |visited| ==> !visited[target])
    ensures !found ==> CountFalse(visited) < CountFalse(visited0) || (visited == visited0 && queue == queue0)
  {
    visited, queue := visited0, queue0;
    ghost var run := RunLength(it.edges, it.startIndex, it.source);
    var more := it.Next();
    while more
      invariant it.started && it.startIndex <= it.currentIndex <= it.startIndex + run
      invariant more ==> it.Valid() && it.IsValid()
      invariant more <==> it.currentIndex < it.startIndex + run
      invariant Visiting(it.edges, labels, source, target, it.source, it.startIndex, it.currentIndex, visited0, queue0,
                         visited, queue)
      decreases it.startIndex + run - it.currentIndex
    {
      var e := it.Current();
      found, visited, queue := VisitEdge(it.edges, labels, source, target, it.source, it.startIndex, it.currentIndex, e,
                                         visited0, queue0, visited, queue);
      if found {
        return;
      }
      more := it.Next();
    }
    found := false;
    VisitDone(it.edges, labels, source, target, it.source, it.startIndex, run, visited0, queue0, visited, queue);
  }

  /** Dequeuing `u` starts its expansion. */
  lemma VisitStart(adj: seq<Edge>, labels: seq<bool>, source: nat, target: nat, start: nat,
                   visited0: seq<bool>, queue1: seq<nat>)
    requires |queue1| > 0 && LabelSearch(adj, labels, source, visited0, queue1, -1)
    requires target < |visited0| ==> !visited0[target]
    ensures Visiting(adj, labels, source, target, queue1[0], start, start, visited0, queue1[1..], visited0, queue1[1..])
  {
    assert queue1 == [queue1[0]] + queue1[1..];
  }

  /** Once u's whole block is handled, the search invariant holds again with `u` off the queue. */
  lemma VisitDone(adj: seq<Edge>, labels: seq<bool>, source: nat, target: nat, u: nat, start: nat, run: nat,
                  visited0: seq<bool>, queue0: seq<nat>, visited: seq<bool>, queue: seq<nat>)
    requires start + run <= |adj| && adj[start..start + run] == OutEdges(adj, u)
    requires Visiting(adj, labels, source, target, u, start, start + run, visited0, queue0, visited, queue)
    ensures LabelSearch(adj, labels, source, visited, queue, -1) && |visited| == |visited0|
    ensures target < |visited| ==> !visited[target]
    ensures CountFalse(visited) < CountFalse(visited0) || (visited == visited0 && queue == queue0)
  {
    ScannedBlock(adj, labels, visited, u, start, run);
  }

  /** Having scanned u's whole block, every allowed edge leaving u ends at a visited vertex. */
  lemma ScannedBlock(adj: seq<Edge>, labels: seq<bool>, visited: seq<bool>, u: nat, start: nat, run: nat)
    requires start + run <= |adj| && adj[start..start + run] == OutEdges(adj, u)
    requires Scanned(adj, labels, visited, start, start + run) && EdgesIn(adj, |visited|)
    ensures forall e {:trigger e in adj} :: e in adj && e.source == u && Allowed(labels, e) ==> visited[e.target]
  {
    forall e | e in adj && e.source == u && Allowed(labels, e)
      ensures visited[e.target]
    {
      assert e in adj[start..start + run];
      var k :| start <= k < start + run && adj[k] == e;
    }
  }

  /**
   * BFSIndex::query: a query from a vertex to itself holds; an empty label
   * set admits no path; otherwise the answer is whether the target can be
   * reached along edges whose labels are all in the set.
   */
  method Query(g: LabeledEdgeGraph, q: LCRQuery) returns (r: bool)
    requires g.Optimized() && q.source < g.vertexCount && |q.labelSet| == g.labelCount
    ensures r <==> Reaches(LabelStep(g.adj, q.labelSet), q.source, q.target)
    ensures q.source == q.target ==> r
    ensures q.source != q.target && NoneSet(q.labelSet) ==> !r
  {
    var source, target, labels := q.source, q.target, q.labelSet;
    if source == target {
      ReachesSelf(LabelStep(g.adj, labels), source);
      return true;
    }
    if NoneSet(labels) {
      NoLabelsNoPath(g.adj, labels, source, target);
      return false;
    }
    r := Search(g, labels, source, target);
  }

  /** The search loop of BFSIndex::query, from a source that differs from the target. */
  method Search(g: LabeledEdgeGraph, labels: seq<bool>, source: nat, target: nat) returns (r: bool)
    requires g.Optimized() && source < g.vertexCount && |labels| == g.labelCount && source != target
    ensures r <==> Reaches(LabelStep(g.adj, labels), source, target)
  {
    var visited := seq(g.vertexCount, v => v == source);
    var queue: seq<nat> := [source];
    LabelSearchStart(g.adj, labels, source, visited);
    OutBlocksOfLookup(g.adj, g.vertexCount);
    while queue != []
      invariant LabelSearch(g.adj, labels, source, visited, queue, -1) && |visited| == g.vertexCount
      invariant target < |visited| ==> !visited[target]
      decreases CountFalse(visited), |queue|
    {
      var found;
      found, visited, queue := ExpandLabeled(g, labels, source, target, visited, queue);
      if found {
        return true;
      }
    }
    LabelSearchComplete(g.adj, labels, source, visited, target);
    r := false;
  }
}
