/**
 * singleSourceReachable (src/algorithms/singleSourceReachable.cpp): the
 * breadth-first closure of one vertex, appended to the caller's vector in
 * the order the vertices are first visited.
 */
module SingleSourceReachable {
  import opened Paths
  import opened DiGraphs
  import opened ReachabilityBFS
  import opened Sorting

  /** The vertices recorded so far are exactly the visited ones, each once. */
  ghost predicate Recorded(adj: seq<seq<nat>>, visited: seq<bool>, found: seq<nat>)
    requires |visited| == |adj|
  {
    NoDuplicates(found) &&
    (forall i :: 0 <= i < |found| ==> found[i] < |adj|) &&
    (forall v :: 0 <= v < |adj| ==> (visited[v] <==> v in found))
  }

  /** Recording a newly visited vertex keeps `Recorded`. */
  lemma RecordVisit(adj: seq<seq<nat>>, visited: seq<bool>, found: seq<nat>, w: nat)
    requires |visited| == |adj| && Recorded(adj, visited, found) && w < |adj| && !visited[w]
    ensures Recorded(adj, visited[w := true], found + [w])
  {
    assert w !in found;
  }

  /**
   * Expanding one dequeued vertex: every unvisited successor is marked,
   * recorded and queued. The scan is that of reachabilityBFS with no
   * target, which `|adj|`, a vertex no list names, stands for.
   */
  method ExpandRecording(adj: seq<seq<nat>>, source: nat, u: nat, visited0: seq<bool>, queue0: seq<nat>, found0: seq<nat>)
    returns (visited: seq<bool>, queue: seq<nat>, found: seq<nat>)
    requires SearchState(adj, source, visited0, [u] + queue0) && Recorded(adj, visited0, found0)
    ensures SearchState(adj, source, visited, queue) && Recorded(adj, visited, found)
    ensures |found| >= |found0| && found[..|found0|] == found0
    ensures CountFalse(visited) < CountFalse(visited0) || (visited == visited0 && queue == queue0)
  {
    ScanStart(adj, source, |adj|, u, visited0, queue0);
    visited, queue, found := visited0, queue0, found0;
    for i := 0 to |adj[u]|
      invariant Scanning(adj, source, |adj|, u, visited0, queue0, i, visited, queue)
      invariant Recorded(adj, visited, found)
      invariant |found| >= |found0| && found[..|found0|] == found0
    {
      var w := adj[u][i];
      if !visited[w] {
        ScanVisit(adj, source, |adj|, u, visited0, queue0, i, visited, queue);
        RecordVisit(adj, visited, found, w);
        visited := visited[w := true];
        found := found + [w];
        queue := queue + [w];
      } else {
        ScanSkip(adj, source, |adj|, u, visited0, queue0, i, visited, queue);
      }
    }
    ScanDone(adj, source, |adj|, u, visited0, queue0, visited, queue);
  }

  /**
   * singleSourceReachable: `out` is kept and followed by the vertices
   * reachable from `source`, each exactly once, `source` first.
   */
  method SingleSourceReachableFrom(g: DiGraph, source: nat, out: seq<nat>) returns (r: seq<nat>)
    requires g.Valid() && source < |g.adj|
    ensures |r| > |out| && r[..|out|] == out && r[|out|] == source
    ensures NoDuplicates(r[|out|..])
    ensures forall v :: v in r[|out|..] <==> Reaches(Successor(g.adj), source, v)
  {
    var adj := g.adj;
    var visited := seq(|adj|, v => v == source);
    var queue: seq<nat> := [source];
    var found: seq<nat> := [source];
    SearchStart(adj, source, visited);
    while queue != []
      invariant SearchState(adj, source, visited, queue) && Recorded(adj, visited, found)
      invariant |found| > 0 && found[0] == source
      decreases CountFalse(visited), |queue|
    {
      visited, queue, found := ExpandRecording(adj, source, queue[0], visited, queue[1..], found);
    }
    forall v
      ensures v in found <==> Reaches(Successor(adj), source, v)
    {
      SearchComplete(adj, source, visited, v);
    }
    r := out + found;
    assert r[|out|..] == found;
  }
}
