/**
 * reachabilityBFS and singleSourceReachable (src/algorithms/reachabilityBFS.cpp,
 * src/algorithms/singleSourceReachable.cpp): breadth-first searches over a
 * DiGraph's successor lists with a visited bitset and a FIFO queue.
 */
module ReachabilityBFS {
  import opened Paths
  import opened DiGraphs

  /** The successor relation of a DiGraph's lists. */
  function Successor(adj: seq<seq<nat>>): (nat, nat) -> bool
  {
    (u: nat, w: nat) => u < |adj| && w in adj[u]
  }

  /** All successor lists name vertices of the graph. */
  predicate WellFormed(adj: seq<seq<nat>>)
  {
    forall u :: 0 <= u < |adj| ==> forall w :: w in adj[u] ==> w < |adj|
  }

  /** Every queued vertex is a visited vertex of the graph. */
  ghost predicate QueueVisited(adj: seq<seq<nat>>, visited: seq<bool>, queue: seq<nat>)
    requires |visited| == |adj|
  {
    forall i :: 0 <= i < |queue| ==> queue[i] < |adj| && visited[queue[i]]
  }

  /** Every visited vertex is reachable from the start. */
  ghost predicate Sound(adj: seq<seq<nat>>, source: nat, visited: seq<bool>)
    requires |visited| == |adj|
  {
    forall v :: 0 <= v < |adj| && visited[v] ==> Reaches(Successor(adj), source, v)
  }

  /** A visited vertex off the queue (other than `u`, being expanded) has all its successors visited. */
  ghost predicate ClosedExcept(adj: seq<seq<nat>>, visited: seq<bool>, queue: seq<nat>, u: int)
    requires WellFormed(adj) && |visited| == |adj|
  {
    forall v, w :: 0 <= v < |adj| && visited[v] && v !in queue && v != u && w in adj[v] ==> visited[w]
  }

  /**
   * The invariant the searches keep: every queued vertex is visited, every
   * visited vertex is reachable from the start, and a visited vertex that
   * has left the queue has all its successors visited.
   */
  ghost predicate SearchState(adj: seq<seq<nat>>, source: nat, visited: seq<bool>, queue: seq<nat>)
  {
    WellFormed(adj) && |visited| == |adj| && source < |adj| && visited[source] &&
    QueueVisited(adj, visited, queue) && Sound(adj, source, visited) && ClosedExcept(adj, visited, queue, -1)
  }

  /** Once the queue is empty, the visited vertices are exactly the reachable ones. */
  lemma SearchComplete(adj: seq<seq<nat>>, source: nat, visited: seq<bool>, t: nat)
    requires SearchState(adj, source, visited, [])
    ensures Reaches(Successor(adj), source, t) <==> t < |adj| && visited[t]
  {
    var c := Marked(visited);
    forall u, w | u in c && Successor(adj)(u, w)
      ensures w in c
    {
      assert w in adj[u];
    }
    if Reaches(Successor(adj), source, t) {
      ClosedContainsReachable(Successor(adj), c, source, t);
    }
  }

  /** The search starts with only the source visited and queued. */
  lemma SearchStart(adj: seq<seq<nat>>, source: nat, visited: seq<bool>)
    requires WellFormed(adj) && source < |adj| && visited == seq(|adj|, v => v == source)
    ensures SearchState(adj, source, visited, [source])
  {
    ReachesSelf(Successor(adj), source);
  }

  /**
   * The state of the scan of u's successor list after its first `i`
   * entries: the search invariant with `u` expanded, every scanned
   * successor visited, `target` still unvisited, and progress since the
   * scan began.
   */
  ghost predicate Scanning(adj: seq<seq<nat>>, source: nat, target: nat, u: nat, visited0: seq<bool>, queue0: seq<nat>,
                           i: nat, visited: seq<bool>, queue: seq<nat>)
  {
    WellFormed(adj) && |visited| == |adj| && source < |adj| && u < |adj| && i <= |adj[u]| &&
    (forall k :: 0 <= k < |adj[u]| ==> adj[u][k] < |adj|) && visited[source] && visited[u] &&
    QueueVisited(adj, visited, queue) && Sound(adj, source, visited) && ClosedExcept(adj, visited, queue, u) &&
    (forall k :: 0 <= k < i ==> visited[adj[u][k]]) &&
    (target < |adj| ==> !visited[target]) &&
    (CountFalse(visited) < CountFalse(visited0) || (visited == visited0 && queue == queue0))
  }

  /** Dequeuing `u` starts the scan. */
  lemma ScanStart(adj: seq<seq<nat>>, source: nat, target: nat, u: nat, visited0: seq<bool>, queue0: seq<nat>)
    requires SearchState(adj, source, visited0, [u] + queue0)
    requires target < |adj| ==> !visited0[target]
    ensures Scanning(adj, source, target, u, visited0, queue0, 0, visited0, queue0)
  {
    assert ([u] + queue0)[0] == u;
    assert forall k :: 0 <= k < |queue0| ==> queue0[k] == ([u] + queue0)[k + 1];
    assert forall k :: 0 <= k < |adj[u]| ==> adj[u][k] in adj[u];
  }

  /** An unvisited successor other than the target is marked and enqueued. */
  lemma ScanVisit(adj: seq<seq<nat>>, source: nat, target: nat, u: nat, visited0: seq<bool>, queue0: seq<nat>,
                  i: nat, visited: seq<bool>, queue: seq<nat>)
    requires Scanning(adj, source, target, u, visited0, queue0, i, visited, queue)
    requires i < |adj[u]| && adj[u][i] != target && !visited[adj[u][i]]
    ensures Scanning(adj, source, target, u, visited0, queue0, i + 1,
                     visited[adj[u][i] := true], queue + [adj[u][i]])
  {
    var w := adj[u][i];
    assert w in adj[u];
    ReachesExtend(Successor(adj), source, u, w);
    CountFalseSet(visited, w);
  }

  /** A visited successor changes nothing. */
  lemma ScanSkip(adj: seq<seq<nat>>, source: nat, target: nat, u: nat, visited0: seq<bool>, queue0: seq<nat>,
                 i: nat, visited: seq<bool>, queue: seq<nat>)
    requires Scanning(adj, source, target, u, visited0, queue0, i, visited, queue)
    requires i < |adj[u]| && visited[adj[u][i]]
    ensures Scanning(adj, source, target, u, visited0, queue0, i + 1, visited, queue)
  {
  }

  /** The target among u's successors is reachable. */
  lemma ScanFound(adj: seq<seq<nat>>, source: nat, target: nat, u: nat, visited0: seq<bool>, queue0: seq<nat>,
                  i: nat, visited: seq<bool>, queue: seq<nat>)
    requires Scanning(adj, source, target, u, visited0, queue0, i, visited, queue)
    requires i < |adj[u]| && adj[u][i] == target
    ensures Reaches(Successor(adj), source, target)
  {
    assert target in adj[u];
    ReachesExtend(Successor(adj), source, u, target);
  }

  /** A finished scan restores the search invariant, `u` having left the queue. */
  lemma ScanDone(adj: seq<seq<nat>>, source: nat, target: nat, u: nat, visited0: seq<bool>, queue0: seq<nat>,
                 visited: seq<bool>, queue: seq<nat>)
    requires u < |adj| && Scanning(adj, source, target, u, visited0, queue0, |adj[u]|, visited, queue)
    ensures SearchState(adj, source, visited, queue)
  {
    forall v, w | 0 <= v < |adj| && visited[v] && v !in queue && w in adj[v]
      ensures visited[w]
    {
      if v == u {
        var k :| 0 <= k < |adj[u]| && adj[u][k] == w;
      }
    }
  }

  /**
   * The body of the search loop for one dequeued vertex `u` of reachabilityBFS:
   * scan its successors; report `target` as soon as it is seen, otherwise
   * mark and enqueue every unvisited successor.
   */
  method Expand(adj: seq<seq<nat>>, source: nat, target: nat, u: nat, visited0: seq<bool>, queue0: seq<nat>)
    returns (found: bool, visited: seq<bool>, queue: seq<nat>)
    requires SearchState(adj, source, visited0, [u] + queue0)
    requires target < |adj| ==> !visited0[target]
    ensures found ==> Reaches(Successor(adj), source, target)
    ensures !found ==> SearchState(adj, source, visited, queue) && (target < |adj| ==> !visited[target])
    ensures !found ==> CountFalse(visited) < CountFalse(visited0) || (visited == visited0 && queue == queue0)
  {
    ScanStart(adj, source, target, u, visited0, queue0);
    visited, queue := visited0, queue0;
    for i := 0 to |adj[u]|
      invariant Scanning(adj, source, target, u, visited0, queue0, i, visited, queue)
    {
      var w := adj[u][i];
      if w == target {
        ScanFound(adj, source, target, u, visited0, queue0, i, visited, queue);
        return true, visited, queue;
      }
      if !visited[w] {
        ScanVisit(adj, source, target, u, visited0, queue0, i, visited, queue);
        visited := visited[w := true];
        queue := queue + [w];
      } else {
        ScanSkip(adj, source, target, u, visited0, queue0, i, visited, queue);
      }
    }
    ScanDone(adj, source, target, u, visited0, queue0, visited, queue);
    found := false;
  }

  /**
   * reachabilityBFS: true iff `target` can be reached from `source`. The
   * search stops as soon as `target` shows up in a successor list.
   */
  method ReachabilityBfs(g: DiGraph, source: nat, target: nat) returns (r: bool)
    requires g.Valid() && source < |g.adj|
    ensures r <==> Reaches(Successor(g.adj), source, target)
  {
    var adj := g.adj;
    if source == target {
      ReachesSelf(Successor(adj), source);
      return true;
    }
    var visited := seq(|adj|, v => v == source);
    var queue: seq<nat> := [source];
    SearchStart(adj, source, visited);
    while queue != []
      invariant SearchState(adj, source, visited, queue)
      invariant target < |adj| ==> !visited[target]
      decreases CountFalse(visited), |queue|
    {
      var found;
      found, visited, queue := Expand(adj, source, target, queue[0], visited, queue[1..]);
      if found {
        return true;
      }
    }
    SearchComplete(adj, source, visited, target);
    r := false;
  }
}
