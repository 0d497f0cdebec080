/**
 * PLLIndex (src/reachIndex/PLLIndex.cpp): pruned landmark labelling over the
 * component graph of the strongly connected components. Landmark number i
 * (the i-th vertex of the degree order) gives label i to every vertex its
 * pruned forward search reaches (`reachFrom`) and to every vertex its pruned
 * backward search reaches (`reachTo`). A query from component s to component
 * t holds when `reachTo[s]` and `reachFrom[t]` share a label.
 */
module PLL {
  import opened Paths
  import opened DiGraphs
  import opened ReachabilityBFS
  import opened VertexOrders

  /** Non-decreasing: what the two-cursor merge needs. */
  predicate Sorted(s: seq<nat>)
  {
    forall i, j :: 0 <= i < j < |s| ==> s[i] <= s[j]
  }

  /** Strictly increasing, as label lists are built. */
  predicate Increasing(s: seq<nat>)
  {
    forall i, j :: 0 <= i < j < |s| ==> s[i] < s[j]
  }

  /** The two label lists have a label in common. */
  predicate Meet(a: seq<nat>, b: seq<nat>)
  {
    exists x :: x in a && x in b
  }

  lemma MeetSymmetric(a: seq<nat>, b: seq<nat>)
    ensures Meet(a, b) == Meet(b, a)
  {
  }

  /**
   * isReachable: walk both lists with one cursor each, always advancing the
   * cursor at the smaller label; stop at the first common label.
   */
  method IsReachable(outgoing: seq<nat>, incoming: seq<nat>) returns (r: bool)
    ensures r ==> Meet(outgoing, incoming)
    ensures Sorted(outgoing) && Sorted(incoming) ==> (r <==> Meet(outgoing, incoming))
  {
    var outgoingIndex, incomingIndex := 0, 0;
    while outgoingIndex < |outgoing| && incomingIndex < |incoming|
      invariant 0 <= outgoingIndex <= |outgoing| && 0 <= incomingIndex <= |incoming|
      invariant Sorted(outgoing) && Sorted(incoming) ==>
        forall p, q :: 0 <= p < |outgoing| && 0 <= q < |incoming| && outgoing[p] == incoming[q] ==>
          outgoingIndex <= p && incomingIndex <= q
      decreases |outgoing| - outgoingIndex + |incoming| - incomingIndex
    {
      var outgoingLabel, incomingLabel := outgoing[outgoingIndex], incoming[incomingIndex];
      if outgoingLabel == incomingLabel {
        assert outgoingLabel in outgoing && incomingLabel in incoming;
        return true;
      }
      if outgoingLabel <= incomingLabel {
        outgoingIndex := outgoingIndex + 1;
      } else {
        incomingIndex := incomingIndex + 1;
      }
    }
    r := false;
  }

  /** No path from the landmark leads back into it. */
  ghost predicate NoReturn(adj: seq<seq<nat>>, landmark: nat)
  {
    forall u :: 0 <= u < |adj| && Reaches(Successor(adj), landmark, u) ==> landmark !in adj[u]
  }

  /** The graph has no cycle: no edge leads back to a vertex its target reaches. */
  ghost predicate Acyclic(adj: seq<seq<nat>>)
  {
    forall u, w :: 0 <= u < |adj| && w in adj[u] ==> !Reaches(Successor(adj), w, u)
  }

  lemma AcyclicNoReturn(adj: seq<seq<nat>>, landmark: nat)
    requires Acyclic(adj)
    ensures NoReturn(adj, landmark)
  {
  }

  /** Every edge goes from a higher to a lower index, as in the component graph. */
  ghost predicate TopologicallyOrdered(adj: seq<seq<nat>>)
  {
    forall u, w :: 0 <= u < |adj| && w in adj[u] ==> w < u
  }

  lemma {:induction false} OrderedPath(adj: seq<seq<nat>>, p: seq<nat>)
    requires TopologicallyOrdered(adj) && IsPath(Successor(adj), p)
    ensures p[|p| - 1] <= p[0]
    decreases |p|
  {
    if |p| > 1 {
      var q := p[..|p| - 1];
      assert IsPath(Successor(adj), q) by {
        forall i | 0 <= i < |q| - 1
          ensures Successor(adj)(q[i], q[i + 1])
        {
          assert q[i] == p[i] && q[i + 1] == p[i + 1];
        }
      }
      OrderedPath(adj, q);
      assert Successor(adj)(p[|p| - 2], p[|p| - 1]);
    }
  }

  /** In a topologically ordered graph nothing reaches a higher index: the `sourceComponent < targetComponent` shortcut of query. */
  lemma NoUpwardPath(adj: seq<seq<nat>>, s: nat, t: nat)
    requires TopologicallyOrdered(adj) && s < t
    ensures !Reaches(Successor(adj), s, t)
  {
    if Reaches(Successor(adj), s, t) {
      var p :| IsPath(Successor(adj), p) && p[0] == s && p[|p| - 1] == t;
      OrderedPath(adj, p);
    }
  }

  /** A topologically ordered graph has no cycle. */
  lemma OrderedAcyclic(adj: seq<seq<nat>>)
    requires TopologicallyOrdered(adj)
    ensures Acyclic(adj)
  {
    forall u, w | 0 <= u < |adj| && w in adj[u]
      ensures !Reaches(Successor(adj), w, u)
    {
      NoUpwardPath(adj, w, u);
    }
  }

  /**
   * The state of one pruned search after `end` enqueues and `start`
   * dequeues: `q` mirrors the queue, holds the landmark first and no vertex
   * twice, every later entry was unvisited before the search, and every
   * entry is reachable from the landmark.
   */
  ghost predicate QueueState(adj: seq<seq<nat>>, landmark: nat, before: seq<bool>, q: seq<nat>)
  {
    |q| >= 1 && q[0] == landmark &&
    (forall k1, k2 :: 0 <= k1 < k2 < |q| ==> q[k1] != q[k2]) &&
    (forall k :: 0 <= k < |q| ==> q[k] < |adj| && q[k] < |before| && Reaches(Successor(adj), landmark, q[k])) &&
    (forall k :: 1 <= k < |q| ==> q[k] != landmark && !before[q[k]])
  }

  /**
   * The visited bits during a search: set before the search, or set for a
   * queued vertex other than the landmark. The clear bits plus the queue
   * length never exceed the vertex count (one more while the landmark is
   * clear), so the fixed-size queue cannot overflow.
   */
  ghost predicate Marks(adj: seq<seq<nat>>, landmark: nat, before: seq<bool>, bits: seq<bool>, q: seq<nat>)
  {
    |bits| == |adj| == |before| && landmark < |adj| && QueueState(adj, landmark, before, q) &&
    bits[landmark] == before[landmark] &&
    (forall v {:trigger bits[v]} :: 0 <= v < |adj| ==> bits[v] == (before[v] || (v in q && v != landmark))) &&
    CountFalse(bits) + |q| <= |adj| + (if before[landmark] then 0 else 1)
  }

  /** Mark and enqueue one unvisited successor `vertex` of `u`. */
  method EnqueueOne(adj: seq<seq<nat>>, landmark: nat, u: nat, vertex: nat, visited: array<bool>, queue: array<nat>,
                    end0: nat, ghost q0: seq<nat>, ghost before: seq<bool>)
    returns (end: nat, ghost q: seq<nat>)
    requires visited.Length == queue.Length && u < |adj| && vertex in adj[u] && vertex < |adj|
    requires Marks(adj, landmark, before, visited[..], q0) && end0 == |q0| <= queue.Length && queue[..end0] == q0
    requires Reaches(Successor(adj), landmark, u) && (before[landmark] || NoReturn(adj, landmark))
    requires !visited[vertex]
    modifies visited, queue
    ensures end == end0 + 1 <= queue.Length && q == q0 + [vertex] && queue[..end] == q
    ensures visited[..] == old(visited[..])[vertex := true]
    ensures Marks(adj, landmark, before, visited[..], q)
  {
    MarksEnqueue(adj, landmark, u, vertex, before, visited[..], q0);
    visited[vertex] := true;
    queue[end0] := vertex;
    q := q0 + [vertex];
    end := end0 + 1;
    assert queue[..end] == q;
  }

  /** Marking an unvisited successor of a reached vertex and queueing it keeps `Marks`, and the queue had room. */
  lemma MarksEnqueue(adj: seq<seq<nat>>, landmark: nat, u: nat, vertex: nat, before: seq<bool>, bits: seq<bool>, q0: seq<nat>)
    requires u < |adj| && vertex in adj[u] && vertex < |adj|
    requires Marks(adj, landmark, before, bits, q0)
    requires Reaches(Successor(adj), landmark, u) && (before[landmark] || NoReturn(adj, landmark))
    requires !bits[vertex]
    ensures |q0| < |adj|
    ensures Marks(adj, landmark, before, bits[vertex := true], q0 + [vertex])
  {
    ReachesExtend(Successor(adj), landmark, u, vertex);
    assert vertex != landmark;
    CountFalseSet(bits, vertex);
    if !before[landmark] {
      CountFalseSet(bits[vertex := true], landmark);
    }
    forall k | 0 <= k < |q0|
      ensures q0[k] != vertex
    {
      assert bits[q0[k]] || q0[k] == landmark;
    }
    QueueStateEnqueue(adj, landmark, before, q0, vertex);
  }

  /** A reachable vertex that was unvisited before the search and is not queued extends the queue's state. */
  lemma QueueStateEnqueue(adj: seq<seq<nat>>, landmark: nat, before: seq<bool>, q0: seq<nat>, vertex: nat)
    requires QueueState(adj, landmark, before, q0)
    requires vertex < |adj| && vertex < |before| && Reaches(Successor(adj), landmark, vertex)
    requires vertex != landmark && !before[vertex] && forall k :: 0 <= k < |q0| ==> q0[k] != vertex
    ensures QueueState(adj, landmark, before, q0 + [vertex])
  {
  }

  /**
   * The state of the inner loop of prunedBFS after the first `i`
   * successors of `u`: the marks are consistent with the queue, the queue
   * and the bits only grew since `q0` and `bits0`, and the scanned
   * successors are visited.
   */
  ghost predicate Growing(adj: seq<seq<nat>>, landmark: nat, u: nat, before: seq<bool>, bits0: seq<bool>, bits: seq<bool>,
                          q0: seq<nat>, q: seq<nat>, i: nat)
  {
    Marks(adj, landmark, before, bits, q) && |q0| <= |q| && q[..|q0|] == q0 && |bits| == |bits0| &&
    (forall w :: 0 <= w < |bits| && bits0[w] ==> bits[w]) &&
    u < |adj| && i <= |adj[u]| && (forall k :: 0 <= k < i ==> adj[u][k] < |bits| && bits[adj[u][k]])
  }

  /** Enqueuing the next successor keeps `Growing`. */
  lemma GrowStep(adj: seq<seq<nat>>, landmark: nat, u: nat, before: seq<bool>, bits0: seq<bool>, bits: seq<bool>,
                 q0: seq<nat>, q: seq<nat>, i: nat, bits': seq<bool>, q': seq<nat>)
    requires Growing(adj, landmark, u, before, bits0, bits, q0, q, i) && i < |adj[u]| && adj[u][i] < |bits|
    requires bits' == bits[adj[u][i] := true] && q' == q + [adj[u][i]] && Marks(adj, landmark, before, bits', q')
    ensures Growing(adj, landmark, u, before, bits0, bits', q0, q', i + 1)
  {
    assert q'[..|q0|] == q[..|q0|];
  }

  /** A visited successor changes nothing. */
  lemma GrowSkip(adj: seq<seq<nat>>, landmark: nat, u: nat, before: seq<bool>, bits0: seq<bool>, bits: seq<bool>,
                 q0: seq<nat>, q: seq<nat>, i: nat)
    requires Growing(adj, landmark, u, before, bits0, bits, q0, q, i) && i < |adj[u]|
    requires adj[u][i] < |bits| && bits[adj[u][i]]
    ensures Growing(adj, landmark, u, before, bits0, bits, q0, q, i + 1)
  {
  }

  /** After the last successor, every successor of `u` is visited. */
  lemma GrowDone(adj: seq<seq<nat>>, landmark: nat, u: nat, before: seq<bool>, bits0: seq<bool>, bits: seq<bool>,
                 q0: seq<nat>, q: seq<nat>)
    requires u < |adj| && Growing(adj, landmark, u, before, bits0, bits, q0, q, |adj[u]|)
    ensures forall w :: w in adj[u] ==> w < |bits| && bits[w]
  {
    forall w | w in adj[u]
      ensures w < |bits| && bits[w]
    {
      var k :| 0 <= k < |adj[u]| && adj[u][k] == w;
    }
  }

  /**
   * The inner loop of prunedBFS for the dequeued vertex `u`: every
   * successor not yet visited is marked and enqueued.
   */
  method EnqueueNew(adj: seq<seq<nat>>, landmark: nat, u: nat, visited: array<bool>, queue: array<nat>,
                    end0: nat, ghost q0: seq<nat>, ghost before: seq<bool>)
    returns (end: nat, ghost q: seq<nat>)
    requires WellFormed(adj) && u < |adj| && visited.Length == queue.Length
    requires Marks(adj, landmark, before, visited[..], q0) && end0 == |q0| <= queue.Length && queue[..end0] == q0
    requires Reaches(Successor(adj), landmark, u) && (before[landmark] || NoReturn(adj, landmark))
    modifies visited, queue
    ensures end0 <= end == |q| <= queue.Length && queue[..end] == q && q[..end0] == q0
    ensures Marks(adj, landmark, before, visited[..], q)
    ensures forall w :: 0 <= w < visited.Length && old(visited[w]) ==> visited[w]
    ensures forall w :: w in adj[u] ==> w < visited.Length && visited[w]
  {
    end, q := end0, q0;
    ghost var bits0 := visited[..];
    assert forall k :: 0 <= k < |adj[u]| ==> adj[u][k] in adj[u];
    for i := 0 to |adj[u]|
      invariant end == |q| <= queue.Length && queue[..end] == q
      invariant Growing(adj, landmark, u, before, bits0, visited[..], q0, q, i)
    {
      var vertex := adj[u][i];
      if !visited[vertex] {
        ghost var bits, q1 := visited[..], q;
        end, q := EnqueueOne(adj, landmark, u, vertex, visited, queue, end, q, before);
        GrowStep(adj, landmark, u, before, bits0, bits, q0, q1, i, visited[..], q);
      } else {
        GrowSkip(adj, landmark, u, before, bits0, visited[..], q0, q, i);
      }
    }
    GrowDone(adj, landmark, u, before, bits0, visited[..], q0, q);
  }

  /**
   * The queue loop of prunedBFS (and, with `forward` false, of
   * reversePrunedBFS) over the lists `adj`. `fixed` is the landmark's own
   * list on the other side (`reachTo[landmark]`, resp. `reachFrom[landmark]`)
   * and `lists` the side that receives the label. A dequeued vertex whose
   * list already meets `fixed` is skipped; otherwise it gets the label and
   * its unvisited successors are enqueued.
   */
  method PrunedLoop(adj: seq<seq<nat>>, fixed: seq<nat>, lists: seq<seq<nat>>, forward: bool,
                    visited: array<bool>, queue: array<nat>, labelId: nat, landmark: nat, ghost before: seq<bool>)
    returns (r: seq<seq<nat>>, end: nat, ghost q: seq<nat>)
    requires WellFormed(adj) && |lists| == |adj| == visited.Length == queue.Length && landmark < |adj|
    requires Sorted(fixed) && forall v :: 0 <= v < |lists| ==> Sorted(lists[v])
    requires before == visited[..] && (before[landmark] || NoReturn(adj, landmark))
    requires queue[0] == landmark
    requires CountFalse(before) + 1 <= |adj| + (if before[landmark] then 0 else 1)
    modifies visited, queue
    ensures end == |q| <= queue.Length && queue[..end] == q
    ensures Marks(adj, landmark, before, visited[..], q)
    ensures |r| == |lists|
    ensures forall v {:trigger r[v]} :: 0 <= v < |r| ==> r[v] == if v in q && !Meet(fixed, lists[v]) then lists[v] + [labelId] else lists[v]
    ensures forall u, w {:trigger w in adj[u], u in q} :: u in q && !Meet(fixed, lists[u]) && w in adj[u] ==> w < visited.Length && visited[w]
  {
    var queueStartPtr, queueEndPtr := 0, 1;
    q := [landmark];
    ReachesSelf(Successor(adj), landmark);
    assert queue[..1] == q;
    r := lists;
    while queueStartPtr != queueEndPtr
      invariant queueStartPtr <= queueEndPtr == |q| <= queue.Length && queue[..queueEndPtr] == q
      invariant LoopState(adj, fixed, lists, labelId, landmark, before, visited[..], q, queueStartPtr, r)
      decreases queue.Length - queueStartPtr
    {
      queueStartPtr, queueEndPtr, r, q :=
        Dequeue(adj, fixed, lists, forward, visited, queue, labelId, landmark, before, queueStartPtr, queueEndPtr, r, q);
    }
    end := queueEndPtr;
    assert q[..queueStartPtr] == q;
    forall u, w | u in q && !Meet(fixed, lists[u]) && w in adj[u]
      ensures w < visited.Length && visited[w]
    {
      var k :| 0 <= k < |q| && q[k] == u;
    }
  }

  /**
   * The loop state of a pruned search after `start` dequeues: the marks,
   * the label given to exactly the dequeued vertices that were not pruned,
   * and their successors marked.
   */
  ghost predicate LoopState(adj: seq<seq<nat>>, fixed: seq<nat>, lists: seq<seq<nat>>, labelId: nat, landmark: nat,
                            before: seq<bool>, bits: seq<bool>, q: seq<nat>, start: nat, r: seq<seq<nat>>)
  {
    start <= |q| && Marks(adj, landmark, before, bits, q) && |r| == |lists| &&
    GotLabel(fixed, lists, labelId, q[..start], r) &&
    Expanded(adj, fixed, lists, q, start, bits)
  }

  /** Exactly the vertices of `done` whose list does not meet `fixed` have the label appended. */
  ghost predicate GotLabel(fixed: seq<nat>, lists: seq<seq<nat>>, labelId: nat, done: seq<nat>, r: seq<seq<nat>>)
  {
    |r| == |lists| &&
    forall v {:trigger r[v]} :: 0 <= v < |r| ==>
      r[v] == if v in done && !Meet(fixed, lists[v]) then lists[v] + [labelId] else lists[v]
  }

  /** Handling one more dequeued vertex keeps `GotLabel`. */
  lemma GotLabelStep(fixed: seq<nat>, lists: seq<seq<nat>>, labelId: nat, done: seq<nat>, r: seq<seq<nat>>,
                     source: nat, r': seq<seq<nat>>)
    requires GotLabel(fixed, lists, labelId, done, r) && source < |lists| && source !in done
    requires r' == if Meet(fixed, lists[source]) then r else r[source := lists[source] + [labelId]]
    ensures GotLabel(fixed, lists, labelId, done + [source], r')
  {
  }

  /** The vertex at the head of the queue has not been dequeued before and still holds its old list. */
  lemma HeadFacts(adj: seq<seq<nat>>, fixed: seq<nat>, lists: seq<seq<nat>>, labelId: nat, landmark: nat,
                  before: seq<bool>, bits: seq<bool>, q: seq<nat>, start: nat, r: seq<seq<nat>>)
    requires LoopState(adj, fixed, lists, labelId, landmark, before, bits, q, start, r) && start < |q|
    requires |lists| == |adj|
    ensures q[start] < |adj| && q[start] !in q[..start] && r[q[start]] == lists[q[start]]
  {
    forall k | 0 <= k < start
      ensures q[k] != q[start]
    {
    }
  }

  /** A pruned head leaves everything but the count of dequeued vertices as it was. */
  lemma PrunedStep(adj: seq<seq<nat>>, fixed: seq<nat>, lists: seq<seq<nat>>, labelId: nat, landmark: nat,
                   before: seq<bool>, bits: seq<bool>, q: seq<nat>, start: nat, r: seq<seq<nat>>)
    requires LoopState(adj, fixed, lists, labelId, landmark, before, bits, q, start, r) && start < |q|
    requires |lists| == |adj| && Meet(fixed, lists[q[start]])
    ensures LoopState(adj, fixed, lists, labelId, landmark, before, bits, q, start + 1, r)
  {
    HeadFacts(adj, fixed, lists, labelId, landmark, before, bits, q, start, r);
    assert q[..start + 1] == q[..start] + [q[start]];
    GotLabelStep(fixed, lists, labelId, q[..start], r, q[start], r);
    ExpandedStep(adj, fixed, lists, q, q, start, bits, bits);
  }

  /** A labelled head whose successors all got marked (and enqueued) keeps the loop state. */
  lemma LabelledStep(adj: seq<seq<nat>>, fixed: seq<nat>, lists: seq<seq<nat>>, labelId: nat, landmark: nat,
                     before: seq<bool>, bits: seq<bool>, q: seq<nat>, start: nat, r: seq<seq<nat>>,
                     bits': seq<bool>, q': seq<nat>, r': seq<seq<nat>>)
    requires LoopState(adj, fixed, lists, labelId, landmark, before, bits, q, start, r) && start < |q|
    requires |lists| == |adj| && !Meet(fixed, lists[q[start]])
    requires r' == r[q[start] := r[q[start]] + [labelId]]
    requires Marks(adj, landmark, before, bits', q') && |q| <= |q'| && q'[..|q|] == q
    requires |bits'| == |bits| && forall v :: 0 <= v < |bits| && bits[v] ==> bits'[v]
    requires forall w :: w in adj[q[start]] ==> w < |bits'| && bits'[w]
    ensures LoopState(adj, fixed, lists, labelId, landmark, before, bits', q', start + 1, r')
  {
    HeadFacts(adj, fixed, lists, labelId, landmark, before, bits, q, start, r);
    assert q[..start + 1] == q[..start] + [q[start]];
    assert q'[..start + 1] == q[..start + 1];
    GotLabelStep(fixed, lists, labelId, q[..start], r, q[start], r');
    ExpandedStep(adj, fixed, lists, q, q', start, bits, bits');
  }

  /** One iteration of the queue loop: dequeue, test, label and expand. */
  method Dequeue(adj: seq<seq<nat>>, fixed: seq<nat>, lists: seq<seq<nat>>, forward: bool,
                 visited: array<bool>, queue: array<nat>, labelId: nat, landmark: nat, ghost before: seq<bool>,
                 start0: nat, end0: nat, r0: seq<seq<nat>>, ghost q0: seq<nat>)
    returns (start: nat, end: nat, r: seq<seq<nat>>, ghost q: seq<nat>)
    requires WellFormed(adj) && |lists| == |adj| == visited.Length == queue.Length
    requires Sorted(fixed) && forall v :: 0 <= v < |lists| ==> Sorted(lists[v])
    requires start0 < end0 == |q0| <= queue.Length && queue[..end0] == q0
    requires LoopState(adj, fixed, lists, labelId, landmark, before, visited[..], q0, start0, r0)
    requires before[landmark] || NoReturn(adj, landmark)
    modifies visited, queue
    ensures start == start0 + 1 && start <= end == |q| <= queue.Length && queue[..end] == q
    ensures LoopState(adj, fixed, lists, labelId, landmark, before, visited[..], q, start, r)
  {
    end, r, q := end0, r0, q0;
    var source := queue[start0];
    assert source == q0[start0];
    HeadFacts(adj, fixed, lists, labelId, landmark, before, visited[..], q0, start0, r0);
    start := start0 + 1;
    var pruned;
    if forward {
      pruned := IsReachable(fixed, r[source]);
    } else {
      pruned := IsReachable(r[source], fixed);
    }
    if pruned {
      PrunedStep(adj, fixed, lists, labelId, landmark, before, visited[..], q0, start0, r0);
      return;
    }
    ghost var bits0 := visited[..];
    r := r[source := r[source] + [labelId]];
    end, q := EnqueueNew(adj, landmark, source, visited, queue, end, q, before);
    LabelledStep(adj, fixed, lists, labelId, landmark, before, bits0, q0, start0, r0, visited[..], q, r);
  }

  /** Every dequeued vertex that was not pruned has all its successors marked. */
  ghost predicate Expanded(adj: seq<seq<nat>>, fixed: seq<nat>, lists: seq<seq<nat>>, q: seq<nat>, n: nat, bits: seq<bool>)
  {
    n <= |q| &&
    forall k, w {:trigger w in adj[q[k]]} :: 0 <= k < n && q[k] < |adj| && q[k] < |lists| && !Meet(fixed, lists[q[k]]) && w in adj[q[k]] ==>
      w < |bits| && bits[w]
  }

  /** Dequeuing q[n] keeps `Expanded` when it was pruned or all its successors got marked. */
  lemma ExpandedStep(adj: seq<seq<nat>>, fixed: seq<nat>, lists: seq<seq<nat>>, q: seq<nat>, q': seq<nat>, n: nat,
                     bits: seq<bool>, bits': seq<bool>)
    requires Expanded(adj, fixed, lists, q, n, bits) && n < |q| <= |q'| && q'[..n + 1] == q[..n + 1]
    requires |bits| == |bits'| && forall v :: 0 <= v < |bits| && bits[v] ==> bits'[v]
    requires q[n] < |adj| && q[n] < |lists|
    requires Meet(fixed, lists[q[n]]) || forall w :: w in adj[q[n]] ==> w < |bits'| && bits'[w]
    ensures Expanded(adj, fixed, lists, q', n + 1, bits')
  {
    forall k, w | 0 <= k < n + 1 && q'[k] < |adj| && q'[k] < |lists| && !Meet(fixed, lists[q'[k]]) && w in adj[q'[k]]
      ensures w < |bits'| && bits'[w]
    {
      assert q'[k] == q[k];
    }
  }

  /** The reset loop of prunedBFS: clear the visited bit of every queued vertex. */
  method ResetVisited(visited: array<bool>, queue: array<nat>, end: nat)
    requires end <= queue.Length && forall k :: 0 <= k < end ==> queue[k] < visited.Length
    modifies visited
    ensures forall v :: 0 <= v < visited.Length ==> visited[v] == (old(visited[v]) && v !in queue[..end])
  {
    for i := 0 to end
      invariant forall v :: 0 <= v < visited.Length ==> visited[v] == (old(visited[v]) && v !in queue[..i])
    {
      assert queue[..i + 1] == queue[..i] + [queue[i]];
      visited[queue[i]] := false;
    }
  }

  /**
   * One pruned search from `landmark` with label `label`, start to reset.
   * `r` is the new receiving side; the vertices that received the label are
   * exactly the enqueued ones (`q`) whose list did not already meet `fixed`.
   * Afterwards the visited bits are as before, except that the landmark's is
   * clear.
   */
  method PrunedSearch(adj: seq<seq<nat>>, fixed: seq<nat>, lists: seq<seq<nat>>, forward: bool,
                      visited: array<bool>, queue: array<nat>, labelId: nat, landmark: nat)
    returns (r: seq<seq<nat>>, ghost q: seq<nat>)
    requires WellFormed(adj) && |lists| == |adj| == visited.Length == queue.Length && landmark < |adj|
    requires Sorted(fixed) && forall v :: 0 <= v < |lists| ==> Sorted(lists[v])
    requires visited[landmark] || NoReturn(adj, landmark)
    modifies visited, queue
    ensures |r| == |lists| && landmark in q
    ensures forall v :: v in q ==> v < |adj| && Reaches(Successor(adj), landmark, v)
    ensures forall v {:trigger r[v]} :: 0 <= v < |r| ==> r[v] == if v in q && !Meet(fixed, lists[v]) then lists[v] + [labelId] else lists[v]
    ensures forall u, w {:trigger w in adj[u], u in q} :: u in q && !Meet(fixed, lists[u]) && w in adj[u] ==> w in q || old(visited[w])
    ensures forall v :: 0 <= v < visited.Length ==> visited[v] == (old(visited[v]) && v != landmark)
  {
    ghost var before := visited[..];
    if visited[landmark] {
      CountFalseBelow(before, landmark);
    }
    queue[0] := landmark;
    var end;
    r, end, q := PrunedLoop(adj, fixed, lists, forward, visited, queue, labelId, landmark, before);
    assert q[0] == landmark;
    forall k | 0 <= k < end
      ensures queue[k] < visited.Length
    {
      assert queue[k] == q[k];
    }
    ghost var searched := visited[..];
    ResetVisited(visited, queue, end);
    forall u, w | u in q && !Meet(fixed, lists[u]) && w in adj[u]
      ensures w in q || before[w]
    {
      assert WellFormed(adj);
      assert searched[w];
    }
  }

  class PLLIndex {
    /** The component graph of the strongly connected components. */
    const graph: DiGraph
    /** The component of every original vertex. */
    const vertexMapping: seq<nat>
    var reachTo: seq<seq<nat>>
    var reachFrom: seq<seq<nat>>
    /** landmarks[i] is the vertex that issued label i. */
    ghost var landmarks: seq<nat>

    constructor (graph: DiGraph, vertexMapping: seq<nat>)
      ensures this.graph == graph && this.vertexMapping == vertexMapping
      ensures reachTo == [] && reachFrom == [] && landmarks == []
    {
      this.graph := graph;
      this.vertexMapping := vertexMapping;
      reachTo, reachFrom := [], [];
      landmarks := [];
    }

    /**
     * The labelling invariant: one list pair per component; every list is
     * strictly increasing with labels below `issued`; a label i in
     * `reachFrom[v]` means landmark i reaches v, and in `reachTo[v]` that v
     * reaches landmark i.
     */
    ghost predicate Labelled(issued: nat)
      reads this, graph
    {
      |reachTo| == |reachFrom| == |graph.adj| && issued <= |landmarks| &&
      (forall v :: 0 <= v < |reachTo| ==> Increasing(reachTo[v]) && Increasing(reachFrom[v])) &&
      (forall v, x {:trigger x in reachFrom[v]} :: 0 <= v < |reachFrom| && x in reachFrom[v] ==>
         x < issued && Reaches(Successor(graph.adj), landmarks[x], v)) &&
      (forall v, x {:trigger x in reachTo[v]} :: 0 <= v < |reachTo| && x in reachTo[v] ==>
         x < issued && Reaches(Successor(graph.adj), v, landmarks[x]))
    }

    /** prunedBFS: label `label` spreads forward from `landmark` into `reachFrom`. */
    method PrunedBFS(visited: array<bool>, queue: array<nat>, labelId: nat, landmark: nat)
      requires graph.Valid() && Acyclic(graph.adj) && landmark < |graph.adj|
      requires Labelled(labelId) && labelId < |landmarks| && landmarks[labelId] == landmark
      requires visited.Length == queue.Length == |graph.adj|
      modifies this`reachFrom, visited, queue
      ensures reachTo == old(reachTo) && Labelled(labelId + 1)
      ensures forall v :: 0 <= v < |reachFrom| ==>
        reachFrom[v] == old(reachFrom[v]) || (reachFrom[v] == old(reachFrom[v]) + [labelId] && !Meet(reachTo[landmark], old(reachFrom[v])))
      ensures labelId in reachFrom[landmark] || Meet(reachTo[landmark], old(reachFrom[landmark]))
      ensures forall v :: 0 <= v < visited.Length ==> visited[v] == (old(visited[v]) && v != landmark)
    {
      AcyclicNoReturn(graph.adj, landmark);
      SortedLists(labelId);
      var r;
      ghost var q;
      r, q := PrunedSearch(graph.adj, reachTo[landmark], reachFrom, true, visited, queue, labelId, landmark);
      reachFrom := r;
      AppendKeepsLabels(old(reachFrom), r, labelId);
      forall v, x | 0 <= v < |reachFrom| && x in reachFrom[v]
        ensures x < labelId + 1 && Reaches(Successor(graph.adj), landmarks[x], v)
      {
        if x !in old(reachFrom)[v] {
          assert x == labelId && v in q;
        }
      }
    }

    /** reversePrunedBFS: label `label` spreads backward from `landmark` into `reachTo`. */
    method ReversePrunedBFS(visited: array<bool>, queue: array<nat>, labelId: nat, landmark: nat)
      requires graph.Valid() && Acyclic(graph.adj) && landmark < |graph.adj|
      requires Labelled(labelId + 1) && labelId < |landmarks| && landmarks[labelId] == landmark
      requires forall v :: 0 <= v < |reachTo| ==> forall x :: x in reachTo[v] ==> x < labelId
      requires visited.Length == queue.Length == |graph.adj|
      modifies this`reachTo, visited, queue
      ensures reachFrom == old(reachFrom) && Labelled(labelId + 1)
      ensures forall v :: 0 <= v < |reachTo| ==>
        reachTo[v] == old(reachTo[v]) || (reachTo[v] == old(reachTo[v]) + [labelId] && !Meet(old(reachTo[v]), reachFrom[landmark]))
      ensures labelId in reachTo[landmark] || Meet(old(reachTo[landmark]), reachFrom[landmark])
      ensures forall v :: 0 <= v < visited.Length ==> visited[v] == (old(visited[v]) && v != landmark)
    {
      ReverseNoReturn(landmark);
      SortedLists(labelId + 1);
      var r;
      ghost var q;
      r, q := PrunedSearch(graph.reverseAdj, reachFrom[landmark], reachTo, false, visited, queue, labelId, landmark);
      QueueReachesLandmark(q, landmark);
      BackwardLabels(graph.adj, reachTo, r, q, reachFrom[landmark], labelId, landmark, landmarks);
      AppendKeepsLabels(reachTo, r, labelId);
      reachTo := r;
    }

    /** The lists a backward search leaves: the new label is on reached vertices only, each of which reaches the landmark. */
    static lemma BackwardLabels(adj: seq<seq<nat>>, lists: seq<seq<nat>>, r: seq<seq<nat>>, q: seq<nat>, fixed: seq<nat>,
                                labelId: nat, landmark: nat, landmarks: seq<nat>)
      requires labelId < |landmarks| && landmarks[labelId] == landmark && landmark < |r| && landmark in q
      requires |r| == |lists| && forall v {:trigger r[v]} :: 0 <= v < |r| ==>
        r[v] == if v in q && !Meet(fixed, lists[v]) then lists[v] + [labelId] else lists[v]
      requires forall v :: v in q ==> Reaches(Successor(adj), v, landmark)
      requires forall v, x {:trigger x in lists[v]} :: 0 <= v < |lists| && x in lists[v] ==>
        x < labelId + 1 && Reaches(Successor(adj), v, landmarks[x])
      ensures forall v, x {:trigger x in r[v]} :: 0 <= v < |r| && x in r[v] ==>
        x < labelId + 1 && Reaches(Successor(adj), v, landmarks[x])
      ensures forall v :: 0 <= v < |r| ==> r[v] == lists[v] || (r[v] == lists[v] + [labelId] && !Meet(lists[v], fixed))
      ensures labelId in r[landmark] || Meet(lists[landmark], fixed)
    {
      forall v, x | 0 <= v < |r| && x in r[v]
        ensures x < labelId + 1 && Reaches(Successor(adj), v, landmarks[x])
      {
        if x !in lists[v] {
          assert x == labelId && v in q;
        }
      }
      forall v | 0 <= v < |r|
        ensures Meet(fixed, lists[v]) == Meet(lists[v], fixed)
      {
        MeetSymmetric(lists[v], fixed);
      }
    }

    /** What the backward search reached reaches the landmark. */
    lemma QueueReachesLandmark(q: seq<nat>, landmark: nat)
      requires graph.Valid() && forall v :: v in q ==> Reaches(Successor(graph.reverseAdj), landmark, v)
      ensures forall v :: v in q ==> Reaches(Successor(graph.adj), v, landmark)
    {
      ConverseSteps();
      forall v | v in q
        ensures Reaches(Successor(graph.adj), v, landmark)
      {
        ReachesConverse(Successor(graph.adj), Successor(graph.reverseAdj), landmark, v);
      }
    }

    /** Increasing lists are sorted, as the merge needs. */
    lemma SortedLists(issued: nat)
      requires Labelled(issued)
      ensures forall v :: 0 <= v < |reachTo| ==> Sorted(reachTo[v]) && Sorted(reachFrom[v])
    {
    }

    /** The reverse lists are the converse relation of the forward lists. */
    lemma ConverseSteps()
      requires graph.Valid()
      ensures forall u, w :: Successor(graph.reverseAdj)(u, w) ==> Successor(graph.adj)(w, u)
    {
      forall u: nat, w: nat | Successor(graph.reverseAdj)(u, w)
        ensures Successor(graph.adj)(w, u)
      {
        assert w in graph.reverseAdj[u];
      }
    }

    /** In a graph without cycles, no backward path returns to the landmark either. */
    lemma ReverseNoReturn(landmark: nat)
      requires graph.Valid() && Acyclic(graph.adj)
      ensures NoReturn(graph.reverseAdj, landmark)
    {
      forall u | 0 <= u < |graph.reverseAdj| && Reaches(Successor(graph.reverseAdj), landmark, u)
        ensures landmark !in graph.reverseAdj[u]
      {
        if landmark in graph.reverseAdj[u] {
          ConverseSteps();
          ReachesConverse(Successor(graph.adj), Successor(graph.reverseAdj), landmark, u);
        }
      }
    }

    /** Appending a label above every stored label keeps each list increasing. */
    static lemma AppendKeepsLabels(lists: seq<seq<nat>>, r: seq<seq<nat>>, labelId: nat)
      requires |r| == |lists|
      requires forall v :: 0 <= v < |lists| ==> Increasing(lists[v]) && forall x :: x in lists[v] ==> x < labelId
      requires forall v :: 0 <= v < |r| ==> r[v] == lists[v] || r[v] == lists[v] + [labelId]
      ensures forall v :: 0 <= v < |r| ==> Increasing(r[v])
      ensures forall v, x :: 0 <= v < |r| && x in r[v] ==> x in lists[v] || x == labelId
    {
      forall v | 0 <= v < |r|
        ensures Increasing(r[v])
      {
        if r[v] != lists[v] {
          forall i, j | 0 <= i < j < |r[v]|
            ensures r[v][i] < r[v][j]
          {
            if j == |lists[v]| {
              assert r[v][i] == lists[v][i] && lists[v][i] in lists[v];
            }
          }
        }
      }
    }

    /**
     * train: size the label lists, order the landmarks by degree, and run
     * both pruned searches for each landmark in turn, the i-th landmark
     * issuing label i. Afterwards every label is sound and every list is
     * strictly increasing.
     */
    method Train()
      requires graph.Valid() && Acyclic(graph.adj)
      requires reachTo == [] && reachFrom == []
      modifies this
      ensures Labelled(|graph.adj|) && IsPermutation(landmarks, |graph.adj|)
    {
      var n := |graph.adj|;
      reachTo := seq(n, _ => []);
      reachFrom := seq(n, _ => []);
      var visited := new bool[n](_ => false);
      var queue := new nat[n](_ => 0);
      var order := VertexOrderByDegree(graph);
      PermutationMembers(order, n);
      landmarks := order;
      for vertex := 0 to n
        invariant graph.Valid() && Acyclic(graph.adj) && n == |graph.adj|
        invariant landmarks == order && Labelled(vertex)
        invariant visited.Length == queue.Length == n
      {
        var landmark := order[vertex];
        assert landmark in order;
        PrunedBFS(visited, queue, vertex, landmark);
        ReversePrunedBFS(visited, queue, vertex, landmark);
        visited[landmark] := true;
      }
    }

    /**
     * query: map both vertices to their components; the same component
     * answers true, a lower source component answers false, otherwise the
     * label lists decide.
     */
    method Query(source: nat, target: nat) returns (r: bool)
      requires source < |vertexMapping| && target < |vertexMapping|
      requires vertexMapping[source] > vertexMapping[target] ==>
        vertexMapping[source] < |reachTo| && vertexMapping[target] < |reachFrom|
      ensures vertexMapping[source] == vertexMapping[target] ==> r
      ensures vertexMapping[source] < vertexMapping[target] ==> !r
      ensures vertexMapping[source] > vertexMapping[target] ==>
        (r ==> Meet(reachTo[vertexMapping[source]], reachFrom[vertexMapping[target]])) &&
        (Sorted(reachTo[vertexMapping[source]]) && Sorted(reachFrom[vertexMapping[target]]) ==>
           (r <==> Meet(reachTo[vertexMapping[source]], reachFrom[vertexMapping[target]])))
    {
      var sourceComponent := vertexMapping[source];
      var targetComponent := vertexMapping[target];
      if sourceComponent == targetComponent {
        return true;
      }
      if sourceComponent < targetComponent {
        return false;
      }
      r := IsReachable(reachTo[sourceComponent], reachFrom[targetComponent]);
    }

    /** A shared label is a landmark on a path: a positive answer is a real path in the component graph. */
    lemma MeetReaches(issued: nat, s: nat, t: nat)
      requires Labelled(issued) && s < |reachTo| && t < |reachFrom|
      requires Meet(reachTo[s], reachFrom[t])
      ensures Reaches(Successor(graph.adj), s, t)
    {
      var x :| x in reachTo[s] && x in reachFrom[t];
      ReachesTrans(Successor(graph.adj), s, landmarks[x], t);
    }

    /** indexSize: four bytes per stored label. */
    method IndexSize() returns (size: nat)
      requires |reachFrom| == |reachTo|
      ensures size == 4 * (Total(reachTo) + Total(reachFrom))
    {
      size := 0;
      for i := 0 to |reachTo|
        invariant size == 4 * (Total(reachTo[..i]) + Total(reachFrom[..i]))
      {
        assert reachTo[..i + 1][..i] == reachTo[..i];
        assert reachFrom[..i + 1][..i] == reachFrom[..i];
        size := size + |reachTo[i]| * 4;
        size := size + |reachFrom[i]| * 4;
      }
      assert reachTo[..|reachTo|] == reachTo;
      assert reachFrom[..|reachFrom|] == reachFrom;
    }
  }
}
