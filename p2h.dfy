/**
 * The Pruned 2-Hop index of src/lcrIndex/P2HIndex.cpp: per vertex an
 * out-list and an in-list of (vertex, label set) entries kept in vertex
 * order, the insertion that maintains them, the merge that answers a
 * query from one out-list and one in-list, and the query's strategy of
 * primary labels, virtual labels and a fallback search.
 */
module P2H {
  import opened IndexCommon

  // ---------------------------------------------------------------------
  // Positions in a vertex-ordered list
  // ---------------------------------------------------------------------

  /** The first position past the entries whose vertex is at most `target`, counted from the back. */
  function UpperBound(part: seq<Entry>, target: nat): (hi: nat)
    ensures hi <= |part|
    ensures forall k :: hi <= k < |part| ==> part[k].vertex > target
    ensures hi > 0 ==> part[hi - 1].vertex <= target
  {
    if |part| == 0 || part[|part| - 1].vertex <= target then |part|
    else UpperBound(part[..|part| - 1], target)
  }

  /** Every entry from the upper bound on lies above `target`. */
  lemma AboveUpperBound(part: seq<Entry>, target: nat)
    ensures forall x :: x in part[UpperBound(part, target)..] ==> x.vertex > target
  {
    var hi := UpperBound(part, target);
    forall x | x in part[hi..]
      ensures x.vertex > target
    {
      var k :| 0 <= k < |part[hi..]| && part[hi..][k] == x;
      assert part[hi + k] == x;
    }
  }

  /** A position that splits the list into "at most target" and "above target" is the upper bound. */
  lemma {:induction false} UpperBoundAt(part: seq<Entry>, target: nat, hi: nat)
    requires hi <= |part|
    requires forall k :: 0 <= k < hi ==> part[k].vertex <= target
    requires forall k :: hi <= k < |part| ==> part[k].vertex > target
    ensures UpperBound(part, target) == hi
  {
    if |part| > 0 && part[|part| - 1].vertex > target {
      UpperBoundAt(part[..|part| - 1], target, hi);
    }
  }

  /** In a vertex-ordered list everything before the upper bound is at most `target`. */
  lemma UpperBoundPrefix(part: seq<Entry>, target: nat)
    requires VertexSorted(part)
    ensures forall k :: 0 <= k < UpperBound(part, target) ==> part[k].vertex <= target
  {
  }

  /** `HasFitting` read through membership. */
  lemma HasFittingMember(entries: seq<Entry>, v: nat, labels: LabelSet)
    ensures HasFitting(entries, v, labels) <==> exists x :: x in entries && x.vertex == v && x.labels <= labels
  {
    if exists x :: x in entries && x.vertex == v && x.labels <= labels {
      var x :| x in entries && x.vertex == v && x.labels <= labels;
      var i :| 0 <= i < |entries| && entries[i] == x;
      assert entries[i].vertex == v && Fits(entries[i], labels);
    }
  }

  /** A list is ordered when its two sides are and the middle entry lies between them. */
  lemma SortedJoin(a: seq<Entry>, x: Entry, b: seq<Entry>)
    requires VertexSorted(a) && VertexSorted(b)
    requires forall k :: 0 <= k < |a| ==> a[k].vertex <= x.vertex
    requires forall k :: 0 <= k < |b| ==> x.vertex <= b[k].vertex
    ensures VertexSorted(a + [x] + b)
  {
    var s := a + [x] + b;
    forall i, j | 0 <= i < j < |s|
      ensures s[i].vertex <= s[j].vertex
    {
      if i < |a| && j > |a| {
        assert s[i].vertex <= x.vertex <= s[j].vertex;
      }
    }
  }

  // ---------------------------------------------------------------------
  // Minimality of a part: no stored set of a vertex contains another
  // ---------------------------------------------------------------------

  /** No entry occurs twice. */
  ghost predicate Distinct(part: seq<Entry>)
  {
    forall x {:trigger multiset(part)[x]} :: multiset(part)[x] <= 1
  }

  /**
   * Each vertex's stored label sets form an antichain: an entry whose set
   * contains another of the same vertex would be redundant.
   */
  ghost predicate Minimal(part: seq<Entry>)
  {
    Distinct(part) &&
    forall x, y :: x in part && y in part && x.vertex == y.vertex && x != y ==> !(x.labels <= y.labels)
  }

  // ---------------------------------------------------------------------
  // insertToIndex
  // ---------------------------------------------------------------------

  /**
   * The list as insertToIndex leaves it: the new entry is placed after
   * target's entries and every entry already there is kept.
   */
  function InsertedAsWritten(part: seq<Entry>, target: nat, labelSet: LabelSet): (r: seq<Entry>)
    ensures |r| == |part| + 1
  {
    var hi := UpperBound(part, target);
    part[..hi] + [Entry(target, labelSet)] + part[hi..]
  }

  /** Drops the entries of `target` whose set contains `labelSet`, keeping the rest in order. */
  function Prune(part: seq<Entry>, target: nat, labelSet: LabelSet): (r: seq<Entry>)
    ensures forall x :: x in r <==> x in part && !(x.vertex == target && labelSet <= x.labels)
    ensures forall x {:trigger multiset(r)[x]} :: multiset(r)[x] <= multiset(part)[x]
  {
    if |part| == 0 then []
    else
      var init := part[..|part| - 1];
      var last := part[|part| - 1];
      assert part == init + [last];
      if last.vertex == target && labelSet <= last.labels then Prune(init, target, labelSet)
      else Prune(init, target, labelSet) + [last]
  }

  /** Pruning keeps the vertex order. */
  lemma {:induction false} PruneSorted(part: seq<Entry>, target: nat, labelSet: LabelSet)
    requires VertexSorted(part)
    ensures VertexSorted(Prune(part, target, labelSet))
  {
    if |part| > 0 {
      var init := part[..|part| - 1];
      var last := part[|part| - 1];
      PruneSorted(init, target, labelSet);
      var p := Prune(init, target, labelSet);
      forall k | 0 <= k < |p|
        ensures p[k].vertex <= last.vertex
      {
        assert p[k] in init;
      }
    }
  }

  /**
   * The list insertToIndex evidently intends: the supersets of `labelSet`
   * among target's entries are dropped, the other entries keep their order,
   * and the new entry closes target's block.
   */
  function Inserted(part: seq<Entry>, target: nat, labelSet: LabelSet): (r: seq<Entry>)
  {
    var hi := UpperBound(part, target);
    Prune(part[..hi], target, labelSet) + [Entry(target, labelSet)] + part[hi..]
  }

  /** Both insertions keep a vertex-ordered list vertex-ordered. */
  lemma InsertedSorted(part: seq<Entry>, target: nat, labelSet: LabelSet)
    requires VertexSorted(part)
    ensures VertexSorted(InsertedAsWritten(part, target, labelSet))
    ensures VertexSorted(Inserted(part, target, labelSet))
  {
    var hi := UpperBound(part, target);
    UpperBoundPrefix(part, target);
    var n := Entry(target, labelSet);
    SortedJoin(part[..hi], n, part[hi..]);
    PruneSorted(part[..hi], target, labelSet);
    var p := Prune(part[..hi], target, labelSet);
    forall k | 0 <= k < |p|
      ensures p[k].vertex <= target
    {
      assert p[k] in part[..hi];
    }
    SortedJoin(p, n, part[hi..]);
  }

  /**
   * After either insertion a vertex is served by the list exactly when it
   * was before, or it is target and the query's labels hold `labelSet`.
   */
  lemma InsertedCovers(part: seq<Entry>, target: nat, labelSet: LabelSet, v: nat, labels: LabelSet)
    ensures HasFitting(InsertedAsWritten(part, target, labelSet), v, labels) <==>
            HasFitting(part, v, labels) || (v == target && labelSet <= labels)
    ensures HasFitting(Inserted(part, target, labelSet), v, labels) <==>
            HasFitting(part, v, labels) || (v == target && labelSet <= labels)
  {
    var hi := UpperBound(part, target);
    var n := Entry(target, labelSet);
    assert part == part[..hi] + part[hi..];
    var a := InsertedAsWritten(part, target, labelSet);
    var c := Inserted(part, target, labelSet);
    assert forall x :: x in a <==> x in part || x == n;
    assert forall x :: x in c <==> (x in part[..hi] && !(x.vertex == target && labelSet <= x.labels)) || x in part[hi..] || x == n;
    HasFittingMember(part, v, labels);
    HasFittingMember(a, v, labels);
    HasFittingMember(c, v, labels);
    if HasFitting(part, v, labels) {
      var x :| x in part && x.vertex == v && x.labels <= labels;
      if x in part[..hi] && x.vertex == target && labelSet <= x.labels {
        assert n in c && n.labels <= labels;
      } else {
        assert x in c;
      }
    }
  }

  /**
   * The corrected insertion keeps every vertex's sets an antichain: the new
   * set is not above a stored one (else the insertion is refused), and the
   * stored ones above it are gone.
   */
  lemma InsertedMinimal(part: seq<Entry>, target: nat, labelSet: LabelSet)
    requires Minimal(part) && !HasFitting(part, target, labelSet)
    ensures Minimal(Inserted(part, target, labelSet))
  {
    InsertedDistinct(part, target, labelSet);
    var hi := UpperBound(part, target);
    var n := Entry(target, labelSet);
    var c := Inserted(part, target, labelSet);
    assert part == part[..hi] + part[hi..];
    AboveUpperBound(part, target);
    assert forall x :: x in c ==> x == n || (x in part && !(x.vertex == target && labelSet <= x.labels));
    HasFittingMember(part, target, labelSet);
    MinimalJoin(part, c, n);
  }

  /** A list without repeats whose entries are old ones not above the new entry, or the new entry not above any old one, is an antichain. */
  lemma MinimalJoin(part: seq<Entry>, c: seq<Entry>, n: Entry)
    requires Minimal(part) && Distinct(c)
    requires forall x :: x in c ==> x == n || (x in part && !(x.vertex == n.vertex && n.labels <= x.labels))
    requires forall x :: x in part && x.vertex == n.vertex ==> !(x.labels <= n.labels)
    ensures Minimal(c)
  {
  }

  /** The corrected insertion adds one entry that was not there and repeats none. */
  lemma InsertedDistinct(part: seq<Entry>, target: nat, labelSet: LabelSet)
    requires Distinct(part)
    ensures Distinct(Inserted(part, target, labelSet))
  {
    var hi := UpperBound(part, target);
    var n := Entry(target, labelSet);
    var p := Prune(part[..hi], target, labelSet);
    assert part == part[..hi] + part[hi..];
    AboveUpperBound(part, target);
    DistinctJoin(part[..hi], p, n, part[hi..]);
  }

  /** Putting a fresh entry between a sub-multiset of one side and the other side of a list without repeats repeats nothing. */
  lemma DistinctJoin(a: seq<Entry>, p: seq<Entry>, n: Entry, b: seq<Entry>)
    requires Distinct(a + b)
    requires forall x {:trigger multiset(p)[x]} :: multiset(p)[x] <= multiset(a)[x]
    requires n !in p && n !in b
    ensures Distinct(p + [n] + b)
  {
    var c := p + [n] + b;
    assert multiset(a + b) == multiset(a) + multiset(b);
    assert multiset(c) == multiset(p) + multiset{n} + multiset(b);
    forall x
      ensures multiset(c)[x] <= 1
    {
      assert multiset(a + b)[x] == multiset(a)[x] + multiset(b)[x];
      if x == n {
        assert multiset(p)[x] == 0 && multiset(b)[x] == 0;
      }
    }
  }

  /** With the list [(5, {0, 1})], inserting (5, {0}) as written keeps the now redundant (5, {0, 1}). */
  lemma InsertedAsWrittenKeepsSuperset()
    ensures Minimal([Entry(5, {0, 1})]) && !HasFitting([Entry(5, {0, 1})], 5, {0})
    ensures InsertedAsWritten([Entry(5, {0, 1})], 5, {0}) == [Entry(5, {0, 1}), Entry(5, {0})]
    ensures !Minimal(InsertedAsWritten([Entry(5, {0, 1})], 5, {0}))
    ensures Minimal(Inserted([Entry(5, {0, 1})], 5, {0}))
  {
    var part := [Entry(5, {0, 1})];
    assert UpperBound(part, 5) == 1;
    assert multiset(part) == multiset{Entry(5, {0, 1})};
    assert {0} <= {0, 1};
    var a := InsertedAsWritten(part, 5, {0});
    assert a[0] in a && a[1] in a && a[0] != a[1] && a[1].labels <= a[0].labels;
    InsertedMinimal(part, 5, {0});
  }

  /**
   * The scan of insertToIndex (lines 276-292): from lower_bound, any entry
   * of target whose set lies inside `labelSet` refuses the insertion;
   * otherwise the scan stops past target's entries.
   */
  method ScanForSubset(part: seq<Entry>, target: nat, labelSet: LabelSet) returns (refused: bool, location: nat)
    requires VertexSorted(part)
    ensures refused <==> HasFitting(part, target, labelSet)
    ensures !refused ==> location == UpperBound(part, target)
  {
    location := LowerBound(part, target);
    while location < |part|
      invariant location <= |part|
      invariant forall k :: 0 <= k < location ==> part[k].vertex <= target
      invariant forall k :: 0 <= k < location && part[k].vertex == target ==> !Fits(part[k], labelSet)
    {
      // From lower_bound on no entry is below target, so only the stop and the subset test remain.
      if part[location].vertex > target {
        break;
      }
      if part[location].labels <= labelSet {
        return true, location;
      }
      location := location + 1;
    }
    UpperBoundAt(part, target, location);
    refused := false;
  }

  /**
   * The removal sweep of insertToIndex (lines 294-328), as written: it
   * starts at `begin`, and when that position is past target's entries
   * the sweep stops at once and the list stays as it was.
   */
  method SweepAsWritten(part0: seq<Entry>, begin: nat, target: nat, labelSet: LabelSet)
    returns (part: seq<Entry>, inserted: bool)
    requires begin <= |part0|
    ensures (begin == |part0| || part0[begin].vertex > target) ==> part == part0 && !inserted
  {
    part := part0;
    inserted := false;
    var end: int := |part| - 1;
    if begin != end {
      var i: int := begin;
      while i <= end
        invariant begin <= i <= end + 2 && -1 <= end < |part| == |part0|
        invariant (begin == |part0| || part0[begin].vertex > target) ==>
          part == part0 && !inserted && end == |part0| - 1 && i == begin
        decreases end + 2 - i
      {
        var current := part[i];
        if current.vertex < target {
          i := i + 1;
          continue;
        }
        if current.vertex > target {
          break;
        }
        if labelSet <= current.labels {
          if inserted {
            if i != end {
              part := part[i := part[end]][end := part[i]];
              i := i - 1;
            }
            end := end - 1;
          } else {
            inserted := true;
            part := part[i := Entry(current.vertex, labelSet)];
          }
        }
        i := i + 1;
      }
      if end != |part| - 1 {
        part := part[..end + 1];
      }
    }
  }

  /**
   * insertToIndex as written: a self entry is accepted without change, an
   * entry whose set is above a stored set of target is refused, and any
   * other is placed after target's entries with none of them removed.
   */
  method InsertToIndexAsWritten(index: array<seq<Entry>>, source: nat, target: nat, labelSet: LabelSet)
    returns (r: bool)
    requires source < index.Length && VertexSorted(index[source])
    modifies index
    ensures target == source ==> r && index[..] == old(index[..])
    ensures target != source && HasFitting(old(index[source]), target, labelSet) ==>
      !r && index[..] == old(index[..])
    ensures target != source && !HasFitting(old(index[source]), target, labelSet) ==>
      r && index[..] == old(index[..])[source := InsertedAsWritten(old(index[source]), target, labelSet)]
  {
    if target == source {
      return true;
    }
    var part := index[source];
    var refused, location := ScanForSubset(part, target, labelSet);
    if refused {
      return false;
    }
    var swept, inserted := SweepAsWritten(part, location, target, labelSet);
    if !inserted {
      swept := swept[..location] + [Entry(target, labelSet)] + swept[location..];
    }
    index[source] := swept;
    r := true;
  }

  /**
   * insertToIndex as evidently intended: as above, except that the stored
   * supersets of `labelSet` among target's entries are dropped.
   */
  method InsertToIndex(index: array<seq<Entry>>, source: nat, target: nat, labelSet: LabelSet)
    returns (r: bool)
    requires source < index.Length && VertexSorted(index[source])
    modifies index
    ensures target == source ==> r && index[..] == old(index[..])
    ensures target != source && HasFitting(old(index[source]), target, labelSet) ==>
      !r && index[..] == old(index[..])
    ensures target != source && !HasFitting(old(index[source]), target, labelSet) ==>
      r && index[..] == old(index[..])[source := Inserted(old(index[source]), target, labelSet)]
  {
    if target == source {
      return true;
    }
    var part := index[source];
    var refused, location := ScanForSubset(part, target, labelSet);
    if refused {
      return false;
    }
    var kept: seq<Entry> := [];
    for k := 0 to location
      invariant kept == Prune(part[..k], target, labelSet)
    {
      assert part[..k + 1][..k] == part[..k];
      if !(part[k].vertex == target && labelSet <= part[k].labels) {
        kept := kept + [part[k]];
      }
    }
    index[source] := kept + [Entry(target, labelSet)] + part[location..];
    r := true;
  }

  // ---------------------------------------------------------------------
  // isReachable
  // ---------------------------------------------------------------------

  /** Some out-entry and some in-entry share a vertex and both fit the labels. */
  predicate Meets(outgoing: seq<Entry>, incoming: seq<Entry>, labels: LabelSet)
  {
    exists k, m :: 0 <= k < |outgoing| && 0 <= m < |incoming| &&
      outgoing[k].vertex == incoming[m].vertex && Fits(outgoing[k], labels) && Fits(incoming[m], labels)
  }

  /**
   * The 2-hop answer for source s and target t: s's out-list reaches t, or
   * t's in-list is reached from s, or the two lists meet in a vertex, each
   * side with a label set inside the query's labels.
   */
  predicate TwoHop(outgoing: seq<Entry>, incoming: seq<Entry>, source: nat, target: nat, labels: LabelSet)
  {
    HasFitting(outgoing, target, labels) || HasFitting(incoming, source, labels) || Meets(outgoing, incoming, labels)
  }

  /** Allowing more labels never loses an answer. */
  lemma TwoHopMonotone(outgoing: seq<Entry>, incoming: seq<Entry>, source: nat, target: nat, labels: LabelSet, more: LabelSet)
    requires labels <= more && TwoHop(outgoing, incoming, source, target, labels)
    ensures TwoHop(outgoing, incoming, source, target, more)
  {
    if HasFitting(outgoing, target, labels) {
      var i :| 0 <= i < |outgoing| && outgoing[i].vertex == target && Fits(outgoing[i], labels);
      assert Fits(outgoing[i], more);
    } else if HasFitting(incoming, source, labels) {
      var i :| 0 <= i < |incoming| && incoming[i].vertex == source && Fits(incoming[i], labels);
      assert Fits(incoming[i], more);
    } else {
      var k, m :| 0 <= k < |outgoing| && 0 <= m < |incoming| &&
        outgoing[k].vertex == incoming[m].vertex && Fits(outgoing[k], labels) && Fits(incoming[m], labels);
      assert Fits(outgoing[k], more) && Fits(incoming[m], more);
    }
  }

  /**
   * The walk of one sorted list for `v` from position `from`, stopping at
   * the first entry past `v` (lines 414-426, 431-443 and 505-519).
   */
  method ScanFrom(list: seq<Entry>, from: nat, v: nat, labels: LabelSet) returns (r: bool)
    requires VertexSorted(list) && from <= |list|
    ensures r <==> exists k :: from <= k < |list| && list[k].vertex == v && Fits(list[k], labels)
  {
    var k := from;
    while k < |list|
      invariant from <= k <= |list|
      invariant forall j :: from <= j < k ==> !(list[j].vertex == v && Fits(list[j], labels))
    {
      if list[k].vertex == v && Fits(list[k], labels) {
        return true;
      }
      if list[k].vertex > v {
        break;
      }
      k := k + 1;
    }
    r := false;
  }

  /**
   * The inner loop of the merge (lines 472-501) for one fitting out-entry
   * `o`: walk the in-list from `start`, stopping at a fitting in-entry of
   * source or of o's vertex, or at the first entry past o's vertex.
   */
  method AdvanceIncoming(incoming: seq<Entry>, start: nat, o: Entry, source: nat, labels: LabelSet)
    returns (found: bool, next: nat)
    requires VertexSorted(incoming) && start <= |incoming|
    ensures start <= next <= |incoming|
    ensures found ==> (HasFitting(incoming, source, labels) ||
      exists m :: 0 <= m < |incoming| && incoming[m].vertex == o.vertex && Fits(incoming[m], labels))
    ensures !found ==> forall m :: start <= m < next ==> !(incoming[m].vertex == source && Fits(incoming[m], labels))
    ensures !found ==> forall m :: start <= m < next && Fits(incoming[m], labels) ==> incoming[m].vertex < o.vertex
    ensures !found ==> next == |incoming| || o.vertex < incoming[next].vertex
  {
    next := start;
    while next < |incoming|
      invariant start <= next <= |incoming|
      invariant forall m :: start <= m < next ==> !(incoming[m].vertex == source && Fits(incoming[m], labels))
      invariant forall m :: start <= m < next && Fits(incoming[m], labels) ==> incoming[m].vertex < o.vertex
    {
      var pair := incoming[next];
      if pair.vertex == source && Fits(pair, labels) {
        return true, next;
      }
      if o.vertex < pair.vertex {
        break;
      }
      if o.vertex > pair.vertex {
        next := next + 1;
        continue;
      }
      if Fits(pair, labels) {
        return true, next;
      }
      next := next + 1;
    }
    found := false;
  }

  /** What the merge has ruled out after `oi` out-entries and `ii` in-entries. */
  ghost predicate MergeState(outgoing: seq<Entry>, incoming: seq<Entry>, source: nat, target: nat,
                             labels: LabelSet, oi: nat, ii: nat)
  {
    oi <= |outgoing| && ii <= |incoming| &&
    (forall k :: 0 <= k < oi ==> !(outgoing[k].vertex == target && Fits(outgoing[k], labels))) &&
    (forall m :: 0 <= m < ii ==> !(incoming[m].vertex == source && Fits(incoming[m], labels))) &&
    (forall k :: 0 <= k < oi && Fits(outgoing[k], labels) ==>
       ii == |incoming| || outgoing[k].vertex < incoming[ii].vertex) &&
    (forall k, m :: 0 <= k < |outgoing| && 0 <= m < ii && Fits(outgoing[k], labels) && Fits(incoming[m], labels) ==>
       outgoing[k].vertex != incoming[m].vertex)
  }

  /** One out-entry that gives nothing new moves the merge on. */
  lemma MergeSkip(outgoing: seq<Entry>, incoming: seq<Entry>, source: nat, target: nat, labels: LabelSet, oi: nat, ii: nat)
    requires VertexSorted(incoming) && MergeState(outgoing, incoming, source, target, labels, oi, ii) && oi < |outgoing|
    requires !(outgoing[oi].vertex == target && Fits(outgoing[oi], labels))
    requires Fits(outgoing[oi], labels) ==> |incoming| > 0 && outgoing[oi].vertex < incoming[0].vertex
    ensures MergeState(outgoing, incoming, source, target, labels, oi + 1, ii)
  {
  }

  /** A fitting out-entry whose in-walk found nothing moves the merge on. */
  lemma MergeAdvance(outgoing: seq<Entry>, incoming: seq<Entry>, source: nat, target: nat, labels: LabelSet,
                     oi: nat, ii: nat, next: nat)
    requires VertexSorted(outgoing) && VertexSorted(incoming)
    requires MergeState(outgoing, incoming, source, target, labels, oi, ii) && oi < |outgoing|
    requires !(outgoing[oi].vertex == target && Fits(outgoing[oi], labels)) && Fits(outgoing[oi], labels)
    requires ii <= next <= |incoming|
    requires forall m :: ii <= m < next ==> !(incoming[m].vertex == source && Fits(incoming[m], labels))
    requires forall m :: ii <= m < next && Fits(incoming[m], labels) ==> incoming[m].vertex < outgoing[oi].vertex
    requires next == |incoming| || outgoing[oi].vertex < incoming[next].vertex
    ensures MergeState(outgoing, incoming, source, target, labels, oi + 1, next)
  {
    forall k | 0 <= k < oi + 1 && Fits(outgoing[k], labels)
      ensures next == |incoming| || outgoing[k].vertex < incoming[next].vertex
    {
      if k < oi && next < |incoming| {
        assert ii == |incoming| || outgoing[k].vertex < incoming[ii].vertex;
        assert ii < |incoming| ==> incoming[ii].vertex <= incoming[next].vertex;
      }
    }
    forall k, m | 0 <= k < |outgoing| && 0 <= m < next && Fits(outgoing[k], labels) && Fits(incoming[m], labels)
      ensures outgoing[k].vertex != incoming[m].vertex
    {
    }
  }

  /** Once every out-entry is merged, only the in-list's source entries past `ii` can still answer. */
  lemma MergeDone(outgoing: seq<Entry>, incoming: seq<Entry>, source: nat, target: nat, labels: LabelSet, ii: nat)
    requires VertexSorted(incoming) && MergeState(outgoing, incoming, source, target, labels, |outgoing|, ii)
    ensures TwoHop(outgoing, incoming, source, target, labels) <==>
      exists m :: ii <= m < |incoming| && incoming[m].vertex == source && Fits(incoming[m], labels)
  {
  }

  /** The merge may stop once it is past target with the in-list used up. */
  lemma MergeStop(outgoing: seq<Entry>, incoming: seq<Entry>, source: nat, target: nat, labels: LabelSet, oi: nat)
    requires VertexSorted(outgoing) && MergeState(outgoing, incoming, source, target, labels, oi, |incoming|)
    requires oi < |outgoing| && outgoing[oi].vertex > target
    ensures !TwoHop(outgoing, incoming, source, target, labels)
  {
    forall k | oi <= k < |outgoing|
      ensures outgoing[k].vertex > target
    {
      assert outgoing[oi].vertex <= outgoing[k].vertex;
    }
  }

  /**
   * isReachable: the sorted merge of source's out-list and target's in-list
   * answers exactly the 2-hop question.
   */
  method IsReachable(source: nat, target: nat, labels: LabelSet, outgoing: seq<Entry>, incoming: seq<Entry>)
    returns (r: bool)
    requires VertexSorted(outgoing) && VertexSorted(incoming)
    ensures r <==> TwoHop(outgoing, incoming, source, target, labels)
    ensures |outgoing| == 0 && |incoming| == 0 ==> !r
  {
    if |outgoing| == 0 && |incoming| == 0 {
      return false;
    }
    if |outgoing| == 0 {
      r := ScanFrom(incoming, 0, source, labels);
      return;
    }
    if |incoming| == 0 {
      r := ScanFrom(outgoing, 0, target, labels);
      return;
    }
    var outgoingIndex := 0;
    var incomingIndex := 0;
    var incomingFirst := incoming[incomingIndex].vertex;
    while outgoingIndex < |outgoing|
      invariant MergeState(outgoing, incoming, source, target, labels, outgoingIndex, incomingIndex)
    {
      var pair := outgoing[outgoingIndex];
      if pair.vertex == target && Fits(pair, labels) {
        return true;
      }
      if pair.vertex > target && incomingIndex >= |incoming| {
        MergeStop(outgoing, incoming, source, target, labels, outgoingIndex);
        return false;
      }
      if pair.vertex < incomingFirst || !Fits(pair, labels) {
        MergeSkip(outgoing, incoming, source, target, labels, outgoingIndex, incomingIndex);
        outgoingIndex := outgoingIndex + 1;
        continue;
      }
      var found, next := AdvanceIncoming(incoming, incomingIndex, pair, source, labels);
      if found {
        return true;
      }
      MergeAdvance(outgoing, incoming, source, target, labels, outgoingIndex, incomingIndex, next);
      outgoingIndex, incomingIndex := outgoingIndex + 1, next;
    }
    MergeDone(outgoing, incoming, source, target, labels, incomingIndex);
    r := ScanFrom(incoming, incomingIndex, source, labels);
  }

  // ---------------------------------------------------------------------
  // query
  // ---------------------------------------------------------------------

  /** The primaryLabelSet value of a label outside the w most frequent ones (uint32 max). */
  const NotPrimary: nat := 0xFFFF_FFFF

  class P2HIndex {
    /** Per label: its position among the w most frequent labels, or `NotPrimary`. */
    var primaryLabelSet: seq<nat>
    var primaryReachOut: seq<seq<Entry>>
    var primaryReachIn: seq<seq<Entry>>
    var secondaryReachOut: seq<seq<Entry>>
    var secondaryReachIn: seq<seq<Entry>>
    /** Per label: the virtual label of the secondary index. */
    var virtualLabelMapping: seq<nat>
    /** w: how many labels the primary index covers (12 unless given). */
    var numMostFrequentLabels: nat

    constructor (numMostFrequentLabels: nat)
      ensures this.numMostFrequentLabels == numMostFrequentLabels
      ensures primaryLabelSet == [] && virtualLabelMapping == []
      ensures primaryReachOut == [] && primaryReachIn == [] && secondaryReachOut == [] && secondaryReachIn == []
    {
      this.numMostFrequentLabels := numMostFrequentLabels;
      primaryLabelSet, virtualLabelMapping := [], [];
      primaryReachOut, primaryReachIn, secondaryReachOut, secondaryReachIn := [], [], [], [];
    }

    /** Every list of the four indexes is vertex-ordered, one list per vertex. */
    ghost predicate Valid()
      reads this
    {
      |primaryReachIn| == |primaryReachOut| && |secondaryReachOut| == |primaryReachOut| &&
      |secondaryReachIn| == |primaryReachOut| &&
      (forall v :: 0 <= v < |primaryReachOut| ==> VertexSorted(primaryReachOut[v]) && VertexSorted(primaryReachIn[v])) &&
      (forall v :: 0 <= v < |primaryReachOut| ==> VertexSorted(secondaryReachOut[v]) && VertexSorted(secondaryReachIn[v]))
    }

    /** The query's labels can be looked up in both label tables. */
    predicate KnownLabels(labels: seq<nat>)
      reads this
    {
      forall i :: 0 <= i < |labels| ==> labels[i] < |primaryLabelSet| && labels[i] < |virtualLabelMapping|
    }

    /** isPrimaryReachable, as the 2-hop answer on the primary index. */
    ghost predicate PrimaryAnswer(source: nat, target: nat, labels: LabelSet)
      reads this
      requires source < |primaryReachOut| && target < |primaryReachIn|
    {
      TwoHop(primaryReachOut[source], primaryReachIn[target], source, target, labels)
    }

    /** isSecondaryReachable, as the 2-hop answer on the secondary index. */
    ghost predicate SecondaryAnswer(source: nat, target: nat, labels: LabelSet)
      reads this
      requires source < |secondaryReachOut| && target < |secondaryReachIn|
    {
      TwoHop(secondaryReachOut[source], secondaryReachIn[target], source, target, labels)
    }

    /** The primary positions of the query's labels that have one. */
    function Translate(labels: seq<nat>): (r: LabelSet)
      reads this
      requires KnownLabels(labels)
      ensures forall p :: p in r <==> exists i :: 0 <= i < |labels| && primaryLabelSet[labels[i]] != NotPrimary && primaryLabelSet[labels[i]] == p
    {
      if |labels| == 0 then {}
      else
        var init, l := labels[..|labels| - 1], labels[|labels| - 1];
        assert labels == init + [l];
        Translate(init) + (if primaryLabelSet[l] != NotPrimary then {primaryLabelSet[l]} else {})
    }

    /** The virtual labels of the query's labels. */
    function Virtual(labels: seq<nat>): (r: LabelSet)
      reads this
      requires KnownLabels(labels)
      ensures forall v :: v in r <==> exists i :: 0 <= i < |labels| && virtualLabelMapping[labels[i]] == v
    {
      if |labels| == 0 then {}
      else
        var init, l := labels[..|labels| - 1], labels[|labels| - 1];
        assert labels == init + [l];
        Virtual(init) + {virtualLabelMapping[l]}
    }

    /** Every query label is among the w most frequent ones. */
    predicate FullyIncluded(labels: seq<nat>)
      reads this
      requires KnownLabels(labels)
    {
      forall i :: 0 <= i < |labels| ==> primaryLabelSet[labels[i]] != NotPrimary
    }

    /** isPrimaryReachable. */
    method IsPrimaryReachable(source: nat, target: nat, labels: LabelSet) returns (r: bool)
      requires Valid() && source < |primaryReachOut| && target < |primaryReachOut|
      ensures r <==> PrimaryAnswer(source, target, labels)
    {
      r := IsReachable(source, target, labels, primaryReachOut[source], primaryReachIn[target]);
    }

    /** isSecondaryReachable: the query labels are mapped to virtual labels first. */
    method IsSecondaryReachable(source: nat, target: nat, labels: seq<nat>) returns (r: bool)
      requires Valid() && source < |primaryReachOut| && target < |primaryReachOut| && KnownLabels(labels)
      ensures r <==> SecondaryAnswer(source, target, Virtual(labels))
    {
      var virtualLabels: LabelSet := {};
      for k := 0 to |labels|
        invariant virtualLabels == Virtual(labels[..k])
      {
        assert labels[..k + 1][..k] == labels[..k];
        virtualLabels := virtualLabels + {virtualLabelMapping[labels[k]]};
      }
      assert labels[..|labels|] == labels;
      r := IsReachable(source, target, virtualLabels, secondaryReachOut[source], secondaryReachIn[target]);
    }

    /**
     * query: a vertex reaches itself; an empty label set reaches nothing
     * else; with at most w labels in the graph the primary index decides;
     * otherwise the query labels are translated to primary positions, which
     * decide when they cover the query, confirm when some apply, and the
     * secondary index may refuse before the fallback search (`fallback`,
     * the defaultStrategy answer) decides.
     */
    method Query(source: nat, target: nat, labels: seq<nat>, labelSet: LabelSet, labelCount: nat, fallback: bool)
      returns (r: bool)
      requires Valid() && source < |primaryReachOut| && target < |primaryReachOut| && KnownLabels(labels)
      ensures source == target ==> r
      ensures source != target && labelSet == {} ==> !r
      ensures source != target && labelSet != {} && labelCount <= numMostFrequentLabels ==>
        (r <==> PrimaryAnswer(source, target, labelSet))
      ensures source != target && labelSet != {} && labelCount > numMostFrequentLabels && FullyIncluded(labels) ==>
        (r <==> PrimaryAnswer(source, target, Translate(labels)))
      ensures source != target && labelSet != {} && labelCount > numMostFrequentLabels && !FullyIncluded(labels) ==>
        (r <==> (Translate(labels) != {} && PrimaryAnswer(source, target, Translate(labels))) ||
                (SecondaryAnswer(source, target, Virtual(labels)) && fallback))
    {
      if source == target {
        return true;
      }
      if labelSet == {} {
        return false;
      }
      if labelCount <= numMostFrequentLabels {
        r := IsPrimaryReachable(source, target, labelSet);
        return;
      }
      var translated, fullyIncluded, included := TranslateLabels(labels);
      if fullyIncluded {
        r := IsPrimaryReachable(source, target, translated);
        return;
      }
      if included {
        var primary := IsPrimaryReachable(source, target, translated);
        if primary {
          return true;
        }
      }
      var secondary := IsSecondaryReachable(source, target, labels);
      if !secondary {
        return false;
      }
      r := fallback;
    }

    /** The label loop of query: map the query labels to primary labels, noting whether all of them are primary and whether any is. */
    method TranslateLabels(labels: seq<nat>) returns (translated: LabelSet, fullyIncluded: bool, included: bool)
      requires KnownLabels(labels)
      ensures translated == Translate(labels)
      ensures fullyIncluded <==> FullyIncluded(labels)
      ensures included <==> translated != {}
    {
      translated, fullyIncluded, included := {}, true, false;
      for k := 0 to |labels|
        invariant translated == Translate(labels[..k])
        invariant fullyIncluded <==> FullyIncluded(labels[..k])
        invariant included <==> translated != {}
      {
        assert labels[..k + 1][..k] == labels[..k];
        FullyIncludedSnoc(labels, k);
        var l := labels[k];
        if primaryLabelSet[l] != NotPrimary {
          included := true;
          translated := translated + {primaryLabelSet[l]};
        } else {
          fullyIncluded := false;
        }
      }
      assert labels[..|labels|] == labels;
    }

    /** One more label keeps the prefix fully included exactly when that label is primary. */
    lemma FullyIncludedSnoc(labels: seq<nat>, k: nat)
      requires KnownLabels(labels) && k < |labels|
      ensures KnownLabels(labels[..k]) && KnownLabels(labels[..k + 1])
      ensures FullyIncluded(labels[..k + 1]) <==> FullyIncluded(labels[..k]) && primaryLabelSet[labels[k]] != NotPrimary
    {
      assert labels[..k + 1] == labels[..k] + [labels[k]];
    }

    /** queryOnce: the primary index alone, as a definite answer. */
    method QueryOnce(source: nat, target: nat, labelSet: LabelSet) returns (r: QueryResult)
      requires Valid() && source < |primaryReachOut| && target < |primaryReachOut|
      ensures r != MaybeReachable
      ensures r == Reachable <==> PrimaryAnswer(source, target, labelSet)
    {
      var found := IsPrimaryReachable(source, target, labelSet);
      r := if found then Reachable else NotReachable;
    }
  }
}
