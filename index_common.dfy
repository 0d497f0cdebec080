/**
 * Shared pieces of the label-constrained indexes (src/lcrIndex/Index.hpp):
 * label sets, (vertex, label set) entries kept in vertex order, the
 * three-valued answer of `queryOnce`, and `std::lower_bound` under
 * `VertexLabelPairLessComparator`, which compares the vertex only.
 */
module IndexCommon {
  /** A `boost::dynamic_bitset` of labels, as the set of its set bits. */
  type LabelSet = set<nat>

  /** A `std::pair<Vertex, LabelSet>` of an index list. */
  datatype Entry = Entry(vertex: nat, labels: LabelSet)

  /** QR_Reachable, QR_NotReachable, QR_MaybeReachable. */
  datatype QueryResult = Reachable | NotReachable | MaybeReachable

  /** The entries are in ascending vertex order (ties in any order). */
  predicate VertexSorted(entries: seq<Entry>)
  {
    forall i, j :: 0 <= i < j < |entries| ==> entries[i].vertex <= entries[j].vertex
  }

  /** The entry's label set lies inside the query's labels. */
  predicate Fits(e: Entry, labels: LabelSet)
  {
    e.labels <= labels
  }

  /** Some entry for `target` has a label set inside `labels`. */
  predicate HasFitting(entries: seq<Entry>, target: nat, labels: LabelSet)
  {
    exists i :: 0 <= i < |entries| && entries[i].vertex == target && Fits(entries[i], labels)
  }

  /**
   * std::lower_bound with a vertex-only comparator: the first position whose
   * vertex is not below `target`, found by halving.
   */
  method LowerBound(entries: seq<Entry>, target: nat) returns (lo: nat)
    requires VertexSorted(entries)
    ensures lo <= |entries|
    ensures forall i :: 0 <= i < lo ==> entries[i].vertex < target
    ensures forall i :: lo <= i < |entries| ==> entries[i].vertex >= target
  {
    lo := 0;
    var hi := |entries|;
    while lo < hi
      invariant 0 <= lo <= hi <= |entries|
      invariant forall i :: 0 <= i < lo ==> entries[i].vertex < target
      invariant forall i :: hi <= i < |entries| ==> entries[i].vertex >= target
    {
      var mid := lo + (hi - lo) / 2;
      if entries[mid].vertex < target {
        lo := mid + 1;
      } else {
        hi := mid;
      }
    }
  }

  /**
   * The scan that follows lower_bound in the index lookups: walk on from
   * `from` while the vertex equals `target` and report whether one of those
   * entries fits the labels.
   */
  method ScanBlock(entries: seq<Entry>, from: nat, target: nat, labels: LabelSet) returns (r: bool)
    requires VertexSorted(entries) && from <= |entries|
    requires forall i :: 0 <= i < from ==> entries[i].vertex < target
    ensures r <==> HasFitting(entries, target, labels)
  {
    var i := from;
    while i < |entries|
      invariant from <= i <= |entries|
      invariant forall j :: 0 <= j < i && entries[j].vertex == target ==> !Fits(entries[j], labels)
    {
      var e := entries[i];
      if e.vertex < target {
        i := i + 1;
        continue;
      }
      if e.vertex > target {
        break;
      }
      if Fits(e, labels) {
        return true;
      }
      i := i + 1;
    }
    r := false;
  }
}
