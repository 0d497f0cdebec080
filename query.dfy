/**
 * LCRQuery of src/graphs/Query.hpp: a source, a target, the list of allowed
 * labels as read from a query file, and the bitset form of that list that
 * `init` fills in once the graph's label count is known.
 */
module Queries {

  class LCRQuery {
    var source: nat
    var target: nat
    var labelSet: seq<bool>
    var labels: seq<nat>

    /** The constructor stores its arguments; `labelSet` stays empty until `init`. */
    constructor (source: nat, target: nat, labels: seq<nat>)
      ensures this.source == source && this.target == target && this.labels == labels
      ensures labelSet == []
    {
      this.source := source;
      this.target := target;
      this.labels := labels;
      labelSet := [];
    }

    /**
     * init: nothing happens when the bitset already has the graph's label
     * count; otherwise it is resized to that count (old bits kept, new bits
     * clear) and the bit of every listed label is set.
     */
    method Init(labelCount: nat)
      requires |labelSet| != labelCount ==> forall l :: l in labels ==> l < labelCount
      modifies this
      ensures source == old(source) && target == old(target) && labels == old(labels)
      ensures labelSet == InitBits(old(labelSet), labels, labelCount)
    {
      if |labelSet| == labelCount {
        return;
      }
      labelSet := Resize(labelSet, labelCount);
      var i := 0;
      while i < |labels|
        invariant 0 <= i <= |labels|
        invariant |labelSet| == labelCount
        invariant source == old(source) && target == old(target) && labels == old(labels)
        invariant forall l :: l in labels ==> l < labelCount
        invariant forall b :: 0 <= b < labelCount ==>
          labelSet[b] == ((b < |old(labelSet)| && old(labelSet)[b]) || b in labels[..i])
      {
        assert labels[..i + 1] == labels[..i] + [labels[i]];
        assert labels[i] in labels;
        labelSet := labelSet[labels[i] := true];
        i := i + 1;
      }
      assert labels[..i] == labels;
    }
  }

  /** `dynamic_bitset::resize`: existing bits are kept, new bits are clear. */
  function Resize(bits: seq<bool>, n: nat): (r: seq<bool>)
    ensures |r| == n
    ensures forall b :: 0 <= b < n ==> r[b] == (b < |bits| && bits[b])
  {
    if n <= |bits| then bits[..n] else bits + seq(n - |bits|, _ => false)
  }

  /** The bitset `init` leaves behind, as a function of the one it found. */
  function InitBits(bits: seq<bool>, labels: seq<nat>, labelCount: nat): (r: seq<bool>)
    ensures |r| == labelCount
    ensures |bits| == labelCount ==> r == bits
    ensures |bits| != labelCount ==>
      forall b :: 0 <= b < labelCount ==> r[b] == ((b < |bits| && bits[b]) || b in labels)
  {
    if |bits| == labelCount then bits
    else seq(labelCount, b requires 0 <= b < labelCount => (b < |bits| && bits[b]) || b in labels)
  }

  /** A second init changes nothing. */
  lemma InitIdempotent(bits: seq<bool>, labels: seq<nat>, labelCount: nat)
    ensures InitBits(InitBits(bits, labels, labelCount), labels, labelCount) == InitBits(bits, labels, labelCount)
  {
  }
}
