/**
 * The Bloom filters of src/dataStructures/BloomFilter.hpp: a bit vector
 * (boost::dynamic_bitset) in which `add` sets the bit at a hash modulo the
 * size and `contains` reads it, so an added key is never reported missing;
 * `|=` is the bitwise union. BloomFilter hashes a vertex with
 * boost::hash_value (the identity on integers) and its labelled overloads
 * with boost::hash_combine, which is taken as a parameter here;
 * BloomFilter1Hash and BloomFilter2Hash use hashFunc of
 * src/dataStructures/BloomFilter.cpp.
 */
module BloomFilters {
  import Queries

  // ---------------------------------------------------------------------
  // hashFunc
  // ---------------------------------------------------------------------

  /** The seed table of hashFunc(input, index). */
  const HashValues: seq<bv32> := [
    0xAAAAAAAA, 0x55555555, 0x33333333, 0xCCCCCCCC, 0x66666666, 0x99999999,
    0xB5B5B5B5, 0x4B4B4B4B, 0xAA55AA55, 0x55335533, 0x33CC33CC, 0xCC66CC66,
    0x66996699, 0x99B599B5, 0xB54BB54B, 0x4BAA4BAA, 0xAA33AA33, 0x55CC55CC,
    0x33663366, 0xCC99CC99, 0x66B566B5, 0x994B994B, 0xB5AAB5AA, 0xAAAAAA33,
    0x555555CC, 0x33333366, 0xCCCCCC99, 0x666666B5, 0x9999994B, 0xB5B5B5AA,
    0xFFFFFFFF, 0xFFFF0000, 0xB823D5EB, 0xC1191CDF, 0xF623AEB3, 0xDB58499F,
    0xC8D42E70, 0xB173F616, 0xA91A5967, 0xDA427D63, 0xB1E8A2EA, 0xF6C0D155,
    0x4909FEA3, 0xA68CC6A7, 0xC395E782, 0xA26057EB, 0x0CD5DA28, 0x467C5492,
    0xF15E6982, 0x61C6FAD3, 0x9615E352, 0x6E9E355A, 0x689B563E, 0x0C9831A8,
    0x6753C18B, 0xA622689B, 0x8CA63C47, 0x42CC2884, 0x8E89919B, 0x6EDBD7D3,
    0x15B6796C, 0x1D6FDFE4, 0x63FF9092, 0xE7401432, 0xEFFE9412, 0xAEAEDF79,
    0x9F245A31, 0x83C136FC, 0xC3DA4A8C, 0xA5112C8C, 0x5271F491, 0x9A948DAB,
    0xCEE59A8D, 0xB5F525AB, 0x59D13217, 0x24E7C331, 0x697C2103, 0x84B0A460,
    0x86156DA9, 0xAEF2AC68, 0x23243DA5, 0x3F649643, 0x5FA495A8, 0x67710DF8,
    0x9A6C499E, 0xDCFB0227, 0x46A43433, 0x1832B07A, 0xC46AFF3C, 0xB9C8FFF0,
    0xC9500467, 0x34431BDF, 0xB652432B, 0xE367F12B, 0x427F4C1B, 0x224C006E,
    0x2E7E5A89, 0x96F99AA5, 0x0BEB452A, 0x2FD87C39, 0x74B2E1FB, 0x222EFD24,
    0xF357F60C, 0x440FCB1E, 0x8BBE030F, 0x6704DC29, 0x1144D12F, 0x948B1355,
    0x6D8FD7E9, 0x1C11A014, 0xADD1592F, 0xFB3C712E, 0xFC77642F, 0xF9C4CE8C,
    0x31312FB9, 0x08B0DD79, 0x318FA6E7, 0xC040D23D, 0xC0589AA7, 0x0CA5C075,
    0xF874B172, 0x0CF914D5, 0x784D3280, 0x4E8CFEBC, 0xC569F575, 0xCDB2A091,
    0x2CC016B4, 0x5C5F4421
  ]

  /** joinHash: mixes a 32-bit input into a 32-bit hash, all arithmetic modulo 2^32. */
  function JoinHash(input: bv32, hash: bv32): bv32
  {
    hash ^ !((hash << 11) + (input ^ (hash >> 5)))
  }

  /** hashFunc(input): joinHash from the seed 0xAAAAAAAA. */
  function HashFunc(input: bv32): bv32
  {
    JoinHash(input, 0xAAAAAAAA)
  }

  /** hashFunc(input, index): joinHash from the index-th seed of the table. */
  function HashFuncAt(input: bv32, index: nat): bv32
    requires index < |HashValues|
  {
    JoinHash(input, HashValues[index])
  }

  /** A 32-bit value as the unsigned integer it denotes. */
  function Unsigned(h: bv32): (r: nat)
    ensures r < 0x1_0000_0000
  {
    h as nat
  }

  // ---------------------------------------------------------------------
  // The bit vector
  // ---------------------------------------------------------------------

  /** dynamic_bitset `|=` on equal sizes. */
  function Union(a: seq<bool>, b: seq<bool>): (r: seq<bool>)
    requires |a| == |b|
    ensures |r| == |a|
  {
    seq(|a|, k requires 0 <= k < |a| => a[k] || b[k])
  }

  /** The bit a hash lands on. */
  function Slot(hash: nat, n: nat): (r: nat)
    requires n > 0
    ensures r < n
  {
    hash % n
  }

  /** `bitVector[hash % bitVector.size()] = true`. */
  function SetSlot(bits: seq<bool>, hash: nat): (r: seq<bool>)
    requires |bits| > 0
    ensures |r| == |bits|
  {
    bits[Slot(hash, |bits|) := true]
  }

  /** `bitVector[hash % bitVector.size()]`. */
  predicate Has(bits: seq<bool>, hash: nat)
    requires |bits| > 0
  {
    bits[Slot(hash, |bits|)]
  }

  /** No false negatives: a hash just set is present, and so is every hash that was present. */
  lemma SetSlotContains(bits: seq<bool>, hash: nat, other: nat)
    requires |bits| > 0
    ensures Has(SetSlot(bits, hash), hash)
    ensures Has(bits, other) ==> Has(SetSlot(bits, hash), other)
    ensures forall k :: 0 <= k < |bits| && k != Slot(hash, |bits|) ==> SetSlot(bits, hash)[k] == bits[k]
  {
  }

  /** The union holds a hash exactly when either operand does. */
  lemma UnionContains(a: seq<bool>, b: seq<bool>, hash: nat)
    requires |a| == |b| > 0
    ensures Has(Union(a, b), hash) <==> Has(a, hash) || Has(b, hash)
  {
  }

  // ---------------------------------------------------------------------
  // addWithSuperSets
  // ---------------------------------------------------------------------

  /** `s` is a label set of the same width holding every label of `labelSet`. */
  predicate IsSuperset(s: seq<bool>, labelSet: seq<bool>)
  {
    |s| == |labelSet| && forall j :: 0 <= j < |labelSet| && labelSet[j] ==> s[j]
  }

  /** A superset that agrees with `labelSet` below i: what addWithSuperSets(labelSet, i) reaches. */
  predicate InFrom(s: seq<bool>, labelSet: seq<bool>, i: nat)
  {
    IsSuperset(s, labelSet) && forall j :: 0 <= j < i && j < |labelSet| ==> s[j] == labelSet[j]
  }

  /**
   * The label sets addWithSuperSets(labelSet, i) has added once its loop
   * has passed the indices below j: labelSet itself, and for every clear bit
   * m in [i, j) what the call on labelSet with m set, from m + 1, adds.
   */
  predicate Covered(s: seq<bool>, labelSet: seq<bool>, i: nat, j: nat)
    requires j <= |labelSet|
  {
    if j <= i then s == labelSet
    else Covered(s, labelSet, i, j - 1) || (!labelSet[j - 1] && InFrom(s, labelSet[j - 1 := true], j))
  }

  /**
   * Covered up to j is the supersets from i whose first difference from
   * labelSet (if any) lies below j.
   */
  lemma {:induction false} CoveredIff(s: seq<bool>, labelSet: seq<bool>, i: nat, j: nat)
    requires i <= j <= |labelSet|
    ensures Covered(s, labelSet, i, j) <==> InFrom(s, labelSet, i) && (s[..j] == labelSet[..j] ==> s == labelSet)
    decreases j
  {
    if j > i {
      CoveredIff(s, labelSet, i, j - 1);
      var next := labelSet[j - 1 := true];
      if InFrom(s, labelSet, i) && s[..j - 1] == labelSet[..j - 1] && s[j - 1] != labelSet[j - 1] {
        assert InFrom(s, next, j) by {
          forall m | 0 <= m < j
            ensures s[m] == next[m]
          {
            if m < j - 1 {
              assert s[..j - 1][m] == labelSet[..j - 1][m];
            }
          }
        }
      }
      if !labelSet[j - 1] && InFrom(s, next, j) {
        assert s[..j - 1] == labelSet[..j - 1];
        assert s != labelSet by {
          assert s[j - 1] != labelSet[j - 1];
        }
      }
      if |s| == |labelSet| && s[..j - 1] != labelSet[..j - 1] {
        assert s[..j] != labelSet[..j] by {
          assert s[..j][..j - 1] == s[..j - 1];
          assert labelSet[..j][..j - 1] == labelSet[..j - 1];
        }
      }
      if |s| == |labelSet| && s[..j - 1] == labelSet[..j - 1] && s[j - 1] == labelSet[j - 1] {
        assert s[..j] == labelSet[..j];
      }
    } else {
      if s == labelSet {
        assert InFrom(s, labelSet, i);
      }
      if InFrom(s, labelSet, i) {
        assert s[..j] == labelSet[..j];
      }
    }
  }

  /** Once the loop is done every superset from i is covered, and nothing else is. */
  lemma CoveredAll(s: seq<bool>, labelSet: seq<bool>, i: nat)
    requires i <= |labelSet|
    ensures Covered(s, labelSet, i, |labelSet|) <==> InFrom(s, labelSet, i)
  {
    CoveredIff(s, labelSet, i, |labelSet|);
    if InFrom(s, labelSet, i) {
      assert s[..|labelSet|] == s && labelSet[..|labelSet|] == labelSet;
    }
  }

  // ---------------------------------------------------------------------
  // The filters
  // ---------------------------------------------------------------------

  /**
   * BloomFilter: one bit per key, the key's boost hash modulo the size.
   * Every `add` and `contains` takes the size modulo, so the filter must
   * have been set up with at least one bit.
   */
  class BloomFilter {
    var bits: seq<bool>

    constructor ()
      ensures bits == []
    {
      bits := [];
    }

    /** setup(bits): resize the vector. */
    method Setup(size: nat)
      modifies this
      ensures bits == Queries.Resize(old(bits), size)
    {
      bits := Queries.Resize(bits, size);
    }

    /** empty(): the vector has no bits. */
    function Empty(): (r: bool)
      reads this
      ensures r <==> |bits| == 0
    {
      |bits| == 0
    }

    /** `|=`: the bitwise union with a filter of the same size. */
    method UnionWith(rhs: BloomFilter)
      requires |bits| == |rhs.bits|
      modifies this
      ensures bits == Union(old(bits), old(rhs.bits))
    {
      bits := Union(bits, rhs.bits);
    }

    /** add(vertex): boost::hash_value of an integer is the integer. */
    method Add(vertex: bv32)
      requires |bits| > 0
      modifies this
      ensures bits == SetSlot(old(bits), Unsigned(vertex)) && Contains(vertex)
    {
      bits := bits[Slot(Unsigned(vertex), |bits|) := true];
    }

    /** contains(vertex). */
    function Contains(vertex: bv32): (r: bool)
      reads this
      requires |bits| > 0
      ensures r == Has(bits, Unsigned(vertex))
    {
      bits[Slot(Unsigned(vertex), |bits|)]
    }

    /**
     * add(vertex, labelSet) and add(vertex, label): `hash` is the boost
     * hash of the vertex combined with the hash of the label set or label.
     */
    method AddHash(hash: nat)
      requires |bits| > 0
      modifies this
      ensures bits == SetSlot(old(bits), hash) && ContainsHash(hash)
    {
      bits := bits[Slot(hash, |bits|) := true];
    }

    /** containsHash(hash), and contains(vertex, labelSet) / contains(vertex, label) with the combined hash. */
    function ContainsHash(hash: nat): (r: bool)
      reads this
      requires |bits| > 0
      ensures r == Has(bits, hash)
    {
      bits[Slot(hash, |bits|)]
    }

    /** containsAt(pos): the bit itself. */
    function ContainsAt(pos: nat): (r: bool)
      reads this
      requires pos < |bits|
      ensures r == bits[pos]
    {
      bits[pos]
    }

    /**
     * addWithSuperSets(vertex, labelSet): the label set and every label set
     * of the same width containing it are added. `combined` gives the boost
     * hash of the vertex combined with the hash of a label set. Afterwards
     * a bit is set iff it was set or some such superset hashes to it.
     */
    method AddWithSuperSets(labelSet: seq<bool>, combined: seq<bool> -> nat)
      requires |bits| > 0
      modifies this
      ensures |bits| == |old(bits)|
      ensures forall s :: IsSuperset(s, labelSet) ==> ContainsHash(combined(s))
      ensures forall k :: 0 <= k < |bits| ==>
        (bits[k] <==> old(bits)[k] || exists s :: IsSuperset(s, labelSet) && Slot(combined(s), |bits|) == k)
    {
      AddWithSuperSetsFrom(labelSet, 0, combined);
    }

    /**
     * The private addWithSuperSets(vertex, labelSet, i): add the label set,
     * then for every clear bit from i on recurse on the set with that bit
     * set, from the next index. The public overload is this body with i = 0.
     */
    method AddWithSuperSetsFrom(labelSet: seq<bool>, i: nat, combined: seq<bool> -> nat)
      requires |bits| > 0 && i <= |labelSet|
      modifies this
      ensures |bits| == |old(bits)|
      ensures forall s :: InFrom(s, labelSet, i) ==> ContainsHash(combined(s))
      ensures forall k :: 0 <= k < |bits| ==>
        (bits[k] <==> old(bits)[k] || exists s :: InFrom(s, labelSet, i) && Slot(combined(s), |bits|) == k)
      decreases multiset(labelSet)[false]
    {
      ghost var n := |bits|;
      ghost var bits0 := bits;
      AddHash(combined(labelSet));
      forall k | 0 <= k < n
        ensures bits[k] <==> bits0[k] || exists s :: Covered(s, labelSet, i, i) && Slot(combined(s), n) == k
      {
        if k == Slot(combined(labelSet), n) {
          assert Covered(labelSet, labelSet, i, i);
        }
      }
      for j := i to |labelSet|
        invariant |bits| == n
        invariant forall k :: 0 <= k < n ==>
          (bits[k] <==> bits0[k] || exists s :: Covered(s, labelSet, i, j) && Slot(combined(s), n) == k)
      {
        if labelSet[j] {
          continue;
        }
        var next := labelSet[j := true];
        assert multiset(next)[false] < multiset(labelSet)[false] by {
          assert labelSet == labelSet[..j] + [false] + labelSet[j + 1..];
          assert next == labelSet[..j] + [true] + labelSet[j + 1..];
        }
        ghost var before := bits;
        AddWithSuperSetsFrom(next, j + 1, combined);
        CoveredStep(before, bits, bits0, labelSet, i, j, combined);
      }
      forall s
        ensures Covered(s, labelSet, i, |labelSet|) <==> InFrom(s, labelSet, i)
      {
        CoveredAll(s, labelSet, i);
      }
      forall s | InFrom(s, labelSet, i)
        ensures ContainsHash(combined(s))
      {
        assert Covered(s, labelSet, i, |labelSet|);
      }
    }
  }

  /** One round of the superset loop: the recursive call adds exactly what Covered gains at j. */
  lemma CoveredStep(before: seq<bool>, after: seq<bool>, bits0: seq<bool>, labelSet: seq<bool>, i: nat, j: nat,
                    combined: seq<bool> -> nat)
    requires i <= j < |labelSet| && !labelSet[j] && |before| == |after| == |bits0| > 0
    requires forall k :: 0 <= k < |before| ==>
      (before[k] <==> bits0[k] || exists s :: Covered(s, labelSet, i, j) && Slot(combined(s), |before|) == k)
    requires forall k :: 0 <= k < |after| ==>
      (after[k] <==> before[k] || exists s :: InFrom(s, labelSet[j := true], j + 1) && Slot(combined(s), |after|) == k)
    ensures forall k :: 0 <= k < |after| ==>
      (after[k] <==> bits0[k] || exists s :: Covered(s, labelSet, i, j + 1) && Slot(combined(s), |after|) == k)
  {
    var n := |after|;
    forall k | 0 <= k < n
      ensures after[k] <==> bits0[k] || exists s :: Covered(s, labelSet, i, j + 1) && Slot(combined(s), n) == k
    {
      if exists s :: Covered(s, labelSet, i, j + 1) && Slot(combined(s), n) == k {
        var s :| Covered(s, labelSet, i, j + 1) && Slot(combined(s), n) == k;
        if !Covered(s, labelSet, i, j) {
          assert InFrom(s, labelSet[j := true], j + 1);
        }
      }
      if exists s :: InFrom(s, labelSet[j := true], j + 1) && Slot(combined(s), n) == k {
        var s :| InFrom(s, labelSet[j := true], j + 1) && Slot(combined(s), n) == k;
        assert Covered(s, labelSet, i, j + 1);
      }
      if exists s :: Covered(s, labelSet, i, j) && Slot(combined(s), n) == k {
        var s :| Covered(s, labelSet, i, j) && Slot(combined(s), n) == k;
        assert Covered(s, labelSet, i, j + 1);
      }
    }
  }

  /** BloomFilter1Hash: one bit per vertex, at hashFunc(vertex) modulo the size. */
  class BloomFilter1Hash {
    var bits: seq<bool>

    constructor ()
      ensures bits == []
    {
      bits := [];
    }

    method Setup(size: nat)
      modifies this
      ensures bits == Queries.Resize(old(bits), size)
    {
      bits := Queries.Resize(bits, size);
    }

    function Empty(): (r: bool)
      reads this
      ensures r <==> |bits| == 0
    {
      |bits| == 0
    }

    method UnionWith(rhs: BloomFilter1Hash)
      requires |bits| == |rhs.bits|
      modifies this
      ensures bits == Union(old(bits), old(rhs.bits))
    {
      bits := Union(bits, rhs.bits);
    }

    /** add: exactly the one bit of hashFunc(vertex) is set. */
    method Add(vertex: bv32)
      requires |bits| > 0
      modifies this
      ensures bits == SetSlot(old(bits), Unsigned(HashFunc(vertex))) && Contains(vertex)
    {
      var hash := HashFunc(vertex);
      bits := bits[Slot(Unsigned(hash), |bits|) := true];
    }

    function Contains(vertex: bv32): (r: bool)
      reads this
      requires |bits| > 0
      ensures r == Has(bits, Unsigned(HashFunc(vertex)))
    {
      var hash := HashFunc(vertex);
      bits[Slot(Unsigned(hash), |bits|)]
    }
  }

  /** BloomFilter2Hash: two bits per vertex, from the first two seeds of the table. */
  class BloomFilter2Hash {
    var bits: seq<bool>

    constructor ()
      ensures bits == []
    {
      bits := [];
    }

    method Setup(size: nat)
      modifies this
      ensures bits == Queries.Resize(old(bits), size)
    {
      bits := Queries.Resize(bits, size);
    }

    function Empty(): (r: bool)
      reads this
      ensures r <==> |bits| == 0
    {
      |bits| == 0
    }

    method UnionWith(rhs: BloomFilter2Hash)
      requires |bits| == |rhs.bits|
      modifies this
      ensures bits == Union(old(bits), old(rhs.bits))
    {
      bits := Union(bits, rhs.bits);
    }

    /** add: the bits of hashFunc(vertex, 0) and hashFunc(vertex, 1) are set. */
    method Add(vertex: bv32)
      requires |bits| > 0
      modifies this
      ensures bits == SetSlot(SetSlot(old(bits), Unsigned(HashFuncAt(vertex, 0))), Unsigned(HashFuncAt(vertex, 1)))
      ensures Contains(vertex)
    {
      var hash := HashFuncAt(vertex, 0);
      bits := bits[Slot(Unsigned(hash), |bits|) := true];
      hash := HashFuncAt(vertex, 1);
      bits := bits[Slot(Unsigned(hash), |bits|) := true];
    }

    /** contains: false as soon as the first bit is clear, else the second bit. */
    function Contains(vertex: bv32): (r: bool)
      reads this
      requires |bits| > 0
      ensures r <==> TwoHashHas(bits, vertex)
    {
      var hash := HashFuncAt(vertex, 0);
      if !bits[Slot(Unsigned(hash), |bits|)] then false
      else
        var hash' := HashFuncAt(vertex, 1);
        bits[Slot(Unsigned(hash'), |bits|)]
    }
  }

  /** A BloomFilter2Hash holds a vertex iff both of its bits are set. */
  predicate TwoHashHas(bits: seq<bool>, vertex: bv32)
    requires |bits| > 0
  {
    Has(bits, Unsigned(HashFuncAt(vertex, 0))) && Has(bits, Unsigned(HashFuncAt(vertex, 1)))
  }

  /** Adding to a BloomFilter2Hash makes the vertex present and keeps every present vertex. */
  lemma TwoHashAdd(bits: seq<bool>, vertex: bv32, other: bv32)
    requires |bits| > 0
    ensures TwoHashHas(SetSlot(SetSlot(bits, Unsigned(HashFuncAt(vertex, 0))), Unsigned(HashFuncAt(vertex, 1))), vertex)
    ensures TwoHashHas(bits, other) ==>
      TwoHashHas(SetSlot(SetSlot(bits, Unsigned(HashFuncAt(vertex, 0))), Unsigned(HashFuncAt(vertex, 1))), other)
  {
    var first, second := Unsigned(HashFuncAt(vertex, 0)), Unsigned(HashFuncAt(vertex, 1));
    var once := SetSlot(bits, first);
    SetSlotContains(bits, first, second);
    SetSlotContains(once, second, first);
    var other0, other1 := Unsigned(HashFuncAt(other, 0)), Unsigned(HashFuncAt(other, 1));
    SetSlotContains(bits, first, other0);
    SetSlotContains(bits, first, other1);
    SetSlotContains(once, second, other0);
    SetSlotContains(once, second, other1);
  }

  /** A BloomFilter2Hash union holds every vertex either operand holds. */
  lemma TwoHashUnion(a: seq<bool>, b: seq<bool>, vertex: bv32)
    requires |a| == |b| > 0
    ensures TwoHashHas(a, vertex) || TwoHashHas(b, vertex) ==> TwoHashHas(Union(a, b), vertex)
  {
  }
}
