/**
 * The Landmark-plus index (src/lcrIndex/LandmarkPlusIndex.cpp): for every
 * landmark a list of (vertex, label set) entries, each label set a minimal
 * set of labels under which the landmark reaches the vertex. Label sets
 * (`boost::dynamic_bitset`) are modelled as sets of label numbers, and
 * `is_subset_of` as `<=`.
 */
module LandmarkPlus {
  import opened VertexOrders
  import opened IndexCommon
  import Text

  /** No stored label set contains another one (nor equals it). */
  predicate Antichain(sets: seq<LabelSet>)
  {
    forall i, j :: 0 <= i < |sets| && 0 <= j < |sets| && i != j ==> !(sets[i] <= sets[j])
  }

  /** Some stored label set is contained in `labels`: the labels suffice. */
  predicate Covered(sets: seq<LabelSet>, labels: LabelSet)
  {
    exists i :: 0 <= i < |sets| && sets[i] <= labels
  }

  /**
   * tryInsert: offer the label set `labelSet` under which `landmark` reaches
   * `target`. The landmark itself is always accepted and nothing is stored.
   * An offer covered by a stored set is refused. Otherwise the offer takes
   * the slot of the first stored superset, later supersets are swapped to
   * the end and erased, and without any superset it is appended.
   * `totalCount` moves by the change in length of the target's list.
   */
  method TryInsert(landmark: nat, target: nat, labelSet: LabelSet, vertexLookup: array<seq<LabelSet>>, totalCount: int)
    returns (accepted: bool, count: int)
    requires target < vertexLookup.Length
    modifies vertexLookup
    ensures target == landmark ==> accepted && vertexLookup[..] == old(vertexLookup[..]) && count == totalCount
    ensures target != landmark ==> (accepted <==> !Covered(old(vertexLookup[target]), labelSet))
    ensures !accepted ==> vertexLookup[..] == old(vertexLookup[..]) && count == totalCount
    ensures accepted && target != landmark ==>
      vertexLookup[..] == old(vertexLookup[..])[target := vertexLookup[target]] &&
      Replaced(old(vertexLookup[target]), labelSet, vertexLookup[target])
    ensures count == totalCount + |vertexLookup[target]| - |old(vertexLookup[target])|
  {
    if target == landmark {
      return true, totalCount;
    }
    var index := vertexLookup[target];
    for k := 0 to |index|
      invariant forall j :: 0 <= j < k ==> !(index[j] <= labelSet)
    {
      if index[k] <= labelSet {
        return false, totalCount;
      }
    }
    var inserted;
    index, inserted, count := ReplaceSupersets(index, labelSet, totalCount + 1);
    if !inserted {
      index := index + [labelSet];
      AppendReplaces(vertexLookup[target], labelSet);
    }
    vertexLookup[target] := index;
    accepted := true;
  }

  /**
   * `r` is `index` with every superset of `labelSet` taken out and `labelSet`
   * put in once: counted element by element, the order being free.
   */
  ghost predicate Replaced(index: seq<LabelSet>, labelSet: LabelSet, r: seq<LabelSet>)
  {
    forall x {:trigger multiset(r)[x]} :: multiset(r)[x] ==
      if x == labelSet then 1 else if labelSet <= x then 0 else multiset(index)[x]
  }

  /**
   * The replacement loop of tryInsert over a list none of whose sets lies
   * inside `labelSet`: the first superset is overwritten with `labelSet`,
   * every later one is swapped with the last live slot, and the dead tail
   * is erased. `inserted` tells whether a superset was found.
   */
  method ReplaceSupersets(index0: seq<LabelSet>, labelSet: LabelSet, count0: int)
    returns (index: seq<LabelSet>, inserted: bool, count: int)
    requires forall j :: 0 <= j < |index0| ==> !(index0[j] <= labelSet)
    ensures inserted ==> Replaced(index0, labelSet, index)
    ensures !inserted ==> index == index0 && forall j :: 0 <= j < |index0| ==> !(labelSet <= index0[j])
    ensures count == count0 + |index| - |index0| - (if inserted then 1 else 0)
  {
    index, inserted, count := index0, false, count0;
    if |index| == 0 {
      return;
    }
    var n := |index|;
    var end: int := n - 1;
    var i: int := 0;
    ghost var k := 0;
    assert index[..n] == index;
    while i <= end
      invariant |index| == n && -1 <= end < n && 0 <= k <= end + 1
      invariant i == k || (inserted && i == end + 2 && k == end + 1)
      invariant Sweep(index0, index, labelSet, end, k, inserted)
      invariant count == count0 - (if inserted then 1 else 0) - (n - 1 - end)
      decreases end + 2 - i
    {
      index, end, i, k, inserted, count := SweepStep(index0, index, labelSet, end, i, k, inserted, count);
    }
    if end != n - 1 {
      index := index[..end + 1];
    }
    assert index[..|index|] == index;
    if inserted {
      SweptDone(index0, index, labelSet, k, end);
    } else {
      assert forall j :: 0 <= j < n ==> index0[j] == index[j];
    }
  }

  /** One pass of the replacement loop at slot `i` (with `i--` after a swap, as the loop is written). */
  method SweepStep(ghost index0: seq<LabelSet>, index0': seq<LabelSet>, labelSet: LabelSet, end0: int, i0: int,
                   ghost k0: nat, inserted0: bool, count0: int)
    returns (index: seq<LabelSet>, end: int, i: int, ghost k: nat, inserted: bool, count: int)
    requires 0 <= i0 == k0 <= end0 && Sweep(index0, index0', labelSet, end0, k0, inserted0)
    ensures 0 <= k <= end + 1 && (i == k || (inserted && i == end + 2 && k == end + 1))
    ensures Sweep(index0, index, labelSet, end, k, inserted) && |index| == |index0'|
    ensures end + 2 - i < end0 + 2 - i0
    ensures inserted0 ==> inserted
    ensures count + (if inserted then 1 else 0) - end == count0 + (if inserted0 then 1 else 0) - end0
  {
    if labelSet <= index0'[i0] {
      if inserted0 {
        index, end, i, k, inserted, count := SweepDropStep(index0, index0', labelSet, end0, i0, k0, inserted0, count0);
      } else {
        index, end, i, k, inserted, count := SweepPlaceStep(index0, index0', labelSet, end0, i0, k0, inserted0, count0);
      }
    } else {
      SweepKeep(index0, index0', labelSet, end0, k0, inserted0);
      index, end, i, k, inserted, count := index0', end0, i0 + 1, k0 + 1, inserted0, count0;
    }
  }

  /** A later superset: swap it with the last live slot, which is examined next, and shrink the live part. */
  method SweepDropStep(ghost index0: seq<LabelSet>, index0': seq<LabelSet>, labelSet: LabelSet, end0: int, i0: int,
                   ghost k0: nat, inserted0: bool, count0: int)
    returns (index: seq<LabelSet>, end: int, i: int, ghost k: nat, inserted: bool, count: int)
    requires 0 <= i0 == k0 <= end0 && Sweep(index0, index0', labelSet, end0, k0, inserted0)
    requires inserted0 && labelSet <= index0'[i0]
    ensures 0 <= k <= end + 1 && (i == k || (inserted && i == end + 2 && k == end + 1))
    ensures Sweep(index0, index, labelSet, end, k, inserted) && |index| == |index0'|
    ensures end + 2 - i < end0 + 2 - i0
    ensures inserted0 ==> inserted
    ensures count + (if inserted then 1 else 0) - end == count0 + (if inserted0 then 1 else 0) - end0
  {
    index, end, i, k, inserted, count := index0', end0, i0, k0, inserted0, count0;
    if i != end {
      index := index[i := index[end]][end := index[i]];
      i := i - 1;
    }
    SweepDrop(index0, index0', index, labelSet, end, k);
    count := count - 1;
    end := end - 1;
    i := i + 1;
  }

  /** The first superset: overwrite it with `labelSet`. */
  method SweepPlaceStep(ghost index0: seq<LabelSet>, index0': seq<LabelSet>, labelSet: LabelSet, end0: int, i0: int,
                   ghost k0: nat, inserted0: bool, count0: int)
    returns (index: seq<LabelSet>, end: int, i: int, ghost k: nat, inserted: bool, count: int)
    requires 0 <= i0 == k0 <= end0 && Sweep(index0, index0', labelSet, end0, k0, inserted0)
    requires !inserted0 && labelSet <= index0'[i0]
    ensures 0 <= k <= end + 1 && (i == k || (inserted && i == end + 2 && k == end + 1))
    ensures Sweep(index0, index, labelSet, end, k, inserted) && |index| == |index0'|
    ensures end + 2 - i < end0 + 2 - i0
    ensures inserted0 ==> inserted
    ensures count + (if inserted then 1 else 0) - end == count0 + (if inserted0 then 1 else 0) - end0
  {
    index := index0'[i0 := labelSet];
    SweepPlace(index0, index0', index, labelSet, end0, k0);
    end, i, k, inserted, count := end0, i0 + 1, k0 + 1, true, count0 - 1;
  }

  /**
   * The state of the replacement loop: index[..k] is examined, index[k..end]
   * still holds original sets, and the dead tail beyond `end` holds only
   * supersets of `labelSet`.
   */
  ghost predicate Sweep(index0: seq<LabelSet>, index: seq<LabelSet>, labelSet: LabelSet, end: int, k: nat, inserted: bool)
  {
    |index| == |index0| && -1 <= end < |index| && k <= end + 1 &&
    Swept(index, labelSet, k, inserted) &&
    (forall j :: k <= j < |index| ==> !(index[j] <= labelSet)) &&
    (forall j :: end < j < |index| ==> labelSet <= index[j]) &&
    Live(index0, index, labelSet, end + 1) &&
    (!inserted ==> end == |index| - 1 && index == index0)
  }

  /** Passing over a set that is no superset. */
  lemma SweepKeep(index0: seq<LabelSet>, index: seq<LabelSet>, labelSet: LabelSet, end: int, k: nat, inserted: bool)
    requires Sweep(index0, index, labelSet, end, k, inserted) && k <= end && !(labelSet <= index[k])
    ensures Sweep(index0, index, labelSet, end, k + 1, inserted)
  {
    SweptKeep(index, labelSet, k, inserted);
  }

  /** Overwriting the first superset with `labelSet`. */
  lemma SweepPlace(index0: seq<LabelSet>, index: seq<LabelSet>, index': seq<LabelSet>, labelSet: LabelSet, end: int, k: nat)
    requires Sweep(index0, index, labelSet, end, k, false) && k <= end && labelSet <= index[k]
    requires index' == index[k := labelSet]
    ensures Sweep(index0, index', labelSet, end, k + 1, true)
  {
    PlaceKeepsLive(index0, index, labelSet, k, end);
    SweptPlace(index, index', labelSet, k);
  }

  /** Moving a later superset behind the live slots (a swap unless it is the last live one). */
  lemma SweepDrop(index0: seq<LabelSet>, index: seq<LabelSet>, index': seq<LabelSet>, labelSet: LabelSet, end: int, k: nat)
    requires Sweep(index0, index, labelSet, end, k, true) && k <= end && labelSet <= index[k]
    requires index' == if k != end then index[k := index[end]][end := index[k]] else index
    ensures Sweep(index0, index', labelSet, end - 1, k, true)
  {
    if k != end {
      SwapKeepsLive(index0, index, labelSet, k, end);
      assert index'[..k] == index[..k];
    }
    DropKeepsLive(index0, index', labelSet, end);
  }

  /**
   * The examined prefix index[..k]: each entry is `labelSet` or no superset
   * of it, and `labelSet` occurs there once exactly when it was inserted.
   */
  ghost predicate Swept(index: seq<LabelSet>, labelSet: LabelSet, k: nat, inserted: bool)
  {
    k <= |index| &&
    (forall j :: 0 <= j < k ==> index[j] == labelSet || !(labelSet <= index[j])) &&
    multiset(index[..k])[labelSet] == (if inserted then 1 else 0)
  }

  /** The live slots index[..m] hold every set that is no superset of `labelSet` as often as `index0`. */
  ghost predicate Live(index0: seq<LabelSet>, index: seq<LabelSet>, labelSet: LabelSet, m: nat)
  {
    m <= |index| &&
    forall x {:trigger multiset(index0)[x]} :: !(labelSet <= x) ==> multiset(index[..m])[x] == multiset(index0)[x]
  }

  /** Examining a non-superset extends the swept prefix. */
  lemma SweptKeep(index: seq<LabelSet>, labelSet: LabelSet, k: nat, inserted: bool)
    requires Swept(index, labelSet, k, inserted) && k < |index| && !(labelSet <= index[k])
    ensures Swept(index, labelSet, k + 1, inserted)
  {
    assert index[..k + 1] == index[..k] + [index[k]];
  }

  /** Overwriting the superset at k with `labelSet` extends the swept prefix and marks the insertion. */
  lemma SweptPlace(index: seq<LabelSet>, index': seq<LabelSet>, labelSet: LabelSet, k: nat)
    requires Swept(index, labelSet, k, false) && k < |index| && index' == index[k := labelSet]
    ensures Swept(index', labelSet, k + 1, true)
  {
    assert index'[..k] == index[..k];
    assert index'[..k + 1] == index[..k] + [labelSet];
  }

  /** Swapping two live slots keeps the live multiset. */
  lemma SwapKeepsLive(index0: seq<LabelSet>, index: seq<LabelSet>, labelSet: LabelSet, i: nat, end: nat)
    requires Live(index0, index, labelSet, end + 1) && i < end < |index|
    ensures Live(index0, index[i := index[end]][end := index[i]], labelSet, end + 1)
  {
    var index' := index[i := index[end]][end := index[i]];
    var a := index[..i];
    var b := index[i + 1..end];
    assert index[..end + 1] == a + [index[i]] + b + [index[end]];
    assert index'[..end + 1] == a + [index[end]] + b + [index[i]];
    assert multiset(index'[..end + 1]) == multiset(index[..end + 1]);
  }

  /** Dropping the last live slot, a superset of `labelSet`, keeps the live multiset. */
  lemma DropKeepsLive(index0: seq<LabelSet>, index: seq<LabelSet>, labelSet: LabelSet, end: nat)
    requires Live(index0, index, labelSet, end + 1) && end < |index| && labelSet <= index[end]
    ensures Live(index0, index, labelSet, end)
  {
    assert index[..end + 1] == index[..end] + [index[end]];
  }

  /** Overwriting a live superset with `labelSet` keeps the live multiset. */
  lemma PlaceKeepsLive(index0: seq<LabelSet>, index: seq<LabelSet>, labelSet: LabelSet, i: nat, end: nat)
    requires Live(index0, index, labelSet, end + 1) && i <= end < |index| && labelSet <= index[i]
    ensures Live(index0, index[i := labelSet], labelSet, end + 1)
  {
    var index' := index[i := labelSet];
    var a, b := index[..i], index[i + 1..end + 1];
    assert index[..end + 1] == a + [index[i]] + b;
    assert index'[..end + 1] == a + [labelSet] + b;
    var m, m' := multiset(index[..end + 1]), multiset(index'[..end + 1]);
    assert m == multiset(a) + multiset{index[i]} + multiset(b);
    assert m' == multiset(a) + multiset{labelSet} + multiset(b);
    forall x | !(labelSet <= x)
      ensures m'[x] == m[x]
    {
      assert x != index[i] && x != labelSet;
    }
  }

  /** With every live slot examined, the live slots are the replaced list. */
  lemma SweptDone(index0: seq<LabelSet>, index: seq<LabelSet>, labelSet: LabelSet, k: nat, end: int)
    requires k == end + 1 == |index|
    requires Swept(index, labelSet, k, true) && Live(index0, index, labelSet, end + 1)
    requires forall j :: 0 <= j < |index0| ==> !(index0[j] <= labelSet)
    ensures Replaced(index0, labelSet, index)
  {
    assert index[..k] == index;
    forall x
      ensures multiset(index)[x] == if x == labelSet then 1 else if labelSet <= x then 0 else multiset(index0)[x]
    {
    }
  }

  /** Appending to a list without any superset of `labelSet` replaces nothing. */
  lemma AppendReplaces(index: seq<LabelSet>, labelSet: LabelSet)
    requires forall j :: 0 <= j < |index| ==> !(labelSet <= index[j])
    ensures Replaced(index, labelSet, index + [labelSet])
  {
    assert multiset(index + [labelSet]) == multiset(index) + multiset{labelSet};
    forall x | labelSet <= x
      ensures multiset(index)[x] == 0
    {
    }
  }

  /**
   * Replacing keeps the list an antichain: the new set is not above any
   * stored set, and every stored set above it has gone.
   */
  lemma ReplacedAntichain(index: seq<LabelSet>, labelSet: LabelSet, r: seq<LabelSet>)
    requires Antichain(index) && !Covered(index, labelSet) && Replaced(index, labelSet, r)
    ensures Antichain(r)
  {
    forall i, j | 0 <= i < |r| && 0 <= j < |r| && i != j
      ensures !(r[i] <= r[j])
    {
      ReplacedMember(index, labelSet, r, r[i]);
      ReplacedMember(index, labelSet, r, r[j]);
      if r[i] == r[j] {
        assert multiset(r)[r[i]] >= 2 by {
          assert r == r[..i] + [r[i]] + r[i + 1..];
          if i < j {
            assert r[j] in r[i + 1..] by { assert r[i + 1..][j - i - 1] == r[j]; }
          } else {
            assert r[j] in r[..i] by { assert r[..i][j] == r[j]; }
          }
        }
        if r[i] != labelSet {
          var a :| 0 <= a < |index| && index[a] == r[i];
          assert multiset(index)[r[i]] >= 2;
          AntichainOnce(index, a);
        }
      } else if r[i] != labelSet && r[j] != labelSet {
        var a :| 0 <= a < |index| && index[a] == r[i];
        var b :| 0 <= b < |index| && index[b] == r[j];
      } else if r[i] != labelSet {
        var a :| 0 <= a < |index| && index[a] == r[i];
      }
    }
  }

  /** A set of an antichain occurs in it once. */
  lemma AntichainOnce(index: seq<LabelSet>, a: nat)
    requires Antichain(index) && a < |index|
    ensures multiset(index)[index[a]] == 1
  {
    var rest := index[..a] + index[a + 1..];
    assert index == index[..a] + [index[a]] + index[a + 1..];
    forall j | 0 <= j < |rest|
      ensures rest[j] != index[a]
    {
      if j < a {
        assert rest[j] == index[j];
      } else {
        assert rest[j] == index[j + 1];
      }
    }
    assert multiset(index) == multiset(rest) + multiset{index[a]};
  }

  /** A set in the replaced list is the new set or a stored set that is no superset of it. */
  lemma ReplacedMember(index: seq<LabelSet>, labelSet: LabelSet, r: seq<LabelSet>, x: LabelSet)
    requires Replaced(index, labelSet, r) && x in r
    ensures x == labelSet || (x in index && !(labelSet <= x))
  {
    assert multiset(r)[x] > 0;
  }

  /**
   * The replaced list admits exactly the label sets the old one admitted,
   * together with every superset of the new set: no reachability is lost
   * by dropping the supersets.
   */
  lemma ReplacedCovers(index: seq<LabelSet>, labelSet: LabelSet, r: seq<LabelSet>, labels: LabelSet)
    requires Replaced(index, labelSet, r)
    ensures Covered(r, labels) <==> Covered(index, labels) || labelSet <= labels
  {
    if Covered(r, labels) {
      var i :| 0 <= i < |r| && r[i] <= labels;
      ReplacedMember(index, labelSet, r, r[i]);
      if r[i] != labelSet {
        var a :| 0 <= a < |index| && index[a] == r[i];
      }
    }
    if labelSet <= labels {
      assert multiset(r)[labelSet] == 1;
      var i :| 0 <= i < |r| && r[i] == labelSet;
    }
    if Covered(index, labels) {
      var a :| 0 <= a < |index| && index[a] <= labels;
      if !(labelSet <= index[a]) {
        assert multiset(r)[index[a]] == multiset(index)[index[a]] > 0;
        var i :| 0 <= i < |r| && r[i] == index[a];
      }
    }
  }

  /** The entries of one landmark's vertexLookup, vertex by vertex, each vertex's sets in their order. */
  function Entries(lookup: seq<seq<LabelSet>>): (r: seq<Entry>)
    ensures |r| == SetCount(lookup)
  {
    if |lookup| == 0 then [] else Entries(lookup[..|lookup| - 1]) + Row(|lookup| - 1, lookup[|lookup| - 1])
  }

  /** The entries of one vertex. */
  function Row(v: nat, sets: seq<LabelSet>): (r: seq<Entry>)
    ensures |r| == |sets| && forall k :: 0 <= k < |sets| ==> r[k] == Entry(v, sets[k])
  {
    seq(|sets|, k requires 0 <= k < |sets| => Entry(v, sets[k]))
  }

  /** The number of stored label sets over all vertices: the `totalCount` the list is reserved for. */
  function SetCount(lookup: seq<seq<LabelSet>>): nat
  {
    if |lookup| == 0 then 0 else SetCount(lookup[..|lookup| - 1]) + |lookup[|lookup| - 1]|
  }

  /**
   * The collected list is in vertex order and holds exactly the stored
   * (vertex, set) pairs, so lower_bound on it finds a vertex's sets.
   */
  lemma {:induction false} EntriesSpec(lookup: seq<seq<LabelSet>>)
    ensures VertexSorted(Entries(lookup))
    ensures forall e: Entry :: e in Entries(lookup) <==> e.vertex < |lookup| && e.labels in lookup[e.vertex]
    ensures forall i :: 0 <= i < |Entries(lookup)| ==> Entries(lookup)[i].vertex < |lookup|
  {
    if |lookup| > 0 {
      var init := lookup[..|lookup| - 1];
      var last := |lookup| - 1;
      EntriesSpec(init);
      var a, b := Entries(init), Row(last, lookup[last]);
      assert Entries(lookup) == a + b;
      forall e: Entry
        ensures e in a + b <==> e.vertex < |lookup| && e.labels in lookup[e.vertex]
      {
        if e in b {
          var k :| 0 <= k < |b| && b[k] == e;
        }
        if e.vertex == last && e.labels in lookup[last] {
          var k :| 0 <= k < |lookup[last]| && lookup[last][k] == e.labels;
          assert b[k] == e;
        }
        if e.vertex < last {
          assert lookup[e.vertex] == init[e.vertex];
        }
      }
    }
  }

  /** The non-landmark position i is stored in the mapping as -(i + 1). */
  function EncodeNonLandmark(i: nat): (m: int)
    ensures m < 0
  {
    -(i + 1)
  }

  /** getNonLandmark's index -(m + 1) recovers the position. */
  function DecodeNonLandmark(m: int): int
  {
    -(m + 1)
  }

  /** Decoding inverts encoding. */
  lemma NonLandmarkRoundTrip(i: nat)
    ensures DecodeNonLandmark(EncodeNonLandmark(i)) == i
  {
  }

  /** Every negative mapping is the encoding of a position. */
  lemma NonLandmarkOnto(m: int)
    requires m < 0
    ensures DecodeNonLandmark(m) >= 0 && EncodeNonLandmark(DecodeNonLandmark(m)) == m
  {
  }

  /** The mapping of a vertex that is neither landmark nor non-landmark: uint32 max. */
  const Unmapped: int := 0xFFFF_FFFF

  /** The number of landmarks train picks: the landmark count, capped at the vertex count. */
  function Landmarks(landmarkCount: nat, vertexCount: nat): (l: nat)
    ensures l <= landmarkCount && l <= vertexCount && (l == landmarkCount || l == vertexCount)
  {
    if landmarkCount < vertexCount then landmarkCount else vertexCount
  }

  /** What `-(i + 1)` on an unsigned 32-bit `i` stores in the 64-bit mapping: 2^32 - (i + 1). */
  function EncodeNonLandmarkAsWritten(i: nat): (m: int)
    ensures 0 <= m < 0x1_0000_0000
    ensures i < 0x1_0000_0000 ==> m == 0x1_0000_0000 - (i + 1)
  {
    (-(i + 1)) % 0x1_0000_0000
  }

  /** getNonLandmark's index as written: `-(m + 1)` truncated to unsigned 32 bits. */
  function DecodeNonLandmarkAsWritten(m: int): (i: nat)
    ensures i < 0x1_0000_0000
  {
    (-(m + 1)) % 0x1_0000_0000
  }

  /**
   * As written, a non-landmark's mapping is never negative, so isNonLandmark
   * never holds; it is not a landmark number either as long as the landmark
   * count plus its position fits in 32 bits, and the first non-landmark's
   * mapping equals `Unmapped`. The truncating decode still recovers the
   * position.
   */
  lemma NonLandmarkAsWrittenUnused(i: nat, landmarkCount: nat)
    requires landmarkCount + i < 0x1_0000_0000
    ensures EncodeNonLandmarkAsWritten(i) >= 0
    ensures !(0 <= EncodeNonLandmarkAsWritten(i) < landmarkCount)
    ensures i == 0 ==> EncodeNonLandmarkAsWritten(i) == Unmapped
    ensures DecodeNonLandmarkAsWritten(EncodeNonLandmarkAsWritten(i)) == i
  {
    var m := EncodeNonLandmarkAsWritten(i);
    assert -(m + 1) == i - 0x1_0000_0000;
  }

  class LandmarkPlusIndex {
    var landmarkCount: nat
    var nonLandmarkCount: nat
    /** Per vertex: its landmark number, -(i + 1) for the i-th non-landmark, or `Unmapped`. */
    var landmarkMapping: seq<int>
    var landmarkMap: seq<seq<Entry>>
    var nonLandmarkMap: seq<seq<Entry>>

    constructor (landmarkCount: nat, nonLandmarkCount: nat)
      ensures this.landmarkCount == landmarkCount && this.nonLandmarkCount == nonLandmarkCount
      ensures landmarkMapping == [] && landmarkMap == [] && nonLandmarkMap == []
    {
      this.landmarkCount := landmarkCount;
      this.nonLandmarkCount := nonLandmarkCount;
      landmarkMapping, landmarkMap, nonLandmarkMap := [], [], [];
    }

    /** isLandmark: the mapping is a landmark number. */
    predicate IsLandmark(v: nat)
      reads this
      requires v < |landmarkMapping|
    {
      0 <= landmarkMapping[v] < landmarkCount
    }

    /** isNonLandmark: the mapping is negative. */
    predicate IsNonLandmark(v: nat)
      reads this
      requires v < |landmarkMapping|
    {
      landmarkMapping[v] < 0
    }

    /** Every landmark or non-landmark number names a list, and every list is in vertex order. */
    ghost predicate Valid()
      reads this
    {
      (forall v :: 0 <= v < |landmarkMapping| && 0 <= landmarkMapping[v] < landmarkCount ==>
         landmarkMapping[v] < |landmarkMap|) &&
      (forall v :: 0 <= v < |landmarkMapping| && landmarkMapping[v] < 0 ==>
         DecodeNonLandmark(landmarkMapping[v]) < |nonLandmarkMap|) &&
      (forall i :: 0 <= i < |landmarkMap| ==> VertexSorted(landmarkMap[i])) &&
      (forall i :: 0 <= i < |nonLandmarkMap| ==> VertexSorted(nonLandmarkMap[i]))
    }

    /**
     * The mapping and list sizing of train: the first `landmarks` vertices
     * of the order (the landmark count, at most the vertex count) get
     * landmark numbers 0, 1, ...; with non-landmarks enabled the rest get
     * -1, -2, ...; any other vertex keeps `Unmapped`. This is the mapping as
     * intended; MapVerticesAsWritten is the one the source stores.
     */
    method MapVertices(order: seq<nat>, vertexCount: nat)
      requires IsPermutation(order, vertexCount)
      requires |order| == vertexCount && forall j :: 0 <= j < vertexCount ==> order[j] < vertexCount
      modifies this`landmarkMapping, this`landmarkMap, this`nonLandmarkMap
      ensures var landmarks := Landmarks(landmarkCount, vertexCount);
        |landmarkMapping| == vertexCount && |landmarkMap| == landmarks &&
        (forall i :: 0 <= i < landmarks ==> landmarkMapping[order[i]] == i) &&
        (nonLandmarkCount > 0 ==> |nonLandmarkMap| == vertexCount - landmarks) &&
        (nonLandmarkCount > 0 ==> forall i :: landmarks <= i < vertexCount ==>
           landmarkMapping[order[i]] == EncodeNonLandmark(i - landmarks)) &&
        (nonLandmarkCount == 0 ==> forall i :: landmarks <= i < vertexCount ==> landmarkMapping[order[i]] == Unmapped)
    {
      OrderBounds(order, vertexCount);
      var landmarks := if landmarkCount < vertexCount then landmarkCount else vertexCount;
      var mapping := new int[vertexCount](_ => Unmapped);
      for i := 0 to landmarks
        invariant forall j :: 0 <= j < i ==> mapping[order[j]] == j
        invariant forall j :: i <= j < vertexCount ==> mapping[order[j]] == Unmapped
      {
        DistinctOrder(order, vertexCount, i);
        mapping[order[i]] := i;
      }
      if nonLandmarkCount > 0 {
        for i := 0 to vertexCount - landmarks
          invariant forall j :: 0 <= j < landmarks ==> mapping[order[j]] == j
          invariant forall j :: 0 <= j < i ==> mapping[order[landmarks + j]] == EncodeNonLandmark(j)
          invariant forall j :: landmarks + i <= j < vertexCount ==> mapping[order[j]] == Unmapped
        {
          DistinctOrder(order, vertexCount, landmarks + i);
          mapping[order[landmarks + i]] := -(i + 1);
        }
      }
      landmarkMap := seq(landmarks, _ => []);
      if nonLandmarkCount > 0 {
        nonLandmarkMap := seq(vertexCount - landmarks, _ => []);
      }
      landmarkMapping := mapping[..];
    }

    /**
     * The mapping train stores as written: the non-landmark number
     * `-(i + 1)` is computed on the unsigned 32-bit `i`, so what lands in
     * the 64-bit mapping is 2^32 - (i + 1), a non-negative value. No vertex
     * is then a non-landmark, and the first non-landmark's value equals
     * `Unmapped`.
     */
    method MapVerticesAsWritten(order: seq<nat>, vertexCount: nat)
      requires IsPermutation(order, vertexCount) && vertexCount <= 0x1_0000_0000
      requires |order| == vertexCount && forall j :: 0 <= j < vertexCount ==> order[j] < vertexCount
      modifies this`landmarkMapping, this`landmarkMap, this`nonLandmarkMap
      ensures var landmarks := Landmarks(landmarkCount, vertexCount);
        |landmarkMapping| == vertexCount && |landmarkMap| == landmarks &&
        (forall i :: 0 <= i < landmarks ==> landmarkMapping[order[i]] == i) &&
        (nonLandmarkCount > 0 ==> |nonLandmarkMap| == vertexCount - landmarks) &&
        (nonLandmarkCount > 0 ==> forall i :: landmarks <= i < vertexCount ==>
           landmarkMapping[order[i]] == EncodeNonLandmarkAsWritten(i - landmarks)) &&
        (nonLandmarkCount == 0 ==> forall i :: landmarks <= i < vertexCount ==> landmarkMapping[order[i]] == Unmapped)
      ensures forall v :: 0 <= v < |landmarkMapping| ==> !IsNonLandmark(v)
    {
      OrderBounds(order, vertexCount);
      var landmarks := if landmarkCount < vertexCount then landmarkCount else vertexCount;
      var mapping := new int[vertexCount](_ => Unmapped);
      for i := 0 to landmarks
        invariant forall j :: 0 <= j < i ==> mapping[order[j]] == j
        invariant forall j :: i <= j < vertexCount ==> mapping[order[j]] == Unmapped
        invariant forall v :: 0 <= v < vertexCount ==> mapping[v] >= 0
      {
        DistinctOrder(order, vertexCount, i);
        mapping[order[i]] := i;
      }
      if nonLandmarkCount > 0 {
        for i := 0 to vertexCount - landmarks
          invariant forall j :: 0 <= j < landmarks ==> mapping[order[j]] == j
          invariant forall j :: 0 <= j < i ==> mapping[order[landmarks + j]] == EncodeNonLandmarkAsWritten(j)
          invariant forall j :: landmarks + i <= j < vertexCount ==> mapping[order[j]] == Unmapped
          invariant forall v :: 0 <= v < vertexCount ==> mapping[v] >= 0
        {
          DistinctOrder(order, vertexCount, landmarks + i);
          mapping[order[landmarks + i]] := EncodeNonLandmarkAsWritten(i);
        }
      }
      landmarkMap := seq(landmarks, _ => []);
      if nonLandmarkCount > 0 {
        nonLandmarkMap := seq(vertexCount - landmarks, _ => []);
      }
      landmarkMapping := mapping[..];
    }

    /**
     * The collection step of train for landmark number i: every stored
     * (vertex, set) pair is appended to landmarkMap[i] in vertex order, and
     * each vertex's sets are cleared for the next landmark.
     */
    method StoreLandmarkEntries(i: nat, vertexLookup: array<seq<LabelSet>>)
      requires i < |landmarkMap|
      modifies this`landmarkMap, vertexLookup
      ensures landmarkMap == old(landmarkMap)[i := old(landmarkMap[i]) + Entries(old(vertexLookup[..]))]
      ensures forall v :: 0 <= v < vertexLookup.Length ==> vertexLookup[v] == []
    {
      var totalCount := 0;
      for v := 0 to vertexLookup.Length
        invariant totalCount == SetCount(vertexLookup[..v])
        invariant landmarkMap == old(landmarkMap) && vertexLookup[..] == old(vertexLookup[..])
      {
        assert vertexLookup[..v + 1][..v] == vertexLookup[..v];
        totalCount := totalCount + |vertexLookup[v]|;
      }
      ghost var lookup := vertexLookup[..];
      var list := landmarkMap[i];
      for j := 0 to vertexLookup.Length
        invariant list == old(landmarkMap[i]) + Entries(lookup[..j])
        invariant landmarkMap == old(landmarkMap) && lookup == old(vertexLookup[..])
        invariant forall v :: 0 <= v < j ==> vertexLookup[v] == []
        invariant forall v :: j <= v < vertexLookup.Length ==> vertexLookup[v] == lookup[v]
      {
        assert lookup[..j + 1][..j] == lookup[..j];
        ghost var before := list;
        for k := 0 to |vertexLookup[j]|
          invariant list == before + Row(j, vertexLookup[j][..k])
        {
          list := list + [Entry(j, vertexLookup[j][k])];
        }
        assert vertexLookup[j][..|vertexLookup[j]|] == lookup[j];
        vertexLookup[j] := [];
      }
      assert lookup[..vertexLookup.Length] == lookup;
      landmarkMap := landmarkMap[i := list];
    }

    /**
     * queryLandmark: binary-search the landmark's list for `target`, then
     * look for a stored label set inside the query's labels.
     */
    method QueryLandmark(landmark: nat, target: nat, labels: LabelSet) returns (r: bool)
      requires Valid() && landmark < |landmarkMapping| && IsLandmark(landmark)
      ensures r <==> HasFitting(landmarkMap[landmarkMapping[landmark]], target, labels)
    {
      var landmarkIndex := landmarkMap[landmarkMapping[landmark]];
      var lower := LowerBound(landmarkIndex, target);
      r := ScanBlock(landmarkIndex, lower, target, labels);
    }

    /**
     * The three-argument queryNonLandmark: the same lookup in the vertex's
     * non-landmark list. Since the scan stops at the first entry past
     * `target`, every entry it inspects is for `target` itself, and the
     * landmark lookup written for other entries is never reached.
     */
    method QueryNonLandmark(vertex: nat, target: nat, labels: LabelSet) returns (r: bool)
      requires Valid() && vertex < |landmarkMapping| && IsNonLandmark(vertex)
      ensures r <==> HasFitting(nonLandmarkMap[DecodeNonLandmark(landmarkMapping[vertex])], target, labels)
    {
      var nonLandmarkIndex := nonLandmarkMap[-(landmarkMapping[vertex] + 1)];
      var lower := LowerBound(nonLandmarkIndex, target);
      r := ScanBlock(nonLandmarkIndex, lower, target, labels);
    }

    /**
     * queryOnce: a landmark source answers from its list either way; a
     * non-landmark source can only confirm; any other source is undecided.
     */
    method QueryOnce(source: nat, target: nat, labels: LabelSet) returns (r: QueryResult)
      requires Valid() && source < |landmarkMapping|
      ensures IsLandmark(source) ==>
        (r == Reachable <==> HasFitting(landmarkMap[landmarkMapping[source]], target, labels)) &&
        r != MaybeReachable
      ensures !IsLandmark(source) && IsNonLandmark(source) ==>
        (r == Reachable <==> HasFitting(nonLandmarkMap[DecodeNonLandmark(landmarkMapping[source])], target, labels)) &&
        r != NotReachable
      ensures !IsLandmark(source) && !IsNonLandmark(source) ==> r == MaybeReachable
    {
      if IsLandmark(source) {
        var found := QueryLandmark(source, target, labels);
        return if found then Reachable else NotReachable;
      }
      if IsNonLandmark(source) {
        var found := QueryNonLandmark(source, target, labels);
        if found {
          return Reachable;
        }
      }
      r := MaybeReachable;
    }

    /**
     * The decisions query takes before its guided search: a vertex reaches
     * itself, an empty label set reaches nothing else, and a landmark source
     * answers from its list. `None` stands for the search over the graph,
     * which is not part of this model.
     */
    method QueryGuards(source: nat, target: nat, labels: LabelSet) returns (r: Text.Option<bool>)
      requires Valid() && source < |landmarkMapping|
      ensures source == target ==> r == Text.Some(true)
      ensures source != target && labels == {} ==> r == Text.Some(false)
      ensures source != target && labels != {} && IsLandmark(source) ==>
        r == Text.Some(HasFitting(landmarkMap[landmarkMapping[source]], target, labels))
      ensures source != target && labels != {} && !IsLandmark(source) ==> r == Text.None
    {
      if source == target {
        return Text.Some(true);
      }
      if labels == {} {
        return Text.Some(false);
      }
      if IsLandmark(source) {
        var found := QueryLandmark(source, target, labels);
        return Text.Some(found);
      }
      r := Text.None;
    }
  }

  /** An order position names a vertex of the graph, and different positions name different vertices. */
  lemma DistinctOrder(order: seq<nat>, n: nat, i: nat)
    requires IsPermutation(order, n) && |order| == n && i < n
    ensures order[i] < n && forall j :: 0 <= j < n && j != i ==> order[j] != order[i]
  {
    PermutationMembers(order, n);
    assert order[i] in order;
    IotaOnce(n, order[i]);
    forall j | 0 <= j < n && j != i
      ensures order[j] != order[i]
    {
      if i < j {
        PairCount(order, i, j);
      } else {
        PairCount(order, j, i);
      }
    }
  }

  /** Two positions holding the same value make it occur at least twice. */
  lemma PairCount(s: seq<nat>, i: nat, j: nat)
    requires i < j < |s|
    ensures multiset(s)[s[i]] >= 1 + (if s[j] == s[i] then 1 else 0)
  {
    assert s == s[..i] + [s[i]] + s[i + 1..j] + [s[j]] + s[j + 1..];
  }

  /** Every position of a permutation names a vertex. */
  lemma OrderBounds(order: seq<nat>, n: nat)
    requires IsPermutation(order, n)
    ensures |order| == n && forall j :: 0 <= j < n ==> order[j] < n
  {
    PermutationMembers(order, n);
    forall j | 0 <= j < n
      ensures order[j] < n
    {
      assert order[j] in order;
    }
  }

  /** Each vertex id occurs once in 0, 1, ..., n - 1. */
  lemma {:induction false} IotaOnce(n: nat, v: nat)
    requires v < n
    ensures multiset(Iota(n))[v] == 1
  {
    if n - 1 == v {
      assert Iota(n) == Iota(n - 1) + [v];
      assert v !in Iota(n - 1);
    } else {
      assert Iota(n) == Iota(n - 1) + [n - 1];
      IotaOnce(n - 1, v);
    }
  }
}
