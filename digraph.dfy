/**
 * DiGraph of src/graphs/DiGraph.hpp: an unlabelled directed graph kept as
 * one successor list and one predecessor list per vertex, with an edge
 * counter. `addEdge` refuses duplicates and stops the program on an
 * out-of-range vertex; the `NoChecks` variants trust their caller.
 */
module DiGraphs {
  import opened Sorting

  /** sizeof(Vertex): vertices are 32-bit unsigned integers. */
  const VertexSize: nat := 4

  /** What addEdge does with an edge. */
  datatype AddEdgeOutcome = Added | AlreadyPresent | OutOfBounds

  /** The total length of a family of lists. */
  function Total(lists: seq<seq<nat>>): (r: nat)
  {
    if |lists| == 0 then 0 else Total(lists[..|lists| - 1]) + |lists[|lists| - 1]|
  }

  lemma {:induction false} TotalUpdate(lists: seq<seq<nat>>, i: nat, l: seq<nat>)
    requires i < |lists|
    ensures Total(lists[i := l]) == Total(lists) - |lists[i]| + |l|
    decreases |lists|
  {
    var n := |lists| - 1;
    if i < n {
      assert lists[i := l][..n] == lists[..n][i := l];
      TotalUpdate(lists[..n], i, l);
      TotalBound(lists[..n], i);
    } else {
      assert lists[i := l][..n] == lists[..n];
    }
  }

  lemma {:induction false} TotalBound(lists: seq<seq<nat>>, i: nat)
    requires i < |lists|
    ensures |lists[i]| <= Total(lists)
    decreases |lists|
  {
    var n := |lists| - 1;
    if i < n {
      TotalBound(lists[..n], i);
    }
  }

  /** `std::vector::resize` on a family of lists: the first `size` lists kept, empty ones added. */
  function Resized(lists: seq<seq<nat>>, size: nat): (r: seq<seq<nat>>)
    ensures |r| == size
    ensures forall v :: 0 <= v < size ==> r[v] == (if v < |lists| then lists[v] else [])
  {
    seq(size, v requires 0 <= v < size => if v < |lists| then lists[v] else [])
  }

  /** Growing a family of lists adds only empty lists, so the total length is unchanged. */
  lemma {:induction false} ResizedTotal(lists: seq<seq<nat>>, size: nat)
    requires |lists| <= size
    ensures Total(Resized(lists, size)) == Total(lists)
    decreases size
  {
    if size == |lists| {
      assert Resized(lists, size) == lists;
    } else {
      assert Resized(lists, size)[..size - 1] == Resized(lists, size - 1);
      ResizedTotal(lists, size - 1);
    }
  }

  /** Resizing an empty family gives that many empty lists. */
  lemma ResizedEmpty(size: nat)
    ensures Resized([], size) == seq(size, _ => [])
  {
  }

  /** `reverse` holds `source` once more for every entry of `targets`, in order. */
  function AppendSource(reverse: seq<seq<nat>>, targets: seq<nat>, source: nat): (r: seq<seq<nat>>)
    requires forall i :: 0 <= i < |targets| ==> targets[i] < |reverse|
    ensures |r| == |reverse|
  {
    if |targets| == 0 then reverse
    else
      var n := |targets| - 1;
      var prev := AppendSource(reverse, targets[..n], source);
      prev[targets[n] := prev[targets[n]] + [source]]
  }

  /** After appending, `x` precedes `t` in the list of `t` iff it did before or it is the source and `t` was a target. */
  lemma {:induction false} AppendSourceMembers(reverse: seq<seq<nat>>, targets: seq<nat>, source: nat, t: nat, x: nat)
    requires forall i :: 0 <= i < |targets| ==> targets[i] < |reverse|
    requires t < |reverse|
    ensures x in AppendSource(reverse, targets, source)[t] <==> x in reverse[t] || (x == source && t in targets)
    decreases |targets|
  {
    if |targets| > 0 {
      var n := |targets| - 1;
      AppendSourceMembers(reverse, targets[..n], source, t, x);
      assert targets == targets[..n] + [targets[n]];
    }
  }

  lemma {:induction false} AppendSourceTotal(reverse: seq<seq<nat>>, targets: seq<nat>, source: nat)
    requires forall i :: 0 <= i < |targets| ==> targets[i] < |reverse|
    ensures Total(AppendSource(reverse, targets, source)) == Total(reverse) + |targets|
    decreases |targets|
  {
    if |targets| > 0 {
      var n := |targets| - 1;
      AppendSourceTotal(reverse, targets[..n], source);
      var prev := AppendSource(reverse, targets[..n], source);
      TotalUpdate(prev, targets[n], prev[targets[n]] + [source]);
    }
  }

  predicate IntLe(a: nat, b: nat)
  {
    a <= b
  }

  predicate IntGe(a: nat, b: nat)
  {
    a >= b
  }

  /** Each list sorted by `le`, as the loops of `optimize` leave them. */
  function SortEach(lists: seq<seq<nat>>, le: (nat, nat) -> bool): (r: seq<seq<nat>>)
    ensures |r| == |lists|
    ensures forall v :: 0 <= v < |lists| ==> r[v] == Sort(lists[v], le)
  {
    seq(|lists|, v requires 0 <= v < |lists| => Sort(lists[v], le))
  }

  class DiGraph {
    var adj: seq<seq<nat>>
    var reverseAdj: seq<seq<nat>>
    var edgeCount: nat

    /**
     * The graph's invariant: one list pair per vertex, every entry a vertex,
     * `t` follows `s` iff `s` precedes `t`, and the counter equals the
     * number of stored edges. A list may hold a vertex twice: addEdge
     * refuses a duplicate, but addEdgesNoChecks appends without looking.
     */
    ghost predicate Valid()
      reads this
    {
      |adj| == |reverseAdj| &&
      (forall s :: 0 <= s < |adj| ==> forall t :: t in adj[s] ==> t < |adj|) &&
      (forall t :: 0 <= t < |reverseAdj| ==> forall s :: s in reverseAdj[t] ==> s < |adj|) &&
      (forall s, t :: 0 <= s < |adj| && 0 <= t < |adj| ==> (t in adj[s] <==> s in reverseAdj[t])) &&
      edgeCount == Total(adj) && Total(reverseAdj) == Total(adj)
    }

    constructor ()
      ensures adj == [] && reverseAdj == [] && edgeCount == 0 && Valid()
    {
      adj, reverseAdj, edgeCount := [], [], 0;
    }

    /**
     * setVertices: both list families are resized to `size`, keeping the
     * lists of the vertices that remain and adding empty ones. Growing a
     * valid graph keeps it valid; shrinking may cut edges off their ends.
     */
    method SetVertices(size: nat)
      modifies this
      ensures adj == Resized(old(adj), size) && reverseAdj == Resized(old(reverseAdj), size)
      ensures edgeCount == old(edgeCount)
      ensures old(Valid()) && old(|adj|) <= size ==> Valid()
    {
      if Valid() && |adj| <= size {
        ResizedTotal(adj, size);
        ResizedTotal(reverseAdj, size);
      }
      adj, reverseAdj := Resized(adj, size), Resized(reverseAdj, size);
    }

    /** getSizeInBytes: every stored successor costs one Vertex, doubled for the reverse lists. */
    method GetSizeInBytes() returns (size: nat)
      requires Valid()
      ensures size == 2 * VertexSize * edgeCount
    {
      size := 0;
      for v := 0 to |adj|
        invariant size == VertexSize * Total(adj[..v])
      {
        assert adj[..v + 1][..v] == adj[..v];
        size := size + |adj[v]| * VertexSize;
      }
      assert adj[..|adj|] == adj;
      size := size * 2;
    }

    /** edgeExists: a linear search of the successor list. */
    method EdgeExists(source: nat, target: nat) returns (r: bool)
      requires source < |adj|
      ensures r <==> target in adj[source]
    {
      var list := adj[source];
      var i := 0;
      while i < |list| && list[i] != target
        invariant 0 <= i <= |list|
        invariant target !in list[..i]
      {
        assert list[..i + 1] == list[..i] + [list[i]];
        i := i + 1;
      }
      r := i != |list|;
    }

    /**
     * addEdge: out-of-range endpoints are fatal (the graph is left as it
     * was), a present edge is refused, and a new edge is appended to both
     * lists and counted.
     */
    method AddEdge(source: nat, target: nat) returns (r: AddEdgeOutcome)
      requires Valid()
      modifies this
      ensures Valid()
      ensures r == OutOfBounds <==> source >= old(|adj|) || target >= old(|adj|)
      ensures r == AlreadyPresent <==> source < old(|adj|) && target < old(|adj|) && target in old(adj[source])
      ensures r != Added ==> adj == old(adj) && reverseAdj == old(reverseAdj) && edgeCount == old(edgeCount)
      ensures r == Added ==>
        adj == old(adj)[source := old(adj[source]) + [target]] &&
        reverseAdj == old(reverseAdj)[target := old(reverseAdj[target]) + [source]] &&
        edgeCount == old(edgeCount) + 1
    {
      if source >= |adj| || target >= |adj| {
        return OutOfBounds;
      }
      var present := EdgeExists(source, target);
      if present {
        return AlreadyPresent;
      }
      AddEdgeNoChecks(source, target);
      r := Added;
    }

    /** addEdgeNoChecks: the caller guarantees both endpoints are in range. */
    method AddEdgeNoChecks(source: nat, target: nat)
      requires source < |adj| && target < |reverseAdj|
      modifies this
      ensures adj == old(adj)[source := old(adj[source]) + [target]]
      ensures reverseAdj == old(reverseAdj)[target := old(reverseAdj[target]) + [source]]
      ensures edgeCount == old(edgeCount) + 1
      ensures old(Valid()) && target !in old(adj[source]) ==> Valid()
    {
      ghost var wasValid := Valid();
      ghost var adj0, rev0 := adj, reverseAdj;
      edgeCount := edgeCount + 1;
      adj := adj[source := adj[source] + [target]];
      reverseAdj := reverseAdj[target := reverseAdj[target] + [source]];
      TotalUpdate(adj0, source, adj[source]);
      TotalUpdate(rev0, target, reverseAdj[target]);
      if wasValid {
        forall s, t | 0 <= s < |adj| && 0 <= t < |adj|
          ensures t in adj[s] <==> s in reverseAdj[t]
        {
          assert t in adj0[s] <==> s in rev0[t];
        }
      }
    }

    /** addEdgesNoChecks: the targets are appended to the source's list and the source to each target's. */
    method AddEdgesNoChecks(source: nat, targets: seq<nat>)
      requires source < |adj| && |adj| == |reverseAdj|
      requires forall i :: 0 <= i < |targets| ==> targets[i] < |adj|
      modifies this
      ensures adj == old(adj)[source := old(adj[source]) + targets]
      ensures reverseAdj == AppendSource(old(reverseAdj), targets, source)
      ensures edgeCount == old(edgeCount) + |targets|
      ensures (old(Valid()) && (forall i :: 0 <= i < |targets| ==> targets[i] !in old(adj[source])) &&
               (forall i, j :: 0 <= i < j < |targets| ==> targets[i] != targets[j])) ==> Valid()
    {
      ghost var wasValid := Valid();
      ghost var adj0, rev0 := adj, reverseAdj;
      edgeCount := edgeCount + |targets|;
      adj := adj[source := adj[source] + targets];
      TotalUpdate(adj0, source, adj[source]);
      var rev := reverseAdj;
      for i := 0 to |targets|
        invariant |rev| == |rev0|
        invariant rev == AppendSource(rev0, targets[..i], source)
      {
        assert targets[..i + 1][..i] == targets[..i];
        rev := rev[targets[i] := rev[targets[i]] + [source]];
      }
      reverseAdj := rev;
      assert targets[..|targets|] == targets;
      AppendSourceTotal(rev0, targets, source);
      if wasValid {
        forall s, t | 0 <= s < |adj| && 0 <= t < |adj|
          ensures t in adj[s] <==> s in reverseAdj[t]
        {
          AppendSourceMembers(rev0, targets, source, t, s);
          assert t in adj0[s] <==> s in rev0[t];
        }
        forall t | 0 <= t < |reverseAdj|
          ensures forall s :: s in reverseAdj[t] ==> s < |adj|
        {
          forall s | s in reverseAdj[t] ensures s < |adj| {
            AppendSourceMembers(rev0, targets, source, t, s);
          }
        }
      }
    }

    /** optimize: successor lists ascending, predecessor lists descending; contents unchanged. */
    method Optimize()
      modifies this
      ensures adj == SortEach(old(adj), IntLe)
      ensures reverseAdj == SortEach(old(reverseAdj), IntGe)
      ensures edgeCount == old(edgeCount)
      ensures old(Valid()) ==> Valid()
    {
      ghost var adj0, rev0 := adj, reverseAdj;
      adj := SortLists(adj, IntLe);
      reverseAdj := SortLists(reverseAdj, IntGe);
      SortEachKeeps(adj0, IntLe);
      SortEachKeeps(rev0, IntGe);
    }
  }

  /** One of the two loops of optimize: sort every list in turn. */
  method SortLists(lists: seq<seq<nat>>, le: (nat, nat) -> bool) returns (r: seq<seq<nat>>)
    ensures r == SortEach(lists, le)
  {
    r := lists;
    for v := 0 to |r|
      invariant |r| == |lists|
      invariant forall u :: 0 <= u < v ==> r[u] == Sort(lists[u], le)
      invariant forall u :: v <= u < |r| ==> r[u] == lists[u]
    {
      r := r[v := Sort(r[v], le)];
    }
  }

  /** Sorting each list keeps every list's members and the total length. */
  lemma SortEachKeeps(lists: seq<seq<nat>>, le: (nat, nat) -> bool)
    ensures forall v, x :: 0 <= v < |lists| ==> (x in SortEach(lists, le)[v] <==> x in lists[v])
    ensures Total(SortEach(lists, le)) == Total(lists)
  {
    var r := SortEach(lists, le);
    forall v, x | 0 <= v < |lists|
      ensures x in r[v] <==> x in lists[v]
    {
      assert x in r[v] <==> x in multiset(r[v]);
    }
    SameLengthsTotal(r, lists);
  }

  /** Families of lists with the same lengths have the same total length. */
  lemma {:induction false} SameLengthsTotal(a: seq<seq<nat>>, b: seq<seq<nat>>)
    requires |a| == |b| && forall v :: 0 <= v < |a| ==> |a[v]| == |b[v]|
    ensures Total(a) == Total(b)
    decreases |a|
  {
    if |a| > 0 {
      SameLengthsTotal(a[..|a| - 1], b[..|b| - 1]);
    }
  }

  lemma {:induction false} EmptyTotal(k: nat)
    ensures Total(seq<seq<nat>>(k, _ => [])) == 0
  {
    if k > 0 {
      assert seq<seq<nat>>(k, _ => [])[..k - 1] == seq<seq<nat>>(k - 1, _ => []);
      EmptyTotal(k - 1);
    }
  }

  /** Sorting each list keeps its contents and orders it; the counter and hence the byte size are unchanged. */
  lemma SortEachSpec(lists: seq<seq<nat>>)
    ensures forall v :: 0 <= v < |lists| ==>
      multiset(SortEach(lists, IntLe)[v]) == multiset(lists[v]) && SortedBy(SortEach(lists, IntLe)[v], IntLe)
    ensures forall v :: 0 <= v < |lists| ==>
      multiset(SortEach(lists, IntGe)[v]) == multiset(lists[v]) && SortedBy(SortEach(lists, IntGe)[v], IntGe)
  {
    assert TotalPreorder(IntLe) && TotalPreorder(IntGe);
    forall v | 0 <= v < |lists|
      ensures SortedBy(Sort(lists[v], IntLe), IntLe) && SortedBy(Sort(lists[v], IntGe), IntGe)
    {
      SortSorted(lists[v], IntLe);
      SortSorted(lists[v], IntGe);
    }
  }
}
