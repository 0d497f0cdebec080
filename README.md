# LCRIndexing in Dafny

LCRIndexing is a benchmark for label-constrained reachability (LCR) indexes.
An LCR query asks whether a target vertex can be reached from a source
vertex along a path that uses only edges whose labels lie in a given label
set. The repository has three parts, and this project models the core of
each.

**The C++ engine**
- Graphs: `LabeledEdgeGraph`, with its edge iterators, `optimize` and its
  label and vertex distributions; `DiGraph`; `LCRQuery`.
- Graph algorithms: binomial sums, plain and label-constrained BFS,
  single-source reachability, Tarjan's strongly connected components with
  the component graph, label-filtered merge, split and virtual relabelling,
  and degree-based vertex orders.
- Indexes:
  - the BFS ground truth;
  - PLL (pruned landmark labelling) for plain reachability;
  - Landmark-plus, with its minimal-label-set antichains;
  - P2H, with its pruning 2-hop insert;
  - the Bloom filters;
  - the `Index::create` factory.
- I/O and entry points: the CSV query format and the N-Triples-like graph
  format, readers and writers with their round trips; the command line of
  `main`; the file naming of the query generator.

**The Python runner** (`runner/`)
- Unit parsing.
- The checkpoint file.
- `LCRBenchmarkRunner`: the result tables, the classification of the
  engine's exit, and output parsing.
- The resumable `runSynth` and `runReal` sweeps, with their pruning of
  harder cells after a failure.

**The Python evaluation** (`evaluation/`)
- `ResultSet` and `QueryResult`: joining, appending, merging, renaming and
  dropping result tables, merging query tables, and averaging them.
- The cell formatting of `format.py`.

How the pieces are modelled:
- The engine's process, the file system, clocks and pandas' CSV files are
  not modelled. The engine's run is an oracle parameter (exit code,
  standard output, standard error). Files are maps from names to text or
  to tables.
- Machine integers are written out where their width matters:
  - 32-bit vertex and label numbers;
  - `uint64_t` accumulators;
  - the `int` conversion in `calculateCombinationsBetween`;
  - the Bloom filters' 32-bit hash.
- A `std::fatal`, an `exit(1)` or an exception that ends the program
  becomes `None` or a `false` flag.
- Classes whose fields the source updates in place are Dafny classes with
  `modifies` clauses. Loops are methods whose invariants tie them to
  specification functions. Round trips, antichain and sortedness
  invariants, and iff-characterisations are lemmas about those functions.

## Model

| member | source | states |
|---|---|---|
| Combinations.UpToK | src/algorithms/combinations.cpp:1-21 | the number of non-empty subsets of at most min(k, n) elements, i.e. the sum of n choose i for 1 <= i <= min(k, n); 0 when k or n is 0; the 64-bit result whenever no intermediate product wraps, and a value below 2^64 (or a reported division by zero) otherwise |
| Combinations.Between | src/algorithms/combinations.cpp:23-49 | 0 whenever the signed 32-bit difference int(min(kMax, n)) - int(kMin) is not positive; otherwise, when nothing wraps, the number of subsets whose size lies between max(kMin, 1) and min(kMax, n) |
| Combinations.ToInt32 | src/algorithms/combinations.cpp:28 | the conversion `int(x)` of an unsigned 32-bit value: a signed 32-bit number equal to x modulo 2^32 |
| Combinations.AtK | src/algorithms/combinations.cpp:51-75 | n choose k when k <= n and the falling factorial of the reduced k fits in 64 bits; 0 when k > n; 1 when k is 0, or k = n (below 2^31, where k * 2 does not wrap) |
| Combinations.BinomSymmetric | src/algorithms/combinations.cpp:56-58 | choosing k elements equals choosing n - k, which is what makes AtK's switch to n - k correct |
| Combinations.FallingIsFactTimesBinom | src/algorithms/combinations.cpp:64-74 | the numerator n(n-1)...(n-k+1) is exactly k! times n choose k, so the final integer division loses nothing |
| Combinations.QuotientStep | src/algorithms/combinations.cpp:14-18 | one loop turn while nothing wraps: the denominator becomes i!, numerator / denominator is exactly n choose i, and the next numerator is the next falling factorial |
| Combinations.SumStep | src/algorithms/combinations.cpp:41-43 | adding n choose i to the accumulator stays below 2^64 and extends the partial sum by one term while the whole sum fits |
| Combinations.BinomAboveN | src/algorithms/combinations.cpp:52-54 | there is no way to choose more than n elements: n choose k is 0 for k > n |
| Combinations.BinomAtN | src/algorithms/combinations.cpp:60-62 | there is exactly one way to choose all n elements |
| Combinations.SumBinomRange | src/algorithms/combinations.cpp:38-46 | the sum over any sub-range [lo, i] with lo >= 1 is bounded by the full sum from 1 to hi, so a bound on the full sum bounds every partial sum Between adds up |
| Utility.SwapAndPop | src/utility/utility.hpp:4-13 | the result is one shorter, the last element now sits at the removed index, every other position is unchanged, and the multiset loses exactly the removed element |
| Utility.SwapAndPopInPlace | src/utility/utility.hpp:4-13 | on the vector's buffer: the live prefix afterwards is SwapAndPop of the old prefix, the removed element is parked just past the new end, and the slots beyond the old size are untouched |
| Utility.SwapPreservesMultiset | src/utility/utility.hpp:7-9 | swapping two positions keeps the multiset of elements |
| Utility.EndsWith | src/utility/utility.hpp:15-21 | true iff `ending` is no longer than `value` and equals its suffix of that length |
| Utility.EqualFromBack | src/utility/utility.hpp:20 | comparing from the back over the length of `ending` is the same as comparing `ending` with the suffix |
| Queries.LCRQuery.constructor | src/graphs/Query.hpp:45-46 | source, target and label list are stored as given and the label bitset starts empty |
| Queries.LCRQuery.Init | src/graphs/Query.hpp:48-58 | source, target and labels are unchanged and the bitset becomes InitBits of the old one |
| Queries.InitBits | src/graphs/Query.hpp:48-58 | the bitset has the graph's label count; it is returned unchanged when it already had that size; otherwise a bit is set iff it was set before (and kept by the resize) or its label is listed |
| Queries.Resize | src/graphs/Query.hpp:53 | `resize` keeps the bits below the old size and adds clear ones, to exactly the requested size |
| Queries.InitIdempotent | src/graphs/Query.hpp:49-51 | a second init leaves the bitset as the first one did |
| DiGraphs.DiGraph.constructor | src/graphs/DiGraph.hpp:5-10 | a new graph has no vertices, no edges and a zero counter, and is valid |
| DiGraphs.DiGraph.SetVertices | src/graphs/DiGraph.hpp:21-24 | like `resize`: the successor and predecessor lists below `size` are kept, new ones are empty, the edge counter is kept, and a valid graph that grows stays valid |
| DiGraphs.DiGraph.GetSizeInBytes | src/graphs/DiGraph.hpp:34-42 | two vertex-sized entries (forward and reverse) per counted edge |
| DiGraphs.DiGraph.EdgeExists | src/graphs/DiGraph.hpp:104-108 | true iff the target is in the source's successor list |
| DiGraphs.DiGraph.AddEdge | src/graphs/DiGraph.hpp:49-63 | out of range iff an endpoint is not a vertex; already present iff the target is listed; otherwise the edge is appended to both lists and counted; the graph stays valid and is unchanged unless the edge was added |
| DiGraphs.DiGraph.AddEdgeNoChecks | src/graphs/DiGraph.hpp:69-73 | the target is appended to the source's list, the source to the target's reverse list, and the counter grows by one; validity is kept when the edge was new |
| DiGraphs.DiGraph.AddEdgesNoChecks | src/graphs/DiGraph.hpp:79-89 | all targets are appended in order, the source is appended to each target's reverse list once per occurrence, and the counter grows by the number of targets |
| DiGraphs.DiGraph.Optimize | src/graphs/DiGraph.hpp:91-102 | successor lists become sorted ascending and predecessor lists descending, with the same members and the same edge count; validity is kept |
| DiGraphs.SortLists | src/graphs/DiGraph.hpp:93-96 | each list is replaced by its sorted permutation |
| DiGraphs.SortEachKeeps | src/graphs/DiGraph.hpp:91-102 | sorting the lists keeps every list's members and the total number of entries |
| DiGraphs.AppendSourceMembers | src/graphs/DiGraph.hpp:86-88 | after adding a batch, x is a predecessor of t iff it was before or x is the source and t one of the targets |
| DiGraphs.AppendSourceTotal | src/graphs/DiGraph.hpp:79-89 | a batch of targets adds exactly that many reverse entries |
| LabeledEdgeGraphs.EdgeLeTotal | src/graphs/LabeledEdgeGraph.hpp:265-286 | the (source, target, label) comparator of optimize is a total order in which only equal edges tie, so its sort result is unique |
| LabeledEdgeGraphs.NormalizeSpec | src/graphs/LabeledEdgeGraph.hpp:321-326 | sorting then `std::unique` leaves the edges strictly ordered by (source, target, label), with exactly the same set of edges |
| LabeledEdgeGraphs.LabelCountsSum | src/graphs/LabeledEdgeGraph.hpp:207-221 | summing getEdgeCount(label) over every label below the count counts each edge exactly once, i.e. gives getEdgeCount() |
| LabeledEdgeGraphs.BlockOfSource | src/graphs/LabeledEdgeGraph.hpp:328-347 | in a source-sorted list, the edges of v are exactly the slice from the first position of a source >= v to the first position of a source >= v + 1, and the edge after that slice has a larger source |
| LabeledEdgeGraphs.CountBelowPrefix | src/graphs/LabeledEdgeGraph.hpp:336-339 | in a source-sorted list, the edges with a source below v form the prefix whose length is their count |
| LabeledEdgeGraphs.RunIsBlock | src/graphs/LabeledEdgeGraph.hpp:23-35 | an iterator started at v's lookup entry stops exactly at the next vertex's entry |
| LabeledEdgeGraphs.EdgeIterator.constructor | src/graphs/LabeledEdgeGraph.hpp:19-21 | the iterator stores the list, start and current position, size and source, and is not started |
| LabeledEdgeGraphs.EdgeIterator.Next | src/graphs/LabeledEdgeGraph.hpp:23-35 | the first call stays on the start position and later calls step by one; the result is true iff the position is still inside the run of `source`'s edges |
| LabeledEdgeGraphs.EdgeIterator.Reset | src/graphs/LabeledEdgeGraph.hpp:37-40 | the iterator returns to its start position, not started |
| LabeledEdgeGraphs.EdgeIterator.Current | src/graphs/LabeledEdgeGraph.hpp:50-52 | the edge at the current position |
| LabeledEdgeGraphs.LabelIterator.constructor | src/graphs/LabeledEdgeGraph.hpp:69-71 | list, position, source and label stored, not started |
| LabeledEdgeGraphs.LabelIterator.Next | src/graphs/LabeledEdgeGraph.hpp:96-114 | the iterator moves forward (by at least one after the first call), every edge it skipped belongs to `source` and carries another label, and the result says whether it now sits on an edge of `source` with the label |
| LabeledEdgeGraphs.LabelSetIterator.constructor | src/graphs/LabeledEdgeGraph.hpp:135-137 | list, position, source and label set stored, not started |
| LabeledEdgeGraphs.LabelSetIterator.Next | src/graphs/LabeledEdgeGraph.hpp:139-157 | as LabelIterator.Next with "label in the set": every skipped edge is `source`'s and has a label outside the set; false means the run of `source` is exhausted |
| LabeledEdgeGraphs.LabelSetIterator.Current | src/graphs/LabeledEdgeGraph.hpp:159-161 | the edge at the current position |
| LabeledEdgeGraphs.LabeledEdgeGraph.constructor | src/graphs/LabeledEdgeGraph.hpp:168-180 | no edges, empty lookups, zero vertex and label counts |
| LabeledEdgeGraphs.LabeledEdgeGraph.SetSizes | src/graphs/LabeledEdgeGraph.hpp:188-197 | the edge lists are kept, the counts are stored and both lookups are resized to the vertex count with new entries 0 |
| LabeledEdgeGraphs.LabeledEdgeGraph.AddEdge | src/graphs/LabeledEdgeGraph.hpp:223-226 | the edge is appended to `adj`, its mirror to `reverseAdj`, nothing else changes |
| LabeledEdgeGraphs.LabeledEdgeGraph.GetEdgeCount | src/graphs/LabeledEdgeGraph.hpp:211-221 | the number of edges that carry the label |
| LabeledEdgeGraphs.LabeledEdgeGraph.Optimize | src/graphs/LabeledEdgeGraph.hpp:264-380 | both lists become sorted and duplicate-free with the same edges, and each lookup entry v is the first position of an edge whose source is >= v (the edge count past the last source) |
| LabeledEdgeGraphs.OutBlocksOfLookup | src/graphs/LabeledEdgeGraph.hpp:328-347 | on a sorted edge list the lookup built by optimize starts each source's block of out-edges, which getConnected then walks |
| LabeledEdgeGraphs.LabeledEdgeGraph.GetConnected | src/graphs/LabeledEdgeGraph.hpp:228-236 | an unstarted iterator at v's lookup entry whose size is the distance to the next vertex's entry, or to the end of the list for the last vertex |
| LabeledEdgeGraphs.LabeledEdgeGraph.GetReverseConnected | src/graphs/LabeledEdgeGraph.hpp:246-254 | the same over the mirrored list |
| LabeledEdgeGraphs.LabeledEdgeGraph.GetConnectedWithLabel | src/graphs/LabeledEdgeGraph.hpp:238-240 | an unstarted label iterator at v's lookup entry |
| LabeledEdgeGraphs.LabeledEdgeGraph.GetConnectedWithLabels | src/graphs/LabeledEdgeGraph.hpp:242-244 | an unstarted label-set iterator at v's lookup entry |
| LabeledEdgeGraphs.ResizeLookup | src/graphs/LabeledEdgeGraph.hpp:189-190 | `resize` of a lookup keeps old entries and adds zeros, to exactly the vertex count |
| LabeledEdgeGraphs.FillLookup | src/graphs/LabeledEdgeGraph.hpp:328-347 | the lookup loop of optimize produces, for every vertex, the number of edges whose source is below it |
| LabeledEdgeGraphs.ConnectedIsOutEdges | src/graphs/LabeledEdgeGraph.hpp:228-236 | after optimize, the run an iterator of v walks is exactly v's edges in order, and the iterator's size equals their number |
| LabeledEdgeGraphs.BlocksTile | src/graphs/LabeledEdgeGraph.hpp:328-347 | after optimize the blocks of vertices 0..n-1 tile the edge list: each iterator ends where the next vertex's begins |
| LabeledEdgeGraphs.FlipAllMembers | src/graphs/LabeledEdgeGraph.hpp:223-226 | an edge is in the mirrored list iff its mirror is in the forward list |
| LabeledEdgeGraphs.NormalizeMirror | src/graphs/LabeledEdgeGraph.hpp:321-358 | after optimize the reverse list still holds exactly the mirrors of the forward list |
| LabeledEdgeGraphs.FlipAllSnoc | src/graphs/LabeledEdgeGraph.hpp:224-225 | adding an edge adds its mirror at the end of the reverse list |
| LabelDistribution.Histogram | src/graphs/LabeledEdgeGraph.cpp:20-34 | entry l is the number of edges that carry label l, for every label below the label count |
| LabelDistribution.TallyStep | src/graphs/LabeledEdgeGraph.cpp:31-33 | counting one more edge raises the pair of its label by one and leaves every other pair as it was |
| LabelDistribution.LabelDistributionOf | src/graphs/LabeledEdgeGraph.cpp:20-37 | the result is the (edge count, label) pairs of all labels, a permutation of the histogram's pairs sorted by `std::greater` (more edges first, ties by the larger label) |
| LabelDistribution.TallyAll | src/graphs/LabeledEdgeGraph.cpp:28-34 | walking every vertex's iterator counts the whole edge list |
| LabelDistribution.TallyBlock | src/graphs/LabeledEdgeGraph.cpp:29-33 | walking one vertex's iterator counts exactly that vertex's block |
| LabelDistribution.OrderLabelsByFrequency | src/graphs/LabeledEdgeGraph.cpp:39-49 | the order is a permutation of the labels in which a label with more edges never comes after one with fewer |
| LabelDistribution.PermutationLabels | src/graphs/LabeledEdgeGraph.cpp:39-49 | such an order lists every label exactly once, which is what createVirtualLabelGraph needs |
| LabelDistribution.Degrees | src/graphs/LabeledEdgeGraph.cpp:101-107 | entry v is v's in-degree plus out-degree |
| LabelDistribution.CalculateTotalDegree | src/graphs/LabeledEdgeGraph.cpp:82-99 | the number of v's outgoing plus incoming edges |
| LabelDistribution.VertexDistribution | src/graphs/LabeledEdgeGraph.cpp:101-110 | the (degree, vertex) pairs of all vertices, sorted by `std::greater`, so the vertices appear once each and higher degree comes first |
| MergeGraph.MergedMembers | src/algorithms/mergeGraphForLabels.cpp:138-147 | the targets collected for a source are distinct, and t is collected iff an edge of the run with a label in the set leads to it |
| MergeGraph.MergedOutEdges | src/algorithms/mergeGraphForLabels.cpp:135-152 | the merged list of s holds t iff the labelled graph has s -> t with some label of the set |
| MergeGraph.MergedSkip | src/algorithms/mergeGraphForLabels.cpp:138 | edges whose label is outside the set change nothing |
| MergeGraph.CollectTargets | src/algorithms/mergeGraphForLabels.cpp:136-147 | the iterator loop of one source produces the merged targets, and the visited bitset afterwards marks exactly them |
| MergeGraph.CollectStep | src/algorithms/mergeGraphForLabels.cpp:139-146 | one loop turn takes the current edge, keeps the collected state consistent and advances; a false result means the source's block is exhausted |
| MergeGraph.MergeSource | src/algorithms/mergeGraphForLabels.cpp:136-151 | after one source round the graph lists the merged targets of every source up to it, and the visited bitset is clear again |
| MergeGraph.MergeAll | src/algorithms/mergeGraphForLabels.cpp:135-152 | after the source loop every vertex's list is its merged targets and the DiGraph is valid |
| MergeGraph.MergedGraph | src/algorithms/mergeGraphForLabels.cpp:113-151 | a new valid DiGraph on the labelled graph's vertices whose list of s is the merged targets of s, so t follows s exactly when an edge s -> t carries a label of the set; no label set means no edges |
| MergeGraph.SourceTargets | src/algorithms/mergeGraphForLabels.cpp:135-147 | the targets collected for one source are its merged out-targets, each a vertex of the graph |
| MergeGraph.MaxLabelCountIsMax | src/algorithms/mergeGraphForLabels.cpp:123-129 | the maximum bounds the edge count of every label of the set and is attained by one of them (or is 0) |
| MergeGraph.MaxEdgeCount | src/algorithms/mergeGraphForLabels.cpp:121-129 | the largest getEdgeCount over the labels of the set |
| MergeGraph.Increase | src/algorithms/mergeGraphForLabels.cpp:131-161 | the statistic is left untouched exactly when no label is set |
| MergeGraph.MergeGraphForLabels | src/algorithms/mergeGraphForLabels.cpp:112-164 | a valid DiGraph on the same vertices where t follows s iff some edge s -> t carries a label of the set (no edges for an empty set); increase is untouched for an empty set, the largest label count minus the merged edge count for several labels, the largest count for one |
| MergeGraph.NoneListed | src/algorithms/mergeGraphForLabels.cpp:131-133 | with no label set, the empty lists setVertices leaves are already the merged ones |
| SplitGraph.CountSet | src/algorithms/splitGraph.cpp:6 | the number of set bits is at most the bitset's length |
| SplitGraph.KeptMembers | src/algorithms/splitGraph.cpp:11-19 | an edge is added iff it is an input edge with a label in the set, relabelled through the mapping |
| SplitGraph.KeptSnoc | src/algorithms/splitGraph.cpp:11-19 | one more edge of the walk extends the added list by that edge's contribution |
| SplitGraph.Split | src/algorithms/splitGraph.cpp:3-24 | a new optimized graph with the same vertices, labels.count() labels and, normalized, exactly the relabelled edges whose label is in the set |
| SplitGraph.Walk | src/algorithms/splitGraph.cpp:8-20 | the vertex loop visits the whole edge list in order |
| SplitGraph.CopyVertex | src/algorithms/splitGraph.cpp:9-19 | one vertex round adds the kept edges of that vertex's block |
| SplitGraph.CopyBlock | src/algorithms/splitGraph.cpp:11-19 | the iterator loop appends each edge of the block whose label is in the set |
| SplitGraph.Finish | src/algorithms/splitGraph.cpp:22 | optimize leaves the normalized kept edges and the counts given |
| VirtualLabelGraph.VirtualLabel | src/algorithms/createVirtualLabelGraph.cpp:121-132 | ranks below numMostFrequent keep their own label; later ranks fall on one of the numVirtual shared labels after them; every label is below numMostFrequent + numVirtual |
| VirtualLabelGraph.AssignStep | src/algorithms/createVirtualLabelGraph.cpp:121-132 | writing rank i's label keeps what the earlier ranks wrote, because the order lists no label twice |
| VirtualLabelGraph.AssignedBounded | src/algorithms/createVirtualLabelGraph.cpp:118-132 | once every rank is written, every label maps below the new label count |
| VirtualLabelGraph.VirtualMapping | src/algorithms/createVirtualLabelGraph.cpp:118-132 | the mapping has the label count's length, sends the label of rank i to VirtualLabel(i), and stays within the new label count |
| VirtualLabelGraph.RelabeledAt | src/algorithms/createVirtualLabelGraph.cpp:140-144 | every copied edge keeps its position and endpoints and has its label mapped |
| VirtualLabelGraph.RelabeledMembers | src/algorithms/createVirtualLabelGraph.cpp:137-145 | an edge is copied iff it is an input edge with its label mapped |
| VirtualLabelGraph.CreateVirtualLabelGraph | src/algorithms/createVirtualLabelGraph.cpp:115-149 | the mapping as in VirtualMapping, and a new optimized graph with the same vertices, numMostFrequent + numVirtual labels and exactly the input edges with their labels mapped |
| VirtualLabelGraph.Walk | src/algorithms/createVirtualLabelGraph.cpp:137-145 | the vertex loop copies the whole edge list in order |
| VirtualLabelGraph.CopyVertex | src/algorithms/createVirtualLabelGraph.cpp:138-144 | one vertex round copies that vertex's block |
| VirtualLabelGraph.CopyBlock | src/algorithms/createVirtualLabelGraph.cpp:140-144 | each edge of the block is appended with its label mapped |
| VirtualLabelGraph.Finish | src/algorithms/createVirtualLabelGraph.cpp:147 | optimize leaves the normalized relabelled edges |
| ReachabilityBFS.ReachabilityBfs | src/algorithms/reachabilityBFS.cpp:3-32 | true iff the target can be reached from the source by following successor lists (a vertex reaches itself) |
| ReachabilityBFS.Expand | src/algorithms/reachabilityBFS.cpp:16-28 | one dequeued vertex: a true result means the target is reachable; otherwise the search invariant holds again, the target is still unvisited, and either a new vertex was marked or the queue only shrank |
| ReachabilityBFS.SearchStart | src/algorithms/reachabilityBFS.cpp:12-13 | the search starts with only the source visited and queued |
| ReachabilityBFS.SearchComplete | src/algorithms/reachabilityBFS.cpp:15-31 | once the queue is empty the visited vertices are exactly those reachable from the source, so answering false is correct |
| ReachabilityBFS.ScanVisit | src/algorithms/reachabilityBFS.cpp:24-27 | marking and enqueuing an unvisited successor keeps the scan invariant |
| ReachabilityBFS.ScanSkip | src/algorithms/reachabilityBFS.cpp:24 | a visited successor changes nothing |
| ReachabilityBFS.ScanFound | src/algorithms/reachabilityBFS.cpp:20-22 | a target found among the successors of a visited vertex is reachable |
| ReachabilityBFS.ScanDone | src/algorithms/reachabilityBFS.cpp:19-28 | a finished scan restores the search invariant with the vertex off the queue |
| SingleSourceReachable.SingleSourceReachableFrom | src/algorithms/singleSourceReachable.cpp:3-25 | the output keeps what it held and is followed by the source and then every vertex reachable from it, each exactly once, and nothing else |
| SingleSourceReachable.ExpandRecording | src/algorithms/singleSourceReachable.cpp:13-23 | one dequeued vertex: its unvisited successors are marked, recorded after what was recorded before and queued; the search invariant is kept |
| SingleSourceReachable.RecordVisit | src/algorithms/singleSourceReachable.cpp:17-21 | recording a newly visited vertex keeps the visited set and the recorded list in step |
| BFSIndex.Query | src/lcrIndex/BFSIndex.cpp:4-51 | true iff the target is reachable along edges whose labels are all in the query's set; true for a query from a vertex to itself; false when the set is empty and the endpoints differ |
| BFSIndex.Search | src/lcrIndex/BFSIndex.cpp:20-50 | the search loop answers exactly label-constrained reachability |
| BFSIndex.ExpandLabeled | src/lcrIndex/BFSIndex.cpp:26-47 | one dequeued vertex: found means reachable; otherwise the search invariant is kept, the target is still unvisited and progress is made |
| BFSIndex.ScanEdges | src/lcrIndex/BFSIndex.cpp:32-47 | the iterator loop hands every edge of the vertex's block to the visit step |
| BFSIndex.VisitEdge | src/lcrIndex/BFSIndex.cpp:33-46 | an edge with a label outside the set is skipped, reaching the target proves reachability, a new endpoint is visited and queued |
| BFSIndex.LabelSearchStart | src/lcrIndex/BFSIndex.cpp:20-24 | the search starts with only the source visited and queued |
| BFSIndex.LabelSearchComplete | src/lcrIndex/BFSIndex.cpp:26-50 | with an empty queue the visited vertices are exactly those reachable along allowed edges |
| BFSIndex.NoLabelsNoPath | src/lcrIndex/BFSIndex.cpp:16-18 | with no allowed label no other vertex is reachable, so the early false is correct |
| BFSIndex.ScannedBlock | src/lcrIndex/BFSIndex.cpp:32-47 | after a vertex's block is scanned, every allowed edge leaving it ends at a visited vertex |
| VertexOrders.ComesFirstOrder | src/algorithms/vertexOrderByDegree.cpp:53 | `std::greater` on (score, vertex) pairs is a total order with no ties between distinct pairs, so the sorted result is unique |
| VertexOrders.DegreeScore | src/algorithms/vertexOrderByDegree.cpp:4-6 | (out + 1) * (in + 1) exceeds either degree |
| VertexOrders.DegreeScoreMonotone | src/algorithms/vertexOrderByDegree.cpp:4-6 | a vertex with at least as many edges in both directions never scores lower |
| VertexOrders.DegreeScore32 | src/algorithms/vertexOrderByDegree.cpp:13-30 | the LabeledEdgeGraph score as written: below 2^32, and equal to the exact score whenever that fits in 32 bits |
| VertexOrders.DegreeScore32Wraps | src/algorithms/vertexOrderByDegree.cpp:13-30 | 65535 edges each way wrap the 32-bit product to 0, ranking that vertex below one with one edge each way |
| VertexOrders.VertexOrderByDegree | src/algorithms/vertexOrderByDegree.cpp:44-58 | the order is a permutation of the DiGraph's vertices, highest (out + 1)(in + 1) first |
| VertexOrders.VertexOrderByDegreeLabeled | src/algorithms/vertexOrderByDegree.cpp:60-74 | the order is a permutation of the vertices, highest exact degree score first (the corrected, non-wrapping score) |
| VertexOrders.CalculateLabeledDegree | src/algorithms/vertexOrderByDegree.cpp:13-30 | the exact product of (outgoing + 1) and (incoming + 1), counted with the iterators |
| VertexOrders.CountOutgoing | src/algorithms/vertexOrderByDegree.cpp:14-21 | one plus the number of the vertex's outgoing edges |
| VertexOrders.CountIncoming | src/algorithms/vertexOrderByDegree.cpp:14-27 | one plus the number of the vertex's incoming edges |
| VertexOrders.CountRun | src/algorithms/vertexOrderByDegree.cpp:19-21 | the counting loop adds the size of the vertex's block to the initial value |
| VertexOrders.ScoreCommutes | src/algorithms/vertexOrderByDegree.cpp:29 | multiplying the incoming factor first gives the same score |
| VertexOrders.OrderPairs | src/algorithms/vertexOrderByDegree.cpp:69-73 | sorting the pairs and reading off their vertices yields a permutation in score order |
| VertexOrders.SortedOrder | src/algorithms/vertexOrderByDegree.cpp:53-57 | the vertices of the sorted pairs are a permutation of all vertices, never a lower score before a higher one |
| VertexOrders.SortVertices | src/algorithms/vertexOrderByDegree.cpp:53 | sorting rearranges the pairs and hence their vertices |
| VertexOrders.ReadOff | src/algorithms/vertexOrderByDegree.cpp:55-57 | the read-off loop yields the vertex of every pair, in order |
| VertexOrders.PermutationMembers | src/algorithms/vertexOrderByDegree.cpp:44-58 | a permutation of the vertices has n entries and contains every vertex |
| VertexOrders.DiGraphScores | src/algorithms/vertexOrderByDegree.cpp:49-51 | entry v is v's DiGraph degree score |
| VertexOrders.LabeledScores | src/algorithms/vertexOrderByDegree.cpp:65-67 | entry v is v's exact labelled degree score |
| TarjanScc.TarjanSCC | src/algorithms/tarjanSCC_labeledEdge.cpp:13-80 | the mapping numbers exactly the strongly connected components: two vertices share a number iff each reaches the other, and the numbers are 0..count-1 with count the component graph's size; every edge leads to an equal or lower number; the component graph has c -> d iff some edge goes from component c into a different component d, always downward and in ascending lists; with includeComponents the component lists are returned, duplicate-free and consistent with the mapping |
| TarjanScc.FindComponents | src/algorithms/tarjanSCC_labeledEdge.cpp:31-37 | after a DFS from every undiscovered vertex, every vertex is discovered and in a component, the Tarjan stack is empty, and every component is non-empty with all its members reaching each other |
| TarjanScc.SearchFrom | src/algorithms/tarjanSCC_labeledEdge.cpp:31-37 | one turn of the loop over start vertices keeps the between-calls invariant for the next vertex |
| TarjanScc.IterativeDFS | src/algorithms/tarjanSCC_labeledEdge.cpp:82-151 | a DFS from an undiscovered start keeps the between-calls invariant, empties the Tarjan stack again, keeps earlier components and discovery numbers, and preserves the reachability invariant |
| TarjanScc.Advance | src/algorithms/tarjanSCC_labeledEdge.cpp:102-121 | one turn with an edge left: discover its target, lower the top's lowLink to a stacked target's discovery number, or skip a target already in a component; the loop invariant and the reachability invariant hold afterwards and progress is made |
| TarjanScc.Backtrack | src/algorithms/tarjanSCC_labeledEdge.cpp:122-149 | one turn with the iterator exhausted: a root pops its component, the vertex leaves the path and the parent takes the smaller lowLink; the invariants hold and discovery numbers are unchanged |
| TarjanScc.PopComponent | src/algorithms/tarjanSCC_labeledEdge.cpp:124-137 | the do-while pops the Tarjan stack down to the root, clears each popped vertex's flag, maps it to the new component's number and lists it in popping order |
| TarjanScc.FinishedMapped | src/algorithms/tarjanSCC_labeledEdge.cpp:31-37 | once every vertex is assigned, the mapping and the components agree and every edge leads to an equal or lower component |
| TarjanScc.ReachDescends | src/algorithms/tarjanSCC_labeledEdge.cpp:124-136 | reaching w from u never leads to a higher component number (components are completed in reverse topological order) |
| TarjanScc.MutuallyReachableSameComponent | src/algorithms/tarjanSCC_labeledEdge.cpp:124-136 | two vertices that reach each other are mapped to the same component |
| TarjanScc.MappedCondensation | src/algorithms/tarjanSCC_labeledEdge.cpp:13-37 | non-empty, strongly connected, descending components with a consistent mapping are the condensation: same number iff mutually reachable, and every number below the count is used |
| TarjanScc.CollectTargets | src/algorithms/tarjanSCC_labeledEdge.cpp:46-66 | the targets recorded for component c are distinct components different from c, and d is recorded iff some edge goes from c into d |
| TarjanScc.AddComponentEdges | src/algorithms/tarjanSCC_labeledEdge.cpp:39-70 | one vertex per component, and component c's list holds d exactly when an edge crosses from c into a different d, with no duplicates |
| TarjanScc.BuiltStep | src/algorithms/tarjanSCC_labeledEdge.cpp:68-69 | appending a component's targets to its empty list extends the built prefix by one |
| TarjanScc.ComponentGraph | src/algorithms/tarjanSCC_labeledEdge.cpp:39-72 | after optimize the component graph is valid, has the crossing edges only, and each list is strictly ascending |
| Tarjan.DiscoverStep | src/algorithms/tarjanSCC_labeledEdge.cpp:107-118 | discovering an unvisited target pushes it on all three stacks, keeps the DFS invariant and leaves one vertex fewer undiscovered |
| Tarjan.BackEdgeStep | src/algorithms/tarjanSCC_labeledEdge.cpp:119-121 | lowering the top's lowLink to the discovery number of a stacked target keeps the DFS invariant |
| Tarjan.CrossEdgeStep | src/algorithms/tarjanSCC_labeledEdge.cpp:102-121 | an edge into a vertex already in a component changes nothing but the iterator |
| Tarjan.RootValid | src/algorithms/tarjanSCC_labeledEdge.cpp:124-137 | after popping a root's component the between-calls invariant holds, and popping the bottom root empties the Tarjan stack |
| Tarjan.RootMembers | src/algorithms/tarjanSCC_labeledEdge.cpp:124-136 | at a root the vertices above it on the Tarjan stack are exactly those the pop must take |
| Tarjan.RootParent | src/algorithms/tarjanSCC_labeledEdge.cpp:139-148 | back at the parent of a popped root, the DFS invariant holds for the shorter path |
| Tarjan.RootPopped | src/algorithms/tarjanSCC_labeledEdge.cpp:124-140 | popping a root's component and leaving the root keeps the DFS invariant for the shorter path |
| Tarjan.RootParentKeeps | src/algorithms/tarjanSCC_labeledEdge.cpp:146-148 | after a root's component is popped, the parent's lowLink update changes nothing |
| Tarjan.NonRootStep | src/algorithms/tarjanSCC_labeledEdge.cpp:139-148 | leaving a non-root: it stays on the Tarjan stack, its parent inherits the smaller lowLink and the DFS invariant holds |
| Tarjan.StackDistinct | src/algorithms/tarjanSCC_labeledEdge.cpp:114-115 | no vertex is on the Tarjan stack twice |
| Tarjan.PopFrom | src/algorithms/tarjanSCC_labeledEdge.cpp:129-136 | popping to `pos` leaves the stack prefix, keeps discovery numbers, lowLinks, components and the counter, and maps the popped vertices to the new component |
| Tarjan.PopStep | src/algorithms/tarjanSCC_labeledEdge.cpp:130-135 | one do-while round moves the top vertex from the stack into the component |
| Tarjan.PopDone | src/algorithms/tarjanSCC_labeledEdge.cpp:129-136 | the do-while ends with exactly the state of popping down to the root |
| Tarjan.ComponentsGrow | src/algorithms/tarjanSCC_labeledEdge.cpp:127 | popping a component appends it and changes no discovery number |
| Tarjan.StartStep | src/algorithms/tarjanSCC_labeledEdge.cpp:87-96 | discovering the start vertex sets up the DFS loop invariant |
| Tarjan.RemainingAdvance | src/algorithms/tarjanSCC_labeledEdge.cpp:102 | exploring one more edge leaves less work, so the loop terminates |
| Tarjan.RemainingPop | src/algorithms/tarjanSCC_labeledEdge.cpp:139-140 | leaving the top vertex leaves less work |
| TarjanReach.RootStrong | src/algorithms/tarjanSCC_labeledEdge.cpp:124-136 | at a root, every two vertices from the root up on the Tarjan stack reach each other, so each popped component is strongly connected |
| TarjanReach.ReachRoot | src/algorithms/tarjanSCC_labeledEdge.cpp:124-136 | every vertex above a root on the Tarjan stack reaches the root, following lowLinks down to it |
| TarjanReach.ReachStart | src/algorithms/tarjanSCC_labeledEdge.cpp:87-96 | the reachability invariant (each stacked vertex reaches the vertex its lowLink names, path vertices reach later stack entries) holds after the start is pushed |
| TarjanReach.ReachDiscover | src/algorithms/tarjanSCC_labeledEdge.cpp:107-118 | pushing a newly discovered target keeps the reachability invariant |
| TarjanReach.ReachBackEdge | src/algorithms/tarjanSCC_labeledEdge.cpp:119-121 | lowering the top's lowLink along an edge to a stacked vertex keeps the reachability invariant |
| TarjanReach.ReachNonRoot | src/algorithms/tarjanSCC_labeledEdge.cpp:146-148 | the parent taking the child's lowLink keeps the reachability invariant |
| TarjanReach.ReachPop | src/algorithms/tarjanSCC_labeledEdge.cpp:124-148 | popping a root's component and returning to the parent keeps the invariant and adds a strongly connected, non-empty component |
| TarjanReach.RootReach | src/algorithms/tarjanSCC_labeledEdge.cpp:124-148 | the backtracking branch at a root preserves the reachability invariant for the shorter path |
| TarjanReach.NonRootReach | src/algorithms/tarjanSCC_labeledEdge.cpp:139-148 | the backtracking branch at a non-root preserves the reachability invariant for the shorter path |
| TarjanReach.EdgeReach | src/algorithms/tarjanSCC_labeledEdge.cpp:102-105 | an edge of the graph is a reach |
| TarjanReach.StrongAppend | src/algorithms/tarjanSCC_labeledEdge.cpp:127-135 | appending a strongly connected component keeps all components strongly connected |
| SccExamples.NoEdgesComponents | test/sccTests.cpp:312-351 | in a graph without edges every vertex is a component of its own and there are as many components as vertices (also covers the empty and one-vertex graphs) |
| SccExamples.NoEdgesReach | test/sccTests.cpp:312-325 | without edges a vertex reaches only itself |
| SccExamples.SimpleGraphComponents | test/sccTests.cpp:4-24 | for the five-vertex simpleGraph, any condensation puts 0, 1 and 2 together, 3 and 4 apart from them and from each other, three components in all |
| SccExamples.SimpleGraphClasses | test/sccTests.cpp:21-23 | which vertices of simpleGraph share a component number |
| SccExamples.SimpleGraphCycle | test/sccTests.cpp:4-21 | vertices 0, 1 and 2 of simpleGraph reach each other |
| SccExamples.SimpleGraphNoReturn | test/sccTests.cpp:4-23 | from 3 and 4 simpleGraph never returns to 0, and from 4 never to 3 |
| SccExamples.NumberedImage | test/sccTests.cpp:20 | a mapping numbered 0..count-1 uses exactly count numbers, which is the component graph's vertex count |
| SccExamples.ImageCard | test/sccTests.cpp:322 | a mapping that separates all n vertices uses n numbers |
| PLL.IsReachable | src/reachIndex/PLLIndex.cpp:3-31 | a true answer means the two label lists share a label; on ascending lists the merge answers true exactly when they share one |
| PLL.PLLIndex.constructor | src/reachIndex/PLLIndex.hpp:14-16 | the index holds the given component graph and vertex mapping, with no labels yet |
| PLL.PLLIndex.PrunedBFS | src/reachIndex/PLLIndex.cpp:33-62 | only `reachFrom` changes: each list is kept or gains the new label at its end, and only where it did not already meet the landmark's `reachTo`; the landmark itself is labelled unless already covered; every stored label stays sound; the visited bits come back as they were, with the landmark's cleared |
| PLL.PLLIndex.ReversePrunedBFS | src/reachIndex/PLLIndex.cpp:64-93 | the mirror image over `reachTo` and the reverse lists |
| PLL.PLLIndex.BackwardLabels | src/reachIndex/PLLIndex.cpp:72-78 | in the reverse search a list gains the label only where it shared none with the landmark's and its vertex reaches the landmark, so every label stays sound; the landmark ends holding the label or already meeting it |
| PLL.PLLIndex.QueueReachesLandmark | src/reachIndex/PLLIndex.cpp:81-86 | a vertex reached from the landmark over reversed edges reaches the landmark in the graph |
| PLL.MeetSymmetric | src/reachIndex/PLLIndex.cpp:3-31 | whether two label lists share a label does not depend on their order, so the checks at lines 43 and 74 test the same thing for swapped arguments |
| PLL.PLLIndex.Train | src/reachIndex/PLLIndex.cpp:95-119 | the landmarks are a permutation of the component graph's vertices in degree order, and afterwards every label is sound (a label x in reachTo[v] means v reaches landmark x, in reachFrom[v] that landmark x reaches v) and every list is strictly ascending |
| PLL.PLLIndex.Query | src/reachIndex/PLLIndex.cpp:121-137 | the same component answers true; a lower source component answers false; otherwise the answer is whether the source's reachTo and the target's reachFrom share a label |
| PLL.PLLIndex.MeetReaches | src/reachIndex/PLLIndex.cpp:121-137 | with sound labels, a shared label is a landmark on a path, so every positive answer of the label merge is a real path in the component graph |
| PLL.PLLIndex.SortedLists | src/reachIndex/PLLIndex.cpp:22-27 | labels are issued in increasing order, so every list is sorted as the merge requires |
| PLL.PLLIndex.AppendKeepsLabels | src/reachIndex/PLLIndex.cpp:48 | appending a label above every stored one keeps each list increasing and adds no other label |
| PLL.PLLIndex.IndexSize | src/reachIndex/PLLIndex.cpp:139-148 | four bytes per stored label, both directions |
| PLL.PLLIndex.ReverseNoReturn | src/reachIndex/PLLIndex.cpp:64-93 | in a graph without cycles no backward path returns to the landmark |
| PLL.PLLIndex.ConverseSteps | src/reachIndex/PLLIndex.cpp:81 | the reverse lists are the converse of the forward lists |
| PLL.NoUpwardPath | src/reachIndex/PLLIndex.cpp:131-134 | in a component graph whose edges all lead to lower numbers, nothing reaches a higher number, which justifies the early false |
| PLL.OrderedAcyclic | src/reachIndex/PLLIndex.cpp:131 | a graph whose edges all lead downward has no cycle |
| PLL.PrunedSearch | src/reachIndex/PLLIndex.cpp:33-62 | one search: the enqueued vertices are reachable from the landmark; exactly the enqueued vertices whose list did not meet the landmark's get the label; every successor of a labelled vertex was enqueued or already visited before |
| PLL.PrunedLoop | src/reachIndex/PLLIndex.cpp:40-56 | the queue loop labels exactly the dequeued vertices whose list does not meet the landmark's, and the queue array holds the enqueued vertices |
| PLL.Dequeue | src/reachIndex/PLLIndex.cpp:41-55 | one iteration: dequeue, test, label and expand, keeping the loop state |
| PLL.EnqueueNew | src/reachIndex/PLLIndex.cpp:50-55 | every unvisited successor of the dequeued vertex is marked and appended to the queue; marks are never cleared |
| PLL.EnqueueOne | src/reachIndex/PLLIndex.cpp:51-54 | one unvisited successor is marked and appended |
| PLL.MarksEnqueue | src/reachIndex/PLLIndex.cpp:51-54 | marking and appending an unvisited successor keeps the queue short of the vertex count, made of vertices reachable from the landmark without repeats, and the marks equal to the queue's members |
| PLL.ResetVisited | src/reachIndex/PLLIndex.cpp:58-61 | the reset loop clears exactly the bits of the queued vertices |
| PLL.GrowDone | src/reachIndex/PLLIndex.cpp:50-55 | after the successor loop every successor is visited |
| PLL.AcyclicNoReturn | src/reachIndex/PLLIndex.cpp:33-62 | in an acyclic graph nothing returns to the landmark |
| IndexCommon.LowerBound | src/lcrIndex/LandmarkPlusIndex.cpp:197-198 | the first position whose vertex is not below the target: everything before is below, everything after is not |
| IndexCommon.ScanBlock | src/lcrIndex/LandmarkPlusIndex.cpp:197-215 | walking on from the lower bound while the vertex matches finds an entry that fits the labels iff one exists |
| LandmarkPlus.TryInsert | src/lcrIndex/LandmarkPlusIndex.cpp:494-543 | the landmark itself is accepted and nothing is stored; otherwise the offer is accepted exactly when no stored set of the target lies inside it, a refused offer changes nothing, an accepted one changes only the target's list, which becomes the old list with every superset of the offer replaced by the offer once, and the running count moves by the change in that list's length |
| LandmarkPlus.ReplaceSupersets | src/lcrIndex/LandmarkPlusIndex.cpp:510-534 | the swap-and-erase loop (with its `i--` after a swap) leaves exactly the old sets that are no supersets plus the new set once when some superset existed, and leaves the list untouched, with no superset in it, otherwise; the count drops by the number of erased slots |
| LandmarkPlus.ReplacedAntichain | src/lcrIndex/LandmarkPlusIndex.cpp:494-543 | a target's list that holds no two comparable sets keeps that property after an accepted offer |
| LandmarkPlus.ReplacedCovers | src/lcrIndex/LandmarkPlusIndex.cpp:494-543 | after replacing, a query label set is covered by the list exactly when it was covered before or contains the new set: dropping supersets loses no reachability |
| LandmarkPlus.ReplacedMember | src/lcrIndex/LandmarkPlusIndex.cpp:510-534 | every set left in the list is the new set or an old set that is no superset of it |
| LandmarkPlus.AntichainOnce | src/lcrIndex/LandmarkPlusIndex.cpp:502-506 | in a list of pairwise incomparable sets each set occurs once |
| LandmarkPlus.Entries | src/lcrIndex/LandmarkPlusIndex.cpp:41-47 | the flattened list holds one entry per stored (vertex, set) pair |
| LandmarkPlus.EntriesSpec | src/lcrIndex/LandmarkPlusIndex.cpp:41-47 | the flattened list is in vertex order (what lower_bound in queryLandmark needs) and contains exactly the stored (vertex, set) pairs, every vertex in range |
| LandmarkPlus.EncodeNonLandmark | src/lcrIndex/LandmarkPlusIndex.cpp:53 | the intended non-landmark code is negative |
| LandmarkPlus.NonLandmarkRoundTrip | src/lcrIndex/LandmarkPlusIndex.cpp:481-484 | getNonLandmark's `-(m + 1)` recovers the position stored by `-(i + 1)` |
| LandmarkPlus.NonLandmarkOnto | src/lcrIndex/LandmarkPlusIndex.cpp:481-484 | every negative mapping value decodes to a position that encodes back to it |
| LandmarkPlus.Landmarks | src/lcrIndex/LandmarkPlusIndex.cpp:13 | the number of landmarks is the landmark count capped by the vertex count |
| LandmarkPlus.EncodeNonLandmarkAsWritten | src/lcrIndex/LandmarkPlusIndex.cpp:51-53 | as written, `-(i + 1)` on an unsigned 32-bit `i` stores 2^32 - (i + 1), a non-negative value below 2^32 |
| LandmarkPlus.DecodeNonLandmarkAsWritten | src/lcrIndex/LandmarkPlusIndex.cpp:481-484 | getNonLandmark's index is truncated to 32 bits |
| LandmarkPlus.NonLandmarkAsWrittenUnused | src/lcrIndex/LandmarkPlusIndex.cpp:51-53 | as written, a non-landmark's mapping is never negative, so isNonLandmark never holds for it; it is no landmark number while the count fits 32 bits; the first non-landmark's value collides with the unmapped marker; decoding still recovers the position |
| LandmarkPlus.LandmarkPlusIndex.constructor | src/lcrIndex/LandmarkPlusIndex.hpp:21-25 | stores the landmark and non-landmark counts, with no mapping or lists yet |
| LandmarkPlus.LandmarkPlusIndex.MapVertices | src/lcrIndex/LandmarkPlusIndex.cpp:13-29 | (corrected) the first `landmarks` vertices of the degree order get landmark numbers 0, 1, ...; with non-landmarks enabled the rest get -1, -2, ... and one list each; otherwise they stay unmapped; one list per landmark |
| LandmarkPlus.LandmarkPlusIndex.MapVerticesAsWritten | src/lcrIndex/LandmarkPlusIndex.cpp:13-53 | the mapping as the source stores it: landmark numbers as intended, but non-landmarks get 2^32 - (i + 1), so no vertex is a non-landmark afterwards |
| LandmarkPlus.LandmarkPlusIndex.StoreLandmarkEntries | src/lcrIndex/LandmarkPlusIndex.cpp:33-47 | landmark i's list gains exactly the flattened stored pairs, in vertex order, and every vertex's sets are cleared; no other list changes |
| LandmarkPlus.LandmarkPlusIndex.QueryLandmark | src/lcrIndex/LandmarkPlusIndex.cpp:193-217 | the binary search plus scan answers true exactly when the landmark's list holds an entry for the target whose label set lies inside the query's labels |
| LandmarkPlus.LandmarkPlusIndex.QueryNonLandmark | src/lcrIndex/LandmarkPlusIndex.cpp:254-286 | true exactly when the vertex's non-landmark list holds a fitting entry for the target; the landmark fall-back is unreachable because the scan stops past the target |
| LandmarkPlus.LandmarkPlusIndex.QueryOnce | src/lcrIndex/LandmarkPlusIndex.cpp:147-163 | a landmark source answers reachable or not-reachable from its list; a non-landmark source answers reachable exactly when its list fits and never not-reachable; any other source is maybe-reachable |
| LandmarkPlus.LandmarkPlusIndex.QueryGuards | src/lcrIndex/LandmarkPlusIndex.cpp:76-94 | query's early answers: true for source equal to target, false for an empty label set, and the landmark list's answer for a landmark source; otherwise the graph search is needed |
| P2H.UpperBound | src/lcrIndex/P2HIndex.cpp:278-292 | the position where the insertion scan stops: every entry from it on is past `target`, the one before it is not |
| P2H.UpperBoundAt | src/lcrIndex/P2HIndex.cpp:278-292 | any position splitting the list into "at most target" and "past target" is that stopping position |
| P2H.InsertedAsWritten | src/lcrIndex/P2HIndex.cpp:294-333 | as written, an accepted insertion adds exactly one entry and removes none |
| P2H.Prune | src/lcrIndex/P2HIndex.cpp:298-322 | (corrected) keeps exactly the entries that are not a superset entry of `target`, never duplicating any |
| P2H.PruneSorted | src/lcrIndex/P2HIndex.cpp:298-322 | pruning keeps a list vertex-ordered |
| P2H.InsertedSorted | src/lcrIndex/P2HIndex.cpp:276-333 | both the as-written and the corrected insertion keep a vertex-ordered list vertex-ordered, as lower_bound on it requires |
| P2H.InsertedCovers | src/lcrIndex/P2HIndex.cpp:269-335 | after either insertion a vertex is served under some labels exactly when it was before, or it is `target` and the labels contain the new set |
| P2H.InsertedMinimal | src/lcrIndex/P2HIndex.cpp:294-328 | the corrected insertion keeps every vertex's label sets pairwise incomparable |
| P2H.InsertedDistinct | src/lcrIndex/P2HIndex.cpp:294-333 | the corrected insertion adds one new entry and repeats none |
| P2H.InsertedAsWrittenKeepsSuperset | src/lcrIndex/P2HIndex.cpp:294-328 | a concrete list where the insertion as written keeps the redundant superset (5, {0, 1}) next to the new (5, {0}), breaking minimality, while the corrected insertion keeps it |
| P2H.ScanForSubset | src/lcrIndex/P2HIndex.cpp:276-292 | the scan refuses exactly when a stored entry of `target` has a set inside the new one; otherwise it stops at the position past `target`'s entries |
| P2H.SweepAsWritten | src/lcrIndex/P2HIndex.cpp:294-328 | as written the sweep starts where the scan stopped, past `target`'s entries, so it changes nothing and inserts nothing |
| P2H.InsertToIndexAsWritten | src/lcrIndex/P2HIndex.cpp:269-335 | a self entry is accepted unchanged; an entry covered by a stored one is refused with no change; any other is inserted after `target`'s entries with none removed, and only the source's list changes |
| P2H.InsertToIndex | src/lcrIndex/P2HIndex.cpp:269-335 | (corrected) as above, except that the accepted entry replaces all stored supersets of it among `target`'s entries |
| P2H.TwoHopMonotone | src/lcrIndex/P2HIndex.cpp:403-522 | a query with more labels never loses a 2-hop answer |
| P2H.ScanFrom | src/lcrIndex/P2HIndex.cpp:414-426 | walking a sorted list from a position finds a fitting entry of `v` exactly when one exists from there on |
| P2H.AdvanceIncoming | src/lcrIndex/P2HIndex.cpp:472-501 | the inner in-list walk for one out-entry stops only at a genuine 2-hop witness, and what it skips holds no source entry that fits and no fitting entry at or past the out-entry's vertex |
| P2H.IsReachable | src/lcrIndex/P2HIndex.cpp:403-522 | the sorted merge answers exactly the 2-hop question: the out-list reaches target, the in-list is reached from source, or the two meet in a vertex, each side under a set inside the labels; two empty lists answer false |
| P2H.P2HIndex.constructor | src/lcrIndex/P2HIndex.hpp:29-31 | stores w, with all indexes and label tables empty |
| P2H.P2HIndex.Translate | src/lcrIndex/P2HIndex.cpp:358-368 | the translated set holds exactly the primary positions of those query labels that have one |
| P2H.P2HIndex.Virtual | src/lcrIndex/P2HIndex.cpp:393-401 | the virtual set holds exactly the virtual labels of the query labels |
| P2H.P2HIndex.IsPrimaryReachable | src/lcrIndex/P2HIndex.cpp:389-391 | answers the 2-hop question on the primary index |
| P2H.P2HIndex.IsSecondaryReachable | src/lcrIndex/P2HIndex.cpp:393-401 | answers the 2-hop question on the secondary index for the query labels' virtual labels |
| P2H.P2HIndex.Query | src/lcrIndex/P2HIndex.cpp:337-383 | true for source equal to target, false for no labels; with at most w labels in the graph the primary answer; when all query labels are primary the primary answer on their positions; otherwise true exactly when the applicable primary labels confirm, or the secondary index does not refuse and the fallback search says yes |
| P2H.P2HIndex.TranslateLabels | src/lcrIndex/P2HIndex.cpp:358-368 | computes the translated set, whether every query label is primary, and whether any is |
| P2H.P2HIndex.FullyIncludedSnoc | src/lcrIndex/P2HIndex.cpp:361-367 | one more label keeps the labels fully included exactly when that label is primary |
| P2H.P2HIndex.QueryOnce | src/lcrIndex/P2HIndex.cpp:385-387 | always definite: reachable exactly when the primary index answers yes |
| BloomFilters.Unsigned | src/dataStructures/BloomFilter.hpp:26-30 | a 32-bit vertex read as the unsigned number it denotes, below 2^32 |
| BloomFilters.Union | src/dataStructures/BloomFilter.hpp:21-24 | the bitwise union keeps the size |
| BloomFilters.Slot | src/dataStructures/BloomFilter.hpp:29 | a hash modulo a non-empty size lands on a bit of the vector |
| BloomFilters.SetSlot | src/dataStructures/BloomFilter.hpp:29 | setting a bit keeps the size |
| BloomFilters.SetSlotContains | src/dataStructures/BloomFilter.hpp:26-30 | no false negatives: after setting a hash's bit the hash is present, every hash present before still is, and every other bit is unchanged |
| BloomFilters.UnionContains | src/dataStructures/BloomFilter.hpp:21-24 | the union holds a hash exactly when either operand does |
| BloomFilters.CoveredIff | src/dataStructures/BloomFilter.hpp:63-77 | after the loop has passed index j, the sets added are exactly the supersets of the label set that only add bits from i on and differ from it below j (or equal it) |
| BloomFilters.CoveredAll | src/dataStructures/BloomFilter.hpp:63-77 | when the loop ends every superset that only adds bits from i on has been added, and nothing else |
| BloomFilters.CoveredStep | src/dataStructures/BloomFilter.hpp:66-76 | one round of the superset loop sets exactly the bits of the supersets it newly covers |
| BloomFilters.BloomFilter.constructor | src/dataStructures/BloomFilter.hpp:8-10 | a new filter has no bits |
| BloomFilters.BloomFilter.Setup | src/dataStructures/BloomFilter.hpp:13-15 | setup resizes the vector, keeping the bits below the new size and adding clear ones |
| BloomFilters.BloomFilter.Empty | src/dataStructures/BloomFilter.hpp:17-19 | empty exactly when the vector has no bits |
| BloomFilters.BloomFilter.UnionWith | src/dataStructures/BloomFilter.hpp:21-24 | the bits become the union of both filters' bits |
| BloomFilters.BloomFilter.Add | src/dataStructures/BloomFilter.hpp:26-30 | sets the vertex's bit (its hash is the vertex itself), after which the vertex is contained |
| BloomFilters.BloomFilter.Contains | src/dataStructures/BloomFilter.hpp:80-83 | reads the vertex's bit |
| BloomFilters.BloomFilter.AddHash | src/dataStructures/BloomFilter.hpp:32-44 | the labelled adds set the bit of the combined hash, which is then contained |
| BloomFilters.BloomFilter.ContainsHash | src/dataStructures/BloomFilter.hpp:85-103 | containsHash and the labelled contains read the combined hash's bit |
| BloomFilters.BloomFilter.ContainsAt | src/dataStructures/BloomFilter.hpp:89-91 | reads the bit at a position |
| BloomFilters.BloomFilter.AddWithSuperSets | src/dataStructures/BloomFilter.hpp:46-60 | afterwards the label set and every superset of the same width are contained, the size is kept, and a bit is set exactly when it was set before or some such superset's hash lands on it |
| BloomFilters.BloomFilter.AddWithSuperSetsFrom | src/dataStructures/BloomFilter.hpp:63-77 | the recursive overload adds exactly the label set and its supersets that only add bits from i on |
| BloomFilters.BloomFilter1Hash.constructor | src/dataStructures/BloomFilter.hpp:110-112 | a new filter has no bits |
| BloomFilters.BloomFilter1Hash.Setup | src/dataStructures/BloomFilter.hpp:115-117 | resizes the vector |
| BloomFilters.BloomFilter1Hash.Empty | src/dataStructures/BloomFilter.hpp:119-121 | empty exactly when the vector has no bits |
| BloomFilters.BloomFilter1Hash.UnionWith | src/dataStructures/BloomFilter.hpp:123-126 | the bits become the union of both filters' bits |
| BloomFilters.BloomFilter1Hash.Add | src/dataStructures/BloomFilter.cpp:30-44 | sets exactly the one bit of hashFunc(vertex), the joinHash of the vertex over the seed 0xAAAAAAAA with 32-bit arithmetic, after which the vertex is contained |
| BloomFilters.BloomFilter1Hash.Contains | src/dataStructures/BloomFilter.hpp:133-136 | reads the bit of hashFunc(vertex) |
| BloomFilters.BloomFilter2Hash.constructor | src/dataStructures/BloomFilter.hpp:143-145 | a new filter has no bits |
| BloomFilters.BloomFilter2Hash.Setup | src/dataStructures/BloomFilter.hpp:148-150 | resizes the vector |
| BloomFilters.BloomFilter2Hash.Empty | src/dataStructures/BloomFilter.hpp:152-154 | empty exactly when the vector has no bits |
| BloomFilters.BloomFilter2Hash.UnionWith | src/dataStructures/BloomFilter.hpp:156-159 | the bits become the union of both filters' bits |
| BloomFilters.BloomFilter2Hash.Add | src/dataStructures/BloomFilter.hpp:161-167 | sets the bits of hashFunc(vertex, 0) and hashFunc(vertex, 1), after which the vertex is contained |
| BloomFilters.BloomFilter2Hash.Contains | src/dataStructures/BloomFilter.hpp:169-178 | contained exactly when both hash bits are set |
| BloomFilters.TwoHashAdd | src/dataStructures/BloomFilter.hpp:161-178 | adding makes the vertex present and keeps every vertex that was present |
| BloomFilters.TwoHashUnion | src/dataStructures/BloomFilter.hpp:156-178 | the union holds every vertex either operand holds |
| IndexCreate.StoulU32 | src/lcrIndex/Index.cpp:45 | `std::stoul` passed to a `uint32_t` parameter gives a value below 2^32, or fails |
| IndexCreate.StollU32 | src/lcrIndex/Index.cpp:77 | `uint32_t(std::stoll(s))` gives a value below 2^32, or fails |
| IndexCreate.Create | src/lcrIndex/Index.cpp:19-253 | an index is created only for a name whose lower-case form is one of the accepted names |
| IndexCreate.CreateLower | src/lcrIndex/Index.cpp:24-252 | the dispatch on the lower-cased name creates an index only for an accepted name, and "bfs" is the plain BFS |
| IndexCreate.CreateLandmarkPlus | src/lcrIndex/Index.cpp:28-61 | a landmark-plus index only from at most two parameters, with both counts below 2^32 |
| IndexCreate.CreateLWBF | src/lcrIndex/Index.cpp:63-89 | an lwbf index only from no or exactly three parameters, with its three numbers below 2^32 |
| IndexCreate.CreateALC | src/lcrIndex/Index.cpp:131-141 | an alc index exactly from one parameter, or from two whose second reads as a number; its reachability index is the first parameter and its parameter is below 2^32 |
| IndexCreate.CreateKLCBFL | src/lcrIndex/Index.cpp:201-209 | a klcbfl index with k below 2^32 |
| IndexCreate.CreateP2H | src/lcrIndex/Index.cpp:211-217 | a p2h index with a label count below 2^32, twelve when no parameter is given |
| IndexCreate.CreateScaleHarness | src/lcrIndex/Index.cpp:219-249 | a scale-harness index only from at least one parameter, with w below 2^32 and its wrapped index's parameters a suffix of the parameters |
| IndexCreate.CaseInsensitive | src/lcrIndex/Index.cpp:20-22 | the name is matched after lower-casing: any spelling selects the same index with the same parameters |
| IndexCreate.UnknownNameFatal | src/lcrIndex/Index.cpp:251-252 | a name outside the accepted ones is fatal whatever the parameters |
| IndexCreate.LandmarkPlusDefaults | src/lcrIndex/Index.cpp:28-61 | landmark-plus with more than two parameters is fatal; none gives (max, 0); "custom" keeps the maximum in either slot |
| IndexCreate.LWBFArity | src/lcrIndex/Index.cpp:63-89 | lwbf with a parameter count other than 0 or 3 is fatal; a "custom" slot keeps the maximum |
| IndexCreate.KLCArity | src/lcrIndex/Index.cpp:143-170 | klc with no or more than three parameters is fatal, as is a numeric k with no index name after it; a non-numeric first parameter is the index name with k at the maximum, a numeric one is k |
| IndexCreate.ScaleHarnessParams | src/lcrIndex/Index.cpp:219-249 | sh without parameters, or with only a number, is fatal; w stays 12 unless the first parameter is a number, and the parameters after the index name pass through |
| IndexCreate.ReadU32 | src/lcrIndex/Index.cpp:45 | a 32-bit number written in decimal is read back by stoul, is not "custom" and passes the all-digits test |
| IndexCreate.ReadL32 | src/lcrIndex/Index.cpp:76-86 | a 32-bit number written in decimal is read back by stoll, also in a "custom"-or-number slot |
| IndexCreate.NameOfLower | src/lcrIndex/Index.cpp:24-219 | every index's canonical name is lower case and accepted |
| IndexCreate.CreateRoundTrip | src/lcrIndex/Index.cpp:19-253 | creating an index from any configuration's canonical name and parameters gives back that configuration |
| CsvQueries.LabelStart | src/io/queryReader/CSVQueryReader.cpp:44-55 | the label part starts just after the first comma, or at 0 when the line has no comma (npos + 1 wraps) |
| CsvQueries.LabelEnd | src/io/queryReader/CSVQueryReader.cpp:45-55 | the label part ends at the last comma, or at the end of the line when its length wraps to npos |
| CsvQueries.LabelStop | src/io/queryReader/CSVQueryReader.cpp:57-59 | a trailing '+' is cut from the label part |
| CsvQueries.TargetOffset | src/io/queryReader/CSVQueryReader.cpp:74 | the target is read just after the last comma, or from 0 when there is none |
| CsvQueries.LabelsFrom | src/io/queryReader/CSVQueryReader.cpp:61-72 | a label walk that succeeds yields at least one label |
| CsvQueries.LabelsFromStep | src/io/queryReader/CSVQueryReader.cpp:63-69 | one round reads the label at the view's start, truncated to 32 bits, then continues after the next '+' |
| CsvQueries.LabelsFromLast | src/io/queryReader/CSVQueryReader.cpp:71-72 | with no '+' left, the last label is read and the walk ends |
| CsvQueries.ReadLabels | src/io/queryReader/CSVQueryReader.cpp:61-72 | the loop computes exactly the label walk |
| CsvQueries.ReadLabeledLine | src/io/queryReader/CSVQueryReader.cpp:42-76 | the loop body computes exactly the line's parse |
| CsvQueries.ParsedLabeledLines | src/io/queryReader/CSVQueryReader.cpp:41-77 | one query per line, in order, each the parse of its line |
| CsvQueries.ParsedReachLines | src/io/queryReader/CSVQueryReader.cpp:13-26 | one query per line, in order, each the parse of its line |
| CsvQueries.ReadLabeledQueries | src/io/queryReader/CSVQueryReader.cpp:31-80 | succeeds exactly when every line parses, and then yields each line's query in file order |
| CsvQueries.ReadQueries | src/io/queryReader/CSVQueryReader.cpp:3-29 | succeeds exactly when every line parses, and then yields each line's source and target in file order |
| CsvQueries.SetBitsSpec | src/io/queryWriter/CSVQueryWriter.cpp:30-42 | the labels written are exactly the set bits, ascending, each once and below the width |
| CsvQueries.LabelTextSnoc | src/io/queryWriter/CSVQueryWriter.cpp:35-41 | one more label adds a '+' and its digits, except before the first |
| CsvQueries.WriteLabels | src/io/queryWriter/CSVQueryWriter.cpp:28-42 | the bit loop writes the set bits in ascending order joined by '+' |
| CsvQueries.LabeledLines | src/io/queryWriter/CSVQueryWriter.cpp:25-45 | one line per query, in order |
| CsvQueries.ReachLines | src/io/queryWriter/CSVQueryWriter.cpp:10-12 | one line per query, in order |
| CsvQueries.WriteLabeledQueries | src/io/queryWriter/CSVQueryWriter.cpp:18-49 | a file that cannot be opened is fatal; otherwise the text is the queries' lines, each ended by a newline |
| CsvQueries.WriteQueries | src/io/queryWriter/CSVQueryWriter.cpp:3-16 | a file that cannot be opened is fatal; otherwise "source,0+,target" per query, each ended by a newline |
| CsvQueries.LabelTextChars | src/io/queryWriter/CSVQueryWriter.cpp:35-41 | a written label part holds no comma or newline and, when non-empty, ends with a digit |
| CsvQueries.LabelsFromText | src/io/queryReader/CSVQueryReader.cpp:61-72 | walking a label part the writer produced yields the labels written |
| CsvQueries.LineShape | src/io/queryReader/CSVQueryReader.cpp:44-55 | in a line `s,m,t` with comma-free fields the reader finds the label part at `m` and the target after the second comma |
| CsvQueries.LabeledLineRoundTrip | src/io/queryWriter/CSVQueryWriter.cpp:25-45 | reading back a written line gives the source, the target and the set labels in ascending order, for a query with at least one label |
| CsvQueries.ReachLineRoundTrip | src/io/queryWriter/CSVQueryWriter.cpp:10-12 | readQueries reads back a line writeQueries wrote as the same query |
| CsvQueries.ReachLineLabeled | src/io/queryWriter/CSVQueryWriter.cpp:10-12 | readLabeledQueries reads a line writeQueries wrote as the query with the single label 0 |
| CsvQueries.LabeledLineNoBreak | src/io/queryWriter/CSVQueryWriter.cpp:25-45 | a written line holds no newline |
| CsvQueries.EmptyLabelLine | src/io/queryReader/CSVQueryReader.cpp:55-59 | a query with no labels is written as `source,,target`, which the reader does not read back (its empty label part has no back()) |
| CsvQueries.LabeledFileRoundTrip | src/io/queryWriter/CSVQueryWriter.cpp:18-49 | reading back a written file gives one query per query written, in order, with source, target and ascending set labels, when every query has a label |
| CsvQueries.EmptyLabelFile | src/io/queryReader/CSVQueryReader.cpp:41-77 | a file holding a query with no labels does not read back |
| CsvQueries.ReachFileRoundTrip | src/io/queryWriter/CSVQueryWriter.cpp:3-16 | readQueries reads back a file writeQueries wrote as the queries written |
| NTriples.ParseHeader | src/io/graphReader/NTriplesGraphReader.cpp:51-64 | a header is read only when it has two distinct commas, and its three counts are narrowed to 32 bits |
| NTriples.ParseVertexCount | src/io/graphReader/NTriplesGraphReader.cpp:10-20 | readGraph's header check is the same, and only the vertex count is read, narrowed to 32 bits |
| NTriples.HeaderValidIff | src/io/graphReader/NTriplesGraphReader.cpp:15 | the header check accepts exactly the lines holding at least two commas |
| NTriples.LabelOffset | src/io/graphReader/NTriplesGraphReader.cpp:73-84 | the label is read after the first space, or from 0 when there is none |
| NTriples.CutAtLastSpace | src/io/graphReader/NTriplesGraphReader.cpp:76 | the view cut at the last space is a prefix of the line |
| NTriples.TargetOffset | src/io/graphReader/NTriplesGraphReader.cpp:76-85 | the target is read after the last space of the cut view, or from 0 when there is none |
| NTriples.ParseEdgeLine | src/io/graphReader/NTriplesGraphReader.cpp:71-87 | an edge line yields source, label and target narrowed to 32 bits, or is fatal when a number cannot be read |
| NTriples.ParseArcLine | src/io/graphReader/NTriplesGraphReader.cpp:24-38 | readGraph's edge line yields source and target narrowed to 32 bits |
| NTriples.ArcOfEdge | src/io/graphReader/NTriplesGraphReader.cpp:24-38 | readGraph accepts every line the labelled readers accept, with the same endpoints |
| NTriples.NoSpaceLine | src/io/graphReader/NTriplesGraphReader.cpp:73-85 | a line without spaces reads all three numbers from its start: a self loop labelled with its own vertex |
| NTriples.ParsedEdges | src/io/graphReader/NTriplesGraphReader.cpp:70-88 | one edge per line, in order |
| NTriples.ParsedArcs | src/io/graphReader/NTriplesGraphReader.cpp:23-39 | one arc per line, in order |
| NTriples.InvalidHeaderFatal | src/io/graphReader/NTriplesGraphReader.cpp:15-20 | every reader stops on a header without two distinct commas, whatever follows |
| NTriples.ParsedEdgesFail | src/io/graphReader/NTriplesGraphReader.cpp:83-85 | one unreadable line makes the whole file unreadable |
| NTriples.ReadEdgeLines | src/io/graphReader/NTriplesGraphReader.cpp:70-88 | the loop over edge lines succeeds exactly when every line parses, and then appends the parsed edges in order |
| NTriples.ArcOutOfRange | src/io/graphReader/NTriplesGraphReader.cpp:38 | an arc outside the vertex range anywhere makes the file unreadable for readGraph |
| NTriples.ReadLabeledEdgeGraph | src/io/graphReader/NTriplesGraphReader.cpp:44-91 | succeeds exactly when the file parses, and then returns a new graph sized by the header and loaded with every edge line in order |
| NTriples.ReadSizesAndFill | src/io/graphReader/NTriplesGraphReader.cpp:93-141 | succeeds exactly when the file parses; the caller's edges gain one tuple per line in file order, and the header's vertex and label counts are returned |
| NTriples.AddArc | src/io/graphReader/NTriplesGraphReader.cpp:38 | adding an arc keeps the graph valid and sized; an arc in range leaves the successor lists holding exactly the arcs read so far |
| NTriples.ReadGraph | src/io/graphReader/NTriplesGraphReader.cpp:3-42 | succeeds exactly when the file parses with every arc in range, and returns a new valid graph with the header's vertex count whose successors are exactly the arcs read |
| NTriples.EdgeLines | src/io/graphWriter/NTriplesGraphWriter.cpp:82-85 | one `source label target .` line per edge, in order |
| NTriples.WriteLabeledGraph | src/io/graphWriter/NTriplesGraphWriter.cpp:69-90 | a file that cannot be opened is fatal; otherwise the header, then every vertex's edges in iterator order |
| NTriples.WriteBlock | src/io/graphWriter/NTriplesGraphWriter.cpp:80-85 | the iterator loop of one vertex appends one line per edge of its block |
| NTriples.TargetArcs | src/io/graphWriter/NTriplesGraphWriter.cpp:14-16 | one arc per successor, in list order |
| NTriples.ArcsMembers | src/io/graphWriter/NTriplesGraphWriter.cpp:13-17 | the arcs written are exactly the (source, successor) pairs of the lists |
| NTriples.ArcLines | src/io/graphWriter/NTriplesGraphWriter.cpp:15 | writeGraph writes label 0 on every line |
| NTriples.WriteTargets | src/io/graphWriter/NTriplesGraphWriter.cpp:14-16 | the inner loop appends `source 0 target .` per successor, in list order |
| NTriples.WriteGraph | src/io/graphWriter/NTriplesGraphWriter.cpp:3-21 | a file that cannot be opened is fatal; otherwise the header `vertices,edges,1`, then every successor of every vertex in turn |
| NTriples.HeaderRoundTrip | src/io/graphWriter/NTriplesGraphWriter.cpp:77 | the header written reads back as the counts it was written from |
| NTriples.EdgeLineRoundTrip | src/io/graphWriter/NTriplesGraphWriter.cpp:84 | a written edge line reads back as its edge, and as its arc |
| NTriples.EdgeLinesRead | src/io/graphWriter/NTriplesGraphWriter.cpp:79-86 | every edge whose numbers fit in 32 bits reads back from its line, and no line holds a newline |
| NTriples.LabeledGraphRoundTrip | src/io/graphWriter/NTriplesGraphWriter.cpp:69-90 | reading back what writeLabeledGraph wrote gives the counts and the edges in adjacency order, when every number fits in 32 bits |
| NTriples.ArcsBounded | src/io/graphWriter/NTriplesGraphWriter.cpp:13-17 | the arcs of lists whose successors are vertices stay in the vertex range |
| NTriples.DiGraphRoundTrip | src/io/graphWriter/NTriplesGraphWriter.cpp:3-21 | reading back what writeGraph wrote gives the vertex count and the graph's arcs, when counts fit in 32 bits and every successor is a vertex |
| MainArgs.ParamsEnd | src/main.cpp:161-176 | the --indexParams list runs up to the first later argument that is a switch (longer than two characters, starting with "--"), or to the end |
| MainArgs.Finish | src/main.cpp:215-225 | the parse succeeds exactly when a graph file, at least one query file and an index were given, and then keeps every setting |
| MainArgs.Step | src/main.cpp:148-212 | every turn of the argument loop moves forward |
| MainArgs.ReadArgs | src/main.cpp:137-225 | the loop computes the parse from argv[2] on, and a successful parse has a graph file, a query file and an index |
| MainArgs.ReadIndexParams | src/main.cpp:161-176 | --indexParams takes exactly the following arguments up to the next switch, in order |
| MainArgs.LimitsOf | src/main.cpp:231-238 | a time limit is set only when the value is positive, and then in seconds; a memory limit only when positive, narrowed to 32 bits |
| MainArgs.Start | src/main.cpp:8-39 | no mode is a usage error (exit 1); a mode other than reach or lcr in any case is exit 1; the mode alone runs the built-in experiment; otherwise the arguments from argv[2] are parsed |
| MainArgs.IndexTwiceFatal | src/main.cpp:156-158 | naming the index twice is fatal, whatever follows |
| MainArgs.GraphFileTwiceFatal | src/main.cpp:182-184 | naming the graph file twice is fatal, whatever follows |
| MainArgs.UnknownSwitchFatal | src/main.cpp:209-211 | an unrecognised switch is fatal |
| MainArgs.MissingValueFatal | src/main.cpp:152-154 | a value-taking switch as the last argument is fatal |
| MainArgs.RequiredSettings | src/main.cpp:215-225 | from any position and settings, a parse that succeeds has a graph file, a query file and an index |
| MainArgs.QueryArgs | src/main.cpp:187-192 | two arguments per query file |
| MainArgs.QueryArgsRead | src/main.cpp:187-192 | repeated --queryFile switches append their files in order |
| MainArgs.IndexParamsRead | src/main.cpp:161-176 | an --indexParams list followed by a switch takes exactly its parameters |
| MainArgs.ArgsRoundTrip | src/main.cpp:137-225 | parsing the command line rendered from any settings, after any program name and mode, gives back those settings |
| QueryGenerator.LabelGenModes | src/lcrQueryGenerator.cpp:224-236 | one to three modes, strictly increasing, each between 1 and 6 and never above a non-zero label count |
| QueryGenerator.ModesOfLargeGraphs | src/lcrQueryGenerator.cpp:233-235 | from eight labels on the modes are 2, 4 and 6 |
| QueryGenerator.BuildGenData | src/lcrQueryGenerator.cpp:309-336 | the plan has one entry "L<mode>" per mode with both counts, or with splitting a "rnd.L<mode>" entry with only random queries and a "cnn.L<mode>" entry with only connected ones, in mode order |
| QueryGenerator.Names | src/lcrQueryGenerator.cpp:193-199 | the registered names are exactly the plan's entry names |
| QueryGenerator.RegisterNames | src/lcrQueryGenerator.cpp:193-199 | registration succeeds exactly when no name repeats, and then registers exactly the plan's names |
| QueryGenerator.NatToStringInjective | src/lcrQueryGenerator.cpp:314 | different modes have different decimal names |
| QueryGenerator.ModeNamesDiffer | src/lcrQueryGenerator.cpp:314-330 | entry names with different prefixes or modes differ |
| QueryGenerator.GenDataNamesDistinct | src/lcrQueryGenerator.cpp:193-199 | the plan built from the label modes never trips the duplicate-name check, split or not |
| QueryGenerator.SplitKeepsCounts | src/lcrQueryGenerator.cpp:320-335 | a split plan asks per mode for as many random and connected queries as an unsplit one, with the same label count |
| QueryGenerator.NormalizeSlashes | src/lcrQueryGenerator.cpp:300 | every backslash of the graph path becomes a slash and nothing else changes |
| QueryGenerator.Stem | src/lcrQueryGenerator.cpp:59-60 | the stem is a prefix of the path |
| QueryGenerator.StemRemovesExtension | src/lcrQueryGenerator.cpp:59-60 | a path ending in an extension without a dot loses exactly that extension |
| QueryGenerator.StemWithoutDot | src/lcrQueryGenerator.cpp:59-60 | a path without a dot is its own stem |
| QueryGenerator.StemCutsInsideDirectory | src/lcrQueryGenerator.cpp:59-60 | the last dot may sit in a directory name: "./../graph" is cut to "./." |
| QueryGenerator.OutputsNonEmpty | src/lcrQueryGenerator.cpp:66-74 | no file is written for an empty list |
| QueryGenerator.OutputsComplete | src/lcrQueryGenerator.cpp:62-75 | every non-empty list of every group is written to its own ".false.csv" or ".true.csv" file |
| QueryGenerator.WriteQueryFiles | src/lcrQueryGenerator.cpp:53-78 | for each group in turn, a file of its unreachable and one of its reachable queries, each only when non-empty |
| CStrings.UInt32 | src/io/queryReader/CSVQueryReader.cpp:19-23 | storing an `unsigned long` in a 32-bit `Vertex` keeps it modulo 2^32, unchanged when it fits |
| CStrings.Stoul | src/io/queryReader/CSVQueryReader.cpp:22-23 | a number std::stoul reads is at most ULONG_MAX; otherwise (no digit, or too large) it throws |
| CStrings.Stoll | src/main.cpp:199 | a number std::stoll reads fits a signed 64-bit integer; otherwise it throws |
| CStrings.UInt32OfLong | src/lcrIndex/Index.cpp:77 | `uint32_t(long long)` keeps the value modulo 2^32, unchanged when it fits |
| CStrings.StoulNatToString | src/io/queryReader/CSVQueryReader.cpp:22-23 | a decimal number followed by a non-digit reads back as itself |
| CStrings.StollIntToString | src/main.cpp:199 | the decimal form of any 64-bit signed value reads back as itself |
| CStrings.Lines | src/io/queryReader/CSVQueryReader.cpp:13 | the lines getline yields hold no newline |
| CStrings.LinesTerminated | src/io/queryWriter/CSVQueryWriter.cpp:10-12 | reading the lines of a file written line by line, each ended by "\n", gives back exactly the lines written |
| ContinueState.PairLines | runner/ContinueState.py:13-19 | one line per entry, in the dictionary's order |
| ContinueState.Checkpoint.constructor | runner/ContinueState.py:5-11 | creating the checkpoint leaves a state file of an earlier run as it was |
| ContinueState.Checkpoint.SaveState | runner/ContinueState.py:13-19 | the file is overwritten with one "name<TAB>value" line per entry, each ended by a newline |
| ContinueState.Checkpoint.LoadState | runner/ContinueState.py:24-32 | a missing file raises; otherwise the entries read from the file's lines, failing on a line that holds no tab |
| ContinueState.Checkpoint.Cleanup | runner/ContinueState.py:34-35 | the file is removed, which raises when there is none; afterwards there is no state to continue |
| ContinueState.LoadedStops | runner/ContinueState.py:28-30 | once one line cannot be read, loading the whole file fails |
| ContinueState.LoadedNext | runner/ContinueState.py:28-30 | one more line makes loading fail when it cannot be read, and otherwise adds its entry over an earlier one of the same name |
| ContinueState.ParsePairLine | runner/ContinueState.py:29-30 | a written line of a storable entry reads back as its name and value |
| ContinueState.ParseLine | runner/ContinueState.py:29-30 | a line read back yields its first two tab-separated fields, so neither the name nor the value holds a tab |
| ContinueState.LoadedPairLines | runner/ContinueState.py:24-32 | reading the lines of saved storable entries gives the dictionary they came from, later names winning |
| ContinueState.PairLinesUnbroken | runner/ContinueState.py:13-19 | saved lines of storable entries hold no line break |
| ContinueState.SaveLoadRoundTrip | runner/ContinueState.py:13-32 | loading after saving gives back the same names mapped to the same string values, for entries without tabs, line breaks or whitespace at the cut ends |
| ContinueState.EmptyNameUnreadable | runner/ContinueState.py:29-30 | an entry with an empty name is not read back: its line strips to the bare value, and `pair[1]` raises |
| BenchmarkRunner.JoinHasNo | runner/LCRBenchmarkRunner.py:104 | a character in no parameter and not in ", " is not in the joined parameters |
| BenchmarkRunner.IndexNameBare | runner/LCRBenchmarkRunner.py:104 | an index without parameters is named by its bare name ("()" is removed) |
| BenchmarkRunner.IndexNameWithParams | runner/LCRBenchmarkRunner.py:104 | an index with parameters, none holding parentheses, is named `index(p1, p2, ...)` |
| BenchmarkRunner.ResultFilesDistinct | runner/LCRBenchmarkRunner.py:58-63 | no query-time file is one of the three scalar files, and different modes have different files |
| BenchmarkRunner.ClassifyCodes | runner/LCRBenchmarkRunner.py:131-150 | a run succeeds exactly when its exit code is 0; a failure naming "memory limit" is -2 even when it also names the time limit, one naming only "time limit" is -3, and any other failure stops the sweep |
| BenchmarkRunner.Classify | runner/LCRBenchmarkRunner.py:131-150 | a run succeeds exactly when its exit code is 0, and a failure carries the memory code -2 or the time code -3 |
| BenchmarkRunner.QueryTimes | runner/LCRBenchmarkRunner.py:185-201 | the collected query times have an entry for exactly the modes |
| BenchmarkRunner.QueryTimesMissing | runner/LCRBenchmarkRunner.py:188-192 | a mode whose "Query timings: <file>" subsection is missing reads as -5 |
| BenchmarkRunner.QueryTimesValue | runner/LCRBenchmarkRunner.py:185-201 | each mode's entry is the time parsed from its own query file's subsection |
| BenchmarkRunner.CollectedModes | runner/LCRBenchmarkRunner.py:152-201 | whatever is collected from a run that did not stop the sweep has a value for every mode |
| BenchmarkRunner.Collected | runner/LCRBenchmarkRunner.py:152-201 | what is written for a run that does not stop the sweep has a value for every mode; a classified failure writes its code to the three scalar cells |
| BenchmarkRunner.NotRun | runner/LCRBenchmarkRunner.py:34-46 | a fresh table per mode, with -1 in exactly the cells of the graphs and indexes |
| BenchmarkRunner.Recorded | runner/LCRBenchmarkRunner.py:185-201 | recording keeps the set of query tables |
| BenchmarkRunner.RecordedCells | runner/LCRBenchmarkRunner.py:156-157 | recording changes exactly cell (graph, index) of the modes' tables, to each mode's value |
| BenchmarkRunner.SavedFilesHold | runner/LCRBenchmarkRunner.py:54-63 | after save each results file holds its table and no other file changes |
| BenchmarkRunner.FirstMissing | runner/LCRBenchmarkRunner.py:79-85 | the first mode whose query-time file is missing, or none when all exist |
| BenchmarkRunner.LoadedQueries | runner/LCRBenchmarkRunner.py:79-85 | the query tables read for the modes are exactly their files' tables |
| BenchmarkRunner.LoadedQueriesStep | runner/LCRBenchmarkRunner.py:79-85 | reading one more mode's file puts its table under that mode |
| BenchmarkRunner.AllIn | runner/LCRBenchmarkRunner.py:91-99 | true exactly when every label of the first list is in the second |
| BenchmarkRunner.Runner.constructor | runner/LCRBenchmarkRunner.py:10-25 | the runner keeps its graphs, indexes and modes and starts reset, every cell -1 |
| BenchmarkRunner.ResetQueries | runner/LCRBenchmarkRunner.py:27-46 | every mode's query table is replaced by a fresh one with -1 in exactly the cells of the graphs and indexes; tables of other keys are kept |
| BenchmarkRunner.Runner.Reset | runner/LCRBenchmarkRunner.py:27-46 | every table is fresh with -1 in every cell of the graphs and indexes; query tables of other modes are kept; nothing is written |
| BenchmarkRunner.Runner.Save | runner/LCRBenchmarkRunner.py:54-63 | each table is written to its file; the tables themselves do not change |
| BenchmarkRunner.Runner.Load | runner/LCRBenchmarkRunner.py:65-101 | false with nothing read when a scalar file is missing; false with the scalar tables and the query tables before the first missing one read when a query file is missing; false after a reset when the size table's columns are not the indexes or a row is not a graph; true with every table read otherwise |
| BenchmarkRunner.Runner.Record | runner/LCRBenchmarkRunner.py:181-204 | cell (graph, index) of every table is set, then every table is saved |
| BenchmarkRunner.Runner.RunAndCollect | runner/LCRBenchmarkRunner.py:103-205 | a run that stops the sweep (unknown failure, or output that does not parse) writes nothing; otherwise its failure code or its parsed measurements go into cell (graph, index) of every table, the tables are saved, and (False, code) or (True, -1) is returned |
| BenchmarkRunner.Runner.SetPreviousFailed | runner/LCRBenchmarkRunner.py:207-222 | cell (graph, index) of the scalar tables gets the code, and of each query table the code when the mode's query file exists and -5 otherwise; then save |
| BenchmarkRunner.StoredCells | runner/LCRBenchmarkRunner.py:152-157 | storing changes exactly cell (graph, index) of every table |
| BenchmarkRunner.StoredSaved | runner/LCRBenchmarkRunner.py:54-63 | after storing, each results file holds its table |
| BenchmarkRunner.FailureCells | runner/LCRBenchmarkRunner.py:210-220 | the code goes into the scalar tables, and into each mode's query table where its file exists, else -5 |
| BenchmarkRunner.PreviousFailed | runner/LCRBenchmarkRunner.py:214-220 | one query cell per mode |
| BenchmarkRunner.SaveThenLoad | runner/LCRBenchmarkRunner.py:54-101 | loading after saving tables over the runner's own graphs and indexes succeeds and reads every table back as it was |
| BenchmarkRunner.ResetMatches | runner/LCRBenchmarkRunner.py:87-99 | a freshly reset table passes load's column and row check |
| BenchmarkRunner.LoadQueries | runner/LCRBenchmarkRunner.py:79-85 | the loop reads the modes' files in order, succeeding exactly when none is missing, and otherwise reads those before the first missing one |
| BenchmarkRunner.RecordQueries | runner/LCRBenchmarkRunner.py:185-201 | the loop sets cell (graph, index) of each mode's table to that mode's value |
| BenchmarkRunner.FirstMissingAt | runner/LCRBenchmarkRunner.py:79-85 | when the files of the modes before k exist and that of mode k does not, mode k is the first missing |
| Benchmarker.GraphName | runner/benchmarker.py:31-45 | a name exactly for the models er, pa, ff and pl (the source exits on any other); the name starts with the model followed by "V" |
| Benchmarker.ToNameAsWrittenMissesRow | runner/benchmarker.py:17-18 | the name `toName` gives a "pa" graph is the name of no generated graph, so its results go to a row the runner does not have |
| Benchmarker.ToNameAsWrittenElsewhere | runner/benchmarker.py:12-28 | for every model other than "pa", `toName` and `toNameAndGenerate` give the same name |
| Benchmarker.ToNameAsWritten | runner/benchmarker.py:12-28 | `toName` as written gives a name exactly for the four known models, like the corrected naming |
| Benchmarker.FlatMapHas | runner/benchmarker.py:68-72 | every name produced for a grid point is in the list of graph names |
| Benchmarker.CellNamed | runner/benchmarker.py:68-72 | every cell of the grid names a graph that is in the runner's graph list |
| Benchmarker.Visit | runner/benchmarker.py:141-166 | one cell of runSynth's loops acts at that cell and index, and moves to the next model or breaks to the next degree; the cell's graph is named by GraphName, the corrected `toName` of the Findings table (line 150 as written is ToNameAsWritten) |
| Benchmarker.Apply | runner/benchmarker.py:155-159 | a recorded failure or a run keeps the set of query tables |
| Benchmarker.Replay | runner/benchmarker.py:109-172 | a sequence of actions keeps the set of query tables |
| Benchmarker.ReplayJoin | runner/benchmarker.py:109-172 | replaying two plans in turn is replaying their concatenation |
| Benchmarker.SynthStateSaved | runner/benchmarker.py:141-148 | the checkpoint runSynth saves at a cell is the text of its six positions |
| Benchmarker.PairLinesAt | runner/ContinueState.py:13-19 | each saved line is its entry's "name<TAB>value" line |
| Benchmarker.IndexNames | runner/benchmarker.py:64-66 | one column name per index, the runner's name for that index and its parameters |
| Benchmarker.ResumedSheet | runner/LCRBenchmarkRunner.py:27-102 | the tables after resuming keep the results directory and have a query table for exactly the modes; without a checkpoint every table is as created; with a checkpoint and a directory `load` accepts, the scalar tables and every mode's query table are the files' tables; otherwise a mode whose file is missing keeps its table of -1 |
| Benchmarker.Resume | runner/benchmarker.py:79-80 | the runner gets its graphs, indexes and modes, and its tables are ResumedSheet: as created without a checkpoint or with a missing scalar file, and otherwise as `load` leaves them; the sweep resumes where the checkpoint says when the results load, starts afresh when there is no checkpoint, and otherwise drops the checkpoint |
| Benchmarker.SynthStep | runner/benchmarker.py:141-166 | one cell saves the checkpoint, then records the failure or runs the engine; the tables become the action applied to them and the next cell and prune state are Visit's |
| Benchmarker.SweepIndex | runner/benchmarker.py:114-172 | the loops for one index take exactly the index's plan from the start cell and leave the tables as that plan replayed |
| Benchmarker.ReplaySnoc | runner/benchmarker.py:109-172 | replaying a log and one more action applies that action to the log's replay |
| Benchmarker.JoinAssociative | runner/benchmarker.py:109-172 | plans join associatively |
| Benchmarker.Seek | runner/benchmarker.py:126-172 | the next grid cell in loop order at or after a cell, or one past the last node size |
| Benchmarker.SeekPlan | runner/benchmarker.py:126-172 | positions outside the grid add no action: the plan from them is the plan from the next grid cell |
| Benchmarker.SweepFrom | runner/benchmarker.py:109-172 | the loop over the indexes takes exactly the plan from the resumed index and cell and leaves the tables as that plan replayed |
| Benchmarker.IndexPlanAt | runner/benchmarker.py:109-166 | every action of an index's plan is at that index |
| Benchmarker.RunSynth | runner/benchmarker.py:56-175 | no runner when a model is unknown; otherwise the tables the sweep starts from are ResumedSheet of the directory and checkpoint, the actions are the plan from the resumed position (graphs named by the corrected GraphName, see Findings), the sweep stops exactly when a run halts it, the tables are that plan replayed on the resumed ones, the checkpoint names the last cell after a halt and is removed after a finished sweep |
| Benchmarker.SynthOnGrid | runner/benchmarker.py:64-175 | with known models: the runner has the grid's graph names, the index names and the modes; it starts from ResumedSheet of the directory and checkpoint; the actions are exactly the plan from the resumed position, or none when the checkpoint does not parse; the sweep stops exactly when a run halts it; the tables are the plan replayed on the resumed ones; the checkpoint names the last cell after a halt and is gone after a finished sweep |
| Benchmarker.SynthResumed | runner/benchmarker.py:107-166 | from a resumed position the actions are the plan from there and the tables their replay; the sweep stops exactly when a run halts it, leaving that cell's checkpoint, and otherwise the checkpoint is gone |
| Benchmarker.IndexPlanCells | runner/benchmarker.py:126-159 | every action is at a grid cell, on that cell's graph and its generated file, in the index's column |
| Benchmarker.SynthRowsKnown | runner/benchmarker.py:64-72 | every result runSynth records lands in a row and a column the runner has |
| Benchmarker.IndexPlanPrunes | runner/benchmarker.py:114-166 | a cell is recorded as failed without running exactly when its label count and degree are at least those of the last failure before it (or of ALC's presumed one at 17 labels), and then with that failure's code |
| Benchmarker.VisitPrunes | runner/benchmarker.py:153-166 | one visit agrees with the prune state in force and leaves the next prune state |
| Benchmarker.NumberStorable | runner/ContinueState.py:13-32 | a saved position survives saving and loading and parses back to itself |
| Benchmarker.ToMapHas | runner/ContinueState.py:24-32 | the loaded dictionary maps a key to its last saved value |
| Benchmarker.CursorAt | runner/benchmarker.py:100-105 | a saved position is read back from the dictionary as the same number |
| Benchmarker.SynthCursorRead | runner/benchmarker.py:96-105 | runSynth reads back exactly the index and cell it saved |
| Benchmarker.SynthCheckpointRoundTrip | runner/benchmarker.py:96-148 | after an interruption, the checkpoint saved at a cell makes the next runSynth resume at that cell |
| Benchmarker.SynthPairsStorable | runner/benchmarker.py:141-148 | every entry runSynth saves is one the checkpoint file can hold |
| Benchmarker.RealStateSaved | runner/benchmarker.py:223-226 | the checkpoint runReal saves is the text of its two positions |
| Benchmarker.RealCheckpointRoundTrip | runner/benchmarker.py:202-244 | after an interruption, the checkpoint saved at a graph makes the next runReal resume at that graph |
| Benchmarker.RealRun | runner/benchmarker.py:219-228 | one graph saves the checkpoint at its joined position and runs the engine; the run halts the sweep exactly when runAndCollect exits |
| Benchmarker.PrimaryStep | runner/benchmarker.py:219-231 | one primary graph is run, and its code is kept when it fails |
| Benchmarker.PrimarySweep | runner/benchmarker.py:218-233 | the primary loop takes exactly the primary plan and leaves the tables as that plan replayed |
| Benchmarker.SecondaryStep | runner/benchmarker.py:237-251 | one graph of the second loop is recorded as failed with the primaries' code, or run when there is none |
| Benchmarker.SecondarySweep | runner/benchmarker.py:237-251 | the second loop takes exactly the secondary plan and leaves the tables as that plan replayed |
| Benchmarker.IndexRealSweep | runner/benchmarker.py:211-253 | the loops for one index take exactly the index's plan from the joined position |
| Benchmarker.RealSweepFrom | runner/benchmarker.py:211-253 | the loop over the indexes takes exactly the plan from the resumed position |
| Benchmarker.RunReal | runner/benchmarker.py:178-256 | the tables the sweep starts from are ResumedSheet of the directory and checkpoint; the actions are the plan from the resumed position, the sweep stops exactly when a run halts it, the tables are that plan replayed on the resumed ones, the checkpoint names the last graph after a halt and is removed after a finished sweep |
| Benchmarker.RealResumed | runner/benchmarker.py:211-253 | from a resumed position the actions are the plan from there and the tables their replay; the sweep stops exactly when a run halts it, leaving that graph's checkpoint, and otherwise the checkpoint is gone |
| Benchmarker.SecondaryAction | runner/benchmarker.py:237-251 | the second loop's action on a graph is a recorded failure with the code when there is one, and a run otherwise |
| Benchmarker.PrimaryPlanIsRuns | runner/benchmarker.py:219-231 | the primary loop runs the same graphs whatever failure code it starts with |
| Benchmarker.PrimaryRunsTail | runner/benchmarker.py:219-228 | the primary runs from a graph are the run on it followed by the runs from the next |
| Benchmarker.PrimaryRunAt | runner/benchmarker.py:219-228 | each primary run is the one on the graph at its offset |
| Benchmarker.PrimaryPlanRunAt | runner/benchmarker.py:219-228 | the primary loop runs the primary graphs in order |
| Benchmarker.PrimaryRunsCells | runner/benchmarker.py:219-228 | every primary run is on a primary graph and its file, in the index's column |
| Benchmarker.PrimaryPlanEnds | runner/benchmarker.py:219-231 | the primary loop reaches its last graph unless a run halts it, and leaves the code of its last failed run |
| Benchmarker.SecondaryPlanVisits | runner/benchmarker.py:237-251 | the second loop visits its graphs in order |
| Benchmarker.SecondaryPlanEnds | runner/benchmarker.py:237-251 | the second loop reaches its last graph unless a run halts it, and nothing halts it when there is a failure code |
| Benchmarker.IndexRealPlanCells | runner/benchmarker.py:218-251 | every action is on a graph of the joined list and its file, in the index's column |
| Benchmarker.SecondaryCells | runner/benchmarker.py:237-251 | every action of the second loop is on one of its graphs and that graph's file |
| Benchmarker.RealRowsKnown | runner/benchmarker.py:181-189 | every result runReal records lands in a row and a column the runner has |
| Benchmarker.FailureCodeFrom | runner/benchmarker.py:230-231 | the kept code is the starting one or the code of a failed run |
| Benchmarker.RealFailureSpreads | runner/benchmarker.py:216-251 | when a primary run failed and none halted the sweep, every secondary graph is recorded as failed with the last failure's code and none runs; when none failed, they all run in order |
| RunnerUtility.ExeExtension | runner/utility.py:4-8 | ".exe" exactly when the platform name starts with "win32", and the empty suffix otherwise |
| RunnerUtility.TimeFactor | runner/utility.py:17-39 | every time unit the runner accepts converts to a positive number of milliseconds |
| RunnerUtility.MemoryFactor | runner/utility.py:51-64 | every memory unit the runner accepts converts to a positive number of megabytes |
| RunnerUtility.MemoryScalesDecimal | runner/utility.py:51-64 | each memory unit from KB to EB is a thousand of the one before it |
| RunnerUtility.MeasurementOf | runner/utility.py:12-15 | "<number> <unit>" splits on the space into the number's value and the stripped unit |
| RunnerUtility.ParseTime | runner/utility.py:17-42 | a value exactly when the measurement parses and its unit is a time unit; the milliseconds are positive exactly when the measured number is |
| RunnerUtility.ParseMemory | runner/utility.py:51-67 | a value exactly when the measurement parses and its unit is a memory unit; the megabytes are positive exactly when the measured number is |
| RunnerUtility.ParseTimeMilliseconds | runner/utility.py:23-24 | a measurement in "ms" reads back as its own number |
| RunnerUtility.UnknownUnitRejected | runner/utility.py:41-42 | a unit outside the tables stops the runner, for times (line 41) and for memory (line 66) |
| RunnerUtility.ThreeCharacterTimeUnit | runner/utility.py:17-39 | no time unit has three characters |
| RunnerUtility.TimeUnits | runner/utility.py:17-39 | parseTime accepts exactly ns, µs, ms, s, mins, hours, days and weeks |
| RunnerUtility.MemoryUnits | runner/utility.py:51-64 | parseMemory accepts exactly B, KB, MB, GB, TB, PB and EB |
| Format.ReplaceNaN | evaluation/format.py:28-31 | a negative cell becomes NaN and any other is kept, so the result is never negative |
| Format.FormatErrors | evaluation/format.py:73-92 | the result is a label or the cell itself |
| Format.FormatErrorsLabels | evaluation/format.py:73-92 | a cell gets a label exactly when it is a sentinel code (-1 to -5) or NaN: "did not run" for -1, -5 and NaN, "mem" for -2, "time" for -3, "unknown error" for -4 |
| Format.UnitIndex | evaluation/format.py:41-47 | the chosen unit lies between the starting one and the number of units |
| Format.UnitIndexFirst | evaluation/format.py:41-47 | the chosen unit is the first whose next bound is not exceeded, or the last-plus-one when every bound is |
| Format.FindUnit | evaluation/format.py:41-50 | the loop returns the first unit whose next bound holds the amount, having passed every bound below it, or the number of units when the amount exceeds them all |
| Format.ShowTimeWith | evaluation/format.py:33-50 | codes and NaN come out as formatErrors' labels; a measured time is shown as its nanoseconds over the unit's bound |
| Format.ShowMemory | evaluation/format.py:53-70 | codes and NaN come out as formatErrors' labels; a measured amount is shown as its bytes over the unit's bound |
| Format.FormatTime | evaluation/format.py:33-50 | the loop gives the shown time of the specification, with the micro sign "µs" corrected (see Findings) |
| Format.FormatMemory | evaluation/format.py:53-70 | the loop gives the shown memory of the specification |
| Format.MaxMemoryAscending | evaluation/format.py:15-23 | the memory bounds increase |
| Format.MemoryStep | evaluation/format.py:15-23 | each memory bound is a thousand times the one before |
| Format.MaxTimeAscending | evaluation/format.py:4-13 | the time bounds increase |
| Format.AscendingPositive | evaluation/format.py:4-23 | every bound of an increasing list starting at 1 is positive |
| Format.PickedBound | evaluation/format.py:41-47 | the picked bound is positive, the amount exceeds it unless the first unit was picked, and stays within the next one unless the search ran off the end |
| Format.ShowMemoryNormalised | evaluation/format.py:59-70 | memory is shown in the first unit whose next bound holds it; except for bytes and exabytes the amount shown lies in (1, 1000] |
| Format.ShowTimeNormalised | evaluation/format.py:39-50 | times are shown in the first unit whose next bound holds them, at that unit's length in nanoseconds, and above the nanosecond the amount shown exceeds 1 |
| Format.FormatValueWithBest | evaluation/format.py:95-99 | bold exactly when the value equals the best one, else the formatted value |
| Format.BoldIffBest | evaluation/format.py:95-99 | the bold marker appears exactly when the value is the best; NaN is never bold |
| Format.TimeUnitStripped | evaluation/format.py:26 | stripped of padding, each time unit of the formatter is the runner's unit name (runner/utility.py:17-39) |
| Format.RunnerTimeFactors | evaluation/format.py:4-13 | the runner's factor for each time unit is the formatter's bound, in milliseconds |
| Format.MemoryUnitStripped | evaluation/format.py:25 | stripped of padding, each memory unit of the formatter is the runner's unit name (runner/utility.py:51-64) |
| Format.RunnerMemoryFactors | evaluation/format.py:15-23 | the runner's factor for each memory unit is the formatter's bound, in megabytes |
| Format.TimeUnitKnown | evaluation/format.py:39-50 | every time the formatter shows is in a unit the runner's parseTime knows, at the scale the formatter divided by |
| Format.MemoryUnitKnown | evaluation/format.py:59-70 | every memory amount the formatter shows is in a unit the runner's parseMemory knows, at the scale the formatter divided by |
| Format.MicrosecondsAsWritten | evaluation/format.py:26 | as written, half a millisecond is shown in the unit "Âµs"; the corrected list shows it in "µs" |
| Format.MicrosecondsAsWrittenUnknown | evaluation/format.py:26 | the as-written unit "Âµs" is not a unit the runner's parseTime knows |
| ResultSets.RemapDoubled | evaluation/ResultSet.py:611-617 | a code both sides record adds up to twice the code, which the masks decode back to it |
| ResultSets.RemapMixedCodes | evaluation/ResultSet.py:611-617 | two different codes do not decode: "not run" plus "time limit" reads as "memory limit" |
| ResultSets.JoinPart | evaluation/ResultSet.py:9-19 | in "replace" mode every cell of the given graphs and indexes takes the right table's value; in "replace-when-invalid" mode only the negative ones do; all other cells and every other mode leave the left table as it was |
| ResultSets.JoinIdempotent | evaluation/ResultSet.py:9-19 | joining the same right table a second time changes nothing, in either mode |
| ResultSets.JoinRepairsInvalid | evaluation/ResultSet.py:15-19 | after a "replace-when-invalid" join a negative cell of the joined part holds the right table's value |
| ResultSets.Qualifying | evaluation/ResultSet.py:25-26 | every qualifying position is a position of the category |
| ResultSets.QualifyingExact | evaluation/ResultSet.py:25-26 | exactly the positions, in increasing order, of the tables whose row for the graph holds no -5 |
| ResultSets.QualifyingIncreasing | evaluation/ResultSet.py:25-26 | the qualifying positions are strictly increasing |
| ResultSets.QualifyingMembers | evaluation/ResultSet.py:25-26 | a position qualifies exactly when its table's row for the graph holds no -5 |
| ResultSets.QualifyingPrefix | evaluation/ResultSet.py:25-31 | a prefix of the category has a prefix of the qualifying positions |
| ResultSets.QualifyingStep | evaluation/ResultSet.py:25-28 | one more table adds its position exactly when its row holds no -5 |
| ResultSets.MergeForCategory | evaluation/ResultSet.py:22-31 | bucket b gets the graph's row of the b-th table with no -5 in that row, and keeps its own row when there is none |
| ResultSets.ScaleRow | evaluation/ResultSet.py:621-622 | every positive cell of the row is multiplied by the count; other rows and the labels stay |
| ResultSets.DivideRow | evaluation/ResultSet.py:647-649 | every positive cell of the row is divided by the count; other rows and the labels stay |
| ResultSets.WeighRow | evaluation/ResultSet.py:620-637 | one graph's rows are weighted on both sides and its merged count set; other rows are kept; the columns stay, the first table's rows stay, and the second table gains the graph's row (of zeros) exactly when only the first side counted it |
| ResultSets.WeighRows | evaluation/ResultSet.py:619-637 | the loop weights every row on both sides and yields the merged counts; both tables keep their columns, the first keeps its rows, and the second has its own rows plus every graph only the first side counted |
| ResultSets.WeighedStep | evaluation/ResultSet.py:619-637 | weighing one more graph as WeighRow does keeps the loop state (cells, counts and row labels) for the graphs left |
| ResultSets.DivideRows | evaluation/ResultSet.py:647-649 | the loop divides every counted graph's positive cells by its count and keeps the rest, with the row and column labels unchanged |
| ResultSets.MergeFrames | evaluation/ResultSet.py:608-649 | without averaging the table is the decoded cell-wise sum, the counts stay and the other table is untouched; with averaging it is the weighted sum decoded and divided by the merged counts, and the other table is left weighted by its counts as the loop leaves it; the merged table's rows and columns are the union of both tables' (`+=` aligns on both axes), and the other table keeps its columns and gains a row for each graph only the first side counted |
| ResultSets.AveragedFrameCells | evaluation/ResultSet.py:635-647 | the weighted tables summed, decoded and divided by the merged counts hold exactly the averaged merge's cells |
| ResultSets.MergeOnType | evaluation/ResultSet.py:605-649 | the merged table keeps its label, result and averaging and becomes of type 'both', with MergeFrames' table and counts, over the union of both tables' rows and columns (MergedOnType); the other query keeps everything but its table, which with averaging is reweighted in place and gains a row of zeros per graph only the first side counted (PartnerWeighted) |
| ResultSets.MergeOnResult | evaluation/ResultSet.py:651-693 | the merged table keeps its label, type and averaging and becomes of result 'none', with MergeFrames' table and counts, over the union of both tables' rows and columns (MergedOnResult); the other query keeps everything but its table, which with averaging is reweighted in place and gains a row of zeros per graph only the first side counted (PartnerWeighted) |
| ResultSets.MergedCountsAreRows | evaluation/ResultSet.py:619-649 | an averaged table whose counted graphs are rows still has every counted graph as a row after the merge, and keeps all its rows |
| ResultSets.UnaveragedMergeKeepsCodes | evaluation/ResultSet.py:611-617 | without averaging, a cell both sides record with the same code keeps that code |
| ResultSets.UnaveragedMergeAddsTimings | evaluation/ResultSet.py:611 | without averaging, two measured timings add up |
| ResultSets.AveragedMergeIsWeightedMean | evaluation/ResultSet.py:619-649 | with averaging, two averages of a graph both sides counted merge into the mean weighted by the counts |
| ResultSets.ScaleMeasured | evaluation/ResultSet.py:622 | a positive timing weighted by a count stays positive |
| ResultSets.AveragedMergeKeepsOneSided | evaluation/ResultSet.py:628-631 | with averaging, a graph only the first side counted keeps its average |
| ResultSets.MergedAveragesPool | evaluation/ResultSet.py:619-649 | tables averaged from totals t and u over c and d queries merge into (t + u) / (c + d) |
| ResultSets.DivideBack | evaluation/ResultSet.py:622-649 | an average multiplied back by its count is the total it came from |
| ResultSets.CountFileIsGeneratorFile | evaluation/ResultSet.py:709-745 | the file averageTimings counts for a workload is the file the query generator writes for that mode |
| ResultSets.CountFile | evaluation/ResultSet.py:709-745 | the counted file is a ".true.csv" file exactly when the table's result is not False, so 'none' is counted with the reachable queries |
| ResultSets.CountFileOfEither | evaluation/ResultSet.py:719-722 | a table of result 'none' is counted with its reachable queries' file |
| ResultSets.AverageTimings | evaluation/ResultSet.py:695-758 | label, result, type and labels stay; exactly the graphs with no -5 whose query file exists get a count, the file's line count, and their positive cells divided by it |
| ResultSets.Shared | evaluation/ResultSet.py:177-178 | exactly the labels both lists hold |
| ResultSets.FirstMatch | evaluation/ResultSet.py:184-188 | the first query of the same label, result and type, or none when there is none |
| ResultSets.FirstMatchAt | evaluation/ResultSet.py:184-188 | the first position holding the same workload is the match found |
| ResultSets.FindSame | evaluation/ResultSet.py:340-344 | the search loop finds FirstMatch |
| ResultSets.Filled | evaluation/ResultSet.py:346-349 | every listed label the table lacks is added on the axis and filled with -5; other cells stay |
| ResultSets.BackFill | evaluation/ResultSet.py:383-385 | the back-fill loop gives Filled |
| ResultSets.FirstMatchExtends | evaluation/ResultSet.py:351-357 | a query with a match keeps it when the list grows |
| ResultSets.AddedFromExtends | evaluation/ResultSet.py:351-364 | the second loop only adds at the end of the list |
| ResultSets.AddedFromCovers | evaluation/ResultSet.py:351-364 | after the second loop every workload of the other side is present |
| ResultSets.AddedFromNew | evaluation/ResultSet.py:351-364 | the added queries hold workloads no earlier query holds |
| ResultSets.OfKindBoth | evaluation/ResultSet.py:94-102 | the kept tables are no more than the list |
| ResultSets.OfKindBothFrom | evaluation/ResultSet.py:98-102 | every kept table is a table of the list of type 'both' |
| ResultSets.OfKindBothKeeps | evaluation/ResultSet.py:98-102 | every table of type 'both' is kept |
| ResultSets.OfResultEither | evaluation/ResultSet.py:129-137 | the kept tables are no more than the list |
| ResultSets.OfResultEitherFrom | evaluation/ResultSet.py:133-137 | every kept table is a table of the list of result 'none' |
| ResultSets.OfResultEitherKeeps | evaluation/ResultSet.py:133-137 | every table of result 'none' is kept |
| ResultSets.FindTypePartner | evaluation/ResultSet.py:78-89 | the first unprocessed other table of the same label and result but another type (no earlier table qualifies), or none exactly when no table qualifies |
| ResultSets.FindResultPartner | evaluation/ResultSet.py:113-124 | the first unprocessed other table of the same label and type but another result (no earlier table qualifies), or none exactly when no table qualifies |
| ResultSets.DroppedGraph | evaluation/ResultSet.py:280-284 | the graph's row is gone, and its count is gone from an averaged table |
| ResultSets.AppendSelf | evaluation/ResultSet.py:337-349 | succeeds exactly when every join succeeds (pandas raises on a shared column); each query is joined with its counterpart's columns or back-filled |
| ResultSets.AppendQueries | evaluation/ResultSet.py:337-364 | succeeds exactly when every join succeeds; the own queries come first, joined; the rest are the other side's new workloads; every workload of the other side has a match and every added query is its own first match |
| ResultSets.MergeSelf | evaluation/ResultSet.py:373-385 | each query gets its counterpart's rows appended, or is back-filled |
| ResultSets.AddOthers | evaluation/ResultSet.py:351-364 | the list is kept as its prefix, every workload of the other side is then present, and each added query is the first of its workload |
| ResultSets.PairOnType | evaluation/ResultSet.py:69-92 | labels and results stay; every workload ends up in a table of type 'both'; a table no other shares is only relabelled; and the result is the last state of a TypeTrace from the input: turn by turn, each unprocessed table is merged with its first partner (which the merge reweighs) or relabelled, and nothing else changes |
| ResultSets.PairTypeStep | evaluation/ResultSet.py:72-92 | one turn keeps the pairing invariant and extends the trace by a TypeTurn: a processed table is skipped; otherwise the table is merged with its first unprocessed partner (MergedOnType), the partner reweighed (PartnerWeighted) and both processed, or, with no partner, relabelled 'both'; no other table changes |
| ResultSets.PairTypeMerged | evaluation/ResultSet.py:82-89 | merging a table with an unprocessed partner, and reweighing that partner, keeps the pairing invariant |
| ResultSets.PairTypeMergedPairs | evaluation/ResultSet.py:82-89 | after a merge every handled table is paired with a table at or before the current one, of type 'both' and of the same workload |
| ResultSets.PairTypeRelabelled | evaluation/ResultSet.py:91-92 | relabelling a table without a partner keeps the pairing invariant |
| ResultSets.TypeTraceSnoc | evaluation/ResultSet.py:72-92 | a trace of the first loop extended by one more turn is a trace |
| ResultSets.TypeTraceUntouched | evaluation/ResultSet.py:72-92 | up to its own turn, a table no turn has processed is still the input table |
| ResultSets.TypeTraceKept | evaluation/ResultSet.py:72-92 | once processed, a table keeps what its turn left in it to the end of the loop |
| ResultSets.TypeTraceMerged | evaluation/ResultSet.py:72-92 | a table merged on its own turn ends as the merge of the input table with its first unprocessed partner as that partner stood on that turn |
| ResultSets.KeepKindBoth | evaluation/ResultSet.py:94-102 | the loop keeps the tables of type 'both', in order |
| ResultSets.PairOnResult | evaluation/ResultSet.py:104-127 | labels and types stay; every workload ends up in a table of result 'none'; a table no other shares is only relabelled; and the result is the last state of a ResultTrace from the input: turn by turn, each unprocessed table is merged with its first partner (which the merge reweighs) or relabelled, and nothing else changes |
| ResultSets.PairResultStep | evaluation/ResultSet.py:107-127 | one turn keeps the pairing invariant and extends the trace by a ResultTurn: a processed table is skipped; otherwise the table is merged with its first unprocessed partner (MergedOnResult), the partner reweighed (PartnerWeighted) and both processed, or, with no partner, relabelled 'none'; no other table changes |
| ResultSets.PairResultMerged | evaluation/ResultSet.py:117-124 | merging a table with an unprocessed partner, and reweighing that partner, keeps the pairing invariant |
| ResultSets.PairResultMergedPairs | evaluation/ResultSet.py:117-124 | after a merge every handled table is paired with a table at or before the current one, of result 'none' and of the same workload |
| ResultSets.PairResultRelabelled | evaluation/ResultSet.py:126-127 | relabelling a table without a partner keeps the pairing invariant |
| ResultSets.ResultTraceSnoc | evaluation/ResultSet.py:107-127 | a trace of the first loop extended by one more turn is a trace |
| ResultSets.ResultTraceUntouched | evaluation/ResultSet.py:107-127 | up to its own turn, a table no turn has processed is still the input table |
| ResultSets.ResultTraceKept | evaluation/ResultSet.py:107-127 | once processed, a table keeps what its turn left in it to the end of the loop |
| ResultSets.ResultTraceMerged | evaluation/ResultSet.py:107-127 | a table merged on its own turn ends as the merge of the input table with its first unprocessed partner as that partner stood on that turn |
| ResultSets.KeepResultEither | evaluation/ResultSet.py:129-137 | the loop keeps the tables of result 'none', in order |
| ResultSets.KeptTypeKeysCover | evaluation/ResultSet.py:69-102 | every label-and-result workload is held by a kept table |
| ResultSets.KeptTypeKeysSound | evaluation/ResultSet.py:94-102 | every kept table holds a label-and-result workload of the list |
| ResultSets.KeptTypeKeys | evaluation/ResultSet.py:69-102 | after mergeQueriesOnType the label-and-result workloads are those of before |
| ResultSets.KeptResultKeysCover | evaluation/ResultSet.py:104-137 | every label-and-type workload is held by a kept table |
| ResultSets.KeptResultKeysSound | evaluation/ResultSet.py:129-137 | every kept table holds a label-and-type workload of the list |
| ResultSets.KeptResultKeys | evaluation/ResultSet.py:104-137 | after mergeQueriesOnResult the label-and-type workloads are those of before |
| ResultSets.ByLabelTotalPreorder | evaluation/ResultSet.py:159 | the label order the categories are sorted by is total and transitive |
| ResultSets.Category | evaluation/ResultSet.py:142-148 | exactly the tables of the key, empty when the key has none |
| ResultSets.CategoryKeys | evaluation/ResultSet.py:140-148 | every table's key appears exactly once, and each key has a table |
| ResultSets.FindKey | evaluation/ResultSet.py:145 | the position of the key, or the number of keys when it is absent |
| ResultSets.GroupByCategory | evaluation/ResultSet.py:140-148 | the grouping loop gives the keys in first-seen order and each key's tables in list order |
| ResultSets.GroupedStep | evaluation/ResultSet.py:145-148 | one more table goes to the list of its key, or opens a new list |
| ResultSets.BucketsAfter | evaluation/ResultSet.py:161-162 | three bucket tables |
| ResultSets.SmallMedLargeOf | evaluation/ResultSet.py:153-174 | three tables for a category of at least three, else the category's own tables |
| ResultSets.Categories | evaluation/ResultSet.py:140-152 | one non-empty list per key, each holding only that key's tables |
| ResultSets.MergeGraphs | evaluation/ResultSet.py:161-162 | the loop over the graphs gives BucketsAfter |
| ResultSets.SmallMedLarge | evaluation/ResultSet.py:153-174 | the loop body gives SmallMedLargeOf |
| ResultSets.BucketsAfterRow | evaluation/ResultSet.py:22-31 | row h of bucket b is the row of the b-th table holding no -5 for h when h is a graph and there is one, else the starting table's row |
| ResultSets.SmallMedLargeOfTables | evaluation/ResultSet.py:164-174 | bucket b is labelled small, medium or large, has the category's result and type, and is the b-th table in label order |
| ResultSets.SmallMedLargeOfRows | evaluation/ResultSet.py:153-174 | row h of bucket b is the row of the b-th table in label order holding no -5 for h, else the first table's row |
| ResultSets.RegroupedShape | evaluation/ResultSet.py:152-174 | with three or more tables in every category, three tables per category in the categories' order |
| ResultSets.RegroupedStops | evaluation/ResultSet.py:152-174 | a category of fewer than three tables ends the result with its own tables |
| ResultSets.SmallMedLargeShape | evaluation/ResultSet.py:139-174 | three tables per category, labelled small, medium and large, with their category's result and type |
| ResultSets.SmallMedLargeShort | evaluation/ResultSet.py:139-174 | a category of fewer than three tables ends the result |
| ResultSets.CategoryPart | evaluation/ResultSet.py:152-174 | one turn of the category loop yields that category's part, of three tables exactly when the category has three or more |
| ResultSets.Regroup | evaluation/ResultSet.py:152-174 | ok exactly when every category has three tables; the result is the regrouped categories |
| ResultSets.ResultSet.constructor | evaluation/ResultSet.py:49-67 | the three tables and the query tables as read; graph and index names are the size table's rows and columns |
| ResultSets.ResultSet.Copy | evaluation/ResultSet.py:35-47 | a new result set with the same tables and names |
| ResultSets.ResultSet.JoinLeft | evaluation/ResultSet.py:176-188 | names stay; the three tables and each query table with a counterpart are joined over the shared graphs and indexes |
| ResultSets.ResultSet.RenameGraph | evaluation/ResultSet.py:234-250 | the script exits when both names exist; nothing changes without graph x; otherwise x moves to the end of the names as y and every table's row x is called y |
| ResultSets.ResultSet.RenameIndex | evaluation/ResultSet.py:252-268 | the same for an index and the tables' columns |
| ResultSets.ResultSet.DropGraph | evaluation/ResultSet.py:270-284 | nothing changes without graph x; otherwise x leaves the names, every table loses its row and averaged tables their count |
| ResultSets.ResultSet.DropIndex | evaluation/ResultSet.py:286-297 | nothing changes without index x; otherwise x leaves the names and every table its column |
| ResultSets.ResultSet.Append | evaluation/ResultSet.py:330-364 | fails, changing nothing, exactly when a join raises; otherwise the index names are the union, the tables are joined, and each query table is joined with its counterpart or back-filled |
| ResultSets.ResultSet.Merge | evaluation/ResultSet.py:366-400 | the graph names are the union, the tables' rows are appended, and each query table gets its counterpart's rows or is back-filled |
| ResultSets.MergeListOnType | evaluation/ResultSet.py:69-102 | the kept tables are the tables of type 'both' of the last state of a TypeTrace of the list; all of type 'both', no more than before, the same label-and-result workloads, and a table no other shares kept only relabelled |
| ResultSets.MergeListOnResult | evaluation/ResultSet.py:104-137 | the kept tables are the tables of result 'none' of the last state of a ResultTrace of the list; all of result 'none', no more than before, the same label-and-type workloads, and a table no other shares kept only relabelled |
| ResultSets.ResultSet.MergeQueriesOnType | evaluation/ResultSet.py:69-102 | the query tables become the tables of type 'both' of the last state of a TypeTrace of the old ones (so every merged table is its turn's merge, cells, counts and row and column labels, by TypeTraceMerged); no more tables than before; the label-and-result workloads are those of before and a table whose workload no other shares survives only relabelled |
| ResultSets.ResultSet.MergeQueriesOnResult | evaluation/ResultSet.py:104-137 | the query tables become the tables of result 'none' of the last state of a ResultTrace of the old ones (so every merged table is its turn's merge, cells, counts and row and column labels, by ResultTraceMerged); the label-and-type workloads are those of before and a table whose workload no other shares survives only relabelled |
| ResultSets.ResultSet.MergeQueriesOnSmallMedLarge | evaluation/ResultSet.py:139-174 | succeeds exactly when every category has three tables; the query tables become the regrouped categories |
| ResultSets.ResultSet.AvgQueries | evaluation/ResultSet.py:190-192 | every query table is averaged over the graphs; the other tables and names stay |
| Tables.Filled | runner/LCRBenchmarkRunner.py:34-46 | a table over exactly the given labels with every cell set to the value |
| Tables.SetCell | runner/LCRBenchmarkRunner.py:156-157 | the cell holds the new value, every other cell is kept, and a new row or column label is added |
| Tables.Remove | evaluation/ResultSet.py:242 | the list without one occurrence of x: one shorter when x is present, unchanged otherwise, and every other label kept |
| Tables.Without | evaluation/ResultSet.py:276 | x is gone and every other label is kept |
| Tables.Relabel | evaluation/ResultSet.py:245 | the labels with each x replaced by y, position by position |
| Tables.RenameRow | evaluation/ResultSet.py:245-250 | the columns stay and the rows are relabelled |
| Tables.RenameRowCells | evaluation/ResultSet.py:245-250 | row y of the renamed table holds row x's cells, row x is gone, other rows keep their cells |
| Tables.RelabelBack | evaluation/ResultSet.py:234-250 | renaming x to a new label y and back gives the labels back |
| Tables.RenameRowBack | evaluation/ResultSet.py:234-250 | renaming a row to an unused name and back restores every cell |
| Tables.RenameCol | evaluation/ResultSet.py:263-268 | the rows stay and the columns are relabelled |
| Tables.RenameColCells | evaluation/ResultSet.py:263-268 | column y of the renamed table holds column x's cells and column x is gone |
| Tables.RenameColBack | evaluation/ResultSet.py:252-268 | renaming a column to an unused name and back restores every cell |
| Tables.DropRow | evaluation/ResultSet.py:276-281 | the row's label and cells are gone and every other cell is kept |
| Tables.DropCol | evaluation/ResultSet.py:292-297 | the column's label and cells are gone and every other cell is kept |
| Tables.Missing | evaluation/ResultSet.py:347-349 | exactly the labels of the second list the first lacks |
| Tables.Union | evaluation/ResultSet.py:331 | exactly the labels of either list |
| Tables.JoinColumns | evaluation/ResultSet.py:333-342 | none exactly when the tables share a column (pandas raises); otherwise the first table's rows, both tables' columns, and each side's cells |
| Tables.AddColumn | evaluation/ResultSet.py:349 | a column of the value in every row; other cells are kept |
| Tables.AddRow | evaluation/ResultSet.py:385 | a row of the value in every column; other cells are kept |
| Tables.AppendRows | evaluation/ResultSet.py:369-378 | the second table's rows below the first's over the union of the columns, each row with its own table's cells |
| Tables.Plus | evaluation/ResultSet.py:611 | the cell-wise sum over the union of both tables' rows and columns, NaN wherever either side is NaN |
| Tables.MapCells | evaluation/ResultSet.py:402-408 | every cell mapped, NaN kept, labels kept |
| Tables.MapRow | evaluation/ResultSet.py:621-622 | every cell of the row mapped, other rows kept |
| Tables.CopyRow | evaluation/ResultSet.py:27 | the row takes the source's row aligned on the columns, NaN where the source lacks a column |

## Left out

- PLL.PLLIndex.Query: only soundness is proved: a true answer means the target is reachable (MeetReaches). Completeness, that the labels `Train` builds form a 2-hop cover so that every reachable pair answers true, is not proved.
- Format.FormatTime: the result is the amount, the unit bound and the unit. Python's `round(x, 2)` and the `str` rendering of the rounded float are not modelled, because they are floating-point formatting.
- Format.FormatMemory: the same; no `round(x, 2)` and no string rendering.
- Format.ShowTimeWith: cells are exact reals, so float rounding in `timeInMs * 1000.0 * 1000.0` and in the divisions is not modelled.
- Combinations.Between: models the `int()` conversions of the clamped bounds (ToInt32). The signed 32-bit subtraction `int(kMax) - int(kMin)` is computed exactly. Its overflow is undefined behaviour in C++ and has no modelled value.
- VirtualLabelGraph.VirtualLabel: requires `i < numMostFrequent || numVirtual > 0`. With `numVirtual == 0` the source takes `i % 0`, which is undefined behaviour in C++ and has no value to model.
- VirtualLabelGraph.CreateVirtualLabelGraph: requires a label order that is a permutation of the labels, and `numMostFrequent <= labelCount`. It also requires `numVirtual > 0` when some label is virtual, and an optimized graph with at least one vertex. Without these the source reads outside its vectors, or takes `% 0`.
- VirtualLabelGraph.VirtualMapping: the same conditions on the label order and the counts.
- LabeledEdgeGraphs.LabeledEdgeGraph.Optimize: requires at least one vertex and every edge in range. The source writes `adjStartLookup[0]` and indexes by the edges' sources, which is undefined behaviour otherwise.
- SplitGraph.Split: requires an optimized graph with at least one vertex, and the label flags and the label mapping to cover every label in use. The source indexes both vectors by the edges' labels.
- BloomFilters.BloomFilter.AddHash: `boost::hash_combine` is a parameter (`combined`), because boost's mixing function is not part of this model.
- BloomFilters.HashFunc: only determinism is stated. Whether `joinHash` spreads distinct keys over distinct hashes (injectivity) is not proved.
- `BloomFilter3Hash` and `BloomFilterDynamic` (src/dataStructures/BloomFilter.hpp) are not part of this model. Only the three filters the indexes in this model use are modelled.
- Training of the indexes is not modelled: the graph searches that fill the Landmark-plus lists, and P2H's construction with its pruned BFS. Only their shared insert operations (`tryInsert`, `insertToIndex`) and the queries are modelled. PLL's pruned BFS is modelled over an acyclic successor list (the component graph).
- LandmarkPlus.LandmarkPlusIndex.QueryGuards: the guided search a non-landmark source starts is `None`, not modelled.
- Threads, the watchdog limits (`src/utility/Limit.hpp`), timers, memory watches and statistics are not modelled. They are clocks and concurrency.
- Random graph and query generation is not modelled: `src/generator`, `runner/graphGenerator.py`, the query generator's random walks and thread pool. The query generator's own argument loop is left out as well. Only its mode and file naming is modelled.
- All file and stream I/O is not modelled. The engine's readers and writers work on text given as a parameter. A file that cannot be opened is the same fatal path as a bad header.
- BenchmarkRunner.Runner.RunAndCollect: the engine's process is an oracle (exit code, standard output, standard error). The argument list the runner builds for it (runner/LCRBenchmarkRunner.py:104-125) is not modelled, and neither are `setTimeLimit` and `setMemoryLimit`.
- Benchmarker.RunSynth: the query-generation modes (`generateAndEnumerateQueryModes`) are a parameter. The generation of missing graph files, the platform-dependent limits and the start/finish prints are not modelled.
- Benchmarker.RunReal: the same.
- ContinueState.Checkpoint.SaveState: values arrive already rendered by `str`, and the file system is a field.
- ResultSets.ResultSet.constructor: reading the CSV files and listing the directory (`os.listdir` order, the exit on a missing `indexSize.csv`) are not modelled. The tables are given.
- The file-name parsing of `QueryResult.__init__` (evaluation/ResultSet.py:574-593) is not part of this model. A query table's label, result and type are given.
- `ResultSet.reorder`, `reorderGraphs`, `replaceRealGraphNames`, `replaceErrorsWithNaN`, `convertToUnits`, the chart methods and `__repr__` are not modelled. They are presentation: column order, fixed renamings, LaTeX and plotting. The cell functions they apply (`replaceNaN`, `formatTime`, `formatMemory`, `formatValueWithBest`) are modelled.
- Tables.AppendRows: when both tables hold a row of the same name, pandas keeps two rows. The model keeps the second table's, because a table is a map from (graph, index) to a value.
- The experiment scripts (`evaluation/experiment*.py`, `runner/benchmark_*.py`) and `graphProcessing/` are not modelled. They are configuration and glue.
- The indexes that orchestrate sub-indexes are not modelled: KLC, KLCFreq, KLCBFL, ALC, ScaleHarness, the BFL and Bloom path/graph variants, PPL and HybridBFS. Only their parameter parsing in `Index::create` is modelled.
- `BFS.cpp`, `DFS.cpp`, `BiBFS.cpp`, the RDF, edge-list and dot readers and writers, `compressLabeledGraph`, `tarjanWCC` and `diGraphToGraph` are not part of this model.
- MergeGraph.MergeGraphForLabels: `outStats.increasePercentage` (src/algorithms/mergeGraphForLabels.cpp:155, 159) is not modelled. It is a floating-point ratio, and NaN or infinite when no label of the set has an edge (`maxEdgeCount` is 0). Only `increase` is modelled.
- ResultSets.ResultSet.MergeQueriesOnSmallMedLarge: each category is sorted with LabelLe, which puts integer labels before bucket names. Python's `category.sort(key=lambda x: x.label)` (evaluation/ResultSet.py:159) raises a TypeError on a category that mixes the two. The model does not signal that error.
- ResultSets.AverageTimings: the line count of a query file is a positive Count. The query generator writes no empty file (QueryGenerator.OutputsNonEmpty). An empty file would divide the row's measured cells by 0 (infinity in pandas) and record a count of 0, and that is not modelled.

## Findings

| source | as written | input that shows it | evidently intended | confidence | as-written member | corrected member |
|---|---|---|---|---|---|---|
| src/lcrIndex/P2HIndex.cpp:294-328 | the sweep that removes supersets of the new label set starts at the upper bound of the target's entries, i.e. past them, so it never removes a stored superset for the same vertex | part [(5, {0, 1})], insert (5, {0}): the result is [(5, {0, 1}), (5, {0})], which is no longer an antichain | the inserted set replaces every stored superset of it for that vertex; the list stays minimal and sorted | not executed | P2H.InsertedAsWrittenKeepsSuperset | P2H.InsertToIndex |
| src/algorithms/vertexOrderByDegree.cpp:13-30 | the labelled degree score multiplies two 32-bit `unsigned` counters, so (in + 1)(out + 1) is taken modulo 2^32 | a vertex with 65535 incoming and 65535 outgoing edges scores 0, below a vertex with one edge each way (score 4) | the product as a `size_t`, as the DiGraph overload computes it (lines 4-6) | not executed | VertexOrders.DegreeScore32Wraps | VertexOrders.VertexOrderByDegreeLabeled |
| evaluation/format.py:26 | the time unit list holds "Âµs", the UTF-8 bytes of "µs" read as Latin-1 | a time of 0.5 ms is shown as 500.0 "Âµs", a unit the runner's parseTime (runner/utility.py:20) does not know | "µs" | not executed | Format.MicrosecondsAsWrittenUnknown | Format.FormatTime |
| src/lcrIndex/LandmarkPlusIndex.cpp:50-53 | `-(i + 1)` with `i` unsigned is 2^32 - (i + 1), stored positive in the `int64_t` mapping, so `isNonLandmark` (lines 490-492, `< 0`) never holds; the first non-landmark's mapping equals the "unmapped" fill value of line 24 | any graph with a non-landmark vertex: its mapping is 4294967295 - i >= 0, so queries from it never use its non-landmark list | a negative code -(i + 1) for non-landmark number i, decoded by -(m + 1) (lines 481-484) | not executed | LandmarkPlus.NonLandmarkAsWrittenUnused | LandmarkPlus.LandmarkPlusIndex.MapVertices |
| runner/benchmarker.py:17-18 | `toName` leaves the model out of a "pa" graph's name, while `toNameAndGenerate` (lines 36-37), which names the runner's rows and the generated files, includes it | runSynth with models ["pa"]: the results of graph "paV1kD2L4exp" are written to row "V1kD2L4exp", which the runner does not have, for a file that was never generated | the same name as `toNameAndGenerate` | not executed | Benchmarker.ToNameAsWrittenMissesRow | Benchmarker.SynthRowsKnown |
