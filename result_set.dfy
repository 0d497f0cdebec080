/**
 * The result-consolidation algebra of evaluation/ResultSet.py: tables of
 * benchmark numbers (see module Tables) joined, appended, merged, renamed,
 * dropped and averaged, with the runner's negative codes kept apart from
 * measurements: -1 not run, -2 memory limit, -3 time limit, -4 unknown
 * error, -5 no query file.
 */
module ResultSets {
  import opened Text
  import opened Tables
  import Sorting
  import QueryGenerator

  /**
   * A number of queries read from a query file: never zero, because the
   * query generator writes no empty file (QueryGenerator.OutputsNonEmpty).
   */
  type Count = n: int | n > 0 witness 1

  /** `result`: 'none' (reachable and unreachable queries together), False or True. */
  datatype Outcome = Either | Unreachable | Reachable

  /** `type`: 'both', "random" or "connected". */
  datatype Kind = Both | Random | Connected

  /** `label`: the label count from the file name, or the bucket name mergeQueriesOnSmallMedLarge gives. */
  datatype Label = Labels(count: int) | Bucket(name: string)

  /** One table of query timings with what its file name says about it. */
  datatype QueryResult = QueryResult(queryLabel: Label, result: Outcome, kind: Kind, frame: Table,
                                     isAveraged: bool, averageCounts: map<string, Count>)

  /** Two query tables of the same workload: same label, result and type. */
  predicate SameQuery(a: QueryResult, b: QueryResult)
  {
    a.queryLabel == b.queryLabel && a.result == b.result && a.kind == b.kind
  }

  // ---------------------------------------------------------------------
  // Cells
  // ---------------------------------------------------------------------

  predicate IsSentinel(v: real)
  {
    v == -1.0 || v == -2.0 || v == -3.0 || v == -4.0 || v == -5.0
  }

  /**
   * The five masks after a cell-wise sum: -2 to -1, -4 to -2, -6 to -3,
   * -8 to -4, -10 to -5. A mask's output is never the input of a later
   * one, so applying them in turn is this one mapping.
   */
  function Remap(v: real): real
  {
    if v == -2.0 then -1.0
    else if v == -4.0 then -2.0
    else if v == -6.0 then -3.0
    else if v == -8.0 then -4.0
    else if v == -10.0 then -5.0
    else v
  }

  /** Two equal codes added up decode to that code. */
  lemma RemapDoubled(s: real)
    requires IsSentinel(s)
    ensures Remap(s + s) == s
  {
  }

  /** Two different codes do not: "not run" plus "time limit" reads as "memory limit". */
  lemma RemapMixedCodes()
    ensures Remap(-1.0 + -3.0) == -2.0
  {
  }

  /** `df1 += df2` followed by the masks, for one cell: NaN when either side is NaN. */
  function SumCell(x: Option<real>, y: Option<real>): Option<real>
  {
    if x.Some? && y.Some? then Some(Remap(x.value + y.value)) else None
  }

  /** `toReplace.loc[toReplace > 0] *= c`, for one cell. */
  function Scale(x: Option<real>, c: Count): Option<real>
  {
    if x.Some? && x.value > 0.0 then Some(x.value * c as real) else x
  }

  /** `toReplace.loc[toReplace > 0] /= c`, for one cell. */
  function Divide(x: Option<real>, c: Count): Option<real>
  {
    if x.Some? && x.value > 0.0 then Some(x.value / c as real) else x
  }

  // ---------------------------------------------------------------------
  // __joinPart__
  // ---------------------------------------------------------------------

  /** Whether the join writes over a cell holding v: always in "replace", only over a negative code in "replace-when-invalid". */
  predicate Overwrites(mode: string, v: Option<real>)
  {
    mode == "replace" || (mode == "replace-when-invalid" && v.Some? && v.value < 0.0)
  }

  /** The cell at (g, i) after joining `right` into `left` over the given graphs and indexes. */
  function JoinedCell(left: Table, right: Table, graphs: set<string>, indexes: set<string>, mode: string,
                      g: string, i: string): Option<real>
  {
    if g in graphs && i in indexes && Overwrites(mode, At(left, g, i)) then At(right, g, i) else At(left, g, i)
  }

  /** r holds, in every cell, what the join of `right` into `left` puts there. */
  ghost predicate JoinedFrom(r: Table, left: Table, right: Table, graphs: set<string>, indexes: set<string>, mode: string)
  {
    forall g, i :: At(r, g, i) == JoinedCell(left, right, graphs, indexes, mode, g, i)
  }

  /**
   * `__joinPart__`: for every index and graph of the given sets, the right
   * table's cell replaces the left one (in "replace-when-invalid" mode only
   * where the left cell is negative; NaN is not). Any other mode changes
   * nothing. Cells outside the two sets are untouched.
   */
  method JoinPart(graphs: set<string>, indexes: set<string>, left: Table, right: Table, mode: string) returns (r: Table)
    ensures JoinedFrom(r, left, right, graphs, indexes, mode)
  {
    r := left;
    var indexesLeft := indexes;
    while indexesLeft != {}
      invariant indexesLeft <= indexes
      invariant JoinedFrom(r, left, right, graphs, indexes - indexesLeft, mode)
      decreases indexesLeft
    {
      var index :| index in indexesLeft;
      var done := indexes - indexesLeft;
      var graphsLeft := graphs;
      while graphsLeft != {}
        invariant graphsLeft <= graphs
        invariant forall g, i :: At(r, g, i) ==
                    if i == index then JoinedCell(left, right, graphs - graphsLeft, {index}, mode, g, i)
                    else JoinedCell(left, right, graphs, done, mode, g, i)
        decreases graphsLeft
      {
        var graph :| graph in graphsLeft;
        if Overwrites(mode, At(r, graph, index)) {
          r := SetCell(r, graph, index, At(right, graph, index));
        }
        graphsLeft := graphsLeft - {graph};
      }
      indexesLeft := indexesLeft - {index};
    }
  }

  /** Joining the same right table a second time changes nothing, in either mode. */
  lemma JoinIdempotent(once: Table, twice: Table, left: Table, right: Table,
                       graphs: set<string>, indexes: set<string>, mode: string)
    requires JoinedFrom(once, left, right, graphs, indexes, mode)
    requires JoinedFrom(twice, once, right, graphs, indexes, mode)
    ensures forall g, i :: At(twice, g, i) == At(once, g, i)
  {
  }

  /** After a "replace-when-invalid" join, a negative cell in the joined part is the right table's own value. */
  lemma JoinRepairsInvalid(r: Table, left: Table, right: Table, graphs: set<string>, indexes: set<string>,
                           g: string, i: string)
    requires JoinedFrom(r, left, right, graphs, indexes, "replace-when-invalid")
    requires g in graphs && i in indexes
    requires At(r, g, i).Some? && At(r, g, i).value < 0.0
    ensures At(r, g, i) == At(right, g, i)
  {
  }

  // ---------------------------------------------------------------------
  // mergeForCategory
  // ---------------------------------------------------------------------

  /** Positions of the tables whose row for g holds no -5 (a missing query file), in order. */
  function Qualifying(category: seq<QueryResult>, g: string): (r: seq<nat>)
    ensures forall k :: 0 <= k < |r| ==> r[k] < |category|
  {
    if |category| == 0 then []
    else
      var front := Qualifying(category[..|category| - 1], g);
      if RowHas(category[|category| - 1].frame, g, -5.0) then front else front + [|category| - 1]
  }

  /** The qualifying positions are exactly those of the tables with no -5 in g's row, in increasing order. */
  lemma QualifyingExact(category: seq<QueryResult>, g: string)
    ensures var r := Qualifying(category, g);
            (forall k :: 0 <= k < |r| ==> !RowHas(category[r[k]].frame, g, -5.0)) &&
            (forall k, l :: 0 <= k < l < |r| ==> r[k] < r[l]) &&
            (forall n :: 0 <= n < |category| ==> (!RowHas(category[n].frame, g, -5.0) <==> n in r))
  {
    QualifyingIncreasing(category, g);
    QualifyingMembers(category, g);
    var r := Qualifying(category, g);
    forall k | 0 <= k < |r|
      ensures !RowHas(category[r[k]].frame, g, -5.0)
    {
      assert r[k] in r;
    }
  }

  /** The qualifying positions come in increasing order. */
  lemma {:induction false} QualifyingIncreasing(category: seq<QueryResult>, g: string)
    ensures forall k, l :: 0 <= k < l < |Qualifying(category, g)| ==> Qualifying(category, g)[k] < Qualifying(category, g)[l]
    decreases |category|
  {
    if |category| > 0 {
      var last := |category| - 1;
      var rest := category[..last];
      var front := Qualifying(rest, g);
      QualifyingIncreasing(rest, g);
      assert |rest| == last;
      assert forall k :: 0 <= k < |front| ==> front[k] < last;
      if RowHas(category[last].frame, g, -5.0) {
        assert Qualifying(category, g) == front;
      } else {
        var r := front + [last];
        assert Qualifying(category, g) == r;
        forall k, l | 0 <= k < l < |r|
          ensures r[k] < r[l]
        {
          assert r[k] == front[k] && front[k] < last;
          if l < |front| {
            assert r[l] == front[l];
          }
        }
      }
    }
  }

  /** A position qualifies exactly when its table's row for g holds no -5. */
  lemma {:induction false} QualifyingMembers(category: seq<QueryResult>, g: string)
    ensures forall n :: 0 <= n < |category| ==> (!RowHas(category[n].frame, g, -5.0) <==> n in Qualifying(category, g))
    decreases |category|
  {
    if |category| > 0 {
      var last := |category| - 1;
      var front := category[..last];
      QualifyingMembers(front, g);
      forall n | 0 <= n < last
        ensures category[n] == front[n]
      {
      }
      if !RowHas(category[last].frame, g, -5.0) {
        assert Qualifying(category, g) == Qualifying(front, g) + [last];
      }
    }
  }

  /** Looking at a prefix of the category finds a prefix of the qualifying positions. */
  lemma {:induction false} QualifyingPrefix(category: seq<QueryResult>, n: nat, g: string)
    requires n <= |category|
    ensures |Qualifying(category[..n], g)| <= |Qualifying(category, g)|
    ensures Qualifying(category[..n], g) == Qualifying(category, g)[..|Qualifying(category[..n], g)|]
    decreases |category| - n
  {
    if n < |category| {
      QualifyingPrefix(category, n + 1, g);
      QualifyingStep(category, n, g);
      var a, b, whole := Qualifying(category[..n], g), Qualifying(category[..n + 1], g), Qualifying(category, g);
      assert b[..|a|] == a;
      assert whole[..|a|] == b[..|a|];
    } else {
      assert category[..n] == category;
    }
  }

  /** Qualifying positions of one more table: the new position joins when its row holds no -5. */
  lemma QualifyingStep(category: seq<QueryResult>, n: nat, g: string)
    requires n < |category|
    ensures Qualifying(category[..n + 1], g) ==
            if RowHas(category[n].frame, g, -5.0) then Qualifying(category[..n], g)
            else Qualifying(category[..n], g) + [n]
  {
    assert category[..n + 1][..n] == category[..n];
  }

  /** Bucket b (0 small, 1 medium, 2 large) after mergeForCategory has looked at the given tables. */
  function Bucket(dfs: seq<Table>, category: seq<QueryResult>, graph: string, b: nat): Table
    requires |dfs| == 3 && b < 3
  {
    var q := Qualifying(category, graph);
    if b < |q| then CopyRow(dfs[b], category[q[b]].frame, graph) else dfs[b]
  }

  /**
   * `mergeForCategory`: the graph's row of the first qualifying table goes
   * to the small bucket, of the second to the medium one, of the third to
   * the large one; a bucket with no qualifying table keeps its row.
   */
  method MergeForCategory(dfs: seq<Table>, graph: string, category: seq<QueryResult>) returns (r: seq<Table>)
    requires |dfs| == 3
    ensures |r| == 3
    ensures forall b :: 0 <= b < 3 ==> r[b] == Bucket(dfs, category, graph, b)
  {
    r := dfs;
    var i := 0;
    var n := 0;
    while n < |category| && i < 3
      invariant n <= |category| && i <= 3
      invariant i == |Qualifying(category[..n], graph)|
      invariant MergedUpTo(dfs, category, graph, n, r)
    {
      MergeStep(dfs, graph, category, n, r);
      if !RowHas(category[n].frame, graph, -5.0) {
        r := r[i := CopyRow(r[i], category[n].frame, graph)];
        i := i + 1;
      }
      n := n + 1;
    }
    MergeDone(dfs, graph, category, n, r);
  }

  /** mergeForCategory's loop invariant: the buckets once the first n tables have been looked at. */
  ghost predicate MergedUpTo(dfs: seq<Table>, category: seq<QueryResult>, graph: string, n: nat, r: seq<Table>)
    requires |dfs| == 3 && n <= |category|
  {
    |r| == 3 && forall b :: 0 <= b < 3 ==> r[b] == Bucket(dfs, category[..n], graph, b)
  }

  /** One more table: a qualifying one fills the next free bucket. */
  lemma MergeStep(dfs: seq<Table>, graph: string, category: seq<QueryResult>, n: nat, r: seq<Table>)
    requires |dfs| == 3 && n < |category| && MergedUpTo(dfs, category, graph, n, r)
    requires |Qualifying(category[..n], graph)| < 3
    ensures var i := |Qualifying(category[..n], graph)|;
            if RowHas(category[n].frame, graph, -5.0) then
              |Qualifying(category[..n + 1], graph)| == i && MergedUpTo(dfs, category, graph, n + 1, r)
            else
              |Qualifying(category[..n + 1], graph)| == i + 1 &&
              MergedUpTo(dfs, category, graph, n + 1, r[i := CopyRow(r[i], category[n].frame, graph)])
  {
    QualifyingStep(category, n, graph);
    assert category[..n + 1][n] == category[n];
    var q := Qualifying(category[..n], graph);
    forall b | 0 <= b < |q|
      ensures category[..n + 1][q[b]] == category[..n][q[b]]
    {
    }
  }

  /** When the loop stops, the buckets are those of the whole category. */
  lemma MergeDone(dfs: seq<Table>, graph: string, category: seq<QueryResult>, n: nat, r: seq<Table>)
    requires |dfs| == 3 && n <= |category| && MergedUpTo(dfs, category, graph, n, r)
    requires n == |category| || |Qualifying(category[..n], graph)| >= 3
    ensures |r| == 3 && forall b :: 0 <= b < 3 ==> r[b] == Bucket(dfs, category, graph, b)
  {
    QualifyingPrefix(category, n, graph);
    forall b | 0 <= b < 3
      ensures r[b] == Bucket(dfs, category, graph, b)
    {
      var q, qn := Qualifying(category, graph), Qualifying(category[..n], graph);
      if b < |qn| {
        assert q[b] == qn[b] && category[..n][qn[b]] == category[q[b]];
      } else {
        assert category[..n] == category;
      }
    }
  }

  // ---------------------------------------------------------------------
  // mergeOnType / mergeOnResult
  // ---------------------------------------------------------------------

  /** Every positive cell of row g multiplied by c. */
  function ScaleRow(t: Table, g: string, c: Count): (r: Table)
    ensures r.rows == t.rows && r.cols == t.cols
    ensures forall h, i :: At(r, h, i) == if h == g then Scale(At(t, h, i), c) else At(t, h, i)
  {
    MapRow(t, g, x => if x > 0.0 then x * c as real else x)
  }

  /** Every positive cell of row g divided by c. */
  function DivideRow(t: Table, g: string, c: Count): (r: Table)
    ensures r.rows == t.rows && r.cols == t.cols
    ensures forall h, i :: At(r, h, i) == if h == g then Divide(At(t, h, i), c) else At(t, h, i)
  {
    MapRow(t, g, x => if x > 0.0 then x / c as real else x)
  }

  /** The first table's cell after the averaged merge has weighted it by its count. */
  function SelfWeighted(a: QueryResult, b: QueryResult, g: string, i: string): Option<real>
  {
    if g !in a.frame.rows then At(a.frame, g, i)
    else if g in a.averageCounts then Scale(At(a.frame, g, i), a.averageCounts[g])
    else if g in b.averageCounts then (if i in a.frame.cols then Some(0.0) else At(a.frame, g, i))
    else At(a.frame, g, i)
  }

  /** The second table's cell after the averaged merge has weighted it by its count. */
  function OtherWeighted(a: QueryResult, b: QueryResult, g: string, i: string): Option<real>
  {
    if g !in a.frame.rows then At(b.frame, g, i)
    else if g in b.averageCounts then Scale(At(b.frame, g, i), b.averageCounts[g])
    else if g in a.averageCounts then (if i in b.frame.cols then Some(0.0) else At(b.frame, g, i))
    else At(b.frame, g, i)
  }

  /** The counts after an averaged merge: summed where both tables counted the graph. */
  function MergedCounts(a: QueryResult, b: QueryResult): map<string, Count>
  {
    map g | g in a.averageCounts.Keys + (set h | h in b.averageCounts && h in a.frame.rows) ::
      if g in a.frame.rows && g in a.averageCounts && g in b.averageCounts then a.averageCounts[g] + b.averageCounts[g]
      else if g in a.averageCounts then a.averageCounts[g]
      else b.averageCounts[g]
  }

  /** The cell of an averaged merge: weighted sum, decoded, divided by the merged count. */
  function AveragedCell(a: QueryResult, b: QueryResult, g: string, i: string): Option<real>
  {
    var s := SumCell(SelfWeighted(a, b, g, i), OtherWeighted(a, b, g, i));
    if g in MergedCounts(a, b) then Divide(s, MergedCounts(a, b)[g]) else s
  }

  /**
   * A graph row of the first table that only the first side counted: the
   * averaged merge adds it to the second table as a row of zeros
   * (`other.dataFrame.loc[graphName] = 0`).
   */
  predicate OnlyFirstCounts(a: QueryResult, b: QueryResult, g: string)
  {
    g in a.frame.rows && g in a.averageCounts && g !in b.averageCounts
  }

  /** The graphs only the first side counted, as a set. */
  function FirstOnlyCounted(a: QueryResult, b: QueryResult): set<string>
  {
    set g | g in a.frame.rows && OnlyFirstCounts(a, b, g)
  }

  /** One pass of the averaged merge's loop over the first table's rows: graph g weighted on both sides. */
  method WeighRow(a: QueryResult, b: QueryResult, g: string, mine: Table, theirs: Table, counts: map<string, Count>)
    returns (mine': Table, theirs': Table, counts': map<string, Count>)
    requires g in a.frame.rows
    requires mine.cols == a.frame.cols && theirs.cols == b.frame.cols
    requires forall i :: At(mine, g, i) == At(a.frame, g, i) && At(theirs, g, i) == At(b.frame, g, i)
    requires g in counts <==> g in a.averageCounts
    requires g in counts ==> counts[g] == a.averageCounts[g]
    requires g in mine.rows
    ensures mine'.cols == mine.cols && theirs'.cols == theirs.cols
    ensures forall h :: h in mine'.rows <==> h in mine.rows
    ensures forall h :: h in theirs'.rows <==> h in theirs.rows || (h == g && OnlyFirstCounts(a, b, g))
    ensures forall h, i :: At(mine', h, i) == if h == g then SelfWeighted(a, b, g, i) else At(mine, h, i)
    ensures forall h, i :: At(theirs', h, i) == if h == g then OtherWeighted(a, b, g, i) else At(theirs, h, i)
    ensures forall h :: h in counts' <==> h in counts || (h == g && g in MergedCounts(a, b))
    ensures forall h :: h in counts' ==> counts'[h] == if h == g then MergedCounts(a, b)[g] else counts[h]
  {
    mine', theirs', counts' := mine, theirs, counts;
    if g in a.averageCounts && g in b.averageCounts {
      mine' := ScaleRow(mine, g, a.averageCounts[g]);
      theirs' := ScaleRow(theirs, g, b.averageCounts[g]);
      counts' := counts[g := a.averageCounts[g] + b.averageCounts[g]];
    } else if g in a.averageCounts {
      mine' := ScaleRow(mine, g, a.averageCounts[g]);
      theirs' := AddRow(theirs, g, 0.0);
    } else if g in b.averageCounts {
      theirs' := ScaleRow(theirs, g, b.averageCounts[g]);
      mine' := AddRow(mine, g, 0.0);
      counts' := counts[g := b.averageCounts[g]];
    }
  }

  /** The averaged merge's first loop: every graph row of the first table weighted on both sides. */
  method WeighRows(a: QueryResult, b: QueryResult) returns (mine: Table, theirs: Table, counts: map<string, Count>)
    ensures mine.cols == a.frame.cols && theirs.cols == b.frame.cols
    ensures RowSet(mine) == RowSet(a.frame) && RowSet(theirs) == RowSet(b.frame) + FirstOnlyCounted(a, b)
    ensures forall g, i :: At(mine, g, i) == SelfWeighted(a, b, g, i)
    ensures forall g, i :: At(theirs, g, i) == OtherWeighted(a, b, g, i)
    ensures counts == MergedCounts(a, b)
  {
    mine, theirs := a.frame, b.frame;
    counts := a.averageCounts;
    var rows := set g | g in a.frame.rows;
    while rows != {}
      invariant WeighedSoFar(a, b, rows, mine, theirs, counts)
      decreases rows
    {
      var g :| g in rows;
      var mine', theirs', counts' := WeighRow(a, b, g, mine, theirs, counts);
      WeighedStep(a, b, g, rows, mine, theirs, counts, mine', theirs', counts');
      mine, theirs, counts := mine', theirs', counts';
      rows := rows - {g};
    }
  }

  /** The state of the averaged merge's first loop once the graphs outside `rows` are weighted. */
  ghost predicate WeighedSoFar(a: QueryResult, b: QueryResult, rows: set<string>, mine: Table, theirs: Table,
                               counts: map<string, Count>)
  {
    (forall g :: g in rows ==> g in a.frame.rows) &&
    mine.cols == a.frame.cols && theirs.cols == b.frame.cols &&
    (forall g :: g in mine.rows <==> g in a.frame.rows) &&
    (forall g :: g in theirs.rows <==> g in b.frame.rows || (g !in rows && OnlyFirstCounts(a, b, g))) &&
    (forall g, i :: At(mine, g, i) == if g in rows then At(a.frame, g, i) else SelfWeighted(a, b, g, i)) &&
    (forall g, i :: At(theirs, g, i) == if g in rows then At(b.frame, g, i) else OtherWeighted(a, b, g, i)) &&
    (forall g :: g in counts <==> if g in rows then g in a.averageCounts else g in MergedCounts(a, b)) &&
    (forall g :: g in counts ==> counts[g] == if g in rows then a.averageCounts[g] else MergedCounts(a, b)[g])
  }

  /** Weighing one more graph of `rows`, as WeighRow does, leaves the loop state for the rest. */
  lemma WeighedStep(a: QueryResult, b: QueryResult, g: string, rows: set<string>, mine: Table, theirs: Table,
                    counts: map<string, Count>, mine': Table, theirs': Table, counts': map<string, Count>)
    requires WeighedSoFar(a, b, rows, mine, theirs, counts) && g in rows
    requires mine'.cols == mine.cols && theirs'.cols == theirs.cols
    requires forall h :: h in mine'.rows <==> h in mine.rows
    requires forall h :: h in theirs'.rows <==> h in theirs.rows || (h == g && OnlyFirstCounts(a, b, g))
    requires forall h, i :: At(mine', h, i) == if h == g then SelfWeighted(a, b, g, i) else At(mine, h, i)
    requires forall h, i :: At(theirs', h, i) == if h == g then OtherWeighted(a, b, g, i) else At(theirs, h, i)
    requires forall h :: h in counts' <==> h in counts || (h == g && g in MergedCounts(a, b))
    requires forall h :: h in counts' ==> counts'[h] == if h == g then MergedCounts(a, b)[g] else counts[h]
    ensures WeighedSoFar(a, b, rows - {g}, mine', theirs', counts')
  {
  }

  /** The averaged merge's second loop: every counted graph's positive cells divided by its count. */
  method DivideRows(t: Table, counts: map<string, Count>) returns (r: Table)
    ensures r.rows == t.rows && r.cols == t.cols
    ensures forall g, i :: At(r, g, i) == if g in counts then Divide(At(t, g, i), counts[g]) else At(t, g, i)
  {
    r := t;
    var graphs := counts.Keys;
    while graphs != {}
      invariant graphs <= counts.Keys
      invariant r.rows == t.rows && r.cols == t.cols
      invariant forall g, i :: At(r, g, i) == if g in counts && g !in graphs then Divide(At(t, g, i), counts[g]) else At(t, g, i)
      decreases graphs
    {
      var g :| g in graphs;
      r := DivideRow(r, g, counts[g]);
      graphs := graphs - {g};
    }
  }

  /**
   * The table and counts the two merges leave in the first query (self):
   * without averaging, the cell-wise sum, decoded, with the counts kept;
   * with averaging, for every graph row, timings multiplied back by their
   * counts (a row only one side counted is zero on the other side), summed
   * and decoded, then every counted graph's positive timings divided by the
   * merged count.
   */
  ghost predicate FramesMerged(x: QueryResult, a: QueryResult, b: QueryResult)
  {
    RowSet(x.frame) == RowSet(a.frame) + RowSet(b.frame) && ColSet(x.frame) == ColSet(a.frame) + ColSet(b.frame) &&
    (!a.isAveraged ==> x.averageCounts == a.averageCounts &&
                       forall g, i :: At(x.frame, g, i) == SumCell(At(a.frame, g, i), At(b.frame, g, i))) &&
    (a.isAveraged ==> x.averageCounts == MergedCounts(a, b) &&
                      forall g, i :: At(x.frame, g, i) == AveragedCell(a, b, g, i))
  }

  /** `mergeOnType` of a with b as it leaves self: label, result and averaging kept, type 'both', frames merged. */
  ghost predicate MergedOnType(x: QueryResult, a: QueryResult, b: QueryResult)
  {
    x.queryLabel == a.queryLabel && x.result == a.result && x.kind == Both && x.isAveraged == a.isAveraged &&
    FramesMerged(x, a, b)
  }

  /** `mergeOnResult` of a with b as it leaves self: label, type and averaging kept, result 'none', frames merged. */
  ghost predicate MergedOnResult(x: QueryResult, a: QueryResult, b: QueryResult)
  {
    x.queryLabel == a.queryLabel && x.result == Either && x.kind == a.kind && x.isAveraged == a.isAveraged &&
    FramesMerged(x, a, b)
  }

  /**
   * The other query as both merges leave it: unchanged without averaging;
   * with averaging its rows are weighted in place (lines 627-628, 631 and
   * 635 for mergeOnType), a row of zeros is added for every graph only the
   * first side counted, and only its table changes.
   */
  ghost predicate PartnerWeighted(y: QueryResult, a: QueryResult, b: QueryResult)
  {
    y == b.(frame := y.frame) && y.frame.cols == b.frame.cols &&
    RowSet(y.frame) == RowSet(b.frame) + (if a.isAveraged then FirstOnlyCounted(a, b) else {}) &&
    forall g, i :: At(y.frame, g, i) == if a.isAveraged then OtherWeighted(a, b, g, i) else At(b.frame, g, i)
  }

  /** The tables both merges compute: self's new table and counts, and the other query's table afterwards. */
  method MergeFrames(a: QueryResult, b: QueryResult) returns (frame: Table, counts: map<string, Count>, other: Table)
    ensures RowSet(frame) == RowSet(a.frame) + RowSet(b.frame) && ColSet(frame) == ColSet(a.frame) + ColSet(b.frame)
    ensures other.cols == b.frame.cols
    ensures RowSet(other) == RowSet(b.frame) + (if a.isAveraged then FirstOnlyCounted(a, b) else {})
    ensures !a.isAveraged ==> counts == a.averageCounts && other == b.frame &&
                              forall g, i :: At(frame, g, i) == SumCell(At(a.frame, g, i), At(b.frame, g, i))
    ensures a.isAveraged ==> counts == MergedCounts(a, b) &&
                             (forall g, i :: At(frame, g, i) == AveragedCell(a, b, g, i)) &&
                             forall g, i :: At(other, g, i) == OtherWeighted(a, b, g, i)
  {
    if !a.isAveraged {
      frame := MapCells(Plus(a.frame, b.frame), Remap);
      PlusLabels(a.frame, b.frame);
      counts := a.averageCounts;
      other := b.frame;
      return;
    }
    var mine;
    mine, other, counts := WeighRows(a, b);
    var summed := MapCells(Plus(mine, other), Remap);
    frame := DivideRows(summed, counts);
    AveragedFrameCells(a, b, mine, other, summed, frame);
    PlusLabels(mine, other);
    assert FirstOnlyCounted(a, b) <= RowSet(a.frame);
  }

  /** The weighted tables summed, decoded and divided by the merged counts hold the averaged merge's cells. */
  lemma AveragedFrameCells(a: QueryResult, b: QueryResult, mine: Table, theirs: Table, summed: Table, frame: Table)
    requires forall g, i :: At(mine, g, i) == SelfWeighted(a, b, g, i)
    requires forall g, i :: At(theirs, g, i) == OtherWeighted(a, b, g, i)
    requires summed == MapCells(Plus(mine, theirs), Remap)
    requires forall g, i :: At(frame, g, i) ==
               if g in MergedCounts(a, b) then Divide(At(summed, g, i), MergedCounts(a, b)[g]) else At(summed, g, i)
    ensures forall g, i :: At(frame, g, i) == AveragedCell(a, b, g, i)
  {
    forall g, i
      ensures At(frame, g, i) == AveragedCell(a, b, g, i)
    {
      assert At(summed, g, i) == SumCell(SelfWeighted(a, b, g, i), OtherWeighted(a, b, g, i));
    }
  }

  /** `mergeOnType`: the merged query, now of type 'both', and the other query as the merge leaves it. */
  method MergeOnType(a: QueryResult, b: QueryResult) returns (r: QueryResult, other: QueryResult)
    ensures MergedOnType(r, a, b) && PartnerWeighted(other, a, b)
  {
    var frame, counts, theirs := MergeFrames(a, b);
    r := a.(kind := Both, frame := frame, averageCounts := counts);
    other := b.(frame := theirs);
  }

  /** `mergeOnResult`: the merged query, now of result 'none', and the other query as the merge leaves it. */
  method MergeOnResult(a: QueryResult, b: QueryResult) returns (r: QueryResult, other: QueryResult)
    ensures MergedOnResult(r, a, b) && PartnerWeighted(other, a, b)
  {
    var frame, counts, theirs := MergeFrames(a, b);
    r := a.(result := Either, frame := frame, averageCounts := counts);
    other := b.(frame := theirs);
  }

  /**
   * An averaged table whose counted graphs are all rows keeps that after a
   * merge, so the merged table's counts and rows can feed a second merge
   * and the pooling lemmas below.
   */
  lemma MergedCountsAreRows(x: QueryResult, a: QueryResult, b: QueryResult)
    requires a.isAveraged && FramesMerged(x, a, b)
    requires forall g :: g in a.averageCounts ==> g in a.frame.rows
    ensures forall g :: g in x.averageCounts ==> g in x.frame.rows
    ensures forall g :: g in a.frame.rows ==> g in x.frame.rows
  {
    forall g | g in x.averageCounts
      ensures g in x.frame.rows
    {
      assert g in MergedCounts(a, b);
      assert g in RowSet(a.frame);
    }
    forall g | g in a.frame.rows
      ensures g in x.frame.rows
    {
      assert g in RowSet(a.frame);
    }
  }

  /** Without averaging, a cell both sides record with the same code keeps that code. */
  lemma UnaveragedMergeKeepsCodes(a: QueryResult, b: QueryResult, g: string, i: string, s: real)
    requires At(a.frame, g, i) == Some(s) && At(b.frame, g, i) == Some(s) && IsSentinel(s)
    ensures SumCell(At(a.frame, g, i), At(b.frame, g, i)) == Some(s)
  {
    RemapDoubled(s);
  }

  /** Without averaging, two measured timings add up: the time of both workloads together. */
  lemma UnaveragedMergeAddsTimings(a: QueryResult, b: QueryResult, g: string, i: string, x: real, y: real)
    requires At(a.frame, g, i) == Some(x) && At(b.frame, g, i) == Some(y) && x > 0.0 && y > 0.0
    ensures SumCell(At(a.frame, g, i), At(b.frame, g, i)) == Some(x + y)
  {
  }

  /**
   * With averaging, two measured averages of a graph both sides counted
   * merge into the average over all queries: the mean weighted by counts.
   */
  lemma AveragedMergeIsWeightedMean(a: QueryResult, b: QueryResult, g: string, i: string, x: real, y: real)
    requires g in a.frame.rows && g in a.averageCounts && g in b.averageCounts
    requires At(a.frame, g, i) == Some(x) && At(b.frame, g, i) == Some(y) && x > 0.0 && y > 0.0
    ensures AveragedCell(a, b, g, i) ==
            Some((x * a.averageCounts[g] as real + y * b.averageCounts[g] as real) /
                 (a.averageCounts[g] + b.averageCounts[g]) as real)
  {
    var c, d := a.averageCounts[g], b.averageCounts[g];
    ScaleMeasured(At(a.frame, g, i), x, c);
    ScaleMeasured(At(b.frame, g, i), y, d);
    assert SelfWeighted(a, b, g, i) == Some(x * c as real);
    assert OtherWeighted(a, b, g, i) == Some(y * d as real);
    var sum := x * c as real + y * d as real;
    assert Remap(sum) == sum;
    assert SumCell(SelfWeighted(a, b, g, i), OtherWeighted(a, b, g, i)) == Some(sum);
    assert g in MergedCounts(a, b) && MergedCounts(a, b)[g] == c + d;
    assert AveragedCell(a, b, g, i) == Divide(Some(sum), c + d);
    assert Divide(Some(sum), c + d) == Some(sum / (c + d) as real);
    assert (c + d) as real == (a.averageCounts[g] + b.averageCounts[g]) as real;
    assert sum == x * a.averageCounts[g] as real + y * b.averageCounts[g] as real;
  }

  /** A measured timing weighted by its count stays a measured timing. */
  lemma ScaleMeasured(v: Option<real>, x: real, c: Count)
    requires v == Some(x) && x > 0.0
    ensures Scale(v, c) == Some(x * c as real) && x * c as real > 0.0
  {
  }

  /** With averaging, a graph only the first side counted keeps its average where the second has a column. */
  lemma AveragedMergeKeepsOneSided(a: QueryResult, b: QueryResult, g: string, i: string, x: real)
    requires g in a.frame.rows && g in a.averageCounts && g !in b.averageCounts && i in b.frame.cols
    requires At(a.frame, g, i) == Some(x) && x > 0.0
    ensures AveragedCell(a, b, g, i) == Some(x)
  {
    var c := a.averageCounts[g];
    ScaleMeasured(At(a.frame, g, i), x, c);
    assert SelfWeighted(a, b, g, i) == Some(x * c as real);
    assert OtherWeighted(a, b, g, i) == Some(0.0);
    assert SumCell(SelfWeighted(a, b, g, i), OtherWeighted(a, b, g, i)) == Some(x * c as real);
    assert g in MergedCounts(a, b) && MergedCounts(a, b)[g] == c;
    assert x * c as real / c as real == x;
  }

  /**
   * Averaging and the averaged merge together: two tables averaged from
   * totals t and u over c and d queries merge into (t + u) / (c + d), the
   * average over both workloads at once.
   */
  lemma MergedAveragesPool(a: QueryResult, b: QueryResult, g: string, i: string, t: real, u: real)
    requires g in a.frame.rows && g in a.averageCounts && g in b.averageCounts
    requires t > 0.0 && u > 0.0
    requires At(a.frame, g, i) == Divide(Some(t), a.averageCounts[g])
    requires At(b.frame, g, i) == Divide(Some(u), b.averageCounts[g])
    ensures AveragedCell(a, b, g, i) == Some((t + u) / (a.averageCounts[g] + b.averageCounts[g]) as real)
  {
    var c, d := a.averageCounts[g], b.averageCounts[g];
    var x, y := t / c as real, u / d as real;
    DivideBack(t, c);
    DivideBack(u, d);
    AveragedMergeIsWeightedMean(a, b, g, i, x, y);
    assert x * c as real + y * d as real == t + u;
  }

  /** An average multiplied back by its count is the total it came from. */
  lemma DivideBack(t: real, c: Count)
    requires t > 0.0
    ensures t / c as real > 0.0 && (t / c as real) * c as real == t
  {
  }

  // ---------------------------------------------------------------------
  // averageTimings
  // ---------------------------------------------------------------------

  function LabelText(l: Label): string
  {
    match l
    case Labels(n) => IntToString(n)
    case Bucket(name) => name
  }

  /** A generated graph: its name starts with a model and "V" and ends with the "exp" distribution. */
  predicate IsSynthetic(graph: string)
  {
    (StartsWith(graph, "erV") || StartsWith(graph, "ffV") || StartsWith(graph, "plV") || StartsWith(graph, "paV")) &&
    |graph| >= 3 && graph[|graph| - 3..] == "exp"
  }

  /**
   * The query file whose line count averages a graph's timings. A result
   * of 'none' is a non-empty string, so Python's `if self.result` picks
   * the ".true" file for it.
   */
  function CountFile(q: QueryResult, graph: string): (r: string)
    ensures |r| >= 10 && (r[|r| - 9..] == ".true.csv" <==> q.result != Unreachable)
  {
    var stem := (if IsSynthetic(graph) then "./workload/generated/" + graph + ".queries-lcr"
                 else "./workload/" + graph + "/graph.queries-lcr") +
                (match q.kind case Random => ".rnd" case Connected => ".cnn" case Both => "") +
                ".L" + LabelText(q.queryLabel);
    var tail := if q.result != Unreachable then ".true.csv" else ".false.csv";
    assert (stem + tail)[|stem + tail| - 9..] == tail[|tail| - 9..];
    stem + tail
  }

  /** The file averageTimings counts is the one the query generator writes for that mode. */
  lemma CountFileIsGeneratorFile(q: QueryResult, graph: string, n: nat)
    requires IsSynthetic(graph) && q.queryLabel == Labels(n) && q.result != Either
    ensures CountFile(q, graph) ==
            QueryGenerator.QueryFileName("./workload/generated/" + graph,
              QueryGenerator.ModeName(match q.kind case Random => "rnd." case Connected => "cnn." case Both => "", n),
              q.result == Reachable)
  {
    var stem, number := "./workload/generated/" + graph, NatToString(n);
    var kind := match q.kind case Random => ".rnd" case Connected => ".cnn" case Both => "";
    var prefix := match q.kind case Random => "rnd." case Connected => "cnn." case Both => "";
    var ending := if q.result == Reachable then ".true.csv" else ".false.csv";
    assert CountFile(q, graph) == stem + ".queries-lcr" + kind + ".L" + number + ending;
    assert ".queries-lcr" + kind + ".L" == ".queries-lcr." + prefix + "L";
    FileNameParts(stem, ".queries-lcr", kind, ".L", number, ending);
    ModeNameParts(stem, ".queries-lcr.", prefix, "L", number, ending);
  }

  /** A file name of six pieces, regrouped around its number. */
  lemma FileNameParts(stem: string, a: string, b: string, c: string, number: string, d: string)
    ensures stem + a + b + c + number + d == stem + (a + b + c) + number + d
  {
  }

  /** A file name built around a mode name, regrouped around the mode's number. */
  lemma ModeNameParts(stem: string, a: string, b: string, c: string, number: string, d: string)
    ensures stem + a + (b + c + number) + d == stem + (a + b + c) + number + d
  {
  }

  /** A table merged on result ('none') is averaged with the count of its reachable queries' file only. */
  lemma CountFileOfEither(q: QueryResult, graph: string)
    requires q.result == Either
    ensures CountFile(q, graph) == CountFile(q.(result := Reachable), graph)
  {
  }

  /** Whether averageTimings divides the graph's row: no -5 in it, and its query file exists. */
  predicate Averages(q: QueryResult, graphNames: seq<string>, lineCount: string -> Option<Count>, graph: string)
  {
    graph in graphNames && !RowHas(q.frame, graph, -5.0) && lineCount(CountFile(q, graph)).Some?
  }

  /** The counted file depends only on the workload: label, result and type. */
  lemma SameCountFile(q: QueryResult, q': QueryResult, graph: string)
    requires q.queryLabel == q'.queryLabel && q.result == q'.result && q.kind == q'.kind
    ensures CountFile(q, graph) == CountFile(q', graph)
  {
  }

  /**
   * `averageTimings`: every listed graph whose row holds no -5 and whose
   * query file exists has its positive timings divided by the file's line
   * count, which is recorded. `lineCount` stands for the file system: the
   * number of lines of a file, or None when it does not exist.
   */
  method AverageTimings(q: QueryResult, graphNames: seq<string>, lineCount: string -> Option<Count>) returns (r: QueryResult)
    requires Sorting.NoDuplicates(graphNames)
    ensures r.queryLabel == q.queryLabel && r.result == q.result && r.kind == q.kind && r.isAveraged
    ensures r.frame.rows == q.frame.rows && r.frame.cols == q.frame.cols
    ensures forall g :: g in r.averageCounts <==> Averages(q, graphNames, lineCount, g)
    ensures forall g :: g in r.averageCounts ==> lineCount(CountFile(q, g)) == Some(r.averageCounts[g])
    ensures forall g, i :: At(r.frame, g, i) ==
              if Averages(q, graphNames, lineCount, g) then Divide(At(q.frame, g, i), lineCount(CountFile(q, g)).value)
              else At(q.frame, g, i)
  {
    r := q.(isAveraged := true, averageCounts := map[]);
    var k := 0;
    while k < |graphNames|
      invariant k <= |graphNames|
      invariant r.queryLabel == q.queryLabel && r.result == q.result && r.kind == q.kind && r.isAveraged
      invariant r.frame.rows == q.frame.rows && r.frame.cols == q.frame.cols
      invariant forall g :: g in r.averageCounts <==> Averages(q, graphNames[..k], lineCount, g)
      invariant forall g :: g in r.averageCounts ==> lineCount(CountFile(q, g)) == Some(r.averageCounts[g])
      invariant forall g, i :: At(r.frame, g, i) ==
                  if Averages(q, graphNames[..k], lineCount, g) then Divide(At(q.frame, g, i), lineCount(CountFile(q, g)).value)
                  else At(q.frame, g, i)
    {
      var graph := graphNames[k];
      assert graphNames[..k + 1] == graphNames[..k] + [graph];
      assert graph !in graphNames[..k];
      assert RowHas(r.frame, graph, -5.0) == RowHas(q.frame, graph, -5.0);
      if !RowHas(r.frame, graph, -5.0) {
        SameCountFile(r, q, graph);
        var count := lineCount(CountFile(r, graph));
        if count.Some? {
          r := r.(frame := DivideRow(r.frame, graph, count.value),
                  averageCounts := r.averageCounts[graph := count.value]);
        }
      }
      k := k + 1;
    }
    assert graphNames[..k] == graphNames;
  }

  // ---------------------------------------------------------------------
  // The ResultSet class
  // ---------------------------------------------------------------------

  /** The labels two lists share (`set(a).intersection(b)`). */
  function Shared(a: seq<string>, b: seq<string>): (r: set<string>)
    ensures forall x :: x in r <==> x in a && x in b
  {
    set x | x in a && x in b
  }

  /** The position of the first query of `qs` for the same workload as q, if any. */
  function FirstMatch(q: QueryResult, qs: seq<QueryResult>): (r: Option<nat>)
    ensures r.Some? ==> r.value < |qs| && SameQuery(q, qs[r.value]) && forall k :: 0 <= k < r.value ==> !SameQuery(q, qs[k])
    ensures r.None? ==> forall k :: 0 <= k < |qs| ==> !SameQuery(q, qs[k])
  {
    if |qs| == 0 then None
    else if SameQuery(q, qs[0]) then Some(0)
    else match FirstMatch(q, qs[1..])
      case None => None
      case Some(k) => Some(k + 1)
  }

  /** The inner search loop shared by joinLeft, append and merge: the first query of the same workload. */
  method FindSame(q: QueryResult, qs: seq<QueryResult>) returns (r: Option<nat>)
    ensures r == FirstMatch(q, qs)
  {
    var j := 0;
    while j < |qs|
      invariant j <= |qs|
      invariant forall k :: 0 <= k < j ==> !SameQuery(q, qs[k])
    {
      if SameQuery(q, qs[j]) {
        return Some(j);
      }
      j := j + 1;
    }
    return None;
  }

  /** q's table after joinLeft: joined with the first query of the same workload on the other side, if there is one. */
  ghost predicate JoinedQuery(r: QueryResult, q: QueryResult, others: seq<QueryResult>,
                              graphs: set<string>, indexes: set<string>, mode: string)
  {
    r == q.(frame := r.frame) &&
    match FirstMatch(q, others)
    case None => r.frame == q.frame
    case Some(j) => JoinedFrom(r.frame, q.frame, others[j].frame, graphs, indexes, mode)
  }

  /** Whether a back-fill adds missing columns (`append`) or missing rows (`merge`). */
  datatype Axis = Columns | Rows

  /**
   * The table with every listed label it lacks added on the given axis
   * and filled with -5 (the workload had no query file there), one label
   * at a time in the list's order.
   */
  function Filled(t: Table, names: seq<string>, axis: Axis): (r: Table)
    ensures axis == Columns ==> r.rows == t.rows && forall i :: i in r.cols <==> i in t.cols || i in names
    ensures axis == Rows ==> r.cols == t.cols && forall g :: g in r.rows <==> g in t.rows || g in names
    ensures forall g, i :: At(r, g, i) ==
              if axis == Columns && i in names && i !in t.cols && g in t.rows then Some(-5.0)
              else if axis == Rows && g in names && g !in t.rows && i in t.cols then Some(-5.0)
              else At(t, g, i)
    decreases |names|
  {
    if |names| == 0 then t
    else if axis == Columns then Filled(if names[0] in t.cols then t else AddColumn(t, names[0], -5.0), names[1..], axis)
    else Filled(if names[0] in t.rows then t else AddRow(t, names[0], -5.0), names[1..], axis)
  }

  /** The back-fill loops of append and merge: `for name in names: if name not in ...: df[...] = -5`. */
  method BackFill(t: Table, names: seq<string>, axis: Axis) returns (r: Table)
    ensures r == Filled(t, names, axis)
  {
    r := t;
    var k := 0;
    while k < |names|
      invariant k <= |names|
      invariant Filled(r, names[k..], axis) == Filled(t, names, axis)
    {
      assert names[k..][1..] == names[k + 1..];
      if axis == Columns && names[k] !in r.cols {
        r := AddColumn(r, names[k], -5.0);
      } else if axis == Rows && names[k] !in r.rows {
        r := AddRow(r, names[k], -5.0);
      }
      k := k + 1;
    }
  }

  /**
   * The second loop of append and merge: each query of the other side
   * whose workload the growing list does not hold yet is added,
   * back-filled over the given labels.
   */
  function AddedFrom(out: seq<QueryResult>, others: seq<QueryResult>, names: seq<string>, axis: Axis): seq<QueryResult>
    decreases |others|
  {
    if |others| == 0 then out
    else if FirstMatch(others[0], out).Some? then AddedFrom(out, others[1..], names, axis)
    else AddedFrom(out + [others[0].(frame := Filled(others[0].frame, names, axis))], others[1..], names, axis)
  }

  /** A query with a match in a list keeps it in any extension of the list. */
  lemma FirstMatchExtends(q: QueryResult, s: seq<QueryResult>, t: seq<QueryResult>)
    requires s <= t && FirstMatch(q, s).Some?
    ensures FirstMatch(q, t).Some?
  {
    var j := FirstMatch(q, s).value;
    assert t[j] == s[j];
  }

  /** The first position holding q's workload is what FirstMatch finds. */
  lemma FirstMatchAt(q: QueryResult, s: seq<QueryResult>, j: nat)
    requires j < |s| && SameQuery(q, s[j]) && forall k :: 0 <= k < j ==> !SameQuery(q, s[k])
    ensures FirstMatch(q, s) == Some(j)
  {
  }

  /** The list grows only at its end. */
  lemma {:induction false} AddedFromExtends(out: seq<QueryResult>, others: seq<QueryResult>, names: seq<string>, axis: Axis)
    ensures out <= AddedFrom(out, others, names, axis)
    decreases |others|
  {
    if |others| > 0 {
      var next := if FirstMatch(others[0], out).Some? then out
                  else out + [others[0].(frame := Filled(others[0].frame, names, axis))];
      AddedFromExtends(next, others[1..], names, axis);
    }
  }

  /** Every workload of the other side is present once its queries are added. */
  lemma {:induction false} AddedFromCovers(out: seq<QueryResult>, others: seq<QueryResult>, names: seq<string>, axis: Axis)
    ensures forall k :: 0 <= k < |others| ==> FirstMatch(others[k], AddedFrom(out, others, names, axis)).Some?
    decreases |others|
  {
    if |others| > 0 {
      var next := if FirstMatch(others[0], out).Some? then out
                  else out + [others[0].(frame := Filled(others[0].frame, names, axis))];
      assert AddedFrom(out, others, names, axis) == AddedFrom(next, others[1..], names, axis);
      AddedFromCovers(next, others[1..], names, axis);
      AddedFromExtends(next, others[1..], names, axis);
      assert FirstMatch(others[0], next).Some? by {
        if FirstMatch(others[0], out).None? {
          assert SameQuery(others[0], next[|out|]);
        }
      }
      FirstMatchExtends(others[0], next, AddedFrom(next, others[1..], names, axis));
      forall k | 1 <= k < |others|
        ensures FirstMatch(others[k], AddedFrom(out, others, names, axis)).Some?
      {
        assert others[k] == others[1..][k - 1];
      }
    }
  }

  /** The queries added at the end hold workloads no earlier query of the list holds. */
  lemma {:induction false} AddedFromNew(out: seq<QueryResult>, others: seq<QueryResult>, names: seq<string>, axis: Axis)
    ensures forall k :: |out| <= k < |AddedFrom(out, others, names, axis)| ==>
              FirstMatch(AddedFrom(out, others, names, axis)[k], AddedFrom(out, others, names, axis)) == Some(k)
    decreases |others|
  {
    if |others| > 0 {
      if FirstMatch(others[0], out).Some? {
        assert AddedFrom(out, others, names, axis) == AddedFrom(out, others[1..], names, axis);
        AddedFromNew(out, others[1..], names, axis);
      } else {
        var q := others[0].(frame := Filled(others[0].frame, names, axis));
        var next := out + [q];
        var r := AddedFrom(next, others[1..], names, axis);
        assert AddedFrom(out, others, names, axis) == r;
        AddedFromNew(next, others[1..], names, axis);
        AddedFromExtends(next, others[1..], names, axis);
        assert r[|out|] == q;
        forall k | 0 <= k < |out|
          ensures !SameQuery(q, r[k])
        {
          assert r[k] == out[k] && !SameQuery(others[0], out[k]);
        }
        FirstMatchAt(q, r, |out|);
        forall k | |out| <= k < |r|
          ensures FirstMatch(r[k], r) == Some(k)
        {
        }
      }
    }
  }

  /** One query of append's first loop: joined with the other side's query of the same workload, else back-filled; None when pandas raises. */
  function AppendedQuery(q: QueryResult, others: seq<QueryResult>, names: seq<string>): Option<QueryResult>
  {
    match FirstMatch(q, others)
    case None => Some(q.(frame := Filled(q.frame, names, Columns)))
    case Some(j) =>
      match JoinColumns(q.frame, others[j].frame)
      case None => None
      case Some(t) => Some(q.(frame := t))
  }

  /** One query of merge's first loop: the other side's rows appended to it, else back-filled. */
  function MergedQuery(q: QueryResult, others: seq<QueryResult>, names: seq<string>): QueryResult
  {
    match FirstMatch(q, others)
    case None => q.(frame := Filled(q.frame, names, Rows))
    case Some(j) => q.(frame := AppendRows(q.frame, others[j].frame))
  }

  /** The workload a merge on type keeps apart: label and result. */
  function TypeKey(q: QueryResult): (Label, Outcome)
  {
    (q.queryLabel, q.result)
  }

  /** The workload a merge on result keeps apart: label and type. */
  function ResultKey(q: QueryResult): (Label, Kind)
  {
    (q.queryLabel, q.kind)
  }

  function TypeKeys(qs: seq<QueryResult>): set<(Label, Outcome)>
  {
    set m | 0 <= m < |qs| :: TypeKey(qs[m])
  }

  function ResultKeys(qs: seq<QueryResult>): set<(Label, Kind)>
  {
    set m | 0 <= m < |qs| :: ResultKey(qs[m])
  }

  /** The queries of type 'both', in order: what mergeQueriesOnType keeps. */
  function OfKindBoth(qs: seq<QueryResult>): (r: seq<QueryResult>)
    ensures |r| <= |qs|
  {
    if |qs| == 0 then []
    else OfKindBoth(qs[..|qs| - 1]) + (if qs[|qs| - 1].kind == Both then [qs[|qs| - 1]] else [])
  }

  /** Every table the filter keeps is one of the list's tables of type 'both'. */
  lemma {:induction false} OfKindBothFrom(qs: seq<QueryResult>, q: QueryResult)
    requires q in OfKindBoth(qs)
    ensures q in qs && q.kind == Both
    decreases |qs|
  {
    var front := qs[..|qs| - 1];
    if q in OfKindBoth(front) {
      OfKindBothFrom(front, q);
      assert q in front;
    }
  }

  /** Every table of type 'both' is kept by the filter. */
  lemma {:induction false} OfKindBothKeeps(qs: seq<QueryResult>, k: nat)
    requires k < |qs| && qs[k].kind == Both
    ensures qs[k] in OfKindBoth(qs)
    decreases |qs|
  {
    if k < |qs| - 1 {
      var front := qs[..|qs| - 1];
      assert front[k] == qs[k];
      OfKindBothKeeps(front, k);
    }
  }

  /** The queries of result 'none', in order: what mergeQueriesOnResult keeps. */
  function OfResultEither(qs: seq<QueryResult>): (r: seq<QueryResult>)
    ensures |r| <= |qs|
  {
    if |qs| == 0 then []
    else OfResultEither(qs[..|qs| - 1]) + (if qs[|qs| - 1].result == Either then [qs[|qs| - 1]] else [])
  }

  /** Every table the filter keeps is one of the list's tables of result 'none'. */
  lemma {:induction false} OfResultEitherFrom(qs: seq<QueryResult>, q: QueryResult)
    requires q in OfResultEither(qs)
    ensures q in qs && q.result == Either
    decreases |qs|
  {
    var front := qs[..|qs| - 1];
    if q in OfResultEither(front) {
      OfResultEitherFrom(front, q);
      assert q in front;
    }
  }

  /** Every table of result 'none' is kept by the filter. */
  lemma {:induction false} OfResultEitherKeeps(qs: seq<QueryResult>, k: nat)
    requires k < |qs| && qs[k].result == Either
    ensures qs[k] in OfResultEither(qs)
    decreases |qs|
  {
    if k < |qs| - 1 {
      var front := qs[..|qs| - 1];
      assert front[k] == qs[k];
      OfResultEitherKeeps(front, k);
    }
  }

  /** No other query of the list shares query m's label and result. */
  predicate TypeAlone(qs: seq<QueryResult>, m: nat)
    requires m < |qs|
  {
    forall j :: 0 <= j < |qs| && j != m ==> TypeKey(qs[j]) != TypeKey(qs[m])
  }

  /** No other query of the list shares query m's label and type. */
  predicate ResultAlone(qs: seq<QueryResult>, m: nat)
    requires m < |qs|
  {
    forall j :: 0 <= j < |qs| && j != m ==> ResultKey(qs[j]) != ResultKey(qs[m])
  }

  /** The state of a pairing loop between turns: the tables and the positions already processed. */
  datatype PairState = PairState(r: seq<QueryResult>, processed: set<nat>)

  /** Query j can be query k's partner in mergeQueriesOnType: unprocessed, same label and result, another type. */
  predicate TypePartner(qs: seq<QueryResult>, processed: set<nat>, k: nat, j: nat)
    requires k < |qs| && j < |qs|
  {
    j !in processed && TypeKey(qs[j]) == TypeKey(qs[k]) && qs[j].kind != qs[k].kind
  }

  /** Query j can be query k's partner in mergeQueriesOnResult: unprocessed, same label and type, another result. */
  predicate ResultPartner(qs: seq<QueryResult>, processed: set<nat>, k: nat, j: nat)
    requires k < |qs| && j < |qs|
  {
    j !in processed && ResultKey(qs[j]) == ResultKey(qs[k]) && qs[j].result != qs[k].result
  }

  /** mergeQueriesOnType's inner loop: the first unprocessed query with query k's label and result but another type. */
  method FindTypePartner(qs: seq<QueryResult>, processed: set<nat>, k: nat) returns (r: Option<nat>)
    requires k < |qs|
    ensures r.Some? ==> r.value < |qs| && r.value != k && TypePartner(qs, processed, k, r.value) &&
                        forall m :: 0 <= m < r.value ==> !TypePartner(qs, processed, k, m)
    ensures r.None? ==> forall j :: 0 <= j < |qs| ==> !TypePartner(qs, processed, k, j)
  {
    var j := 0;
    while j < |qs|
      invariant j <= |qs|
      invariant forall m :: 0 <= m < j && m !in processed && TypeKey(qs[m]) == TypeKey(qs[k]) ==> qs[m].kind == qs[k].kind
    {
      if j !in processed && qs[k].queryLabel == qs[j].queryLabel && qs[k].result == qs[j].result && qs[k].kind != qs[j].kind {
        return Some(j);
      }
      j := j + 1;
    }
    return None;
  }

  /** mergeQueriesOnResult's inner loop: the first unprocessed query with query k's label and type but another result. */
  method FindResultPartner(qs: seq<QueryResult>, processed: set<nat>, k: nat) returns (r: Option<nat>)
    requires k < |qs|
    ensures r.Some? ==> r.value < |qs| && r.value != k && ResultPartner(qs, processed, k, r.value) &&
                        forall m :: 0 <= m < r.value ==> !ResultPartner(qs, processed, k, m)
    ensures r.None? ==> forall j :: 0 <= j < |qs| ==> !ResultPartner(qs, processed, k, j)
  {
    var j := 0;
    while j < |qs|
      invariant j <= |qs|
      invariant forall m :: 0 <= m < j && m !in processed && ResultKey(qs[m]) == ResultKey(qs[k]) ==> qs[m].result == qs[k].result
    {
      if j !in processed && qs[k].queryLabel == qs[j].queryLabel && qs[k].result != qs[j].result && qs[k].kind == qs[j].kind {
        return Some(j);
      }
      j := j + 1;
    }
    return None;
  }

  /** What averageTimings leaves in r for the query q (the contract of AverageTimings). */
  ghost predicate AveragedFrom(r: QueryResult, q: QueryResult, graphNames: seq<string>, lineCount: string -> Option<Count>)
  {
    r.queryLabel == q.queryLabel && r.result == q.result && r.kind == q.kind && r.isAveraged &&
    r.frame.rows == q.frame.rows && r.frame.cols == q.frame.cols &&
    (forall g :: g in r.averageCounts <==> Averages(q, graphNames, lineCount, g)) &&
    (forall g :: g in r.averageCounts ==> lineCount(CountFile(q, g)) == Some(r.averageCounts[g])) &&
    (forall g, i :: At(r.frame, g, i) ==
       if Averages(q, graphNames, lineCount, g) then Divide(At(q.frame, g, i), lineCount(CountFile(q, g)).value)
       else At(q.frame, g, i))
  }

  /** A query table after dropGraph: the graph's row is gone, and so is its count when the table is averaged. */
  function DroppedGraph(q: QueryResult, x: string): (r: QueryResult)
    ensures forall i :: At(r.frame, x, i) == None
    ensures x !in r.averageCounts || (!q.isAveraged && x in q.averageCounts)
  {
    q.(frame := DropRow(q.frame, x), averageCounts := if q.isAveraged then q.averageCounts - {x} else q.averageCounts)
  }

  /** append's first loop: each query joined with its counterpart's columns, else back-filled; None when pandas raises. */
  method AppendSelf(mine: seq<QueryResult>, others: seq<QueryResult>, names: seq<string>) returns (r: Option<seq<QueryResult>>)
    ensures r.Some? <==> forall k :: 0 <= k < |mine| ==> AppendedQuery(mine[k], others, names).Some?
    ensures r.Some? ==> |r.value| == |mine| && forall k :: 0 <= k < |mine| ==> Some(r.value[k]) == AppendedQuery(mine[k], others, names)
  {
    var qs: seq<QueryResult> := [];
    var k := 0;
    while k < |mine|
      invariant k <= |mine| && |qs| == k
      invariant forall m :: 0 <= m < k ==> Some(qs[m]) == AppendedQuery(mine[m], others, names)
    {
      var q := mine[k];
      var j := FindSame(q, others);
      if j.Some? {
        var t := JoinColumns(q.frame, others[j.value].frame);
        if t.None? {
          assert AppendedQuery(mine[k], others, names).None?;
          return None;
        }
        qs := qs + [q.(frame := t.value)];
      } else {
        var frame := BackFill(q.frame, names, Columns);
        qs := qs + [q.(frame := frame)];
      }
      k := k + 1;
    }
    return Some(qs);
  }

  /** append's two query loops: this side's tables joined or back-filled, then the other side's missing ones added. */
  method AppendQueries(mine: seq<QueryResult>, others: seq<QueryResult>, names: seq<string>) returns (r: Option<seq<QueryResult>>)
    ensures r.Some? <==> forall k :: 0 <= k < |mine| ==> AppendedQuery(mine[k], others, names).Some?
    ensures r.Some? ==> |mine| <= |r.value|
    ensures r.Some? ==> forall k :: 0 <= k < |mine| ==> Some(r.value[k]) == AppendedQuery(mine[k], others, names)
    ensures r.Some? ==> r.value == AddedFrom(r.value[..|mine|], others, names, Columns)
    ensures r.Some? ==> forall k :: 0 <= k < |others| ==> FirstMatch(others[k], r.value).Some?
    ensures r.Some? ==> forall k :: |mine| <= k < |r.value| ==> FirstMatch(r.value[k], r.value) == Some(k)
  {
    var qs := AppendSelf(mine, others, names);
    if qs.None? {
      return None;
    }
    var out := AddOthers(qs.value, others, names, Columns);
    return Some(out);
  }

  /** merge's first loop: each query with its counterpart's rows appended, else back-filled. */
  method MergeSelf(mine: seq<QueryResult>, others: seq<QueryResult>, names: seq<string>) returns (r: seq<QueryResult>)
    ensures |r| == |mine| && forall k :: 0 <= k < |mine| ==> r[k] == MergedQuery(mine[k], others, names)
  {
    r := [];
    var k := 0;
    while k < |mine|
      invariant k <= |mine| && |r| == k
      invariant forall m :: 0 <= m < k ==> r[m] == MergedQuery(mine[m], others, names)
    {
      var q := mine[k];
      var j := FindSame(q, others);
      if j.Some? {
        r := r + [q.(frame := AppendRows(q.frame, others[j.value].frame))];
      } else {
        var frame := BackFill(q.frame, names, Rows);
        r := r + [q.(frame := frame)];
      }
      k := k + 1;
    }
  }

  /**
   * The second loop of append and merge: the other side's queries of new
   * workloads added, back-filled. Every workload of the other side is then
   * present, and each added query is the first of its workload.
   */
  method AddOthers(qs: seq<QueryResult>, others: seq<QueryResult>, names: seq<string>, axis: Axis) returns (out: seq<QueryResult>)
    ensures out == AddedFrom(qs, others, names, axis)
    ensures |qs| <= |out| && out[..|qs|] == qs
    ensures forall k :: 0 <= k < |others| ==> FirstMatch(others[k], out).Some?
    ensures forall k :: |qs| <= k < |out| ==> FirstMatch(out[k], out) == Some(k)
  {
    out := qs;
    var k := 0;
    while k < |others|
      invariant k <= |others|
      invariant AddedFrom(out, others[k..], names, axis) == AddedFrom(qs, others, names, axis)
    {
      assert others[k..][1..] == others[k + 1..];
      var j := FindSame(others[k], out);
      if j.None? {
        var frame := BackFill(others[k].frame, names, axis);
        out := out + [others[k].(frame := frame)];
      }
      k := k + 1;
    }
    assert others[k..] == [];
    AddedFromExtends(qs, others, names, axis);
    AddedFromCovers(qs, others, names, axis);
    AddedFromNew(qs, others, names, axis);
  }

  /**
   * mergeQueriesOnType's first loop: each unprocessed table merged with
   * its partner (FindTypePartner) or relabelled 'both'. Labels and results
   * stay; every workload ends up in some table of type 'both'; a table
   * whose workload no other shares is only relabelled.
   */
  method PairOnType(qs: seq<QueryResult>)
    returns (r: seq<QueryResult>, ghost partner: seq<nat>, ghost trace: seq<PairState>, ghost found: seq<Option<nat>>)
    ensures |r| == |qs|
    ensures forall m :: 0 <= m < |qs| ==> TypeKey(r[m]) == TypeKey(qs[m])
    ensures |partner| == |qs| && forall m :: 0 <= m < |qs| ==> partner[m] < |r| && r[partner[m]].kind == Both && TypeKey(r[partner[m]]) == TypeKey(qs[m])
    ensures forall m :: 0 <= m < |qs| && TypeAlone(qs, m) ==> r[m] == qs[m].(kind := Both)
    ensures TypeTrace(qs, trace, found) && |found| == |qs| && trace[|qs|].r == r
  {
    r := qs;
    ghost var pairs: map<nat, nat> := map[];
    var processed: set<nat> := {};
    trace, found := [PairState(qs, {})], [];
    var k := 0;
    while k < |r|
      invariant PairingOnType(qs, r, processed, pairs, k)
      invariant TypeTrace(qs, trace, found) && |found| == k && trace[k] == PairState(r, processed)
    {
      r, processed, pairs, trace, found := PairTypeStep(qs, r, processed, pairs, k, trace, found);
      k := k + 1;
    }
    partner := PairedOnType(qs, r, processed, pairs);
  }

  /** When PairOnType's loop ends, each table's partner is the one its entry in `pairs` names. */
  lemma PairedOnType(qs: seq<QueryResult>, r: seq<QueryResult>, processed: set<nat>, pairs: map<nat, nat>)
    returns (partner: seq<nat>)
    requires PairingOnType(qs, r, processed, pairs, |r|)
    ensures |r| == |qs|
    ensures forall m :: 0 <= m < |qs| ==> TypeKey(r[m]) == TypeKey(qs[m])
    ensures |partner| == |qs| && forall m :: 0 <= m < |qs| ==> partner[m] < |r| && r[partner[m]].kind == Both && TypeKey(r[partner[m]]) == TypeKey(qs[m])
    ensures forall m :: 0 <= m < |qs| && TypeAlone(qs, m) ==> r[m] == qs[m].(kind := Both)
  {
    partner := seq(|qs|, m requires 0 <= m < |qs| && m in pairs => pairs[m]);
  }

  /** The pairing map with table m's workload now held by table holder. */
  function Handled(pairs: map<nat, nat>, m: nat, holder: nat): map<nat, nat>
  {
    pairs[m := holder]
  }

  /** The invariant of PairOnType's loop after k turns; `pairs` maps each handled table to the one that now holds its workload. */
  ghost predicate PairingOnType(qs: seq<QueryResult>, r: seq<QueryResult>, processed: set<nat>, pairs: map<nat, nat>, k: nat)
  {
    k <= |r| && |r| == |qs| &&
    (forall m :: 0 <= m < |r| ==> TypeKey(r[m]) == TypeKey(qs[m])) &&
    (forall m :: m in pairs ==> m < |r| && pairs[m] < k && r[pairs[m]].kind == Both && TypeKey(r[pairs[m]]) == TypeKey(r[m])) &&
    (forall m :: 0 <= m < k ==> m in pairs) &&
    (forall m :: m in processed ==> m in pairs) &&
    (forall m :: 0 <= m < |r| && TypeAlone(qs, m) ==>
       m !in processed && r[m] == if m < k then qs[m].(kind := Both) else qs[m])
  }

  /** One turn of PairOnType's loop: table k, unless already processed, is merged with its partner or relabelled. */
  method PairTypeStep(qs: seq<QueryResult>, r: seq<QueryResult>, processed: set<nat>, ghost pairs: map<nat, nat>, k: nat,
                      ghost trace: seq<PairState>, ghost found: seq<Option<nat>>)
    returns (r': seq<QueryResult>, processed': set<nat>, ghost pairs': map<nat, nat>,
             ghost trace': seq<PairState>, ghost found': seq<Option<nat>>)
    requires PairingOnType(qs, r, processed, pairs, k) && k < |r|
    requires TypeTrace(qs, trace, found) && |found| == k && trace[k] == PairState(r, processed)
    ensures PairingOnType(qs, r', processed', pairs', k + 1)
    ensures TypeTrace(qs, trace', found') && |found'| == k + 1 && trace'[k + 1] == PairState(r', processed')
  {
    ghost var f := None;
    r', processed', pairs' := r, processed, pairs;
    if k !in processed {
      var j := FindTypePartner(r, processed, k);
      if j.Some? {
        var merged, other := MergeOnType(r[k], r[j.value]);
        pairs' := PairTypeMerged(qs, r, processed, pairs, k, j.value, merged, other);
        r' := r[k := merged][j.value := other];
        processed' := processed + {k, j.value};
        f := j;
      } else {
        pairs' := PairTypeRelabelled(qs, r, processed, pairs, k);
        r' := r[k := r[k].(kind := Both)];
      }
    }
    TypeTraceSnoc(qs, trace, found, f, PairState(r, processed), PairState(r', processed'));
    trace', found' := trace + [PairState(r', processed')], found + [f];
  }

  /** Merging table k with an unprocessed partner j of the same workload keeps the loop invariant. */
  lemma PairTypeMerged(qs: seq<QueryResult>, r: seq<QueryResult>, processed: set<nat>, pairs: map<nat, nat>, k: nat, j: nat, x: QueryResult, y: QueryResult)
    returns (pairs': map<nat, nat>)
    requires PairingOnType(qs, r, processed, pairs, k) && k < |r| && k !in processed
    requires j < |r| && j != k && j !in processed && TypeKey(r[j]) == TypeKey(r[k])
    requires TypeKey(x) == TypeKey(r[k]) && x.kind == Both
    requires TypeKey(y) == TypeKey(r[j]) && y.kind == r[j].kind
    ensures PairingOnType(qs, r[k := x][j := y], processed + {k, j}, pairs', k + 1)
  {
    pairs' := Handled(Handled(pairs, k, k), j, k);
    var r', processed' := r[k := x][j := y], processed + {k, j};
    assert !TypeAlone(qs, k) && !TypeAlone(qs, j) by {
      assert TypeKey(qs[j]) == TypeKey(qs[k]);
    }
    forall m | 0 <= m < |r'|
      ensures TypeKey(r'[m]) == TypeKey(qs[m])
    {
    }
    PairTypeMergedPairs(qs, r, processed, pairs, k, j, x, y);
    forall m | 0 <= m < |r'| && TypeAlone(qs, m)
      ensures m !in processed' && r'[m] == if m < k + 1 then qs[m].(kind := Both) else qs[m]
    {
      assert m != k && m != j;
    }
  }

  /** After the merge, every handled table points at a table of its workload that is done. */
  lemma PairTypeMergedPairs(qs: seq<QueryResult>, r: seq<QueryResult>, processed: set<nat>, pairs: map<nat, nat>, k: nat, j: nat, x: QueryResult, y: QueryResult)
    requires PairingOnType(qs, r, processed, pairs, k) && k < |r| && k !in processed
    requires j < |r| && j != k && j !in processed && TypeKey(r[j]) == TypeKey(r[k])
    requires TypeKey(x) == TypeKey(r[k]) && x.kind == Both
    requires TypeKey(y) == TypeKey(r[j]) && y.kind == r[j].kind
    ensures var pairs', r' := Handled(Handled(pairs, k, k), j, k), r[k := x][j := y];
      forall m :: m in pairs' ==> m < |r'| && pairs'[m] < k + 1 && r'[pairs'[m]].kind == Both && TypeKey(r'[pairs'[m]]) == TypeKey(r'[m])
  {
    var pairs', r' := Handled(Handled(pairs, k, k), j, k), r[k := x][j := y];
    forall m | m in pairs'
      ensures m < |r'| && pairs'[m] < k + 1 && r'[pairs'[m]].kind == Both && TypeKey(r'[pairs'[m]]) == TypeKey(r'[m])
    {
      if m != k && m != j {
        var h := pairs[m];
        assert pairs'[m] == h && h != k && r'[m] == r[m];
        if h == j {
          assert r'[h] == y;
        } else {
          assert r'[h] == r[h];
        }
      }
    }
  }

  /** Relabelling an unprocessed table k that has no partner keeps the loop invariant. */
  lemma PairTypeRelabelled(qs: seq<QueryResult>, r: seq<QueryResult>, processed: set<nat>, pairs: map<nat, nat>, k: nat)
    returns (pairs': map<nat, nat>)
    requires PairingOnType(qs, r, processed, pairs, k) && k < |r| && k !in processed
    ensures PairingOnType(qs, r[k := r[k].(kind := Both)], processed, pairs', k + 1)
  {
    pairs' := Handled(pairs, k, k);
  }

  /**
   * Turn k of mergeQueriesOnType's first loop, from state s to s': a
   * processed query is skipped; any other is merged with its first partner
   * `found`, which the merge reweighs in place, or relabelled 'both' when
   * it has none. Nothing else changes.
   */
  ghost predicate TypeTurn(s: PairState, k: nat, found: Option<nat>, s': PairState)
  {
    k < |s.r| && |s'.r| == |s.r| &&
    if k in s.processed then found.None? && s' == s
    else match found
      case None =>
        (forall j :: 0 <= j < |s.r| ==> !TypePartner(s.r, s.processed, k, j)) &&
        s' == PairState(s.r[k := s.r[k].(kind := Both)], s.processed)
      case Some(j) =>
        j < |s.r| && j != k && TypePartner(s.r, s.processed, k, j) &&
        (forall m :: 0 <= m < j ==> !TypePartner(s.r, s.processed, k, m)) &&
        s'.processed == s.processed + {k, j} &&
        MergedOnType(s'.r[k], s.r[k], s.r[j]) && PartnerWeighted(s'.r[j], s.r[k], s.r[j]) &&
        (forall m :: 0 <= m < |s.r| && m != k && m != j ==> s'.r[m] == s.r[m])
  }

  /** The first |found| turns of mergeQueriesOnType's first loop on qs, with the partner found on each. */
  ghost predicate TypeTrace(qs: seq<QueryResult>, trace: seq<PairState>, found: seq<Option<nat>>)
  {
    |trace| == |found| + 1 && trace[0] == PairState(qs, {}) &&
    forall i :: 0 <= i < |found| ==> TypeTurnAt(trace, found, i)
  }

  /** Turn i of a trace of mergeQueriesOnType's first loop. */
  ghost predicate TypeTurnAt(trace: seq<PairState>, found: seq<Option<nat>>, i: nat)
  {
    i < |found| && |trace| == |found| + 1 && TypeTurn(trace[i], i, found[i], trace[i + 1])
  }

  /** A trace extended by one more turn. */
  lemma TypeTraceSnoc(qs: seq<QueryResult>, trace: seq<PairState>, found: seq<Option<nat>>, f: Option<nat>, last: PairState, s: PairState)
    requires TypeTrace(qs, trace, found) && trace[|found|] == last && TypeTurn(last, |found|, f, s)
    ensures TypeTrace(qs, trace + [s], found + [f]) && (trace + [s])[|found| + 1] == s
  {
    var t, g := trace + [s], found + [f];
    forall i | 0 <= i < |g|
      ensures TypeTurnAt(t, g, i)
    {
      if i < |found| {
        assert TypeTurnAt(trace, found, i);
        assert t[i] == trace[i] && t[i + 1] == trace[i + 1] && g[i] == found[i];
      }
    }
  }

  /** Up to its own turn, a query nothing has processed is still the query it was in qs. */
  lemma {:induction false} TypeTraceUntouched(qs: seq<QueryResult>, trace: seq<PairState>, found: seq<Option<nat>>, k: nat, i: nat)
    requires TypeTrace(qs, trace, found) && i <= k < |qs| && i <= |found| && k !in trace[i].processed
    ensures |trace[i].r| == |qs| && trace[i].r[k] == qs[k]
    decreases i
  {
    if i > 0 {
      assert TypeTurnAt(trace, found, i - 1);
      TypeTraceUntouched(qs, trace, found, k, i - 1);
    }
  }

  /** Once processed, a query keeps what its turn left in it until the end. */
  lemma {:induction false} TypeTraceKept(qs: seq<QueryResult>, trace: seq<PairState>, found: seq<Option<nat>>, k: nat, i: nat)
    requires TypeTrace(qs, trace, found) && k < i <= |found| && k < |trace[k + 1].r| && k in trace[k + 1].processed
    ensures |trace[i].r| == |trace[k + 1].r| && k in trace[i].processed && trace[i].r[k] == trace[k + 1].r[k]
    decreases i
  {
    if i > k + 1 {
      TypeTraceKept(qs, trace, found, k, i - 1);
      assert TypeTurnAt(trace, found, i - 1);
    }
  }

  /**
   * What mergeQueriesOnType's first loop leaves at a position merged on its
   * own turn: the merge of the original query with its partner as that
   * partner stood at the time, the first unprocessed one of its workload.
   */
  lemma TypeTraceMerged(qs: seq<QueryResult>, trace: seq<PairState>, found: seq<Option<nat>>, k: nat)
    requires TypeTrace(qs, trace, found) && |found| == |qs| && k < |qs| && found[k].Some?
    ensures |trace[k].r| == |qs| && found[k].value < |qs| && TypePartner(trace[k].r, trace[k].processed, k, found[k].value)
    ensures |trace[|qs|].r| == |qs| && MergedOnType(trace[|qs|].r[k], qs[k], trace[k].r[found[k].value])
  {
    assert TypeTurnAt(trace, found, k);
    TypeTraceUntouched(qs, trace, found, k, k);
    TypeTraceKept(qs, trace, found, k, |qs|);
  }

  /** mergeQueriesOnType's second loop: the tables of type 'both', in order. */
  method KeepKindBoth(qs: seq<QueryResult>) returns (kept: seq<QueryResult>)
    ensures kept == OfKindBoth(qs)
  {
    kept := [];
    var n := 0;
    while n < |qs|
      invariant n <= |qs|
      invariant kept == OfKindBoth(qs[..n])
    {
      assert qs[..n + 1][..n] == qs[..n];
      if qs[n].kind == Both {
        kept := kept + [qs[n]];
      }
      n := n + 1;
    }
    assert qs[..n] == qs;
  }

  /** mergeQueriesOnResult's first loop: PairOnType with the roles of result and type swapped. */
  method PairOnResult(qs: seq<QueryResult>)
    returns (r: seq<QueryResult>, ghost partner: seq<nat>, ghost trace: seq<PairState>, ghost found: seq<Option<nat>>)
    ensures |r| == |qs|
    ensures forall m :: 0 <= m < |qs| ==> ResultKey(r[m]) == ResultKey(qs[m])
    ensures |partner| == |qs| && forall m :: 0 <= m < |qs| ==> partner[m] < |r| && r[partner[m]].result == Either && ResultKey(r[partner[m]]) == ResultKey(qs[m])
    ensures forall m :: 0 <= m < |qs| && ResultAlone(qs, m) ==> r[m] == qs[m].(result := Either)
    ensures ResultTrace(qs, trace, found) && |found| == |qs| && trace[|qs|].r == r
  {
    r := qs;
    ghost var pairs: map<nat, nat> := map[];
    var processed: set<nat> := {};
    trace, found := [PairState(qs, {})], [];
    var k := 0;
    while k < |r|
      invariant PairingOnResult(qs, r, processed, pairs, k)
      invariant ResultTrace(qs, trace, found) && |found| == k && trace[k] == PairState(r, processed)
    {
      r, processed, pairs, trace, found := PairResultStep(qs, r, processed, pairs, k, trace, found);
      k := k + 1;
    }
    partner := PairedOnResult(qs, r, processed, pairs);
  }

  /** When PairOnResult's loop ends, each table's partner is the one its entry in `pairs` names. */
  lemma PairedOnResult(qs: seq<QueryResult>, r: seq<QueryResult>, processed: set<nat>, pairs: map<nat, nat>)
    returns (partner: seq<nat>)
    requires PairingOnResult(qs, r, processed, pairs, |r|)
    ensures |r| == |qs|
    ensures forall m :: 0 <= m < |qs| ==> ResultKey(r[m]) == ResultKey(qs[m])
    ensures |partner| == |qs| && forall m :: 0 <= m < |qs| ==> partner[m] < |r| && r[partner[m]].result == Either && ResultKey(r[partner[m]]) == ResultKey(qs[m])
    ensures forall m :: 0 <= m < |qs| && ResultAlone(qs, m) ==> r[m] == qs[m].(result := Either)
  {
    partner := seq(|qs|, m requires 0 <= m < |qs| && m in pairs => pairs[m]);
  }

  /** The invariant of PairOnResult's loop after k turns; `pairs` maps each handled table to the one that now holds its workload. */
  ghost predicate PairingOnResult(qs: seq<QueryResult>, r: seq<QueryResult>, processed: set<nat>, pairs: map<nat, nat>, k: nat)
  {
    k <= |r| && |r| == |qs| &&
    (forall m :: 0 <= m < |r| ==> ResultKey(r[m]) == ResultKey(qs[m])) &&
    (forall m :: m in pairs ==> m < |r| && pairs[m] < k && r[pairs[m]].result == Either && ResultKey(r[pairs[m]]) == ResultKey(r[m])) &&
    (forall m :: 0 <= m < k ==> m in pairs) &&
    (forall m :: m in processed ==> m in pairs) &&
    (forall m :: 0 <= m < |r| && ResultAlone(qs, m) ==>
       m !in processed && r[m] == if m < k then qs[m].(result := Either) else qs[m])
  }

  /** One turn of PairOnResult's loop: table k, unless already processed, is merged with its partner or relabelled. */
  method PairResultStep(qs: seq<QueryResult>, r: seq<QueryResult>, processed: set<nat>, ghost pairs: map<nat, nat>, k: nat,
                      ghost trace: seq<PairState>, ghost found: seq<Option<nat>>)
    returns (r': seq<QueryResult>, processed': set<nat>, ghost pairs': map<nat, nat>,
             ghost trace': seq<PairState>, ghost found': seq<Option<nat>>)
    requires PairingOnResult(qs, r, processed, pairs, k) && k < |r|
    requires ResultTrace(qs, trace, found) && |found| == k && trace[k] == PairState(r, processed)
    ensures PairingOnResult(qs, r', processed', pairs', k + 1)
    ensures ResultTrace(qs, trace', found') && |found'| == k + 1 && trace'[k + 1] == PairState(r', processed')
  {
    ghost var f := None;
    r', processed', pairs' := r, processed, pairs;
    if k !in processed {
      var j := FindResultPartner(r, processed, k);
      if j.Some? {
        var merged, other := MergeOnResult(r[k], r[j.value]);
        pairs' := PairResultMerged(qs, r, processed, pairs, k, j.value, merged, other);
        r' := r[k := merged][j.value := other];
        processed' := processed + {k, j.value};
        f := j;
      } else {
        pairs' := PairResultRelabelled(qs, r, processed, pairs, k);
        r' := r[k := r[k].(result := Either)];
      }
    }
    ResultTraceSnoc(qs, trace, found, f, PairState(r, processed), PairState(r', processed'));
    trace', found' := trace + [PairState(r', processed')], found + [f];
  }

  /** Merging table k with an unprocessed partner j of the same workload keeps the loop invariant. */
  lemma PairResultMerged(qs: seq<QueryResult>, r: seq<QueryResult>, processed: set<nat>, pairs: map<nat, nat>, k: nat, j: nat, x: QueryResult, y: QueryResult)
    returns (pairs': map<nat, nat>)
    requires PairingOnResult(qs, r, processed, pairs, k) && k < |r| && k !in processed
    requires j < |r| && j != k && j !in processed && ResultKey(r[j]) == ResultKey(r[k])
    requires ResultKey(x) == ResultKey(r[k]) && x.result == Either
    requires ResultKey(y) == ResultKey(r[j]) && y.result == r[j].result
    ensures PairingOnResult(qs, r[k := x][j := y], processed + {k, j}, pairs', k + 1)
  {
    pairs' := Handled(Handled(pairs, k, k), j, k);
    var r', processed' := r[k := x][j := y], processed + {k, j};
    assert !ResultAlone(qs, k) && !ResultAlone(qs, j) by {
      assert ResultKey(qs[j]) == ResultKey(qs[k]);
    }
    forall m | 0 <= m < |r'|
      ensures ResultKey(r'[m]) == ResultKey(qs[m])
    {
    }
    PairResultMergedPairs(qs, r, processed, pairs, k, j, x, y);
    forall m | 0 <= m < |r'| && ResultAlone(qs, m)
      ensures m !in processed' && r'[m] == if m < k + 1 then qs[m].(result := Either) else qs[m]
    {
      assert m != k && m != j;
    }
  }

  /** After the merge, every handled table points at a table of its workload that is done. */
  lemma PairResultMergedPairs(qs: seq<QueryResult>, r: seq<QueryResult>, processed: set<nat>, pairs: map<nat, nat>, k: nat, j: nat, x: QueryResult, y: QueryResult)
    requires PairingOnResult(qs, r, processed, pairs, k) && k < |r| && k !in processed
    requires j < |r| && j != k && j !in processed && ResultKey(r[j]) == ResultKey(r[k])
    requires ResultKey(x) == ResultKey(r[k]) && x.result == Either
    requires ResultKey(y) == ResultKey(r[j]) && y.result == r[j].result
    ensures var pairs', r' := Handled(Handled(pairs, k, k), j, k), r[k := x][j := y];
      forall m :: m in pairs' ==> m < |r'| && pairs'[m] < k + 1 && r'[pairs'[m]].result == Either && ResultKey(r'[pairs'[m]]) == ResultKey(r'[m])
  {
    var pairs', r' := Handled(Handled(pairs, k, k), j, k), r[k := x][j := y];
    forall m | m in pairs'
      ensures m < |r'| && pairs'[m] < k + 1 && r'[pairs'[m]].result == Either && ResultKey(r'[pairs'[m]]) == ResultKey(r'[m])
    {
      if m != k && m != j {
        var h := pairs[m];
        assert pairs'[m] == h && h != k && r'[m] == r[m];
        if h == j {
          assert r'[h] == y;
        } else {
          assert r'[h] == r[h];
        }
      }
    }
  }

  /** Relabelling an unprocessed table k that has no partner keeps the loop invariant. */
  lemma PairResultRelabelled(qs: seq<QueryResult>, r: seq<QueryResult>, processed: set<nat>, pairs: map<nat, nat>, k: nat)
    returns (pairs': map<nat, nat>)
    requires PairingOnResult(qs, r, processed, pairs, k) && k < |r| && k !in processed
    ensures PairingOnResult(qs, r[k := r[k].(result := Either)], processed, pairs', k + 1)
  {
    pairs' := Handled(pairs, k, k);
  }

  /**
   * Turn k of mergeQueriesOnResult's first loop, from state s to s': a
   * processed query is skipped; any other is merged with its first partner
   * `found`, which the merge reweighs in place, or relabelled 'none' when
   * it has none. Nothing else changes.
   */
  ghost predicate ResultTurn(s: PairState, k: nat, found: Option<nat>, s': PairState)
  {
    k < |s.r| && |s'.r| == |s.r| &&
    if k in s.processed then found.None? && s' == s
    else match found
      case None =>
        (forall j :: 0 <= j < |s.r| ==> !ResultPartner(s.r, s.processed, k, j)) &&
        s' == PairState(s.r[k := s.r[k].(result := Either)], s.processed)
      case Some(j) =>
        j < |s.r| && j != k && ResultPartner(s.r, s.processed, k, j) &&
        (forall m :: 0 <= m < j ==> !ResultPartner(s.r, s.processed, k, m)) &&
        s'.processed == s.processed + {k, j} &&
        MergedOnResult(s'.r[k], s.r[k], s.r[j]) && PartnerWeighted(s'.r[j], s.r[k], s.r[j]) &&
        (forall m :: 0 <= m < |s.r| && m != k && m != j ==> s'.r[m] == s.r[m])
  }

  /** The first |found| turns of mergeQueriesOnResult's first loop on qs, with the partner found on each. */
  ghost predicate ResultTrace(qs: seq<QueryResult>, trace: seq<PairState>, found: seq<Option<nat>>)
  {
    |trace| == |found| + 1 && trace[0] == PairState(qs, {}) &&
    forall i :: 0 <= i < |found| ==> ResultTurnAt(trace, found, i)
  }

  /** Turn i of a trace of mergeQueriesOnResult's first loop. */
  ghost predicate ResultTurnAt(trace: seq<PairState>, found: seq<Option<nat>>, i: nat)
  {
    i < |found| && |trace| == |found| + 1 && ResultTurn(trace[i], i, found[i], trace[i + 1])
  }

  /** A trace extended by one more turn. */
  lemma ResultTraceSnoc(qs: seq<QueryResult>, trace: seq<PairState>, found: seq<Option<nat>>, f: Option<nat>, last: PairState, s: PairState)
    requires ResultTrace(qs, trace, found) && trace[|found|] == last && ResultTurn(last, |found|, f, s)
    ensures ResultTrace(qs, trace + [s], found + [f]) && (trace + [s])[|found| + 1] == s
  {
    var t, g := trace + [s], found + [f];
    forall i | 0 <= i < |g|
      ensures ResultTurnAt(t, g, i)
    {
      if i < |found| {
        assert ResultTurnAt(trace, found, i);
        assert t[i] == trace[i] && t[i + 1] == trace[i + 1] && g[i] == found[i];
      }
    }
  }

  /** Up to its own turn, a query nothing has processed is still the query it was in qs. */
  lemma {:induction false} ResultTraceUntouched(qs: seq<QueryResult>, trace: seq<PairState>, found: seq<Option<nat>>, k: nat, i: nat)
    requires ResultTrace(qs, trace, found) && i <= k < |qs| && i <= |found| && k !in trace[i].processed
    ensures |trace[i].r| == |qs| && trace[i].r[k] == qs[k]
    decreases i
  {
    if i > 0 {
      assert ResultTurnAt(trace, found, i - 1);
      ResultTraceUntouched(qs, trace, found, k, i - 1);
    }
  }

  /** Once processed, a query keeps what its turn left in it until the end. */
  lemma {:induction false} ResultTraceKept(qs: seq<QueryResult>, trace: seq<PairState>, found: seq<Option<nat>>, k: nat, i: nat)
    requires ResultTrace(qs, trace, found) && k < i <= |found| && k < |trace[k + 1].r| && k in trace[k + 1].processed
    ensures |trace[i].r| == |trace[k + 1].r| && k in trace[i].processed && trace[i].r[k] == trace[k + 1].r[k]
    decreases i
  {
    if i > k + 1 {
      ResultTraceKept(qs, trace, found, k, i - 1);
      assert ResultTurnAt(trace, found, i - 1);
    }
  }

  /**
   * What mergeQueriesOnResult's first loop leaves at a position merged on its
   * own turn: the merge of the original query with its partner as that
   * partner stood at the time, the first unprocessed one of its workload.
   */
  lemma ResultTraceMerged(qs: seq<QueryResult>, trace: seq<PairState>, found: seq<Option<nat>>, k: nat)
    requires ResultTrace(qs, trace, found) && |found| == |qs| && k < |qs| && found[k].Some?
    ensures |trace[k].r| == |qs| && found[k].value < |qs| && ResultPartner(trace[k].r, trace[k].processed, k, found[k].value)
    ensures |trace[|qs|].r| == |qs| && MergedOnResult(trace[|qs|].r[k], qs[k], trace[k].r[found[k].value])
  {
    assert ResultTurnAt(trace, found, k);
    ResultTraceUntouched(qs, trace, found, k, k);
    ResultTraceKept(qs, trace, found, k, |qs|);
  }

  /** mergeQueriesOnResult's second loop: the tables of result 'none', in order. */
  method KeepResultEither(qs: seq<QueryResult>) returns (kept: seq<QueryResult>)
    ensures kept == OfResultEither(qs)
  {
    kept := [];
    var n := 0;
    while n < |qs|
      invariant n <= |qs|
      invariant kept == OfResultEither(qs[..n])
    {
      assert qs[..n + 1][..n] == qs[..n];
      if qs[n].result == Either {
        kept := kept + [qs[n]];
      }
      n := n + 1;
    }
    assert qs[..n] == qs;
  }

  /** A position at which an element of a sequence sits. */
  lemma PositionOf<T>(s: seq<T>, x: T) returns (i: nat)
    requires x in s
    ensures i < |s| && s[i] == x
  {
    i :| 0 <= i < |s| && s[i] == x;
  }

  /** Every label-and-result workload of the list is held by a kept table. */
  lemma KeptTypeKeysCover(qs: seq<QueryResult>, r: seq<QueryResult>, partner: seq<nat>)
    requires |partner| == |qs| && forall m :: 0 <= m < |qs| ==> partner[m] < |r| && r[partner[m]].kind == Both && TypeKey(r[partner[m]]) == TypeKey(qs[m])
    ensures TypeKeys(qs) <= TypeKeys(OfKindBoth(r))
  {
    forall key | key in TypeKeys(qs)
      ensures key in TypeKeys(OfKindBoth(r))
    {
      var m :| 0 <= m < |qs| && TypeKey(qs[m]) == key;
      OfKindBothKeeps(r, partner[m]);
      var p := PositionOf(OfKindBoth(r), r[partner[m]]);
    }
  }

  /** Every kept table holds a label-and-result workload of the list. */
  lemma KeptTypeKeysSound(qs: seq<QueryResult>, r: seq<QueryResult>)
    requires |r| == |qs|
    requires forall m :: 0 <= m < |qs| ==> TypeKey(r[m]) == TypeKey(qs[m])
    ensures TypeKeys(OfKindBoth(r)) <= TypeKeys(qs)
  {
    forall key | key in TypeKeys(OfKindBoth(r))
      ensures key in TypeKeys(qs)
    {
      var i :| 0 <= i < |OfKindBoth(r)| && TypeKey(OfKindBoth(r)[i]) == key;
      OfKindBothFrom(r, OfKindBoth(r)[i]);
      var m := PositionOf(r, OfKindBoth(r)[i]);
    }
  }

  /** After pairing and keeping the tables of type 'both', the label-and-result workloads are those of before. */
  lemma KeptTypeKeys(qs: seq<QueryResult>, r: seq<QueryResult>, partner: seq<nat>)
    requires |r| == |qs|
    requires forall m :: 0 <= m < |qs| ==> TypeKey(r[m]) == TypeKey(qs[m])
    requires |partner| == |qs| && forall m :: 0 <= m < |qs| ==> partner[m] < |r| && r[partner[m]].kind == Both && TypeKey(r[partner[m]]) == TypeKey(qs[m])
    ensures TypeKeys(OfKindBoth(r)) == TypeKeys(qs)
  {
    KeptTypeKeysCover(qs, r, partner);
    KeptTypeKeysSound(qs, r);
  }

  /** Every label-and-type workload of the list is held by a kept table. */
  lemma KeptResultKeysCover(qs: seq<QueryResult>, r: seq<QueryResult>, partner: seq<nat>)
    requires |partner| == |qs| && forall m :: 0 <= m < |qs| ==> partner[m] < |r| && r[partner[m]].result == Either && ResultKey(r[partner[m]]) == ResultKey(qs[m])
    ensures ResultKeys(qs) <= ResultKeys(OfResultEither(r))
  {
    forall key | key in ResultKeys(qs)
      ensures key in ResultKeys(OfResultEither(r))
    {
      var m :| 0 <= m < |qs| && ResultKey(qs[m]) == key;
      OfResultEitherKeeps(r, partner[m]);
      var p := PositionOf(OfResultEither(r), r[partner[m]]);
    }
  }

  /** Every kept table holds a label-and-type workload of the list. */
  lemma KeptResultKeysSound(qs: seq<QueryResult>, r: seq<QueryResult>)
    requires |r| == |qs|
    requires forall m :: 0 <= m < |qs| ==> ResultKey(r[m]) == ResultKey(qs[m])
    ensures ResultKeys(OfResultEither(r)) <= ResultKeys(qs)
  {
    forall key | key in ResultKeys(OfResultEither(r))
      ensures key in ResultKeys(qs)
    {
      var i :| 0 <= i < |OfResultEither(r)| && ResultKey(OfResultEither(r)[i]) == key;
      OfResultEitherFrom(r, OfResultEither(r)[i]);
      var m := PositionOf(r, OfResultEither(r)[i]);
    }
  }

  /** After pairing and keeping the tables of result 'none', the label-and-type workloads are those of before. */
  lemma KeptResultKeys(qs: seq<QueryResult>, r: seq<QueryResult>, partner: seq<nat>)
    requires |r| == |qs|
    requires forall m :: 0 <= m < |qs| ==> ResultKey(r[m]) == ResultKey(qs[m])
    requires |partner| == |qs| && forall m :: 0 <= m < |qs| ==> partner[m] < |r| && r[partner[m]].result == Either && ResultKey(r[partner[m]]) == ResultKey(qs[m])
    ensures ResultKeys(OfResultEither(r)) == ResultKeys(qs)
  {
    KeptResultKeysCover(qs, r, partner);
    KeptResultKeysSound(qs, r);
  }

  /** What mergeQueriesOnType leaves: the paired tables of type 'both', covering the same workloads. */
  lemma KeptOnType(qs: seq<QueryResult>, r: seq<QueryResult>, partner: seq<nat>)
    requires |r| == |qs|
    requires forall m :: 0 <= m < |qs| ==> TypeKey(r[m]) == TypeKey(qs[m])
    requires |partner| == |qs| && forall m :: 0 <= m < |qs| ==> partner[m] < |r| && r[partner[m]].kind == Both && TypeKey(r[partner[m]]) == TypeKey(qs[m])
    requires forall m :: 0 <= m < |qs| && TypeAlone(qs, m) ==> r[m] == qs[m].(kind := Both)
    ensures forall q :: q in OfKindBoth(r) ==> q.kind == Both
    ensures |OfKindBoth(r)| <= |qs|
    ensures TypeKeys(OfKindBoth(r)) == TypeKeys(qs)
    ensures forall m :: 0 <= m < |qs| && TypeAlone(qs, m) ==> qs[m].(kind := Both) in OfKindBoth(r)
  {
    KeptTypeKeys(qs, r, partner);
    forall m | 0 <= m < |qs| && TypeAlone(qs, m)
      ensures qs[m].(kind := Both) in OfKindBoth(r)
    {
      OfKindBothKeeps(r, m);
    }
    forall q | q in OfKindBoth(r)
      ensures q.kind == Both
    {
      OfKindBothFrom(r, q);
    }
  }

  /** What mergeQueriesOnResult leaves: the paired tables of result 'none', covering the same workloads. */
  lemma KeptOnResult(qs: seq<QueryResult>, r: seq<QueryResult>, partner: seq<nat>)
    requires |r| == |qs|
    requires forall m :: 0 <= m < |qs| ==> ResultKey(r[m]) == ResultKey(qs[m])
    requires |partner| == |qs| && forall m :: 0 <= m < |qs| ==> partner[m] < |r| && r[partner[m]].result == Either && ResultKey(r[partner[m]]) == ResultKey(qs[m])
    requires forall m :: 0 <= m < |qs| && ResultAlone(qs, m) ==> r[m] == qs[m].(result := Either)
    ensures forall q :: q in OfResultEither(r) ==> q.result == Either
    ensures |OfResultEither(r)| <= |qs|
    ensures ResultKeys(OfResultEither(r)) == ResultKeys(qs)
    ensures forall m :: 0 <= m < |qs| && ResultAlone(qs, m) ==> qs[m].(result := Either) in OfResultEither(r)
  {
    KeptResultKeys(qs, r, partner);
    forall m | 0 <= m < |qs| && ResultAlone(qs, m)
      ensures qs[m].(result := Either) in OfResultEither(r)
    {
      OfResultEitherKeeps(r, m);
    }
    forall q | q in OfResultEither(r)
      ensures q.result == Either
    {
      OfResultEitherFrom(r, q);
    }
  }

  // ---------------------------------------------------------------------
  // mergeQueriesOnSmallMedLarge
  // ---------------------------------------------------------------------

  /** Python's order on str values: code point by code point, a proper prefix first. */
  predicate StringLe(a: string, b: string)
  {
    |a| == 0 || (|b| > 0 && (a[0] < b[0] || (a[0] == b[0] && StringLe(a[1..], b[1..]))))
  }

  lemma {:induction false} StringLeTotal(a: string, b: string)
    ensures StringLe(a, b) || StringLe(b, a)
  {
    if |a| > 0 && |b| > 0 && a[0] == b[0] {
      StringLeTotal(a[1..], b[1..]);
    }
  }

  lemma {:induction false} StringLeTransitive(a: string, b: string, c: string)
    requires StringLe(a, b) && StringLe(b, c)
    ensures StringLe(a, c)
  {
    if |a| > 0 && |b| > 0 && |c| > 0 && a[0] == b[0] && b[0] == c[0] {
      StringLeTransitive(a[1..], b[1..], c[1..]);
    }
  }

  /**
   * The sort key `label`: label counts by value, bucket names as strings.
   * Python cannot compare a count with a name; here counts come first.
   */
  predicate LabelLe(a: Label, b: Label)
  {
    match (a, b)
    case (Labels(x), Labels(y)) => x <= y
    case (Bucket(x), Bucket(y)) => StringLe(x, y)
    case (Labels(_), Bucket(_)) => true
    case (Bucket(_), Labels(_)) => false
  }

  /** `category.sort(key=lambda x: x.label)`'s comparison. */
  predicate ByLabel(x: QueryResult, y: QueryResult)
  {
    LabelLe(x.queryLabel, y.queryLabel)
  }

  lemma ByLabelTotalPreorder()
    ensures Sorting.TotalPreorder(ByLabel)
  {
    forall x: QueryResult, y: QueryResult
      ensures ByLabel(x, y) || ByLabel(y, x)
    {
      if x.queryLabel.Bucket? && y.queryLabel.Bucket? {
        StringLeTotal(x.queryLabel.name, y.queryLabel.name);
      }
    }
    forall x: QueryResult, y: QueryResult, z: QueryResult | ByLabel(x, y) && ByLabel(y, z)
      ensures ByLabel(x, z)
    {
      if x.queryLabel.Bucket? && y.queryLabel.Bucket? && z.queryLabel.Bucket? {
        StringLeTransitive(x.queryLabel.name, y.queryLabel.name, z.queryLabel.name);
      }
    }
  }

  /** The category a query table falls in: the key str(result) + '.' + str(type), which determines both. */
  function CategoryKey(q: QueryResult): (Outcome, Kind)
  {
    (q.result, q.kind)
  }

  /** The tables of one category, in list order. */
  function Category(qs: seq<QueryResult>, key: (Outcome, Kind)): (r: seq<QueryResult>)
    ensures forall m :: 0 <= m < |r| ==> CategoryKey(r[m]) == key
    ensures forall m :: 0 <= m < |qs| && CategoryKey(qs[m]) == key ==> qs[m] in r
    ensures (forall m :: 0 <= m < |qs| ==> CategoryKey(qs[m]) != key) ==> r == []
  {
    if |qs| == 0 then []
    else
      var front := Category(qs[..|qs| - 1], key);
      assert forall m :: 0 <= m < |qs| - 1 ==> qs[..|qs| - 1][m] == qs[m];
      if CategoryKey(qs[|qs| - 1]) == key then front + [qs[|qs| - 1]] else front
  }

  /** The categories' keys in the order the dictionary first meets them. */
  function CategoryKeys(qs: seq<QueryResult>): (r: seq<(Outcome, Kind)>)
    ensures Sorting.NoDuplicates(r)
    ensures forall m :: 0 <= m < |qs| ==> CategoryKey(qs[m]) in r
    ensures forall c :: 0 <= c < |r| ==> |Category(qs, r[c])| > 0
  {
    if |qs| == 0 then []
    else
      var front := CategoryKeys(qs[..|qs| - 1]);
      var key := CategoryKey(qs[|qs| - 1]);
      assert forall m :: 0 <= m < |qs| - 1 ==> qs[..|qs| - 1][m] == qs[m];
      if key in front then front else front + [key]
  }

  /** `key not in categories`: the position of key among the keys, or |keys| when it is absent. */
  method FindKey(keys: seq<(Outcome, Kind)>, key: (Outcome, Kind)) returns (c: nat)
    ensures c <= |keys| && (c < |keys| ==> keys[c] == key)
    ensures forall d :: 0 <= d < c ==> keys[d] != key
  {
    c := 0;
    while c < |keys| && keys[c] != key
      invariant c <= |keys| && forall d :: 0 <= d < c ==> keys[d] != key
    {
      c := c + 1;
    }
  }

  /**
   * mergeQueriesOnSmallMedLarge's first loop: each table is appended to
   * the list of its category, a new category opening a new list.
   */
  method GroupByCategory(qs: seq<QueryResult>) returns (keys: seq<(Outcome, Kind)>, groups: seq<seq<QueryResult>>)
    ensures keys == CategoryKeys(qs) && groups == Categories(qs)
  {
    keys, groups := [], [];
    var n := 0;
    while n < |qs|
      invariant n <= |qs| && Grouped(qs[..n], keys, groups)
    {
      var key := CategoryKey(qs[n]);
      var c := FindKey(keys, key);
      GroupedNext(qs, n, keys, groups, c);
      if c < |keys| {
        groups := groups[c := groups[c] + [qs[n]]];
      } else {
        keys := keys + [key];
        groups := groups + [[qs[n]]];
      }
      n := n + 1;
    }
    GroupedAll(qs, n, keys, groups);
  }

  /** GroupedStep at table n of the whole list. */
  lemma GroupedNext(qs: seq<QueryResult>, n: nat, keys: seq<(Outcome, Kind)>, groups: seq<seq<QueryResult>>, c: nat)
    requires n < |qs| && Grouped(qs[..n], keys, groups) && c <= |keys|
    requires c < |keys| ==> keys[c] == CategoryKey(qs[n])
    requires forall d :: 0 <= d < c ==> keys[d] != CategoryKey(qs[n])
    ensures if c < |keys| then Grouped(qs[..n + 1], keys, groups[c := groups[c] + [qs[n]]])
            else Grouped(qs[..n + 1], keys + [CategoryKey(qs[n])], groups + [[qs[n]]])
  {
    assert qs[..n + 1][..n] == qs[..n] && qs[..n + 1][n] == qs[n];
    GroupedStep(qs[..n + 1], keys, groups, c);
  }

  /** Once every table is grouped, the keys and lists are the categories'. */
  lemma GroupedAll(qs: seq<QueryResult>, n: nat, keys: seq<(Outcome, Kind)>, groups: seq<seq<QueryResult>>)
    requires n == |qs| && Grouped(qs[..n], keys, groups)
    ensures keys == CategoryKeys(qs) && groups == Categories(qs)
  {
    assert qs[..n] == qs;
    forall c | 0 <= c < |groups|
      ensures groups[c] == Categories(qs)[c]
    {
    }
  }

  /** GroupByCategory's loop invariant: the keys and lists built from the tables seen. */
  ghost predicate Grouped(qs: seq<QueryResult>, keys: seq<(Outcome, Kind)>, groups: seq<seq<QueryResult>>)
  {
    keys == CategoryKeys(qs) && |groups| == |keys| &&
    forall c :: 0 <= c < |keys| ==> groups[c] == Category(qs, keys[c])
  }

  /** One more table goes to the list of its key, found at c or, when c is past the end, a new one. */
  lemma GroupedStep(qs: seq<QueryResult>, keys: seq<(Outcome, Kind)>, groups: seq<seq<QueryResult>>, c: nat)
    requires |qs| > 0 && Grouped(qs[..|qs| - 1], keys, groups) && c <= |keys|
    requires c < |keys| ==> keys[c] == CategoryKey(qs[|qs| - 1])
    requires forall d :: 0 <= d < c ==> keys[d] != CategoryKey(qs[|qs| - 1])
    ensures var q := qs[|qs| - 1];
            if c < |keys| then Grouped(qs, keys, groups[c := groups[c] + [q]])
            else Grouped(qs, keys + [CategoryKey(q)], groups + [[q]])
  {
    if c < |keys| {
      GroupedOld(qs, keys, groups, c);
    } else {
      GroupedNew(qs, keys, groups);
    }
  }

  /** A table of a key met before joins that key's list. */
  lemma GroupedOld(qs: seq<QueryResult>, keys: seq<(Outcome, Kind)>, groups: seq<seq<QueryResult>>, c: nat)
    requires |qs| > 0 && Grouped(qs[..|qs| - 1], keys, groups) && c < |keys|
    requires keys[c] == CategoryKey(qs[|qs| - 1])
    ensures Grouped(qs, keys, groups[c := groups[c] + [qs[|qs| - 1]]])
  {
    var q, front := qs[|qs| - 1], qs[..|qs| - 1];
    assert CategoryKeys(qs) == keys;
    forall d | 0 <= d < |keys|
      ensures groups[c := groups[c] + [q]][d] == Category(qs, keys[d])
    {
      assert Category(qs, keys[d]) == if keys[d] == CategoryKey(q) then Category(front, keys[d]) + [q] else Category(front, keys[d]);
      if d != c {
        assert keys[d] != keys[c];
      }
    }
  }

  /** A table of a new key starts a list of its own. */
  lemma GroupedNew(qs: seq<QueryResult>, keys: seq<(Outcome, Kind)>, groups: seq<seq<QueryResult>>)
    requires |qs| > 0 && Grouped(qs[..|qs| - 1], keys, groups)
    requires forall d :: 0 <= d < |keys| ==> keys[d] != CategoryKey(qs[|qs| - 1])
    ensures Grouped(qs, keys + [CategoryKey(qs[|qs| - 1])], groups + [[qs[|qs| - 1]]])
  {
    var q, front := qs[|qs| - 1], qs[..|qs| - 1];
    assert CategoryKey(q) !in keys;
    assert Category(front, CategoryKey(q)) == [];
    forall d | 0 <= d < |keys|
      ensures Category(qs, keys[d]) == Category(front, keys[d])
    {
    }
  }

  /** Bucket b's name: 'small', 'medium', 'large'. */
  function BucketName(b: nat): string
  {
    if b == 0 then "small" else if b == 1 then "medium" else "large"
  }

  /** The three bucket tables once mergeForCategory has run for each of the graphs in turn. */
  function BucketsAfter(dfs: seq<Table>, sorted: seq<QueryResult>, graphs: seq<string>): (r: seq<Table>)
    requires |dfs| == 3
    ensures |r| == 3
  {
    if |graphs| == 0 then dfs
    else
      var d := BucketsAfter(dfs, sorted, graphs[..|graphs| - 1]);
      var g := graphs[|graphs| - 1];
      [Bucket(d, sorted, g, 0), Bucket(d, sorted, g, 1), Bucket(d, sorted, g, 2)]
  }

  /**
   * What one category becomes: its tables in label order, the first three
   * renamed 'small', 'medium', 'large' and given the bucket tables. With
   * fewer than three tables Python stops with an IndexError after
   * appending those it has.
   */
  function SmallMedLargeOf(category: seq<QueryResult>, graphs: seq<string>): (r: seq<QueryResult>)
    requires |category| > 0
    ensures |r| == if |category| < 3 then |category| else 3
  {
    var sorted := Sorting.Sort(category, ByLabel);
    var first := category[0].frame;
    var dfs := BucketsAfter([first, first, first], sorted, graphs);
    var n := if |sorted| < 3 then |sorted| else 3;
    seq(n, b requires 0 <= b < n => sorted[b].(queryLabel := Label.Bucket(BucketName(b)), frame := dfs[b]))
  }

  /** The categories' lists of tables, in the order of their keys. */
  function Categories(qs: seq<QueryResult>): (r: seq<seq<QueryResult>>)
    ensures |r| == |CategoryKeys(qs)|
    ensures forall c :: 0 <= c < |r| ==> |r[c]| > 0
    ensures forall c, m :: 0 <= c < |r| && 0 <= m < |r[c]| ==> CategoryKey(r[c][m]) == CategoryKeys(qs)[c]
  {
    var keys := CategoryKeys(qs);
    seq(|keys|, c requires 0 <= c < |keys| => Category(qs, keys[c]))
  }

  /** The categories' results in turn, stopping after the first category with fewer than three tables. */
  function Regrouped(groups: seq<seq<QueryResult>>, graphs: seq<string>): seq<QueryResult>
    requires forall c :: 0 <= c < |groups| ==> |groups[c]| > 0
  {
    Joined(Parts(groups, graphs))
  }

  /** Each category's result, in the order of the categories. */
  function Parts(groups: seq<seq<QueryResult>>, graphs: seq<string>): (r: seq<seq<QueryResult>>)
    requires forall c :: 0 <= c < |groups| ==> |groups[c]| > 0
    ensures |r| == |groups|
  {
    seq(|groups|, c requires 0 <= c < |groups| => SmallMedLargeOf(groups[c], graphs))
  }

  /** The parts one after the other, stopping after the first with fewer than three tables. */
  function Joined(parts: seq<seq<QueryResult>>): seq<QueryResult>
  {
    if |parts| == 0 then []
    else if |parts[0]| < 3 then parts[0]
    else parts[0] + Joined(parts[1..])
  }

  /** Joining from part c: that part, then the rest unless the part is short. */
  lemma JoinedAt(parts: seq<seq<QueryResult>>, c: nat)
    requires c < |parts|
    ensures Joined(parts[c..]) == if |parts[c]| < 3 then parts[c] else parts[c] + Joined(parts[c + 1..])
  {
    assert parts[c..][0] == parts[c] && parts[c..][1..] == parts[c + 1..];
  }

  /** Joining from part c, after the tables r already joined, when part c has three or more tables. */
  lemma JoinedStep(parts: seq<seq<QueryResult>>, c: nat, r: seq<QueryResult>)
    requires c < |parts| && |parts[c]| >= 3
    ensures r + Joined(parts[c..]) == (r + parts[c]) + Joined(parts[c + 1..])
  {
    JoinedAt(parts, c);
    assert r + (parts[c] + Joined(parts[c + 1..])) == (r + parts[c]) + Joined(parts[c + 1..]);
  }

  /** Parts of three tables each join into three tables per part, in order. */
  lemma {:induction false} JoinedShape(parts: seq<seq<QueryResult>>)
    requires forall c :: 0 <= c < |parts| ==> |parts[c]| == 3
    ensures |Joined(parts)| == 3 * |parts|
    ensures forall k :: 0 <= k < |Joined(parts)| ==> Joined(parts)[k] == parts[k / 3][k % 3]
  {
    if |parts| > 0 {
      JoinedShape(parts[1..]);
      var rest := Joined(parts[1..]);
      assert Joined(parts) == parts[0] + rest;
      forall k | 0 <= k < |Joined(parts)|
        ensures Joined(parts)[k] == parts[k / 3][k % 3]
      {
        if k >= 3 {
          assert Joined(parts)[k] == rest[k - 3];
          assert (k - 3) / 3 == k / 3 - 1 && (k - 3) % 3 == k % 3;
          assert parts[1..][k / 3 - 1] == parts[k / 3];
        }
      }
    }
  }

  /** A short part c after parts of three ends the joined sequence. */
  lemma {:induction false} JoinedStops(parts: seq<seq<QueryResult>>, c: nat)
    requires c < |parts| && |parts[c]| < 3 && forall d :: 0 <= d < c ==> |parts[d]| == 3
    ensures |Joined(parts)| == 3 * c + |parts[c]|
  {
    if c > 0 {
      assert parts[1..][c - 1] == parts[c];
      JoinedStops(parts[1..], c - 1);
    }
  }

  /** mergeQueriesOnSmallMedLarge's loop over the graphs: mergeForCategory for each in turn. */
  method MergeGraphs(dfs: seq<Table>, sorted: seq<QueryResult>, graphs: seq<string>) returns (r: seq<Table>)
    requires |dfs| == 3
    ensures r == BucketsAfter(dfs, sorted, graphs)
  {
    r := dfs;
    var i := 0;
    while i < |graphs|
      invariant i <= |graphs| && r == BucketsAfter(dfs, sorted, graphs[..i])
    {
      assert graphs[..i + 1][..i] == graphs[..i];
      r := MergeForCategory(r, graphs[i], sorted);
      i := i + 1;
    }
    assert graphs[..i] == graphs;
  }

  /** The loop body of mergeQueriesOnSmallMedLarge for one category. */
  method SmallMedLarge(category: seq<QueryResult>, graphs: seq<string>) returns (r: seq<QueryResult>)
    requires |category| > 0
    ensures r == SmallMedLargeOf(category, graphs)
  {
    var first := category[0].frame;
    var sorted := Sorting.Sort(category, ByLabel);
    var dfs := MergeGraphs([first, first, first], sorted, graphs);
    r := [sorted[0].(queryLabel := Label.Bucket("small"), frame := dfs[0])];
    if |sorted| > 1 {
      r := r + [sorted[1].(queryLabel := Label.Bucket("medium"), frame := dfs[1])];
      if |sorted| > 2 {
        r := r + [sorted[2].(queryLabel := Label.Bucket("large"), frame := dfs[2])];
      }
    }
  }

  /** A name is in a non-empty list when it is in all but the last entry, or is the last. */
  /**
   * Row h of bucket b after the graphs have been merged: the row of the
   * b-th table in the category holding no -5 for h, when h is one of the
   * graphs and there is such a table, else the starting table's row.
   */
  lemma {:induction false} BucketsAfterRow(dfs: seq<Table>, sorted: seq<QueryResult>, graphs: seq<string>, b: nat, h: string, j: string)
    requires |dfs| == 3 && b < 3
    ensures BucketsAfter(dfs, sorted, graphs)[b].cols == dfs[b].cols
    ensures var q := Qualifying(sorted, h);
            At(BucketsAfter(dfs, sorted, graphs)[b], h, j) ==
              if h in graphs && b < |q| && j in dfs[b].cols then
                (if j in sorted[q[b]].frame.cols then At(sorted[q[b]].frame, h, j) else None)
              else At(dfs[b], h, j)
    decreases |graphs|
  {
    if |graphs| > 0 {
      var front, g := graphs[..|graphs| - 1], graphs[|graphs| - 1];
      BucketsAfterRow(dfs, sorted, front, b, h, j);
      var d := BucketsAfter(dfs, sorted, front);
      var q := Qualifying(sorted, h);
      assert BucketsAfter(dfs, sorted, graphs)[b] == Bucket(d, sorted, g, b);
      InFrontOrLast(graphs, h);
      if h == g && b < |q| {
        assert Bucket(d, sorted, g, b) == CopyRow(d[b], sorted[q[b]].frame, g);
      }
    }
  }

  /**
   * The tables of one category after the merge: bucket b has label
   * 'small', 'medium' or 'large', the category's result and type, and
   * the fields of the b-th table in label order.
   */
  lemma SmallMedLargeOfTables(category: seq<QueryResult>, graphs: seq<string>, key: (Outcome, Kind))
    requires |category| > 0 && forall m :: 0 <= m < |category| ==> CategoryKey(category[m]) == key
    ensures var r := SmallMedLargeOf(category, graphs);
            var sorted := Sorting.Sort(category, ByLabel);
            Sorting.SortedBy(sorted, ByLabel) && multiset(sorted) == multiset(category) &&
            forall b :: 0 <= b < |r| ==>
              r[b].queryLabel == Label.Bucket(BucketName(b)) && CategoryKey(r[b]) == key &&
              r[b].isAveraged == sorted[b].isAveraged && r[b].averageCounts == sorted[b].averageCounts
  {
    var sorted := Sorting.Sort(category, ByLabel);
    ByLabelTotalPreorder();
    Sorting.SortSorted(category, ByLabel);
    forall b | 0 <= b < |sorted|
      ensures CategoryKey(sorted[b]) == key
    {
      assert sorted[b] in multiset(category);
      var m := PositionOf(category, sorted[b]);
    }
  }

  /**
   * Row h of bucket b of a category: the row of the b-th table, in label
   * order, whose row for h holds no -5, when h is one of the graphs;
   * otherwise the row of the category's first table in list order.
   */
  lemma SmallMedLargeOfRows(category: seq<QueryResult>, graphs: seq<string>, b: nat, h: string, j: string)
    requires |category| > 0 && b < |SmallMedLargeOf(category, graphs)|
    ensures var r := SmallMedLargeOf(category, graphs);
            var sorted := Sorting.Sort(category, ByLabel);
            var q := Qualifying(sorted, h);
            var first := category[0].frame;
            r[b].frame.cols == first.cols &&
            At(r[b].frame, h, j) ==
              if h in graphs && b < |q| && j in first.cols then
                (if j in sorted[q[b]].frame.cols then At(sorted[q[b]].frame, h, j) else None)
              else At(first, h, j)
  {
    var sorted := Sorting.Sort(category, ByLabel);
    var first := category[0].frame;
    BucketsAfterRow([first, first, first], sorted, graphs, b, h, j);
  }

  /**
   * When every category has at least three tables, the result holds three
   * tables per category, in the categories' order: small, medium, large.
   */
  lemma RegroupedShape(groups: seq<seq<QueryResult>>, graphs: seq<string>)
    requires forall c :: 0 <= c < |groups| ==> |groups[c]| >= 3
    requires forall c, m :: 0 <= c < |groups| && 0 <= m < |groups[c]| ==> CategoryKey(groups[c][m]) == CategoryKey(groups[c][0])
    ensures var r := Regrouped(groups, graphs);
            |r| == 3 * |groups| &&
            forall k :: 0 <= k < |r| ==>
              r[k].queryLabel == Label.Bucket(BucketName(k % 3)) && CategoryKey(r[k]) == CategoryKey(groups[k / 3][0])
  {
    var parts := Parts(groups, graphs);
    forall c | 0 <= c < |parts|
      ensures |parts[c]| == 3
    {
      assert parts[c] == SmallMedLargeOf(groups[c], graphs);
    }
    JoinedShape(parts);
    var r := Joined(parts);
    forall k | 0 <= k < |r|
      ensures r[k].queryLabel == Label.Bucket(BucketName(k % 3)) && CategoryKey(r[k]) == CategoryKey(groups[k / 3][0])
    {
      var c, b := k / 3, k % 3;
      SmallMedLargeOfTables(groups[c], graphs, CategoryKey(groups[c][0]));
      assert r[k] == SmallMedLargeOf(groups[c], graphs)[b];
    }
  }

  /** A category with fewer than three tables ends the result: its tables are the last ones. */
  lemma RegroupedStops(groups: seq<seq<QueryResult>>, graphs: seq<string>, c: nat)
    requires forall d :: 0 <= d < |groups| ==> |groups[d]| > 0
    requires c < |groups| && |groups[c]| < 3 && forall d :: 0 <= d < c ==> |groups[d]| >= 3
    ensures |Regrouped(groups, graphs)| == 3 * c + |groups[c]|
  {
    var parts := Parts(groups, graphs);
    forall d | 0 <= d <= c
      ensures parts[d] == SmallMedLargeOf(groups[d], graphs)
    {
    }
    JoinedStops(parts, c);
  }

  /**
   * mergeQueriesOnSmallMedLarge's result when every category has at least
   * three tables: three per category, labelled small, medium and large,
   * with the result and type of their category.
   */
  lemma SmallMedLargeShape(qs: seq<QueryResult>, graphs: seq<string>)
    requires forall c :: 0 <= c < |Categories(qs)| ==> |Categories(qs)[c]| >= 3
    ensures var r := Regrouped(Categories(qs), graphs);
            |r| == 3 * |CategoryKeys(qs)| &&
            forall k :: 0 <= k < |r| ==>
              r[k].queryLabel == Label.Bucket(BucketName(k % 3)) && CategoryKey(r[k]) == CategoryKeys(qs)[k / 3]
  {
    RegroupedShape(Categories(qs), graphs);
  }

  /** With a category of fewer than three tables the result ends with that category's tables. */
  lemma SmallMedLargeShort(qs: seq<QueryResult>, graphs: seq<string>, c: nat)
    requires c < |Categories(qs)| && |Categories(qs)[c]| < 3
    requires forall d :: 0 <= d < c ==> |Categories(qs)[d]| >= 3
    ensures |Regrouped(Categories(qs), graphs)| == 3 * c + |Category(qs, CategoryKeys(qs)[c])|
  {
    RegroupedStops(Categories(qs), graphs, c);
  }

  /**
   * mergeQueriesOnSmallMedLarge's second loop: each category in turn,
   * stopping at the first with fewer than three tables (ok false).
   */
  method Regroup(qs: seq<QueryResult>, graphs: seq<string>) returns (r: seq<QueryResult>, ok: bool)
    ensures ok <==> forall c :: 0 <= c < |Categories(qs)| ==> |Categories(qs)[c]| >= 3
    ensures r == Regrouped(Categories(qs), graphs)
  {
    var keys, groups := GroupByCategory(qs);
    ghost var parts := Parts(groups, graphs);
    forall c | 0 <= c < |groups|
      ensures parts[c] == SmallMedLargeOf(groups[c], graphs)
    {
    }
    r, ok := JoinCategories(groups, graphs, parts);
  }

  /**
   * The list mergeQueriesOnType leaves: the tables paired on type, then
   * only those of type 'both'.
   */
  method MergeListOnType(qs: seq<QueryResult>) returns (kept: seq<QueryResult>, ghost trace: seq<PairState>, ghost found: seq<Option<nat>>)
    ensures forall q :: q in kept ==> q.kind == Both
    ensures |kept| <= |qs|
    ensures TypeKeys(kept) == TypeKeys(qs)
    ensures forall m :: 0 <= m < |qs| && TypeAlone(qs, m) ==> qs[m].(kind := Both) in kept
    ensures TypeTrace(qs, trace, found) && |found| == |qs| && kept == OfKindBoth(trace[|found|].r)
  {
    ghost var partner;
    var paired;
    paired, partner, trace, found := PairOnType(qs);
    kept := KeepKindBoth(paired);
    KeptOnType(qs, paired, partner);
  }

  /**
   * The list mergeQueriesOnResult leaves: the tables paired on result,
   * then only those of result 'none'.
   */
  method MergeListOnResult(qs: seq<QueryResult>) returns (kept: seq<QueryResult>, ghost trace: seq<PairState>, ghost found: seq<Option<nat>>)
    ensures forall q :: q in kept ==> q.result == Either
    ensures |kept| <= |qs|
    ensures ResultKeys(kept) == ResultKeys(qs)
    ensures forall m :: 0 <= m < |qs| && ResultAlone(qs, m) ==> qs[m].(result := Either) in kept
    ensures ResultTrace(qs, trace, found) && |found| == |qs| && kept == OfResultEither(trace[|found|].r)
  {
    ghost var partner;
    var paired;
    paired, partner, trace, found := PairOnResult(qs);
    kept := KeepResultEither(paired);
    KeptOnResult(qs, paired, partner);
  }

  /** One turn of Regroup's loop: category c's three (or fewer) tables, which are part c. */
  method CategoryPart(groups: seq<seq<QueryResult>>, graphs: seq<string>, ghost parts: seq<seq<QueryResult>>, c: nat)
    returns (t: seq<QueryResult>)
    requires c < |groups| == |parts| && forall c :: 0 <= c < |groups| ==> |groups[c]| > 0
    requires forall c {:trigger SmallMedLargeOf(groups[c], graphs)} :: 0 <= c < |groups| ==> parts[c] == SmallMedLargeOf(groups[c], graphs)
    ensures t == parts[c]
    ensures |t| >= 3 <==> |groups[c]| >= 3
  {
    t := SmallMedLarge(groups[c], graphs);
  }

  /** The loop of Regroup, over the categories' lists; parts are the categories' results. */
  method JoinCategories(groups: seq<seq<QueryResult>>, graphs: seq<string>, ghost parts: seq<seq<QueryResult>>)
    returns (r: seq<QueryResult>, ok: bool)
    requires forall c :: 0 <= c < |groups| ==> |groups[c]| > 0
    requires |parts| == |groups|
    requires forall c {:trigger SmallMedLargeOf(groups[c], graphs)} :: 0 <= c < |groups| ==> parts[c] == SmallMedLargeOf(groups[c], graphs)
    ensures ok <==> forall c :: 0 <= c < |groups| ==> |groups[c]| >= 3
    ensures r == Joined(parts)
  {
    r := [];
    var c := 0;
    while c < |groups|
      invariant c <= |groups|
      invariant Joined(parts) == r + Joined(parts[c..])
      invariant forall d :: 0 <= d < c ==> |groups[d]| >= 3
    {
      var t := CategoryPart(groups, graphs, parts, c);
      if |t| < 3 {
        JoinedAt(parts, c);
        r := r + t;
        return r, false;
      }
      JoinedStep(parts, c, r);
      r := r + t;
      c := c + 1;
    }
    assert parts[c..] == [];
    ok := true;
  }


  /**
   * A consolidated benchmark result: three tables with one row per graph
   * and one column per index (theoretical size in MB, training memory in
   * MB, construction time in ms) and one table of query timings per
   * workload.
   */
  class ResultSet {
    var indexSizes: Table
    var indexTrainMemory: Table
    var indexCreationTimings: Table
    var graphNames: seq<string>
    var indexNames: seq<string>
    var queryTimings: seq<QueryResult>

    /** `ResultSet(dir)`: the tables read from the directory; the graph and index names are those of the size table. */
    constructor(sizes: Table, memory: Table, creation: Table, queries: seq<QueryResult>)
      ensures indexSizes == sizes && indexTrainMemory == memory && indexCreationTimings == creation
      ensures graphNames == sizes.rows && indexNames == sizes.cols && queryTimings == queries
    {
      indexSizes, indexTrainMemory, indexCreationTimings := sizes, memory, creation;
      graphNames, indexNames := sizes.rows, sizes.cols;
      queryTimings := queries;
    }

    /** `copy`: a new result set holding the same tables and names. */
    method Copy() returns (r: ResultSet)
      ensures fresh(r)
      ensures r.indexSizes == indexSizes && r.indexTrainMemory == indexTrainMemory &&
              r.indexCreationTimings == indexCreationTimings
      ensures r.graphNames == graphNames && r.indexNames == indexNames && r.queryTimings == queryTimings
    {
      r := new ResultSet(indexSizes, indexTrainMemory, indexCreationTimings, queryTimings);
      r.graphNames, r.indexNames := graphNames, indexNames;
    }

    /**
     * `joinLeft`: over the graphs and indexes both sides have, the other
     * side's numbers are written into this one's three tables and into
     * each query table of the same workload (the first one found), in the
     * given mode.
     */
    method JoinLeft(other: ResultSet, mode: string)
      modifies this
      ensures graphNames == old(graphNames) && indexNames == old(indexNames)
      ensures JoinedFrom(indexSizes, old(indexSizes), old(other.indexSizes),
                         Shared(old(graphNames), old(other.graphNames)), Shared(old(indexNames), old(other.indexNames)), mode)
      ensures JoinedFrom(indexTrainMemory, old(indexTrainMemory), old(other.indexTrainMemory),
                         Shared(old(graphNames), old(other.graphNames)), Shared(old(indexNames), old(other.indexNames)), mode)
      ensures JoinedFrom(indexCreationTimings, old(indexCreationTimings), old(other.indexCreationTimings),
                         Shared(old(graphNames), old(other.graphNames)), Shared(old(indexNames), old(other.indexNames)), mode)
      ensures |queryTimings| == |old(queryTimings)|
      ensures forall k :: 0 <= k < |queryTimings| ==>
                JoinedQuery(queryTimings[k], old(queryTimings)[k], old(other.queryTimings),
                            Shared(old(graphNames), old(other.graphNames)), Shared(old(indexNames), old(other.indexNames)), mode)
    {
      var graphs := Shared(graphNames, other.graphNames);
      var indexes := Shared(indexNames, other.indexNames);
      var otherSizes, otherMemory, otherCreation := other.indexSizes, other.indexTrainMemory, other.indexCreationTimings;
      var others := other.queryTimings;
      var sizes := JoinPart(graphs, indexes, indexSizes, otherSizes, mode);
      var memory := JoinPart(graphs, indexes, indexTrainMemory, otherMemory, mode);
      var creation := JoinPart(graphs, indexes, indexCreationTimings, otherCreation, mode);
      var qs := queryTimings;
      var k := 0;
      while k < |qs|
        invariant k <= |qs| && |qs| == |old(queryTimings)|
        invariant forall m :: k <= m < |qs| ==> qs[m] == old(queryTimings)[m]
        invariant forall m :: 0 <= m < k ==> JoinedQuery(qs[m], old(queryTimings)[m], others, graphs, indexes, mode)
        invariant graphNames == old(graphNames) && indexNames == old(indexNames)
      {
        var j := FindSame(qs[k], others);
        if j.Some? {
          var frame := JoinPart(graphs, indexes, qs[k].frame, others[j.value].frame, mode);
          qs := qs[k := qs[k].(frame := frame)];
        }
        k := k + 1;
      }
      indexSizes, indexTrainMemory, indexCreationTimings := sizes, memory, creation;
      queryTimings := qs;
    }

    /**
     * `renameGraph`: graph x is called y from now on, in the name list
     * (moved to its end) and in every table. Nothing happens when there
     * is no graph x; when a graph y already exists the script exits
     * (ok is false) and nothing is renamed.
     */
    method RenameGraph(x: string, y: string) returns (ok: bool)
      modifies this
      ensures !ok <==> x in old(graphNames) && y in old(graphNames)
      ensures x !in old(graphNames) || !ok ==>
                graphNames == old(graphNames) && indexSizes == old(indexSizes) && indexTrainMemory == old(indexTrainMemory) &&
                indexCreationTimings == old(indexCreationTimings) && queryTimings == old(queryTimings)
      ensures x in old(graphNames) && ok ==>
                graphNames == Remove(old(graphNames), x) + [y] &&
                indexSizes == RenameRow(old(indexSizes), x, y) &&
                indexTrainMemory == RenameRow(old(indexTrainMemory), x, y) &&
                indexCreationTimings == RenameRow(old(indexCreationTimings), x, y) &&
                |queryTimings| == |old(queryTimings)| &&
                forall k :: 0 <= k < |queryTimings| ==>
                  queryTimings[k] == old(queryTimings)[k].(frame := RenameRow(old(queryTimings)[k].frame, x, y))
      ensures indexNames == old(indexNames)
    {
      if x !in graphNames {
        return true;
      }
      if y in graphNames {
        return false;
      }
      graphNames := Remove(graphNames, x) + [y];
      indexSizes := RenameRow(indexSizes, x, y);
      indexTrainMemory := RenameRow(indexTrainMemory, x, y);
      indexCreationTimings := RenameRow(indexCreationTimings, x, y);
      var qs := queryTimings;
      var k := 0;
      while k < |qs|
        invariant k <= |qs| && |qs| == |old(queryTimings)|
        invariant forall m :: k <= m < |qs| ==> qs[m] == old(queryTimings)[m]
        invariant forall m :: 0 <= m < k ==> qs[m] == old(queryTimings)[m].(frame := RenameRow(old(queryTimings)[m].frame, x, y))
      {
        qs := qs[k := qs[k].(frame := RenameRow(qs[k].frame, x, y))];
        k := k + 1;
      }
      queryTimings := qs;
      ok := true;
    }

    /** `renameIndex`: index x is called y from now on; the same rules as renameGraph. */
    method RenameIndex(x: string, y: string) returns (ok: bool)
      modifies this
      ensures !ok <==> x in old(indexNames) && y in old(indexNames)
      ensures x !in old(indexNames) || !ok ==>
                indexNames == old(indexNames) && indexSizes == old(indexSizes) && indexTrainMemory == old(indexTrainMemory) &&
                indexCreationTimings == old(indexCreationTimings) && queryTimings == old(queryTimings)
      ensures x in old(indexNames) && ok ==>
                indexNames == Remove(old(indexNames), x) + [y] &&
                indexSizes == RenameCol(old(indexSizes), x, y) &&
                indexTrainMemory == RenameCol(old(indexTrainMemory), x, y) &&
                indexCreationTimings == RenameCol(old(indexCreationTimings), x, y) &&
                |queryTimings| == |old(queryTimings)| &&
                forall k :: 0 <= k < |queryTimings| ==>
                  queryTimings[k] == old(queryTimings)[k].(frame := RenameCol(old(queryTimings)[k].frame, x, y))
      ensures graphNames == old(graphNames)
    {
      if x !in indexNames {
        return true;
      }
      if y in indexNames {
        return false;
      }
      indexNames := Remove(indexNames, x) + [y];
      indexSizes := RenameCol(indexSizes, x, y);
      indexTrainMemory := RenameCol(indexTrainMemory, x, y);
      indexCreationTimings := RenameCol(indexCreationTimings, x, y);
      var qs := queryTimings;
      var k := 0;
      while k < |qs|
        invariant k <= |qs| && |qs| == |old(queryTimings)|
        invariant forall m :: k <= m < |qs| ==> qs[m] == old(queryTimings)[m]
        invariant forall m :: 0 <= m < k ==> qs[m] == old(queryTimings)[m].(frame := RenameCol(old(queryTimings)[m].frame, x, y))
      {
        qs := qs[k := qs[k].(frame := RenameCol(qs[k].frame, x, y))];
        k := k + 1;
      }
      queryTimings := qs;
      ok := true;
    }

    /** `dropGraph`: graph x leaves the name list and every table, and an averaged query table forgets its count. */
    method DropGraph(x: string)
      modifies this
      ensures x !in old(graphNames) ==>
                graphNames == old(graphNames) && indexSizes == old(indexSizes) && indexTrainMemory == old(indexTrainMemory) &&
                indexCreationTimings == old(indexCreationTimings) && queryTimings == old(queryTimings)
      ensures x in old(graphNames) ==>
                graphNames == Remove(old(graphNames), x) &&
                indexSizes == DropRow(old(indexSizes), x) &&
                indexTrainMemory == DropRow(old(indexTrainMemory), x) &&
                indexCreationTimings == DropRow(old(indexCreationTimings), x) &&
                |queryTimings| == |old(queryTimings)| &&
                forall k :: 0 <= k < |queryTimings| ==> queryTimings[k] == DroppedGraph(old(queryTimings)[k], x)
      ensures indexNames == old(indexNames)
    {
      if x !in graphNames {
        return;
      }
      graphNames := Remove(graphNames, x);
      indexSizes := DropRow(indexSizes, x);
      indexTrainMemory := DropRow(indexTrainMemory, x);
      indexCreationTimings := DropRow(indexCreationTimings, x);
      var qs := queryTimings;
      var k := 0;
      while k < |qs|
        invariant k <= |qs| && |qs| == |old(queryTimings)|
        invariant forall m :: k <= m < |qs| ==> qs[m] == old(queryTimings)[m]
        invariant forall m :: 0 <= m < k ==> qs[m] == DroppedGraph(old(queryTimings)[m], x)
      {
        var q := qs[k].(frame := DropRow(qs[k].frame, x));
        if q.isAveraged && x in q.averageCounts {
          q := q.(averageCounts := q.averageCounts - {x});
        }
        qs := qs[k := q];
        k := k + 1;
      }
      queryTimings := qs;
    }

    /** `dropIndex`: index x leaves the name list and every table. */
    method DropIndex(x: string)
      modifies this
      ensures x !in old(indexNames) ==>
                indexNames == old(indexNames) && indexSizes == old(indexSizes) && indexTrainMemory == old(indexTrainMemory) &&
                indexCreationTimings == old(indexCreationTimings) && queryTimings == old(queryTimings)
      ensures x in old(indexNames) ==>
                indexNames == Remove(old(indexNames), x) &&
                indexSizes == DropCol(old(indexSizes), x) &&
                indexTrainMemory == DropCol(old(indexTrainMemory), x) &&
                indexCreationTimings == DropCol(old(indexCreationTimings), x) &&
                |queryTimings| == |old(queryTimings)| &&
                forall k :: 0 <= k < |queryTimings| ==>
                  queryTimings[k] == old(queryTimings)[k].(frame := DropCol(old(queryTimings)[k].frame, x))
      ensures graphNames == old(graphNames)
    {
      if x !in indexNames {
        return;
      }
      indexNames := Remove(indexNames, x);
      indexSizes := DropCol(indexSizes, x);
      indexTrainMemory := DropCol(indexTrainMemory, x);
      indexCreationTimings := DropCol(indexCreationTimings, x);
      var qs := queryTimings;
      var k := 0;
      while k < |qs|
        invariant k <= |qs| && |qs| == |old(queryTimings)|
        invariant forall m :: k <= m < |qs| ==> qs[m] == old(queryTimings)[m]
        invariant forall m :: 0 <= m < k ==> qs[m] == old(queryTimings)[m].(frame := DropCol(old(queryTimings)[m].frame, x))
      {
        qs := qs[k := qs[k].(frame := DropCol(qs[k].frame, x))];
        k := k + 1;
      }
      queryTimings := qs;
    }
  
    /**
     * `append`: the other side's indexes join this one's. Their columns
     * are joined onto the three tables and onto each query table of the
     * same workload; a query table without a counterpart gets a -5 column
     * for every index it lacks; the other side's query tables of workloads
     * this side lacks are added, back-filled the same way. pandas raises
     * when both sides hold the same index (ok false: the script ends, and
     * the model leaves the result set as it was).
     */
    method Append(other: ResultSet) returns (ok: bool)
      modifies this
      ensures ok <==> JoinColumns(old(indexSizes), old(other.indexSizes)).Some? &&
                      JoinColumns(old(indexTrainMemory), old(other.indexTrainMemory)).Some? &&
                      JoinColumns(old(indexCreationTimings), old(other.indexCreationTimings)).Some? &&
                      forall k :: 0 <= k < |old(queryTimings)| ==>
                        AppendedQuery(old(queryTimings)[k], old(other.queryTimings),
                                      Union(old(indexNames), old(other.indexNames))).Some?
      ensures !ok ==> indexNames == old(indexNames) && indexSizes == old(indexSizes) &&
                      indexTrainMemory == old(indexTrainMemory) && indexCreationTimings == old(indexCreationTimings) &&
                      queryTimings == old(queryTimings)
      ensures graphNames == old(graphNames)
      ensures ok ==> indexNames == Union(old(indexNames), old(other.indexNames)) &&
                     Some(indexSizes) == JoinColumns(old(indexSizes), old(other.indexSizes)) &&
                     Some(indexTrainMemory) == JoinColumns(old(indexTrainMemory), old(other.indexTrainMemory)) &&
                     Some(indexCreationTimings) == JoinColumns(old(indexCreationTimings), old(other.indexCreationTimings))
      ensures ok ==> |old(queryTimings)| <= |queryTimings| &&
                     (forall k :: 0 <= k < |old(queryTimings)| ==>
                        Some(queryTimings[k]) == AppendedQuery(old(queryTimings)[k], old(other.queryTimings), indexNames)) &&
                     queryTimings == AddedFrom(queryTimings[..|old(queryTimings)|], old(other.queryTimings), indexNames, Columns)
      ensures ok ==> forall k :: 0 <= k < |old(other.queryTimings)| ==> FirstMatch(old(other.queryTimings)[k], queryTimings).Some?
      ensures ok ==> forall k :: |old(queryTimings)| <= k < |queryTimings| ==> FirstMatch(queryTimings[k], queryTimings) == Some(k)
    {
      var names := Union(indexNames, other.indexNames);
      var others := other.queryTimings;
      var sizes := JoinColumns(indexSizes, other.indexSizes);
      var memory := JoinColumns(indexTrainMemory, other.indexTrainMemory);
      var creation := JoinColumns(indexCreationTimings, other.indexCreationTimings);
      if sizes.None? || memory.None? || creation.None? {
        return false;
      }
      var out := AppendQueries(queryTimings, others, names);
      if out.None? {
        return false;
      }
      indexNames, indexSizes, indexTrainMemory, indexCreationTimings, queryTimings :=
        names, sizes.value, memory.value, creation.value, out.value;
      ok := true;
    }

    /**
     * `merge`: the other side's graphs join this one's. Their rows are
     * appended to the three tables and to each query table of the same
     * workload; a query table without a counterpart gets a row of -5 for
     * every graph it lacks; the other side's query tables of workloads this
     * side lacks are added, back-filled the same way.
     */
    method Merge(other: ResultSet)
      modifies this
      ensures indexNames == old(indexNames)
      ensures graphNames == Union(old(graphNames), old(other.graphNames))
      ensures indexSizes == AppendRows(old(indexSizes), old(other.indexSizes))
      ensures indexTrainMemory == AppendRows(old(indexTrainMemory), old(other.indexTrainMemory))
      ensures indexCreationTimings == AppendRows(old(indexCreationTimings), old(other.indexCreationTimings))
      ensures |old(queryTimings)| <= |queryTimings|
      ensures forall k :: 0 <= k < |old(queryTimings)| ==>
                queryTimings[k] == MergedQuery(old(queryTimings)[k], old(other.queryTimings), graphNames)
      ensures queryTimings == AddedFrom(queryTimings[..|old(queryTimings)|], old(other.queryTimings), graphNames, Rows)
      ensures forall k :: 0 <= k < |old(other.queryTimings)| ==> FirstMatch(old(other.queryTimings)[k], queryTimings).Some?
      ensures forall k :: |old(queryTimings)| <= k < |queryTimings| ==> FirstMatch(queryTimings[k], queryTimings) == Some(k)
    {
      var names := Union(graphNames, other.graphNames);
      var others := other.queryTimings;
      var sizes := AppendRows(indexSizes, other.indexSizes);
      var memory := AppendRows(indexTrainMemory, other.indexTrainMemory);
      var creation := AppendRows(indexCreationTimings, other.indexCreationTimings);
      var qs := MergeSelf(queryTimings, others, names);
      var out := AddOthers(qs, others, names, Rows);
      graphNames, indexSizes, indexTrainMemory, indexCreationTimings, queryTimings :=
        names, sizes, memory, creation, out;
    }

    /**
     * `mergeQueriesOnType`: each query table is merged (see MergeOnType)
     * with the first unprocessed table of the same label and result but
     * another type; a table with no such partner is relabelled 'both'.
     * Only the tables of type 'both' are kept: every label-and-result
     * workload survives, and a table whose workload no other table shares
     * survives unchanged but for its type.
     */
    method MergeQueriesOnType() returns (ghost trace: seq<PairState>, ghost found: seq<Option<nat>>)
      modifies this
      ensures graphNames == old(graphNames) && indexNames == old(indexNames)
      ensures indexSizes == old(indexSizes) && indexTrainMemory == old(indexTrainMemory) &&
              indexCreationTimings == old(indexCreationTimings)
      ensures forall q :: q in queryTimings ==> q.kind == Both
      ensures |queryTimings| <= |old(queryTimings)|
      ensures TypeKeys(queryTimings) == TypeKeys(old(queryTimings))
      ensures forall m :: 0 <= m < |old(queryTimings)| && TypeAlone(old(queryTimings), m) ==>
                old(queryTimings)[m].(kind := Both) in queryTimings
      ensures TypeTrace(old(queryTimings), trace, found) && |found| == |old(queryTimings)| &&
              queryTimings == OfKindBoth(trace[|found|].r)
    {
      var kept;
      kept, trace, found := MergeListOnType(queryTimings);
      queryTimings := kept;
    }

    /**
     * `mergeQueriesOnResult`: the same as mergeQueriesOnType with the roles
     * of result and type swapped: tables of the same label and type but
     * another result are merged (see MergeOnResult), and only tables of
     * result 'none' are kept.
     */
    method MergeQueriesOnResult() returns (ghost trace: seq<PairState>, ghost found: seq<Option<nat>>)
      modifies this
      ensures graphNames == old(graphNames) && indexNames == old(indexNames)
      ensures indexSizes == old(indexSizes) && indexTrainMemory == old(indexTrainMemory) &&
              indexCreationTimings == old(indexCreationTimings)
      ensures forall q :: q in queryTimings ==> q.result == Either
      ensures |queryTimings| <= |old(queryTimings)|
      ensures ResultKeys(queryTimings) == ResultKeys(old(queryTimings))
      ensures forall m :: 0 <= m < |old(queryTimings)| && ResultAlone(old(queryTimings), m) ==>
                old(queryTimings)[m].(result := Either) in queryTimings
      ensures ResultTrace(old(queryTimings), trace, found) && |found| == |old(queryTimings)| &&
              queryTimings == OfResultEither(trace[|found|].r)
    {
      var kept;
      kept, trace, found := MergeListOnResult(queryTimings);
      queryTimings := kept;
    }

    /**
     * `mergeQueriesOnSmallMedLarge`: the query tables are grouped by result
     * and type; each group, sorted by label, becomes three tables 'small',
     * 'medium' and 'large' whose rows come from the first, second and third
     * table with no -5 in that row (see SmallMedLargeOfRows). A group of
     * fewer than three tables raises an IndexError (ok false), leaving the
     * tables appended so far.
     */
    method MergeQueriesOnSmallMedLarge() returns (ok: bool)
      modifies this
      ensures graphNames == old(graphNames) && indexNames == old(indexNames)
      ensures indexSizes == old(indexSizes) && indexTrainMemory == old(indexTrainMemory) &&
              indexCreationTimings == old(indexCreationTimings)
      ensures ok <==> forall c :: 0 <= c < |Categories(old(queryTimings))| ==> |Categories(old(queryTimings))[c]| >= 3
      ensures queryTimings == Regrouped(Categories(old(queryTimings)), graphNames)
    {
      var r;
      r, ok := Regroup(queryTimings, graphNames);
      queryTimings := r;
    }

    /**
     * `avgQueries`: every query table averaged over the result set's
     * graphs (see AverageTimings). `lineCount` stands for the file system.
     */
    method AvgQueries(lineCount: string -> Option<Count>)
      requires Sorting.NoDuplicates(graphNames)
      modifies this
      ensures graphNames == old(graphNames) && indexNames == old(indexNames)
      ensures indexSizes == old(indexSizes) && indexTrainMemory == old(indexTrainMemory) &&
              indexCreationTimings == old(indexCreationTimings)
      ensures |queryTimings| == |old(queryTimings)|
      ensures forall k :: 0 <= k < |queryTimings| ==> AveragedFrom(queryTimings[k], old(queryTimings)[k], graphNames, lineCount)
    {
      var qs := queryTimings;
      var names := graphNames;
      var k := 0;
      while k < |qs|
        invariant k <= |qs| && |qs| == |old(queryTimings)|
        invariant forall m :: k <= m < |qs| ==> qs[m] == old(queryTimings)[m]
        invariant forall m :: 0 <= m < k ==> AveragedFrom(qs[m], old(queryTimings)[m], names, lineCount)
        invariant unchanged(this)
      {
        var averaged := AverageTimings(qs[k], names, lineCount);
        qs := qs[k := averaged];
        k := k + 1;
      }
      queryTimings := qs;
    }
  }
}
