/**
 * The benchmark runner of runner/LCRBenchmarkRunner.py: three result
 * tables (index size in MB, training memory in MB, construction time in
 * ms) and one query-time table per query-generation mode, each with a row
 * per graph and a column per index, filled cell by cell from the engine's
 * output and written to the results directory after every run.
 *
 * The engine is an oracle: what it returned (exit code, standard output,
 * standard error) is a parameter. The results directory is the `results`
 * field, from file name to the table its CSV file holds; a name that is
 * absent is a file that does not exist. Python's `float` is the parameter
 * `toFloat`, as in module RunnerUtility.
 */
module BenchmarkRunner {
  import opened Text
  import opened Tables
  import opened RunnerUtility

  /** What `subprocess.run` returned: the exit code and the decoded output streams. */
  datatype EngineRun = EngineRun(exitCode: int, stdout: string, stderr: string)

  /** How a run ended: Stopped is `sys.exit(1)`, or an exception, which ends the whole sweep. */
  datatype Verdict = Succeeded | Failed(code: real) | Stopped

  /** The values runAndCollect writes for one (graph, index) cell: the three scalars and one per mode. */
  datatype Cells = Cells(size: real, memory: real, creation: real, queries: map<string, real>)

  // ---------------------------------------------------------------------
  // Names
  // ---------------------------------------------------------------------

  /** An index's column: name + "(" + ", ".join(params) + ")" with every "()" removed. */
  function IndexName(index: string, params: seq<string>): string
  {
    ReplaceAll(index + "(" + Join(params, ", ") + ")", "()", "")
  }

  /** A character in no part and not in the separator is not in the joined string. */
  lemma {:induction false} JoinHasNo(parts: seq<string>, sep: string, c: char)
    requires c !in sep && forall k :: 0 <= k < |parts| ==> c !in parts[k]
    ensures c !in Join(parts, sep)
  {
    if |parts| > 1 {
      JoinHasNo(parts[1..], sep, c);
    }
  }

  /** An index without parameters is named by its bare name. */
  lemma IndexNameBare(index: string)
    requires '(' !in index
    ensures IndexName(index, []) == index
  {
    var s := index + "(" + Join([], ", ") + ")";
    assert s == index + "()";
    assert OccursAt(s, "()", |index|) by {
      assert s[|index|..|index| + 2] == "()";
    }
    assert forall i :: 0 <= i < |index| ==> !OccursAt(s, "()", i) by {
      forall i | 0 <= i < |index|
        ensures !OccursAt(s, "()", i)
      {
        assert s[i] == index[i];
        assert s[i..i + 2] == [s[i], s[i + 1]];
      }
    }
    assert Find(s, "()") == |index|;
    assert s[|index| + 2..] == "";
    assert s[..|index|] == index;
  }

  /** An index with parameters keeps them in parentheses, separated by ", ". */
  lemma IndexNameWithParams(index: string, params: seq<string>)
    requires '(' !in index && forall k :: 0 <= k < |params| ==> '(' !in params[k]
    requires |params| > 0 && |params[0]| > 0 && params[0][0] != ')'
    ensures IndexName(index, params) == index + "(" + Join(params, ", ") + ")"
  {
    var j := Join(params, ", ");
    var s := index + "(" + j + ")";
    JoinHasNo(params, ", ", '(');
    assert |params| == 1 ==> j == params[0];
    assert |params| > 1 ==> j == params[0] + ", " + Join(params[1..], ", ");
    assert j[0] == params[0][0];
    forall i | 0 <= i <= |s|
      ensures !OccursAt(s, "()", i)
    {
      if i + 2 <= |s| {
        assert s[i..i + 2] == [s[i], s[i + 1]];
        if i < |index| {
          assert s[i] == index[i];
        } else if i == |index| {
          assert s[i + 1] == j[0];
        } else {
          assert s[i] == j[i - |index| - 1];
        }
      }
    }
  }

  /** The engine's query file of a mode: ".nt" in the graph file replaced by ".queries-lcr.<mode>.csv". */
  function QueryFileName(graphFile: string, mode: string): string
  {
    ReplaceAll(graphFile, ".nt", ".queries-lcr." + mode + ".csv")
  }

  const IndexSizeFile: string := "indexSize.csv"
  const TrainMemoryFile: string := "indexTrainMemory.csv"
  const CreationTimeFile: string := "indexCreationTime.csv"

  /** The results file of one mode's query timings. */
  function QueryTimeFile(mode: string): string
  {
    "queryTime." + mode + ".csv"
  }

  /** The results files are distinct: no query-time file is a scalar file, and each mode has its own. */
  lemma ResultFilesDistinct(m: string, n: string)
    ensures QueryTimeFile(m) != IndexSizeFile && QueryTimeFile(m) != TrainMemoryFile && QueryTimeFile(m) != CreationTimeFile
    ensures QueryTimeFile(m) == QueryTimeFile(n) ==> m == n
  {
    assert QueryTimeFile(m)[0] == 'q';
    if QueryTimeFile(m) == QueryTimeFile(n) {
      assert |m| == |n|;
      assert forall k :: 0 <= k < |m| ==> m[k] == QueryTimeFile(m)[10 + k] && n[k] == QueryTimeFile(n)[10 + k];
    }
  }

  // ---------------------------------------------------------------------
  // Reading the engine's output
  // ---------------------------------------------------------------------

  /** `returncode` and standard error read as a verdict: "memory limit" is -2 and is looked for before "time limit" (-3). */
  function Classify(run: EngineRun): (r: Verdict)
    ensures r == Succeeded <==> run.exitCode == 0
    ensures r.Failed? ==> r.code == -2.0 || r.code == -3.0
  {
    if run.exitCode == 0 then Succeeded
    else if Contains(run.stderr, "memory limit") then Failed(-2.0)
    else if Contains(run.stderr, "time limit") then Failed(-3.0)
    else Stopped
  }

  /** A failed run carries the memory code or the time code, and the memory code whenever standard error names the memory limit. */
  lemma ClassifyCodes(run: EngineRun)
    ensures Classify(run).Failed? ==> Classify(run).code == -2.0 || Classify(run).code == -3.0
    ensures Classify(run) == Succeeded <==> run.exitCode == 0
    ensures run.exitCode != 0 && Contains(run.stderr, "memory limit") ==> Classify(run) == Failed(-2.0)
    ensures run.exitCode != 0 && !Contains(run.stderr, "memory limit") && !Contains(run.stderr, "time limit") ==> Classify(run) == Stopped
  {
  }

  /** The training part: between "Training timings:" and "Indexes used:", from "Took:" on. */
  function TrainingText(text: string): string
  {
    var t := Strip(ReplaceAll(Slice(text, Find(text, "Training timings:"), Find(text, "Indexes used:")), "Training timings:", ""));
    SliceFrom(t, Find(t, "Took:"))
  }

  /** The index part: between "Indexes used:" and "Query timings:", from "size:" on. */
  function SizeText(text: string): string
  {
    var t := Strip(ReplaceAll(Slice(text, Find(text, "Indexes used:"), Find(text, "Query timings:")), "Indexes used:", ""));
    SliceFrom(t, Find(t, "size:"))
  }

  /** The query part: from the first "Query timings:" on. */
  function QueryText(text: string): string
  {
    Strip(SliceFrom(text, Find(text, "Query timings:")))
  }

  /** "Took: <n> <unit>" before "Memory:", in milliseconds. */
  function TrainingTime(t: string, toFloat: string -> Option<real>): Option<real>
  {
    ParseTime(Strip(ReplaceAll(SliceTo(t, Find(t, "Memory:")), "Took:", "")), toFloat)
  }

  /** "Memory: <n> <unit>", in megabytes. */
  function TrainingMemory(t: string, toFloat: string -> Option<real>): Option<real>
  {
    ParseMemory(Strip(ReplaceAll(SliceFrom(t, Find(t, "Memory:")), "Memory:", "")), toFloat)
  }

  /** "size: <n> <unit>", in megabytes. */
  function IndexSize(t: string, toFloat: string -> Option<real>): Option<real>
  {
    ParseMemory(Strip(ReplaceAll(t, "size:", "")), toFloat)
  }

  /**
   * The query time of one query file: the subsection "Query timings:
   * <file>" up to the next blank line, carriage returns, the header and
   * line breaks removed, then "took: <n> <unit>" before "min:". -5 when
   * the subsection is missing (no query file was given for the mode).
   */
  function QueryTime(t: string, queryFile: string, toFloat: string -> Option<real>): Option<real>
  {
    var header := "Query timings: " + queryFile;
    var at := Find(t, header);
    if at == -1 then Some(-5.0)
    else
      var start := ReplaceAll(SliceFrom(t, at), "\r", "");
      var section := ReplaceAll(ReplaceAll(SliceTo(start, Find(start, "\n\n")), header, ""), "\n", "");
      var took := SliceFrom(section, Find(section, "took:"));
      ParseTime(Strip(ReplaceAll(SliceTo(took, Find(took, "min:")), "took:", "")), toFloat)
  }

  /** The query times of the modes, None when one does not parse. */
  function QueryTimes(t: string, graphFile: string, modes: seq<string>, toFloat: string -> Option<real>): (r: Option<map<string, real>>)
    ensures r.Some? ==> forall m :: m in r.value <==> m in modes
  {
    if |modes| == 0 then Some(map[])
    else
      match QueryTimes(t, graphFile, modes[..|modes| - 1], toFloat)
      case None => None
      case Some(front) =>
        var m := modes[|modes| - 1];
        match QueryTime(t, QueryFileName(graphFile, m), toFloat)
        case None => None
        case Some(x) => Some(front[m := x])
  }

  /** A mode whose subsection is missing reads as -5. */
  lemma QueryTimesMissing(t: string, graphFile: string, modes: seq<string>, toFloat: string -> Option<real>, m: string)
    requires QueryTimes(t, graphFile, modes, toFloat).Some? && m in modes
    requires Find(t, "Query timings: " + QueryFileName(graphFile, m)) == -1
    ensures QueryTimes(t, graphFile, modes, toFloat).value[m] == -5.0
  {
    QueryTimesValue(t, graphFile, modes, toFloat, m);
  }

  /** Each mode's entry is the query time of its own file. */
  lemma {:induction false} QueryTimesValue(t: string, graphFile: string, modes: seq<string>, toFloat: string -> Option<real>, m: string)
    requires QueryTimes(t, graphFile, modes, toFloat).Some? && m in modes
    ensures Some(QueryTimes(t, graphFile, modes, toFloat).value[m]) == QueryTime(t, QueryFileName(graphFile, m), toFloat)
  {
    var last := modes[|modes| - 1];
    if m != last {
      assert m in modes[..|modes| - 1] by {
        var k :| 0 <= k < |modes| && modes[k] == m;
        assert modes[..|modes| - 1][k] == m;
      }
      QueryTimesValue(t, graphFile, modes[..|modes| - 1], toFloat, m);
    }
  }

  /**
   * What runAndCollect writes for a run: the failure code everywhere for a
   * classified failure, the parsed measurements for a success, and None
   * when the sweep stops (an unknown failure, or output that does not
   * parse).
   */
  function Collected(run: EngineRun, graphFile: string, modes: seq<string>, toFloat: string -> Option<real>): (r: Option<Cells>)
    ensures r.Some? ==> Classify(run) != Stopped && forall m :: m in modes ==> m in r.value.queries
    ensures Classify(run).Failed? ==> r.Some? && r.value.size == r.value.memory == r.value.creation == Classify(run).code
  {
    match Classify(run)
    case Stopped => None
    case Failed(code) => Some(Cells(code, code, code, map m | m in modes :: code))
    case Succeeded =>
      var text := run.stdout;
      var t1, t2, t3 := TrainingText(text), SizeText(text), QueryText(text);
      match (TrainingTime(t1, toFloat), TrainingMemory(t1, toFloat), IndexSize(t2, toFloat), QueryTimes(t3, graphFile, modes, toFloat))
      case (Some(time), Some(memory), Some(size), Some(queries)) => Some(Cells(size, memory, time, queries))
      case _ => None
  }

  /** Every mode has a value in what is collected. */
  lemma CollectedModes(run: EngineRun, graphFile: string, modes: seq<string>, toFloat: string -> Option<real>)
    requires Collected(run, graphFile, modes, toFloat).Some?
    ensures Classify(run) != Stopped
    ensures forall m :: m in modes ==> m in Collected(run, graphFile, modes, toFloat).value.queries
  {
  }

  /** What runAndCollect returns after a run that did not stop the sweep: (True, -1) or (False, code). */
  function Outcome(v: Verdict): (bool, real)
    requires v != Stopped
  {
    match v
    case Succeeded => (true, -1.0)
    case Failed(code) => (false, code)
  }

  // ---------------------------------------------------------------------
  // Tables and files
  // ---------------------------------------------------------------------

  /** A fresh query table per mode, every cell -1 (not run). */
  function NotRun(graphs: seq<string>, indexes: seq<string>, modes: seq<string>): (r: map<string, Table>)
    ensures forall m :: m in r <==> m in modes
    ensures forall m, g, i :: m in r ==> At(r[m], g, i) == if g in graphs && i in indexes then Some(-1.0) else None
  {
    map m | m in modes :: Filled(graphs, indexes, -1.0)
  }

  /** The query-table loop of `reset`: each mode's table replaced by a fresh one, other keys kept. */
  method ResetQueries(queries: map<string, Table>, graphs: seq<string>, indexes: seq<string>, modes: seq<string>)
    returns (r: map<string, Table>)
    ensures r == queries + NotRun(graphs, indexes, modes)
  {
    r := queries;
    var k := 0;
    while k < |modes|
      invariant k <= |modes|
      invariant r == queries + NotRun(graphs, indexes, modes[..k])
    {
      assert modes[..k + 1] == modes[..k] + [modes[k]];
      r := r[modes[k] := Filled(graphs, indexes, -1.0)];
      k := k + 1;
    }
    assert modes[..k] == modes;
  }

  /** The query tables with cell (g, i) of each mode's table set to that mode's value, mode after mode. */
  function Recorded(queries: map<string, Table>, modes: seq<string>, g: string, i: string, values: map<string, real>): (r: map<string, Table>)
    requires forall m :: m in modes ==> m in queries && m in values
    ensures forall m :: m in r <==> m in queries
  {
    if |modes| == 0 then queries
    else
      var front := Recorded(queries, modes[..|modes| - 1], g, i, values);
      var m := modes[|modes| - 1];
      front[m := SetCell(front[m], g, i, Some(values[m]))]
  }

  /** Recording changes exactly cell (g, i) of the modes' tables, to each mode's value. */
  lemma {:induction false} RecordedCells(queries: map<string, Table>, modes: seq<string>, g: string, i: string, values: map<string, real>,
                                         m: string, h: string, j: string)
    requires forall m :: m in modes ==> m in queries && m in values
    requires m in queries
    ensures At(Recorded(queries, modes, g, i, values)[m], h, j) ==
            if m in modes && h == g && j == i then Some(values[m]) else At(queries[m], h, j)
  {
    if |modes| > 0 {
      var front := modes[..|modes| - 1];
      RecordedCells(queries, front, g, i, values, m, h, j);
      InFrontOrLast(modes, m);
    }
  }

  /** The results directory after `save`: the three scalar tables and one file per mode, other files kept. */
  function SavedFiles(files: map<string, Table>, sizes: Table, memory: Table, creation: Table,
                      queries: map<string, Table>, modes: seq<string>): map<string, Table>
    requires forall m :: m in modes ==> m in queries
  {
    if |modes| == 0 then files[IndexSizeFile := sizes][TrainMemoryFile := memory][CreationTimeFile := creation]
    else
      var m := modes[|modes| - 1];
      SavedFiles(files, sizes, memory, creation, queries, modes[..|modes| - 1])[QueryTimeFile(m) := queries[m]]
  }

  /** What `save` writes reads back: each file holds its table, and no other file changes. */
  lemma {:induction false} SavedFilesHold(files: map<string, Table>, sizes: Table, memory: Table, creation: Table,
                                          queries: map<string, Table>, modes: seq<string>)
    requires forall m :: m in modes ==> m in queries
    ensures var r := SavedFiles(files, sizes, memory, creation, queries, modes);
            IndexSizeFile in r && r[IndexSizeFile] == sizes && TrainMemoryFile in r && r[TrainMemoryFile] == memory &&
            CreationTimeFile in r && r[CreationTimeFile] == creation &&
            (forall m :: m in modes ==> QueryTimeFile(m) in r && r[QueryTimeFile(m)] == queries[m]) &&
            (forall f :: (f in files && f != IndexSizeFile && f != TrainMemoryFile && f != CreationTimeFile &&
                          (forall m :: m in modes ==> f != QueryTimeFile(m))) ==> f in r && r[f] == files[f])
  {
    if |modes| > 0 {
      var front := modes[..|modes| - 1];
      var last := modes[|modes| - 1];
      SavedFilesHold(files, sizes, memory, creation, queries, front);
      ResultFilesDistinct(last, last);
      forall m | m in modes
        ensures m == last || m in front
      {
        var k :| 0 <= k < |modes| && modes[k] == m;
        if k < |modes| - 1 {
          assert front[k] == m;
        }
      }
      forall m | m in front
        ensures m in modes
      {
        var k :| 0 <= k < |front| && front[k] == m;
        assert modes[k] == m;
      }
      forall m | m in front && m != last
        ensures QueryTimeFile(m) != QueryTimeFile(last)
      {
        ResultFilesDistinct(m, last);
      }
    }
  }

  /** The first mode whose query-time file is missing from the directory, if any. */
  function FirstMissing(files: map<string, Table>, modes: seq<string>): (r: Option<nat>)
    ensures r.Some? ==> r.value < |modes| && QueryTimeFile(modes[r.value]) !in files &&
                        forall k :: 0 <= k < r.value ==> QueryTimeFile(modes[k]) in files
    ensures r.None? ==> forall k :: 0 <= k < |modes| ==> QueryTimeFile(modes[k]) in files
  {
    if |modes| == 0 then None
    else if QueryTimeFile(modes[0]) !in files then Some(0)
    else
      match FirstMissing(files, modes[1..])
      case None => None
      case Some(k) => Some(k + 1)
  }

  /** The query tables read from the directory for the given modes. */
  function LoadedQueries(files: map<string, Table>, modes: seq<string>): (r: map<string, Table>)
    requires forall m :: m in modes ==> QueryTimeFile(m) in files
    ensures forall m :: m in r <==> m in modes
    ensures forall m :: m in r ==> r[m] == files[QueryTimeFile(m)]
  {
    map m | m in modes :: files[QueryTimeFile(m)]
  }

  /** `load`'s check of the size table read back: as many columns as indexes, every column an index, every row a graph. */
  predicate Matches(t: Table, graphs: seq<string>, indexes: seq<string>)
  {
    |t.cols| == |indexes| && (forall i :: i in t.cols ==> i in indexes) && (forall g :: g in t.rows ==> g in graphs)
  }

  /** Every label of xs is one of ys (`for x in xs: if x not in ys: ...`). */
  method AllIn(xs: seq<string>, ys: seq<string>) returns (b: bool)
    ensures b <==> forall x :: x in xs ==> x in ys
  {
    var k := 0;
    while k < |xs|
      invariant k <= |xs| && forall j :: 0 <= j < k ==> xs[j] in ys
    {
      if xs[k] !in ys {
        return false;
      }
      k := k + 1;
    }
    return true;
  }

  // ---------------------------------------------------------------------
  // The runner
  // ---------------------------------------------------------------------

  class Runner {
    var graphNames: seq<string>
    var indexNames: seq<string>
    var labelGenModes: seq<string>
    var indexSizes: Table
    var indexTrainMemory: Table
    var indexCreationTimings: Table
    var queryTimings: map<string, Table>
    /** The results directory: file name to the table its CSV file holds. */
    var results: map<string, Table>

    /** Every mode has a query table. */
    predicate Valid()
      reads this
    {
      forall m :: m in labelGenModes ==> m in queryTimings
    }

    /** Every table has one row per graph and one column per index, every cell -1. */
    predicate IsReset()
      reads this
    {
      indexSizes == Filled(graphNames, indexNames, -1.0) &&
      indexTrainMemory == Filled(graphNames, indexNames, -1.0) &&
      indexCreationTimings == Filled(graphNames, indexNames, -1.0) &&
      forall m :: m in labelGenModes ==> m in queryTimings && queryTimings[m] == Filled(graphNames, indexNames, -1.0)
    }

    /** The runner over the given indexes, graphs and modes, reset; the directory holds what an earlier run left. */
    constructor(indexes: seq<string>, graphs: seq<string>, modes: seq<string>, existing: map<string, Table>)
      ensures graphNames == graphs && indexNames == indexes && labelGenModes == modes && results == existing
      ensures Valid() && IsReset() && queryTimings == NotRun(graphs, indexes, modes)
    {
      graphNames, indexNames, labelGenModes := graphs, indexes, modes;
      results := existing;
      indexSizes := Filled(graphs, indexes, -1.0);
      indexTrainMemory := Filled(graphs, indexes, -1.0);
      indexCreationTimings := Filled(graphs, indexes, -1.0);
      queryTimings := NotRun(graphs, indexes, modes);
    }

    /** `reset`: every table fresh with every cell -1 (not run); tables of other keys are kept. */
    method Reset()
      modifies this
      ensures graphNames == old(graphNames) && indexNames == old(indexNames) && labelGenModes == old(labelGenModes)
      ensures results == old(results)
      ensures Valid() && IsReset()
      ensures queryTimings == old(queryTimings) + NotRun(graphNames, indexNames, labelGenModes)
    {
      indexSizes := Filled(graphNames, indexNames, -1.0);
      indexTrainMemory := Filled(graphNames, indexNames, -1.0);
      indexCreationTimings := Filled(graphNames, indexNames, -1.0);
      queryTimings := ResetQueries(queryTimings, graphNames, indexNames, labelGenModes);
    }

    /** `save`: each table written to its file in the results directory. */
    method Save()
      requires Valid()
      modifies this
      ensures graphNames == old(graphNames) && indexNames == old(indexNames) && labelGenModes == old(labelGenModes)
      ensures indexSizes == old(indexSizes) && indexTrainMemory == old(indexTrainMemory) &&
              indexCreationTimings == old(indexCreationTimings) && queryTimings == old(queryTimings)
      ensures results == SavedFiles(old(results), indexSizes, indexTrainMemory, indexCreationTimings, queryTimings, labelGenModes)
    {
      var files := results[IndexSizeFile := indexSizes][TrainMemoryFile := indexTrainMemory][CreationTimeFile := indexCreationTimings];
      var k := 0;
      while k < |labelGenModes|
        invariant k <= |labelGenModes|
        invariant files == SavedFiles(old(results), indexSizes, indexTrainMemory, indexCreationTimings, queryTimings, labelGenModes[..k])
      {
        assert labelGenModes[..k + 1][..k] == labelGenModes[..k];
        files := files[QueryTimeFile(labelGenModes[k]) := queryTimings[labelGenModes[k]]];
        k := k + 1;
      }
      assert labelGenModes[..k] == labelGenModes;
      results := files;
    }

    /**
     * `load`: the tables read back from the results directory. False and
     * nothing read when a scalar file is missing; false with the scalar
     * tables and the query tables before the first missing one read when a
     * query file is missing; false after a reset when the size table's
     * columns are not the indexes or a row is not a graph.
     */
    method Load() returns (ok: bool)
      requires Valid()
      modifies this
      ensures graphNames == old(graphNames) && indexNames == old(indexNames) && labelGenModes == old(labelGenModes)
      ensures results == old(results) && Valid()
      ensures var scalars := IndexSizeFile in results && TrainMemoryFile in results && CreationTimeFile in results;
              var missing := FirstMissing(results, labelGenModes);
              (ok <==> scalars && missing.None? && Matches(results[IndexSizeFile], graphNames, indexNames)) &&
              (!scalars ==>
                 indexSizes == old(indexSizes) && indexTrainMemory == old(indexTrainMemory) &&
                 indexCreationTimings == old(indexCreationTimings) && queryTimings == old(queryTimings)) &&
              (scalars && missing.Some? ==>
                 indexSizes == results[IndexSizeFile] && indexTrainMemory == results[TrainMemoryFile] &&
                 indexCreationTimings == results[CreationTimeFile] &&
                 queryTimings == old(queryTimings) + LoadedQueries(results, labelGenModes[..missing.value])) &&
              (ok ==>
                 indexSizes == results[IndexSizeFile] && indexTrainMemory == results[TrainMemoryFile] &&
                 indexCreationTimings == results[CreationTimeFile] &&
                 queryTimings == old(queryTimings) + LoadedQueries(results, labelGenModes)) &&
              (scalars && missing.None? && !ok ==>
                 IsReset() && queryTimings == old(queryTimings) + NotRun(graphNames, indexNames, labelGenModes))
    {
      if IndexSizeFile !in results || TrainMemoryFile !in results || CreationTimeFile !in results {
        return false;
      }
      indexSizes := results[IndexSizeFile];
      indexTrainMemory := results[TrainMemoryFile];
      indexCreationTimings := results[CreationTimeFile];
      var loaded := LoadQueries(queryTimings, results, labelGenModes);
      queryTimings := loaded.0;
      if !loaded.1 {
        return false;
      }
      var cols := AllIn(indexSizes.cols, indexNames);
      var rows := AllIn(indexSizes.rows, graphNames);
      if |indexSizes.cols| != |indexNames| || !cols || !rows {
        Reset();
        Overridden(old(queryTimings), LoadedQueries(results, labelGenModes), NotRun(graphNames, indexNames, labelGenModes));
        return false;
      }
      return true;
    }

    /** The runner's tables and the results directory, as one value. */
    function Sheet(): Sheets
      reads this
    {
      Sheets(indexSizes, indexTrainMemory, indexCreationTimings, queryTimings, results)
    }

    /** One cell of each table written, then `save`. */
    method Record(graphName: string, indexName: string, cells: Cells)
      requires Valid() && forall m :: m in labelGenModes ==> m in cells.queries
      modifies this
      ensures graphNames == old(graphNames) && indexNames == old(indexNames) && labelGenModes == old(labelGenModes)
      ensures Valid()
      ensures Sheet() == Stored(old(Sheet()), labelGenModes, graphName, indexName, cells)
    {
      var sizes := SetCell(indexSizes, graphName, indexName, Some(cells.size));
      var memory := SetCell(indexTrainMemory, graphName, indexName, Some(cells.memory));
      var creation := SetCell(indexCreationTimings, graphName, indexName, Some(cells.creation));
      var queries := RecordQueries(queryTimings, labelGenModes, graphName, indexName, cells.queries);
      indexSizes, indexTrainMemory, indexCreationTimings, queryTimings := sizes, memory, creation, queries;
      Save();
    }

    /**
     * `runAndCollect`: the run's verdict and the values it yields are
     * written to cell (graph, index) of every table, and the tables are
     * saved. Returns (False, code) after a classified failure, (True, -1)
     * after a success, and None when the sweep stops, with nothing written.
     */
    method RunAndCollect(index: string, params: seq<string>, graphFile: string, graphName: string,
                         run: EngineRun, toFloat: string -> Option<real>) returns (r: Option<(bool, real)>)
      requires Valid()
      modifies this
      ensures graphNames == old(graphNames) && indexNames == old(indexNames) && labelGenModes == old(labelGenModes)
      ensures Valid()
      ensures var cells := Collected(run, graphFile, labelGenModes, toFloat);
              (r.None? <==> cells.None?) &&
              (r.Some? ==> Classify(run) != Stopped && r.value == Outcome(Classify(run))) &&
              (cells.None? ==> Sheet() == old(Sheet())) &&
              (cells.Some? ==> Sheet() == Stored(old(Sheet()), labelGenModes, graphName, IndexName(index, params), cells.value))
    {
      var name := IndexName(index, params);
      var cells := Collected(run, graphFile, labelGenModes, toFloat);
      if cells.None? {
        return None;
      }
      CollectedModes(run, graphFile, labelGenModes, toFloat);
      Record(graphName, name, cells.value);
      r := Some(Outcome(Classify(run)));
    }

    /**
     * `setPreviousFailed`: cell (graph, index) of the scalar tables gets
     * the code, and of each query table the code when the mode's query
     * file exists, -5 otherwise; then `save`.
     */
    method SetPreviousFailed(index: string, params: seq<string>, graphFile: string, graphName: string,
                             code: real, fileExists: string -> bool)
      requires Valid()
      modifies this
      ensures graphNames == old(graphNames) && indexNames == old(indexNames) && labelGenModes == old(labelGenModes)
      ensures Valid()
      ensures Sheet() == Stored(old(Sheet()), labelGenModes, graphName, IndexName(index, params),
                                FailureCells(graphFile, labelGenModes, code, fileExists))
    {
      var name := IndexName(index, params);
      Record(graphName, name, FailureCells(graphFile, labelGenModes, code, fileExists));
    }
  }

  /** The runner's tables and its results directory. */
  datatype Sheets = Sheets(sizes: Table, memory: Table, creation: Table, queries: map<string, Table>, results: map<string, Table>)

  /** Cell (g, i) of every table set to the given values, then every table saved. */
  function Stored(s: Sheets, modes: seq<string>, g: string, i: string, cells: Cells): Sheets
    requires forall m :: m in modes ==> m in s.queries && m in cells.queries
  {
    var sizes := SetCell(s.sizes, g, i, Some(cells.size));
    var memory := SetCell(s.memory, g, i, Some(cells.memory));
    var creation := SetCell(s.creation, g, i, Some(cells.creation));
    var queries := Recorded(s.queries, modes, g, i, cells.queries);
    Sheets(sizes, memory, creation, queries, SavedFiles(s.results, sizes, memory, creation, queries, modes))
  }

  /** Storing changes exactly cell (g, i) of every table. */
  lemma StoredCells(s: Sheets, modes: seq<string>, g: string, i: string, cells: Cells, h: string, j: string)
    requires forall m :: m in modes ==> m in s.queries && m in cells.queries
    ensures var r := Stored(s, modes, g, i, cells);
            var here := h == g && j == i;
            At(r.sizes, h, j) == (if here then Some(cells.size) else At(s.sizes, h, j)) &&
            At(r.memory, h, j) == (if here then Some(cells.memory) else At(s.memory, h, j)) &&
            At(r.creation, h, j) == (if here then Some(cells.creation) else At(s.creation, h, j)) &&
            forall m :: m in s.queries ==>
              (m in r.queries &&
               At(r.queries[m], h, j) == if m in modes && here then Some(cells.queries[m]) else At(s.queries[m], h, j))
  {
    forall m | m in s.queries
      ensures At(Stored(s, modes, g, i, cells).queries[m], h, j) ==
              if m in modes && h == g && j == i then Some(cells.queries[m]) else At(s.queries[m], h, j)
    {
      RecordedCells(s.queries, modes, g, i, cells.queries, m, h, j);
    }
  }

  /** After storing, each results file holds its table. */
  lemma StoredSaved(s: Sheets, modes: seq<string>, g: string, i: string, cells: Cells)
    requires forall m :: m in modes ==> m in s.queries && m in cells.queries
    ensures var r := Stored(s, modes, g, i, cells);
            IndexSizeFile in r.results && r.results[IndexSizeFile] == r.sizes &&
            TrainMemoryFile in r.results && r.results[TrainMemoryFile] == r.memory &&
            CreationTimeFile in r.results && r.results[CreationTimeFile] == r.creation &&
            forall m :: m in modes ==> QueryTimeFile(m) in r.results && r.results[QueryTimeFile(m)] == r.queries[m]
  {
    var r := Stored(s, modes, g, i, cells);
    SavedFilesHold(s.results, r.sizes, r.memory, r.creation, r.queries, modes);
  }

  /** What setPreviousFailed writes: the code in the scalar tables and PreviousFailed in the query tables. */
  function FailureCells(graphFile: string, modes: seq<string>, code: real, fileExists: string -> bool): (r: Cells)
    ensures r.size == code && r.memory == code && r.creation == code
    ensures forall m :: m in modes ==>
              (m in r.queries && r.queries[m] == if fileExists(QueryFileName(graphFile, m)) then code else -5.0)
  {
    Cells(code, code, code, PreviousFailed(graphFile, modes, code, fileExists))
  }

  /** The query cells setPreviousFailed writes: the code where the mode's query file exists, -5 where it does not. */
  function PreviousFailed(graphFile: string, modes: seq<string>, code: real, fileExists: string -> bool): (r: map<string, real>)
    ensures forall m :: m in r <==> m in modes
  {
    map m | m in modes :: if fileExists(QueryFileName(graphFile, m)) then code else -5.0
  }

  /**
   * `load` after `save` succeeds on tables over the runner's own graphs and
   * indexes, and reads every table back as it was.
   */
  lemma SaveThenLoad(files: map<string, Table>, sizes: Table, memory: Table, creation: Table,
                     queries: map<string, Table>, modes: seq<string>, graphs: seq<string>, indexes: seq<string>)
    requires forall m :: m in modes ==> m in queries
    requires Matches(sizes, graphs, indexes)
    ensures var r := SavedFiles(files, sizes, memory, creation, queries, modes);
            IndexSizeFile in r && TrainMemoryFile in r && CreationTimeFile in r &&
            FirstMissing(r, modes).None? && Matches(r[IndexSizeFile], graphs, indexes) &&
            r[IndexSizeFile] == sizes && r[TrainMemoryFile] == memory && r[CreationTimeFile] == creation &&
            forall m :: m in modes ==> LoadedQueries(r, modes)[m] == queries[m]
  {
    SavedFilesHold(files, sizes, memory, creation, queries, modes);
  }

  /** A freshly reset table passes load's check. */
  lemma ResetMatches(graphs: seq<string>, indexes: seq<string>)
    ensures Matches(Filled(graphs, indexes, -1.0), graphs, indexes)
  {
  }

  /** Tables written over by a second update whose keys include the first's are the second update's. */
  lemma Overridden(a: map<string, Table>, b: map<string, Table>, c: map<string, Table>)
    requires forall k :: k in b ==> k in c
    ensures (a + b) + c == a + c
  {
  }

  /** Reading the directory, one mode after the other, stopping at the first missing file. */
  method LoadQueries(queries: map<string, Table>, files: map<string, Table>, modes: seq<string>) returns (r: (map<string, Table>, bool))
    requires forall m :: m in modes ==> m in queries
    ensures forall m :: m in modes ==> m in r.0
    ensures r.1 <==> FirstMissing(files, modes).None?
    ensures r.1 ==> r.0 == queries + LoadedQueries(files, modes)
    ensures !r.1 ==> r.0 == queries + LoadedQueries(files, modes[..FirstMissing(files, modes).value])
  {
    var qs := queries;
    var k := 0;
    while k < |modes|
      invariant k <= |modes| && forall j :: 0 <= j < k ==> QueryTimeFile(modes[j]) in files
      invariant qs == queries + LoadedQueries(files, modes[..k])
    {
      if QueryTimeFile(modes[k]) !in files {
        FirstMissingAt(files, modes, k);
        return (qs, false);
      }
      LoadedQueriesStep(queries, files, modes, k);
      qs := qs[modes[k] := files[QueryTimeFile(modes[k])]];
      k := k + 1;
    }
    assert modes[..k] == modes;
    return (qs, true);
  }

  /** Reading one more mode's file adds (or replaces) that mode's table. */
  lemma LoadedQueriesStep(queries: map<string, Table>, files: map<string, Table>, modes: seq<string>, k: nat)
    requires k < |modes| && forall j :: 0 <= j <= k ==> QueryTimeFile(modes[j]) in files
    ensures queries + LoadedQueries(files, modes[..k + 1]) ==
      (queries + LoadedQueries(files, modes[..k]))[modes[k] := files[QueryTimeFile(modes[k])]]
  {
    assert modes[..k + 1] == modes[..k] + [modes[k]];
  }

  /** Cell (g, i) of each mode's query table set, one mode after the other. */
  method RecordQueries(queries: map<string, Table>, modes: seq<string>, g: string, i: string, values: map<string, real>)
    returns (qs: map<string, Table>)
    requires forall m :: m in modes ==> m in queries && m in values
    ensures qs == Recorded(queries, modes, g, i, values)
  {
    qs := queries;
    var k := 0;
    while k < |modes|
      invariant k <= |modes|
      invariant qs == Recorded(queries, modes[..k], g, i, values)
    {
      RecordedStep(queries, modes, g, i, values, k);
      var m := modes[k];
      qs := qs[m := SetCell(qs[m], g, i, Some(values[m]))];
      k := k + 1;
    }
    assert modes[..k] == modes;
  }

  lemma RecordedStep(queries: map<string, Table>, modes: seq<string>, g: string, i: string, values: map<string, real>, k: nat)
    requires k < |modes| && forall m :: m in modes ==> m in queries && m in values
    ensures var front := Recorded(queries, modes[..k], g, i, values);
            Recorded(queries, modes[..k + 1], g, i, values) == front[modes[k] := SetCell(front[modes[k]], g, i, Some(values[modes[k]]))]
  {
    assert modes[..k + 1][..k] == modes[..k];
  }

  /** The first missing file is the one the loop stops at. */
  lemma {:induction false} FirstMissingAt(files: map<string, Table>, modes: seq<string>, k: nat)
    requires k < |modes| && QueryTimeFile(modes[k]) !in files
    requires forall j :: 0 <= j < k ==> QueryTimeFile(modes[j]) in files
    ensures FirstMissing(files, modes) == Some(k)
  {
    if k > 0 {
      FirstMissingAt(files, modes[1..], k - 1);
    }
  }
}
