/**
 * The benchmark sweeps of runner/benchmarker.py. runSynth runs every index
 * on every generated graph (node size x label count x degree x label
 * distribution x graph model); runReal runs every index on the named
 * real-world graphs, and on a second list of graphs only when the first
 * ones all succeeded. Both save a checkpoint before every benchmark cell,
 * resume from it after an interruption, and remove it at the end.
 *
 * The engine is an oracle: the run it would produce for an index, its
 * parameters and a graph file is a parameter, as are Python's `float`, the
 * file-existence test and the query-generation modes. A sweep is specified
 * by its plan, the sequence of actions it takes (a run, or a cell recorded
 * as failed without running); the runner's tables end up as the plan
 * replayed on the tables it started from.
 */
module Benchmarker {
  import opened Text
  import opened Tables
  import opened CStrings
  import opened BenchmarkRunner
  import opened ContinueState

  const GeneratedDir: string := "./workload/generated/"

  /** runSynth's label distributions: only the exponential one. */
  const Distributions: seq<string> := ["exp"]

  // ---------------------------------------------------------------------
  // Graph names
  // ---------------------------------------------------------------------

  /** A graph model the generator knows; any other makes both naming functions exit. */
  predicate KnownModel(model: string)
  {
    model == "er" || model == "pa" || model == "ff" || model == "pl"
  }

  /**
   * The name `toNameAndGenerate` gives a generated graph (and under which
   * the graph file is written): the model, "V" and the node count in
   * thousands, then "kD" and the degree ("k" and the degree for ff, "ka1.95"
   * for pl), "L" and the label count, and the distribution. None where the
   * source exits.
   */
  function GraphName(nodes: nat, labels: nat, degree: nat, dist: string, model: string): (r: Option<string>)
    ensures r.Some? <==> KnownModel(model)
    ensures r.Some? ==> |r.value| > |model| && r.value[..|model|] == model && r.value[|model|] == 'V'
  {
    var size := "V" + NatToString(nodes / 1000);
    var tail := "L" + NatToString(labels) + dist;
    if model == "er" || model == "pa" then Some(model + size + "kD" + NatToString(degree) + tail)
    else if model == "ff" then Some(model + size + "k" + NatToString(degree) + tail)
    else if model == "pl" then Some(model + size + "ka" + "1.95" + tail)
    else None
  }

  /** `toName` as written: its "pa" branch leaves out the model prefix; the other branches are GraphName's. */
  function ToNameAsWritten(nodes: nat, labels: nat, degree: nat, dist: string, model: string): (r: Option<string>)
    ensures r.Some? <==> KnownModel(model)
  {
    if model == "pa" then Some("V" + NatToString(nodes / 1000) + "kD" + NatToString(degree) + "L" + NatToString(labels) + dist)
    else GraphName(nodes, labels, degree, dist, model)
  }

  /**
   * For the "pa" model, `toName` as written names a row that no generated
   * graph has: every generated name starts with its model, and the
   * as-written name starts with "V". The sweep then writes its results to a
   * row outside the runner's graph list, for a graph file that was never
   * generated.
   */
  lemma ToNameAsWrittenMissesRow(nodes: nat, labels: nat, degree: nat, dist: string)
    ensures ToNameAsWritten(nodes, labels, degree, dist, "pa").Some?
    ensures forall n, l, d, s, m :: GraphName(n, l, d, s, m).Some? ==>
              GraphName(n, l, d, s, m).value != ToNameAsWritten(nodes, labels, degree, dist, "pa").value
  {
    var bad := ToNameAsWritten(nodes, labels, degree, dist, "pa").value;
    forall n, l, d, s, m | GraphName(n, l, d, s, m).Some?
      ensures GraphName(n, l, d, s, m).value != bad
    {
      var good := GraphName(n, l, d, s, m).value;
      assert good[0] == good[..|m|][0] == m[0];
    }
  }

  /** For every other model, `toName` as written agrees with the generated name. */
  lemma ToNameAsWrittenElsewhere(nodes: nat, labels: nat, degree: nat, dist: string, model: string)
    requires model != "pa"
    ensures ToNameAsWritten(nodes, labels, degree, dist, model) == GraphName(nodes, labels, degree, dist, model)
  {
  }

  /** The concatenation of f over xs, in order. */
  function FlatMap<T>(xs: seq<T>, f: T -> seq<string>): seq<string>
  {
    if |xs| == 0 then [] else FlatMap(xs[..|xs| - 1], f) + f(xs[|xs| - 1])
  }

  /** Whatever f yields for an element of xs is in the concatenation. */
  lemma {:induction false} FlatMapHas<T>(xs: seq<T>, f: T -> seq<string>, k: nat, y: string)
    requires k < |xs| && y in f(xs[k])
    ensures y in FlatMap(xs, f)
  {
    if k < |xs| - 1 {
      FlatMapHas(xs[..|xs| - 1], f, k, y);
    }
  }

  /** The parameters runSynth sweeps over. */
  datatype Grid = Grid(nodeSizes: seq<nat>, labelSizes: seq<nat>, degrees: seq<nat>, dists: seq<string>, models: seq<string>)

  /** runSynth's grid: the given lists and the exponential label distribution. */
  function SynthGrid(nodeSizes: seq<nat>, labelSizes: seq<nat>, degrees: seq<nat>, models: seq<string>): Grid
  {
    Grid(nodeSizes, labelSizes, degrees, Distributions, models)
  }

  /** A benchmark cell of runSynth's loops: positions in the node sizes, label sizes, degrees, distributions and models. */
  datatype Cell = Cell(node: nat, labels: nat, degree: nat, dist: nat, model: nat)

  const Origin: Cell := Cell(0, 0, 0, 0, 0)

  /** The generated name of a graph, as a one-element list (none for an unknown model). */
  function NameOf(nodes: nat, labels: nat, degree: nat, dist: string, model: string): seq<string>
  {
    match GraphName(nodes, labels, degree, dist, model)
    case Some(name) => [name]
    case None => []
  }

  /** runSynth's graph list: one name per combination, in `itertools.product` order. */
  function GraphNames(g: Grid): seq<string>
  {
    FlatMap(g.nodeSizes, (v: nat) =>
      FlatMap(g.labelSizes, (l: nat) =>
        FlatMap(g.degrees, (d: nat) =>
          FlatMap(g.dists, (s: string) =>
            FlatMap(g.models, (m: string) => NameOf(v, l, d, s, m))))))
  }

  predicate InGrid(g: Grid, c: Cell)
  {
    c.node < |g.nodeSizes| && c.labels < |g.labelSizes| && c.degree < |g.degrees| &&
    c.dist < |g.dists| && c.model < |g.models|
  }

  predicate ModelsKnown(g: Grid)
  {
    forall o :: 0 <= o < |g.models| ==> KnownModel(g.models[o])
  }

  /** The graph list is built without exiting: no cell, or every model known. */
  predicate Runnable(g: Grid)
  {
    |g.nodeSizes| == 0 || |g.labelSizes| == 0 || |g.degrees| == 0 || |g.dists| == 0 || ModelsKnown(g)
  }

  /** The name of a cell's graph. */
  function CellName(g: Grid, c: Cell): string
    requires InGrid(g, c) && Runnable(g)
  {
    GraphName(g.nodeSizes[c.node], g.labelSizes[c.labels], g.degrees[c.degree], g.dists[c.dist], g.models[c.model]).value
  }

  /** Every cell's graph is in the graph list, so the runner has a row for it. */
  lemma CellNamed(g: Grid, c: Cell)
    requires InGrid(g, c) && Runnable(g)
    ensures CellName(g, c) in GraphNames(g)
  {
    var v, l, d, s, m := g.nodeSizes[c.node], g.labelSizes[c.labels], g.degrees[c.degree], g.dists[c.dist], g.models[c.model];
    var name := CellName(g, c);
    var fm := (m: string) => NameOf(v, l, d, s, m);
    FlatMapHas(g.models, fm, c.model, name);
    var fs := (s: string) => FlatMap(g.models, (m: string) => NameOf(v, l, d, s, m));
    FlatMapHas(g.dists, fs, c.dist, name);
    var fd := (d: nat) => FlatMap(g.dists, (s: string) => FlatMap(g.models, (m: string) => NameOf(v, l, d, s, m)));
    FlatMapHas(g.degrees, fd, c.degree, name);
    var fl := (l: nat) => FlatMap(g.degrees, (d: nat) => FlatMap(g.dists, (s: string) =>
                FlatMap(g.models, (m: string) => NameOf(v, l, d, s, m))));
    FlatMapHas(g.labelSizes, fl, c.labels, name);
    var fv := (v: nat) => FlatMap(g.labelSizes, (l: nat) => FlatMap(g.degrees, (d: nat) =>
                FlatMap(g.dists, (s: string) => FlatMap(g.models, (m: string) => NameOf(v, l, d, s, m)))));
    FlatMapHas(g.nodeSizes, fv, c.node, name);
  }

  // ---------------------------------------------------------------------
  // Loop order
  // ---------------------------------------------------------------------

  /** The cell after the model loop ends (or breaks): the next distribution, degree, label count or node size. */
  function Bump(g: Grid, c: Cell): Cell
  {
    if c.dist + 1 < |g.dists| then c.(dist := c.dist + 1, model := 0)
    else if c.degree + 1 < |g.degrees| then Cell(c.node, c.labels, c.degree + 1, 0, 0)
    else if c.labels + 1 < |g.labelSizes| then Cell(c.node, c.labels + 1, 0, 0, 0)
    else Cell(c.node + 1, 0, 0, 0, 0)
  }

  /** The next cell of the nested loops; a resumed loop restarts at 0 once it has run out. */
  function Advance(g: Grid, c: Cell): Cell
  {
    if c.model + 1 < |g.models| then c.(model := c.model + 1) else Bump(g, c)
  }

  // ---------------------------------------------------------------------
  // Plans
  // ---------------------------------------------------------------------

  /**
   * What the sweep does not know: the engine's runs, `float`,
   * `os.path.exists` and the query modes; with them `collect`, what
   * runAndCollect reads from a run's output for a graph file.
   */
  datatype Environment = Env(engine: (string, seq<string>, string) -> EngineRun, toFloat: string -> Option<real>,
                             fileExists: string -> bool, modes: seq<string>,
                             collect: (EngineRun, string) -> Option<Cells>)

  /** `collect` is the runner's reading of the output, under the environment's modes and `float`. */
  ghost predicate Collects(e: Environment)
  {
    forall run, file {:trigger Collected(run, file, e.modes, e.toFloat)} ::
      e.collect(run, file) == Collected(run, file, e.modes, e.toFloat)
  }

  type Env = e: Environment | Collects(e)
    witness Env((index, params, file) => EngineRun(0, "", ""), s => None, file => false, [],
                (run, file) => Collected(run, file, [], s => None))

  /** A run stops the sweep exactly when runAndCollect reads nothing from it, which a failed run never is. */
  lemma CollectedRun(env: Env, run: EngineRun, file: string)
    ensures env.collect(run, file) == Collected(run, file, env.modes, env.toFloat)
    ensures env.collect(run, file).None? ==> !Classify(run).Failed?
    ensures env.collect(run, file).Some? ==>
              Classify(run) != Stopped && forall m :: m in env.modes ==> m in env.collect(run, file).value.queries
  {
    if Collected(run, file, env.modes, env.toFloat).Some? {
      CollectedModes(run, file, env.modes, env.toFloat);
    }
  }

  /**
   * One step of a sweep at checkpoint position (index, at): the engine run
   * on a graph, or the cell recorded as failed with a code without running.
   */
  datatype Action =
    | Ran(index: nat, at: Cell, column: string, graph: string, file: string, run: EngineRun)
    | Marked(index: nat, at: Cell, column: string, graph: string, file: string, code: real)

  /** The action that ends the sweep: a run whose output cannot be collected (`sys.exit(1)`). */
  predicate Halts(env: Env, a: Action)
  {
    a.Ran? && env.collect(a.run, a.file).None?
  }

  predicate Halted(env: Env, log: seq<Action>)
  {
    |log| > 0 && Halts(env, log[|log| - 1])
  }

  /** The failure runSynth prunes by: (failedAtLabels, failedAtDegree, lastReturnStatusCode). */
  datatype Prune = Prune(labels: int, degree: int, code: real)

  /** ALC is presumed to fail with the memory code from 17 labels and degree 1; nothing is presumed of the others. */
  function FirstPrune(index: string): Prune
  {
    if index == "ALC" then Prune(17, 1, -2.0) else Prune(-1, -1, -1.0)
  }

  /** A cell at least as large, in labels and degree, as the failure. */
  predicate Dominated(p: Prune, labels: nat, degree: nat)
  {
    p.labels != -1 && p.degree != -1 && labels >= p.labels && degree >= p.degree
  }

  /**
   * One cell of runSynth's loops with prune state p: a dominated cell is
   * recorded with the failure's code and the model loop broken; otherwise
   * the engine runs, and a failure becomes the prune state and breaks the
   * model loop. Gives the action, the next cell and the next prune state.
   */
  function Visit(g: Grid, env: Env, i: nat, index: (string, seq<string>), c: Cell, p: Prune): (r: (Action, Cell, Prune))
    requires Runnable(g) && InGrid(g, c)
    ensures r.1 == Advance(g, c) || r.1 == Bump(g, c)
    ensures r.0.index == i && r.0.at == c
  {
    var labels, degree := g.labelSizes[c.labels], g.degrees[c.degree];
    var name := CellName(g, c);
    var file := GeneratedDir + name + ".nt";
    var column := IndexName(index.0, index.1);
    if Dominated(p, labels, degree) then (Marked(i, c, column, name, file, p.code), Bump(g, c), p)
    else
      var run := env.engine(index.0, index.1, file);
      var v := Classify(run);
      (Ran(i, c, column, name, file, run),
       if v.Failed? then Bump(g, c) else Advance(g, c),
       if v.Failed? then Prune(labels, degree, v.code) else p)
  }

  /** The actions of runSynth's loops for one index, from cell c with prune state p, up to a halting run. */
  function IndexPlan(g: Grid, env: Env, i: nat, index: (string, seq<string>), c: Cell, p: Prune): seq<Action>
    requires Runnable(g)
    decreases |g.nodeSizes| - c.node, |g.labelSizes| - c.labels, |g.degrees| - c.degree,
              |g.dists| - c.dist, |g.models| - c.model
  {
    if c.node >= |g.nodeSizes| then []
    else if !InGrid(g, c) then IndexPlan(g, env, i, index, Advance(g, c), p)
    else
      var r := Visit(g, env, i, index, c, p);
      if Halts(env, r.0) then [r.0] else [r.0] + IndexPlan(g, env, i, index, r.1, r.2)
  }

  /** runSynth's actions from index i, cell c on: each index from its first prune state, later indexes from the first cell. */
  function SynthPlan(g: Grid, env: Env, indexes: seq<(string, seq<string>)>, i: nat, c: Cell): seq<Action>
    requires Runnable(g)
    decreases |indexes| - i
  {
    if i >= |indexes| then []
    else
      var p := IndexPlan(g, env, i, indexes[i], c, FirstPrune(indexes[i].0));
      if Halted(env, p) then p else p + SynthPlan(g, env, indexes, i + 1, Origin)
  }

  /** The runner's tables after one action: runAndCollect's or setPreviousFailed's writes. */
  function Apply(s: Sheets, env: Env, a: Action): (r: Sheets)
    requires forall m :: m in env.modes ==> m in s.queries
    ensures forall m :: m in r.queries <==> m in s.queries
  {
    match a
    case Ran(_, _, column, graph, file, run) =>
      (match env.collect(run, file)
       case None => s
       case Some(cells) =>
         CollectedRun(env, run, file);
         Stored(s, env.modes, graph, column, cells))
    case Marked(_, _, column, graph, file, code) =>
      Stored(s, env.modes, graph, column, FailureCells(file, env.modes, code, env.fileExists))
  }

  /** The runner's tables after a sequence of actions. */
  function Replay(s: Sheets, env: Env, log: seq<Action>): (r: Sheets)
    requires forall m :: m in env.modes ==> m in s.queries
    ensures forall m :: m in r.queries <==> m in s.queries
  {
    if |log| == 0 then s else Apply(Replay(s, env, log[..|log| - 1]), env, log[|log| - 1])
  }

  /** Replaying two plans one after the other is replaying them joined. */
  lemma {:induction false} ReplayJoin(s: Sheets, env: Env, a: seq<Action>, b: seq<Action>)
    requires forall m :: m in env.modes ==> m in s.queries
    ensures Replay(s, env, a + b) == Replay(Replay(s, env, a), env, b)
    decreases |b|
  {
    if |b| == 0 {
      assert a + b == a;
    } else {
      var front, last := b[..|b| - 1], b[|b| - 1];
      assert (a + b)[..|a + b| - 1] == a + front;
      assert (a + b)[|a + b| - 1] == last;
      ReplayJoin(s, env, a, front);
      var mid := Replay(s, env, a);
      calc {
        Replay(s, env, a + b);
        Apply(Replay(s, env, a + front), env, last);
        Apply(Replay(mid, env, front), env, last);
        Replay(mid, env, b);
      }
    }
  }

  // ---------------------------------------------------------------------
  // Checkpoints
  // ---------------------------------------------------------------------

  /** runSynth's checkpoint entries, in the order the dictionary lists them. */
  function SynthPairs(i: nat, c: Cell): seq<(string, string)>
  {
    [("currentIndex", NatToString(i)), ("currentNodeSize", NatToString(c.node)), ("currentLabelSize", NatToString(c.labels)),
     ("currentModel", NatToString(c.model)), ("currentDegree", NatToString(c.degree)),
     ("currentLabelDistribution", NatToString(c.dist))]
  }

  /** `int(state[key])`: None for a missing key, a value that is not an integer, or a negative one. */
  function CursorValue(state: map<string, string>, key: string): Option<nat>
  {
    if key !in state then None
    else match ParseInt(state[key])
      case Some(n) => if n >= 0 then Some(n as nat) else None
      case None => None
  }

  /** The position a loaded runSynth checkpoint resumes at. */
  function SynthCursor(state: map<string, string>): Option<(nat, Cell)>
  {
    match (CursorValue(state, "currentIndex"), CursorValue(state, "currentNodeSize"), CursorValue(state, "currentLabelSize"),
           CursorValue(state, "currentDegree"), CursorValue(state, "currentLabelDistribution"), CursorValue(state, "currentModel"))
    case (Some(i), Some(node), Some(labels), Some(degree), Some(dist), Some(model)) => Some((i, Cell(node, labels, degree, dist, model)))
    case _ => None
  }

  /** The lines of the checkpoint file saved at a position. */
  function SynthLines(i: nat, c: Cell): seq<string>
  {
    [PairLine("currentIndex", NatToString(i)), PairLine("currentNodeSize", NatToString(c.node)),
     PairLine("currentLabelSize", NatToString(c.labels)), PairLine("currentModel", NatToString(c.model)),
     PairLine("currentDegree", NatToString(c.degree)), PairLine("currentLabelDistribution", NatToString(c.dist))]
  }

  /** The text of the checkpoint file saved at a position. */
  function SynthState(i: nat, c: Cell): string
  {
    Terminated(SynthLines(i, c))
  }

  /** The checkpoint text is what saveState writes for runSynth's entries. */
  lemma SynthStateSaved(i: nat, c: Cell)
    ensures Terminated(PairLines(SynthPairs(i, c))) == SynthState(i, c)
  {
    var pairs := SynthPairs(i, c);
    PairLinesAt(pairs);
    assert PairLines(pairs) == SynthLines(i, c);
  }

  /** The checkpoint file after runSynth's actions `log` when it held `before`: the last action's cell, if any. */
  function SynthSaved(log: seq<Action>, before: Option<string>): Option<string>
  {
    if |log| == 0 then before else Some(SynthState(log[|log| - 1].index, log[|log| - 1].at))
  }

  /** Saving after one more action leaves that action's cell. */
  lemma SynthSavedSnoc(log: seq<Action>, a: Action, before: Option<string>)
    ensures SynthSaved(log + [a], before) == Some(SynthState(a.index, a.at))
  {
    assert (log + [a])[|log|] == a;
  }

  /** Saving after two logs is saving after the second from what the first left. */
  lemma SynthSavedJoin(log: seq<Action>, sub: seq<Action>, before: Option<string>)
    ensures SynthSaved(log + sub, before) == SynthSaved(sub, SynthSaved(log, before))
  {
    if |sub| == 0 {
      assert log + sub == log;
    } else {
      assert (log + sub)[|log + sub| - 1] == sub[|sub| - 1];
    }
  }

  /** Each saved line is its entry's line. */
  lemma {:induction false} PairLinesAt(pairs: seq<(string, string)>)
    ensures forall k :: 0 <= k < |pairs| ==> PairLines(pairs)[k] == PairLine(pairs[k].0, pairs[k].1)
  {
    if |pairs| > 0 {
      PairLinesAt(pairs[..|pairs| - 1]);
    }
  }

  /** Where the sweep starts: position 0 without a checkpoint or when the results cannot be loaded, else the checkpoint's position (None when it cannot be read). */
  function Start(state: Option<string>, loads: bool, cursor: map<string, string> -> Option<(nat, Cell)>): Option<(nat, Cell)>
  {
    if state.None? || !loads then Some((0, Origin))
    else match Loaded(Lines(state.value))
      case None => None
      case Some(m) => cursor(m)
  }

  /** `load` succeeds on a results directory: every file present and the size table over the runner's graphs and indexes. */
  predicate Loads(files: map<string, Table>, graphs: seq<string>, indexes: seq<string>, modes: seq<string>)
  {
    IndexSizeFile in files && TrainMemoryFile in files && CreationTimeFile in files &&
    FirstMissing(files, modes).None? && Matches(files[IndexSizeFile], graphs, indexes)
  }

  /** The runner's column names of the indexes. */
  function IndexNames(indexes: seq<(string, seq<string>)>): (r: seq<string>)
    ensures |r| == |indexes| && forall k :: 0 <= k < |r| ==> r[k] == IndexName(indexes[k].0, indexes[k].1)
  {
    seq(|indexes|, k requires 0 <= k < |indexes| => IndexName(indexes[k].0, indexes[k].1))
  }

  // ---------------------------------------------------------------------
  // runSynth
  // ---------------------------------------------------------------------

  /** The tables of a runner just created: every cell -1 (not run), the results directory as found. */
  function FreshSheet(graphs: seq<string>, indexes: seq<string>, modes: seq<string>, files: map<string, Table>): Sheets
  {
    Sheets(Filled(graphs, indexes, -1.0), Filled(graphs, indexes, -1.0), Filled(graphs, indexes, -1.0),
           NotRun(graphs, indexes, modes), files)
  }

  /**
   * The runner's tables once Resume is done: as created when there is no
   * state to continue or a scalar file is missing; otherwise as `load`
   * leaves them: the scalar tables and the query tables before the first
   * missing one read back, or everything as created when the size table
   * does not fit the runner.
   */
  function ResumedSheet(graphs: seq<string>, indexes: seq<string>, modes: seq<string>, files: map<string, Table>,
                        state: Option<string>): (s: Sheets)
    ensures s.results == files && forall m :: m in s.queries <==> m in modes
    ensures state.None? ==> s == FreshSheet(graphs, indexes, modes, files)
    ensures state.Some? && Loads(files, graphs, indexes, modes) ==>
              s.sizes == files[IndexSizeFile] && s.memory == files[TrainMemoryFile] && s.creation == files[CreationTimeFile] &&
              forall m :: m in modes ==> s.queries[m] == files[QueryTimeFile(m)]
    ensures state.Some? && !Loads(files, graphs, indexes, modes) ==>
              forall m :: m in modes && QueryTimeFile(m) !in files ==> s.queries[m] == Filled(graphs, indexes, -1.0)
  {
    var created := FreshSheet(graphs, indexes, modes, files);
    if state.None? || IndexSizeFile !in files || TrainMemoryFile !in files || CreationTimeFile !in files then created
    else
      var read := created.(sizes := files[IndexSizeFile], memory := files[TrainMemoryFile], creation := files[CreationTimeFile]);
      match FirstMissing(files, modes)
      case Some(k) => read.(queries := created.queries + LoadedQueries(files, modes[..k]))
      case None =>
        if Matches(files[IndexSizeFile], graphs, indexes) then read.(queries := created.queries + LoadedQueries(files, modes))
        else created
  }

  /** Creates the runner and the checkpoint and resumes from the checkpoint when the results load. */
  method Resume(graphs: seq<string>, indexes: seq<string>, modes: seq<string>, existingResults: map<string, Table>,
                existingState: Option<string>, cursor: map<string, string> -> Option<(nat, Cell)>)
    returns (runner: Runner, checkpoint: Checkpoint, start: Option<(nat, Cell)>)
    ensures fresh(runner) && fresh(checkpoint) && runner.Valid()
    ensures runner.graphNames == graphs && runner.indexNames == indexes && runner.labelGenModes == modes
    ensures runner.results == existingResults
    ensures runner.Sheet() == ResumedSheet(graphs, indexes, modes, existingResults, existingState)
    ensures start == Start(existingState, Loads(existingResults, graphs, indexes, modes), cursor)
    ensures checkpoint.file == if existingState.Some? && !Loads(existingResults, graphs, indexes, modes) then None else existingState
  {
    runner := new Runner(indexes, graphs, modes, existingResults);
    checkpoint := new Checkpoint(existingState);
    start := Some((0, Origin));
    if checkpoint.HasStateToContinue() {
      var ok := runner.Load();
      if ok {
        var state := checkpoint.LoadState();
        if state.None? {
          return runner, checkpoint, None;
        }
        start := cursor(state.value);
      } else {
        var _ := checkpoint.Cleanup();
      }
    }
  }

  /** One cell of runSynth's loops: checkpoint, then record the failure or run the engine. */
  method SynthStep(runner: Runner, checkpoint: Checkpoint, g: Grid, env: Env, i: nat, index: (string, seq<string>),
                   c: Cell, p: Prune) returns (a: Action, next: Cell, p': Prune)
    requires runner.Valid() && runner.labelGenModes == env.modes
    requires Runnable(g) && InGrid(g, c)
    modifies runner, checkpoint
    ensures runner.Valid() && runner.labelGenModes == old(runner.labelGenModes)
    ensures runner.graphNames == old(runner.graphNames) && runner.indexNames == old(runner.indexNames)
    ensures a == Visit(g, env, i, index, c, p).0 && a.index == i && a.at == c
    ensures !Halts(env, a) ==> next == Visit(g, env, i, index, c, p).1 && p' == Visit(g, env, i, index, c, p).2
    ensures runner.Sheet() == Apply(old(runner.Sheet()), env, a)
    ensures checkpoint.file == Some(SynthState(i, c))
  {
    checkpoint.SaveState(SynthPairs(i, c));
    SynthStateSaved(i, c);
    var labels, degree := g.labelSizes[c.labels], g.degrees[c.degree];
    var name := CellName(g, c);
    var file := GeneratedDir + name + ".nt";
    var column := IndexName(index.0, index.1);
    if Dominated(p, labels, degree) {
      runner.SetPreviousFailed(index.0, index.1, file, name, p.code, env.fileExists);
      a, next, p' := Marked(i, c, column, name, file, p.code), Bump(g, c), p;
      return;
    }
    var run := env.engine(index.0, index.1, file);
    a := Ran(i, c, column, name, file, run);
    var r := runner.RunAndCollect(index.0, index.1, file, name, run, env.toFloat);
    if r.None? {
      next, p' := c, p;
    } else if !r.value.0 {
      next, p' := Bump(g, c), Prune(labels, degree, r.value.1);
    } else {
      next, p' := Advance(g, c), p;
    }
  }

  /** runSynth's loops for one index, from cell `start`. */
  method SweepIndex(runner: Runner, checkpoint: Checkpoint, g: Grid, env: Env, i: nat, index: (string, seq<string>),
                    start: Cell) returns (log: seq<Action>)
    requires runner.Valid() && runner.labelGenModes == env.modes && Runnable(g)
    modifies runner, checkpoint
    ensures runner.Valid() && runner.labelGenModes == old(runner.labelGenModes)
    ensures runner.graphNames == old(runner.graphNames) && runner.indexNames == old(runner.indexNames)
    ensures log == IndexPlan(g, env, i, index, start, FirstPrune(index.0))
    ensures runner.Sheet() == Replay(old(runner.Sheet()), env, log)
    ensures checkpoint.file == SynthSaved(log, old(checkpoint.file))
  {
    ghost var sheet, before := runner.Sheet(), checkpoint.file;
    var c, p := start, FirstPrune(index.0);
    log := [];
    while true
      invariant runner.Valid() && runner.labelGenModes == env.modes
      invariant runner.graphNames == old(runner.graphNames) && runner.indexNames == old(runner.indexNames)
      invariant IndexPlan(g, env, i, index, start, FirstPrune(index.0)) == log + IndexPlan(g, env, i, index, c, p)
      invariant runner.Sheet() == Replay(sheet, env, log)
      invariant checkpoint.file == SynthSaved(log, before)
      decreases |IndexPlan(g, env, i, index, c, p)|
    {
      SeekPlan(g, env, i, index, c, p);
      c := Seek(g, c);
      if c.node >= |g.nodeSizes| {
        return;
      }
      var a, next, p' := SynthStep(runner, checkpoint, g, env, i, index, c, p);
      LogStep(sheet, env, IndexPlan(g, env, i, index, start, FirstPrune(index.0)), log, IndexPlan(g, env, i, index, c, p),
              a, IndexPlan(g, env, i, index, next, p'), Halts(env, a));
      SynthSavedSnoc(log, a, before);
      log := log + [a];
      if Halts(env, a) {
        return;
      }
      c, p := next, p';
    }
  }

  /**
   * One action taken by a sweep loop: a plan that is the log followed by
   * the action (and, unless it halts, the rest) is the longer log followed
   * by the rest, and replaying the longer log applies the action.
   */
  lemma LogJoin(s: Sheets, env: Env, whole: seq<Action>, log: seq<Action>, plan: seq<Action>, sub: seq<Action>,
                rest: seq<Action>, halts: bool)
    requires forall m :: m in env.modes ==> m in s.queries
    requires whole == log + plan
    requires plan == if halts then sub else sub + rest
    ensures halts ==> whole == log + sub
    ensures !halts ==> whole == (log + sub) + rest
    ensures |sub| > 0 ==> (log + sub)[|log + sub| - 1] == sub[|sub| - 1]
    ensures |sub| == 0 ==> log + sub == log
    ensures Replay(s, env, log + sub) == Replay(Replay(s, env, log), env, sub)
  {
    ReplayJoin(s, env, log, sub);
    if !halts {
      JoinAssociative(log, sub, rest);
    }
  }

  lemma LogStep(s: Sheets, env: Env, whole: seq<Action>, log: seq<Action>, plan: seq<Action>, a: Action,
                rest: seq<Action>, halts: bool)
    requires forall m :: m in env.modes ==> m in s.queries
    requires whole == log + plan
    requires plan == if halts then [a] else [a] + rest
    ensures halts ==> whole == log + [a]
    ensures !halts ==> whole == (log + [a]) + rest && |rest| < |plan|
    ensures (log + [a])[|log|] == a
    ensures Replay(s, env, log + [a]) == Apply(Replay(s, env, log), env, a)
  {
    ReplaySnoc(s, env, log, a);
    if !halts {
      JoinAssociative(log, [a], rest);
    }
  }

  /** Replaying a log and one more action is applying the action to the log's replay. */
  lemma ReplaySnoc(s: Sheets, env: Env, log: seq<Action>, a: Action)
    requires forall m :: m in env.modes ==> m in s.queries
    ensures Replay(s, env, log + [a]) == Apply(Replay(s, env, log), env, a)
  {
    assert (log + [a])[..|log|] == log;
  }

  lemma JoinAssociative(a: seq<Action>, b: seq<Action>, c: seq<Action>)
    ensures a + (b + c) == (a + b) + c
  {
  }

  /** The first cell of the grid at or after c in loop order, or a cell past the last node size. */
  function Seek(g: Grid, c: Cell): (r: Cell)
    ensures r.node >= |g.nodeSizes| || InGrid(g, r)
    decreases |g.nodeSizes| - c.node, |g.labelSizes| - c.labels, |g.degrees| - c.degree,
              |g.dists| - c.dist, |g.models| - c.model
  {
    if c.node >= |g.nodeSizes| || InGrid(g, c) then c else Seek(g, Advance(g, c))
  }

  /** Cells outside the grid contribute no action: the plan from c is the plan from the cell Seek finds. */
  lemma {:induction false} SeekPlan(g: Grid, env: Env, i: nat, index: (string, seq<string>), c: Cell, p: Prune)
    requires Runnable(g)
    ensures IndexPlan(g, env, i, index, c, p) == IndexPlan(g, env, i, index, Seek(g, c), p)
    ensures Seek(g, c).node < |g.nodeSizes| ==>
              var r := Visit(g, env, i, index, Seek(g, c), p);
              IndexPlan(g, env, i, index, c, p) ==
                if Halts(env, r.0) then [r.0] else [r.0] + IndexPlan(g, env, i, index, r.1, r.2)
    decreases |g.nodeSizes| - c.node, |g.labelSizes| - c.labels, |g.degrees| - c.degree,
              |g.dists| - c.dist, |g.models| - c.model
  {
    if c.node < |g.nodeSizes| && !InGrid(g, c) {
      SeekPlan(g, env, i, index, Advance(g, c), p);
    }
  }

  /** runSynth's loop over the indexes, from index i0 and cell c0. */
  method SweepFrom(runner: Runner, checkpoint: Checkpoint, g: Grid, env: Env, indexes: seq<(string, seq<string>)>,
                   i0: nat, c0: Cell) returns (log: seq<Action>)
    requires runner.Valid() && runner.labelGenModes == env.modes && Runnable(g)
    modifies runner, checkpoint
    ensures runner.Valid() && runner.labelGenModes == old(runner.labelGenModes)
    ensures runner.graphNames == old(runner.graphNames) && runner.indexNames == old(runner.indexNames)
    ensures log == SynthPlan(g, env, indexes, i0, c0)
    ensures runner.Sheet() == Replay(old(runner.Sheet()), env, log)
    ensures checkpoint.file == SynthSaved(log, old(checkpoint.file))
  {
    ghost var sheet, before := runner.Sheet(), checkpoint.file;
    var i, c := i0, c0;
    log := [];
    while i < |indexes|
      invariant runner.Valid() && runner.labelGenModes == env.modes
      invariant runner.graphNames == old(runner.graphNames) && runner.indexNames == old(runner.indexNames)
      invariant SynthPlan(g, env, indexes, i0, c0) == log + SynthPlan(g, env, indexes, i, c)
      invariant runner.Sheet() == Replay(sheet, env, log)
      invariant checkpoint.file == SynthSaved(log, before)
      decreases |indexes| - i
    {
      var sub := SweepIndex(runner, checkpoint, g, env, i, indexes[i], c);
      IndexPlanAt(g, env, i, indexes[i], c, FirstPrune(indexes[i].0));
      LogJoin(sheet, env, SynthPlan(g, env, indexes, i0, c0), log, SynthPlan(g, env, indexes, i, c), sub,
              SynthPlan(g, env, indexes, i + 1, Origin), Halted(env, sub));
      SynthSavedJoin(log, sub, before);
      log := log + sub;
      if Halted(env, sub) {
        return;
      }
      i, c := i + 1, Origin;
    }
  }

  /** Every action of an index's plan is at that index. */
  lemma {:induction false} IndexPlanAt(g: Grid, env: Env, i: nat, index: (string, seq<string>), c: Cell, p: Prune)
    requires Runnable(g)
    ensures forall k :: 0 <= k < |IndexPlan(g, env, i, index, c, p)| ==> IndexPlan(g, env, i, index, c, p)[k].index == i
    decreases |g.nodeSizes| - c.node, |g.labelSizes| - c.labels, |g.degrees| - c.degree,
              |g.dists| - c.dist, |g.models| - c.model
  {
    if c.node >= |g.nodeSizes| {
    } else if !InGrid(g, c) {
      IndexPlanAt(g, env, i, index, Advance(g, c), p);
    } else {
      var r := Visit(g, env, i, index, c, p);
      if !Halts(env, r.0) {
        IndexPlanAt(g, env, i, index, r.1, r.2);
      }
    }
  }

  /**
   * What `runSynth` leaves on a grid whose models are known: the runner
   * over the grid's graphs and the indexes; the sweep's actions are the
   * plan from where the checkpoint says to resume (none, and stopped, when
   * the results do not load or the checkpoint does not parse); the tables
   * are the plan replayed on the tables as resumed; after a halting run the
   * checkpoint names the cell that halted, and after a finished sweep it is
   * removed.
   */
  ghost predicate SynthOutcome(indexes: seq<(string, seq<string>)>, g: Grid, env: Env, existingResults: map<string, Table>,
                               existingState: Option<string>, runner: Runner, checkpoint: Checkpoint, log: seq<Action>,
                               stopped: bool, resumed: Sheets)
    requires Runnable(g)
    reads runner, checkpoint
  {
    var start := Start(existingState, Loads(existingResults, GraphNames(g), IndexNames(indexes), env.modes), SynthCursor);
    runner.graphNames == GraphNames(g) && runner.indexNames == IndexNames(indexes) &&
    runner.labelGenModes == env.modes && runner.Valid() &&
    resumed == ResumedSheet(GraphNames(g), IndexNames(indexes), env.modes, existingResults, existingState) &&
    runner.Sheet() == Replay(resumed, env, log) &&
    (start.None? ==> log == [] && stopped) &&
    (start.Some? ==> log == SynthPlan(g, env, indexes, start.value.0, start.value.1) && (stopped <==> Halted(env, log))) &&
    (stopped && |log| > 0 ==> checkpoint.file == Some(SynthState(log[|log| - 1].index, log[|log| - 1].at))) &&
    (!stopped ==> checkpoint.file.None?)
  }

  /** `runSynth` on a grid whose models are known. */
  method SynthOnGrid(indexes: seq<(string, seq<string>)>, g: Grid, env: Env, existingResults: map<string, Table>,
                     existingState: Option<string>)
    returns (runner: Runner, checkpoint: Checkpoint, log: seq<Action>, stopped: bool, ghost resumed: Sheets)
    requires Runnable(g)
    ensures fresh(runner) && fresh(checkpoint)
    ensures SynthOutcome(indexes, g, env, existingResults, existingState, runner, checkpoint, log, stopped, resumed)
  {
    var start;
    runner, checkpoint, start := Resume(GraphNames(g), IndexNames(indexes), env.modes, existingResults, existingState,
                                        SynthCursor);
    resumed := runner.Sheet();
    log, stopped := SynthResumed(runner, checkpoint, g, env, indexes, start);
  }

  /** `runSynth` after resuming at `start`: sweep from there, and remove the checkpoint after a finished sweep. */
  method SynthResumed(runner: Runner, checkpoint: Checkpoint, g: Grid, env: Env, indexes: seq<(string, seq<string>)>,
                      start: Option<(nat, Cell)>) returns (log: seq<Action>, stopped: bool)
    requires runner.Valid() && runner.labelGenModes == env.modes && Runnable(g)
    modifies runner, checkpoint
    ensures runner.Valid() && runner.labelGenModes == old(runner.labelGenModes)
    ensures runner.graphNames == old(runner.graphNames) && runner.indexNames == old(runner.indexNames)
    ensures runner.Sheet() == Replay(old(runner.Sheet()), env, log)
    ensures start.None? ==> log == [] && stopped
    ensures start.Some? ==> log == SynthPlan(g, env, indexes, start.value.0, start.value.1) && (stopped <==> Halted(env, log))
    ensures stopped && |log| > 0 ==> checkpoint.file == Some(SynthState(log[|log| - 1].index, log[|log| - 1].at))
    ensures !stopped ==> checkpoint.file.None?
  {
    if start.None? {
      return [], true;
    }
    log := SweepFrom(runner, checkpoint, g, env, indexes, start.value.0, start.value.1);
    stopped := Halted(env, log);
    if !stopped {
      var _ := checkpoint.Cleanup();
    }
  }

  /**
   * `runSynth`: None for the runner when a model is unknown (the source
   * exits while naming the graphs); otherwise the sweep on the grid of the
   * given sizes, degrees, models and the fixed distributions.
   */
  method RunSynth(indexes: seq<(string, seq<string>)>, nodeSizes: seq<nat>, labelSizes: seq<nat>, degrees: seq<nat>,
                  models: seq<string>, env: Env, existingResults: map<string, Table>, existingState: Option<string>)
    returns (runner: Runner?, checkpoint: Checkpoint?, log: seq<Action>, stopped: bool, ghost resumed: Sheets)
    ensures var g := SynthGrid(nodeSizes, labelSizes, degrees, models);
            !Runnable(g) ==> runner == null && checkpoint == null && log == [] && stopped
    ensures var g := SynthGrid(nodeSizes, labelSizes, degrees, models);
            Runnable(g) ==>
              runner != null && checkpoint != null && fresh(runner) && fresh(checkpoint) &&
              SynthOutcome(indexes, g, env, existingResults, existingState, runner, checkpoint, log, stopped, resumed)
  {
    var g := SynthGrid(nodeSizes, labelSizes, degrees, models);
    if !Runnable(g) {
      resumed := Sheets(Filled([], [], 0.0), Filled([], [], 0.0), Filled([], [], 0.0), map[], map[]);
      return null, null, [], true, resumed;
    }
    var r, cp;
    r, cp, log, stopped, resumed := SynthOnGrid(indexes, g, env, existingResults, existingState);
    runner, checkpoint := r, cp;
  }

  // ---------------------------------------------------------------------
  // Properties of runSynth
  // ---------------------------------------------------------------------

  /** Every action of an index's plan is at a grid cell, on that cell's graph and its file, in the index's column. */
  lemma {:induction false} IndexPlanCells(g: Grid, env: Env, i: nat, index: (string, seq<string>), c: Cell, p: Prune)
    requires Runnable(g)
    ensures forall a :: a in IndexPlan(g, env, i, index, c, p) ==>
              InGrid(g, a.at) && a.graph == CellName(g, a.at) && a.file == GeneratedDir + a.graph + ".nt" &&
              a.column == IndexName(index.0, index.1)
    decreases |g.nodeSizes| - c.node, |g.labelSizes| - c.labels, |g.degrees| - c.degree,
              |g.dists| - c.dist, |g.models| - c.model
  {
    if c.node >= |g.nodeSizes| {
    } else if !InGrid(g, c) {
      IndexPlanCells(g, env, i, index, Advance(g, c), p);
    } else {
      var r := Visit(g, env, i, index, c, p);
      if !Halts(env, r.0) {
        IndexPlanCells(g, env, i, index, r.1, r.2);
      }
    }
  }

  /**
   * Every result runSynth records lands in a row and a column the runner
   * has: the graph of each action is in the graph list and its index in
   * the index list.
   */
  lemma {:induction false} SynthRowsKnown(g: Grid, env: Env, indexes: seq<(string, seq<string>)>, i: nat, c: Cell)
    requires Runnable(g)
    ensures forall a :: a in SynthPlan(g, env, indexes, i, c) ==> a.graph in GraphNames(g) && a.column in IndexNames(indexes)
    decreases |indexes| - i
  {
    if i < |indexes| {
      var plan := IndexPlan(g, env, i, indexes[i], c, FirstPrune(indexes[i].0));
      IndexPlanCells(g, env, i, indexes[i], c, FirstPrune(indexes[i].0));
      forall a | a in plan
        ensures a.graph in GraphNames(g) && a.column in IndexNames(indexes)
      {
        CellNamed(g, a.at);
        assert IndexNames(indexes)[i] == a.column;
      }
      SynthRowsKnown(g, env, indexes, i + 1, Origin);
    }
  }

  /** The prune state after one action: a failed run's labels, degree and code, else unchanged. */
  function PruneStep(g: Grid, p: Prune, a: Action): Prune
  {
    if a.Ran? && Classify(a.run).Failed? && InGrid(g, a.at)
    then Prune(g.labelSizes[a.at.labels], g.degrees[a.at.degree], Classify(a.run).code) else p
  }

  /** An action that agrees with prune state q: a recorded failure is dominated and carries q's code; a run is not dominated. */
  predicate Pruned(g: Grid, q: Prune, a: Action)
    requires InGrid(g, a.at)
  {
    var labels, degree := g.labelSizes[a.at.labels], g.degrees[a.at.degree];
    (a.Marked? ==> Dominated(q, labels, degree) && a.code == q.code) && (a.Ran? ==> !Dominated(q, labels, degree))
  }

  /**
   * A log that agrees, action by action, with the prune state read off the
   * log itself: starting from p, each action is at a grid cell and agrees
   * with the state left by the actions before it.
   */
  predicate PrunedLog(g: Grid, log: seq<Action>, p: Prune)
  {
    |log| == 0 ||
    (InGrid(g, log[0].at) && Pruned(g, p, log[0]) && PrunedLog(g, log[1..], PruneStep(g, p, log[0])))
  }

  /**
   * Pruning is sound and never skips a cell it should run: a cell is
   * recorded as failed without running exactly when it is at least as
   * large as the last failure before it (or ALC's presumed one), and then
   * with that failure's code.
   */
  lemma {:induction false} IndexPlanPrunes(g: Grid, env: Env, i: nat, index: (string, seq<string>), c: Cell, p: Prune)
    requires Runnable(g)
    ensures PrunedLog(g, IndexPlan(g, env, i, index, c, p), p)
    decreases |g.nodeSizes| - c.node, |g.labelSizes| - c.labels, |g.degrees| - c.degree,
              |g.dists| - c.dist, |g.models| - c.model
  {
    if c.node >= |g.nodeSizes| {
    } else if !InGrid(g, c) {
      IndexPlanPrunes(g, env, i, index, Advance(g, c), p);
    } else {
      var r := Visit(g, env, i, index, c, p);
      VisitPrunes(g, env, i, index, c, p);
      if !Halts(env, r.0) {
        IndexPlanPrunes(g, env, i, index, r.1, r.2);
      }
    }
  }

  /** One visit agrees with the prune state in force, and leaves the state PruneStep gives. */
  lemma VisitPrunes(g: Grid, env: Env, i: nat, index: (string, seq<string>), c: Cell, p: Prune)
    requires Runnable(g) && InGrid(g, c)
    ensures var r := Visit(g, env, i, index, c, p);
            Pruned(g, p, r.0) && PruneStep(g, p, r.0) == r.2
  {
  }

  /** A value written for a position survives saving and loading. */
  lemma NumberStorable(name: string, n: nat)
    requires '\t' !in name && '\n' !in name && |name| > 0 && !IsSpace(name[0])
    ensures Storable(name, NatToString(n))
    ensures ParseInt(NatToString(n)) == Some(n as int)
  {
    NatToStringHasNo(n, '\t');
    NatToStringHasNo(n, '\n');
    var s := NatToString(n);
    assert IsDigit(s[|s| - 1]);
    ParseIntToString(n);
  }

  /** The value of a key that no later entry sets again. */
  lemma {:induction false} ToMapHas(pairs: seq<(string, string)>, k: nat)
    requires k < |pairs| && forall j :: k < j < |pairs| ==> pairs[j].0 != pairs[k].0
    ensures pairs[k].0 in ToMap(pairs) && ToMap(pairs)[pairs[k].0] == pairs[k].1
  {
    if k < |pairs| - 1 {
      ToMapHas(pairs[..|pairs| - 1], k);
    }
  }

  /** The position a key holds in the dictionary of entries, when no later entry sets the key again. */
  lemma CursorAt(pairs: seq<(string, string)>, k: nat, n: nat)
    requires k < |pairs| && pairs[k].1 == NatToString(n)
    requires forall j :: k < j < |pairs| ==> pairs[j].0 != pairs[k].0
    ensures CursorValue(ToMap(pairs), pairs[k].0) == Some(n)
  {
    ToMapHas(pairs, k);
    ParseIntToString(n);
  }

  /** The dictionary of runSynth's entries gives back the position. */
  lemma SynthCursorRead(i: nat, c: Cell)
    ensures SynthCursor(ToMap(SynthPairs(i, c))) == Some((i, c))
  {
    var pairs := SynthPairs(i, c);
    CursorAt(pairs, 0, i);
    CursorAt(pairs, 1, c.node);
    CursorAt(pairs, 2, c.labels);
    CursorAt(pairs, 3, c.model);
    CursorAt(pairs, 4, c.degree);
    CursorAt(pairs, 5, c.dist);
  }

  /** After an interruption, the checkpoint saved at a cell makes the next runSynth resume at that cell. */
  lemma SynthCheckpointRoundTrip(i: nat, c: Cell)
    ensures Start(Some(SynthState(i, c)), true, SynthCursor) == Some((i, c))
  {
    var pairs := SynthPairs(i, c);
    SynthPairsStorable(i, c);
    SaveLoadRoundTrip(pairs);
    SynthStateSaved(i, c);
    SynthCursorRead(i, c);
  }

  /** runSynth's entries all survive saving and loading. */
  lemma SynthPairsStorable(i: nat, c: Cell)
    ensures forall k :: 0 <= k < |SynthPairs(i, c)| ==> Storable(SynthPairs(i, c)[k].0, SynthPairs(i, c)[k].1)
  {
    var pairs := SynthPairs(i, c);
    forall k | 0 <= k < |pairs|
      ensures Storable(pairs[k].0, pairs[k].1)
    {
      if k == 0 {
        NumberStorable("currentIndex", i);
      } else if k == 1 {
        NumberStorable("currentNodeSize", c.node);
      } else if k == 2 {
        NumberStorable("currentLabelSize", c.labels);
      } else if k == 3 {
        NumberStorable("currentModel", c.model);
      } else if k == 4 {
        NumberStorable("currentDegree", c.degree);
      } else {
        NumberStorable("currentLabelDistribution", c.dist);
      }
    }
  }

  // ---------------------------------------------------------------------
  // runReal
  // ---------------------------------------------------------------------

  /** The file of a real-world graph. */
  function RealFile(name: string): string
  {
    "./workload/" + name + "/graph.nt"
  }

  /**
   * runReal's checkpoint position for graph j of the joined graph list
   * (the primary graphs, then the graphs run only on success), kept in the
   * first coordinate of a cell.
   */
  function GraphCell(j: nat): Cell
  {
    Cell(j, 0, 0, 0, 0)
  }

  /** The code runReal keeps after a log of runs: the last failed run's code, else code. */
  function FailureCode(log: seq<Action>, code: real): real
  {
    if |log| == 0 then code
    else FailureCode(log[1..], if log[0].Ran? && Classify(log[0].run).Failed? then Classify(log[0].run).code else code)
  }

  /**
   * runReal's loop over the primary graphs of one index, from graph j with
   * last failure code `code`: every graph is run, up to a halting run. Gives
   * the actions and the code after them.
   */
  function PrimaryPlan(env: Env, i: nat, index: (string, seq<string>), graphs: seq<string>, j: nat, code: real)
    : (r: (seq<Action>, real))
    decreases |graphs| - j
  {
    if j >= |graphs| then ([], code)
    else
      var a := PrimaryAction(env, i, index, graphs, j);
      if Halts(env, a) then ([a], code)
      else
        var v := Classify(a.run);
        var rest := PrimaryPlan(env, i, index, graphs, j + 1, if v.Failed? then v.code else code);
        ([a] + rest.0, rest.1)
  }

  /**
   * runReal's loop over the graphs run only on success, from graph j: with
   * a failure code other than -1 each is recorded as failed with that code;
   * otherwise each is run, up to a halting run.
   */
  function SecondaryPlan(env: Env, i: nat, index: (string, seq<string>), graphs: seq<string>, secondaries: seq<string>,
                         j: nat, code: real): seq<Action>
    decreases |secondaries| - j
  {
    if j >= |secondaries| then []
    else
      var a := SecondaryAction(env, i, index, graphs, secondaries, j, code);
      if Halts(env, a) then [a] else [a] + SecondaryPlan(env, i, index, graphs, secondaries, j + 1, code)
  }

  /**
   * runReal's actions for one index from joined position `cur`: from a
   * primary graph, the primaries and then the secondaries with the code
   * the primaries left; from a secondary graph, the remaining secondaries
   * with code -1.
   */
  function IndexRealPlan(env: Env, i: nat, index: (string, seq<string>), graphs: seq<string>, secondaries: seq<string>,
                         cur: nat): seq<Action>
  {
    if cur < |graphs| then
      var (p, code) := PrimaryPlan(env, i, index, graphs, cur, -1.0);
      if Halted(env, p) then p else p + SecondaryPlan(env, i, index, graphs, secondaries, 0, code)
    else SecondaryPlan(env, i, index, graphs, secondaries, cur - |graphs|, -1.0)
  }

  /** runReal's actions from index i and joined position cur on; later indexes start at the first graph. */
  function RealPlan(env: Env, indexes: seq<(string, seq<string>)>, graphs: seq<string>, secondaries: seq<string>,
                    i: nat, cur: nat): seq<Action>
    decreases |indexes| - i
  {
    if i >= |indexes| then []
    else
      var p := IndexRealPlan(env, i, indexes[i], graphs, secondaries, cur);
      if Halted(env, p) then p else p + RealPlan(env, indexes, graphs, secondaries, i + 1, 0)
  }

  /** runReal's checkpoint entries. */
  function RealPairs(i: nat, j: nat): seq<(string, string)>
  {
    [("currentIndex", NatToString(i)), ("currentGraph", NatToString(j))]
  }

  /** The lines of runReal's checkpoint file at a position. */
  function RealLines(i: nat, j: nat): seq<string>
  {
    [PairLine("currentIndex", NatToString(i)), PairLine("currentGraph", NatToString(j))]
  }

  /** The text of runReal's checkpoint file at a position. */
  function RealState(i: nat, j: nat): string
  {
    Terminated(RealLines(i, j))
  }

  /** The checkpoint text is what saveState writes for runReal's entries. */
  lemma RealStateSaved(i: nat, j: nat)
    ensures Terminated(PairLines(RealPairs(i, j))) == RealState(i, j)
  {
    PairLinesAt(RealPairs(i, j));
    assert PairLines(RealPairs(i, j)) == RealLines(i, j);
  }

  /** The checkpoint file after runReal's actions `log` when it held `before`: the last action's position, if any. */
  function RealSaved(log: seq<Action>, before: Option<string>): Option<string>
  {
    if |log| == 0 then before else Some(RealState(log[|log| - 1].index, log[|log| - 1].at.node))
  }

  /** Saving after one more action leaves that action's position. */
  lemma RealSavedSnoc(log: seq<Action>, a: Action, before: Option<string>)
    ensures RealSaved(log + [a], before) == Some(RealState(a.index, a.at.node))
  {
    assert (log + [a])[|log|] == a;
  }

  /** Saving after two logs is saving after the second from what the first left. */
  lemma RealSavedJoin(log: seq<Action>, sub: seq<Action>, before: Option<string>)
    ensures RealSaved(log + sub, before) == RealSaved(sub, RealSaved(log, before))
  {
    if |sub| == 0 {
      assert log + sub == log;
    } else {
      assert (log + sub)[|log + sub| - 1] == sub[|sub| - 1];
    }
  }

  /** The position a loaded runReal checkpoint resumes at. */
  function RealCursor(state: map<string, string>): Option<(nat, Cell)>
  {
    match (CursorValue(state, "currentIndex"), CursorValue(state, "currentGraph"))
    case (Some(i), Some(j)) => Some((i, GraphCell(j)))
    case _ => None
  }

  /** After an interruption, the checkpoint saved at a graph makes the next runReal resume at that graph. */
  lemma RealCheckpointRoundTrip(i: nat, j: nat)
    ensures Start(Some(RealState(i, j)), true, RealCursor) == Some((i, GraphCell(j)))
  {
    var pairs := RealPairs(i, j);
    NumberStorable("currentIndex", i);
    NumberStorable("currentGraph", j);
    SaveLoadRoundTrip(pairs);
    RealStateSaved(i, j);
    CursorAt(pairs, 0, i);
    CursorAt(pairs, 1, j);
  }

  /** One graph of runReal's loops: checkpoint at joined position pos, then run the engine and collect. */
  method RealRun(runner: Runner, checkpoint: Checkpoint, env: Env, i: nat, index: (string, seq<string>), pos: nat,
                 name: string) returns (a: Action, r: Option<(bool, real)>)
    requires runner.Valid() && runner.labelGenModes == env.modes
    modifies runner, checkpoint
    ensures runner.Valid() && runner.labelGenModes == old(runner.labelGenModes)
    ensures runner.graphNames == old(runner.graphNames) && runner.indexNames == old(runner.indexNames)
    ensures a == Ran(i, GraphCell(pos), IndexName(index.0, index.1), name, RealFile(name),
                     env.engine(index.0, index.1, RealFile(name)))
    ensures r.None? <==> Halts(env, a)
    ensures r.Some? ==> Classify(a.run) != Stopped && r.value == Outcome(Classify(a.run))
    ensures runner.Sheet() == Apply(old(runner.Sheet()), env, a)
    ensures checkpoint.file == Some(RealState(i, pos))
  {
    checkpoint.SaveState(RealPairs(i, pos));
    RealStateSaved(i, pos);
    var file := RealFile(name);
    var run := env.engine(index.0, index.1, file);
    a := Ran(i, GraphCell(pos), IndexName(index.0, index.1), name, file, run);
    r := runner.RunAndCollect(index.0, index.1, file, name, run, env.toFloat);
  }

  /** One primary graph of runReal's loop: run it, and keep its code when it fails. */
  method PrimaryStep(runner: Runner, checkpoint: Checkpoint, env: Env, i: nat, index: (string, seq<string>),
                     graphs: seq<string>, j: nat, code: real) returns (a: Action, halted: bool, code': real)
    requires runner.Valid() && runner.labelGenModes == env.modes && j < |graphs|
    modifies runner, checkpoint
    ensures runner.Valid() && runner.labelGenModes == old(runner.labelGenModes)
    ensures runner.graphNames == old(runner.graphNames) && runner.indexNames == old(runner.indexNames)
    ensures a.index == i && a.at == GraphCell(j) && halted == Halts(env, a)
    ensures halted ==> PrimaryPlan(env, i, index, graphs, j, code) == ([a], code)
    ensures !halted ==> PrimaryPlan(env, i, index, graphs, j, code) ==
                          ([a] + PrimaryPlan(env, i, index, graphs, j + 1, code').0, PrimaryPlan(env, i, index, graphs, j + 1, code').1)
    ensures runner.Sheet() == Apply(old(runner.Sheet()), env, a)
    ensures checkpoint.file == Some(RealState(i, a.at.node))
  {
    var r;
    a, r := RealRun(runner, checkpoint, env, i, index, j, graphs[j]);
    halted := r.None?;
    code' := if r.Some? && !r.value.0 then r.value.1 else code;
  }

  /** runReal's loop over the primary graphs for one index, from graph `start`. */
  method PrimarySweep(runner: Runner, checkpoint: Checkpoint, env: Env, i: nat, index: (string, seq<string>),
                      graphs: seq<string>, start: nat) returns (log: seq<Action>, code: real)
    requires runner.Valid() && runner.labelGenModes == env.modes
    modifies runner, checkpoint
    ensures runner.Valid() && runner.labelGenModes == old(runner.labelGenModes)
    ensures runner.graphNames == old(runner.graphNames) && runner.indexNames == old(runner.indexNames)
    ensures (log, code) == PrimaryPlan(env, i, index, graphs, start, -1.0)
    ensures runner.Sheet() == Replay(old(runner.Sheet()), env, log)
    ensures checkpoint.file == RealSaved(log, old(checkpoint.file))
  {
    ghost var sheet, before := runner.Sheet(), checkpoint.file;
    var j := start;
    log, code := [], -1.0;
    while j < |graphs|
      invariant runner.Valid() && runner.labelGenModes == env.modes
      invariant runner.graphNames == old(runner.graphNames) && runner.indexNames == old(runner.indexNames)
      invariant PrimaryPlan(env, i, index, graphs, start, -1.0).0 == log + PrimaryPlan(env, i, index, graphs, j, code).0
      invariant PrimaryPlan(env, i, index, graphs, start, -1.0).1 == PrimaryPlan(env, i, index, graphs, j, code).1
      invariant runner.Sheet() == Replay(sheet, env, log)
      invariant checkpoint.file == RealSaved(log, before)
      decreases |graphs| - j
    {
      var a, halted, code' := PrimaryStep(runner, checkpoint, env, i, index, graphs, j, code);
      LogStep(sheet, env, PrimaryPlan(env, i, index, graphs, start, -1.0).0, log, PrimaryPlan(env, i, index, graphs, j, code).0,
              a, PrimaryPlan(env, i, index, graphs, j + 1, code').0, halted);
      RealSavedSnoc(log, a, before);
      log := log + [a];
      if halted {
        return;
      }
      j, code := j + 1, code';
    }
    assert log + PrimaryPlan(env, i, index, graphs, j, code).0 == log;
  }

  /** One graph of runReal's second loop: record it as failed with the primaries' code, or run it when there is none. */
  method SecondaryStep(runner: Runner, checkpoint: Checkpoint, env: Env, i: nat, index: (string, seq<string>),
                       graphs: seq<string>, secondaries: seq<string>, j: nat, code: real) returns (a: Action, halted: bool)
    requires runner.Valid() && runner.labelGenModes == env.modes && j < |secondaries|
    modifies runner, checkpoint
    ensures runner.Valid() && runner.labelGenModes == old(runner.labelGenModes)
    ensures runner.graphNames == old(runner.graphNames) && runner.indexNames == old(runner.indexNames)
    ensures a.index == i && a.at == GraphCell(|graphs| + j) && halted == Halts(env, a)
    ensures halted ==> SecondaryPlan(env, i, index, graphs, secondaries, j, code) == [a]
    ensures !halted ==> SecondaryPlan(env, i, index, graphs, secondaries, j, code) ==
                          [a] + SecondaryPlan(env, i, index, graphs, secondaries, j + 1, code)
    ensures runner.Sheet() == Apply(old(runner.Sheet()), env, a)
    ensures checkpoint.file == Some(RealState(i, a.at.node))
  {
    var pos := |graphs| + j;
    if code != -1.0 {
      checkpoint.SaveState(RealPairs(i, pos));
      RealStateSaved(i, pos);
      var file := RealFile(secondaries[j]);
      runner.SetPreviousFailed(index.0, index.1, file, secondaries[j], code, env.fileExists);
      a, halted := Marked(i, GraphCell(pos), IndexName(index.0, index.1), secondaries[j], file, code), false;
    } else {
      var r;
      a, r := RealRun(runner, checkpoint, env, i, index, pos, secondaries[j]);
      halted := r.None?;
    }
  }

  /** runReal's loop over the graphs run only on success for one index, from graph `start` of that list. */
  method SecondarySweep(runner: Runner, checkpoint: Checkpoint, env: Env, i: nat, index: (string, seq<string>),
                        graphs: seq<string>, secondaries: seq<string>, start: nat, code: real) returns (log: seq<Action>)
    requires runner.Valid() && runner.labelGenModes == env.modes
    modifies runner, checkpoint
    ensures runner.Valid() && runner.labelGenModes == old(runner.labelGenModes)
    ensures runner.graphNames == old(runner.graphNames) && runner.indexNames == old(runner.indexNames)
    ensures log == SecondaryPlan(env, i, index, graphs, secondaries, start, code)
    ensures runner.Sheet() == Replay(old(runner.Sheet()), env, log)
    ensures checkpoint.file == RealSaved(log, old(checkpoint.file))
  {
    ghost var sheet, before := runner.Sheet(), checkpoint.file;
    var j := start;
    log := [];
    while j < |secondaries|
      invariant runner.Valid() && runner.labelGenModes == env.modes
      invariant runner.graphNames == old(runner.graphNames) && runner.indexNames == old(runner.indexNames)
      invariant SecondaryPlan(env, i, index, graphs, secondaries, start, code) ==
                  log + SecondaryPlan(env, i, index, graphs, secondaries, j, code)
      invariant runner.Sheet() == Replay(sheet, env, log)
      invariant checkpoint.file == RealSaved(log, before)
      decreases |secondaries| - j
    {
      var a, halted := SecondaryStep(runner, checkpoint, env, i, index, graphs, secondaries, j, code);
      LogStep(sheet, env, SecondaryPlan(env, i, index, graphs, secondaries, start, code), log,
              SecondaryPlan(env, i, index, graphs, secondaries, j, code), a,
              SecondaryPlan(env, i, index, graphs, secondaries, j + 1, code), halted);
      RealSavedSnoc(log, a, before);
      log := log + [a];
      if halted {
        return;
      }
      j := j + 1;
    }
    assert log + SecondaryPlan(env, i, index, graphs, secondaries, j, code) == log;
  }

  /** runReal's loops for one index, from joined position `cur`. */
  method IndexRealSweep(runner: Runner, checkpoint: Checkpoint, env: Env, i: nat, index: (string, seq<string>),
                        graphs: seq<string>, secondaries: seq<string>, cur: nat) returns (log: seq<Action>)
    requires runner.Valid() && runner.labelGenModes == env.modes
    modifies runner, checkpoint
    ensures runner.Valid() && runner.labelGenModes == old(runner.labelGenModes)
    ensures runner.graphNames == old(runner.graphNames) && runner.indexNames == old(runner.indexNames)
    ensures log == IndexRealPlan(env, i, index, graphs, secondaries, cur)
    ensures runner.Sheet() == Replay(old(runner.Sheet()), env, log)
    ensures checkpoint.file == RealSaved(log, old(checkpoint.file))
  {
    ghost var sheet, before := runner.Sheet(), checkpoint.file;
    IndexRealPlanCells(env, i, index, graphs, secondaries, cur);
    if cur < |graphs| {
      var primary, code := PrimarySweep(runner, checkpoint, env, i, index, graphs, cur);
      if Halted(env, primary) {
        return primary;
      }
      var secondary := SecondarySweep(runner, checkpoint, env, i, index, graphs, secondaries, 0, code);
      ReplayJoin(sheet, env, primary, secondary);
      RealSavedJoin(primary, secondary, before);
      log := primary + secondary;
    } else {
      log := SecondarySweep(runner, checkpoint, env, i, index, graphs, secondaries, cur - |graphs|, -1.0);
    }
  }

  /** runReal's loop over the indexes, from index i0 and joined position cur0. */
  method RealSweepFrom(runner: Runner, checkpoint: Checkpoint, env: Env, indexes: seq<(string, seq<string>)>,
                       graphs: seq<string>, secondaries: seq<string>, i0: nat, cur0: nat) returns (log: seq<Action>)
    requires runner.Valid() && runner.labelGenModes == env.modes
    modifies runner, checkpoint
    ensures runner.Valid() && runner.labelGenModes == old(runner.labelGenModes)
    ensures runner.graphNames == old(runner.graphNames) && runner.indexNames == old(runner.indexNames)
    ensures log == RealPlan(env, indexes, graphs, secondaries, i0, cur0)
    ensures runner.Sheet() == Replay(old(runner.Sheet()), env, log)
    ensures checkpoint.file == RealSaved(log, old(checkpoint.file))
  {
    ghost var sheet, before := runner.Sheet(), checkpoint.file;
    var i, cur := i0, cur0;
    log := [];
    while i < |indexes|
      invariant runner.Valid() && runner.labelGenModes == env.modes
      invariant runner.graphNames == old(runner.graphNames) && runner.indexNames == old(runner.indexNames)
      invariant RealPlan(env, indexes, graphs, secondaries, i0, cur0) == log + RealPlan(env, indexes, graphs, secondaries, i, cur)
      invariant runner.Sheet() == Replay(sheet, env, log)
      invariant checkpoint.file == RealSaved(log, before)
      decreases |indexes| - i
    {
      var sub := IndexRealSweep(runner, checkpoint, env, i, indexes[i], graphs, secondaries, cur);
      LogJoin(sheet, env, RealPlan(env, indexes, graphs, secondaries, i0, cur0), log,
              RealPlan(env, indexes, graphs, secondaries, i, cur), sub,
              RealPlan(env, indexes, graphs, secondaries, i + 1, 0), Halted(env, sub));
      RealSavedJoin(log, sub, before);
      log := log + sub;
      if Halted(env, sub) {
        return;
      }
      i, cur := i + 1, 0;
    }
  }

  /**
   * `runReal`: the sweep's actions are the plan from where the checkpoint
   * says to resume; the tables are the plan replayed on the tables as
   * resumed; after a halting run the checkpoint names the graph that
   * halted, and after a finished sweep it is removed.
   */
  method RunReal(indexes: seq<(string, seq<string>)>, graphs: seq<string>, secondaries: seq<string>, env: Env,
                 existingResults: map<string, Table>, existingState: Option<string>)
    returns (runner: Runner, checkpoint: Checkpoint, log: seq<Action>, stopped: bool, ghost resumed: Sheets)
    ensures fresh(runner) && fresh(checkpoint)
    ensures runner.graphNames == graphs + secondaries && runner.indexNames == IndexNames(indexes) &&
            runner.labelGenModes == env.modes && runner.Valid() &&
            resumed == ResumedSheet(graphs + secondaries, IndexNames(indexes), env.modes, existingResults, existingState) &&
            runner.Sheet() == Replay(resumed, env, log)
    ensures var start := Start(existingState, Loads(existingResults, graphs + secondaries, IndexNames(indexes), env.modes),
                               RealCursor);
            (start.None? ==> log == [] && stopped) &&
            (start.Some? ==> log == RealPlan(env, indexes, graphs, secondaries, start.value.0, start.value.1.node) &&
                             (stopped <==> Halted(env, log)))
    ensures stopped && |log| > 0 ==> checkpoint.file == Some(RealState(log[|log| - 1].index, log[|log| - 1].at.node))
    ensures !stopped ==> checkpoint.file.None?
  {
    var start;
    runner, checkpoint, start := Resume(graphs + secondaries, IndexNames(indexes), env.modes, existingResults, existingState,
                                        RealCursor);
    resumed := runner.Sheet();
    log, stopped := RealResumed(runner, checkpoint, env, indexes, graphs, secondaries, start);
  }

  /** `runReal` after resuming at `start`: sweep from there, and remove the checkpoint after a finished sweep. */
  method RealResumed(runner: Runner, checkpoint: Checkpoint, env: Env, indexes: seq<(string, seq<string>)>,
                     graphs: seq<string>, secondaries: seq<string>, start: Option<(nat, Cell)>)
    returns (log: seq<Action>, stopped: bool)
    requires runner.Valid() && runner.labelGenModes == env.modes
    modifies runner, checkpoint
    ensures runner.Valid() && runner.labelGenModes == old(runner.labelGenModes)
    ensures runner.graphNames == old(runner.graphNames) && runner.indexNames == old(runner.indexNames)
    ensures runner.Sheet() == Replay(old(runner.Sheet()), env, log)
    ensures start.None? ==> log == [] && stopped
    ensures start.Some? ==> log == RealPlan(env, indexes, graphs, secondaries, start.value.0, start.value.1.node) &&
                            (stopped <==> Halted(env, log))
    ensures stopped && |log| > 0 ==> checkpoint.file == Some(RealState(log[|log| - 1].index, log[|log| - 1].at.node))
    ensures !stopped ==> checkpoint.file.None?
  {
    if start.None? {
      return [], true;
    }
    log := RealSweepFrom(runner, checkpoint, env, indexes, graphs, secondaries, start.value.0, start.value.1.node);
    stopped := Halted(env, log);
    if !stopped {
      var _ := checkpoint.Cleanup();
    }
  }

  // ---------------------------------------------------------------------
  // Properties of runReal
  // ---------------------------------------------------------------------

  /** The action of runReal's primary loop on graph n. */
  function PrimaryAction(env: Env, i: nat, index: (string, seq<string>), graphs: seq<string>, n: nat): Action
    requires n < |graphs|
  {
    Ran(i, GraphCell(n), IndexName(index.0, index.1), graphs[n], RealFile(graphs[n]),
        env.engine(index.0, index.1, RealFile(graphs[n])))
  }

  /** The action of runReal's second loop on graph n of its list, with failure code `code`. */
  function SecondaryAction(env: Env, i: nat, index: (string, seq<string>), graphs: seq<string>, secondaries: seq<string>,
                           n: nat, code: real): (a: Action)
    requires n < |secondaries|
    ensures a.index == i && a.at == GraphCell(|graphs| + n) && a.graph == secondaries[n]
    ensures a.file == RealFile(secondaries[n]) && a.column == IndexName(index.0, index.1)
    ensures code != -1.0 ==> a.Marked? && a.code == code
    ensures code == -1.0 ==> a.Ran?
  {
    var file := RealFile(secondaries[n]);
    if code != -1.0 then Marked(i, GraphCell(|graphs| + n), IndexName(index.0, index.1), secondaries[n], file, code)
    else Ran(i, GraphCell(|graphs| + n), IndexName(index.0, index.1), secondaries[n], file, env.engine(index.0, index.1, file))
  }

  /** The graphs runReal's primary loop runs from graph j on: these do not depend on the failure code. */
  function PrimaryRuns(env: Env, i: nat, index: (string, seq<string>), graphs: seq<string>, j: nat): seq<Action>
    decreases |graphs| - j
  {
    if j >= |graphs| then []
    else
      var a := PrimaryAction(env, i, index, graphs, j);
      if Halts(env, a) then [a] else [a] + PrimaryRuns(env, i, index, graphs, j + 1)
  }

  /** The actions of the primary plan are the same whatever failure code it starts with. */
  lemma {:induction false} PrimaryPlanIsRuns(env: Env, i: nat, index: (string, seq<string>), graphs: seq<string>, j: nat, code: real)
    ensures PrimaryPlan(env, i, index, graphs, j, code).0 == PrimaryRuns(env, i, index, graphs, j)
    decreases |graphs| - j
  {
    if j < |graphs| {
      var a := PrimaryAction(env, i, index, graphs, j);
      if !Halts(env, a) {
        var v := Classify(a.run);
        PrimaryPlanIsRuns(env, i, index, graphs, j + 1, if v.Failed? then v.code else code);
      }
    }
  }

  /** The first primary run from j is the one on graph j, and the rest are those from j + 1. */
  lemma PrimaryRunsTail(env: Env, i: nat, index: (string, seq<string>), graphs: seq<string>, j: nat)
    ensures var r := PrimaryRuns(env, i, index, graphs, j);
            |r| > 0 ==> j < |graphs| && r[0] == PrimaryAction(env, i, index, graphs, j) &&
                        (|r| > 1 ==> r[1..] == PrimaryRuns(env, i, index, graphs, j + 1))
  {
  }

  /** Each primary run is the one on the graph at its offset from j. */
  lemma {:induction false} PrimaryRunAt(env: Env, i: nat, index: (string, seq<string>), graphs: seq<string>, j: nat, n: nat)
    requires j <= n < j + |PrimaryRuns(env, i, index, graphs, j)|
    ensures n < |graphs| && PrimaryRuns(env, i, index, graphs, j)[n - j] == PrimaryAction(env, i, index, graphs, n)
    decreases n - j
  {
    PrimaryRunsTail(env, i, index, graphs, j);
    if j < n {
      var r := PrimaryRuns(env, i, index, graphs, j);
      PrimaryRunAt(env, i, index, graphs, j + 1, n);
      assert r[n - j] == r[1..][n - (j + 1)];
    }
  }

  /** The primary loop runs the primary graphs from j on, in order: its action at offset n - j is the run on graph n. */
  lemma PrimaryPlanRunAt(env: Env, i: nat, index: (string, seq<string>), graphs: seq<string>, j: nat, code: real, n: nat)
    requires j <= n < j + |PrimaryPlan(env, i, index, graphs, j, code).0|
    ensures n < |graphs| && PrimaryPlan(env, i, index, graphs, j, code).0[n - j] == PrimaryAction(env, i, index, graphs, n)
  {
    PrimaryPlanIsRuns(env, i, index, graphs, j, code);
    PrimaryRunAt(env, i, index, graphs, j, n);
  }

  /** Every primary run is a run at the index, on a primary graph and its file, in the index's column. */
  lemma {:induction false} PrimaryRunsCells(env: Env, i: nat, index: (string, seq<string>), graphs: seq<string>, j: nat)
    ensures forall a :: a in PrimaryRuns(env, i, index, graphs, j) ==>
              a.Ran? && a.index == i && a.graph in graphs && a.file == RealFile(a.graph) &&
              a.column == IndexName(index.0, index.1)
    decreases |graphs| - j
  {
    if j < |graphs| {
      PrimaryRunsCells(env, i, index, graphs, j + 1);
    }
  }

  /** The primary loop goes on to its last graph unless a run halts it, and leaves the last failed run's code. */
  lemma {:induction false} PrimaryPlanEnds(env: Env, i: nat, index: (string, seq<string>), graphs: seq<string>, j: nat, code: real)
    ensures Halted(env, PrimaryPlan(env, i, index, graphs, j, code).0) ||
            |PrimaryPlan(env, i, index, graphs, j, code).0| == if j < |graphs| then |graphs| - j else 0
    ensures PrimaryPlan(env, i, index, graphs, j, code).1 == FailureCode(PrimaryPlan(env, i, index, graphs, j, code).0, code)
    decreases |graphs| - j
  {
    if j < |graphs| {
      var a := PrimaryAction(env, i, index, graphs, j);
      if !Halts(env, a) {
        var v := Classify(a.run);
        var next := if v.Failed? then v.code else code;
        var rest := PrimaryPlan(env, i, index, graphs, j + 1, next);
        PrimaryPlanEnds(env, i, index, graphs, j + 1, next);
        assert ([a] + rest.0)[1..] == rest.0;
        assert |rest.0| > 0 ==> ([a] + rest.0)[|[a] + rest.0| - 1] == rest.0[|rest.0| - 1];
      } else {
        CollectedRun(env, a.run, a.file);
        assert [a][1..] == [];
      }
    }
  }

  /** The second loop visits the graphs run only on success from j on, in order. */
  lemma {:induction false} SecondaryPlanVisits(env: Env, i: nat, index: (string, seq<string>), graphs: seq<string>,
                                               secondaries: seq<string>, j: nat, code: real)
    ensures j + |SecondaryPlan(env, i, index, graphs, secondaries, j, code)| <= |secondaries| ||
            |SecondaryPlan(env, i, index, graphs, secondaries, j, code)| == 0
    ensures forall k {:trigger SecondaryPlan(env, i, index, graphs, secondaries, j, code)[k]} ::
              0 <= k < |SecondaryPlan(env, i, index, graphs, secondaries, j, code)| ==>
                SecondaryPlan(env, i, index, graphs, secondaries, j, code)[k] ==
                  SecondaryAction(env, i, index, graphs, secondaries, j + k, code)
    decreases |secondaries| - j
  {
    if j < |secondaries| {
      var s := SecondaryPlan(env, i, index, graphs, secondaries, j, code);
      var rest := SecondaryPlan(env, i, index, graphs, secondaries, j + 1, code);
      SecondaryPlanVisits(env, i, index, graphs, secondaries, j + 1, code);
      var a := SecondaryAction(env, i, index, graphs, secondaries, j, code);
      assert s == if Halts(env, a) then [a] else [a] + rest;
      forall k | 0 <= k < |s|
        ensures s[k] == SecondaryAction(env, i, index, graphs, secondaries, j + k, code)
      {
        if k > 0 {
          assert s[k] == rest[k - 1];
          assert j + 1 + (k - 1) == j + k;
        }
      }
    } else {
      assert SecondaryPlan(env, i, index, graphs, secondaries, j, code) == [];
    }
  }

  /**
   * The second loop goes on to its last graph unless a run halts it; with
   * a failure code other than -1 nothing runs, so nothing halts it.
   */
  lemma {:induction false} SecondaryPlanEnds(env: Env, i: nat, index: (string, seq<string>), graphs: seq<string>,
                                             secondaries: seq<string>, j: nat, code: real)
    ensures var s := SecondaryPlan(env, i, index, graphs, secondaries, j, code);
            (Halted(env, s) || |s| == if j < |secondaries| then |secondaries| - j else 0) &&
            (code != -1.0 ==> !Halted(env, s))
    decreases |secondaries| - j
  {
    if j < |secondaries| {
      var s := SecondaryPlan(env, i, index, graphs, secondaries, j, code);
      var rest := SecondaryPlan(env, i, index, graphs, secondaries, j + 1, code);
      SecondaryPlanEnds(env, i, index, graphs, secondaries, j + 1, code);
      if code != -1.0 || !Halts(env, s[0]) {
        assert s == [s[0]] + rest;
        assert |rest| > 0 ==> s[|s| - 1] == rest[|rest| - 1];
      }
    }
  }

  /** Every action of an index's runReal plan is at that index, on a graph of the joined list and its file, in the index's column. */
  lemma IndexRealPlanCells(env: Env, i: nat, index: (string, seq<string>), graphs: seq<string>, secondaries: seq<string>,
                           cur: nat)
    ensures forall a :: a in IndexRealPlan(env, i, index, graphs, secondaries, cur) ==>
              a.index == i && a.graph in graphs + secondaries && a.file == RealFile(a.graph) &&
              a.column == IndexName(index.0, index.1)
  {
    if cur < |graphs| {
      var code := PrimaryPlan(env, i, index, graphs, cur, -1.0).1;
      PrimaryPlanIsRuns(env, i, index, graphs, cur, -1.0);
      PrimaryRunsCells(env, i, index, graphs, cur);
      SecondaryCells(env, i, index, graphs, secondaries, 0, code);
    } else {
      SecondaryCells(env, i, index, graphs, secondaries, cur - |graphs|, -1.0);
    }
  }

  /** Every action of runReal's second loop is at the index, on a graph run only on success and its file, in the index's column. */
  lemma {:induction false} SecondaryCells(env: Env, i: nat, index: (string, seq<string>), graphs: seq<string>,
                                          secondaries: seq<string>, j: nat, code: real)
    ensures forall a :: a in SecondaryPlan(env, i, index, graphs, secondaries, j, code) ==>
              a.index == i && a.graph in secondaries && a.file == RealFile(a.graph) &&
              a.column == IndexName(index.0, index.1)
    decreases |secondaries| - j
  {
    if j < |secondaries| {
      SecondaryCells(env, i, index, graphs, secondaries, j + 1, code);
    }
  }

  /**
   * Every result runReal records lands in a row and a column the runner
   * has: the graph of each action is in the joined graph list, its index
   * in the index list, and its file is the graph's file.
   */
  lemma {:induction false} RealRowsKnown(env: Env, indexes: seq<(string, seq<string>)>, graphs: seq<string>,
                                         secondaries: seq<string>, i: nat, cur: nat)
    ensures forall a :: a in RealPlan(env, indexes, graphs, secondaries, i, cur) ==>
              a.graph in graphs + secondaries && a.column in IndexNames(indexes) && a.file == RealFile(a.graph)
    decreases |indexes| - i
  {
    if i < |indexes| {
      IndexRealPlanCells(env, i, indexes[i], graphs, secondaries, cur);
      assert IndexNames(indexes)[i] == IndexName(indexes[i].0, indexes[i].1);
      RealRowsKnown(env, indexes, graphs, secondaries, i + 1, 0);
    }
  }

  /** The code FailureCode reads off a log is the one it started with or the code of a failed run in the log. */
  lemma {:induction false} FailureCodeFrom(log: seq<Action>, code: real)
    ensures FailureCode(log, code) == code ||
            exists k :: 0 <= k < |log| && log[k].Ran? && Classify(log[k].run) == Failed(FailureCode(log, code))
  {
    if |log| > 0 {
      var next := if log[0].Ran? && Classify(log[0].run).Failed? then Classify(log[0].run).code else code;
      FailureCodeFrom(log[1..], next);
      if FailureCode(log[1..], next) != next {
        var k :| 0 <= k < |log[1..]| && log[1..][k].Ran? && Classify(log[1..][k].run) == Failed(FailureCode(log[1..], next));
        assert log[k + 1] == log[1..][k];
      }
    }
  }

  /**
   * A failure on a primary graph spreads to the graphs run only on
   * success: when the primary loop of an index ends without halting and
   * one of its runs failed (with a code other than -1), every secondary
   * graph is recorded as failed, none is run, and the code recorded is the
   * code of a failed primary run, the last one. When no primary run
   * failed, every secondary graph is run.
   */
  lemma RealFailureSpreads(env: Env, i: nat, index: (string, seq<string>), graphs: seq<string>, secondaries: seq<string>,
                           cur: nat)
    requires cur < |graphs|
    ensures var (p, code) := PrimaryPlan(env, i, index, graphs, cur, -1.0);
            var s := SecondaryPlan(env, i, index, graphs, secondaries, 0, code);
            !Halted(env, p) ==>
              IndexRealPlan(env, i, index, graphs, secondaries, cur) == p + s &&
              |p| == |graphs| - cur && code == FailureCode(p, -1.0) &&
              (code != -1.0 ==>
                 (exists k :: 0 <= k < |p| && p[k].Ran? && Classify(p[k].run) == Failed(code)) &&
                 |s| == |secondaries| && forall k :: 0 <= k < |s| ==> s[k].Marked? && s[k].code == code &&
                                                                      s[k].graph == secondaries[k]) &&
              (code == -1.0 ==> |s| <= |secondaries| && forall k :: 0 <= k < |s| ==> s[k].Ran? && s[k].graph == secondaries[k])
  {
    var (p, code) := PrimaryPlan(env, i, index, graphs, cur, -1.0);
    PrimaryPlanEnds(env, i, index, graphs, cur, -1.0);
    SecondaryPlanVisits(env, i, index, graphs, secondaries, 0, code);
    SecondaryPlanEnds(env, i, index, graphs, secondaries, 0, code);
    FailureCodeFrom(p, -1.0);
  }
}
