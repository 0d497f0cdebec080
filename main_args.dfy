/**
 * The command line of the engine, src/main.cpp: `main` checks the run mode
 * ("reach" or "lcr", in any case) and `readArgsAndRun` walks the switches
 * that name the graph file, the query files, the index with its parameters,
 * a control index and the time and memory limits. The runners themselves
 * are not part of this model; the result is the settings they would be
 * given. A `std::fatal` message and an exception from `std::stoll` both end
 * the program, and both are None.
 */
module MainArgs {
  import opened Text
  import opened CStrings

  /** The variables readArgsAndRun fills in. */
  datatype Settings = Settings(
    index: string,
    graphFile: string,
    queryFiles: seq<string>,
    control: bool,
    indexParams: seq<string>,
    timeLimit: int,
    memoryLimit: int)

  /** The values before the first argument is read: empty names and no limits (-1). */
  const Initial: Settings := Settings("", "", [], false, [], -1, -1)

  /** A switch is an argument longer than two characters that starts with "--". */
  predicate IsSwitch(s: string)
  {
    |s| > 2 && s[0] == '-' && s[1] == '-'
  }

  /** The end of an --indexParams list: the first argument from j on that is a switch, or the end. */
  function ParamsEnd(argv: seq<string>, j: nat): (r: nat)
    requires j <= |argv|
    ensures j <= r <= |argv| && (r == |argv| || IsSwitch(argv[r]))
    ensures forall k :: j <= k < r ==> !IsSwitch(argv[k])
    decreases |argv| - j
  {
    if j == |argv| || IsSwitch(argv[j]) then j else ParamsEnd(argv, j + 1)
  }

  /** The checks after the loop: a graph file, at least one query file and an index are required. */
  function Finish(st: Settings): (r: Option<Settings>)
    ensures r.Some? <==> st.graphFile != "" && st.queryFiles != [] && st.index != ""
    ensures r.Some? ==> r.value == st
  {
    if st.graphFile == "" || st.queryFiles == [] || st.index == "" then None else Some(st)
  }

  /** Where the argument loop goes on and with which settings. */
  datatype Cursor = Cursor(next: nat, settings: Settings)

  /**
   * One turn of the argument loop of readArgsAndRun at position i: a switch
   * that takes a value consumes the next argument whatever it is, an
   * argument that is not a switch is skipped, and None is fatal.
   */
  function Step(argv: seq<string>, i: nat, st: Settings): (r: Option<Cursor>)
    requires i < |argv|
    ensures r.Some? ==> i < r.value.next <= |argv|
  {
    var content := argv[i];
    if !IsSwitch(content) then Some(Cursor(i + 1, st))
    else if content == "--index" then
      if i + 1 >= |argv| || st.index != "" then None
      else Some(Cursor(i + 2, st.(index := argv[i + 1])))
    else if content == "--indexParams" then
      if st.indexParams != [] then None
      else
        var e := ParamsEnd(argv, i + 1);
        Some(Cursor(e, st.(indexParams := argv[i + 1..e])))
    else if content == "--graphFile" then
      if i + 1 >= |argv| || st.graphFile != "" then None
      else Some(Cursor(i + 2, st.(graphFile := argv[i + 1])))
    else if content == "--queryFile" then
      if i + 1 >= |argv| then None
      else Some(Cursor(i + 2, st.(queryFiles := st.queryFiles + [argv[i + 1]])))
    else if content == "--timeLimit" then
      if i + 1 >= |argv| then None
      else match Stoll(argv[i + 1])
        case None => None
        case Some(v) => Some(Cursor(i + 2, st.(timeLimit := v)))
    else if content == "--memoryLimit" then
      if i + 1 >= |argv| then None
      else match Stoll(argv[i + 1])
        case None => None
        case Some(v) => Some(Cursor(i + 2, st.(memoryLimit := v)))
    else if content == "--control" then Some(Cursor(i + 1, st.(control := true)))
    else None
  }

  /** The argument loop from position i with the settings read so far, then the checks after it. */
  function ParseFrom(argv: seq<string>, i: nat, st: Settings): (r: Option<Settings>)
    requires i <= |argv|
    decreases |argv| - i
  {
    if i == |argv| then Finish(st)
    else match Step(argv, i, st)
      case None => None
      case Some(c) => ParseFrom(argv, c.next, c.settings)
  }

  /** readArgsAndRun's parsing; argv[0] is the program and argv[1] the mode. */
  method ReadArgs(argv: seq<string>) returns (r: Option<Settings>)
    requires |argv| >= 2
    ensures r == ParseFrom(argv, 2, Initial)
    ensures r.Some? ==> r.value.graphFile != "" && r.value.queryFiles != [] && r.value.index != ""
  {
    var st := Initial;
    var i := 2;
    while i < |argv|
      invariant 2 <= i <= |argv|
      invariant ParseFrom(argv, i, st) == ParseFrom(argv, 2, Initial)
      decreases |argv| - i
    {
      var content := argv[i];
      if IsSwitch(content) {
        if content == "--index" {
          if i + 1 >= |argv| || st.index != "" {
            return None;
          }
          i := i + 1;
          st := st.(index := argv[i]);
        } else if content == "--indexParams" {
          if st.indexParams != [] {
            return None;
          }
          IndexParamsStep(argv, i, st);
          i, st := ReadIndexParams(argv, i, st);
          continue;
        } else if content == "--graphFile" {
          if i + 1 >= |argv| || st.graphFile != "" {
            return None;
          }
          i := i + 1;
          st := st.(graphFile := argv[i]);
        } else if content == "--queryFile" {
          if i + 1 >= |argv| {
            return None;
          }
          i := i + 1;
          st := st.(queryFiles := st.queryFiles + [argv[i]]);
        } else if content == "--timeLimit" || content == "--memoryLimit" {
          if i + 1 >= |argv| {
            return None;
          }
          i := i + 1;
          var limit := Stoll(argv[i]);
          if limit.None? {
            return None;
          }
          st := if content == "--timeLimit" then st.(timeLimit := limit.value) else st.(memoryLimit := limit.value);
        } else if content == "--control" {
          st := st.(control := true);
        } else {
          return None;
        }
      }
      i := i + 1;
    }
    r := Finish(st);
  }

  /**
   * The inner loop of --indexParams: every following argument up to the
   * next switch is appended. Returns the position after the last one taken.
   */
  method ReadIndexParams(argv: seq<string>, start: nat, st: Settings) returns (next: nat, st': Settings)
    requires start < |argv| && argv[start] == "--indexParams" && st.indexParams == []
    ensures start < next <= |argv|
    ensures next == ParamsEnd(argv, start + 1) && st' == st.(indexParams := argv[start + 1..next])
  {
    var i := start;
    st' := st;
    while i + 1 < |argv|
      invariant start <= i < |argv|
      invariant ParamsEnd(argv, i + 1) == ParamsEnd(argv, start + 1)
      invariant st' == st.(indexParams := argv[start + 1..i + 1])
      decreases |argv| - i
    {
      var nextArg := argv[i + 1];
      if IsSwitch(nextArg) {
        break;
      }
      st' := st'.(indexParams := st'.indexParams + [nextArg]);
      assert argv[start + 1..i + 2] == argv[start + 1..i + 1] + [nextArg];
      i := i + 1;
    }
    next := i + 1;
  }

  lemma IndexParamsStep(argv: seq<string>, i: nat, st: Settings)
    requires i < |argv| && argv[i] == "--indexParams" && st.indexParams == []
    ensures ParseFrom(argv, i, st) ==
      ParseFrom(argv, ParamsEnd(argv, i + 1), st.(indexParams := argv[i + 1..ParamsEnd(argv, i + 1)]))
  {
  }

  // ---------------------------------------------------------------------
  // main
  // ---------------------------------------------------------------------

  /** The limits added to the runner: only a positive time or memory limit is added; memory is narrowed to 32 bits. */
  datatype Limits = Limits(timeSeconds: Option<nat>, memoryMegabytes: Option<nat>)

  function LimitsOf(st: Settings): (r: Limits)
    ensures r.timeSeconds.Some? <==> st.timeLimit > 0
    ensures r.timeSeconds.Some? ==> r.timeSeconds.value == st.timeLimit
    ensures r.memoryMegabytes.Some? <==> st.memoryLimit > 0
    ensures r.memoryMegabytes.Some? ==> r.memoryMegabytes.value == st.memoryLimit % UInt32Limit
  {
    Limits(if st.timeLimit > 0 then Some(st.timeLimit) else None,
      if st.memoryLimit > 0 then Some(UInt32OfLong(st.memoryLimit)) else None)
  }

  /** What main does: exit with a code, run the built-in experiment, run the parsed settings, or die. */
  datatype Launch =
    | Exit(code: int)
    | RunCustom(doReachQueries: bool)
    | Run(doReachQueries: bool, settings: Settings, limits: Limits)
    | Fatal

  /** main: usage error without arguments, a mode check, then the argument loop. */
  method Start(argv: seq<string>) returns (r: Launch)
    ensures |argv| <= 1 ==> r == Exit(1)
    ensures |argv| >= 2 && ToLower(argv[1]) != "reach" && ToLower(argv[1]) != "lcr" ==> r == Exit(1)
    ensures |argv| == 2 && ToLower(argv[1]) in {"reach", "lcr"} ==> r == RunCustom(ToLower(argv[1]) == "reach")
    ensures |argv| > 2 && ToLower(argv[1]) in {"reach", "lcr"} ==>
      match ParseFrom(argv, 2, Initial)
      case None => r == Fatal
      case Some(st) => r == Run(ToLower(argv[1]) == "reach", st, LimitsOf(st))
  {
    if |argv| <= 1 {
      return Exit(1);
    }
    var runMode := ToLower(argv[1]);
    var doReachQueries: bool;
    if runMode == "reach" {
      doReachQueries := true;
    } else if runMode == "lcr" {
      doReachQueries := false;
    } else {
      return Exit(1);
    }
    if |argv| == 2 {
      return RunCustom(doReachQueries);
    }
    var settings := ReadArgs(argv);
    if settings.None? {
      return Fatal;
    }
    r := Run(doReachQueries, settings.value, LimitsOf(settings.value));
  }

  // ---------------------------------------------------------------------
  // Properties of the argument loop
  // ---------------------------------------------------------------------

  /** Naming the index twice is fatal, whatever follows. */
  lemma IndexTwiceFatal(prefix: seq<string>, a: string, b: string, rest: seq<string>)
    requires |prefix| == 2 && a != ""
    ensures ParseFrom(prefix + ["--index", a, "--index", b] + rest, 2, Initial) == None
  {
    var argv := prefix + ["--index", a, "--index", b] + rest;
    assert argv[2] == "--index" && argv[3] == a && argv[4] == "--index";
    assert ParseFrom(argv, 2, Initial) == ParseFrom(argv, 4, Initial.(index := a));
  }

  /** Naming the graph file twice is fatal, whatever follows. */
  lemma GraphFileTwiceFatal(prefix: seq<string>, a: string, b: string, rest: seq<string>)
    requires |prefix| == 2 && a != ""
    ensures ParseFrom(prefix + ["--graphFile", a, "--graphFile", b] + rest, 2, Initial) == None
  {
    var argv := prefix + ["--graphFile", a, "--graphFile", b] + rest;
    assert argv[2] == "--graphFile" && argv[3] == a && argv[4] == "--graphFile";
    assert ParseFrom(argv, 2, Initial) == ParseFrom(argv, 4, Initial.(graphFile := a));
  }

  /** An unrecognised switch is fatal. */
  lemma UnknownSwitchFatal(argv: seq<string>, i: nat, st: Settings)
    requires i < |argv| && IsSwitch(argv[i])
    requires argv[i] !in {"--index", "--indexParams", "--graphFile", "--queryFile", "--timeLimit", "--memoryLimit", "--control"}
    ensures ParseFrom(argv, i, st) == None
  {
  }

  /** A value-taking switch as the last argument is fatal. */
  lemma MissingValueFatal(argv: seq<string>, st: Settings)
    requires |argv| > 0 && argv[|argv| - 1] in {"--index", "--graphFile", "--queryFile", "--timeLimit", "--memoryLimit"}
    ensures ParseFrom(argv, |argv| - 1, st) == None
  {
  }

  /** Whatever the arguments, a parse that succeeds has a graph file, a query file and an index. */
  lemma {:induction false} RequiredSettings(argv: seq<string>, i: nat, st: Settings)
    requires i <= |argv|
    ensures ParseFrom(argv, i, st).Some? ==>
      ParseFrom(argv, i, st).value.graphFile != "" && ParseFrom(argv, i, st).value.queryFiles != [] &&
      ParseFrom(argv, i, st).value.index != ""
    decreases |argv| - i
  {
    if i < |argv| && IsSwitch(argv[i]) {
      var c := argv[i];
      if c == "--indexParams" && st.indexParams == [] {
        var e := ParamsEnd(argv, i + 1);
        RequiredSettings(argv, e, st.(indexParams := argv[i + 1..e]));
      } else if c == "--index" && i + 1 < |argv| {
        RequiredSettings(argv, i + 2, st.(index := argv[i + 1]));
      } else if c == "--graphFile" && i + 1 < |argv| {
        RequiredSettings(argv, i + 2, st.(graphFile := argv[i + 1]));
      } else if c == "--queryFile" && i + 1 < |argv| {
        RequiredSettings(argv, i + 2, st.(queryFiles := st.queryFiles + [argv[i + 1]]));
      } else if c == "--timeLimit" && i + 1 < |argv| && Stoll(argv[i + 1]).Some? {
        RequiredSettings(argv, i + 2, st.(timeLimit := Stoll(argv[i + 1]).value));
      } else if c == "--memoryLimit" && i + 1 < |argv| && Stoll(argv[i + 1]).Some? {
        RequiredSettings(argv, i + 2, st.(memoryLimit := Stoll(argv[i + 1]).value));
      } else if c == "--control" {
        RequiredSettings(argv, i + 1, st.(control := true));
      }
    } else if i < |argv| {
      RequiredSettings(argv, i + 1, st);
    }
  }

  // ---------------------------------------------------------------------
  // A command line for every setting
  // ---------------------------------------------------------------------

  /** One "--queryFile name" pair per query file, in order. */
  function QueryArgs(files: seq<string>): (r: seq<string>)
    ensures |r| == 2 * |files|
  {
    if |files| == 0 then [] else ["--queryFile", files[0]] + QueryArgs(files[1..])
  }

  /** The arguments after the mode that select the given settings. */
  function RenderArgs(st: Settings): seq<string>
  {
    ["--graphFile", st.graphFile, "--index", st.index, "--timeLimit", IntToString(st.timeLimit),
      "--memoryLimit", IntToString(st.memoryLimit)]
    + (if st.control then ["--control"] else [])
    + ["--indexParams"] + st.indexParams
    + QueryArgs(st.queryFiles)
  }

  /** Settings a command line can express: the required names present, no parameter that looks like a switch, limits that fit a `long long`. */
  predicate Expressible(st: Settings)
  {
    st.graphFile != "" && st.index != "" && st.queryFiles != [] &&
    (forall k :: 0 <= k < |st.indexParams| ==> !IsSwitch(st.indexParams[k])) &&
    0 - (LongLimit as int) <= st.timeLimit < LongLimit && 0 - (LongLimit as int) <= st.memoryLimit < LongLimit
  }

  /** The query file pairs at position i append their files, in order. */
  lemma {:induction false} QueryArgsRead(argv: seq<string>, i: nat, st: Settings, files: seq<string>)
    requires i + 2 * |files| == |argv| && argv[i..] == QueryArgs(files)
    ensures ParseFrom(argv, i, st) == Finish(st.(queryFiles := st.queryFiles + files))
    decreases |files|
  {
    if |files| == 0 {
      assert st.(queryFiles := st.queryFiles + files) == st;
    } else {
      assert argv[i] == "--queryFile" && argv[i + 1] == files[0];
      assert argv[i + 2..] == QueryArgs(files[1..]);
      QueryArgsRead(argv, i + 2, st.(queryFiles := st.queryFiles + [files[0]]), files[1..]);
      assert st.queryFiles + [files[0]] + files[1..] == st.queryFiles + files;
    }
  }

  /** The --indexParams list at position i takes exactly the parameters. */
  lemma IndexParamsRead(argv: seq<string>, i: nat, st: Settings, params: seq<string>, st': Settings)
    requires i + 1 + |params| <= |argv| && argv[i] == "--indexParams" && st.indexParams == []
    requires argv[i + 1..i + 1 + |params|] == params
    requires forall k :: 0 <= k < |params| ==> !IsSwitch(params[k])
    requires i + 1 + |params| == |argv| || IsSwitch(argv[i + 1 + |params|])
    requires st' == st.(indexParams := params)
    ensures ParseFrom(argv, i, st) == ParseFrom(argv, i + 1 + |params|, st')
  {
    forall k | i + 1 <= k < i + 1 + |params|
      ensures !IsSwitch(argv[k])
    {
      assert argv[k] == params[k - i - 1];
    }
    ParamsEndAt(argv, i + 1, i + 1 + |params|);
  }

  /** ParamsEnd is the first switch: a run of non-switches ending at one pins it. */
  lemma {:induction false} ParamsEndAt(argv: seq<string>, j: nat, e: nat)
    requires j <= e <= |argv|
    requires forall k :: j <= k < e ==> !IsSwitch(argv[k])
    requires e == |argv| || IsSwitch(argv[e])
    ensures ParamsEnd(argv, j) == e
    decreases e - j
  {
    if j < e {
      ParamsEndAt(argv, j + 1, e);
    }
  }

  lemma GraphFileStep(argv: seq<string>, i: nat, st: Settings)
    requires i + 1 < |argv| && argv[i] == "--graphFile" && st.graphFile == ""
    ensures ParseFrom(argv, i, st) == ParseFrom(argv, i + 2, st.(graphFile := argv[i + 1]))
  {
  }

  lemma IndexStep(argv: seq<string>, i: nat, st: Settings)
    requires i + 1 < |argv| && argv[i] == "--index" && st.index == ""
    ensures ParseFrom(argv, i, st) == ParseFrom(argv, i + 2, st.(index := argv[i + 1]))
  {
  }

  lemma TimeLimitStep(argv: seq<string>, i: nat, st: Settings, v: int)
    requires 0 - (LongLimit as int) <= v < LongLimit
    requires i + 1 < |argv| && argv[i] == "--timeLimit" && argv[i + 1] == IntToString(v)
    ensures ParseFrom(argv, i, st) == ParseFrom(argv, i + 2, st.(timeLimit := v))
  {
    StollIntToString(v);
  }

  lemma MemoryLimitStep(argv: seq<string>, i: nat, st: Settings, v: int)
    requires 0 - (LongLimit as int) <= v < LongLimit
    requires i + 1 < |argv| && argv[i] == "--memoryLimit" && argv[i + 1] == IntToString(v)
    ensures ParseFrom(argv, i, st) == ParseFrom(argv, i + 2, st.(memoryLimit := v))
  {
    StollIntToString(v);
  }

  lemma ControlStep(argv: seq<string>, i: nat, st: Settings, flag: seq<string>, control: bool)
    requires flag == (if control then ["--control"] else [])
    requires i + |flag| < |argv| && argv[i..i + |flag|] == flag && argv[i + |flag|] == "--indexParams"
    ensures ParseFrom(argv, i, st) == ParseFrom(argv, i + |flag|, st.(control := st.control || control))
  {
    if !control {
      assert st.(control := st.control || control) == st;
    } else {
      assert argv[i] == "--control";
    }
  }

  /** The fixed switches at the head of a rendered command line. */
  lemma HeadRead(argv: seq<string>, st: Settings)
    requires Expressible(st) && |argv| >= 10
    requires argv[2] == "--graphFile" && argv[3] == st.graphFile && argv[4] == "--index" && argv[5] == st.index
    requires argv[6] == "--timeLimit" && argv[7] == IntToString(st.timeLimit)
    requires argv[8] == "--memoryLimit" && argv[9] == IntToString(st.memoryLimit)
    ensures ParseFrom(argv, 2, Initial) ==
      ParseFrom(argv, 10, Initial.(graphFile := st.graphFile, index := st.index, timeLimit := st.timeLimit,
        memoryLimit := st.memoryLimit))
  {
    var s1 := Initial.(graphFile := st.graphFile);
    var s2 := s1.(index := st.index);
    var s3 := s2.(timeLimit := st.timeLimit);
    calc {
      ParseFrom(argv, 2, Initial);
      == { GraphFileStep(argv, 2, Initial); }
      ParseFrom(argv, 4, s1);
      == { IndexStep(argv, 4, s1); }
      ParseFrom(argv, 6, s2);
      == { TimeLimitStep(argv, 6, s2, st.timeLimit); }
      ParseFrom(argv, 8, s3);
      == { MemoryLimitStep(argv, 8, s3, st.memoryLimit); }
      ParseFrom(argv, 10, s3.(memoryLimit := st.memoryLimit));
    }
  }

  /** The three parts of a concatenation, recovered by slicing. */
  lemma Parts(argv: seq<string>, a: seq<string>, b: seq<string>, c: seq<string>)
    requires argv == a + b + c
    ensures argv[|a|..|a| + |b|] == b && argv[|a| + |b|..] == c
  {
  }

  /** Where each part of a rendered command line sits. */
  predicate Rendered(argv: seq<string>, st: Settings, p: nat, q: nat)
  {
    p == 10 + (if st.control then 1 else 0) && q == p + 1 + |st.indexParams| && q <= |argv| &&
    argv[2] == "--graphFile" && argv[3] == st.graphFile && argv[4] == "--index" && argv[5] == st.index &&
    argv[6] == "--timeLimit" && argv[7] == IntToString(st.timeLimit) &&
    argv[8] == "--memoryLimit" && argv[9] == IntToString(st.memoryLimit) &&
    argv[10..p] == (if st.control then ["--control"] else []) && argv[p] == "--indexParams" &&
    argv[p + 1..q] == st.indexParams && argv[q..] == QueryArgs(st.queryFiles)
  }

  lemma RenderedShape(argv: seq<string>, program: string, mode: string, st: Settings)
    requires argv == [program, mode] + RenderArgs(st)
    ensures Rendered(argv, st, 10 + (if st.control then 1 else 0), 11 + (if st.control then 1 else 0) + |st.indexParams|)
  {
    var fixed := ["--graphFile", st.graphFile, "--index", st.index, "--timeLimit", IntToString(st.timeLimit),
      "--memoryLimit", IntToString(st.memoryLimit)];
    var flag := if st.control then ["--control"] else [];
    var pre := [program, mode] + fixed + flag + ["--indexParams"];
    assert argv == pre + st.indexParams + QueryArgs(st.queryFiles);
    Parts(argv, pre, st.indexParams, QueryArgs(st.queryFiles));
    Parts(argv[..10 + |flag|], [program, mode] + fixed, flag, []);
  }

  lemma RenderedRead(argv: seq<string>, st: Settings, p: nat, q: nat)
    requires Expressible(st) && Rendered(argv, st, p, q)
    ensures ParseFrom(argv, 2, Initial) == Some(st)
  {
    HeadRead(argv, st);
    var head := Initial.(graphFile := st.graphFile, index := st.index, timeLimit := st.timeLimit,
      memoryLimit := st.memoryLimit);
    var flagged := head.(control := st.control);
    ControlStep(argv, 10, head, if st.control then ["--control"] else [], st.control);
    assert q == |argv| || argv[q] == "--queryFile";
    IndexParamsRead(argv, p, flagged, st.indexParams, flagged.(indexParams := st.indexParams));
    QueryArgsRead(argv, q, flagged.(indexParams := st.indexParams), st.queryFiles);
    assert flagged.(indexParams := st.indexParams).(queryFiles := [] + st.queryFiles) == st;
  }

  /** Parsing the rendered arguments after any program name and mode gives back the settings. */
  lemma ArgsRoundTrip(program: string, mode: string, st: Settings)
    requires Expressible(st)
    ensures ParseFrom([program, mode] + RenderArgs(st), 2, Initial) == Some(st)
  {
    var argv := [program, mode] + RenderArgs(st);
    RenderedShape(argv, program, mode, st);
    RenderedRead(argv, st, 10 + (if st.control then 1 else 0), 11 + (if st.control then 1 else 0) + |st.indexParams|);
  }
}
