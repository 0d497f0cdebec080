/**
 * The bookkeeping of src/lcrQueryGenerator.cpp around the query walkers:
 * createLabelGenModes (how many labels the generated queries carry), the
 * QueryGenData list `main` builds from those modes, the duplicate-name
 * check of generateQueries, and the names of the files writeQueries
 * produces. The walkers, the BFS evaluation and the thread pool are not
 * part of this model.
 */
module QueryGenerator {
  import opened Text
  import opened CStrings
  import opened CsvQueries

  /**
   * createLabelGenModes: one label for at most two labels, one and two for
   * at most four, else a quarter, a half and all but two of the labels,
   * capped at 2, 4 and 6. The floor of a `double` division of a 32-bit
   * count is the integer quotient.
   */
  function LabelGenModes(labelCount: nat): (r: seq<nat>)
    ensures 1 <= |r| <= 3
    ensures forall k :: 0 <= k < |r| ==> 1 <= r[k] <= 6 && (labelCount > 0 ==> r[k] <= labelCount)
    ensures forall j, k :: 0 <= j < k < |r| ==> r[j] < r[k]
  {
    if labelCount <= 2 then [1]
    else if labelCount <= 4 then [1, 2]
    else [Min(labelCount / 4, 2), Min(labelCount / 2, 4), Min(labelCount - 2, 6)]
  }

  function Min(a: nat, b: nat): nat { if a < b then a else b }

  /** From eight labels on, the modes no longer depend on the label count. */
  lemma ModesOfLargeGraphs(labelCount: nat)
    requires labelCount >= 8
    ensures LabelGenModes(labelCount) == [2, 4, 6]
  {
  }

  /** One entry of the generation plan: a name, how many random and connected queries, and their label count. */
  datatype GenData = GenData(name: string, randomQueriesCount: nat, connectedQueriesCount: nat, labelCount: nat)

  /** The name of a mode's entry, with the "rnd." or "cnn." prefix of a split plan. */
  function ModeName(prefix: string, mode: nat): string
  {
    prefix + "L" + NatToString(mode)
  }

  /**
   * The plan for the modes: one entry "L<m>" with both counts per mode, or,
   * when random and connected queries are split, an entry "rnd.L<m>" with
   * only the random count followed by "cnn.L<m>" with only the connected
   * count.
   */
  predicate Planned(data: seq<GenData>, modes: seq<nat>, split: bool, randomCount: nat, connectedCount: nat)
  {
    (!split ==> (|data| == |modes| &&
      forall k :: 0 <= k < |modes| ==> data[k] == GenData(ModeName("", modes[k]), randomCount, connectedCount, modes[k]))) &&
    (split ==> (|data| == 2 * |modes| &&
      (forall k :: 0 <= k < |modes| ==> data[2 * k] == GenData(ModeName("rnd.", modes[k]), randomCount, 0, modes[k])) &&
      (forall k :: 0 <= k < |modes| ==> data[2 * k + 1] == GenData(ModeName("cnn.", modes[k]), 0, connectedCount, modes[k]))))
  }

  /** The loop of `main` over the modes, appending the entries of each. */
  method BuildGenData(modes: seq<nat>, split: bool, randomCount: nat, connectedCount: nat) returns (data: seq<GenData>)
    ensures Planned(data, modes, split, randomCount, connectedCount)
  {
    data := [];
    for i := 0 to |modes|
      invariant |data| == (if split then 2 * i else i)
      invariant Planned(data, modes[..i], split, randomCount, connectedCount)
    {
      var genMode := modes[i];
      if !split {
        data := data + [GenData(ModeName("", genMode), randomCount, connectedCount, genMode)];
      } else {
        data := data + [GenData(ModeName("rnd.", genMode), randomCount, 0, genMode)];
        data := data + [GenData(ModeName("cnn.", genMode), 0, connectedCount, genMode)];
      }
    }
    assert modes[..|modes|] == modes;
  }

  /** No two entries share a name. */
  predicate NamesDistinct(data: seq<GenData>)
  {
    forall j, k :: 0 <= j < k < |data| ==> data[j].name != data[k].name
  }

  function Names(data: seq<GenData>): (r: set<string>)
    ensures forall k :: 0 <= k < |data| ==> data[k].name in r
    ensures forall n :: n in r ==> exists k :: 0 <= k < |data| && data[k].name == n
  {
    set k | 0 <= k < |data| :: data[k].name
  }

  /**
   * The first loop of generateQueries: every name gets its query list, and
   * a name met a second time is fatal (None).
   */
  method RegisterNames(data: seq<GenData>) returns (r: Option<set<string>>)
    ensures r.Some? <==> NamesDistinct(data)
    ensures r.Some? ==> r.value == Names(data)
  {
    var queriesOut: set<string> := {};
    for i := 0 to |data|
      invariant queriesOut == Names(data[..i])
      invariant NamesDistinct(data[..i])
    {
      if data[i].name in queriesOut {
        var j :| 0 <= j < i && data[..i][j].name == data[i].name;
        assert data[j].name == data[i].name;
        return None;
      }
      assert data[..i + 1] == data[..i] + [data[i]];
      queriesOut := queriesOut + {data[i].name};
    }
    assert data[..|data|] == data;
    r := Some(queriesOut);
  }

  /** Different numbers have different decimal names. */
  lemma NatToStringInjective(a: nat, b: nat)
    requires NatToString(a) == NatToString(b)
    ensures a == b
  {
    DigitsValueOfNatToString(a);
    DigitsValueOfNatToString(b);
  }

  /** Entry names differ in their prefix or in their mode. */
  lemma ModeNamesDiffer(p: string, q: string, a: nat, b: nat)
    requires p in {"", "rnd.", "cnn."} && q in {"", "rnd.", "cnn."}
    requires p != q || a != b
    ensures ModeName(p, a) != ModeName(q, b)
  {
    if p != q {
      assert ModeName(p, a)[0] != ModeName(q, b)[0];
    } else {
      assert NatToString(a) != NatToString(b) by {
        if NatToString(a) == NatToString(b) {
          NatToStringInjective(a, b);
        }
      }
      assert ModeName(p, a)[|p| + 1..] == NatToString(a);
      assert ModeName(q, b)[|q| + 1..] == NatToString(b);
    }
  }

  /** The plan built from the label modes never trips the duplicate-name check, split or not. */
  lemma {:induction false} GenDataNamesDistinct(labelCount: nat, split: bool, data: seq<GenData>, randomCount: nat,
                                                connectedCount: nat)
    requires Planned(data, LabelGenModes(labelCount), split, randomCount, connectedCount)
    ensures NamesDistinct(data)
  {
    var modes := LabelGenModes(labelCount);
    forall j, k | 0 <= j < k < |data|
      ensures data[j].name != data[k].name
    {
      if !split {
        ModeNamesDiffer("", "", modes[j], modes[k]);
      } else {
        var pj, mj := SplitEntry(data, modes, randomCount, connectedCount, j);
        var pk, mk := SplitEntry(data, modes, randomCount, connectedCount, k);
        if pj == pk {
          assert mj < mk;
        }
        ModeNamesDiffer(pj, pk, modes[mj], modes[mk]);
      }
    }
  }

  /** Entry j of a split plan is the random (even j) or connected (odd j) entry of mode j / 2. */
  lemma SplitEntry(data: seq<GenData>, modes: seq<nat>, randomCount: nat, connectedCount: nat, j: nat)
    returns (prefix: string, m: nat)
    requires Planned(data, modes, true, randomCount, connectedCount) && j < |data|
    ensures m < |modes| && prefix == (if j % 2 == 0 then "rnd." else "cnn.")
    ensures j == 2 * m + j % 2 && data[j].name == ModeName(prefix, modes[m])
  {
    m := j / 2;
    if j % 2 == 0 {
      prefix := "rnd.";
      assert data[2 * m] == GenData(ModeName("rnd.", modes[m]), randomCount, 0, modes[m]);
    } else {
      prefix := "cnn.";
      assert data[2 * m + 1] == GenData(ModeName("cnn.", modes[m]), 0, connectedCount, modes[m]);
    }
  }

  /** A split plan asks for as many random and connected queries per mode as an unsplit one. */
  lemma SplitKeepsCounts(g1: GenData, g2: GenData, mode: nat, randomCount: nat, connectedCount: nat)
    requires g1 == GenData(ModeName("rnd.", mode), randomCount, 0, mode)
    requires g2 == GenData(ModeName("cnn.", mode), 0, connectedCount, mode)
    ensures g1.randomQueriesCount + g2.randomQueriesCount == randomCount
    ensures g1.connectedQueriesCount + g2.connectedQueriesCount == connectedCount
    ensures g1.labelCount == g2.labelCount == mode
  {
  }

  // ---------------------------------------------------------------------
  // File names
  // ---------------------------------------------------------------------

  /** `std::replace_if` of every backslash by a slash in the graph path. */
  function NormalizeSlashes(path: string): (r: string)
    ensures |r| == |path| && '\\' !in r
    ensures forall i :: 0 <= i < |path| ==> r[i] == (if path[i] == '\\' then '/' else path[i])
  {
    if |path| == 0 then "" else [if path[0] == '\\' then '/' else path[0]] + NormalizeSlashes(path[1..])
  }

  /**
   * The path without its extension: everything before the last '.', which
   * `find_last_of` looks for anywhere in the path; the whole path when
   * there is none (`substr(0, npos)`).
   */
  function Stem(path: string): (r: string)
    ensures |r| <= |path| && r == path[..|r|]
  {
    match LastIndexOf(path, '.')
    case None => path
    case Some(k) => path[..k]
  }

  /** A path that ends in an extension without a dot loses exactly that extension. */
  lemma StemRemovesExtension(base: string, ext: string)
    requires '.' !in ext
    ensures Stem(base + "." + ext) == base
  {
    LastIndexOfLast(base, ext, '.');
  }

  /** A path without a dot is its own stem. */
  lemma StemWithoutDot(path: string)
    requires '.' !in path
    ensures Stem(path) == path
  {
    LastIndexOfSpec(path, '.');
  }

  /** The dot may sit in a directory name: a path without extension below ".." is cut inside it. */
  lemma StemCutsInsideDirectory()
    ensures Stem("./../graph") == "./."
  {
    LastIndexOfLast("./.", "/graph", '.');
    assert "./../graph" == "./." + "." + "/graph";
  }

  /** The file of the queries of one entry that are reachable (true) or not (false). */
  function QueryFileName(stem: string, name: string, reachable: bool): string
  {
    stem + ".queries-lcr." + name + (if reachable then ".true.csv" else ".false.csv")
  }

  /** The file of the all-in-one mode. */
  function AllInOneFileName(path: string): string
  {
    Stem(path) + ".queries-lcr.csv"
  }

  /** The queries of one entry, split by whether they are reachable. */
  datatype QueryGroup = QueryGroup(name: string, falseQueries: seq<LabeledQuery>, trueQueries: seq<LabeledQuery>)

  /** One written file: its path and the queries in it. */
  datatype OutputFile = OutputFile(path: string, queries: seq<LabeledQuery>)

  /** The files for a sequence of groups: the unreachable then the reachable queries of each, empty lists skipped. */
  function Outputs(stem: string, groups: seq<QueryGroup>): (r: seq<OutputFile>)
  {
    if |groups| == 0 then []
    else
      var g := groups[0];
      (if |g.falseQueries| > 0 then [OutputFile(QueryFileName(stem, g.name, false), g.falseQueries)] else [])
      + (if |g.trueQueries| > 0 then [OutputFile(QueryFileName(stem, g.name, true), g.trueQueries)] else [])
      + Outputs(stem, groups[1..])
  }

  lemma {:induction false} OutputsSnoc(stem: string, groups: seq<QueryGroup>, g: QueryGroup)
    ensures Outputs(stem, groups + [g]) == Outputs(stem, groups)
      + (if |g.falseQueries| > 0 then [OutputFile(QueryFileName(stem, g.name, false), g.falseQueries)] else [])
      + (if |g.trueQueries| > 0 then [OutputFile(QueryFileName(stem, g.name, true), g.trueQueries)] else [])
    decreases |groups|
  {
    if |groups| > 0 {
      assert (groups + [g])[1..] == groups[1..] + [g];
      OutputsSnoc(stem, groups[1..], g);
    } else {
      assert groups + [g] == [g];
    }
  }

  /** No file is written for an empty list. */
  lemma {:induction false} OutputsNonEmpty(stem: string, groups: seq<QueryGroup>)
    ensures forall f :: f in Outputs(stem, groups) ==> |f.queries| > 0
    decreases |groups|
  {
    if |groups| > 0 {
      OutputsNonEmpty(stem, groups[1..]);
    }
  }

  /** Every non-empty list of every group is written to its own file name. */
  lemma {:induction false} OutputsComplete(stem: string, groups: seq<QueryGroup>, k: nat)
    requires k < |groups|
    ensures |groups[k].falseQueries| > 0 ==>
      OutputFile(QueryFileName(stem, groups[k].name, false), groups[k].falseQueries) in Outputs(stem, groups)
    ensures |groups[k].trueQueries| > 0 ==>
      OutputFile(QueryFileName(stem, groups[k].name, true), groups[k].trueQueries) in Outputs(stem, groups)
    decreases k
  {
    if k > 0 {
      OutputsComplete(stem, groups[1..], k - 1);
    }
  }

  /**
   * writeQueries for the split mode: for each group, a file of its
   * unreachable queries and one of its reachable queries, each only when
   * it has queries.
   */
  method WriteQueryFiles(graphFile: string, groups: seq<QueryGroup>) returns (files: seq<OutputFile>)
    ensures files == Outputs(Stem(graphFile), groups)
  {
    var stem := Stem(graphFile);
    files := [];
    for i := 0 to |groups|
      invariant files == Outputs(stem, groups[..i])
    {
      var g := groups[i];
      OutputsSnoc(stem, groups[..i], g);
      assert groups[..i + 1] == groups[..i] + [g];
      if |g.falseQueries| > 0 {
        files := files + [OutputFile(QueryFileName(stem, g.name, false), g.falseQueries)];
      }
      if |g.trueQueries| > 0 {
        files := files + [OutputFile(QueryFileName(stem, g.name, true), g.trueQueries)];
      }
    }
    assert groups[..|groups|] == groups;
  }
}
