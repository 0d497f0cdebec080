/**
 * The benchmark sweep's checkpoint (runner/ContinueState.py): a file of
 * "name<TAB>value" lines, rewritten before every benchmark cell and read
 * back to resume an interrupted sweep. The file system is the `file`
 * field: the text of the state file, or None when it does not exist.
 * Values arrive already rendered by Python's `str`.
 */
module ContinueState {
  import opened Text
  import opened CStrings

  /** One line of the state file, without its newline. */
  function PairLine(name: string, value: string): string
  {
    name + "\t" + value
  }

  /** The lines saveState writes, one per entry, in the dictionary's order. */
  function PairLines(pairs: seq<(string, string)>): (r: seq<string>)
    ensures |r| == |pairs|
  {
    if |pairs| == 0 then []
    else PairLines(pairs[..|pairs| - 1]) + [PairLine(pairs[|pairs| - 1].0, pairs[|pairs| - 1].1)]
  }

  /** The dictionary a list of entries builds: later entries win, as in a Python dict literal. */
  function ToMap(pairs: seq<(string, string)>): map<string, string>
  {
    if |pairs| == 0 then map[]
    else ToMap(pairs[..|pairs| - 1])[pairs[|pairs| - 1].0 := pairs[|pairs| - 1].1]
  }

  /**
   * One line read back: stripped of surrounding whitespace and split on
   * tabs; a line without a tab has no `pair[1]` and Python raises (None).
   * The second `strip("\n")` finds nothing left to remove.
   */
  function ParseLine(line: string): (r: Option<(string, string)>)
    ensures r.Some? ==> '\t' !in r.value.0 && '\t' !in r.value.1
  {
    var parts := Split(Strip(line), '\t');
    if |parts| < 2 then None else Some((parts[0], parts[1]))
  }

  /** The dictionary loadState builds from the file's lines, or None when a line has no tab. */
  function Loaded(lines: seq<string>): Option<map<string, string>>
  {
    if |lines| == 0 then Some(map[])
    else
      match Loaded(lines[..|lines| - 1])
      case None => None
      case Some(m) =>
        match ParseLine(lines[|lines| - 1])
        case None => None
        case Some((name, value)) => Some(m[name := value])
  }

  /** An entry that survives writing and reading: no tab or line break, and no whitespace where `strip` would cut. */
  predicate Storable(name: string, value: string)
  {
    '\t' !in name && '\n' !in name && '\t' !in value && '\n' !in value &&
    |name| > 0 && !IsSpace(name[0]) && |value| > 0 && !IsSpace(value[|value| - 1])
  }

  class Checkpoint {
    /** The state file's text; None when the file does not exist. */
    var file: Option<string>

    /** The state directory is created if missing; a file left by an earlier run stays. */
    constructor(existing: Option<string>)
      ensures file == existing
    {
      file := existing;
    }

    /** `hasStateToContinue`: the state file exists. */
    predicate HasStateToContinue()
      reads this
    {
      file.Some?
    }

    /** `saveState`: overwrites the file with one "name<TAB>value" line per entry. */
    method SaveState(pairs: seq<(string, string)>)
      modifies this
      ensures file == Some(Terminated(PairLines(pairs)))
    {
      var text := "";
      var i := 0;
      while i < |pairs|
        invariant i <= |pairs|
        invariant text == Terminated(PairLines(pairs[..i]))
      {
        assert pairs[..i + 1][..i] == pairs[..i];
        TerminatedAppend(PairLines(pairs[..i]), PairLine(pairs[i].0, pairs[i].1));
        text := text + pairs[i].0 + "\t" + pairs[i].1 + "\n";
        i := i + 1;
      }
      assert pairs[..i] == pairs;
      file := Some(text);
    }

    /**
     * `loadState`: the entries of the file's lines. None when the file is
     * missing (`open` raises) or a line holds no tab (`pair[1]` raises).
     */
    method LoadState() returns (r: Option<map<string, string>>)
      ensures file.None? ==> r.None?
      ensures file.Some? ==> r == Loaded(Lines(file.value))
    {
      if file.None? {
        return None;
      }
      var lines := Lines(file.value);
      var m: map<string, string> := map[];
      var i := 0;
      while i < |lines|
        invariant i <= |lines|
        invariant Loaded(lines[..i]) == Some(m)
      {
        var pair := ParseLine(lines[i]);
        LoadedNext(lines, i);
        if pair.None? {
          LoadedStops(lines, i + 1);
          return None;
        }
        m := m[pair.value.0 := pair.value.1];
        i := i + 1;
      }
      assert lines[..i] == lines;
      r := Some(m);
    }

    /** `cleanup`: removes the file; `os.remove` raises (ok false) when there is none. */
    method Cleanup() returns (ok: bool)
      modifies this
      ensures ok == old(file).Some?
      ensures file.None? && !HasStateToContinue()
    {
      ok := file.Some?;
      file := None;
    }
  }

  /** Loading one more line: the line's entry is added, or loading fails when the line has no tab. */
  lemma LoadedNext(lines: seq<string>, i: nat)
    requires i < |lines|
    ensures ParseLine(lines[i]).None? ==> Loaded(lines[..i + 1]).None?
    ensures Loaded(lines[..i]).Some? && ParseLine(lines[i]).Some? ==>
      Loaded(lines[..i + 1]) == Some(Loaded(lines[..i]).value[ParseLine(lines[i]).value.0 := ParseLine(lines[i]).value.1])
  {
    assert lines[..i + 1][..i] == lines[..i];
  }

  /** Once a line cannot be read, loading the whole file fails. */
  lemma {:induction false} LoadedStops(lines: seq<string>, n: nat)
    requires n <= |lines| && Loaded(lines[..n]).None?
    ensures Loaded(lines).None?
    decreases |lines| - n
  {
    if n < |lines| {
      assert lines[..n + 1][..n] == lines[..n];
      LoadedStops(lines, n + 1);
    } else {
      assert lines[..n] == lines;
    }
  }

  /** A written line reads back as its name and value. */
  lemma ParsePairLine(name: string, value: string)
    requires Storable(name, value)
    ensures ParseLine(PairLine(name, value)) == Some((name, value))
  {
    var line := PairLine(name, value);
    assert Strip(line) == line by {
      assert line[0] == name[0] && line[|line| - 1] == value[|value| - 1];
      StripTrimmed(line);
    }
    assert Split(line, '\t') == [name, value] by {
      assert line == name + ['\t'] + value;
      SplitAppend(name, value, '\t');
      SplitNoSeparator(value, '\t');
    }
  }

  /** Reading the lines of saved entries gives the dictionary they came from. */
  lemma {:induction false} LoadedPairLines(pairs: seq<(string, string)>)
    requires forall i :: 0 <= i < |pairs| ==> Storable(pairs[i].0, pairs[i].1)
    ensures Loaded(PairLines(pairs)) == Some(ToMap(pairs))
    decreases |pairs|
  {
    if |pairs| > 0 {
      var front := pairs[..|pairs| - 1];
      var last := pairs[|pairs| - 1];
      LoadedPairLines(front);
      var lines := PairLines(pairs);
      assert lines[..|lines| - 1] == PairLines(front);
      ParsePairLine(last.0, last.1);
    }
  }

  /** Saved lines hold no line break, so the file splits back into them. */
  lemma {:induction false} PairLinesUnbroken(pairs: seq<(string, string)>)
    requires forall i :: 0 <= i < |pairs| ==> Storable(pairs[i].0, pairs[i].1)
    ensures forall i :: 0 <= i < |pairs| ==> '\n' !in PairLines(pairs)[i]
    decreases |pairs|
  {
    if |pairs| > 0 {
      PairLinesUnbroken(pairs[..|pairs| - 1]);
      var last := pairs[|pairs| - 1];
      assert PairLine(last.0, last.1) == last.0 + ['\t'] + last.1;
    }
  }

  /**
   * Load after save: the file saveState writes reads back, through
   * loadState, as the same names mapped to the same (string) values.
   */
  lemma SaveLoadRoundTrip(pairs: seq<(string, string)>)
    requires forall i :: 0 <= i < |pairs| ==> Storable(pairs[i].0, pairs[i].1)
    ensures Loaded(Lines(Terminated(PairLines(pairs)))) == Some(ToMap(pairs))
  {
    PairLinesUnbroken(pairs);
    LinesTerminated(PairLines(pairs));
    LoadedPairLines(pairs);
  }

  /** An entry with an empty name cannot be read back: its line strips to the bare value, which holds no tab. */
  lemma EmptyNameUnreadable(value: string)
    requires '\t' !in value && '\n' !in value
    requires |value| > 0 && !IsSpace(value[0]) && !IsSpace(value[|value| - 1])
    ensures Loaded(Lines(Terminated(PairLines([("", value)])))).None?
  {
    var line := PairLine("", value);
    assert PairLines([("", value)]) == [line] by {
      assert [("", value)][..0] == [];
    }
    assert line == ['\t'] + value;
    LinesTerminated([line]);
    TabLineUnreadable(value);
    assert [line][..0] == [];
  }

  /** A tab followed by a tab-free value strips to the value and splits into one piece. */
  lemma TabLineUnreadable(value: string)
    requires '\t' !in value
    requires |value| > 0 && !IsSpace(value[0]) && !IsSpace(value[|value| - 1])
    ensures ParseLine(PairLine("", value)).None?
  {
    var line := PairLine("", value);
    assert StripLeft(line) == value by {
      assert line[1..] == value;
    }
    assert Strip(line) == value by {
      StripTrimmed(value);
    }
    SplitNoSeparator(value, '\t');
  }
}
