/**
 * The CSV query files of src/io/queryReader/CSVQueryReader.cpp and
 * src/io/queryWriter/CSVQueryWriter.cpp. Every line is
 * `source,labels,target`, the labels written as the set bits of the query's
 * label set in ascending order joined by '+'. The reader finds the first
 * and the last comma, reads numbers with `std::stoul` straight from the
 * line's buffer and walks the label part from '+' to '+'.
 */
module CsvQueries {
  import opened Text
  import opened CStrings

  datatype ReachQuery = ReachQuery(source: nat, target: nat)

  /** What readLabeledQueries hands to the LCRQuery constructor: the labels in file order. */
  datatype LabeledQuery = LabeledQuery(source: nat, target: nat, labels: seq<nat>)

  /** The fields writeLabeledQueries reads from an LCRQuery. */
  datatype WrittenQuery = WrittenQuery(source: nat, target: nat, labelSet: seq<bool>)

  // ---------------------------------------------------------------------
  // Reading
  // ---------------------------------------------------------------------

  /**
   * The start of the label part `substr(firstPart + 1, ...)`: after the
   * first comma, or 0 when there is none and npos + 1 wraps.
   */
  function LabelStart(line: string): (r: nat)
    ensures r <= |line|
    ensures ',' in line ==> 0 < r && line[r - 1] == ',' && ',' !in line[..r - 1]
    ensures ',' !in line ==> r == 0
  {
    IndexOfSpec(line, ',');
    match IndexOf(line, ',')
    case None => 0
    case Some(first) => first + 1
  }

  /**
   * The end of the label part, `lastPart - firstPart - 1` characters after
   * its start: the last comma, or the end of the line when the length wraps
   * to npos (a single comma, or none).
   */
  function LabelEnd(line: string): (r: nat)
    ensures LabelStart(line) <= r <= |line|
    ensures ',' !in line ==> r == |line|
  {
    IndexOfSpec(line, ',');
    LastIndexOfSpec(line, ',');
    match IndexOf(line, ',')
    case None => |line|
    case Some(first) =>
      var last := LastIndexOf(line, ',').value;
      if last > first then last else |line|
  }

  /** Where the label walk stops: the end of the label part less a trailing '+' (the `back()` test). */
  function LabelStop(line: string): (r: nat)
    requires LabelStart(line) < LabelEnd(line)
    ensures LabelStart(line) <= r <= LabelEnd(line)
  {
    if line[LabelEnd(line) - 1] == '+' then LabelEnd(line) - 1 else LabelEnd(line)
  }

  /** `lastPart + 1`: the offset after the last comma, 0 when npos + 1 wraps. */
  function TargetOffset(line: string): (r: nat)
    ensures r <= |line|
    ensures ',' in line ==> 0 < r && line[r - 1] == ',' && ',' !in line[r..]
  {
    LastIndexOfSpec(line, ',');
    match LastIndexOf(line, ',')
    case None => 0
    case Some(last) => last + 1
  }

  /**
   * The labels from `start`, the label part ending at `end`: each label is
   * read from the line's buffer at `start` (so `std::stoul` stops at the
   * first non-digit, wherever the view ends), then the walk moves past the
   * next '+' of the view; the piece after the last '+' is the last label.
   */
  function LabelsFrom(line: string, start: nat, end: nat): (r: Option<seq<nat>>)
    requires start <= end <= |line|
    ensures r.Some? ==> |r.value| >= 1
    decreases end - start
  {
    match Stoul(line[start..])
    case None => None
    case Some(value) =>
      match IndexOf(line[start..end], '+')
      case None => Some([UInt32(value)])
      case Some(p) =>
        match LabelsFrom(line, start + p + 1, end)
        case None => None
        case Some(rest) => Some([UInt32(value)] + rest)
  }

  /**
   * One line of readLabeledQueries. A failing `std::stoul` throws and ends
   * the program (None). An empty label part has no `back()`; the model
   * reports that undefined case as None as well.
   */
  function ParseLabeledLine(line: string): (r: Option<LabeledQuery>)
  {
    var source := Stoul(line);
    if source.None? || LabelStart(line) == LabelEnd(line) then None
    else
      var labels := LabelsFrom(line, LabelStart(line), LabelStop(line));
      var target := Stoul(line[TargetOffset(line)..]);
      if labels.None? || target.None? then None
      else Some(LabeledQuery(UInt32(source.value), UInt32(target.value), labels.value))
  }

  /** One line of readQueries: the number at the start and the number after the last comma. */
  function ParseReachLine(line: string): (r: Option<ReachQuery>)
  {
    match Stoul(line)
    case None => None
    case Some(source) =>
      match Stoul(line[TargetOffset(line)..])
      case None => None
      case Some(target) => Some(ReachQuery(UInt32(source), UInt32(target)))
  }

  /** Labels read so far in front of what the rest of the walk yields. */
  function Prepend(labels: seq<nat>, r: Option<seq<nat>>): Option<seq<nat>>
  {
    match r
    case None => None
    case Some(rest) => Some(labels + rest)
  }

  lemma PrependCompose(labels: seq<nat>, more: seq<nat>, r: Option<seq<nat>>)
    ensures Prepend([], r) == r
    ensures Prepend(labels, Prepend(more, r)) == Prepend(labels + more, r)
  {
    match r {
      case None =>
      case Some(rest) =>
        assert [] + rest == rest;
        assert labels + (more + rest) == (labels + more) + rest;
    }
  }

  /** One round of the label walk: the label at `start`, then the walk from `next`, after the next '+'. */
  lemma LabelsFromStep(line: string, start: nat, end: nat, p: nat, next: nat, value: nat)
    requires start <= end <= |line| && next == start + p + 1
    requires IndexOf(line[start..end], '+') == Some(p) && Stoul(line[start..]) == Some(value)
    ensures next <= end
    ensures LabelsFrom(line, start, end) == Prepend([UInt32(value)], LabelsFrom(line, next, end))
  {
  }

  /** The last round of the label walk: no '+' left in the view. */
  lemma LabelsFromLast(line: string, start: nat, end: nat, value: nat)
    requires start <= end <= |line|
    requires IndexOf(line[start..end], '+') == None && Stoul(line[start..]) == Some(value)
    ensures LabelsFrom(line, start, end) == Some([UInt32(value)])
  {
  }

  /** A round of the walk whose label fits in 32 bits, in front of the labels the rest yields. */
  lemma LabelsFromCons(line: string, start: nat, end: nat, p: nat, next: nat, value: nat, rest: seq<nat>)
    requires start <= end <= |line| && value < UInt32Limit
    requires IndexOf(line[start..end], '+') == Some(p) && Stoul(line[start..]) == Some(value)
    requires next == start + p + 1 <= end && LabelsFrom(line, next, end) == Some(rest)
    ensures LabelsFrom(line, start, end) == Some([value] + rest)
  {
    LabelsFromStep(line, start, end, p, next, value);
  }

  /** The walk invariant survives one round. */
  lemma WalkStep(line: string, first: nat, start: nat, end: nat, labels: seq<nat>, p: nat, next: nat, value: nat)
    requires first <= start <= end <= |line| && next == start + p + 1
    requires IndexOf(line[start..end], '+') == Some(p) && Stoul(line[start..]) == Some(value)
    requires LabelsFrom(line, first, end) == Prepend(labels, LabelsFrom(line, start, end))
    ensures next <= end
    ensures LabelsFrom(line, first, end) == Prepend(labels + [UInt32(value)], LabelsFrom(line, next, end))
  {
    LabelsFromStep(line, start, end, p, next, value);
    PrependCompose(labels, [UInt32(value)], LabelsFrom(line, next, end));
  }

  /** The label loop of readLabeledQueries: read a label, drop the view up to the next '+', until none is left. */
  method ReadLabels(line: string, start: nat, end: nat) returns (r: Option<seq<nat>>)
    requires start <= end <= |line|
    ensures r == LabelsFrom(line, start, end)
  {
    var labels: seq<nat> := [];
    var from := start;
    var lastPos := IndexOf(line[from..end], '+');
    PrependCompose([], [], LabelsFrom(line, from, end));
    while lastPos.Some?
      invariant start <= from <= end
      invariant lastPos == IndexOf(line[from..end], '+')
      invariant LabelsFrom(line, start, end) == Prepend(labels, LabelsFrom(line, from, end))
      decreases end - from
    {
      var parsed := Stoul(line[from..]);
      if parsed.None? {
        return None;
      }
      ghost var before, at := labels, from;
      labels := labels + [UInt32(parsed.value)];
      from := from + lastPos.value + 1;
      WalkStep(line, start, at, end, before, lastPos.value, from, parsed.value);
      lastPos := IndexOf(line[from..end], '+');
    }
    var parsed := Stoul(line[from..]);
    if parsed.None? {
      return None;
    }
    PrependCompose(labels, [UInt32(parsed.value)], Some([]));
    r := Some(labels + [UInt32(parsed.value)]);
  }

  /** The body of the readLabeledQueries line loop. */
  method ReadLabeledLine(line: string) returns (r: Option<LabeledQuery>)
    ensures r == ParseLabeledLine(line)
  {
    var source := Stoul(line);
    if source.None? {
      return None;
    }
    var start, end := LabelStart(line), LabelEnd(line);
    if start == end {
      return None;
    }
    if line[end - 1] == '+' {
      end := end - 1;
    }
    assert end == LabelStop(line);
    var labels := ReadLabels(line, start, end);
    if labels.None? {
      return None;
    }
    var target := Stoul(line[TargetOffset(line)..]);
    if target.None? {
      return None;
    }
    r := Some(LabeledQuery(UInt32(source.value), UInt32(target.value), labels.value));
  }

  predicate LabeledLinesParse(lines: seq<string>)
  {
    forall i :: 0 <= i < |lines| ==> ParseLabeledLine(lines[i]).Some?
  }

  /** The queries of lines that all parse, one per line, in order. */
  function ParsedLabeledLines(lines: seq<string>): (r: seq<LabeledQuery>)
    requires LabeledLinesParse(lines)
    ensures |r| == |lines| && forall i :: 0 <= i < |lines| ==> Some(r[i]) == ParseLabeledLine(lines[i])
  {
    seq(|lines|, i requires 0 <= i < |lines| => ParseLabeledLine(lines[i]).value)
  }

  predicate ReachLinesParse(lines: seq<string>)
  {
    forall i :: 0 <= i < |lines| ==> ParseReachLine(lines[i]).Some?
  }

  function ParsedReachLines(lines: seq<string>): (r: seq<ReachQuery>)
    requires ReachLinesParse(lines)
    ensures |r| == |lines| && forall i :: 0 <= i < |lines| ==> Some(r[i]) == ParseReachLine(lines[i])
  {
    seq(|lines|, i requires 0 <= i < |lines| => ParseReachLine(lines[i]).value)
  }

  lemma LabeledLinesStep(lines: seq<string>, i: nat, q: LabeledQuery)
    requires i < |lines| && LabeledLinesParse(lines[..i]) && ParseLabeledLine(lines[i]) == Some(q)
    ensures LabeledLinesParse(lines[..i + 1]) && ParsedLabeledLines(lines[..i + 1]) == ParsedLabeledLines(lines[..i]) + [q]
  {
    assert lines[..i + 1] == lines[..i] + [lines[i]];
  }

  lemma ReachLinesStep(lines: seq<string>, i: nat, q: ReachQuery)
    requires i < |lines| && ReachLinesParse(lines[..i]) && ParseReachLine(lines[i]) == Some(q)
    ensures ReachLinesParse(lines[..i + 1]) && ParsedReachLines(lines[..i + 1]) == ParsedReachLines(lines[..i]) + [q]
  {
    assert lines[..i + 1] == lines[..i] + [lines[i]];
  }

  lemma AllLines(lines: seq<string>)
    ensures lines[..|lines|] == lines
  {
  }

  /**
   * readLabeledQueries: one query per line, in file order; a line that
   * does not parse ends the program (None).
   */
  method ReadLabeledQueries(text: string) returns (r: Option<seq<LabeledQuery>>)
    ensures r.Some? <==> LabeledLinesParse(Lines(text))
    ensures r.Some? ==> r.value == ParsedLabeledLines(Lines(text))
  {
    var lines := Lines(text);
    var querySet: seq<LabeledQuery> := [];
    for i := 0 to |lines|
      invariant LabeledLinesParse(lines[..i]) && querySet == ParsedLabeledLines(lines[..i])
    {
      var query := ReadLabeledLine(lines[i]);
      if query.None? {
        return None;
      }
      LabeledLinesStep(lines, i, query.value);
      querySet := querySet + [query.value];
    }
    AllLines(lines);
    r := Some(querySet);
  }

  /** readQueries: the source and target of every line, in file order. */
  method ReadQueries(text: string) returns (r: Option<seq<ReachQuery>>)
    ensures r.Some? <==> ReachLinesParse(Lines(text))
    ensures r.Some? ==> r.value == ParsedReachLines(Lines(text))
  {
    var lines := Lines(text);
    var querySet: seq<ReachQuery> := [];
    for i := 0 to |lines|
      invariant ReachLinesParse(lines[..i]) && querySet == ParsedReachLines(lines[..i])
    {
      var query := ParseReachLine(lines[i]);
      if query.None? {
        return None;
      }
      ReachLinesStep(lines, i, query.value);
      querySet := querySet + [query.value];
    }
    AllLines(lines);
    r := Some(querySet);
  }

  // ---------------------------------------------------------------------
  // Writing
  // ---------------------------------------------------------------------

  /** The indices of the set bits, ascending. */
  function SetBits(labelSet: seq<bool>): (r: seq<nat>)
  {
    if |labelSet| == 0 then []
    else SetBits(labelSet[..|labelSet| - 1]) + if labelSet[|labelSet| - 1] then [|labelSet| - 1] else []
  }

  /** SetBits lists exactly the set bits, each once, in ascending order, and each below the width. */
  lemma {:induction false} SetBitsSpec(labelSet: seq<bool>)
    ensures forall i :: 0 <= i < |SetBits(labelSet)| ==>
      SetBits(labelSet)[i] < |labelSet| && labelSet[SetBits(labelSet)[i]]
    ensures forall l :: 0 <= l < |labelSet| ==> (labelSet[l] <==> l in SetBits(labelSet))
    ensures forall i, j :: 0 <= i < j < |SetBits(labelSet)| ==> SetBits(labelSet)[i] < SetBits(labelSet)[j]
    decreases |labelSet|
  {
    if |labelSet| > 0 {
      var init := labelSet[..|labelSet| - 1];
      SetBitsSpec(init);
      assert forall l :: 0 <= l < |init| ==> init[l] == labelSet[l];
    }
  }

  /** Labels in decimal, joined by '+'. */
  function LabelText(labels: seq<nat>): string
  {
    if |labels| == 0 then ""
    else if |labels| == 1 then NatToString(labels[0])
    else NatToString(labels[0]) + "+" + LabelText(labels[1..])
  }

  /** The line writeLabeledQueries writes for one query, without its newline. */
  function LabeledLine(q: WrittenQuery): string
  {
    NatToString(q.source) + "," + LabelText(SetBits(q.labelSet)) + "," + NatToString(q.target)
  }

  /** The line writeQueries writes for one query, without its newline: label 0 with a trailing '+'. */
  function ReachLine(q: ReachQuery): string
  {
    NatToString(q.source) + ",0+," + NatToString(q.target)
  }

  lemma {:induction false} LabelTextSnoc(labels: seq<nat>, l: nat)
    ensures LabelText(labels + [l]) ==
      if |labels| == 0 then NatToString(l) else LabelText(labels) + "+" + NatToString(l)
    decreases |labels|
  {
    if |labels| >= 2 {
      assert (labels + [l])[1..] == labels[1..] + [l];
      LabelTextSnoc(labels[1..], l);
    } else if |labels| == 1 {
      assert (labels + [l])[1..] == [l];
    }
  }

  /** The bit loop of writeLabeledQueries: '+' before every label but the first. */
  method WriteLabels(labelSet: seq<bool>) returns (out: string)
    ensures out == LabelText(SetBits(labelSet))
  {
    out := "";
    var first := true;
    for i := 0 to |labelSet|
      invariant out == LabelText(SetBits(labelSet[..i]))
      invariant first <==> |SetBits(labelSet[..i])| == 0
    {
      assert labelSet[..i + 1][..i] == labelSet[..i];
      ghost var prev := SetBits(labelSet[..i]);
      assert SetBits(labelSet[..i + 1]) == prev + if labelSet[i] then [i] else [];
      if !labelSet[i] {
        assert prev + [] == prev;
        continue;
      }
      LabelTextSnoc(prev, i);
      if first {
        first := false;
        assert out + NatToString(i) == NatToString(i);
      } else {
        out := out + "+";
      }
      out := out + NatToString(i);
    }
    assert labelSet[..|labelSet|] == labelSet;
  }

  /** The lines of a file of labelled queries, one per query in order. */
  function LabeledLines(queries: seq<WrittenQuery>): (r: seq<string>)
    ensures |r| == |queries| && forall i :: 0 <= i < |queries| ==> r[i] == LabeledLine(queries[i])
  {
    seq(|queries|, i requires 0 <= i < |queries| => LabeledLine(queries[i]))
  }

  /** The lines of a file of reachability queries, one per query in order. */
  function ReachLines(queries: seq<ReachQuery>): (r: seq<string>)
    ensures |r| == |queries| && forall i :: 0 <= i < |queries| ==> r[i] == ReachLine(queries[i])
  {
    seq(|queries|, i requires 0 <= i < |queries| => ReachLine(queries[i]))
  }

  /** writeLabeledQueries: one line per query, in order; a file that cannot be opened is fatal (None). */
  method WriteLabeledQueries(queries: seq<WrittenQuery>, canOpen: bool) returns (r: Option<string>)
    ensures !canOpen ==> r.None?
    ensures canOpen ==> r == Some(Terminated(LabeledLines(queries)))
  {
    if !canOpen {
      return None;
    }
    var text := "";
    ghost var lines: seq<string> := [];
    for k := 0 to |queries|
      invariant |lines| == k && forall i :: 0 <= i < k ==> lines[i] == LabeledLine(queries[i])
      invariant text == Terminated(lines)
    {
      var q := queries[k];
      var labels := WriteLabels(q.labelSet);
      var line := NatToString(q.source) + "," + labels + "," + NatToString(q.target);
      TerminatedAppend(lines, line);
      text := text + line + "\n";
      lines := lines + [line];
    }
    assert lines == LabeledLines(queries);
    r := Some(text);
  }

  /** writeQueries: "source,0+,target" per query. */
  method WriteQueries(queries: seq<ReachQuery>, canOpen: bool) returns (r: Option<string>)
    ensures !canOpen ==> r.None?
    ensures canOpen ==> r == Some(Terminated(ReachLines(queries)))
  {
    if !canOpen {
      return None;
    }
    var text := "";
    ghost var lines: seq<string> := [];
    for k := 0 to |queries|
      invariant |lines| == k && forall i :: 0 <= i < k ==> lines[i] == ReachLine(queries[i])
      invariant text == Terminated(lines)
    {
      var line := NatToString(queries[k].source) + ",0+," + NatToString(queries[k].target);
      TerminatedAppend(lines, line);
      text := text + line + "\n";
      lines := lines + [line];
    }
    assert lines == ReachLines(queries);
    r := Some(text);
  }

  // ---------------------------------------------------------------------
  // Round trips
  // ---------------------------------------------------------------------

  predicate DigitsOnly(labels: seq<nat>)
  {
    forall i :: 0 <= i < |labels| ==> labels[i] < UInt32Limit
  }

  lemma {:induction false} LabelTextChars(labels: seq<nat>)
    ensures ',' !in LabelText(labels) && '\n' !in LabelText(labels)
    ensures |labels| >= 1 ==> |LabelText(labels)| >= 1 && IsDigit(LabelText(labels)[|LabelText(labels)| - 1])
    decreases |labels|
  {
    if |labels| >= 2 {
      LabelTextChars(labels[1..]);
    }
  }

  lemma NoDigitsAreSeparators(n: nat)
    ensures ',' !in NatToString(n) && '+' !in NatToString(n) && '\n' !in NatToString(n)
  {
    var s := NatToString(n);
    forall i | 0 <= i < |s|
      ensures s[i] != ',' && s[i] != '+' && s[i] != '\n'
    {
      assert IsDigit(s[i]);
    }
  }

  /** A label part of one label, followed in the line by a non-digit. */
  lemma LabelsFromOne(line: string, start: nat, end: nat, value: nat)
    requires start <= end < |line| && !IsDigit(line[end]) && value < UInt32Limit
    requires line[start..end] == NatToString(value)
    ensures LabelsFrom(line, start, end) == Some([value])
  {
    NoDigitsAreSeparators(value);
    IndexOfSpec(line[start..end], '+');
    StoulAt(line, start, value);
    LabelsFromLast(line, start, end, value);
  }

  /** The first label of a label part and the '+' after it. */
  lemma LabelHead(line: string, start: nat, end: nat, head: string, tail: string)
    requires start <= end <= |line| && line[start..end] == head + "+" + tail
    ensures start + |head| < end
    ensures line[start..start + |head|] == head && line[start + |head|] == '+'
    ensures line[start + |head| + 1..end] == tail
  {
    Pieces(line[start..end], head, ['+'], tail);
    assert line[start..start + |head|] == line[start..end][..|head|];
    assert line[start + |head|] == line[start..end][|head|];
  }

  /** A label and a '+' in front of a label part that yields `rest`. */
  lemma LabelsFromTextStep(line: string, start: nat, end: nat, next: nat, value: nat, tail: string, rest: seq<nat>)
    requires start <= end <= |line| && value < UInt32Limit
    requires line[start..end] == NatToString(value) + "+" + tail
    requires next == start + |NatToString(value)| + 1 <= end
    requires LabelsFrom(line, next, end) == Some(rest)
    ensures LabelsFrom(line, start, end) == Some([value] + rest)
  {
    var head := NatToString(value);
    LabelHead(line, start, end, head, tail);
    assert Stoul(line[start..]) == Some(value) by {
      StoulAt(line, start, value);
    }
    assert IndexOf(line[start..end], '+') == Some(|head|) by {
      NoDigitsAreSeparators(value);
      IndexOfFirst(head, tail, '+');
    }
    LabelsFromCons(line, start, end, |head|, next, value, rest);
  }

  /**
   * Walking a label part written by LabelText, followed in the line by a
   * non-digit, yields the labels written.
   */
  lemma {:induction false} LabelsFromText(line: string, start: nat, end: nat, labels: seq<nat>)
    requires start <= end < |line| && !IsDigit(line[end])
    requires |labels| >= 1 && DigitsOnly(labels)
    requires line[start..end] == LabelText(labels)
    ensures LabelsFrom(line, start, end) == Some(labels)
    decreases |labels|, 1
  {
    if |labels| == 1 {
      LabelsFromOne(line, start, end, labels[0]);
      assert [labels[0]] == labels;
    } else {
      LabelsFromTextMore(line, start, end, labels);
    }
  }

  /** LabelsFromText for two labels or more: the first label, then the walk over the rest. */
  lemma {:induction false} LabelsFromTextMore(line: string, start: nat, end: nat, labels: seq<nat>)
    requires start <= end < |line| && !IsDigit(line[end])
    requires |labels| >= 2 && DigitsOnly(labels)
    requires line[start..end] == LabelText(labels)
    ensures LabelsFrom(line, start, end) == Some(labels)
    decreases |labels|, 0
  {
    var head, tail := NatToString(labels[0]), LabelText(labels[1..]);
    var next := start + |head| + 1;
    LabelHead(line, start, end, head, tail);
    LabelsFromText(line, next, end, labels[1..]);
    LabelsFromTextStep(line, start, end, next, labels[0], tail, labels[1..]);
    assert [labels[0]] + labels[1..] == labels;
  }

  lemma FirstComma(line: string, s: string, rest: string)
    requires line == s + [','] + rest && ',' !in s
    ensures IndexOf(line, ',') == Some(|s|)
  {
    IndexOfFirst(s, rest, ',');
  }

  lemma LastComma(line: string, init: string, t: string)
    requires line == init + [','] + t && ',' !in t
    ensures LastIndexOf(line, ',') == Some(|init|)
  {
    LastIndexOfLast(init, t, ',');
  }

  /**
   * Where the reader looks in a line `s,m,t` with no comma inside the three
   * fields and a non-empty middle.
   */
  lemma LineShape(line: string, s: string, m: string, t: string)
    requires line == s + [','] + m + [','] + t
    requires ',' !in s && ',' !in m && ',' !in t && |m| >= 1
    ensures LabelStart(line) == |s| + 1 && LabelEnd(line) == |s| + 1 + |m|
    ensures TargetOffset(line) == |s| + |m| + 2
  {
    FirstComma(line, s, m + [','] + t);
    LastComma(line, s + [','] + m, t);
  }

  /** The fields of a line `s,m,t`, by position. */
  lemma LineSlices(line: string, s: string, m: string, t: string)
    requires line == s + [','] + m + [','] + t
    ensures |line| == |s| + |m| + 2 + |t|
    ensures line[0..|s|] == s && line[|s|] == ','
    ensures line[|s| + 1..|s| + 1 + |m|] == m && line[|s| + 1 + |m|] == ','
    ensures line[|s| + |m| + 2..|line|] == t
  {
    Pieces(line, s + [','], m, [','] + t);
    Pieces(line, s + [','] + m + [','], t, "");
  }

  /** The source and the target of a line `s,m,t` read back, the target from TargetOffset. */
  lemma LineEnds(line: string, source: nat, m: string, target: nat)
    requires source < UInt32Limit && target < UInt32Limit && |m| >= 1 && ',' !in m
    requires line == NatToString(source) + [','] + m + [','] + NatToString(target)
    ensures Stoul(line) == Some(source)
    ensures LabelStart(line) == |NatToString(source)| + 1 && LabelEnd(line) == |NatToString(source)| + 1 + |m|
    ensures Stoul(line[TargetOffset(line)..]) == Some(target)
  {
    var s, t := NatToString(source), NatToString(target);
    var targetAt := |s| + |m| + 2;
    assert TargetOffset(line) == targetAt by {
      NoDigitsAreSeparators(source);
      NoDigitsAreSeparators(target);
      LineShape(line, s, m, t);
    }
    LineSlices(line, s, m, t);
    NumbersAtEnds(line, source, target, targetAt);
  }

  /** The numbers at the two ends of a line, the first ended by a comma. */
  lemma NumbersAtEnds(line: string, source: nat, target: nat, targetAt: nat)
    requires source < UInt32Limit && target < UInt32Limit
    requires |NatToString(source)| < |line| && line[0..|NatToString(source)|] == NatToString(source)
    requires line[|NatToString(source)|] == ','
    requires targetAt + |NatToString(target)| == |line| && line[targetAt..|line|] == NatToString(target)
    ensures Stoul(line) == Some(source) && Stoul(line[targetAt..]) == Some(target)
  {
    StoulAt(line, 0, source);
    assert line[0..] == line;
    StoulAt(line, targetAt, target);
  }

  /** ParseLabeledLine from the values of its parts. */
  lemma ParseLabeledLineOf(line: string, source: nat, labels: seq<nat>, target: nat)
    requires Stoul(line) == Some(source) && LabelStart(line) < LabelEnd(line)
    requires LabelsFrom(line, LabelStart(line), LabelStop(line)) == Some(labels)
    requires Stoul(line[TargetOffset(line)..]) == Some(target)
    ensures ParseLabeledLine(line) == Some(LabeledQuery(UInt32(source), UInt32(target), labels))
  {
  }

  /** The parts ParseLabeledLineOf needs, for a line `s,m,t` whose label part yields `labels`. */
  lemma LabeledLineParts(line: string, source: nat, m: string, target: nat, start: nat, stop: nat, labels: seq<nat>)
    requires source < UInt32Limit && target < UInt32Limit && |m| >= 1 && ',' !in m
    requires line == NatToString(source) + [','] + m + [','] + NatToString(target)
    requires start == |NatToString(source)| + 1
    requires stop == start + (if m[|m| - 1] == '+' then |m| - 1 else |m|)
    requires LabelsFrom(line, start, stop) == Some(labels)
    ensures ParseLabeledLine(line) == Some(LabeledQuery(source, target, labels))
  {
    LineEnds(line, source, m, target);
    LabelStopOf(line, NatToString(source), m, NatToString(target), start, stop);
    ParseLabeledLineOf(line, source, labels, target);
  }

  /** In a line `s,m,t` whose label part is m, the label part stops before a trailing '+' of m. */
  lemma LabelStopOf(line: string, s: string, m: string, t: string, start: nat, stop: nat)
    requires line == s + [','] + m + [','] + t && |m| >= 1
    requires start == |s| + 1 && LabelStart(line) == start && LabelEnd(line) == start + |m|
    requires stop == start + (if m[|m| - 1] == '+' then |m| - 1 else |m|)
    ensures LabelStop(line) == stop
  {
    LineSlices(line, s, m, t);
    assert line[|s| + |m|] == m[|m| - 1];
  }

  /**
   * Reading back a line writeLabeledQueries wrote gives the same source and
   * target and the set labels in ascending order, provided the query has at
   * least one label (an empty label part has no `back()` for the reader).
   */
  lemma LabeledLineRoundTrip(q: WrittenQuery)
    requires q.source < UInt32Limit && q.target < UInt32Limit && |q.labelSet| <= UInt32Limit
    requires |SetBits(q.labelSet)| >= 1
    ensures ParseLabeledLine(LabeledLine(q)) == Some(LabeledQuery(q.source, q.target, SetBits(q.labelSet)))
  {
    var labels := SetBits(q.labelSet);
    var s, t, m := NatToString(q.source), NatToString(q.target), LabelText(labels);
    var line := LabeledLine(q);
    LabelTextChars(labels);
    assert line == s + [','] + m + [','] + t;
    var start, end := |s| + 1, |s| + 1 + |m|;
    assert LabelsFrom(line, start, end) == Some(labels) by {
      assert DigitsOnly(labels) by {
        SetBitsSpec(q.labelSet);
      }
      LineSlices(line, s, m, t);
      LabelsFromText(line, start, end, labels);
    }
    assert m[|m| - 1] != '+';
    LabeledLineParts(line, q.source, m, q.target, start, end, labels);
  }

  /** Reading back a line writeQueries wrote with readQueries gives the query. */
  lemma ReachLineRoundTrip(q: ReachQuery)
    requires q.source < UInt32Limit && q.target < UInt32Limit
    ensures ParseReachLine(ReachLine(q)) == Some(q)
  {
    var line := ReachLine(q);
    assert line == NatToString(q.source) + [','] + "0+" + [','] + NatToString(q.target);
    LineEnds(line, q.source, "0+", q.target);
  }

  /** readLabeledQueries reads a line writeQueries wrote as the query with the single label 0. */
  lemma ReachLineLabeled(q: ReachQuery)
    requires q.source < UInt32Limit && q.target < UInt32Limit
    ensures ParseLabeledLine(ReachLine(q)) == Some(LabeledQuery(q.source, q.target, [0]))
  {
    var s, t := NatToString(q.source), NatToString(q.target);
    var line := ReachLine(q);
    assert line == s + [','] + "0+" + [','] + t;
    var start := |s| + 1;
    assert LabelsFrom(line, start, start + 1) == Some([0]) by {
      LineSlices(line, s, "0+", t);
      assert line[start..start + 1] == "0";
      LabelsFromText(line, start, start + 1, [0]);
    }
    LabeledLineParts(line, q.source, "0+", q.target, start, start + 1, [0]);
  }

  /** A written line holds no newline. */
  lemma LabeledLineNoBreak(q: WrittenQuery)
    ensures '\n' !in LabeledLine(q)
  {
    NoDigitsAreSeparators(q.source);
    NoDigitsAreSeparators(q.target);
    LabelTextChars(SetBits(q.labelSet));
  }

  /**
   * A query without labels is written as `source,,target`; its empty label
   * part has no `back()`, so the reader does not read the line back.
   */
  lemma EmptyLabelLine(q: WrittenQuery)
    requires |SetBits(q.labelSet)| == 0
    ensures ParseLabeledLine(LabeledLine(q)) == None
  {
    var s, t := NatToString(q.source), NatToString(q.target);
    NoDigitsAreSeparators(q.source);
    NoDigitsAreSeparators(q.target);
    var line := LabeledLine(q);
    assert line == s + [','] + ([','] + t);
    FirstComma(line, s, [','] + t);
    assert line == (s + [',']) + [','] + t;
    LastComma(line, s + [','], t);
  }

  /**
   * Reading back a file writeLabeledQueries wrote gives one query per
   * query written, in order, each with its source, its target and its set
   * labels in ascending order, provided every query has a label.
   */
  lemma LabeledFileRoundTrip(queries: seq<WrittenQuery>)
    requires forall i :: 0 <= i < |queries| ==>
      queries[i].source < UInt32Limit && queries[i].target < UInt32Limit &&
      |queries[i].labelSet| <= UInt32Limit && |SetBits(queries[i].labelSet)| >= 1
    ensures LabeledLinesParse(Lines(Terminated(LabeledLines(queries))))
    ensures |ParsedLabeledLines(Lines(Terminated(LabeledLines(queries))))| == |queries|
    ensures forall i :: 0 <= i < |queries| ==>
      ParsedLabeledLines(Lines(Terminated(LabeledLines(queries))))[i] ==
      LabeledQuery(queries[i].source, queries[i].target, SetBits(queries[i].labelSet))
  {
    var lines := LabeledLines(queries);
    forall i | 0 <= i < |lines|
      ensures '\n' !in lines[i]
    {
      LabeledLineNoBreak(queries[i]);
    }
    LinesTerminated(lines);
    forall i | 0 <= i < |lines|
      ensures ParseLabeledLine(lines[i]) ==
        Some(LabeledQuery(queries[i].source, queries[i].target, SetBits(queries[i].labelSet)))
    {
      LabeledLineRoundTrip(queries[i]);
    }
  }

  /** A file with a query without labels does not read back: readLabeledQueries gives up on its line. */
  lemma EmptyLabelFile(queries: seq<WrittenQuery>, k: nat)
    requires k < |queries| && |SetBits(queries[k].labelSet)| == 0
    ensures !LabeledLinesParse(Lines(Terminated(LabeledLines(queries))))
  {
    var lines := LabeledLines(queries);
    forall i | 0 <= i < |lines|
      ensures '\n' !in lines[i]
    {
      LabeledLineNoBreak(queries[i]);
    }
    LinesTerminated(lines);
    EmptyLabelLine(queries[k]);
  }

  /** Reading back a file writeQueries wrote with readQueries gives the queries written. */
  lemma ReachFileRoundTrip(queries: seq<ReachQuery>)
    requires forall i :: 0 <= i < |queries| ==> queries[i].source < UInt32Limit && queries[i].target < UInt32Limit
    ensures ReachLinesParse(Lines(Terminated(ReachLines(queries))))
    ensures ParsedReachLines(Lines(Terminated(ReachLines(queries)))) == queries
  {
    var lines := ReachLines(queries);
    forall i | 0 <= i < |lines|
      ensures '\n' !in lines[i] && ParseReachLine(lines[i]) == Some(queries[i])
    {
      NoDigitsAreSeparators(queries[i].source);
      NoDigitsAreSeparators(queries[i].target);
      ReachLineRoundTrip(queries[i]);
    }
    LinesTerminated(lines);
  }
}
