/**
 * The N-Triples-like graph files of src/io/graphReader/NTriplesGraphReader.cpp
 * and src/io/graphWriter/NTriplesGraphWriter.cpp. The first line is the
 * header `vertices,edges,labels`; every further line is one edge
 * `source label target .`. The reader finds the first and the last space of
 * a line, cuts the line at the last space, finds the last space of what is
 * left, and reads the three numbers with `std::stoul` straight from the
 * line's buffer, narrowing each to 32 bits.
 */
module NTriples {
  import opened Text
  import opened CStrings
  import opened LabeledEdgeGraphs
  import opened DiGraphs

  /** The three counts of the header line. */
  datatype Header = Header(vertexCount: nat, edgeCount: nat, labelCount: nat)

  /** What a labelled reader takes from a file: the header and the edges in file order. */
  datatype GraphFile = GraphFile(header: Header, edges: seq<Edge>)

  /** An edge as readGraph reads it: no label. */
  datatype Arc = Arc(source: nat, target: nat)

  /** What readGraph takes from a file: the vertex count and the arcs in file order. */
  datatype ArcFile = ArcFile(vertexCount: nat, arcs: seq<Arc>)

  /** The out-parameters of readSizesAndFill: the edge vector, the vertex count and the label count. */
  datatype Filled = Filled(edges: seq<Edge>, vertices: nat, labels: nat)

  // ---------------------------------------------------------------------
  // The header
  // ---------------------------------------------------------------------

  /** The header check of every reader: a first and a last comma, at different places. */
  predicate HeaderValid(line: string)
  {
    IndexOf(line, ',').Some? && LastIndexOf(line, ',').Some? && IndexOf(line, ',').value != LastIndexOf(line, ',').value
  }

  /**
   * The header of readLabeledEdgeGraph and readSizesAndFill: the vertex
   * count from the start of the line, the edge count after the first comma
   * and the label count after the last one. An invalid header is fatal, and
   * so is a count `std::stoul` cannot read (None).
   */
  function ParseHeader(line: string): (r: Option<Header>)
    ensures r.Some? ==> HeaderValid(line)
    ensures r.Some? ==> r.value.vertexCount < UInt32Limit && r.value.edgeCount < UInt32Limit
    ensures r.Some? ==> r.value.labelCount < UInt32Limit
  {
    if !HeaderValid(line) then None
    else
      var vertices := Stoul(line);
      var edges := Stoul(line[IndexOf(line, ',').value + 1..]);
      var labels := Stoul(line[LastIndexOf(line, ',').value + 1..]);
      if vertices.Some? && edges.Some? && labels.Some? then
        Some(Header(UInt32(vertices.value), UInt32(edges.value), UInt32(labels.value)))
      else None
  }

  /** The header of readGraph: the same check, but only the vertex count is read. */
  function ParseVertexCount(line: string): (r: Option<nat>)
    ensures r.Some? ==> HeaderValid(line) && r.value < UInt32Limit
  {
    if !HeaderValid(line) then None
    else
      match Stoul(line)
      case None => None
      case Some(v) => Some(UInt32(v))
  }

  /** The header check accepts exactly the lines holding at least two commas. */
  lemma HeaderValidIff(line: string)
    ensures HeaderValid(line) <==> exists i, j :: 0 <= i < j < |line| && line[i] == ',' && line[j] == ','
  {
    IndexOfSpec(line, ',');
    LastIndexOfSpec(line, ',');
    if IndexOf(line, ',').Some? {
      var first, last := IndexOf(line, ',').value, LastIndexOf(line, ',').value;
      forall k | 0 <= k < first
        ensures line[k] != ','
      {
        assert line[k] == line[..first][k];
      }
      forall k | last < k < |line|
        ensures line[k] != ','
      {
        assert line[k] == line[last + 1..][k - last - 1];
      }
      assert HeaderValid(line) ==> line[first] == ',' && line[last] == ',' && first < last;
    }
  }

  // ---------------------------------------------------------------------
  // Edge lines
  // ---------------------------------------------------------------------

  /** Where the label is read: after the first space, or from the start when there is none (npos + 1 wraps to 0). */
  function LabelOffset(line: string): (r: nat)
    ensures r <= |line|
  {
    match IndexOf(line, ' ')
    case None => 0
    case Some(k) => k + 1
  }

  /** The line cut at its last space, as `substr(0, lastPart)` leaves the view; the whole line when it has none. */
  function CutAtLastSpace(line: string): (r: string)
    ensures |r| <= |line| && r == line[..|r|]
  {
    match LastIndexOf(line, ' ')
    case None => line
    case Some(k) => line[..k]
  }

  /** Where the target is read: after the last space of the cut line, or from the start when there is none. */
  function TargetOffset(line: string): (r: nat)
    ensures r <= |line|
  {
    match LastIndexOf(CutAtLastSpace(line), ' ')
    case None => 0
    case Some(k) => k + 1
  }

  /**
   * One edge line of readLabeledEdgeGraph and readSizesAndFill: source,
   * label and target, each read where the offsets say and narrowed to 32
   * bits. A number `std::stoul` cannot read is fatal (None).
   */
  function ParseEdgeLine(line: string): (r: Option<Edge>)
    ensures r.Some? ==> r.value.source < UInt32Limit && r.value.target < UInt32Limit && r.value.lbl < UInt32Limit
  {
    var source := Stoul(line);
    var lbl := Stoul(line[LabelOffset(line)..]);
    var target := Stoul(line[TargetOffset(line)..]);
    if source.Some? && lbl.Some? && target.Some? then
      Some(Edge(UInt32(source.value), UInt32(target.value), UInt32(lbl.value)))
    else None
  }

  /** One edge line of readGraph: the label is never read. */
  function ParseArcLine(line: string): (r: Option<Arc>)
    ensures r.Some? ==> r.value.source < UInt32Limit && r.value.target < UInt32Limit
  {
    var source := Stoul(line);
    var target := Stoul(line[TargetOffset(line)..]);
    if source.Some? && target.Some? then Some(Arc(UInt32(source.value), UInt32(target.value))) else None
  }

  /** Whatever the labelled readers accept, readGraph accepts too, with the same endpoints. */
  lemma ArcOfEdge(line: string)
    requires ParseEdgeLine(line).Some?
    ensures ParseArcLine(line) == Some(Arc(ParseEdgeLine(line).value.source, ParseEdgeLine(line).value.target))
  {
  }

  /**
   * A line without a space reads all three numbers from its start: both
   * offsets wrap around to 0, so the edge is a self loop labelled with its
   * own vertex.
   */
  lemma NoSpaceLine(line: string)
    requires ' ' !in line
    ensures ParseEdgeLine(line) == if Stoul(line).None? then None
      else Some(Edge(UInt32(Stoul(line).value), UInt32(Stoul(line).value), UInt32(Stoul(line).value)))
  {
    IndexOfSpec(line, ' ');
    LastIndexOfSpec(line, ' ');
    assert CutAtLastSpace(line) == line;
    assert line[0..] == line;
  }

  // ---------------------------------------------------------------------
  // Whole files
  // ---------------------------------------------------------------------

  /** The first line `std::getline` yields; empty when the file is. */
  function HeaderOf(text: string): string
  {
    if |Lines(text)| == 0 then "" else Lines(text)[0]
  }

  /** The lines after the header. */
  function BodyOf(text: string): seq<string>
  {
    if |Lines(text)| == 0 then [] else Lines(text)[1..]
  }

  predicate EdgesParse(lines: seq<string>)
  {
    forall i :: 0 <= i < |lines| ==> ParseEdgeLine(lines[i]).Some?
  }

  function ParsedEdges(lines: seq<string>): (r: seq<Edge>)
    requires EdgesParse(lines)
    ensures |r| == |lines| && forall i :: 0 <= i < |lines| ==> Some(r[i]) == ParseEdgeLine(lines[i])
  {
    seq(|lines|, i requires 0 <= i < |lines| => ParseEdgeLine(lines[i]).value)
  }

  /** A labelled graph file: a readable header and every further line a readable edge. */
  function ParseGraphFile(text: string): (r: Option<GraphFile>)
  {
    match ParseHeader(HeaderOf(text))
    case None => None
    case Some(h) =>
      if EdgesParse(BodyOf(text)) then Some(GraphFile(h, ParsedEdges(BodyOf(text)))) else None
  }

  predicate ArcsParse(lines: seq<string>)
  {
    forall i :: 0 <= i < |lines| ==> ParseArcLine(lines[i]).Some?
  }

  function ParsedArcs(lines: seq<string>): (r: seq<Arc>)
    requires ArcsParse(lines)
    ensures |r| == |lines| && forall i :: 0 <= i < |lines| ==> Some(r[i]) == ParseArcLine(lines[i])
  {
    seq(|lines|, i requires 0 <= i < |lines| => ParseArcLine(lines[i]).value)
  }

  /** Both ends of every arc are vertices: DiGraph::addEdge stops the program otherwise. */
  predicate ArcsInRange(arcs: seq<Arc>, n: nat)
  {
    forall i :: 0 <= i < |arcs| ==> arcs[i].source < n && arcs[i].target < n
  }

  /** An unlabelled graph file: a readable vertex count and every further line an arc inside the range. */
  function ParseArcFile(text: string): (r: Option<ArcFile>)
  {
    match ParseVertexCount(HeaderOf(text))
    case None => None
    case Some(n) =>
      if ArcsParse(BodyOf(text)) && ArcsInRange(ParsedArcs(BodyOf(text)), n) then
        Some(ArcFile(n, ParsedArcs(BodyOf(text))))
      else None
  }

  /** Every reader stops the program on a header without two distinct commas, whatever follows. */
  lemma InvalidHeaderFatal(text: string)
    requires !HeaderValid(HeaderOf(text))
    ensures ParseGraphFile(text).None? && ParseArcFile(text).None?
  {
  }

  // ---------------------------------------------------------------------
  // The readers
  // ---------------------------------------------------------------------

  /** The state readLabeledEdgeGraph leaves its new graph in: sizes set, edges added in file order. */
  ghost predicate Loaded(g: LabeledEdgeGraph, f: GraphFile)
    reads g
  {
    g.vertexCount == f.header.vertexCount && g.labelCount == f.header.labelCount &&
    g.adj == f.edges && g.reverseAdj == FlipAll(f.edges) &&
    g.adjStartLookup == ResizeLookup([], f.header.vertexCount) &&
    g.reverseAdjStartLookup == ResizeLookup([], f.header.vertexCount)
  }

  /** One more readable line: the edges read so far grow by its edge. */
  lemma ParsedEdgesStep(lines: seq<string>, i: nat, e: Edge)
    requires i < |lines| && EdgesParse(lines[..i]) && ParseEdgeLine(lines[i]) == Some(e)
    ensures EdgesParse(lines[..i + 1]) && ParsedEdges(lines[..i + 1]) == ParsedEdges(lines[..i]) + [e]
  {
    assert lines[..i + 1] == lines[..i] + [lines[i]];
  }

  /** One unreadable line makes the whole body unreadable. */
  lemma ParsedEdgesFail(lines: seq<string>, i: nat)
    requires i < |lines| && ParseEdgeLine(lines[i]).None?
    ensures !EdgesParse(lines)
  {
  }

  lemma ParsedArcsStep(lines: seq<string>, i: nat, a: Arc)
    requires i < |lines| && ArcsParse(lines[..i]) && ParseArcLine(lines[i]) == Some(a)
    ensures ArcsParse(lines[..i + 1]) && ParsedArcs(lines[..i + 1]) == ParsedArcs(lines[..i]) + [a]
  {
    assert lines[..i + 1] == lines[..i] + [lines[i]];
  }

  lemma ParsedArcsFail(lines: seq<string>, i: nat)
    requires i < |lines| && ParseArcLine(lines[i]).None?
    ensures !ArcsParse(lines)
  {
  }

  /** An arc outside the range anywhere in the body makes the file unreadable for readGraph. */
  lemma ArcOutOfRange(lines: seq<string>, i: nat, a: Arc, n: nat)
    requires i < |lines| && ArcsParse(lines) && ParseArcLine(lines[i]) == Some(a)
    requires a.source >= n || a.target >= n
    ensures !ArcsInRange(ParsedArcs(lines), n)
  {
    assert ParsedArcs(lines)[i] == a;
  }

  lemma FlipAllSnoc(edges: seq<Edge>, e: Edge)
    ensures FlipAll(edges + [e]) == FlipAll(edges) + [Edge(e.target, e.source, e.lbl)]
  {
  }

  /** The body read in full. */
  lemma WholeBody(lines: seq<string>)
    ensures lines[..|lines|] == lines
  {
  }

  /** readLabeledEdgeGraph: the header sizes a new graph and every line adds one edge. */
  method ReadLabeledEdgeGraph(text: string) returns (r: Option<LabeledEdgeGraph>)
    ensures r.Some? <==> ParseGraphFile(text).Some?
    ensures r.Some? ==> fresh(r.value) && Loaded(r.value, ParseGraphFile(text).value)
  {
    var lines := Lines(text);
    var header := if |lines| == 0 then "" else lines[0];
    var body := if |lines| == 0 then [] else lines[1..];
    assert header == HeaderOf(text) && body == BodyOf(text);
    var h := ParseHeader(header);
    if h.None? {
      return None;
    }
    var g := new LabeledEdgeGraph();
    g.SetSizes(h.value.vertexCount, h.value.labelCount, h.value.edgeCount);
    for i := 0 to |body|
      invariant g.vertexCount == h.value.vertexCount && g.labelCount == h.value.labelCount
      invariant g.adjStartLookup == ResizeLookup([], h.value.vertexCount)
      invariant g.reverseAdjStartLookup == ResizeLookup([], h.value.vertexCount)
      invariant EdgesParse(body[..i]) && g.adj == ParsedEdges(body[..i])
      invariant g.reverseAdj == FlipAll(g.adj)
    {
      var edge := ParseEdgeLine(body[i]);
      if edge.None? {
        ParsedEdgesFail(body, i);
        return None;
      }
      ParsedEdgesStep(body, i, edge.value);
      FlipAllSnoc(g.adj, edge.value);
      g.AddEdge(edge.value.source, edge.value.target, edge.value.lbl);
    }
    WholeBody(body);
    r := Some(g);
  }

  /**
   * readSizesAndFill: the header's vertex and label counts, and one
   * (source, target, label) tuple per line appended to the caller's vector
   * in file order.
   */
  method ReadSizesAndFill(text: string, edges: seq<Edge>) returns (r: Option<Filled>)
    ensures r.Some? <==> ParseGraphFile(text).Some?
    ensures r.Some? ==> r.value == Filled(edges + ParseGraphFile(text).value.edges,
                                          ParseGraphFile(text).value.header.vertexCount,
                                          ParseGraphFile(text).value.header.labelCount)
  {
    var lines := Lines(text);
    var header := if |lines| == 0 then "" else lines[0];
    var body := if |lines| == 0 then [] else lines[1..];
    assert header == HeaderOf(text) && body == BodyOf(text);
    var h := ParseHeader(header);
    if h.None? {
      return None;
    }
    var filled := ReadEdgeLines(body, edges);
    if filled.None? {
      return None;
    }
    r := Some(Filled(filled.value, h.value.vertexCount, h.value.labelCount));
  }

  /** readSizesAndFillEdges' line loop: one edge per line appended to `edges`, or None at the first unreadable line. */
  method ReadEdgeLines(body: seq<string>, edges: seq<Edge>) returns (r: Option<seq<Edge>>)
    ensures r.Some? <==> EdgesParse(body)
    ensures r.Some? ==> r.value == edges + ParsedEdges(body)
  {
    var filled := edges;
    for i := 0 to |body|
      invariant EdgesParse(body[..i]) && filled == edges + ParsedEdges(body[..i])
    {
      var edge := ParseEdgeLine(body[i]);
      if edge.None? {
        ParsedEdgesFail(body, i);
        return None;
      }
      ParsedEdgesStep(body, i, edge.value);
      filled := filled + [edge.value];
    }
    WholeBody(body);
    r := Some(filled);
  }

  /** One more arc: the successor lists hold exactly the arcs read so far. */
  lemma ArcAdded(adj: seq<seq<nat>>, adj': seq<seq<nat>>, arcs: seq<Arc>, arc: Arc)
    requires arc.source < |adj| && |adj'| == |adj|
    requires forall s, t :: 0 <= s < |adj| ==> (t in adj[s] <==> Arc(s, t) in arcs)
    requires adj' == adj || (adj' == adj[arc.source := adj[arc.source] + [arc.target]])
    requires adj' == adj ==> arc.target in adj[arc.source]
    ensures forall s, t :: 0 <= s < |adj'| ==> (t in adj'[s] <==> Arc(s, t) in arcs + [arc])
  {
    forall s, t | 0 <= s < |adj'|
      ensures t in adj'[s] <==> Arc(s, t) in arcs + [arc]
    {
      assert Arc(s, t) in arcs + [arc] <==> Arc(s, t) in arcs || Arc(s, t) == arc;
    }
  }

  /** Arcs inside the range, one more. */
  lemma InRangeStep(arcs: seq<Arc>, a: Arc, n: nat)
    requires ArcsInRange(arcs, n) && a.source < n && a.target < n
    ensures ArcsInRange(arcs + [a], n)
  {
  }

  /** One line of readGraph's loop: addEdge keeps a repeated arc once and refuses one outside the range. */
  method AddArc(g: DiGraph, arc: Arc, ghost arcs: seq<Arc>) returns (inRange: bool)
    requires g.Valid()
    requires forall s, t :: 0 <= s < |g.adj| ==> (t in g.adj[s] <==> Arc(s, t) in arcs)
    modifies g
    ensures g.Valid() && |g.adj| == old(|g.adj|)
    ensures inRange <==> arc.source < |g.adj| && arc.target < |g.adj|
    ensures inRange ==> forall s, t :: 0 <= s < |g.adj| ==> (t in g.adj[s] <==> Arc(s, t) in arcs + [arc])
  {
    ghost var before := g.adj;
    var outcome := g.AddEdge(arc.source, arc.target);
    inRange := outcome != OutOfBounds;
    if inRange {
      ArcAdded(before, g.adj, arcs, arc);
    }
  }

  /**
   * readGraph: the header's vertex count sizes a new DiGraph and every line
   * adds its arc; a repeated arc is kept once and an arc outside the
   * vertex range is fatal.
   */
  method ReadGraph(text: string) returns (r: Option<DiGraph>)
    ensures r.Some? <==> ParseArcFile(text).Some?
    ensures r.Some? ==> fresh(r.value) && r.value.Valid() && |r.value.adj| == ParseArcFile(text).value.vertexCount
    ensures r.Some? ==> forall s, t :: 0 <= s < |r.value.adj| ==>
      (t in r.value.adj[s] <==> Arc(s, t) in ParseArcFile(text).value.arcs)
  {
    var lines := Lines(text);
    var header := if |lines| == 0 then "" else lines[0];
    var body := if |lines| == 0 then [] else lines[1..];
    assert header == HeaderOf(text) && body == BodyOf(text);
    var n := ParseVertexCount(header);
    if n.None? {
      return None;
    }
    var g := new DiGraph();
    g.SetVertices(n.value);
    ghost var arcs: seq<Arc> := [];
    for i := 0 to |body|
      invariant g.Valid() && |g.adj| == n.value
      invariant ArcsParse(body[..i]) && arcs == ParsedArcs(body[..i]) && ArcsInRange(arcs, n.value)
      invariant forall s, t :: 0 <= s < n.value ==> (t in g.adj[s] <==> Arc(s, t) in arcs)
    {
      var arc := ParseArcLine(body[i]);
      if arc.None? {
        ParsedArcsFail(body, i);
        return None;
      }
      ParsedArcsStep(body, i, arc.value);
      var inRange := AddArc(g, arc.value, arcs);
      if !inRange {
        if ArcsParse(body) {
          ArcOutOfRange(body, i, arc.value, n.value);
        }
        return None;
      }
      InRangeStep(arcs, arc.value, n.value);
      arcs := arcs + [arc.value];
    }
    WholeBody(body);
    r := Some(g);
  }

  // ---------------------------------------------------------------------
  // The writers
  // ---------------------------------------------------------------------

  function HeaderText(vertices: nat, edges: nat, labels: nat): string
  {
    NatToString(vertices) + "," + NatToString(edges) + "," + NatToString(labels)
  }

  function EdgeLine(source: nat, lbl: nat, target: nat): string
  {
    NatToString(source) + " " + NatToString(lbl) + " " + NatToString(target) + " ."
  }

  function EdgeLines(edges: seq<Edge>): (r: seq<string>)
    ensures |r| == |edges|
    ensures forall i :: 0 <= i < |edges| ==> r[i] == EdgeLine(edges[i].source, edges[i].lbl, edges[i].target)
  {
    seq(|edges|, i requires 0 <= i < |edges| => EdgeLine(edges[i].source, edges[i].lbl, edges[i].target))
  }

  /** The file writeLabeledGraph writes for a LabeledEdgeGraph: the header, then one line per edge. */
  function GraphText(vertices: nat, labels: nat, edges: seq<Edge>): string
  {
    Terminated([HeaderText(vertices, |edges|, labels)] + EdgeLines(edges))
  }

  lemma EdgeLinesStep(header: string, edges: seq<Edge>, i: nat)
    requires i < |edges|
    ensures [header] + EdgeLines(edges[..i + 1]) ==
      [header] + EdgeLines(edges[..i]) + [EdgeLine(edges[i].source, edges[i].lbl, edges[i].target)]
  {
    assert EdgeLines(edges[..i + 1]) == EdgeLines(edges[..i]) + [EdgeLine(edges[i].source, edges[i].lbl, edges[i].target)];
  }

  /**
   * writeLabeledGraph(LabeledEdgeGraph): the header, then the edges of
   * every vertex in turn as its iterator yields them; a file that cannot be
   * opened is fatal (None). The iterators need the lookups `optimize` fills.
   */
  method WriteLabeledGraph(g: LabeledEdgeGraph, canOpen: bool) returns (r: Option<string>)
    requires g.Optimized()
    ensures !canOpen ==> r.None?
    ensures canOpen ==> r == Some(GraphText(g.vertexCount, g.labelCount, g.adj))
  {
    if !canOpen {
      return None;
    }
    var header := HeaderText(g.vertexCount, |g.adj|, g.labelCount);
    var text := header + "\n";
    assert text == Terminated([header] + EdgeLines(g.adj[..0]));
    var n := g.vertexCount;
    ghost var edges := g.adj;
    forall i | 0 <= i < |edges|
      ensures edges[i].source < n
    {
      assert edges[i] in edges;
    }
    assert |edges| > 0 ==> edges[0].source < n;
    if n == 0 {
      if |edges| > 0 {
        assert false;
      }
      assert edges[..0] == edges;
      return Some(text);
    }
    BlocksStart(edges, g.adjStartLookup, n);
    for source := 0 to n
      invariant BlockStart(edges, g.adjStartLookup, n, source) <= |edges|
      invariant text == Terminated([header] + EdgeLines(edges[..BlockStart(edges, g.adjStartLookup, n, source)]))
    {
      BlocksTile(edges, g.adjStartLookup, n, source);
      var it := g.GetConnected(source);
      text := WriteBlock(it, source, text, header, BlockStart(edges, g.adjStartLookup, n, source + 1));
    }
    assert edges[..|edges|] == edges;
    r := Some(text);
  }

  /** The iterator loop of one vertex: one line per edge, the source written from the loop's own counter. */
  method WriteBlock(it: EdgeIterator, source: nat, text: string, ghost header: string, ghost blockEnd: nat)
    returns (out: string)
    requires !it.started && it.Valid() && it.currentIndex == it.startIndex && it.source == source
    requires blockEnd == it.startIndex + RunLength(it.edges, it.startIndex, it.source) <= |it.edges|
    requires text == Terminated([header] + EdgeLines(it.edges[..it.startIndex]))
    modifies it
    ensures out == Terminated([header] + EdgeLines(it.edges[..blockEnd]))
  {
    out := text;
    ghost var run := RunLength(it.edges, it.startIndex, it.source);
    var more := it.Next();
    while more
      invariant it.started && it.startIndex <= it.currentIndex <= it.startIndex + run
      invariant it.source == source
      invariant more ==> it.Valid() && it.IsValid()
      invariant more <==> it.currentIndex < it.startIndex + run
      invariant out == Terminated([header] + EdgeLines(it.edges[..it.currentIndex]))
      decreases it.startIndex + run - it.currentIndex
    {
      var edge := it.Current();
      var line := NatToString(source) + " " + NatToString(edge.lbl) + " " + NatToString(edge.target) + " .";
      assert line == EdgeLine(it.edges[it.currentIndex].source, edge.lbl, edge.target);
      EdgeLinesStep(header, it.edges, it.currentIndex);
      TerminatedAppend([header] + EdgeLines(it.edges[..it.currentIndex]), line);
      out := out + line + "\n";
      more := it.Next();
    }
  }

  /** The arcs of a DiGraph, vertex by vertex, each vertex's successors in list order. */
  function Arcs(adj: seq<seq<nat>>): (r: seq<Arc>)
    decreases |adj|
  {
    if |adj| == 0 then [] else Arcs(adj[..|adj| - 1]) + TargetArcs(|adj| - 1, adj[|adj| - 1])
  }

  function TargetArcs(source: nat, targets: seq<nat>): (r: seq<Arc>)
    ensures |r| == |targets| && forall i :: 0 <= i < |targets| ==> r[i] == Arc(source, targets[i])
  {
    seq(|targets|, i requires 0 <= i < |targets| => Arc(source, targets[i]))
  }

  /** The arcs are exactly the (source, successor) pairs of the lists. */
  lemma {:induction false} ArcsMembers(adj: seq<seq<nat>>)
    ensures forall s: nat, t: nat :: Arc(s, t) in Arcs(adj) <==> s < |adj| && t in adj[s]
    decreases |adj|
  {
    if |adj| > 0 {
      var init := adj[..|adj| - 1];
      ArcsMembers(init);
      forall s: nat, t: nat
        ensures Arc(s, t) in Arcs(adj) <==> s < |adj| && t in adj[s]
      {
        var last := TargetArcs(|adj| - 1, adj[|adj| - 1]);
        assert Arc(s, t) in last <==> s == |adj| - 1 && t in adj[|adj| - 1] by {
          if Arc(s, t) in last {
            var i :| 0 <= i < |last| && last[i] == Arc(s, t);
          }
          if s == |adj| - 1 && t in adj[|adj| - 1] {
            var i :| 0 <= i < |adj[s]| && adj[s][i] == t;
            assert last[i] == Arc(s, t);
          }
        }
        if s < |adj| - 1 {
          assert init[s] == adj[s];
        }
      }
    }
  }

  /** The lines writeGraph writes for arcs: label 0 for every one. */
  function ArcLines(arcs: seq<Arc>): (r: seq<string>)
    ensures |r| == |arcs| && forall i :: 0 <= i < |arcs| ==> r[i] == EdgeLine(arcs[i].source, 0, arcs[i].target)
  {
    seq(|arcs|, i requires 0 <= i < |arcs| => EdgeLine(arcs[i].source, 0, arcs[i].target))
  }

  /** The file writeGraph writes for a DiGraph: the header with label count 1, then one line per arc. */
  function DiGraphText(adj: seq<seq<nat>>, edgeCount: nat): string
  {
    Terminated([HeaderText(|adj|, edgeCount, 1)] + ArcLines(Arcs(adj)))
  }

  lemma ArcsStep(adj: seq<seq<nat>>, source: nat)
    requires source < |adj|
    ensures Arcs(adj[..source + 1]) == Arcs(adj[..source]) + TargetArcs(source, adj[source])
  {
    assert adj[..source + 1][..source] == adj[..source];
  }

  lemma ArcLinesStep(header: string, done: seq<Arc>, source: nat, targets: seq<nat>, j: nat)
    requires j < |targets|
    ensures [header] + ArcLines(done + TargetArcs(source, targets[..j + 1])) ==
      [header] + ArcLines(done + TargetArcs(source, targets[..j])) + [EdgeLine(source, 0, targets[j])]
  {
    assert done + TargetArcs(source, targets[..j + 1]) == done + TargetArcs(source, targets[..j]) + [Arc(source, targets[j])];
  }

  /** The inner loop of writeGraph: `source 0 target .` for every successor, in list order. */
  method WriteTargets(source: nat, targets: seq<nat>, text: string, ghost header: string, ghost done: seq<Arc>)
    returns (out: string)
    requires text == Terminated([header] + ArcLines(done))
    ensures out == Terminated([header] + ArcLines(done + TargetArcs(source, targets)))
  {
    out := text;
    assert targets[..0] == [] && done + TargetArcs(source, []) == done;
    for j := 0 to |targets|
      invariant out == Terminated([header] + ArcLines(done + TargetArcs(source, targets[..j])))
    {
      var line := NatToString(source) + " 0 " + NatToString(targets[j]) + " .";
      assert line == EdgeLine(source, 0, targets[j]);
      ArcLinesStep(header, done, source, targets, j);
      TerminatedAppend([header] + ArcLines(done + TargetArcs(source, targets[..j])), line);
      out := out + line + "\n";
    }
    assert targets[..|targets|] == targets;
  }

  /**
   * writeGraph(DiGraph): the header `vertices,edges,1`, then `source 0
   * target .` for every successor of every vertex in turn; a file that
   * cannot be opened is fatal (None).
   */
  method WriteGraph(g: DiGraph, canOpen: bool) returns (r: Option<string>)
    ensures !canOpen ==> r.None?
    ensures canOpen ==> r == Some(DiGraphText(g.adj, g.edgeCount))
  {
    if !canOpen {
      return None;
    }
    var header := HeaderText(|g.adj|, g.edgeCount, 1);
    var text := header + "\n";
    assert Arcs(g.adj[..0]) == [];
    for source := 0 to |g.adj|
      invariant text == Terminated([header] + ArcLines(Arcs(g.adj[..source])))
    {
      ArcsStep(g.adj, source);
      text := WriteTargets(source, g.adj[source], text, header, Arcs(g.adj[..source]));
    }
    assert g.adj[..|g.adj|] == g.adj;
    r := Some(text);
  }

  // ---------------------------------------------------------------------
  // Round trips
  // ---------------------------------------------------------------------

  /** The first and the last comma of `v,e,l`. */
  lemma HeaderCommas(line: string, v: string, e: string, l: string)
    requires line == v + "," + e + "," + l
    requires ',' !in v && ',' !in e && ',' !in l
    ensures IndexOf(line, ',') == Some(|v|) && LastIndexOf(line, ',') == Some(|v| + 1 + |e|)
  {
    assert line == v + [','] + (e + "," + l);
    IndexOfFirst(v, e + "," + l, ',');
    assert line == (v + "," + e) + [','] + l;
    LastIndexOfLast(v + "," + e, l, ',');
  }

  /** ParseHeader from the values read at the two commas. */
  lemma ParseHeaderOf(line: string, first: nat, last: nat, vertices: nat, edges: nat, labels: nat)
    requires IndexOf(line, ',') == Some(first) && LastIndexOf(line, ',') == Some(last) && first != last
    requires Stoul(line) == Some(vertices)
    requires Stoul(line[first + 1..]) == Some(edges) && Stoul(line[last + 1..]) == Some(labels)
    ensures ParseHeader(line) == Some(Header(UInt32(vertices), UInt32(edges), UInt32(labels)))
    ensures ParseVertexCount(line) == Some(UInt32(vertices))
  {
  }

  /** The header writeLabeledGraph writes reads back as the counts it was written from. */
  lemma HeaderRoundTrip(vertices: nat, edges: nat, labels: nat)
    requires vertices < UInt32Limit && edges < UInt32Limit && labels < UInt32Limit
    ensures ParseHeader(HeaderText(vertices, edges, labels)) == Some(Header(vertices, edges, labels))
    ensures ParseVertexCount(HeaderText(vertices, edges, labels)) == Some(vertices)
  {
    var v, e, l := NatToString(vertices), NatToString(edges), NatToString(labels);
    var line := HeaderText(vertices, edges, labels);
    var first, last := |v|, |v| + 1 + |e|;
    assert IndexOf(line, ',') == Some(first) && LastIndexOf(line, ',') == Some(last) by {
      NatToStringHasNo(vertices, ',');
      NatToStringHasNo(edges, ',');
      NatToStringHasNo(labels, ',');
      HeaderCommas(line, v, e, l);
    }
    HeaderSlices(line, v, e, l, first + 1, last + 1);
    HeaderNumbers(line, vertices, edges, labels, first + 1, last + 1);
    ParseHeaderOf(line, first, last, vertices, edges, labels);
  }

  /** The fields of a line `v,e,l`, by position: `e` starts at `edgesAt`, `l` at `labelsAt`. */
  lemma HeaderSlices(line: string, v: string, e: string, l: string, edgesAt: nat, labelsAt: nat)
    requires line == v + "," + e + "," + l
    requires edgesAt == |v| + 1 && labelsAt == edgesAt + |e| + 1
    ensures labelsAt + |l| == |line|
    ensures line[0..|v|] == v && line[edgesAt - 1] == ','
    ensures line[edgesAt..edgesAt + |e|] == e && line[labelsAt - 1] == ','
    ensures line[labelsAt..labelsAt + |l|] == l
  {
    Pieces(line, v + [','], e, [','] + l);
    Pieces(line, v + [','] + e + [','], l, "");
  }

  /** The three counts of `v,e,l`, each read from where it starts and ended by a comma or the end. */
  lemma HeaderNumbers(line: string, vertices: nat, edges: nat, labels: nat, edgesAt: nat, labelsAt: nat)
    requires vertices < UInt32Limit && edges < UInt32Limit && labels < UInt32Limit
    requires edgesAt == |NatToString(vertices)| + 1 && labelsAt == edgesAt + |NatToString(edges)| + 1
    requires labelsAt + |NatToString(labels)| == |line|
    requires line[0..|NatToString(vertices)|] == NatToString(vertices) && line[edgesAt - 1] == ','
    requires line[edgesAt..edgesAt + |NatToString(edges)|] == NatToString(edges) && line[labelsAt - 1] == ','
    requires line[labelsAt..labelsAt + |NatToString(labels)|] == NatToString(labels)
    ensures Stoul(line) == Some(vertices)
    ensures Stoul(line[edgesAt..]) == Some(edges) && Stoul(line[labelsAt..]) == Some(labels)
  {
    StoulAt(line, 0, vertices);
    assert line[0..] == line;
    StoulAt(line, edgesAt, edges);
    StoulAt(line, labelsAt, labels);
  }

  /** The first and the last space of `s l t .`, and the last space of what is left after the cut. */
  lemma EdgeLineSpaces(line: string, s: string, l: string, t: string)
    requires line == s + " " + l + " " + t + " ."
    requires ' ' !in s && ' ' !in l && ' ' !in t
    ensures LabelOffset(line) == |s| + 1
    ensures TargetOffset(line) == |s| + |l| + 2
  {
    assert IndexOf(line, ' ') == Some(|s|) by {
      assert line == s + [' '] + (l + " " + t + " .");
      IndexOfFirst(s, l + " " + t + " .", ' ');
    }
    var cut := s + " " + l + " " + t;
    assert LastIndexOf(line, ' ') == Some(|cut|) by {
      assert line == cut + [' '] + ".";
      LastIndexOfLast(cut, ".", ' ');
    }
    assert CutAtLastSpace(line) == cut;
    assert LastIndexOf(cut, ' ') == Some(|s| + 1 + |l|) by {
      assert cut == (s + " " + l) + [' '] + t;
      LastIndexOfLast(s + " " + l, t, ' ');
    }
  }

  /** The fields of a line `s l t .`, by position. */
  lemma EdgeLineSlices(line: string, s: string, l: string, t: string)
    requires line == s + " " + l + " " + t + " ."
    ensures |line| == |s| + |l| + |t| + 4
    ensures line[0..|s|] == s && line[|s|] == ' '
    ensures line[|s| + 1..|s| + 1 + |l|] == l && line[|s| + 1 + |l|] == ' '
    ensures line[|s| + |l| + 2..|s| + |l| + 2 + |t|] == t && line[|s| + |l| + 2 + |t|] == ' '
  {
    Pieces(line, s + [' '], l, [' '] + t + " .");
    Pieces(line, s + [' '] + l + [' '], t, " .");
  }

  /** The three numbers of `s l t .`, each read from where it starts and ended by a space. */
  lemma EdgeLineNumbers(line: string, source: nat, lbl: nat, target: nat, labelAt: nat, targetAt: nat)
    requires source < UInt32Limit && lbl < UInt32Limit && target < UInt32Limit
    requires labelAt == |NatToString(source)| + 1 && targetAt == labelAt + |NatToString(lbl)| + 1
    requires targetAt + |NatToString(target)| < |line|
    requires line[0..|NatToString(source)|] == NatToString(source) && line[|NatToString(source)|] == ' '
    requires line[labelAt..labelAt + |NatToString(lbl)|] == NatToString(lbl) && line[targetAt - 1] == ' '
    requires line[targetAt..targetAt + |NatToString(target)|] == NatToString(target)
    requires line[targetAt + |NatToString(target)|] == ' '
    ensures Stoul(line) == Some(source)
    ensures Stoul(line[labelAt..]) == Some(lbl)
    ensures Stoul(line[targetAt..]) == Some(target)
  {
    StoulAt(line, 0, source);
    assert line[0..] == line;
    StoulAt(line, labelAt, lbl);
    StoulAt(line, targetAt, target);
  }

  /** ParseEdgeLine and ParseArcLine from the values read at the two offsets. */
  lemma ParseEdgeLineOf(line: string, source: nat, lbl: nat, target: nat)
    requires Stoul(line) == Some(source)
    requires Stoul(line[LabelOffset(line)..]) == Some(lbl) && Stoul(line[TargetOffset(line)..]) == Some(target)
    ensures ParseEdgeLine(line) == Some(Edge(UInt32(source), UInt32(target), UInt32(lbl)))
    ensures ParseArcLine(line) == Some(Arc(UInt32(source), UInt32(target)))
  {
  }

  /** A line writeLabeledGraph writes reads back as the edge it was written from, and as its arc. */
  lemma EdgeLineRoundTrip(source: nat, lbl: nat, target: nat)
    requires source < UInt32Limit && lbl < UInt32Limit && target < UInt32Limit
    ensures ParseEdgeLine(EdgeLine(source, lbl, target)) == Some(Edge(source, target, lbl))
    ensures ParseArcLine(EdgeLine(source, lbl, target)) == Some(Arc(source, target))
  {
    var s, l, t := NatToString(source), NatToString(lbl), NatToString(target);
    var line := EdgeLine(source, lbl, target);
    var labelAt, targetAt := |s| + 1, |s| + |l| + 2;
    assert LabelOffset(line) == labelAt && TargetOffset(line) == targetAt by {
      NatToStringHasNo(source, ' ');
      NatToStringHasNo(lbl, ' ');
      NatToStringHasNo(target, ' ');
      EdgeLineSpaces(line, s, l, t);
    }
    EdgeLineSlices(line, s, l, t);
    EdgeLineNumbers(line, source, lbl, target, labelAt, targetAt);
    ParseEdgeLineOf(line, source, lbl, target);
  }

  lemma EdgeLineNoBreak(source: nat, lbl: nat, target: nat)
    ensures '\n' !in EdgeLine(source, lbl, target)
  {
    NatToStringHasNo(source, '\n');
    NatToStringHasNo(lbl, '\n');
    NatToStringHasNo(target, '\n');
  }

  lemma HeaderNoBreak(vertices: nat, edges: nat, labels: nat)
    ensures '\n' !in HeaderText(vertices, edges, labels)
  {
    NatToStringHasNo(vertices, '\n');
    NatToStringHasNo(edges, '\n');
    NatToStringHasNo(labels, '\n');
  }

  /** The lines of a written file: the header, then the body lines. */
  lemma WrittenLines(header: string, body: seq<string>)
    requires '\n' !in header && forall i :: 0 <= i < |body| ==> '\n' !in body[i]
    ensures HeaderOf(Terminated([header] + body)) == header
    ensures BodyOf(Terminated([header] + body)) == body
  {
    var lines := [header] + body;
    assert forall i :: 0 <= i < |lines| ==> '\n' !in lines[i] by {
      forall i | 0 <= i < |lines|
        ensures '\n' !in lines[i]
      {
        if i > 0 {
          assert lines[i] == body[i - 1];
        }
      }
    }
    LinesTerminated(lines);
    assert lines[1..] == body;
  }

  /** Every edge of a list whose numbers fit in 32 bits reads back from its line. */
  lemma EdgeLinesRead(edges: seq<Edge>)
    requires forall i :: 0 <= i < |edges| ==>
      edges[i].source < UInt32Limit && edges[i].target < UInt32Limit && edges[i].lbl < UInt32Limit
    ensures forall i :: 0 <= i < |edges| ==> '\n' !in EdgeLines(edges)[i]
    ensures EdgesParse(EdgeLines(edges)) && ParsedEdges(EdgeLines(edges)) == edges
  {
    var body := EdgeLines(edges);
    forall i | 0 <= i < |body|
      ensures '\n' !in body[i] && ParseEdgeLine(body[i]) == Some(edges[i])
    {
      EdgeLineNoBreak(edges[i].source, edges[i].lbl, edges[i].target);
      EdgeLineRoundTrip(edges[i].source, edges[i].lbl, edges[i].target);
    }
  }

  /**
   * Reading back what writeLabeledGraph wrote gives the counts and the edge
   * list in adjacency order, provided every number fits in 32 bits.
   */
  lemma LabeledGraphRoundTrip(vertices: nat, labels: nat, edges: seq<Edge>)
    requires vertices < UInt32Limit && labels < UInt32Limit && |edges| < UInt32Limit
    requires forall i :: 0 <= i < |edges| ==>
      edges[i].source < UInt32Limit && edges[i].target < UInt32Limit && edges[i].lbl < UInt32Limit
    ensures ParseGraphFile(GraphText(vertices, labels, edges)) == Some(GraphFile(Header(vertices, |edges|, labels), edges))
  {
    var header := HeaderText(vertices, |edges|, labels);
    HeaderNoBreak(vertices, |edges|, labels);
    EdgeLinesRead(edges);
    WrittenLines(header, EdgeLines(edges));
    HeaderRoundTrip(vertices, |edges|, labels);
  }

  /** Every arc of a list whose ends fit in 32 bits reads back from its line. */
  lemma ArcLinesRead(arcs: seq<Arc>)
    requires forall i :: 0 <= i < |arcs| ==> arcs[i].source < UInt32Limit && arcs[i].target < UInt32Limit
    ensures forall i :: 0 <= i < |arcs| ==> '\n' !in ArcLines(arcs)[i]
    ensures ArcsParse(ArcLines(arcs)) && ParsedArcs(ArcLines(arcs)) == arcs
  {
    var body := ArcLines(arcs);
    forall i | 0 <= i < |body|
      ensures '\n' !in body[i] && ParseArcLine(body[i]) == Some(arcs[i])
    {
      EdgeLineNoBreak(arcs[i].source, 0, arcs[i].target);
      EdgeLineRoundTrip(arcs[i].source, 0, arcs[i].target);
    }
  }

  /** The arcs of lists whose successors are all vertices stay inside the vertex range. */
  lemma ArcsBounded(adj: seq<seq<nat>>)
    requires forall s, t :: 0 <= s < |adj| && t in adj[s] ==> t < |adj|
    ensures ArcsInRange(Arcs(adj), |adj|)
  {
    ArcsMembers(adj);
    var arcs := Arcs(adj);
    forall i | 0 <= i < |arcs|
      ensures arcs[i].source < |adj| && arcs[i].target < |adj|
    {
      assert arcs[i] in arcs;
    }
  }

  /**
   * Reading back what writeGraph wrote gives the vertex count and the arcs
   * of the graph, provided the counts fit in 32 bits and every successor is
   * a vertex; readGraph then rebuilds the same successor sets.
   */
  lemma DiGraphRoundTrip(adj: seq<seq<nat>>, edgeCount: nat)
    requires |adj| < UInt32Limit && edgeCount < UInt32Limit
    requires forall s, t :: 0 <= s < |adj| && t in adj[s] ==> t < |adj|
    ensures ParseArcFile(DiGraphText(adj, edgeCount)) == Some(ArcFile(|adj|, Arcs(adj)))
  {
    var header := HeaderText(|adj|, edgeCount, 1);
    ArcsBounded(adj);
    ArcLinesRead(Arcs(adj));
    HeaderNoBreak(|adj|, edgeCount, 1);
    WrittenLines(header, ArcLines(Arcs(adj)));
    HeaderRoundTrip(|adj|, edgeCount, 1);
  }
}
