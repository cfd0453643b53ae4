/** The corpus's graph notation, crates/yeomna-pipeline/src/document_graph.rs:52-311: fenced `graph`
    blocks in Markdown declaring nodes and edges. */
module DocumentGraph {
  import opened Json
  import opened Strings
  import opened Shapes
  import opened CanonicalJson

  /** An entry of the `extra` tree map; a map is its entries in key order. */
  datatype Extra = Extra(key: string, value: string)

  datatype GraphNode = GraphNode(key: string, kind: Option<string>, tag: Option<string>, extra: seq<Extra>, line: nat)

  datatype GraphEdge = GraphEdge(relation: string, from: string, to: string, extra: seq<Extra>, line: nat)

  datatype Stanza = Node(node: GraphNode) | Edge(edge: GraphEdge)

  datatype Reason =
    | NeverClosed
    | EmptyBlock
    | NotKeyValue(text: string)
    | NotOneToken(key: string, value: string)
    | NotOneWord(key: string, value: string)
    | Reserved(key: string)
    | NotARelation(value: string)
    | NeedsBothEnds(value: string)
    | NotAStanza(key: string)

  datatype Refusal = Refusal(line: nat, reason: Reason)

  datatype Parsed<+T> = Ok(value: T) | Refused(refusal: Refusal)

  // ---- Lines ----

  function WithoutCr(s: string): string {
    if s != "" && s[|s| - 1] == '\r' then s[..|s| - 1] else s
  }

  /** `str::lines`. */
  function Lines(s: string): seq<string>
    decreases |s|
  {
    if s == "" then []
    else
      var at := Find(s, '\n');
      if at == |s| then [s] else [WithoutCr(s[..at])] + Lines(s[at + 1..])
  }

  function Terminated(lines: seq<string>): string {
    if lines == [] then "" else lines[0] + "\n" + Terminated(lines[1..])
  }

  predicate OneLine(s: string) {
    '\n' !in s && (s != "" ==> s[|s| - 1] != '\r')
  }

  lemma {:induction false} LinesTerminated(lines: seq<string>)
    requires forall i :: 0 <= i < |lines| ==> OneLine(lines[i])
    ensures Lines(Terminated(lines)) == lines
  {
    if lines != [] {
      var s, rest := Terminated(lines), Terminated(lines[1..]);
      assert lines[0] + "\n" + rest == lines[0] + ['\n'] + rest;
      FindAfter(lines[0], '\n', rest);
      assert s[..|lines[0]|] == lines[0] && s[|lines[0]| + 1..] == rest;
      LinesTerminated(lines[1..]);
    }
  }

  // ---- Fences ----

  datatype Line = Line(no: nat, text: string)

  datatype Block = Block(start: nat, lines: seq<Line>)

  datatype Mode = Outside | OtherFence | InGraph(start: nat, lines: seq<Line>)

  datatype Scan = Scan(mode: Mode, closed: seq<Block>)

  function ScanLine(st: Scan, no: nat, raw: string): Scan {
    var t := Trim(raw);
    match st.mode
    case InGraph(start, lines) =>
      if t == "```" then Scan(Outside, st.closed + [Block(start, lines)])
      else Scan(InGraph(start, lines + [Line(no, raw)]), st.closed)
    case OtherFence =>
      if "```" <= t then Scan(Outside, st.closed) else st
    case Outside =>
      if t == "```graph" || "```graph " <= t then Scan(InGraph(no, []), st.closed)
      else if "```" <= t then Scan(OtherFence, st.closed)
      else st
  }

  function ScanFrom(st: Scan, lines: seq<string>, no: nat): Scan
    decreases |lines|
  {
    if lines == [] then st else ScanFrom(ScanLine(st, no, lines[0]), lines[1..], no + 1)
  }

  // ---- Stanzas ----

  datatype Cut = Cut(done: seq<seq<Line>>, current: seq<Line>)

  function CutLine(c: Cut, l: Line): Cut {
    var t := Trim(l.text);
    if t != "" then Cut(c.done, c.current + [Line(l.no, t)])
    else if c.current != [] then Cut(c.done + [c.current], [])
    else c
  }

  function CutFrom(c: Cut, lines: seq<Line>): Cut
    decreases |lines|
  {
    if lines == [] then c else CutFrom(CutLine(c, lines[0]), lines[1..])
  }

  function CutEnd(c: Cut): seq<seq<Line>> {
    if c.current != [] then c.done + [c.current] else c.done
  }

  /** The runs of non-blank lines, trimmed. */
  function Stanzas(lines: seq<Line>): seq<seq<Line>> {
    CutEnd(CutFrom(Cut([], []), lines))
  }

  // ---- Fields ----

  datatype Pair = Pair(no: nat, key: string, value: string)

  function PairOf(l: Line): Parsed<Pair> {
    var at := Find(l.text, ':');
    if at == |l.text| then Refused(Refusal(l.no, NotKeyValue(l.text)))
    else Ok(Pair(l.no, Trim(l.text[..at]), Trim(l.text[at + 1..])))
  }

  function PairsFrom(acc: seq<Pair>, lines: seq<Line>): Parsed<seq<Pair>>
    decreases |lines|
  {
    if lines == [] then Ok(acc)
    else
      match PairOf(lines[0])
      case Refused(r) => Refused(r)
      case Ok(p) => PairsFrom(acc + [p], lines[1..])
  }

  const ROW_FIELDS: set<string> := {"_key", "declared_in", "declared_at_line", "placeholder", "first_named_in"}
  const NODE_RESERVED: set<string> := {"node", "edge", "from", "to"}
  const EDGE_RESERVED: set<string> := {"node", "edge"}

  predicate IsReserved(key: string, stanza: set<string>) {
    key in ROW_FIELDS || key in stanza
  }

  /** `BTreeMap::insert`. */
  function InsertExtra(extra: seq<Extra>, key: string, value: string): seq<Extra> {
    if extra == [] then [Extra(key, value)]
    else if extra[0].key == key then [Extra(key, value)] + extra[1..]
    else if Less(key, extra[0].key) then [Extra(key, value)] + extra
    else [extra[0]] + InsertExtra(extra[1..], key, value)
  }

  function NodePair(node: GraphNode, p: Pair): Parsed<GraphNode> {
    if p.key == "kind" || p.key == "tag" then
      if !IsWord(p.value) then Refused(Refusal(p.no, NotOneWord(p.key, p.value)))
      else if p.key == "kind" then Ok(node.(kind := Some(p.value)))
      else Ok(node.(tag := Some(p.value)))
    else if IsReserved(p.key, NODE_RESERVED) then Refused(Refusal(p.no, Reserved(p.key)))
    else Ok(node.(extra := InsertExtra(node.extra, p.key, p.value)))
  }

  function NodeFrom(node: GraphNode, pairs: seq<Pair>): Parsed<GraphNode>
    decreases |pairs|
  {
    if pairs == [] then Ok(node)
    else
      match NodePair(node, pairs[0])
      case Refused(r) => Refused(r)
      case Ok(n) => NodeFrom(n, pairs[1..])
  }

  /** An edge stanza while its lines are read. */
  datatype Draft = Draft(from: Option<string>, to: Option<string>, extra: seq<Extra>)

  function DraftPair(d: Draft, p: Pair): Parsed<Draft> {
    if p.key == "from" || p.key == "to" then
      if !IsKey(p.value) then Refused(Refusal(p.no, NotOneToken(p.key, p.value)))
      else if (if p.key == "from" then d.from else d.to).Some? then Refused(Refusal(p.no, Reserved(p.key)))
      else if p.key == "from" then Ok(d.(from := Some(p.value)))
      else Ok(d.(to := Some(p.value)))
    else if IsReserved(p.key, EDGE_RESERVED) then Refused(Refusal(p.no, Reserved(p.key)))
    else Ok(d.(extra := InsertExtra(d.extra, p.key, p.value)))
  }

  function DraftFrom(d: Draft, pairs: seq<Pair>): Parsed<Draft>
    decreases |pairs|
  {
    if pairs == [] then Ok(d)
    else
      match DraftPair(d, pairs[0])
      case Refused(r) => Refused(r)
      case Ok(d') => DraftFrom(d', pairs[1..])
  }

  function NodeOf(first: Pair, rest: seq<Pair>): Parsed<Stanza> {
    if !IsKey(first.value) then Refused(Refusal(first.no, NotOneToken(first.key, first.value)))
    else
      match NodeFrom(GraphNode(first.value, None, None, [], first.no), rest)
      case Refused(r) => Refused(r)
      case Ok(n) => Ok(Node(n))
  }

  function EdgeOf(first: Pair, rest: seq<Pair>): Parsed<Stanza> {
    if !IsRelation(first.value) then Refused(Refusal(first.no, NotARelation(first.value)))
    else
      match DraftFrom(Draft(None, None, []), rest)
      case Refused(r) => Refused(r)
      case Ok(d) =>
        if d.from.None? || d.to.None? then Refused(Refusal(first.no, NeedsBothEnds(first.value)))
        else Ok(Edge(GraphEdge(first.value, d.from.value, d.to.value, d.extra, first.no)))
  }

  function StanzaOfPairs(pairs: seq<Pair>): Parsed<Stanza>
    requires pairs != []
  {
    if pairs[0].key == "node" then NodeOf(pairs[0], pairs[1..])
    else if pairs[0].key == "edge" then EdgeOf(pairs[0], pairs[1..])
    else Refused(Refusal(pairs[0].no, NotAStanza(pairs[0].key)))
  }

  function StanzaOf(lines: seq<Line>): Parsed<Stanza> {
    match PairsFrom([], lines)
    case Refused(r) => Refused(r)
    case Ok(pairs) => if pairs == [] then Refused(Refusal(0, EmptyBlock)) else StanzaOfPairs(pairs)
  }

  // ---- Blocks ----

  function StanzasFrom(acc: seq<Stanza>, ss: seq<seq<Line>>): Parsed<seq<Stanza>>
    decreases |ss|
  {
    if ss == [] then Ok(acc)
    else
      match StanzaOf(ss[0])
      case Refused(r) => Refused(r)
      case Ok(s) => StanzasFrom(acc + [s], ss[1..])
  }

  /** One block is one declaration: all its stanzas, or the first refusal. */
  function BlockOf(b: Block): Parsed<seq<Stanza>> {
    if Stanzas(b.lines) == [] then Refused(Refusal(b.start, EmptyBlock)) else StanzasFrom([], Stanzas(b.lines))
  }

  function NodesOf(ss: seq<Stanza>): seq<GraphNode> {
    if ss == [] then []
    else NodesOf(ss[..|ss| - 1]) + if ss[|ss| - 1].Node? then [ss[|ss| - 1].node] else []
  }

  function EdgesOf(ss: seq<Stanza>): seq<GraphEdge> {
    if ss == [] then []
    else EdgesOf(ss[..|ss| - 1]) + if ss[|ss| - 1].Edge? then [ss[|ss| - 1].edge] else []
  }

  datatype Report = Report(blocksSeen: nat, nodes: seq<GraphNode>, edges: seq<GraphEdge>, refusals: seq<Refusal>)

  const Nothing := Report(0, [], [], [])

  function AddBlock(r: Report, b: Block): Report {
    match BlockOf(b)
    case Ok(ss) => r.(nodes := r.nodes + NodesOf(ss), edges := r.edges + EdgesOf(ss))
    case Refused(x) => r.(refusals := r.refusals + [x])
  }

  function Seen(r: Report): Report {
    r.(blocksSeen := r.blocksSeen + 1)
  }

  function ReportOf(blocks: seq<Block>): Report {
    if blocks == [] then Nothing else AddBlock(Seen(ReportOf(blocks[..|blocks| - 1])), blocks[|blocks| - 1])
  }

  function Unclosed(r: Report, start: nat): Report {
    Seen(r).(refusals := r.refusals + [Refusal(start, NeverClosed)])
  }

  function Parse(markdown: string): Report {
    var st := ScanFrom(Scan(Outside, []), Lines(markdown), 1);
    if st.mode.InGraph? then Unclosed(ReportOf(st.closed), st.mode.start) else ReportOf(st.closed)
  }

  // ---- The parser ----

  /** Everything one document's graph blocks declared. */
  class GraphBlocks {
    var blocksSeen: nat
    var nodes: seq<GraphNode>
    var edges: seq<GraphEdge>
    var refusals: seq<Refusal>

    constructor ()
      ensures State() == Nothing
    {
      blocksSeen, nodes, edges, refusals := 0, [], [], [];
    }

    function State(): Report
      reads this
    {
      Report(blocksSeen, nodes, edges, refusals)
    }
  }

  /** `parse_stanza`. */
  method ParseStanza(lines: seq<Line>) returns (r: Parsed<Stanza>)
    requires lines != []
    ensures r == StanzaOf(lines)
  {
    var fields: seq<Pair> := [];
    for i := 0 to |lines|
      invariant |fields| == i && PairsFrom(fields, lines[i..]) == PairsFrom([], lines)
    {
      assert lines[i..][0] == lines[i] && lines[i..][1..] == lines[i + 1..];
      var p := PairOf(lines[i]);
      if p.Refused? {
        return Refused(p.refusal);
      }
      fields := fields + [p.value];
    }
    var first := fields[0];
    if first.key == "node" {
      r := ParseNode(fields);
    } else if first.key == "edge" {
      r := ParseEdge(fields);
    } else {
      r := Refused(Refusal(first.no, NotAStanza(first.key)));
    }
  }

  method ParseNode(fields: seq<Pair>) returns (r: Parsed<Stanza>)
    requires fields != []
    ensures r == NodeOf(fields[0], fields[1..])
  {
    var first := fields[0];
    if !IsKey(first.value) {
      return Refused(Refusal(first.no, NotOneToken(first.key, first.value)));
    }
    var node := GraphNode(first.value, None, None, [], first.no);
    ghost var start := node;
    for i := 1 to |fields|
      invariant NodeFrom(node, fields[i..]) == NodeFrom(start, fields[1..])
    {
      assert fields[i..][0] == fields[i] && fields[i..][1..] == fields[i + 1..];
      var (n, k, v) := (fields[i].no, fields[i].key, fields[i].value);
      if k == "kind" || k == "tag" {
        if !IsWord(v) {
          return Refused(Refusal(n, NotOneWord(k, v)));
        }
        if k == "kind" {
          node := node.(kind := Some(v));
        } else {
          node := node.(tag := Some(v));
        }
      } else {
        if IsReserved(k, NODE_RESERVED) {
          return Refused(Refusal(n, Reserved(k)));
        }
        node := node.(extra := InsertExtra(node.extra, k, v));
      }
    }
    return Ok(Node(node));
  }

  method ParseEdge(fields: seq<Pair>) returns (r: Parsed<Stanza>)
    requires fields != []
    ensures r == EdgeOf(fields[0], fields[1..])
  {
    var first := fields[0];
    if !IsRelation(first.value) {
      return Refused(Refusal(first.no, NotARelation(first.value)));
    }
    var from: Option<string>, to: Option<string>, extra := None, None, [];
    for i := 1 to |fields|
      invariant DraftFrom(Draft(from, to, extra), fields[i..]) == DraftFrom(Draft(None, None, []), fields[1..])
    {
      assert fields[i..][0] == fields[i] && fields[i..][1..] == fields[i + 1..];
      var (n, k, v) := (fields[i].no, fields[i].key, fields[i].value);
      if k == "from" || k == "to" {
        if !IsKey(v) {
          return Refused(Refusal(n, NotOneToken(k, v)));
        }
        var slot := if k == "from" then from else to;
        if slot.Some? {
          return Refused(Refusal(n, Reserved(k)));
        }
        if k == "from" {
          from := Some(v);
        } else {
          to := Some(v);
        }
      } else {
        if IsReserved(k, EDGE_RESERVED) {
          return Refused(Refusal(n, Reserved(k)));
        }
        extra := InsertExtra(extra, k, v);
      }
    }
    if from.None? || to.None? {
      return Refused(Refusal(first.no, NeedsBothEnds(first.value)));
    }
    return Ok(Edge(GraphEdge(first.value, from.value, to.value, extra, first.no)));
  }

  method SplitStanzas(lines: seq<Line>) returns (stanzas: seq<seq<Line>>)
    ensures stanzas == Stanzas(lines)
  {
    stanzas := [];
    var current: seq<Line> := [];
    for i := 0 to |lines|
      invariant CutFrom(Cut(stanzas, current), lines[i..]) == CutFrom(Cut([], []), lines)
    {
      assert lines[i..][0] == lines[i] && lines[i..][1..] == lines[i + 1..];
      var t := Trim(lines[i].text);
      if t == "" {
        if current != [] {
          stanzas, current := stanzas + [current], [];
        }
      } else {
        current := current + [Line(lines[i].no, t)];
      }
    }
    if current != [] {
      stanzas := stanzas + [current];
    }
  }

  /** Each run of lines the cutter yields has a line. */
  lemma {:induction false} StanzasNonEmpty(c: Cut, lines: seq<Line>)
    requires forall i :: 0 <= i < |c.done| ==> c.done[i] != []
    ensures forall i :: 0 <= i < |CutEnd(CutFrom(c, lines))| ==> CutEnd(CutFrom(c, lines))[i] != []
    decreases |lines|
  {
    if lines != [] {
      StanzasNonEmpty(CutLine(c, lines[0]), lines[1..]);
    }
  }

  /** `parse_block`: any bad stanza refuses the whole block. */
  method ParseBlock(b: Block, out: GraphBlocks)
    modifies out
    ensures out.State() == AddBlock(old(out.State()), b)
  {
    var stanzas := SplitStanzas(b.lines);
    if stanzas == [] {
      out.refusals := out.refusals + [Refusal(b.start, EmptyBlock)];
      return;
    }
    StanzasNonEmpty(Cut([], []), b.lines);
    var nodes, edges := [], [];
    ghost var read: seq<Stanza> := [];
    for i := 0 to |stanzas|
      invariant StanzasFrom(read, stanzas[i..]) == StanzasFrom([], stanzas)
      invariant nodes == NodesOf(read) && edges == EdgesOf(read)
      invariant out.State() == old(out.State())
    {
      assert stanzas[i..][0] == stanzas[i] && stanzas[i..][1..] == stanzas[i + 1..];
      var s := ParseStanza(stanzas[i]);
      match s {
        case Ok(Node(n)) => nodes := nodes + [n];
        case Ok(Edge(e)) => edges := edges + [e];
        case Refused(r) =>
          out.refusals := out.refusals + [r];
          return;
      }
      assert (read + [s.value])[..|read|] == read;
      read := read + [s.value];
    }
    out.nodes := out.nodes + nodes;
    out.edges := out.edges + edges;
  }

  /** `parse_graph_blocks`. */
  method ParseGraphBlocks(markdown: string) returns (out: GraphBlocks)
    ensures fresh(out) && out.State() == Parse(markdown)
  {
    out := new GraphBlocks();
    var block: Option<Block> := None;
    var inOtherFence := false;
    var lines := Lines(markdown);
    ghost var closed: seq<Block> := [];
    for i := 0 to |lines|
      invariant block.Some? ==> !inOtherFence
      invariant ScanFrom(Scan(ModeOf(block, inOtherFence), closed), lines[i..], i + 1)
        == ScanFrom(Scan(Outside, []), lines, 1)
      invariant fresh(out) && out.State() == ReportOf(closed)
    {
      assert lines[i..][0] == lines[i] && lines[i..][1..] == lines[i + 1..];
      var t := Trim(lines[i]);
      if block.Some? {
        if t == "```" {
          out.blocksSeen := out.blocksSeen + 1;
          ParseBlock(block.value, out);
          assert (closed + [block.value])[..|closed|] == closed;
          closed := closed + [block.value];
          block := None;
        } else {
          block := Some(Block(block.value.start, block.value.lines + [Line(i + 1, lines[i])]));
        }
      } else if inOtherFence {
        if "```" <= t {
          inOtherFence := false;
        }
      } else if t == "```graph" || "```graph " <= t {
        block := Some(Block(i + 1, []));
      } else if "```" <= t {
        inOtherFence := true;
      }
    }
    if block.Some? {
      out.blocksSeen := out.blocksSeen + 1;
      out.refusals := out.refusals + [Refusal(block.value.start, NeverClosed)];
    }
  }

  function ModeOf(block: Option<Block>, inOtherFence: bool): Mode {
    if block.Some? then InGraph(block.value.start, block.value.lines)
    else if inOtherFence then OtherFence
    else Outside
  }
}
