/** Which lines of a Markdown text the graph-block parser reads as blocks, said without its scanner:
    a text is prose, other fences and graph fences, and perhaps one fence left open at its end. */
module DocumentGraphFences {
  import opened Json
  import opened Seqs
  import opened Strings
  import opened Shapes
  import opened DocumentGraph
  import opened DocumentGraphLaws
  import opened DocumentGraphPrinter

  // ---- The parts of a text ----

  predicate IsFence(line: string) {
    "```" <= Trim(line)
  }

  predicate OpensGraph(line: string) {
    Trim(line) == "```graph" || "```graph " <= Trim(line)
  }

  predicate ClosesGraph(line: string) {
    Trim(line) == "```"
  }

  /** A line of prose, another fence with what it encloses, or a graph block. */
  datatype Part =
    | Prose(line: string)
    | Other(open: string, inner: seq<string>, close: string)
    | Graph(open: string, inner: seq<string>, close: string)

  /** Where the text ends: outside every fence, or inside one that is never closed. */
  datatype Tail = Closed | OpenOther(open: string, inner: seq<string>) | OpenGraph(open: string, inner: seq<string>)

  predicate OtherOk(open: string, inner: seq<string>) {
    IsFence(open) && !OpensGraph(open) && forall i :: 0 <= i < |inner| ==> !IsFence(inner[i])
  }

  predicate GraphOk(open: string, inner: seq<string>) {
    OpensGraph(open) && forall i :: 0 <= i < |inner| ==> !ClosesGraph(inner[i])
  }

  /** Any fence line ends another fence, a line that would open a graph block included. */
  predicate PartOk(p: Part) {
    match p
    case Prose(line) => !IsFence(line)
    case Other(open, inner, close) => OtherOk(open, inner) && IsFence(close)
    case Graph(open, inner, close) => GraphOk(open, inner) && ClosesGraph(close)
  }

  predicate TailOk(t: Tail) {
    match t
    case Closed => true
    case OpenOther(open, inner) => OtherOk(open, inner)
    case OpenGraph(open, inner) => GraphOk(open, inner)
  }

  ghost predicate PartsOk(parts: seq<Part>) {
    forall i :: 0 <= i < |parts| ==> PartOk(parts[i])
  }

  function PartLines(p: Part): seq<string> {
    match p
    case Prose(line) => [line]
    case _ => [p.open] + (p.inner + [p.close])
  }

  function TailLines(t: Tail): seq<string> {
    match t
    case Closed => []
    case _ => [t.open] + t.inner
  }

  function TextLines(parts: seq<Part>, tail: Tail): seq<string> {
    if parts == [] then TailLines(tail) else PartLines(parts[0]) + TextLines(parts[1..], tail)
  }

  /** The graph blocks, each with the number of its opening line and its lines with theirs. */
  function BlocksIn(parts: seq<Part>, no: nat): seq<Block> {
    if parts == [] then []
    else
      (if parts[0].Graph? then [Block(no, Numbered(parts[0].inner, no + 1))] else [])
      + BlocksIn(parts[1..], no + |PartLines(parts[0])|)
  }

  /** The line after the parts. */
  function EndOf(parts: seq<Part>, no: nat): nat {
    if parts == [] then no else EndOf(parts[1..], no + |PartLines(parts[0])|)
  }

  // ---- The scan of each part ----

  lemma GraphIsFence(line: string)
    requires OpensGraph(line)
    ensures IsFence(line)
  {
  }

  lemma {:induction false} ScanOther(closed: seq<Block>, inner: seq<string>, rest: seq<string>, no: nat)
    requires forall i :: 0 <= i < |inner| ==> !IsFence(inner[i])
    ensures ScanFrom(Scan(OtherFence, closed), inner + rest, no)
         == ScanFrom(Scan(OtherFence, closed), rest, no + |inner|)
    decreases |inner|
  {
    hide Trim;
    if inner == [] {
      assert inner + rest == rest;
    } else {
      assert (inner + rest)[1..] == inner[1..] + rest;
      ScanOther(closed, inner[1..], rest, no + 1);
    }
  }

  lemma ScanLineFirst(st: Scan, line: string, rest: seq<string>, no: nat)
    ensures ScanFrom(st, [line] + rest, no) == ScanFrom(ScanLine(st, no, line), rest, no + 1)
  {
    assert ([line] + rest)[1..] == rest;
  }

  lemma ScanPart(closed: seq<Block>, p: Part, rest: seq<string>, no: nat)
    requires PartOk(p)
    ensures ScanFrom(Scan(Outside, closed), PartLines(p) + rest, no)
         == ScanFrom(Scan(Outside, closed + if p.Graph? then [Block(no, Numbered(p.inner, no + 1))] else []),
                     rest, no + |PartLines(p)|)
  {
    hide Trim, ScanFrom;
    assert closed + [] == closed;
    match p
    case Prose(line) => ScanLineFirst(Scan(Outside, closed), line, rest, no);
    case Other(open, inner, close) =>
      Regroup3([open], inner + [close], rest);
      Regroup3(inner, [close], rest);
      ScanLineFirst(Scan(Outside, closed), open, inner + ([close] + rest), no);
      ScanOther(closed, inner, [close] + rest, no + 1);
      ScanLineFirst(Scan(OtherFence, closed), close, rest, no + 1 + |inner|);
    case Graph(open, inner, close) =>
      Regroup3([open], inner + [close], rest);
      Regroup3(inner, [close], rest);
      ScanLineFirst(Scan(Outside, closed), open, inner + ([close] + rest), no);
      ScanInner(closed, no, [], inner, [close] + rest, no + 1);
      assert [] + Numbered(inner, no + 1) == Numbered(inner, no + 1);
      ScanLineFirst(Scan(InGraph(no, Numbered(inner, no + 1)), closed), close, rest, no + 1 + |inner|);
  }

  /** Where the scan of a tail ends. */
  ghost predicate TailScanned(st: Scan, closed: seq<Block>, tail: Tail, no: nat) {
    && st.closed == closed
    && match tail
       case Closed => st.mode.Outside?
       case OpenOther(_, _) => st.mode.OtherFence?
       case OpenGraph(_, _) => st.mode.InGraph? && st.mode.start == no
  }

  lemma ScanTail(closed: seq<Block>, tail: Tail, no: nat)
    requires TailOk(tail)
    ensures TailScanned(ScanFrom(Scan(Outside, closed), TailLines(tail), no), closed, tail, no)
  {
    hide Trim;
    match tail
    case Closed =>
    case OpenOther(open, inner) =>
      ScanLineFirst(Scan(Outside, closed), open, inner, no);
      ScanOther(closed, inner, [], no + 1);
      assert inner + [] == inner;
    case OpenGraph(open, inner) =>
      ScanLineFirst(Scan(Outside, closed), open, inner, no);
      ScanInner(closed, no, [], inner, [], no + 1);
      assert inner + [] == inner;
  }

  lemma {:induction false} ScanParts(closed: seq<Block>, parts: seq<Part>, tail: Tail, no: nat)
    requires PartsOk(parts) && TailOk(tail)
    ensures TailScanned(ScanFrom(Scan(Outside, closed), TextLines(parts, tail), no), closed + BlocksIn(parts, no), tail,
                        EndOf(parts, no))
    decreases |parts|
  {
    hide PartOk, TailOk, ScanFrom, PartLines, Numbered, TailScanned;
    if parts == [] {
      assert closed + BlocksIn(parts, no) == closed;
      ScanTail(closed, tail, no);
    } else {
      var p, next := parts[0], no + |PartLines(parts[0])|;
      var found := if p.Graph? then [Block(no, Numbered(p.inner, no + 1))] else [];
      ScanPart(closed, p, TextLines(parts[1..], tail), no);
      ScanParts(closed + found, parts[1..], tail, next);
      Regroup3(closed, found, BlocksIn(parts[1..], next));
    }
  }

  // ---- Main result: what is found ----

  /** Main result: in a text made of these parts the parser sees exactly the graph blocks, whatever
      stands between them; each declares what it declares or is refused; and a graph fence left open
      at the end is refused at its own line. */
  lemma EveryFenceFound(markdown: string, parts: seq<Part>, tail: Tail)
    requires PartsOk(parts) && TailOk(tail) && Lines(markdown) == TextLines(parts, tail)
    ensures var bs := BlocksIn(parts, 1);
      Parse(markdown)
      == Report(|bs| + (if tail.OpenGraph? then 1 else 0), NodesOf(Accepted(bs)), EdgesOf(Accepted(bs)),
                Refusals(bs) + if tail.OpenGraph? then [Refusal(EndOf(parts, 1), NeverClosed)] else [])
  {
    hide TextLines, Lines, ScanFrom, BlocksIn, Accepted, Refusals, NodesOf, EdgesOf, ReportOf, EndOf, PartsOk, TailOk;
    ScanParts([], parts, tail, 1);
    assert [] + BlocksIn(parts, 1) == BlocksIn(parts, 1);
    assert Refusals(BlocksIn(parts, 1)) + [] == Refusals(BlocksIn(parts, 1));
    ReportIs(BlocksIn(parts, 1));
  }

  // ---- Every text has such parts ----

  /** The first line of a list that a predicate holds of, or its length. */
  function FirstLine(lines: seq<string>, p: string -> bool): (i: nat)
    ensures i <= |lines| && (i < |lines| ==> p(lines[i])) && forall j :: 0 <= j < i ==> !p(lines[j])
  {
    if lines == [] || p(lines[0]) then 0
    else
      assert forall j :: 1 <= j < |lines| ==> lines[j] == lines[1..][j - 1];
      1 + FirstLine(lines[1..], p)
  }

  /** A fence and what follows it: closed by some line, or open to the end. */
  lemma FenceHasPart(open: string, rest: seq<string>) returns (found: Option<Part>, tail: Tail, after: seq<string>)
    requires IsFence(open)
    ensures match found
      case Some(p) => PartOk(p) && [open] + rest == PartLines(p) + after && |after| < |rest|
      case None => TailOk(tail) && [open] + rest == TailLines(tail)
  {
    hide Trim, IsFence, OpensGraph, ClosesGraph;
    found, tail, after := None, Closed, [];
    var at := FirstLine(rest, if OpensGraph(open) then ClosesGraph else IsFence);
    if at == |rest| {
      tail := if OpensGraph(open) then OpenGraph(open, rest) else OpenOther(open, rest);
    } else {
      var (inner, close) := (rest[..at], rest[at]);
      after := rest[at + 1..];
      found := Some(if OpensGraph(open) then Graph(open, inner, close) else Other(open, inner, close));
      assert rest == inner + [close] + after;
      Regroup3([open], inner + [close], after);
    }
  }

  /** Main result: every text is made of such parts, so `EveryFenceFound` speaks of every text. */
  lemma {:induction false} EveryTextHasParts(lines: seq<string>) returns (parts: seq<Part>, tail: Tail)
    ensures PartsOk(parts) && TailOk(tail) && lines == TextLines(parts, tail)
    decreases |lines|
  {
    hide IsFence, PartOk, TailOk;
    parts, tail := [], Closed;
    if lines != [] {
      var p, after := Prose(lines[0]), lines[1..];
      assert lines == [lines[0]] + lines[1..];
      if IsFence(lines[0]) {
        var found, open, beyond := FenceHasPart(lines[0], lines[1..]);
        if found.None? {
          tail := open;
          return;
        }
        p, after := found.value, beyond;
      } else {
        ProseIsPart(lines[0]);
      }
      var more;
      more, tail := EveryTextHasParts(after);
      parts := [p] + more;
      assert parts[1..] == more;
    } else {
      NoTail();
    }
  }

  lemma ProseIsPart(line: string)
    requires !IsFence(line)
    ensures PartOk(Prose(line))
  {
  }

  lemma NoTail()
    ensures TailOk(Closed)
  {
  }

  // ---- Printed blocks among anything else ----

  /** A part of a document: prose or another fence, or declarations printed as a graph block. */
  datatype Piece = Between(part: Part) | Printed(open: string, stanzas: seq<Stanza>, close: string)

  predicate BetweenOk(p: Part) {
    !p.Graph? && PartOk(p)
  }

  ghost predicate PieceOk(p: Piece) {
    match p
    case Between(part) => BetweenOk(part)
    case Printed(open, ss, close) => OpensGraph(open) && ClosesGraph(close) && ss != [] && AllShaped(ss)
  }

  ghost predicate PiecesOk(pieces: seq<Piece>) {
    forall i :: 0 <= i < |pieces| ==> PieceOk(pieces[i])
  }

  function AsPart(p: Piece): Part {
    match p
    case Between(part) => part
    case Printed(open, ss, close) => Graph(open, StanzaLines(ss), close)
  }

  function AsParts(pieces: seq<Piece>): seq<Part> {
    if pieces == [] then [] else [AsPart(pieces[0])] + AsParts(pieces[1..])
  }

  /** The declarations of the document, each at the line it stands on. */
  function PlacePieces(pieces: seq<Piece>, no: nat): seq<Stanza> {
    if pieces == [] then []
    else
      (if pieces[0].Printed? then PlaceAll(pieces[0].stanzas, no + 1) else [])
      + PlacePieces(pieces[1..], no + |PartLines(AsPart(pieces[0]))|)
  }

  function StanzasIn(pieces: seq<Piece>): seq<Stanza> {
    if pieces == [] then []
    else (if pieces[0].Printed? then pieces[0].stanzas else []) + StanzasIn(pieces[1..])
  }

  function CountPrinted(pieces: seq<Piece>): nat {
    if pieces == [] then 0 else (if pieces[0].Printed? then 1 else 0) + CountPrinted(pieces[1..])
  }

  lemma PieceIsPart(p: Piece)
    requires PieceOk(p)
    ensures PartOk(AsPart(p)) && (AsPart(p).Graph? <==> p.Printed?)
  {
    hide Trim, OpensGraph;
    if p.Printed? {
      StanzaLinesInner(p.stanzas);
    }
  }

  lemma {:induction false} PiecesRead(pieces: seq<Piece>, no: nat)
    requires PiecesOk(pieces)
    ensures PartsOk(AsParts(pieces))
    ensures var bs := BlocksIn(AsParts(pieces), no);
      |bs| == CountPrinted(pieces) && Accepted(bs) == PlacePieces(pieces, no) && Refusals(bs) == []
    decreases |pieces|
  {
    hide AllShaped, BlockOf, StanzaLines, Numbered, PartLines, PlaceAll, PartOk, BetweenOk, OpensGraph, ClosesGraph;
    if pieces != [] {
      var p, parts := pieces[0], AsParts(pieces);
      PieceIsPart(p);
      PiecesRead(pieces[1..], no + |PartLines(AsPart(p))|);
      assert parts[0] == AsPart(p) && parts[1..] == AsParts(pieces[1..]);
      var rest := BlocksIn(parts[1..], no + |PartLines(AsPart(p))|);
      if p.Printed? {
        var b := Block(no, Numbered(StanzaLines(p.stanzas), no + 1));
        BlockReads(p.stanzas, no, no + 1);
        assert BlocksIn(parts, no) == [b] + rest && ([b] + rest)[1..] == rest;
      } else {
        assert BlocksIn(parts, no) == [] + rest == rest;
      }
    }
  }

  lemma {:induction false} PlacePiecesUnplaced(pieces: seq<Piece>, no: nat)
    ensures Unplaced(PlacePieces(pieces, no)) == Unplaced(StanzasIn(pieces))
  {
    hide PartLines, PlaceAll, Unplaced, AsPart;
    if pieces != [] {
      var p, next := pieces[0], no + |PartLines(AsPart(pieces[0]))|;
      var (placed, ss) := if p.Printed? then (PlaceAll(p.stanzas, no + 1), p.stanzas) else ([], []);
      PlacePiecesUnplaced(pieces[1..], next);
      if p.Printed? {
        PlaceAllUnplaced(p.stanzas, no + 1);
      }
      UnplacedAppend(placed, PlacePieces(pieces[1..], next));
      UnplacedAppend(ss, StanzasIn(pieces[1..]));
    }
  }

  /** Main result: blocks printed anywhere among prose and other fences give back their declarations,
      in order, each at the line it stands on, and nothing is refused. */
  lemma ParseUndoesPrintAmong(markdown: string, pieces: seq<Piece>, tail: Tail)
    requires PiecesOk(pieces) && TailOk(tail) && !tail.OpenGraph?
    requires Lines(markdown) == TextLines(AsParts(pieces), tail)
    ensures var back := PlacePieces(pieces, 1);
      && Parse(markdown) == Report(CountPrinted(pieces), NodesOf(back), EdgesOf(back), [])
      && Unplaced(back) == Unplaced(StanzasIn(pieces))
  {
    hide PiecesOk, TailOk, Lines, TextLines, NodesOf, EdgesOf, Unplaced, PlacePieces, StanzasIn;
    PiecesRead(pieces, 1);
    EveryFenceFound(markdown, AsParts(pieces), tail);
    assert [] + [] == Refusals([]);
    PlacePiecesUnplaced(pieces, 1);
  }

  /** And a line that would open a graph block, inside another fence, only ends that fence. */
  lemma GraphLineEndsOtherFence(markdown: string, open: string, inner: seq<string>, line: string, after: seq<string>)
    requires OtherOk(open, inner) && OpensGraph(line) && forall i :: 0 <= i < |after| ==> !IsFence(after[i])
    requires Lines(markdown) == [open] + (inner + [line]) + after
    ensures Parse(markdown) == Report(0, [], [], [])
  {
    hide IsFence, OpensGraph, Lines, Parse, EndOf;
    GraphIsFence(line);
    var fence := Other(open, inner, line);
    var parts := [fence] + ProseParts(after);
    assert parts[1..] == ProseParts(after);
    ProseFindsNothing(after, 1 + |PartLines(fence)|);
    assert BlocksIn(parts, 1) == [] + BlocksIn(ProseParts(after), 1 + |PartLines(fence)|) == [];
    EveryFenceFound(markdown, parts, Closed);
    assert [] + [] == Refusals([]);
  }

  function ProseParts(lines: seq<string>): seq<Part> {
    if lines == [] then [] else [Prose(lines[0])] + ProseParts(lines[1..])
  }

  lemma {:induction false} ProseFindsNothing(lines: seq<string>, no: nat)
    requires forall i :: 0 <= i < |lines| ==> !IsFence(lines[i])
    ensures PartsOk(ProseParts(lines)) && TextLines(ProseParts(lines), Closed) == lines
    ensures BlocksIn(ProseParts(lines), no) == []
  {
    hide IsFence;
    if lines != [] {
      ProseFindsNothing(lines[1..], no + 1);
      assert ProseParts(lines)[1..] == ProseParts(lines[1..]);
      assert BlocksIn(ProseParts(lines), no) == [] + BlocksIn(ProseParts(lines[1..]), no + 1);
    }
  }
}
