/** What the graph-block parser promises: a block is all or nothing and is refused at most once,
    every declaration it yields has the notation's shape, and printing undoes parsing. */
module DocumentGraphLaws {
  import opened Json
  import opened Seqs
  import opened Strings
  import opened Shapes
  import opened CanonicalJson
  import opened DocumentGraph

  // ---- All or nothing ----

  function Blocks(markdown: string): seq<Block> {
    ScanFrom(Scan(Outside, []), Lines(markdown), 1).closed
  }

  predicate EndsInsideABlock(markdown: string) {
    ScanFrom(Scan(Outside, []), Lines(markdown), 1).mode.InGraph?
  }

  /** What an accepted block declares. */
  function Declarations(b: Block): seq<Stanza> {
    match BlockOf(b) case Ok(ss) => ss case Refused(_) => []
  }

  /** What a block that is not accepted leaves. */
  function RefusalOf(b: Block): seq<Refusal> {
    match BlockOf(b) case Ok(_) => [] case Refused(r) => [r]
  }

  function Accepted(blocks: seq<Block>): seq<Stanza> {
    if blocks == [] then [] else Declarations(blocks[0]) + Accepted(blocks[1..])
  }

  function Refusals(blocks: seq<Block>): seq<Refusal> {
    if blocks == [] then [] else RefusalOf(blocks[0]) + Refusals(blocks[1..])
  }

  lemma {:induction false} AcceptedAppend(bs: seq<Block>, b: Block)
    ensures Accepted(bs + [b]) == Accepted(bs) + Declarations(b)
    ensures Refusals(bs + [b]) == Refusals(bs) + RefusalOf(b)
  {
    hide Declarations, RefusalOf;
    if bs == [] {
      assert bs + [b] == [b];
    } else {
      assert (bs + [b])[1..] == bs[1..] + [b];
      AcceptedAppend(bs[1..], b);
      Regroup3(Declarations(bs[0]), Accepted(bs[1..]), Declarations(b));
      Regroup3(RefusalOf(bs[0]), Refusals(bs[1..]), RefusalOf(b));
    }
  }

  lemma {:induction false} NodesOfAppend(a: seq<Stanza>, b: seq<Stanza>)
    ensures NodesOf(a + b) == NodesOf(a) + NodesOf(b) && EdgesOf(a + b) == EdgesOf(a) + EdgesOf(b)
  {
    if b == [] {
      assert a + b == a;
    } else {
      assert (a + b)[..|a + b| - 1] == a + b[..|b| - 1];
      NodesOfAppend(a, b[..|b| - 1]);
    }
  }

  lemma AddBlockIs(r: Report, b: Block)
    ensures AddBlock(r, b)
         == Report(r.blocksSeen, r.nodes + NodesOf(Declarations(b)), r.edges + EdgesOf(Declarations(b)),
                   r.refusals + RefusalOf(b))
    ensures |RefusalOf(b)| <= 1
  {
    hide BlockOf;
    if BlockOf(b).Refused? {
      assert NodesOf([]) == [] && EdgesOf([]) == [];
    }
  }

  lemma {:induction false} ReportIs(bs: seq<Block>)
    ensures ReportOf(bs) == Report(|bs|, NodesOf(Accepted(bs)), EdgesOf(Accepted(bs)), Refusals(bs))
    ensures |Refusals(bs)| <= |bs|
  {
    if bs != [] {
      hide Accepted, Refusals, AddBlock, NodesOf, EdgesOf;
      var init, b := bs[..|bs| - 1], bs[|bs| - 1];
      assert ReportOf(bs) == AddBlock(Seen(ReportOf(init)), b) && bs == init + [b];
      hide Declarations, RefusalOf, ReportOf;
      ReportIs(init);
      AcceptedAppend(init, b);
      NodesOfAppend(Accepted(init), Declarations(b));
      AddBlockIs(Seen(ReportOf(init)), b);
    }
  }

  /** Main result, on any text: the declarations are those of the accepted blocks, in order; every
      other block, and an unclosed one, leaves exactly one refusal. */
  lemma EveryBlockAnswersOnce(markdown: string)
    ensures var (r, bs) := (Parse(markdown), Blocks(markdown));
      && r.nodes == NodesOf(Accepted(bs)) && r.edges == EdgesOf(Accepted(bs))
      && (EndsInsideABlock(markdown) ==>
          r.blocksSeen == |bs| + 1 && |r.refusals| == |Refusals(bs)| + 1 && Refusals(bs) <= r.refusals)
      && (!EndsInsideABlock(markdown) ==> r.blocksSeen == |bs| && r.refusals == Refusals(bs))
      && |r.refusals| <= r.blocksSeen
  {
    ReportIs(Blocks(markdown));
  }

  lemma {:induction false} StanzasFromAll(acc: seq<Stanza>, ss: seq<seq<Line>>)
    ensures match StanzasFrom(acc, ss)
      case Ok(r) => |r| == |acc| + |ss| && acc <= r
        && (forall i :: 0 <= i < |ss| ==> StanzaOf(ss[i]) == Ok(r[|acc| + i]))
      case Refused(x) =>
        exists i :: 0 <= i < |ss| && StanzaOf(ss[i]) == Refused(x)
                    && forall j :: 0 <= j < i ==> StanzaOf(ss[j]).Ok?
    decreases |ss|
  {
    hide StanzaOf;
    if ss != [] {
      if StanzaOf(ss[0]).Ok? {
        StanzasFromAll(acc + [StanzaOf(ss[0]).value], ss[1..]);
        match StanzasFrom(acc, ss)
        case Ok(r) =>
          forall i | 0 <= i < |ss| ensures StanzaOf(ss[i]) == Ok(r[|acc| + i]) {
            if i > 0 { assert ss[1..][i - 1] == ss[i]; }
          }
        case Refused(x) =>
          var i :| 0 <= i < |ss[1..]| && StanzaOf(ss[1..][i]) == Refused(x)
            && forall j :: 0 <= j < i ==> StanzaOf(ss[1..][j]).Ok?;
          assert ss[i + 1] == ss[1..][i];
          forall j | 0 <= j < i + 1 ensures StanzaOf(ss[j]).Ok? {
            if j > 0 { assert ss[j] == ss[1..][j - 1]; }
          }
      } else {
        assert StanzaOf(ss[0]) == Refused(StanzasFrom(acc, ss).refusal);
      }
    }
  }

  /** A block yields a declaration for every one of its stanzas, or only the first refusal. */
  lemma AllOrNothing(b: Block)
    ensures var ss := Stanzas(b.lines);
      match BlockOf(b)
      case Ok(r) => |r| == |ss| > 0 && forall i :: 0 <= i < |ss| ==> StanzaOf(ss[i]) == Ok(r[i])
      case Refused(x) =>
        || (ss == [] && x == Refusal(b.start, EmptyBlock))
        || exists i :: 0 <= i < |ss| && StanzaOf(ss[i]) == Refused(x) && forall j :: 0 <= j < i ==> StanzaOf(ss[j]).Ok?
  {
    StanzasFromAll([], Stanzas(b.lines));
  }

  // ---- Shape ----

  /** A value as a line carries it. */
  predicate Plain(s: string) {
    Trimmed(s) && '\n' !in s
  }

  const NODE_TAKEN := NODE_RESERVED + {"kind", "tag"}
  const EDGE_TAKEN := EDGE_RESERVED + {"from", "to"}

  predicate ExtraOk(e: Extra, taken: set<string>) {
    Plain(e.key) && ':' !in e.key && Plain(e.value) && e.key !in taken && e.key !in ROW_FIELDS
  }

  ghost predicate ExtrasOk(es: seq<Extra>, taken: set<string>) {
    && (forall i :: 0 <= i < |es| ==> ExtraOk(es[i], taken))
    && (forall i, j :: 0 <= i < j < |es| ==> Less(es[i].key, es[j].key))
  }

  /** A declaration the notation can write. */
  ghost predicate Shaped(s: Stanza) {
    match s
    case Node(n) =>
      && IsKey(n.key) && (n.kind.Some? ==> IsWord(n.kind.value)) && (n.tag.Some? ==> IsWord(n.tag.value))
      && ExtrasOk(n.extra, NODE_TAKEN)
    case Edge(e) => IsRelation(e.relation) && IsKey(e.from) && IsKey(e.to) && ExtrasOk(e.extra, EDGE_TAKEN)
  }

  lemma {:induction false} InsertExtraOk(es: seq<Extra>, key: string, value: string, taken: set<string>)
    requires ExtrasOk(es, taken) && ExtraOk(Extra(key, value), taken)
    ensures ExtrasOk(InsertExtra(es, key, value), taken)
    ensures forall e :: e in InsertExtra(es, key, value) ==> e.key == key || e in es
  {
    hide ExtraOk;
    if es == [] {
    } else if es[0].key == key {
    } else if Less(key, es[0].key) {
      forall j | 0 <= j < |es| ensures Less(key, es[j].key) {
        if j > 0 { LessIsTransitive(key, es[0].key, es[j].key); }
      }
    } else {
      var rest := InsertExtra(es[1..], key, value);
      InsertExtraOk(es[1..], key, value, taken);
      LessIsTotal(key, es[0].key);
      forall j | 0 <= j < |rest| ensures Less(es[0].key, rest[j].key) {
        assert rest[j] in rest;
      }
    }
  }

  lemma TrimPlain(s: string)
    requires '\n' !in s
    ensures Plain(Trim(s)) && forall c :: c in Trim(s) ==> c in s
  {
    TrimStartIsSuffix(s);
    TrimEndIsPrefix(TrimStart(s));
    StartTrimmed(s);
    EndTrimmed(TrimStart(s));
  }

  lemma {:induction false} StartTrimmed(s: string)
    ensures TrimStart(s) != "" ==> !IsWhitespace(TrimStart(s)[0])
  {
    if s != "" && IsWhitespace(s[0]) {
      StartTrimmed(s[1..]);
    }
  }

  lemma {:induction false} EndTrimmed(s: string)
    ensures TrimEnd(s) != "" ==> !IsWhitespace(TrimEnd(s)[|TrimEnd(s)| - 1]) && TrimEnd(s)[0] == s[0]
  {
    if s != "" && IsWhitespace(s[|s| - 1]) {
      EndTrimmed(s[..|s| - 1]);
    }
  }

  predicate PairOk(p: Pair) {
    Plain(p.key) && ':' !in p.key && Plain(p.value)
  }

  ghost predicate NoNewlines(lines: seq<Line>) {
    forall i :: 0 <= i < |lines| ==> '\n' !in lines[i].text
  }

  lemma PairOfOk(l: Line)
    requires '\n' !in l.text
    ensures PairOf(l).Ok? ==> PairOk(PairOf(l).value)
  {
    var at := Find(l.text, ':');
    if at < |l.text| {
      TrimPlain(l.text[..at]);
      TrimPlain(l.text[at + 1..]);
    }
  }

  lemma {:induction false} PairsOk(acc: seq<Pair>, lines: seq<Line>)
    requires NoNewlines(lines) && forall i :: 0 <= i < |acc| ==> PairOk(acc[i])
    ensures PairsFrom(acc, lines).Ok? ==> forall i :: 0 <= i < |PairsFrom(acc, lines).value| ==>
      PairOk(PairsFrom(acc, lines).value[i])
    decreases |lines|
  {
    hide PairOk, PairOf;
    if lines != [] {
      PairOfOk(lines[0]);
      if PairOf(lines[0]).Ok? {
        PairsOk(acc + [PairOf(lines[0]).value], lines[1..]);
      }
    }
  }

  lemma {:induction false} NodeShaped(n: GraphNode, pairs: seq<Pair>)
    requires Shaped(Node(n)) && forall i :: 0 <= i < |pairs| ==> PairOk(pairs[i])
    ensures NodeFrom(n, pairs).Ok? ==> Shaped(Node(NodeFrom(n, pairs).value))
    decreases |pairs|
  {
    hide ExtrasOk;
    if pairs != [] {
      var p := pairs[0];
      if NodePair(n, p).Ok? {
        if p.key != "kind" && p.key != "tag" {
          InsertExtraOk(n.extra, p.key, p.value, NODE_TAKEN);
        }
        NodeShaped(NodePair(n, p).value, pairs[1..]);
      }
    }
  }

  ghost predicate DraftShaped(d: Draft) {
    (d.from.Some? ==> IsKey(d.from.value)) && (d.to.Some? ==> IsKey(d.to.value)) && ExtrasOk(d.extra, EDGE_TAKEN)
  }

  lemma {:induction false} DraftsShaped(d: Draft, pairs: seq<Pair>)
    requires DraftShaped(d) && forall i :: 0 <= i < |pairs| ==> PairOk(pairs[i])
    ensures DraftFrom(d, pairs).Ok? ==> DraftShaped(DraftFrom(d, pairs).value)
    decreases |pairs|
  {
    hide ExtrasOk;
    if pairs != [] {
      var p := pairs[0];
      if DraftPair(d, p).Ok? {
        if p.key != "from" && p.key != "to" {
          InsertExtraOk(d.extra, p.key, p.value, EDGE_TAKEN);
        }
        DraftsShaped(DraftPair(d, p).value, pairs[1..]);
      }
    }
  }

  lemma StanzaShaped(lines: seq<Line>)
    requires NoNewlines(lines)
    ensures StanzaOf(lines).Ok? ==> Shaped(StanzaOf(lines).value)
  {
    PairsOk([], lines);
    if PairsFrom([], lines).Ok? && PairsFrom([], lines).value != [] {
      var pairs := PairsFrom([], lines).value;
      NodeShapedFirst(pairs);
    }
  }

  lemma NodeShapedFirst(pairs: seq<Pair>)
    requires pairs != [] && forall i :: 0 <= i < |pairs| ==> PairOk(pairs[i])
    ensures StanzaOfPairs(pairs).Ok? ==> Shaped(StanzaOfPairs(pairs).value)
  {
    var first, rest := pairs[0], pairs[1..];
    if IsKey(first.value) {
      NodeShaped(GraphNode(first.value, None, None, [], first.no), rest);
    }
    DraftsShaped(Draft(None, None, []), rest);
  }

  lemma {:induction false} CutPlain(c: Cut, lines: seq<Line>)
    requires NoNewlines(lines) && NoNewlines(c.current) && forall i :: 0 <= i < |c.done| ==> NoNewlines(c.done[i])
    ensures forall i :: 0 <= i < |CutEnd(CutFrom(c, lines))| ==> NoNewlines(CutEnd(CutFrom(c, lines))[i])
    decreases |lines|
  {
    if lines != [] {
      TrimPlain(lines[0].text);
      var c' := CutLine(c, lines[0]);
      assert NoNewlines(c'.current);
      CutPlain(c', lines[1..]);
    }
  }

  lemma BlockShaped(b: Block)
    requires NoNewlines(b.lines)
    ensures BlockOf(b).Ok? ==> forall i :: 0 <= i < |BlockOf(b).value| ==> Shaped(BlockOf(b).value[i])
  {
    AllOrNothing(b);
    var ss := Stanzas(b.lines);
    CutPlain(Cut([], []), b.lines);
    hide Stanzas, StanzaOf, Shaped, BlockOf;
    forall i | 0 <= i < |ss| ensures StanzaOf(ss[i]).Ok? ==> Shaped(StanzaOf(ss[i]).value) {
      StanzaShaped(ss[i]);
    }
  }

  ghost predicate ScanPlain(st: Scan) {
    && (forall i :: 0 <= i < |st.closed| ==> NoNewlines(st.closed[i].lines))
    && (st.mode.InGraph? ==> NoNewlines(st.mode.lines))
  }

  lemma {:induction false} ScansPlain(st: Scan, lines: seq<string>, no: nat)
    requires ScanPlain(st) && forall i :: 0 <= i < |lines| ==> '\n' !in lines[i]
    ensures ScanPlain(ScanFrom(st, lines, no))
    decreases |lines|
  {
    if lines != [] {
      assert ScanPlain(ScanLine(st, no, lines[0])) by { hide Trim; }
      ScansPlain(ScanLine(st, no, lines[0]), lines[1..], no + 1);
    }
  }

  lemma {:induction false} LinesPlain(s: string)
    ensures forall i :: 0 <= i < |Lines(s)| ==> '\n' !in Lines(s)[i]
    decreases |s|
  {
    if s != "" {
      var at := Find(s, '\n');
      if at < |s| {
        LinesPlain(s[at + 1..]);
      }
    }
  }

  lemma {:induction false} AcceptedShaped(bs: seq<Block>)
    requires forall i :: 0 <= i < |bs| ==> NoNewlines(bs[i].lines)
    ensures forall i :: 0 <= i < |Accepted(bs)| ==> Shaped(Accepted(bs)[i])
  {
    hide Shaped, NoNewlines, BlockOf;
    if bs != [] {
      BlockShaped(bs[0]);
      AcceptedShaped(bs[1..]);
    }
  }

  /** Main result: whatever the text, every declaration the parser yields has the notation's shape. */
  lemma ParsedIsShaped(markdown: string)
    ensures forall i :: 0 <= i < |Accepted(Blocks(markdown))| ==> Shaped(Accepted(Blocks(markdown))[i])
  {
    LinesPlain(markdown);
    ScansPlain(Scan(Outside, []), Lines(markdown), 1);
    AcceptedShaped(Blocks(markdown));
  }
}
