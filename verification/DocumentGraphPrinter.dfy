/** The printer the graph-block parser undoes. */
module DocumentGraphPrinter {
  import opened Json
  import opened Seqs
  import opened Strings
  import opened Shapes
  import opened CanonicalJson
  import opened DocumentGraph
  import opened DocumentGraphLaws

  // ---- Printing ----

  function OptionalField(key: string, value: Option<string>): seq<Extra> {
    if value.Some? then [Extra(key, value.value)] else []
  }

  /** The lines of a stanza, as keys and values. */
  function FieldsOf(s: Stanza): (fs: seq<Extra>)
    ensures fs != []
  {
    match s
    case Node(n) => [Extra("node", n.key)] + (OptionalField("kind", n.kind) + (OptionalField("tag", n.tag) + n.extra))
    case Edge(e) => [Extra("edge", e.relation)] + ([Extra("from", e.from)] + ([Extra("to", e.to)] + e.extra))
  }

  function FieldLine(f: Extra): string {
    f.key + ": " + f.value
  }

  function FieldLines(fs: seq<Extra>): (ls: seq<string>)
    ensures |ls| == |fs|
  {
    if fs == [] then [] else [FieldLine(fs[0])] + FieldLines(fs[1..])
  }

  /** Every stanza is followed by a blank line. */
  function StanzaLines(ss: seq<Stanza>): seq<string> {
    if ss == [] then [] else FieldLines(FieldsOf(ss[0])) + ([""] + StanzaLines(ss[1..]))
  }

  function BlockLines(blocks: seq<seq<Stanza>>): seq<string> {
    if blocks == [] then []
    else ["```graph"] + (StanzaLines(blocks[0]) + (["```"] + BlockLines(blocks[1..])))
  }

  /** A Markdown text holding the declarations, one block for each list. */
  function Print(blocks: seq<seq<Stanza>>): string {
    Terminated(BlockLines(blocks))
  }

  // ---- What comes back: the same declarations, each at the line it was printed on ----

  function Placed(s: Stanza, line: nat): Stanza {
    match s
    case Node(n) => Node(n.(line := line))
    case Edge(e) => Edge(e.(line := line))
  }

  function PlaceAll(ss: seq<Stanza>, line: nat): seq<Stanza> {
    if ss == [] then [] else [Placed(ss[0], line)] + PlaceAll(ss[1..], line + |FieldsOf(ss[0])| + 1)
  }

  function PlaceBlocks(blocks: seq<seq<Stanza>>, line: nat): seq<Stanza> {
    if blocks == [] then []
    else PlaceAll(blocks[0], line + 1) + PlaceBlocks(blocks[1..], line + |StanzaLines(blocks[0])| + 2)
  }

  /** Declarations without their line numbers. */
  function Unplaced(ss: seq<Stanza>): seq<Stanza> {
    if ss == [] then [] else [Placed(ss[0], 0)] + Unplaced(ss[1..])
  }

  function Flat(blocks: seq<seq<Stanza>>): seq<Stanza> {
    if blocks == [] then [] else blocks[0] + Flat(blocks[1..])
  }

  lemma {:induction false} UnplacedAppend(a: seq<Stanza>, b: seq<Stanza>)
    ensures Unplaced(a + b) == Unplaced(a) + Unplaced(b)
  {
    if a == [] {
      assert a + b == b;
    } else {
      assert (a + b)[1..] == a[1..] + b;
      UnplacedAppend(a[1..], b);
    }
  }

  lemma {:induction false} PlaceAllUnplaced(ss: seq<Stanza>, line: nat)
    ensures Unplaced(PlaceAll(ss, line)) == Unplaced(ss)
  {
    if ss != [] {
      PlaceAllUnplaced(ss[1..], line + |FieldsOf(ss[0])| + 1);
    }
  }

  lemma {:induction false} PlaceBlocksUnplaced(blocks: seq<seq<Stanza>>, line: nat)
    ensures Unplaced(PlaceBlocks(blocks, line)) == Unplaced(Flat(blocks))
  {
    if blocks != [] {
      PlaceAllUnplaced(blocks[0], line + 1);
      PlaceBlocksUnplaced(blocks[1..], line + |StanzaLines(blocks[0])| + 2);
      UnplacedAppend(PlaceAll(blocks[0], line + 1), PlaceBlocks(blocks[1..], line + |StanzaLines(blocks[0])| + 2));
      UnplacedAppend(blocks[0], Flat(blocks[1..]));
    }
  }

  // ---- One line ----

  predicate FieldOk(f: Extra) {
    Plain(f.key) && ':' !in f.key && Plain(f.value)
  }

  /** A printed line after trimming. */
  function Tight(f: Extra): string {
    f.key + ":" + if f.value == "" then "" else " " + f.value
  }

  lemma FieldLineTrims(f: Extra)
    requires FieldOk(f)
    ensures Trim(FieldLine(f)) == Tight(f)
  {
    var t := Tight(f);
    assert Trimmed(t);
    if f.value == "" {
      assert FieldLine(f) == t + " ";
      assert (t + " ")[0] == t[0] && (t + " ")[..|t|] == t;
      assert TrimStart(t + " ") == t + " " && TrimEnd(t) == t;
    } else {
      assert FieldLine(f) == t;
    }
  }

  lemma TightReads(f: Extra, no: nat)
    requires FieldOk(f)
    ensures PairOf(Line(no, Tight(f))) == Ok(Pair(no, f.key, f.value))
  {
    var t, rest := Tight(f), if f.value == "" then "" else " " + f.value;
    assert t == f.key + [':'] + rest;
    FindAfter(f.key, ':', rest);
    assert t[..|f.key|] == f.key && t[|f.key| + 1..] == rest;
    TrimTrimmed(f.key);
    TrimTrimmed(f.value);
  }

  lemma KeyIsPlain(s: string)
    requires IsKey(s) || IsWord(s)
    ensures Plain(s) && s != ""
  {
    assert forall i :: 0 <= i < |s| ==> IsKeyChar(s[i]);
  }

  // ---- One stanza ----

  function TightLines(fs: seq<Extra>, no: nat): (ls: seq<Line>)
    ensures |ls| == |fs|
  {
    if fs == [] then [] else [Line(no, Tight(fs[0]))] + TightLines(fs[1..], no + 1)
  }

  function PairsOf(fs: seq<Extra>, no: nat): seq<Pair> {
    if fs == [] then [] else [Pair(no, fs[0].key, fs[0].value)] + PairsOf(fs[1..], no + 1)
  }

  ghost predicate FieldsOk(fs: seq<Extra>) {
    forall i :: 0 <= i < |fs| ==> FieldOk(fs[i])
  }

  lemma {:induction false} TightLinesRead(acc: seq<Pair>, fs: seq<Extra>, no: nat)
    requires FieldsOk(fs)
    ensures PairsFrom(acc, TightLines(fs, no)) == Ok(acc + PairsOf(fs, no))
    decreases |fs|
  {
    hide PairOf, FieldOk, Tight;
    if fs == [] {
      assert acc + PairsOf(fs, no) == acc;
    } else {
      TightReads(fs[0], no);
      var p := Pair(no, fs[0].key, fs[0].value);
      assert TightLines(fs, no)[1..] == TightLines(fs[1..], no + 1);
      TightLinesRead(acc + [p], fs[1..], no + 1);
      Regroup3(acc, [p], PairsOf(fs[1..], no + 1));
    }
  }

  lemma {:induction false} InsertLast(es: seq<Extra>, key: string, value: string)
    requires forall i :: 0 <= i < |es| ==> Less(es[i].key, key)
    ensures InsertExtra(es, key, value) == es + [Extra(key, value)]
  {
    if es != [] {
      LessIsTotal(es[0].key, key);
      InsertLast(es[1..], key, value);
    }
  }

  lemma {:induction false} NodeExtras(n: GraphNode, es: seq<Extra>, no: nat)
    requires ExtrasOk(n.extra + es, NODE_TAKEN)
    ensures NodeFrom(n, PairsOf(es, no)) == Ok(n.(extra := n.extra + es))
    decreases |es|
  {
    if es == [] {
      assert n.extra + es == n.extra;
    } else {
      var all, e := n.extra + es, es[0];
      assert ExtraOk(all[|n.extra|], NODE_TAKEN);
      forall i | 0 <= i < |n.extra| ensures Less(n.extra[i].key, e.key) {
        assert all[i] == n.extra[i] && all[|n.extra|] == e;
      }
      InsertLast(n.extra, e.key, e.value);
      assert n.extra + [e] + es[1..] == all;
      assert PairsOf(es, no)[1..] == PairsOf(es[1..], no + 1);
      NodeExtras(n.(extra := n.extra + [e]), es[1..], no + 1);
    }
  }

  lemma {:induction false} DraftExtras(d: Draft, es: seq<Extra>, no: nat)
    requires ExtrasOk(d.extra + es, EDGE_TAKEN)
    ensures DraftFrom(d, PairsOf(es, no)) == Ok(d.(extra := d.extra + es))
    decreases |es|
  {
    if es == [] {
      assert d.extra + es == d.extra;
    } else {
      var all, e := d.extra + es, es[0];
      assert ExtraOk(all[|d.extra|], EDGE_TAKEN);
      forall i | 0 <= i < |d.extra| ensures Less(d.extra[i].key, e.key) {
        assert all[i] == d.extra[i] && all[|d.extra|] == e;
      }
      InsertLast(d.extra, e.key, e.value);
      assert d.extra + [e] + es[1..] == all;
      assert PairsOf(es, no)[1..] == PairsOf(es[1..], no + 1);
      DraftExtras(d.(extra := d.extra + [e]), es[1..], no + 1);
    }
  }

  lemma PairsOfFirst(f: Extra, rest: seq<Extra>, no: nat)
    ensures PairsOf([f] + rest, no) == [Pair(no, f.key, f.value)] + PairsOf(rest, no + 1)
  {
    assert ([f] + rest)[1..] == rest;
  }

  /** An optional `kind` or `tag` line, then the rest. */
  lemma OptionalReads(n: GraphNode, key: string, value: Option<string>, rest: seq<Extra>, no: nat)
    requires key in {"kind", "tag"} && (value.Some? ==> IsWord(value.value))
    requires if key == "kind" then n.kind == None else n.tag == None
    ensures NodeFrom(n, PairsOf(OptionalField(key, value) + rest, no))
         == NodeFrom(if key == "kind" then n.(kind := value) else n.(tag := value),
                     PairsOf(rest, if value.Some? then no + 1 else no))
  {
    if value.Some? {
      PairsOfFirst(Extra(key, value.value), rest, no);
      var p := Pair(no, key, value.value);
      assert ([p] + PairsOf(rest, no + 1))[1..] == PairsOf(rest, no + 1);
    } else {
      assert OptionalField(key, value) + rest == rest;
    }
  }

  lemma NodeReads(n: GraphNode, no: nat)
    requires Shaped(Node(n))
    ensures StanzaOfPairs(PairsOf(FieldsOf(Node(n)), no)) == Ok(Placed(Node(n), no))
  {
    var tail := OptionalField("tag", n.tag) + n.extra;
    var start := GraphNode(n.key, None, None, [], no);
    PairsOfFirst(Extra("node", n.key), OptionalField("kind", n.kind) + tail, no);
    OptionalReads(start, "kind", n.kind, tail, no + 1);
    var no' := if n.kind.Some? then no + 2 else no + 1;
    OptionalReads(start.(kind := n.kind), "tag", n.tag, n.extra, no');
    assert [] + n.extra == n.extra;
    NodeExtras(start.(kind := n.kind, tag := n.tag), n.extra, if n.tag.Some? then no' + 1 else no');
    var pairs := PairsOf(FieldsOf(Node(n)), no);
    assert pairs[1..] == PairsOf(OptionalField("kind", n.kind) + tail, no + 1);
  }

  lemma EndsRead(e: GraphEdge, no: nat)
    requires Shaped(Edge(e))
    ensures DraftFrom(Draft(None, None, []), PairsOf([Extra("from", e.from)] + ([Extra("to", e.to)] + e.extra), no))
         == Ok(Draft(Some(e.from), Some(e.to), e.extra))
  {
    var from, to, d := Extra("from", e.from), Extra("to", e.to), Draft(None, None, []);
    PairsOfFirst(from, [to] + e.extra, no);
    PairsOfFirst(to, e.extra, no + 1);
    var d1, d2 := d.(from := Some(e.from)), Draft(Some(e.from), Some(e.to), []);
    var ps := PairsOf([from] + ([to] + e.extra), no);
    assert ps[1..] == PairsOf([to] + e.extra, no + 1) && ps[1..][1..] == PairsOf(e.extra, no + 2);
    assert DraftPair(d, ps[0]) == Ok(d1) && DraftPair(d1, ps[1..][0]) == Ok(d2);
    assert [] + e.extra == e.extra;
    DraftExtras(d2, e.extra, no + 2);
  }

  lemma EdgeReads(e: GraphEdge, no: nat)
    requires Shaped(Edge(e))
    ensures StanzaOfPairs(PairsOf(FieldsOf(Edge(e)), no)) == Ok(Placed(Edge(e), no))
  {
    var rest := [Extra("from", e.from)] + ([Extra("to", e.to)] + e.extra);
    PairsOfFirst(Extra("edge", e.relation), rest, no);
    assert PairsOf(FieldsOf(Edge(e)), no)[1..] == PairsOf(rest, no + 1);
    EndsRead(e, no + 1);
  }

  lemma FieldsOkAppend(a: seq<Extra>, b: seq<Extra>)
    requires FieldsOk(a) && FieldsOk(b)
    ensures FieldsOk(a + b)
  {
    hide FieldOk;
  }

  lemma WordFieldOk(key: string, value: Option<string>)
    requires key in {"node", "edge", "from", "to", "kind", "tag"}
    requires value.Some? ==> IsKey(value.value) || IsWord(value.value)
    ensures FieldsOk(OptionalField(key, value))
  {
    hide IsKey, IsWord;
    if value.Some? { KeyIsPlain(value.value); }
  }

  lemma ExtraFieldsOk(es: seq<Extra>, taken: set<string>)
    requires ExtrasOk(es, taken)
    ensures FieldsOk(es)
  {
    forall i | 0 <= i < |es| ensures FieldOk(es[i]) { assert ExtraOk(es[i], taken); }
  }

  lemma StanzaFieldsOk(s: Stanza)
    requires Shaped(s)
    ensures FieldsOk(FieldsOf(s))
  {
    hide FieldsOk, IsKey, IsWord, ExtrasOk;
    match s
    case Node(n) =>
      WordFieldOk("node", Some(n.key));
      WordFieldOk("kind", n.kind);
      WordFieldOk("tag", n.tag);
      ExtraFieldsOk(n.extra, NODE_TAKEN);
      FieldsOkAppend(OptionalField("tag", n.tag), n.extra);
      FieldsOkAppend(OptionalField("kind", n.kind), OptionalField("tag", n.tag) + n.extra);
      FieldsOkAppend([Extra("node", n.key)], OptionalField("kind", n.kind) + (OptionalField("tag", n.tag) + n.extra));
    case Edge(e) =>
      WordFieldOk("edge", Some(e.relation));
      WordFieldOk("from", Some(e.from));
      WordFieldOk("to", Some(e.to));
      ExtraFieldsOk(e.extra, EDGE_TAKEN);
      FieldsOkAppend([Extra("to", e.to)], e.extra);
      FieldsOkAppend([Extra("from", e.from)], [Extra("to", e.to)] + e.extra);
      FieldsOkAppend([Extra("edge", e.relation)], [Extra("from", e.from)] + ([Extra("to", e.to)] + e.extra));
  }

  lemma StanzaReads(s: Stanza, no: nat)
    requires Shaped(s)
    ensures StanzaOf(TightLines(FieldsOf(s), no)) == Ok(Placed(s, no))
  {
    hide Shaped, StanzaOfPairs, FieldsOf, Placed;
    StanzaFieldsOk(s);
    TightLinesRead([], FieldsOf(s), no);
    assert [] + PairsOf(FieldsOf(s), no) == PairsOf(FieldsOf(s), no);
    if s.Node? { NodeReads(s.node, no); } else { EdgeReads(s.edge, no); }
  }

  // ---- One block ----

  function Numbered(lines: seq<string>, no: nat): seq<Line> {
    if lines == [] then [] else [Line(no, lines[0])] + Numbered(lines[1..], no + 1)
  }

  lemma {:induction false} NumberedAppend(a: seq<string>, b: seq<string>, no: nat)
    ensures Numbered(a + b, no) == Numbered(a, no) + Numbered(b, no + |a|)
  {
    if a == [] {
      assert a + b == b;
    } else {
      assert (a + b)[1..] == a[1..] + b;
      NumberedAppend(a[1..], b, no + 1);
    }
  }

  lemma {:induction false} CutFields(done: seq<seq<Line>>, current: seq<Line>, fs: seq<Extra>, rest: seq<Line>, no: nat)
    requires FieldsOk(fs)
    ensures CutFrom(Cut(done, current), Numbered(FieldLines(fs), no) + rest)
      == CutFrom(Cut(done, current + TightLines(fs, no)), rest)
    decreases |fs|
  {
    hide FieldOk, Trim, Tight;
    if fs == [] {
      assert Numbered(FieldLines(fs), no) + rest == rest;
      assert current + TightLines(fs, no) == current;
    } else {
      var l := Line(no, FieldLine(fs[0]));
      var lines := Numbered(FieldLines(fs), no) + rest;
      FieldLineTrims(fs[0]);
      TightNotBlank(fs[0]);
      assert lines[0] == l && lines[1..] == Numbered(FieldLines(fs[1..]), no + 1) + rest;
      CutFields(done, current + [Line(no, Tight(fs[0]))], fs[1..], rest, no + 1);
      Regroup3(current, [Line(no, Tight(fs[0]))], TightLines(fs[1..], no + 1));
    }
  }

  lemma TightNotBlank(f: Extra)
    ensures Tight(f) != "" && Tight(f) != "```"
  {
    assert Tight(f)[|f.key|] == ':';
  }

  function TightStanzas(ss: seq<Stanza>, no: nat): (r: seq<seq<Line>>)
    ensures |r| == |ss|
  {
    if ss == [] then [] else [TightLines(FieldsOf(ss[0]), no)] + TightStanzas(ss[1..], no + |FieldsOf(ss[0])| + 1)
  }

  ghost predicate AllShaped(ss: seq<Stanza>) {
    forall i :: 0 <= i < |ss| ==> Shaped(ss[i])
  }

  lemma CutBlank(done: seq<seq<Line>>, current: seq<Line>, rest: seq<Line>, no: nat)
    requires current != []
    ensures CutFrom(Cut(done, current), [Line(no, "")] + rest) == CutFrom(Cut(done + [current], []), rest)
  {
    assert ([Line(no, "")] + rest)[1..] == rest;
  }

  lemma {:induction false} CutStanzas(done: seq<seq<Line>>, ss: seq<Stanza>, no: nat)
    requires AllShaped(ss)
    ensures CutFrom(Cut(done, []), Numbered(StanzaLines(ss), no)) == Cut(done + TightStanzas(ss, no), [])
    decreases |ss|
  {
    hide Shaped, FieldsOf, FieldLines, FieldsOk, TightLines, Trim;
    if ss == [] {
      assert done + TightStanzas(ss, no) == done;
    } else {
      hide CutFrom;
      var fs, k := FieldsOf(ss[0]), no + |FieldsOf(ss[0])|;
      var tight := TightLines(fs, no);
      StanzaFieldsOk(ss[0]);
      NumberedAppend(FieldLines(fs), [""] + StanzaLines(ss[1..]), no);
      var rest := Numbered([""] + StanzaLines(ss[1..]), k);
      CutFields(done, [], fs, rest, no);
      assert [] + tight == tight && tight != [];
      assert ([""] + StanzaLines(ss[1..]))[1..] == StanzaLines(ss[1..]);
      assert rest == [Line(k, "")] + Numbered(StanzaLines(ss[1..]), k + 1);
      CutBlank(done, tight, Numbered(StanzaLines(ss[1..]), k + 1), k);
      CutStanzas(done + [tight], ss[1..], k + 1);
      Regroup3(done, [tight], TightStanzas(ss[1..], k + 1));
    }
  }

  lemma {:induction false} StanzasRead(acc: seq<Stanza>, ss: seq<Stanza>, no: nat)
    requires AllShaped(ss)
    ensures StanzasFrom(acc, TightStanzas(ss, no)) == Ok(acc + PlaceAll(ss, no))
    decreases |ss|
  {
    hide Shaped, StanzaOf, FieldsOf, Placed;
    if ss == [] {
      assert acc + PlaceAll(ss, no) == acc;
    } else {
      var no' := no + |FieldsOf(ss[0])| + 1;
      StanzaReads(ss[0], no);
      assert TightStanzas(ss, no)[1..] == TightStanzas(ss[1..], no');
      StanzasRead(acc + [Placed(ss[0], no)], ss[1..], no');
      Regroup3(acc, [Placed(ss[0], no)], PlaceAll(ss[1..], no'));
    }
  }

  lemma BlockReads(ss: seq<Stanza>, start: nat, no: nat)
    requires AllShaped(ss) && ss != []
    ensures BlockOf(Block(start, Numbered(StanzaLines(ss), no))) == Ok(PlaceAll(ss, no))
  {
    hide AllShaped, StanzaLines, Numbered, TightStanzas, StanzasFrom, CutFrom, PlaceAll;
    CutStanzas([], ss, no);
    assert [] + TightStanzas(ss, no) == TightStanzas(ss, no);
    StanzasRead([], ss, no);
    assert [] + PlaceAll(ss, no) == PlaceAll(ss, no);
  }

  // ---- The whole text ----

  ghost predicate Inner(lines: seq<string>) {
    forall i :: 0 <= i < |lines| ==> Trim(lines[i]) != "```"
  }

  lemma {:induction false} ScanInner(closed: seq<Block>, start: nat, seen: seq<Line>, lines: seq<string>,
                                     rest: seq<string>, no: nat)
    requires Inner(lines)
    ensures ScanFrom(Scan(InGraph(start, seen), closed), lines + rest, no)
         == ScanFrom(Scan(InGraph(start, seen + Numbered(lines, no)), closed), rest, no + |lines|)
    decreases |lines|
  {
    hide Trim;
    if lines == [] {
      assert lines + rest == rest && seen + Numbered(lines, no) == seen;
    } else {
      assert (lines + rest)[1..] == lines[1..] + rest;
      ScanInner(closed, start, seen + [Line(no, lines[0])], lines[1..], rest, no + 1);
      Regroup3(seen, [Line(no, lines[0])], Numbered(lines[1..], no + 1));
    }
  }

  lemma {:induction false} FieldLinesInner(fs: seq<Extra>)
    requires FieldsOk(fs)
    ensures Inner(FieldLines(fs)) && forall i :: 0 <= i < |fs| ==> OneLine(FieldLines(fs)[i])
  {
    hide Trim, Tight;
    if fs != [] {
      FieldLineTrims(fs[0]);
      TightNotBlank(fs[0]);
      FieldLinesInner(fs[1..]);
    }
  }

  lemma {:induction false} StanzaLinesInner(ss: seq<Stanza>)
    requires AllShaped(ss)
    ensures Inner(StanzaLines(ss)) && forall i :: 0 <= i < |StanzaLines(ss)| ==> OneLine(StanzaLines(ss)[i])
  {
    hide Shaped, FieldsOf;
    if ss != [] {
      StanzaFieldsOk(ss[0]);
      FieldLinesInner(FieldsOf(ss[0]));
      StanzaLinesInner(ss[1..]);
    }
  }

  ghost predicate Printable(blocks: seq<seq<Stanza>>) {
    forall i :: 0 <= i < |blocks| ==> blocks[i] != [] && AllShaped(blocks[i])
  }

  function ClosedBlocks(blocks: seq<seq<Stanza>>, no: nat): seq<Block> {
    if blocks == [] then []
    else
      [Block(no, Numbered(StanzaLines(blocks[0]), no + 1))]
      + ClosedBlocks(blocks[1..], no + |StanzaLines(blocks[0])| + 2)
  }

  lemma ScanOneBlock(closed: seq<Block>, lines: seq<string>, rest: seq<string>, no: nat)
    requires Inner(lines)
    ensures ScanFrom(Scan(Outside, closed), ["```graph"] + (lines + (["```"] + rest)), no)
         == ScanFrom(Scan(Outside, closed + [Block(no, Numbered(lines, no + 1))]), rest, no + |lines| + 2)
  {
    TrimTrimmed("```graph");
    TrimTrimmed("```");
    hide Trim, Inner;
    var inner := lines + (["```"] + rest);
    assert (["```graph"] + inner)[1..] == inner;
    ScanInner(closed, no, [], lines, ["```"] + rest, no + 1);
    assert [] + Numbered(lines, no + 1) == Numbered(lines, no + 1);
    assert (["```"] + rest)[1..] == rest;
  }

  lemma {:induction false} ScanBlocks(closed: seq<Block>, blocks: seq<seq<Stanza>>, no: nat)
    requires Printable(blocks)
    ensures ScanFrom(Scan(Outside, closed), BlockLines(blocks), no) == Scan(Outside, closed + ClosedBlocks(blocks, no))
    decreases |blocks|
  {
    hide AllShaped, Inner, StanzaLines, Numbered;
    if blocks == [] {
      assert closed + ClosedBlocks(blocks, no) == closed;
    } else {
      hide ScanFrom;
      var lines := StanzaLines(blocks[0]);
      var b := Block(no, Numbered(lines, no + 1));
      StanzaLinesInner(blocks[0]);
      ScanOneBlock(closed, lines, BlockLines(blocks[1..]), no);
      ScanBlocks(closed + [b], blocks[1..], no + |lines| + 2);
      Regroup3(closed, [b], ClosedBlocks(blocks[1..], no + |lines| + 2));
    }
  }

  lemma {:induction false} ClosedBlocksRead(blocks: seq<seq<Stanza>>, no: nat)
    requires Printable(blocks)
    ensures Accepted(ClosedBlocks(blocks, no)) == PlaceBlocks(blocks, no)
    ensures Refusals(ClosedBlocks(blocks, no)) == [] && |ClosedBlocks(blocks, no)| == |blocks|
    decreases |blocks|
  {
    hide AllShaped, BlockOf;
    if blocks != [] {
      BlockReads(blocks[0], no, no + 1);
      var no' := no + |StanzaLines(blocks[0])| + 2;
      ClosedBlocksRead(blocks[1..], no');
      assert ClosedBlocks(blocks, no)[1..] == ClosedBlocks(blocks[1..], no');
    }
  }

  lemma {:induction false} BlockLinesOneLine(blocks: seq<seq<Stanza>>)
    requires Printable(blocks)
    ensures forall i :: 0 <= i < |BlockLines(blocks)| ==> OneLine(BlockLines(blocks)[i])
  {
    hide AllShaped, StanzaLines, Inner;
    if blocks != [] {
      StanzaLinesInner(blocks[0]);
      BlockLinesOneLine(blocks[1..]);
    }
  }

  /** Main result: printing any list of non-empty blocks of shaped declarations and parsing the text
      gives back the same declarations in order, each at the line it stands on, and refuses nothing. */
  lemma ParseUndoesPrint(blocks: seq<seq<Stanza>>)
    requires Printable(blocks)
    ensures var back := PlaceBlocks(blocks, 1);
      && Parse(Print(blocks)) == Report(|blocks|, NodesOf(back), EdgesOf(back), [])
      && Unplaced(back) == Unplaced(Flat(blocks))
  {
    hide Printable, BlockLines, ScanFrom, ClosedBlocks, NodesOf, EdgesOf, PlaceBlocks, Unplaced, Flat, Lines,
      Terminated, ReportOf, Accepted, Refusals, OneLine;
    BlockLinesOneLine(blocks);
    LinesTerminated(BlockLines(blocks));
    ScanBlocks([], blocks, 1);
    assert [] + ClosedBlocks(blocks, 1) == ClosedBlocks(blocks, 1);
    ReportIs(ClosedBlocks(blocks, 1));
    ClosedBlocksRead(blocks, 1);
    PlaceBlocksUnplaced(blocks, 1);
  }

  /** Main result: on any text, printing what was parsed and parsing again gives the same
      declarations. */
  lemma ReprintIsStable(markdown: string)
    requires Accepted(Blocks(markdown)) != []
    ensures var found := Accepted(Blocks(markdown));
      exists back :: Unplaced(back) == Unplaced(found)
        && Parse(Print([found])) == Report(1, NodesOf(back), EdgesOf(back), [])
  {
    var found := Accepted(Blocks(markdown));
    ParsedIsShaped(markdown);
    assert Printable([found]);
    ParseUndoesPrint([found]);
    assert [found][1..] == [];
    assert Flat([found]) == found + Flat([]) == found;
    var back := PlaceBlocks([found], 1);
    assert Unplaced(back) == Unplaced(found);
  }
}
