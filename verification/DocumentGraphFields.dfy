/** What one stanza of a graph block means, field by field: when it is a declaration, which of its lines
    count, and which line a refusal names. */
module DocumentGraphFields {
  import opened Json
  import opened Seqs
  import opened Strings
  import opened Shapes
  import opened DocumentGraph

  // ---- Repeated fields ----

  /** The value of the last pair with the key, or what was there before. */
  function LastValue(pairs: seq<Pair>, key: string, before: Option<string>): Option<string>
    decreases |pairs|
  {
    if pairs == [] then before
    else LastValue(pairs[1..], key, if pairs[0].key == key then Some(pairs[0].value) else before)
  }

  /** The value under an extra's key. */
  function ExtraValue(es: seq<Extra>, key: string): Option<string> {
    if es == [] then None else if es[0].key == key then Some(es[0].value) else ExtraValue(es[1..], key)
  }

  lemma {:induction false} InsertValue(es: seq<Extra>, key: string, value: string, k: string)
    ensures ExtraValue(InsertExtra(es, key, value), k) == if k == key then Some(value) else ExtraValue(es, k)
  {
    if es != [] && es[0].key != key {
      InsertValue(es[1..], key, value, k);
      assert ([Extra(key, value)] + es)[1..] == es;
      assert ([es[0]] + InsertExtra(es[1..], key, value))[1..] == InsertExtra(es[1..], key, value);
    } else if es != [] {
      assert ([Extra(key, value)] + es[1..])[1..] == es[1..];
    }
  }

  // ---- A node's fields ----

  /** A line a node stanza may hold after its first. */
  predicate NodeLine(p: Pair) {
    if p.key == "kind" || p.key == "tag" then IsWord(p.value) else !IsReserved(p.key, NODE_RESERVED)
  }

  /** The first line that may not be there. */
  predicate FirstBad(pairs: seq<Pair>, ok: Pair -> bool, i: nat) {
    i < |pairs| && !ok(pairs[i]) && forall j :: 0 <= j < i ==> ok(pairs[j])
  }

  lemma NodePairIs(node: GraphNode, p: Pair)
    ensures match NodePair(node, p)
      case Ok(n) =>
        && NodeLine(p) && n.key == node.key && n.line == node.line
        && n.kind == (if p.key == "kind" then Some(p.value) else node.kind)
        && n.tag == (if p.key == "tag" then Some(p.value) else node.tag)
        && forall k :: k != "kind" && k != "tag" ==>
             ExtraValue(n.extra, k) == if p.key == k then Some(p.value) else ExtraValue(node.extra, k)
      case Refused(r) => !NodeLine(p) && r.line == p.no
  {
    hide IsWord, IsReserved;
    if NodePair(node, p).Ok? && p.key != "kind" && p.key != "tag" {
      forall k ensures ExtraValue(InsertExtra(node.extra, p.key, p.value), k)
        == if k == p.key then Some(p.value) else ExtraValue(node.extra, k)
      {
        InsertValue(node.extra, p.key, p.value, k);
      }
    }
  }

  /** The node a stanza's later lines make of its first: of each field the last line counts. */
  ghost predicate NodeReads(n: GraphNode, node: GraphNode, pairs: seq<Pair>) {
    && n.key == node.key && n.line == node.line
    && n.kind == LastValue(pairs, "kind", node.kind) && n.tag == LastValue(pairs, "tag", node.tag)
    && forall k :: k != "kind" && k != "tag" ==>
         ExtraValue(n.extra, k) == LastValue(pairs, k, ExtraValue(node.extra, k))
  }

  lemma {:induction false} NodeFromIs(node: GraphNode, pairs: seq<Pair>)
    ensures match NodeFrom(node, pairs)
      case Ok(n) => (forall i :: 0 <= i < |pairs| ==> NodeLine(pairs[i])) && NodeReads(n, node, pairs)
      case Refused(r) => exists i: nat :: FirstBad(pairs, NodeLine, i) && r.line == pairs[i].no
    decreases |pairs|
  {
    hide NodePair, NodeLine;
    if pairs != [] {
      NodePairIs(node, pairs[0]);
      if NodePair(node, pairs[0]).Ok? {
        var next := NodePair(node, pairs[0]).value;
        NodeFromIs(next, pairs[1..]);
        assert pairs == [pairs[0]] + pairs[1..];
        if NodeFrom(node, pairs).Refused? {
          var i: nat :| FirstBad(pairs[1..], NodeLine, i)
            && NodeFrom(next, pairs[1..]).refusal.line == pairs[1..][i].no;
          LaterBad(pairs, NodeLine, i);
        }
      } else {
        assert FirstBad(pairs, NodeLine, 0);
      }
    }
  }

  lemma LaterBad(pairs: seq<Pair>, ok: Pair -> bool, i: nat)
    requires pairs != [] && ok(pairs[0]) && FirstBad(pairs[1..], ok, i)
    ensures FirstBad(pairs, ok, i + 1) && pairs[i + 1] == pairs[1..][i]
  {
    forall j | 0 <= j < i + 1 ensures ok(pairs[j]) {
      if j > 0 { assert pairs[j] == pairs[1..][j - 1]; }
    }
  }

  /** Main result: a node stanza declares its node exactly when its key is one token and every later line
      is a kind or tag of one word or an extra that is not reserved; of a repeated field the last line
      counts; and a refusal names the line of the first that may not be there. */
  lemma NodeStanzaIs(first: Pair, rest: seq<Pair>)
    ensures NodeOf(first, rest).Ok? <==> IsKey(first.value) && forall i :: 0 <= i < |rest| ==> NodeLine(rest[i])
    ensures NodeOf(first, rest).Ok? ==>
      && NodeOf(first, rest).value.Node?
      && NodeReads(NodeOf(first, rest).value.node, GraphNode(first.value, None, None, [], first.no), rest)
    ensures NodeOf(first, rest).Refused? ==>
      var no := NodeOf(first, rest).refusal.line;
      if IsKey(first.value) then exists i: nat :: FirstBad(rest, NodeLine, i) && no == rest[i].no else no == first.no
  {
    hide IsKey, NodeLine;
    NodeFromIs(GraphNode(first.value, None, None, [], first.no), rest);
  }

  // ---- An edge's fields ----

  /** A line an edge stanza may hold after its first, but for an end given twice. */
  predicate EdgeLine(p: Pair) {
    if p.key == "from" || p.key == "to" then IsKey(p.value) else !IsReserved(p.key, EDGE_RESERVED)
  }

  /** How many of the pairs have the key. */
  function CountKey(pairs: seq<Pair>, key: string): nat
    decreases |pairs|
  {
    if pairs == [] then 0 else (if pairs[0].key == key then 1 else 0) + CountKey(pairs[1..], key)
  }

  function Given(end: Option<string>): nat {
    if end.Some? then 1 else 0
  }

  lemma DraftPairIs(d: Draft, p: Pair)
    ensures match DraftPair(d, p)
      case Ok(e) =>
        && EdgeLine(p) && (p.key == "from" ==> d.from.None?) && (p.key == "to" ==> d.to.None?)
        && e.from == (if p.key == "from" then Some(p.value) else d.from)
        && e.to == (if p.key == "to" then Some(p.value) else d.to)
        && forall k :: k != "from" && k != "to" ==>
             ExtraValue(e.extra, k) == if p.key == k then Some(p.value) else ExtraValue(d.extra, k)
      case Refused(r) =>
        r.line == p.no && (!EdgeLine(p) || (p.key == "from" && d.from.Some?) || (p.key == "to" && d.to.Some?))
  {
    hide IsKey, IsReserved;
    if DraftPair(d, p).Ok? && p.key != "from" && p.key != "to" {
      forall k ensures ExtraValue(InsertExtra(d.extra, p.key, p.value), k)
        == if k == p.key then Some(p.value) else ExtraValue(d.extra, k)
      {
        InsertValue(d.extra, p.key, p.value, k);
      }
    }
  }

  /** The draft a stanza's later lines make. */
  ghost predicate DraftReads(e: Draft, d: Draft, pairs: seq<Pair>) {
    && e.from == LastValue(pairs, "from", d.from) && e.to == LastValue(pairs, "to", d.to)
    && forall k :: k != "from" && k != "to" ==> ExtraValue(e.extra, k) == LastValue(pairs, k, ExtraValue(d.extra, k))
  }

  /** No line that may not be there, and no end given twice. */
  ghost predicate EdgeLinesOk(d: Draft, pairs: seq<Pair>) {
    && (forall i :: 0 <= i < |pairs| ==> EdgeLine(pairs[i]))
    && Given(d.from) + CountKey(pairs, "from") <= 1 && Given(d.to) + CountKey(pairs, "to") <= 1
  }

  lemma {:induction false} DraftFromIs(d: Draft, pairs: seq<Pair>)
    ensures match DraftFrom(d, pairs)
      case Ok(e) => EdgeLinesOk(d, pairs) && DraftReads(e, d, pairs)
        && Given(e.from) == Given(d.from) + CountKey(pairs, "from")
        && Given(e.to) == Given(d.to) + CountKey(pairs, "to")
      case Refused(r) => !EdgeLinesOk(d, pairs) && exists i :: 0 <= i < |pairs| && r.line == pairs[i].no
    decreases |pairs|
  {
    hide DraftPair, EdgeLine;
    if pairs != [] {
      DraftPairIs(d, pairs[0]);
      assert pairs == [pairs[0]] + pairs[1..];
      if DraftPair(d, pairs[0]).Ok? {
        DraftFromIs(DraftPair(d, pairs[0]).value, pairs[1..]);
        assert forall i :: 1 <= i < |pairs| ==> pairs[i] == pairs[1..][i - 1];
        if DraftFrom(d, pairs).Refused? {
          var i :| 0 <= i < |pairs[1..]| && DraftFrom(d, pairs).refusal.line == pairs[1..][i].no;
          assert pairs[i + 1] == pairs[1..][i];
        }
      }
    }
  }

  /** The edge a stanza's lines make: its ends, and of each extra the last line. */
  ghost predicate EdgeReads(e: GraphEdge, first: Pair, rest: seq<Pair>) {
    && e.relation == first.value && e.line == first.no
    && LastValue(rest, "from", None) == Some(e.from) && LastValue(rest, "to", None) == Some(e.to)
    && forall k :: k != "from" && k != "to" ==> ExtraValue(e.extra, k) == LastValue(rest, k, None)
  }

  /** Main result: an edge stanza declares its edge exactly when its relation has the shape of one, every
      later line is an end that is one token or an extra that is not reserved, and each end is given
      exactly once; of a repeated extra the last line counts; and a refusal names a line of the stanza. */
  lemma EdgeStanzaIs(first: Pair, rest: seq<Pair>)
    ensures EdgeOf(first, rest).Ok? <==>
      && IsRelation(first.value) && (forall i :: 0 <= i < |rest| ==> EdgeLine(rest[i]))
      && CountKey(rest, "from") == 1 && CountKey(rest, "to") == 1
    ensures EdgeOf(first, rest).Ok? ==>
      && EdgeOf(first, rest).value.Edge?
      && EdgeReads(EdgeOf(first, rest).value.edge, first, rest)
    ensures EdgeOf(first, rest).Refused? ==>
      var no := EdgeOf(first, rest).refusal.line; no == first.no || exists i :: 0 <= i < |rest| && no == rest[i].no
  {
    hide IsRelation, EdgeLine, LastValue;
    DraftFromIs(Draft(None, None, []), rest);
  }

  // ---- Lines ----

  /** A line and how it ends. */
  function EndedWith(line: string, crlf: bool): string {
    line + if crlf then "\r\n" else "\n"
  }

  function TextOf(lines: seq<string>, crlfs: seq<bool>): string
    requires |lines| == |crlfs|
  {
    if lines == [] then "" else EndedWith(lines[0], crlfs[0]) + TextOf(lines[1..], crlfs[1..])
  }

  lemma LinesFirst(body: string, rest: string)
    requires '\n' !in body
    ensures Lines(body + ['\n'] + rest) == [WithoutCr(body)] + Lines(rest)
  {
    var s := body + ['\n'] + rest;
    FindAfter(body, '\n', rest);
    assert s[..|body|] == body && s[|body| + 1..] == rest;
  }

  lemma BodyOf(line: string, crlf: bool) returns (body: string)
    requires OneLine(line)
    ensures EndedWith(line, crlf) == body + ['\n'] && '\n' !in body && WithoutCr(body) == line
  {
    body := if crlf then line + "\r" else line;
    assert crlf ==> body[..|body| - 1] == line && "\r\n" == ['\r'] + ['\n'];
  }

  /** Main result: the lines of a text are what stands before its line ends, of either kind, and after the
      last of them if anything does. */
  lemma {:induction false} LinesOfText(lines: seq<string>, crlfs: seq<bool>, last: string)
    requires |lines| == |crlfs| && (forall i :: 0 <= i < |lines| ==> OneLine(lines[i])) && '\n' !in last
    ensures Lines(TextOf(lines, crlfs) + last) == lines + if last == "" then [] else [last]
    decreases |lines|
  {
    if lines == [] {
      assert "" + last == last;
    } else {
      hide Lines, WithoutCr, EndedWith, OneLine;
      var body := BodyOf(lines[0], crlfs[0]);
      var tail := TextOf(lines[1..], crlfs[1..]);
      LinesFirst(body, tail + last);
      LinesOfText(lines[1..], crlfs[1..], last);
      assert TextOf(lines, crlfs) == body + ['\n'] + tail;
      hide TextOf;
      Regroup3(body + ['\n'], tail, last);
      var rest := if last == "" then [] else [last];
      assert lines == [lines[0]] + lines[1..];
      Regroup3([lines[0]], lines[1..], rest);
    }
  }
}
