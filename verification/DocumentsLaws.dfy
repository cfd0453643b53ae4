/** What `write_declared` promises of the store: every edge finds its endpoints, rows of the code
    ingest are untouched, the first declaration wins, and a second run changes nothing. */
module DocumentsLaws {
  import opened Json
  import opened Store
  import opened StoreLaws
  import opened DocumentGraph
  import opened DocumentGraphLaws
  import opened Documents

  // ---- Declarations as the parser yields them ----

  ghost predicate WellDeclared(declared: seq<Declared>) {
    && (forall i :: 0 <= i < |AllNodes(declared)| ==> Shaped(Node(AllNodes(declared)[i].node)))
    && (forall i :: 0 <= i < |AllEdges(declared)| ==> Shaped(Edge(AllEdges(declared)[i].edge)))
  }

  datatype Source = Source(docKey: string, markdown: string)

  function ParseAll(sources: seq<Source>): seq<Declared> {
    if sources == [] then []
    else
      var s := sources[|sources| - 1];
      ParseAll(sources[..|sources| - 1]) + [Declared(s.docKey, Parse(s.markdown).nodes, Parse(s.markdown).edges)]
  }

  lemma {:induction false} FilteredShaped(ss: seq<Stanza>)
    requires forall i :: 0 <= i < |ss| ==> Shaped(ss[i])
    ensures forall i :: 0 <= i < |NodesOf(ss)| ==> Shaped(Node(NodesOf(ss)[i]))
    ensures forall i :: 0 <= i < |EdgesOf(ss)| ==> Shaped(Edge(EdgesOf(ss)[i]))
  {
    hide Shaped;
    if ss != [] {
      FilteredShaped(ss[..|ss| - 1]);
    }
  }

  /** Whatever the corpus says, what reaches the writer is well declared. */
  lemma {:induction false} ParsedIsWellDeclared(sources: seq<Source>)
    ensures WellDeclared(ParseAll(sources))
  {
    hide Shaped, Parse, Accepted, Blocks, NodesOf, EdgesOf;
    if sources != [] {
      hide WellDeclared;
      var init, s := ParseAll(sources[..|sources| - 1]), sources[|sources| - 1];
      ParsedIsWellDeclared(sources[..|sources| - 1]);
      EveryBlockAnswersOnce(s.markdown);
      ParsedIsShaped(s.markdown);
      FilteredShaped(Accepted(Blocks(s.markdown)));
      AppendWellDeclared(init, Declared(s.docKey, Parse(s.markdown).nodes, Parse(s.markdown).edges));
    }
  }

  lemma AppendWellDeclared(declared: seq<Declared>, d: Declared)
    requires WellDeclared(declared)
    requires forall i :: 0 <= i < |d.nodes| ==> Shaped(Node(d.nodes[i]))
    requires forall i :: 0 <= i < |d.edges| ==> Shaped(Edge(d.edges[i]))
    ensures WellDeclared(declared + [d])
  {
    hide Shaped;
    assert (declared + [d])[..|declared|] == declared;
    assert AllNodes(declared + [d]) == AllNodes(declared) + NodesIn(d);
    assert AllEdges(declared + [d]) == AllEdges(declared) + EdgesIn(d);
  }

  // ---- What a batch of node documents leaves alone ----

  function KeyOf(doc: Value): Key {
    match GetStr(doc, "_key") case Some(k) => k case None => ""
  }

  function KeysUpTo(docs: seq<Value>, n: nat): set<Key>
    requires n <= |docs|
  {
    if n == 0 then {} else KeysUpTo(docs, n - 1) + {KeyOf(docs[n - 1])}
  }

  ghost predicate Keyed(docs: seq<Value>) {
    forall i :: 0 <= i < |docs| ==> GetStr(docs[i], "_key").Some?
  }

  /** Nodes may appear or change under `keys` alone, ids are kept, and nothing else moves. */
  ghost predicate Frame(t: Tables, u: Tables, keys: set<Key>) {
    && u.nodes.Keys == t.nodes.Keys + keys
    && (forall k :: k in t.nodes ==> u.nodes[k].id == t.nodes[k].id)
    && (forall k :: k in t.nodes && k !in keys ==>
        u.nodes[k] == t.nodes[k] && LogOf(u, t.nodes[k].id) == LogOf(t, t.nodes[k].id))
    && u.edges == t.edges && u.chunks == t.chunks && u.vectors == t.vectors && u.nextChunk == t.nextChunk
  }

  lemma FrameTransitive(t: Tables, u: Tables, v: Tables, a: set<Key>, b: set<Key>)
    requires Frame(t, u, a) && Frame(u, v, b)
    ensures Frame(t, v, a + b)
  {
    hide LogOf;
  }

  lemma OverwrittenFrame(t: Tables, key: Key, payload: Jsonb, now: nat)
    requires Consistent(t) && key in t.nodes
    ensures Frame(t, Overwritten(t, key, "document", payload, now), {key})
  {
    hide Overwritten, LogOf, RowOk;
    OverwrittenLogs(t, key, "document", payload, now);
  }

  lemma NewRowFrame(t: Tables, key: Key, payload: Jsonb, now: nat)
    requires Consistent(t) && key !in t.nodes
    ensures Frame(t, NewRow(t, key, "document", payload, now), {key})
  {
    forall k | k in t.nodes ensures t.nodes[k].id != t.nextNode { RowLog(t, k); }
    hide Consistent;
  }

  lemma UpsertFrame(t: Tables, key: Key, payload: Jsonb, overwrite: bool, now: nat)
    requires Consistent(t)
    ensures Frame(t, Upsert(t, key, "document", payload, overwrite, now).tables, {key})
  {
    if key !in t.nodes {
      NewRowFrame(t, key, payload, now);
    } else {
      OverwrittenFrame(t, key, payload, now);
      assert t.nodes.Keys == t.nodes.Keys + {key};
    }
    hide Overwritten, NewRow, Consistent;
  }

  /** Every document that names an existing key names a document. */
  ghost predicate OnlyDocuments(t: Tables, docs: seq<Value>) {
    forall i :: 0 <= i < |docs| && KeyOf(docs[i]) in t.nodes ==> t.nodes[KeyOf(docs[i])].kind == "document"
  }

  ghost predicate AreDocuments(t: Tables, keys: set<Key>) {
    forall k :: k in keys && k in t.nodes ==> t.nodes[k].kind == "document"
  }

  lemma DocumentWriteIs(t: Tables, doc: Value, overwrite: bool, now: nat)
    requires GetStr(doc, "_key").Some?
    ensures DocWrite(t, Metadata("document"), doc, overwrite, now)
      == Upsert(t, KeyOf(doc), "document", PayloadOf(doc), overwrite, now)
  {
  }

  lemma FrameSelf(t: Tables)
    ensures Frame(t, t, {}) && AreDocuments(t, {})
  {
  }

  lemma {:induction false} FoldFrame(t: Tables, docs: seq<Value>, overwrite: bool, now: nat, n: nat)
    requires Consistent(t) && Keyed(docs) && n <= |docs| && OnlyDocuments(t, docs)
    ensures var f := Fold(t, Metadata("document"), Submitted(docs), overwrite, now, n);
      f.Folded? && Frame(t, f.tables, KeysUpTo(docs, n)) && AreDocuments(f.tables, KeysUpTo(docs, n))
    decreases n
  {
    hide Consistent, DocWrite, KeyOf, Frame, AreDocuments, Upsert;
    if n == 0 {
      FrameSelf(t);
    } else {
      assert KeyOf(docs[n - 1]) in t.nodes ==> t.nodes[KeyOf(docs[n - 1])].kind == "document";
      hide OnlyDocuments;
      FoldFrame(t, docs, overwrite, now, n - 1);
      FoldConsistent(t, Metadata("document"), Submitted(docs), overwrite, now, n - 1);
      var u := Fold(t, Metadata("document"), Submitted(docs), overwrite, now, n - 1).tables;
      FrameStep(t, u, docs, overwrite, now, n);
    }
  }

  lemma FrameStep(t: Tables, u: Tables, docs: seq<Value>, overwrite: bool, now: nat, n: nat)
    requires 0 < n <= |docs| && GetStr(docs[n - 1], "_key").Some? && Consistent(u)
    requires KeyOf(docs[n - 1]) in t.nodes ==> t.nodes[KeyOf(docs[n - 1])].kind == "document"
    requires Frame(t, u, KeysUpTo(docs, n - 1)) && AreDocuments(u, KeysUpTo(docs, n - 1))
    ensures var v := DocWrite(u, Metadata("document"), docs[n - 1], overwrite, now).tables;
      Frame(t, v, KeysUpTo(docs, n)) && AreDocuments(v, KeysUpTo(docs, n))
  {
    hide Consistent, DocWrite, KeyOf, Frame, AreDocuments, Upsert, PayloadOf, GetStr;
    var key, payload := KeyOf(docs[n - 1]), PayloadOf(docs[n - 1]);
    DocumentWriteIs(u, docs[n - 1], overwrite, now);
    UpsertFrame(u, key, payload, overwrite, now);
    StillADocument(t, u, KeysUpTo(docs, n - 1), key, payload, overwrite, now);
    FrameTransitive(t, u, Upsert(u, key, "document", payload, overwrite, now).tables, KeysUpTo(docs, n - 1), {key});
  }

  lemma StillADocument(t: Tables, u: Tables, keys: set<Key>, key: Key, payload: Jsonb, overwrite: bool, now: nat)
    requires Frame(t, u, keys) && AreDocuments(u, keys) && (key in t.nodes ==> t.nodes[key].kind == "document")
    ensures AreDocuments(Upsert(u, key, "document", payload, overwrite, now).tables, keys + {key})
  {
  }

  /** A committed batch of node documents. */
  lemma NodeBatchFrame(t: Tables, docs: seq<Value>, overwrite: bool, now: nat)
    requires Consistent(t) && Keyed(docs) && OnlyDocuments(t, docs)
    ensures var u := BatchTables(t, Batch("documents", Submitted(docs), overwrite, now));
      Consistent(u) && Frame(t, u, KeysUpTo(docs, |docs|)) && AreDocuments(u, KeysUpTo(docs, |docs|))
  {
    FoldFrame(t, docs, overwrite, now, |docs|);
    FoldConsistent(t, Metadata("document"), Submitted(docs), overwrite, now, |docs|);
  }

  // ---- The first two passes ----

  function DeclaredKeys(ds: seq<NodeDecl>): set<Key> {
    if ds == [] then {} else DeclaredKeys(ds[..|ds| - 1]) + {ds[|ds| - 1].node.key}
  }

  function EndKeys(ds: seq<EdgeDecl>): set<Key> {
    if ds == [] then {} else EndKeys(ds[..|ds| - 1]) + {ds[|ds| - 1].edge.from, ds[|ds| - 1].edge.to}
  }

  lemma {:induction false} PutExtrasKeep(fields: seq<Field>, extra: seq<Extra>, key: string)
    requires forall i :: 0 <= i < |extra| ==> extra[i].key != key
    ensures Get(Object(PutExtras(fields, extra)), key) == Get(Object(fields), key)
    decreases |extra|
  {
    if extra != [] {
      PutKeeps(fields, extra[0].key, String(extra[0].value), key);
      PutExtrasKeep(Put(fields, extra[0].key, String(extra[0].value)), extra[1..], key);
    }
  }

  lemma PutKeeps(fields: seq<Field>, key: string, value: Value, other: string)
    requires key != other
    ensures Get(Object(Put(fields, key, value)), other) == Get(Object(fields), other)
  {
    var after := Put(fields, key, value);
    SameFirst(fields, after, other);
  }

  /** Two member lists that agree on a key's positions agree on its first value. */
  lemma {:induction false} SameFirst(a: seq<Field>, b: seq<Field>, key: string)
    requires |a| <= |b|
    requires forall i :: 0 <= i < |a| ==> a[i] == b[i] || (a[i].key != key && b[i].key != key)
    requires forall i :: |a| <= i < |b| ==> b[i].key != key
    ensures Get(Object(a), key) == Get(Object(b), key)
  {
    var i, j := IndexOf(a, key), IndexOf(b, key);
    if i < |a| {
      FirstIs(a, key, i);
      FirstIs(b, key, i);
    }
  }

  lemma NodeDocKeyed(d: NodeDecl)
    requires Shaped(Node(d.node))
    ensures GetStr(NodeDoc(d), "_key") == Some(d.node.key)
  {
    var extra := d.node.extra;
    forall i | 0 <= i < |extra| ensures extra[i].key != "_key" { assert ExtraOk(extra[i], NODE_TAKEN); }
    var fields := [Field("_key", String(d.node.key)), Field("declared_kind", OptionalString(d.node.kind)),
                   Field("tag", OptionalString(d.node.tag)), Field("declared_in", String(d.docKey)),
                   Field("declared_at_line", Num(Integer(d.node.line)))];
    PutExtrasKeep(fields, extra, "_key");
  }

  ghost predicate DistinctDocKeys(docs: seq<Value>) {
    forall i, j :: 0 <= i < j < |docs| ==> KeyOf(docs[i]) != KeyOf(docs[j])
  }

  lemma {:induction false} KeyUpTo(docs: seq<Value>, n: nat, i: nat)
    requires i < n <= |docs|
    ensures KeyOf(docs[i]) in KeysUpTo(docs, n)
  {
    if i < n - 1 {
      KeyUpTo(docs, n - 1, i);
    }
  }

  lemma {:induction false} KeysUpToAppend(docs: seq<Value>, doc: Value, n: nat)
    requires n <= |docs|
    ensures KeysUpTo(docs + [doc], n) == KeysUpTo(docs, n)
  {
    if n > 0 {
      KeysUpToAppend(docs, doc, n - 1);
    }
  }

  /** A document under a new key. */
  lemma AppendKeyed(docs: seq<Value>, doc: Value, key: Key)
    requires Keyed(docs) && DistinctDocKeys(docs) && GetStr(doc, "_key") == Some(key) && key !in KeysUpTo(docs, |docs|)
    ensures Keyed(docs + [doc]) && DistinctDocKeys(docs + [doc])
    ensures KeysUpTo(docs + [doc], |docs| + 1) == KeysUpTo(docs, |docs|) + {key}
  {
    KeysUpToAppend(docs, doc, |docs|);
    forall i | 0 <= i < |docs| ensures KeyOf(docs[i]) != key { KeyUpTo(docs, |docs|, i); }
  }

  ghost predicate NodePassOk(t: Tables, ds: seq<NodeDecl>, p: NodePass) {
    && p.keys == DeclaredKeys(ds)
    && Keyed(p.docs) && DistinctDocKeys(p.docs)
    && KeysUpTo(p.docs, |p.docs|) == (set k | k in p.keys && !Fuses(t, k))
    && |ds| == p.duplicates + p.fused + |p.docs|
  }

  lemma AddNodeOk(t: Tables, init: seq<NodeDecl>, p: NodePass, ds: seq<NodeDecl>)
    requires ds != [] && init == ds[..|ds| - 1] && Shaped(Node(ds[|ds| - 1].node)) && NodePassOk(t, init, p)
    ensures NodePassOk(t, ds, AddNode(t, p, ds[|ds| - 1]))
  {
    hide Shaped, KeyOf, NodeDoc, Fuses, Keyed, DistinctDocKeys;
    var d := ds[|ds| - 1];
    if d.node.key !in p.keys && !Fuses(t, d.node.key) {
      NodeDocKeyed(d);
      AppendKeyed(p.docs, NodeDoc(d), d.node.key);
    }
  }

  /** First declaration wins: one document a key, none for a code node, and every declaration
      accounted for. */
  lemma {:induction false} PassNodesIs(t: Tables, ds: seq<NodeDecl>)
    requires forall i :: 0 <= i < |ds| ==> Shaped(Node(ds[i].node))
    ensures NodePassOk(t, ds, PassNodes(t, ds))
  {
    hide Shaped, AddNode, Fuses;
    if ds != [] {
      hide NodePassOk;
      PassNodesIs(t, ds[..|ds| - 1]);
      AddNodeOk(t, ds[..|ds| - 1], PassNodes(t, ds[..|ds| - 1]), ds);
    }
  }

  ghost predicate NamePassOk(t: Tables, declaredKeys: set<Key>, ends: set<Key>, p: NamePass) {
    && p.seen == ends - declaredKeys
    && Keyed(p.docs) && DistinctDocKeys(p.docs)
    && KeysUpTo(p.docs, |p.docs|) == p.seen - t.nodes.Keys
  }

  lemma AddNameOk(t: Tables, declaredKeys: set<Key>, ends: set<Key>, p: NamePass, docKey: string, endpoint: Key)
    requires NamePassOk(t, declaredKeys, ends, p)
    ensures NamePassOk(t, declaredKeys, ends + {endpoint}, AddName(t, declaredKeys, p, docKey, endpoint))
  {
    hide KeyOf, PlaceholderDoc, DistinctDocKeys, Keyed;
    if endpoint !in declaredKeys && endpoint !in p.seen && endpoint !in t.nodes {
      PlaceholderKeyed(docKey, endpoint);
      AppendKeyed(p.docs, PlaceholderDoc(docKey, endpoint), endpoint);
    }
  }

  lemma PlaceholderKeyed(docKey: string, endpoint: Key)
    ensures GetStr(PlaceholderDoc(docKey, endpoint), "_key") == Some(endpoint)
  {
  }

  lemma {:induction false} PassEndsIs(t: Tables, declaredKeys: set<Key>, ds: seq<EdgeDecl>)
    ensures NamePassOk(t, declaredKeys, EndKeys(ds), PassEnds(t, declaredKeys, ds))
  {
    hide KeyOf, PlaceholderDoc, AddName;
    if ds != [] {
      var init, d := ds[..|ds| - 1], ds[|ds| - 1];
      PassEndsIs(t, declaredKeys, init);
      var p := PassEnds(t, declaredKeys, init);
      AddNameOk(t, declaredKeys, EndKeys(init), p, d.docKey, d.edge.from);
      AddNameOk(t, declaredKeys, EndKeys(init) + {d.edge.from},
                AddName(t, declaredKeys, p, d.docKey, d.edge.from), d.docKey, d.edge.to);
      assert EndKeys(init) + {d.edge.from} + {d.edge.to} == EndKeys(ds);
    }
  }

  // ---- Nodes and placeholders ----

  /** The keys under which the run may write a node. */
  ghost function Writable(t: Tables, declared: seq<Declared>): set<Key> {
    (set k | k in DeclaredKeys(AllNodes(declared)) && !Fuses(t, k))
    + (EndKeys(AllEdges(declared)) - DeclaredKeys(AllNodes(declared)) - t.nodes.Keys)
  }

  lemma OnlyDocumentsIn(t: Tables, docs: seq<Value>)
    requires forall k :: k in KeysUpTo(docs, |docs|) && k in t.nodes ==> t.nodes[k].kind == "document"
    ensures OnlyDocuments(t, docs)
  {
    forall i | 0 <= i < |docs| && KeyOf(docs[i]) in t.nodes ensures t.nodes[KeyOf(docs[i])].kind == "document" {
      KeyUpTo(docs, |docs|, i);
    }
  }

  lemma AfterNodesFrame(t: Tables, declared: seq<Declared>, overwrite: bool, at: Times)
    requires Consistent(t) && WellDeclared(declared)
    ensures var (u, keys) :=
      (AfterNodes(t, declared, overwrite, at), set k | k in DeclaredKeys(AllNodes(declared)) && !Fuses(t, k));
      Consistent(u) && Frame(t, u, keys) && AreDocuments(u, keys)
  {
    PassNodesIs(t, AllNodes(declared));
    hide BatchTables, Consistent, Frame, PassNodes, KeyOf;
    var docs := PassNodes(t, AllNodes(declared)).docs;
    OnlyDocumentsIn(t, docs);
    NodeBatchFrame(t, docs, overwrite, at.nodes);
  }

  /** Main result, first half: after the nodes and the placeholders every declared key and every
      endpoint has a node, and only documents were written to. */
  lemma AfterPlaceholdersFrame(t: Tables, declared: seq<Declared>, overwrite: bool, at: Times)
    requires Consistent(t) && WellDeclared(declared)
    ensures var u := AfterPlaceholders(t, declared, overwrite, at);
      && Consistent(u) && Frame(t, u, Writable(t, declared))
      && u.nodes.Keys == t.nodes.Keys + DeclaredKeys(AllNodes(declared)) + EndKeys(AllEdges(declared))
      && AreDocuments(u, Writable(t, declared))
      && Frame(AfterNodes(t, declared, overwrite, at), u,
               u.nodes.Keys - AfterNodes(t, declared, overwrite, at).nodes.Keys)
  {
    var t1, dk := AfterNodes(t, declared, overwrite, at), DeclaredKeys(AllNodes(declared));
    AfterNodesFrame(t, declared, overwrite, at);
    PassNodesIs(t, AllNodes(declared));
    PassEndsIs(t1, dk, AllEdges(declared));
    PlaceholdersFrame(t, t1, declared, at);
  }

  lemma PlaceholdersFrame(t: Tables, t1: Tables, declared: seq<Declared>, at: Times)
    requires var keys := set k | k in DeclaredKeys(AllNodes(declared)) && !Fuses(t, k);
      Consistent(t1) && Frame(t, t1, keys) && AreDocuments(t1, keys)
    requires NamePassOk(t1, DeclaredKeys(AllNodes(declared)), EndKeys(AllEdges(declared)),
                        PassEnds(t1, DeclaredKeys(AllNodes(declared)), AllEdges(declared)))
    ensures var u := BatchTables(t1, PlaceholderBatch(t1, declared, DeclaredKeys(AllNodes(declared)), at));
      && Consistent(u) && Frame(t, u, Writable(t, declared))
      && u.nodes.Keys == t.nodes.Keys + DeclaredKeys(AllNodes(declared)) + EndKeys(AllEdges(declared))
      && AreDocuments(u, Writable(t, declared))
      && Frame(t1, u, u.nodes.Keys - t1.nodes.Keys)
  {
    hide BatchTables, Consistent, PassEnds, KeyOf, LogOf;
    var dk, ends := DeclaredKeys(AllNodes(declared)), EndKeys(AllEdges(declared));
    var keys := set k | k in dk && !Fuses(t, k);
    var docs := PassEnds(t1, dk, AllEdges(declared)).docs;
    var fresh' := KeysUpTo(docs, |docs|);
    OnlyDocumentsIn(t1, docs);
    NodeBatchFrame(t1, docs, false, at.placeholders);
    var u := BatchTables(t1, PlaceholderBatch(t1, declared, dk, at));
    FrameTransitive(t, t1, u, keys, fresh');
    assert t1.nodes.Keys == t.nodes.Keys + dk;
    assert fresh' == ends - dk - t.nodes.Keys;
    assert fresh' == u.nodes.Keys - t1.nodes.Keys;
  }
}
