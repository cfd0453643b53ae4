/** What the rows of the corpus hold: each member of what crates/yeomna-pipeline/src/documents.rs writes
    for a declaration, and which declaration a row is of. */
module DocumentsRows {
  import opened Json
  import opened CanonicalJson
  import opened Store
  import opened StoreLaws
  import opened StorePayloads
  import opened DocumentGraph
  import opened DocumentGraphLaws
  import opened Documents
  import opened DocumentsLaws
  import opened DocumentsEdges

  // ---- The members of a document ----

  /** The value written under an extra's key, if there is one. */
  function ExtraAt(extra: seq<Extra>, key: string): Option<Value> {
    if extra == [] then None
    else if extra[|extra| - 1].key == key then Some(String(extra[|extra| - 1].value))
    else ExtraAt(extra[..|extra| - 1], key)
  }

  lemma GetPut(fields: seq<Field>, key: string, value: Value, k: string)
    ensures Get(Object(Put(fields, key, value)), k) == if k == key then Some(value) else Get(Object(fields), k)
  {
    var at, after := IndexOf(fields, key), Put(fields, key, value);
    if k == key {
      if at < |fields| {
        FirstIs(fields, key, at);
      }
      MemberAt(after, key, at);
    } else {
      PutKeeps(fields, key, value, k);
    }
  }

  lemma {:induction false} PutExtrasSnoc(fields: seq<Field>, extra: seq<Extra>, e: Extra)
    ensures PutExtras(fields, extra + [e]) == Put(PutExtras(fields, extra), e.key, String(e.value))
    decreases |extra|
  {
    hide Put;
    if extra == [] {
      assert [] + [e] == [e] && [e][1..] == [];
    } else {
      assert (extra + [e])[1..] == extra[1..] + [e];
      PutExtrasSnoc(Put(fields, extra[0].key, String(extra[0].value)), extra[1..], e);
    }
  }

  /** Extras stand over what was there before. */
  lemma {:induction false} GetExtras(fields: seq<Field>, extra: seq<Extra>, k: string)
    ensures Get(Object(PutExtras(fields, extra)), k)
         == if ExtraAt(extra, k).Some? then ExtraAt(extra, k) else Get(Object(fields), k)
    decreases |extra|
  {
    hide Get, Put;
    if extra != [] {
      var init, e := extra[..|extra| - 1], extra[|extra| - 1];
      assert extra == init + [e];
      PutExtrasSnoc(fields, init, e);
      GetExtras(fields, init, k);
      GetPut(PutExtras(fields, init), e.key, String(e.value), k);
    }
  }

  /** An extra of a shaped declaration is found under its key, and none under a reserved one. */
  lemma {:induction false} ExtraFound(extra: seq<Extra>, taken: set<string>, i: nat)
    requires ExtrasOk(extra, taken) && i < |extra|
    ensures ExtraAt(extra, extra[i].key) == Some(String(extra[i].value))
    decreases |extra|
  {
    hide ExtraOk;
    var m := |extra| - 1;
    if i < m {
      assert Less(extra[i].key, extra[m].key);
      LessIsTotal(extra[i].key, extra[m].key);
      ExtraFound(extra[..m], taken, i);
    }
  }

  lemma {:induction false} NoReservedExtra(extra: seq<Extra>, taken: set<string>, key: string)
    requires ExtrasOk(extra, taken) && (key in taken || key in ROW_FIELDS)
    ensures ExtraAt(extra, key).None?
    decreases |extra|
  {
    if extra != [] {
      assert ExtraOk(extra[|extra| - 1], taken);
      NoReservedExtra(extra[..|extra| - 1], taken, key);
    }
  }

  lemma {:induction false} ExtraAtIs(extra: seq<Extra>, key: string)
    ensures ExtraAt(extra, key).None? <==> forall i :: 0 <= i < |extra| ==> extra[i].key != key
    decreases |extra|
  {
    if extra != [] {
      ExtraAtIs(extra[..|extra| - 1], key);
    }
  }

  const NODE_MEMBERS: set<string> := {"_key", "declared_kind", "tag", "declared_in", "declared_at_line"}

  ghost predicate HasExtra(extra: seq<Extra>, key: string) {
    exists i :: 0 <= i < |extra| && extra[i].key == key
  }

  /** What a node's document holds: its key, its tag, where it was declared and every extra as a string,
      and nothing else; its kind, unless an extra named `declared_kind` stands over it. */
  ghost predicate NodeMembers(doc: Value, d: NodeDecl) {
    && Get(doc, "_key") == Some(String(d.node.key))
    && Get(doc, "tag") == Some(if d.node.tag.Some? then String(d.node.tag.value) else Null)
    && Get(doc, "declared_in") == Some(String(d.docKey))
    && Get(doc, "declared_at_line") == Some(Num(Integer(d.node.line)))
    && (!HasExtra(d.node.extra, "declared_kind") ==>
          Get(doc, "declared_kind") == Some(if d.node.kind.Some? then String(d.node.kind.value) else Null))
    && (forall i :: 0 <= i < |d.node.extra| ==> Get(doc, d.node.extra[i].key) == Some(String(d.node.extra[i].value)))
    && (forall k :: k !in NODE_MEMBERS && !HasExtra(d.node.extra, k) ==> Get(doc, k) == None)
  }

  function BaseNode(d: NodeDecl): Value {
    Object([Field("_key", String(d.node.key)), Field("declared_kind", OptionalString(d.node.kind)),
            Field("tag", OptionalString(d.node.tag)), Field("declared_in", String(d.docKey)),
            Field("declared_at_line", Num(Integer(d.node.line)))])
  }

  function BaseMember(d: NodeDecl, k: string): Option<Value> {
    if k == "_key" then Some(String(d.node.key))
    else if k == "declared_kind" then Some(OptionalString(d.node.kind))
    else if k == "tag" then Some(OptionalString(d.node.tag))
    else if k == "declared_in" then Some(String(d.docKey))
    else if k == "declared_at_line" then Some(Num(Integer(d.node.line)))
    else None
  }

  lemma BaseNodeMembers(d: NodeDecl, k: string)
    ensures Get(BaseNode(d), k) == BaseMember(d, k)
  {
    var fields := BaseNode(d).fields;
    var at := IndexOf(fields, k);
    hide IndexOf;
    assert forall j :: 0 <= j < 5 ==> BaseMember(d, fields[j].key) == Some(fields[j].value);
    assert at == 5 ==> k != fields[0].key && k != fields[1].key && k != fields[2].key && k != fields[3].key
                       && k != fields[4].key;
  }

  lemma NodeDocGet(d: NodeDecl, k: string)
    ensures Get(NodeDoc(d), k)
      == if ExtraAt(d.node.extra, k).Some? then ExtraAt(d.node.extra, k) else BaseMember(d, k)
  {
    GetExtras(BaseNode(d).fields, d.node.extra, k);
    BaseNodeMembers(d, k);
    hide PutExtras, ExtraAt, BaseMember, Get;
  }

  lemma NodeDocReserved(d: NodeDecl, k: string)
    requires Shaped(Node(d.node)) && (k in NODE_TAKEN || k in ROW_FIELDS)
    ensures Get(NodeDoc(d), k) == BaseMember(d, k)
  {
    NoReservedExtra(d.node.extra, NODE_TAKEN, k);
    NodeDocGet(d, k);
    hide NodeDoc, Get, BaseMember, ExtraAt;
  }

  lemma NodeDocOther(d: NodeDecl, k: string)
    requires !HasExtra(d.node.extra, k)
    ensures Get(NodeDoc(d), k) == BaseMember(d, k)
  {
    ExtraAtIs(d.node.extra, k);
    NodeDocGet(d, k);
    hide NodeDoc, Get, BaseMember, ExtraAt;
  }

  lemma NodeDocExtra(d: NodeDecl, i: nat)
    requires Shaped(Node(d.node)) && i < |d.node.extra|
    ensures Get(NodeDoc(d), d.node.extra[i].key) == Some(String(d.node.extra[i].value))
  {
    ExtraFound(d.node.extra, NODE_TAKEN, i);
    NodeDocGet(d, d.node.extra[i].key);
    hide NodeDoc, Get, BaseMember, ExtraAt;
  }

  /** Main result: a declared node's document holds exactly what the declaration says. */
  lemma NodeDocHolds(d: NodeDecl)
    requires Shaped(Node(d.node))
    ensures NodeMembers(NodeDoc(d), d)
  {
    hide Get, NodeDoc, Shaped, HasExtra;
    NodeDocReserved(d, "_key");
    NodeDocReserved(d, "tag");
    NodeDocReserved(d, "declared_in");
    NodeDocReserved(d, "declared_at_line");
    if !HasExtra(d.node.extra, "declared_kind") {
      NodeDocOther(d, "declared_kind");
    }
    forall i | 0 <= i < |d.node.extra|
      ensures Get(NodeDoc(d), d.node.extra[i].key) == Some(String(d.node.extra[i].value))
    {
      NodeDocExtra(d, i);
    }
    forall k | k !in NODE_MEMBERS && !HasExtra(d.node.extra, k) ensures Get(NodeDoc(d), k) == None {
      NodeDocOther(d, k);
    }
  }

  /** The kind a node was declared with is what its document says exactly when no extra named
      `declared_kind` says otherwise: the notation lets one through. */
  lemma DeclaredKindIff(d: NodeDecl)
    requires Shaped(Node(d.node))
    ensures Get(NodeDoc(d), "declared_kind") == Some(if d.node.kind.Some? then String(d.node.kind.value) else Null) <==>
      forall i :: 0 <= i < |d.node.extra| && d.node.extra[i].key == "declared_kind" ==>
        d.node.kind == Some(d.node.extra[i].value)
  {
    NodeDocHolds(d);
  }

  lemma OverKindShaped()
    ensures Shaped(Node(GraphNode("a", Some("assertion"), None, [Extra("declared_kind", "other")], 1)))
  {
    assert Plain("declared_kind") && Plain("other");
  }

  lemma ExtraOverKind()
    ensures var d := NodeDecl("doc", GraphNode("a", Some("assertion"), None, [Extra("declared_kind", "other")], 1));
      Shaped(Node(d.node)) && Get(NodeDoc(d), "declared_kind") == Some(String("other"))
  {
    var d := NodeDecl("doc", GraphNode("a", Some("assertion"), None, [Extra("declared_kind", "other")], 1));
    OverKindShaped();
    NodeDocHolds(d);
    hide NodeDoc, Shaped, Get;
    assert Get(NodeDoc(d), d.node.extra[0].key) == Some(String("other"));
  }

  /** What an edge's row holds besides its ends: where it was declared and every extra as a string. */
  ghost predicate EdgeMembers(attributes: Value, d: EdgeDecl) {
    && Get(attributes, "declared_in") == Some(String(d.docKey))
    && Get(attributes, "declared_at_line") == Some(Num(Integer(d.edge.line)))
    && (forall i :: 0 <= i < |d.edge.extra| ==>
          Get(attributes, d.edge.extra[i].key) == Some(String(d.edge.extra[i].value)))
    && (forall k :: k !in {"declared_in", "declared_at_line"} && !HasExtra(d.edge.extra, k) ==>
          Get(attributes, k) == None)
  }

  lemma EdgeAttributesHold(d: EdgeDecl)
    requires Shaped(Edge(d.edge))
    ensures EdgeMembers(EdgeAttributes(d), d)
  {
    var extra := d.edge.extra;
    forall k ensures ExtraAt(extra, k).None? <==> !HasExtra(extra, k) { ExtraAtIs(extra, k); }
    forall i | 0 <= i < |extra| ensures Get(EdgeAttributes(d), extra[i].key) == Some(String(extra[i].value)) {
      ExtraFound(extra, EDGE_TAKEN, i);
      EdgeAttributesGet(d, extra[i].key);
    }
    NoReservedExtra(extra, EDGE_TAKEN, "declared_in");
    NoReservedExtra(extra, EDGE_TAKEN, "declared_at_line");
    hide Get, EdgeAttributes, ExtraAt, HasExtra, Shaped;
    forall k ensures Get(EdgeAttributes(d), k)
      == if ExtraAt(extra, k).Some? then ExtraAt(extra, k) else BaseAttribute(d, k)
    {
      EdgeAttributesGet(d, k);
    }
  }

  function BaseAttribute(d: EdgeDecl, k: string): Option<Value> {
    if k == "declared_in" then Some(String(d.docKey))
    else if k == "declared_at_line" then Some(Num(Integer(d.edge.line)))
    else None
  }

  lemma EdgeAttributesGet(d: EdgeDecl, k: string)
    ensures Get(EdgeAttributes(d), k)
      == if ExtraAt(d.edge.extra, k).Some? then ExtraAt(d.edge.extra, k) else BaseAttribute(d, k)
  {
    var fields := [Field("declared_in", String(d.docKey)), Field("declared_at_line", Num(Integer(d.edge.line)))];
    GetExtras(fields, d.edge.extra, k);
    MemberAt(fields, "declared_in", 0);
    MemberAt(fields, "declared_at_line", 1);
    hide PutExtras, ExtraAt;
  }

  /** Main result: the row of an edge's first declaration holds the members of that declaration. */
  lemma EdgeRowHolds(t: Tables, declared: seq<Declared>, overwrite: bool, at: Times, i: nat)
    requires Consistent(t) && WellDeclared(declared) && FirstOf(AllEdges(declared), i)
    requires forall j :: 0 <= j < |AllEdges(declared)| ==> PlainEnds(AllEdges(declared)[j])
    requires var u := AfterEdges(t, declared, overwrite, at);
      overwrite || (HasRow(u, AllEdges(declared)[i]) ==> IdOf(u, AllEdges(declared)[i]).value !in t.edges)
    ensures var (u, d) := (AfterEdges(t, declared, overwrite, at), AllEdges(declared)[i]);
      && HasRow(u, d) && u.edges[IdOf(u, d).value].analyzer == "graph-block"
      && exists w :: EdgeMembers(w, d) && u.edges[IdOf(u, d).value].payload == ToJsonb(w)
  {
    FirstDeclarationWins(t, declared, overwrite, at, i);
    EdgeAttributesHold(AllEdges(declared)[i]);
    hide AfterEdges, AllEdges, EdgeAttributes, EdgeMembers, IdOf, ToJsonb;
  }

  // ---- Which declaration a node's row is of ----

  /** The first declaration of its key. */
  predicate FirstNode(ds: seq<NodeDecl>, i: nat) {
    i < |ds| && forall j :: 0 <= j < i ==> ds[j].node.key != ds[i].node.key
  }

  /** The document of a first declaration that names no code node. */
  ghost predicate IsFirstDoc(t: Tables, ds: seq<NodeDecl>, doc: Value) {
    exists i: nat :: FirstNode(ds, i) && !Fuses(t, ds[i].node.key) && doc == NodeDoc(ds[i])
  }

  ghost predicate DocsAreFirsts(t: Tables, ds: seq<NodeDecl>, docs: seq<Value>) {
    forall doc :: doc in docs <==> IsFirstDoc(t, ds, doc)
  }

  lemma {:induction false} DeclaredKeyIs(ds: seq<NodeDecl>, key: Key)
    ensures key in DeclaredKeys(ds) <==> exists j :: 0 <= j < |ds| && ds[j].node.key == key
  {
    if ds != [] {
      var init := ds[..|ds| - 1];
      DeclaredKeyIs(init, key);
      assert forall j :: 0 <= j < |init| ==> init[j] == ds[j];
    }
  }

  lemma FirstsOfMore(t: Tables, init: seq<NodeDecl>, d: NodeDecl, doc: Value)
    ensures IsFirstDoc(t, init + [d], doc) <==>
      IsFirstDoc(t, init, doc)
      || (d.node.key !in DeclaredKeys(init) && !Fuses(t, d.node.key) && doc == NodeDoc(d))
  {
    hide NodeDoc, Fuses;
    var ds := init + [d];
    DeclaredKeyIs(init, d.node.key);
    assert forall j :: 0 <= j < |init| ==> ds[j] == init[j];
    assert forall i: nat :: i < |init| ==> (FirstNode(ds, i) <==> FirstNode(init, i));
    assert FirstNode(ds, |init|) <==> d.node.key !in DeclaredKeys(init);
  }

  /** The documents written for nodes are those of the first declarations. */
  lemma {:induction false} PassNodesFirsts(t: Tables, ds: seq<NodeDecl>)
    ensures PassNodes(t, ds).keys == DeclaredKeys(ds) && DocsAreFirsts(t, ds, PassNodes(t, ds).docs)
  {
    hide NodeDoc, Fuses, IsFirstDoc;
    if ds == [] {
      forall doc ensures !IsFirstDoc(t, ds, doc) { NoFirstDoc(t, doc); }
    } else {
      var init, d := ds[..|ds| - 1], ds[|ds| - 1];
      assert ds == init + [d];
      PassNodesFirsts(t, init);
      forall doc ensures doc in PassNodes(t, ds).docs <==> IsFirstDoc(t, ds, doc) { FirstsOfMore(t, init, d, doc); }
    }
  }

  lemma NoFirstDoc(t: Tables, doc: Value)
    ensures !IsFirstDoc(t, [], doc)
  {
  }

  /** A document of a batch with distinct keys is the last under its key. */
  lemma OnlyUnderItsKey(docs: seq<Value>, i: nat)
    requires Keyed(docs) && DistinctDocKeys(docs) && i < |docs|
    ensures LandsLast(Metadata("document"), Submitted(docs), |docs|, i)
    ensures NodeKey(Metadata("document"), docs[i]) == Some(KeyOf(docs[i]))
  {
    var subs := Submitted(docs);
    assert subs[i].verdict.Fine? && subs[i].doc == docs[i];
    forall j | i < j < |docs|
      ensures NodeKey(Metadata("document"), subs[j].doc) != NodeKey(Metadata("document"), docs[i])
    {
      assert KeyOf(docs[i]) != KeyOf(docs[j]) && GetStr(docs[j], "_key").Some?;
    }
  }

  lemma NodeBatchRowCarries(t: Tables, docs: seq<Value>, now: nat, i: nat)
    requires Consistent(t) && Keyed(docs) && DistinctDocKeys(docs) && OnlyDocuments(t, docs) && i < |docs|
    ensures var u := BatchTables(t, Batch("documents", Submitted(docs), true, now));
      && KeyOf(docs[i]) in u.nodes && u.nodes[KeyOf(docs[i])].kind == "document"
      && Carries(u.nodes[KeyOf(docs[i])].payload, docs[i])
  {
    OnlyUnderItsKey(docs, i);
    FoldFrame(t, docs, true, now, |docs|);
    hide Fold, Carries, KeyOf, LandsLast, Keyed, DistinctDocKeys, OnlyDocuments, Frame;
    BatchRowsCarry(t, Batch("documents", Submitted(docs), true, now), Metadata("document"), i);
  }

  /** Main result: after an overwriting run the row of each declared key that is no code node carries
      the document of the first declaration of that key, and of no other. */
  lemma FirstNodeWins(t: Tables, declared: seq<Declared>, at: Times, i: nat)
    requires Consistent(t) && WellDeclared(declared) && FirstNode(AllNodes(declared), i)
    requires !Fuses(t, AllNodes(declared)[i].node.key)
    ensures var (u, d) := (AfterEdges(t, declared, true, at), AllNodes(declared)[i]);
      && d.node.key in u.nodes && u.nodes[d.node.key].kind == "document"
      && NodeMembers(NodeDoc(d), d) && Carries(u.nodes[d.node.key].payload, NodeDoc(d))
  {
    var ds := AllNodes(declared);
    var d, docs := ds[i], PassNodes(t, ds).docs;
    NodeDocHolds(d);
    NodeDocKeyed(d);
    PassNodesIs(t, ds);
    PassNodesFirsts(t, ds);
    assert IsFirstDoc(t, ds, NodeDoc(d)) && NodeDoc(d) in docs;
    var k :| 0 <= k < |docs| && docs[k] == NodeDoc(d);
    DocsOnly(t, ds);
    NodeBatchRowCarries(t, docs, at.nodes, k);
    RowsStay(t, declared, true, at, d.node.key);
  }

  lemma DocsOnly(t: Tables, ds: seq<NodeDecl>)
    requires NodePassOk(t, ds, PassNodes(t, ds))
    ensures OnlyDocuments(t, PassNodes(t, ds).docs)
  {
    hide PassNodes, KeyOf;
    OnlyDocumentsIn(t, PassNodes(t, ds).docs);
  }

  /** Placeholders and edges leave the rows of the nodes alone. */
  lemma RowsStay(t: Tables, declared: seq<Declared>, overwrite: bool, at: Times, key: Key)
    requires Consistent(t) && WellDeclared(declared) && key in AfterNodes(t, declared, overwrite, at).nodes
    ensures var u := AfterEdges(t, declared, overwrite, at);
      key in u.nodes && u.nodes[key] == AfterNodes(t, declared, overwrite, at).nodes[key]
  {
    AfterPlaceholdersFrame(t, declared, overwrite, at);
    AfterEdgesIs(t, declared, overwrite, at);
    hide AfterNodes, AfterPlaceholders, AfterEdges, LandAll, AllEdges, AllNodes, PassEdges, LogOf, AreDocuments,
      Consistent, WellDeclared, Writable;
  }

  // ---- Which edge a placeholder names ----

  predicate Names(d: EdgeDecl, key: Key) {
    key == d.edge.from || key == d.edge.to
  }

  /** The first edge to name the key. */
  predicate NamesFirst(ds: seq<EdgeDecl>, i: nat, key: Key) {
    i < |ds| && Names(ds[i], key) && forall j :: 0 <= j < i ==> !Names(ds[j], key)
  }

  ghost predicate IsPlaceholder(t: Tables, declaredKeys: set<Key>, ds: seq<EdgeDecl>, doc: Value) {
    exists i: nat, key :: NamesFirst(ds, i, key) && key !in declaredKeys && key !in t.nodes
      && doc == PlaceholderDoc(ds[i].docKey, key)
  }

  lemma {:induction false} EndKeyIs(ds: seq<EdgeDecl>, key: Key)
    ensures key in EndKeys(ds) <==> exists j :: 0 <= j < |ds| && Names(ds[j], key)
  {
    if ds != [] {
      var init := ds[..|ds| - 1];
      EndKeyIs(init, key);
      assert forall j :: 0 <= j < |init| ==> init[j] == ds[j];
    }
  }

  /** A placeholder of the last edge: an end nothing declared, stored or named before. */
  ghost predicate NewlyNamed(t: Tables, declaredKeys: set<Key>, init: seq<EdgeDecl>, d: EdgeDecl, doc: Value) {
    exists key :: Names(d, key) && key !in EndKeys(init) && key !in declaredKeys && key !in t.nodes
      && doc == PlaceholderDoc(d.docKey, key)
  }

  lemma PlaceholdersOfMore(t: Tables, declaredKeys: set<Key>, init: seq<EdgeDecl>, d: EdgeDecl, doc: Value)
    ensures IsPlaceholder(t, declaredKeys, init + [d], doc) <==>
      IsPlaceholder(t, declaredKeys, init, doc) || NewlyNamed(t, declaredKeys, init, d, doc)
  {
    hide PlaceholderDoc, Names;
    var ds := init + [d];
    forall key ensures NamesFirst(ds, |init|, key) <==> Names(d, key) && key !in EndKeys(init) {
      EndKeyIs(init, key);
      assert forall j :: 0 <= j < |init| ==> ds[j] == init[j];
    }
    assert forall i: nat, key :: i < |init| ==> (NamesFirst(ds, i, key) <==> NamesFirst(init, i, key)) by {
      assert forall j :: 0 <= j < |init| ==> ds[j] == init[j];
    }
    assert ds[|ds| - 1] == d;
    if NewlyNamed(t, declaredKeys, init, d, doc) {
      var key :| Names(d, key) && key !in EndKeys(init) && key !in declaredKeys && key !in t.nodes
        && doc == PlaceholderDoc(d.docKey, key);
      assert NamesFirst(ds, |init|, key);
    }
    if IsPlaceholder(t, declaredKeys, ds, doc) {
      var i: nat, key :| NamesFirst(ds, i, key) && key !in declaredKeys && key !in t.nodes
        && doc == PlaceholderDoc(ds[i].docKey, key);
      if i < |init| {
        assert NamesFirst(init, i, key);
      }
    }
  }

  /** What one edge adds. */
  lemma EndsAdd(t: Tables, declaredKeys: set<Key>, init: seq<EdgeDecl>, p: NamePass, d: EdgeDecl, doc: Value)
    requires p.seen == EndKeys(init) - declaredKeys
    ensures doc in AddEnds(t, declaredKeys, p, d).docs <==> doc in p.docs || NewlyNamed(t, declaredKeys, init, d, doc)
  {
    hide PlaceholderDoc;
    var q := AddName(t, declaredKeys, p, d.docKey, d.edge.from);
    assert Names(d, d.edge.from) && Names(d, d.edge.to);
    assert forall key :: Names(d, key) ==> key == d.edge.from || key == d.edge.to;
  }

  /** Main result: the placeholders are exactly one for each end that no declaration and no row has, and
      say which document named it first. */
  lemma {:induction false} PassEndsFirsts(t: Tables, declaredKeys: set<Key>, ds: seq<EdgeDecl>)
    ensures forall doc :: doc in PassEnds(t, declaredKeys, ds).docs <==> IsPlaceholder(t, declaredKeys, ds, doc)
  {
    hide IsPlaceholder, AddEnds, NewlyNamed;
    if ds == [] {
      forall doc ensures !IsPlaceholder(t, declaredKeys, ds, doc) { NoPlaceholder(t, declaredKeys, doc); }
    } else {
      var init, d := ds[..|ds| - 1], ds[|ds| - 1];
      assert ds == init + [d];
      PassEndsFirsts(t, declaredKeys, init);
      PassEndsIs(t, declaredKeys, init);
      forall doc ensures doc in PassEnds(t, declaredKeys, ds).docs <==> IsPlaceholder(t, declaredKeys, ds, doc) {
        PlaceholdersOfMore(t, declaredKeys, init, d, doc);
        EndsAdd(t, declaredKeys, init, PassEnds(t, declaredKeys, init), d, doc);
      }
    }
  }

  lemma NoPlaceholder(t: Tables, declaredKeys: set<Key>, doc: Value)
    ensures !IsPlaceholder(t, declaredKeys, [], doc)
  {
  }

  lemma PlaceholderHolds(docKey: string, key: Key)
    ensures var doc := PlaceholderDoc(docKey, key);
      && Get(doc, "_key") == Some(String(key)) && Get(doc, "placeholder") == Some(Bool(true))
      && Get(doc, "first_named_in") == Some(String(docKey))
      && forall k :: k !in {"_key", "placeholder", "first_named_in"} ==> Get(doc, k) == None
  {
    var fields := PlaceholderDoc(docKey, key).fields;
    MemberAt(fields, "_key", 0);
    MemberAt(fields, "placeholder", 1);
    MemberAt(fields, "first_named_in", 2);
  }

  // ---- The relations counted ----

  /** The kept edges of a relation. */
  function OfRelation(ds: seq<EdgeDecl>, relation: string): set<nat> {
    set i: nat | i < |ds| && ds[i].edge.relation == relation
  }

  lemma OfRelationMore(ds: seq<EdgeDecl>, d: EdgeDecl, relation: string)
    ensures |OfRelation(ds + [d], relation)|
      == |OfRelation(ds, relation)| + if d.edge.relation == relation then 1 else 0
  {
    assert OfRelation(ds + [d], relation)
        == OfRelation(ds, relation) + if d.edge.relation == relation then {|ds|} else {};
  }

  /** Main result: the summary counts, under each relation, the distinct edges declared with it. */
  lemma {:induction false} RelationsAre(ds: seq<EdgeDecl>, relation: string)
    ensures var p := PassEdges(ds);
      && (relation in p.relations <==> OfRelation(p.kept, relation) != {})
      && (relation in p.relations ==> p.relations[relation] == |OfRelation(p.kept, relation)|)
  {
    hide IdentityOf;
    if ds != [] {
      var p, d := PassEdges(ds[..|ds| - 1]), ds[|ds| - 1];
      RelationsAre(ds[..|ds| - 1], relation);
      RelationsAre(ds[..|ds| - 1], d.edge.relation);
      OfRelationMore(p.kept, d, relation);
      OfRelationMore(p.kept, d, d.edge.relation);
      if d.edge.relation == relation {
        assert |p.kept| in OfRelation(p.kept + [d], relation);
      } else {
        assert OfRelation(p.kept + [d], relation) == OfRelation(p.kept, relation);
      }
    }
  }

  // ---- The numbers of the summary ----

  function FusedOf(t: Tables, keys: set<Key>): set<Key> {
    set k | k in keys && Fuses(t, k)
  }

  lemma OneMoreFused(t: Tables, keys: set<Key>, key: Key)
    requires key !in keys
    ensures |FusedOf(t, keys + {key})| == |FusedOf(t, keys)| + if Fuses(t, key) then 1 else 0
  {
    hide Fuses;
    assert FusedOf(t, keys + {key}) == FusedOf(t, keys) + if Fuses(t, key) then {key} else {};
  }

  /** Declarations fused, and declarations past the first of their key. */
  lemma {:induction false} NodeNumbers(t: Tables, ds: seq<NodeDecl>)
    ensures var p := PassNodes(t, ds);
      && p.keys == DeclaredKeys(ds) && p.fused == |FusedOf(t, DeclaredKeys(ds))|
      && p.duplicates + |DeclaredKeys(ds)| == |ds|
  {
    hide NodeDoc, Fuses, FusedOf;
    if ds == [] {
      NoneFused(t);
    } else {
      var init, key := ds[..|ds| - 1], ds[|ds| - 1].node.key;
      NodeNumbers(t, init);
      if key in DeclaredKeys(init) {
        assert DeclaredKeys(ds) == DeclaredKeys(init);
      } else {
        OneMoreFused(t, DeclaredKeys(init), key);
      }
    }
  }

  lemma NoneFused(t: Tables)
    ensures FusedOf(t, {}) == {}
  {
  }

  function IdentitiesOf(ds: seq<EdgeDecl>): set<Identity> {
    set d | d in ds :: IdentityOf(d)
  }

  lemma {:induction false} EdgeNumbers(ds: seq<EdgeDecl>)
    ensures PassEdges(ds).identities == IdentitiesOf(ds)
    ensures PassEdges(ds).duplicates + |IdentitiesOf(ds)| == |ds|
  {
    hide IdentityOf;
    if ds != [] {
      var init, d := ds[..|ds| - 1], ds[|ds| - 1];
      EdgeNumbers(init);
      assert ds == init + [d];
      assert IdentitiesOf(ds) == IdentitiesOf(init) + {IdentityOf(d)};
    }
  }

  /** The keys a batch of node documents with these keys creates or overwrites a row under. */
  function WrittenOf(t: Tables, keys: set<Key>, overwrite: bool): set<Key> {
    set k | k in keys && (overwrite || k !in t.nodes)
  }

  lemma OneMoreWritten(t: Tables, keys: set<Key>, key: Key, overwrite: bool)
    requires key !in keys
    ensures |WrittenOf(t, keys + {key}, overwrite)|
      == |WrittenOf(t, keys, overwrite)| + if overwrite || key !in t.nodes then 1 else 0
  {
    assert WrittenOf(t, keys + {key}, overwrite)
        == WrittenOf(t, keys, overwrite) + if overwrite || key !in t.nodes then {key} else {};
  }

  lemma FoldCreated(t: Tables, docs: seq<Value>, overwrite: bool, now: nat, n: nat)
    requires 0 < n <= |docs| && Fold(t, Metadata("document"), Submitted(docs), overwrite, now, n - 1).Folded?
    ensures var (f, g) := (Fold(t, Metadata("document"), Submitted(docs), overwrite, now, n - 1),
                           Fold(t, Metadata("document"), Submitted(docs), overwrite, now, n));
      g.Folded? && g.created == f.created
        + if DocWrite(f.tables, Metadata("document"), docs[n - 1], overwrite, now).created then 1 else 0
  {
    hide DocWrite;
  }

  lemma WrittenMore(t: Tables, docs: seq<Value>, overwrite: bool, n: nat)
    requires DistinctDocKeys(docs) && 0 < n <= |docs|
    ensures var key := KeyOf(docs[n - 1]);
      && key !in KeysUpTo(docs, n - 1)
      && |WrittenOf(t, KeysUpTo(docs, n), overwrite)|
         == |WrittenOf(t, KeysUpTo(docs, n - 1), overwrite)| + if overwrite || key !in t.nodes then 1 else 0
  {
    NewKey(docs, n);
    hide KeyOf, WrittenOf, DistinctDocKeys;
    OneMoreWritten(t, KeysUpTo(docs, n - 1), KeyOf(docs[n - 1]), overwrite);
  }

  lemma {:induction false} FoldCreates(t: Tables, docs: seq<Value>, overwrite: bool, now: nat, n: nat)
    requires Consistent(t) && Keyed(docs) && DistinctDocKeys(docs) && n <= |docs| && OnlyDocuments(t, docs)
    ensures var f := Fold(t, Metadata("document"), Submitted(docs), overwrite, now, n);
      f.Folded? && f.created == |WrittenOf(t, KeysUpTo(docs, n), overwrite)|
    decreases n
  {
    hide Consistent, DocWrite, KeyOf, Frame, AreDocuments, OnlyDocuments, DistinctDocKeys;
    if n == 0 {
      assert WrittenOf(t, {}, overwrite) == {};
    } else {
      hide Fold, WrittenOf, KeysUpTo, Submitted;
      FoldCreates(t, docs, overwrite, now, n - 1);
      FoldFrame(t, docs, overwrite, now, n - 1);
      FoldCreated(t, docs, overwrite, now, n);
      WrittenMore(t, docs, overwrite, n);
      var u := Fold(t, Metadata("document"), Submitted(docs), overwrite, now, n - 1).tables;
      CreatesIff(u, docs[n - 1], overwrite, now);
      KeysOfFrame(t, u, KeysUpTo(docs, n - 1));
    }
  }

  lemma CreatesIff(t: Tables, doc: Value, overwrite: bool, now: nat)
    requires GetStr(doc, "_key").Some?
    ensures DocWrite(t, Metadata("document"), doc, overwrite, now).created <==> overwrite || KeyOf(doc) !in t.nodes
  {
    DocumentWriteIs(t, doc, overwrite, now);
    hide PayloadOf, GetStr, DocWrite;
  }

  lemma KeysOfFrame(t: Tables, u: Tables, keys: set<Key>)
    requires Frame(t, u, keys)
    ensures u.nodes.Keys == t.nodes.Keys + keys
  {
  }

  lemma NewKey(docs: seq<Value>, n: nat)
    requires DistinctDocKeys(docs) && 0 < n <= |docs|
    ensures KeyOf(docs[n - 1]) !in KeysUpTo(docs, n - 1)
  {
    KeyIsAt(docs, n - 1, KeyOf(docs[n - 1]));
  }

  lemma {:induction false} KeyIsAt(docs: seq<Value>, n: nat, key: Key)
    requires n <= |docs|
    ensures key in KeysUpTo(docs, n) <==> exists i :: 0 <= i < n && KeyOf(docs[i]) == key
  {
    hide KeyOf;
    if n > 0 {
      KeyIsAt(docs, n - 1, key);
    }
  }

  lemma NodeBatchCreates(t: Tables, docs: seq<Value>, overwrite: bool, now: nat)
    requires Consistent(t) && Keyed(docs) && DistinctDocKeys(docs) && OnlyDocuments(t, docs)
    ensures Created(t, Batch("documents", Submitted(docs), overwrite, now))
      == |WrittenOf(t, KeysUpTo(docs, |docs|), overwrite)|
  {
    FoldCreates(t, docs, overwrite, now, |docs|);
    assert RouteOf("documents") == Some(Metadata("document"));
    hide Fold, RouteOf, WrittenOf, OnlyDocuments;
  }

  /** Main result: the summary's numbers are of keys and of identities: nodes written and nodes fused
      onto code, one placeholder for each end that is neither declared nor stored, and a duplicate for
      each declaration past the first of its key or of its identity. */
  lemma SummaryCounts(t: Tables, declared: seq<Declared>, overwrite: bool, at: Times)
    requires Consistent(t) && WellDeclared(declared)
    ensures var s := SummaryOf(t, declared, overwrite, at);
      var (keys, ends) := (DeclaredKeys(AllNodes(declared)), EndKeys(AllEdges(declared)));
      && s.nodesDeclared == |set k | k in keys && (if overwrite then !Fuses(t, k) else k !in t.nodes)|
      && s.nodesFused == |FusedOf(t, keys)|
      && s.placeholders == |ends - keys - t.nodes.Keys|
      && s.duplicates == (|AllNodes(declared)| - |keys|) + (|AllEdges(declared)| - |IdentitiesOf(AllEdges(declared))|)
  {
    NodeNumbers(t, AllNodes(declared));
    EdgeNumbers(AllEdges(declared));
    NodesCreated(t, declared, overwrite, at);
    PlaceholdersCreated(t, declared, overwrite, at);
    hide PassNodes, PassEdges, PassEnds, AllNodes, AllEdges, AfterNodes, AfterPlaceholders, Created, Errors, Consistent,
      WellDeclared, DeclaredKeys, EndKeys, IdentitiesOf, Fuses;
  }

  lemma NodesCreated(t: Tables, declared: seq<Declared>, overwrite: bool, at: Times)
    requires Consistent(t) && WellDeclared(declared)
    ensures Created(t, NodeBatch(t, declared, overwrite, at))
      == |set k | k in DeclaredKeys(AllNodes(declared)) && (if overwrite then !Fuses(t, k) else k !in t.nodes)|
  {
    var ds := AllNodes(declared);
    var docs := PassNodes(t, ds).docs;
    PassNodesIs(t, ds);
    DocsOnly(t, ds);
    NodeBatchCreates(t, docs, overwrite, at.nodes);
    hide PassNodes, Created, OnlyDocuments, Keyed, DistinctDocKeys, Consistent, WellDeclared;
    assert WrittenOf(t, KeysUpTo(docs, |docs|), overwrite)
        == set k | k in DeclaredKeys(ds) && (if overwrite then !Fuses(t, k) else k !in t.nodes);
  }

  lemma PlaceholdersIn(t: Tables, keys: set<Key>, ds: seq<EdgeDecl>, now: nat)
    requires Consistent(t)
    ensures Created(t, Batch("documents", Submitted(PassEnds(t, keys, ds).docs), false, now))
      == |EndKeys(ds) - keys - t.nodes.Keys|
  {
    PassEndsIs(t, keys, ds);
    var docs := PassEnds(t, keys, ds).docs;
    hide PassEnds, Created, Consistent, Keyed, DistinctDocKeys, KeysUpTo, KeyOf;
    OnlyDocumentsIn(t, docs);
    NodeBatchCreates(t, docs, false, now);
    assert WrittenOf(t, KeysUpTo(docs, |docs|), false) == EndKeys(ds) - keys - t.nodes.Keys;
  }

  lemma PlaceholdersCreated(t: Tables, declared: seq<Declared>, overwrite: bool, at: Times)
    requires Consistent(t) && WellDeclared(declared)
    ensures var t1 := AfterNodes(t, declared, overwrite, at);
      Created(t1, PlaceholderBatch(t1, declared, PassNodes(t, AllNodes(declared)).keys, at))
      == |EndKeys(AllEdges(declared)) - DeclaredKeys(AllNodes(declared)) - t.nodes.Keys|
  {
    hide AfterNodes, PassNodes, PassEnds, Created, Consistent, WellDeclared, Frame, AreDocuments, AllNodes, AllEdges,
      EndKeys, DeclaredKeys, FusedOf, Fuses;
    var t1, keys := AfterNodes(t, declared, overwrite, at), DeclaredKeys(AllNodes(declared));
    AfterNodesFrame(t, declared, overwrite, at);
    NodeNumbers(t, AllNodes(declared));
    var written := set k | k in keys && !Fuses(t, k);
    KeysOfFrame(t, t1, written);
    PlaceholdersIn(t1, keys, AllEdges(declared), at.placeholders);
    LessDeclared(EndKeys(AllEdges(declared)), keys, t.nodes.Keys, written);
  }

  lemma LessDeclared(ends: set<Key>, keys: set<Key>, stored: set<Key>, written: set<Key>)
    requires written <= keys
    ensures ends - keys - (stored + written) == ends - keys - stored
  {
  }
}
