/** `write_declared` of crates/yeomna-pipeline/src/documents.rs: the corpus's declarations become
    nodes, then placeholders for endpoints nothing declared, then edges. */
module Documents {
  import opened Json
  import opened Store
  import opened DocumentGraph

  datatype Declared = Declared(docKey: string, nodes: seq<GraphNode>, edges: seq<GraphEdge>)

  /** A declaration and the document it stands in. */
  datatype NodeDecl = NodeDecl(docKey: string, node: GraphNode)

  datatype EdgeDecl = EdgeDecl(docKey: string, edge: GraphEdge)

  function NodesIn(d: Declared): seq<NodeDecl> {
    seq(|d.nodes|, i requires 0 <= i < |d.nodes| => NodeDecl(d.docKey, d.nodes[i]))
  }

  function EdgesIn(d: Declared): seq<EdgeDecl> {
    seq(|d.edges|, i requires 0 <= i < |d.edges| => EdgeDecl(d.docKey, d.edges[i]))
  }

  function AllNodes(declared: seq<Declared>): seq<NodeDecl> {
    if declared == [] then [] else AllNodes(declared[..|declared| - 1]) + NodesIn(declared[|declared| - 1])
  }

  function AllEdges(declared: seq<Declared>): seq<EdgeDecl> {
    if declared == [] then [] else AllEdges(declared[..|declared| - 1]) + EdgesIn(declared[|declared| - 1])
  }

  // ---- The documents ----

  /** `doc[k] = json!(v)`. */
  function Put(fields: seq<Field>, key: string, value: Value): seq<Field> {
    var at := IndexOf(fields, key);
    if at < |fields| then fields[at := Field(key, value)] else fields + [Field(key, value)]
  }

  function PutExtras(fields: seq<Field>, extra: seq<Extra>): seq<Field>
    decreases |extra|
  {
    if extra == [] then fields else PutExtras(Put(fields, extra[0].key, String(extra[0].value)), extra[1..])
  }

  function OptionalString(s: Option<string>): Value {
    if s.Some? then String(s.value) else Null
  }

  function NodeDoc(d: NodeDecl): Value {
    Object(PutExtras([Field("_key", String(d.node.key)),
                      Field("declared_kind", OptionalString(d.node.kind)),
                      Field("tag", OptionalString(d.node.tag)),
                      Field("declared_in", String(d.docKey)),
                      Field("declared_at_line", Num(Integer(d.node.line)))], d.node.extra))
  }

  function PlaceholderDoc(docKey: string, endpoint: Key): Value {
    Object([Field("_key", String(endpoint)), Field("placeholder", Bool(true)), Field("first_named_in", String(docKey))])
  }

  const GRAPH_BLOCK := "graph-block"

  function EdgeAttributes(d: EdgeDecl): Value {
    Object(PutExtras([Field("declared_in", String(d.docKey)), Field("declared_at_line", Num(Integer(d.edge.line)))],
                     d.edge.extra))
  }

  function EdgeDoc(d: EdgeDecl): Value {
    Object([Field("from", String(d.edge.from)), Field("to", String(d.edge.to)),
            Field("relation", String(d.edge.relation)),
            Field("basis", String("declared")), Field("analyzer", String(GRAPH_BLOCK)),
            Field("payload", EdgeAttributes(d))])
  }

  // ---- The three passes ----

  /** `stored_kind`. */
  function StoredKind(t: Tables, key: Key): Option<string> {
    if key in t.nodes then Some(t.nodes[key].kind) else None
  }

  /** A node of the code ingest is left alone. */
  predicate Fuses(t: Tables, key: Key) {
    StoredKind(t, key).Some? && StoredKind(t, key).value != "document"
  }

  datatype NodePass = NodePass(keys: set<Key>, docs: seq<Value>, duplicates: nat, fused: nat)

  function AddNode(t: Tables, p: NodePass, d: NodeDecl): NodePass {
    if d.node.key in p.keys then p.(duplicates := p.duplicates + 1)
    else
      var q := p.(keys := p.keys + {d.node.key});
      if Fuses(t, d.node.key) then q.(fused := q.fused + 1) else q.(docs := q.docs + [NodeDoc(d)])
  }

  function PassNodes(t: Tables, ds: seq<NodeDecl>): NodePass {
    if ds == [] then NodePass({}, [], 0, 0) else AddNode(t, PassNodes(t, ds[..|ds| - 1]), ds[|ds| - 1])
  }

  datatype NamePass = NamePass(seen: set<Key>, docs: seq<Value>)

  function AddName(t: Tables, declaredKeys: set<Key>, p: NamePass, docKey: string, endpoint: Key): NamePass {
    if endpoint in declaredKeys || endpoint in p.seen then p
    else
      var q := p.(seen := p.seen + {endpoint});
      if StoredKind(t, endpoint).None? then q.(docs := q.docs + [PlaceholderDoc(docKey, endpoint)]) else q
  }

  function AddEnds(t: Tables, declaredKeys: set<Key>, p: NamePass, d: EdgeDecl): NamePass {
    AddName(t, declaredKeys, AddName(t, declaredKeys, p, d.docKey, d.edge.from), d.docKey, d.edge.to)
  }

  function PassEnds(t: Tables, declaredKeys: set<Key>, ds: seq<EdgeDecl>): NamePass {
    if ds == [] then NamePass({}, [])
    else AddEnds(t, declaredKeys, PassEnds(t, declaredKeys, ds[..|ds| - 1]), ds[|ds| - 1])
  }

  datatype Identity = Identity(from: Key, to: Key, relation: string)

  function IdentityOf(d: EdgeDecl): Identity {
    Identity(d.edge.from, d.edge.to, d.edge.relation)
  }

  datatype EdgePass = EdgePass(identities: set<Identity>, kept: seq<EdgeDecl>, duplicates: nat,
                               relations: map<string, nat>)

  function AddEdge(p: EdgePass, d: EdgeDecl): EdgePass {
    if IdentityOf(d) in p.identities then p.(duplicates := p.duplicates + 1)
    else
      var r := d.edge.relation;
      EdgePass(p.identities + {IdentityOf(d)}, p.kept + [d], p.duplicates,
               p.relations[r := 1 + if r in p.relations then p.relations[r] else 0])
  }

  function PassEdges(ds: seq<EdgeDecl>): EdgePass {
    if ds == [] then EdgePass({}, [], 0, map[]) else AddEdge(PassEdges(ds[..|ds| - 1]), ds[|ds| - 1])
  }

  function EdgeDocs(ds: seq<EdgeDecl>): seq<Value> {
    seq(|ds|, i requires 0 <= i < |ds| => EdgeDoc(ds[i]))
  }

  // ---- The run ----

  /** Documents the database has no objection to. */
  function Submitted(docs: seq<Value>): seq<Submission> {
    seq(|docs|, i requires 0 <= i < |docs| => Submission(docs[i], Fine))
  }

  /** The start times of the three transactions. */
  datatype Times = Times(nodes: nat, placeholders: nat, edges: nat)

  function NodeBatch(t: Tables, declared: seq<Declared>, overwrite: bool, at: Times): Batch {
    Batch("documents", Submitted(PassNodes(t, AllNodes(declared)).docs), overwrite, at.nodes)
  }

  function PlaceholderBatch(t: Tables, declared: seq<Declared>, declaredKeys: set<Key>, at: Times): Batch {
    Batch("documents", Submitted(PassEnds(t, declaredKeys, AllEdges(declared)).docs), false, at.placeholders)
  }

  function EdgeBatch(declared: seq<Declared>, overwrite: bool, at: Times): Batch {
    Batch("edges", Submitted(EdgeDocs(PassEdges(AllEdges(declared)).kept)), overwrite, at.edges)
  }

  function AfterNodes(t: Tables, declared: seq<Declared>, overwrite: bool, at: Times): Tables {
    BatchTables(t, NodeBatch(t, declared, overwrite, at))
  }

  function AfterPlaceholders(t: Tables, declared: seq<Declared>, overwrite: bool, at: Times): Tables {
    var t1 := AfterNodes(t, declared, overwrite, at);
    BatchTables(t1, PlaceholderBatch(t1, declared, PassNodes(t, AllNodes(declared)).keys, at))
  }

  function AfterEdges(t: Tables, declared: seq<Declared>, overwrite: bool, at: Times): Tables {
    BatchTables(AfterPlaceholders(t, declared, overwrite, at), EdgeBatch(declared, overwrite, at))
  }

  datatype Summary = Summary(nodesDeclared: nat, nodesFused: nat, placeholders: nat, edgesDeclared: nat,
                             edgesRejected: nat,
                             duplicates: nat, relations: map<string, nat>)

  function Created(t: Tables, b: Batch): nat {
    if BatchReport(t, b).Inserted? then BatchReport(t, b).created else 0
  }

  function Errors(t: Tables, b: Batch): nat {
    if BatchReport(t, b).Inserted? then BatchReport(t, b).errors else 0
  }

  function SummaryOf(t: Tables, declared: seq<Declared>, overwrite: bool, at: Times): Summary {
    var t1, t2 := AfterNodes(t, declared, overwrite, at), AfterPlaceholders(t, declared, overwrite, at);
    var (nodes, edges) := (PassNodes(t, AllNodes(declared)), PassEdges(AllEdges(declared)));
    var (named, written) := (PlaceholderBatch(t1, declared, nodes.keys, at), EdgeBatch(declared, overwrite, at));
    Summary(Created(t, NodeBatch(t, declared, overwrite, at)), nodes.fused, Created(t1, named),
            Created(t2, written), Errors(t2, written), nodes.duplicates + edges.duplicates, edges.relations)
  }

  /** `write_declared`. */
  method WriteDeclared(sink: PgSink, declared: seq<Declared>, overwrite: bool, at: Times) returns (summary: Summary)
    modifies sink
    ensures sink.db == AfterEdges(old(sink.db), declared, overwrite, at)
    ensures summary == SummaryOf(old(sink.db), declared, overwrite, at)
  {
    hide BatchTables, BatchReport, EdgeDocs, Submitted, PassNodes, PassEnds, PassEdges, AllNodes, AllEdges;
    var keys, nodeDocs, duplicates, fused := CollectNodes(sink, declared);
    var declaredCount, placed, edgesDeclared, edgesRejected := 0, 0, 0, 0;
    var out: BatchOutcome;
    NoDocuments(sink.db, "documents", overwrite, at.nodes);
    if nodeDocs != [] {
      out := sink.InsertDocuments(Batch("documents", Submitted(nodeDocs), overwrite, at.nodes));
      if out.Inserted? {
        declaredCount := out.created;
      }
    }
    var placeholderDocs := CollectPlaceholders(sink, declared, keys);
    NoDocuments(sink.db, "documents", false, at.placeholders);
    if placeholderDocs != [] {
      out := sink.InsertDocuments(Batch("documents", Submitted(placeholderDocs), false, at.placeholders));
      if out.Inserted? {
        placed := out.created;
      }
    }
    var edgeDocs, repeated, relations := CollectEdges(declared);
    NoDocuments(sink.db, "edges", overwrite, at.edges);
    if edgeDocs != [] {
      out := sink.InsertDocuments(Batch("edges", Submitted(edgeDocs), overwrite, at.edges));
      if out.Inserted? {
        edgesDeclared, edgesRejected := out.created, out.errors;
      }
    }
    return Summary(declaredCount, fused, placed, edgesDeclared, edgesRejected, duplicates + repeated, relations);
  }

  lemma NoDocuments(t: Tables, container: string, overwrite: bool, now: nat)
    requires RouteOf(container).Some?
    ensures var b := Batch(container, Submitted([]), overwrite, now);
      BatchTables(t, b) == t && Created(t, b) == Errors(t, b) == 0
  {
  }

  lemma NodesStep(t: Tables, before: seq<NodeDecl>, these: seq<NodeDecl>, j: nat)
    requires j < |these|
    ensures PassNodes(t, before + these[..j + 1]) == AddNode(t, PassNodes(t, before + these[..j]), these[j])
  {
    assert (before + these[..j + 1])[..|before| + j] == before + these[..j];
  }

  lemma EndsStep(t: Tables, keys: set<Key>, before: seq<EdgeDecl>, these: seq<EdgeDecl>, j: nat)
    requires j < |these|
    ensures PassEnds(t, keys, before + these[..j + 1])
      == AddEnds(t, keys, PassEnds(t, keys, before + these[..j]), these[j])
  {
    assert (before + these[..j + 1])[..|before| + j] == before + these[..j];
  }

  lemma EdgesStep(before: seq<EdgeDecl>, these: seq<EdgeDecl>, j: nat)
    requires j < |these|
    ensures PassEdges(before + these[..j + 1]) == AddEdge(PassEdges(before + these[..j]), these[j])
  {
    assert (before + these[..j + 1])[..|before| + j] == before + these[..j];
  }

  lemma DeclaredStep(declared: seq<Declared>, i: nat)
    requires i < |declared|
    ensures AllNodes(declared[..i + 1]) == AllNodes(declared[..i]) + NodesIn(declared[i])
    ensures AllEdges(declared[..i + 1]) == AllEdges(declared[..i]) + EdgesIn(declared[i])
  {
    assert declared[..i + 1][..i] == declared[..i];
  }

  lemma Whole<T>(a: seq<T>, b: seq<T>)
    ensures a + b[..0] == a && b[..|b|] == b
  {
  }

  /** First declaration wins; a code node is left alone. */
  method CollectNodes(sink: PgSink, declared: seq<Declared>)
    returns (keys: set<Key>, docs: seq<Value>, duplicates: nat, fused: nat)
    ensures NodePass(keys, docs, duplicates, fused) == PassNodes(sink.db, AllNodes(declared))
  {
    hide NodeDoc;
    keys, docs, duplicates, fused := {}, [], 0, 0;
    assert PassNodes(sink.db, AllNodes(declared[..0])) == NodePass(keys, docs, duplicates, fused);
    hide PassNodes, AllNodes;
    for i := 0 to |declared|
      invariant NodePass(keys, docs, duplicates, fused) == PassNodes(sink.db, AllNodes(declared[..i]))
    {
      var d := declared[i];
      ghost var before, these := AllNodes(declared[..i]), NodesIn(d);
      Whole(before, these);
      DeclaredStep(declared, i);
      for j := 0 to |d.nodes|
        invariant NodePass(keys, docs, duplicates, fused) == PassNodes(sink.db, before + these[..j])
      {
        var n := d.nodes[j];
        NodesStep(sink.db, before, these, j);
        if n.key in keys {
          duplicates := duplicates + 1;
        } else {
          keys := keys + {n.key};
          if Fuses(sink.db, n.key) {
            fused := fused + 1;
          } else {
            docs := docs + [NodeDoc(NodeDecl(d.docKey, n))];
          }
        }
      }
    }
    assert declared[..|declared|] == declared;
  }

  method NameEndpoint(sink: PgSink, keys: set<Key>, seen: set<Key>, docs: seq<Value>, docKey: string, endpoint: Key)
    returns (seen': set<Key>, docs': seq<Value>)
    ensures NamePass(seen', docs') == AddName(sink.db, keys, NamePass(seen, docs), docKey, endpoint)
  {
    seen', docs' := seen, docs;
    if endpoint in keys || endpoint in seen {
      return;
    }
    seen' := seen + {endpoint};
    if StoredKind(sink.db, endpoint).None? {
      docs' := docs + [PlaceholderDoc(docKey, endpoint)];
    }
  }

  method CollectPlaceholders(sink: PgSink, declared: seq<Declared>, keys: set<Key>) returns (docs: seq<Value>)
    ensures docs == PassEnds(sink.db, keys, AllEdges(declared)).docs
  {
    hide PlaceholderDoc, AddName;
    docs := [];
    var seen: set<Key> := {};
    assert PassEnds(sink.db, keys, AllEdges(declared[..0])) == NamePass(seen, docs);
    hide PassEnds, AllEdges;
    for i := 0 to |declared|
      invariant NamePass(seen, docs) == PassEnds(sink.db, keys, AllEdges(declared[..i]))
    {
      var d := declared[i];
      ghost var before, these := AllEdges(declared[..i]), EdgesIn(d);
      Whole(before, these);
      DeclaredStep(declared, i);
      for j := 0 to |d.edges|
        invariant NamePass(seen, docs) == PassEnds(sink.db, keys, before + these[..j])
      {
        var e := d.edges[j];
        EndsStep(sink.db, keys, before, these, j);
        seen, docs := NameEndpoint(sink, keys, seen, docs, d.docKey, e.from);
        seen, docs := NameEndpoint(sink, keys, seen, docs, d.docKey, e.to);
      }
    }
    assert declared[..|declared|] == declared;
  }

  /** One document for each identity, the first declaration of it. */
  method CollectEdges(declared: seq<Declared>) returns (docs: seq<Value>, duplicates: nat, relations: map<string, nat>)
    ensures var p := PassEdges(AllEdges(declared));
      docs == EdgeDocs(p.kept) && duplicates == p.duplicates && relations == p.relations
  {
    hide EdgeDoc;
    docs, duplicates, relations := [], 0, map[];
    var identities: set<Identity> := {};
    ghost var kept: seq<EdgeDecl> := [];
    assert PassEdges(AllEdges(declared[..0])) == EdgePass(identities, kept, duplicates, relations);
    hide PassEdges, AllEdges;
    for i := 0 to |declared|
      invariant EdgePass(identities, kept, duplicates, relations) == PassEdges(AllEdges(declared[..i]))
      invariant docs == EdgeDocs(kept)
    {
      var d := declared[i];
      ghost var before, these := AllEdges(declared[..i]), EdgesIn(d);
      Whole(before, these);
      DeclaredStep(declared, i);
      for j := 0 to |d.edges|
        invariant EdgePass(identities, kept, duplicates, relations) == PassEdges(before + these[..j])
        invariant docs == EdgeDocs(kept)
      {
        var e := EdgeDecl(d.docKey, d.edges[j]);
        EdgesStep(before, these, j);
        if IdentityOf(e) in identities {
          duplicates := duplicates + 1;
        } else {
          identities := identities + {IdentityOf(e)};
          var r := e.edge.relation;
          relations := relations[r := 1 + if r in relations then relations[r] else 0];
          docs := docs + [EdgeDoc(e)];
          kept := kept + [e];
        }
      }
    }
    assert declared[..|declared|] == declared;
  }
}
