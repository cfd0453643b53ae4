/** The two-pass order of crates/yeomna-pipeline/src/codebase.rs: every node is written before any
    edge, so a `defines` edge always finds both its ends. */
module Codebase {
  import opened Json
  import opened Shapes
  import opened Store
  import opened Documents
  import opened Symbols

  /** One analyzed file; `facts` are the members of its node that hold no key. */
  datatype Analyzed = Analyzed(fileKey: string, symbols: seq<Symbol>, analyzer: string, tier: string, facts: seq<Field>,
                               changed: bool)

  function FileDoc(f: Analyzed): Value {
    Object([Field("_key", String(f.fileKey))] + f.facts)
  }

  function KeyFor(hash: Hash8, fileKey: string, s: Symbol): Key {
    SymbolKey(hash, fileKey, QualifiedName(s), s.startLine)
  }

  /** `symbol_doc`: imports and impl blocks are not graph primitives. */
  function SymbolDoc(hash: Hash8, fileKey: string, s: Symbol): Option<Value> {
    match UniversalKind(s.kind)
    case None => None
    case Some(kind) =>
      Some(Object([Field("_key", String(KeyFor(hash, fileKey, s))), Field("kind", String(kind)),
                   Field("name", String(s.name)),
                   Field("qualified_name", String(QualifiedName(s))), Field("file_key", String(fileKey)),
                   Field("start_line", Num(Integer(s.startLine))), Field("end_line", Num(Integer(s.endLine))),
                   Field("metadata", s.metadata)]))
  }

  function SymbolDocs(hash: Hash8, fileKey: string, symbols: seq<Symbol>): seq<Value> {
    if symbols == [] then []
    else
      SymbolDocs(hash, fileKey, symbols[..|symbols| - 1])
      + match SymbolDoc(hash, fileKey, symbols[|symbols| - 1]) case Some(d) => [d] case None => []
  }

  function DefinesDoc(hash: Hash8, f: Analyzed, s: Symbol): Value {
    Object([Field("from", String(f.fileKey)), Field("to", String(KeyFor(hash, f.fileKey, s))),
            Field("relation", String("defines")),
            Field("basis", String("declared")), Field("analyzer", String(f.analyzer)),
            Field("payload", Object([Field("analysis_tier", String(f.tier))]))])
  }

  function DefinesOf(hash: Hash8, f: Analyzed, symbols: seq<Symbol>): seq<Value> {
    if symbols == [] then []
    else
      DefinesOf(hash, f, symbols[..|symbols| - 1])
      + if UniversalKind(symbols[|symbols| - 1].kind).Some? then [DefinesDoc(hash, f, symbols[|symbols| - 1])] else []
  }

  function AllDefines(hash: Hash8, files: seq<Analyzed>): seq<Value> {
    if files == [] then []
    else
      var f := files[|files| - 1];
      AllDefines(hash, files[..|files| - 1]) + if f.changed then DefinesOf(hash, f, f.symbols) else []
  }

  // ---- Pass 1 ----

  function AfterFile(t: Tables, hash: Hash8, f: Analyzed, overwrite: bool, now: nat): Tables {
    var t1 := BatchTables(t, Batch("codebase_files", Submitted([FileDoc(f)]), overwrite, now));
    BatchTables(t1, Batch("codebase_symbols", Submitted(SymbolDocs(hash, f.fileKey, f.symbols)), overwrite, now))
  }

  function AfterFiles(t: Tables, hash: Hash8, files: seq<Analyzed>, overwrite: bool, now: nat): Tables {
    if files == [] then t
    else
      var u, f := AfterFiles(t, hash, files[..|files| - 1], overwrite, now), files[|files| - 1];
      if f.changed then AfterFile(u, hash, f, overwrite, now) else u
  }

  /** `write_file_nodes`: the file node, then its symbols. */
  method WriteFileNodes(sink: PgSink, hash: Hash8, f: Analyzed, overwrite: bool, now: nat)
    modifies sink
    ensures sink.db == AfterFile(old(sink.db), hash, f, overwrite, now)
  {
    hide BatchTables, BatchReport, FileDoc, SymbolDoc;
    var out := sink.InsertDocuments(Batch("codebase_files", Submitted([FileDoc(f)]), overwrite, now));
    var docs: seq<Value> := [];
    for i := 0 to |f.symbols|
      invariant docs == SymbolDocs(hash, f.fileKey, f.symbols[..i])
    {
      assert f.symbols[..i + 1][..i] == f.symbols[..i];
      var d := SymbolDoc(hash, f.fileKey, f.symbols[i]);
      if d.Some? {
        docs := docs + [d.value];
      }
    }
    assert f.symbols[..|f.symbols|] == f.symbols;
    NoDocuments(sink.db, "codebase_symbols", overwrite, now);
    if docs != [] {
      out := sink.InsertDocuments(Batch("codebase_symbols", Submitted(docs), overwrite, now));
    }
  }

  /** Pass 1 of `ingest_codebase`. */
  method WriteNodes(sink: PgSink, hash: Hash8, files: seq<Analyzed>, overwrite: bool, now: nat)
    modifies sink
    ensures sink.db == AfterFiles(old(sink.db), hash, files, overwrite, now)
  {
    hide AfterFile;
    for i := 0 to |files|
      invariant sink.db == AfterFiles(old(sink.db), hash, files[..i], overwrite, now)
    {
      assert files[..i + 1][..i] == files[..i];
      if files[i].changed {
        WriteFileNodes(sink, hash, files[i], overwrite, now);
      }
    }
    assert files[..|files|] == files;
  }

  /** The `defines` part of `write_edges`. */
  method CollectDefines(hash: Hash8, files: seq<Analyzed>) returns (docs: seq<Value>)
    ensures docs == AllDefines(hash, files)
  {
    hide DefinesDoc;
    docs := [];
    for i := 0 to |files|
      invariant docs == AllDefines(hash, files[..i])
    {
      assert files[..i + 1][..i] == files[..i];
      var f := files[i];
      ghost var before := docs;
      if f.changed {
        for j := 0 to |f.symbols|
          invariant docs == before + DefinesOf(hash, f, f.symbols[..j])
        {
          assert f.symbols[..j + 1][..j] == f.symbols[..j];
          if UniversalKind(f.symbols[j].kind).Some? {
            docs := docs + [DefinesDoc(hash, f, f.symbols[j])];
          }
        }
        assert f.symbols[..|f.symbols|] == f.symbols;
      }
    }
    assert files[..|files|] == files;
  }

  // ---- What the nodes hold ----

  /** Main result: every symbol but an import and an impl block has a document, of a kind the table takes,
      with the symbol's own names, lines and metadata. */
  lemma SymbolDocHolds(hash: Hash8, fileKey: string, s: Symbol)
    ensures SymbolDoc(hash, fileKey, s).None? <==> s.kind.Import? || s.kind.Impl?
    ensures SymbolDoc(hash, fileKey, s).Some? ==>
      var doc := SymbolDoc(hash, fileKey, s).value;
      && GetStr(doc, "_key") == Some(KeyFor(hash, fileKey, s))
      && GetStr(doc, "kind") == UniversalKind(s.kind) && KindAllowed(GetStr(doc, "kind").value)
      && GetStr(doc, "name") == Some(s.name) && GetStr(doc, "qualified_name") == Some(QualifiedName(s))
      && GetStr(doc, "file_key") == Some(fileKey) && Get(doc, "metadata") == Some(s.metadata)
      && Get(doc, "start_line") == Some(Num(Integer(s.startLine)))
      && Get(doc, "end_line") == Some(Num(Integer(s.endLine)))
  {
    hide KeyFor, QualifiedName, Get;
    if UniversalKind(s.kind).Some? {
      SymbolFields(hash, fileKey, s);
      var fs := SymbolDoc(hash, fileKey, s).value.fields;
      assert fs[0].key == "_key" && fs[1].key == "kind" && fs[2].key == "name" && fs[3].key == "qualified_name";
      assert fs[4].key == "file_key" && fs[5].key == "start_line" && fs[6].key == "end_line" && fs[7].key == "metadata";
    }
  }

  lemma SymbolFields(hash: Hash8, fileKey: string, s: Symbol)
    requires UniversalKind(s.kind).Some?
    ensures var (doc, fields) := (SymbolDoc(hash, fileKey, s).value, SymbolDoc(hash, fileKey, s).value.fields);
      |fields| == 8 && forall i :: 0 <= i < 8 ==> Get(doc, fields[i].key) == Some(fields[i].value)
  {
    hide KeyFor, QualifiedName, UniversalKind;
    var fields := SymbolDoc(hash, fileKey, s).value.fields;
    SymbolKeysDistinct();
    assert forall i :: 0 <= i < 8 ==> fields[i].key == SYMBOL_MEMBERS[i];
    hide SymbolDoc, Get;
    forall i | 0 <= i < 8 ensures Get(Object(fields), fields[i].key) == Some(fields[i].value) {
      MemberAt(fields, fields[i].key, i);
    }
  }

  const SYMBOL_MEMBERS: seq<string> :=
    ["_key", "kind", "name", "qualified_name", "file_key", "start_line", "end_line", "metadata"]

  lemma SymbolKeysDistinct()
    ensures |SYMBOL_MEMBERS| == 8
    ensures forall i, j :: 0 <= i < j < 8 ==> SYMBOL_MEMBERS[i] != SYMBOL_MEMBERS[j]
  {
    assert SYMBOL_MEMBERS[0][0] == '_' && SYMBOL_MEMBERS[1][0] == 'k' && SYMBOL_MEMBERS[2][0] == 'n';
    assert SYMBOL_MEMBERS[3][0] == 'q' && SYMBOL_MEMBERS[4][0] == 'f' && SYMBOL_MEMBERS[5][0] == 's';
    assert SYMBOL_MEMBERS[6][0] == 'e' && SYMBOL_MEMBERS[7][0] == 'm';
  }

  lemma FileDocHolds(f: Analyzed, k: string)
    ensures Get(FileDoc(f), "_key") == Some(String(f.fileKey))
    ensures k != "_key" ==> Get(FileDoc(f), k) == Get(Object(f.facts), k)
  {
    assert ([Field("_key", String(f.fileKey))] + f.facts)[1..] == f.facts;
  }

  // ---- Every `defines` edge resolves ----

  lemma OtherWriteKeepsKeys(t: Tables, route: Route, doc: Value, overwrite: bool)
    ensures var u := OtherWrite(t, route, doc, overwrite).tables;
      t.nodes.Keys <= u.nodes.Keys && t.edges.Keys <= u.edges.Keys
  {
    hide StripContainer, EdgePayload, ChunkIndexFromKey, Resolve;
  }

  lemma UpsertKeepsKeys(t: Tables, key: Key, kind: string, payload: Jsonb, overwrite: bool, now: nat)
    ensures var u := Upsert(t, key, kind, payload, overwrite, now).tables;
      t.nodes.Keys <= u.nodes.Keys && t.edges.Keys <= u.edges.Keys
  {
  }

  lemma DocWriteKeepsKeys(t: Tables, route: Route, doc: Value, overwrite: bool, now: nat)
    ensures t.nodes.Keys <= DocWrite(t, route, doc, overwrite, now).tables.nodes.Keys
    ensures t.edges.Keys <= DocWrite(t, route, doc, overwrite, now).tables.edges.Keys
  {
    hide OtherWrite, Upsert, PayloadOf;
    if !IsNodeRoute(route) {
      OtherWriteKeepsKeys(t, route, doc, overwrite);
    } else if NodeKey(route, doc).Some? {
      UpsertKeepsKeys(t, NodeKey(route, doc).value, NodeKind(route, doc), PayloadOf(doc), overwrite, now);
    }
  }

  /** No batch loses a node. */
  lemma {:induction false} FoldKeepsKeys(t: Tables, route: Route, docs: seq<Submission>, overwrite: bool, now: nat,
                                         m: nat, n: nat)
    requires m <= n <= |docs| && Fold(t, route, docs, overwrite, now, n).Folded?
    ensures var (f, g) := (Fold(t, route, docs, overwrite, now, m), Fold(t, route, docs, overwrite, now, n));
      f.Folded? && f.tables.nodes.Keys <= g.tables.nodes.Keys && f.tables.edges.Keys <= g.tables.edges.Keys
    decreases n
  {
    hide DocWrite;
    if m < n {
      FoldKeepsKeys(t, route, docs, overwrite, now, m, n - 1);
      var f := Fold(t, route, docs, overwrite, now, n - 1);
      DocWriteKeepsKeys(f.tables, route, docs[n - 1].doc, overwrite, now);
    }
  }

  lemma BatchKeepsKeys(t: Tables, b: Batch)
    ensures t.nodes.Keys <= BatchTables(t, b).nodes.Keys
  {
    hide Fold, RouteOf;
    if RouteOf(b.container).Some? && Fold(t, RouteOf(b.container).value, b.docs, b.overwrite, b.now, |b.docs|).Folded? {
      FoldKeepsKeys(t, RouteOf(b.container).value, b.docs, b.overwrite, b.now, 0, |b.docs|);
      FoldStart(t, RouteOf(b.container).value, b.docs, b.overwrite, b.now);
    }
  }

  lemma FoldStart(t: Tables, route: Route, docs: seq<Submission>, overwrite: bool, now: nat)
    ensures Fold(t, route, docs, overwrite, now, 0) == Folded(t, 0, 0)
  {
  }

  lemma {:induction false} NeverLost(t: Tables, route: Route, docs: seq<Value>, overwrite: bool, now: nat, n: nat)
    requires n <= |docs|
    ensures Fold(t, route, Submitted(docs), overwrite, now, n).Folded?
    decreases n
  {
    hide DocWrite;
    if n > 0 {
      NeverLost(t, route, docs, overwrite, now, n - 1);
    }
  }

  lemma FoldStep(t: Tables, route: Route, docs: seq<Value>, overwrite: bool, now: nat, i: nat)
    requires i < |docs|
    ensures var (f, g) :=
      (Fold(t, route, Submitted(docs), overwrite, now, i), Fold(t, route, Submitted(docs), overwrite, now, i + 1));
      f.Folded? && g.Folded? && g.tables == DocWrite(f.tables, route, docs[i], overwrite, now).tables
  {
    NeverLost(t, route, docs, overwrite, now, i);
    hide DocWrite;
    assert Submitted(docs)[i] == Submission(docs[i], Fine);
  }

  /** What the batch holds once its `i`th document is written stays. */
  lemma WrittenStays(t: Tables, container: string, route: Route, docs: seq<Value>, overwrite: bool, now: nat, i: nat)
    returns (u: Tables)
    requires i < |docs| && RouteOf(container) == Some(route)
    ensures t.nodes.Keys <= u.nodes.Keys
    ensures var (w, v) :=
      (DocWrite(u, route, docs[i], overwrite, now).tables,
       BatchTables(t, Batch(container, Submitted(docs), overwrite, now)));
      w.nodes.Keys <= v.nodes.Keys && w.edges.Keys <= v.edges.Keys
  {
    hide DocWrite, RouteOf, Fold;
    var subs := Submitted(docs);
    NeverLost(t, route, docs, overwrite, now, |docs|);
    FoldStep(t, route, docs, overwrite, now, i);
    FoldKeepsKeys(t, route, subs, overwrite, now, i + 1, |docs|);
    FoldKeepsKeys(t, route, subs, overwrite, now, 0, i);
    FoldStart(t, route, subs, overwrite, now);
    u := Fold(t, route, subs, overwrite, now, i).tables;
  }

  lemma WriteHasKey(t: Tables, route: Route, doc: Value, overwrite: bool, now: nat)
    requires IsNodeRoute(route) && NodeKey(route, doc).Some? && KindAllowed(NodeKind(route, doc))
    ensures NodeKey(route, doc).value in DocWrite(t, route, doc, overwrite, now).tables.nodes
  {
    hide PayloadOf, GetStr;
  }

  /** A document with a key and a kind the table allows has its node after the batch. */
  lemma NodeWritten(t: Tables, container: string, route: Route, docs: seq<Value>, overwrite: bool, now: nat, i: nat)
    requires i < |docs| && RouteOf(container) == Some(route) && IsNodeRoute(route)
    requires NodeKey(route, docs[i]).Some? && KindAllowed(NodeKind(route, docs[i]))
    ensures NodeKey(route, docs[i]).value in BatchTables(t, Batch(container, Submitted(docs), overwrite, now)).nodes
  {
    hide DocWrite, RouteOf, NodeKey, NodeKind, KindAllowed, BatchTables;
    var u := WrittenStays(t, container, route, docs, overwrite, now, i);
    WriteHasKey(u, route, docs[i], overwrite, now);
  }

  lemma FileDocReads(f: Analyzed)
    ensures NodeKey(Metadata("file"), FileDoc(f)) == Some(f.fileKey)
  {
  }

  lemma SymbolDocReads(hash: Hash8, fileKey: string, s: Symbol)
    requires UniversalKind(s.kind).Some?
    ensures var doc := SymbolDoc(hash, fileKey, s).value;
      && NodeKey(Store.Symbol, doc) == Some(KeyFor(hash, fileKey, s))
      && NodeKind(Store.Symbol, doc) == UniversalKind(s.kind).value && KindAllowed(UniversalKind(s.kind).value)
  {
    hide KeyFor, QualifiedName;
    var fields := SymbolDoc(hash, fileKey, s).value.fields;
    MemberAt(fields, "_key", 0);
    MemberAt(fields, "kind", 1);
  }

  lemma {:induction false} SymbolDocsHave(hash: Hash8, fileKey: string, symbols: seq<Symbol>, j: nat) returns (i: nat)
    requires j < |symbols| && UniversalKind(symbols[j].kind).Some?
    ensures i < |SymbolDocs(hash, fileKey, symbols)|
    ensures SymbolDoc(hash, fileKey, symbols[j]) == Some(SymbolDocs(hash, fileKey, symbols)[i])
  {
    hide KeyFor, QualifiedName;
    if j == |symbols| - 1 {
      i := |SymbolDocs(hash, fileKey, symbols)| - 1;
    } else {
      i := SymbolDocsHave(hash, fileKey, symbols[..|symbols| - 1], j);
    }
  }

  /** Both ends of a `defines` edge are nodes once its file is written. */
  lemma FileWritten(t: Tables, hash: Hash8, f: Analyzed, overwrite: bool, now: nat, j: nat)
    requires j < |f.symbols| && UniversalKind(f.symbols[j].kind).Some?
    ensures {f.fileKey, KeyFor(hash, f.fileKey, f.symbols[j])} <= AfterFile(t, hash, f, overwrite, now).nodes.Keys
  {
    hide BatchTables, SymbolDoc, FileDoc, KeyFor, NodeKey, NodeKind, KindAllowed, SymbolDocs;
    assert RouteOf("codebase_files") == Some(Metadata("file")) && RouteOf("codebase_symbols") == Some(Store.Symbol);
    hide RouteOf;
    var t1 := BatchTables(t, Batch("codebase_files", Submitted([FileDoc(f)]), overwrite, now));
    FileDocReads(f);
    FileKind(f);
    NodeWritten(t, "codebase_files", Metadata("file"), [FileDoc(f)], overwrite, now, 0);
    var docs := SymbolDocs(hash, f.fileKey, f.symbols);
    SymbolDocReads(hash, f.fileKey, f.symbols[j]);
    var i := SymbolDocsHave(hash, f.fileKey, f.symbols, j);
    NodeWritten(t1, "codebase_symbols", Store.Symbol, docs, overwrite, now, i);
    BatchKeepsKeys(t1, Batch("codebase_symbols", Submitted(docs), overwrite, now));
  }

  lemma FileKind(f: Analyzed)
    requires NodeKey(Metadata("file"), FileDoc(f)).Some?
    ensures KindAllowed(NodeKind(Metadata("file"), FileDoc(f)))
  {
  }

  lemma AfterFileKeepsKeys(t: Tables, hash: Hash8, f: Analyzed, overwrite: bool, now: nat)
    ensures t.nodes.Keys <= AfterFile(t, hash, f, overwrite, now).nodes.Keys
  {
    hide BatchTables;
    var b := Batch("codebase_files", Submitted([FileDoc(f)]), overwrite, now);
    BatchKeepsKeys(t, b);
    BatchKeepsKeys(BatchTables(t, b),
                   Batch("codebase_symbols", Submitted(SymbolDocs(hash, f.fileKey, f.symbols)), overwrite, now));
  }

  lemma {:induction false} FilesWritten(t: Tables, hash: Hash8, files: seq<Analyzed>, overwrite: bool, now: nat, i: nat,
                                        j: nat)
    requires i < |files| && files[i].changed && j < |files[i].symbols| && UniversalKind(files[i].symbols[j].kind).Some?
    ensures {files[i].fileKey, KeyFor(hash, files[i].fileKey, files[i].symbols[j])}
      <= AfterFiles(t, hash, files, overwrite, now).nodes.Keys
  {
    hide AfterFile, KeyFor;
    var init, f := files[..|files| - 1], files[|files| - 1];
    var u := AfterFiles(t, hash, init, overwrite, now);
    if i < |files| - 1 {
      FilesWritten(t, hash, init, overwrite, now, i, j);
      AfterFileKeepsKeys(u, hash, f, overwrite, now);
    } else {
      FileWritten(u, hash, f, overwrite, now, j);
    }
  }

  lemma PlainKey(key: Key)
    requires '/' !in key
    ensures StripContainer(key) == key
  {
  }

  /** The row of a `defines` edge. */
  predicate HasDefines(t: Tables, fileKey: Key, symbolKey: Key) {
    fileKey in t.nodes && symbolKey in t.nodes
      && EdgeId(t.nodes[fileKey].id, t.nodes[symbolKey].id, "defines", "declared") in t.edges
  }

  lemma DefinesReads(hash: Hash8, f: Analyzed, s: Symbol)
    ensures var doc := DefinesDoc(hash, f, s);
      && GetStr(doc, "from") == Some(f.fileKey) && GetStr(doc, "to") == Some(KeyFor(hash, f.fileKey, s))
      && GetStr(doc, "relation") == Some("defines") && GetStr(doc, "basis") == Some("declared")
        && GetStr(doc, "analyzer") == Some(f.analyzer)
  {
    hide KeyFor, QualifiedName;
    var fields := DefinesDoc(hash, f, s).fields;
    MemberAt(fields, "from", 0);
    MemberAt(fields, "to", 1);
    MemberAt(fields, "relation", 2);
    MemberAt(fields, "basis", 3);
    MemberAt(fields, "analyzer", 4);
  }

  lemma {:induction false} EdgesKeepNodes(t: Tables, docs: seq<Value>, overwrite: bool, now: nat, n: nat)
    requires n <= |docs|
    ensures Fold(t, Edges, Submitted(docs), overwrite, now, n).Folded?
    ensures Fold(t, Edges, Submitted(docs), overwrite, now, n).tables.nodes == t.nodes
    decreases n
  {
    hide DocWrite;
    if n > 0 {
      EdgesKeepNodes(t, docs, overwrite, now, n - 1);
      EdgeKeepsNodes(Fold(t, Edges, Submitted(docs), overwrite, now, n - 1).tables, docs[n - 1], overwrite, now);
    }
  }

  lemma EdgeKeepsNodes(t: Tables, doc: Value, overwrite: bool, now: nat)
    ensures DocWrite(t, Edges, doc, overwrite, now).tables.nodes == t.nodes
  {
    hide StripContainer, EdgePayload, GetStr;
  }

  lemma EdgeLands(t: Tables, doc: Value, from: Key, to: Key, relation: string, overwrite: bool, now: nat)
    requires GetStr(doc, "from") == Some(from) && GetStr(doc, "to") == Some(to)
      && GetStr(doc, "relation") == Some(relation)
    requires GetStr(doc, "basis") == Some("declared") && GetStr(doc, "analyzer").Some?
      && EdgeAllowed("declared", relation)
    requires StripContainer(from) == from && StripContainer(to) == to && from in t.nodes && to in t.nodes
    ensures var u := DocWrite(t, Edges, doc, overwrite, now).tables;
      u.nodes == t.nodes && EdgeId(t.nodes[from].id, t.nodes[to].id, relation, "declared") in u.edges
  {
    hide StripContainer, EdgePayload, GetStr, EdgeAllowed;
  }

  lemma DefinesWrites(t: Tables, hash: Hash8, f: Analyzed, s: Symbol, overwrite: bool, now: nat)
    requires '/' !in f.fileKey && '/' !in KeyFor(hash, f.fileKey, s)
    requires f.fileKey in t.nodes && KeyFor(hash, f.fileKey, s) in t.nodes
    ensures HasDefines(DocWrite(t, Edges, DefinesDoc(hash, f, s), overwrite, now).tables, f.fileKey,
                       KeyFor(hash, f.fileKey, s))
  {
    hide StripContainer, KeyFor, DefinesDoc, GetStr, DocWrite;
    DefinesReads(hash, f, s);
    PlainKey(f.fileKey);
    PlainKey(KeyFor(hash, f.fileKey, s));
    assert IsRelation("defines");
    EdgeLands(t, DefinesDoc(hash, f, s), f.fileKey, KeyFor(hash, f.fileKey, s), "defines", overwrite, now);
  }

  lemma {:induction false} DefinesHave(hash: Hash8, f: Analyzed, symbols: seq<Symbol>, j: nat)
    requires j < |symbols| && UniversalKind(symbols[j].kind).Some?
    ensures DefinesDoc(hash, f, symbols[j]) in DefinesOf(hash, f, symbols)
  {
    hide DefinesDoc;
    if j < |symbols| - 1 {
      DefinesHave(hash, f, symbols[..|symbols| - 1], j);
    }
  }

  lemma {:induction false} AllDefinesHave(hash: Hash8, files: seq<Analyzed>, i: nat, j: nat)
    requires i < |files| && files[i].changed && j < |files[i].symbols| && UniversalKind(files[i].symbols[j].kind).Some?
    ensures DefinesDoc(hash, files[i], files[i].symbols[j]) in AllDefines(hash, files)
  {
    hide DefinesDoc;
    if i < |files| - 1 {
      AllDefinesHave(hash, files[..|files| - 1], i, j);
    } else {
      DefinesHave(hash, files[i], files[i].symbols, j);
    }
  }

  /** Main result: whatever was written between the passes and whatever other edges share the batch,
      every `defines` edge of a changed file has its row, from its file's node to its symbol's. */
  lemma EveryDefinesResolves(t: Tables, u: Tables, hash: Hash8, files: seq<Analyzed>, before: seq<Value>,
                             after: seq<Value>, overwrite: bool, now: nat, later: nat, i: nat, j: nat)
    requires IsHex(hash) && forall k :: 0 <= k < |files| ==> '/' !in files[k].fileKey
    requires AfterFiles(t, hash, files, overwrite, now).nodes.Keys <= u.nodes.Keys
    requires i < |files| && files[i].changed && j < |files[i].symbols| && UniversalKind(files[i].symbols[j].kind).Some?
    ensures var b := Batch("codebase_edges", Submitted(before + AllDefines(hash, files) + after), overwrite, later);
      HasDefines(BatchTables(u, b), files[i].fileKey, KeyFor(hash, files[i].fileKey, files[i].symbols[j]))
  {
    hide AfterFiles, DefinesDoc, AllDefines, QualifiedName, SymbolKey;
    var f, s := files[i], files[i].symbols[j];
    FilesWritten(t, hash, files, overwrite, now, i, j);
    SymbolKeyNoSlash(hash, f.fileKey, QualifiedName(s), s.startLine);
    AllDefinesHave(hash, files, i, j);
    var docs := before + AllDefines(hash, files) + after;
    assert DefinesDoc(hash, f, s) in docs;
    var k :| 0 <= k < |docs| && docs[k] == DefinesDoc(hash, f, s);
    DefinesLands(u, hash, f, s, docs, overwrite, later, k);
  }

  lemma DefinesLands(u: Tables, hash: Hash8, f: Analyzed, s: Symbol, docs: seq<Value>, overwrite: bool, later: nat,
                     k: nat)
    requires k < |docs| && docs[k] == DefinesDoc(hash, f, s)
    requires '/' !in f.fileKey && '/' !in KeyFor(hash, f.fileKey, s)
    requires f.fileKey in u.nodes && KeyFor(hash, f.fileKey, s) in u.nodes
    ensures HasDefines(BatchTables(u, Batch("codebase_edges", Submitted(docs), overwrite, later)), f.fileKey,
                       KeyFor(hash, f.fileKey, s))
  {
    hide DocWrite, DefinesDoc, KeyFor;
    assert RouteOf("codebase_edges") == Some(Edges);
    hide RouteOf;
    EdgesKeepNodes(u, docs, overwrite, later, k);
    EdgesKeepNodes(u, docs, overwrite, later, |docs|);
    var v := Fold(u, Edges, Submitted(docs), overwrite, later, k).tables;
    DefinesWrites(v, hash, f, s, overwrite, later);
    FoldStep(u, Edges, docs, overwrite, later, k);
    FoldKeepsKeys(u, Edges, Submitted(docs), overwrite, later, k + 1, |docs|);
    EdgeKeepsNodes(v, docs[k], overwrite, later);
    hide Fold;
  }
}
