/** `PgSink` of crates/yeomna-store/src/sink.rs over tables as maps: head rows, the append-only log
    of each node, edges, chunks and embeddings, written in batches with one savepoint a document. */
module Store {
  import opened Json
  import opened Strings
  import opened CanonicalJson
  import opened Shapes

  type Key = string

  /** A jsonb value, in which the order of members does not exist: its canonical text. */
  type Jsonb = string

  function ToJsonb(v: Value): Jsonb {
    Text(Canonical(v))
  }

  /** `IS DISTINCT FROM` on jsonb is inequality up to member order. */
  lemma JsonbEquality(v: Value, w: Value)
    requires WellFormed(v) && WellFormed(w)
    ensures ToJsonb(v) == ToJsonb(w) <==> EqualUpToOrder(v, w)
  {
    SameBytesIffEqualUpToOrder(v, w);
    if ToJsonb(v) == ToJsonb(w) {
      assert CanonicalBytes(v) == CanonicalBytes(w);
    } else {
      BytesInjective(v, w);
    }
  }

  // ---- Tables ----

  /** A head row of `nodes`. */
  datatype NodeRow = NodeRow(id: nat, kind: string, payload: Jsonb, ingestedAt: nat)

  /** A row of `node_log`: an insert has no `from`. */
  datatype LogEntry = LogEntry(seqNo: nat, from: Option<Jsonb>, to: Jsonb)

  datatype EdgeId = EdgeId(src: nat, dst: nat, relation: string, basis: string)

  datatype EdgeRow = EdgeRow(analyzer: string, payload: Jsonb)

  datatype ChunkId = ChunkId(node: nat, index: int)

  datatype ChunkRow = ChunkRow(id: nat, text: string, start: int, end: int, symbols: seq<nat>)

  datatype VectorRow = VectorRow(vec: seq<Number>, model: string, revision: string, task: string)

  datatype Tables = Tables(nodes: map<Key, NodeRow>, log: map<nat, seq<LogEntry>>, edges: map<EdgeId, EdgeRow>,
                           chunks: map<ChunkId, ChunkRow>, vectors: map<nat, VectorRow>, nextNode: nat, nextChunk: nat)

  // ---- Routing ----

  datatype Route = Metadata(kind: string) | Symbol | Chunks | Embeddings | Edges

  /** `route`. */
  function RouteOf(container: string): Option<Route> {
    if container == "documents" then Some(Metadata("document"))
    else if container == "codebase_files" then Some(Metadata("file"))
    else if container == "codebase_symbols" then Some(Symbol)
    else if container == "chunks" || container == "codebase_chunks" then Some(Chunks)
    else if container == "embeddings" || container == "codebase_embeddings" then Some(Embeddings)
    else if container == "edges" || container == "codebase_edges" then Some(Edges)
    else None
  }

  /** `strip_container`. */
  function StripContainer(id: string): string {
    var at := Find(id, '/');
    if at < |id| && RouteOf(id[..at]).Some? then id[at + 1..] else id
  }

  // ---- Reading a document ----

  /** `Value::as_i64` on a member. */
  function GetInt(doc: Value, key: string): Option<int> {
    match Get(doc, key)
    case Some(Num(Integer(n))) => if -0x8000_0000_0000_0000 <= n < 0x8000_0000_0000_0000 then Some(n) else None
    case _ => None
  }

  predicate FitsI32(n: int) {
    -0x8000_0000 <= n < 0x8000_0000
  }

  function Without(fields: seq<Field>, key: string): seq<Field> {
    if fields == [] then []
    else (if fields[0].key == key then [] else [fields[0]]) + Without(fields[1..], key)
  }

  /** The document without its key, as jsonb. */
  function PayloadOf(doc: Value): Jsonb {
    if doc.Object? then ToJsonb(Object(Without(doc.fields, "_key"))) else ToJsonb(doc)
  }

  function StringItems(items: seq<Value>): seq<string> {
    if items == [] then []
    else (if items[0].String? then [items[0].s] else []) + StringItems(items[1..])
  }

  function NumberItems(items: seq<Value>): Option<seq<Number>> {
    if items == [] then Some([])
    else
      match (items[0], NumberItems(items[1..]))
      case (Num(x), Some(rest)) => Some([x] + rest)
      case _ => None
  }

  /** `yeomna_keys::chunk_key`. */
  function ChunkKey(docKey: string, index: nat): string {
    docKey + "_chunk_" + Digits(index)
  }

  predicate AllDigits(s: string) {
    s != "" && forall i :: 0 <= i < |s| ==> '0' <= s[i] <= '9'
  }

  /** `chunk_index_from_key`: the index whose key this is. */
  function ChunkIndexFromKey(docKey: string, chunkKey: string): Option<nat> {
    var prefix := docKey + "_chunk_";
    if prefix <= chunkKey && AllDigits(chunkKey[|prefix|..])
      && Digits(DigitsValue(chunkKey[|prefix|..])) == chunkKey[|prefix|..]
    then Some(DigitsValue(chunkKey[|prefix|..]))
    else None
  }

  /** The parsed index is exactly the one that rebuilds the key. */
  lemma ChunkIndexRoundTrips(docKey: string, chunkKey: string, index: nat)
    ensures ChunkIndexFromKey(docKey, chunkKey) == Some(index) <==> chunkKey == ChunkKey(docKey, index)
  {
    var prefix := docKey + "_chunk_";
    if chunkKey == ChunkKey(docKey, index) {
      assert chunkKey[|prefix|..] == Digits(index);
      DigitsInverse(index);
    }
    if ChunkIndexFromKey(docKey, chunkKey) == Some(index) {
      assert chunkKey == prefix + chunkKey[|prefix|..];
    }
  }

  // ---- One write, looking every parent up afresh ----

  datatype Written = Written(tables: Tables, created: bool)

  function Lookup(t: Tables, key: Key): Option<nat> {
    if key in t.nodes then Some(t.nodes[key].id) else None
  }

  /** The CHECK on `nodes.kind`. */
  predicate KindAllowed(kind: string) {
    kind in {"file", "module", "type", "callable", "value", "document"}
  }

  function LogOf(t: Tables, id: nat): seq<LogEntry> {
    if id in t.log then t.log[id] else []
  }

  function MaxSeq(log: seq<LogEntry>): nat {
    if log == [] then 0
    else
      var m := MaxSeq(log[..|log| - 1]);
      if log[|log| - 1].seqNo > m then log[|log| - 1].seqNo else m
  }

  /** `append_log`. */
  function Appended(t: Tables, id: nat, from: Option<Jsonb>, to: Jsonb): Tables {
    t.(log := t.log[id := LogOf(t, id) + [LogEntry(MaxSeq(LogOf(t, id)) + 1, from, to)]])
  }

  function NewRow(t: Tables, key: Key, kind: string, payload: Jsonb, now: nat): Tables {
    var id := t.nextNode;
    Appended(t.(nodes := t.nodes[key := NodeRow(id, kind, payload, now)], nextNode := id + 1), id, None, payload)
  }

  function Overwritten(t: Tables, key: Key, kind: string, payload: Jsonb, now: nat): Tables
    requires key in t.nodes
  {
    var head := t.nodes[key];
    var row := NodeRow(head.id, kind, payload, if head.payload != payload then now else head.ingestedAt);
    var t' := t.(nodes := t.nodes[key := row]);
    if head.payload != payload then Appended(t', head.id, Some(head.payload), payload) else t'
  }

  /** The head row and its log after a payload lands under a key. */
  function Upsert(t: Tables, key: Key, kind: string, payload: Jsonb, overwrite: bool, now: nat): Written {
    if !KindAllowed(kind) then Written(t, false)
    else if key !in t.nodes then Written(NewRow(t, key, kind, payload, now), true)
    else if !overwrite then Written(t, false)
    else Written(Overwritten(t, key, kind, payload, now), true)
  }

  /** `insert_node`. */
  function NodeWrite(t: Tables, kind: string, doc: Value, overwrite: bool, now: nat): Written {
    match GetStr(doc, "_key")
    case None => Written(t, false)
    case Some(key) => Upsert(t, key, kind, PayloadOf(doc), overwrite, now)
  }

  /** The partition and CHECK an edge has to meet. */
  predicate EdgeAllowed(basis: string, relation: string) {
    || (basis in {"declared", "asserted"} && IsRelation(relation))
    || (basis == "structural" && relation in {"defines", "calls", "implements", "imports", "contains"})
  }

  function EdgePayload(doc: Value): Jsonb {
    match Get(doc, "payload")
    case Some(p) => ToJsonb(p)
    case None => ToJsonb(Object([]))
  }

  /** `insert_edge`. */
  function EdgeWrite(t: Tables, doc: Value, overwrite: bool): Written {
    match (GetStr(doc, "from"), GetStr(doc, "to"), GetStr(doc, "relation"), GetStr(doc, "basis"),
           GetStr(doc, "analyzer"))
    case (Some(from), Some(to), Some(relation), Some(basis), Some(analyzer)) =>
      (match (Lookup(t, StripContainer(from)), Lookup(t, StripContainer(to)))
       case (Some(src), Some(dst)) =>
         var id := EdgeId(src, dst, relation, basis);
         if !EdgeAllowed(basis, relation) || (id in t.edges && !overwrite) then Written(t, false)
         else Written(t.(edges := t.edges[id := EdgeRow(analyzer, EdgePayload(doc))]), true)
       case _ => Written(t, false))
    case _ => Written(t, false)
  }

  /** The ids of the symbols a chunk covers; keys that resolve to nothing are dropped. */
  function Resolve(t: Tables, keys: seq<Key>): seq<nat> {
    if keys == [] then []
    else
      Resolve(t, keys[..|keys| - 1])
      + match Lookup(t, keys[|keys| - 1]) case Some(id) => [id] case None => []
  }

  function SymbolKeys(doc: Value): seq<Key> {
    match Get(doc, "symbol_keys")
    case Some(Array(items)) => StringItems(items)
    case _ => []
  }

  /** `insert_chunk`. */
  function ChunkWrite(t: Tables, doc: Value, overwrite: bool): Written {
    match (GetStr(doc, "doc_key"), GetInt(doc, "chunk_index"), GetStr(doc, "text"), GetInt(doc, "start_char"),
           GetInt(doc, "end_char"))
    case (Some(docKey), Some(index), Some(text), Some(start), Some(end)) =>
      (match Lookup(t, docKey)
       case None => Written(t, false)
       case Some(node) =>
         var at := ChunkId(node, index);
         if !(FitsI32(index) && FitsI32(start) && FitsI32(end)) || (at in t.chunks && !overwrite) then Written(t, false)
         else
           var id := if at in t.chunks then t.chunks[at].id else t.nextChunk;
           Written(t.(chunks := t.chunks[at := ChunkRow(id, text, start, end, Resolve(t, SymbolKeys(doc)))],
                      nextChunk := if at in t.chunks then t.nextChunk else t.nextChunk + 1), true))
    case _ => Written(t, false)
  }

  function VectorOf(doc: Value): Option<seq<Number>> {
    match Get(doc, "embedding")
    case Some(Array(items)) => NumberItems(items)
    case _ => None
  }

  /** `insert_embedding`. */
  function VectorWrite(t: Tables, doc: Value, overwrite: bool): Written {
    match (GetStr(doc, "doc_key"), GetStr(doc, "chunk_key"), VectorOf(doc), GetStr(doc, "model"),
           GetStr(doc, "model_revision"), GetStr(doc, "task"))
    case (Some(docKey), Some(chunkKey), Some(vec), Some(model), Some(revision), Some(task)) =>
      (match (ChunkIndexFromKey(docKey, chunkKey), Lookup(t, docKey))
       case (Some(index), Some(node)) =>
         var at := ChunkId(node, index);
         if !FitsI32(index) || at !in t.chunks || (t.chunks[at].id in t.vectors && !overwrite) then Written(t, false)
         else Written(t.(vectors := t.vectors[t.chunks[at].id := VectorRow(vec, model, revision, task)]), true)
       case _ => Written(t, false))
    case _ => Written(t, false)
  }

  /** Whether the route writes head rows, and under which key and kind a document does. */
  predicate IsNodeRoute(route: Route) {
    route.Metadata? || route.Symbol?
  }

  function NodeKey(route: Route, doc: Value): Option<Key> {
    if route.Metadata? || (route.Symbol? && GetStr(doc, "kind").Some?) then GetStr(doc, "_key") else None
  }

  function NodeKind(route: Route, doc: Value): string
    requires NodeKey(route, doc).Some?
  {
    if route.Metadata? then route.kind else GetStr(doc, "kind").value
  }

  /** Chunks, embeddings and edges. */
  function OtherWrite(t: Tables, route: Route, doc: Value, overwrite: bool): Written {
    match route
    case Chunks => ChunkWrite(t, doc, overwrite)
    case Embeddings => VectorWrite(t, doc, overwrite)
    case Edges => EdgeWrite(t, doc, overwrite)
    case _ => Written(t, false)
  }

  /** `insert_one_inner`. */
  function DocWrite(t: Tables, route: Route, doc: Value, overwrite: bool, now: nat): Written {
    if !IsNodeRoute(route) then OtherWrite(t, route, doc, overwrite)
    else
      match NodeKey(route, doc)
      case None => Written(t, false)
      case Some(key) => Upsert(t, key, NodeKind(route, doc), PayloadOf(doc), overwrite, now)
  }

  // ---- A batch ----

  /** What the database says to a document besides the rules above: it may refuse the document, or
      the connection may be lost. */
  datatype Verdict = Fine | Refuses | Loses

  datatype Submission = Submission(doc: Value, verdict: Verdict)

  datatype Folded = Folded(tables: Tables, created: nat, errors: nat) | Lost

  /** What a document's savepoint makes of its write. */
  function Settle(f: Folded, verdict: Verdict, w: Written): Folded {
    match (f, verdict)
    case (Folded(_, c, e), Fine) => if w.created then Folded(w.tables, c + 1, e) else Folded(w.tables, c, e + 1)
    case (Folded(t, c, e), Refuses) => Folded(t, c, e + 1)
    case _ => Lost
  }

  /** The first `n` documents written one after the other. */
  function Fold(t: Tables, route: Route, docs: seq<Submission>, overwrite: bool, now: nat, n: nat): Folded
    requires n <= |docs|
  {
    if n == 0 then Folded(t, 0, 0)
    else
      match Fold(t, route, docs, overwrite, now, n - 1)
      case Lost => Lost
      case Folded(u, c, e) =>
        Settle(Folded(u, c, e), docs[n - 1].verdict, DocWrite(u, route, docs[n - 1].doc, overwrite, now))
  }

  datatype BatchOutcome = Inserted(created: nat, errors: nat) | UnknownContainer | ConnectionLost

  datatype Batch = Batch(container: string, docs: seq<Submission>, overwrite: bool, now: nat)

  /** The plain fold a batch stands for: all of it, or nothing when the connection is lost. */
  function BatchTables(t: Tables, b: Batch): Tables {
    match RouteOf(b.container)
    case None => t
    case Some(route) =>
      match Fold(t, route, b.docs, b.overwrite, b.now, |b.docs|)
      case Folded(u, _, _) => u
      case Lost => t
  }

  function BatchReport(t: Tables, b: Batch): BatchOutcome {
    match RouteOf(b.container)
    case None => UnknownContainer
    case Some(route) =>
      match Fold(t, route, b.docs, b.overwrite, b.now, |b.docs|)
      case Folded(_, c, e) => Inserted(c, e)
      case Lost => ConnectionLost
  }

  // ---- The sink ----

  type Cache = map<Key, Option<nat>>

  /** Every memoized lookup is what a fresh lookup would answer. */
  ghost predicate CacheOk(cache: Cache, t: Tables) {
    forall k :: k in cache ==> cache[k] == Lookup(t, k)
  }

  /** Only node batches write nodes, and they never fill the cache. */
  ghost predicate CacheFits(cache: Cache, t: Tables, route: Route) {
    CacheOk(cache, t) && (IsNodeRoute(route) ==> cache == map[])
  }

  /** One sink, one graph, one connection. */
  class PgSink {
    var db: Tables

    constructor (db: Tables)
      ensures this.db == db
    {
      this.db := db;
    }

    /** `parent_node`: a lookup memoized for the batch. */
    method ParentNode(cache: Cache, key: Key) returns (id: Option<nat>, cache': Cache)
      requires CacheOk(cache, db)
      ensures id == Lookup(db, key) && CacheOk(cache', db)
    {
      if key in cache {
        return cache[key], cache;
      }
      id := Lookup(db, key);
      cache' := cache[key := id];
    }

    /** `append_log`. */
    method AppendLog(id: nat, from: Option<Jsonb>, to: Jsonb)
      modifies this
      ensures db == Appended(old(db), id, from, to)
    {
      var seqNo := 0;
      var log := LogOf(db, id);
      for i := 0 to |log|
        invariant seqNo == MaxSeq(log[..i])
      {
        assert log[..i + 1][..i] == log[..i];
        if log[i].seqNo > seqNo {
          seqNo := log[i].seqNo;
        }
      }
      assert log[..|log|] == log;
      db := db.(log := db.log[id := log + [LogEntry(seqNo + 1, from, to)]]);
    }

    /** `insert_node`: read the head, write the row, then log what changed. */
    method InsertNode(kind: string, doc: Value, overwrite: bool, now: nat) returns (created: bool)
      modifies this
      ensures Written(db, created) == NodeWrite(old(db), kind, doc, overwrite, now)
    {
      var key := GetStr(doc, "_key");
      if key.None? || !KindAllowed(kind) {
        return false;
      }
      var payload := PayloadOf(doc);
      var head := if key.value in db.nodes then Some(db.nodes[key.value]) else None;
      var id := db.nextNode;
      match head {
      case None =>
        db := db.(nodes := db.nodes[key.value := NodeRow(id, kind, payload, now)], nextNode := id + 1);
        AppendLog(id, None, payload);
      case Some(h) =>
        if !overwrite {
          return false;
        }
        var at := if h.payload != payload then now else h.ingestedAt;
        db := db.(nodes := db.nodes[key.value := NodeRow(h.id, kind, payload, at)]);
        if h.payload != payload {
          AppendLog(h.id, Some(h.payload), payload);
        }
      }
      return true;
    }

    /** `insert_edge`, endpoints resolved through the memo. */
    method InsertEdge(doc: Value, overwrite: bool, cache: Cache) returns (created: bool, cache': Cache)
      requires CacheOk(cache, db)
      modifies this
      ensures Written(db, created) == EdgeWrite(old(db), doc, overwrite)
      ensures CacheOk(cache', db) && db.nodes == old(db).nodes
    {
      cache' := cache;
      var from, to, relation := GetStr(doc, "from"), GetStr(doc, "to"), GetStr(doc, "relation");
      var basis, analyzer := GetStr(doc, "basis"), GetStr(doc, "analyzer");
      if from.None? || to.None? || relation.None? || basis.None? || analyzer.None? {
        return false, cache';
      }
      var src, dst;
      src, cache' := ParentNode(cache', StripContainer(from.value));
      if src.None? {
        return false, cache';
      }
      dst, cache' := ParentNode(cache', StripContainer(to.value));
      if dst.None? {
        return false, cache';
      }
      var id := EdgeId(src.value, dst.value, relation.value, basis.value);
      if !EdgeAllowed(basis.value, relation.value) || (id in db.edges && !overwrite) {
        return false, cache';
      }
      db := db.(edges := db.edges[id := EdgeRow(analyzer.value, EdgePayload(doc))]);
      return true, cache';
    }

    /** `insert_chunk`, its parent and every symbol it covers resolved through the memo. */
    method InsertChunk(doc: Value, overwrite: bool, cache: Cache) returns (created: bool, cache': Cache)
      requires CacheOk(cache, db)
      modifies this
      ensures Written(db, created) == ChunkWrite(old(db), doc, overwrite)
      ensures CacheOk(cache', db) && db.nodes == old(db).nodes
    {
      cache' := cache;
      var docKey, index, text := GetStr(doc, "doc_key"), GetInt(doc, "chunk_index"), GetStr(doc, "text");
      var start, end := GetInt(doc, "start_char"), GetInt(doc, "end_char");
      if docKey.None? || index.None? || text.None? || start.None? || end.None? {
        return false, cache';
      }
      var node;
      node, cache' := ParentNode(cache', docKey.value);
      if node.None? || !(FitsI32(index.value) && FitsI32(start.value) && FitsI32(end.value)) {
        return false, cache';
      }
      var symbols: seq<nat>;
      symbols, cache' := ResolveAll(SymbolKeys(doc), cache');
      var at := ChunkId(node.value, index.value);
      if at in db.chunks {
        if !overwrite {
          return false, cache';
        }
        db := db.(chunks := db.chunks[at := ChunkRow(db.chunks[at].id, text.value, start.value, end.value, symbols)]);
      } else {
        db := db.(chunks := db.chunks[at := ChunkRow(db.nextChunk, text.value, start.value, end.value, symbols)],
                  nextChunk := db.nextChunk + 1);
      }
      return true, cache';
    }

    method ResolveAll(keys: seq<Key>, cache: Cache) returns (ids: seq<nat>, cache': Cache)
      requires CacheOk(cache, db)
      ensures ids == Resolve(db, keys) && CacheOk(cache', db)
    {
      ids, cache' := [], cache;
      for i := 0 to |keys|
        invariant ids == Resolve(db, keys[..i]) && CacheOk(cache', db)
      {
        assert keys[..i + 1][..i] == keys[..i];
        var id;
        id, cache' := ParentNode(cache', keys[i]);
        if id.Some? {
          ids := ids + [id.value];
        }
      }
      assert keys[..|keys|] == keys;
    }

    /** `insert_embedding`. */
    method InsertEmbedding(doc: Value, overwrite: bool, cache: Cache) returns (created: bool, cache': Cache)
      requires CacheOk(cache, db)
      modifies this
      ensures Written(db, created) == VectorWrite(old(db), doc, overwrite)
      ensures CacheOk(cache', db) && db.nodes == old(db).nodes
    {
      cache' := cache;
      var docKey, chunkKey, vec := GetStr(doc, "doc_key"), GetStr(doc, "chunk_key"), VectorOf(doc);
      var model, revision, task := GetStr(doc, "model"), GetStr(doc, "model_revision"), GetStr(doc, "task");
      if docKey.None? || chunkKey.None? || vec.None? || model.None? || revision.None? || task.None? {
        return false, cache';
      }
      var index := ChunkIndexFromKey(docKey.value, chunkKey.value);
      if index.None? || !FitsI32(index.value) {
        return false, cache';
      }
      var node;
      node, cache' := ParentNode(cache', docKey.value);
      if node.None? {
        return false, cache';
      }
      var at := ChunkId(node.value, index.value);
      if at !in db.chunks || (db.chunks[at].id in db.vectors && !overwrite) {
        return false, cache';
      }
      db := db.(vectors :=
                db.vectors[db.chunks[at].id := VectorRow(vec.value, model.value, revision.value, task.value)]);
      return true, cache';
    }

    /** `insert_one`: the savepoint. A refusal by the database rolls this document back alone; the
        memo keeps what it learned. `None` is a lost connection. */
    method InsertOne(route: Route, sub: Submission, overwrite: bool, now: nat, cache: Cache)
      returns (created: Option<bool>, cache': Cache)
      requires CacheFits(cache, db, route)
      modifies this
      ensures CacheFits(cache', db, route)
      ensures match sub.verdict
        case Loses => created == None && db == old(db)
        case Refuses => created == Some(false) && db == old(db)
        case Fine => created.Some? && Written(db, created.value) == DocWrite(old(db), route, sub.doc, overwrite, now)
    {
      var savepoint := db;
      var ok;
      cache' := cache;
      match route {
        case Metadata(kind) => ok := InsertNode(kind, sub.doc, overwrite, now);
        case Symbol =>
          var kind := GetStr(sub.doc, "kind");
          if kind.None? {
            ok := false;
          } else {
            ok := InsertNode(kind.value, sub.doc, overwrite, now);
          }
        case Chunks => ok, cache' := InsertChunk(sub.doc, overwrite, cache);
        case Embeddings => ok, cache' := InsertEmbedding(sub.doc, overwrite, cache);
        case Edges => ok, cache' := InsertEdge(sub.doc, overwrite, cache);
      }
      match sub.verdict
      case Fine => created := Some(ok);
      case Refuses =>
        db := savepoint;
        created := Some(false);
      case Loses =>
        db := savepoint;
        created := None;
    }

    /** `insert_documents`: it refines the plain fold, memo and savepoints included. */
    method InsertDocuments(b: Batch) returns (r: BatchOutcome)
      modifies this
      ensures db == BatchTables(old(db), b) && r == BatchReport(old(db), b)
    {
      hide DocWrite, RouteOf;
      var route := RouteOf(b.container);
      if route.None? {
        return UnknownContainer;
      }
      if b.docs == [] {
        return Inserted(0, 0);
      }
      var cache: Cache := map[];
      var created, errors := 0, 0;
      var before := db;
      for i := 0 to |b.docs|
        invariant CacheFits(cache, db, route.value)
        invariant Folded(db, created, errors) == Fold(before, route.value, b.docs, b.overwrite, b.now, i)
      {
        var one;
        one, cache := InsertOne(route.value, b.docs[i], b.overwrite, b.now, cache);
        match one
        case Some(true) => created := created + 1;
        case Some(false) => errors := errors + 1;
        case None =>
          LostStaysLost(before, route.value, b.docs, b.overwrite, b.now, i + 1, |b.docs|);
          db := before;
          return ConnectionLost;
      }
      return Inserted(created, errors);
    }
  }

  lemma {:induction false} LostStaysLost(t: Tables, route: Route, docs: seq<Submission>, overwrite: bool, now: nat,
                                         n: nat, m: nat)
    requires n <= m <= |docs| && Fold(t, route, docs, overwrite, now, n).Lost?
    ensures Fold(t, route, docs, overwrite, now, m).Lost?
    decreases m
  {
    hide DocWrite;
    if n < m {
      LostStaysLost(t, route, docs, overwrite, now, n, m - 1);
    }
  }
}
