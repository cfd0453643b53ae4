/** Repeating a sink batch: for every container and either overwrite flag, exactly when it changes
    nothing. */
module StoreRepeats {
  import opened Json
  import opened Store
  import opened StoreLaws

  // ---- Whether the connection is lost ----

  /** The connection is lost by the documents alone, not by what is stored. */
  lemma {:induction false} LostEitherWay(t: Tables, u: Tables, route: Route, docs: seq<Submission>, overwrite: bool,
                                         now: nat, later: nat, n: nat)
    requires n <= |docs|
    ensures Fold(t, route, docs, overwrite, now, n).Lost? <==> Fold(u, route, docs, overwrite, later, n).Lost?
    decreases n
  {
    hide DocWrite;
    if n > 0 {
      LostEitherWay(t, u, route, docs, overwrite, now, later, n - 1);
    }
  }

  lemma FoldStarts(t: Tables, route: Route, docs: seq<Submission>, overwrite: bool, now: nat)
    ensures Fold(t, route, docs, overwrite, now, 0) == Folded(t, 0, 0)
  {
  }

  /** The tables one document later: its write when the database has no objection, or as they were. */
  lemma FoldGoesOn(t: Tables, route: Route, docs: seq<Submission>, overwrite: bool, now: nat, n: nat)
    requires n < |docs| && Fold(t, route, docs, overwrite, now, n + 1).Folded?
    ensures var (f, g) := (Fold(t, route, docs, overwrite, now, n), Fold(t, route, docs, overwrite, now, n + 1));
      && f.Folded?
      && g.tables == (if docs[n].verdict.Fine? then DocWrite(f.tables, route, docs[n].doc, overwrite, now).tables
                      else f.tables)
  {
    hide DocWrite;
  }

  // ---- Cells: what a chunk, a vector or an edge document writes ----

  datatype Cell =
    | EdgeCell(edge: EdgeId, row: EdgeRow)
    | ChunkCell(at: ChunkId, text: string, start: int, end: int, symbols: seq<nat>)
    | VectorCell(chunk: nat, vector: VectorRow)

  function EdgeCellOf(t: Tables, doc: Value): Option<Cell> {
    match (GetStr(doc, "from"), GetStr(doc, "to"), GetStr(doc, "relation"), GetStr(doc, "basis"),
           GetStr(doc, "analyzer"))
    case (Some(from), Some(to), Some(relation), Some(basis), Some(analyzer)) =>
      (match (Lookup(t, StripContainer(from)), Lookup(t, StripContainer(to)))
       case (Some(src), Some(dst)) =>
         if EdgeAllowed(basis, relation)
         then Some(EdgeCell(EdgeId(src, dst, relation, basis), EdgeRow(analyzer, EdgePayload(doc))))
         else None
       case _ => None)
    case _ => None
  }

  function ChunkCellOf(t: Tables, doc: Value): Option<Cell> {
    match (GetStr(doc, "doc_key"), GetInt(doc, "chunk_index"), GetStr(doc, "text"), GetInt(doc, "start_char"),
           GetInt(doc, "end_char"))
    case (Some(docKey), Some(index), Some(text), Some(start), Some(end)) =>
      (match Lookup(t, docKey)
       case None => None
       case Some(node) =>
         if FitsI32(index) && FitsI32(start) && FitsI32(end)
         then Some(ChunkCell(ChunkId(node, index), text, start, end, Resolve(t, SymbolKeys(doc))))
         else None)
    case _ => None
  }

  function VectorCellOf(t: Tables, doc: Value): Option<Cell> {
    match (GetStr(doc, "doc_key"), GetStr(doc, "chunk_key"), VectorOf(doc), GetStr(doc, "model"),
           GetStr(doc, "model_revision"), GetStr(doc, "task"))
    case (Some(docKey), Some(chunkKey), Some(vec), Some(model), Some(revision), Some(task)) =>
      (match (ChunkIndexFromKey(docKey, chunkKey), Lookup(t, docKey))
       case (Some(index), Some(node)) =>
         var at := ChunkId(node, index);
         if FitsI32(index) && at in t.chunks
         then Some(VectorCell(t.chunks[at].id, VectorRow(vec, model, revision, task)))
         else None
       case _ => None)
    case _ => None
  }

  /** What a document would write, or nothing when it is rejected whatever the flag. */
  function CellOf(t: Tables, route: Route, doc: Value): Option<Cell> {
    match route
    case Edges => EdgeCellOf(t, doc)
    case Chunks => ChunkCellOf(t, doc)
    case Embeddings => VectorCellOf(t, doc)
    case _ => None
  }

  predicate Fits(route: Route, c: Cell) {
    match c
    case EdgeCell(_, _) => route.Edges?
    case ChunkCell(_, _, _, _, _) => route.Chunks?
    case VectorCell(_, _) => route.Embeddings?
  }

  predicate SameSlot(c: Cell, d: Cell) {
    match c
    case EdgeCell(id, _) => d.EdgeCell? && d.edge == id
    case ChunkCell(at, _, _, _, _) => d.ChunkCell? && d.at == at
    case VectorCell(chunk, _) => d.VectorCell? && d.chunk == chunk
  }

  /** What the tables hold in a cell's slot. */
  function At(t: Tables, slot: Cell): Option<Cell> {
    match slot
    case EdgeCell(id, _) => if id in t.edges then Some(EdgeCell(id, t.edges[id])) else None
    case ChunkCell(at, _, _, _, _) =>
      if at in t.chunks
      then Some(ChunkCell(at, t.chunks[at].text, t.chunks[at].start, t.chunks[at].end, t.chunks[at].symbols))
      else None
    case VectorCell(chunk, _) => if chunk in t.vectors then Some(VectorCell(chunk, t.vectors[chunk])) else None
  }

  /** A cell put in its slot; a chunk that is there keeps its id. */
  function Put(t: Tables, c: Cell): Tables {
    match c
    case EdgeCell(id, row) => t.(edges := t.edges[id := row])
    case ChunkCell(at, text, start, end, symbols) =>
      var id := if at in t.chunks then t.chunks[at].id else t.nextChunk;
      t.(chunks := t.chunks[at := ChunkRow(id, text, start, end, symbols)],
         nextChunk := if at in t.chunks then t.nextChunk else t.nextChunk + 1)
    case VectorCell(chunk, vector) => t.(vectors := t.vectors[chunk := vector])
  }

  /** A chunk, vector or edge document puts its cell, unless the slot is taken and must not be overwritten. */
  lemma WritesItsCell(t: Tables, route: Route, doc: Value, overwrite: bool, now: nat)
    requires !IsNodeRoute(route)
    ensures DocWrite(t, route, doc, overwrite, now).tables
         == match CellOf(t, route, doc)
            case None => t
            case Some(c) => if At(t, c).Some? && !overwrite then t else Put(t, c)
    ensures CellOf(t, route, doc).Some? ==> Fits(route, CellOf(t, route, doc).value)
  {
    hide StripContainer, EdgeAllowed, GetStr, GetInt, VectorOf, ChunkIndexFromKey, EdgePayload, Resolve, SymbolKeys,
      FitsI32, Lookup;
  }

  /** What the cells of a route are computed from. */
  predicate SameBasis(t: Tables, u: Tables, route: Route) {
    SameNodes(t, u) && (route.Embeddings? ==> u.chunks == t.chunks && u.nextChunk == t.nextChunk)
  }

  lemma {:induction false} ResolveSame(t: Tables, u: Tables, keys: seq<Key>)
    requires u.nodes == t.nodes
    ensures Resolve(u, keys) == Resolve(t, keys)
  {
    if keys != [] {
      ResolveSame(t, u, keys[..|keys| - 1]);
    }
  }

  lemma CellOfSame(t: Tables, u: Tables, route: Route, doc: Value)
    requires SameBasis(t, u, route)
    ensures CellOf(u, route, doc) == CellOf(t, route, doc)
  {
    ResolveSame(t, u, SymbolKeys(doc));
    assert forall k :: Lookup(u, k) == Lookup(t, k);
    hide StripContainer, EdgeAllowed, GetStr, GetInt, VectorOf, ChunkIndexFromKey, EdgePayload, Resolve, SymbolKeys,
      FitsI32, Lookup;
  }

  lemma PutFacts(t: Tables, route: Route, c: Cell, slot: Cell)
    requires Fits(route, c)
    ensures SameBasis(t, Put(t, c), route)
    ensures At(Put(t, c), slot) == if SameSlot(c, slot) then Some(c) else At(t, slot)
  {
  }

  // ---- The last document to write a slot ----

  /** The cell the last of the first `n` documents to write the slot puts there. */
  function Last(t: Tables, route: Route, docs: seq<Submission>, n: nat, slot: Cell): Option<Cell>
    requires n <= |docs|
  {
    if n == 0 then None
    else
      var c := CellOf(t, route, docs[n - 1].doc);
      if docs[n - 1].verdict.Fine? && c.Some? && SameSlot(c.value, slot) then c else Last(t, route, docs, n - 1, slot)
  }

  lemma {:induction false} LastSame(t: Tables, u: Tables, route: Route, docs: seq<Submission>, n: nat, slot: Cell)
    requires n <= |docs| && SameBasis(t, u, route)
    ensures Last(u, route, docs, n, slot) == Last(t, route, docs, n, slot)
  {
    hide CellOf, SameBasis;
    if n > 0 {
      CellOfSame(t, u, route, docs[n - 1].doc);
      LastSame(t, u, route, docs, n - 1, slot);
    }
  }

  lemma {:induction false} LastFound(t: Tables, route: Route, docs: seq<Submission>, n: nat, i: nat)
    requires i < n <= |docs| && docs[i].verdict.Fine? && CellOf(t, route, docs[i].doc).Some?
    ensures Last(t, route, docs, n, CellOf(t, route, docs[i].doc).value).Some?
    decreases n
  {
    hide CellOf;
    if i < n - 1 {
      LastFound(t, route, docs, n - 1, i);
    }
  }

  lemma SameBasisTransitive(t: Tables, u: Tables, v: Tables, route: Route)
    requires SameBasis(t, u, route) && SameBasis(u, v, route)
    ensures SameBasis(t, v, route)
  {
  }

  /** One document's write and the slot. */
  lemma WriteAt(t: Tables, route: Route, doc: Value, overwrite: bool, now: nat, slot: Cell)
    requires !IsNodeRoute(route)
    ensures var (u, c) := (DocWrite(t, route, doc, overwrite, now).tables, CellOf(t, route, doc));
      && SameBasis(t, u, route)
      && (At(t, slot).Some? ==> At(u, slot).Some?)
      && (c.Some? && SameSlot(c.value, slot) ==> At(u, slot).Some?)
      && (overwrite ==> At(u, slot) == if c.Some? && SameSlot(c.value, slot) then c else At(t, slot))
  {
    WritesItsCell(t, route, doc, overwrite, now);
    var c := CellOf(t, route, doc);
    if c.Some? {
      PutFacts(t, route, c.value, slot);
      SlotsAgree(t, c.value, slot);
    }
    hide CellOf, DocWrite, Put, At;
  }

  lemma SlotsAgree(t: Tables, c: Cell, d: Cell)
    ensures SameSlot(c, d) ==> At(t, c) == At(t, d)
  {
  }

  /** A batch leaves in each slot what the last document to write it put there. */
  lemma {:induction false} FoldAt(t: Tables, route: Route, docs: seq<Submission>, overwrite: bool, now: nat, n: nat,
                                  slot: Cell)
    requires !IsNodeRoute(route) && n <= |docs|
    ensures var f := Fold(t, route, docs, overwrite, now, n);
      f.Folded? ==>
        && SameBasis(t, f.tables, route)
        && (At(t, slot).Some? || Last(t, route, docs, n, slot).Some? ==> At(f.tables, slot).Some?)
        && (overwrite ==>
            At(f.tables, slot)
            == if Last(t, route, docs, n, slot).Some? then Last(t, route, docs, n, slot) else At(t, slot))
    decreases n
  {
    hide DocWrite, CellOf, At, SameBasis, SameSlot;
    if n == 0 {
      SameBasisSelf(t, route);
    } else if Fold(t, route, docs, overwrite, now, n).Folded? {
      FoldGoesOn(t, route, docs, overwrite, now, n - 1);
      FoldAt(t, route, docs, overwrite, now, n - 1, slot);
      var u := Fold(t, route, docs, overwrite, now, n - 1).tables;
      WriteAt(u, route, docs[n - 1].doc, overwrite, now, slot);
      CellOfSame(t, u, route, docs[n - 1].doc);
      if docs[n - 1].verdict.Fine? {
        SameBasisTransitive(t, u, DocWrite(u, route, docs[n - 1].doc, overwrite, now).tables, route);
      }
    }
  }

  lemma SameBasisSelf(t: Tables, route: Route)
    ensures SameBasis(t, t, route)
  {
  }

  /** Every cell of the batch has its slot taken. */
  ghost predicate AllPlaced(t: Tables, route: Route, docs: seq<Submission>) {
    forall i :: 0 <= i < |docs| && docs[i].verdict.Fine? && CellOf(t, route, docs[i].doc).Some? ==>
      At(t, CellOf(t, route, docs[i].doc).value).Some?
  }

  lemma BatchPlacesAll(t: Tables, route: Route, docs: seq<Submission>, overwrite: bool, now: nat)
    requires !IsNodeRoute(route) && Fold(t, route, docs, overwrite, now, |docs|).Folded?
    ensures AllPlaced(Fold(t, route, docs, overwrite, now, |docs|).tables, route, docs)
  {
    hide CellOf, At, SameBasis, SameSlot;
    var u := Fold(t, route, docs, overwrite, now, |docs|).tables;
    forall i | 0 <= i < |docs| && docs[i].verdict.Fine? && CellOf(u, route, docs[i].doc).Some?
      ensures At(u, CellOf(u, route, docs[i].doc).value).Some?
    {
      var c := CellOf(u, route, docs[i].doc).value;
      FoldAt(t, route, docs, overwrite, now, |docs|, c);
      CellOfSame(t, u, route, docs[i].doc);
      LastFound(t, route, docs, |docs|, i);
    }
  }

  /** No chunk gains or changes an id. */
  predicate SameIds(t: Tables, u: Tables) {
    && u.nextChunk == t.nextChunk && u.chunks.Keys == t.chunks.Keys
    && (forall at :: at in t.chunks ==> u.chunks[at].id == t.chunks[at].id)
  }

  /** Over slots that are taken a batch issues no id. */
  lemma {:induction false} FoldKeepsIds(t: Tables, route: Route, docs: seq<Submission>, overwrite: bool, now: nat,
                                        n: nat)
    requires !IsNodeRoute(route) && n <= |docs| && AllPlaced(t, route, docs)
    ensures var f := Fold(t, route, docs, overwrite, now, n); f.Folded? ==> SameIds(t, f.tables)
    ensures var f := Fold(t, route, docs, overwrite, now, n); f.Folded? && !overwrite ==> f.tables == t
    decreases n
  {
    hide DocWrite, CellOf, At, SameBasis, Put;
    if n > 0 && Fold(t, route, docs, overwrite, now, n).Folded? {
      FoldGoesOn(t, route, docs, overwrite, now, n - 1);
      FoldKeepsIds(t, route, docs, overwrite, now, n - 1);
      var u, doc := Fold(t, route, docs, overwrite, now, n - 1).tables, docs[n - 1].doc;
      WritesItsCell(u, route, doc, overwrite, now);
      if docs[n - 1].verdict.Fine? && CellOf(u, route, doc).Some? {
        var c := CellOf(u, route, doc).value;
        FoldAt(t, route, docs, overwrite, now, n - 1, c);
        CellOfSame(t, u, route, doc);
        PutKeepsIds(u, c);
      }
    }
  }

  lemma PutKeepsIds(t: Tables, c: Cell)
    requires At(t, c).Some?
    ensures SameIds(t, Put(t, c))
  {
  }

  /** Tables with the same slots and ids are the same. */
  lemma SameCells(t: Tables, u: Tables)
    requires SameNodes(t, u) && SameIds(t, u) && forall slot :: At(u, slot) == At(t, slot)
    ensures u == t
  {
    forall id: EdgeId ensures (id in u.edges <==> id in t.edges) && (id in t.edges ==> u.edges[id] == t.edges[id]) {
      assert At(u, EdgeCell(id, EdgeRow("", ""))) == At(t, EdgeCell(id, EdgeRow("", "")));
    }
    assert u.edges == t.edges;
    forall at: ChunkId ensures at in t.chunks ==> u.chunks[at] == t.chunks[at] {
      assert At(u, ChunkCell(at, "", 0, 0, [])) == At(t, ChunkCell(at, "", 0, 0, []));
    }
    assert u.chunks == t.chunks;
    forall k: nat ensures (k in u.vectors <==> k in t.vectors) && (k in t.vectors ==> u.vectors[k] == t.vectors[k]) {
      assert At(u, VectorCell(k, VectorRow([], "", "", ""))) == At(t, VectorCell(k, VectorRow([], "", "", "")));
    }
    assert u.vectors == t.vectors;
  }

  /** Repeating a batch of chunks, vectors or edges changes nothing. */
  lemma OtherRepeats(t: Tables, route: Route, docs: seq<Submission>, overwrite: bool, now: nat, later: nat)
    requires !IsNodeRoute(route) && Fold(t, route, docs, overwrite, now, |docs|).Folded?
    ensures var u := Fold(t, route, docs, overwrite, now, |docs|).tables;
      var g := Fold(u, route, docs, overwrite, later, |docs|);
      g.Folded? && g.tables == u
  {
    hide At, Last;
    var u := Fold(t, route, docs, overwrite, now, |docs|).tables;
    LostEitherWay(t, u, route, docs, overwrite, now, later, |docs|);
    var v := Fold(u, route, docs, overwrite, later, |docs|).tables;
    hide Fold;
    BatchPlacesAll(t, route, docs, overwrite, now);
    FoldKeepsIds(u, route, docs, overwrite, later, |docs|);
    if overwrite {
      forall slot ensures At(v, slot) == At(u, slot) {
        FoldAt(t, route, docs, overwrite, now, |docs|, slot);
        FoldAt(u, route, docs, overwrite, later, |docs|, slot);
        LastSame(t, u, route, docs, |docs|, slot);
      }
      FoldAt(u, route, docs, overwrite, later, |docs|, VectorCell(0, VectorRow([], "", "", "")));
      SameCells(u, v);
    }
  }

  // ---- Node documents ----

  /** The database takes the document and its row. */
  predicate Lands(route: Route, sub: Submission) {
    sub.verdict.Fine? && NodeKey(route, sub.doc).Some? && KindAllowed(NodeKind(route, sub.doc))
  }

  /** Documents that land under one key carry one payload. */
  ghost predicate SamePayloads(route: Route, docs: seq<Submission>) {
    forall i, j :: 0 <= i < j < |docs| && LandTogether(route, docs[i], docs[j]) ==>
      PayloadOf(docs[i].doc) == PayloadOf(docs[j].doc)
  }

  predicate LandTogether(route: Route, a: Submission, b: Submission) {
    Lands(route, a) && Lands(route, b) && NodeKey(route, a.doc) == NodeKey(route, b.doc)
  }

  /** What one document makes of the row and the log of a key. */
  ghost predicate RowStep(t: Tables, u: Tables, key: Key) {
    key in t.nodes ==>
      && key in u.nodes && u.nodes[key].id == t.nodes[key].id
      && |LogOf(t, t.nodes[key].id)| <= |LogOf(u, t.nodes[key].id)|
      && (|LogOf(u, t.nodes[key].id)| == |LogOf(t, t.nodes[key].id)| ==> u.nodes[key].payload == t.nodes[key].payload)
  }

  lemma UpsertRowStep(t: Tables, at: Key, kind: string, payload: Jsonb, overwrite: bool, now: nat, key: Key)
    ensures RowStep(t, Upsert(t, at, kind, payload, overwrite, now).tables, key)
  {
  }

  lemma NodeWriteIs(t: Tables, route: Route, doc: Value, overwrite: bool, now: nat)
    requires IsNodeRoute(route)
    ensures DocWrite(t, route, doc, overwrite, now).tables
         == match NodeKey(route, doc)
            case None => t
            case Some(k) => Upsert(t, k, NodeKind(route, doc), PayloadOf(doc), overwrite, now).tables
  {
    hide PayloadOf, Upsert, GetStr;
  }

  lemma RowStepTransitive(t: Tables, u: Tables, v: Tables, key: Key)
    requires RowStep(t, u, key) && RowStep(u, v, key)
    ensures RowStep(t, v, key)
  {
    hide LogOf;
  }

  /** Rows stay, logs only grow, and a payload changes only with its log. */
  lemma {:induction false} FoldRowStep(t: Tables, route: Route, docs: seq<Submission>, overwrite: bool, now: nat,
                                       m: nat, n: nat, key: Key)
    requires IsNodeRoute(route) && m <= n <= |docs| && Fold(t, route, docs, overwrite, now, n).Folded?
    ensures Fold(t, route, docs, overwrite, now, m).Folded?
    ensures RowStep(Fold(t, route, docs, overwrite, now, m).tables, Fold(t, route, docs, overwrite, now, n).tables, key)
    decreases n
  {
    hide DocWrite, RowStep, Upsert, NodeKey, NodeKind;
    if m < n {
      FoldGoesOn(t, route, docs, overwrite, now, n - 1);
      FoldRowStep(t, route, docs, overwrite, now, m, n - 1, key);
      var u, v := Fold(t, route, docs, overwrite, now, n - 1).tables, Fold(t, route, docs, overwrite, now, n).tables;
      var doc := docs[n - 1].doc;
      NodeWriteIs(u, route, doc, overwrite, now);
      RowStepSelf(u, key);
      if NodeKey(route, doc).Some? {
        UpsertRowStep(u, NodeKey(route, doc).value, NodeKind(route, doc), PayloadOf(doc), overwrite, now, key);
      }
      RowStepTransitive(Fold(t, route, docs, overwrite, now, m).tables, u, v, key);
    } else {
      RowStepSelf(Fold(t, route, docs, overwrite, now, m).tables, key);
    }
  }

  lemma RowStepSelf(t: Tables, key: Key)
    ensures RowStep(t, t, key)
  {
  }

  /** The row a landing document leaves, at once and for the rest of the batch. */
  lemma LandingRow(t: Tables, route: Route, docs: seq<Submission>, overwrite: bool, now: nat, i: nat)
    requires IsNodeRoute(route) && i < |docs| && Lands(route, docs[i])
      && Fold(t, route, docs, overwrite, now, |docs|).Folded?
    ensures var key := NodeKey(route, docs[i].doc).value;
      var (f, g) := (Fold(t, route, docs, overwrite, now, i + 1), Fold(t, route, docs, overwrite, now, |docs|));
      && f.Folded? && key in f.tables.nodes && key in g.tables.nodes
      && (overwrite ==> f.tables.nodes[key].payload == PayloadOf(docs[i].doc))
  {
    var key := NodeKey(route, docs[i].doc).value;
    FoldRowStep(t, route, docs, overwrite, now, i + 1, |docs|, key);
    FoldGoesOn(t, route, docs, overwrite, now, i);
    hide DocWrite, Fold, NodeKind, LogOf;
    NodeWriteIs(Fold(t, route, docs, overwrite, now, i).tables, route, docs[i].doc, overwrite, now);
  }

  /** If the log does not grow, a document that lands carries the payload the row began with. */
  lemma QuietLogFixesPayload(t: Tables, route: Route, docs: seq<Submission>, now: nat, i: nat)
    requires IsNodeRoute(route) && i < |docs| && Lands(route, docs[i])
    requires var (f, key) := (Fold(t, route, docs, true, now, |docs|), NodeKey(route, docs[i].doc).value);
      f.Folded? && key in t.nodes && |LogOf(f.tables, t.nodes[key].id)| == |LogOf(t, t.nodes[key].id)|
    ensures PayloadOf(docs[i].doc) == t.nodes[NodeKey(route, docs[i].doc).value].payload
  {
    var key := NodeKey(route, docs[i].doc).value;
    LandingRow(t, route, docs, true, now, i);
    FoldRowStep(t, route, docs, true, now, 0, i + 1, key);
    FoldRowStep(t, route, docs, true, now, i + 1, |docs|, key);
    FoldStarts(t, route, docs, true, now);
    hide DocWrite, Fold, LogOf, NodeKey;
  }

  /** The kind the last of the first `n` documents to land under a key gives it. */
  function LastKind(route: Route, docs: seq<Submission>, n: nat, key: Key): Option<string>
    requires n <= |docs|
  {
    if n == 0 then None
    else if Lands(route, docs[n - 1]) && NodeKey(route, docs[n - 1].doc) == Some(key)
    then Some(NodeKind(route, docs[n - 1].doc))
    else LastKind(route, docs, n - 1, key)
  }

  lemma UpsertRow(t: Tables, at: Key, kind: string, payload: Jsonb, now: nat, key: Key)
    ensures var u := Upsert(t, at, kind, payload, true, now).tables;
      && (KindAllowed(kind) ==> Holds(u, at, kind, payload))
      && (key in t.nodes && (key != at || !KindAllowed(kind)) ==> key in u.nodes && u.nodes[key] == t.nodes[key])
  {
  }

  /** After an overwriting batch the kind of a row is that of the last document to land there. */
  lemma {:induction false} KindIsLast(t: Tables, route: Route, docs: seq<Submission>, now: nat, n: nat, key: Key)
    requires IsNodeRoute(route) && n <= |docs| && Fold(t, route, docs, true, now, n).Folded?
      && LastKind(route, docs, n, key).Some?
    ensures var u := Fold(t, route, docs, true, now, n).tables;
      key in u.nodes && u.nodes[key].kind == LastKind(route, docs, n, key).value
    decreases n
  {
    hide DocWrite, Upsert, NodeKey, NodeKind, KindAllowed;
    FoldGoesOn(t, route, docs, true, now, n - 1);
    var u, doc := Fold(t, route, docs, true, now, n - 1).tables, docs[n - 1].doc;
    NodeWriteIs(u, route, doc, true, now);
    if NodeKey(route, doc).Some? {
      UpsertRow(u, NodeKey(route, doc).value, NodeKind(route, doc), PayloadOf(doc), now, key);
    }
    if !(Lands(route, docs[n - 1]) && NodeKey(route, doc) == Some(key)) {
      KindIsLast(t, route, docs, now, n - 1, key);
    }
  }

  /** The payload of a document that lands is the row's at the end, when one key has one payload. */
  lemma {:induction false} PayloadStays(t: Tables, route: Route, docs: seq<Submission>, now: nat, n: nat, i: nat)
    requires IsNodeRoute(route) && SamePayloads(route, docs) && i < n <= |docs| && Lands(route, docs[i])
    requires Fold(t, route, docs, true, now, n).Folded?
    ensures var (u, key) := (Fold(t, route, docs, true, now, n).tables, NodeKey(route, docs[i].doc).value);
      key in u.nodes && u.nodes[key].payload == PayloadOf(docs[i].doc)
    decreases n
  {
    hide DocWrite, Upsert, NodeKey, NodeKind, KindAllowed;
    var key := NodeKey(route, docs[i].doc).value;
    FoldGoesOn(t, route, docs, true, now, n - 1);
    var u, doc := Fold(t, route, docs, true, now, n - 1).tables, docs[n - 1].doc;
    NodeWriteIs(u, route, doc, true, now);
    if NodeKey(route, doc).Some? {
      UpsertRow(u, NodeKey(route, doc).value, NodeKind(route, doc), PayloadOf(doc), now, key);
    }
    if i < n - 1 {
      PayloadStays(t, route, docs, now, n - 1, i);
    }
  }

  /** Every document that lands finds its payload in the row. */
  ghost predicate PayloadsHeld(t: Tables, route: Route, docs: seq<Submission>) {
    forall i :: 0 <= i < |docs| && Lands(route, docs[i]) ==>
      NodeKey(route, docs[i].doc).value in t.nodes
        && t.nodes[NodeKey(route, docs[i].doc).value].payload == PayloadOf(docs[i].doc)
  }

  /** The first `n` documents change kinds at most. */
  ghost predicate OnlyKinds(t: Tables, u: Tables, route: Route, docs: seq<Submission>, n: nat)
    requires n <= |docs|
  {
    && u == t.(nodes := u.nodes) && u.nodes.Keys == t.nodes.Keys
    && forall k :: k in t.nodes ==>
         u.nodes[k]
           == (if LastKind(route, docs, n, k).Some? then t.nodes[k].(kind := LastKind(route, docs, n, k).value)
               else t.nodes[k])
  }

  lemma SamePayloadUpsert(t: Tables, key: Key, kind: string, payload: Jsonb, now: nat)
    requires KindAllowed(kind) && key in t.nodes && t.nodes[key].payload == payload
    ensures Upsert(t, key, kind, payload, true, now).tables == t.(nodes := t.nodes[key := t.nodes[key].(kind := kind)])
  {
  }

  lemma RefusedUpsert(t: Tables, key: Key, kind: string, payload: Jsonb, now: nat)
    requires !KindAllowed(kind)
    ensures Upsert(t, key, kind, payload, true, now).tables == t
  {
  }

  lemma {:induction false} HeldFoldOnlyKinds(t: Tables, route: Route, docs: seq<Submission>, now: nat, n: nat)
    requires IsNodeRoute(route) && PayloadsHeld(t, route, docs) && n <= |docs|
      && Fold(t, route, docs, true, now, n).Folded?
    ensures OnlyKinds(t, Fold(t, route, docs, true, now, n).tables, route, docs, n)
    decreases n
  {
    hide DocWrite, Upsert, NodeKey, NodeKind, KindAllowed;
    if n > 0 {
      FoldGoesOn(t, route, docs, true, now, n - 1);
      HeldFoldOnlyKinds(t, route, docs, now, n - 1);
      var u, doc := Fold(t, route, docs, true, now, n - 1).tables, docs[n - 1].doc;
      NodeWriteIs(u, route, doc, true, now);
      if NodeKey(route, doc).Some? {
        var key, kind := NodeKey(route, doc).value, NodeKind(route, doc);
        if !KindAllowed(kind) {
          RefusedUpsert(u, key, kind, PayloadOf(doc), now);
        } else if docs[n - 1].verdict.Fine? {
          SamePayloadUpsert(u, key, kind, PayloadOf(doc), now);
        }
      }
    }
  }

  lemma OnlyOwnKinds(t: Tables, u: Tables, route: Route, docs: seq<Submission>)
    requires OnlyKinds(t, u, route, docs, |docs|)
    requires forall k :: k in t.nodes && LastKind(route, docs, |docs|, k).Some? ==>
      t.nodes[k].kind == LastKind(route, docs, |docs|, k).value
    ensures u == t
  {
    hide LastKind;
    forall k | k in t.nodes ensures u.nodes[k] == t.nodes[k] { }
    assert u.nodes == t.nodes;
  }

  /** An overwriting batch of nodes repeats to nothing when one key has one payload. */
  lemma SamePayloadsRepeat(t: Tables, route: Route, docs: seq<Submission>, now: nat, later: nat)
    requires IsNodeRoute(route) && SamePayloads(route, docs) && Fold(t, route, docs, true, now, |docs|).Folded?
    ensures var u := Fold(t, route, docs, true, now, |docs|).tables;
      var g := Fold(u, route, docs, true, later, |docs|);
      g.Folded? && g.tables == u
  {
    var u := Fold(t, route, docs, true, now, |docs|).tables;
    LostEitherWay(t, u, route, docs, true, now, later, |docs|);
    hide Fold, LastKind, NodeKey, NodeKind, KindAllowed, SamePayloads;
    forall i | 0 <= i < |docs| && Lands(route, docs[i])
      ensures NodeKey(route, docs[i].doc).value in u.nodes
        && u.nodes[NodeKey(route, docs[i].doc).value].payload == PayloadOf(docs[i].doc)
    {
      PayloadStays(t, route, docs, now, |docs|, i);
    }
    HeldFoldOnlyKinds(u, route, docs, later, |docs|);
    forall k | k in u.nodes && LastKind(route, docs, |docs|, k).Some?
      ensures u.nodes[k].kind == LastKind(route, docs, |docs|, k).value
    {
      KindIsLast(t, route, docs, now, |docs|, k);
    }
    OnlyOwnKinds(u, Fold(u, route, docs, true, later, |docs|).tables, route, docs);
  }

  /** And only then: two payloads under one key make some log grow again. */
  lemma RepeatFixesPayloads(t: Tables, route: Route, docs: seq<Submission>, now: nat, later: nat)
    requires IsNodeRoute(route) && Fold(t, route, docs, true, now, |docs|).Folded?
    requires var u := Fold(t, route, docs, true, now, |docs|).tables;
      var g := Fold(u, route, docs, true, later, |docs|);
      g.Folded? && g.tables == u
    ensures SamePayloads(route, docs)
  {
    var u := Fold(t, route, docs, true, now, |docs|).tables;
    hide Fold, NodeKey, NodeKind, KindAllowed, PayloadOf, LogOf;
    forall i | 0 <= i < |docs| && Lands(route, docs[i])
      ensures NodeKey(route, docs[i].doc).value in u.nodes
        && u.nodes[NodeKey(route, docs[i].doc).value].payload == PayloadOf(docs[i].doc)
    {
      LandingRow(t, route, docs, true, now, i);
      QuietLogFixesPayload(u, route, docs, later, i);
    }
  }

  // ---- Nodes that must not be overwritten ----

  ghost predicate KeysHeld(t: Tables, route: Route, docs: seq<Submission>) {
    forall i :: 0 <= i < |docs| && Lands(route, docs[i]) ==> NodeKey(route, docs[i].doc).value in t.nodes
  }

  lemma {:induction false} HeldKeysStay(t: Tables, route: Route, docs: seq<Submission>, now: nat, n: nat)
    requires IsNodeRoute(route) && KeysHeld(t, route, docs) && n <= |docs|
      && Fold(t, route, docs, false, now, n).Folded?
    ensures Fold(t, route, docs, false, now, n).tables == t
    decreases n
  {
    hide DocWrite, NodeKey, NodeKind, KindAllowed;
    if n > 0 {
      FoldGoesOn(t, route, docs, false, now, n - 1);
      HeldKeysStay(t, route, docs, now, n - 1);
      NodeWriteIs(t, route, docs[n - 1].doc, false, now);
    }
  }

  lemma KeptNodesRepeat(t: Tables, route: Route, docs: seq<Submission>, now: nat, later: nat)
    requires IsNodeRoute(route) && Fold(t, route, docs, false, now, |docs|).Folded?
    ensures var u := Fold(t, route, docs, false, now, |docs|).tables;
      var g := Fold(u, route, docs, false, later, |docs|);
      g.Folded? && g.tables == u
  {
    var u := Fold(t, route, docs, false, now, |docs|).tables;
    LostEitherWay(t, u, route, docs, false, now, later, |docs|);
    hide Fold, NodeKey, NodeKind, KindAllowed;
    forall i | 0 <= i < |docs| && Lands(route, docs[i]) ensures NodeKey(route, docs[i].doc).value in u.nodes {
      LandingRow(t, route, docs, false, now, i);
    }
    HeldKeysStay(u, route, docs, later, |docs|);
  }

  // ---- Any batch ----

  /** What a caller can check of a batch before sending it: it names no table, or does not overwrite,
      or is not of nodes, or is lost, or has one payload under each key. */
  ghost predicate Repeatable(b: Batch) {
    match RouteOf(b.container)
    case None => true
    case Some(route) => !b.overwrite || !IsNodeRoute(route) || IsLost(b.docs) || SamePayloads(route, b.docs)
  }

  /** Some document loses the connection. */
  ghost predicate IsLost(docs: seq<Submission>) {
    exists i :: 0 <= i < |docs| && docs[i].verdict.Loses?
  }

  lemma {:induction false} LostIff(t: Tables, route: Route, docs: seq<Submission>, overwrite: bool, now: nat, n: nat)
    requires n <= |docs|
    ensures Fold(t, route, docs, overwrite, now, n).Lost? <==> exists i :: 0 <= i < n && docs[i].verdict.Loses?
    decreases n
  {
    hide DocWrite;
    if n > 0 {
      LostIff(t, route, docs, overwrite, now, n - 1);
    }
  }

  lemma BatchIsFold(t: Tables, b: Batch, route: Route)
    requires RouteOf(b.container) == Some(route)
    ensures match Fold(t, route, b.docs, b.overwrite, b.now, |b.docs|)
      case Folded(u, _, _) => BatchTables(t, b) == u
      case Lost => BatchTables(t, b) == t
  {
    hide Fold, RouteOf;
  }

  /** Main result: repeating any batch at any later time, whatever its container and flag, leaves rows
      and logs exactly as they were if and only if it is repeatable. */
  lemma RepeatIsNoOpIff(t: Tables, b: Batch, later: nat)
    ensures BatchTables(BatchTables(t, b), b.(now := later)) == BatchTables(t, b) <==> Repeatable(b)
  {
    hide Fold, SamePayloads;
    if RouteOf(b.container).Some? {
      var route := RouteOf(b.container).value;
      var u := BatchTables(t, b);
      BatchIsFold(t, b, route);
      BatchIsFold(u, b.(now := later), route);
      hide RouteOf, BatchTables;
      LostIff(t, route, b.docs, b.overwrite, b.now, |b.docs|);
      LostIff(u, route, b.docs, b.overwrite, later, |b.docs|);
      if !IsLost(b.docs) {
        if !IsNodeRoute(route) {
          OtherRepeats(t, route, b.docs, b.overwrite, b.now, later);
        } else if !b.overwrite {
          KeptNodesRepeat(t, route, b.docs, b.now, later);
        } else if SamePayloads(route, b.docs) {
          SamePayloadsRepeat(t, route, b.docs, b.now, later);
        } else if BatchTables(u, b.(now := later)) == u {
          RepeatFixesPayloads(t, route, b.docs, b.now, later);
        }
      }
    }
  }
}
