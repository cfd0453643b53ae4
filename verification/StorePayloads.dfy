/** What a row of the store holds of the document it was written from: the payload of
    crates/yeomna-store/src/sink.rs, member by member. */
module StorePayloads {
  import opened Json
  import opened Strings
  import opened CanonicalJson
  import opened Store
  import opened StoreLaws
  import opened StoreRepeats

  // ---- The payload of one document ----

  lemma {:induction false} GetWithout(fields: seq<Field>, key: string, k: string)
    ensures Get(Object(Without(fields, key)), k) == if k == key then None else Get(Object(fields), k)
  {
    if fields != [] {
      GetWithout(fields[1..], key, k);
      GetFirst(fields, k);
      if fields[0].key != key {
        GetFirst(Without(fields, key), k);
        assert Without(fields, key)[1..] == Without(fields[1..], key);
      } else {
        assert Without(fields, key) == Without(fields[1..], key);
      }
    }
  }

  lemma GetFirst(fields: seq<Field>, k: string)
    requires fields != []
    ensures Get(Object(fields), k) == if fields[0].key == k then Some(fields[0].value) else Get(Object(fields[1..]), k)
  {
  }

  lemma {:induction false} WithoutDistinct(fields: seq<Field>, key: string)
    requires DistinctKeys(fields)
    ensures DistinctKeys(Without(fields, key)) && forall f :: f in Without(fields, key) ==> f in fields
  {
    if fields != [] {
      WithoutDistinct(fields[1..], key);
      assert fields == [fields[0]] + fields[1..];
      forall f | f in Without(fields[1..], key) ensures f.key != fields[0].key {
        var j :| 0 <= j < |fields[1..]| && fields[1..][j] == f;
        assert fields[j + 1] == f;
      }
    }
  }

  lemma WithoutWellFormed(fields: seq<Field>, key: string)
    requires WellFormed(Object(fields))
    ensures WellFormed(Object(Without(fields, key)))
  {
    WithoutDistinct(fields, key);
    hide Without, DistinctKeys;
    var rest := Without(fields, key);
    forall i | 0 <= i < |rest| ensures WellFormed(rest[i].value) {
      assert rest[i] in fields;
    }
  }

  /** The document less its key: no other member is added, dropped or changed. */
  ghost predicate LessItsKey(w: Value, doc: Value) {
    if doc.Object? then
      && w.Object? && Get(w, "_key") == None && (forall k :: k != "_key" ==> Get(w, k) == Get(doc, k))
      && (WellFormed(doc) ==> WellFormed(w))
    else w == doc
  }

  /** The payload is the document less its key, as jsonb. */
  ghost predicate Carries(payload: Jsonb, doc: Value) {
    exists w :: LessItsKey(w, doc) && payload == ToJsonb(w)
  }

  lemma PayloadCarries(doc: Value)
    ensures Carries(PayloadOf(doc), doc)
  {
    var w := if doc.Object? then Object(Without(doc.fields, "_key")) else doc;
    if doc.Object? {
      forall k ensures Get(w, k) == if k == "_key" then None else Get(doc, k) { GetWithout(doc.fields, "_key", k); }
      if WellFormed(doc) {
        WithoutWellFormed(doc.fields, "_key");
      }
    }
    assert LessItsKey(w, doc) && PayloadOf(doc) == ToJsonb(w);
  }

  // ---- When two documents have one payload ----

  ghost predicate SameMember(a: Option<Value>, b: Option<Value>) {
    (a.None? && b.None?) || (a.Some? && b.Some? && EqualUpToOrder(a.value, b.value))
  }

  /** The documents agree, up to the order of members at any depth, on every member but the key. */
  ghost predicate AgreeButKey(d: Value, e: Value) {
    forall k :: k != "_key" ==> SameMember(Get(d, k), Get(e, k))
  }

  lemma GetAt(fields: seq<Field>, i: nat)
    requires DistinctKeys(fields) && i < |fields|
    ensures Get(Object(fields), fields[i].key) == Some(fields[i].value)
  {
    MemberAt(fields, fields[i].key, i);
  }

  lemma GetIsIn(fields: seq<Field>, k: string) returns (i: nat)
    requires Get(Object(fields), k).Some?
    ensures i < |fields| && fields[i] == Field(k, Get(Object(fields), k).value)
  {
    i := IndexOf(fields, k);
  }

  lemma ObjectsAgree(fs: seq<Field>, gs: seq<Field>)
    ensures EqualUpToOrder(Object(fs), Object(gs)) <==> LeftMatched(fs, gs, {}) && RightMatched(fs, gs, {})
  {
  }

  lemma LeftByKey(fs: seq<Field>, gs: seq<Field>)
    requires DistinctKeys(fs) && DistinctKeys(gs)
    ensures LeftMatched(fs, gs, {}) <==>
      forall k :: Get(Object(fs), k).Some? ==> SameMember(Get(Object(fs), k), Get(Object(gs), k))
  {
    hide Get;
    if LeftMatched(fs, gs, {}) {
      forall k | Get(Object(fs), k).Some? ensures SameMember(Get(Object(fs), k), Get(Object(gs), k)) {
        var i := GetIsIn(fs, k);
        assert fs[i].key !in {};
        var j :| 0 <= j < |gs| && fs[i].key == gs[j].key && Agree(fs[i].value, gs[j].value, {});
        GetAt(gs, j);
      }
    }
    if forall k :: Get(Object(fs), k).Some? ==> SameMember(Get(Object(fs), k), Get(Object(gs), k)) {
      forall i | 0 <= i < |fs|
        ensures exists j :: 0 <= j < |gs| && fs[i].key == gs[j].key && Agree(fs[i].value, gs[j].value, {})
      {
        GetAt(fs, i);
        assert SameMember(Get(Object(fs), fs[i].key), Get(Object(gs), fs[i].key));
        var j := GetIsIn(gs, fs[i].key);
      }
    }
  }

  lemma RightByKey(fs: seq<Field>, gs: seq<Field>)
    requires DistinctKeys(fs) && DistinctKeys(gs)
    ensures RightMatched(fs, gs, {}) <==>
      forall k :: Get(Object(gs), k).Some? ==> SameMember(Get(Object(fs), k), Get(Object(gs), k))
  {
    hide Get;
    if RightMatched(fs, gs, {}) {
      forall k | Get(Object(gs), k).Some? ensures SameMember(Get(Object(fs), k), Get(Object(gs), k)) {
        var j := GetIsIn(gs, k);
        assert gs[j].key !in {};
        var i :| 0 <= i < |fs| && fs[i].key == gs[j].key && Agree(fs[i].value, gs[j].value, {});
        GetAt(fs, i);
      }
    }
    if forall k :: Get(Object(gs), k).Some? ==> SameMember(Get(Object(fs), k), Get(Object(gs), k)) {
      forall j | 0 <= j < |gs|
        ensures exists i :: 0 <= i < |fs| && fs[i].key == gs[j].key && Agree(fs[i].value, gs[j].value, {})
      {
        GetAt(gs, j);
        assert SameMember(Get(Object(fs), gs[j].key), Get(Object(gs), gs[j].key));
        var i := GetIsIn(fs, gs[j].key);
      }
    }
  }

  /** Equality of two objects up to order is agreement on every key. */
  lemma AgreeByKey(v: Value, w: Value)
    requires WellFormed(v) && WellFormed(w) && v.Object? && w.Object?
    ensures EqualUpToOrder(v, w) <==> forall k :: SameMember(Get(v, k), Get(w, k))
  {
    hide Get, WellFormed, Agree, LeftMatched, RightMatched, EqualUpToOrder;
    ObjectKeys(v);
    ObjectKeys(w);
    ObjectsAgree(v.fields, w.fields);
    LeftByKey(v.fields, w.fields);
    RightByKey(v.fields, w.fields);
  }

  lemma ObjectKeys(v: Value)
    requires WellFormed(v) && v.Object?
    ensures DistinctKeys(v.fields)
  {
  }

  /** Main result: two documents have one payload exactly when they agree on every member but the key. */
  lemma SamePayloadIff(d: Value, e: Value)
    requires WellFormed(d) && WellFormed(e) && d.Object? && e.Object?
    ensures PayloadOf(d) == PayloadOf(e) <==> AgreeButKey(d, e)
  {
    var v, w := Object(Without(d.fields, "_key")), Object(Without(e.fields, "_key"));
    WithoutWellFormed(d.fields, "_key");
    WithoutWellFormed(e.fields, "_key");
    JsonbEquality(v, w);
    AgreeByKey(v, w);
    hide Get, WellFormed, Without, ToJsonb, EqualUpToOrder;
    forall k ensures Get(v, k) == if k == "_key" then None else Get(d, k) { GetWithout(d.fields, "_key", k); }
    forall k ensures Get(w, k) == if k == "_key" then None else Get(e, k) { GetWithout(e.fields, "_key", k); }
  }

  // ---- The row ----

  /** Main result: a node document that is written leaves a row under its key that carries it. */
  lemma RowCarriesDocument(t: Tables, kind: string, doc: Value, overwrite: bool, now: nat)
    requires NodeWrite(t, kind, doc, overwrite, now).created
    ensures var u := NodeWrite(t, kind, doc, overwrite, now).tables;
      exists key :: GetStr(doc, "_key") == Some(key) && key in u.nodes && u.nodes[key].kind == kind
                    && Carries(u.nodes[key].payload, doc)
  {
    PayloadCarries(doc);
    hide PayloadOf, Carries, LogOf, MaxSeq;
    var key := GetStr(doc, "_key").value;
    assert NodeWrite(t, kind, doc, overwrite, now).tables.nodes[key].payload == PayloadOf(doc);
  }

  lemma UpsertTwice(t: Tables, key: Key, kind: string, p: Jsonb, q: Jsonb, now: nat, later: nat)
    requires KindAllowed(kind)
    ensures var u := Upsert(t, key, kind, p, true, now).tables;
      var v := Upsert(u, key, kind, q, true, later).tables;
      && key in u.nodes && key in v.nodes && v.nodes[key].id == u.nodes[key].id
      && |LogOf(v, v.nodes[key].id)| == |LogOf(u, u.nodes[key].id)| + if p == q then 0 else 1
  {
    hide MaxSeq, KindAllowed;
    var u := Upsert(t, key, kind, p, true, now).tables;
    assert key in u.nodes && u.nodes[key].payload == p;
    hide NewRow;
  }

  /** Main result: overwriting one document with another under its key adds a log entry exactly when
      they differ on some member besides the key. */
  lemma ChangeIsLoggedIff(t: Tables, kind: string, d: Value, e: Value, key: Key, now: nat, later: nat)
    requires WellFormed(d) && WellFormed(e) && d.Object? && e.Object? && KindAllowed(kind)
    requires GetStr(d, "_key") == GetStr(e, "_key") == Some(key)
    ensures var u := NodeWrite(t, kind, d, true, now).tables;
      var v := NodeWrite(u, kind, e, true, later).tables;
      && key in u.nodes && key in v.nodes && v.nodes[key].id == u.nodes[key].id
      && |LogOf(v, v.nodes[key].id)| == |LogOf(u, u.nodes[key].id)| + if AgreeButKey(d, e) then 0 else 1
  {
    SamePayloadIff(d, e);
    UpsertTwice(t, key, kind, PayloadOf(d), PayloadOf(e), now, later);
    hide PayloadOf, AgreeButKey, GetStr, WellFormed, Upsert, LogOf;
  }

  // ---- The rows a batch leaves ----

  /** The last document of the first `n` to land under its key. */
  predicate LandsLast(route: Route, docs: seq<Submission>, n: nat, i: nat)
    requires n <= |docs|
  {
    i < n && Lands(route, docs[i]) && forall j :: i < j < n ==> !LandTogether(route, docs[i], docs[j])
  }

  lemma {:induction false} FoldRowIsLast(t: Tables, route: Route, docs: seq<Submission>, now: nat, n: nat, i: nat)
    requires IsNodeRoute(route) && n <= |docs| && Fold(t, route, docs, true, now, n).Folded?
    requires LandsLast(route, docs, n, i)
    ensures Holds(Fold(t, route, docs, true, now, n).tables, NodeKey(route, docs[i].doc).value,
                  NodeKind(route, docs[i].doc), PayloadOf(docs[i].doc))
    decreases n
  {
    hide DocWrite, NodeKey, NodeKind, KindAllowed, PayloadOf, Upsert;
    FoldGoesOn(t, route, docs, true, now, n - 1);
    var u, doc := Fold(t, route, docs, true, now, n - 1).tables, docs[n - 1].doc;
    NodeWriteIs(u, route, doc, true, now);
    var key := NodeKey(route, docs[i].doc).value;
    if i < n - 1 {
      FoldRowIsLast(t, route, docs, now, n - 1, i);
    }
    if NodeKey(route, doc).Some? {
      UpsertRow(u, NodeKey(route, doc).value, NodeKind(route, doc), PayloadOf(doc), now, key);
    }
  }

  /** Main result: after an overwriting batch that was committed, each row carries the last document to
      land under its key, whole but for the key, and has the kind it was written with. */
  lemma BatchRowsCarry(t: Tables, b: Batch, route: Route, i: nat)
    requires RouteOf(b.container) == Some(route) && IsNodeRoute(route) && b.overwrite
    requires BatchReport(t, b).Inserted? && LandsLast(route, b.docs, |b.docs|, i)
    ensures var (u, key) := (BatchTables(t, b), NodeKey(route, b.docs[i].doc).value);
      && key in u.nodes && u.nodes[key].kind == NodeKind(route, b.docs[i].doc)
      && Carries(u.nodes[key].payload, b.docs[i].doc)
  {
    hide RouteOf, PayloadOf, NodeKey, NodeKind;
    BatchIsFold(t, b, route);
    FoldRowIsLast(t, route, b.docs, b.now, |b.docs|, i);
    PayloadCarries(b.docs[i].doc);
  }

  // ---- The ends of an edge ----

  /** Main result: an id that is a container's name, a slash and a key stands for the key; any other id,
      one with a slash included, stands for itself. */
  lemma StripContainerIs(id: string)
    ensures forall container, key :: id == container + "/" + key && '/' !in container && RouteOf(container).Some? ==>
      StripContainer(id) == key
    ensures (forall container, key :: id == container + "/" + key && '/' !in container ==> RouteOf(container).None?) ==>
      StripContainer(id) == id
  {
    hide RouteOf;
    forall container, key | id == container + "/" + key && '/' !in container && RouteOf(container).Some?
      ensures StripContainer(id) == key
    {
      FindAfter(container, '/', key);
      assert container + "/" + key == container + ['/'] + key;
      assert id[..|container|] == container && id[|container| + 1..] == key;
    }
    var at := Find(id, '/');
    if at < |id| {
      assert id == id[..at] + "/" + id[at + 1..];
    }
  }

  // ---- Chunks and embeddings ----

  /** The symbols of a chunk: each key that is a node's, by its id, in order; the others are left out. */
  lemma {:induction false} ResolveAppend(t: Tables, a: seq<Key>, b: seq<Key>)
    ensures Resolve(t, a + b) == Resolve(t, a) + Resolve(t, b)
  {
    if b == [] {
      assert a + b == a;
    } else {
      assert (a + b)[..|a + b| - 1] == a + b[..|b| - 1];
      ResolveAppend(t, a, b[..|b| - 1]);
    }
  }

  lemma ResolveOne(t: Tables, key: Key)
    ensures Resolve(t, [key]) == if key in t.nodes then [t.nodes[key].id] else []
  {
    assert [key][..0] == [];
    assert Resolve(t, [key][..0]) == [];
  }

  lemma {:induction false} StringItemsAre(items: seq<Value>, keys: seq<string>)
    requires |items| == |keys| && forall i :: 0 <= i < |items| ==> items[i] == String(keys[i])
    ensures StringItems(items) == keys
  {
    if items != [] {
      StringItemsAre(items[1..], keys[1..]);
      assert keys == [keys[0]] + keys[1..];
    }
  }

  lemma {:induction false} NumberItemsIff(items: seq<Value>, xs: seq<Number>)
    ensures NumberItems(items) == Some(xs) <==>
      |items| == |xs| && forall i :: 0 <= i < |items| ==> items[i] == Num(xs[i])
  {
    if items != [] {
      if xs != [] {
        NumberItemsIff(items[1..], xs[1..]);
        assert xs == [xs[0]] + xs[1..];
        assert forall i :: 1 <= i < |items| ==> items[i] == items[1..][i - 1];
        assert forall i :: 1 <= i < |xs| ==> xs[i] == xs[1..][i - 1];
      }
    }
  }

  /** Main result: a chunk that is written has its document's text and span, under its document's node
      and its index, with the nodes its symbol keys name. */
  lemma ChunkRowHolds(t: Tables, doc: Value, overwrite: bool, keys: seq<string>)
    returns (docKey: string, index: int, row: ChunkRow)
    requires ChunkWrite(t, doc, overwrite).created
    requires Get(doc, "symbol_keys").Some? && Get(doc, "symbol_keys").value.Array?
    requires |Get(doc, "symbol_keys").value.items| == |keys|
    requires forall i :: 0 <= i < |keys| ==> Get(doc, "symbol_keys").value.items[i] == String(keys[i])
    ensures GetStr(doc, "doc_key") == Some(docKey) && GetInt(doc, "chunk_index") == Some(index) && docKey in t.nodes
    ensures var u := ChunkWrite(t, doc, overwrite).tables;
      ChunkId(t.nodes[docKey].id, index) in u.chunks && row == u.chunks[ChunkId(t.nodes[docKey].id, index)]
    ensures GetStr(doc, "text") == Some(row.text) && GetInt(doc, "start_char") == Some(row.start)
    ensures GetInt(doc, "end_char") == Some(row.end) && row.symbols == Resolve(t, keys)
  {
    StringItemsAre(Get(doc, "symbol_keys").value.items, keys);
    hide GetStr, GetInt, Resolve, StringItems, FitsI32;
    docKey, index := GetStr(doc, "doc_key").value, GetInt(doc, "chunk_index").value;
    assert SymbolKeys(doc) == keys;
    hide Get, SymbolKeys;
    row := ChunkWrite(t, doc, overwrite).tables.chunks[ChunkId(t.nodes[docKey].id, index)];
  }

  /** Main result: an embedding that is written has its document's numbers, on the chunk its key spells. */
  lemma VectorRowHolds(t: Tables, doc: Value, overwrite: bool, xs: seq<Number>)
    requires VectorWrite(t, doc, overwrite).created
    requires Get(doc, "embedding").Some? && Get(doc, "embedding").value.Array?
    requires |Get(doc, "embedding").value.items| == |xs|
    requires forall i :: 0 <= i < |xs| ==> Get(doc, "embedding").value.items[i] == Num(xs[i])
    ensures var u := VectorWrite(t, doc, overwrite).tables;
      exists docKey, index: nat, model, revision, task ::
        && GetStr(doc, "doc_key") == Some(docKey) && GetStr(doc, "chunk_key") == Some(ChunkKey(docKey, index))
        && GetStr(doc, "model") == Some(model) && GetStr(doc, "model_revision") == Some(revision)
        && GetStr(doc, "task") == Some(task) && docKey in t.nodes
        && ChunkId(t.nodes[docKey].id, index) in t.chunks
        && t.chunks[ChunkId(t.nodes[docKey].id, index)].id in u.vectors
        && u.vectors[t.chunks[ChunkId(t.nodes[docKey].id, index)].id] == VectorRow(xs, model, revision, task)
  {
    NumberItemsIff(Get(doc, "embedding").value.items, xs);
    var docKey, chunkKey := GetStr(doc, "doc_key").value, GetStr(doc, "chunk_key").value;
    var index := ChunkIndexFromKey(docKey, chunkKey).value;
    ChunkIndexRoundTrips(docKey, chunkKey, index);
    hide GetStr, Get, ChunkIndexFromKey, ChunkKey, NumberItems;
    assert GetStr(doc, "chunk_key") == Some(ChunkKey(docKey, index));
  }
}
