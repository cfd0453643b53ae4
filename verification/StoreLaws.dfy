/** What the store of `PgSink` keeps over any history of batches: the log is a faithful, gap-free
    history of each head row, memoization and savepoints change nothing, and repeating a batch
    changes nothing. */
module StoreLaws {
  import opened Json
  import opened Store

  // ---- The log ----

  /** Numbered 1 to k, an insert first, each `from` the previous `to`, no no-op, and the last `to` is
      the head. */
  ghost predicate LogOk(log: seq<LogEntry>, head: Jsonb) {
    && log != [] && log[0].from == None && log[|log| - 1].to == head
    && (forall i :: 0 <= i < |log| ==> log[i].seqNo == i + 1)
    && (forall i :: 1 <= i < |log| ==> log[i].from == Some(log[i - 1].to) && log[i].to != log[i - 1].to)
  }

  /** Applying the entries in order, each to the state it says it found. */
  function Replay(log: seq<LogEntry>): Option<Option<Jsonb>> {
    if log == [] then Some(None)
    else
      var e := log[|log| - 1];
      match Replay(log[..|log| - 1])
      case Some(state) => if state == e.from then Some(Some(e.to)) else None
      case None => None
  }

  /** A log that is in order replays to exactly its head. */
  lemma {:induction false} LogReplays(log: seq<LogEntry>, head: Jsonb)
    requires LogOk(log, head)
    ensures Replay(log) == Some(Some(head))
    decreases |log|
  {
    var init := log[..|log| - 1];
    if |log| > 1 {
      LogReplays(init, init[|init| - 1].to);
    } else {
      assert init == [];
    }
  }

  lemma {:induction false} MaxSeqOfNumbered(log: seq<LogEntry>)
    requires forall i :: 0 <= i < |log| ==> log[i].seqNo == i + 1
    ensures MaxSeq(log) == |log|
  {
    if log != [] {
      MaxSeqOfNumbered(log[..|log| - 1]);
    }
  }

  lemma LogExtends(log: seq<LogEntry>, head: Jsonb, to: Jsonb)
    requires LogOk(log, head) && to != head
    ensures LogOk(log + [LogEntry(MaxSeq(log) + 1, Some(head), to)], to)
  {
    MaxSeqOfNumbered(log);
  }

  /** Node ids are issued once and below the counter; every row's log is in order. */
  ghost predicate Consistent(t: Tables) {
    && (forall k :: k in t.nodes ==> RowOk(t, k))
    && UniqueIds(t)
    && (forall id :: id in t.log ==> id < t.nextNode)
  }

  ghost predicate UniqueIds(t: Tables) {
    forall k, m :: k in t.nodes && m in t.nodes && t.nodes[k].id == t.nodes[m].id ==> k == m
  }

  ghost predicate RowOk(t: Tables, k: Key)
    requires k in t.nodes
  {
    t.nodes[k].id < t.nextNode && LogOk(LogOf(t, t.nodes[k].id), t.nodes[k].payload)
  }

  /** A write that lands one payload under one key and appends to no other log keeps everything. */
  lemma LandingConsistent(t: Tables, u: Tables, key: Key, id: nat, now: nat)
    requires Consistent(t)
    requires u.nodes.Keys == t.nodes.Keys + {key} && u.nodes[key].id == id && id < u.nextNode
      && t.nextNode <= u.nextNode
    requires forall k :: k in t.nodes && k != key ==> u.nodes[k] == t.nodes[k] && t.nodes[k].id != id
    requires forall i :: i in u.log ==> i < u.nextNode
    requires forall i: nat :: i != id ==> LogOf(u, i) == LogOf(t, i)
    requires LogOk(LogOf(u, id), u.nodes[key].payload)
    requires if key in t.nodes then t.nodes[key].id == id && RowMoved(t, u, key, now)
             else u.nodes[key].ingestedAt == now
    ensures Consistent(u) && Moved(t, u, now)
  {
    hide LogOk, LogOf;
    forall k | k in t.nodes ensures RowOk(u, k) && RowMoved(t, u, k, now) {
      assert RowOk(t, k);
      assert k != key ==> LogOf(u, t.nodes[k].id) == LogOf(t, t.nodes[k].id);
    }
    assert RowOk(u, key);
  }

  lemma NewRowConsistent(t: Tables, key: Key, kind: string, payload: Jsonb, now: nat)
    requires Consistent(t) && key !in t.nodes
    ensures Consistent(NewRow(t, key, kind, payload, now)) && Moved(t, NewRow(t, key, kind, payload, now), now)
  {
    var u := NewRow(t, key, kind, payload, now);
    assert LogOf(t, t.nextNode) == [];
    assert LogOf(u, t.nextNode) == [LogEntry(1, None, payload)];
    forall k | k in t.nodes ensures t.nodes[k].id != t.nextNode { assert RowOk(t, k); }
    LandingConsistent(t, u, key, t.nextNode, now);
  }

  /** An overwrite replaces its own row, and appends one entry to that node's log when the payload
      differs. */
  lemma OverwrittenLogs(t: Tables, key: Key, kind: string, payload: Jsonb, now: nat)
    requires key in t.nodes && UniqueIds(t)
    ensures var (u, head) := (Overwritten(t, key, kind, payload, now), t.nodes[key]);
      && u.nodes.Keys == t.nodes.Keys + {key} && u.nextNode == t.nextNode
      && (forall k :: k in t.nodes && k != key ==> u.nodes[k] == t.nodes[k] && t.nodes[k].id != head.id)
      && u.nodes[key] == NodeRow(head.id, kind, payload, if head.payload != payload then now else head.ingestedAt)
      && (forall i: nat :: i != head.id ==> LogOf(u, i) == LogOf(t, i))
      && (forall i :: i in u.log ==> i in t.log || i == head.id)
      && u.edges == t.edges && u.chunks == t.chunks && u.vectors == t.vectors && u.nextChunk == t.nextChunk
      && (head.payload == payload ==> LogOf(u, head.id) == LogOf(t, head.id))
      && (head.payload != payload ==>
            LogOf(u, head.id)
              == LogOf(t, head.id) + [LogEntry(MaxSeq(LogOf(t, head.id)) + 1, Some(head.payload), payload)])
  {
  }

  lemma OverwrittenConsistent(t: Tables, key: Key, kind: string, payload: Jsonb, now: nat)
    requires Consistent(t) && key in t.nodes
    ensures Consistent(Overwritten(t, key, kind, payload, now))
      && Moved(t, Overwritten(t, key, kind, payload, now), now)
  {
    hide Overwritten, LogOf, Moved, RowOk;
    var u, id := Overwritten(t, key, kind, payload, now), t.nodes[key].id;
    OverwrittenLogs(t, key, kind, payload, now);
    RowLog(t, key);
    if t.nodes[key].payload != payload {
      LogExtends(LogOf(t, id), t.nodes[key].payload, payload);
    }
    hide LogOk;
    LandingConsistent(t, u, key, id, now);
  }

  lemma RowLog(t: Tables, k: Key)
    requires Consistent(t) && k in t.nodes
    ensures t.nodes[k].id < t.nextNode && LogOk(LogOf(t, t.nodes[k].id), t.nodes[k].payload)
  {
    assert RowOk(t, k);
  }

  lemma UpsertConsistent(t: Tables, key: Key, kind: string, payload: Jsonb, overwrite: bool, now: nat)
    requires Consistent(t)
    ensures var u := Upsert(t, key, kind, payload, overwrite, now).tables; Consistent(u) && Moved(t, u, now)
  {
    hide Consistent, Moved, Overwritten, NewRow;
    if key in t.nodes {
      OverwrittenConsistent(t, key, kind, payload, now);
    } else {
      NewRowConsistent(t, key, kind, payload, now);
    }
    NothingMoved(t, t, now);
  }

  lemma NothingMoved(t: Tables, u: Tables, now: nat)
    requires SameNodes(t, u)
    ensures Moved(t, u, now)
  {
    forall k | k in t.nodes ensures RowMoved(t, u, k, now) { }
  }

  /** Writes other than of nodes do not touch nodes or logs. */
  predicate SameNodes(t: Tables, u: Tables) {
    u.nodes == t.nodes && u.log == t.log && u.nextNode == t.nextNode
  }

  lemma OtherWritesKeepNodes(t: Tables, route: Route, doc: Value, overwrite: bool)
    ensures SameNodes(t, OtherWrite(t, route, doc, overwrite).tables)
  {
  }

  /** A document's write is an upsert of a head row, or leaves nodes and logs alone. */
  lemma DocWriteCases(t: Tables, route: Route, doc: Value, overwrite: bool, now: nat) returns (u: Tables)
    ensures u == DocWrite(t, route, doc, overwrite, now).tables
    ensures SameNodes(t, u)
      || (NodeKey(route, doc).Some?
          && u == Upsert(t, NodeKey(route, doc).value, NodeKind(route, doc), PayloadOf(doc), overwrite, now).tables)
  {
    u := DocWrite(t, route, doc, overwrite, now).tables;
    if !IsNodeRoute(route) {
      OtherWritesKeepNodes(t, route, doc, overwrite);
    }
  }

  lemma DocWriteConsistent(t: Tables, route: Route, doc: Value, overwrite: bool, now: nat)
    requires Consistent(t)
    ensures var u := DocWrite(t, route, doc, overwrite, now).tables; Consistent(u) && Moved(t, u, now)
  {
    var u := DocWriteCases(t, route, doc, overwrite, now);
    hide DocWrite;
    if SameNodes(t, u) {
      SameNodesConsistent(t, u);
      NothingMoved(t, u, now);
    } else {
      UpsertConsistent(t, NodeKey(route, doc).value, NodeKind(route, doc), PayloadOf(doc), overwrite, now);
    }
  }

  lemma SameNodesConsistent(t: Tables, u: Tables)
    requires Consistent(t) && SameNodes(t, u)
    ensures Consistent(u)
  {
    forall k | k in u.nodes ensures RowOk(u, k) { assert RowOk(t, k); }
  }

  /** The first `n` documents keep the tables consistent, move clocks only with logs, and are each
      counted once. */
  ghost predicate FoldOk(t: Tables, f: Folded, now: nat, n: nat) {
    f.Folded? ==> Consistent(f.tables) && Moved(t, f.tables, now) && f.created + f.errors == n
  }

  lemma {:induction false} FoldConsistent(t: Tables, route: Route, docs: seq<Submission>, overwrite: bool, now: nat,
                                          n: nat)
    requires Consistent(t) && n <= |docs|
    ensures FoldOk(t, Fold(t, route, docs, overwrite, now, n), now, n)
    decreases n
  {
    hide DocWrite, Consistent, Moved;
    if n == 0 {
      NothingMoved(t, t, now);
    } else {
      FoldConsistent(t, route, docs, overwrite, now, n - 1);
      var f := Fold(t, route, docs, overwrite, now, n - 1);
      if f.Folded? {
        var w := DocWrite(f.tables, route, docs[n - 1].doc, overwrite, now);
        DocWriteConsistent(f.tables, route, docs[n - 1].doc, overwrite, now);
        MovedTransitive(t, f.tables, w.tables, now);
      }
    }
  }

  /** The tables after a history of batches. */
  function History(t: Tables, batches: seq<Batch>): Tables {
    if batches == [] then t else BatchTables(History(t, batches[..|batches| - 1]), batches[|batches| - 1])
  }

  const Empty := Tables(map[], map[], map[], map[], map[], 0, 0)

  lemma {:induction false} HistoryConsistent(t: Tables, batches: seq<Batch>)
    requires Consistent(t)
    ensures Consistent(History(t, batches))
  {
    if batches != [] {
      var u, b := History(t, batches[..|batches| - 1]), batches[|batches| - 1];
      HistoryConsistent(t, batches[..|batches| - 1]);
      if RouteOf(b.container).Some? {
        FoldConsistent(u, RouteOf(b.container).value, b.docs, b.overwrite, b.now, |b.docs|);
      }
    }
  }

  /** Main result: after any history of batches, with either overwrite flag, refused documents and
      lost connections, each node's log is in order and replays to exactly its head payload. */
  lemma LogIsTheHistory(batches: seq<Batch>, k: Key)
    requires k in History(Empty, batches).nodes
    ensures var t := History(Empty, batches);
      LogOk(LogOf(t, t.nodes[k].id), t.nodes[k].payload)
        && Replay(LogOf(t, t.nodes[k].id)) == Some(Some(t.nodes[k].payload))
  {
    HistoryConsistent(Empty, batches);
    var t := History(Empty, batches);
    assert RowOk(t, k);
    LogReplays(LogOf(t, t.nodes[k].id), t.nodes[k].payload);
  }

  /** Main result: every batch accounts for each of its documents, and a batch that is not committed
      leaves the store unchanged. */
  lemma BatchAccounts(t: Tables, b: Batch)
    requires Consistent(t)
    ensures BatchReport(t, b).Inserted? ==> BatchReport(t, b).created + BatchReport(t, b).errors == |b.docs|
    ensures !BatchReport(t, b).Inserted? ==> BatchTables(t, b) == t
  {
    if RouteOf(b.container).Some? {
      FoldConsistent(t, RouteOf(b.container).value, b.docs, b.overwrite, b.now, |b.docs|);
    }
  }

  // ---- What the log does not record ----

  /** Main result: an upsert changes a head row without an entry in its log exactly when it overwrites
      the kind, with one the table allows, under the payload the row already has. Everything else of
      the row then stays, and a new row always gets an entry. */
  lemma UnloggedChangeIff(t: Tables, key: Key, kind: string, payload: Jsonb, overwrite: bool, now: nat)
    ensures var u := Upsert(t, key, kind, payload, overwrite, now).tables;
      && (key in t.nodes ==> key in u.nodes && u.nodes[key].id == t.nodes[key].id)
      && (key in t.nodes ==>
            (u.nodes[key] != t.nodes[key] && LogOf(u, t.nodes[key].id) == LogOf(t, t.nodes[key].id)
             <==> overwrite && KindAllowed(kind) && kind != t.nodes[key].kind && payload == t.nodes[key].payload))
      && (key in t.nodes && payload == t.nodes[key].payload ==>
          u.nodes[key] == t.nodes[key].(kind := u.nodes[key].kind))
      && (key in u.nodes && key !in t.nodes ==> |LogOf(u, u.nodes[key].id)| == |LogOf(t, u.nodes[key].id)| + 1)
  {
    hide KindAllowed, MaxSeq;
  }

  /** So the log alone does not give the whole head row: a document written to `documents` and then to
      `codebase_files` changes its kind, and its log does not show it. */
  lemma KindChangesUnlogged(t: Tables, d: Value, key: Key, at: nat, later: nat)
    requires GetStr(d, "_key") == Some(key)
    ensures var once := BatchTables(t, Batch("documents", [Submission(d, Fine)], true, at));
      var twice := BatchTables(once, Batch("codebase_files", [Submission(d, Fine)], true, later));
      && key in once.nodes && once.nodes[key].kind == "document"
      && key in twice.nodes && twice.nodes[key] == once.nodes[key].(kind := "file") && twice.log == once.log
  {
    var docs := [Submission(d, Fine)];
    var once := BatchTables(t, Batch("documents", docs, true, at));
    OneWrite(t, "documents", Metadata("document"), d, at);
    OneWrite(once, "codebase_files", Metadata("file"), d, later);
    UpsertHolds(t, key, "document", PayloadOf(d), at);
    hide BatchTables, MaxSeq, PayloadOf;
  }

  lemma OneWrite(t: Tables, container: string, route: Route, d: Value, now: nat)
    requires RouteOf(container) == Some(route) && route.Metadata? && GetStr(d, "_key").Some?
    ensures BatchTables(t, Batch(container, [Submission(d, Fine)], true, now))
         == Upsert(t, GetStr(d, "_key").value, route.kind, PayloadOf(d), true, now).tables
  {
    hide RouteOf, Upsert, PayloadOf;
    var docs := [Submission(d, Fine)];
    assert Fold(t, route, docs, true, now, 0) == Folded(t, 0, 0);
    assert Fold(t, route, docs, true, now, 1) == Settle(Folded(t, 0, 0), Fine, DocWrite(t, route, d, true, now));
  }

  // ---- `ingested_at` ----

  /** From `t` to `u` at time `now`: rows only gain, logs only grow at the end, and a row's clock is
      where it was, or at `now` because an entry was appended. */
  ghost predicate Moved(t: Tables, u: Tables, now: nat) {
    && (forall k :: k in t.nodes ==> k in u.nodes && u.nodes[k].id == t.nodes[k].id && RowMoved(t, u, k, now))
    && (forall k :: k in u.nodes && k !in t.nodes ==> u.nodes[k].ingestedAt == now)
  }

  ghost predicate RowMoved(t: Tables, u: Tables, k: Key, now: nat)
    requires k in t.nodes && k in u.nodes
  {
    var before, after := LogOf(t, t.nodes[k].id), LogOf(u, u.nodes[k].id);
    && before <= after
    && u.nodes[k].ingestedAt == (if before == after then t.nodes[k].ingestedAt else now)
    && (before == after ==> u.nodes[k].payload == t.nodes[k].payload)
  }

  lemma MovedTransitive(t: Tables, u: Tables, v: Tables, now: nat)
    requires Moved(t, u, now) && Moved(u, v, now)
    ensures Moved(t, v, now)
  {
    forall k | k in t.nodes ensures k in v.nodes && v.nodes[k].id == t.nodes[k].id && RowMoved(t, v, k, now) {
      assert RowMoved(t, u, k, now) && RowMoved(u, v, k, now);
    }
  }

  /** Main result: across a batch no log is rewritten, and a row's `ingested_at` moves only when an
      entry is appended to its log; where none is, the payload is what it was. */
  lemma ClockMovesWithTheLog(t: Tables, b: Batch)
    requires Consistent(t)
    ensures Moved(t, BatchTables(t, b), b.now)
  {
    NothingMoved(t, t, b.now);
    if RouteOf(b.container).Some? {
      FoldConsistent(t, RouteOf(b.container).value, b.docs, b.overwrite, b.now, |b.docs|);
    }
  }

  // ---- Repeating a batch ----

  /** The document's write is already in the tables. */
  ghost predicate Landed(t: Tables, route: Route, doc: Value) {
    NodeKey(route, doc).Some? && KindAllowed(NodeKind(route, doc)) ==>
      Holds(t, NodeKey(route, doc).value, NodeKind(route, doc), PayloadOf(doc))
  }

  predicate Holds(t: Tables, key: Key, kind: string, payload: Jsonb) {
    key in t.nodes && t.nodes[key].kind == kind && t.nodes[key].payload == payload
  }

  lemma UpsertHolds(t: Tables, key: Key, kind: string, payload: Jsonb, now: nat)
    ensures KindAllowed(kind) ==> Holds(Upsert(t, key, kind, payload, true, now).tables, key, kind, payload)
  {
  }

  lemma UpsertHeld(t: Tables, key: Key, kind: string, payload: Jsonb, overwrite: bool, now: nat)
    requires KindAllowed(kind) ==> Holds(t, key, kind, payload)
    ensures Upsert(t, key, kind, payload, overwrite, now).tables == t
  {
    if KindAllowed(kind) {
      assert t.nodes[key := t.nodes[key]] == t.nodes;
    }
  }

  lemma UpsertElsewhere(t: Tables, key: Key, kind: string, payload: Jsonb, overwrite: bool, now: nat, other: Key)
    requires other != key && other in t.nodes
    ensures other in Upsert(t, key, kind, payload, overwrite, now).tables.nodes
    ensures Upsert(t, key, kind, payload, overwrite, now).tables.nodes[other] == t.nodes[other]
  {
  }

  lemma LandsOnce(t: Tables, route: Route, doc: Value, now: nat)
    requires IsNodeRoute(route)
    ensures Landed(DocWrite(t, route, doc, true, now).tables, route, doc)
  {
    if NodeKey(route, doc).Some? {
      UpsertHolds(t, NodeKey(route, doc).value, NodeKind(route, doc), PayloadOf(doc), now);
    }
  }

  lemma LandedIsNoOp(t: Tables, route: Route, doc: Value, overwrite: bool, now: nat)
    requires IsNodeRoute(route) && Landed(t, route, doc)
    ensures DocWrite(t, route, doc, overwrite, now).tables == t
  {
    if NodeKey(route, doc).Some? {
      UpsertHeld(t, NodeKey(route, doc).value, NodeKind(route, doc), PayloadOf(doc), overwrite, now);
    }
  }

  lemma OtherKeysKeepLanded(t: Tables, route: Route, doc: Value, other: Value, now: nat)
    requires IsNodeRoute(route) && Landed(t, route, doc)
    requires NodeKey(route, other) == None || NodeKey(route, other) != NodeKey(route, doc)
    ensures Landed(DocWrite(t, route, other, true, now).tables, route, doc)
  {
    if NodeKey(route, doc).Some? && KindAllowed(NodeKind(route, doc)) && NodeKey(route, other).Some? {
      UpsertElsewhere(t, NodeKey(route, other).value, NodeKind(route, other), PayloadOf(other), true, now,
                      NodeKey(route, doc).value);
    }
  }

  ghost predicate DistinctNodeKeys(route: Route, docs: seq<Submission>) {
    forall i, j :: 0 <= i < j < |docs| && NodeKey(route, docs[i].doc).Some? ==>
      NodeKey(route, docs[i].doc) != NodeKey(route, docs[j].doc)
  }

  ghost predicate AllLanded(t: Tables, route: Route, docs: seq<Submission>, n: nat) {
    forall i :: 0 <= i < n <= |docs| && docs[i].verdict.Fine? ==> Landed(t, route, docs[i].doc)
  }

  lemma {:induction false} FoldLands(t: Tables, route: Route, docs: seq<Submission>, now: nat, n: nat)
    requires IsNodeRoute(route) && DistinctNodeKeys(route, docs) && n <= |docs|
    ensures var f := Fold(t, route, docs, true, now, n); f.Folded? ==> AllLanded(f.tables, route, docs, n)
    decreases n
  {
    hide DocWrite, Landed;
    if n > 0 {
      FoldLands(t, route, docs, now, n - 1);
      var f := Fold(t, route, docs, true, now, n - 1);
      if f.Folded? && docs[n - 1].verdict.Fine? {
        var u := DocWrite(f.tables, route, docs[n - 1].doc, true, now).tables;
        LandsOnce(f.tables, route, docs[n - 1].doc, now);
        forall i | 0 <= i < n && docs[i].verdict.Fine? ensures Landed(u, route, docs[i].doc) {
          if i < n - 1 {
            OtherKeysKeepLanded(f.tables, route, docs[i].doc, docs[n - 1].doc, now);
          }
        }
      }
    }
  }

  lemma {:induction false} LandedFoldIsNoOp(t: Tables, route: Route, docs: seq<Submission>, now: nat, n: nat)
    requires IsNodeRoute(route) && n <= |docs| && AllLanded(t, route, docs, |docs|)
    ensures var f := Fold(t, route, docs, true, now, n); f.Folded? ==> f.tables == t
    decreases n
  {
    hide DocWrite, Landed;
    if n > 0 {
      LandedFoldIsNoOp(t, route, docs, now, n - 1);
      if docs[n - 1].verdict.Fine? {
        LandedIsNoOp(t, route, docs[n - 1].doc, true, now);
      }
    }
  }

  /** A batch that writes two different payloads under one key appends two more entries every time it
      is repeated. */
  lemma RepeatedKeyKeepsLogging(t: Tables, d1: Value, d2: Value, key: Key)
    requires GetStr(d1, "_key") == GetStr(d2, "_key") == Some(key) && PayloadOf(d1) != PayloadOf(d2)
    ensures var b := Batch("documents", [Submission(d1, Fine), Submission(d2, Fine)], true, 0);
      var (once, twice) := (BatchTables(t, b), BatchTables(BatchTables(t, b), b));
      && key in once.nodes && key in twice.nodes && once.nodes[key].id == twice.nodes[key].id
      && |LogOf(twice, twice.nodes[key].id)| == |LogOf(once, once.nodes[key].id)| + 2
  {
    var p1, p2 := PayloadOf(d1), PayloadOf(d2);
    var b := Batch("documents", [Submission(d1, Fine), Submission(d2, Fine)], true, 0);
    TwoWrites(t, d1, d2, key);
    var once := BatchTables(t, b);
    TwoWrites(once, d1, d2, key);
    var u := Upsert(t, key, "document", p1, true, 0).tables;
    UpsertHolds(t, key, "document", p1, 0);
    UpsertHolds(u, key, "document", p2, 0);
    UpsertLogs(once, key, p1);
    var v := Upsert(once, key, "document", p1, true, 0).tables;
    UpsertLogs(v, key, p2);
  }

  lemma UpsertLogs(t: Tables, key: Key, payload: Jsonb)
    requires key in t.nodes && t.nodes[key].payload != payload
    ensures var u := Upsert(t, key, "document", payload, true, 0).tables;
      && Holds(u, key, "document", payload) && u.nodes[key].id == t.nodes[key].id
      && |LogOf(u, t.nodes[key].id)| == |LogOf(t, t.nodes[key].id)| + 1
  {
  }

  lemma TwoWrites(t: Tables, d1: Value, d2: Value, key: Key)
    requires GetStr(d1, "_key") == GetStr(d2, "_key") == Some(key)
    ensures BatchTables(t, Batch("documents", [Submission(d1, Fine), Submission(d2, Fine)], true, 0))
         == Upsert(Upsert(t, key, "document", PayloadOf(d1), true, 0).tables, key, "document", PayloadOf(d2), true,
                   0).tables
  {
    var docs, route := [Submission(d1, Fine), Submission(d2, Fine)], Metadata("document");
    assert Fold(t, route, docs, true, 0, 0) == Folded(t, 0, 0);
    var f1 := Fold(t, route, docs, true, 0, 1);
    assert f1 == Settle(Folded(t, 0, 0), Fine, DocWrite(t, route, d1, true, 0));
    assert Fold(t, route, docs, true, 0, 2) == Settle(f1, Fine, DocWrite(f1.tables, route, d2, true, 0));
  }
}
