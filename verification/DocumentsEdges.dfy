/** The edge half of `write_declared`, and the run repeated. */
module DocumentsEdges {
  import opened Json
  import opened Shapes
  import opened CanonicalJson
  import opened Store
  import opened StoreLaws
  import opened DocumentGraph
  import opened DocumentGraphLaws
  import opened Documents
  import opened DocumentsLaws

  // ---- One edge ----

  /** The row a declared edge has once both its ends resolve. */
  function IdOf(t: Tables, d: EdgeDecl): Option<EdgeId> {
    match (Lookup(t, StripContainer(d.edge.from)), Lookup(t, StripContainer(d.edge.to)))
    case (Some(src), Some(dst)) => Some(EdgeId(src, dst, d.edge.relation, "declared"))
    case _ => None
  }

  function RowOf(d: EdgeDecl): EdgeRow {
    EdgeRow(GRAPH_BLOCK, ToJsonb(EdgeAttributes(d)))
  }

  /** An edge lands in the table unless it is there and must not be replaced. */
  function Land(t: Tables, m: map<EdgeId, EdgeRow>, d: EdgeDecl, overwrite: bool): map<EdgeId, EdgeRow> {
    match IdOf(t, d)
    case None => m
    case Some(id) => if id in m && !overwrite then m else m[id := RowOf(d)]
  }

  lemma EdgeDocReads(d: EdgeDecl)
    ensures var doc := EdgeDoc(d);
      && GetStr(doc, "from") == Some(d.edge.from) && GetStr(doc, "to") == Some(d.edge.to)
      && GetStr(doc, "relation") == Some(d.edge.relation) && GetStr(doc, "basis") == Some("declared")
      && GetStr(doc, "analyzer") == Some(GRAPH_BLOCK) && EdgePayload(doc) == ToJsonb(EdgeAttributes(d))
  {
    hide EdgeAttributes, ToJsonb, IndexOf;
    var fields := EdgeDoc(d).fields;
    MemberAt(fields, "from", 0);
    MemberAt(fields, "to", 1);
    MemberAt(fields, "relation", 2);
    MemberAt(fields, "basis", 3);
    MemberAt(fields, "analyzer", 4);
    MemberAt(fields, "payload", 5);
  }

  lemma EdgeDocWrites(t: Tables, d: EdgeDecl, overwrite: bool, now: nat)
    requires IsRelation(d.edge.relation)
    ensures var w := DocWrite(t, Edges, EdgeDoc(d), overwrite, now);
      && w.tables == t.(edges := Land(t, t.edges, d, overwrite))
      && (w.created <==> IdOf(t, d).Some? && (IdOf(t, d).value in t.edges ==> overwrite))
  {
    EdgeDocReads(d);
    hide EdgeDoc, RouteOf, StripContainer;
  }

  // ---- The batch ----

  function LandAll(t: Tables, m: map<EdgeId, EdgeRow>, ds: seq<EdgeDecl>, overwrite: bool): map<EdgeId, EdgeRow> {
    if ds == [] then m else Land(t, LandAll(t, m, ds[..|ds| - 1], overwrite), ds[|ds| - 1], overwrite)
  }

  lemma SameNodesLand(t: Tables, u: Tables, m: map<EdgeId, EdgeRow>, d: EdgeDecl, overwrite: bool)
    requires u.nodes == t.nodes
    ensures IdOf(u, d) == IdOf(t, d) && Land(u, m, d, overwrite) == Land(t, m, d, overwrite)
  {
  }

  /** Both ends of each of the first `n` edges resolve. */
  predicate AllResolve(t: Tables, ds: seq<EdgeDecl>, n: nat)
    requires n <= |ds|
  {
    n == 0 || (AllResolve(t, ds, n - 1) && IdOf(t, ds[n - 1]).Some?)
  }

  ghost predicate EdgeFoldOk(t: Tables, f: Folded, ds: seq<EdgeDecl>, overwrite: bool, n: nat)
    requires n <= |ds|
  {
    && f.Folded? && f.tables == t.(edges := LandAll(t, t.edges, ds[..n], overwrite)) && f.created + f.errors == n
    && (overwrite ==> (f.errors == 0 <==> AllResolve(t, ds, n)))
  }

  lemma EdgeFoldStep(t: Tables, f: Folded, ds: seq<EdgeDecl>, overwrite: bool, now: nat, n: nat)
    requires n < |ds| && EdgeFoldOk(t, f, ds, overwrite, n) && IsRelation(ds[n].edge.relation)
    ensures EdgeFoldOk(t, Settle(f, Fine, DocWrite(f.tables, Edges, EdgeDoc(ds[n]), overwrite, now)), ds, overwrite,
                       n + 1)
  {
    hide DocWrite, IdOf, EdgeDoc, IsRelation, Land;
    assert ds[..n + 1][..n] == ds[..n];
    EdgeDocWrites(f.tables, ds[n], overwrite, now);
    SameNodesLand(t, f.tables, f.tables.edges, ds[n], overwrite);
  }

  lemma {:induction false} EdgeFold(t: Tables, ds: seq<EdgeDecl>, overwrite: bool, now: nat, n: nat)
    requires n <= |ds| && forall i :: 0 <= i < |ds| ==> IsRelation(ds[i].edge.relation)
    ensures EdgeFoldOk(t, Fold(t, Edges, Submitted(EdgeDocs(ds)), overwrite, now, n), ds, overwrite, n)
    decreases n
  {
    hide DocWrite, EdgeDoc, IsRelation, Settle;
    if n > 0 {
      EdgeFold(t, ds, overwrite, now, n - 1);
      var f := Fold(t, Edges, Submitted(EdgeDocs(ds)), overwrite, now, n - 1);
      assert Submitted(EdgeDocs(ds))[n - 1] == Submission(EdgeDoc(ds[n - 1]), Fine);
      EdgeFoldStep(t, f, ds, overwrite, now, n - 1);
    }
  }

  /** The row the last declaration of an edge leaves. */
  function LastRow(t: Tables, ds: seq<EdgeDecl>, id: EdgeId): Option<EdgeRow> {
    if ds == [] then None
    else if IdOf(t, ds[|ds| - 1]) == Some(id) then Some(RowOf(ds[|ds| - 1]))
    else LastRow(t, ds[..|ds| - 1], id)
  }

  lemma {:induction false} LandAllAt(t: Tables, m: map<EdgeId, EdgeRow>, ds: seq<EdgeDecl>, overwrite: bool, id: EdgeId)
    ensures var r := LandAll(t, m, ds, overwrite);
      && (id in r <==> id in m || LastRow(t, ds, id).Some?)
      && (id in r && overwrite ==> r[id] == if LastRow(t, ds, id).Some? then LastRow(t, ds, id).value else m[id])
      && (id in m && !overwrite ==> r[id] == m[id])
  {
    hide IdOf, RowOf;
    if ds != [] {
      LandAllAt(t, m, ds[..|ds| - 1], overwrite, id);
    }
  }

  /** Landing the same edges again changes nothing. */
  lemma LandAllTwice(t: Tables, m: map<EdgeId, EdgeRow>, ds: seq<EdgeDecl>, overwrite: bool)
    ensures LandAll(t, LandAll(t, m, ds, overwrite), ds, overwrite) == LandAll(t, m, ds, overwrite)
  {
    var r := LandAll(t, m, ds, overwrite);
    var r' := LandAll(t, r, ds, overwrite);
    hide LandAll, LastRow;
    forall id: EdgeId ensures (id in r' <==> id in r) && (id in r ==> r'[id] == r[id]) {
      LandAllAt(t, m, ds, overwrite, id);
      LandAllAt(t, r, ds, overwrite, id);
    }
    assert r'.Keys == r.Keys;
  }

  lemma {:induction false} LastRowOfMember(t: Tables, ds: seq<EdgeDecl>, i: nat, id: EdgeId)
    requires i < |ds| && IdOf(t, ds[i]) == Some(id)
    ensures LastRow(t, ds, id).Some?
  {
    hide IdOf, RowOf;
    if IdOf(t, ds[|ds| - 1]) != Some(id) {
      LastRowOfMember(t, ds[..|ds| - 1], i, id);
    }
  }

  lemma {:induction false} LastRowHasMember(t: Tables, ds: seq<EdgeDecl>, id: EdgeId)
    requires LastRow(t, ds, id).Some?
    ensures exists i :: 0 <= i < |ds| && IdOf(t, ds[i]) == Some(id)
  {
    hide IdOf, RowOf;
    if IdOf(t, ds[|ds| - 1]) != Some(id) {
      LastRowHasMember(t, ds[..|ds| - 1], id);
      var i :| 0 <= i < |ds| - 1 && IdOf(t, ds[..|ds| - 1][i]) == Some(id);
      assert ds[i] == ds[..|ds| - 1][i];
    }
  }

  // ---- Which declarations are kept ----

  ghost predicate FirstOf(ds: seq<EdgeDecl>, i: nat) {
    i < |ds| && forall j :: 0 <= j < i ==> IdentityOf(ds[j]) != IdentityOf(ds[i])
  }

  ghost predicate KeptOk(ds: seq<EdgeDecl>, p: EdgePass) {
    && (forall i :: 0 <= i < |p.kept| ==> IdentityOf(p.kept[i]) in p.identities)
    && (forall i, j :: 0 <= i < j < |p.kept| ==> IdentityOf(p.kept[i]) != IdentityOf(p.kept[j]))
    && (forall i :: 0 <= i < |ds| ==> IdentityOf(ds[i]) in p.identities)
    && (forall x :: x in p.identities ==> exists i :: 0 <= i < |ds| && IdentityOf(ds[i]) == x)
    && (forall x :: x in p.identities ==> exists j :: 0 <= j < |p.kept| && IdentityOf(p.kept[j]) == x)
    && |ds| == |p.kept| + p.duplicates
  }

  ghost predicate KeepsFirsts(ds: seq<EdgeDecl>, kept: seq<EdgeDecl>) {
    forall d :: d in kept <==> IsFirst(ds, d)
  }

  ghost predicate IsFirst(ds: seq<EdgeDecl>, d: EdgeDecl) {
    exists i: nat :: FirstOf(ds, i) && ds[i] == d
  }

  lemma IsFirstSnoc(init: seq<EdgeDecl>, last: EdgeDecl, d: EdgeDecl)
    ensures IsFirst(init + [last], d)
      <==> IsFirst(init, d) || (d == last && forall j :: 0 <= j < |init| ==> IdentityOf(init[j]) != IdentityOf(last))
  {
    hide IdentityOf;
    var ds := init + [last];
    assert forall i: nat :: i < |init| ==> ds[i] == init[i];
    if IsFirst(init, d) {
      var i: nat :| FirstOf(init, i) && init[i] == d;
      assert FirstOf(ds, i) && ds[i] == d;
    }
    if IsFirst(ds, d) {
      var i: nat :| FirstOf(ds, i) && ds[i] == d;
      if i < |init| {
        assert FirstOf(init, i) && init[i] == d;
      } else {
        assert forall j :: 0 <= j < |init| ==> IdentityOf(ds[j]) != IdentityOf(ds[i]);
      }
    }
    if forall j :: 0 <= j < |init| ==> IdentityOf(init[j]) != IdentityOf(last) {
      assert FirstOf(ds, |init|) && ds[|init|] == last;
    }
  }

  /** The kept declarations are the first of each identity, and none is lost to the count. */
  lemma {:induction false} PassEdgesIs(ds: seq<EdgeDecl>)
    ensures KeptOk(ds, PassEdges(ds)) && KeepsFirsts(ds, PassEdges(ds).kept)
  {
    if ds != [] {
      var init, d := ds[..|ds| - 1], ds[|ds| - 1];
      PassEdgesIs(init);
      assert ds == init + [d];
      KeepOne(init, d, PassEdges(init));
      KeepFirst(init, d, PassEdges(init));
    }
  }

  lemma KeepFirst(init: seq<EdgeDecl>, last: EdgeDecl, p: EdgePass)
    requires KeptOk(init, p) && KeepsFirsts(init, p.kept)
    ensures KeepsFirsts(init + [last], AddEdge(p, last).kept)
  {
    hide IdentityOf, IsFirst;
    forall d ensures d in AddEdge(p, last).kept <==> IsFirst(init + [last], d) {
      IsFirstSnoc(init, last, d);
    }
  }

  lemma KeepOne(init: seq<EdgeDecl>, d: EdgeDecl, p: EdgePass)
    requires KeptOk(init, p)
    ensures KeptOk(init + [d], AddEdge(p, d))
  {
    hide IdentityOf;
    var ds, q := init + [d], AddEdge(p, d);
    assert forall i :: 0 <= i < |init| ==> ds[i] == init[i];
    assert ds[|init|] == d;
    forall x | x in q.identities ensures exists i :: 0 <= i < |ds| && IdentityOf(ds[i]) == x {
      if x in p.identities {
        var i :| 0 <= i < |init| && IdentityOf(init[i]) == x;
        assert IdentityOf(ds[i]) == x;
      }
    }
    forall x | x in q.identities ensures exists j :: 0 <= j < |q.kept| && IdentityOf(q.kept[j]) == x {
      if x in p.identities {
        var j :| 0 <= j < |p.kept| && IdentityOf(p.kept[j]) == x;
        assert IdentityOf(q.kept[j]) == x;
      } else {
        assert IdentityOf(q.kept[|p.kept|]) == x;
      }
    }
  }

  // ---- Main results ----

  /** The run has left a row for this declaration. */
  predicate HasRow(t: Tables, d: EdgeDecl) {
    IdOf(t, d).Some? && IdOf(t, d).value in t.edges
  }

  ghost function Known(t: Tables, declared: seq<Declared>): set<Key> {
    t.nodes.Keys + DeclaredKeys(AllNodes(declared)) + EndKeys(AllEdges(declared))
  }

  /** What a caller can check before the run. */
  ghost predicate EndsKnown(t: Tables, declared: seq<Declared>, d: EdgeDecl) {
    StripContainer(d.edge.from) in Known(t, declared) && StripContainer(d.edge.to) in Known(t, declared)
  }

  /** No endpoint starts with a container name and a slash. */
  predicate PlainEnds(d: EdgeDecl) {
    StripContainer(d.edge.from) == d.edge.from && StripContainer(d.edge.to) == d.edge.to
  }

  lemma {:induction false} EndKeysHave(ds: seq<EdgeDecl>, i: nat)
    requires i < |ds|
    ensures ds[i].edge.from in EndKeys(ds) && ds[i].edge.to in EndKeys(ds)
  {
    if i < |ds| - 1 {
      EndKeysHave(ds[..|ds| - 1], i);
    }
  }

  lemma KeptRelations(declared: seq<Declared>)
    requires WellDeclared(declared)
    ensures forall i :: 0 <= i < |PassEdges(AllEdges(declared)).kept| ==>
      IsRelation(PassEdges(AllEdges(declared)).kept[i].edge.relation)
  {
    var ds := AllEdges(declared);
    PassEdgesIs(ds);
    hide PassEdges, AllEdges, IsRelation;
    forall j | 0 <= j < |PassEdges(ds).kept| ensures IsRelation(PassEdges(ds).kept[j].edge.relation) {
      assert IsFirst(ds, PassEdges(ds).kept[j]);
      var i: nat :| FirstOf(ds, i) && ds[i] == PassEdges(ds).kept[j];
      assert Shaped(Edge(ds[i].edge));
    }
  }

  lemma BatchIs(t: Tables, b: Batch, route: Route)
    requires RouteOf(b.container) == Some(route)
    ensures match Fold(t, route, b.docs, b.overwrite, b.now, |b.docs|)
      case Folded(u, c, e) => BatchTables(t, b) == u && Created(t, b) == c && Errors(t, b) == e
      case Lost => BatchTables(t, b) == t
  {
    hide RouteOf, Fold;
  }

  lemma EdgeBatchIs(u: Tables, kept: seq<EdgeDecl>, overwrite: bool, now: nat)
    requires forall i :: 0 <= i < |kept| ==> IsRelation(kept[i].edge.relation)
    ensures var b := Batch("edges", Submitted(EdgeDocs(kept)), overwrite, now);
      && BatchTables(u, b) == u.(edges := LandAll(u, u.edges, kept, overwrite))
      && Created(u, b) + Errors(u, b) == |kept|
      && (overwrite ==> (Errors(u, b) == 0 <==> AllResolve(u, kept, |kept|)))
  {
    assert RouteOf("edges") == Some(Edges);
    hide AllResolve, LandAll, IsRelation, Fold, RouteOf, BatchTables, Created, Errors;
    EdgeFold(u, kept, overwrite, now, |kept|);
    assert kept[..|kept|] == kept && |Submitted(EdgeDocs(kept))| == |kept|;
    BatchIs(u, Batch("edges", Submitted(EdgeDocs(kept)), overwrite, now), Edges);
  }

  /** The last batch adds edges to what nodes and placeholders left. */
  lemma AfterEdgesIs(t: Tables, declared: seq<Declared>, overwrite: bool, at: Times)
    requires WellDeclared(declared)
    ensures var (u, kept) := (AfterPlaceholders(t, declared, overwrite, at), PassEdges(AllEdges(declared)).kept);
      && AfterEdges(t, declared, overwrite, at) == u.(edges := LandAll(u, u.edges, kept, overwrite))
      && Created(u, EdgeBatch(declared, overwrite, at)) + Errors(u, EdgeBatch(declared, overwrite, at)) == |kept|
      && (overwrite ==> (Errors(u, EdgeBatch(declared, overwrite, at)) == 0 <==> AllResolve(u, kept, |kept|)))
  {
    hide PassEdges, AllEdges, AfterPlaceholders, WellDeclared, AllResolve, LandAll, EdgeDocs, Submitted, BatchTables,
      Created, Errors;
    KeptRelations(declared);
    EdgeBatchIs(AfterPlaceholders(t, declared, overwrite, at), PassEdges(AllEdges(declared)).kept, overwrite, at.edges);
  }

  lemma RowIff(u: Tables, w: Tables, ds: seq<EdgeDecl>, p: EdgePass, overwrite: bool, i: nat)
    requires KeptOk(ds, p) && i < |ds| && w == u.(edges := LandAll(u, u.edges, p.kept, overwrite))
    ensures HasRow(w, ds[i]) <==> StripContainer(ds[i].edge.from) in u.nodes && StripContainer(ds[i].edge.to) in u.nodes
  {
    var d := ds[i];
    hide LandAll, StripContainer;
    SameNodesLand(u, w, map[], d, overwrite);
    if IdOf(u, d).Some? {
      assert IdentityOf(d) in p.identities;
      var j :| 0 <= j < |p.kept| && IdentityOf(p.kept[j]) == IdentityOf(d);
      assert IdOf(u, p.kept[j]) == IdOf(u, d);
      LastRowOfMember(u, p.kept, j, IdOf(u, d).value);
      LandAllAt(u, u.edges, p.kept, overwrite, IdOf(u, d).value);
    }
  }

  /** Main result: a declared edge has its row after the run exactly when both its ends, stripped of
      a leading container name, are in the store, declared, or named as an end. In particular it
      has it whenever its ends are plain. */
  lemma EdgeHasRowIff(t: Tables, declared: seq<Declared>, overwrite: bool, at: Times, i: nat)
    requires Consistent(t) && WellDeclared(declared) && i < |AllEdges(declared)|
    ensures var d := AllEdges(declared)[i];
      && (HasRow(AfterEdges(t, declared, overwrite, at), d) <==> EndsKnown(t, declared, d))
      && (PlainEnds(d) ==> HasRow(AfterEdges(t, declared, overwrite, at), d))
  {
    hide PassEdges, AfterPlaceholders, AfterEdges, AfterNodes, AllNodes, AllEdges, WellDeclared, Consistent, LandAll,
      AreDocuments, EndKeys, DeclaredKeys, IdOf, KeptOk, KeepsFirsts, StripContainer, HasRow, LogOf;
    var ds := AllEdges(declared);
    AfterEdgesIs(t, declared, overwrite, at);
    AfterPlaceholdersFrame(t, declared, overwrite, at);
    PassEdgesIs(ds);
    EndKeysHave(ds, i);
    RowIff(AfterPlaceholders(t, declared, overwrite, at), AfterEdges(t, declared, overwrite, at), ds, PassEdges(ds),
           overwrite, i);
  }

  lemma {:induction false} AllResolveIff(t: Tables, ds: seq<EdgeDecl>, n: nat)
    requires n <= |ds|
    ensures AllResolve(t, ds, n) <==> forall i :: 0 <= i < n ==> IdOf(t, ds[i]).Some?
  {
    hide IdOf;
    if n > 0 {
      AllResolveIff(t, ds, n - 1);
    }
  }

  lemma SameIdentity(t: Tables, d: EdgeDecl, e: EdgeDecl)
    requires IdentityOf(d) == IdentityOf(e)
    ensures IdOf(t, d) == IdOf(t, e)
  {
    hide StripContainer;
  }

  lemma ResolveIff(t: Tables, ds: seq<EdgeDecl>, p: EdgePass)
    requires KeptOk(ds, p)
    ensures AllResolve(t, p.kept, |p.kept|) <==> forall i :: 0 <= i < |ds| ==> IdOf(t, ds[i]).Some?
  {
    hide AllResolve, StripContainer, IdOf, IdentityOf;
    AllResolveIff(t, p.kept, |p.kept|);
    forall i, j | 0 <= i < |ds| && 0 <= j < |p.kept| && IdentityOf(p.kept[j]) == IdentityOf(ds[i])
      ensures IdOf(t, p.kept[j]) == IdOf(t, ds[i])
    {
      SameIdentity(t, p.kept[j], ds[i]);
    }
    forall i | 0 <= i < |ds| ensures exists j :: 0 <= j < |p.kept| && IdentityOf(p.kept[j]) == IdentityOf(ds[i]) {
      assert IdentityOf(ds[i]) in p.identities;
    }
    forall j | 0 <= j < |p.kept| ensures exists i :: 0 <= i < |ds| && IdentityOf(p.kept[j]) == IdentityOf(ds[i]) {
      assert IdentityOf(p.kept[j]) in p.identities;
    }
  }

  lemma KnownIff(t: Tables, u: Tables, declared: seq<Declared>, d: EdgeDecl)
    requires u.nodes.Keys == Known(t, declared)
    ensures IdOf(u, d).Some? <==> EndsKnown(t, declared, d)
  {
    hide StripContainer;
  }

  /** Main result: an overwriting run rejects no edge exactly when every end is known; and each
      declared edge is written, rejected or a duplicate. */
  lemma NoneRejectedIff(t: Tables, declared: seq<Declared>, at: Times)
    requires Consistent(t) && WellDeclared(declared)
    ensures var s := SummaryOf(t, declared, true, at);
      && (s.edgesRejected == 0 <==>
          forall i :: 0 <= i < |AllEdges(declared)| ==> EndsKnown(t, declared, AllEdges(declared)[i]))
      && s.edgesDeclared + s.edgesRejected + PassEdges(AllEdges(declared)).duplicates == |AllEdges(declared)|
  {
    var ds := AllEdges(declared);
    var u := AfterPlaceholders(t, declared, true, at);
    AfterEdgesIs(t, declared, true, at);
    AfterPlaceholdersFrame(t, declared, true, at);
    PassEdgesIs(ds);
    ResolveIff(u, ds, PassEdges(ds));
    hide PassEdges, AfterPlaceholders, AfterEdges, AllEdges, WellDeclared, Consistent, LandAll, Frame, AreDocuments,
      EndKeys, DeclaredKeys, AllResolve, Created, Errors, AllNodes, PassNodes, PassEnds, AfterNodes, IdOf, EndsKnown,
      KeepsFirsts;
    forall i | 0 <= i < |ds| ensures IdOf(u, ds[i]).Some? <==> EndsKnown(t, declared, ds[i]) {
      KnownIff(t, u, declared, ds[i]);
    }
  }

  // ---- The first declaration wins ----

  ghost predicate DistinctIds(t: Tables, ds: seq<EdgeDecl>) {
    forall i, j :: 0 <= i < j < |ds| && IdOf(t, ds[i]).Some? ==> IdOf(t, ds[i]) != IdOf(t, ds[j])
  }

  lemma {:induction false} LandAllDistinct(t: Tables, m: map<EdgeId, EdgeRow>, ds: seq<EdgeDecl>, overwrite: bool,
                                           i: nat, id: EdgeId)
    requires i < |ds| && DistinctIds(t, ds) && IdOf(t, ds[i]) == Some(id) && (overwrite || id !in m)
    ensures id in LandAll(t, m, ds, overwrite) && LandAll(t, m, ds, overwrite)[id] == RowOf(ds[i])
  {
    hide IdOf, RowOf;
    var init := ds[..|ds| - 1];
    if i < |ds| - 1 {
      LandAllDistinct(t, m, init, overwrite, i, id);
    } else {
      if LastRow(t, init, id).Some? {
        LastRowHasMember(t, init, id);
        assert false;
      }
      LandAllAt(t, m, init, overwrite, id);
    }
  }

  lemma PlainIdsDistinct(t: Tables, d: EdgeDecl, e: EdgeDecl)
    requires UniqueIds(t) && PlainEnds(d) && PlainEnds(e) && IdOf(t, d).Some? && IdOf(t, d) == IdOf(t, e)
    ensures IdentityOf(d) == IdentityOf(e)
  {
    hide StripContainer;
  }

  /** Main result: with plain ends, the row of an edge carries the attributes of its first
      declaration, and declarations of different edges have different rows. */
  lemma FirstDeclarationWins(t: Tables, declared: seq<Declared>, overwrite: bool, at: Times, i: nat)
    requires Consistent(t) && WellDeclared(declared) && FirstOf(AllEdges(declared), i)
    requires forall j :: 0 <= j < |AllEdges(declared)| ==> PlainEnds(AllEdges(declared)[j])
    ensures var (u, d) := (AfterEdges(t, declared, overwrite, at), AllEdges(declared)[i]);
      && HasRow(u, d)
      && (overwrite || IdOf(u, d).value !in t.edges ==> u.edges[IdOf(u, d).value] == RowOf(d))
      && forall j :: 0 <= j < |AllEdges(declared)| && IdOf(u, AllEdges(declared)[j]) == IdOf(u, d) ==>
           IdentityOf(AllEdges(declared)[j]) == IdentityOf(d)
  {
    var ds := AllEdges(declared);
    var u, kept, d := AfterPlaceholders(t, declared, overwrite, at), PassEdges(ds).kept, ds[i];
    var w := AfterEdges(t, declared, overwrite, at);
    EdgeHasRowIff(t, declared, overwrite, at, i);
    AfterEdgesIs(t, declared, overwrite, at);
    AfterPlaceholdersFrame(t, declared, overwrite, at);
    PassEdgesIs(ds);
    hide PassEdges, AfterPlaceholders, AfterEdges, AfterNodes, AllNodes, AllEdges, WellDeclared, LandAll,
      AreDocuments, StripContainer, EndKeys, DeclaredKeys, IdOf, RowOf, PlainEnds, IdentityOf, EndsKnown, Writable;
    FirstRow(u, w, ds, kept, t.edges, overwrite, i);
  }

  lemma FirstRow(u: Tables, w: Tables, ds: seq<EdgeDecl>, kept: seq<EdgeDecl>, m: map<EdgeId, EdgeRow>, overwrite: bool,
                 i: nat)
    requires UniqueIds(u) && FirstOf(ds, i) && KeepsFirsts(ds, kept) && w == u.(edges := LandAll(u, m, kept, overwrite))
    requires forall j :: 0 <= j < |ds| ==> PlainEnds(ds[j])
    requires forall j, k :: 0 <= j < k < |kept| ==> IdentityOf(kept[j]) != IdentityOf(kept[k])
    requires IdOf(w, ds[i]).Some?
    ensures overwrite || IdOf(w, ds[i]).value !in m ==>
      IdOf(w, ds[i]).value in w.edges && w.edges[IdOf(w, ds[i]).value] == RowOf(ds[i])
    ensures forall j :: 0 <= j < |ds| && IdOf(w, ds[j]) == IdOf(w, ds[i]) ==> IdentityOf(ds[j]) == IdentityOf(ds[i])
  {
    hide LandAll, IdOf, RowOf, PlainEnds, IdentityOf, UniqueIds;
    forall j | 0 <= j < |ds| ensures IdOf(w, ds[j]) == IdOf(u, ds[j]) {
      SameNodesLand(u, w, m, ds[j], overwrite);
    }
    forall j | 0 <= j < |ds| && IdOf(u, ds[j]) == IdOf(u, ds[i]) ensures IdentityOf(ds[j]) == IdentityOf(ds[i]) {
      PlainIdsDistinct(u, ds[i], ds[j]);
    }
    KeptPlain(ds, kept);
    forall j, k | 0 <= j < k < |kept| && IdOf(u, kept[j]).Some? ensures IdOf(u, kept[j]) != IdOf(u, kept[k]) {
      if IdOf(u, kept[j]) == IdOf(u, kept[k]) {
        PlainIdsDistinct(u, kept[j], kept[k]);
      }
    }
    assert IsFirst(ds, ds[i]);
    var j :| 0 <= j < |kept| && kept[j] == ds[i];
    if overwrite || IdOf(u, ds[i]).value !in m {
      LandAllDistinct(u, m, kept, overwrite, j, IdOf(u, ds[i]).value);
    }
  }

  lemma KeptPlain(ds: seq<EdgeDecl>, kept: seq<EdgeDecl>)
    requires KeepsFirsts(ds, kept) && forall j :: 0 <= j < |ds| ==> PlainEnds(ds[j])
    ensures forall j :: 0 <= j < |kept| ==> PlainEnds(kept[j])
  {
    hide PlainEnds;
    forall j | 0 <= j < |kept| ensures PlainEnds(kept[j]) {
      assert IsFirst(ds, kept[j]);
      var i: nat :| FirstOf(ds, i) && ds[i] == kept[j];
    }
  }

  // ---- What the run leaves alone ----

  lemma EdgesUntouched(u: Tables, w: Tables, ds: seq<EdgeDecl>, kept: seq<EdgeDecl>, overwrite: bool, id: EdgeId)
    requires KeepsFirsts(ds, kept) && w == u.(edges := LandAll(u, u.edges, kept, overwrite))
    requires id in u.edges && forall i :: 0 <= i < |ds| ==> IdOf(w, ds[i]) != Some(id)
    ensures id in w.edges && w.edges[id] == u.edges[id]
  {
    hide IdOf, LandAll, LastRow;
    if LastRow(u, kept, id).Some? {
      LastRowHasMember(u, kept, id);
      var j :| 0 <= j < |kept| && IdOf(u, kept[j]) == Some(id);
      assert IsFirst(ds, kept[j]);
      SameNodesLand(u, w, map[], kept[j], overwrite);
      assert false;
    }
    LandAllAt(u, u.edges, kept, overwrite, id);
  }

  /** No declaration has its row here. */
  ghost predicate Unnamed(u: Tables, declared: seq<Declared>, id: EdgeId) {
    forall i :: 0 <= i < |AllEdges(declared)| ==> IdOf(u, AllEdges(declared)[i]) != Some(id)
  }

  /** Main result: rows of the code ingest, with their logs, and edges no declaration names are
      exactly as they were. */
  lemma OthersUntouched(t: Tables, declared: seq<Declared>, overwrite: bool, at: Times)
    requires Consistent(t) && WellDeclared(declared)
    ensures var u := AfterEdges(t, declared, overwrite, at);
      && (forall k :: k in t.nodes && t.nodes[k].kind != "document" ==>
            k in u.nodes && u.nodes[k] == t.nodes[k] && LogOf(u, t.nodes[k].id) == LogOf(t, t.nodes[k].id))
      && (forall id :: id in t.edges && Unnamed(u, declared, id) ==>
            id in u.edges && u.edges[id] == t.edges[id])
      && u.chunks == t.chunks && u.vectors == t.vectors
  {
    hide PassEdges, AfterPlaceholders, AfterEdges, AfterNodes, AllNodes, AllEdges, WellDeclared, Consistent, LandAll,
      AreDocuments, EndKeys, DeclaredKeys, IdOf, KeptOk, KeepsFirsts, IdentityOf;
    var ds := AllEdges(declared);
    var u, kept := AfterPlaceholders(t, declared, overwrite, at), PassEdges(ds).kept;
    var w := AfterEdges(t, declared, overwrite, at);
    AfterEdgesIs(t, declared, overwrite, at);
    AfterPlaceholdersFrame(t, declared, overwrite, at);
    PassEdgesIs(ds);
    forall id | id in t.edges && Unnamed(w, declared, id)
      ensures id in w.edges && w.edges[id] == t.edges[id]
    {
      EdgesUntouched(u, w, ds, kept, overwrite, id);
    }
  }

  // ---- The run repeated ----

  lemma {:induction false} PassNodesSame(t: Tables, u: Tables, ds: seq<NodeDecl>)
    requires forall k :: k in DeclaredKeys(ds) ==> (Fuses(t, k) <==> Fuses(u, k))
    ensures PassNodes(t, ds) == PassNodes(u, ds)
  {
    hide Fuses, NodeDoc;
    if ds != [] {
      PassNodesSame(t, u, ds[..|ds| - 1]);
    }
  }

  /** Documents whose keys exist change nothing when they must not overwrite. */
  lemma {:induction false} ExistingFoldIsNoOp(t: Tables, docs: seq<Value>, now: nat, n: nat)
    requires Keyed(docs) && n <= |docs| && forall i :: 0 <= i < |docs| ==> KeyOf(docs[i]) in t.nodes
    ensures Fold(t, Metadata("document"), Submitted(docs), false, now, n).Folded?
    ensures Fold(t, Metadata("document"), Submitted(docs), false, now, n).tables == t
    decreases n
  {
    hide DocWrite, KeyOf;
    if n > 0 {
      ExistingFoldIsNoOp(t, docs, now, n - 1);
      DocumentWriteIs(t, docs[n - 1], false, now);
    }
  }

  ghost predicate DocsLanded(t: Tables, docs: seq<Value>) {
    AllLanded(t, Metadata("document"), Submitted(docs), |docs|)
  }

  /** Rows kept keep documents landed. */
  lemma StillLanded(t: Tables, u: Tables, docs: seq<Value>)
    requires Keyed(docs) && DocsLanded(t, docs) && forall k :: k in t.nodes ==> k in u.nodes && u.nodes[k] == t.nodes[k]
    ensures DocsLanded(u, docs)
  {
    var subs := Submitted(docs);
    forall i | 0 <= i < |docs| ensures Landed(u, Metadata("document"), subs[i].doc) {
      assert subs[i].verdict.Fine? && Landed(t, Metadata("document"), subs[i].doc);
    }
  }

  lemma NodeBatchLands(t: Tables, docs: seq<Value>, now: nat)
    requires Keyed(docs) && DistinctDocKeys(docs) && Consistent(t) && OnlyDocuments(t, docs)
    ensures DocsLanded(BatchTables(t, Batch("documents", Submitted(docs), true, now)), docs)
  {
    var subs := Submitted(docs);
    FoldFrame(t, docs, true, now, |docs|);
    hide DocWrite, Landed, Frame, Consistent;
    forall i, j | 0 <= i < j < |docs|
      ensures NodeKey(Metadata("document"), subs[i].doc) != NodeKey(Metadata("document"), subs[j].doc)
    {
      assert KeyOf(docs[i]) != KeyOf(docs[j]);
    }
    FoldLands(t, Metadata("document"), subs, now, |docs|);
  }

  lemma LandedBatchIsNoOp(t: Tables, docs: seq<Value>, now: nat)
    requires DocsLanded(t, docs)
    ensures BatchTables(t, Batch("documents", Submitted(docs), true, now)) == t
  {
    LandedFoldIsNoOp(t, Metadata("document"), Submitted(docs), now, |docs|);
  }

  lemma ExistingBatchIsNoOp(t: Tables, docs: seq<Value>, now: nat)
    requires Keyed(docs) && KeysUpTo(docs, |docs|) <= t.nodes.Keys
    ensures BatchTables(t, Batch("documents", Submitted(docs), false, now)) == t
  {
    hide KeyOf;
    forall i | 0 <= i < |docs| ensures KeyOf(docs[i]) in t.nodes { KeyUpTo(docs, |docs|, i); }
    ExistingFoldIsNoOp(t, docs, now, |docs|);
  }

  lemma FusesKept(t: Tables, s: Tables, declared: seq<Declared>)
    requires forall k :: k in t.nodes && k !in Writable(t, declared) ==> k in s.nodes && s.nodes[k] == t.nodes[k]
    requires AreDocuments(s, Writable(t, declared))
    ensures forall k :: k in DeclaredKeys(AllNodes(declared)) ==> (Fuses(t, k) <==> Fuses(s, k))
  {
    hide DeclaredKeys, EndKeys, AllNodes, AllEdges;
  }

  lemma NodesAgain(t: Tables, t1: Tables, s: Tables, docs: seq<Value>, overwrite: bool, at: nat, later: nat)
    requires Keyed(docs) && DistinctDocKeys(docs) && Consistent(t) && OnlyDocuments(t, docs)
    requires t1 == BatchTables(t, Batch("documents", Submitted(docs), overwrite, at))
    requires forall k :: k in t1.nodes ==> k in s.nodes && s.nodes[k] == t1.nodes[k]
    requires KeysUpTo(docs, |docs|) <= s.nodes.Keys
    ensures BatchTables(s, Batch("documents", Submitted(docs), overwrite, later)) == s
  {
    hide BatchTables, Consistent, DocsLanded, KeysUpTo;
    if overwrite {
      NodeBatchLands(t, docs, at);
      StillLanded(t1, s, docs);
      LandedBatchIsNoOp(s, docs, later);
    } else {
      ExistingBatchIsNoOp(s, docs, later);
    }
  }

  lemma AfterNodesAgain(t: Tables, s: Tables, declared: seq<Declared>, overwrite: bool, at: Times, later: Times)
    requires Consistent(t) && WellDeclared(declared)
    requires s.nodes == AfterPlaceholders(t, declared, overwrite, at).nodes
    ensures AfterNodes(s, declared, overwrite, later) == s
      && PassNodes(s, AllNodes(declared)).keys == DeclaredKeys(AllNodes(declared))
  {
    hide BatchTables, Consistent, AfterPlaceholders, PassNodes, PassEnds, DeclaredKeys, EndKeys, AllNodes, AllEdges,
      KeysUpTo, DistinctDocKeys, Keyed, Submitted;
    var u, t1 := AfterPlaceholders(t, declared, overwrite, at), AfterNodes(t, declared, overwrite, at);
    var docs := PassNodes(t, AllNodes(declared)).docs;
    AfterPlaceholdersFrame(t, declared, overwrite, at);
    PassNodesIs(t, AllNodes(declared));
    FusesKept(t, s, declared);
    PassNodesSame(t, s, AllNodes(declared));
    OnlyDocumentsIn(t, docs);
    NodesAgain(t, t1, s, docs, overwrite, at.nodes, later.nodes);
  }

  lemma PlaceholdersAgain(s: Tables, declared: seq<Declared>, later: Times)
    requires EndKeys(AllEdges(declared)) <= s.nodes.Keys
    ensures BatchTables(s, PlaceholderBatch(s, declared, DeclaredKeys(AllNodes(declared)), later)) == s
  {
    hide BatchTables, PassEnds, EndKeys, DeclaredKeys, AllNodes, AllEdges, KeyOf;
    var dk := DeclaredKeys(AllNodes(declared));
    PassEndsIs(s, dk, AllEdges(declared));
    ExistingBatchIsNoOp(s, PassEnds(s, dk, AllEdges(declared)).docs, later.placeholders);
  }

  lemma {:induction false} SameNodesLandAll(t: Tables, u: Tables, m: map<EdgeId, EdgeRow>, ds: seq<EdgeDecl>,
                                            overwrite: bool)
    requires u.nodes == t.nodes
    ensures LandAll(u, m, ds, overwrite) == LandAll(t, m, ds, overwrite)
  {
    hide Land;
    if ds != [] {
      SameNodesLandAll(t, u, m, ds[..|ds| - 1], overwrite);
      SameNodesLand(t, u, LandAll(t, m, ds[..|ds| - 1], overwrite), ds[|ds| - 1], overwrite);
    }
  }

  /** Main result: running the writer again over the same corpus, at any later times and with the
      same flag, changes nothing in the store. */
  lemma SecondRunIsNoOp(t: Tables, declared: seq<Declared>, overwrite: bool, at: Times, later: Times)
    requires Consistent(t) && WellDeclared(declared)
    ensures var s := AfterEdges(t, declared, overwrite, at); AfterEdges(s, declared, overwrite, later) == s
  {
    hide BatchTables, Consistent, AfterPlaceholders, AfterEdges, AfterNodes, PassNodes, PassEnds, PassEdges, EndKeys,
      DeclaredKeys, AllNodes, AllEdges, LandAll, WellDeclared, AreDocuments;
    var u, s := AfterPlaceholders(t, declared, overwrite, at), AfterEdges(t, declared, overwrite, at);
    var kept := PassEdges(AllEdges(declared)).kept;
    AfterPlaceholdersFrame(t, declared, overwrite, at);
    AfterEdgesIs(t, declared, overwrite, at);
    AfterNodesAgain(t, s, declared, overwrite, at, later);
    PlaceholdersAgain(s, declared, later);
    PlaceholdersAre(s, declared, overwrite, later);
    AfterEdgesIs(s, declared, overwrite, later);
    SameNodesLandAll(u, s, s.edges, kept, overwrite);
    LandAllTwice(u, u.edges, kept, overwrite);
  }

  lemma PlaceholdersAre(s: Tables, declared: seq<Declared>, overwrite: bool, later: Times)
    requires AfterNodes(s, declared, overwrite, later) == s
      && PassNodes(s, AllNodes(declared)).keys == DeclaredKeys(AllNodes(declared))
    ensures AfterPlaceholders(s, declared, overwrite, later)
         == BatchTables(s, PlaceholderBatch(s, declared, DeclaredKeys(AllNodes(declared)), later))
  {
  }
}
