/** Resolution does not depend on the order in which hash maps are walked: not the targets, not the
    edge keys, and not the full edges unless two files share one. */
module ResolverLaws {
  import opened Json
  import opened Seqs
  import opened CanonicalJson
  import opened Symbols
  import opened EdgeOrder
  import opened Resolvers

  // ---- Two walks of one hash map ----

  ghost predicate DistinctPaths(files: seq<File>) {
    forall i, j :: 0 <= i < j < |files| ==> files[i].path != files[j].path
  }

  ghost predicate SameWalks(files: seq<File>, others: seq<File>) {
    DistinctPaths(files) && DistinctPaths(others) && forall f :: f in files <==> f in others
  }

  /** The entries of one file. */
  function OfPath(es: seq<Entry>, path: string): seq<Entry> {
    if es == [] then []
    else OfPath(es[..|es| - 1], path) + if es[|es| - 1].path == path then [es[|es| - 1]] else []
  }

  ghost predicate SameGroups(a: seq<Entry>, b: seq<Entry>) {
    forall path :: OfPath(a, path) == OfPath(b, path)
  }

  lemma {:induction false} OfPathAppend(a: seq<Entry>, b: seq<Entry>, path: string)
    ensures OfPath(a + b, path) == OfPath(a, path) + OfPath(b, path)
  {
    if b == [] {
      assert a + b == a;
    } else {
      assert (a + b)[..|a + b| - 1] == a + b[..|b| - 1];
      OfPathAppend(a, b[..|b| - 1], path);
    }
  }

  lemma {:induction false} OfPathWhole(es: seq<Entry>, path: string)
    requires forall e :: e in es ==> e.path == path
    ensures OfPath(es, path) == es
  {
    if es != [] {
      OfPathWhole(es[..|es| - 1], path);
    }
  }

  lemma {:induction false} OfPathNone(es: seq<Entry>, path: string)
    requires forall e :: e in es ==> e.path != path
    ensures OfPath(es, path) == []
  {
    if es != [] {
      OfPathNone(es[..|es| - 1], path);
    }
  }

  lemma {:induction false} FileEntriesPath(how: Indexing, h: Hashes, path: string, symbols: seq<Symbol>, name: string)
    ensures forall e :: e in FileEntries(how, h, path, symbols, name) ==> e.path == path
  {
    hide KeyOf, IndexName;
    if symbols != [] {
      FileEntriesPath(how, h, path, symbols[..|symbols| - 1], name);
    }
  }

  lemma {:induction false} EntriesPath(how: Indexing, h: Hashes, files: seq<File>, name: string)
    ensures forall e :: e in Entries(how, h, files, name) ==> exists i :: 0 <= i < |files| && files[i].path == e.path
  {
    if files != [] {
      EntriesPath(how, h, files[..|files| - 1], name);
      FileEntriesPath(how, h, files[|files| - 1].path, files[|files| - 1].symbols, name);
      hide FileEntries;
      forall e | e in Entries(how, h, files[..|files| - 1], name)
        ensures exists i :: 0 <= i < |files| && files[i].path == e.path
      {
        var i :| 0 <= i < |files| - 1 && files[..|files| - 1][i].path == e.path;
        assert files[i].path == e.path;
      }
    }
  }

  /** A file's entries keep their own order wherever the walk puts the file. */
  lemma {:induction false} EntriesOfFile(how: Indexing, h: Hashes, files: seq<File>, name: string, i: nat)
    requires DistinctPaths(files) && i < |files|
    ensures OfPath(Entries(how, h, files, name), files[i].path)
      == FileEntries(how, h, files[i].path, files[i].symbols, name)
  {
    hide FileEntries, OfPath;
    var init, f, path := files[..|files| - 1], files[|files| - 1], files[i].path;
    var before, here := Entries(how, h, init, name), FileEntries(how, h, f.path, f.symbols, name);
    OfPathAppend(before, here, path);
    FileEntriesPath(how, h, f.path, f.symbols, name);
    if i == |files| - 1 {
      EntriesPath(how, h, init, name);
      OfPathNone(before, path);
      OfPathWhole(here, path);
    } else {
      EntriesOfFile(how, h, init, name, i);
      OfPathNone(here, path);
    }
  }

  lemma GroupsWithin(how: Indexing, h: Hashes, files: seq<File>, others: seq<File>, name: string, path: string)
    requires SameWalks(files, others)
    ensures OfPath(Entries(how, h, files, name), path) == OfPath(Entries(how, h, others, name), path)
  {
    hide Entries, FileEntries, OfPath;
    if i :| 0 <= i < |files| && files[i].path == path {
      assert files[i] in others;
      var j :| 0 <= j < |others| && others[j] == files[i];
      EntriesOfFile(how, h, files, name, i);
      EntriesOfFile(how, h, others, name, j);
    } else {
      forall j | 0 <= j < |others| ensures others[j].path != path { assert others[j] in files; }
      EntriesPath(how, h, files, name);
      EntriesPath(how, h, others, name);
      OfPathNone(Entries(how, h, files, name), path);
      OfPathNone(Entries(how, h, others, name), path);
    }
  }

  /** Two walks build indexes whose entries differ only in how files are interleaved. */
  lemma LookupsSameGroups(how: Indexing, h: Hashes, files: seq<File>, others: seq<File>, a: Index, b: Index,
                          name: string)
    requires SameWalks(files, others) && IsIndex(a, how, h, files) && IsIndex(b, how, h, others)
    ensures SameGroups(Lookup(a, name), Lookup(b, name))
  {
    hide Entries, OfPath;
    forall path ensures OfPath(Entries(how, h, files, name), path) == OfPath(Entries(how, h, others, name), path) {
      GroupsWithin(how, h, files, others, name, path);
    }
  }

  // ---- The pick does not depend on the interleaving ----

  lemma {:induction false} InOfPath(es: seq<Entry>, e: Entry)
    ensures e in es <==> e in OfPath(es, e.path)
  {
    if es != [] {
      InOfPath(es[..|es| - 1], e);
      assert es == es[..|es| - 1] + [es[|es| - 1]];
    }
  }

  lemma SameGroupsMembers(a: seq<Entry>, b: seq<Entry>)
    requires SameGroups(a, b)
    ensures forall e :: e in a <==> e in b
    ensures a == [] <==> b == []
  {
    hide OfPath;
    forall e ensures e in a <==> e in b {
      InOfPath(a, e);
      InOfPath(b, e);
    }
    assert a != [] ==> a[0] in b;
    assert b != [] ==> b[0] in a;
  }

  /** The pick is the first entry of its file, and no other file is better. */
  ghost predicate IsPick(es: seq<Entry>, usePath: string, source: string, e: Entry) {
    && e in es && e.path != source && OfPath(es, e.path) != [] && OfPath(es, e.path)[0] == e
    && forall x :: x in es && x.path != source ==> !Better(usePath, x.path, e.path)
  }

  lemma BetterOrder(usePath: string, a: string, b: string, c: string)
    ensures !(Better(usePath, a, b) && Better(usePath, b, a)) && !Better(usePath, a, a)
    ensures !Better(usePath, a, b) && !Better(usePath, b, a) ==> a == b
    ensures Better(usePath, a, b) && Better(usePath, b, c) ==> Better(usePath, a, c)
  {
    hide Score;
    LessIsTotal(a, b);
    LessIsTotal(a, a);
    if Less(a, b) && Less(b, c) {
      LessIsTransitive(a, b, c);
    }
  }

  lemma {:induction false} PickImportIs(es: seq<Entry>, usePath: string, source: string)
    ensures match PickImport(es, usePath, source)
      case None => forall x :: x in es ==> x.path == source
      case Some(e) => IsPick(es, usePath, source, e)
  {
    hide Better;
    if es != [] {
      var init, last := es[..|es| - 1], es[|es| - 1];
      assert es == init + [last];
      PickImportIs(init, usePath, source);
      var best := PickImport(init, usePath, source);
      if last.path != source && (best.None? || Better(usePath, last.path, best.value.path)) {
        PickLast(init, usePath, source, best, last);
      } else if best.Some? {
        PickKept(init, usePath, source, best.value, last);
      }
    }
  }

  lemma PickLast(init: seq<Entry>, usePath: string, source: string, best: Option<Entry>, last: Entry)
    requires last.path != source
    requires match best
      case None => forall x :: x in init ==> x.path == source
      case Some(e) => IsPick(init, usePath, source, e) && Better(usePath, last.path, e.path)
    ensures IsPick(init + [last], usePath, source, last)
  {
    hide Better;
    var es := init + [last];
    assert es[..|es| - 1] == init;
    forall x | x in es && x.path != source ensures !Better(usePath, x.path, last.path) {
      BetterOrder(usePath, last.path, last.path, last.path);
      if x in init {
        BetterOrder(usePath, x.path, last.path, best.value.path);
      }
    }
    assert forall x :: x in init ==> x.path != last.path;
    OfPathNone(init, last.path);
  }

  lemma PickKept(init: seq<Entry>, usePath: string, source: string, e: Entry, last: Entry)
    requires IsPick(init, usePath, source, e) && (last.path == source || !Better(usePath, last.path, e.path))
    ensures IsPick(init + [last], usePath, source, e)
  {
    hide Better;
    var es := init + [last];
    assert es[..|es| - 1] == init && es[|es| - 1] == last;
  }

  /** Main result: the target of an import does not depend on how files are interleaved. */
  lemma PickImportSame(a: seq<Entry>, b: seq<Entry>, usePath: string, source: string)
    requires SameGroups(a, b)
    ensures PickImport(a, usePath, source) == PickImport(b, usePath, source)
  {
    PickImportIs(a, usePath, source);
    PickImportIs(b, usePath, source);
    SameGroupsMembers(a, b);
    hide OfPath, PickImport, Better;
    var x, y := PickImport(a, usePath, source), PickImport(b, usePath, source);
    if x.Some? && y.Some? {
      BetterOrder(usePath, x.value.path, y.value.path, x.value.path);
    }
  }

  lemma {:induction false} FirstInIs(es: seq<Entry>, path: string)
    ensures FirstIn(es, path) == if OfPath(es, path) == [] then None else Some(OfPath(es, path)[0])
  {
    if es != [] {
      FirstInIs(es[1..], path);
      assert es == [es[0]] + es[1..];
      OfPathAppend([es[0]], es[1..], path);
      assert OfPath([es[0]], path) == if es[0].path == path then [es[0]] else [] by { assert [es[0]][..0] == []; }
    }
  }

  lemma {:induction false} LeastEntryIs(es: seq<Entry>)
    requires es != []
    ensures forall x :: x in es ==> !EntryLess(x, LeastEntry(es))
  {
    hide EntryLess;
    var last := es[|es| - 1];
    EntryOrder(last, last, last);
    if |es| > 1 {
      var init := es[..|es| - 1];
      LeastEntryIs(init);
      assert es == init + [last];
      forall x | x in es ensures !EntryLess(x, LeastEntry(es)) {
        EntryOrder(x, last, LeastEntry(init));
      }
    }
  }

  lemma EntryOrder(a: Entry, b: Entry, c: Entry)
    ensures !(EntryLess(a, b) && EntryLess(b, a)) && !EntryLess(a, a)
    ensures !EntryLess(a, b) && !EntryLess(b, a) ==> a == b
    ensures EntryLess(a, b) && EntryLess(b, c) ==> EntryLess(a, c)
  {
    LessIsTotal(a.path, b.path);
    LessIsTotal(a.key, b.key);
    LessIsTotal(a.path, a.path);
    LessIsTotal(a.key, a.key);
    if Less(a.path, b.path) && Less(b.path, c.path) { LessIsTransitive(a.path, b.path, c.path); }
    if Less(a.key, b.key) && Less(b.key, c.key) { LessIsTransitive(a.key, b.key, c.key); }
  }

  /** Main result: nor does the target of a call. */
  lemma PickCallSame(a: seq<Entry>, b: seq<Entry>, prefer: string)
    requires SameGroups(a, b)
    ensures PickCall(a, prefer) == PickCall(b, prefer)
  {
    SameGroupsMembers(a, b);
    FirstInIs(a, prefer);
    FirstInIs(b, prefer);
    hide OfPath, EntryLess, LeastEntry, FirstIn;
    if a != [] {
      LeastEntryIs(a);
      LeastEntryIs(b);
      EntryOrder(LeastEntry(a), LeastEntry(b), LeastEntry(a));
    }
  }

  // ---- Imports ----

  lemma ImportEdgeSame(h: Hashes, source: string, usePath: string, a: Index, b: Index)
    requires forall name :: SameGroups(Lookup(a, name), Lookup(b, name))
    ensures ImportEdge(h, source, usePath, Targets(a)) == ImportEdge(h, source, usePath, Targets(b))
  {
    hide SameGroups, PickImport, StripQualifiers, LeafName, IsGlob;
    var stripped := StripQualifiers(usePath);
    PickImportSame(Lookup(a, LeafName(stripped)), Lookup(b, LeafName(stripped)), stripped, source);
  }

  lemma {:induction false} ImportEdgesSame(h: Hashes, source: string, uses: seq<string>, a: Index, b: Index)
    requires forall name :: SameGroups(Lookup(a, name), Lookup(b, name))
    ensures ImportEdges(h, source, uses, Targets(a)) == ImportEdges(h, source, uses, Targets(b))
  {
    hide ImportEdge, SameGroups, Lookup;
    if uses != [] {
      ImportEdgeSame(h, source, uses[0], a, b);
      ImportEdgesSame(h, source, uses[1..], a, b);
    }
  }

  /** Two indexes of one hash map resolve every file's uses alike. */
  lemma ImportsSame(h: Hashes, imports: seq<FileUses>, files: seq<File>, others: seq<File>, a: Index, b: Index)
    requires SameWalks(files, others) && IsIndex(a, ByName, h, files) && IsIndex(b, ByName, h, others)
    ensures All(imports, ImportsOf(h, a)) == All(imports, ImportsOf(h, b))
  {
    hide SameWalks, IsIndex, ImportEdges, SameGroups, Lookup;
    forall name ensures SameGroups(Lookup(a, name), Lookup(b, name)) {
      LookupsSameGroups(ByName, h, files, others, a, b, name);
    }
    forall f | f in imports ensures ImportsOf(h, a)(f) == ImportsOf(h, b)(f) {
      ImportEdgesSame(h, f.path, f.uses, a, b);
    }
    AllPointwise(imports, ImportsOf(h, a), ImportsOf(h, b));
  }

  /** The keys and the edges two runs emit. */
  ghost function KeysOf(es: seq<Edge>): set<string> {
    set e | e in es :: e.key
  }

  ghost function EdgesOf(es: seq<Edge>): set<Edge> {
    set e | e in es
  }

  lemma ResolvedKeys<F>(files: seq<F>, c: F -> seq<Edge>)
    ensures KeysOf(Dedup(All(files, c), {})) == (set e | e in Resolved(files, c) :: e.key)
  {
    hide All, Dedup;
  }

  /** Main result: with the file maps walked in any order, both for the index and for the imports, the
      same edge keys are emitted. */
  lemma ImportKeysInAnyOrder(h: Hashes, imports: seq<FileUses>, imports': seq<FileUses>, files: seq<File>,
                             others: seq<File>, a: Index, b: Index)
    requires multiset(imports) == multiset(imports')
    requires SameWalks(files, others) && IsIndex(a, ByName, h, files) && IsIndex(b, ByName, h, others)
    ensures KeysOf(Dedup(All(imports, ImportsOf(h, a)), {})) == KeysOf(Dedup(All(imports', ImportsOf(h, b)), {}))
  {
    hide All, Dedup, SameWalks, IsIndex;
    ImportsSame(h, imports', files, others, a, b);
    SameKeysInAnyOrder(imports, imports', ImportsOf(h, a));
    ResolvedKeys(imports, ImportsOf(h, a));
    ResolvedKeys(imports', ImportsOf(h, a));
  }

  /** And the same edges, when no two files give different first edges under one key. */
  lemma ImportEdgesInAnyOrder(h: Hashes, imports: seq<FileUses>, imports': seq<FileUses>, files: seq<File>,
                              others: seq<File>, a: Index, b: Index)
    requires multiset(imports) == multiset(imports') && Concur(imports, ImportsOf(h, a))
    requires SameWalks(files, others) && IsIndex(a, ByName, h, files) && IsIndex(b, ByName, h, others)
    ensures EdgesOf(Dedup(All(imports, ImportsOf(h, a)), {})) == EdgesOf(Dedup(All(imports', ImportsOf(h, b)), {}))
  {
    hide All, Dedup, SameWalks, IsIndex, Concur;
    ImportsSame(h, imports', files, others, a, b);
    OrderFreeIff(imports, ImportsOf(h, a));
    assert Resolved(imports', ImportsOf(h, a)) == Resolved(imports, ImportsOf(h, a));
  }

  // ---- When two files share a key ----

  lemma {:induction false} ImportSources(h: Hashes, source: string, uses: seq<string>, targets: string -> seq<Entry>)
    ensures forall e :: e in ImportEdges(h, source, uses, targets) ==>
      e.source == source && e.from == "codebase_files/" + FileKey(source)
  {
    hide StripQualifiers, LeafName, IsGlob, FileKey, PickImport, EdgeKey;
    if uses != [] {
      ImportSources(h, source, uses[1..], targets);
    }
  }

  /** No two files emit an edge under one key. */
  ghost predicate NoSharedKey(imports: seq<FileUses>, c: FileUses -> seq<Edge>) {
    forall f, g, key :: f in imports && g in imports && Gives(f, c, key) && Gives(g, c, key) ==> f.path == g.path
  }

  /** Main result: what makes the order matter is exactly two files emitting one key. */
  lemma ImportsAgreeIff(h: Hashes, imports: seq<FileUses>, a: Index)
    requires forall i, j :: 0 <= i < j < |imports| ==> imports[i].path != imports[j].path
    ensures Concur(imports, ImportsOf(h, a)) <==> NoSharedKey(imports, ImportsOf(h, a))
  {
    hide ImportEdges, FirstWith;
    var c := ImportsOf(h, a);
    forall f, g, key | f in imports && g in imports && Gives(f, c, key) && Gives(g, c, key)
      ensures FirstWith(c(f), key) == FirstWith(c(g), key) <==> f.path == g.path
    {
      ImportSources(h, f.path, f.uses, Targets(a));
      ImportSources(h, g.path, g.uses, Targets(a));
      FirstIsOne(c(f), key);
      FirstIsOne(c(g), key);
      assert FirstWith(c(f), key)[0] in FirstWith(c(f), key) && FirstWith(c(g), key)[0] in FirstWith(c(g), key);
    }
  }

  /** Edge keys do not collide on the edges at hand. */
  ghost predicate KeysFaithful(es: seq<Edge>) {
    forall d, e :: d in es && e in es && d.key == e.key ==> d.from == e.from && d.to == e.to
  }

  lemma {:induction false} InAll<F>(files: seq<F>, c: F -> seq<Edge>, f: F, e: Edge)
    requires f in files && e in c(f)
    ensures e in All(files, c)
  {
    if f != files[0] {
      InAll(files[1..], c, f, e);
    }
  }

  /** Distinct file keys, and edge keys that do not collide, are enough. */
  lemma DistinctFileKeysSuffice(h: Hashes, imports: seq<FileUses>, a: Index)
    requires forall f, g :: f in imports && g in imports && FileKey(f.path) == FileKey(g.path) ==> f == g
    requires KeysFaithful(All(imports, ImportsOf(h, a)))
    ensures Concur(imports, ImportsOf(h, a))
  {
    hide ImportEdges, FirstWith, FileKey, All;
    var c := ImportsOf(h, a);
    forall f, g, key | f in imports && g in imports && Gives(f, c, key) && Gives(g, c, key) ensures f == g {
      ImportSources(h, f.path, f.uses, Targets(a));
      ImportSources(h, g.path, g.uses, Targets(a));
      FirstIsOne(c(f), key);
      FirstIsOne(c(g), key);
      var d, e := FirstWith(c(f), key)[0], FirstWith(c(g), key)[0];
      assert d in FirstWith(c(f), key) && e in FirstWith(c(g), key);
      InAll(imports, c, f, d);
      InAll(imports, c, g, e);
      CancelPrefix("codebase_files/", FileKey(f.path), FileKey(g.path));
    }
  }

  // ---- Two files with one key: the order shows ----

  /** `a/b.rs` and `a.b.rs` have one file key; each uses `T`, which a third file defines. */
  const CLASHING := [FileUses("a/b.rs", ["T"]), FileUses("a.b.rs", ["T"])]

  lemma ShortPath()
    ensures StripQualifiers("T") == "T" && !IsGlob("T") && LeafName("T") == "T"
  {
    assert !("crate::" <= "T") && !("self::" <= "T") && !("super::" <= "T");
    assert RFind("", " as ") == 0 && RFind("T", " as ") == 1;
    assert RFind("", "::") == 0 && RFind("T", "::") == 1;
  }

  lemma ClashingFileKeys()
    ensures FileKey("a/b.rs") == FileKey("a.b.rs")
  {
    assert "a/b.rs"[1..] == "/b.rs" && "/b.rs"[1..] == "b.rs";
    assert "a.b.rs"[1..] == ".b.rs" && ".b.rs"[1..] == "b.rs";
    assert FileKey("/b.rs") == "_" + FileKey("b.rs") == FileKey(".b.rs");
  }

  /** The clash is real: the edge that comes out is the one of the file walked first. */
  lemma ClashingFilesDependOnOrder(h: Hashes)
    ensures var c := ImportsOf(h, map["T" := [Entry("z.rs", "k")]]);
      Resolved(CLASHING, c) != Resolved([CLASHING[1], CLASHING[0]], c)
  {
    var index: Index := map["T" := [Entry("z.rs", "k")]];
    var c := ImportsOf(h, index);
    var d := OneUse(h, "a/b.rs", index);
    var e := OneUse(h, "a.b.rs", index);
    ClashingFileKeys();
    hide ImportEdges, FileKey;
    assert c(CLASHING[0]) == [d] && c(CLASHING[1]) == [e] && d.key == e.key && d.source != e.source;
    TwoInOrder(CLASHING[0], CLASHING[1], c, d, e);
    TwoInOrder(CLASHING[1], CLASHING[0], c, e, d);
    ResolvedHas(CLASHING, c, d);
    ResolvedHas([CLASHING[1], CLASHING[0]], c, d);
  }

  lemma OneUse(h: Hashes, source: string, index: Index) returns (e: Edge)
    requires index == map["T" := [Entry("z.rs", "k")]] && source != "z.rs"
    ensures ImportEdges(h, source, ["T"], Targets(index)) == [e]
    ensures e.source == source && e.key == EdgeKey(h, FileKey(source), "imports", "k")
  {
    ShortPath();
    hide StripQualifiers, LeafName, IsGlob, FileKey, EdgeKey, Score;
    var t := Entry("z.rs", "k");
    assert Lookup(index, "T") == [t] && [t][..0] == [];
    assert PickImport([t], "T", source) == Some(t);
    var fkey := FileKey(source);
    e := Edge(EdgeKey(h, fkey, "imports", "k"), "codebase_files/" + fkey, "codebase_symbols/" + "k",
              source, "z.rs", "T", "T");
    assert ImportEdge(h, source, "T", Targets(index)) == [e];
    hide ImportEdge;
    assert ["T"][1..] == [] && ImportEdges(h, source, [], Targets(index)) == [];
    assert [e] + [] == [e];
  }

  lemma TwoInOrder(f: FileUses, g: FileUses, c: FileUses -> seq<Edge>, d: Edge, e: Edge)
    requires c(f) == [d] && c(g) == [e]
    ensures FirstWith(All([f, g], c), d.key) == [d]
  {
    assert [f, g][1..] == [g] && [g][1..] == [];
    assert All([g], c) == [e] + [] == [e];
    assert All([f, g], c) == [d] + [e];
  }

  // ---- Calls ----

  ghost predicate SameTargets(q: Index, q': Index, b: Index, b': Index) {
    forall name :: SameGroups(Lookup(q, name), Lookup(q', name)) && SameGroups(Lookup(b, name), Lookup(b', name))
  }

  lemma CallTargetSame(c: Call, parent: Option<string>, file: string, q: Index, q': Index, b: Index, b': Index)
    requires SameTargets(q, q', b, b')
    ensures CallTarget(c, parent, file, Targets(q), Targets(b)) == CallTarget(c, parent, file, Targets(q'), Targets(b'))
  {
    hide SameGroups, PickCall, Lookup;
    PickCallSame(Lookup(q, c.qualified), Lookup(q', c.qualified), file);
    if "self." <= c.qualified && parent.Some? {
      var rewritten := parent.value + "." + c.qualified[5..];
      PickCallSame(Lookup(q, rewritten), Lookup(q', rewritten), file);
    }
    PickCallSame(Lookup(b, c.name), Lookup(b', c.name), file);
  }

  lemma CallEdgeSame(h: Hashes, path: string, s: Symbol, c: Call, q: Index, q': Index, b: Index, b': Index)
    requires SameTargets(q, q', b, b')
    ensures CallEdge(h, path, s, c, Targets(q), Targets(b)) == CallEdge(h, path, s, c, Targets(q'), Targets(b'))
  {
    hide SameGroups, CallTarget, KeyOf, Lookup;
    CallTargetSame(c, GetStr(s.metadata, "parent_symbol"), path, q, q', b, b');
  }

  lemma {:induction false} SymbolCallsSame(h: Hashes, path: string, s: Symbol, calls: seq<Value>, q: Index, q': Index,
                                           b: Index, b': Index)
    requires SameTargets(q, q', b, b')
    ensures SymbolCalls(h, path, s, calls, Targets(q), Targets(b))
      == SymbolCalls(h, path, s, calls, Targets(q'), Targets(b'))
  {
    hide CallEdge, SameTargets;
    if calls != [] {
      CallEdgeSame(h, path, s, CallOf(calls[0]), q, q', b, b');
      SymbolCallsSame(h, path, s, calls[1..], q, q', b, b');
    }
  }

  lemma {:induction false} FileCallsSame(h: Hashes, path: string, symbols: seq<Symbol>, q: Index, q': Index, b: Index,
                                         b': Index)
    requires SameTargets(q, q', b, b')
    ensures FileCalls(h, path, symbols, Targets(q), Targets(b)) == FileCalls(h, path, symbols, Targets(q'), Targets(b'))
  {
    hide SymbolCalls, CallsOf, SameTargets;
    if symbols != [] {
      SymbolCallsSame(h, path, symbols[0], CallsOf(symbols[0]), q, q', b, b');
      FileCallsSame(h, path, symbols[1..], q, q', b, b');
    }
  }

  /** The qualified and the bare index of one walk of the Python files. */
  ghost predicate AreIndexes(h: Hashes, files: seq<File>, qualified: Index, bare: Index) {
    IsIndex(qualified, ByQualified, h, files) && IsIndex(bare, ByStored, h, files)
  }

  lemma CallsSame(h: Hashes, callers: seq<File>, files: seq<File>, others: seq<File>, q: Index, q': Index, b: Index,
                  b': Index)
    requires SameWalks(files, others) && AreIndexes(h, files, q, b) && AreIndexes(h, others, q', b')
    ensures All(callers, CallsIn(h, q, b)) == All(callers, CallsIn(h, q', b'))
  {
    hide SameWalks, IsIndex, FileCalls, SameGroups, Lookup;
    forall name ensures SameGroups(Lookup(q, name), Lookup(q', name)) && SameGroups(Lookup(b, name), Lookup(b', name)) {
      LookupsSameGroups(ByQualified, h, files, others, q, q', name);
      LookupsSameGroups(ByStored, h, files, others, b, b', name);
    }
    forall f | f in callers ensures CallsIn(h, q, b)(f) == CallsIn(h, q', b')(f) {
      FileCallsSame(h, f.path, f.symbols, q, q', b, b');
    }
    AllPointwise(callers, CallsIn(h, q, b), CallsIn(h, q', b'));
  }

  /** Main result: the call edges have the same keys whatever the order, and are the same edges when
      no two files give different first edges under one key. */
  lemma CallsInAnyOrder(h: Hashes, callers: seq<File>, callers': seq<File>, files: seq<File>, others: seq<File>,
                        q: Index, q': Index, b: Index, b': Index)
    requires multiset(callers) == multiset(callers')
    requires SameWalks(files, others) && AreIndexes(h, files, q, b) && AreIndexes(h, others, q', b')
    ensures KeysOf(Dedup(All(callers, CallsIn(h, q, b)), {})) == KeysOf(Dedup(All(callers', CallsIn(h, q', b')), {}))
    ensures Concur(callers, CallsIn(h, q, b)) ==>
      EdgesOf(Dedup(All(callers, CallsIn(h, q, b)), {})) == EdgesOf(Dedup(All(callers', CallsIn(h, q', b')), {}))
  {
    hide All, Dedup, SameWalks, AreIndexes, Concur;
    var c := CallsIn(h, q, b);
    CallsSame(h, callers', files, others, q, q', b, b');
    SameKeysInAnyOrder(callers, callers', c);
    ResolvedKeys(callers, c);
    ResolvedKeys(callers', c);
    if Concur(callers, c) {
      OrderFreeIff(callers, c);
      assert Resolved(callers', c) == Resolved(callers, c);
    }
  }

  lemma {:induction false} SymbolCallSources(h: Hashes, path: string, s: Symbol, calls: seq<Value>,
                                             q: string -> seq<Entry>, b: string -> seq<Entry>)
    ensures forall e :: e in SymbolCalls(h, path, s, calls, q, b) ==>
      e.source == path && e.from == "codebase_symbols/" + KeyOf(h, path, s)
  {
    hide CallTarget, KeyOf, CallOf, EdgeKey, QualifiedName, GetStr;
    if calls != [] {
      SymbolCallSources(h, path, s, calls[1..], q, b);
    }
  }

  lemma {:induction false} FileCallSources(h: Hashes, path: string, symbols: seq<Symbol>, q: string -> seq<Entry>,
                                           b: string -> seq<Entry>, e: Edge)
    requires e in FileCalls(h, path, symbols, q, b)
    ensures e.source == path && exists s :: s in symbols && e.from == "codebase_symbols/" + KeyOf(h, path, s)
  {
    hide SymbolCalls, CallsOf, KeyOf;
    SymbolCallSources(h, path, symbols[0], CallsOf(symbols[0]), q, b);
    if e in FileCalls(h, path, symbols[1..], q, b) {
      FileCallSources(h, path, symbols[1..], q, b, e);
    }
  }

  /** No two files emit a call edge under one key. */
  ghost predicate NoSharedCallKey(files: seq<File>, c: File -> seq<Edge>) {
    forall f, g, key :: f in files && g in files && Gives(f, c, key) && Gives(g, c, key) ==> f.path == g.path
  }

  /** Main result: for calls too the order matters exactly when two files emit one key. */
  lemma CallsAgreeIff(h: Hashes, files: seq<File>, q: Index, b: Index)
    requires DistinctPaths(files)
    ensures Concur(files, CallsIn(h, q, b)) <==> NoSharedCallKey(files, CallsIn(h, q, b))
  {
    hide FileCalls, FirstWith, KeyOf;
    var c := CallsIn(h, q, b);
    forall f, g, key | f in files && g in files && Gives(f, c, key) && Gives(g, c, key)
      ensures FirstWith(c(f), key) == FirstWith(c(g), key) <==> f.path == g.path
    {
      FirstIsOne(c(f), key);
      FirstIsOne(c(g), key);
      var d, e := FirstWith(c(f), key)[0], FirstWith(c(g), key)[0];
      assert d in FirstWith(c(f), key) && e in FirstWith(c(g), key);
      FileCallSources(h, f.path, f.symbols, Targets(q), Targets(b), d);
      FileCallSources(h, g.path, g.symbols, Targets(q), Targets(b), e);
    }
  }

  /** Symbol keys distinct across files, and edge keys that do not collide, are enough. */
  lemma DistinctSymbolKeysSuffice(h: Hashes, files: seq<File>, q: Index, b: Index)
    requires forall f, g, s, t ::
      f in files && g in files && s in f.symbols && t in g.symbols && KeyOf(h, f.path, s) == KeyOf(h, g.path, t) ==>
        f == g
    requires KeysFaithful(All(files, CallsIn(h, q, b)))
    ensures Concur(files, CallsIn(h, q, b))
  {
    hide FileCalls, FirstWith, KeyOf, All;
    var c := CallsIn(h, q, b);
    forall f, g, key | f in files && g in files && Gives(f, c, key) && Gives(g, c, key) ensures f == g {
      FirstIsOne(c(f), key);
      FirstIsOne(c(g), key);
      var d, e := FirstWith(c(f), key)[0], FirstWith(c(g), key)[0];
      assert d in FirstWith(c(f), key) && e in FirstWith(c(g), key);
      InAll(files, c, f, d);
      InAll(files, c, g, e);
      FileCallSources(h, f.path, f.symbols, Targets(q), Targets(b), d);
      FileCallSources(h, g.path, g.symbols, Targets(q), Targets(b), e);
      var s :| s in f.symbols && d.from == "codebase_symbols/" + KeyOf(h, f.path, s);
      var t :| t in g.symbols && e.from == "codebase_symbols/" + KeyOf(h, g.path, t);
      CancelPrefix("codebase_symbols/", KeyOf(h, f.path, s), KeyOf(h, g.path, t));
    }
  }
}
