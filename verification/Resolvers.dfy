/** Resolving Rust imports and Python calls across files: crates/yeomna-code/src/rust_imports.rs and
    python_calls.rs. A hash map of files is its entries in the order a walk meets them. */
module Resolvers {
  import opened Json
  import opened Seqs
  import opened Strings
  import opened CanonicalJson
  import opened Symbols
  import opened EdgeOrder

  /** The digest of an edge's source, relation and target. */
  type EdgeHash = (string, string, string) -> string

  /** The two digests. */
  datatype Hashes = Hashes(symbol: Hash8, edge: EdgeHash)

  function Take20(s: string): string {
    if |s| > 20 then s[..20] else s
  }

  /** `edge_key`. */
  function EdgeKey(h: Hashes, from: string, kind: string, to: string): string {
    Take20(from) + "__" + kind + "__" + Take20(to) + "__" + h.edge(from, kind, to)
  }

  // ---- Paths ----

  predicate HasSuffix(s: string, t: string) {
    |t| <= |s| && s[|s| - |t|..] == t
  }

  /** The position of the last occurrence of a pattern, or the length. */
  function RFind(s: string, pattern: string): (at: nat)
    ensures at <= |s| && (at < |s| ==> at + |pattern| <= |s|)
  {
    if s == "" then 0
    else if pattern != "" && HasSuffix(s, pattern) then |s| - |pattern|
    else
      var at := RFind(s[..|s| - 1], pattern);
      if at == |s| - 1 then |s| else at
  }

  /** The position of the first occurrence of a pattern, or the length. */
  function FindPattern(s: string, pattern: string): (at: nat)
    ensures at <= |s| && (at < |s| ==> at + |pattern| <= |s|)
  {
    if s == "" then 0
    else if pattern <= s then 0
    else 1 + FindPattern(s[1..], pattern)
  }

  function SplitOn(s: string, pattern: string): (parts: seq<string>)
    requires pattern != ""
    ensures parts != []
    decreases |s|
  {
    var at := FindPattern(s, pattern);
    if at == |s| then [s] else [s[..at]] + SplitOn(s[at + |pattern|..], pattern)
  }

  /** `strip_crate_qualifiers`. */
  function StripQualifiers(path: string): string
    decreases |path|
  {
    if "crate::" <= path then StripQualifiers(path[7..])
    else if "self::" <= path then StripQualifiers(path[6..])
    else if "super::" <= path then StripQualifiers(path[7..])
    else path
  }

  /** `leaf_name`: the definition's name, not an alias. */
  function LeafName(path: string): string {
    var as_ := RFind(path, " as ");
    var p := if as_ < |path| then Trim(path[..as_]) else path;
    var at := RFind(p, "::");
    if at < |p| then p[at + 2..] else p
  }

  predicate IsGlob(path: string) {
    HasSuffix(path, "::*") || path == "*"
  }

  function WithoutRs(path: string): string {
    if HasSuffix(path, ".rs") then WithoutRs(path[..|path| - 3]) else path
  }

  function SplitPath(path: string): seq<string> {
    if path == "" then [""]
    else
      var rest := SplitPath(path[1..]);
      if path[0] == '/' || path[0] == '\\' then [""] + rest
      else if rest == [] then [[path[0]]] else [[path[0]] + rest[0]] + rest[1..]
  }

  function CountIn(segments: seq<string>, parts: seq<string>): nat {
    if segments == [] then 0 else (if segments[0] in parts then 1 else 0) + CountIn(segments[1..], parts)
  }

  /** How many module segments of the use path are components of the file's path. */
  function Score(usePath: string, path: string): nat {
    var segments := SplitOn(usePath, "::");
    CountIn(if |segments| > 1 then segments[..|segments| - 1] else segments, SplitPath(WithoutRs(path)))
  }

  // ---- The index ----

  datatype File = File(path: string, symbols: seq<Symbol>)

  datatype Entry = Entry(path: string, key: string)

  /** What the three indexes are keyed by: the Rust index by bare name, the Python one by qualified
      name, and the bare-name index of the codebase ingest by the names of what is stored. */
  datatype Indexing = ByName | ByQualified | ByStored

  function IndexName(how: Indexing, s: Symbol): Option<string> {
    match how
    case ByName => if s.kind.Import? then None else Some(s.name)
    case ByQualified => if s.kind.Import? then None else Some(QualifiedName(s))
    case ByStored => if UniversalKind(s.kind).Some? then Some(s.name) else None
  }

  function KeyOf(h: Hashes, path: string, s: Symbol): string {
    SymbolKey(h.symbol, FileKey(path), QualifiedName(s), s.startLine)
  }

  /** A file's entries under a name. */
  function FileEntries(how: Indexing, h: Hashes, path: string, symbols: seq<Symbol>, name: string): seq<Entry> {
    if symbols == [] then []
    else
      FileEntries(how, h, path, symbols[..|symbols| - 1], name)
      + if IndexName(how, symbols[|symbols| - 1]) == Some(name)
        then [Entry(path, KeyOf(h, path, symbols[|symbols| - 1]))] else []
  }

  /** The entries under a name, in the order of the walk. */
  function Entries(how: Indexing, h: Hashes, files: seq<File>, name: string): seq<Entry> {
    if files == [] then []
    else
      var f := files[|files| - 1];
      Entries(how, h, files[..|files| - 1], name) + FileEntries(how, h, f.path, f.symbols, name)
  }

  type Index = map<string, seq<Entry>>

  /** The index holds exactly the names that have entries. */
  ghost predicate IsIndex(index: Index, how: Indexing, h: Hashes, files: seq<File>) {
    forall name :: (name in index <==> Entries(how, h, files, name) != [])
      && (name in index ==> index[name] == Entries(how, h, files, name))
  }

  function Lookup(index: Index, name: string): seq<Entry> {
    if name in index then index[name] else []
  }

  /** The index after `before` and the first `j` symbols of a file. */
  ghost predicate IsIndexTo(index: Index, how: Indexing, h: Hashes, before: seq<File>, f: File, j: nat)
    requires j <= |f.symbols|
  {
    && (forall name :: name in index ==> index[name] != [])
    && forall name ::
         Lookup(index, name) == Entries(how, h, before, name) + FileEntries(how, h, f.path, f.symbols[..j], name)
  }

  lemma StartFile(index: Index, how: Indexing, h: Hashes, before: seq<File>, f: File)
    requires IsIndex(index, how, h, before)
    ensures IsIndexTo(index, how, h, before, f, 0)
  {
    hide Entries;
  }

  lemma EndFile(index: Index, how: Indexing, h: Hashes, files: seq<File>, i: nat)
    requires i < |files| && IsIndexTo(index, how, h, files[..i], files[i], |files[i].symbols|)
    ensures IsIndex(index, how, h, files[..i + 1])
  {
    var f := files[i];
    assert f.symbols[..|f.symbols|] == f.symbols && files[..i + 1][..i] == files[..i];
    hide FileEntries;
    forall name
      ensures Entries(how, h, files[..i + 1], name)
        == Entries(how, h, files[..i], name) + FileEntries(how, h, f.path, f.symbols, name) { }
    hide Entries;
    forall name ensures Lookup(index, name) == Entries(how, h, files[..i + 1], name) { }
  }

  lemma FileEntriesStep(how: Indexing, h: Hashes, path: string, symbols: seq<Symbol>, j: nat, name: string)
    requires j < |symbols|
    ensures FileEntries(how, h, path, symbols[..j + 1], name)
         == FileEntries(how, h, path, symbols[..j], name)
            + if IndexName(how, symbols[j]) == Some(name) then [Entry(path, KeyOf(h, path, symbols[j]))] else []
  {
    assert symbols[..j + 1][..j] == symbols[..j];
    hide IndexName, KeyOf;
  }

  /** `entry(name).or_default().push(entry)`. */
  function Pushed(index: Index, name: Option<string>, entry: Entry): Index {
    if name.Some? then index[name.value := Lookup(index, name.value) + [entry]] else index
  }

  lemma PushedHolds(index: Index, n: Option<string>, entry: Entry, name: string, before: seq<Entry>, here: seq<Entry>)
    requires Lookup(index, name) == before + here
    ensures Lookup(Pushed(index, n, entry), name) == before + (here + if n == Some(name) then [entry] else [])
  {
    if n == Some(name) {
      Regroup3(before, here, [entry]);
    } else {
      assert here + [] == here;
    }
  }

  lemma AddSymbol(index: Index, how: Indexing, h: Hashes, before: seq<File>, f: File, j: nat)
    requires j < |f.symbols| && IsIndexTo(index, how, h, before, f, j)
    ensures IsIndexTo(Pushed(index, IndexName(how, f.symbols[j]), Entry(f.path, KeyOf(h, f.path, f.symbols[j]))), how,
                      h, before, f, j + 1)
  {
    hide IndexName, KeyOf, Entries, FileEntries;
    var n, entry := IndexName(how, f.symbols[j]), Entry(f.path, KeyOf(h, f.path, f.symbols[j]));
    assert forall name :: name in Pushed(index, n, entry) ==> Pushed(index, n, entry)[name] != [];
    hide Pushed, Lookup;
    forall name
      ensures Lookup(Pushed(index, n, entry), name)
        == Entries(how, h, before, name) + FileEntries(how, h, f.path, f.symbols[..j + 1], name)
    {
      FileEntriesStep(how, h, f.path, f.symbols, j, name);
      PushedHolds(index, n, entry, name, Entries(how, h, before, name),
                  FileEntries(how, h, f.path, f.symbols[..j], name));
    }
  }

  /** `build_symbol_index`, `build_qualified_index`, and the bare-name index of `write_edges`. */
  method BuildIndex(how: Indexing, h: Hashes, files: seq<File>) returns (index: Index)
    ensures IsIndex(index, how, h, files)
  {
    index := map[];
    assert IsIndex(index, how, h, files[..0]);
    hide KeyOf, IndexName, IsIndex, IsIndexTo, Lookup;
    for i := 0 to |files|
      invariant IsIndex(index, how, h, files[..i])
    {
      var f := files[i];
      StartFile(index, how, h, files[..i], f);
      for j := 0 to |f.symbols|
        invariant IsIndexTo(index, how, h, files[..i], f, j)
      {
        AddSymbol(index, how, h, files[..i], f, j);
        var name := IndexName(how, f.symbols[j]);
        if name.Some? {
          var entry := Entry(f.path, KeyOf(h, f.path, f.symbols[j]));
          index := index[name.value := Lookup(index, name.value) + [entry]];
        }
      }
      EndFile(index, how, h, files, i);
    }
    assert files[..|files|] == files;
  }

  // ---- Picking a target ----

  /** A better file for an import: a higher score, or the same and a smaller path. */
  predicate Better(usePath: string, path: string, than: string) {
    var a, b := Score(usePath, path), Score(usePath, than);
    a > b || (a == b && Less(path, than))
  }

  /** The best of the first `n` targets that are not in the importing file. */
  function PickImport(targets: seq<Entry>, usePath: string, source: string): Option<Entry> {
    if targets == [] then None
    else
      var (best, e) := (PickImport(targets[..|targets| - 1], usePath, source), targets[|targets| - 1]);
      if e.path == source then best
      else if best.None? || Better(usePath, e.path, best.value.path) then Some(e)
      else best
  }

  /** `pick_best_import_target`. */
  method PickBestImportTarget(targets: seq<Entry>, usePath: string, source: string) returns (r: Option<Entry>)
    ensures r == PickImport(targets, usePath, source)
  {
    hide Score;
    r := None;
    var bestScore := 0;
    for i := 0 to |targets|
      invariant r == PickImport(targets[..i], usePath, source)
      invariant r.Some? ==> bestScore == Score(usePath, r.value.path)
    {
      assert targets[..i + 1][..i] == targets[..i];
      var e := targets[i];
      if e.path == source {
        continue;
      }
      var score := Score(usePath, e.path);
      if r.None? || score > bestScore || (score == bestScore && Less(e.path, r.value.path)) {
        r, bestScore := Some(e), score;
      }
    }
    assert targets[..|targets|] == targets;
  }

  predicate EntryLess(a: Entry, b: Entry) {
    Less(a.path, b.path) || (a.path == b.path && Less(a.key, b.key))
  }

  function LeastEntry(entries: seq<Entry>): (e: Entry)
    requires entries != []
    ensures e in entries
  {
    if |entries| == 1 then entries[0]
    else
      var least := LeastEntry(entries[..|entries| - 1]);
      if EntryLess(entries[|entries| - 1], least) then entries[|entries| - 1] else least
  }

  function FirstIn(entries: seq<Entry>, path: string): Option<Entry> {
    if entries == [] then None else if entries[0].path == path then Some(entries[0]) else FirstIn(entries[1..], path)
  }

  /** `pick_best`: the caller's own file first, then the least pair. */
  function PickCall(entries: seq<Entry>, prefer: string): Option<Entry> {
    if entries == [] then None
    else if FirstIn(entries, prefer).Some? then FirstIn(entries, prefer)
    else Some(LeastEntry(entries))
  }

  method PickBest(entries: seq<Entry>, prefer: string) returns (r: Option<Entry>)
    ensures r == PickCall(entries, prefer)
  {
    if entries == [] {
      return None;
    }
    for i := 0 to |entries|
      invariant FirstIn(entries[i..], prefer) == FirstIn(entries, prefer)
    {
      assert entries[i..][0] == entries[i] && entries[i..][1..] == entries[i + 1..];
      if entries[i].path == prefer {
        return Some(entries[i]);
      }
    }
    var least := entries[0];
    for i := 1 to |entries|
      invariant least == LeastEntry(entries[..i])
    {
      assert entries[..i + 1][..i] == entries[..i];
      if EntryLess(entries[i], least) {
        least := entries[i];
      }
    }
    assert entries[..|entries|] == entries;
    return Some(least);
  }

  // ---- Rust imports ----

  datatype FileUses = FileUses(path: string, uses: seq<string>)

  /** The edge of one use path, if it resolves to another file. */
  function ImportEdge(h: Hashes, source: string, usePath: string, targets: string -> seq<Entry>): seq<Edge> {
    var stripped := StripQualifiers(usePath);
    if IsGlob(stripped) then []
    else
      var leaf := LeafName(stripped);
      match PickImport(targets(leaf), stripped, source)
      case None => []
      case Some(t) =>
        var fkey := FileKey(source);
        if t.path == source then []
        else [Edge(EdgeKey(h, fkey, "imports", t.key), "codebase_files/" + fkey, "codebase_symbols/" + t.key,
                   source, t.path, leaf, usePath)]
  }

  /** All the edges of a file's use paths, before any is dropped as already emitted. */
  function ImportEdges(h: Hashes, source: string, uses: seq<string>, targets: string -> seq<Entry>): seq<Edge> {
    if uses == [] then [] else ImportEdge(h, source, uses[0], targets) + ImportEdges(h, source, uses[1..], targets)
  }

  // ---- Python calls ----

  datatype Call = Call(name: string, qualified: string)

  function StringOr(v: Option<string>, default: string): string {
    if v.Some? then v.value else default
  }

  function CallOf(v: Value): Call {
    var name := StringOr(GetStr(v, "name"), "");
    Call(name, StringOr(GetStr(v, "qualified_name"), name))
  }

  /** The calls a symbol records; an import, or a symbol with no record, has none. */
  function CallsOf(s: Symbol): seq<Value> {
    if s.kind.Import? then []
    else match Get(s.metadata, "calls") case Some(Array(items)) => items case _ => []
  }

  /** `resolve_call_target`: the qualified name, then `self.` rewritten, then the bare name. */
  function CallTarget(c: Call, parent: Option<string>, file: string, qualified: string -> seq<Entry>,
                      bare: string -> seq<Entry>): Option<Entry> {
    var first := PickCall(qualified(c.qualified), file);
    if first.Some? then first
    else
      var second := if "self." <= c.qualified && parent.Some?
                    then PickCall(qualified(parent.value + "." + c.qualified[5..]), file) else None;
      if second.Some? then second
      else if c.name != "" then PickCall(bare(c.name), file)
      else None
  }

  function CallEdge(h: Hashes, path: string, s: Symbol, c: Call, qualified: string -> seq<Entry>,
                    bare: string -> seq<Entry>): seq<Edge> {
    if c.name == "" then []
    else
      var callerKey := KeyOf(h, path, s);
      match CallTarget(c, GetStr(s.metadata, "parent_symbol"), path, qualified, bare)
      case None => []
      case Some(t) =>
        if t.key == callerKey then []
        else [Edge(EdgeKey(h, callerKey, "calls", t.key), "codebase_symbols/" + callerKey, "codebase_symbols/" + t.key,
                   path, t.path, QualifiedName(s), c.qualified)]
  }

  function SymbolCalls(h: Hashes, path: string, s: Symbol, calls: seq<Value>, qualified: string -> seq<Entry>,
                       bare: string -> seq<Entry>): seq<Edge> {
    if calls == [] then []
    else CallEdge(h, path, s, CallOf(calls[0]), qualified, bare) + SymbolCalls(h, path, s, calls[1..], qualified, bare)
  }

  function FileCalls(h: Hashes, path: string, symbols: seq<Symbol>, qualified: string -> seq<Entry>,
                     bare: string -> seq<Entry>): seq<Edge> {
    if symbols == [] then []
    else
      SymbolCalls(h, path, symbols[0], CallsOf(symbols[0]), qualified, bare)
      + FileCalls(h, path, symbols[1..], qualified, bare)
  }

  // ---- The two loops ----

  function Targets(index: Index): string -> seq<Entry> {
    name => Lookup(index, name)
  }

  function ImportsOf(h: Hashes, index: Index): FileUses -> seq<Edge> {
    (f: FileUses) => ImportEdges(h, f.path, f.uses, Targets(index))
  }

  function CallsIn(h: Hashes, qualified: Index, bare: Index): File -> seq<Edge> {
    (f: File) => FileCalls(h, f.path, f.symbols, Targets(qualified), Targets(bare))
  }

  /** `seen.insert`, then push; nothing for a use or call that does not resolve. */
  method Emit(edges: seq<Edge>, seen: set<string>, es: seq<Edge>, ghost rest: seq<Edge>)
    returns (edges': seq<Edge>, seen': set<string>)
    requires |es| <= 1
    ensures edges' + Dedup(rest, seen') == edges + Dedup(es + rest, seen)
  {
    edges', seen' := edges, seen;
    if es == [] {
      assert es + rest == rest;
      return;
    }
    assert (es + rest)[1..] == rest;
    if es[0].key in seen {
      return;
    }
    seen' := seen + {es[0].key};
    edges' := edges + [es[0]];
  }

  method FindImport(h: Hashes, source: string, usePath: string, index: Index) returns (es: seq<Edge>)
    ensures es == ImportEdge(h, source, usePath, Targets(index)) && |es| <= 1
  {
    hide StripQualifiers, LeafName, IsGlob, FileKey;
    var stripped := StripQualifiers(usePath);
    if IsGlob(stripped) {
      return [];
    }
    var leaf := LeafName(stripped);
    if leaf !in index {
      return [];
    }
    var target := PickBestImportTarget(index[leaf], stripped, source);
    if target.None? || target.value.path == source {
      return [];
    }
    var fkey := FileKey(source);
    es := [Edge(EdgeKey(h, fkey, "imports", target.value.key), "codebase_files/" + fkey,
                "codebase_symbols/" + target.value.key,
                source, target.value.path, leaf, usePath)];
  }

  /** `resolve_rust_imports`. */
  method ResolveRustImports(h: Hashes, files: seq<FileUses>, index: Index) returns (edges: seq<Edge>)
    ensures edges == Dedup(All(files, ImportsOf(h, index)), {})
  {
    hide ImportEdge;
    edges := [];
    var seen: set<string> := {};
    ghost var c := ImportsOf(h, index);
    for i := 0 to |files|
      invariant edges + Dedup(All(files[i..], c), seen) == Dedup(All(files, c), {})
    {
      var f := files[i];
      ghost var rest := All(files[i + 1..], c);
      assert files[i..][0] == f && files[i..][1..] == files[i + 1..];
      for j := 0 to |f.uses|
        invariant edges + Dedup(ImportEdges(h, f.path, f.uses[j..], Targets(index)) + rest, seen)
          == Dedup(All(files, c), {})
      {
        assert f.uses[j..][0] == f.uses[j] && f.uses[j..][1..] == f.uses[j + 1..];
        var es := FindImport(h, f.path, f.uses[j], index);
        ghost var later := ImportEdges(h, f.path, f.uses[j + 1..], Targets(index));
        Regroup3(es, later, rest);
        edges, seen := Emit(edges, seen, es, later + rest);
      }
      assert [] + rest == rest;
    }
  }

  /** `resolve_call_target`. */
  method ResolveCallTarget(c: Call, parent: Option<string>, file: string, qualified: Index, bare: Index)
    returns (r: Option<Entry>)
    ensures r == CallTarget(c, parent, file, Targets(qualified), Targets(bare))
  {
    hide PickCall;
    NoEntries(file);
    if c.qualified in qualified {
      r := PickBest(qualified[c.qualified], file);
      if r.Some? {
        return;
      }
    }
    if "self." <= c.qualified && parent.Some? {
      var rewritten := parent.value + "." + c.qualified[5..];
      if rewritten in qualified {
        r := PickBest(qualified[rewritten], file);
        if r.Some? {
          return;
        }
      }
    }
    if c.name != "" && c.name in bare {
      r := PickBest(bare[c.name], file);
      if r.Some? {
        return;
      }
    }
    return None;
  }

  lemma NoEntries(file: string)
    ensures PickCall([], file) == None
  {
  }

  method FindCall(h: Hashes, path: string, s: Symbol, c: Call, qualified: Index, bare: Index) returns (es: seq<Edge>)
    ensures es == CallEdge(h, path, s, c, Targets(qualified), Targets(bare)) && |es| <= 1
  {
    hide CallTarget, KeyOf, QualifiedName, GetStr;
    if c.name == "" {
      return [];
    }
    var callerKey := KeyOf(h, path, s);
    var target := ResolveCallTarget(c, GetStr(s.metadata, "parent_symbol"), path, qualified, bare);
    if target.None? || target.value.key == callerKey {
      return [];
    }
    es := [Edge(EdgeKey(h, callerKey, "calls", target.value.key), "codebase_symbols/" + callerKey,
                "codebase_symbols/" + target.value.key,
                path, target.value.path, QualifiedName(s), c.qualified)];
  }

  /** `resolve_python_calls`. */
  method ResolvePythonCalls(h: Hashes, files: seq<File>, qualified: Index, bare: Index) returns (edges: seq<Edge>)
    ensures edges == Dedup(All(files, CallsIn(h, qualified, bare)), {})
  {
    hide CallEdge, CallsOf;
    edges := [];
    var seen: set<string> := {};
    ghost var c, q, b := CallsIn(h, qualified, bare), Targets(qualified), Targets(bare);
    for i := 0 to |files|
      invariant edges + Dedup(All(files[i..], c), seen) == Dedup(All(files, c), {})
    {
      var f := files[i];
      ghost var rest := All(files[i + 1..], c);
      assert files[i..][0] == f && files[i..][1..] == files[i + 1..];
      for j := 0 to |f.symbols|
        invariant edges + Dedup(FileCalls(h, f.path, f.symbols[j..], q, b) + rest, seen) == Dedup(All(files, c), {})
      {
        var s := f.symbols[j];
        assert f.symbols[j..][0] == s && f.symbols[j..][1..] == f.symbols[j + 1..];
        ghost var after := FileCalls(h, f.path, f.symbols[j + 1..], q, b) + rest;
        Regroup3(SymbolCalls(h, f.path, s, CallsOf(s), q, b), FileCalls(h, f.path, f.symbols[j + 1..], q, b), rest);
        edges, seen := EmitCalls(h, f.path, s, qualified, bare, edges, seen, after);
      }
      assert [] + rest == rest;
    }
  }

  method EmitCalls(h: Hashes, path: string, s: Symbol, qualified: Index, bare: Index, edges: seq<Edge>,
                   seen: set<string>, ghost after: seq<Edge>)
    returns (edges': seq<Edge>, seen': set<string>)
    ensures edges' + Dedup(after, seen')
      == edges + Dedup(SymbolCalls(h, path, s, CallsOf(s), Targets(qualified), Targets(bare)) + after, seen)
  {
    hide CallEdge, CallsOf;
    edges', seen' := edges, seen;
    var calls := CallsOf(s);
    ghost var q, b := Targets(qualified), Targets(bare);
    for k := 0 to |calls|
      invariant edges' + Dedup(SymbolCalls(h, path, s, calls[k..], q, b) + after, seen')
        == edges + Dedup(SymbolCalls(h, path, s, calls, q, b) + after, seen)
    {
      assert calls[k..][0] == calls[k] && calls[k..][1..] == calls[k + 1..];
      var es := FindCall(h, path, s, CallOf(calls[k]), qualified, bare);
      ghost var later := SymbolCalls(h, path, s, calls[k + 1..], q, b);
      Regroup3(es, later, after);
      edges', seen' := Emit(edges', seen', es, later + after);
    }
    assert [] + after == after;
  }
}
