/** What a use path or a call is resolved to, said of its segments and not of its text:
    crates/yeomna-code/src/rust_imports.rs and python_calls.rs. */
module ResolverTargets {
  import opened Json
  import opened Seqs
  import opened Strings
  import opened Utf8
  import opened CanonicalJson
  import opened CanonicalJsonLaws
  import opened Symbols
  import opened EdgeOrder
  import opened Resolvers
  import opened ResolverLaws

  // ---- Segments and their text ----

  /** Strings joined by a separator. */
  function Joined(parts: seq<string>, sep: string): string {
    if parts == [] then "" else if |parts| == 1 then parts[0] else parts[0] + sep + Joined(parts[1..], sep)
  }

  /** A segment of a path: no colon and no whitespace. */
  predicate IsSegment(s: string) {
    s != "" && forall i :: 0 <= i < |s| ==> s[i] != ':' && !IsWhitespace(s[i])
  }

  ghost predicate AreSegments(parts: seq<string>) {
    forall i :: 0 <= i < |parts| ==> IsSegment(parts[i])
  }

  predicate IsQualifier(s: string) {
    s == "crate" || s == "self" || s == "super"
  }

  /** A use path: qualifiers, then the modules and the name, then perhaps an alias. */
  datatype UsePath = UsePath(quals: seq<string>, modules: seq<string>, name: string, alias: Option<string>)

  ghost predicate UseOk(u: UsePath) {
    && (forall i :: 0 <= i < |u.quals| ==> IsQualifier(u.quals[i]))
    && AreSegments(u.modules) && IsSegment(u.name) && (u.alias.Some? ==> IsSegment(u.alias.value))
    && (u.modules != [] ==> !IsQualifier(u.modules[0]))
  }

  function AliasText(alias: Option<string>): string {
    if alias.Some? then " as " + alias.value else ""
  }

  /** The path without its qualifiers. */
  function PlainText(u: UsePath): string {
    Joined(u.modules + [u.name], "::") + AliasText(u.alias)
  }

  function QualText(quals: seq<string>): string {
    if quals == [] then "" else quals[0] + "::" + QualText(quals[1..])
  }

  function UseText(u: UsePath): string {
    QualText(u.quals) + PlainText(u)
  }

  lemma JoinedFirst(a: string, rest: seq<string>, sep: string)
    ensures Joined([a] + rest, sep) == if rest == [] then a else a + sep + Joined(rest, sep)
  {
    assert ([a] + rest)[1..] == rest;
  }

  lemma {:induction false} JoinedTail(parts: seq<string>, tail: string, sep: string)
    requires parts != []
    ensures Joined(parts, sep) + tail == Joined(parts[..|parts| - 1] + [parts[|parts| - 1] + tail], sep)
  {
    var m := |parts| - 1;
    var whole := parts[..m] + [parts[m] + tail];
    if m == 0 {
      assert whole == [parts[0] + tail];
    } else {
      var rest := parts[1..];
      assert whole == [parts[0]] + (rest[..m - 1] + [rest[m - 1] + tail]);
      JoinedTail(rest, tail, sep);
      JoinedFirst(parts[0], rest[..m - 1] + [rest[m - 1] + tail], sep);
      hide Joined;
      Regroup3(parts[0] + sep, Joined(rest, sep), tail);
      assert Joined(parts, sep) == parts[0] + sep + Joined(rest, sep) by {
        JoinedFirst(parts[0], rest, sep);
        assert parts == [parts[0]] + rest;
      }
    }
  }

  // ---- Splitting is the inverse of joining ----

  predicate NoColon(s: string) {
    forall i :: 0 <= i < |s| ==> s[i] != ':'
  }

  lemma {:induction false} FindFirst(a: string, rest: string)
    requires NoColon(a)
    ensures FindPattern(a + ("::" + rest), "::") == |a|
  {
    var s := a + ("::" + rest);
    if a == "" {
      assert s == "::" + rest && "::" <= s;
    } else {
      assert s[0] == a[0] && s[1..] == a[1..] + ("::" + rest);
      assert !("::" <= s);
      FindFirst(a[1..], rest);
    }
  }

  lemma {:induction false} FindNone(a: string)
    requires NoColon(a)
    ensures FindPattern(a, "::") == |a|
  {
    if a != "" {
      assert a[0] != ':' && "::"[0] == ':';
      FindNone(a[1..]);
    }
  }

  lemma {:induction false} SplitJoined(parts: seq<string>)
    requires parts != [] && forall i :: 0 <= i < |parts| ==> NoColon(parts[i])
    ensures SplitOn(Joined(parts, "::"), "::") == parts
  {
    if |parts| == 1 {
      FindNone(parts[0]);
    } else {
      var s, rest := Joined(parts, "::"), Joined(parts[1..], "::");
      Regroup3(parts[0], "::", rest);
      FindFirst(parts[0], rest);
      assert s[..|parts[0]|] == parts[0] && s[|parts[0]| + 2..] == rest;
      SplitJoined(parts[1..]);
    }
  }

  predicate NoSlash(s: string) {
    forall i :: 0 <= i < |s| ==> s[i] != '/' && s[i] != '\\'
  }

  lemma {:induction false} SplitComponent(a: string, rest: string)
    requires NoSlash(a)
    ensures SplitPath(a + ("/" + rest)) == [a] + SplitPath(rest)
  {
    var s := a + ("/" + rest);
    if a == "" {
      assert s == "/" + rest && s[1..] == rest;
    } else {
      assert s[0] == a[0] && s[1..] == a[1..] + ("/" + rest);
      SplitComponent(a[1..], rest);
      assert [a[0]] + a[1..] == a;
      assert ([a[1..]] + SplitPath(rest))[1..] == SplitPath(rest);
    }
  }

  lemma {:induction false} SplitOne(a: string)
    requires NoSlash(a)
    ensures SplitPath(a) == [a]
  {
    if a != "" {
      SplitOne(a[1..]);
      assert [a[0]] + a[1..] == a && [a[1..]][1..] == [];
    }
  }

  lemma {:induction false} SplitComponents(parts: seq<string>)
    requires parts != [] && forall i :: 0 <= i < |parts| ==> NoSlash(parts[i])
    ensures SplitPath(Joined(parts, "/")) == parts
  {
    if |parts| == 1 {
      SplitOne(parts[0]);
    } else {
      Regroup3(parts[0], "/", Joined(parts[1..], "/"));
      SplitComponent(parts[0], Joined(parts[1..], "/"));
      SplitComponents(parts[1..]);
      assert [parts[0]] + parts[1..] == parts;
    }
  }

  // ---- Qualifiers ----

  /** Only a segment that is the qualifier makes the text start with it. */
  lemma QualifierFirst(a: string, rest: string, q: string)
    requires NoColon(a) && IsQualifier(q) && q + "::" <= a + rest && (rest == "" || "::" <= rest)
    ensures a == q && rest != ""
  {
    var s := a + rest;
    assert s[|q|] == ':' && s[..|q|] == q;
    assert s == q + [':'] + s[|q| + 1..];
    FindAfter(q, ':', s[|q| + 1..]);
    assert rest != "" by {
      assert rest == "" ==> s == a;
    }
    assert s == a + [':'] + rest[1..];
    FindAfter(a, ':', rest[1..]);
    assert a == s[..|a|];
  }

  /** A plain text starts with no qualifier. */
  lemma PlainStart(u: UsePath)
    requires UseOk(u)
    ensures StripQualifiers(PlainText(u)) == PlainText(u)
  {
    var first := if u.modules == [] then u.name + AliasText(u.alias) else u.modules[0];
    var rest := if u.modules == [] then ""
                else "::" + (Joined(u.modules[1..] + [u.name], "::") + AliasText(u.alias));
    assert PlainText(u) == first + rest by {
      if u.modules == [] {
        assert u.modules + [u.name] == [u.name];
      } else {
        assert u.modules + [u.name] == [u.modules[0]] + (u.modules[1..] + [u.name]);
        JoinedFirst(u.modules[0], u.modules[1..] + [u.name], "::");
        Regroup4(u.modules[0], "::", Joined(u.modules[1..] + [u.name], "::"), AliasText(u.alias));
      }
    }
    forall q | IsQualifier(q) && q + "::" <= first + rest ensures false {
      QualifierFirst(first, rest, q);
    }
    assert IsQualifier("crate") && IsQualifier("self") && IsQualifier("super");
    assert "crate" + "::" == "crate::" && "self" + "::" == "self::" && "super" + "::" == "super::";
  }

  lemma StripOne(q: string, rest: string)
    requires IsQualifier(q)
    ensures StripQualifiers(q + "::" + rest) == StripQualifiers(rest)
  {
    var s := q + "::" + rest;
    assert s[|q| + 2..] == rest;
    if q == "crate" {
      assert "crate::" <= s;
    } else if q == "self" {
      assert s[0] == 's' && "self::" <= s;
    } else {
      assert s[1] == 'u' && "super::" <= s;
    }
  }

  lemma {:induction false} StripQuals(quals: seq<string>, rest: string)
    requires forall i :: 0 <= i < |quals| ==> IsQualifier(quals[i])
    ensures StripQualifiers(QualText(quals) + rest) == StripQualifiers(rest)
  {
    if quals == [] {
      assert "" + rest == rest;
    } else {
      Regroup3(quals[0] + "::", QualText(quals[1..]), rest);
      StripOne(quals[0], QualText(quals[1..]) + rest);
      StripQuals(quals[1..], rest);
    }
  }

  // ---- The name looked up ----

  /** No prefix of the text that is longer than the first part ends in the pattern. */
  lemma {:induction false} LastAt(left: string, pattern: string, right: string)
    requires pattern != "" && forall i :: 0 <= i < |right| ==> right[i] != pattern[|pattern| - 1]
    ensures RFind(left + pattern + right, pattern) == |left|
    decreases |right|
  {
    var s := left + pattern + right;
    if right == "" {
      assert s == left + pattern && s[|left|..] == pattern;
    } else {
      var m := |right| - 1;
      assert s[..|s| - 1] == left + pattern + right[..m];
      assert s[|s| - 1] == right[m];
      LastAt(left, pattern, right[..m]);
    }
  }

  lemma {:induction false} NowhereAt(s: string, pattern: string)
    requires pattern != "" && forall i :: 0 <= i < |s| ==> s[i] != pattern[|pattern| - 1]
    ensures RFind(s, pattern) == |s|
  {
    if s != "" {
      assert s[|s| - 1] != pattern[|pattern| - 1];
      NowhereAt(s[..|s| - 1], pattern);
    }
  }

  predicate NoSpace(s: string) {
    forall i :: 0 <= i < |s| ==> !IsWhitespace(s[i])
  }

  lemma {:induction false} JoinedNoSpace(parts: seq<string>)
    requires AreSegments(parts) && parts != []
    ensures NoSpace(Joined(parts, "::")) && Joined(parts, "::") != ""
  {
    if |parts| > 1 {
      JoinedNoSpace(parts[1..]);
      assert forall i :: 0 <= i < |parts[1..]| ==> parts[1..][i] == parts[i + 1];
    }
  }

  /** The last segment after the last separator. */
  lemma {:induction false} LastSegment(parts: seq<string>, name: string)
    requires AreSegments(parts) && IsSegment(name)
    ensures var p := Joined(parts + [name], "::");
      var at := RFind(p, "::");
      (if at < |p| then p[at + 2..] else p) == name
  {
    if parts == [] {
      assert [] + [name] == [name];
      NowhereAt(name, "::");
    } else {
      var left := Joined(parts, "::");
      JoinedSnoc(parts, name);
      var p := left + "::" + name;
      LastAt(left, "::", name);
      assert p[|left| + 2..] == name;
    }
  }

  lemma {:induction false} JoinedSnoc(parts: seq<string>, name: string)
    requires parts != []
    ensures Joined(parts + [name], "::") == Joined(parts, "::") + "::" + name
  {
    if |parts| == 1 {
      assert parts + [name] == [parts[0]] + [name];
      JoinedFirst(parts[0], [name], "::");
    } else {
      assert (parts + [name])[1..] == parts[1..] + [name];
      JoinedSnoc(parts[1..], name);
      Regroup4(parts[0] + "::", Joined(parts[1..], "::"), "::", name);
    }
  }

  lemma NoSpaceTrims(s: string)
    requires NoSpace(s) && s != ""
    ensures Trim(s) == s
  {
    TrimTrimmed(s);
  }

  lemma NoBlank(s: string)
    requires NoSpace(s)
    ensures forall i :: 0 <= i < |s| ==> s[i] != ' '
  {
  }

  /** The rename and its name come off. */
  lemma BeforeAs(p: string, alias: string)
    requires NoSpace(p) && p != "" && NoSpace(alias)
    ensures var text := p + (" as " + alias);
      RFind(text, " as ") == |p| < |text| && text[..|p|] == p && Trim(text[..|p|]) == p
  {
    hide RFind, Trim;
    NoBlank(alias);
    LastAt(p, " as ", alias);
    Regroup3(p, " as ", alias);
    NoSpaceTrims(p);
  }

  lemma LeafOf(p: string, alias: Option<string>)
    requires NoSpace(p) && p != "" && (alias.Some? ==> NoSpace(alias.value))
    ensures var at := RFind(p, "::");
      LeafName(p + AliasText(alias)) == if at < |p| then p[at + 2..] else p
  {
    hide RFind, Trim, NoSpace;
    if alias.Some? {
      BeforeAs(p, alias.value);
    } else {
      assert p + AliasText(alias) == p;
      NoBlank(p);
      NowhereAt(p, " as ");
    }
  }

  /** Main result: a use path is looked up under its own last segment, whatever stands before it and
      whatever it is renamed to. */
  lemma UseLeaf(u: UsePath)
    requires UseOk(u)
    ensures StripQualifiers(UseText(u)) == PlainText(u) && LeafName(PlainText(u)) == u.name
  {
    StripQuals(u.quals, PlainText(u));
    PlainStart(u);
    hide StripQualifiers, LeafName, RFind, Joined;
    JoinedNoSpace(u.modules + [u.name]);
    LastSegment(u.modules, u.name);
    LeafOf(Joined(u.modules + [u.name], "::"), u.alias);
  }

  // ---- The score of a file ----

  lemma {:induction false} CountSnoc(segments: seq<string>, last: string, parts: seq<string>)
    ensures CountIn(segments + [last], parts) == CountIn(segments, parts) + if last in parts then 1 else 0
  {
    if segments == [] {
      assert [] + [last] == [last] && [last][1..] == [];
    } else {
      assert (segments + [last])[1..] == segments[1..] + [last];
      CountSnoc(segments[1..], last, parts);
    }
  }

  /** The positions that hold one of the parts. */
  function Hits(segments: seq<string>, parts: seq<string>): set<nat> {
    set i: nat | i < |segments| && segments[i] in parts
  }

  lemma {:induction false} CountIs(segments: seq<string>, parts: seq<string>)
    ensures CountIn(segments, parts) == |Hits(segments, parts)|
  {
    if segments == [] {
      assert Hits(segments, parts) == {};
    } else {
      var m := |segments| - 1;
      var init, last := segments[..m], segments[m];
      assert segments == init + [last];
      CountIs(init, parts);
      CountSnoc(init, last, parts);
      assert Hits(segments, parts) == Hits(init, parts) + if last in parts then {m} else {};
    }
  }

  /** A file's path: components joined by slashes, with the extension of a Rust file. */
  ghost predicate PathOk(parts: seq<string>) {
    parts != [] && (forall i :: 0 <= i < |parts| ==> NoSlash(parts[i])) && !HasSuffix(Joined(parts, "/"), ".rs")
  }

  lemma WithoutExtension(path: string)
    requires !HasSuffix(path, ".rs")
    ensures WithoutRs(path + ".rs") == path
  {
    assert (path + ".rs")[|path|..] == ".rs" && (path + ".rs")[..|path|] == path;
  }

  /** Main result: a file scores one for each module of the use path, by position, that is a component
      of the file's path; a path of one segment is scored by that segment, alias and all. */
  lemma ScoreIs(u: UsePath, parts: seq<string>)
    requires UseOk(u) && PathOk(parts)
    ensures var scored := if u.modules == [] then [u.name + AliasText(u.alias)] else u.modules;
      Score(PlainText(u), Joined(parts, "/") + ".rs") == |Hits(scored, parts)|
  {
    var last := u.name + AliasText(u.alias);
    var segments := u.modules + [last];
    JoinedTail(u.modules + [u.name], AliasText(u.alias), "::");
    assert (u.modules + [u.name])[..|u.modules|] == u.modules;
    assert PlainText(u) == Joined(segments, "::");
    AliasHasNoColon(u);
    SplitJoined(segments);
    WithoutExtension(Joined(parts, "/"));
    SplitComponents(parts);
    assert segments[..|segments| - 1] == u.modules;
    assert u.modules == [] ==> segments == [last];
    CountIs(if u.modules == [] then [last] else u.modules, parts);
  }

  lemma AliasHasNoColon(u: UsePath)
    requires UseOk(u)
    ensures NoColon(u.name + AliasText(u.alias))
  {
  }

  // ---- The edge of a use path ----

  predicate UseGlob(u: UsePath) {
    u.name == "*" && u.alias.None?
  }

  lemma SuffixChars(s: string)
    requires HasSuffix(s, "::*")
    ensures |s| >= 3 && s[|s| - 1] == '*' && s[|s| - 2] == ':'
  {
    var t := s[|s| - 3..];
    assert t[2] == s[|s| - 1] && t[1] == s[|s| - 2];
  }

  /** The text is its last segment after something. */
  lemma PlainTextEnds(u: UsePath) returns (left: string)
    ensures PlainText(u) == left + (u.name + AliasText(u.alias))
    ensures left == if u.modules == [] then "" else Joined(u.modules, "::") + "::"
  {
    left := if u.modules == [] then "" else Joined(u.modules, "::") + "::";
    if u.modules == [] {
      assert u.modules + [u.name] == [u.name];
    } else {
      JoinedSnoc(u.modules, u.name);
    }
    Regroup3(left, u.name, AliasText(u.alias));
  }

  lemma GlobText(left: string, last: string)
    requires NoColon(last) && last != "" && (left == "" || HasSuffix(left, "::"))
    ensures IsGlob(left + last) <==> last == "*"
  {
    var text := left + last;
    assert text[|left|..] == last;
    assert text[|text| - 1] == last[|last| - 1];
    assert |last| > 1 ==> text[|text| - 2] == last[|last| - 2];
    if HasSuffix(text, "::*") {
      SuffixChars(text);
    }
    if last == "*" && left != "" {
      assert left == left[..|left| - 2] + "::" && text[|left| - 2..] == "::*";
    }
    if text == "*" {
      assert |left| < 2;
    }
  }

  lemma GlobIff(u: UsePath)
    requires UseOk(u)
    ensures IsGlob(PlainText(u)) <==> UseGlob(u)
  {
    var left := PlainTextEnds(u);
    LastHasNoColon(u);
    hide PlainText, IsGlob, NoColon, Joined;
    if u.modules != [] {
      assert left[|left| - 2..] == "::";
    }
    GlobText(left, u.name + AliasText(u.alias));
  }

  lemma LastHasNoColon(u: UsePath)
    requires UseOk(u)
    ensures NoColon(u.name + AliasText(u.alias)) && u.name + AliasText(u.alias) != ""
    ensures u.name + AliasText(u.alias) == "*" <==> UseGlob(u)
  {
  }

  /** What the edge of a use path says. */
  ghost predicate Says(e: Edge, h: Hashes, source: string, u: UsePath, t: Entry) {
    && e.from == "codebase_files/" + FileKey(source) && e.to == "codebase_symbols/" + t.key
    && e.source == source && e.target == t.path && e.name == u.name && e.detail == UseText(u)
    && e.key == EdgeKey(h, FileKey(source), "imports", t.key)
  }

  /** Main result: a use path that is no glob gives one edge, to the best entry under its last segment
      outside its own file, and none exactly when there is no such entry; a glob gives none. */
  lemma UseEdgeIs(h: Hashes, source: string, u: UsePath, targets: string -> seq<Entry>)
    requires UseOk(u)
    ensures var (es, found) := (ImportEdge(h, source, UseText(u), targets), targets(u.name));
      if UseGlob(u) || forall x :: x in found ==> x.path == source then es == []
      else |es| == 1 && exists t :: IsPick(found, PlainText(u), source, t) && Says(es[0], h, source, u, t)
  {
    UseLeaf(u);
    GlobIff(u);
    PickImportIs(targets(u.name), PlainText(u), source);
    hide UseText, PlainText, StripQualifiers, LeafName, IsGlob, PickImport, FileKey, EdgeKey, Better;
    var found := PickImport(targets(u.name), PlainText(u), source);
    if !UseGlob(u) && found.Some? {
      assert IsPick(targets(u.name), PlainText(u), source, found.value);
      assert Says(ImportEdge(h, source, UseText(u), targets)[0], h, source, u, found.value);
    }
  }

  // ---- The target of a call ----

  /** The order of the source's pairs: by the bytes of the path, then of the key. */
  ghost predicate PairBefore(a: Entry, b: Entry) {
    ByteLess(Encode(a.path), Encode(b.path)) || (a.path == b.path && ByteLess(Encode(a.key), Encode(b.key)))
  }

  predicate IsFirstIn(entries: seq<Entry>, path: string, k: nat)
    requires k < |entries|
  {
    entries[k].path == path && forall j :: 0 <= j < k ==> entries[j].path != path
  }

  /** Main result: among entries the first of the caller's own file is taken, else the least pair. */
  lemma PickCallIs(entries: seq<Entry>, prefer: string)
    requires entries != []
    ensures match PickCall(entries, prefer)
      case None => false
      case Some(e) =>
        && e in entries
        && (forall k :: 0 <= k < |entries| && IsFirstIn(entries, prefer, k) ==> e == entries[k])
        && ((forall x :: x in entries ==> x.path != prefer) ==> forall x :: x in entries ==> !PairBefore(x, e))
  {
    FirstInFound(entries, prefer);
    LeastEntryIs(entries);
    hide EntryLess, LeastEntry, FirstIn;
    forall x, y ensures EntryLess(x, y) <==> PairBefore(x, y) { PairOrder(x, y); }
  }

  lemma PairOrder(a: Entry, b: Entry)
    ensures EntryLess(a, b) <==> PairBefore(a, b)
  {
    LessIsByteOrder(a.path, b.path);
    LessIsByteOrder(a.key, b.key);
  }

  lemma {:induction false} FirstInFound(entries: seq<Entry>, path: string)
    ensures match FirstIn(entries, path)
      case None => forall x :: x in entries ==> x.path != path
      case Some(e) => exists k :: 0 <= k < |entries| && entries[k] == e && IsFirstIn(entries, path, k)
  {
    if entries != [] {
      if entries[0].path == path {
        assert entries[0] == FirstIn(entries, path).value && IsFirstIn(entries, path, 0);
      } else {
        FirstInFound(entries[1..], path);
        if FirstIn(entries, path).Some? {
          var k :| 0 <= k < |entries[1..]| && entries[1..][k] == FirstIn(entries, path).value
            && IsFirstIn(entries[1..], path, k);
          assert entries[k + 1] == entries[1..][k];
          assert forall j :: 1 <= j < k + 1 ==> entries[j] == entries[1..][j - 1];
          assert IsFirstIn(entries, path, k + 1);
        }
      }
    }
  }

  /** A call on `self` names a method of the class the caller stands in. */
  ghost predicate OwnMethod(c: Call, parent: Option<string>, name: string) {
    parent.Some? && exists m :: c.qualified == "self." + m && name == parent.value + "." + m
  }

  /** Main result: a call resolves by its qualified name; failing that, on `self`, by the caller's class
      and the method; failing that by its bare name; and to nothing when none of them is known. */
  lemma CallTargetIs(c: Call, parent: Option<string>, file: string, q: string -> seq<Entry>, b: string -> seq<Entry>)
    ensures var r := CallTarget(c, parent, file, q, b);
      && (q(c.qualified) != [] ==> r == PickCall(q(c.qualified), file))
      && (forall own :: q(c.qualified) == [] && OwnMethod(c, parent, own) && q(own) != [] ==>
            r == PickCall(q(own), file))
      && (q(c.qualified) == [] && (forall own :: OwnMethod(c, parent, own) ==> q(own) == []) ==>
            r == if c.name == "" then None else PickCall(b(c.name), file))
  {
    hide PickCall;
    forall entries: seq<Entry> ensures PickCall(entries, file).Some? <==> entries != [] { PickCallSome(entries, file); }
    if "self." <= c.qualified && parent.Some? {
      var m := c.qualified[5..];
      assert c.qualified == "self." + m;
      assert OwnMethod(c, parent, parent.value + "." + m);
    }
    forall own | OwnMethod(c, parent, own)
      ensures "self." <= c.qualified && own == parent.value + "." + c.qualified[5..]
    {
      var m :| c.qualified == "self." + m && own == parent.value + "." + m;
      assert c.qualified[5..] == m;
    }
  }

  lemma PickCallSome(entries: seq<Entry>, file: string)
    ensures PickCall(entries, file).Some? <==> entries != []
  {
  }

  /** The edge a recorded call gives: from its symbol to its target, which is another symbol. */
  ghost predicate CallSays(e: Edge, h: Hashes, path: string, s: Symbol, v: Value, q: string -> seq<Entry>,
                           b: string -> seq<Entry>)
  {
    exists name, qualified, t: Entry ::
      && name != "" && GetStr(v, "name") == Some(name)
      && qualified == (match GetStr(v, "qualified_name") case Some(x) => x case None => name)
      && CallTarget(Call(name, qualified), GetStr(s.metadata, "parent_symbol"), path, q, b) == Some(t)
      && t.key != KeyOf(h, path, s)
      && e.from == "codebase_symbols/" + KeyOf(h, path, s) && e.to == "codebase_symbols/" + t.key
      && e.source == path && e.target == t.path && e.name == QualifiedName(s) && e.detail == qualified
      && e.key == EdgeKey(h, KeyOf(h, path, s), "calls", t.key)
  }

  lemma CallEdgeIs(h: Hashes, path: string, s: Symbol, v: Value, q: string -> seq<Entry>, b: string -> seq<Entry>,
                   e: Edge)
    ensures e in CallEdge(h, path, s, CallOf(v), q, b) <==> CallSays(e, h, path, s, v, q, b)
  {
    hide CallTarget, KeyOf, EdgeKey, QualifiedName, GetStr;
  }

  lemma {:induction false} SymbolCallsAre(h: Hashes, path: string, s: Symbol, calls: seq<Value>,
                                          q: string -> seq<Entry>, b: string -> seq<Entry>, e: Edge)
    ensures e in SymbolCalls(h, path, s, calls, q, b) <==> exists v :: v in calls && CallSays(e, h, path, s, v, q, b)
  {
    hide CallEdge, CallSays, CallOf;
    if calls != [] {
      CallEdgeIs(h, path, s, calls[0], q, b, e);
      SymbolCallsAre(h, path, s, calls[1..], q, b, e);
      assert calls == [calls[0]] + calls[1..];
    }
  }

  /** Main result: the call edges of a file are exactly those of the calls its symbols record. */
  lemma {:induction false} FileCallsAre(h: Hashes, path: string, symbols: seq<Symbol>, q: string -> seq<Entry>,
                                        b: string -> seq<Entry>, e: Edge)
    ensures e in FileCalls(h, path, symbols, q, b) <==>
      exists s, v :: s in symbols && v in CallsOf(s) && CallSays(e, h, path, s, v, q, b)
  {
    hide SymbolCalls, CallSays, CallsOf;
    if symbols != [] {
      SymbolCallsAre(h, path, symbols[0], CallsOf(symbols[0]), q, b, e);
      FileCallsAre(h, path, symbols[1..], q, b, e);
      assert symbols == [symbols[0]] + symbols[1..];
    }
  }

  // ---- What the indexes hold ----

  /** A symbol of the file that the index files under the name. */
  ghost predicate FiledUnder(how: Indexing, h: Hashes, path: string, symbols: seq<Symbol>, name: string, e: Entry) {
    exists s :: s in symbols && IndexName(how, s) == Some(name) && e == Entry(path, KeyOf(h, path, s))
  }

  lemma {:induction false} FileEntriesAre(how: Indexing, h: Hashes, path: string, symbols: seq<Symbol>, name: string,
                                          e: Entry)
    ensures e in FileEntries(how, h, path, symbols, name) <==> FiledUnder(how, h, path, symbols, name, e)
  {
    hide KeyOf, IndexName;
    if symbols != [] {
      var init, last := symbols[..|symbols| - 1], symbols[|symbols| - 1];
      FileEntriesAre(how, h, path, init, name, e);
      assert symbols == init + [last];
    }
  }

  /** The entries under a name are exactly the symbols filed under it, in whichever file. */
  lemma {:induction false} EntriesAre(how: Indexing, h: Hashes, files: seq<File>, name: string, e: Entry)
    ensures e in Entries(how, h, files, name) <==>
      exists f :: f in files && FiledUnder(how, h, f.path, f.symbols, name, e)
  {
    hide FileEntries, FiledUnder;
    if files != [] {
      var init, last := files[..|files| - 1], files[|files| - 1];
      EntriesAre(how, h, init, name, e);
      FileEntriesAre(how, h, last.path, last.symbols, name, e);
      assert files == init + [last];
    }
  }

  /** A method as the Python analyzer records it. */
  ghost predicate IsMethodOf(s: Symbol, class_: string) {
    && !s.kind.Import? && class_ != "" && GetStr(s.metadata, "parent_symbol") == Some(class_)
    && Context(s, "qualified_name").None? && Context(s, "impl_context").None?
  }

  lemma MethodIndexed(h: Hashes, files: seq<File>, q: Index, f: File, s: Symbol, class_: string)
    requires IsIndex(q, ByQualified, h, files) && f in files && s in f.symbols && IsMethodOf(s, class_)
    ensures Entry(f.path, KeyOf(h, f.path, s)) in Lookup(q, class_ + "." + s.name)
  {
    hide KeyOf, Entries;
    var own := class_ + "." + s.name;
    assert IndexName(ByQualified, s) == Some(own);
    EntriesAre(ByQualified, h, files, own, Entry(f.path, KeyOf(h, f.path, s)));
    assert FiledUnder(ByQualified, h, f.path, f.symbols, own, Entry(f.path, KeyOf(h, f.path, s)));
  }

  /** Main result: a call on `self` in a class finds the class's own method, in whichever file it is. */
  lemma OwnMethodFound(h: Hashes, files: seq<File>, q: Index, b: Index, f: File, s: Symbol, c: Call, class_: string,
                       file: string)
    requires IsIndex(q, ByQualified, h, files) && f in files && s in f.symbols && IsMethodOf(s, class_)
    requires c.qualified == "self." + s.name && Lookup(q, c.qualified) == []
    ensures var r := CallTarget(c, Some(class_), file, Targets(q), Targets(b));
      && Entry(f.path, KeyOf(h, f.path, s)) in Lookup(q, class_ + "." + s.name)
      && r.Some? && r == PickCall(Lookup(q, class_ + "." + s.name), file)
  {
    hide PickCall, CallTarget, KeyOf, IsIndex, IsMethodOf, Lookup;
    MethodIndexed(h, files, q, f, s, class_);
    CallTargetIs(c, Some(class_), file, Targets(q), Targets(b));
    assert OwnMethod(c, Some(class_), class_ + "." + s.name);
    PickCallSome(Lookup(q, class_ + "." + s.name), file);
  }
}
