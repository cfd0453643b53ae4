/** The `use`-tree printer of crates/yeomna-code/src/rust_ast.rs and the group expander of
    crates/yeomna-code/src/rust_imports.rs that has to undo it. */
module UseTrees {
  import opened Json
  import opened Seqs
  import opened Strings

  /** `syn::UseTree`. */
  datatype UseTree =
    | Path(ident: string, tree: UseTree)
    | Name(ident: string)
    | Rename(ident: string, alias: string)
    | Glob
    | Group(items: seq<UseTree>)

  /** An identifier: not empty, and free of braces, commas, colons and whitespace. */
  predicate IsIdent(s: string) {
    s != "" && forall i :: 0 <= i < |s| ==> s[i] !in {'{', '}', ',', ':'} && !IsWhitespace(s[i])
  }

  predicate Valid(t: UseTree) {
    match t
    case Path(i, t') => IsIdent(i) && Valid(t')
    case Name(i) => IsIdent(i)
    case Rename(i, a) => IsIdent(i) && IsIdent(a)
    case Glob => true
    case Group(items) => forall k :: 0 <= k < |items| ==> Valid(items[k])
  }

  // ---- The printer ----

  /** `use_tree_str`. */
  function Print(t: UseTree): string
    decreases t, 1
  {
    match t
    case Path(i, t') => i + "::" + Print(t')
    case Name(i) => i
    case Rename(i, a) => i + " as " + a
    case Glob => "*"
    case Group(items) => "{" + PrintItems(items, true) + "}"
  }

  function PrintItems(items: seq<UseTree>, first: bool): string
    decreases items, 0
  {
    if items == [] then ""
    else (if first then "" else ", ") + Print(items[0]) + PrintItems(items[1..], false)
  }

  // ---- What a tree imports, independently of any text ----

  /** What one leaf of a tree imports: a path, perhaps under another name. */
  datatype Import = Import(path: seq<string>, alias: Option<string>)

  /** The imports of a tree in order. `self` in a group, renamed or not, is the module itself, the
      empty path below it. */
  function Paths(t: UseTree): seq<Import>
    decreases t, 1
  {
    match t
    case Path(i, t') => Below([i], Paths(t'))
    case Name(i) => [Import([i], None)]
    case Rename(i, a) => [Import([i], Some(a))]
    case Glob => [Import(["*"], None)]
    case Group(items) => GroupPaths(items)
  }

  function GroupPaths(items: seq<UseTree>): seq<Import>
    decreases items, 0
  {
    if items == [] then []
    else
      (if items[0] == Name("self") then [Import([], None)]
       else if items[0].Rename? && items[0].ident == "self" then [Import([], Some(items[0].alias))]
       else Paths(items[0])) + GroupPaths(items[1..])
  }

  function Below(segs: seq<string>, imports: seq<Import>): seq<Import> {
    if imports == [] then [] else [Import(segs + imports[0].path, imports[0].alias)] + Below(segs, imports[1..])
  }

  /** Some group of the tree renames `self`. */
  predicate RenamesSelf(t: UseTree)
    decreases t, 1
  {
    match t
    case Path(_, t') => RenamesSelf(t')
    case Group(items) => GroupRenamesSelf(items)
    case _ => false
  }

  predicate GroupRenamesSelf(items: seq<UseTree>)
    decreases items, 0
  {
    items != []
    && ((items[0].Rename? && items[0].ident == "self") || RenamesSelf(items[0]) || GroupRenamesSelf(items[1..]))
  }

  // ---- The leaves as text behind their modules, which is all the expander knows ----

  /** The leaves in order, each the segments before it and its own text. A bare `self` in a group is
      the empty path. */
  function Leaves(t: UseTree): seq<seq<string>>
    decreases t, 1
  {
    match t
    case Path(i, t') => Prepend([i], Leaves(t'))
    case Name(i) => [[i]]
    case Rename(i, a) => [[i + " as " + a]]
    case Glob => [["*"]]
    case Group(items) => GroupLeaves(items)
  }

  function GroupLeaves(items: seq<UseTree>): seq<seq<string>>
    decreases items, 0
  {
    if items == [] then []
    else (if items[0] == Name("self") then [[]] else Leaves(items[0])) + GroupLeaves(items[1..])
  }

  function Prepend(segs: seq<string>, paths: seq<seq<string>>): seq<seq<string>> {
    if paths == [] then [] else [segs + paths[0]] + Prepend(segs, paths[1..])
  }

  /** Each segment followed by `::`. */
  function Prefix(segs: seq<string>): string {
    if segs == [] then "" else Prefix(segs[..|segs| - 1]) + segs[|segs| - 1] + "::"
  }

  /** Segments joined with `::`. */
  function Joined(path: seq<string>): string
    requires path != []
  {
    Prefix(path[..|path| - 1]) + path[|path| - 1]
  }

  /** The leaves as text. The empty path, `self` in a group outside any module, names nothing. */
  function LeavesText(paths: seq<seq<string>>): seq<string> {
    if paths == [] then []
    else (if paths[0] == [] then [] else [Joined(paths[0])]) + LeavesText(paths[1..])
  }

  function ImportText(m: Import): string
    requires m.path != []
  {
    Joined(m.path) + if m.alias.Some? then " as " + m.alias.value else ""
  }

  /** The imports as text. The empty path, `self` outside any module, names nothing. */
  function Render(imports: seq<Import>): seq<string> {
    if imports == [] then []
    else (if imports[0].path == [] then [] else [ImportText(imports[0])]) + Render(imports[1..])
  }

  // ---- The expander ----

  function Shift(at: Option<nat>, n: nat): Option<nat> {
    match at
    case None => None
    case Some(k) => Some(k + n)
  }

  /** Where the brace depth first returns to zero, starting at `depth`. */
  function ClosingBrace(s: string, depth: int): (r: Option<nat>)
    ensures r.Some? ==> r.value < |s|
  {
    if s == "" then None
    else if s[0] == '}' && depth == 1 then Some(0)
    else Shift(ClosingBrace(s[1..], Deeper(s[0], depth)), 1)
  }

  /** The depth after a character. */
  function Deeper(c: char, depth: int): int {
    if c == '{' then depth + 1 else if c == '}' then depth - 1 else depth
  }

  /** The pieces of `s` between commas at depth zero, the first one continuing `open`; an empty
      last piece is not a piece. */
  function Split(open: string, s: string, depth: int): seq<string>
    decreases |s|
  {
    if s == "" then (if open == "" then [] else [open])
    else if s[0] == ',' && depth == 0 then [open] + Split("", s[1..], depth)
    else
      Split(open + [s[0]], s[1..], Deeper(s[0], depth))
  }

  function OpenBraces(s: string): nat {
    if s == "" then 0 else (if s[0] == '{' then 1 else 0) + OpenBraces(s[1..])
  }

  /** `trim_end_matches("::")`. */
  function TrimColons(s: string): string {
    if |s| >= 2 && s[|s| - 2..] == "::" then TrimColons(s[..|s| - 2]) else s
  }

  /** What the scanners make of a path: a single import, or one group in its context. */
  datatype Scanned = Single | Grouped(prefix: string, parts: seq<string>, suffix: string)

  function Scan(s: string): Scanned {
    var at := Find(s, '{');
    if at == |s| then Single
    else
      var after := s[at + 1..];
      match ClosingBrace(after, 1)
      case None => Single
      case Some(k) => Grouped(s[..at], Split("", after[..k], 0), after[k + 1..])
  }

  /** `expand_use_group`. */
  function Expand(s: string): seq<string>
    decreases OpenBraces(s), 1, 0
  {
    match Scan(s)
    case Single => [s]
    case Grouped(prefix, parts, suffix) =>
      GroupShrinks(s);
      ExpandParts(prefix, parts, suffix, OpenBraces(s))
  }

  /** The pieces of one group, each below `bound` open braces once it is put back in context. */
  function ExpandParts(prefix: string, parts: seq<string>, suffix: string, bound: nat): seq<string>
    requires forall p :: p in parts ==> OpenBraces(prefix + Trim(p) + suffix) < bound
    decreases bound, 0, |parts|
  {
    if parts == [] then []
    else
      assert parts[0] in parts;
      ExpandPart(prefix, Trim(parts[0]), suffix, bound) + ExpandParts(prefix, parts[1..], suffix, bound)
  }

  function ExpandPart(prefix: string, part: string, suffix: string, bound: nat): seq<string>
    requires OpenBraces(prefix + part + suffix) < bound
    decreases bound, 0, 0
  {
    if part == "" then []
    else if part == "self" then (if TrimColons(prefix) == "" then [] else [TrimColons(prefix) + suffix])
    else Expand(prefix + part + suffix)
  }

  lemma {:induction false} OpenBracesAppend(a: string, b: string)
    ensures OpenBraces(a + b) == OpenBraces(a) + OpenBraces(b)
  {
    if a == "" {
      assert a + b == b;
    } else {
      assert (a + b)[1..] == a[1..] + b;
      OpenBracesAppend(a[1..], b);
    }
  }

  lemma TrimKeepsFewer(s: string)
    ensures OpenBraces(Trim(s)) <= OpenBraces(s)
  {
    var t := TrimStart(s);
    assert OpenBraces(t) <= OpenBraces(s) by {
      TrimStartIsSuffix(s);
      var k :| 0 <= k <= |s| && t == s[k..];
      OpenBracesAppend(s[..k], s[k..]);
      assert s == s[..k] + s[k..];
    }
    TrimEndIsPrefix(t);
    var m :| 0 <= m <= |t| && TrimEnd(t) == t[..m];
    OpenBracesAppend(t[..m], t[m..]);
    assert t == t[..m] + t[m..];
  }

  lemma {:induction false} SplitKeepsFewer(open: string, s: string, depth: int)
    ensures forall p :: p in Split(open, s, depth) ==> OpenBraces(p) <= OpenBraces(open) + OpenBraces(s)
    decreases |s|
  {
    if s == "" {
    } else if s[0] == ',' && depth == 0 {
      SplitKeepsFewer("", s[1..], depth);
    } else {
      SplitKeepsFewer(open + [s[0]], s[1..], Deeper(s[0], depth));
      OpenBracesAppend(open, [s[0]]);
    }
  }

  lemma PieceShrinks(prefix: string, part: string, inner: string, suffix: string)
    requires OpenBraces(part) <= OpenBraces(inner)
    ensures OpenBraces(prefix + Trim(part) + suffix) <= OpenBraces(prefix) + OpenBraces(inner) + OpenBraces(suffix)
  {
    TrimKeepsFewer(part);
    OpenBracesAppend(prefix + Trim(part), suffix);
    OpenBracesAppend(prefix, Trim(part));
  }

  /** A group's own brace counts on top of what is around and inside it. */
  lemma OpenBracesOfGroup(s: string, at: nat, k: nat)
    requires at < |s| && s[at] == '{' && k < |s[at + 1..]|
    ensures var after := s[at + 1..];
      OpenBraces(s[..at]) + OpenBraces(after[..k]) + OpenBraces(after[k + 1..]) < OpenBraces(s)
  {
    var after := s[at + 1..];
    assert s == s[..at] + ("{" + after);
    OpenBracesAppend(s[..at], "{" + after);
    OpenBracesAppend("{", after);
    assert after == after[..k] + ([after[k]] + after[k + 1..]);
    OpenBracesAppend(after[..k], [after[k]] + after[k + 1..]);
    OpenBracesAppend([after[k]], after[k + 1..]);
  }

  /** Why expansion terminates: putting one piece of a group in place of the group drops the
      group's own brace. */
  lemma GroupShrinks(s: string)
    requires Scan(s).Grouped?
    ensures var g := Scan(s);
      forall p :: p in g.parts ==> OpenBraces(g.prefix + Trim(p) + g.suffix) < OpenBraces(s)
  {
    var at := Find(s, '{');
    var after := s[at + 1..];
    var k := ClosingBrace(after, 1).value;
    var prefix, inner, suffix := s[..at], after[..k], after[k + 1..];
    OpenBracesOfGroup(s, at, k);
    SplitKeepsFewer("", inner, 0);
    forall p | p in Split("", inner, 0) ensures OpenBraces(prefix + Trim(p) + suffix) < OpenBraces(s) {
      PieceShrinks(prefix, p, inner, suffix);
    }
  }

  // ---- The code: loops over positions ----

  /** One step of the brace scan, with positions counted in the whole string. */
  lemma ClosingStep(s: string, i: nat, depth: int)
    requires i < |s|
    ensures Shift(ClosingBrace(s[i..], depth), i) ==
      if s[i] == '}' && depth == 1 then Some(i) else Shift(ClosingBrace(s[i + 1..], Deeper(s[i], depth)), i + 1)
  {
    var rest := s[i..];
    assert rest[0] == s[i] && rest[1..] == s[i + 1..];
  }

  /** `find_matching_brace`. */
  method FindMatchingBrace(s: string, start: nat) returns (r: Option<nat>)
    requires start < |s| && s[start] == '{'
    ensures r == Shift(ClosingBrace(s[start + 1..], 1), start + 1)
  {
    var depth := 0;
    ClosingStep(s, start, 0);
    for i := start to |s|
      invariant i > start ==> depth >= 1
      invariant i == start ==> depth == 0
      invariant Shift(ClosingBrace(s[start + 1..], 1), start + 1) == Shift(ClosingBrace(s[i..], depth), i)
    {
      ClosingStep(s, i, depth);
      if s[i] == '{' {
        depth := depth + 1;
      } else if s[i] == '}' {
        depth := depth - 1;
        if depth == 0 {
          return Some(i);
        }
      }
    }
    return None;
  }

  lemma SplitStep(s: string, start: nat, i: nat, depth: int)
    requires start <= i < |s|
    ensures Split(s[start..i], s[i..], depth) ==
      if s[i] == ',' && depth == 0 then [s[start..i]] + Split(s[i + 1..i + 1], s[i + 1..], depth)
      else Split(s[start..i + 1], s[i + 1..], Deeper(s[i], depth))
  {
    var open, rest := s[start..i], s[i..];
    assert rest[0] == s[i];
    assert rest[1..] == s[i + 1..];
    assert open + [rest[0]] == s[start..i + 1];
    assert s[i + 1..i + 1] == "";
  }

  /** `split_at_top_level_commas`. */
  method SplitAtTopLevelCommas(s: string) returns (parts: seq<string>)
    ensures parts == Split("", s, 0)
  {
    parts := [];
    var depth, start := 0, 0;
    assert s[0..0] == "" && s[0..] == s;
    for i := 0 to |s|
      invariant 0 <= start <= i
      invariant parts + Split(s[start..i], s[i..], depth) == Split("", s, 0)
    {
      SplitStep(s, start, i, depth);
      if s[i] == '{' {
        depth := depth + 1;
      } else if s[i] == '}' {
        depth := depth - 1;
      } else if s[i] == ',' && depth == 0 {
        Regroup3(parts, [s[start..i]], Split(s[i + 1..i + 1], s[i + 1..], depth));
        parts := parts + [s[start..i]];
        start := i + 1;
      }
    }
    assert s[|s|..] == "" && s[start..|s|] == s[start..];
    if start < |s| {
      parts := parts + [s[start..]];
    }
  }

  lemma PartsStep(prefix: string, parts: seq<string>, i: nat, suffix: string, bound: nat)
    requires forall p :: p in parts ==> OpenBraces(prefix + Trim(p) + suffix) < bound
    requires i < |parts|
    ensures OpenBraces(prefix + Trim(parts[i]) + suffix) < bound
    ensures ExpandParts(prefix, parts[i..], suffix, bound)
         == ExpandPart(prefix, Trim(parts[i]), suffix, bound) + ExpandParts(prefix, parts[i + 1..], suffix, bound)
  {
    assert parts[i] in parts;
    assert parts[i..][0] == parts[i] && parts[i..][1..] == parts[i + 1..];
  }

  /** `expand_use_group`. */
  method ExpandUseGroup(usePath: string) returns (result: seq<string>)
    ensures result == Expand(usePath)
    decreases OpenBraces(usePath), 1
  {
    var braceStart := Find(usePath, '{');
    if braceStart == |usePath| {
      return [usePath];
    }
    var braceEnd := FindMatchingBrace(usePath, braceStart);
    if braceEnd.None? {
      return [usePath];
    }
    ghost var g := Scan(usePath);
    GroupShrinks(usePath);
    var parts := SplitAtTopLevelCommas(usePath[braceStart + 1..braceEnd.value]);
    assert g == Grouped(usePath[..braceStart], parts, usePath[braceEnd.value + 1..]) by {
      SliceOfRest(usePath, braceStart + 1, braceEnd.value);
    }
    result := ExpandGroup(usePath[..braceStart], parts, usePath[braceEnd.value + 1..], OpenBraces(usePath));
  }

  lemma SliceOfRest(s: string, from: nat, at: nat)
    requires from <= at < |s|
    ensures s[from..][..at - from] == s[from..at] && s[from..][at - from + 1..] == s[at + 1..]
  {
  }

  /** The loop of `expand_use_group` over the pieces of the group. */
  method ExpandGroup(prefix: string, parts: seq<string>, suffix: string, ghost bound: nat)
    returns (result: seq<string>)
    requires forall p :: p in parts ==> OpenBraces(prefix + Trim(p) + suffix) < bound
    ensures result == ExpandParts(prefix, parts, suffix, bound)
    decreases bound, 0
  {
    hide OpenBraces, Trim, TrimColons, Expand;
    result := [];
    assert parts[0..] == parts;
    for i := 0 to |parts|
      invariant result + ExpandParts(prefix, parts[i..], suffix, bound) == ExpandParts(prefix, parts, suffix, bound)
    {
      PartsStep(prefix, parts, i, suffix, bound);
      var part := Trim(parts[i]);
      Regroup3(result, ExpandPart(prefix, part, suffix, bound), ExpandParts(prefix, parts[i + 1..], suffix, bound));
      if part == "" {
        continue;
      }
      if part == "self" {
        var mod := TrimColons(prefix);
        if mod != "" {
          result := result + [mod + suffix];
        }
        continue;
      }
      var expanded := ExpandUseGroup(prefix + part + suffix);
      result := result + expanded;
    }
  }

  // ---- Expanding a printed tree ----

  /** No character of these: plain text the scanners walk over. */
  predicate Plain(s: string) {
    forall i :: 0 <= i < |s| ==> s[i] !in {'{', '}', ','}
  }

  lemma {:induction false} ClosingOverPlain(p: string, post: string, depth: int)
    requires forall i :: 0 <= i < |p| ==> p[i] !in {'{', '}'}
    ensures ClosingBrace(p + post, depth) == Shift(ClosingBrace(post, depth), |p|)
  {
    if p == "" {
      assert p + post == post;
    } else {
      assert (p + post)[1..] == p[1..] + post;
      ClosingOverPlain(p[1..], post, depth);
    }
  }

  lemma {:induction false} SplitOverPlain(open: string, p: string, post: string, depth: int)
    requires forall i :: 0 <= i < |p| ==> p[i] !in {'{', '}'} && (p[i] == ',' ==> depth != 0)
    ensures Split(open, p + post, depth) == Split(open + p, post, depth)
    decreases |p|
  {
    if p == "" {
      assert p + post == post && open + p == open;
    } else {
      assert (p + post)[1..] == p[1..] + post;
      assert open + [p[0]] + p[1..] == open + p;
      SplitOverPlain(open + [p[0]], p[1..], post, depth);
    }
  }

  /** A printed tree is balanced: the brace scanner passes over it at any positive depth. */
  lemma {:induction false} ClosingOverTree(t: UseTree, post: string, depth: int)
    requires Valid(t) && depth >= 1
    ensures ClosingBrace(Print(t) + post, depth) == Shift(ClosingBrace(post, depth), |Print(t)|)
    decreases t, 1
  {
    match t
    case Path(i, t') =>
      Regroup3(i + "::", Print(t'), post);
      ClosingOverPlain(i + "::", Print(t') + post, depth);
      ClosingOverTree(t', post, depth);
    case Group(items) =>
      Regroup4("{", PrintItems(items, true), "}", post);
      ClosingOverItems(items, true, "}" + post, depth + 1);
      ClosingOverGroup(PrintItems(items, true), post, depth);
    case _ => ClosingOverPlain(Print(t), post, depth);
  }

  lemma ClosingOverGroup(inner: string, post: string, depth: int)
    requires depth >= 1
    requires ClosingBrace(inner + ("}" + post), depth + 1) == Shift(ClosingBrace("}" + post, depth + 1), |inner|)
    ensures ClosingBrace("{" + (inner + ("}" + post)), depth) == Shift(ClosingBrace(post, depth), |inner| + 2)
  {
    hide ClosingBrace;
    assert "{" == ['{'] && "}" == ['}'];
    ClosingOverChar('{', inner + ("}" + post), depth);
    ClosingOverChar('}', post, depth + 1);
  }

  lemma ClosingOverChar(c: char, rest: string, depth: int)
    ensures ClosingBrace([c] + rest, depth)
         == if c == '}' && depth == 1 then Some(0) else Shift(ClosingBrace(rest, Deeper(c, depth)), 1)
  {
    assert ([c] + rest)[1..] == rest;
  }

  lemma {:induction false} ClosingOverItems(items: seq<UseTree>, first: bool, post: string, depth: int)
    requires depth >= 1 && forall k :: 0 <= k < |items| ==> Valid(items[k])
    ensures ClosingBrace(PrintItems(items, first) + post, depth)
         == Shift(ClosingBrace(post, depth), |PrintItems(items, first)|)
    decreases items, 0
  {
    if items == [] {
      assert "" + post == post;
    } else {
      var comma, rest := if first then "" else ", ", PrintItems(items[1..], false);
      ClosingOverPlain(comma, Print(items[0]) + (rest + post), depth);
      ClosingOverTree(items[0], rest + post, depth);
      ClosingOverItems(items[1..], false, post, depth);
      ClosingChain(comma, Print(items[0]), rest, post, depth);
    }
  }

  lemma ClosingChain(a: string, b: string, c: string, post: string, depth: int)
    requires ClosingBrace(a + (b + (c + post)), depth) == Shift(ClosingBrace(b + (c + post), depth), |a|)
    requires ClosingBrace(b + (c + post), depth) == Shift(ClosingBrace(c + post, depth), |b|)
    requires ClosingBrace(c + post, depth) == Shift(ClosingBrace(post, depth), |c|)
    ensures ClosingBrace(a + b + c + post, depth) == Shift(ClosingBrace(post, depth), |a + b + c|)
  {
    Regroup4(a, b, c, post);
  }

  /** The comma splitter keeps a printed tree in one piece at any depth. */
  lemma {:induction false} SplitOverTree(open: string, t: UseTree, post: string, depth: int)
    requires Valid(t) && depth >= 0
    ensures Split(open, Print(t) + post, depth) == Split(open + Print(t), post, depth)
    decreases t, 1
  {
    match t
    case Path(i, t') =>
      Regroup3(i + "::", Print(t'), post);
      SplitOverPlain(open, i + "::", Print(t') + post, depth);
      SplitOverTree(open + (i + "::"), t', post, depth);
      Regroup3(open, i + "::", Print(t'));
    case Group(items) =>
      var inner := PrintItems(items, true);
      Regroup4("{", inner, "}", post);
      assert ("{" + (inner + ("}" + post)))[1..] == inner + ("}" + post) && ("}" + post)[1..] == post;
      SplitOverItems(open + "{", items, true, "}" + post, depth + 1);
      Regroup4(open, "{", inner, "}");
    case _ => SplitOverPlain(open, Print(t), post, depth);
  }

  lemma {:induction false} SplitOverItems(open: string, items: seq<UseTree>, first: bool, post: string, depth: int)
    requires depth >= 1 && forall k :: 0 <= k < |items| ==> Valid(items[k])
    ensures Split(open, PrintItems(items, first) + post, depth) == Split(open + PrintItems(items, first), post, depth)
    decreases items, 0
  {
    if items == [] {
      assert "" + post == post && open + "" == open;
    } else {
      var comma, tree, rest := if first then "" else ", ", Print(items[0]), PrintItems(items[1..], false);
      Regroup4(comma, tree, rest, post);
      SplitOverPlain(open, comma, tree + (rest + post), depth);
      SplitOverTree(open + comma, items[0], rest + post, depth);
      SplitOverItems(open + comma + tree, items[1..], false, post, depth);
      Regroup4(open, comma, tree, rest);
    }
  }

  /** The pieces of a printed group. */
  function Pieces(items: seq<UseTree>, first: bool): seq<string> {
    if items == [] then [] else [(if first then "" else " ") + Print(items[0])] + Pieces(items[1..], false)
  }

  lemma {:induction false} SplitGroup(items: seq<UseTree>, open: string)
    requires open != "" && forall k :: 0 <= k < |items| ==> Valid(items[k])
    ensures Split(open, PrintItems(items, false), 0) == [open] + Pieces(items, false)
    decreases items
  {
    if items != [] {
      var tree, rest := Print(items[0]), PrintItems(items[1..], false);
      Regroup3(", ", tree, rest);
      assert (", " + (tree + rest))[0] == ',' && (", " + (tree + rest))[1..] == " " + (tree + rest);
      SplitOverPlain("", " ", tree + rest, 0);
      SplitOverTree(" ", items[0], rest, 0);
      assert "" + " " == " ";
      SplitGroup(items[1..], " " + tree);
    }
  }

  lemma SplitPrinted(items: seq<UseTree>)
    requires forall k :: 0 <= k < |items| ==> Valid(items[k])
    ensures Split("", PrintItems(items, true), 0) == Pieces(items, true)
  {
    if items != [] {
      var tree, rest := Print(items[0]), PrintItems(items[1..], false);
      assert "" + tree + rest == tree + rest && "" + tree == tree;
      SplitOverTree("", items[0], rest, 0);
      PrintShape(items[0]);
      SplitGroup(items[1..], tree);
    }
  }

  lemma {:induction false} PrintShape(t: UseTree)
    requires Valid(t)
    ensures Print(t) != "" && Trimmed(Print(t))
    ensures Print(t) == "self" <==> t == Name("self")
    decreases t
  {
    match t
    case Path(i, t') =>
      PrintShape(t');
      assert Print(t)[|i|] == ':';
    case Rename(i, a) =>
      assert Print(t)[|i|] == ' ';
    case Group(items) => assert Print(t)[0] == '{';
    case _ =>
  }

  lemma {:induction false} PrefixIsPlain(segs: seq<string>)
    requires forall k :: 0 <= k < |segs| ==> IsIdent(segs[k])
    ensures Plain(Prefix(segs))
  {
    if segs != [] {
      PrefixIsPlain(segs[..|segs| - 1]);
    }
  }

  /** Trimming the separators off a module prefix leaves the module's own path. */
  lemma TrimColonsPrefix(segs: seq<string>)
    requires forall k :: 0 <= k < |segs| ==> IsIdent(segs[k])
    ensures TrimColons(Prefix(segs)) == if segs == [] then "" else Joined(segs)
    ensures segs != [] ==> Joined(segs) != ""
  {
    if segs != [] {
      JoinedEnds(segs);
      TrimColonsOnce(Joined(segs));
    }
  }

  lemma JoinedEnds(segs: seq<string>)
    requires segs != [] && forall k :: 0 <= k < |segs| ==> IsIdent(segs[k])
    ensures Joined(segs) != "" && Joined(segs)[|Joined(segs)| - 1] != ':'
    ensures Prefix(segs) == Joined(segs) + "::"
  {
    var last := segs[|segs| - 1];
    assert IsIdent(last);
    assert Joined(segs)[|Joined(segs)| - 1] == last[|last| - 1];
  }

  lemma TrimColonsOnce(path: string)
    requires path != "" && path[|path| - 1] != ':'
    ensures TrimColons(path + "::") == path
  {
    var s := path + "::";
    assert s[|s| - 2..] == "::" && s[..|s| - 2] == path;
    if |path| >= 2 {
      assert path[|path| - 2..][1] == path[|path| - 1];
    }
  }

  lemma {:induction false} PrependAppend(segs: seq<string>, a: seq<seq<string>>, b: seq<seq<string>>)
    ensures Prepend(segs, a + b) == Prepend(segs, a) + Prepend(segs, b)
  {
    if a == [] {
      assert a + b == b;
    } else {
      assert (a + b)[1..] == a[1..] + b;
      PrependAppend(segs, a[1..], b);
    }
  }

  lemma {:induction false} PrependTwice(segs: seq<string>, more: seq<string>, a: seq<seq<string>>)
    ensures Prepend(segs, Prepend(more, a)) == Prepend(segs + more, a)
  {
    if a != [] {
      Regroup3(segs, more, a[0]);
      PrependTwice(segs, more, a[1..]);
    }
  }

  lemma {:induction false} LeavesTextAppend(a: seq<seq<string>>, b: seq<seq<string>>)
    ensures LeavesText(a + b) == LeavesText(a) + LeavesText(b)
  {
    if a == [] {
      assert a + b == b;
    } else {
      assert (a + b)[1..] == a[1..] + b;
      LeavesTextAppend(a[1..], b);
    }
  }

  lemma ExpandLeaf(segs: seq<string>, leaf: string)
    requires Plain(leaf) && forall k :: 0 <= k < |segs| ==> IsIdent(segs[k])
    ensures Expand(Prefix(segs) + leaf) == LeavesText(Prepend(segs, [[leaf]]))
  {
    PrefixIsPlain(segs);
    var s := Prefix(segs) + leaf;
    assert forall i :: 0 <= i < |s| ==> s[i] != '{';
    assert Expand(s) == [s] by { hide Prefix; }
    hide Expand, Scan;
    var path := segs + [leaf];
    assert path[..|path| - 1] == segs;
    assert Prepend(segs, [[leaf]]) == [path];
    assert LeavesText([path]) == [Joined(path)];
  }

  lemma PrefixBelow(segs: seq<string>, i: string, rest: string)
    ensures Prefix(segs) + (i + "::" + rest) == Prefix(segs + [i]) + rest
  {
    var below := segs + [i];
    assert below[..|below| - 1] == segs;
    Regroup3(Prefix(segs), i + "::", rest);
    Regroup3(Prefix(segs), i, "::");
  }

  /** Expanding a printed tree behind a module prefix yields the text of the tree's leaves below that
      module, in order. */
  lemma {:induction false} ExpandPrintedBelow(segs: seq<string>, t: UseTree)
    requires Valid(t) && forall k :: 0 <= k < |segs| ==> IsIdent(segs[k])
    ensures Expand(Prefix(segs) + Print(t)) == LeavesText(Prepend(segs, Leaves(t)))
    decreases t, 1
  {
    match t
    case Path(i, t') =>
      PrefixBelow(segs, i, Print(t'));
      ExpandPrintedBelow(segs + [i], t');
      PrependTwice(segs, [i], Leaves(t'));
    case Name(i) => ExpandLeaf(segs, i);
    case Rename(i, a) => ExpandLeaf(segs, i + " as " + a);
    case Glob => ExpandLeaf(segs, "*");
    case Group(items) =>
      var bound := ExpandPrintedGroup(segs, items);
      ExpandPieces(segs, items, true, bound);
  }

  lemma BracedPieces(prefix: string, inner: string)
    ensures var s, after := prefix + ("{" + inner + "}"), inner + "}";
      && s == prefix + ['{'] + after && s[..|prefix|] == prefix && s[|prefix| + 1..] == after
      && after[..|inner|] == inner && after[|inner| + 1..] == ""
  {
  }

  /** The scanner finds the closing brace of a printed group. */
  lemma ClosingPrinted(items: seq<UseTree>)
    requires forall k :: 0 <= k < |items| ==> Valid(items[k])
    ensures ClosingBrace(PrintItems(items, true) + "}", 1) == Some(|PrintItems(items, true)|)
  {
    ClosingOverItems(items, true, "}", 1);
    ClosingOverChar('}', "", 1);
  }

  /** Expanding a printed group is expanding its printed items one by one. */
  lemma ExpandPrintedGroup(segs: seq<string>, items: seq<UseTree>) returns (bound: nat)
    requires forall k :: 0 <= k < |segs| ==> IsIdent(segs[k])
    requires forall k :: 0 <= k < |items| ==> Valid(items[k])
    ensures forall p :: p in Pieces(items, true) ==> OpenBraces(Prefix(segs) + Trim(p) + "") < bound
    ensures Expand(Prefix(segs) + Print(Group(items))) == ExpandParts(Prefix(segs), Pieces(items, true), "", bound)
  {
    hide Prefix, PrintItems, Expand, ExpandParts, OpenBraces;
    var prefix, inner := Prefix(segs), PrintItems(items, true);
    var s := prefix + ("{" + inner + "}");
    PrefixIsPlain(segs);
    BracedPieces(prefix, inner);
    FindAfter(prefix, '{', inner + "}");
    ClosingPrinted(items);
    SplitPrinted(items);
    assert Scan(s) == Grouped(prefix, Pieces(items, true), "");
    hide Scan, ClosingBrace;
    GroupShrinks(s);
    bound := OpenBraces(s);
    ExpandGrouped(s);
  }

  lemma ExpandGrouped(s: string)
    requires Scan(s).Grouped?
    ensures var g := Scan(s);
      && (forall p :: p in g.parts ==> OpenBraces(g.prefix + Trim(p) + g.suffix) < OpenBraces(s))
      && Expand(s) == ExpandParts(g.prefix, g.parts, g.suffix, OpenBraces(s))
  {
    hide Scan, OpenBraces, ExpandParts;
    GroupShrinks(s);
  }

  lemma {:induction false} ExpandPieces(segs: seq<string>, items: seq<UseTree>, first: bool, bound: nat)
    requires forall k :: 0 <= k < |segs| ==> IsIdent(segs[k])
    requires forall k :: 0 <= k < |items| ==> Valid(items[k])
    requires forall p :: p in Pieces(items, first) ==> OpenBraces(Prefix(segs) + Trim(p) + "") < bound
    ensures ExpandParts(Prefix(segs), Pieces(items, first), "", bound) == LeavesText(Prepend(segs, GroupLeaves(items)))
    decreases items, 0
  {
    if items != [] {
      var item, pieces := items[0], Pieces(items, first);
      PieceTrims(item, first);
      assert pieces[0] in pieces;
      assert pieces[1..] == Pieces(items[1..], false);
      ExpandPieces(segs, items[1..], false, bound);
      var head := if item == Name("self") then [[]] else Leaves(item);
      assert ExpandPart(Prefix(segs), Print(item), "", bound) == LeavesText(Prepend(segs, head)) by {
        PrintShape(item);
        if item == Name("self") {
          ExpandSelf(segs, bound);
        } else {
          assert Prefix(segs) + Print(item) + "" == Prefix(segs) + Print(item);
          ExpandPrintedBelow(segs, item);
        }
      }
      PrependAppend(segs, head, GroupLeaves(items[1..]));
      LeavesTextAppend(Prepend(segs, head), Prepend(segs, GroupLeaves(items[1..])));
    }
  }

  lemma PieceTrims(t: UseTree, first: bool)
    requires Valid(t)
    ensures Trim((if first then "" else " ") + Print(t)) == Print(t)
  {
    PrintShape(t);
    TrimTrimmed(Print(t));
    assert "" + Print(t) == Print(t);
  }

  /** `self` in a group is the module the group hangs off. */
  lemma ExpandSelf(segs: seq<string>, bound: nat)
    requires forall k :: 0 <= k < |segs| ==> IsIdent(segs[k])
    requires OpenBraces(Prefix(segs) + "self" + "") < bound
    ensures ExpandPart(Prefix(segs), "self", "", bound) == LeavesText(Prepend(segs, [[]]))
  {
    TrimColonsPrefix(segs);
    assert segs + [] == segs;
    assert Prepend(segs, [[]]) == [segs];
    assert LeavesText([segs]) == if segs == [] then [] else [Joined(segs)];
    assert TrimColons(Prefix(segs)) + "" == TrimColons(Prefix(segs));
  }

  // ---- Leaves against imports ----

  /** The leaf says what the import is. */
  predicate Says(leaf: seq<string>, m: Import) {
    match m.alias
    case None => leaf == m.path
    case Some(a) => m.path != [] && leaf == m.path[..|m.path| - 1] + [m.path[|m.path| - 1] + " as " + a]
  }

  /** The leaf takes a renamed `self` for a member of the module. */
  predicate Misses(leaf: seq<string>, m: Import) {
    m.alias.Some? && leaf == m.path + ["self as " + m.alias.value]
  }

  /** Leaves and imports pair up, and `missed` says whether some leaf misses its import. */
  predicate Paired(leaves: seq<seq<string>>, imports: seq<Import>, missed: bool) {
    if leaves == [] || imports == [] then leaves == [] && imports == [] && !missed
    else if Misses(leaves[0], imports[0]) then missed && exists m :: Paired(leaves[1..], imports[1..], m)
    else Says(leaves[0], imports[0]) && Paired(leaves[1..], imports[1..], missed)
  }

  lemma {:induction false} PairedBelow(segs: seq<string>, leaves: seq<seq<string>>, imports: seq<Import>, missed: bool)
    requires Paired(leaves, imports, missed)
    ensures Paired(Prepend(segs, leaves), Below(segs, imports), missed)
  {
    if leaves != [] {
      var leaf, m := leaves[0], imports[0];
      assert Prepend(segs, leaves)[1..] == Prepend(segs, leaves[1..]);
      assert Below(segs, imports)[1..] == Below(segs, imports[1..]);
      if Misses(leaf, m) {
        var rest :| Paired(leaves[1..], imports[1..], rest);
        PairedBelow(segs, leaves[1..], imports[1..], rest);
        Regroup3(segs, m.path, ["self as " + m.alias.value]);
      } else {
        PairedBelow(segs, leaves[1..], imports[1..], missed);
        SaysBelow(segs, leaf, m);
        OneOrOther(segs + leaf, Import(segs + m.path, m.alias));
      }
    }
  }

  lemma SaysBelow(segs: seq<string>, leaf: seq<string>, m: Import)
    requires Says(leaf, m)
    ensures Says(segs + leaf, Import(segs + m.path, m.alias))
  {
    if m.alias.Some? {
      assert (segs + m.path)[..|segs + m.path| - 1] == segs + m.path[..|m.path| - 1];
      Regroup3(segs, m.path[..|m.path| - 1], [m.path[|m.path| - 1] + " as " + m.alias.value]);
    }
  }

  lemma OneOrOther(leaf: seq<string>, m: Import)
    ensures !(Says(leaf, m) && Misses(leaf, m))
  {
  }

  lemma {:induction false} PairedAppend(a: seq<seq<string>>, b: seq<seq<string>>, m: seq<Import>, n: seq<Import>,
                                        left: bool, right: bool)
    requires Paired(a, m, left) && Paired(b, n, right)
    ensures Paired(a + b, m + n, left || right)
  {
    if a == [] {
      assert a + b == b && m + n == n;
    } else {
      assert (a + b)[1..] == a[1..] + b && (m + n)[1..] == m[1..] + n;
      if Misses(a[0], m[0]) {
        var rest :| Paired(a[1..], m[1..], rest);
        PairedAppend(a[1..], b, m[1..], n, rest, right);
      } else {
        PairedAppend(a[1..], b, m[1..], n, left, right);
      }
    }
  }

  /** A leaf misses its import exactly where a group renames `self`. */
  lemma {:induction false} LeavesPaired(t: UseTree)
    ensures Paired(Leaves(t), Paths(t), RenamesSelf(t))
    decreases t, 1
  {
    match t
    case Path(i, t') =>
      LeavesPaired(t');
      PairedBelow([i], Leaves(t'), Paths(t'), RenamesSelf(t'));
    case Rename(i, a) =>
      assert [i][..0] == [] && [] + [i + " as " + a] == [i + " as " + a];
    case Group(items) => GroupPaired(items);
    case _ =>
  }

  lemma {:induction false} GroupPaired(items: seq<UseTree>)
    ensures Paired(GroupLeaves(items), GroupPaths(items), GroupRenamesSelf(items))
    decreases items, 0
  {
    if items != [] {
      var item := items[0];
      GroupPaired(items[1..]);
      if item == Name("self") {
        PairedAppend([[]], GroupLeaves(items[1..]), [Import([], None)], GroupPaths(items[1..]), false,
                     GroupRenamesSelf(items[1..]));
      } else if item.Rename? && item.ident == "self" {
        var text := "self" + " as " + item.alias;
        assert text == "self as " + item.alias && [] + [text] == [text];
        assert [[text]][1..] == [] && [Import([], Some(item.alias))][1..] == [] && Paired([], [], false);
        assert Paired([[text]], [Import([], Some(item.alias))], true);
        PairedAppend([[text]], GroupLeaves(items[1..]), [Import([], Some(item.alias))], GroupPaths(items[1..]), true,
                     GroupRenamesSelf(items[1..]));
      } else {
        LeavesPaired(item);
        PairedAppend(Leaves(item), GroupLeaves(items[1..]), Paths(item), GroupPaths(items[1..]), RenamesSelf(item),
                     GroupRenamesSelf(items[1..]));
      }
    }
  }

  lemma SaysSameText(leaf: seq<string>, m: Import)
    requires Says(leaf, m)
    ensures leaf == [] <==> m.path == []
    ensures leaf != [] ==> Joined(leaf) == ImportText(m)
  {
    if m.alias.Some? {
      var before, last, a := m.path[..|m.path| - 1], m.path[|m.path| - 1], m.alias.value;
      assert leaf[..|leaf| - 1] == before;
      Regroup3(Prefix(before), last, " as " + a);
      Regroup3(last, " as ", a);
    } else {
      assert leaf != [] ==> ImportText(m) == Joined(leaf);
    }
  }

  /** A module under another name is not a member of it. */
  lemma MissesOtherText(leaf: seq<string>, m: Import)
    requires Misses(leaf, m)
    ensures leaf != [] && (m.path != [] ==> Joined(leaf) != ImportText(m))
  {
    if m.path != [] {
      var a, p := m.alias.value, m.path;
      assert leaf[..|leaf| - 1] == p;
      assert Prefix(p) == Joined(p) + "::";
      assert |Joined(leaf)| == |Joined(p)| + 2 + 8 + |a|;
      assert |ImportText(m)| == |Joined(p)| + 4 + |a|;
    }
  }

  lemma {:induction false} NoMoreImports(leaves: seq<seq<string>>, imports: seq<Import>, missed: bool)
    requires Paired(leaves, imports, missed)
    ensures |Render(imports)| <= |LeavesText(leaves)|
  {
    if leaves != [] {
      if Misses(leaves[0], imports[0]) {
        var rest :| Paired(leaves[1..], imports[1..], rest);
        NoMoreImports(leaves[1..], imports[1..], rest);
      } else {
        NoMoreImports(leaves[1..], imports[1..], missed);
        SaysSameText(leaves[0], imports[0]);
      }
    }
  }

  /** The texts are equal exactly when no leaf misses its import. */
  lemma {:induction false} SameTextIff(leaves: seq<seq<string>>, imports: seq<Import>, missed: bool)
    requires Paired(leaves, imports, missed)
    ensures LeavesText(leaves) == Render(imports) <==> !missed
  {
    if leaves != [] {
      var leaf, m := leaves[0], imports[0];
      var x, y := LeavesText(leaves[1..]), Render(imports[1..]);
      if Misses(leaf, m) {
        var rest :| Paired(leaves[1..], imports[1..], rest);
        NoMoreImports(leaves[1..], imports[1..], rest);
        MissesOtherText(leaf, m);
        assert LeavesText(leaves)[0] == Joined(leaf);
      } else {
        SameTextIff(leaves[1..], imports[1..], missed);
        SaysSameText(leaf, m);
        if leaf == [] {
          assert LeavesText(leaves) == x && Render(imports) == y;
        } else {
          assert LeavesText(leaves)[1..] == x && Render(imports)[1..] == y;
        }
      }
    }
  }

  /** Main result, in context: expanding a printed tree behind a module yields exactly the tree's
      imports below that module, in order, if and only if no group of the tree renames `self`. */
  lemma ExpandPrintedBelowIff(segs: seq<string>, t: UseTree)
    requires Valid(t) && forall k :: 0 <= k < |segs| ==> IsIdent(segs[k])
    ensures Expand(Prefix(segs) + Print(t)) == Render(Below(segs, Paths(t))) <==> !RenamesSelf(t)
  {
    ExpandPrintedBelow(segs, t);
    LeavesPaired(t);
    PairedBelow(segs, Leaves(t), Paths(t), RenamesSelf(t));
    SameTextIff(Prepend(segs, Leaves(t)), Below(segs, Paths(t)), RenamesSelf(t));
  }

  /** Main result: expanding the printed tree yields exactly its imports, in order, if and only if no
      group of the tree renames `self`. */
  lemma ExpandUndoesPrintIff(t: UseTree)
    requires Valid(t)
    ensures Expand(Print(t)) == Render(Paths(t)) <==> !RenamesSelf(t)
  {
    ExpandPrintedBelow([], t);
    assert "" + Print(t) == Print(t);
    PrependNothing(Leaves(t));
    LeavesPaired(t);
    SameTextIff(Leaves(t), Paths(t), RenamesSelf(t));
  }

  /** A renamed `self` in a group: the module under another name comes out as a member named `self`. */
  lemma RenamedSelfIsMissed(root: string, alias: string, name: string)
    requires IsIdent(root) && IsIdent(alias) && IsIdent(name) && name != "self"
    ensures var t := Path(root, Group([Rename("self", alias), Name(name)]));
      && Expand(Print(t)) == [root + "::" + ("self" + " as " + alias), root + "::" + name]
      && Render(Paths(t)) == [root + " as " + alias, root + "::" + name]
  {
    var t := Path(root, Group([Rename("self", alias), Name(name)]));
    assert Valid(t) by {
      assert IsIdent("self") && Valid(Rename("self", alias)) && Valid(Name(name));
      assert Valid(Group([Rename("self", alias), Name(name)]));
    }
    RenamedAndNamed(root, alias, name);
    hide Leaves, Paths, Valid, Expand, Print, Render, LeavesText, Prepend, IsIdent;
    ExpandPrintedBelow([], t);
    assert Prefix([]) + Print(t) == Print(t);
    PrependNothing(Leaves(t));
    TwoTexts(root, "self" + " as " + alias, name);
    TwoImports(root, alias, name);
  }

  lemma ParserIdents()
    ensures IsIdent("rustpython_parser") && IsIdent("parser") && IsIdent("ast")
  {
  }

  lemma ParserTexts()
    ensures "rustpython_parser" + "::" + ("self" + " as " + "parser") == "rustpython_parser::self as parser"
    ensures "rustpython_parser" + " as " + "parser" == "rustpython_parser as parser"
    ensures "rustpython_parser" + "::" + "ast" == "rustpython_parser::ast"
  {
  }

  /** The input of crates/yeomna-code/src/python.rs:11. */
  lemma ParserImportIsMissed()
    ensures var t := Path("rustpython_parser", Group([Rename("self", "parser"), Name("ast")]));
      && Expand(Print(t)) == ["rustpython_parser::self as parser", "rustpython_parser::ast"]
      && Render(Paths(t)) == ["rustpython_parser as parser", "rustpython_parser::ast"]
  {
    hide IsIdent, Expand, Print, Render, Paths;
    ParserIdents();
    RenamedSelfIsMissed("rustpython_parser", "parser", "ast");
    ParserTexts();
  }

  lemma RenamedAndNamed(root: string, alias: string, name: string)
    requires name != "self"
    ensures var t := Path(root, Group([Rename("self", alias), Name(name)]));
      && Leaves(t) == [[root, "self" + " as " + alias], [root, name]]
      && Paths(t) == [Import([root], Some(alias)), Import([root, name], None)]
  {
    var last, items := [Name(name)], [Rename("self", alias), Name(name)];
    assert items[1..] == last && last[1..] == [];
    assert last[0] == Name(name) != Name("self") && Paths(last[0]) == [Import([name], None)];
    assert GroupLeaves(last) == [[name]] + [];
    assert GroupPaths(last) == Paths(last[0]) + GroupPaths(last[1..]) == [Import([name], None)] + [];
    var leaves, imports := [["self" + " as " + alias], [name]], [Import([], Some(alias)), Import([name], None)];
    assert GroupLeaves(items) == [["self" + " as " + alias]] + [[name]] == leaves;
    assert GroupPaths(items) == [Import([], Some(alias))] + [Import([name], None)] == imports;
    assert leaves[1..] == [[name]] && imports[1..] == [Import([name], None)];
    assert [[name]][1..] == [] && [Import([name], None)][1..] == [];
    assert Prepend([root], [[name]]) == [[root] + [name]] + [];
    assert Below([root], [Import([name], None)]) == [Import([root] + [name], None)] + [];
    assert Prepend([root], leaves) == [[root] + leaves[0]] + Prepend([root], [[name]]);
    assert Below([root], imports) == [Import([root] + [], Some(alias))] + Below([root], [Import([name], None)]);
    assert [root] + [] == [root];
    assert [root] + [name] == [root, name] && [root] + leaves[0] == [root, leaves[0][0]];
    var group := Group(items);
    assert Leaves(group) == leaves && Paths(group) == imports;
    assert Leaves(Path(root, group)) == Prepend([root], leaves) == [[root, leaves[0][0]], [root, name]];
    assert Paths(Path(root, group)) == Below([root], imports);
  }

  lemma TwoTexts(root: string, a: string, b: string)
    ensures LeavesText([[root, a], [root, b]]) == [root + "::" + a, root + "::" + b]
  {
    assert [root, a][..1] == [root] && [root, b][..1] == [root] && [root][..0] == [];
    assert Prefix([root]) == root + "::";
    assert [[root, a], [root, b]][1..] == [[root, b]] && [[root, b]][1..] == [];
    assert LeavesText([[root, b]]) == [root + "::" + b] + LeavesText([]);
  }

  lemma TwoImports(root: string, alias: string, b: string)
    ensures Render([Import([root], Some(alias)), Import([root, b], None)]) == [root + " as " + alias, root + "::" + b]
  {
    assert [root, b][..1] == [root] && [root][..0] == [];
    assert Joined([root]) == root && Joined([root, b]) == root + "::" + b;
    var first, second := Import([root], Some(alias)), Import([root, b], None);
    assert ImportText(first) == root + " as " + alias by { Regroup3(root, " as ", alias); }
    assert ImportText(second) == root + "::" + b;
    assert [Import([root], Some(alias)), second][1..] == [second] && [second][1..] == [];
    assert Render([second]) == [root + "::" + b] + Render([]);
    assert Render([first, second]) == [ImportText(first)] + Render([second]);
  }

  lemma {:induction false} PrependNothing(a: seq<seq<string>>)
    ensures Prepend([], a) == a
  {
    if a != [] {
      assert [] + a[0] == a[0];
      PrependNothing(a[1..]);
    }
  }
}
