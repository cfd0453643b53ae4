/** Symbols of crates/yeomna-code/src/symbols.rs and the keys of crates/yeomna-keys/src/lib.rs.
    SHA-256 is a parameter: `Hash8` is its first eight hex digits. */
module Symbols {
  import opened Json
  import opened Utf8
  import opened Shapes

  datatype SymbolKind =
    | Function | Class | Struct | Enum | Trait | Import | Constant | Variable | TypeAlias | Macro | Impl | Module

  datatype Symbol = Symbol(name: string, kind: SymbolKind, startLine: nat, endLine: nat, metadata: Value)

  /** `universal_kind`. */
  function UniversalKind(kind: SymbolKind): Option<string> {
    match kind
    case Function | Macro => Some("callable")
    case Struct | Enum | Trait | Class | TypeAlias => Some("type")
    case Constant | Variable => Some("value")
    case Module => Some("module")
    case Import | Impl => None
  }

  /** A metadata member that is a non-empty string. */
  function Context(s: Symbol, key: string): Option<string> {
    match GetStr(s.metadata, key)
    case Some(v) => if v != "" then Some(v) else None
    case None => None
  }

  /** `qualified_name`. */
  function QualifiedName(s: Symbol): string {
    if Context(s, "qualified_name").Some? then Context(s, "qualified_name").value
    else if Context(s, "impl_context").Some? then Context(s, "impl_context").value + "::" + s.name
    else if Context(s, "parent_symbol").Some? then Context(s, "parent_symbol").value + "." + s.name
    else if Context(s, "module_path").Some? then Context(s, "module_path").value + "::" + s.name
    else s.name
  }

  // ---- Keys ----

  /** The digest of a qualified name, its line and, when it is too long, the file key. */
  type Hash8 = (string, nat, Option<string>) -> string

  ghost predicate IsHex(hash: Hash8) {
    forall name, line, over, i :: 0 <= i < |hash(name, line, over)| ==>
      IsDigit(hash(name, line, over)[i]) || 'a' <= hash(name, line, over)[i] <= 'f'
  }

  /** `file_key`. */
  function FileKey(path: string): (k: string)
    ensures '/' !in k && '.' !in k
  {
    if path == "" then ""
    else [if path[0] == '/' || path[0] == '.' then '_' else path[0]] + FileKey(path[1..])
  }

  predicate IsKept(c: char) {
    IsLower(c) || IsDigit(c) || 'A' <= c <= 'Z' || c in {'_', '-', '.', '@', '+', '=', ';', '$', '!', '*', '%'}
  }

  /** The readable part of a symbol key: a colon is not kept, so `::` is two underscores too. */
  function Readable(name: string): (r: string)
    ensures '/' !in r
  {
    if name == "" then "" else [if IsKept(name[0]) then name[0] else '_'] + Readable(name[1..])
  }

  /** The longest prefix of whole characters within a number of bytes. */
  function CutTo(s: string, budget: nat): (r: string)
    ensures r <= s
  {
    if |Encode(s)| <= budget then s else CutTo(s[..|s| - 1], budget)
  }

  const MAX_KEY_LEN := 254
  const OVERHEAD := 12

  /** `symbol_key`. */
  function SymbolKey(hash: Hash8, fileKey: string, name: string, line: nat): string {
    var overlong := |Encode(fileKey)| > MAX_KEY_LEN - OVERHEAD;
    var fk := if overlong then CutTo(fileKey, MAX_KEY_LEN - OVERHEAD) else fileKey;
    var room := if |Encode(fk)| + OVERHEAD < MAX_KEY_LEN then MAX_KEY_LEN - OVERHEAD - |Encode(fk)| else 0;
    var readable := Readable(name);
    fk + "__" + (if room < |readable| then readable[..room] else readable) + "__"
    + hash(name, line, if overlong then Some(fileKey) else None)
  }

  /** Neither kind of key holds a slash. */
  lemma SymbolKeyNoSlash(hash: Hash8, fileKey: string, name: string, line: nat)
    requires IsHex(hash) && '/' !in fileKey
    ensures '/' !in SymbolKey(hash, fileKey, name, line)
  {
    hide Encode;
    var over := if |Encode(fileKey)| > MAX_KEY_LEN - OVERHEAD then Some(fileKey) else None;
    forall i | 0 <= i < |hash(name, line, over)| ensures hash(name, line, over)[i] != '/' { }
    assert '/' !in hash(name, line, over);
  }

  // ---- The cap and the hash ----

  /** Digests of eight characters. */
  ghost predicate IsHash8(hash: Hash8) {
    IsHex(hash) && forall name, line, over :: |hash(name, line, over)| == 8
  }

  predicate IsAscii(s: string) {
    forall i :: 0 <= i < |s| ==> s[i] as int < 0x80
  }

  lemma {:induction false} AsciiBytes(s: string)
    requires IsAscii(s)
    ensures |Encode(s)| == |s|
  {
    if s != "" {
      AsciiBytes(s[1..]);
    }
  }

  lemma {:induction false} ReadableIsAscii(name: string)
    ensures IsAscii(Readable(name))
  {
    if name != "" {
      ReadableIsAscii(name[1..]);
    }
  }

  lemma {:induction false} CutToFits(s: string, budget: nat)
    ensures |Encode(CutTo(s, budget))| <= budget
  {
    if |Encode(s)| > budget {
      CutToFits(s[..|s| - 1], budget);
    }
  }

  /** The file key as it stands in a symbol key. */
  function FileKeyPart(fileKey: string): string {
    if |Encode(fileKey)| > MAX_KEY_LEN - OVERHEAD then CutTo(fileKey, MAX_KEY_LEN - OVERHEAD) else fileKey
  }

  /** What the key is made of: the readable part fills the room the file key leaves. */
  lemma SymbolKeyParts(hash: Hash8, fileKey: string, name: string, line: nat) returns (readable: string, digest: string)
    ensures SymbolKey(hash, fileKey, name, line) == FileKeyPart(fileKey) + "__" + readable + "__" + digest
    ensures digest == hash(name, line, if |Encode(fileKey)| > 242 then Some(fileKey) else None)
    ensures readable <= Readable(name) && |readable| + |Encode(FileKeyPart(fileKey))| <= 242
    ensures |Readable(name)| + |Encode(FileKeyPart(fileKey))| <= 242 ==> readable == Readable(name)
  {
    hide Encode, Readable;
    CutToFits(fileKey, MAX_KEY_LEN - OVERHEAD);
    var fk, all := FileKeyPart(fileKey), Readable(name);
    var room := if |Encode(fk)| + OVERHEAD < MAX_KEY_LEN then MAX_KEY_LEN - OVERHEAD - |Encode(fk)| else 0;
    readable := if room < |all| then all[..room] else all;
    digest := hash(name, line, if |Encode(fileKey)| > MAX_KEY_LEN - OVERHEAD then Some(fileKey) else None);
  }

  /** Main result: whatever the file and the name, a symbol key is at most 254 bytes. */
  lemma SymbolKeyWithinCap(hash: Hash8, fileKey: string, name: string, line: nat)
    requires IsHash8(hash)
    ensures |Encode(SymbolKey(hash, fileKey, name, line))| <= 254
  {
    var readable, digest := SymbolKeyParts(hash, fileKey, name, line);
    ReadableIsAscii(name);
    DigestIsAscii(hash, name, line, if |Encode(fileKey)| > 242 then Some(fileKey) else None);
    hide SymbolKey, Encode, FileKeyPart, Readable, IsHash8;
    KeyBytes(FileKeyPart(fileKey), readable, digest);
  }

  lemma DigestIsAscii(hash: Hash8, name: string, line: nat, over: Option<string>)
    requires IsHash8(hash)
    ensures IsAscii(hash(name, line, over)) && |hash(name, line, over)| == 8
  {
    var digest := hash(name, line, over);
    forall i | 0 <= i < |digest| ensures digest[i] as int < 0x80 {
      assert IsDigit(digest[i]) || 'a' <= digest[i] <= 'f';
    }
  }

  lemma KeyBytes(fk: string, readable: string, digest: string)
    requires IsAscii(readable) && IsAscii(digest)
    ensures |Encode(fk + "__" + readable + "__" + digest)| == |Encode(fk)| + |readable| + |digest| + 4
  {
    hide Encode;
    var tail := "__" + readable + "__" + digest;
    AsciiBytes(tail);
    EncodeAppend(fk, tail);
    assert fk + tail == fk + "__" + readable + "__" + digest;
  }

  /** Main result: two symbols share a key only if their digests collide; of the name, the line and an
      overlong file key nothing else tells them apart. */
  lemma SameKeySameDigest(hash: Hash8, f: string, name: string, line: nat, f': string, name': string, line': nat)
    requires IsHash8(hash) && SymbolKey(hash, f, name, line) == SymbolKey(hash, f', name', line')
    ensures hash(name, line, if |Encode(f)| > 242 then Some(f) else None)
         == hash(name', line', if |Encode(f')| > 242 then Some(f') else None)
  {
    var readable, digest := SymbolKeyParts(hash, f, name, line);
    var readable', digest' := SymbolKeyParts(hash, f', name', line');
    hide SymbolKey, Encode, FileKeyPart, Readable;
    var key := SymbolKey(hash, f, name, line);
    assert key[|key| - 8..] == digest && key[|key| - 8..] == digest';
  }
}
