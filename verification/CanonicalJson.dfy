/** crates/yeomna-code/src/canonical_json.rs: the encoding whose bytes feed digests, and the C++
    digest input of crates/yeomna-code/src/cpp.rs built on it. */
module CanonicalJson {
  import opened Json
  import opened Seqs
  import opened Utf8

  // ---- Text of a value, members in the order they are stored ----

  function Digit(d: nat): char
    requires d < 10
  {
    ('0' as int + d) as char
  }

  function Digits(n: nat): string {
    if n < 10 then [Digit(n)] else Digits(n / 10) + [Digit(n % 10)]
  }

  function Decimal(n: int): string {
    if n < 0 then "-" + Digits(-n) else Digits(n)
  }

  function HexDigit(d: nat): char
    requires d < 16
  {
    if d < 10 then Digit(d) else ('a' as int + d - 10) as char
  }

  /** One character of a string, escaped as serde_json does (section 7 of RFC 8259). */
  function EscapeChar(c: char): string {
    if c == '"' then "\\\""
    else if c == '\\' then "\\\\"
    else if c as int == 8 then "\\b"
    else if c as int == 9 then "\\t"
    else if c as int == 10 then "\\n"
    else if c as int == 12 then "\\f"
    else if c as int == 13 then "\\r"
    else if (c as int) < 0x20 then "\\u00" + [HexDigit(c as int / 16), HexDigit(c as int % 16)]
    else [c]
  }

  function Escape(s: string): string {
    if s == "" then "" else EscapeChar(s[0]) + Escape(s[1..])
  }

  function Quoted(s: string): string {
    "\"" + Escape(s) + "\""
  }

  function Text(v: Value): string
    decreases v, 1
  {
    match v
    case Null => "null"
    case Bool(b) => if b then "true" else "false"
    case Num(Integer(n)) => Decimal(n)
    case Num(Float(t)) => t
    case String(s) => Quoted(s)
    case Array(items) => "[" + ItemsText(items, true) + "]"
    case Object(fields) => "{" + FieldsText(fields, true) + "}"
  }

  /** `first` is whether no comma precedes the first item. */
  function ItemsText(items: seq<Value>, first: bool): string
    decreases items, 0
  {
    if items == [] then ""
    else (if first then "" else ",") + Text(items[0]) + ItemsText(items[1..], false)
  }

  function FieldsText(fields: seq<Field>, first: bool): string
    decreases fields, 0
  {
    if fields == [] then ""
    else
      (if first then "" else ",") + Quoted(fields[0].key) + ":" + Text(fields[0].value)
      + FieldsText(fields[1..], false)
  }

  // ---- Sorting the members by key ----

  /** Strings compared code point by code point, which is how UTF-8 bytes compare too. */
  predicate Less(a: string, b: string) {
    b != "" && (a == "" || a[0] < b[0] || (a[0] == b[0] && Less(a[1..], b[1..])))
  }

  function Insert(f: Field, sorted: seq<Field>): seq<Field> {
    if sorted == [] || Less(f.key, sorted[0].key) then [f] + sorted
    else [sorted[0]] + Insert(f, sorted[1..])
  }

  function Sort(fields: seq<Field>): seq<Field> {
    if fields == [] then [] else Insert(fields[0], Sort(fields[1..]))
  }

  /** The value with the members of every object sorted by key. */
  function Canonical(v: Value): Value
    decreases v, 1
  {
    match v
    case Array(items) => Array(CanonicalItems(items))
    case Object(fields) => Object(Sort(CanonicalFields(fields)))
    case _ => v
  }

  function CanonicalItems(items: seq<Value>): (r: seq<Value>)
    ensures |r| == |items|
    ensures forall i :: 0 <= i < |items| ==> r[i] == Canonical(items[i])
    decreases items, 0
  {
    if items == [] then [] else [Canonical(items[0])] + CanonicalItems(items[1..])
  }

  function CanonicalFields(fields: seq<Field>): (r: seq<Field>)
    ensures |r| == |fields|
    ensures forall i :: 0 <= i < |fields| ==> r[i] == Field(fields[i].key, Canonical(fields[i].value))
    decreases fields, 0
  {
    if fields == [] then []
    else [Field(fields[0].key, Canonical(fields[0].value))] + CanonicalFields(fields[1..])
  }

  /** What the encoder writes. */
  function CanonicalBytes(v: Value): seq<Byte> {
    Encode(Text(Canonical(v)))
  }

  // ---- Erasing members, and agreement up to order and erasure ----

  /** The value without the members named in `ignored`, at every depth. */
  function Erase(v: Value, ignored: set<string>): Value
    decreases v, 1
  {
    match v
    case Array(items) => Array(EraseItems(items, ignored))
    case Object(fields) => Object(EraseFields(fields, ignored))
    case _ => v
  }

  function EraseItems(items: seq<Value>, ignored: set<string>): (r: seq<Value>)
    ensures |r| == |items|
    ensures forall i :: 0 <= i < |items| ==> r[i] == Erase(items[i], ignored)
    decreases items, 0
  {
    if items == [] then [] else [Erase(items[0], ignored)] + EraseItems(items[1..], ignored)
  }

  function EraseFields(fields: seq<Field>, ignored: set<string>): seq<Field>
    decreases fields, 0
  {
    if fields == [] then []
    else if fields[0].key in ignored then EraseFields(fields[1..], ignored)
    else [Field(fields[0].key, Erase(fields[0].value, ignored))] + EraseFields(fields[1..], ignored)
  }

  /** The two values are equal when the order of object members, and the members named in
      `ignored`, do not count at any depth. Stated without sorting or erasing anything. */
  predicate Agree(v: Value, w: Value, ignored: set<string>)
    decreases v
  {
    match (v, w)
    case (Array(xs), Array(ys)) => ItemsMatched(xs, ys, ignored)
    case (Object(fs), Object(gs)) => LeftMatched(fs, gs, ignored) && RightMatched(fs, gs, ignored)
    case _ => v == w
  }

  predicate ItemsMatched(xs: seq<Value>, ys: seq<Value>, ignored: set<string>)
    decreases xs
  {
    |xs| == |ys| && forall i :: 0 <= i < |xs| ==> Agree(xs[i], ys[i], ignored)
  }

  /** Every member of the left object that counts has its match on the right. */
  predicate LeftMatched(fs: seq<Field>, gs: seq<Field>, ignored: set<string>)
    decreases fs
  {
    forall i :: 0 <= i < |fs| && fs[i].key !in ignored ==>
      exists j :: 0 <= j < |gs| && fs[i].key == gs[j].key && Agree(fs[i].value, gs[j].value, ignored)
  }

  predicate RightMatched(fs: seq<Field>, gs: seq<Field>, ignored: set<string>)
    decreases fs
  {
    forall j :: 0 <= j < |gs| && gs[j].key !in ignored ==>
      exists i :: 0 <= i < |fs| && fs[i].key == gs[j].key && Agree(fs[i].value, gs[j].value, ignored)
  }

  predicate EqualUpToOrder(v: Value, w: Value) {
    Agree(v, w, {})
  }

  // ---- The text determines the value ----

  function DigitsValue(s: string): nat
    requires forall i :: 0 <= i < |s| ==> '0' <= s[i] <= '9'
  {
    if s == "" then 0 else 10 * DigitsValue(s[..|s| - 1]) + (s[|s| - 1] as int - '0' as int)
  }

  lemma {:induction false} DigitsInverse(n: nat)
    ensures Digits(n) != ""
    ensures forall i :: 0 <= i < |Digits(n)| ==> '0' <= Digits(n)[i] <= '9'
    ensures DigitsValue(Digits(n)) == n
  {
    if n < 10 {
      assert Digits(n)[..0] == "";
    } else {
      DigitsInverse(n / 10);
      var s := Digits(n);
      assert s[..|s| - 1] == Digits(n / 10);
    }
  }

  lemma DecimalInjective(n: int, m: int)
    requires Decimal(n) == Decimal(m)
    ensures n == m
  {
    var (p, q) := (if n < 0 then -n else n, if m < 0 then -m else m);
    DigitsInverse(p);
    DigitsInverse(q);
    assert Decimal(n)[0] == Decimal(m)[0];
    if n < 0 {
      assert Decimal(n)[1..] == Digits(p) && Decimal(m)[1..] == Digits(q);
    }
  }

  function NumberText(x: Number): string {
    match x
    case Integer(n) => Decimal(n)
    case Float(t) => t
  }

  lemma NumberTextShape(x: Number)
    ensures NumberText(x) != ""
    ensures NumberText(x)[0] == '-' || '0' <= NumberText(x)[0] <= '9'
    ensures forall i :: 0 <= i < |NumberText(x)| ==> IsNumberChar(NumberText(x)[i])
    ensures ('.' in NumberText(x) || 'e' in NumberText(x)) <==> x.Float?
  {
    if x.Integer? {
      DigitsInverse(if x.n < 0 then -x.n else x.n);
    }
  }

  /** What may follow a value: nothing, or a character no number contains. */
  predicate Delimited(rest: string) {
    rest == "" || rest[0] in {',', ']', '}'}
  }

  lemma NextChar(a: string, b: string, r: string, t: string)
    requires a + r == b + t && |a| < |b|
    ensures r != "" && r[0] == b[|a|]
  {
    assert (a + r)[|a|] == (b + t)[|a|];
  }

  lemma NumberSelfDelimiting(x: Number, y: Number, r: string, t: string)
    requires Delimited(r) && Delimited(t)
    requires NumberText(x) + r == NumberText(y) + t
    ensures x == y && r == t
  {
    var a, b := NumberText(x), NumberText(y);
    NumberTextShape(x);
    NumberTextShape(y);
    if |a| < |b| {
      NextChar(a, b, r, t);
      assert false;
    } else if |b| < |a| {
      NextChar(b, a, t, r);
      assert false;
    }
    assert a == (a + r)[..|a|] == (b + t)[..|b|] == b;
    CancelPrefix(a, r, t);
    if x.Integer? {
      DecimalInjective(x.n, y.n);
    }
  }

  lemma EscapeCharInjective(c: char, d: char, r: string, t: string)
    requires EscapeChar(c) + r == EscapeChar(d) + t
    ensures c == d && r == t
  {
    var x, y := EscapeChar(c), EscapeChar(d);
    assert (x + r)[0] == x[0] == y[0];
    if |x| > 1 {
      assert (x + r)[1] == x[1] == y[1];
      if |x| == 6 {
        assert (x + r)[4] == x[4] == y[4];
        assert (x + r)[5] == x[5] == y[5];
      }
    }
    assert c == d;
    assert r == (x + r)[|x|..] == (y + t)[|y|..] == t;
  }

  lemma {:induction false} EscapeSelfDelimiting(s: string, u: string, r: string, t: string)
    requires Escape(s) + "\"" + r == Escape(u) + "\"" + t
    ensures s == u && r == t
  {
    var left, right := Escape(s) + "\"" + r, Escape(u) + "\"" + t;
    if s == "" || u == "" {
      assert left[0] == right[0];
      assert r == left[1..] && t == right[1..];
    } else {
      var r', t' := Escape(s[1..]) + "\"" + r, Escape(u[1..]) + "\"" + t;
      Regroup4(EscapeChar(s[0]), Escape(s[1..]), "\"", r);
      Regroup4(EscapeChar(u[0]), Escape(u[1..]), "\"", t);
      Regroup3(Escape(s[1..]), "\"", r);
      Regroup3(Escape(u[1..]), "\"", t);
      EscapeCharInjective(s[0], u[0], r', t');
      EscapeSelfDelimiting(s[1..], u[1..], r, t);
    }
  }

  lemma QuotedSelfDelimiting(s: string, u: string, r: string, t: string)
    requires Quoted(s) + r == Quoted(u) + t
    ensures s == u && r == t
  {
    Regroup4("\"", Escape(s), "\"", r);
    Regroup4("\"", Escape(u), "\"", t);
    CancelPrefix("\"", Escape(s) + ("\"" + r), Escape(u) + ("\"" + t));
    Regroup3(Escape(s), "\"", r);
    Regroup3(Escape(u), "\"", t);
    EscapeSelfDelimiting(s, u, r, t);
  }

  /** The first character tells the kinds of value apart. */
  function Kind(v: Value): nat {
    match v
    case Null => 0 case Bool(b) => if b then 1 else 2 case Num(_) => 3
    case String(_) => 4 case Array(_) => 5 case Object(_) => 6
  }

  function KindOfChar(c: char): nat {
    if c == 'n' then 0 else if c == 't' then 1 else if c == 'f' then 2
    else if c == '\"' then 4 else if c == '[' then 5 else if c == '{' then 6 else 3
  }

  lemma TextKind(v: Value)
    ensures Text(v) != "" && Kind(v) == KindOfChar(Text(v)[0])
    ensures Text(v)[0] !in {',', ']', '}', ':'}
  {
    if v.Num? {
      NumberTextShape(v.num);
    }
  }

  lemma ItemsUnfold(xs: seq<Value>, first: bool, rest: string)
    requires xs != []
    ensures ItemsText(xs, first) + rest
         == (if first then "" else ",") + (Text(xs[0]) + (ItemsText(xs[1..], false) + rest))
    ensures (ItemsText(xs, first) + rest)[0] != ']'
  {
    TextKind(xs[0]);
    Regroup4(if first then "" else ",", Text(xs[0]), ItemsText(xs[1..], false), rest);
  }

  lemma FieldsUnfold(fs: seq<Field>, first: bool, rest: string)
    requires fs != []
    ensures FieldsText(fs, first) + rest
         == (if first then "" else ",")
            + (Quoted(fs[0].key) + (":" + (Text(fs[0].value) + (FieldsText(fs[1..], false) + rest))))
    ensures (FieldsText(fs, first) + rest)[0] != '}'
  {
    var comma, key, text := if first then "" else ",", Quoted(fs[0].key), Text(fs[0].value);
    Regroup4(comma + key + ":", text, FieldsText(fs[1..], false), rest);
    Regroup4(comma, key, ":", text + (FieldsText(fs[1..], false) + rest));
  }

  /** What follows an item or a member inside its container. */
  lemma TailDelimited(xs: seq<Value>, fs: seq<Field>, rest: string)
    requires rest != "" && rest[0] in {']', '}'}
    ensures Delimited(ItemsText(xs, false) + rest) && Delimited(FieldsText(fs, false) + rest)
  {
    if xs != [] { ItemsUnfold(xs, false, rest); }
    if fs != [] { FieldsUnfold(fs, false, rest); }
  }

  /** The self-delimiting lemma: a value's text, followed by anything that may follow a value,
      determines both the value and what follows. */
  lemma {:induction false} TextSelfDelimiting(v: Value, w: Value, r: string, t: string)
    requires Delimited(r) && Delimited(t)
    requires Text(v) + r == Text(w) + t
    ensures v == w && r == t
    decreases v, 1
  {
    TextKind(v);
    TextKind(w);
    assert (Text(v) + r)[0] == Text(v)[0] && (Text(w) + t)[0] == Text(w)[0];
    assert Kind(v) == Kind(w);
    match v
    case Num(x) => NumberSelfDelimiting(x, w.num, r, t);
    case String(s) => QuotedSelfDelimiting(s, w.s, r, t);
    case Array(xs) => ArraySelfDelimiting(xs, w.items, r, t);
    case Object(fs) => ObjectSelfDelimiting(fs, w.fields, r, t);
    case _ => CancelPrefix(Text(v), r, t);
  }

  lemma {:induction false} ArraySelfDelimiting(xs: seq<Value>, ys: seq<Value>, r: string, t: string)
    requires Text(Array(xs)) + r == Text(Array(ys)) + t
    ensures xs == ys && r == t
    decreases xs, 1
  {
    Regroup4("[", ItemsText(xs, true), "]", r);
    Regroup4("[", ItemsText(ys, true), "]", t);
    CancelPrefix("[", ItemsText(xs, true) + ("]" + r), ItemsText(ys, true) + ("]" + t));
    ItemsSelfDelimiting(xs, ys, true, r, t);
  }

  lemma {:induction false} ObjectSelfDelimiting(fs: seq<Field>, gs: seq<Field>, r: string, t: string)
    requires Text(Object(fs)) + r == Text(Object(gs)) + t
    ensures fs == gs && r == t
    decreases fs, 1
  {
    Regroup4("{", FieldsText(fs, true), "}", r);
    Regroup4("{", FieldsText(gs, true), "}", t);
    CancelPrefix("{", FieldsText(fs, true) + ("}" + r), FieldsText(gs, true) + ("}" + t));
    FieldsSelfDelimiting(fs, gs, true, r, t);
  }

  lemma {:induction false} ItemsSelfDelimiting(xs: seq<Value>, ys: seq<Value>, first: bool, r: string, t: string)
    requires ItemsText(xs, first) + ("]" + r) == ItemsText(ys, first) + ("]" + t)
    ensures xs == ys && r == t
    decreases xs, 0
  {
    assert "" + ("]" + r) == "]" + r && "" + ("]" + t) == "]" + t;
    if xs != [] { ItemsUnfold(xs, first, "]" + r); }
    if ys != [] { ItemsUnfold(ys, first, "]" + t); }
    if xs == [] && ys == [] {
      CancelPrefix("]", r, t);
    } else if xs != [] && ys != [] {
      var r', t' := ItemsText(xs[1..], false) + ("]" + r), ItemsText(ys[1..], false) + ("]" + t);
      CancelPrefix(if first then "" else ",", Text(xs[0]) + r', Text(ys[0]) + t');
      TailDelimited(xs[1..], [], "]" + r);
      TailDelimited(ys[1..], [], "]" + t);
      TextSelfDelimiting(xs[0], ys[0], r', t');
      ItemsSelfDelimiting(xs[1..], ys[1..], false, r, t);
    }
  }

  lemma {:induction false} FieldsSelfDelimiting(fs: seq<Field>, gs: seq<Field>, first: bool, r: string, t: string)
    requires FieldsText(fs, first) + ("}" + r) == FieldsText(gs, first) + ("}" + t)
    ensures fs == gs && r == t
    decreases fs, 0
  {
    assert "" + ("}" + r) == "}" + r && "" + ("}" + t) == "}" + t;
    if fs != [] { FieldsUnfold(fs, first, "}" + r); }
    if gs != [] { FieldsUnfold(gs, first, "}" + t); }
    if fs == [] && gs == [] {
      CancelPrefix("}", r, t);
    } else if fs != [] && gs != [] {
      var r', t' := FieldsText(fs[1..], false) + ("}" + r), FieldsText(gs[1..], false) + ("}" + t);
      var a, b := Text(fs[0].value) + r', Text(gs[0].value) + t';
      CancelPrefix(if first then "" else ",", Quoted(fs[0].key) + (":" + a), Quoted(gs[0].key) + (":" + b));
      QuotedSelfDelimiting(fs[0].key, gs[0].key, ":" + a, ":" + b);
      CancelPrefix(":", a, b);
      TailDelimited([], fs[1..], "}" + r);
      TailDelimited([], gs[1..], "}" + t);
      TextSelfDelimiting(fs[0].value, gs[0].value, r', t');
      FieldsSelfDelimiting(fs[1..], gs[1..], false, r, t);
    }
  }

  // ---- Sorting by key is order-insensitive ----

  lemma LessIsTotal(a: string, b: string)
    ensures Less(a, b) || a == b || Less(b, a)
    ensures !(Less(a, b) && Less(b, a)) && !Less(a, a)
  {
    if a != "" && b != "" && a[0] == b[0] {
      LessIsTotal(a[1..], b[1..]);
    }
  }

  lemma LessIsTransitive(a: string, b: string, c: string)
    requires Less(a, b) && Less(b, c)
    ensures Less(a, c)
  {
    if a != "" && a[0] == b[0] == c[0] {
      LessIsTransitive(a[1..], b[1..], c[1..]);
    }
  }

  ghost predicate StrictlySorted(fields: seq<Field>) {
    forall i, j :: 0 <= i < j < |fields| ==> Less(fields[i].key, fields[j].key)
  }

  ghost predicate SameElements(fs: seq<Field>, gs: seq<Field>) {
    forall f :: f in fs <==> f in gs
  }

  lemma {:induction false} InsertSorted(f: Field, sorted: seq<Field>)
    requires StrictlySorted(sorted) && forall g :: g in sorted ==> g.key != f.key
    ensures StrictlySorted(Insert(f, sorted))
    ensures forall g :: g in Insert(f, sorted) <==> g == f || g in sorted
    ensures |Insert(f, sorted)| == |sorted| + 1
  {
    if sorted == [] {
    } else if Less(f.key, sorted[0].key) {
      forall j | 0 <= j < |sorted| ensures Less(f.key, sorted[j].key) {
        if j > 0 { LessIsTransitive(f.key, sorted[0].key, sorted[j].key); }
      }
    } else {
      var rest := sorted[1..];
      InsertSorted(f, rest);
      LessIsTotal(f.key, sorted[0].key);
      var ins := Insert(f, rest);
      forall j | 0 <= j < |ins| ensures Less(sorted[0].key, ins[j].key) {
        assert ins[j] in ins;
      }
    }
  }

  lemma {:induction false} SortSorts(fields: seq<Field>)
    requires DistinctKeys(fields)
    ensures StrictlySorted(Sort(fields)) && SameElements(Sort(fields), fields)
    ensures |Sort(fields)| == |fields|
  {
    if fields != [] {
      SortSorts(fields[1..]);
      forall g | g in Sort(fields[1..]) ensures g.key != fields[0].key {
        assert g in fields[1..];
      }
      InsertSorted(fields[0], Sort(fields[1..]));
    }
  }

  lemma {:induction false} SortedUnique(fs: seq<Field>, gs: seq<Field>)
    requires StrictlySorted(fs) && StrictlySorted(gs) && SameElements(fs, gs)
    ensures fs == gs
  {
    if fs != [] { assert fs[0] in gs; }
    if gs != [] { assert gs[0] in fs; }
    if fs != [] {
      LessIsTotal(fs[0].key, gs[0].key);
      assert fs[0] == gs[0];
      var f, fs', gs' := fs[0], fs[1..], gs[1..];
      LessIsTotal(f.key, f.key);
      assert f !in fs' && f !in gs';
      assert fs == [f] + fs' && gs == [f] + gs';
      forall g ensures g in fs' <==> g in gs' {
        assert g in fs' ==> g in fs && g != f;
        assert g in gs' ==> g in gs && g != f;
      }
      SortedUnique(fs', gs');
    }
  }

  lemma SortSame(fs: seq<Field>, gs: seq<Field>)
    requires DistinctKeys(fs) && DistinctKeys(gs)
    ensures Sort(fs) == Sort(gs) <==> SameElements(fs, gs)
  {
    SortSorts(fs);
    SortSorts(gs);
    if SameElements(fs, gs) {
      SortedUnique(Sort(fs), Sort(gs));
    }
  }

  // ---- Canonical forms agree exactly when the values do ----

  lemma {:induction false} EraseFieldsElements(fields: seq<Field>, ignored: set<string>)
    ensures forall i :: 0 <= i < |fields| && fields[i].key !in ignored ==>
      Field(fields[i].key, Erase(fields[i].value, ignored)) in EraseFields(fields, ignored)
    ensures forall f :: f in EraseFields(fields, ignored) ==>
      exists i :: 0 <= i < |fields| && fields[i].key !in ignored
               && f == Field(fields[i].key, Erase(fields[i].value, ignored))
  {
    if fields != [] {
      var rest := fields[1..];
      EraseFieldsElements(rest, ignored);
      forall i | 0 <= i < |fields| && fields[i].key !in ignored
        ensures Field(fields[i].key, Erase(fields[i].value, ignored)) in EraseFields(fields, ignored)
      {
        if i > 0 { assert fields[i] == rest[i - 1]; }
      }
      forall f | f in EraseFields(fields, ignored)
        ensures exists i :: 0 <= i < |fields| && fields[i].key !in ignored
                         && f == Field(fields[i].key, Erase(fields[i].value, ignored))
      {
        if f in EraseFields(rest, ignored) {
          var i :| 0 <= i < |rest| && rest[i].key !in ignored && f == Field(rest[i].key, Erase(rest[i].value, ignored));
          assert fields[i + 1] == rest[i];
        }
      }
    }
  }

  lemma {:induction false} EraseFieldsDistinct(fields: seq<Field>, ignored: set<string>)
    requires DistinctKeys(fields)
    ensures DistinctKeys(EraseFields(fields, ignored))
  {
    if fields != [] {
      EraseFieldsDistinct(fields[1..], ignored);
      EraseFieldsElements(fields[1..], ignored);
      var r := EraseFields(fields[1..], ignored);
      forall k | 0 <= k < |r| ensures r[k].key != fields[0].key {
        assert r[k] in r;
      }
    }
  }

  /** What a member becomes in a canonical, erased object. */
  function Member(f: Field, ignored: set<string>): Field {
    Field(f.key, Canonical(Erase(f.value, ignored)))
  }

  function Members(fields: seq<Field>, ignored: set<string>): seq<Field> {
    CanonicalFields(EraseFields(fields, ignored))
  }

  /** The members that a canonical, erased object holds. */
  lemma ErasedElements(fields: seq<Field>, ignored: set<string>)
    ensures forall i :: 0 <= i < |fields| && fields[i].key !in ignored ==>
      Member(fields[i], ignored) in Members(fields, ignored)
    ensures forall f :: f in Members(fields, ignored) ==>
      exists i :: 0 <= i < |fields| && fields[i].key !in ignored && f == Member(fields[i], ignored)
    ensures DistinctKeys(fields) ==> DistinctKeys(Members(fields, ignored))
  {
    EraseFieldsElements(fields, ignored);
    if DistinctKeys(fields) { EraseFieldsDistinct(fields, ignored); }
    var e, r := EraseFields(fields, ignored), Members(fields, ignored);
    forall i | 0 <= i < |fields| && fields[i].key !in ignored ensures Member(fields[i], ignored) in r {
      var k :| 0 <= k < |e| && e[k] == Field(fields[i].key, Erase(fields[i].value, ignored));
      assert r[k] == Member(fields[i], ignored);
    }
    forall f | f in r
      ensures exists i :: 0 <= i < |fields| && fields[i].key !in ignored && f == Member(fields[i], ignored)
    {
      var k :| 0 <= k < |r| && r[k] == f;
      assert e[k] in e;
      var i :| 0 <= i < |fields| && fields[i].key !in ignored
        && e[k] == Field(fields[i].key, Erase(fields[i].value, ignored));
      assert f == Member(fields[i], ignored);
    }
  }

  lemma ItemsIffAgree(xs: seq<Value>, ys: seq<Value>, ignored: set<string>)
    requires forall i :: 0 <= i < |xs| && i < |ys| ==>
      (Canonical(Erase(xs[i], ignored)) == Canonical(Erase(ys[i], ignored)) <==> Agree(xs[i], ys[i], ignored))
    ensures CanonicalItems(EraseItems(xs, ignored)) == CanonicalItems(EraseItems(ys, ignored))
       <==> ItemsMatched(xs, ys, ignored)
  {
    var a, b := CanonicalItems(EraseItems(xs, ignored)), CanonicalItems(EraseItems(ys, ignored));
    assert |a| == |xs| && |b| == |ys|;
    assert forall i :: 0 <= i < |xs| ==> a[i] == Canonical(Erase(xs[i], ignored));
    assert forall i :: 0 <= i < |ys| ==> b[i] == Canonical(Erase(ys[i], ignored));
    assert a == b <==> |a| == |b| && forall i :: 0 <= i < |xs| ==> a[i] == b[i];
  }

  lemma {:induction false} CanonicalIffAgree(v: Value, w: Value, ignored: set<string>)
    requires WellFormed(v) && WellFormed(w)
    ensures Canonical(Erase(v, ignored)) == Canonical(Erase(w, ignored)) <==> Agree(v, w, ignored)
    decreases v
  {
    match (v, w)
    case (Array(xs), Array(ys)) =>
      forall i | 0 <= i < |xs| && i < |ys|
        ensures Canonical(Erase(xs[i], ignored)) == Canonical(Erase(ys[i], ignored)) <==> Agree(xs[i], ys[i], ignored)
      {
        CanonicalIffAgree(xs[i], ys[i], ignored);
      }
      ItemsIffAgree(xs, ys, ignored);
    case (Object(fs), Object(gs)) =>
      forall i, j | 0 <= i < |fs| && 0 <= j < |gs|
        ensures Member(fs[i], ignored) == Member(gs[j], ignored)
           <==> fs[i].key == gs[j].key && Agree(fs[i].value, gs[j].value, ignored)
      {
        CanonicalIffAgree(fs[i].value, gs[j].value, ignored);
      }
      ObjectsIffAgree(fs, gs, ignored);
    case _ =>
  }

  predicate Covered(fs: seq<Field>, gs: seq<Field>, ignored: set<string>) {
    forall i :: 0 <= i < |fs| && fs[i].key !in ignored ==>
      exists j :: 0 <= j < |gs| && Member(fs[i], ignored) == Member(gs[j], ignored)
  }

  lemma ElementsWithin(fs: seq<Field>, gs: seq<Field>, ignored: set<string>)
    ensures (forall f :: f in Members(fs, ignored) ==> f in Members(gs, ignored)) <==> Covered(fs, gs, ignored)
  {
    ErasedElements(fs, ignored);
    ErasedElements(gs, ignored);
    if Covered(fs, gs, ignored) {
      forall f | f in Members(fs, ignored) ensures f in Members(gs, ignored) {
        var i :| 0 <= i < |fs| && fs[i].key !in ignored && f == Member(fs[i], ignored);
        var j :| 0 <= j < |gs| && Member(fs[i], ignored) == Member(gs[j], ignored);
        assert gs[j].key == fs[i].key;
      }
    }
  }

  lemma ObjectsIffAgree(fs: seq<Field>, gs: seq<Field>, ignored: set<string>)
    requires DistinctKeys(fs) && DistinctKeys(gs)
    requires forall i, j :: 0 <= i < |fs| && 0 <= j < |gs| ==>
      (Member(fs[i], ignored) == Member(gs[j], ignored)
       <==> fs[i].key == gs[j].key && Agree(fs[i].value, gs[j].value, ignored))
    ensures Sort(Members(fs, ignored)) == Sort(Members(gs, ignored)) <==> Agree(Object(fs), Object(gs), ignored)
  {
    assert DistinctKeys(Members(fs, ignored)) && DistinctKeys(Members(gs, ignored)) by {
      ErasedElements(fs, ignored);
      ErasedElements(gs, ignored);
    }
    SortSame(Members(fs, ignored), Members(gs, ignored));
    ElementsWithin(fs, gs, ignored);
    ElementsWithin(gs, fs, ignored);
    MatchedIffCovered(fs, gs, ignored);
  }

  lemma MatchedIffCovered(fs: seq<Field>, gs: seq<Field>, ignored: set<string>)
    requires forall i, j :: 0 <= i < |fs| && 0 <= j < |gs| ==>
      (Member(fs[i], ignored) == Member(gs[j], ignored)
       <==> fs[i].key == gs[j].key && Agree(fs[i].value, gs[j].value, ignored))
    ensures LeftMatched(fs, gs, ignored) <==> Covered(fs, gs, ignored)
    ensures RightMatched(fs, gs, ignored) <==> Covered(gs, fs, ignored)
  {
  }

  lemma {:induction false} EraseNothing(v: Value)
    ensures Erase(v, {}) == v
    decreases v, 1
  {
    match v
    case Array(items) =>
      forall i | 0 <= i < |items| ensures Erase(items[i], {}) == items[i] { EraseNothing(items[i]); }
      assert EraseItems(items, {}) == items;
    case Object(fields) => EraseNoFields(fields);
    case _ =>
  }

  lemma {:induction false} EraseNoFields(fields: seq<Field>)
    ensures EraseFields(fields, {}) == fields
    decreases fields, 0
  {
    if fields != [] {
      EraseNothing(fields[0].value);
      EraseNoFields(fields[1..]);
    }
  }

  /** Bytes are equal exactly when the canonical values are. */
  lemma BytesInjective(v: Value, w: Value)
    ensures CanonicalBytes(v) == CanonicalBytes(w) <==> Canonical(v) == Canonical(w)
  {
    if CanonicalBytes(v) == CanonicalBytes(w) {
      EncodeInjective(Text(Canonical(v)), Text(Canonical(w)));
      assert Text(Canonical(v)) + "" == Text(Canonical(w)) + "";
      TextSelfDelimiting(Canonical(v), Canonical(w), "", "");
    }
  }

  /** Main result: two values get the same bytes exactly when they are equal up to the order of
      object members at every depth. */
  lemma SameBytesIffEqualUpToOrder(v: Value, w: Value)
    requires WellFormed(v) && WellFormed(w)
    ensures CanonicalBytes(v) == CanonicalBytes(w) <==> EqualUpToOrder(v, w)
  {
    BytesInjective(v, w);
    EraseNothing(v);
    EraseNothing(w);
    CanonicalIffAgree(v, w, {});
  }

  // ---- The encoder, which appends to a shared byte vector ----

  /** `Vec<u8>`; `text` is the string whose encoding it holds. */
  class ByteVec {
    var data: seq<Byte>
    ghost var text: string

    ghost predicate Valid()
      reads this
    {
      data == Encode(text)
    }

    constructor ()
      ensures Valid() && text == ""
    {
      data, text := [], "";
    }

    method Push(c: char)
      requires Valid() && (c as int) < 0x80
      modifies this
      ensures Valid() && text == old(text) + [c]
    {
      EncodeCharShape(c);
      assert Encode([c]) == EncodeChar(c) + Encode("");
      EncodeAppend(text, [c]);
      data, text := data + [c as int], text + [c];
    }

    /** Append the UTF-8 of a string. */
    method Extend(s: string)
      requires Valid()
      modifies this
      ensures Valid() && text == old(text) + s
    {
      EncodeAppend(text, s);
      data, text := data + Encode(s), text + s;
    }
  }

  lemma {:induction false} ItemsTextSnoc(items: seq<Value>, v: Value, first: bool)
    ensures ItemsText(items + [v], first)
         == ItemsText(items, first) + (if first && items == [] then "" else ",") + Text(v)
  {
    if items == [] {
      assert items + [v] == [v];
      assert ItemsText([v], first) == (if first then "" else ",") + Text(v) + "";
    } else {
      assert (items + [v])[1..] == items[1..] + [v];
      ItemsTextSnoc(items[1..], v, false);
    }
  }

  lemma {:induction false} FieldsTextSnoc(fields: seq<Field>, f: Field, first: bool)
    ensures FieldsText(fields + [f], first)
         == FieldsText(fields, first) + (if first && fields == [] then "" else ",")
            + Quoted(f.key) + ":" + Text(f.value)
  {
    if fields == [] {
      assert fields + [f] == [f];
      assert FieldsText([f], first) == (if first then "" else ",") + Quoted(f.key) + ":" + Text(f.value) + "";
    } else {
      assert (fields + [f])[1..] == fields[1..] + [f];
      FieldsTextSnoc(fields[1..], f, false);
      var head := (if first then "" else ",") + Quoted(fields[0].key) + ":" + Text(fields[0].value);
      var tail := FieldsText(fields[1..], false);
      Regroup4(head, tail + "," + Quoted(f.key), ":", Text(f.value));
      Regroup4(head, tail, ",", Quoted(f.key));
    }
  }

  /** What one turn of each writing loop adds to the text. */
  lemma ItemsStep(start: string, items: seq<Value>, i: nat)
    requires i < |items|
    ensures start + ItemsText(items[..i], true) + (if i > 0 then "," else "") + Text(items[i])
         == start + ItemsText(items[..i + 1], true)
  {
    var before, comma := ItemsText(items[..i], true), if i > 0 then "," else "";
    ItemsTextSnoc(items[..i], items[i], true);
    assert items[..i + 1] == items[..i] + [items[i]];
    Regroup4(start, before, comma, Text(items[i]));
  }

  lemma FieldsStep(start: string, fields: seq<Field>, i: nat)
    requires i < |fields|
    ensures start + FieldsText(fields[..i], true) + (if i > 0 then "," else "")
            + Quoted(fields[i].key) + ":" + Text(fields[i].value)
         == start + FieldsText(fields[..i + 1], true)
  {
    var before, comma, key := FieldsText(fields[..i], true), if i > 0 then "," else "", Quoted(fields[i].key);
    FieldsTextSnoc(fields[..i], fields[i], true);
    assert fields[..i + 1] == fields[..i] + [fields[i]];
    Regroup4(start, before + comma + key, ":", Text(fields[i].value));
    Regroup4(start, before, comma, key);
  }

  function Keys(fields: seq<Field>): seq<string> {
    seq(|fields|, i requires 0 <= i < |fields| => fields[i].key)
  }

  lemma {:induction false} InsertCommutes(f: Field, sorted: seq<Field>)
    ensures Insert(Field(f.key, Canonical(f.value)), CanonicalFields(sorted)) == CanonicalFields(Insert(f, sorted))
  {
    var g := Field(f.key, Canonical(f.value));
    if sorted == [] {
    } else if Less(f.key, sorted[0].key) {
      assert CanonicalFields([f] + sorted) == [g] + CanonicalFields(sorted);
    } else {
      InsertCommutes(f, sorted[1..]);
      assert CanonicalFields(sorted)[1..] == CanonicalFields(sorted[1..]);
      var s := [sorted[0]] + Insert(f, sorted[1..]);
      assert CanonicalFields(s)[1..] == CanonicalFields(s[1..]);
    }
  }

  /** Sorting looks at keys only, so sorting before or after canonicalising members is the same. */
  lemma {:induction false} SortCommutes(fields: seq<Field>)
    ensures Sort(CanonicalFields(fields)) == CanonicalFields(Sort(fields))
  {
    if fields != [] {
      assert CanonicalFields(fields)[1..] == CanonicalFields(fields[1..]);
      SortCommutes(fields[1..]);
      InsertCommutes(fields[0], Sort(fields[1..]));
    }
  }

  /** `write_value`. */
  method WriteValue(value: Value, output: ByteVec)
    requires output.Valid() && WellFormed(value)
    modifies output
    ensures output.Valid() && output.text == old(output.text) + Text(Canonical(value))
    decreases value, 1
  {
    match value
    case Array(values) => WriteArray(values, output);
    case Object(fields) => WriteObject(fields, output);
    case scalar => output.Extend(Text(scalar));
  }

  method WriteArray(values: seq<Value>, output: ByteVec)
    requires output.Valid() && forall i :: 0 <= i < |values| ==> WellFormed(values[i])
    modifies output
    ensures output.Valid() && output.text == old(output.text) + Text(Canonical(Array(values)))
    decreases values, 0
  {
    ghost var start, canon := output.text + "[", CanonicalItems(values);
    output.Push('[');
    assert output.text == start + ItemsText(canon[..0], true);
    for index := 0 to |values|
      invariant output.Valid() && output.text == start + ItemsText(canon[..index], true)
    {
      if index > 0 {
        output.Push(',');
      }
      assert output.text == start + ItemsText(canon[..index], true) + if index > 0 then "," else "";
      WriteValue(values[index], output);
      ItemsStep(start, canon, index);
    }
    assert canon[..|values|] == canon;
    output.Push(']');
    Regroup4(old(output.text), "[", ItemsText(canon, true), "]");
  }

  method WriteObject(fields: seq<Field>, output: ByteVec)
    requires output.Valid() && WellFormed(Object(fields))
    modifies output
    ensures output.Valid() && output.text == old(output.text) + Text(Canonical(Object(fields)))
    decreases fields, 0
  {
    ghost var start, canon := output.text + "{", Sort(CanonicalFields(fields));
    SortSorts(fields);
    SortCommutes(fields);
    assert start + FieldsText(canon[..0], true) == start;
    hide Sort, CanonicalFields, FieldsText, Quoted;
    output.Push('{');
    var keys := Keys(Sort(fields));
    for index := 0 to |keys|
      invariant output.Valid() && output.text == start + FieldsText(canon[..index], true)
    {
      if index > 0 {
        output.Push(',');
      }
      assert output.text == start + FieldsText(canon[..index], true) + if index > 0 then "," else "";
      output.Extend(Quoted(keys[index]));
      output.Push(':');
      var at := FieldOf(fields, index, keys[index]);
      WriteValue(fields[at].value, output);
      assert canon[index] == Field(keys[index], Canonical(fields[at].value));
      FieldsStep(start, canon, index);
    }
    assert canon[..|keys|] == canon;
    output.Push('}');
    Regroup4(old(output.text), "{", FieldsText(canon, true), "}");
  }

  /** `&fields[key]` for the key at a position of the sorted list: the member stored there. */
  method FieldOf(fields: seq<Field>, index: nat, key: string) returns (at: nat)
    requires DistinctKeys(fields) && index < |fields| == |Sort(fields)|
    requires key == Sort(fields)[index].key
    ensures at < |fields| && fields[at] == Sort(fields)[index]
  {
    SortSorts(fields);
    assert Sort(fields)[index] in fields;
    at := IndexOf(fields, key);
  }

  /** `to_vec`. */
  method ToVec(value: Value) returns (bytes: seq<Byte>)
    requires WellFormed(value)
    ensures bytes == CanonicalBytes(value)
  {
    var output := new ByteVec();
    WriteValue(value, output);
    assert output.text == Text(Canonical(value));
    bytes := output.data;
  }

  // ---- The C++ digest input ----

  const MACHINE_LOCAL: set<string> := {"target_file"}

  /** `remove_machine_local_paths`: it edits a tree it owns, so the edited tree is the result. */
  method RemoveMachineLocalPaths(value: Value) returns (r: Value)
    ensures r == Erase(value, MACHINE_LOCAL)
    decreases value, 1
  {
    match value
    case Array(values) =>
      var items := RemoveFromItems(values);
      r := Array(items);
    case Object(fields) =>
      var kept := RemoveFromFields(fields);
      r := Object(kept);
    case _ => r := value;
  }

  method RemoveFromItems(values: seq<Value>) returns (out: seq<Value>)
    ensures out == EraseItems(values, MACHINE_LOCAL)
    decreases values, 0
  {
    out := [];
    ghost var erased := EraseItems(values, MACHINE_LOCAL);
    for i := 0 to |values|
      invariant |out| == i && forall j :: 0 <= j < i ==> out[j] == erased[j]
    {
      var x := RemoveMachineLocalPaths(values[i]);
      out := out + [x];
    }
  }

  method RemoveFromFields(fields: seq<Field>) returns (out: seq<Field>)
    ensures out == EraseFields(fields, MACHINE_LOCAL)
    decreases fields, 0
  {
    out := [];
    for i := 0 to |fields|
      invariant out + EraseFields(fields[i..], MACHINE_LOCAL) == EraseFields(fields, MACHINE_LOCAL)
    {
      EraseFieldsStep(fields[i..], MACHINE_LOCAL);
      assert fields[i..][1..] == fields[i + 1..];
      if fields[i].key != "target_file" {
        var x := RemoveMachineLocalPaths(fields[i].value);
        Regroup3(out, [Field(fields[i].key, x)], EraseFields(fields[i + 1..], MACHINE_LOCAL));
        out := out + [Field(fields[i].key, x)];
      }
    }
  }

  lemma EraseFieldsStep(fields: seq<Field>, ignored: set<string>)
    requires fields != []
    ensures EraseFields(fields, ignored)
         == (if fields[0].key in ignored then [] else [Field(fields[0].key, Erase(fields[0].value, ignored))])
            + EraseFields(fields[1..], ignored)
  {
  }

  lemma {:induction false} EraseWellFormed(v: Value, ignored: set<string>)
    requires WellFormed(v)
    ensures WellFormed(Erase(v, ignored))
    decreases v
  {
    match v
    case Array(items) =>
      forall i | 0 <= i < |items| ensures WellFormed(Erase(items[i], ignored)) { EraseWellFormed(items[i], ignored); }
    case Object(fields) =>
      forall i | 0 <= i < |fields| ensures WellFormed(Erase(fields[i].value, ignored)) {
        EraseWellFormed(fields[i].value, ignored);
      }
      EraseFieldsElements(fields, ignored);
      EraseFieldsDistinct(fields, ignored);
      var e := EraseFields(fields, ignored);
      forall k | 0 <= k < |e| ensures WellFormed(e[k].value) {
        assert e[k] in e;
      }
    case _ =>
  }

  /** `cpp_symbol_digest_input`, from the symbols already turned into a value. */
  method CppSymbolDigestInput(symbols: Value) returns (bytes: seq<Byte>)
    requires WellFormed(symbols)
    ensures bytes == CanonicalBytes(Erase(symbols, MACHINE_LOCAL))
  {
    var value := RemoveMachineLocalPaths(symbols);
    EraseWellFormed(symbols, MACHINE_LOCAL);
    bytes := ToVec(value);
  }

  /** Main result: the digest inputs of two values are equal exactly when the values agree once
      the order of members and every `target_file`, at any depth, are disregarded. */
  lemma SameDigestInputIffAgree(v: Value, w: Value)
    requires WellFormed(v) && WellFormed(w)
    ensures CanonicalBytes(Erase(v, MACHINE_LOCAL)) == CanonicalBytes(Erase(w, MACHINE_LOCAL))
       <==> Agree(v, w, MACHINE_LOCAL)
  {
    BytesInjective(Erase(v, MACHINE_LOCAL), Erase(w, MACHINE_LOCAL));
    CanonicalIffAgree(v, w, MACHINE_LOCAL);
  }
}
