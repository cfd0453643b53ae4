/** What the canonical bytes are: JSON that a reader of RFC 8259 reads back, with the members of every
    object in byte order and no escape longer than it need be. */
module CanonicalJsonLaws {
  import opened Json
  import opened Seqs
  import opened Utf8
  import opened CanonicalJson

  // ---- A reader of compact JSON text ----

  datatype Read<+T> = Got(value: T, rest: string) | Bad

  predicate IsDecimal(s: string) {
    s != "" && forall i :: 0 <= i < |s| ==> '0' <= s[i] <= '9'
  }

  /** How many number characters a text starts with. */
  function NumberEnd(s: string): (n: nat)
    ensures n <= |s| && (forall i :: 0 <= i < n ==> IsNumberChar(s[i])) && (n < |s| ==> !IsNumberChar(s[n]))
  {
    if s == "" || !IsNumberChar(s[0]) then 0
    else
      assert forall i :: 1 <= i < |s| ==> s[i] == s[1..][i - 1];
      1 + NumberEnd(s[1..])
  }

  /** Section 6 of RFC 8259. */
  function ReadNumber(s: string): (r: Read<Number>)
    ensures r.Got? ==> |r.rest| < |s|
  {
    var n := NumberEnd(s);
    var t := s[..n];
    if IsFloatText(t) then Got(Float(t), s[n..])
    else if IsDecimal(t) then Got(Integer(DigitsValue(t)), s[n..])
    else if t != "" && t[0] == '-' && IsDecimal(t[1..]) then Got(Integer(0 - DigitsValue(t[1..])), s[n..])
    else Bad
  }

  function HexValue(c: char): Option<nat> {
    if '0' <= c <= '9' then Some(c as int - '0' as int)
    else if 'a' <= c <= 'f' then Some(c as int - 'a' as int + 10)
    else if 'A' <= c <= 'F' then Some(c as int - 'A' as int + 10)
    else None
  }

  function ReadHex(s: string): Option<nat>
    requires |s| == 4
  {
    match (HexValue(s[0]), HexValue(s[1]), HexValue(s[2]), HexValue(s[3]))
    case (Some(a), Some(b), Some(c), Some(d)) => Some(0x1000 * a + 0x100 * b + 0x10 * c + d)
    case _ => None
  }

  /** The characters that are escaped by a letter (section 7 of RFC 8259). */
  function Letter(c: char): Option<char> {
    if c == '"' || c == '\\' || c == '/' then Some(c)
    else if c == 'b' then Some(8 as char)
    else if c == 'f' then Some(12 as char)
    else if c == 'n' then Some(10 as char)
    else if c == 'r' then Some(13 as char)
    else if c == 't' then Some(9 as char)
    else None
  }

  /** One character of a string, escaped or not; surrogate pairs are not read. */
  function ReadChar(s: string): (r: Read<char>)
    ensures r.Got? ==> |r.rest| < |s|
  {
    if s == "" || s[0] == '"' || s[0] as int < 0x20 then Bad
    else if s[0] != '\\' then Got(s[0], s[1..])
    else if |s| >= 2 && s[1] != 'u' then
      match Letter(s[1]) case Some(c) => Got(c, s[2..]) case None => Bad
    else if |s| >= 6 then
      match ReadHex(s[2..6])
      case Some(n) => if n < 0xD800 || 0xE000 <= n < 0x10000 then Got(n as char, s[6..]) else Bad
      case None => Bad
    else Bad
  }

  /** The rest of a string, after its opening quote. */
  function ReadString(s: string): (r: Read<string>)
    ensures r.Got? ==> |r.rest| < |s|
    decreases |s|
  {
    if s != "" && s[0] == '"' then Got("", s[1..])
    else
      match ReadChar(s)
      case Bad => Bad
      case Got(c, rest) => match ReadString(rest) case Bad => Bad case Got(cs, rest') => Got([c] + cs, rest')
  }

  function ReadValue(s: string): (r: Read<Value>)
    ensures r.Got? ==> |r.rest| < |s|
    decreases |s|, 0
  {
    if "null" <= s then Got(Null, s[4..])
    else if "true" <= s then Got(Bool(true), s[4..])
    else if "false" <= s then Got(Bool(false), s[5..])
    else if "\"" <= s then match ReadString(s[1..]) case Bad => Bad case Got(cs, rest) => Got(String(cs), rest)
    else if "[]" <= s then Got(Array([]), s[2..])
    else if "[" <= s then match ReadItems(s[1..]) case Bad => Bad case Got(vs, rest) => Got(Array(vs), rest)
    else if "{}" <= s then Got(Object([]), s[2..])
    else if "{" <= s then match ReadFields(s[1..]) case Bad => Bad case Got(fs, rest) => Got(Object(fs), rest)
    else match ReadNumber(s) case Bad => Bad case Got(x, rest) => Got(Num(x), rest)
  }

  /** The items of an array that is not empty, and its closing bracket. */
  function ReadItems(s: string): (r: Read<seq<Value>>)
    ensures r.Got? ==> |r.rest| < |s|
    decreases |s|, 1
  {
    match ReadValue(s)
    case Bad => Bad
    case Got(v, rest) =>
      if "]" <= rest then Got([v], rest[1..])
      else if "," <= rest then
        match ReadItems(rest[1..]) case Bad => Bad case Got(vs, rest') => Got([v] + vs, rest')
      else Bad
  }

  function ReadField(s: string): (r: Read<Field>)
    ensures r.Got? ==> |r.rest| < |s|
    decreases |s|, 1
  {
    if !("\"" <= s) then Bad
    else
      match ReadString(s[1..])
      case Bad => Bad
      case Got(key, rest) =>
        if !(":" <= rest) then Bad
        else match ReadValue(rest[1..]) case Bad => Bad case Got(v, rest') => Got(Field(key, v), rest')
  }

  function ReadFields(s: string): (r: Read<seq<Field>>)
    ensures r.Got? ==> |r.rest| < |s|
    decreases |s|, 2
  {
    match ReadField(s)
    case Bad => Bad
    case Got(f, rest) =>
      if "}" <= rest then Got([f], rest[1..])
      else if "," <= rest then
        match ReadFields(rest[1..]) case Bad => Bad case Got(fs, rest') => Got([f] + fs, rest')
      else Bad
  }

  // ---- Characters and strings ----

  lemma HexReads(c: char)
    requires c as int < 0x20
    ensures ReadHex("00" + [HexDigit(c as int / 16), HexDigit(c as int % 16)]) == Some(c as int)
  {
    assert HexValue(HexDigit(c as int / 16)) == Some(c as int / 16);
    assert HexValue(HexDigit(c as int % 16)) == Some(c as int % 16);
  }

  lemma CharReads(c: char, rest: string)
    ensures ReadChar(EscapeChar(c) + rest) == Got(c, rest)
  {
    var e := EscapeChar(c);
    var s := e + rest;
    assert s[..|e|] == e && s[|e|..] == rest;
    assert forall i :: 0 <= i < |e| ==> s[i] == e[i];
    if |e| == 6 {
      HexReads(c);
      assert s[2..6] == "00" + [HexDigit(c as int / 16), HexDigit(c as int % 16)];
    }
  }

  function LowerHex(c: char): char {
    if 'A' <= c <= 'F' then (c as int - 'A' as int + 'a' as int) as char else c
  }

  /** Two ways to write one character: the same, but for the case of the hex digits. */
  predicate SameEscape(e: string, f: string) {
    |e| == |f| && forall i :: 0 <= i < |e| ==> e[i] == f[i] || (|e| == 6 && LowerHex(e[i]) == f[i])
  }

  lemma LetterIsShortest(c: char, e: string)
    requires |e| == 2 && e[0] == '\\' && Letter(e[1]) == Some(c)
    ensures |EscapeChar(c)| < 2 || e == EscapeChar(c)
  {
  }

  lemma HexOf(c: char, d: nat)
    requires d < 16 && HexValue(c) == Some(d)
    ensures LowerHex(c) == HexDigit(d) && (d == 0 ==> c == '0')
  {
  }

  lemma HexIsShortest(c: char, e: string)
    requires |e| == 6 && e[0] == '\\' && e[1] == 'u' && ReadHex(e[2..6]) == Some(c as int)
    ensures |EscapeChar(c)| < 6 || SameEscape(e, EscapeChar(c))
  {
    if |EscapeChar(c)| == 6 {
      var h, n := e[2..6], c as int;
      assert n < 0x20;
      assert HexValue(h[0]) == Some(0) && HexValue(h[1]) == Some(0);
      assert HexValue(h[2]) == Some(n / 16) && HexValue(h[3]) == Some(n % 16);
      HexOf(h[0], 0);
      HexOf(h[1], 0);
      HexOf(h[2], n / 16);
      HexOf(h[3], n % 16);
    }
  }

  /** Main result: of all the ways to write a character in a string, the encoder takes a shortest one,
      with lower-case digits. */
  lemma ShortestEscape(c: char, e: string, rest: string)
    requires ReadChar(e + rest) == Got(c, rest)
    ensures |EscapeChar(c)| < |e| || SameEscape(e, EscapeChar(c))
  {
    var s := e + rest;
    hide EscapeChar, SameEscape;
    assert s[0] == e[0] && |e| in {1, 2, 6};
    if |e| == 1 {
      PlainIsShortest(c, e);
    } else if |e| == 2 {
      assert s[1] == e[1];
      LetterIsShortest(c, e);
      EscapeSelf(c);
    } else {
      assert s[1] == e[1] && s[2..6] == e[2..6];
      HexIsShortest(c, e);
    }
  }

  lemma EscapeSelf(c: char)
    ensures SameEscape(EscapeChar(c), EscapeChar(c))
  {
  }

  lemma PlainIsShortest(c: char, e: string)
    requires e == [c] && c != '"' && c != '\\' && c as int >= 0x20
    ensures SameEscape(e, EscapeChar(c))
  {
  }

  lemma {:induction false} StringReads(s: string, rest: string)
    ensures ReadString(Escape(s) + ("\"" + rest)) == Got(s, rest)
  {
    hide ReadChar;
    if s == "" {
      assert "" + ("\"" + rest) == "\"" + rest && ("\"" + rest)[1..] == rest;
    } else {
      Regroup3(EscapeChar(s[0]), Escape(s[1..]), "\"" + rest);
      CharReads(s[0], Escape(s[1..]) + ("\"" + rest));
      NoQuoteFirst(s[0], Escape(s[1..]) + ("\"" + rest));
      StringReads(s[1..], rest);
      assert [s[0]] + s[1..] == s;
    }
  }

  lemma NoQuoteFirst(c: char, rest: string)
    ensures (EscapeChar(c) + rest)[0] == EscapeChar(c)[0] != '"'
  {
  }

  lemma QuotedReads(s: string, rest: string)
    ensures "\"" <= Quoted(s) + rest && ReadString((Quoted(s) + rest)[1..]) == Got(s, rest)
  {
    StringReads(s, rest);
    Regroup4("\"", Escape(s), "\"", rest);
    assert ("\"" + (Escape(s) + ("\"" + rest)))[1..] == Escape(s) + ("\"" + rest);
  }

  // ---- Numbers ----

  lemma {:induction false} NumberEndIs(t: string, rest: string)
    requires (forall i :: 0 <= i < |t| ==> IsNumberChar(t[i])) && (rest != "" ==> !IsNumberChar(rest[0]))
    ensures NumberEnd(t + rest) == |t|
  {
    if t == "" {
      assert t + rest == rest;
    } else {
      assert (t + rest)[1..] == t[1..] + rest;
      NumberEndIs(t[1..], rest);
    }
  }

  lemma NumberReads(x: Number, rest: string)
    requires Delimited(rest)
    ensures ReadNumber(NumberText(x) + rest) == Got(x, rest)
  {
    var t := NumberText(x);
    NumberTextShape(x);
    NumberEndIs(t, rest);
    assert (t + rest)[..|t|] == t && (t + rest)[|t|..] == rest;
    if x.Integer? {
      var n := if x.n < 0 then -x.n else x.n;
      DigitsInverse(n);
      assert !IsFloatText(t);
      if x.n < 0 {
        assert t[1..] == Digits(n) && t[0] == '-';
        assert !IsDecimal(t);
      }
    }
  }

  // ---- Values ----

  /** No text but its own kind starts as a value's does. */
  lemma NumberFirst(x: Number, rest: string)
    ensures var s := NumberText(x) + rest;
      && !("null" <= s) && !("true" <= s) && !("false" <= s) && !("\"" <= s) && !("[]" <= s) && !("[" <= s)
      && !("{}" <= s) && !("{" <= s)
  {
    NumberTextShape(x);
    var s := NumberText(x) + rest;
    assert s[0] == NumberText(x)[0];
    assert forall p: string :: p != "" && p <= s ==> p[0] == s[0];
  }

  lemma StringFirst(q: string, rest: string)
    ensures var s := Quoted(q) + rest; !("null" <= s) && !("true" <= s) && !("false" <= s)
  {
    var s := Quoted(q) + rest;
    assert s[0] == '"';
    assert forall p: string :: p != "" && p <= s ==> p[0] == s[0];
  }

  lemma ContainerFirst(open: string, s: string)
    requires open == "[" || open == "{"
    ensures !("null" <= open + s) && !("true" <= open + s) && !("false" <= open + s) && !("\"" <= open + s)
    ensures open <= open + s && (open + s)[1..] == s
    ensures open == "[" ==> ("[]" <= open + s <==> "]" <= s)
    ensures open == "{" ==> !("[" <= open + s) && !("[]" <= open + s) && ("{}" <= open + s <==> "}" <= s)
  {
    assert (open + s)[0] == open[0];
    assert forall p: string :: p != "" && p <= open + s ==> p[0] == open[0];
    assert s != "" ==> (open + s)[1] == s[0];
  }

  /** A comma or a closing character after an item, seen one way only. */
  lemma {:induction false} ValueReads(v: Value, rest: string)
    requires Delimited(rest)
    ensures ReadValue(Text(v) + rest) == Got(v, rest)
    decreases v, 1
  {
    hide ReadNumber, ReadString, Quoted, Delimited;
    match v
    case Null => assert ("null" + rest)[4..] == rest;
    case Bool(b) =>
      WordReads(b, rest);
    case Num(x) =>
      NumberFirst(x, rest);
      NumberReads(x, rest);
      assert Text(v) == NumberText(x);
    case String(q) =>
      StringFirst(q, rest);
      QuotedReads(q, rest);
    case Array(items) =>
      ArrayReads(items, rest);
    case Object(fields) =>
      ObjectReads(fields, rest);
  }

  lemma WordReads(b: bool, rest: string)
    ensures ReadValue((if b then "true" else "false") + rest) == Got(Bool(b), rest)
  {
    var s := (if b then "true" else "false") + rest;
    assert s[0] == if b then 't' else 'f';
    assert if b then s[4..] == rest else s[5..] == rest;
  }

  lemma {:induction false} ArrayReads(items: seq<Value>, rest: string)
    requires Delimited(rest)
    ensures ReadValue(("[" + ItemsText(items, true) + "]") + rest) == Got(Array(items), rest)
    decreases items, 1
  {
    var inner := ItemsText(items, true) + ("]" + rest);
    assert ("[" + ItemsText(items, true) + "]") + rest == "[" + inner;
    if items == [] {
      assert inner == "]" + rest;
    } else {
      ItemsUnfold(items, true, "]" + rest);
      ItemsRead(items, rest);
      assert !("]" <= inner);
    }
    hide ReadValue, ReadItems, ItemsText;
    ContainerReads("[", inner, rest);
  }

  lemma LastItem(s: string, v: Value, rest: string)
    requires ReadValue(s) == Got(v, "]" + rest)
    ensures ReadItems(s) == Got([v], rest)
  {
    assert ("]" + rest)[1..] == rest;
    hide ReadValue;
  }

  lemma MoreItems(s: string, v: Value, more: string, vs: seq<Value>, rest: string)
    requires ReadValue(s) == Got(v, "," + more) && ReadItems(more) == Got(vs, rest)
    ensures ReadItems(s) == Got([v] + vs, rest)
  {
    assert ("," + more)[1..] == more && ("," + more)[0] == ',';
    hide ReadValue;
  }

  /** The text of the items after the first, once a comma is taken off. */
  lemma ItemsAfterComma(items: seq<Value>, rest: string)
    requires items != []
    ensures ItemsText(items, false) + rest == "," + (ItemsText(items, true) + rest)
  {
    ItemsUnfold(items, false, rest);
    ItemsUnfold(items, true, rest);
    assert "" + (Text(items[0]) + (ItemsText(items[1..], false) + rest))
      == Text(items[0]) + (ItemsText(items[1..], false) + rest);
  }

  lemma {:induction false} ItemsRead(items: seq<Value>, rest: string)
    requires items != []
    ensures ReadItems(ItemsText(items, true) + ("]" + rest)) == Got(items, rest)
    decreases items, 0
  {
    var after := ItemsText(items[1..], false) + ("]" + rest);
    ItemsUnfold(items, true, "]" + rest);
    TailDelimited(items[1..], [], "]" + rest);
    ValueReads(items[0], after);
    assert "" + (Text(items[0]) + after) == Text(items[0]) + after;
    assert [items[0]] + items[1..] == items;
    if items[1..] == [] {
      assert after == "]" + rest && items == [items[0]];
      hide ReadValue, ReadItems, Text, ItemsText;
      LastItem(Text(items[0]) + after, items[0], rest);
    } else {
      ItemsAfterComma(items[1..], "]" + rest);
      ItemsRead(items[1..], rest);
      hide ReadValue, ReadItems, Text, ItemsText;
      MoreItems(Text(items[0]) + after, items[0], ItemsText(items[1..], true) + ("]" + rest), items[1..], rest);
    }
  }

  /** What a container reads as, from what its inside reads as. */
  lemma ContainerReads(open: string, inner: string, rest: string)
    requires open == "[" || open == "{"
    ensures open == "[" && inner == "]" + rest ==> ReadValue(open + inner) == Got(Array([]), rest)
    ensures open == "[" && !("]" <= inner) && ReadItems(inner).Got? ==>
      ReadValue(open + inner) == Got(Array(ReadItems(inner).value), ReadItems(inner).rest)
    ensures open == "{" && inner == "}" + rest ==> ReadValue(open + inner) == Got(Object([]), rest)
    ensures open == "{" && !("}" <= inner) && ReadFields(inner).Got? ==>
      ReadValue(open + inner) == Got(Object(ReadFields(inner).value), ReadFields(inner).rest)
  {
    ContainerFirst(open, inner);
    assert inner != "" ==> (open + inner)[2..] == inner[1..];
    assert ("]" + rest)[1..] == rest && ("}" + rest)[1..] == rest;
    hide ReadItems, ReadFields;
  }

  lemma {:induction false} ObjectReads(fields: seq<Field>, rest: string)
    requires Delimited(rest)
    ensures ReadValue(("{" + FieldsText(fields, true) + "}") + rest) == Got(Object(fields), rest)
    decreases fields, 1
  {
    var inner := FieldsText(fields, true) + ("}" + rest);
    assert ("{" + FieldsText(fields, true) + "}") + rest == "{" + inner;
    if fields == [] {
      assert inner == "}" + rest;
    } else {
      FieldsUnfold(fields, true, "}" + rest);
      FieldsRead(fields, rest);
      assert !("}" <= inner);
    }
    hide ReadValue, ReadFields, FieldsText;
    ContainerReads("{", inner, rest);
  }

  lemma {:induction false} FieldReads(f: Field, after: string)
    requires Delimited(after)
    ensures ReadField(Quoted(f.key) + (":" + (Text(f.value) + after))) == Got(f, after)
    decreases f, 2
  {
    hide ReadValue, Text, Quoted, ReadString, Delimited;
    var tail := Text(f.value) + after;
    QuotedReads(f.key, ":" + tail);
    assert (":" + tail)[1..] == tail;
    ValueReads(f.value, after);
  }

  lemma LastField(s: string, f: Field, rest: string)
    requires ReadField(s) == Got(f, "}" + rest)
    ensures ReadFields(s) == Got([f], rest)
  {
    assert ("}" + rest)[1..] == rest;
    hide ReadField;
  }

  lemma MoreFields(s: string, f: Field, more: string, fs: seq<Field>, rest: string)
    requires ReadField(s) == Got(f, "," + more) && ReadFields(more) == Got(fs, rest)
    ensures ReadFields(s) == Got([f] + fs, rest)
  {
    assert ("," + more)[1..] == more && ("," + more)[0] == ',';
    hide ReadField;
  }

  lemma FieldsAfterComma(fields: seq<Field>, rest: string)
    requires fields != []
    ensures FieldsText(fields, false) + rest == "," + (FieldsText(fields, true) + rest)
  {
    var line := Quoted(fields[0].key) + (":" + (Text(fields[0].value) + (FieldsText(fields[1..], false) + rest)));
    FieldsUnfold(fields, false, rest);
    FieldsUnfold(fields, true, rest);
    assert "" + line == line;
  }

  lemma {:induction false} FieldsRead(fields: seq<Field>, rest: string)
    requires fields != []
    ensures ReadFields(FieldsText(fields, true) + ("}" + rest)) == Got(fields, rest)
    decreases fields, 0
  {
    var after := FieldsText(fields[1..], false) + ("}" + rest);
    var line := Quoted(fields[0].key) + (":" + (Text(fields[0].value) + after));
    FieldsUnfold(fields, true, "}" + rest);
    TailDelimited([], fields[1..], "}" + rest);
    FieldReads(fields[0], after);
    assert "" + line == line;
    assert [fields[0]] + fields[1..] == fields;
    if fields[1..] == [] {
      assert after == "}" + rest && fields == [fields[0]];
      hide ReadField, ReadFields, Text, FieldsText, Quoted;
      LastField(line, fields[0], rest);
    } else {
      FieldsAfterComma(fields[1..], "}" + rest);
      FieldsRead(fields[1..], rest);
      hide ReadField, ReadFields, Text, FieldsText, Quoted;
      MoreFields(line, fields[0], FieldsText(fields[1..], true) + ("}" + rest), fields[1..], rest);
    }
  }

  // ---- The order of the members ----

  /** The bytes first differ at a position, where one ends or has the smaller byte. */
  predicate Differ(a: seq<Byte>, b: seq<Byte>, k: nat) {
    && k <= |a| && k < |b| && a[..k] == b[..k] && (k == |a| || a[k] < b[k])
  }

  /** Byte strings in the order of `Ord`. */
  ghost predicate ByteLess(a: seq<Byte>, b: seq<Byte>) {
    exists k :: Differ(a, b, k)
  }

  lemma DifferOneWay(a: seq<Byte>, b: seq<Byte>, k: nat, m: nat)
    requires Differ(a, b, k)
    ensures !Differ(b, a, m)
  {
    assert m < k && m < |b| ==> a[..k][m] == a[m] && b[..k][m] == b[m];
    assert k < m <= |b| && m < |a| ==> a[..m][k] == a[k] && b[..m][k] == b[k];
  }

  /** The bytes of a smaller character are smaller. */
  lemma CharOrder(c: char, d: char) returns (k: nat)
    requires c < d
    ensures k < |EncodeChar(c)| && k < |EncodeChar(d)|
    ensures EncodeChar(c)[..k] == EncodeChar(d)[..k] && EncodeChar(c)[k] < EncodeChar(d)[k]
  {
    var x, y := EncodeChar(c), EncodeChar(d);
    EncodeCharShape(c);
    EncodeCharShape(d);
    if x[0] != y[0] {
      k := 0;
      LeadOrder(c, d);
    } else {
      SameLead(c, d);
      DecodeEncodeChar(c);
      DecodeEncodeChar(d);
      k := if x[1] != y[1] then 1 else if x[2] != y[2] then 2 else 3;
    }
  }

  lemma LeadOrder(c: char, d: char)
    requires c < d
    ensures EncodeChar(c)[0] <= EncodeChar(d)[0]
  {
  }

  lemma SameLead(c: char, d: char)
    requires c < d && EncodeChar(c)[0] == EncodeChar(d)[0]
    ensures |EncodeChar(c)| == |EncodeChar(d)| >= 2
  {
  }

  lemma EmptyDiffers(b: string) returns (k: nat)
    requires b != ""
    ensures Differ(Encode(""), Encode(b), k)
  {
    k := 0;
  }

  lemma {:induction false} LessDiffers(a: string, b: string) returns (k: nat)
    requires Less(a, b)
    ensures Differ(Encode(a), Encode(b), k)
  {
    hide EncodeChar, Differ;
    if a == "" {
      k := EmptyDiffers(b);
    } else if a[0] == b[0] {
      var x := EncodeChar(a[0]);
      k := LessDiffers(a[1..], b[1..]);
      ShiftDiffer(x, Encode(a[1..]), Encode(b[1..]), k);
      k := |x| + k;
    } else {
      k := CharOrder(a[0], b[0]);
      HeadDiffers(EncodeChar(a[0]), EncodeChar(b[0]), Encode(a[1..]), Encode(b[1..]), k);
    }
  }

  lemma ShiftDiffer(x: seq<Byte>, a: seq<Byte>, b: seq<Byte>, k: nat)
    requires Differ(a, b, k)
    ensures Differ(x + a, x + b, |x| + k)
  {
    assert (x + a)[..|x| + k] == x + a[..k] && (x + b)[..|x| + k] == x + b[..k];
  }

  lemma HeadDiffers(x: seq<Byte>, y: seq<Byte>, a: seq<Byte>, b: seq<Byte>, k: nat)
    requires k < |x| && k < |y| && x[..k] == y[..k] && x[k] < y[k]
    ensures Differ(x + a, y + b, k)
  {
    assert (x + a)[..k] == x[..k] && (y + b)[..k] == y[..k];
  }

  /** Main result: the order of the keys is the order of their UTF-8 bytes, in which the source sorts. */
  lemma LessIsByteOrder(a: string, b: string)
    ensures Less(a, b) <==> ByteLess(Encode(a), Encode(b))
  {
    LessIsTotal(a, b);
    if Less(a, b) {
      var k := LessDiffers(a, b);
    } else if ByteLess(Encode(a), Encode(b)) {
      var m :| Differ(Encode(a), Encode(b), m);
      if a != b {
        var k := LessDiffers(b, a);
        DifferOneWay(Encode(a), Encode(b), m, k);
      }
    }
  }

  /** Every object's members stand in byte order of their keys, at every depth. */
  ghost predicate InOrder(v: Value)
    decreases v
  {
    match v
    case Array(items) => forall i :: 0 <= i < |items| ==> InOrder(items[i])
    case Object(fields) =>
      && (forall i, j :: 0 <= i < j < |fields| ==> ByteLess(Encode(fields[i].key), Encode(fields[j].key)))
      && forall i :: 0 <= i < |fields| ==> InOrder(fields[i].value)
    case _ => true
  }

  lemma {:induction false} CanonicalInOrder(v: Value)
    requires WellFormed(v)
    ensures InOrder(Canonical(v)) && WellFormed(Canonical(v))
    decreases v
  {
    match v
    case Array(items) =>
      forall i | 0 <= i < |items| ensures InOrder(Canonical(items[i])) && WellFormed(Canonical(items[i])) {
        CanonicalInOrder(items[i]);
      }
    case Object(fields) =>
      CanonicalMembers(fields);
      SortedMembers(CanonicalFields(fields));
    case _ =>
  }

  lemma {:induction false} CanonicalMembers(fields: seq<Field>)
    requires WellFormed(Object(fields))
    ensures DistinctKeys(CanonicalFields(fields))
    ensures forall f :: f in CanonicalFields(fields) ==> InOrder(f.value) && WellFormed(f.value)
    decreases fields
  {
    forall i | 0 <= i < |fields| ensures InOrder(Canonical(fields[i].value)) && WellFormed(Canonical(fields[i].value)) {
      CanonicalInOrder(fields[i].value);
    }
  }

  lemma SortedMembers(fields: seq<Field>)
    requires DistinctKeys(fields) && forall f :: f in fields ==> InOrder(f.value) && WellFormed(f.value)
    ensures InOrder(Object(Sort(fields))) && WellFormed(Object(Sort(fields)))
  {
    var fs := Sort(fields);
    SortSorts(fields);
    forall i | 0 <= i < |fs| ensures InOrder(fs[i].value) && WellFormed(fs[i].value) {
      assert fs[i] in fields;
    }
    forall i, j | 0 <= i < j < |fs|
      ensures ByteLess(Encode(fs[i].key), Encode(fs[j].key)) && fs[i].key != fs[j].key
    {
      LessIsByteOrder(fs[i].key, fs[j].key);
      LessIsTotal(fs[i].key, fs[j].key);
    }
  }

  lemma InOrderIsSorted(fields: seq<Field>)
    requires InOrder(Object(fields))
    ensures StrictlySorted(fields) && DistinctKeys(fields)
  {
    forall i, j | 0 <= i < j < |fields| ensures Less(fields[i].key, fields[j].key) && fields[i].key != fields[j].key {
      LessIsByteOrder(fields[i].key, fields[j].key);
      LessIsTotal(fields[i].key, fields[j].key);
    }
  }

  /** A value in order is its own canonical form. */
  lemma {:induction false} InOrderIsCanonical(v: Value)
    requires InOrder(v)
    ensures Canonical(v) == v
    decreases v
  {
    match v
    case Array(items) =>
      forall i | 0 <= i < |items| ensures Canonical(items[i]) == items[i] { InOrderIsCanonical(items[i]); }
      assert CanonicalItems(items) == items;
    case Object(fields) =>
      forall i | 0 <= i < |fields| ensures Canonical(fields[i].value) == fields[i].value {
        InOrderIsCanonical(fields[i].value);
      }
      assert CanonicalFields(fields) == fields;
      InOrderIsSorted(fields);
      SortSorts(fields);
      SortedUnique(Sort(fields), fields);
    case _ =>
  }

  /** Main result: the canonical bytes are the UTF-8 of a JSON text that reads back, whole, as the value
      up to the order of members, and with the members of every object in byte order. */
  lemma CanonicalBytesAreJson(v: Value) returns (text: string, w: Value)
    requires WellFormed(v)
    ensures CanonicalBytes(v) == Encode(text) && ReadValue(text) == Got(w, "")
    ensures EqualUpToOrder(v, w) && InOrder(w)
  {
    text, w := Text(Canonical(v)), Canonical(v);
    ValueReads(w, "");
    assert text + "" == text;
    CanonicalInOrder(v);
    InOrderIsCanonical(w);
    SameBytesIffEqualUpToOrder(v, w);
  }
}
