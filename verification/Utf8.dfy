/** UTF-8 (section 3 of RFC 3629): the encoder, and the facts the byte-offset code of the
    repository relies on. Rust's `str` and Python's `encode("utf-8")` both mean this encoding. */
module Utf8 {

  type Byte = b: int | 0 <= b < 256

  function EncodeChar(c: char): (bs: seq<Byte>)
    ensures 1 <= |bs| <= 4
  {
    var n := c as int;
    if n < 0x80 then [n]
    else if n < 0x800 then [0xC0 + n / 0x40, 0x80 + n % 0x40]
    else if n < 0x10000 then [0xE0 + n / 0x1000, 0x80 + n / 0x40 % 0x40, 0x80 + n % 0x40]
    else [0xF0 + n / 0x40000, 0x80 + n / 0x1000 % 0x40, 0x80 + n / 0x40 % 0x40, 0x80 + n % 0x40]
  }

  function Encode(s: string): seq<Byte> {
    if s == "" then [] else EncodeChar(s[0]) + Encode(s[1..])
  }

  /** A continuation byte: `10xxxxxx`. */
  predicate IsContinuation(b: Byte) {
    0x80 <= b < 0xC0
  }

  /** `str::is_char_boundary`. */
  predicate IsBoundary(bs: seq<Byte>, i: int) {
    i == 0 || i == |bs| || (0 < i < |bs| && !IsContinuation(bs[i]))
  }

  /** `str::get(start..end)`: the slice, or nothing when either end is not a boundary. */
  datatype Slice = Bytes(bs: seq<Byte>) | NoSlice

  function Get(bs: seq<Byte>, start: int, end: int): Slice {
    if 0 <= start <= end <= |bs| && IsBoundary(bs, start) && IsBoundary(bs, end)
    then Bytes(bs[start..end])
    else NoSlice
  }

  /** `chars().count()` on bytes that are a `str`: the bytes that start a character. */
  function CharCount(bs: seq<Byte>): nat {
    if bs == [] then 0 else (if IsContinuation(bs[0]) then 0 else 1) + CharCount(bs[1..])
  }

  /** A byte offset that starts character `k` of `s`. */
  function Offset(s: string, k: nat): nat
    requires k <= |s|
  {
    |Encode(s[..k])|
  }

  // ---- One character ----

  lemma EncodeCharShape(c: char)
    ensures var bs := EncodeChar(c);
      && !IsContinuation(bs[0])
      && (forall i :: 1 <= i < |bs| ==> IsContinuation(bs[i]))
      && (bs[0] < 0x80 <==> (c as int) < 0x80)
      && ((c as int) < 0x80 ==> bs == [c as int])
  {
    var n := c as int;
    assert n < 0x110000;
  }

  /** The code point a well-formed sequence stands for. */
  function CodePoint(bs: seq<int>): int
    requires 1 <= |bs| <= 4
  {
    if |bs| == 1 then bs[0]
    else if |bs| == 2 then 0x40 * (bs[0] - 0xC0) + (bs[1] - 0x80)
    else if |bs| == 3 then 0x1000 * (bs[0] - 0xE0) + 0x40 * (bs[1] - 0x80) + (bs[2] - 0x80)
    else 0x40000 * (bs[0] - 0xF0) + 0x1000 * (bs[1] - 0x80) + 0x40 * (bs[2] - 0x80) + (bs[3] - 0x80)
  }

  lemma SplitDigits(n: nat)
    ensures n / 0x40 / 0x40 == n / 0x1000 && n / 0x1000 / 0x40 == n / 0x40000
  {
  }

  lemma DecodeEncodeChar(c: char)
    ensures CodePoint(EncodeChar(c)) == c as int
  {
    var n := c as int;
    SplitDigits(n);
    assert n == 0x40 * (n / 0x40) + n % 0x40;
    assert n / 0x40 == 0x40 * (n / 0x40 / 0x40) + n / 0x40 % 0x40;
    assert n / 0x1000 == 0x40 * (n / 0x1000 / 0x40) + n / 0x1000 % 0x40;
  }

  /** The lead byte fixes the length, and the bytes fix the character. */
  lemma EncodeCharInjective(c: char, d: char, r: seq<Byte>, t: seq<Byte>)
    requires EncodeChar(c) + r == EncodeChar(d) + t
    ensures c == d && r == t
  {
    var x, y := EncodeChar(c), EncodeChar(d);
    EncodeCharShape(c);
    EncodeCharShape(d);
    assert (x + r)[0] == x[0] == y[0];
    assert |x| == |y|;
    assert x == (x + r)[..|x|] == (y + t)[..|y|] == y;
    assert r == (x + r)[|x|..] == (y + t)[|y|..] == t;
    DecodeEncodeChar(c);
    DecodeEncodeChar(d);
  }

  // ---- Whole strings ----

  lemma {:induction false} EncodeAppend(a: string, b: string)
    ensures Encode(a + b) == Encode(a) + Encode(b)
  {
    if a == "" {
      assert a + b == b;
    } else {
      assert (a + b)[1..] == a[1..] + b;
      EncodeAppend(a[1..], b);
    }
  }

  lemma {:induction false} EncodeInjective(a: string, b: string)
    requires Encode(a) == Encode(b)
    ensures a == b
  {
    if a != "" && b != "" {
      EncodeCharInjective(a[0], b[0], Encode(a[1..]), Encode(b[1..]));
      EncodeInjective(a[1..], b[1..]);
    }
  }

  lemma {:induction false} CharCountAppend(a: seq<Byte>, b: seq<Byte>)
    ensures CharCount(a + b) == CharCount(a) + CharCount(b)
  {
    if a == [] {
      assert a + b == b;
    } else {
      assert (a + b)[1..] == a[1..] + b;
      CharCountAppend(a[1..], b);
    }
  }

  lemma {:induction false} CharCountContinuations(bs: seq<Byte>)
    requires forall i :: 0 <= i < |bs| ==> IsContinuation(bs[i])
    ensures CharCount(bs) == 0
  {
    if bs != [] {
      CharCountContinuations(bs[1..]);
    }
  }

  /** Counting lead bytes counts characters. */
  lemma {:induction false} CharCountEncode(s: string)
    ensures CharCount(Encode(s)) == |s|
  {
    if s != "" {
      var x := EncodeChar(s[0]);
      EncodeCharShape(s[0]);
      CharCountContinuations(x[1..]);
      assert CharCount(x) == 1;
      CharCountAppend(x, Encode(s[1..]));
      CharCountEncode(s[1..]);
    }
  }

  lemma OffsetSplit(s: string, i: nat, j: nat)
    requires i <= j <= |s|
    ensures Offset(s, j) == Offset(s, i) + |Encode(s[i..j])|
    ensures Encode(s) == Encode(s[..i]) + Encode(s[i..j]) + Encode(s[j..])
  {
    assert s[..j] == s[..i] + s[i..j];
    EncodeAppend(s[..i], s[i..j]);
    assert s == s[..j] + s[j..];
    EncodeAppend(s[..j], s[j..]);
  }

  lemma OffsetMonotone(s: string, i: nat, j: nat)
    requires i < j <= |s|
    ensures Offset(s, i) < Offset(s, j)
  {
    OffsetSplit(s, i, j);
    assert s[i..j] != "";
  }

  /** Every character offset is a boundary, and slicing between two of them yields exactly the
      encoding of the characters between. */
  lemma SliceAtOffsets(s: string, i: nat, j: nat)
    requires i <= j <= |s|
    ensures Get(Encode(s), Offset(s, i), Offset(s, j)) == Bytes(Encode(s[i..j]))
  {
    var whole, pre, mid, post := Encode(s), Encode(s[..i]), Encode(s[i..j]), Encode(s[j..]);
    assert whole == pre + mid + post && Offset(s, j) == |pre| + |mid| by {
      OffsetSplit(s, i, j);
    }
    assert whole[|pre|..|pre| + |mid|] == mid;
    OffsetIsBoundary(s, i);
    OffsetIsBoundary(s, j);
  }

  lemma OffsetIsBoundary(s: string, i: nat)
    requires i <= |s|
    ensures IsBoundary(Encode(s), Offset(s, i))
  {
    assert s == s[..i] + s[i..];
    EncodeAppend(s[..i], s[i..]);
    if i < |s| {
      EncodeCharShape(s[i]);
      assert Encode(s)[Offset(s, i)] == Encode(s[i..])[0] == EncodeChar(s[i])[0];
    } else {
      assert s[..i] == s;
    }
  }

  /** And every boundary is a character offset. */
  lemma {:induction false} BoundaryIsOffset(s: string, p: nat) returns (k: nat)
    requires p <= |Encode(s)| && IsBoundary(Encode(s), p)
    ensures k <= |s| && Offset(s, k) == p
  {
    if p == 0 {
      k := 0;
    } else {
      var x := EncodeChar(s[0]);
      EncodeCharShape(s[0]);
      assert p >= |x|;
      assert p < |Encode(s)| ==> Encode(s)[p] == Encode(s[1..])[p - |x|];
      var k' := BoundaryIsOffset(s[1..], p - |x|);
      k := k' + 1;
      assert s[..k] == [s[0]] + s[1..][..k'];
      EncodeAppend([s[0]], s[1..][..k']);
      assert Encode([s[0]]) == x + Encode("") == x;
    }
  }

  /** After an ASCII byte a character always starts: no continuation byte follows it. */
  lemma AfterAsciiIsBoundary(s: string, p: nat)
    requires p < |Encode(s)| && Encode(s)[p] < 0x80
    ensures IsBoundary(Encode(s), p) && IsBoundary(Encode(s), p + 1)
  {
    assert IsBoundary(Encode(s), p);
    var k := BoundaryIsOffset(s, p);
    assert s[..|s|] == s;
    assert k < |s|;
    OffsetSplit(s, k, k + 1);
    assert s[k..k + 1] == [s[k]];
    EncodeCharShape(s[k]);
    assert Encode([s[k]]) == EncodeChar(s[k]) + Encode("") == EncodeChar(s[k]);
    assert Encode(s)[p] == EncodeChar(s[k])[0];
    OffsetIsBoundary(s, k + 1);
  }
}
