/** From token offsets to byte spans of the caller's text: services/embedder/server.py, and the
    consumer that slices by them, `late_pieces` of crates/yeomna-pipeline/src/embed.rs. */
module Spans {
  import opened Utf8
  import opened Windows

  /** A token's characters in the text the model saw; an empty span is a special token. */
  datatype Span = Span(start: int, end: int)

  // ---- The byte table ----

  lemma OffsetWhole(s: string)
    ensures Offset(s, |s|) == |Encode(s)|
  {
    assert s[..|s|] == s;
  }

  /** `char_to_byte_table`: the byte at which each character starts, and the byte length last. */
  method CharToByteTable(text: string) returns (table: seq<nat>)
    ensures |table| == |text| + 1 && forall i :: 0 <= i <= |text| ==> table[i] == Offset(text, i)
  {
    table := seq(|text| + 1, _ => 0);
    var pos := 0;
    for i := 0 to |text|
      invariant |table| == |text| + 1 && pos == Offset(text, i)
      invariant forall k :: 0 <= k <= i ==> table[k] == Offset(text, k)
    {
      pos := pos + |EncodeChar(text[i])|;
      table := table[i + 1 := pos];
      OffsetSplit(text, i, i + 1);
      assert text[i..i + 1] == [text[i]];
      assert Encode([text[i]]) == EncodeChar(text[i]) + Encode("");
    }
  }

  /** Past the prefix, an offset is the prefix's bytes and an offset of the caller's text. */
  lemma OffsetPastPrefix(prefix: string, doc: string, k: nat)
    requires k <= |doc|
    ensures Offset(prefix + doc, |prefix| + k) == |Encode(prefix)| + Offset(doc, k)
  {
    assert (prefix + doc)[..|prefix| + k] == prefix + doc[..k];
    EncodeAppend(prefix, doc[..k]);
  }

  // ---- Dropping the prefix ----

  predicate Within(s: Span, k: int) {
    s.start <= k < s.end
  }

  /** The token carries a character of the caller's own text. */
  ghost predicate HoldsText(s: Span, prefixChars: nat) {
    exists k :: Within(s, k) && prefixChars <= k
  }

  lemma HoldsTextIff(s: Span, prefixChars: nat)
    ensures HoldsText(s, prefixChars) <==> s.start < s.end && prefixChars < s.end
  {
    if s.start < s.end && prefixChars < s.end {
      assert Within(s, s.end - 1);
    }
  }

  /** `count_prefix_tokens`: the leading tokens that carry no text of the caller's, all of them. */
  method CountPrefixTokens(offsets: seq<Span>, prefixChars: nat) returns (n: nat)
    ensures n <= |offsets|
    ensures forall i :: 0 <= i < n ==> !HoldsText(offsets[i], prefixChars)
    ensures n < |offsets| ==> HoldsText(offsets[n], prefixChars)
  {
    n := 0;
    for i := 0 to |offsets|
      invariant n == i && forall j :: 0 <= j < n ==> !HoldsText(offsets[j], prefixChars)
    {
      HoldsTextIff(offsets[i], prefixChars);
      if offsets[i].end <= offsets[i].start {
        n := n + 1;
        continue;
      }
      if offsets[i].end <= prefixChars {
        n := n + 1;
        continue;
      }
      break;
    }
  }

  // ---- The span of a window ----

  /** A character position moved into the caller's text, which starts after the prefix. */
  function Clip(x: int, prefixChars: nat, textChars: nat): nat
    requires prefixChars <= textChars
  {
    Min(Max(x, prefixChars), textChars)
  }

  predicate IsFull(offsets: seq<Span>, i: nat)
    requires i < |offsets|
  {
    offsets[i].start < offsets[i].end
  }

  ghost predicate NoneFull(offsets: seq<Span>, from: nat, to: nat)
    requires from <= to <= |offsets|
  {
    forall i :: from <= i < to ==> !IsFull(offsets, i)
  }

  /** `lo` and `hi` are the least start and the greatest end of the window's tokens, clipped. */
  ghost predicate IsHull(offsets: seq<Span>, from: nat, to: nat, p: nat, len: nat, lo: nat, hi: nat)
    requires from <= to <= |offsets| && p <= len
  {
    && (exists i :: from <= i < to && IsFull(offsets, i) && Clip(offsets[i].start, p, len) == lo)
    && (exists i :: from <= i < to && IsFull(offsets, i) && Clip(offsets[i].end, p, len) == hi)
    && (forall i :: from <= i < to && IsFull(offsets, i) ==>
          lo <= Clip(offsets[i].start, p, len) && Clip(offsets[i].end, p, len) <= hi)
  }

  lemma HullOrdered(offsets: seq<Span>, from: nat, to: nat, p: nat, len: nat, lo: nat, hi: nat)
    requires from <= to <= |offsets| && p <= len && IsHull(offsets, from, to, p, len, lo, hi)
    ensures p <= lo <= hi <= len
  {
    var i :| from <= i < to && IsFull(offsets, i) && Clip(offsets[i].start, p, len) == lo;
  }

  /** One more token. */
  lemma HullGrows(offsets: seq<Span>, from: nat, to: nat, p: nat, len: nat, lo: nat, hi: nat)
    requires from <= to < |offsets| && p <= len && IsFull(offsets, to) && IsHull(offsets, from, to, p, len, lo, hi)
    ensures IsHull(offsets, from, to + 1, p, len,
                   Min(lo, Clip(offsets[to].start, p, len)), Max(hi, Clip(offsets[to].end, p, len)))
  {
  }

  lemma HullStarts(offsets: seq<Span>, from: nat, to: nat, p: nat, len: nat)
    requires from <= to < |offsets| && p <= len && IsFull(offsets, to) && NoneFull(offsets, from, to)
    ensures IsHull(offsets, from, to + 1, p, len, Clip(offsets[to].start, p, len), Clip(offsets[to].end, p, len))
  {
    assert from <= to < to + 1 && IsFull(offsets, to);
  }

  lemma HullSkips(offsets: seq<Span>, from: nat, to: nat, p: nat, len: nat, lo: nat, hi: nat)
    requires from <= to < |offsets| && p <= len && !IsFull(offsets, to) && IsHull(offsets, from, to, p, len, lo, hi)
    ensures IsHull(offsets, from, to + 1, p, len, lo, hi)
  {
  }

  ghost predicate IsTable(table: seq<nat>, text: string) {
    |table| == |text| + 1 && forall i :: 0 <= i <= |text| ==> table[i] == Offset(text, i)
  }

  /** The bytes of the caller's text that a window stands for. */
  ghost predicate SpanOk(offsets: seq<Span>, from: nat, to: nat, p: nat, doc: string, startByte: nat, endByte: nat)
    requires from <= to <= |offsets|
  {
    || (NoneFull(offsets, from, to) && startByte == endByte == 0)
    || exists lo: nat, hi: nat :: HullBytes(offsets, from, to, p, doc, startByte, endByte, lo, hi)
  }

  ghost predicate HullBytes(offsets: seq<Span>, from: nat, to: nat, p: nat, doc: string, startByte: nat, endByte: nat,
                            lo: nat, hi: nat)
    requires from <= to <= |offsets|
  {
    && IsHull(offsets, from, to, p, p + |doc|, lo, hi) && p <= lo <= hi <= p + |doc|
    && startByte == Offset(doc, lo - p) && endByte == Offset(doc, hi - p)
  }

  lemma OffsetOrder(text: string, a: nat, b: nat)
    requires a <= |text| && b <= |text|
    ensures Min(Offset(text, a), Offset(text, b)) == Offset(text, Min(a, b))
    ensures Max(Offset(text, a), Offset(text, b)) == Offset(text, Max(a, b))
  {
    if a < b { OffsetMonotone(text, a, b); }
    if b < a { OffsetMonotone(text, b, a); }
  }

  /** `chunk_byte_span`: the UTF-8 image of the hull. */
  method ChunkByteSpan(offsets: seq<Span>, startToken: nat, endToken: nat, prefix: string, doc: string,
                       byteAt: seq<nat>)
    returns (startByte: nat, endByte: nat)
    requires startToken <= endToken <= |offsets| && IsTable(byteAt, prefix + doc)
    ensures SpanOk(offsets, startToken, endToken, |prefix|, doc, startByte, endByte)
  {
    hide Offset, IsHull;
    var prefixChars, prefixBytes, docBytes := |prefix|, |Encode(prefix)|, |Encode(doc)|;
    ghost var text, len := prefix + doc, |prefix| + |doc|;
    var lo, hi := -1, -1;
    ghost var loChar: nat, hiChar: nat := 0, 0;
    for i := startToken to endToken
      invariant lo == -1 ==> NoneFull(offsets, startToken, i)
      invariant lo != -1 ==> IsHull(offsets, startToken, i, prefixChars, len, loChar, hiChar)
      invariant lo != -1 ==> loChar <= len && hiChar <= len && lo == Offset(text, loChar) && hi == Offset(text, hiChar)
    {
      var a, b := offsets[i].start, offsets[i].end;
      if b <= a {
        if lo != -1 {
          HullSkips(offsets, startToken, i, prefixChars, len, loChar, hiChar);
        }
        continue;
      }
      a := Min(Max(a, prefixChars), |byteAt| - 1);
      b := Min(Max(b, prefixChars), |byteAt| - 1);
      var ab, bb := byteAt[a], byteAt[b];
      if lo == -1 {
        HullStarts(offsets, startToken, i, prefixChars, len);
        lo, hi, loChar, hiChar := ab, bb, a, b;
      } else {
        HullGrows(offsets, startToken, i, prefixChars, len, loChar, hiChar);
        OffsetOrder(text, loChar, a);
        OffsetOrder(text, hiChar, b);
        lo, hi, loChar, hiChar := Min(lo, ab), Max(hi, bb), Min(loChar, a), Max(hiChar, b);
      }
    }
    if lo == -1 {
      return 0, 0;
    }
    HullOrdered(offsets, startToken, endToken, prefixChars, len, loChar, hiChar);
    OffsetPastPrefix(prefix, doc, loChar - prefixChars);
    OffsetPastPrefix(prefix, doc, hiChar - prefixChars);
    OffsetOrder(doc, loChar - prefixChars, hiChar - prefixChars);
    OffsetOrder(doc, hiChar - prefixChars, |doc|);
    OffsetWhole(doc);
    startByte := Min(Max(lo - prefixBytes, 0), docBytes);
    endByte := Min(Max(hi - prefixBytes, 0), docBytes);
    if endByte < startByte {
      endByte := startByte;
    }
    assert HullBytes(offsets, startToken, endToken, prefixChars, doc, startByte, endByte, loChar, hiChar);
  }

  /** Main result: a window's span always slices the caller's text, and the slice is the encoding of
      whole characters of it. */
  lemma SpanSlices(offsets: seq<Span>, from: nat, to: nat, p: nat, doc: string, startByte: nat, endByte: nat)
    returns (i: nat, j: nat)
    requires from <= to <= |offsets| && SpanOk(offsets, from, to, p, doc, startByte, endByte)
    ensures i <= j <= |doc| && Get(Encode(doc), startByte, endByte) == Bytes(Encode(doc[i..j]))
    ensures forall t, x :: from <= t < to && Within(offsets[t], x) && p <= x < p + |doc| ==> i <= x - p < j
  {
    hide Offset, Get;
    if NoneFull(offsets, from, to) && startByte == endByte == 0 {
      i, j := 0, 0;
      forall t, x | from <= t < to ensures !Within(offsets[t], x) { assert !IsFull(offsets, t); }
      SliceAtOffsets(doc, 0, 0);
      OffsetZero(doc);
    } else {
      var lo: nat, hi: nat :| HullBytes(offsets, from, to, p, doc, startByte, endByte, lo, hi);
      i, j := lo - p, hi - p;
      SliceAtOffsets(doc, i, j);
      forall t, x | from <= t < to && Within(offsets[t], x) && p <= x < p + |doc| ensures i <= x - p < j {
        assert IsFull(offsets, t);
      }
    }
  }

  lemma OffsetZero(s: string)
    ensures Offset(s, 0) == 0
  {
  }

  /** And nothing more: when each token of the window carries text, the first and the last character
      of the slice are a token's. */
  lemma SpanIsTight(offsets: seq<Span>, from: nat, to: nat, p: nat, doc: string, lo: nat, hi: nat)
    requires from <= to <= |offsets| && doc != "" && IsHull(offsets, from, to, p, p + |doc|, lo, hi)
    requires forall t :: from <= t < to && IsFull(offsets, t) ==> p < offsets[t].end && offsets[t].start < p + |doc|
    ensures p <= lo < hi <= p + |doc|
    ensures exists t :: from <= t < to && Within(offsets[t], lo)
    ensures exists t :: from <= t < to && Within(offsets[t], hi - 1)
  {
    var s :| from <= s < to && IsFull(offsets, s) && Clip(offsets[s].start, p, p + |doc|) == lo;
    var e :| from <= e < to && IsFull(offsets, e) && Clip(offsets[e].end, p, p + |doc|) == hi;
    assert Within(offsets[s], lo) && Within(offsets[e], hi - 1);
  }

  // ---- One input through the service, and its pieces ----

  datatype Chunk<V> = Chunk(startToken: nat, endToken: nat, startByte: nat, endByte: nat, vector: V)

  datatype Embedded<V> = Embedded(chunks: seq<Chunk<V>>, prefixTokens: nat) | NoTokens

  /** A window's chunk: its tokens, less the dropped ones, and their bytes. */
  ghost predicate ChunkOk<V>(c: Chunk<V>, w: Window, dropped: nat, offsets: seq<Span>, prefixChars: nat, doc: string) {
    && c.startToken == w.start && c.endToken == w.end && w.start <= w.end && dropped + w.end <= |offsets|
    && SpanOk(offsets, dropped + w.start, dropped + w.end, prefixChars, doc, c.startByte, c.endByte)
  }

  /** The vector is pooled from the hidden states of exactly the window's tokens. */
  ghost predicate PooledFrom<H, V>(v: V, w: Window, dropped: nat, hidden: seq<H>, pool: seq<H> -> V) {
    w.start <= w.end && dropped + w.end <= |hidden| && v == pool(hidden[dropped + w.start..dropped + w.end])
  }

  /** The token-level half of `embed`: `hidden` has a state for each token, and `pool` makes the vector
      of some of them. */
  method EmbedInput<H, V>(prefix: string, doc: string, offsets: seq<Span>, hidden: seq<H>, size: nat, overlap: nat,
                          pool: seq<H> -> V)
    returns (r: Embedded<V>)
    requires size >= 1 && |hidden| == |offsets|
    ensures r.NoTokens? <==> forall i :: 0 <= i < |offsets| ==> !HoldsText(offsets[i], |prefix|)
    ensures r.Embedded? ==>
      && r.prefixTokens < |offsets| && HoldsText(offsets[r.prefixTokens], |prefix|)
      && (forall i :: 0 <= i < r.prefixTokens ==> !HoldsText(offsets[i], |prefix|))
      && var ws := Tiling(|offsets| - r.prefixTokens, size, overlap);
         && |r.chunks| == |ws|
         && (forall i :: 0 <= i < |ws| ==> ChunkOk(r.chunks[i], ws[i], r.prefixTokens, offsets, |prefix|, doc))
         && forall i :: 0 <= i < |ws| ==> PooledFrom(r.chunks[i].vector, ws[i], r.prefixTokens, hidden, pool)
  {
    hide ChunkOk, HoldsText, Tiling, IsTable;
    var n := CountPrefixTokens(offsets, |prefix|);
    var tokenCount := |offsets| - n;
    if tokenCount < 1 {
      return NoTokens;
    }
    var byteAt := CharToByteTable(prefix + doc);
    var boundaries := WindowBoundaries(tokenCount, size, overlap);
    WindowsWithin(tokenCount, size, overlap);
    TableIs(byteAt, prefix + doc);
    var kept := hidden[n..];
    var chunks := CutWindows(prefix, doc, offsets, n, boundaries, byteAt, kept, pool);
    forall i | 0 <= i < |boundaries| ensures PooledFrom(chunks[i].vector, boundaries[i], n, hidden, pool) {
      KeptSlice(hidden, n, boundaries[i]);
    }
    return Embedded(chunks, n);
  }

  lemma WindowsWithin(n: nat, size: nat, overlap: nat)
    requires n >= 1 && size >= 1
    ensures forall w :: w in Tiling(n, size, overlap) ==> w.start <= w.end <= n
  {
    WindowsTile(n, size, overlap);
  }

  lemma TableIs(table: seq<nat>, text: string)
    requires |table| == |text| + 1 && forall i :: 0 <= i <= |text| ==> table[i] == Offset(text, i)
    ensures IsTable(table, text)
  {
  }

  lemma KeptSlice<H>(hidden: seq<H>, n: nat, w: Window)
    requires w.start <= w.end && n + w.end <= |hidden|
    ensures hidden[n..][w.start..w.end] == hidden[n + w.start..n + w.end]
  {
  }

  method CutWindows<H, V>(prefix: string, doc: string, offsets: seq<Span>, n: nat, boundaries: seq<Window>,
                          byteAt: seq<nat>, kept: seq<H>, pool: seq<H> -> V)
    returns (chunks: seq<Chunk<V>>)
    requires IsTable(byteAt, prefix + doc) && n <= |offsets| && |kept| == |offsets| - n
    requires forall i :: 0 <= i < |boundaries| ==>
      boundaries[i].start <= boundaries[i].end && n + boundaries[i].end <= |offsets|
    ensures |chunks| == |boundaries|
    ensures forall i :: 0 <= i < |chunks| ==> ChunkOk(chunks[i], boundaries[i], n, offsets, |prefix|, doc)
    ensures forall i :: 0 <= i < |chunks| ==> chunks[i].vector == pool(kept[boundaries[i].start..boundaries[i].end])
  {
    hide SpanOk, IsTable;
    chunks := [];
    for i := 0 to |boundaries|
      invariant |chunks| == i
      invariant forall j :: 0 <= j < i ==> ChunkOk(chunks[j], boundaries[j], n, offsets, |prefix|, doc)
      invariant forall j :: 0 <= j < i ==> chunks[j].vector == pool(kept[boundaries[j].start..boundaries[j].end])
    {
      var w := boundaries[i];
      var startByte, endByte := ChunkByteSpan(offsets, n + w.start, n + w.end, prefix, doc, byteAt);
      chunks := chunks + [Chunk(w.start, w.end, startByte, endByte, pool(kept[w.start..w.end]))];
    }
  }

  datatype TextChunk = TextChunk(text: seq<Byte>, startChar: nat, endChar: nat, index: nat, total: nat)

  datatype Pieces<V> = Pieces(chunks: seq<TextChunk>, vectors: seq<V>) | Unsliceable(at: nat)

  /** `late_pieces`: the one place the span contract is enforced. */
  method LatePieces<V>(text: seq<Byte>, late: seq<Chunk<V>>) returns (r: Pieces<V>)
    ensures match r
      case Pieces(chunks, vectors) =>
        && |chunks| == |vectors| == |late|
        && forall i :: 0 <= i < |late| ==>
             && vectors[i] == late[i].vector && Get(text, late[i].startByte, late[i].endByte) == Bytes(chunks[i].text)
             && chunks[i] == TextChunk(chunks[i].text, late[i].startByte, late[i].endByte, i, |late|)
      case Unsliceable(at) =>
        && at < |late| && Get(text, late[at].startByte, late[at].endByte) == NoSlice
        && forall i :: 0 <= i < at ==> Get(text, late[i].startByte, late[i].endByte) != NoSlice
  {
    hide Get;
    var chunks: seq<TextChunk>, vectors: seq<V> := [], [];
    for i := 0 to |late|
      invariant |chunks| == |vectors| == i
      invariant forall j :: 0 <= j < i ==>
        && vectors[j] == late[j].vector && Get(text, late[j].startByte, late[j].endByte) == Bytes(chunks[j].text)
        && chunks[j] == TextChunk(chunks[j].text, late[j].startByte, late[j].endByte, j, |late|)
    {
      var slice := Get(text, late[i].startByte, late[i].endByte);
      if slice.NoSlice? {
        return Unsliceable(i);
      }
      chunks := chunks + [TextChunk(slice.bs, late[i].startByte, late[i].endByte, i, |late|)];
      vectors := vectors + [late[i].vector];
    }
    return Pieces(chunks, vectors);
  }

  ghost predicate IsSubstring(s: string, doc: string) {
    exists i, j :: 0 <= i <= j <= |doc| && s == doc[i..j]
  }

  /** The slice is the encoding of some of the text's characters. */
  ghost predicate IsPiece(doc: string, slice: Slice) {
    exists s: string :: IsSubstring(s, doc) && slice == Bytes(Encode(s))
  }

  lemma ChunkSlices<V>(c: Chunk<V>, w: Window, dropped: nat, offsets: seq<Span>, prefixChars: nat, doc: string)
    requires ChunkOk(c, w, dropped, offsets, prefixChars, doc)
    ensures IsPiece(doc, Get(Encode(doc), c.startByte, c.endByte))
  {
    hide SpanOk, Get;
    var from, to := SpanSlices(offsets, dropped + w.start, dropped + w.end, prefixChars, doc, c.startByte, c.endByte);
    assert IsSubstring(doc[from..to], doc);
  }

  /** A piece is the text of its window's tokens: its bytes are those of the window's span. */
  ghost predicate PieceOf(c: TextChunk, w: Window, dropped: nat, offsets: seq<Span>, prefixChars: nat, doc: string) {
    && w.start <= w.end && dropped + w.end <= |offsets|
    && SpanOk(offsets, dropped + w.start, dropped + w.end, prefixChars, doc, c.startChar, c.endChar)
    && Get(Encode(doc), c.startChar, c.endChar) == Bytes(c.text)
  }

  /** Main result, end to end: for any offsets and any prefix, what the service answers for a text
      is never rejected by the consumer; each piece is whole characters of the text, those of its
      window's tokens, and goes with the vector of the hidden states of the same tokens. */
  method EmbedThenCut<H, V>(prefix: string, doc: string, offsets: seq<Span>, hidden: seq<H>, size: nat, overlap: nat,
                            pool: seq<H> -> V)
    returns (r: Embedded<V>, pieces: Pieces<V>)
    requires size >= 1 && |hidden| == |offsets|
    ensures r.NoTokens? <==> forall i :: 0 <= i < |offsets| ==> !HoldsText(offsets[i], |prefix|)
    ensures r.Embedded? ==>
      && r.prefixTokens < |offsets| && HoldsText(offsets[r.prefixTokens], |prefix|)
      && (forall i :: 0 <= i < r.prefixTokens ==> !HoldsText(offsets[i], |prefix|))
      && var ws := Tiling(|offsets| - r.prefixTokens, size, overlap);
         && pieces.Pieces? && |pieces.chunks| == |pieces.vectors| == |ws|
         && (forall i :: 0 <= i < |ws| ==> IsPiece(doc, Bytes(pieces.chunks[i].text)))
         && (forall i :: 0 <= i < |ws| ==>
               PieceOf(pieces.chunks[i], ws[i], r.prefixTokens, offsets, |prefix|, doc)
               && PooledFrom(pieces.vectors[i], ws[i], r.prefixTokens, hidden, pool))
  {
    hide IsPiece, ChunkOk, Get, Tiling, HoldsText, PooledFrom, SpanOk;
    r := EmbedInput(prefix, doc, offsets, hidden, size, overlap, pool);
    if r.NoTokens? {
      return r, Pieces([], []);
    }
    pieces := LatePieces(Encode(doc), r.chunks);
    ghost var ws := Tiling(|offsets| - r.prefixTokens, size, overlap);
    forall i | 0 <= i < |r.chunks| ensures IsPiece(doc, Get(Encode(doc), r.chunks[i].startByte, r.chunks[i].endByte)) {
      ChunkSlices(r.chunks[i], ws[i], r.prefixTokens, offsets, |prefix|, doc);
    }
    forall i | 0 <= i < |r.chunks| ensures Get(Encode(doc), r.chunks[i].startByte, r.chunks[i].endByte) != NoSlice {
      PieceIsBytes(doc, Get(Encode(doc), r.chunks[i].startByte, r.chunks[i].endByte));
    }
    forall i | 0 <= i < |ws| ensures PieceOf(pieces.chunks[i], ws[i], r.prefixTokens, offsets, |prefix|, doc) {
      ChunkIsPiece(r.chunks[i], pieces.chunks[i], ws[i], r.prefixTokens, offsets, |prefix|, doc);
    }
  }

  lemma ChunkIsPiece<V>(c: Chunk<V>, piece: TextChunk, w: Window, dropped: nat, offsets: seq<Span>, prefixChars: nat,
                        doc: string)
    requires ChunkOk(c, w, dropped, offsets, prefixChars, doc) && piece.startChar == c.startByte
    requires piece.endChar == c.endByte && Get(Encode(doc), c.startByte, c.endByte) == Bytes(piece.text)
    ensures PieceOf(piece, w, dropped, offsets, prefixChars, doc)
  {
    hide SpanOk, Get;
  }

  lemma PieceIsBytes(doc: string, slice: Slice)
    requires IsPiece(doc, slice)
    ensures slice != NoSlice
  {
  }
}
