/** `SentenceChunking` of crates/yeomna-chunking/src/strategies.rs: splitting on sentence ends, then
    packing whole sentences greedily. */
module Sentences {
  import opened Utf8

  // ---- Splitting ----

  /** `is_ascii_whitespace`: tab, line feed, form feed, carriage return, space. */
  predicate IsBlank(b: Byte) {
    b == 0x09 || b == 0x0A || b == 0x0C || b == 0x0D || b == 0x20
  }

  predicate IsStop(b: Byte) {
    b == '.' as int || b == '!' as int || b == '?' as int
  }

  /** A stop at the end of the text or before whitespace. */
  predicate IsBreak(bs: seq<Byte>, i: nat)
    requires i < |bs|
  {
    IsStop(bs[i]) && (i + 1 >= |bs| || IsBlank(bs[i + 1]))
  }

  datatype Span = Span(start: nat, end: nat)

  predicate AllBlank(bs: seq<Byte>, from: nat, to: nat) {
    forall i :: from <= i < to && i < |bs| ==> IsBlank(bs[i])
  }

  predicate NoBreak(bs: seq<Byte>, from: nat, to: nat) {
    forall i :: from <= i < to && i < |bs| ==> !IsBreak(bs, i)
  }

  /** A sentence runs to the first break in it, or to the end of the text. */
  predicate IsSentence(bs: seq<Byte>, s: Span) {
    && s.start < s.end <= |bs| && NoBreak(bs, s.start, s.end - 1)
    && (s.end == |bs| || IsBreak(bs, s.end - 1))
  }

  /** The sentence after a position starts at the first byte that is not blank. */
  predicate Follows(bs: seq<Byte>, end: nat, start: nat) {
    end <= start < |bs| && AllBlank(bs, end, start) && !IsBlank(bs[start])
  }

  ghost predicate IsPart(bs: seq<Byte>, ss: seq<Span>) {
    && (ss != [] ==> ss[0].start == 0)
    && (forall k :: 0 <= k < |ss| ==> IsSentence(bs, ss[k]))
    && (forall k :: 0 <= k < |ss| - 1 ==> Follows(bs, ss[k].end, ss[k + 1].start))
  }

  /** What `split_sentences` returns: all the text but blanks between sentences and at the end. */
  ghost predicate IsSplit(bs: seq<Byte>, ss: seq<Span>) {
    && IsPart(bs, ss)
    && (if ss == [] then bs == [] else AllBlank(bs, ss[|ss| - 1].end, |bs|))
  }

  lemma PartEmpty(bs: seq<Byte>)
    ensures IsPart(bs, [])
  {
  }

  /** One more sentence, where the one before it says it starts. */
  lemma PartAppend(bs: seq<Byte>, ss: seq<Span>, s: Span)
    requires IsPart(bs, ss) && IsSentence(bs, s)
    requires if ss == [] then s.start == 0 else Follows(bs, ss[|ss| - 1].end, s.start)
    ensures IsPart(bs, ss + [s])
  {
    hide IsSentence, Follows;
  }

  /** `split_sentences`. */
  method SplitSentences(bytes: seq<Byte>) returns (sentences: seq<Span>)
    ensures IsSplit(bytes, sentences)
  {
    hide IsPart;
    sentences := [];
    PartEmpty(bytes);
    var start, i, len := 0, 0, |bytes|;
    while i < len
      invariant start <= i <= len && NoBreak(bytes, start, i)
      invariant IsPart(bytes, sentences)
      invariant if sentences == [] then start == 0
                else sentences[|sentences| - 1].end <= start && AllBlank(bytes, sentences[|sentences| - 1].end, start)
      invariant sentences != [] && start < len ==> !IsBlank(bytes[start])
    {
      if IsStop(bytes[i]) {
        var after := i + 1;
        if after >= len || IsBlank(bytes[after]) {
          var end := if after < len then after else len;
          var trimEnd := end;
          while trimEnd < len && IsBlank(bytes[trimEnd])
            invariant end <= trimEnd <= len && AllBlank(bytes, end, trimEnd)
          {
            trimEnd := trimEnd + 1;
          }
          PartAppend(bytes, sentences, Span(start, end));
          sentences := sentences + [Span(start, end)];
          start := trimEnd;
          i := trimEnd;
          continue;
        }
      }
      i := i + 1;
    }
    if start < len {
      PartAppend(bytes, sentences, Span(start, len));
      sentences := sentences + [Span(start, len)];
    }
  }

  lemma SameSentence(bs: seq<Byte>, s: Span, t: Span)
    requires IsSentence(bs, s) && IsSentence(bs, t) && s.start == t.start
    ensures s == t
  {
  }

  lemma SameStart(bs: seq<Byte>, end: nat, a: nat, b: nat)
    requires Follows(bs, end, a) && Follows(bs, end, b)
    ensures a == b
  {
  }

  lemma {:induction false} SplitsAgree(bs: seq<Byte>, ss: seq<Span>, ts: seq<Span>, k: nat)
    requires IsSplit(bs, ss) && IsSplit(bs, ts) && k < |ss| && k < |ts|
    ensures ss[k] == ts[k]
  {
    if k > 0 {
      SplitsAgree(bs, ss, ts, k - 1);
      SameStart(bs, ss[k - 1].end, ss[k].start, ts[k].start);
    }
    SameSentence(bs, ss[k], ts[k]);
  }

  lemma HasBytes(bs: seq<Byte>, ss: seq<Span>)
    requires IsPart(bs, ss) && ss != []
    ensures bs != []
  {
    assert IsSentence(bs, ss[0]);
  }

  lemma NotLast(bs: seq<Byte>, ss: seq<Span>, k: nat)
    requires IsPart(bs, ss) && k + 1 < |ss|
    ensures !AllBlank(bs, ss[k].end, |bs|)
  {
    assert Follows(bs, ss[k].end, ss[k + 1].start);
  }

  lemma NoLonger(bs: seq<Byte>, ss: seq<Span>, ts: seq<Span>)
    requires IsSplit(bs, ss) && IsSplit(bs, ts)
    ensures |ts| <= |ss|
  {
    if |ss| < |ts| {
      if ss == [] {
        HasBytes(bs, ts);
      } else {
        SplitsAgree(bs, ss, ts, |ss| - 1);
        NotLast(bs, ts, |ss| - 1);
      }
    }
  }

  /** The description fixes the sentences. */
  lemma SplitUnique(bs: seq<Byte>, ss: seq<Span>, ts: seq<Span>)
    requires IsSplit(bs, ss) && IsSplit(bs, ts)
    ensures ss == ts
  {
    NoLonger(bs, ss, ts);
    NoLonger(bs, ts, ss);
    forall k | 0 <= k < |ss| ensures ss[k] == ts[k] { SplitsAgree(bs, ss, ts, k); }
  }

  /** Sentences start and end between characters. */
  lemma SentenceBoundaries(text: string, ss: seq<Span>, k: nat)
    requires IsSplit(Encode(text), ss) && k < |ss|
    ensures IsBoundary(Encode(text), ss[k].start) && IsBoundary(Encode(text), ss[k].end)
  {
    hide Encode;
    var bs := Encode(text);
    assert IsSentence(bs, ss[k]);
    if ss[k].end < |bs| {
      AfterAsciiIsBoundary(text, ss[k].end - 1);
    }
    if k > 0 {
      assert IsSentence(bs, ss[k - 1]) && Follows(bs, ss[k - 1].end, ss[k].start);
      AfterAsciiIsBoundary(text, ss[k].start - 1);
    }
  }

  lemma {:induction false} SentencesOrdered(bs: seq<Byte>, ss: seq<Span>, j: nat, k: nat)
    requires IsPart(bs, ss) && j <= k < |ss|
    ensures ss[j].start <= ss[k].start && ss[j].end <= ss[k].end <= |bs| && (j < k ==> ss[j].end <= ss[k].start)
  {
    assert IsSentence(bs, ss[k]);
    if j < k {
      SentencesOrdered(bs, ss, j, k - 1);
      assert Follows(bs, ss[k - 1].end, ss[k].start);
    }
  }

  // ---- Runs of sentences ----

  /** Sentences `first` up to, not including, `end`. */
  datatype Run = Run(first: nat, end: nat)

  predicate IsRun(ss: seq<Span>, first: nat, end: nat) {
    first < end <= |ss| && ss[first].start <= ss[end - 1].end
  }

  /** The characters of a run, with the gaps in it. */
  function Chars(bs: seq<Byte>, ss: seq<Span>, first: nat, end: nat): nat
    requires IsRun(ss, first, end) && ss[end - 1].end <= |bs|
  {
    CharCount(bs[ss[first].start..ss[end - 1].end])
  }

  lemma RunIn(bs: seq<Byte>, ss: seq<Span>, first: nat, end: nat)
    requires IsPart(bs, ss) && first < end <= |ss|
    ensures IsRun(ss, first, end) && ss[end - 1].end <= |bs|
  {
    SentencesOrdered(bs, ss, first, end - 1);
    assert IsSentence(bs, ss[first]);
  }

  lemma SliceCount(bs: seq<Byte>, a: nat, b: nat, c: nat)
    requires a <= b <= c <= |bs|
    ensures CharCount(bs[a..c]) == CharCount(bs[a..b]) + CharCount(bs[b..c])
  {
    assert bs[a..c] == bs[a..b] + bs[b..c];
    CharCountAppend(bs[a..b], bs[b..c]);
  }

  /** A run within a run has no more characters. */
  lemma CharsWithin(bs: seq<Byte>, ss: seq<Span>, a: nat, b: nat, first: nat, end: nat)
    requires IsPart(bs, ss) && a <= first < end <= b <= |ss|
    ensures IsRun(ss, a, b) && ss[b - 1].end <= |bs| && IsRun(ss, first, end) && ss[end - 1].end <= |bs|
    ensures Chars(bs, ss, first, end) <= Chars(bs, ss, a, b)
  {
    RunIn(bs, ss, a, b);
    RunIn(bs, ss, first, end);
    SentencesOrdered(bs, ss, a, first);
    SentencesOrdered(bs, ss, end - 1, b - 1);
    SliceCount(bs, ss[a].start, ss[first].start, ss[b - 1].end);
    SliceCount(bs, ss[first].start, ss[end - 1].end, ss[b - 1].end);
  }

  /** A chunk may hold a run that is within the maximum, or a lone sentence. */
  ghost predicate Feasible(bs: seq<Byte>, ss: seq<Span>, max: nat, first: nat, end: nat)
    requires IsPart(bs, ss)
  {
    && first < end <= |ss|
    && (end == first + 1 || (RunIn(bs, ss, first, end); Chars(bs, ss, first, end) <= max))
  }

  // ---- Greedy packing ----

  /** How far a run that has reached `end` extends. */
  ghost function GreedyEnd(bs: seq<Byte>, ss: seq<Span>, max: nat, first: nat, end: nat): (e: nat)
    requires IsPart(bs, ss) && first < end <= |ss|
    ensures end <= e <= |ss|
    decreases |ss| - end
  {
    if end < |ss| && Feasible(bs, ss, max, first, end + 1) then GreedyEnd(bs, ss, max, first, end + 1) else end
  }

  ghost function Greedy(bs: seq<Byte>, ss: seq<Span>, max: nat, first: nat): seq<Run>
    requires IsPart(bs, ss) && first <= |ss|
    decreases |ss| - first
  {
    if first == |ss| then []
    else
      var e := GreedyEnd(bs, ss, max, first, first + 1);
      [Run(first, e)] + Greedy(bs, ss, max, e)
  }

  /** A division of the sentences from `first` on into consecutive runs that may each be a chunk. */
  ghost predicate IsDivision(bs: seq<Byte>, ss: seq<Span>, max: nat, first: nat, runs: seq<Run>)
    requires IsPart(bs, ss)
    decreases |runs|
  {
    if runs == [] then first == |ss|
    else
      && runs[0].first == first && Feasible(bs, ss, max, first, runs[0].end)
      && IsDivision(bs, ss, max, runs[0].end, runs[1..])
  }

  lemma FeasibleWithin(bs: seq<Byte>, ss: seq<Span>, max: nat, a: nat, first: nat, b: nat)
    requires IsPart(bs, ss) && a <= first < b && Feasible(bs, ss, max, a, b)
    ensures Feasible(bs, ss, max, first, b)
  {
    if first + 1 < b {
      CharsWithin(bs, ss, a, b, first, b);
    }
  }

  lemma FeasibleShorter(bs: seq<Byte>, ss: seq<Span>, max: nat, first: nat, end: nat, b: nat)
    requires IsPart(bs, ss) && first < end <= b && Feasible(bs, ss, max, first, b)
    ensures Feasible(bs, ss, max, first, end)
  {
    if first + 1 < end {
      CharsWithin(bs, ss, first, b, first, end);
    }
  }

  /** The greedy run is feasible, and no feasible run from its first sentence goes further. */
  lemma {:induction false} GreedyEndIsFurthest(bs: seq<Byte>, ss: seq<Span>, max: nat, first: nat, end: nat)
    requires IsPart(bs, ss) && first < end <= |ss| && Feasible(bs, ss, max, first, end)
    ensures Feasible(bs, ss, max, first, GreedyEnd(bs, ss, max, first, end))
    ensures forall b: nat :: Feasible(bs, ss, max, first, b) ==> b <= GreedyEnd(bs, ss, max, first, end)
    decreases |ss| - end
  {
    hide Feasible;
    if end < |ss| && Feasible(bs, ss, max, first, end + 1) {
      GreedyEndIsFurthest(bs, ss, max, first, end + 1);
    } else {
      forall b: nat | Feasible(bs, ss, max, first, b) ensures b <= end {
        if end < b {
          FeasibleEnds(bs, ss, max, first, b);
          FeasibleShorter(bs, ss, max, first, end + 1, b);
        }
      }
    }
  }

  lemma FeasibleEnds(bs: seq<Byte>, ss: seq<Span>, max: nat, first: nat, b: nat)
    requires IsPart(bs, ss) && Feasible(bs, ss, max, first, b)
    ensures first < b <= |ss|
  {
  }

  lemma LoneIsFeasible(bs: seq<Byte>, ss: seq<Span>, max: nat, first: nat)
    requires IsPart(bs, ss) && first < |ss|
    ensures Feasible(bs, ss, max, first, first + 1)
  {
  }

  /** Greedy packing is a division into feasible runs. */
  lemma {:induction false} GreedyDivides(bs: seq<Byte>, ss: seq<Span>, max: nat, first: nat)
    requires IsPart(bs, ss) && first <= |ss|
    ensures IsDivision(bs, ss, max, first, Greedy(bs, ss, max, first))
    decreases |ss| - first
  {
    hide Feasible, IsPart;
    if first < |ss| {
      LoneIsFeasible(bs, ss, max, first);
      GreedyEndIsFurthest(bs, ss, max, first, first + 1);
      GreedyDivides(bs, ss, max, GreedyEnd(bs, ss, max, first, first + 1));
    }
  }

  /** A greedy packing that starts no earlier has no more chunks than any division. */
  lemma {:induction false} GreedyStaysAhead(bs: seq<Byte>, ss: seq<Span>, max: nat, first: nat, ahead: nat,
                                            runs: seq<Run>)
    requires IsPart(bs, ss) && first <= ahead <= |ss| && IsDivision(bs, ss, max, first, runs)
    ensures |Greedy(bs, ss, max, ahead)| <= |runs|
    decreases |runs|
  {
    hide Feasible, IsPart;
    if ahead < |ss| {
      var b, e := runs[0].end, GreedyEnd(bs, ss, max, ahead, ahead + 1);
      LoneIsFeasible(bs, ss, max, ahead);
      GreedyEndIsFurthest(bs, ss, max, ahead, ahead + 1);
      if ahead < b {
        FeasibleWithin(bs, ss, max, first, ahead, b);
      }
      GreedyStaysAhead(bs, ss, max, b, e, runs[1..]);
    }
  }

  /** Main result: no division of the sentences into consecutive feasible runs uses fewer chunks. */
  lemma GreedyIsOptimal(bs: seq<Byte>, ss: seq<Span>, max: nat, runs: seq<Run>)
    requires IsPart(bs, ss) && IsDivision(bs, ss, max, 0, runs)
    ensures IsDivision(bs, ss, max, 0, Greedy(bs, ss, max, 0)) && |Greedy(bs, ss, max, 0)| <= |runs|
  {
    GreedyDivides(bs, ss, max, 0);
    GreedyStaysAhead(bs, ss, max, 0, 0, runs);
  }

  // ---- Sentences in characters ----

  predicate IsStopChar(c: char) {
    c == '.' || c == '!' || c == '?'
  }

  predicate IsBlankChar(c: char) {
    c == ' ' || c == '\t' || c == '\n' || c == '\r' || c as int == 12
  }

  /** A stop before a blank, or at the end of the text. */
  predicate EndsAt(text: string, m: nat)
    requires m < |text|
  {
    IsStopChar(text[m]) && (m + 1 == |text| || IsBlankChar(text[m + 1]))
  }

  lemma ByteOfChar(text: string, m: nat)
    requires m < |text|
    ensures Offset(text, m + 1) == Offset(text, m) + |EncodeChar(text[m])| <= |Encode(text)|
    ensures Encode(text)[Offset(text, m)] == EncodeChar(text[m])[0]
  {
    OffsetSplit(text, m, m + 1);
    assert text[m..m + 1] == [text[m]];
    assert Encode([text[m]]) == EncodeChar(text[m]) + Encode("");
  }

  lemma AsciiByte(c: char)
    ensures EncodeChar(c)[0] < 0x80 ==> EncodeChar(c) == [c as int]
    ensures IsStop(EncodeChar(c)[0]) <==> IsStopChar(c)
    ensures IsBlank(EncodeChar(c)[0]) <==> IsBlankChar(c)
  {
    EncodeCharShape(c);
  }

  lemma BreakIff(text: string, m: nat)
    requires m < |text|
    ensures Offset(text, m) < |Encode(text)|
    ensures IsBreak(Encode(text), Offset(text, m)) <==> EndsAt(text, m)
    ensures EndsAt(text, m) ==> Offset(text, m + 1) == Offset(text, m) + 1
  {
    hide Encode, Offset, EncodeChar;
    ByteOfChar(text, m);
    AsciiByte(text[m]);
    OffsetsEnd(text, m + 1);
    if m + 1 < |text| {
      ByteOfChar(text, m + 1);
      AsciiByte(text[m + 1]);
    }
  }

  lemma OffsetsEnd(text: string, m: nat)
    requires m <= |text|
    ensures Offset(text, m) == |Encode(text)| <==> m == |text|
  {
    assert text[..|text|] == text;
    if m < |text| {
      OffsetMonotone(text, m, |text|);
    }
  }

  lemma OffsetsOrder(text: string, i: nat, j: nat)
    requires i <= |text| && j <= |text|
    ensures i < j <==> Offset(text, i) < Offset(text, j)
  {
    if i < j { OffsetMonotone(text, i, j); }
    if j < i { OffsetMonotone(text, j, i); }
  }

  /** Main result: in the characters of the text, a sentence runs to the first stop before a blank or the
      end of the text, and starts at the first character that is not blank after the one before it. */
  lemma SentenceCharacters(text: string, ss: seq<Span>, k: nat) returns (i: nat, j: nat)
    requires IsSplit(Encode(text), ss) && k < |ss|
    ensures i < j <= |text| && Offset(text, i) == ss[k].start && Offset(text, j) == ss[k].end
    ensures j == |text| || EndsAt(text, j - 1)
    ensures forall m :: i <= m < j - 1 ==> !EndsAt(text, m)
    ensures k == 0 ==> i == 0
    ensures k > 0 ==> !IsBlankChar(text[i])
    ensures k > 0 ==> forall m: nat :: m < i && ss[k - 1].end <= Offset(text, m) ==> IsBlankChar(text[m])
  {
    hide Encode, Offset, EncodeChar, IsBreak, EndsAt;
    var bs := Encode(text);
    SentenceBoundaries(text, ss, k);
    assert IsSentence(bs, ss[k]);
    i := BoundaryIsOffset(text, ss[k].start);
    j := BoundaryIsOffset(text, ss[k].end);
    OffsetsOrder(text, i, j);
    OffsetsEnd(text, j);
    forall m | i <= m < j - 1 ensures !EndsAt(text, m) {
      NotBefore(text, ss[k], i, j, m);
    }
    if j < |text| {
      EndIsBreak(text, ss[k], j);
    }
    if k > 0 {
      assert Follows(bs, ss[k - 1].end, ss[k].start);
      ByteOfChar(text, i);
      AsciiByte(text[i]);
      forall m: nat | m < i && ss[k - 1].end <= Offset(text, m) ensures IsBlankChar(text[m]) {
        OffsetsOrder(text, m, i);
        ByteOfChar(text, m);
        AsciiByte(text[m]);
      }
    } else {
      StartIsZero(text, i);
    }
  }

  lemma StartIsZero(text: string, i: nat)
    requires i <= |text| && Offset(text, i) == 0
    ensures i == 0
  {
    if i > 0 {
      OffsetMonotone(text, 0, i);
    }
  }

  lemma NotBefore(text: string, s: Span, i: nat, j: nat, m: nat)
    requires IsSentence(Encode(text), s) && i <= m < j - 1 && j <= |text|
    requires Offset(text, i) == s.start && Offset(text, j) == s.end
    ensures !EndsAt(text, m)
  {
    hide Encode, Offset, EndsAt, IsBreak;
    BreakIff(text, m);
    OffsetsOrder(text, i, m);
    OffsetsOrder(text, m, m + 1);
    OffsetsOrder(text, m + 1, j);
    OffsetsOrder(text, m, i);
  }

  lemma EndIsBreak(text: string, s: Span, j: nat)
    requires IsSentence(Encode(text), s) && 0 < j < |text| && Offset(text, j) == s.end < |Encode(text)|
    ensures EndsAt(text, j - 1)
  {
    hide Encode, Offset, EndsAt;
    assert IsBreak(Encode(text), s.end - 1);
    AfterAsciiIsBoundary(text, s.end - 1);
    var m := BoundaryIsOffset(text, s.end - 1);
    OffsetsEnd(text, m);
    BreakIff(text, m);
    OffsetsOrder(text, m + 1, j);
    OffsetsOrder(text, j, m + 1);
    assert m + 1 == j;
  }

  // ---- Counts are of characters ----

  /** A run is whole characters of the text, and its count is how many. */
  lemma CharsAreCharacters(text: string, ss: seq<Span>, first: nat, end: nat) returns (i: nat, j: nat)
    requires IsSplit(Encode(text), ss) && first < end <= |ss|
    ensures IsRun(ss, first, end) && ss[end - 1].end <= |Encode(text)| && i <= j <= |text|
    ensures Offset(text, i) == ss[first].start && Offset(text, j) == ss[end - 1].end
    ensures Encode(text)[ss[first].start..ss[end - 1].end] == Encode(text[i..j])
    ensures Chars(Encode(text), ss, first, end) == j - i
  {
    hide Encode, Offset, IsBoundary;
    RunIn(Encode(text), ss, first, end);
    SentenceBoundaries(text, ss, first);
    SentenceBoundaries(text, ss, end - 1);
    i := BoundaryIsOffset(text, ss[first].start);
    j := BoundaryIsOffset(text, ss[end - 1].end);
    if j < i {
      OffsetMonotone(text, j, i);
    }
    SliceAtOffsets(text, i, j);
    CharCountEncode(text[i..j]);
  }

  lemma {:induction false} DivisionRun(bs: seq<Byte>, ss: seq<Span>, max: nat, first: nat, runs: seq<Run>, k: nat)
    requires IsPart(bs, ss) && IsDivision(bs, ss, max, first, runs) && k < |runs|
    ensures Feasible(bs, ss, max, runs[k].first, runs[k].end)
    decreases |runs|
  {
    hide Feasible, IsPart;
    if k > 0 {
      DivisionRun(bs, ss, max, runs[0].end, runs[1..], k - 1);
    }
  }

  /** Main result: every chunk is whole characters of the text, at most the maximum of them or a lone
      sentence. */
  lemma WithinMaximum(text: string, ss: seq<Span>, max: nat, k: nat) returns (i: nat, j: nat)
    requires IsSplit(Encode(text), ss) && k < |Greedy(Encode(text), ss, max, 0)|
    ensures var r := Greedy(Encode(text), ss, max, 0)[k];
      && r.first < r.end <= |ss| && i <= j <= |text|
      && Offset(text, i) == ss[r.first].start && Offset(text, j) == ss[r.end - 1].end
      && (j - i <= max || r.end == r.first + 1)
  {
    hide Encode, Greedy, IsPart, Offset;
    var bs := Encode(text);
    GreedyDivides(bs, ss, max, 0);
    var r := Greedy(bs, ss, max, 0)[k];
    DivisionRun(bs, ss, max, 0, Greedy(bs, ss, max, 0), k);
    FeasibleEnds(bs, ss, max, r.first, r.end);
    i, j := CharsAreCharacters(text, ss, r.first, r.end);
  }

  // ---- Chunking ----

  datatype TextChunk = TextChunk(text: seq<Byte>, start: nat, end: nat, index: nat, total: nat)

  /** The chunk of a run. */
  ghost predicate IsChunk(bs: seq<Byte>, ss: seq<Span>, c: TextChunk, r: Run, index: nat, total: nat) {
    && IsRun(ss, r.first, r.end) && c.start == ss[r.first].start && c.end == ss[r.end - 1].end
    && Get(bs, c.start, c.end) == Bytes(c.text) && c.index == index && c.total == total
  }

  ghost predicate AreChunks(bs: seq<Byte>, ss: seq<Span>, cs: seq<TextChunk>, rs: seq<Run>, total: nat) {
    |cs| == |rs| && forall i :: 0 <= i < |cs| ==> IsChunk(bs, ss, cs[i], rs[i], i, total)
  }

  /** The greedy runs, the first of which has reached `end`. */
  ghost function GreedyFrom(bs: seq<Byte>, ss: seq<Span>, max: nat, first: nat, end: nat): seq<Run>
    requires IsPart(bs, ss) && first < end <= |ss|
  {
    var e := GreedyEnd(bs, ss, max, first, end);
    [Run(first, e)] + Greedy(bs, ss, max, e)
  }

  lemma GreedyFromStep(bs: seq<Byte>, ss: seq<Span>, max: nat, first: nat, end: nat)
    requires IsPart(bs, ss) && first < end < |ss|
    ensures GreedyFrom(bs, ss, max, first, end)
         == if Feasible(bs, ss, max, first, end + 1) then GreedyFrom(bs, ss, max, first, end + 1)
            else [Run(first, end)] + GreedyFrom(bs, ss, max, end, end + 1)
  {
    hide Feasible, IsPart;
  }

  lemma JoinCount(bs: seq<Byte>, ss: seq<Span>, first: nat, end: nat)
    requires IsPart(bs, ss) && first < end < |ss|
    ensures IsRun(ss, first, end) && IsRun(ss, first, end + 1) && ss[end - 1].end <= ss[end].start < ss[end].end <= |bs|
    ensures Chars(bs, ss, first, end + 1)
         == Chars(bs, ss, first, end) + CharCount(bs[ss[end - 1].end..ss[end].start])
           + CharCount(bs[ss[end].start..ss[end].end])
  {
    RunIn(bs, ss, first, end);
    RunIn(bs, ss, first, end + 1);
    SentencesOrdered(bs, ss, end - 1, end);
    assert IsSentence(bs, ss[end]);
    SliceCount(bs, ss[first].start, ss[end - 1].end, ss[end].end);
    SliceCount(bs, ss[end - 1].end, ss[end].start, ss[end].end);
  }

  /** A sentence has a character. */
  lemma SentenceCount(text: string, ss: seq<Span>, k: nat)
    requires IsSplit(Encode(text), ss) && k < |ss|
    ensures IsRun(ss, k, k + 1) && ss[k].end <= |Encode(text)| && Chars(Encode(text), ss, k, k + 1) >= 1
  {
    hide Encode;
    var bs := Encode(text);
    SentenceBoundaries(text, ss, k);
    RunIn(bs, ss, k, k + 1);
    assert IsSentence(bs, ss[k]);
    var s := bs[ss[k].start..ss[k].end];
    assert s[0] == bs[ss[k].start];
    StartCounts(text, ss[k].start);
    assert !IsContinuation(s[0]);
  }

  lemma StartCounts(text: string, p: nat)
    requires p < |Encode(text)| && IsBoundary(Encode(text), p)
    ensures !IsContinuation(Encode(text)[p])
  {
    if p == 0 {
      EncodeCharShape(text[0]);
    }
  }

  lemma RunSlices(text: string, ss: seq<Span>, r: Run)
    requires IsSplit(Encode(text), ss) && r.first < r.end <= |ss|
    ensures var bs := Encode(text);
      && IsRun(ss, r.first, r.end) && ss[r.end - 1].end <= |bs|
      && Get(bs, ss[r.first].start, ss[r.end - 1].end) == Bytes(bs[ss[r.first].start..ss[r.end - 1].end])
  {
    hide Encode;
    RunIn(Encode(text), ss, r.first, r.end);
    SentenceBoundaries(text, ss, r.first);
    SentenceBoundaries(text, ss, r.end - 1);
  }

  /** A run cannot take the sentence before which it was flushed back, however far it goes on. */
  lemma NoMergeAfterFlush(bs: seq<Byte>, ss: seq<Span>, max: nat, first: nat, end: nat, last: nat)
    requires IsPart(bs, ss) && first < end < last <= |ss| && !Feasible(bs, ss, max, first, end + 1)
    ensures IsRun(ss, first, last) && ss[last - 1].end <= |bs| && Chars(bs, ss, first, last) > max
  {
    CharsWithin(bs, ss, first, last, first, end + 1);
  }

  /** The run before `first` ended because `first`'s sentence did not fit. */
  ghost predicate Flushed(bs: seq<Byte>, ss: seq<Span>, max: nat, r: Run, first: nat)
    requires IsPart(bs, ss)
  {
    r.end == first && r.first < first < |ss| && !Feasible(bs, ss, max, r.first, first + 1)
  }

  lemma FeasibleIff(bs: seq<Byte>, ss: seq<Span>, max: nat, first: nat, end: nat)
    requires IsPart(bs, ss) && first + 1 < end <= |ss| && IsRun(ss, first, end) && ss[end - 1].end <= |bs|
    ensures Feasible(bs, ss, max, first, end) <==> Chars(bs, ss, first, end) <= max
  {
  }

  lemma GreedyStart(bs: seq<Byte>, ss: seq<Span>, max: nat)
    requires IsPart(bs, ss) && ss != []
    ensures Greedy(bs, ss, max, 0) == GreedyFrom(bs, ss, max, 0, 1)
  {
  }

  lemma GreedyEnds(bs: seq<Byte>, ss: seq<Span>, max: nat, first: nat)
    requires IsPart(bs, ss) && first < |ss|
    ensures GreedyFrom(bs, ss, max, first, |ss|) == [Run(first, |ss|)]
  {
  }

  /** Sentences up to `i` are read: `runs` are flushed and the open run holds `chars` characters. */
  ghost predicate Packing(bs: seq<Byte>, ss: seq<Span>, max: nat, first: nat, i: nat, chars: nat, runs: seq<Run>)
    requires IsPart(bs, ss)
  {
    && first < i <= |ss| && IsRun(ss, first, i) && ss[i - 1].end <= |bs|
    && chars == Chars(bs, ss, first, i) && chars > 0
    && runs + GreedyFrom(bs, ss, max, first, i) == Greedy(bs, ss, max, 0)
    && (runs != [] ==> Flushed(bs, ss, max, runs[|runs| - 1], first))
  }

  lemma PackFirst(text: string, ss: seq<Span>, max: nat)
    requires IsSplit(Encode(text), ss) && ss != []
    ensures ss[0].start <= ss[0].end <= |Encode(text)|
    ensures Packing(Encode(text), ss, max, 0, 1, CharCount(Encode(text)[ss[0].start..ss[0].end]), [])
  {
    hide Encode, IsPart, Greedy, GreedyFrom;
    SentenceCount(text, ss, 0);
    GreedyStart(Encode(text), ss, max);
    assert [] + GreedyFrom(Encode(text), ss, max, 0, 1) == GreedyFrom(Encode(text), ss, max, 0, 1);
  }

  /** One more sentence joins the open run, or the run is flushed. */
  lemma PackNext(text: string, ss: seq<Span>, max: nat, first: nat, i: nat, chars: nat, runs: seq<Run>)
    requires IsSplit(Encode(text), ss) && i < |ss| && Packing(Encode(text), ss, max, first, i, chars, runs)
    ensures ss[i - 1].end <= ss[i].start <= ss[i].end <= |Encode(text)|
    ensures var bs := Encode(text);
      var sent := CharCount(bs[ss[i].start..ss[i].end]);
      var combined := chars + CharCount(bs[ss[i - 1].end..ss[i].start]) + sent;
      if combined > max then Packing(bs, ss, max, i, i + 1, sent, runs + [Run(first, i)])
      else Packing(bs, ss, max, first, i + 1, combined, runs)
  {
    hide Encode, IsPart, Greedy, GreedyFrom, Feasible;
    var bs := Encode(text);
    SentenceCount(text, ss, i);
    JoinCount(bs, ss, first, i);
    GreedyFromStep(bs, ss, max, first, i);
    FeasibleIff(bs, ss, max, first, i + 1);
    assert runs + ([Run(first, i)] + GreedyFrom(bs, ss, max, i, i + 1))
      == runs + [Run(first, i)] + GreedyFrom(bs, ss, max, i, i + 1);
  }

  /** At the end: the open run is the last one, and cannot be merged into the one before it. */
  lemma PackLast(text: string, ss: seq<Span>, max: nat, first: nat, chars: nat, runs: seq<Run>)
    requires IsSplit(Encode(text), ss) && ss != [] && Packing(Encode(text), ss, max, first, |ss|, chars, runs)
    ensures Greedy(Encode(text), ss, max, 0) == runs + [Run(first, |ss|)]
    ensures ss[first].start < ss[|ss| - 1].end
    ensures runs != [] ==>
      var r := runs[|runs| - 1];
        IsRun(ss, r.first, |ss|) && CharCount(Encode(text)[ss[r.first].start..ss[|ss| - 1].end]) > max
  {
    hide Encode, IsPart, Greedy, GreedyFrom, Feasible;
    GreedyEnds(Encode(text), ss, max, first);
    if runs != [] {
      NoMergeAfterFlush(Encode(text), ss, max, runs[|runs| - 1].first, first, |ss|);
    }
  }

  lemma ChunkOfRun(text: string, ss: seq<Span>, r: Run, index: nat)
    requires IsSplit(Encode(text), ss) && r.first < r.end <= |ss|
    ensures var bs := Encode(text);
      && IsRun(ss, r.first, r.end) && ss[r.end - 1].end <= |bs|
      && var (a, b) := (ss[r.first].start, ss[r.end - 1].end);
         IsChunk(bs, ss, TextChunk(bs[a..b], a, b, index, 0), r, index, 0)
  {
    hide Encode, Get;
    RunSlices(text, ss, r);
  }

  /** `chunk`: one chunk for each greedy run; the tail merge never fires, so `min` has no effect. */
  method Chunk(text: string, max: nat, min: nat) returns (chunks: seq<TextChunk>, ghost sentences: seq<Span>)
    ensures IsSplit(Encode(text), sentences)
    ensures AreChunks(Encode(text), sentences, chunks, Greedy(Encode(text), sentences, max, 0), |chunks|)
  {
    chunks := [];
    if text == "" {
      sentences := [];
      return;
    }
    var ss := SplitSentences(Encode(text));
    sentences := ss;
    if ss == [] {
      return;
    }
    chunks := Pack(text, ss, max, min);
    chunks := Numbered(Encode(text), ss, chunks, Greedy(Encode(text), ss, max, 0));
  }

  method Pack(text: string, ss: seq<Span>, max: nat, min: nat) returns (chunks: seq<TextChunk>)
    requires IsSplit(Encode(text), ss) && ss != []
    ensures AreChunks(Encode(text), ss, chunks, Greedy(Encode(text), ss, max, 0), 0)
  {
    hide Encode, IsPart, Packing, IsChunk, Greedy;
    var bs := Encode(text);
    chunks := [];
    PackFirst(text, ss, max);
    var currentStart, currentEnd := ss[0].start, ss[0].start;
    var currentChars := 0;
    ghost var runs: seq<Run>, first: nat := [], 0;
    for i := 0 to |ss|
      invariant i == 0 ==> currentChars == 0 && runs == [] && first == 0 && currentEnd == currentStart == ss[0].start
      invariant i > 0 ==>
        first < i && currentStart == ss[first].start && currentEnd == ss[i - 1].end && currentChars > 0
      invariant i > 0 ==> Packing(bs, ss, max, first, i, currentChars, runs)
      invariant AreChunks(bs, ss, chunks, runs, 0)
    {
      if i > 0 {
        PackNext(text, ss, max, first, i, currentChars, runs);
        PackingHas(bs, ss, max, first, i, currentChars, runs);
      }
      var sentStart, sentEnd := ss[i].start, ss[i].end;
      var sentChars := CharCount(bs[sentStart..sentEnd]);
      if currentChars > 0 {
        var gapChars := CharCount(bs[currentEnd..sentStart]);
        var combined := currentChars + gapChars + sentChars;
        if combined > max {
          ChunkOfRun(text, ss, Run(first, i), |chunks|);
          chunks := chunks + [TextChunk(bs[currentStart..currentEnd], currentStart, currentEnd, |chunks|, 0)];
          runs := runs + [Run(first, i)];
          first := i;
          currentStart := sentStart;
          currentChars := sentChars;
        } else {
          currentChars := combined;
        }
      } else {
        currentChars := sentChars;
      }
      currentEnd := sentEnd;
      PackingHas(bs, ss, max, first, i + 1, currentChars, runs);
    }
    PackLast(text, ss, max, first, currentChars, runs);
    ChunkOfRun(text, ss, Run(first, |ss|), |chunks|);
    if chunks != [] {
      ChunkStart(bs, ss, chunks[|chunks| - 1], runs[|runs| - 1]);
    }
    if currentEnd > currentStart {
      var mergeOk := currentChars < min && chunks != [] && CharCount(bs[chunks[|chunks| - 1].start..currentEnd]) <= max;
      if mergeOk {
        // The source extends the last chunk here.
        assert false;
      } else {
        chunks := chunks + [TextChunk(bs[currentStart..currentEnd], currentStart, currentEnd, |chunks|, 0)];
      }
    }
  }

  lemma ChunkStart(bs: seq<Byte>, ss: seq<Span>, c: TextChunk, r: Run)
    requires exists index, total :: IsChunk(bs, ss, c, r, index, total)
    ensures IsRun(ss, r.first, r.end) && c.start == ss[r.first].start
  {
  }

  lemma PackingHas(bs: seq<Byte>, ss: seq<Span>, max: nat, first: nat, i: nat, chars: nat, runs: seq<Run>)
    requires IsPart(bs, ss) && Packing(bs, ss, max, first, i, chars, runs)
    ensures first < i <= |ss| && chars > 0 && IsRun(ss, first, i) && ss[i - 1].end <= |bs|
  {
  }

  /** The total is known only at the end. */
  method Numbered(bs: seq<Byte>, ss: seq<Span>, chunks: seq<TextChunk>, ghost runs: seq<Run>)
    returns (out: seq<TextChunk>)
    requires AreChunks(bs, ss, chunks, runs, 0)
    ensures AreChunks(bs, ss, out, runs, |out|)
  {
    var total := |chunks|;
    out := chunks;
    for i := 0 to |chunks|
      invariant |out| == total
      invariant forall j :: 0 <= j < total ==> out[j] == if j < i then chunks[j].(total := total) else chunks[j]
    {
      out := out[i := out[i].(total := total)];
    }
  }
}
