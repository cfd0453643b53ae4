/** The late-chunk windowing rule, written three times: crates/yeomna-chunking/src/late.rs,
    services/embedder/server.py and the hash embedder of crates/yeomna-pipeline/src/embed.rs. */
module Windows {

  datatype Window = Window(start: nat, end: nat)

  function Max(a: int, b: int): int {
    if a < b then b else a
  }

  function Min(a: int, b: int): int {
    if a < b then a else b
  }

  function AtLeastOne(n: nat): nat {
    Max(n, 1)
  }

  /** The floor of one is what makes an overlap at or above the size end. */
  function StepOf(size: nat, overlap: nat): (step: nat)
    ensures step >= 1
  {
    Max(size - overlap, 1)
  }

  /** The windows from `start` on. */
  function From(start: nat, n: nat, size: nat, step: nat): seq<Window>
    requires step >= 1
    decreases n - start
  {
    if start >= n then []
    else
      var w := Window(start, Min(start + size, n));
      if w.end >= n then [w] else [w] + From(start + step, n, size, step)
  }

  function Tiling(n: nat, size: nat, overlap: nat): seq<Window> {
    From(0, n, size, StepOf(size, overlap))
  }

  /** What one turn of the loop moves from the rest to what is collected. */
  lemma FromStep(out: seq<Window>, start: nat, n: nat, size: nat, step: nat)
    requires step >= 1 && start < n
    ensures var w := Window(start, Min(start + size, n));
      out + From(start, n, size, step) == (out + [w]) + if w.end >= n then [] else From(start + step, n, size, step)
  {
    var w := Window(start, Min(start + size, n));
    if w.end < n {
      var rest := From(start + step, n, size, step);
      assert From(start, n, size, step) == [w] + rest;
      assert out + ([w] + rest) == (out + [w]) + rest;
    }
  }

  lemma FromEnd(out: seq<Window>, start: nat, n: nat, size: nat, step: nat)
    requires step >= 1 && start >= n
    ensures out + From(start, n, size, step) == out
  {
  }

  // ---- The three loops ----

  /** The boundary loop of `late_chunk_embeddings`. */
  method LateBoundaries(n: nat, size: nat, overlap: nat) returns (boundaries: seq<Window>)
    ensures boundaries == Tiling(n, size, overlap)
  {
    if n == 0 {
      return [];
    }
    var step := Max(if overlap <= size then size - overlap else 0, 1);
    boundaries := [];
    var start := 0;
    hide From;
    while start < n
      invariant boundaries + From(start, n, size, step) == Tiling(n, size, overlap)
    {
      var end := Min(start + size, n);
      var w := Window(start, end);
      FromStep(boundaries, start, n, size, step);
      boundaries := boundaries + [w];
      if end >= n {
        return;
      }
      start := start + step;
    }
  }

  /** `window_boundaries` of the service. */
  method WindowBoundaries(n: int, size: nat, overlap: nat) returns (out: seq<Window>)
    ensures out == if n <= 0 then [] else Tiling(n, size, overlap)
  {
    if n <= 0 {
      return [];
    }
    var step := Max(size - overlap, 1);
    out := [];
    var start := 0;
    hide From;
    while start < n
      invariant out + From(start, n, size, step) == Tiling(n, size, overlap)
    {
      var end := Min(start + size, n);
      var w := Window(start, end);
      FromStep(out, start, n, size, step);
      out := out + [w];
      if end >= n {
        break;
      }
      start := start + step;
    }
  }

  /** The window loop of `HashEmbedder::embed_document`, which clamps the size to one; no tokens is
      an error before the loop. */
  method HashWindows(n: nat, sizeTokens: nat, overlap: nat) returns (windows: seq<Window>)
    requires n >= 1
    ensures windows == Tiling(n, AtLeastOne(sizeTokens), overlap)
  {
    var size := AtLeastOne(sizeTokens);
    hide AtLeastOne;
    var step := Max(if overlap <= size then size - overlap else 0, 1);
    windows := [];
    var start := 0;
    ghost var all := Tiling(n, size, overlap);
    assert windows + From(0, n, size, step) == all;
    hide From, Tiling;
    while start < n
      invariant windows + From(start, n, size, step) == all
    {
      FromStep(windows, start, n, size, step);
      var end := Min(start + size, n);
      windows := windows + [Window(start, end)];
      if end >= n {
        assert windows + [] == windows;
        return;
      }
      start := start + step;
    }
    FromEnd(windows, start, n, size, step);
  }

  // ---- What the rule gives ----

  /** The least `c` with `a <= c * b`: division rounded up. */
  function CeilDiv(a: nat, b: nat): (c: nat)
    requires b >= 1
    ensures a <= c * b && (c > 0 ==> (c - 1) * b < a)
  {
    if a == 0 then 0
    else
      var rest := CeilDiv(Max(0, a - b), b);
      assert (rest + 1) * b == rest * b + b;
      assert rest > 0 ==> rest * b == (rest - 1) * b + b;
      1 + rest
  }

  /** Where window `i` starts. */
  function Place(start: nat, i: nat, step: nat): nat {
    start + i * step
  }

  lemma PlaceFirst(start: nat, step: nat)
    ensures Place(start, 0, step) == start
  {
  }

  lemma PlaceNext(start: nat, i: nat, step: nat)
    ensures Place(start + step, i, step) == Place(start, i + 1, step) == Place(start, i, step) + step
  {
    assert (i + 1) * step == i * step + step;
  }

  /** The number of windows, and the place of each. */
  lemma {:induction false} FromIs(start: nat, n: nat, size: nat, step: nat)
    requires 1 <= step <= size && start < n
    ensures |From(start, n, size, step)| == 1 + CeilDiv(Max(0, n - start - size), step)
    ensures forall i :: 0 <= i < |From(start, n, size, step)| ==>
      From(start, n, size, step)[i] == Window(Place(start, i, step), Min(Place(start, i, step) + size, n))
    ensures forall i :: 0 <= i < |From(start, n, size, step)| ==>
      (From(start, n, size, step)[i].end == n <==> i == |From(start, n, size, step)| - 1)
    decreases n - start
  {
    var ws := From(start, n, size, step);
    PlaceFirst(start, step);
    if start + size < n {
      var rest := From(start + step, n, size, step);
      assert ws == [Window(start, start + size)] + rest;
      assert CeilDiv(Max(0, n - start - size), step) == 1 + CeilDiv(Max(0, n - (start + step) - size), step);
      hide From, CeilDiv, Place;
      FromIs(start + step, n, size, step);
      forall i | 0 <= i < |ws| ensures ws[i] == Window(Place(start, i, step), Min(Place(start, i, step) + size, n)) {
        if i > 0 {
          PlaceNext(start, i - 1, step);
        }
      }
    } else {
      assert ws == [Window(start, n)];
      hide From, CeilDiv, Place;
    }
  }

  /** Main result: for a size of at least one the windows start at 0, end at `n` and nowhere before
      it, leave no gap, share exactly the overlap (or all but one token when that is not less than the
      size), and number one more than the tokens beyond the first window divided by the step, rounded
      up. */
  lemma WindowsTile(n: nat, size: nat, overlap: nat)
    requires n >= 1 && size >= 1
    ensures var ws := Tiling(n, size, overlap);
      var step := if overlap < size then size - overlap else 1;
      && |ws| == 1 + CeilDiv(Max(0, n - size), step)
      && ws[0].start == 0 && ws[|ws| - 1].end == n
      && (forall i :: 0 <= i < |ws| ==> ws[i].start < ws[i].end <= n && ws[i].end - ws[i].start <= size)
      && (forall i :: 0 <= i < |ws| - 1 ==> ws[i].end < n && ws[i + 1].start == ws[i].start + step <= ws[i].end)
      && (forall i :: 0 <= i < |ws| - 1 ==> ws[i].end - ws[i + 1].start == if overlap < size then overlap else size - 1)
  {
    var ws, step := Tiling(n, size, overlap), StepOf(size, overlap);
    FromIs(0, n, size, step);
    PlaceFirst(0, step);
    hide From, CeilDiv, Place;
    forall i | 0 <= i < |ws| - 1 ensures ws[i + 1].start == ws[i].start + step {
      PlaceNext(0, i, step);
    }
    forall i | 0 <= i < |ws| ensures ws[i].start < n {
      if i > 0 {
        PlaceNext(0, i - 1, step);
      }
    }
  }

  /** Every token is in a window. */
  lemma {:induction false} EveryTokenCovered(start: nat, n: nat, size: nat, step: nat, k: nat) returns (i: nat)
    requires 1 <= step <= size && start <= k < n
    ensures i < |From(start, n, size, step)|
    ensures From(start, n, size, step)[i].start <= k < From(start, n, size, step)[i].end
    decreases n - start
  {
    if start + size < n && start + step <= k {
      i := EveryTokenCovered(start + step, n, size, step, k);
      i := i + 1;
    } else {
      i := 0;
    }
  }

  /** A size of zero is one empty window a token. */
  lemma {:induction false} ZeroSize(start: nat, n: nat)
    requires start <= n
    ensures From(start, n, 0, 1) == seq(n - start, i requires 0 <= i < n - start => Window(start + i, start + i))
    decreases n - start
  {
    if start < n {
      ZeroSize(start + 1, n);
    }
  }

  /** Main result: the unclamped loops agree with the clamped one exactly when the size is at least
      one; with a size of zero they give an empty window for every token. */
  lemma LoopsAgreeIff(n: nat, size: nat, overlap: nat)
    requires n >= 1
    ensures Tiling(n, size, overlap) == Tiling(n, AtLeastOne(size), overlap) <==> size >= 1
    ensures size == 0 ==> Tiling(n, size, overlap) == seq(n, i requires 0 <= i < n => Window(i, i))
  {
    if size == 0 {
      ZeroSize(0, n);
      FirstIsNotEmpty(n, overlap);
      hide From;
    }
  }

  lemma FirstIsNotEmpty(n: nat, overlap: nat)
    requires n >= 1
    ensures Tiling(n, 1, overlap) != [] && Tiling(n, 1, overlap)[0] == Window(0, 1)
  {
  }

  /** `ChunkPolicy::whole_text`. */
  function WholeText(maxTokens: nat): nat {
    AtLeastOne(maxTokens)
  }

  /** The whole-text policy gives one window exactly for the lengths up to the ceiling. */
  lemma WholeTextIsOneWindow(n: nat, maxTokens: nat)
    requires n >= 1
    ensures Tiling(n, WholeText(maxTokens), 0) == [Window(0, n)] <==> n <= WholeText(maxTokens)
  {
    WindowsTile(n, WholeText(maxTokens), 0);
  }
}
