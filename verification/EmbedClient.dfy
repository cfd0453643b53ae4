/** `EmbeddingClient::embed` of crates/yeomna-embed/src/embedding.rs: a work queue of input ranges,
    halved on out-of-memory, whose results are reassembled by index. The service is any function of
    the request's number and its batch, so it may answer the same batch differently each time. */
module EmbedClient {
  import opened Json

  /** What the service computed for one input. */
  type Chunks = string

  datatype EmbeddedInput = EmbeddedInput(index: nat, chunks: Chunks)

  datatype EmbeddingError = Unreachable | Service(code: string) | InvalidResponse | Timeout

  /** `is_retriable_oom`. */
  predicate IsRetriableOom(e: EmbeddingError) {
    e == Service("out-of-memory")
  }

  datatype Answer =
    | Part(model: string, revision: string, results: seq<EmbeddedInput>)
    | Failed(error: EmbeddingError)

  type Server = (nat, seq<string>) -> Answer

  datatype Outcome =
    | Ok(model: string, revision: string, results: seq<EmbeddedInput>)
    | Err(error: EmbeddingError)

  /** Consecutive inputs and the position of the first. */
  datatype Range = Range(start: nat, batch: seq<string>)

  // ---- The queue ----

  /** The queue holds adjacent, non-empty ranges that cover exactly `texts[from..to]`. */
  predicate Covers(work: seq<Range>, texts: seq<string>, from: nat, to: nat)
    requires to <= |texts|
  {
    if work == [] then from == to
    else
      && work[0].start == from && 1 <= |work[0].batch| && from + |work[0].batch| <= to
      && work[0].batch == texts[from..from + |work[0].batch|]
      && Covers(work[1..], texts, from + |work[0].batch|, to)
  }

  /** The most requests a queue can still cost: a range of `k` inputs splits into at most `2k - 1`. */
  function Cost(work: seq<Range>): int {
    if work == [] then 0 else 2 * |work[0].batch| - 1 + Cost(work[1..])
  }

  lemma {:induction false} CostOfCover(work: seq<Range>, texts: seq<string>, from: nat, to: nat)
    requires to <= |texts| && Covers(work, texts, from, to)
    ensures from <= to && Cost(work) == 2 * (to - from) - |work|
    ensures 0 <= |work| <= to - from
  {
    if work != [] {
      CostOfCover(work[1..], texts, from + |work[0].batch|, to);
    }
  }

  lemma {:induction false} CoverAppend(work: seq<Range>, texts: seq<string>, from: nat, to: nat, r: Range)
    requires to <= |texts| && Covers(work, texts, from, to)
    requires r.start == to && 1 <= |r.batch| && to + |r.batch| <= |texts| && r.batch == texts[to..to + |r.batch|]
    ensures Covers(work + [r], texts, from, to + |r.batch|)
  {
    if work == [] {
      assert work + [r] == [r];
    } else {
      assert (work + [r])[1..] == work[1..] + [r];
      CoverAppend(work[1..], texts, from + |work[0].batch|, to, r);
    }
  }

  /** How many batches `n` inputs make: the ceiling of `n / per`. */
  function InitialBatches(n: nat, per: nat): nat
    requires per > 0
  {
    if n == 0 then 0 else if n <= per then 1 else 1 + InitialBatches(n - per, per)
  }

  /** `texts.chunks(per_request)` with the position of each chunk. */
  method InitialWork(texts: seq<string>, perRequest: nat) returns (work: seq<Range>)
    requires texts != [] && perRequest > 0
    ensures Covers(work, texts, 0, |texts|)
    ensures |work| == InitialBatches(|texts|, perRequest)
    ensures forall i :: 0 <= i < |work| ==> |work[i].batch| <= perRequest
  {
    work := [];
    var at := 0;
    while at < |texts|
      invariant at <= |texts| && Covers(work, texts, 0, at)
      invariant |work| + InitialBatches(|texts| - at, perRequest) == InitialBatches(|texts|, perRequest)
      invariant forall i :: 0 <= i < |work| ==> |work[i].batch| <= perRequest
    {
      var end := if at + perRequest < |texts| then at + perRequest else |texts|;
      CoverAppend(work, texts, 0, at, Range(at, texts[at..end]));
      work := work + [Range(at, texts[at..end])];
      at := end;
    }
  }

  lemma CoverPrepend(r: Range, work: seq<Range>, texts: seq<string>, from: nat)
    requires r.start == from && 1 <= |r.batch| && from + |r.batch| <= |texts|
      && r.batch == texts[from..from + |r.batch|]
    requires Covers(work, texts, from + |r.batch|, |texts|)
    ensures Covers([r] + work, texts, from, |texts|) && Cost([r] + work) == 2 * |r.batch| - 1 + Cost(work)
  {
    assert ([r] + work)[1..] == work;
  }

  /** The queue after its first range, of which `mid` inputs make the first half, is halved. */
  function Halved(work: seq<Range>, mid: nat): seq<Range>
    requires work != [] && mid <= |work[0].batch|
  {
    [Range(work[0].start, work[0].batch[..mid])] + ([Range(work[0].start + mid, work[0].batch[mid..])] + work[1..])
  }

  predicate SliceAt(texts: seq<string>, from: nat, batch: seq<string>) {
    from + |batch| <= |texts| && batch == texts[from..from + |batch|]
  }

  lemma SliceHalves(texts: seq<string>, from: nat, batch: seq<string>, mid: nat)
    requires SliceAt(texts, from, batch) && mid <= |batch|
    ensures batch[..mid] == texts[from..from + mid]
    ensures batch[mid..] == texts[from + mid..from + |batch|]
  {
  }

  lemma PopFirst(work: seq<Range>, texts: seq<string>, at: nat)
    requires work != [] && Covers(work, texts, at, |texts|)
    ensures work[0].start == at && work[0].batch != [] && SliceAt(texts, at, work[0].batch)
    ensures Covers(work[1..], texts, at + |work[0].batch|, |texts|)
    ensures Cost(work) == 2 * |work[0].batch| - 1 + Cost(work[1..]) && Cost(work[1..]) >= 0
  {
    CostOfCover(work[1..], texts, at + |work[0].batch|, |texts|);
  }

  /** Halving the first range keeps the cover and pays for itself. */
  lemma HalvingKeepsCover(work: seq<Range>, texts: seq<string>, from: nat, mid: nat)
    requires work != [] && Covers(work, texts, from, |texts|) && 0 < mid < |work[0].batch|
    ensures Covers(Halved(work, mid), texts, from, |texts|) && Cost(Halved(work, mid)) == Cost(work) - 1
  {
    hide Covers, Cost;
    var batch, left, right := work[0].batch, work[0].batch[..mid], work[0].batch[mid..];
    PopFirst(work, texts, from);
    SliceHalves(texts, from, batch, mid);
    CoverPrepend(Range(from + mid, right), work[1..], texts, from + mid);
    CoverPrepend(Range(from, left), [Range(from + mid, right)] + work[1..], texts, from);
  }

  // ---- Reassembly ----

  /** The values of an index-keyed map in key order. */
  predicate Ascending(xs: seq<EmbeddedInput>) {
    forall i, j :: 0 <= i < j < |xs| ==> xs[i].index < xs[j].index
  }

  lemma LeastExists(s: set<nat>, x: nat)
    requires x in s
    ensures exists k :: k in s && forall j :: j in s ==> k <= j
    decreases x
  {
    if y :| y in s && y < x {
      LeastExists(s, y);
    } else {
      assert forall j :: j in s ==> x <= j;
    }
  }

  /** `done.into_values().collect()` on a `BTreeMap`. */
  method IntoValues(done: map<nat, EmbeddedInput>) returns (xs: seq<EmbeddedInput>)
    requires forall k :: k in done ==> done[k].index == k
    ensures |xs| == |done| && Ascending(xs)
    ensures forall i :: 0 <= i < |xs| ==> xs[i].index in done && done[xs[i].index] == xs[i]
  {
    xs := [];
    var left := done.Keys;
    while left != {}
      invariant left <= done.Keys && |xs| + |left| == |done.Keys|
      invariant Ascending(xs)
      invariant forall i, k :: 0 <= i < |xs| && k in left ==> xs[i].index < k
      invariant forall i :: 0 <= i < |xs| ==> xs[i].index in done && done[xs[i].index] == xs[i]
      decreases left
    {
      var any :| any in left;
      LeastExists(left, any);
      var k :| k in left && forall j :: j in left ==> k <= j;
      xs := xs + [done[k]];
      left := left - {k};
    }
  }

  lemma {:induction false} AscendingAtLeast(xs: seq<EmbeddedInput>, i: nat)
    requires Ascending(xs) && i < |xs|
    ensures xs[i].index >= i
  {
    if i > 0 {
      AscendingAtLeast(xs, i - 1);
    }
  }

  lemma {:induction false} AscendingAtMost(xs: seq<EmbeddedInput>, i: nat)
    requires Ascending(xs) && i < |xs| && forall k :: 0 <= k < |xs| ==> xs[k].index < |xs|
    ensures xs[i].index <= i
    decreases |xs| - i
  {
    if i + 1 < |xs| {
      AscendingAtMost(xs, i + 1);
    }
  }

  /** The indices below `n`. */
  ghost function Below(n: nat): (s: set<nat>)
    ensures |s| == n && forall i: nat :: i in s <==> i < n
  {
    if n == 0 then {} else Below(n - 1) + {n - 1}
  }

  ghost predicate HasExactly(done: map<nat, EmbeddedInput>, n: nat) {
    forall k: nat :: k in done <==> k < n
  }

  lemma HasExactlySize(done: map<nat, EmbeddedInput>, n: nat)
    requires HasExactly(done, n)
    ensures |done| == n
  {
    assert done.Keys == Below(n);
  }

  function Rebased(results: seq<EmbeddedInput>, start: nat): seq<EmbeddedInput> {
    seq(|results|, i requires 0 <= i < |results| => EmbeddedInput(results[i].index + start, results[i].chunks))
  }

  /** Inserting results by index, later ones replacing earlier ones. */
  function InsertAll(done: map<nat, EmbeddedInput>, xs: seq<EmbeddedInput>): map<nat, EmbeddedInput> {
    if xs == [] then done
    else InsertAll(done, xs[..|xs| - 1])[xs[|xs| - 1].index := xs[|xs| - 1]]
  }

  lemma {:induction false} InsertAllFrom(done: map<nat, EmbeddedInput>, xs: seq<EmbeddedInput>)
    ensures forall k :: k in InsertAll(done, xs) ==>
      (k in done && InsertAll(done, xs)[k] == done[k])
        || (InsertAll(done, xs)[k] in xs && InsertAll(done, xs)[k].index == k)
  {
    if xs != [] {
      InsertAllFrom(done, xs[..|xs| - 1]);
    }
  }

  /** Results numbered consecutively from `at` extend a map of the indices below `at`. */
  lemma {:induction false} InsertConsecutive(done: map<nat, EmbeddedInput>, xs: seq<EmbeddedInput>, at: nat)
    requires HasExactly(done, at) && forall i :: 0 <= i < |xs| ==> xs[i].index == at + i
    ensures HasExactly(InsertAll(done, xs), at + |xs|)
    ensures forall k :: k in InsertAll(done, xs) ==>
      InsertAll(done, xs)[k] == if k < at then done[k] else xs[k - at]
  {
    if xs != [] {
      var m := |xs| - 1;
      var before := InsertAll(done, xs[..m]);
      InsertConsecutive(done, xs[..m], at);
      assert InsertAll(done, xs) == before[at + m := xs[m]];
    }
  }

  // ---- What the service may be ----

  /** The service either runs out of memory or answers, under the client's cohort, exactly what `f`
      computes for each input, in order. */
  ghost predicate Honest(server: Server, model: string, revision: string, f: string -> Chunks) {
    forall k, batch :: HonestAnswer(server(k, batch), batch, model, revision, f)
  }

  ghost predicate HonestAnswer(a: Answer, batch: seq<string>, model: string, revision: string, f: string -> Chunks) {
    match a
    case Failed(e) => IsRetriableOom(e)
    case Part(m, r, results) =>
      && m == model && r == revision && |results| == |batch|
      && forall i :: 0 <= i < |batch| ==> results[i] == EmbeddedInput(i, f(batch[i]))
  }

  /** A single input always fits. */
  ghost predicate SinglesFit(server: Server) {
    forall k, batch :: |batch| == 1 ==> FitsAnswer(server(k, batch))
  }

  ghost predicate FitsAnswer(a: Answer) {
    a.Part?
  }

  /** Request number `k` sent `asked[k]`; one of the answers, of the cohort, carried these chunks. */
  ghost predicate FromCohort(server: Server, model: string, revision: string, asked: seq<seq<string>>,
                             x: EmbeddedInput) {
    exists k: nat, i: int :: k < |asked| && CarriedBy(server(k, asked[k]), i, model, revision, x)
  }

  ghost predicate CarriedBy(a: Answer, i: int, model: string, revision: string, x: EmbeddedInput) {
    a.Part? && a.model == model && a.revision == revision && 0 <= i < |a.results| && a.results[i].chunks == x.chunks
  }

  ghost predicate InCohort(a: Answer, model: string, revision: string) {
    a.Part? ==> a.model == model && a.revision == revision
  }

  /** Every answer the run received came from one cohort. */
  ghost predicate OneCohort(server: Server, model: string, revision: string, asked: seq<seq<string>>) {
    forall k: nat :: k < |asked| ==> InCohort(server(k, asked[k]), model, revision)
  }

  /** Each request sent some consecutive inputs, at least one. */
  ghost predicate AsksFor(texts: seq<string>, asked: seq<seq<string>>) {
    forall k :: 0 <= k < |asked| ==> asked[k] != [] && exists from: nat :: SliceAt(texts, from, asked[k])
  }

  /** `EmbeddingClient`: what the service said of itself at connect. */
  class EmbeddingClient {
    const model: string
    const revision: string

    constructor (model: string, revision: string)
      ensures this.model == model && this.revision == revision
    {
      this.model, this.revision := model, revision;
    }

    /** A success carries one result per input, numbered 0 to n - 1, each taken from an answer of this
        run, and every answer of the run is of the client's cohort. */
    ghost predicate Sound(r: Outcome, texts: seq<string>, server: Server, asked: seq<seq<string>>) {
      r.Ok? ==>
        && r.model == model && r.revision == revision && |r.results| == |texts|
        && OneCohort(server, model, revision, asked)
        && forall i :: 0 <= i < |texts| ==>
             r.results[i].index == i && FromCohort(server, model, revision, asked, r.results[i])
    }

    /** With an honest service a success is the map of `f`, the only error is running out of memory,
        and there is none when single inputs fit. */
    ghost predicate Faithful(r: Outcome, texts: seq<string>, server: Server, f: string -> Chunks) {
      Honest(server, model, revision, f) ==>
        && (r.Ok? ==> |r.results| == |texts| && forall i :: 0 <= i < |texts| ==> r.results[i].chunks == f(texts[i]))
        && (r.Err? ==> IsRetriableOom(r.error))
        && (SinglesFit(server) ==> r.Ok?)
    }

    /** The run goes on after an answer of the cohort, and after running out of memory on more than one
        input; nothing else. */
    ghost predicate GoesOn(a: Answer, batch: seq<string>) {
      match a
      case Part(m, rev, _) => m == model && rev == revision
      case Failed(e) => e == Service("out-of-memory") && |batch| > 1
    }

    ghost predicate AllGoOn(server: Server, asked: seq<seq<string>>, n: nat) {
      forall k: nat :: k < n <= |asked| ==> GoesOn(server(k, asked[k]), asked[k])
    }

    /** A batch that ran out of memory is followed by its first half. */
    ghost predicate HalvesNext(server: Server, asked: seq<seq<string>>) {
      forall k: nat :: k + 1 < |asked| && server(k, asked[k]).Failed? ==> asked[k + 1] == asked[k][..|asked[k]| / 2]
    }

    /** Why the run ended as it did: a success only after answers it could go on from, and an error for
        the last answer alone, the service's own where it gave one. */
    ghost predicate Explained(r: Outcome, server: Server, asked: seq<seq<string>>) {
      && HalvesNext(server, asked) && AllGoOn(server, asked, if asked == [] then 0 else |asked| - 1)
      && (r.Ok? ==> AllGoOn(server, asked, |asked|))
      && (r.Err? ==>
            && asked != []
            && var (a, batch) := (server(|asked| - 1, asked[|asked| - 1]), asked[|asked| - 1]);
               if a.Failed? then !GoesOn(a, batch) && r.error == a.error else r.error == InvalidResponse)
    }

    /** After a batch that ran out of memory its first half is at the head of the queue. */
    ghost predicate HalfIsFirst(server: Server, asked: seq<seq<string>>, work: seq<Range>) {
      var m := |asked| - 1;
      m >= 0 && server(m, asked[m]).Failed? ==> work != [] && work[0].batch == asked[m][..|asked[m]| / 2]
    }

    /** Each answer that is not a failure is one result an input, in order. */
    ghost predicate AllComplete(server: Server, asked: seq<seq<string>>) {
      forall k: nat :: k < |asked| ==> Complete(server(k, asked[k]), asked[k])
    }

    ghost predicate Complete(a: Answer, batch: seq<string>) {
      a.Part? ==> |a.results| == |batch| && forall i :: 0 <= i < |batch| ==> a.results[i].index == i
    }

    /** `embed`, whatever the service answers and in whatever order it runs out of memory. */
    method Embed(texts: seq<string>, batchSize: Option<nat>, server: Server, ghost f: string -> Chunks)
      returns (r: Outcome, requests: nat, ghost asked: seq<seq<string>>)
      ensures |asked| == requests && AsksFor(texts, asked)
      ensures texts == [] ==> requests == 0 && r == Ok(model, revision, [])
      ensures texts != [] ==>
        var per := if batchSize.Some? && batchSize.value > 0 then batchSize.value else |texts|;
        requests <= 2 * |texts| - InitialBatches(|texts|, per)
      ensures Sound(r, texts, server, asked) && Faithful(r, texts, server, f)
      ensures Explained(r, server, asked)
      ensures AllGoOn(server, asked, |asked|) && AllComplete(server, asked) ==> r.Ok?
    {
      if texts == [] {
        return Ok(model, revision, []), 0, [];
      }
      var perRequest := if batchSize.Some? && batchSize.value > 0 then batchSize.value else |texts|;
      var work := InitialWork(texts, perRequest);
      CostOfCover(work, texts, 0, |texts|);
      r, requests, asked := Drain(texts, work, server, f);
    }

    /** The loop of `embed` over the work queue. */
    method Drain(texts: seq<string>, initial: seq<Range>, server: Server, ghost f: string -> Chunks)
      returns (r: Outcome, requests: nat, ghost asked: seq<seq<string>>)
      requires Covers(initial, texts, 0, |texts|) && Cost(initial) >= 0
      ensures requests <= Cost(initial) && |asked| == requests && AsksFor(texts, asked)
      ensures Sound(r, texts, server, asked) && Faithful(r, texts, server, f)
      ensures Explained(r, server, asked)
      ensures AllGoOn(server, asked, |asked|) && AllComplete(server, asked) ==> r.Ok?
    {
      hide Going, Explained, AllComplete, AllGoOn, AsksFor, Halved, InsertAll, Rebased;
      var work := initial;
      var done: map<nat, EmbeddedInput> := map[];
      requests, asked := 0, [];
      ghost var at: nat := 0;
      NothingAsked(texts, server, work);
      while work != []
        invariant at <= |texts| && Covers(work, texts, at, |texts|)
        invariant requests + Cost(work) <= Cost(initial) && 0 <= Cost(work)
        invariant |asked| == requests && AsksFor(texts, asked)
        invariant DoneOk(done, server, asked) && OneCohort(server, model, revision, asked)
        invariant Honest(server, model, revision, f) ==> Finished(done, texts, at, f)
        invariant Going(server, asked, work)
        invariant AllComplete(server, asked) ==> HasExactly(done, at)
        decreases Cost(work)
      {
        var start, batch := work[0].start, work[0].batch;
        PopFirst(work, texts, at);
        ghost var number := requests;
        var answer := server(requests, batch);
        AskNext(done, texts, at, server, asked, batch);
        ghost var before := asked;
        requests, asked := requests + 1, asked + [batch];
        match answer
        case Part(m, rev, results) =>
          if m != model || rev != revision {
            ForeignCohort(server, number, batch, texts, f);
            StopsHere(server, before, work, InvalidResponse);
            return Err(InvalidResponse), requests, asked;
          }
          PartGoesOn(server, before, work);
          AcceptPart(done, server, before, batch, start);
          if Honest(server, model, revision, f) {
            FinishPart(done, texts, at, f, server, number, batch);
          }
          if AllComplete(server, asked) {
            CompletePart(done, server, before, batch, at);
          }
          done := Rebase(done, results, start);
          work, at := work[1..], at + |batch|;
        case Failed(e) =>
          if IsRetriableOom(e) && |batch| > 1 {
            var mid := |batch| / 2;
            FailedKeepsComplete(server, before, batch);
            HalfGoesOn(server, before, work);
            HalvingKeepsCover(work, texts, at, mid);
            work := Halved(work, mid);
            CostOfCover(work, texts, at, |texts|);
          } else {
            LastRefusal(server, number, batch, texts, f);
            StopsHere(server, before, work, e);
            return Err(e), requests, asked;
          }
      }
      r := Assemble(done, |texts|);
      EndsHere(server, asked, done, |texts|, r);
      assert Sound(r, texts, server, asked);
    }

    /** One more request: a slice of the inputs, and what was done before still stands. */
    lemma AskNext(done: map<nat, EmbeddedInput>, texts: seq<string>, at: nat, server: Server, asked: seq<seq<string>>,
                  batch: seq<string>)
      requires AsksFor(texts, asked) && DoneOk(done, server, asked) && OneCohort(server, model, revision, asked)
      requires SliceAt(texts, at, batch) && batch != []
      ensures AsksFor(texts, asked + [batch]) && DoneOk(done, server, asked + [batch])
      ensures InCohort(server(|asked|, batch), model, revision) ==> OneCohort(server, model, revision, asked + [batch])
    {
      forall k | k in done ensures FromCohort(server, model, revision, asked + [batch], done[k]) {
        var n: nat, i :| n < |asked| && CarriedBy(server(n, asked[n]), i, model, revision, done[k]);
        assert (asked + [batch])[n] == asked[n];
      }
      forall n | 0 <= n < |asked + [batch]|
        ensures (asked + [batch])[n] != [] && exists from: nat :: SliceAt(texts, from, (asked + [batch])[n])
      {
        assert n < |asked| ==> (asked + [batch])[n] == asked[n];
        assert n == |asked| ==> SliceAt(texts, at, (asked + [batch])[n]);
      }
    }

    /** Where the loop stands: everything asked so far let it go on. */
    ghost predicate Going(server: Server, asked: seq<seq<string>>, work: seq<Range>) {
      AllGoOn(server, asked, |asked|) && HalvesNext(server, asked) && HalfIsFirst(server, asked, work)
    }

    lemma NothingAsked(texts: seq<string>, server: Server, work: seq<Range>)
      ensures AsksFor(texts, []) && Going(server, [], work)
    {
    }

    lemma AskStep(server: Server, asked: seq<seq<string>>, work: seq<Range>)
      requires Going(server, asked, work) && work != []
      ensures var (next, batch) := (asked + [work[0].batch], work[0].batch);
        && AllGoOn(server, next, |asked|) && HalvesNext(server, next)
        && (GoesOn(server(|asked|, batch), batch) ==> AllGoOn(server, next, |next|))
        && next[|asked|] == batch
    {
      var next := asked + [work[0].batch];
      assert forall k: nat :: k < |asked| ==> next[k] == asked[k];
      assert next[|asked|] == work[0].batch;
    }

    lemma PartGoesOn(server: Server, asked: seq<seq<string>>, work: seq<Range>)
      requires Going(server, asked, work) && work != [] && server(|asked|, work[0].batch).Part?
      requires GoesOn(server(|asked|, work[0].batch), work[0].batch)
      ensures Going(server, asked + [work[0].batch], work[1..])
    {
      AskStep(server, asked, work);
      hide AllGoOn, HalvesNext;
    }

    lemma HalfGoesOn(server: Server, asked: seq<seq<string>>, work: seq<Range>)
      requires Going(server, asked, work) && work != [] && server(|asked|, work[0].batch).Failed?
      requires GoesOn(server(|asked|, work[0].batch), work[0].batch)
      ensures Going(server, asked + [work[0].batch], Halved(work, |work[0].batch| / 2))
    {
      AskStep(server, asked, work);
      hide AllGoOn, HalvesNext;
    }

    lemma StopsHere(server: Server, asked: seq<seq<string>>, work: seq<Range>, error: EmbeddingError)
      requires Going(server, asked, work) && work != []
      requires var a := server(|asked|, work[0].batch);
        !GoesOn(a, work[0].batch) && error == if a.Failed? then a.error else InvalidResponse
      ensures Explained(Err(error), server, asked + [work[0].batch])
      ensures !AllGoOn(server, asked + [work[0].batch], |asked| + 1)
    {
      AskStep(server, asked, work);
      hide HalvesNext;
    }

    lemma EndsHere(server: Server, asked: seq<seq<string>>, done: map<nat, EmbeddedInput>, n: nat, r: Outcome)
      requires Going(server, asked, []) && (AllComplete(server, asked) ==> HasExactly(done, n))
      requires r.Err? ==> r.error == InvalidResponse && !HasExactly(done, n)
      ensures Explained(r, server, asked) && (AllComplete(server, asked) ==> r.Ok?)
    {
      hide HalvesNext;
      if asked != [] {
        assert HalfIsFirst(server, asked, []);
      }
    }

    /** The inputs of `at` on are the batch's, so its complete results are the next ones. */
    lemma CompletePart(done: map<nat, EmbeddedInput>, server: Server, asked: seq<seq<string>>, batch: seq<string>,
                       at: nat)
      requires AllComplete(server, asked + [batch]) && (AllComplete(server, asked) ==> HasExactly(done, at))
      requires server(|asked|, batch).Part?
      ensures HasExactly(InsertAll(done, Rebased(server(|asked|, batch).results, at)), at + |batch|)
    {
      var next := asked + [batch];
      assert forall k: nat :: k < |asked| ==> next[k] == asked[k];
      assert next[|asked|] == batch && Complete(server(|asked|, next[|asked|]), batch);
      InsertConsecutive(done, Rebased(server(|asked|, batch).results, at), at);
    }

    lemma FailedKeepsComplete(server: Server, asked: seq<seq<string>>, batch: seq<string>)
      requires server(|asked|, batch).Failed?
      ensures AllComplete(server, asked + [batch]) ==> AllComplete(server, asked)
    {
      assert forall k: nat :: k < |asked| ==> (asked + [batch])[k] == asked[k];
    }

    /** An honest service never answers under another cohort. */
    lemma ForeignCohort(server: Server, number: nat, batch: seq<string>, texts: seq<string>, f: string -> Chunks)
      requires server(number, batch).Part?
        && (server(number, batch).model != model || server(number, batch).revision != revision)
      ensures Faithful(Err(InvalidResponse), texts, server, f)
    {
      assert !HonestAnswer(server(number, batch), batch, model, revision, f);
    }

    /** A refusal that cannot be retried: out of memory on one input, or no honest refusal at all. */
    lemma LastRefusal(server: Server, number: nat, batch: seq<string>, texts: seq<string>, f: string -> Chunks)
      requires server(number, batch).Failed? && batch != []
      requires !(IsRetriableOom(server(number, batch).error) && |batch| > 1)
      ensures Faithful(Err(server(number, batch).error), texts, server, f)
    {
      assert Honest(server, model, revision, f) ==> HonestAnswer(server(number, batch), batch, model, revision, f);
      assert SinglesFit(server) && |batch| == 1 ==> FitsAnswer(server(number, batch));
    }

    /** The checks at the end: as many results as inputs, numbered 0 to n - 1. */
    method Assemble(done: map<nat, EmbeddedInput>, n: nat) returns (r: Outcome)
      requires forall k :: k in done ==> done[k].index == k
      ensures r.Ok? ==>
        && r.model == model && r.revision == revision && |r.results| == n
        && forall i: nat :: i < n ==> i in done && r.results[i] == done[i]
      ensures r.Err? ==> r.error == InvalidResponse && !HasExactly(done, n)
    {
      var results := IntoValues(done);
      if HasExactly(done, n) {
        HasExactlySize(done, n);
        forall i | 0 <= i < |results| ensures results[i].index == i {
          AscendingAtLeast(results, i);
          AscendingAtMost(results, i);
        }
      }
      if |results| != n {
        return Err(InvalidResponse);
      }
      for i := 0 to |results|
        invariant forall j :: 0 <= j < i ==> results[j].index == j
      {
        if results[i].index != i {
          return Err(InvalidResponse);
        }
      }
      forall i: nat | i < n ensures i in done && results[i] == done[i] {
        assert results[i].index == i;
      }
      return Ok(model, revision, results);
    }

    /** Every result sits under its own index and came from the client's cohort. */
    ghost predicate DoneOk(done: map<nat, EmbeddedInput>, server: Server, asked: seq<seq<string>>) {
      forall k :: k in done ==> done[k].index == k && FromCohort(server, model, revision, asked, done[k])
    }

    /** The results are exactly those of the inputs before `at`, as `f` computes them. */
    ghost predicate Finished(done: map<nat, EmbeddedInput>, texts: seq<string>, at: nat, f: string -> Chunks) {
      at <= |texts| && HasExactly(done, at) && forall k :: k in done ==> k < |texts| && done[k].chunks == f(texts[k])
    }

    lemma AcceptPart(done: map<nat, EmbeddedInput>, server: Server, asked: seq<seq<string>>, batch: seq<string>,
                     start: nat)
      requires DoneOk(done, server, asked + [batch])
      requires server(|asked|, batch).Part? && InCohort(server(|asked|, batch), model, revision)
      ensures DoneOk(InsertAll(done, Rebased(server(|asked|, batch).results, start)), server, asked + [batch])
    {
      var answer := server(|asked|, batch);
      var xs := Rebased(answer.results, start);
      InsertAllFrom(done, xs);
      assert (asked + [batch])[|asked|] == batch;
      forall x | x in xs ensures FromCohort(server, model, revision, asked + [batch], x) {
        var i :| 0 <= i < |xs| && xs[i] == x;
        assert CarriedBy(server(|asked|, (asked + [batch])[|asked|]), i, model, revision, x);
      }
    }

    lemma FinishPart(done: map<nat, EmbeddedInput>, texts: seq<string>, at: nat, f: string -> Chunks,
                     server: Server, number: nat, batch: seq<string>)
      requires Honest(server, model, revision, f) && Finished(done, texts, at, f)
      requires server(number, batch).Part? && at + |batch| <= |texts| && batch == texts[at..at + |batch|]
      ensures Finished(InsertAll(done, Rebased(server(number, batch).results, at)), texts, at + |batch|, f)
    {
      assert HonestAnswer(server(number, batch), batch, model, revision, f);
      var xs := Rebased(server(number, batch).results, at);
      var all := InsertAll(done, xs);
      InsertConsecutive(done, xs, at);
      forall k | k in all ensures k < |texts| && all[k].chunks == f(texts[k]) {
        if k >= at {
          assert xs[k - at].chunks == f(batch[k - at]) && batch[k - at] == texts[k];
        }
      }
    }

    /** Rebase a batch's results onto the caller's array and insert them by index. */
    method Rebase(done: map<nat, EmbeddedInput>, results: seq<EmbeddedInput>, start: nat)
      returns (all: map<nat, EmbeddedInput>)
      ensures all == InsertAll(done, Rebased(results, start))
    {
      all := done;
      ghost var xs := Rebased(results, start);
      for j := 0 to |results|
        invariant all == InsertAll(done, xs[..j])
      {
        assert xs[..j + 1][..j] == xs[..j];
        var r := EmbeddedInput(results[j].index + start, results[j].chunks);
        all := all[r.index := r];
      }
      assert xs[..|results|] == xs;
    }
  }
}
