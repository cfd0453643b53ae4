/** The resumable batch processor of crates/yeomna-batch: `processor.rs` as a state machine over its
    interleavings, `state.rs` as the checkpoint, and chains of resumed runs cut anywhere. */
module Batch {
  import opened Json

  type ItemId = string

  // ---- The checkpoint ----

  /** What `BatchState` holds and the state file stores. */
  datatype Checkpoint = Checkpoint(completed: seq<ItemId>, failed: map<ItemId, string>)

  const EmptyCheckpoint := Checkpoint([], map[])

  /** The ids a resumed run skips. */
  predicate Skips(c: Checkpoint, id: ItemId) {
    id in c.completed || id in c.failed
  }

  /** `BatchState`. */
  class BatchState {
    var completed: seq<ItemId>
    var failed: map<ItemId, string>

    function View(): Checkpoint
      reads this
    {
      Checkpoint(completed, failed)
    }

    constructor ()
      ensures View() == EmptyCheckpoint
    {
      completed, failed := [], map[];
    }

    method MarkCompleted(id: ItemId)
      modifies this
      ensures View() == old(View()).(completed := old(completed) + [id])
    {
      completed := completed + [id];
    }

    method MarkFailed(id: ItemId, error: string)
      modifies this
      ensures View() == old(View()).(failed := old(failed)[id := error])
    {
      failed := failed[id := error];
    }

    method SkipSet() returns (ids: set<ItemId>)
      ensures forall id :: id in ids <==> Skips(View(), id)
    {
      ids := {};
      for i := 0 to |completed|
        invariant forall id :: id in ids <==> id in completed[..i]
      {
        ids := ids + {completed[i]};
      }
      assert completed[..|completed|] == completed;
      ids := ids + failed.Keys;
    }
  }

  /** The state file: absent, or the last checkpoint saved. */
  class StateFile {
    var content: Option<Checkpoint>

    /** `save` writes a temporary file and renames it, so a failure leaves the old content. */
    method Save(state: BatchState, works: bool)
      modifies this
      ensures content == if works then Some(state.View()) else old(content)
    {
      if works {
        content := Some(state.View());
      }
    }

    method Clear(works: bool)
      modifies this
      ensures content == if works then None else old(content)
    {
      if works {
        content := None;
      }
    }
  }

  // ---- Results ----

  datatype ItemError = ItemError(itemId: ItemId, stage: string, message: string)

  datatype ItemResult = ItemResult(itemId: ItemId, success: bool, skipped: bool, error: Option<ItemError>)

  /** How the process function ended for an item. */
  datatype Outcome = Succeeded | FailedWith(message: string) | PanickedWith(message: string)

  function ResultOf(id: ItemId, o: Outcome): ItemResult {
    match o
    case Succeeded => ItemResult(id, true, false, None)
    case FailedWith(m) => ItemResult(id, false, false, Some(ItemError(id, "processing", m)))
    case PanickedWith(m) => ItemResult(id, false, false, Some(ItemError(id, "spawn", "task panicked: " + m)))
  }

  /** A skipped item: a success, or the failure a previous run left unresolved. */
  function SkippedResult(id: ItemId, failedPrior: map<ItemId, string>): ItemResult {
    if id in failedPrior
    then ItemResult(id, false, true,
                    Some(ItemError(id, "resume", "unresolved failure from previous run: " + failedPrior[id])))
    else ItemResult(id, true, true, None)
  }

  /** What joining a task does to the checkpoint: a panic leaves it alone. */
  function Recorded(c: Checkpoint, id: ItemId, o: Outcome): Checkpoint {
    match o
    case Succeeded => c.(completed := c.completed + [id])
    case FailedWith(m) => c.(failed := c.failed[id := m])
    case PanickedWith(_) => c
  }

  /** `record_join` and `record_result`: mark, save, report. A save that fails is only a warning. */
  method RecordJoin(id: ItemId, o: Outcome, state: BatchState, file: StateFile, saves: bool, results: seq<ItemResult>)
    returns (all: seq<ItemResult>)
    modifies state, file
    ensures state.View() == Recorded(old(state.View()), id, o)
    ensures file.content == if saves && !o.PanickedWith? then Some(state.View()) else old(file.content)
    ensures all == results + [ResultOf(id, o)]
  {
    match o {
      case PanickedWith(m) =>
      case Succeeded =>
        state.MarkCompleted(id);
        file.Save(state, saves);
      case FailedWith(m) =>
        state.MarkFailed(id, m);
        file.Save(state, saves);
    }
    all := results + [ResultOf(id, o)];
  }

  /** The end of `process`: the file goes when nothing failed and is saved when something did; either
      may not work. */
  method Conclude(state: BatchState, file: StateFile, failures: nat, works: bool)
    modifies file
    ensures file.content == if !works then old(file.content) else if failures == 0 then None else Some(state.View())
  {
    if failures == 0 {
      file.Clear(works);
    } else {
      file.Save(state, works);
    }
  }

  // ---- One run as a state machine ----

  datatype TaskPhase = Working | Done(outcome: Outcome) | Joined(result: Outcome)

  /** The task spawned for the item at a position; it holds a permit while it works. */
  datatype Task = Task(item: ItemId, at: nat, phase: TaskPhase)

  datatype Fate = Skipped | Spawned(task: nat)

  datatype Ending = Summary(completed: nat, failed: nat, skipped: nat, errors: seq<ItemError>) | SaveFailed

  /** `fates` has one entry for each item the feeding loop has passed. */
  datatype Run = Run(items: seq<ItemId>, concurrency: nat, loaded: Checkpoint, fates: seq<Fate>, collecting: bool,
                     free: nat, tasks: seq<Task>, state: Checkpoint, results: seq<ItemResult>,
                     file: Option<Checkpoint>, ending: Option<Ending>)

  datatype Action =
    | Skip
    | Spawn
    | Finish(task: nat, outcome: Outcome)
    | Join(task: nat, saves: bool)
    | Complete(saves: bool)

  /** `process` up to its loop, resuming from whatever the file holds. */
  function Start(items: seq<ItemId>, concurrency: nat, file: Option<Checkpoint>): Run {
    var loaded := if file.Some? then file.value else EmptyCheckpoint;
    Run(items, concurrency, loaded, [], false, concurrency, [], loaded, [], file, None)
  }

  predicate Enabled(r: Run, a: Action) {
    && r.ending.None?
    && var k := |r.fates|;
    match a
    case Skip => k < |r.items| && Skips(r.loaded, r.items[k])
    case Spawn => k < |r.items| && !Skips(r.loaded, r.items[k]) && r.free > 0
    case Finish(t, _) => t < |r.tasks| && r.tasks[t].phase.Working?
    case Join(t, _) => (r.collecting || k == |r.items|) && t < |r.tasks| && r.tasks[t].phase.Done?
    case Complete(_) => k == |r.items| && forall t :: 0 <= t < |r.tasks| ==> r.tasks[t].phase.Joined?
  }

  function Next(r: Run, a: Action): Run
    requires Enabled(r, a)
  {
    var k := |r.fates|;
    match a
    case Skip =>
      r.(fates := r.fates + [Skipped], collecting := false,
         results := r.results + [SkippedResult(r.items[k], r.loaded.failed)])
    case Spawn =>
      r.(fates := r.fates + [Spawned(|r.tasks|)], collecting := true, free := r.free - 1,
         tasks := r.tasks + [Task(r.items[k], k, Working)])
    case Finish(t, o) =>
      r.(free := r.free + 1, tasks := r.tasks[t := r.tasks[t].(phase := Done(o))])
    case Join(t, saves) =>
      var (id, o) := (r.tasks[t].item, r.tasks[t].phase.outcome);
      var state := Recorded(r.state, id, o);
      r.(tasks := r.tasks[t := r.tasks[t].(phase := Joined(o))], state := state,
         results := r.results + [ResultOf(id, o)],
         file := if saves && !o.PanickedWith? then Some(state) else r.file)
    case Complete(saves) =>
      if !saves then r.(ending := Some(SaveFailed))
      else
        r.(file := if Failures(r.results) == 0 then None else Some(r.state),
           ending := Some(Summary(Count(r.results, IsCompleted), Failures(r.results), Count(r.results, IsSkipped),
                                  Errors(r.results))))
  }

  function Count(rs: seq<ItemResult>, p: ItemResult -> bool): nat {
    if rs == [] then 0 else Count(rs[..|rs| - 1], p) + if p(rs[|rs| - 1]) then 1 else 0
  }

  predicate IsCompleted(x: ItemResult) {
    x.success && !x.skipped
  }

  predicate IsFailure(x: ItemResult) {
    !x.success
  }

  predicate IsSkipped(x: ItemResult) {
    x.skipped
  }

  predicate IsSkippedFailure(x: ItemResult) {
    x.skipped && !x.success
  }

  function Failures(rs: seq<ItemResult>): nat {
    Count(rs, IsFailure)
  }

  function Errors(rs: seq<ItemResult>): seq<ItemError> {
    if rs == [] then []
    else
      Errors(rs[..|rs| - 1]) + if rs[|rs| - 1].error.Some? then [rs[|rs| - 1].error.value] else []
  }

  predicate IsRun(r: Run, run: seq<Action>)
    decreases |run|
  {
    run == [] || (Enabled(r, run[0]) && IsRun(Next(r, run[0]), run[1..]))
  }

  function After(r: Run, run: seq<Action>): Run
    requires IsRun(r, run)
    decreases |run|
  {
    if run == [] then r else After(Next(r, run[0]), run[1..])
  }

  // ---- The invariant of a run ----

  predicate Distinct(items: seq<ItemId>) {
    forall i, j :: 0 <= i < j < |items| ==> items[i] != items[j]
  }

  function ResultsFor(rs: seq<ItemResult>, id: ItemId): seq<ItemResult> {
    if rs == [] then []
    else ResultsFor(rs[..|rs| - 1], id) + if rs[|rs| - 1].itemId == id then [rs[|rs| - 1]] else []
  }

  /** The results an item the loop has passed should have by now. */
  function Expected(r: Run, k: nat): seq<ItemResult>
    requires k < |r.fates| <= |r.items|
  {
    match r.fates[k]
    case Skipped => [SkippedResult(r.items[k], r.loaded.failed)]
    case Spawned(t) =>
      if t < |r.tasks| && r.tasks[t].phase.Joined? then [ResultOf(r.items[k], r.tasks[t].phase.result)] else []
  }

  function WorkingCount(ts: seq<Task>): nat {
    if ts == [] then 0 else WorkingCount(ts[..|ts| - 1]) + if ts[|ts| - 1].phase.Working? then 1 else 0
  }

  function UnjoinedCount(ts: seq<Task>): nat {
    if ts == [] then 0 else UnjoinedCount(ts[..|ts| - 1]) + if ts[|ts| - 1].phase.Joined? then 0 else 1
  }

  /** Tasks and passed items point at each other. */
  ghost predicate TasksOk(r: Run) {
    && |r.fates| <= |r.items|
    && (forall t :: 0 <= t < |r.tasks| ==> TaskOk(r, t))
    && (forall k :: 0 <= k < |r.fates| ==> FateOk(r, k))
  }

  ghost predicate TaskOk(r: Run, t: nat)
    requires t < |r.tasks| && |r.fates| <= |r.items|
  {
    var k := r.tasks[t].at;
    k < |r.fates| && r.fates[k] == Spawned(t) && r.tasks[t].item == r.items[k]
  }

  ghost predicate FateOk(r: Run, k: nat)
    requires k < |r.fates| <= |r.items|
  {
    match r.fates[k]
    case Skipped => Skips(r.loaded, r.items[k])
    case Spawned(t) => t < |r.tasks| && r.tasks[t].at == k && !Skips(r.loaded, r.items[k])
  }

  /** Where an id of the checkpoint comes from: the loaded one, or a task joined since. */
  ghost predicate JoinedAs(r: Run, id: ItemId, o: Outcome) {
    exists t :: 0 <= t < |r.tasks| && r.tasks[t].item == id && r.tasks[t].phase == Joined(o)
  }

  /** `c` is the loaded checkpoint with marks of tasks this run has joined. */
  ghost predicate Grown(r: Run, c: Checkpoint) {
    && (forall id :: id in r.loaded.completed ==> id in c.completed)
    && (forall id :: id in c.completed ==> id in r.loaded.completed || JoinedAs(r, id, Succeeded))
    && (forall id :: id in r.loaded.failed ==> id in c.failed && c.failed[id] == r.loaded.failed[id])
    && (forall id :: id in c.failed ==> id in r.loaded.failed || JoinedAs(r, id, FailedWith(c.failed[id])))
  }

  /** The file: cleared or saved at the end, and until then what was loaded or some later save. */
  ghost predicate FileOk(r: Run) {
    if r.ending.Some? && r.ending.value.Summary? then
      r.file == if Failures(r.results) == 0 then None else Some(r.state)
    else
      && (r.loaded != EmptyCheckpoint ==> r.file.Some?)
      && (r.file.Some? ==> Grown(r, r.file.value))
  }

  /** Every passed item has exactly the results it should have. */
  ghost predicate Matched(r: Run)
    requires |r.fates| <= |r.items|
  {
    forall k :: 0 <= k < |r.fates| ==> ResultsFor(r.results, r.items[k]) == Expected(r, k)
  }

  ghost predicate Passed(r: Run, id: ItemId)
    requires |r.fates| <= |r.items|
  {
    exists k :: 0 <= k < |r.fates| && r.items[k] == id
  }

  ghost predicate Shaped(x: ItemResult) {
    x.error.Some? <==> !x.success
  }

  ghost predicate ResultsShaped(r: Run)
    requires |r.fates| <= |r.items|
  {
    forall x :: x in r.results ==> Passed(r, x.itemId) && Shaped(x)
  }

  predicate Balanced(r: Run) {
    && r.free + WorkingCount(r.tasks) == r.concurrency
    && |r.results| + UnjoinedCount(r.tasks) == |r.fates|
  }

  ghost predicate Inv(r: Run) {
    && Distinct(r.items) && TasksOk(r) && Matched(r) && ResultsShaped(r) && Balanced(r)
    && Grown(r, r.state) && FileOk(r)
  }

  lemma ResultsForAppend(rs: seq<ItemResult>, x: ItemResult, id: ItemId)
    ensures ResultsFor(rs + [x], id) == ResultsFor(rs, id) + if x.itemId == id then [x] else []
  {
    assert (rs + [x])[..|rs|] == rs;
  }

  lemma {:induction false} NoResultsFor(rs: seq<ItemResult>, id: ItemId)
    requires forall i :: 0 <= i < |rs| ==> rs[i].itemId != id
    ensures ResultsFor(rs, id) == []
  {
    if rs != [] {
      NoResultsFor(rs[..|rs| - 1], id);
    }
  }

  lemma {:induction false} CountsUpdate(ts: seq<Task>, i: nat, t: Task)
    requires i < |ts|
    ensures WorkingCount(ts[i := t])
         == WorkingCount(ts) - (if ts[i].phase.Working? then 1 else 0) + if t.phase.Working? then 1 else 0
    ensures UnjoinedCount(ts[i := t])
         == UnjoinedCount(ts) - (if ts[i].phase.Joined? then 0 else 1) + if t.phase.Joined? then 0 else 1
  {
    var m := |ts| - 1;
    if i == m {
      assert ts[i := t][..m] == ts[..m];
    } else {
      assert ts[i := t][..m] == ts[..m][i := t];
      CountsUpdate(ts[..m], i, t);
    }
  }

  /** A step that joins no task afresh keeps every old mark explained. */
  lemma GrownStable(r: Run, r': Run, c: Checkpoint)
    requires Grown(r, c) && r'.loaded == r.loaded
    requires forall t :: 0 <= t < |r.tasks| && r.tasks[t].phase.Joined? ==> t < |r'.tasks| && r'.tasks[t] == r.tasks[t]
    ensures Grown(r', c)
  {
    forall id, o | JoinedAs(r, id, o) ensures JoinedAs(r', id, o) {
      var t :| 0 <= t < |r.tasks| && r.tasks[t].item == id && r.tasks[t].phase == Joined(o);
      assert r'.tasks[t] == r.tasks[t];
    }
  }

  /** Checkpoint and file carry over when neither moves. */
  lemma CheckpointStable(r: Run, r': Run)
    requires Grown(r, r.state) && FileOk(r) && r.ending.None?
    requires r'.loaded == r.loaded && r'.file == r.file && r'.state == r.state && r'.ending.None?
    requires forall t :: 0 <= t < |r.tasks| && r.tasks[t].phase.Joined? ==> t < |r'.tasks| && r'.tasks[t] == r.tasks[t]
    ensures Grown(r', r'.state) && FileOk(r')
  {
    GrownStable(r, r', r.state);
    if r.file.Some? {
      GrownStable(r, r', r.file.value);
    }
  }

  lemma StartInv(items: seq<ItemId>, concurrency: nat, file: Option<Checkpoint>)
    requires Distinct(items)
    ensures Inv(Start(items, concurrency, file))
  {
  }

  /** The loop passes one more item: its results so far are `sent`, the others' do not change. */
  lemma PassMatched(r: Run, r': Run, sent: seq<ItemResult>)
    requires Distinct(r.items) && |r.fates| < |r.items| && r'.items == r.items && |r'.fates| == |r.fates| + 1
    requires Matched(r) && ResultsShaped(r)
    requires |sent| <= 1 && r'.results == r.results + sent
    requires forall x :: x in sent ==> x.itemId == r.items[|r.fates|]
    requires forall j :: 0 <= j < |r.fates| ==> Expected(r', j) == Expected(r, j)
    requires Expected(r', |r.fates|) == sent
    ensures Matched(r')
  {
    var k := |r.fates|;
    forall i | 0 <= i < |r.results| ensures r.results[i].itemId != r.items[k] {
      assert r.results[i] in r.results;
    }
    NoResultsFor(r.results, r.items[k]);
    forall j | 0 <= j <= k ensures ResultsFor(r'.results, r'.items[j]) == Expected(r', j) {
      SentResults(r.results, sent, r.items[k], r.items[j]);
    }
  }

  lemma ShapedStable(r: Run, r': Run, sent: seq<ItemResult>)
    requires |r.fates| <= |r'.fates| <= |r.items| && r'.items == r.items && ResultsShaped(r)
    requires r'.results == r.results + sent
    requires forall x :: x in sent ==> Shaped(x) && exists k :: 0 <= k < |r'.fates| && r'.items[k] == x.itemId
    ensures ResultsShaped(r')
  {
    forall x | x in r'.results ensures Passed(r', x.itemId) && Shaped(x) {
      if x in r.results {
        var k :| 0 <= k < |r.fates| && r.items[k] == x.itemId;
        assert r'.items[k] == x.itemId;
      }
    }
  }

  lemma SentResults(rs: seq<ItemResult>, sent: seq<ItemResult>, from: ItemId, id: ItemId)
    requires |sent| <= 1 && forall x :: x in sent ==> x.itemId == from
    ensures ResultsFor(rs + sent, id) == ResultsFor(rs, id) + if id == from then sent else []
  {
    if sent == [] {
      assert rs + sent == rs;
    } else {
      assert sent == [sent[0]];
      ResultsForAppend(rs, sent[0], id);
    }
  }

  lemma SkipTasks(r: Run)
    requires TasksOk(r) && Enabled(r, Skip)
    ensures TasksOk(Next(r, Skip))
    ensures forall j :: 0 <= j < |r.fates| ==> Expected(Next(r, Skip), j) == Expected(r, j)
  {
    var r', k := Next(r, Skip), |r.fates|;
    forall t | 0 <= t < |r'.tasks| ensures TaskOk(r', t) { assert TaskOk(r, t); }
    forall j | 0 <= j <= k ensures FateOk(r', j) { if j < k { assert FateOk(r, j); } }
  }

  lemma SkipKeepsInv(r: Run)
    requires Inv(r) && Enabled(r, Skip)
    ensures Inv(Next(r, Skip))
  {
    var r', k := Next(r, Skip), |r.fates|;
    var sent := [SkippedResult(r.items[k], r.loaded.failed)];
    SkipTasks(r);
    CheckpointStable(r, r');
    PassMatched(r, r', sent);
    ShapedStable(r, r', sent);
  }

  lemma SpawnTasks(r: Run)
    requires TasksOk(r) && Enabled(r, Spawn)
    ensures TasksOk(Next(r, Spawn))
    ensures forall j :: 0 <= j < |r.fates| ==> Expected(Next(r, Spawn), j) == Expected(r, j)
  {
    var r', k, n := Next(r, Spawn), |r.fates|, |r.tasks|;
    forall t | 0 <= t <= n ensures TaskOk(r', t) { if t < n { assert TaskOk(r, t); } }
    forall j | 0 <= j <= k ensures FateOk(r', j) { if j < k { assert FateOk(r, j); } }
    forall j | 0 <= j < k ensures Expected(r', j) == Expected(r, j) { assert FateOk(r, j); }
  }

  lemma SpawnKeepsInv(r: Run)
    requires Inv(r) && Enabled(r, Spawn)
    ensures Inv(Next(r, Spawn))
  {
    var r' := Next(r, Spawn);
    assert r'.tasks[..|r.tasks|] == r.tasks;
    SpawnTasks(r);
    CheckpointStable(r, r');
    PassMatched(r, r', []);
    ShapedStable(r, r', []);
  }

  /** A step inside one task changes no item, fate or position. */
  lemma TasksStable(r: Run, r': Run)
    requires TasksOk(r) && r'.items == r.items && r'.fates == r.fates && r'.loaded == r.loaded
      && |r'.tasks| == |r.tasks|
    requires forall t :: 0 <= t < |r.tasks| ==> r'.tasks[t].item == r.tasks[t].item && r'.tasks[t].at == r.tasks[t].at
    ensures TasksOk(r')
  {
    forall t | 0 <= t < |r'.tasks| ensures TaskOk(r', t) { assert TaskOk(r, t); }
    forall j | 0 <= j < |r'.fates| ensures FateOk(r', j) { assert FateOk(r, j); }
  }

  /** What a step leaves alone: the results, and which tasks have been joined. */
  lemma MatchedStable(r: Run, r': Run)
    requires |r.fates| <= |r.items| && r'.items == r.items && r'.fates == r.fates && r'.loaded == r.loaded
    requires |r'.tasks| == |r.tasks| && r'.results == r.results && Matched(r)
    requires forall t :: 0 <= t < |r.tasks| ==>
      r'.tasks[t] == r.tasks[t] || (!r'.tasks[t].phase.Joined? && !r.tasks[t].phase.Joined?)
    ensures Matched(r')
  {
    forall j | 0 <= j < |r.fates| ensures ResultsFor(r'.results, r'.items[j]) == Expected(r', j) {
      assert Expected(r', j) == Expected(r, j);
    }
  }

  lemma FinishKeepsInv(r: Run, t: nat, o: Outcome)
    requires Inv(r) && Enabled(r, Finish(t, o))
    ensures Inv(Next(r, Finish(t, o)))
  {
    var r' := Next(r, Finish(t, o));
    CountsUpdate(r.tasks, t, r'.tasks[t]);
    CheckpointStable(r, r');
    TasksStable(r, r');
    MatchedStable(r, r');
    ShapedStable(r, r', []);
  }

  lemma MarkGrows(r: Run, c: Checkpoint, id: ItemId, o: Outcome)
    requires Grown(r, c) && JoinedAs(r, id, o) && !Skips(r.loaded, id)
    ensures Grown(r, Recorded(c, id, o))
  {
  }

  lemma JoinGrows(r: Run, t: nat, saves: bool)
    requires TasksOk(r) && Grown(r, r.state) && FileOk(r) && Enabled(r, Join(t, saves))
    ensures var r' := Next(r, Join(t, saves)); Grown(r', r'.state) && FileOk(r')
  {
    var r', id, o := Next(r, Join(t, saves)), r.tasks[t].item, r.tasks[t].phase.outcome;
    GrownStable(r, r', r.state);
    if r.file.Some? { GrownStable(r, r', r.file.value); }
    assert TaskOk(r, t) && FateOk(r, r.tasks[t].at);
    assert r'.tasks[t].item == id && r'.tasks[t].phase == Joined(o);
    assert JoinedAs(r', id, o);
    MarkGrows(r', r.state, id, o);
  }

  lemma JoinExpected(r: Run, t: nat, saves: bool, j: nat)
    requires TasksOk(r) && Distinct(r.items) && Enabled(r, Join(t, saves)) && j < |r.fates|
    ensures Expected(Next(r, Join(t, saves)), j)
         == Expected(r, j)
            + if r.items[j] == r.tasks[t].item then [ResultOf(r.items[j], r.tasks[t].phase.outcome)] else []
  {
    assert TaskOk(r, t) && FateOk(r, j);
  }

  lemma JoinMatched(r: Run, t: nat, saves: bool)
    requires TasksOk(r) && Distinct(r.items) && Matched(r) && Enabled(r, Join(t, saves))
    ensures Matched(Next(r, Join(t, saves)))
  {
    var r', id, o := Next(r, Join(t, saves)), r.tasks[t].item, r.tasks[t].phase.outcome;
    hide ResultsFor, Expected, TasksOk, Distinct, Recorded;
    assert ResultOf(id, o).itemId == id;
    forall j | 0 <= j < |r.fates| ensures ResultsFor(r'.results, r'.items[j]) == Expected(r', j) {
      ResultsForAppend(r.results, ResultOf(id, o), r.items[j]);
      JoinExpected(r, t, saves, j);
    }
  }

  lemma JoinBalanced(r: Run, t: nat, saves: bool)
    requires Balanced(r) && Enabled(r, Join(t, saves))
    ensures Balanced(Next(r, Join(t, saves)))
  {
    CountsUpdate(r.tasks, t, Next(r, Join(t, saves)).tasks[t]);
  }

  lemma JoinShaped(r: Run, t: nat, saves: bool)
    requires TasksOk(r) && ResultsShaped(r) && Enabled(r, Join(t, saves))
    ensures TasksOk(Next(r, Join(t, saves))) && ResultsShaped(Next(r, Join(t, saves)))
  {
    var r' := Next(r, Join(t, saves));
    TasksStable(r, r');
    assert TaskOk(r, t);
    ShapedStable(r, r', [ResultOf(r.tasks[t].item, r.tasks[t].phase.outcome)]);
  }

  lemma JoinKeepsInv(r: Run, t: nat, saves: bool)
    requires Inv(r) && Enabled(r, Join(t, saves))
    ensures Inv(Next(r, Join(t, saves)))
  {
    JoinBalanced(r, t, saves);
    JoinGrows(r, t, saves);
    JoinMatched(r, t, saves);
    JoinShaped(r, t, saves);
  }

  lemma CompleteKeepsInv(r: Run, saves: bool)
    requires Inv(r) && Enabled(r, Complete(saves))
    ensures Inv(Next(r, Complete(saves)))
  {
    var r' := Next(r, Complete(saves));
    GrownStable(r, r', r.state);
    if r.file.Some? { GrownStable(r, r', r.file.value); }
    TasksStable(r, r');
    MatchedStable(r, r');
    ShapedStable(r, r', []);
  }

  lemma NextKeepsInv(r: Run, a: Action)
    requires Inv(r) && Enabled(r, a)
    ensures Inv(Next(r, a))
  {
    match a
    case Skip => SkipKeepsInv(r);
    case Spawn => SpawnKeepsInv(r);
    case Finish(t, o) => FinishKeepsInv(r, t, o);
    case Join(t, saves) => JoinKeepsInv(r, t, saves);
    case Complete(saves) => CompleteKeepsInv(r, saves);
  }

  lemma {:induction false} RunKeepsInv(r: Run, run: seq<Action>)
    requires Inv(r) && IsRun(r, run)
    ensures Inv(After(r, run))
    ensures After(r, run).items == r.items && After(r, run).loaded == r.loaded
      && After(r, run).concurrency == r.concurrency
    decreases |run|
  {
    if run != [] {
      NextKeepsInv(r, run[0]);
      RunKeepsInv(Next(r, run[0]), run[1..]);
    }
  }

  // ---- Main results about one run ----

  lemma {:induction false} CountsAddUp(rs: seq<ItemResult>)
    ensures Count(rs, IsCompleted) + Count(rs, IsFailure) + Count(rs, IsSkipped) == |rs| + Count(rs, IsSkippedFailure)
  {
    if rs != [] {
      CountsAddUp(rs[..|rs| - 1]);
    }
  }

  lemma {:induction false} ErrorsAreFailures(rs: seq<ItemResult>)
    requires forall x :: x in rs ==> Shaped(x)
    ensures |Errors(rs)| == Failures(rs)
  {
    if rs != [] {
      assert rs[|rs| - 1] in rs;
      ErrorsAreFailures(rs[..|rs| - 1]);
    }
  }

  lemma {:induction false} AllJoined(ts: seq<Task>)
    requires forall t :: 0 <= t < |ts| ==> ts[t].phase.Joined?
    ensures UnjoinedCount(ts) == 0
  {
    if ts != [] {
      AllJoined(ts[..|ts| - 1]);
    }
  }

  /** What a completed run reports. */
  ghost predicate Reported(r: Run) {
    r.ending.Some? && r.ending.value.Summary? ==> OneEach(r) && AddsUp(r, r.ending.value)
  }

  ghost predicate OneEach(r: Run) {
    && |r.results| == |r.items|
    && (forall k :: 0 <= k < |r.items| ==> |ResultsFor(r.results, r.items[k])| == 1)
    && (forall x :: x in r.results ==> x.itemId in r.items)
  }

  ghost predicate AddsUp(r: Run, e: Ending)
    requires e.Summary?
  {
    && e.completed + e.failed + e.skipped == |r.items| + Count(r.results, IsSkippedFailure)
    && |e.errors| == e.failed
  }

  lemma AllHaveResults(r: Run)
    requires TasksOk(r) && Matched(r) && ResultsShaped(r) && Balanced(r)
    requires |r.fates| == |r.items| && forall t :: 0 <= t < |r.tasks| ==> r.tasks[t].phase.Joined?
    ensures OneEach(r)
  {
    AllJoined(r.tasks);
    forall x | x in r.results ensures x.itemId in r.items {
      assert Passed(r, x.itemId);
    }
    forall k | 0 <= k < |r.items| ensures |ResultsFor(r.results, r.items[k])| == 1 {
      assert FateOk(r, k);
      assert ResultsFor(r.results, r.items[k]) == Expected(r, k);
    }
  }

  lemma CompleteReports(r: Run, saves: bool)
    requires Inv(r) && Enabled(r, Complete(saves))
    ensures Reported(Next(r, Complete(saves)))
  {
    AllHaveResults(r);
    CountsAddUp(r.results);
    ErrorsAreFailures(r.results);
  }

  lemma {:induction false} RunReports(r: Run, run: seq<Action>)
    requires Inv(r) && IsRun(r, run) && Reported(r)
    ensures Reported(After(r, run))
    decreases |run|
  {
    if run != [] {
      NextKeepsInv(r, run[0]);
      if run[0].Complete? {
        CompleteReports(r, run[0].saves);
      }
      RunReports(Next(r, run[0]), run[1..]);
    }
  }

  /** No id is both completed and failed. */
  predicate Disjoint(c: Checkpoint) {
    forall id :: id in c.completed ==> id !in c.failed
  }

  predicate FileDisjoint(file: Option<Checkpoint>) {
    file.Some? ==> Disjoint(file.value)
  }

  /** Main result: in every interleaving of one run over distinct items, permits are conserved and so
      at most `concurrency` tasks work at once, the completed and failed ids of the state and of the
      file stay disjoint, and a completed run reports exactly one result per item with counts that
      add up. */
  lemma EveryInterleaving(items: seq<ItemId>, concurrency: nat, file: Option<Checkpoint>, run: seq<Action>)
    requires Distinct(items) && IsRun(Start(items, concurrency, file), run) && FileDisjoint(file)
    ensures var r := After(Start(items, concurrency, file), run);
      && r.free + WorkingCount(r.tasks) == concurrency
      && Reported(r)
      && Disjoint(r.state) && FileDisjoint(r.file)
  {
    var s := Start(items, concurrency, file);
    StartInv(items, concurrency, file);
    RunKeepsInv(s, run);
    RunReports(s, run);
    var r := After(s, run);
    MarksDisjoint(r, r.state);
    if r.file.Some? && r.file.value != r.state {
      MarksDisjoint(r, r.file.value);
    }
  }

  lemma MarksDisjoint(r: Run, c: Checkpoint)
    requires TasksOk(r) && Distinct(r.items) && Grown(r, c) && Disjoint(r.loaded)
    ensures Disjoint(c)
  {
    forall id, o | JoinedAs(r, id, o) ensures !Skips(r.loaded, id) {
      var t :| 0 <= t < |r.tasks| && r.tasks[t].item == id && r.tasks[t].phase == Joined(o);
      assert TaskOk(r, t) && FateOk(r, r.tasks[t].at);
    }
    forall id, m | JoinedAs(r, id, FailedWith(m)) ensures !JoinedAs(r, id, Succeeded) {
      var t :| 0 <= t < |r.tasks| && r.tasks[t].item == id && r.tasks[t].phase == Joined(FailedWith(m));
      if JoinedAs(r, id, Succeeded) {
        JoinedOnce(r, t, id, Succeeded);
        assert false;
      }
    }
  }

  /** Distinct items run in distinct tasks, so an item is joined under one outcome only. */
  lemma JoinedOnce(r: Run, t: nat, id: ItemId, o: Outcome)
    requires TasksOk(r) && Distinct(r.items) && t < |r.tasks| && r.tasks[t].item == id && JoinedAs(r, id, o)
    ensures r.tasks[t].phase == Joined(o)
  {
    var u :| 0 <= u < |r.tasks| && r.tasks[u].item == id && r.tasks[u].phase == Joined(o);
    assert TaskOk(r, t) && TaskOk(r, u);
    assert r.tasks[t].at == r.tasks[u].at;
  }

  // ---- Every run ends ----

  /** The steps a task can still take. */
  function Weight(t: Task): nat {
    match t.phase
    case Working => 2
    case Done(_) => 1
    case Joined(_) => 0
  }

  function TotalWeight(ts: seq<Task>): nat {
    if ts == [] then 0 else TotalWeight(ts[..|ts| - 1]) + Weight(ts[|ts| - 1])
  }

  /** The most steps a run can still take: three for an item not passed, and the last one. */
  function Remaining(r: Run): int {
    3 * (|r.items| - |r.fates|) + TotalWeight(r.tasks) + if r.ending.None? then 1 else 0
  }

  lemma {:induction false} WeightUpdate(ts: seq<Task>, i: nat, t: Task)
    requires i < |ts|
    ensures TotalWeight(ts[i := t]) == TotalWeight(ts) - Weight(ts[i]) + Weight(t)
  {
    var init := ts[..|ts| - 1];
    if i < |ts| - 1 {
      WeightUpdate(init, i, t);
      assert ts[i := t][..|ts| - 1] == init[i := t];
    } else {
      assert ts[i := t][..|ts| - 1] == init;
    }
  }

  lemma StepCounts(r: Run, a: Action)
    requires Enabled(r, a)
    ensures Remaining(Next(r, a)) < Remaining(r)
  {
    match a
    case Spawn =>
      var t := Task(r.items[|r.fates|], |r.fates|, Working);
      assert (r.tasks + [t])[..|r.tasks|] == r.tasks;
    case Finish(t, o) => WeightUpdate(r.tasks, t, r.tasks[t].(phase := Done(o)));
    case Join(t, _) => WeightUpdate(r.tasks, t, r.tasks[t].(phase := Joined(r.tasks[t].phase.outcome)));
    case _ =>
  }

  lemma {:induction false} StepsBounded(r: Run, run: seq<Action>)
    requires IsRun(r, run)
    ensures |run| <= Remaining(r) - Remaining(After(r, run))
    decreases |run|
  {
    if run != [] {
      StepCounts(r, run[0]);
      StepsBounded(Next(r, run[0]), run[1..]);
    }
  }

  lemma {:induction false} SomeoneWorks(ts: seq<Task>) returns (t: nat)
    requires WorkingCount(ts) > 0
    ensures t < |ts| && ts[t].phase.Working?
  {
    t := |ts| - 1;
    if !ts[t].phase.Working? {
      t := SomeoneWorks(ts[..|ts| - 1]);
    }
  }

  /** With a permit to give, a run that has not ended can always go on. */
  lemma NeverStuck(r: Run) returns (a: Action)
    requires TasksOk(r) && Balanced(r) && r.concurrency >= 1 && r.ending.None?
    ensures Enabled(r, a)
  {
    var k := |r.fates|;
    if k < |r.items| {
      if Skips(r.loaded, r.items[k]) {
        a := Skip;
      } else if r.free > 0 {
        a := Spawn;
      } else {
        var t := SomeoneWorks(r.tasks);
        a := Finish(t, Succeeded);
      }
    } else if t :| 0 <= t < |r.tasks| && !r.tasks[t].phase.Joined? {
      a := if r.tasks[t].phase.Working? then Finish(t, Succeeded) else Join(t, true);
    } else {
      a := Complete(true);
    }
  }

  /** Main result: with at least one permit every run takes at most three steps an item and one more,
      whatever their order, and until it has ended there is always one to take. So every run that is
      not cut ends, and by `EveryInterleaving` reports each item once. */
  lemma RunsEnd(items: seq<ItemId>, concurrency: nat, file: Option<Checkpoint>, run: seq<Action>)
    requires Distinct(items) && concurrency >= 1 && IsRun(Start(items, concurrency, file), run)
    ensures |run| <= 3 * |items| + 1
    ensures var r := After(Start(items, concurrency, file), run); r.ending.Some? || exists a :: Enabled(r, a)
  {
    var s := Start(items, concurrency, file);
    StartInv(items, concurrency, file);
    RunKeepsInv(s, run);
    StepsBounded(s, run);
    var r := After(s, run);
    if r.ending.None? {
      var a := NeverStuck(r);
    }
  }

  // ---- Chains of resumed runs ----

  /** The process function was called for the item in this run. */
  ghost predicate Processed(r: Run, id: ItemId) {
    exists k :: 0 <= k < |r.fates| && k < |r.items| && r.items[k] == id && r.fates[k].Spawned?
  }

  /** The run that resumes from a file, cut after some of its actions. */
  datatype Leg = Leg(concurrency: nat, actions: seq<Action>)

  predicate LegOk(items: seq<ItemId>, file: Option<Checkpoint>, leg: Leg) {
    IsRun(Start(items, leg.concurrency, file), leg.actions)
  }

  function LegEnd(items: seq<ItemId>, file: Option<Checkpoint>, leg: Leg): Run
    requires LegOk(items, file, leg)
  {
    After(Start(items, leg.concurrency, file), leg.actions)
  }

  /** Each run resumes from the file the one before left, whether it finished or crashed. */
  predicate IsChain(items: seq<ItemId>, file: Option<Checkpoint>, legs: seq<Leg>)
    decreases |legs|
  {
    legs != [] ==> LegOk(items, file, legs[0]) && IsChain(items, LegEnd(items, file, legs[0]).file, legs[1..])
  }

  lemma {:induction false} CountPositive(rs: seq<ItemResult>, x: ItemResult)
    requires x in rs && IsFailure(x)
    ensures Failures(rs) > 0
  {
    if rs[|rs| - 1] != x {
      CountPositive(rs[..|rs| - 1], x);
    }
  }

  lemma {:induction false} ResultsForMember(rs: seq<ItemResult>, id: ItemId, x: ItemResult)
    requires x in ResultsFor(rs, id)
    ensures x in rs
  {
    if x in ResultsFor(rs[..|rs| - 1], id) {
      ResultsForMember(rs[..|rs| - 1], id, x);
    }
  }

  lemma LegInv(items: seq<ItemId>, file: Option<Checkpoint>, leg: Leg)
    requires Distinct(items) && LegOk(items, file, leg)
    ensures var r := LegEnd(items, file, leg);
      Inv(r) && r.items == items && r.loaded == (if file.Some? then file.value else EmptyCheckpoint)
  {
    StartInv(items, leg.concurrency, file);
    RunKeepsInv(Start(items, leg.concurrency, file), leg.actions);
  }

  lemma SkippedNotProcessed(r: Run, id: ItemId)
    requires TasksOk(r) && Distinct(r.items) && Skips(r.loaded, id)
    ensures !Processed(r, id)
  {
    forall k | 0 <= k < |r.fates| && r.items[k] == id ensures r.fates[k].Skipped? {
      assert FateOk(r, k);
    }
  }

  /** An item of a run that has failed for good is reported so, and holds the file in place. */
  lemma LoadedFailureReported(r: Run, k: nat)
    requires Inv(r) && k < |r.items| && r.items[k] in r.loaded.failed
    ensures k < |r.fates| ==> ResultsFor(r.results, r.items[k]) == [SkippedResult(r.items[k], r.loaded.failed)]
    ensures k < |r.fates| ==> Failures(r.results) > 0
  {
    if k < |r.fates| {
      assert FateOk(r, k);
      var x := SkippedResult(r.items[k], r.loaded.failed);
      assert Expected(r, k) == [x];
      ResultsForMember(r.results, r.items[k], x);
      CountPositive(r.results, x);
    }
  }

  /** An unresolved failure of a checkpoint, through one resumed run. */
  ghost predicate StaysFailed(r: Run, id: ItemId, message: string) {
    && !Processed(r, id)
    && r.file.Some? && id in r.file.value.failed && r.file.value.failed[id] == message
    && (r.ending.Some? && r.ending.value.Summary? ==>
          ResultsFor(r.results, id)
          == [ItemResult(id, false, true,
                         Some(ItemError(id, "resume", "unresolved failure from previous run: " + message)))])
  }

  lemma FailureSticksOnce(items: seq<ItemId>, file: Option<Checkpoint>, leg: Leg, id: ItemId)
    requires Distinct(items) && LegOk(items, file, leg) && id in items
    requires file.Some? && id in file.value.failed
    ensures StaysFailed(LegEnd(items, file, leg), id, file.value.failed[id])
  {
    var r := LegEnd(items, file, leg);
    LegInv(items, file, leg);
    SkippedNotProcessed(r, id);
    var k :| 0 <= k < |items| && items[k] == id;
    LoadedFailureReported(r, k);
    CompletedPassedAll(items, file, leg);
  }

  /** A run that has a summary passed every item. */
  lemma CompletedPassedAll(items: seq<ItemId>, file: Option<Checkpoint>, leg: Leg)
    requires Distinct(items) && LegOk(items, file, leg)
    ensures var r := LegEnd(items, file, leg); r.ending.Some? ==> |r.fates| == |r.items|
  {
    PassedAllFrom(Start(items, leg.concurrency, file), leg.actions);
  }

  lemma {:induction false} PassedAllFrom(r: Run, run: seq<Action>)
    requires IsRun(r, run) && (r.ending.Some? ==> |r.fates| == |r.items|)
    ensures After(r, run).ending.Some? ==> |After(r, run).fates| == |After(r, run).items|
    decreases |run|
  {
    if run != [] {
      PassedAllFrom(Next(r, run[0]), run[1..]);
    }
  }

  ghost predicate AlwaysStaysFailed(items: seq<ItemId>, file: Option<Checkpoint>, legs: seq<Leg>, id: ItemId,
                                    message: string)
    requires IsChain(items, file, legs)
    decreases |legs|
  {
    legs != [] ==>
      && StaysFailed(LegEnd(items, file, legs[0]), id, message)
      && AlwaysStaysFailed(items, LegEnd(items, file, legs[0]).file, legs[1..], id, message)
  }

  /** Main result: once an item's failure is in the checkpoint, no later resumed run processes it,
      each one that completes reports it failed at stage "resume" with its original message, and the
      checkpoint stays alive with it, however the runs interleave and wherever they are cut. */
  lemma {:induction false} FailureSticks(items: seq<ItemId>, file: Option<Checkpoint>, legs: seq<Leg>, id: ItemId)
    requires Distinct(items) && IsChain(items, file, legs) && id in items
    requires file.Some? && id in file.value.failed
    ensures AlwaysStaysFailed(items, file, legs, id, file.value.failed[id])
    decreases |legs|
  {
    if legs != [] {
      FailureSticksOnce(items, file, legs[0], id);
      FailureSticks(items, LegEnd(items, file, legs[0]).file, legs[1..], id);
    }
  }

  /** No run of the chain processes the item for as long as the file is there to resume from. */
  ghost predicate NotProcessedWhileAlive(items: seq<ItemId>, file: Option<Checkpoint>, legs: seq<Leg>, id: ItemId)
    requires IsChain(items, file, legs)
    decreases |legs|
  {
    legs != [] && file.Some? ==>
      && !Processed(LegEnd(items, file, legs[0]), id)
      && NotProcessedWhileAlive(items, LegEnd(items, file, legs[0]).file, legs[1..], id)
  }

  /** Main result: while the checkpoint lives, no item it records as completed is processed again. */
  lemma {:induction false} CompletedNotReprocessed(items: seq<ItemId>, file: Option<Checkpoint>, legs: seq<Leg>,
                                                   id: ItemId)
    requires Distinct(items) && IsChain(items, file, legs)
    requires file.Some? ==> id in file.value.completed
    ensures NotProcessedWhileAlive(items, file, legs, id)
    decreases |legs|
  {
    if legs != [] && file.Some? {
      var r := LegEnd(items, file, legs[0]);
      LegInv(items, file, legs[0]);
      SkippedNotProcessed(r, id);
      CompletedNotReprocessed(items, r.file, legs[1..], id);
    }
  }

  /** The outcome of the task is in no checkpoint: it panicked, or the run was cut before it was joined. */
  predicate Unrecorded(t: Task) {
    t.phase.Joined? ==> t.phase.result.PanickedWith?
  }

  /** The first run of the chain to pass the item processes it. */
  ghost predicate RetriedWhenReached(items: seq<ItemId>, file: Option<Checkpoint>, legs: seq<Leg>, k: nat)
    requires IsChain(items, file, legs)
    decreases |legs|
  {
    legs != [] ==>
      var r := LegEnd(items, file, legs[0]);
      if k < |r.fates| then r.fates[k].Spawned? else RetriedWhenReached(items, r.file, legs[1..], k)
  }

  /** Main result: over any chain of resumed runs an item that panicked, whether or not the run was cut
      before the panic was joined, is retried by the first run that gets to it, however many are cut
      before they do. The same holds of an item whose run was cut before its outcome was recorded. */
  lemma PanickedIsRetried(items: seq<ItemId>, file: Option<Checkpoint>, first: Leg, legs: seq<Leg>, t: nat)
    requires Distinct(items) && LegOk(items, file, first) && IsChain(items, LegEnd(items, file, first).file, legs)
    requires var r := LegEnd(items, file, first); t < |r.tasks| && Unrecorded(r.tasks[t])
    ensures var r := LegEnd(items, file, first);
      r.tasks[t].at < |items| && items[r.tasks[t].at] == r.tasks[t].item
        && RetriedWhenReached(items, r.file, legs, r.tasks[t].at)
  {
    var r := LegEnd(items, file, first);
    LegInv(items, file, first);
    assert TaskOk(r, t);
    if r.file.Some? {
      FileGrown(r);
      NotMarked(r, t, r.file.value);
    }
    UnmarkedIsRetried(items, r.file, legs, r.tasks[t].at);
  }

  lemma FileGrown(r: Run)
    requires Inv(r) && r.file.Some?
    ensures Grown(r, r.file.value)
  {
  }

  lemma NotMarked(r: Run, t: nat, c: Checkpoint)
    requires TasksOk(r) && Distinct(r.items) && Grown(r, c) && t < |r.tasks| && Unrecorded(r.tasks[t])
    ensures !Skips(c, r.tasks[t].item)
  {
    var id := r.tasks[t].item;
    assert TaskOk(r, t) && FateOk(r, r.tasks[t].at);
    if id in c.completed {
      JoinedOnce(r, t, id, Succeeded);
    } else if id in c.failed {
      JoinedOnce(r, t, id, FailedWith(c.failed[id]));
    }
  }

  /** A run marks no item it has not passed. */
  lemma NotPassedNotMarked(r: Run, k: nat, c: Checkpoint)
    requires TasksOk(r) && Distinct(r.items) && Grown(r, c) && |r.fates| <= k < |r.items|
      && !Skips(r.loaded, r.items[k])
    ensures !Skips(c, r.items[k])
  {
    forall o ensures !JoinedAs(r, r.items[k], o) {
      forall t | 0 <= t < |r.tasks| ensures r.tasks[t].item != r.items[k] {
        assert TaskOk(r, t);
      }
    }
  }

  lemma {:induction false} UnmarkedIsRetried(items: seq<ItemId>, file: Option<Checkpoint>, legs: seq<Leg>, k: nat)
    requires Distinct(items) && IsChain(items, file, legs) && k < |items|
    requires file.Some? ==> !Skips(file.value, items[k])
    ensures RetriedWhenReached(items, file, legs, k)
    decreases |legs|
  {
    if legs != [] {
      var r := LegEnd(items, file, legs[0]);
      LegInv(items, file, legs[0]);
      if k < |r.fates| {
        assert FateOk(r, k);
      } else {
        if r.file.Some? {
          FileGrown(r);
          NotPassedNotMarked(r, k, r.file.value);
        }
        UnmarkedIsRetried(items, r.file, legs[1..], k);
      }
    }
  }

  /** No run of the chain leaves an id both completed and failed, in its state or in the file. */
  ghost predicate AlwaysDisjoint(items: seq<ItemId>, file: Option<Checkpoint>, legs: seq<Leg>)
    requires IsChain(items, file, legs)
    decreases |legs|
  {
    legs != [] ==>
      var r := LegEnd(items, file, legs[0]);
      Disjoint(r.state) && FileDisjoint(r.file) && AlwaysDisjoint(items, r.file, legs[1..])
  }

  /** Main result: over any chain of runs that begins without a file, or with one of ours, the
      checkpointed completed and failed ids stay disjoint. */
  lemma {:induction false} ChainStaysDisjoint(items: seq<ItemId>, file: Option<Checkpoint>, legs: seq<Leg>)
    requires Distinct(items) && IsChain(items, file, legs) && FileDisjoint(file)
    ensures AlwaysDisjoint(items, file, legs)
    decreases |legs|
  {
    if legs != [] {
      EveryInterleaving(items, legs[0].concurrency, file, legs[0].actions);
      ChainStaysDisjoint(items, LegEnd(items, file, legs[0]).file, legs[1..]);
    }
  }
}
