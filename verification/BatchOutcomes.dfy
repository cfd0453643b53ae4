/** What a run of crates/yeomna-batch/src/processor.rs reports of each item and what it leaves in the
    file, read off the actions of the run and the file it resumed from. */
module BatchOutcomes {
  import opened Json
  import opened Batch

  // ---- A run taken from its end ----

  lemma {:induction false} SplitLast(r: Run, run: seq<Action>)
    requires run != [] && IsRun(r, run)
    ensures var m := |run| - 1;
      IsRun(r, run[..m]) && Enabled(After(r, run[..m]), run[m]) && After(r, run) == Next(After(r, run[..m]), run[m])
    decreases |run|
  {
    hide Enabled, Next;
    var m := |run| - 1;
    if m > 0 {
      SplitLast(Next(r, run[0]), run[1..]);
      assert run[1..][..m - 1] == run[..m][1..];
    }
  }

  // ---- A task and the actions of the run on it ----

  predicate JoinedIn(run: seq<Action>, t: nat) {
    Join(t, true) in run || Join(t, false) in run
  }

  ghost predicate FinishedAs(run: seq<Action>, t: nat, o: Outcome) {
    Finish(t, o) in run && forall p :: Finish(t, p) in run ==> p == o
  }

  ghost predicate PhaseFollows(phase: TaskPhase, run: seq<Action>, t: nat) {
    match phase
    case Working => (forall p :: Finish(t, p) !in run) && !JoinedIn(run, t)
    case Done(o) => FinishedAs(run, t, o) && !JoinedIn(run, t)
    case Joined(o) => FinishedAs(run, t, o) && JoinedIn(run, t)
  }

  ghost predicate Untouched(run: seq<Action>, t: nat) {
    (forall p :: Finish(t, p) !in run) && !JoinedIn(run, t)
  }

  ghost predicate Follows(r: Run, run: seq<Action>) {
    && (forall t :: 0 <= t < |r.tasks| ==> PhaseFollows(r.tasks[t].phase, run, t))
    && (forall t: nat :: |r.tasks| <= t ==> Untouched(run, t))
  }

  predicate Touches(a: Action, t: nat) {
    (a.Finish? || a.Join?) && a.task == t
  }

  lemma OtherFollows(phase: TaskPhase, run: seq<Action>, a: Action, t: nat)
    requires !Touches(a, t)
    ensures PhaseFollows(phase, run, t) ==> PhaseFollows(phase, run + [a], t)
    ensures Untouched(run, t) ==> Untouched(run + [a], t)
  {
    assert forall p :: Finish(t, p) in run + [a] <==> Finish(t, p) in run;
    assert JoinedIn(run + [a], t) <==> JoinedIn(run, t);
  }

  lemma FinishFollows(run: seq<Action>, t: nat, o: Outcome)
    requires PhaseFollows(Working, run, t)
    ensures PhaseFollows(Done(o), run + [Finish(t, o)], t)
  {
    assert forall p :: Finish(t, p) in run + [Finish(t, o)] <==> Finish(t, p) in run || p == o;
    assert JoinedIn(run + [Finish(t, o)], t) <==> JoinedIn(run, t);
  }

  lemma JoinFollows(run: seq<Action>, t: nat, o: Outcome, saves: bool)
    requires PhaseFollows(Done(o), run, t)
    ensures PhaseFollows(Joined(o), run + [Join(t, saves)], t)
  {
    assert forall p :: Finish(t, p) in run + [Join(t, saves)] <==> Finish(t, p) in run;
    assert Join(t, saves) in run + [Join(t, saves)];
  }

  /** The phases after an action: one task moves, or one is new, or none changes. */
  lemma PhasesAfter(r: Run, a: Action, t: nat)
    requires Enabled(r, a) && t < |Next(r, a).tasks|
    ensures var phase := Next(r, a).tasks[t].phase;
      if t >= |r.tasks| then phase.Working? && !Touches(a, t)
      else if !Touches(a, t) then phase == r.tasks[t].phase
      else if a.Finish? then r.tasks[t].phase.Working? && phase == Done(a.outcome)
      else r.tasks[t].phase.Done? && phase == Joined(r.tasks[t].phase.outcome)
  {
  }

  lemma TasksGrow(r: Run, a: Action)
    requires Enabled(r, a)
    ensures |r.tasks| <= |Next(r, a).tasks|
    ensures forall t: nat :: |Next(r, a).tasks| <= t ==> !Touches(a, t)
  {
  }

  lemma NextFollows(r: Run, run: seq<Action>, a: Action)
    requires Enabled(r, a) && Follows(r, run)
    ensures Follows(Next(r, a), run + [a])
  {
    var r' := Next(r, a);
    hide Next, Enabled, PhaseFollows, Untouched, Touches;
    forall t | 0 <= t < |r'.tasks| ensures PhaseFollows(r'.tasks[t].phase, run + [a], t) {
      PhasesAfter(r, a, t);
      if t >= |r.tasks| {
        FreshFollows(run, t);
        OtherFollows(Working, run, a, t);
      } else if !Touches(a, t) {
        OtherFollows(r.tasks[t].phase, run, a, t);
      } else {
        MovedFollows(r.tasks[t].phase, r'.tasks[t].phase, run, a, t);
      }
    }
    TasksGrow(r, a);
    forall t: nat | |r'.tasks| <= t ensures Untouched(run + [a], t) {
      OtherFollows(Working, run, a, t);
    }
  }

  lemma FreshFollows(run: seq<Action>, t: nat)
    requires Untouched(run, t)
    ensures PhaseFollows(Working, run, t)
  {
  }

  lemma MovedFollows(before: TaskPhase, phase: TaskPhase, run: seq<Action>, a: Action, t: nat)
    requires Touches(a, t) && PhaseFollows(before, run, t)
    requires if a.Finish? then before.Working? && phase == Done(a.outcome)
             else before.Done? && phase == Joined(before.outcome)
    ensures PhaseFollows(phase, run + [a], t)
  {
    if a.Finish? {
      FinishFollows(run, t, a.outcome);
    } else {
      JoinFollows(run, t, before.outcome, a.saves);
    }
  }

  // ---- What was joined is marked ----

  /** Every joined success is among the completed ids and every joined failure among the failed ones
      under its own message; a panic marks nothing. */
  ghost predicate Marked(r: Run, c: Checkpoint) {
    forall t :: 0 <= t < |r.tasks| && r.tasks[t].phase.Joined? ==> MarkOf(c, r.tasks[t].item, r.tasks[t].phase.result)
  }

  predicate MarkOf(c: Checkpoint, id: ItemId, o: Outcome) {
    match o
    case Succeeded => id in c.completed
    case FailedWith(m) => id in c.failed && c.failed[id] == m
    case PanickedWith(_) => true
  }

  lemma NextMarked(r: Run, a: Action)
    requires TasksOk(r) && Distinct(r.items) && Enabled(r, a) && Marked(r, r.state)
    ensures Marked(Next(r, a), Next(r, a).state)
  {
    var r' := Next(r, a);
    forall t | 0 <= t < |r'.tasks| && r'.tasks[t].phase.Joined?
      ensures MarkOf(r'.state, r'.tasks[t].item, r'.tasks[t].phase.result)
    {
      assert t < |r.tasks| && TaskOk(r, t);
      if a.Join? {
        assert TaskOk(r, a.task);
        assert t != a.task ==> r.tasks[t].item != r.tasks[a.task].item;
      }
    }
  }

  lemma {:induction false} RunFollows(items: seq<ItemId>, concurrency: nat, file: Option<Checkpoint>, run: seq<Action>)
    requires Distinct(items) && IsRun(Start(items, concurrency, file), run)
    ensures var r := After(Start(items, concurrency, file), run); Follows(r, run) && Marked(r, r.state)
    decreases |run|
  {
    var s := Start(items, concurrency, file);
    if run != [] {
      var m := |run| - 1;
      SplitLast(s, run);
      RunFollows(items, concurrency, file, run[..m]);
      LegInv(items, file, Leg(concurrency, run[..m]));
      hide Start, IsRun, Follows, Marked, Next, Enabled;
      NextFollows(After(s, run[..m]), run[..m], run[m]);
      NextMarked(After(s, run[..m]), run[m]);
      assert run[..m] + [run[m]] == run;
    }
  }

  // ---- Main result: the result of each item ----

  /** The result the process function's outcome for an item calls for. */
  ghost predicate Tells(x: ItemResult, id: ItemId, o: Outcome) {
    && x.itemId == id && !x.skipped && (x.success <==> o.Succeeded?)
    && match o
       case Succeeded => x.error == None
       case FailedWith(m) => x.error == Some(ItemError(id, "processing", m))
       case PanickedWith(m) => x.error == Some(ItemError(id, "spawn", "task panicked: " + m))
  }

  /** The result a skipped item calls for. */
  ghost predicate TellsSkip(x: ItemResult, id: ItemId, loaded: Checkpoint) {
    && x.itemId == id && x.skipped && (x.success <==> id !in loaded.failed)
    && x.error == if id in loaded.failed
                  then Some(ItemError(id, "resume", "unresolved failure from previous run: " + loaded.failed[id]))
                  else None
  }

  /** Everything a run says about an item its loop has passed. */
  ghost predicate ItemFollows(r: Run, run: seq<Action>, loaded: Checkpoint, k: nat)
    requires k < |r.fates| && k < |r.items|
  {
    var (id, xs) := (r.items[k], ResultsFor(r.results, r.items[k]));
    if id in loaded.completed || id in loaded.failed then
      r.fates[k].Skipped? && |xs| == 1 && TellsSkip(xs[0], id, loaded)
    else
      && r.fates[k].Spawned? && r.fates[k].task < |r.tasks| && r.tasks[r.fates[k].task].item == id
      && TaskTold(r, run, r.fates[k].task, xs)
  }

  ghost predicate TaskTold(r: Run, run: seq<Action>, t: nat, xs: seq<ItemResult>)
    requires t < |r.tasks|
  {
    var id := r.tasks[t].item;
    && (!JoinedIn(run, t) ==> xs == [])
    && (JoinedIn(run, t) ==> exists o :: Finish(t, o) in run && |xs| == 1 && Tells(xs[0], id, o))
    && (forall o :: Finish(t, o) in run && JoinedIn(run, t) ==>
          && |xs| == 1 && Tells(xs[0], id, o)
          && (o.Succeeded? ==> id in r.state.completed)
          && (o.FailedWith? ==> id in r.state.failed && r.state.failed[id] == o.message)
          && (o.PanickedWith? ==> id !in r.state.completed && id !in r.state.failed))
  }

  function LoadedFrom(file: Option<Checkpoint>): Checkpoint {
    match file case Some(c) => c case None => Checkpoint([], map[])
  }

  lemma RunIs(items: seq<ItemId>, concurrency: nat, file: Option<Checkpoint>, run: seq<Action>)
    requires Distinct(items) && IsRun(Start(items, concurrency, file), run)
    ensures var r := After(Start(items, concurrency, file), run);
      Inv(r) && r.items == items && r.loaded == LoadedFrom(file) && Follows(r, run) && Marked(r, r.state)
  {
    RunFollows(items, concurrency, file, run);
    LegInv(items, file, Leg(concurrency, run));
  }

  /** Main result: in every run each item the loop has passed has, once its task is joined, one result,
      a success exactly when its process function succeeded and otherwise the failure or the panic with
      its message; a joined success is marked completed and a joined failure failed under its message;
      and a skipped item repeats what the file said of it. */
  lemma ResultsFollowTheRun(items: seq<ItemId>, concurrency: nat, file: Option<Checkpoint>, run: seq<Action>, k: nat)
    requires Distinct(items) && IsRun(Start(items, concurrency, file), run)
    requires k < |After(Start(items, concurrency, file), run).fates|
    ensures var r := After(Start(items, concurrency, file), run);
      k < |items| && r.items == items && ItemFollows(r, run, LoadedFrom(file), k)
  {
    RunIs(items, concurrency, file, run);
    StateItemFollows(After(Start(items, concurrency, file), run), run, k);
  }

  lemma StateItemFollows(r: Run, run: seq<Action>, k: nat)
    requires Inv(r) && Follows(r, run) && Marked(r, r.state) && k < |r.fates|
    ensures ItemFollows(r, run, r.loaded, k)
  {
    assert FateOk(r, k) && ResultsFor(r.results, r.items[k]) == Expected(r, k);
    if r.fates[k].Spawned? {
      var t := r.fates[k].task;
      assert TaskOk(r, t) && PhaseFollows(r.tasks[t].phase, run, t);
      if r.tasks[t].phase.Joined? && r.tasks[t].phase.result.PanickedWith? {
        NotMarked(r, t, r.state);
      }
    }
  }

  // ---- Main result: the summary and the file ----

  /** The item's process function was called in the run and ended like this. */
  ghost predicate EndedAs(r: Run, run: seq<Action>, id: ItemId, o: Outcome) {
    exists t :: 0 <= t < |r.tasks| && r.tasks[t].item == id && Finish(t, o) in run
  }

  /** The item's failure is unresolved: it failed or panicked in the run, or the file holds its failure. */
  ghost predicate Unresolved(r: Run, run: seq<Action>, loaded: Checkpoint, id: ItemId) {
    id in loaded.failed || exists o: Outcome :: !o.Succeeded? && EndedAs(r, run, id, o)
  }

  /** Every task of the run has been joined. */
  predicate Finished(r: Run) {
    |r.fates| == |r.items| && forall t :: 0 <= t < |r.tasks| ==> r.tasks[t].phase.Joined?
  }

  lemma {:induction false} EndsFinished(r: Run, run: seq<Action>)
    requires IsRun(r, run) && (r.ending.Some? ==> Finished(r))
    ensures After(r, run).ending.Some? ==> Finished(After(r, run))
    decreases |run|
  {
    if run != [] {
      EndsFinished(Next(r, run[0]), run[1..]);
    }
  }

  lemma OneTaskAnItem(r: Run, id: ItemId, t: nat, t': nat)
    requires TasksOk(r) && Distinct(r.items) && t < |r.tasks| && t' < |r.tasks|
    requires r.tasks[t].item == r.tasks[t'].item
    ensures t == t'
  {
    assert TaskOk(r, t) && TaskOk(r, t');
  }

  /** The one result of an item of a finished run, and how it counts. */
  lemma OneResult(r: Run, run: seq<Action>, k: nat) returns (x: ItemResult)
    requires Inv(r) && Follows(r, run) && Marked(r, r.state) && Finished(r) && k < |r.items|
    ensures ResultsFor(r.results, r.items[k]) == [x] && x in r.results && x.itemId == r.items[k]
    ensures IsCompleted(x) <==> EndedAs(r, run, r.items[k], Succeeded)
    ensures IsFailure(x) <==> Unresolved(r, run, r.loaded, r.items[k])
    ensures IsSkipped(x) <==> r.items[k] in r.loaded.completed || r.items[k] in r.loaded.failed
  {
    StateItemFollows(r, run, k);
    AllHaveResults(r);
    x := ResultsFor(r.results, r.items[k])[0];
    ResultsForMember(r.results, r.items[k], x);
    EndsOfItem(r, run, k);
    hide ResultsFor, Inv, Follows, Marked, OneEach, EndedAs;
  }

  /** Which ways the process function ended for an item of a finished run. */
  lemma EndsOfItem(r: Run, run: seq<Action>, k: nat)
    requires TasksOk(r) && Distinct(r.items) && Follows(r, run) && Finished(r) && k < |r.items|
    ensures r.fates[k].Skipped? ==> forall o :: !EndedAs(r, run, r.items[k], o)
    ensures r.fates[k].Spawned? ==>
      && r.fates[k].task < |r.tasks| && r.tasks[r.fates[k].task].item == r.items[k]
      && JoinedIn(run, r.fates[k].task)
      && forall o :: EndedAs(r, run, r.items[k], o) <==> Finish(r.fates[k].task, o) in run
    ensures r.fates[k].Spawned? ==>
      exists o :: Finish(r.fates[k].task, o) in run && forall p :: Finish(r.fates[k].task, p) in run ==> p == o
  {
    assert FateOk(r, k);
    if r.fates[k].Skipped? {
      forall t | 0 <= t < |r.tasks| ensures r.tasks[t].item != r.items[k] { assert TaskOk(r, t); }
    } else {
      var t := r.fates[k].task;
      assert TaskOk(r, t) && PhaseFollows(r.tasks[t].phase, run, t);
      forall t' | 0 <= t' < |r.tasks| && r.tasks[t'].item == r.items[k] ensures t' == t {
        OneTaskAnItem(r, r.items[k], t, t');
      }
      assert FinishedAs(run, t, r.tasks[t].phase.result);
    }
  }

  lemma {:induction false} MemberIsResult(rs: seq<ItemResult>, x: ItemResult)
    requires x in rs
    ensures x in ResultsFor(rs, x.itemId)
  {
    if x != rs[|rs| - 1] {
      MemberIsResult(rs[..|rs| - 1], x);
    }
  }

  /** The ids of the results that a count counts. */
  function IdsWith(rs: seq<ItemResult>, p: ItemResult -> bool): set<ItemId> {
    set x | x in rs && p(x) :: x.itemId
  }

  lemma {:induction false} CountIsIds(rs: seq<ItemResult>, p: ItemResult -> bool)
    requires forall id :: |ResultsFor(rs, id)| <= 1
    ensures Count(rs, p) == |IdsWith(rs, p)|
  {
    if rs != [] {
      var init, x := rs[..|rs| - 1], rs[|rs| - 1];
      assert rs == init + [x];
      forall id ensures |ResultsFor(init, id)| <= 1 { assert |ResultsFor(init, id)| <= |ResultsFor(rs, id)|; }
      CountIsIds(init, p);
      forall y | y in init ensures y.itemId != x.itemId {
        MemberIsResult(init, y);
        assert |ResultsFor(rs, x.itemId)| == |ResultsFor(init, x.itemId)| + 1;
      }
      assert IdsWith(rs, p) == IdsWith(init, p) + if p(x) then {x.itemId} else {};
      assert p(x) ==> x.itemId !in IdsWith(init, p);
    }
  }

  lemma {:induction false} NoOtherResults(rs: seq<ItemResult>, items: seq<ItemId>, id: ItemId)
    requires id !in items && forall x :: x in rs ==> x.itemId in items
    ensures ResultsFor(rs, id) == []
  {
    if rs != [] {
      NoOtherResults(rs[..|rs| - 1], items, id);
    }
  }

  lemma {:induction false} ErrorsHas(rs: seq<ItemResult>, x: ItemResult)
    requires x in rs && x.error.Some?
    ensures x.error.value in Errors(rs)
  {
    if x != rs[|rs| - 1] {
      ErrorsHas(rs[..|rs| - 1], x);
    }
  }

  /** What a finished run of the items amounts to. */
  ghost predicate SummaryIs(r: Run, run: seq<Action>, loaded: Checkpoint, e: Ending)
    requires e.Summary?
  {
    && e.completed == |set id | id in r.items && EndedAs(r, run, id, Succeeded)|
    && e.failed == |set id | id in r.items && Unresolved(r, run, loaded, id)|
    && e.skipped == |set id | id in r.items && (id in loaded.completed || id in loaded.failed)|
    && |e.errors| == e.failed && forall x :: x in r.results && x.error.Some? ==> x.error.value in e.errors
  }

  lemma CountsAre(r: Run, run: seq<Action>)
    requires Inv(r) && Follows(r, run) && Marked(r, r.state) && Finished(r)
    ensures Count(r.results, IsCompleted) == |set id | id in r.items && EndedAs(r, run, id, Succeeded)|
    ensures Failures(r.results) == |set id | id in r.items && Unresolved(r, run, r.loaded, id)|
    ensures Count(r.results, IsSkipped)
      == |set id | id in r.items && (id in r.loaded.completed || id in r.loaded.failed)|
  {
    AllHaveResults(r);
    forall id ensures |ResultsFor(r.results, id)| <= 1 {
      if id !in r.items {
        NoOtherResults(r.results, r.items, id);
      }
    }
    CountIsIds(r.results, IsCompleted);
    CountIsIds(r.results, IsFailure);
    CountIsIds(r.results, IsSkipped);
    IdsAre(r, run);
  }

  lemma IdsAre(r: Run, run: seq<Action>)
    requires Inv(r) && Follows(r, run) && Marked(r, r.state) && Finished(r)
    requires forall x :: x in r.results ==> x.itemId in r.items
    ensures IdsWith(r.results, IsCompleted) == set id | id in r.items && EndedAs(r, run, id, Succeeded)
    ensures IdsWith(r.results, IsFailure) == set id | id in r.items && Unresolved(r, run, r.loaded, id)
    ensures IdsWith(r.results, IsSkipped)
      == set id | id in r.items && (id in r.loaded.completed || id in r.loaded.failed)
  {
    hide Inv, Follows, Marked, Finished, IsCompleted, IsFailure, IsSkipped, EndedAs, Unresolved;
    forall id | id in r.items
      ensures id in IdsWith(r.results, IsCompleted) <==> EndedAs(r, run, id, Succeeded)
      ensures id in IdsWith(r.results, IsFailure) <==> Unresolved(r, run, r.loaded, id)
      ensures id in IdsWith(r.results, IsSkipped) <==> id in r.loaded.completed || id in r.loaded.failed
    {
      var k :| 0 <= k < |r.items| && r.items[k] == id;
      var x := OneResult(r, run, k);
      forall y | y in r.results && y.itemId == id ensures y == x { MemberIsResult(r.results, y); }
    }
  }

  /** Main result: a run that ends with a summary counts each item under what became of it, and leaves
      no file exactly when no item failed, panicked or was a failure of the file it resumed from;
      otherwise the file holds the final state. */
  lemma SummaryFollowsTheRun(items: seq<ItemId>, concurrency: nat, file: Option<Checkpoint>, run: seq<Action>)
    requires Distinct(items) && IsRun(Start(items, concurrency, file), run)
    requires var r := After(Start(items, concurrency, file), run); r.ending.Some? && r.ending.value.Summary?
    ensures var r := After(Start(items, concurrency, file), run);
      && r.items == items && SummaryIs(r, run, LoadedFrom(file), r.ending.value)
      && (r.file.None? <==> forall id :: id in items ==> !Unresolved(r, run, LoadedFrom(file), id))
      && (r.file.Some? ==> r.file.value == r.state)
  {
    var s := Start(items, concurrency, file);
    RunIs(items, concurrency, file, run);
    EndsFinished(s, run);
    SummaryCounts(s, run);
    var r := After(s, run);
    hide Start, IsRun, After;
    CountsAre(r, run);
    forall x | x in r.results && x.error.Some? ensures x.error.value in Errors(r.results) {
      ErrorsHas(r.results, x);
    }
    ErrorsAreFailures(r.results);
    var bad := set id | id in items && Unresolved(r, run, LoadedFrom(file), id);
    assert Failures(r.results) == 0 <==> bad == {};
    assert bad == {} <==> forall id :: id in items ==> id !in bad;
  }

  /** The summary is of the results. */
  lemma {:induction false} SummaryCounts(r: Run, run: seq<Action>)
    requires IsRun(r, run)
    requires r.ending.Some? && r.ending.value.Summary? ==> CountsOf(r, r.ending.value)
    ensures var r' := After(r, run); r'.ending.Some? && r'.ending.value.Summary? ==> CountsOf(r', r'.ending.value)
    decreases |run|
  {
    if run != [] {
      SummaryCounts(Next(r, run[0]), run[1..]);
    }
  }

  predicate CountsOf(r: Run, e: Ending)
    requires e.Summary?
  {
    e == Summary(Count(r.results, IsCompleted), Failures(r.results), Count(r.results, IsSkipped), Errors(r.results))
  }

  // ---- Main result: what a crash leaves ----

  /** The file of a run cut before its summary holds the outcome of every join that was saved. */
  ghost predicate Kept(r: Run, run: seq<Action>) {
    forall t :: 0 <= t < |r.tasks| && Join(t, true) in run ==> TaskKept(r.file, r.tasks[t])
  }

  predicate TaskKept(file: Option<Checkpoint>, t: Task) {
    && t.phase.Joined?
    && (!t.phase.result.PanickedWith? ==> file.Some? && MarkOf(file.value, t.item, t.phase.result))
  }

  lemma NextKept(r: Run, run: seq<Action>, a: Action)
    requires Enabled(r, a) && Kept(r, run) && Marked(Next(r, a), Next(r, a).state)
    requires Next(r, a).ending.Some? ==> Next(r, a).ending.value.SaveFailed?
    requires forall t: nat :: |r.tasks| <= t ==> Untouched(run, t)
    ensures Kept(Next(r, a), run + [a])
  {
    var r' := Next(r, a);
    forall t | 0 <= t < |r'.tasks| && Join(t, true) in run + [a] ensures TaskKept(r'.file, r'.tasks[t]) {
      if a != Join(t, true) {
        assert Join(t, true) in run;
        assert t >= |r.tasks| ==> Untouched(run, t);
        assert TaskKept(r.file, r.tasks[t]);
      }
    }
  }

  lemma {:induction false} RunKept(items: seq<ItemId>, concurrency: nat, file: Option<Checkpoint>, run: seq<Action>)
    requires Distinct(items) && IsRun(Start(items, concurrency, file), run)
    requires var r := After(Start(items, concurrency, file), run); r.ending.Some? ==> r.ending.value.SaveFailed?
    ensures Kept(After(Start(items, concurrency, file), run), run)
    decreases |run|
  {
    var s := Start(items, concurrency, file);
    if run != [] {
      var m := |run| - 1;
      SplitLast(s, run);
      RunKept(items, concurrency, file, run[..m]);
      RunFollows(items, concurrency, file, run);
      RunFollows(items, concurrency, file, run[..m]);
      assert run[..m] + [run[m]] == run;
      hide Start, IsRun, Kept, Marked, Next;
      NextKept(After(s, run[..m]), run[..m], run[m]);
    }
  }

  /** Main result: wherever a run is cut before its summary, each outcome whose join was saved is in the
      file, so by `Batch.FailureSticks` and `Batch.CompletedNotReprocessed` later runs honour it. */
  lemma SavedOutcomeSurvives(items: seq<ItemId>, concurrency: nat, file: Option<Checkpoint>, run: seq<Action>, t: nat,
                             o: Outcome)
    requires Distinct(items) && IsRun(Start(items, concurrency, file), run)
    requires var r := After(Start(items, concurrency, file), run); r.ending.Some? ==> r.ending.value.SaveFailed?
    requires Finish(t, o) in run && Join(t, true) in run
    ensures var r := After(Start(items, concurrency, file), run);
      && t < |r.tasks|
      && (o.Succeeded? ==> r.file.Some? && r.tasks[t].item in r.file.value.completed)
      && (o.FailedWith? ==> r.file.Some? && r.tasks[t].item in r.file.value.failed
                            && r.file.value.failed[r.tasks[t].item] == o.message)
  {
    RunFollows(items, concurrency, file, run);
    RunKept(items, concurrency, file, run);
    var r := After(Start(items, concurrency, file), run);
    hide Start, IsRun, After;
    assert t < |r.tasks| by { assert t >= |r.tasks| ==> Untouched(run, t); }
    assert PhaseFollows(r.tasks[t].phase, run, t) && TaskKept(r.file, r.tasks[t]);
  }
}
