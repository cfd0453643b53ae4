/** What each line of input is answered with, read off the actions of the run: crates/yeomna-mcp/src/lib.rs. */
module McpAnswers {
  import opened Json
  import opened McpServer

  // ---- A run taken from its end ----

  lemma {:induction false} SplitLast(s: State, run: seq<Action>)
    requires run != [] && IsRun(s, run)
    ensures var m := |run| - 1;
      IsRun(s, run[..m]) && Enabled(After(s, run[..m]), run[m]) && After(s, run) == Next(After(s, run[..m]), run[m])
    decreases |run|
  {
    hide Enabled, Next;
    var m := |run| - 1;
    if m > 0 {
      SplitLast(Next(s, run[0]), run[1..]);
      assert run[1..][..m - 1] == run[..m][1..];
    }
  }

  /** The lines of input a run reads, in order. */
  function LinesRead(run: seq<Action>): seq<Line> {
    if run == [] then []
    else LinesRead(run[..|run| - 1]) + if run[|run| - 1].Read? then [run[|run| - 1].line] else []
  }

  // ---- A task and the steps the run took in it ----

  /** The handler has not ended in the run. */
  ghost predicate NotEnded(run: seq<Action>, i: nat) {
    && (forall b :: Step(i, Finish(b)) !in run) && Step(i, Silence) !in run && Step(i, Panic) !in run
  }

  ghost predicate OnlyFinished(run: seq<Action>, i: nat, body: Body) {
    && Step(i, Finish(body)) in run && (forall b :: Step(i, Finish(b)) in run ==> b == body)
    && Step(i, Silence) !in run && Step(i, Panic) !in run
  }

  ghost predicate OnlySilenced(run: seq<Action>, i: nat) {
    Step(i, Silence) in run && (forall b :: Step(i, Finish(b)) !in run) && Step(i, Panic) !in run
  }

  ghost predicate OnlyPanicked(run: seq<Action>, i: nat) {
    Step(i, Panic) in run && (forall b :: Step(i, Finish(b)) !in run) && Step(i, Silence) !in run
  }

  ghost predicate WorkerFollows(w: Worker, run: seq<Action>, i: nat) {
    match w
    case Answered(b) => OnlyFinished(run, i, b)
    case Silenced => OnlySilenced(run, i)
    case Panicked => OnlyPanicked(run, i)
    case _ => NotEnded(run, i)
  }

  ghost predicate TaskFollows(t: Task, run: seq<Action>, i: nat) {
    WorkerFollows(t.worker, run, i) && (t.supervisor.Watching? <==> Step(i, Report) !in run)
  }

  /** The run took no step in the task. */
  ghost predicate Untouched(run: seq<Action>, i: nat) {
    forall step :: Step(i, step) !in run
  }

  ghost predicate Follows(s: State, run: seq<Action>) {
    && (forall i :: 0 <= i < |s.tasks| ==> TaskFollows(s.tasks[i], run, i))
    && (forall i: nat :: |s.tasks| <= i ==> Untouched(run, i))
  }

  lemma UntouchedFollows(t: Task, run: seq<Action>, i: nat)
    requires Untouched(run, i) && AtWork(t.worker) && t.supervisor.Watching?
    ensures TaskFollows(t, run, i)
  {
  }

  /** An action outside the task leaves it alone. */
  lemma OtherFollows(t: Task, run: seq<Action>, a: Action, i: nat)
    requires a.Step? ==> a.task != i
    ensures TaskFollows(t, run, i) ==> TaskFollows(t, run + [a], i)
    ensures Untouched(run, i) ==> Untouched(run + [a], i)
  {
    assert forall step :: Step(i, step) in run + [a] <==> Step(i, step) in run;
  }

  lemma StepFollows(t: Task, run: seq<Action>, step: TaskStep, free: nat, i: nat)
    requires TaskFollows(t, run, i) && StepEnabled(t, step, free) && (AtWork(t.worker) ==> t.supervisor.Watching?)
    ensures TaskFollows(StepTask(t, step), run + [Step(i, step)], i)
  {
    assert forall x :: Step(i, x) in run + [Step(i, step)] <==> Step(i, x) in run || x == step;
  }

  /** The tasks after an action: its own stepped, the others in the same place of their lives. */
  lemma TasksAfter(s: State, a: Action, i: nat)
    requires Enabled(s, a) && i < |Next(s, a).tasks|
    ensures |s.tasks| <= |Next(s, a).tasks|
    ensures var t' := Next(s, a).tasks[i];
      if a.Step? && a.task == i then i < |s.tasks| && t' == StepTask(s.tasks[i], a.step)
      else if i < |s.tasks| then t'.worker == s.tasks[i].worker && t'.supervisor == s.tasks[i].supervisor
      else t'.worker.Running? && t'.supervisor.Watching?
  {
  }

  lemma NextFollows(s: State, run: seq<Action>, a: Action)
    requires TasksOk(s) && Enabled(s, a) && Follows(s, run)
    ensures Follows(Next(s, a), run + [a])
  {
    var s' := Next(s, a);
    hide Next, TaskFollows, Untouched;
    forall i | 0 <= i < |s'.tasks| ensures TaskFollows(s'.tasks[i], run + [a], i) {
      TasksAfter(s, a, i);
      if a.Step? && a.task == i {
        assert TaskOk(s, i);
        StepFollows(s.tasks[i], run, a.step, s.free, i);
      } else {
        OtherFollows(s'.tasks[i], run, a, i);
        if i < |s.tasks| {
          SameFollows(s.tasks[i], s'.tasks[i], run, i);
        } else {
          UntouchedFollows(s'.tasks[i], run, i);
        }
      }
    }
    assert |s.tasks| <= |s'.tasks| by { TasksGrow(s, a); }
    forall i: nat | |s'.tasks| <= i ensures Untouched(run + [a], i) {
      OtherFollows(Task("", 0, false, Running, Watching, false, false), run, a, i);
    }
  }

  lemma SameFollows(t: Task, t': Task, run: seq<Action>, i: nat)
    requires t'.worker == t.worker && t'.supervisor == t.supervisor
    ensures TaskFollows(t, run, i) <==> TaskFollows(t', run, i)
  {
  }

  lemma TasksGrow(s: State, a: Action)
    requires Enabled(s, a)
    ensures |s.tasks| <= |Next(s, a).tasks|
  {
  }

  lemma InvHasTasks(s: State)
    requires Inv(s)
    ensures TasksOk(s)
  {
  }

  lemma {:induction false} RunFollows(run: seq<Action>)
    requires IsRun(Init, run)
    ensures var s := After(Init, run); Inv(s) && Follows(s, run) && s.lines == LinesRead(run)
    decreases |run|
  {
    if run != [] {
      var m := |run| - 1;
      SplitLast(Init, run);
      RunFollows(run[..m]);
      var s := After(Init, run[..m]);
      hide Follows, IsRun, After, Inv;
      InvHasTasks(s);
      NextKeepsInv(s, run[m]);
      NextFollows(s, run[..m], run[m]);
      assert run[..m] + [run[m]] == run;
      ReadsLine(s, run[m]);
    }
  }

  lemma ReadsLine(s: State, a: Action)
    requires Enabled(s, a)
    ensures Next(s, a).lines == s.lines + if a.Read? then [a.line] else []
  {
  }

  // ---- Only a cancellation read after the request can silence it ----

  /** A line after the request's own cancels its id. */
  ghost predicate CancelledLater(s: State, t: Task) {
    exists m :: t.line < m < |s.lines| && s.lines[m] == Notification(Some(t.key))
  }

  ghost predicate Cancellations(s: State) {
    forall i :: 0 <= i < |s.tasks| && s.tasks[i].cancelled ==> CancelledLater(s, s.tasks[i])
  }

  lemma LaterStays(s: State, s': State, t: Task)
    requires s.lines <= s'.lines && CancelledLater(s, t)
    ensures CancelledLater(s', t)
  {
  }

  /** What an action makes of a task's name and place, and the line that cancels it. */
  lemma CancelledBy(s: State, a: Action, i: nat)
    requires Inv(s) && Enabled(s, a) && i < |Next(s, a).tasks| && Next(s, a).tasks[i].cancelled
    ensures i < |s.tasks| && Next(s, a).tasks[i].line == s.tasks[i].line < |s.lines|
    ensures Next(s, a).tasks[i].key == s.tasks[i].key
    ensures s.tasks[i].cancelled || a == Read(Notification(Some(s.tasks[i].key)))
    ensures s.lines <= Next(s, a).lines
  {
    if i < |s.tasks| {
      assert TaskOk(s, i);
    }
  }

  lemma NextCancellations(s: State, a: Action)
    requires Inv(s) && Enabled(s, a) && Cancellations(s)
    ensures Cancellations(Next(s, a))
  {
    var s' := Next(s, a);
    hide Inv, CancelledLater;
    forall i | 0 <= i < |s'.tasks| && s'.tasks[i].cancelled ensures CancelledLater(s', s'.tasks[i]) {
      CancelledBy(s, a, i);
      if s.tasks[i].cancelled {
        LaterStays(s, s', s.tasks[i]);
        SameName(s', s.tasks[i], s'.tasks[i]);
      } else {
        ReadsLine(s, a);
        assert s'.lines[|s.lines|] == Notification(Some(s'.tasks[i].key));
        CancelledHere(s', s'.tasks[i], |s.lines|);
      }
    }
  }

  lemma SameName(s: State, t: Task, t': Task)
    requires t'.line == t.line && t'.key == t.key && CancelledLater(s, t)
    ensures CancelledLater(s, t')
  {
  }

  lemma CancelledHere(s: State, t: Task, m: nat)
    requires t.line < m < |s.lines| && s.lines[m] == Notification(Some(t.key))
    ensures CancelledLater(s, t)
  {
  }

  lemma {:induction false} RunCancellations(run: seq<Action>)
    requires IsRun(Init, run)
    ensures Cancellations(After(Init, run))
    decreases |run|
  {
    if run != [] {
      var m := |run| - 1;
      SplitLast(Init, run);
      RunCancellations(run[..m]);
      RunKeepsInv(Init, run[..m]);
      NextCancellations(After(Init, run[..m]), run[m]);
    }
  }

  // ---- Main result ----

  /** The answers to the request of task `i` under the id `id`, as the steps of the run make them. */
  ghost predicate AnswersFollow(ms: seq<Message>, id: Key, n: nat, run: seq<Action>, i: nat) {
    && (forall body :: Step(i, Finish(body)) in run ==> ms == [Message(Some(id), body, n)])
    && (Step(i, Panic) in run && Step(i, Report) in run ==> ms == [Message(Some(id), Error(-32603), n)])
    && (Step(i, Panic) in run && Step(i, Report) !in run ==> ms == [])
    && (Step(i, Silence) in run ==> ms == [])
    && (NotEnded(run, i) ==> ms == [])
  }

  /** Main result: in every run, an accepted request is answered with exactly the body its handler
      finished with, with an internal error once a panic is reported, and with nothing when it gave
      way to a cancellation, which the client had sent under its id after the request itself. */
  lemma AnswersFollowTheRun(run: seq<Action>, n: nat)
    requires IsRun(Init, run)
    requires var s := After(Init, run); n < |s.fates| && s.fates[n].Accepted?
    ensures var (s, i) := (After(Init, run), After(Init, run).fates[n].task);
      && n < |s.lines| && s.lines == LinesRead(run) && s.lines[n].Request?
      && AnswersFollow(MessagesFor(s.out, n), s.lines[n].id, n, run, i)
      && (Step(i, Silence) in run ==> exists m :: n < m < |s.lines| && s.lines[m] == Notification(Some(s.lines[n].id)))
  {
    var s := After(Init, run);
    RunFollows(run);
    RunCancellations(run);
    var i := s.fates[n].task;
    assert TaskOk(s, i) && TaskFollows(s.tasks[i], run, i);
    assert MessagesFor(s.out, n) == Due(s, n);
    hide After, IsRun;
    if Step(i, Silence) in run {
      assert s.tasks[i].worker.Silenced?;
    }
  }

  // ---- Which requests are taken ----

  lemma {:induction false} RunTracked(s: State, run: seq<Action>)
    requires Inv(s) && IsRun(s, run) && OneLivePerId(s) && Tracked(s) && NeverReuses(s, run)
    ensures Inv(After(s, run)) && Tracked(After(s, run))
    decreases |run|
  {
    if run != [] {
      NextKeepsInv(s, run[0]);
      StepKeepsTracked(s, run[0]);
      RunTracked(Next(s, run[0]), run[1..]);
    }
  }

  /** A request under the id is live and was not cancelled. */
  ghost predicate LiveUnder(s: State, id: Key) {
    exists i :: 0 <= i < |s.tasks| && s.tasks[i].key == id && Live(s.tasks[i]) && !s.tasks[i].cancelled
  }

  lemma TableIffLive(s: State, id: Key)
    requires Inv(s) && Tracked(s)
    ensures id in s.inFlight <==> LiveUnder(s, id)
  {
    if id in s.inFlight {
      var i := s.inFlight[id];
      assert s.tasks[i].key == id && Live(s.tasks[i]) && !s.tasks[i].cancelled;
    }
  }

  lemma TakesIff(s: State, id: Key, needsSlot: bool)
    requires Inv(s)
    ensures Take(s, Request(id, needsSlot)).fates
      == s.fates
         + [if id in s.inFlight then Refused(Message(Some(id), Error(-32600), |s.lines|)) else Accepted(|s.tasks|)]
  {
  }

  /** Main result: after a run that never reuses a cancelled id, a request is refused exactly when a
      request under its id is live and was not cancelled; otherwise a task is started for it. */
  lemma RefusedIffLive(run: seq<Action>, id: Key, needsSlot: bool)
    requires IsRun(Init, run) && NeverReuses(Init, run) && After(Init, run).phase.Reading?
    ensures var s := After(Init, run);
      && |Next(s, Read(Request(id, needsSlot))).fates| == |s.fates| + 1
      && Next(s, Read(Request(id, needsSlot))).fates[|s.fates|]
         == if LiveUnder(s, id) then Refused(Message(Some(id), Error(-32600), |s.lines|)) else Accepted(|s.tasks|)
  {
    RunTracked(Init, run);
    hide IsRun, NeverReuses, After, Inv, Tracked, LiveUnder, Take;
    var s := After(Init, run);
    TableIffLive(s, id);
    TakesIff(s, id, needsSlot);
    assert Next(s, Read(Request(id, needsSlot))) == Take(s, Request(id, needsSlot));
  }
}
