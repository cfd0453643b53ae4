/** The MCP server loop of crates/yeomna-mcp/src/lib.rs as a state machine: one reader, a handler
    and its supervisor per accepted request, a semaphore, cancellation, and the drain at end of
    input. A handler's own work is a choice of outcome. */
module McpServer {
  import opened Json

  const MAX_CONCURRENT_CALLS: nat := 8

  const PARSE_ERROR := -32700
  const INVALID_REQUEST := -32600
  const INTERNAL_ERROR := -32603

  /** An id as JSON text, which is the key of the in-flight table (`id_key`). */
  type Key = string

  /** A line of input, as far as the loop looks into it. */
  datatype Line =
    | Blank
    | NotJson
    | NotObject
    | Notification(cancels: Option<Key>)
    | NullId
    | NoMethod(id: Key)
    | Request(id: Key, needsSlot: bool)

  datatype Body = Result(text: string) | Error(code: int)

  /** A queued response, with the number of the line it answers. */
  datatype Message = Message(id: Option<Key>, body: Body, line: nat)

  /** A handler: waiting to run or running without a permit, holding a permit, or over. */
  datatype Worker = Running | Holding | Answered(body: Body) | Silenced | Panicked

  datatype Supervisor = Watching | Cleaning | Exited

  /** One accepted request. `cancelled` says its entry was taken out by a cancellation,
      `signalled` that the signal reached a handler still at work. */
  datatype Task = Task(key: Key, line: nat, needsSlot: bool, worker: Worker, supervisor: Supervisor,
                       cancelled: bool, signalled: bool)

  /** What became of a line. */
  datatype Fate = Ignored | Refused(reply: Message) | Accepted(task: nat)

  datatype Phase = Reading | Draining | Returned

  datatype State = State(phase: Phase, lines: seq<Line>, fates: seq<Fate>, tasks: seq<Task>,
                         handles: set<nat>, inFlight: map<Key, nat>, free: nat, out: seq<Message>)

  /** What a handler or its supervisor does next: take a permit, answer and be done, give way to a
      cancellation, die; then report the end, clear the table, exit. */
  datatype TaskStep = Acquire | Finish(body: Body) | Silence | Panic | Report | CleanUp

  datatype Action =
    | Read(line: Line)
    | EndInput
    | Step(task: nat, step: TaskStep)
    | Reap(handle: nat)
    | Return

  const Init := State(Reading, [], [], [], {}, map[], MAX_CONCURRENT_CALLS, [])

  predicate AtWork(w: Worker) {
    w.Running? || w.Holding?
  }

  predicate Live(t: Task) {
    !t.supervisor.Exited?
  }

  predicate StepEnabled(t: Task, step: TaskStep, free: nat) {
    match step
    case Acquire => t.worker.Running? && t.needsSlot && free > 0
    case Finish(_) => t.worker.Holding? || (t.worker.Running? && !t.needsSlot)
    case Silence => AtWork(t.worker) && t.signalled
    case Panic => AtWork(t.worker)
    case Report => !AtWork(t.worker) && t.supervisor.Watching?
    case CleanUp => t.supervisor.Cleaning?
  }

  predicate Enabled(s: State, a: Action) {
    match a
    case Read(_) => s.phase.Reading?
    case EndInput => s.phase.Reading?
    case Step(i, step) => !s.phase.Returned? && i < |s.tasks| && StepEnabled(s.tasks[i], step, s.free)
    case Reap(i) => !s.phase.Returned? && i < |s.tasks| && i in s.handles && s.tasks[i].supervisor.Exited?
    case Return => s.phase.Draining? && s.handles == {}
  }

  /** The error a line is refused with, if it is not a message the server can take. */
  function Refusal(s: State, line: Line): Option<Message> {
    var n := |s.lines|;
    match line
    case NotJson => Some(Message(None, Error(PARSE_ERROR), n))
    case NotObject => Some(Message(None, Error(INVALID_REQUEST), n))
    case NullId => Some(Message(None, Error(INVALID_REQUEST), n))
    case NoMethod(id) => Some(Message(Some(id), Error(INVALID_REQUEST), n))
    case Request(id, _) => if id in s.inFlight then Some(Message(Some(id), Error(INVALID_REQUEST), n)) else None
    case _ => None
  }

  /** The read loop's turn on one line. */
  function Take(s: State, line: Line): State {
    var s' := s.(lines := s.lines + [line]);
    match Refusal(s, line)
    case Some(reply) => s'.(fates := s.fates + [Refused(reply)], out := s.out + [reply])
    case None =>
      match line
      case Request(id, needsSlot) =>
        var i := |s.tasks|;
        s'.(fates := s.fates + [Accepted(i)],
            tasks := s.tasks + [Task(id, |s.lines|, needsSlot, Running, Watching, false, false)],
            handles := s.handles + {i},
            inFlight := s.inFlight[id := i])
      case Notification(Some(k)) => Cancel(s', k).(fates := s.fates + [Ignored])
      case _ => s'.(fates := s.fates + [Ignored])
  }

  /** `notifications/cancelled`: the entry goes, and the signal counts if its receiver is alive. */
  function Cancel(s: State, k: Key): State {
    if k in s.inFlight && s.inFlight[k] < |s.tasks| then
      var i := s.inFlight[k];
      var t := s.tasks[i];
      s.(inFlight := s.inFlight - {k},
         tasks := s.tasks[i := t.(cancelled := true, signalled := AtWork(t.worker))])
    else s
  }

  function Released(t: Task): nat {
    if t.worker.Holding? then 1 else 0
  }

  /** What the supervisor sends: nothing, unless its handler panicked. */
  function Apology(t: Task): seq<Message> {
    if t.worker.Panicked? then [Message(Some(t.key), Error(INTERNAL_ERROR), t.line)] else []
  }

  function StepTask(t: Task, step: TaskStep): Task {
    match step
    case Acquire => t.(worker := Holding)
    case Finish(body) => t.(worker := Answered(body))
    case Silence => t.(worker := Silenced)
    case Panic => t.(worker := Panicked)
    case Report => t.(supervisor := Cleaning)
    case CleanUp => t.(supervisor := Exited)
  }

  /** The permit goes out with `Acquire` and comes back whichever way the handler ends. */
  function StepFree(t: Task, step: TaskStep, free: nat): int {
    match step
    case Acquire => free - 1
    case Finish(_) => free + Released(t)
    case Silence => free + Released(t)
    case Panic => free + Released(t)
    case _ => free
  }

  function Sent(t: Task, step: TaskStep): seq<Message> {
    match step
    case Finish(body) => [Message(Some(t.key), body, t.line)]
    case Report => Apology(t)
    case _ => []
  }

  function Next(s: State, a: Action): State
    requires Enabled(s, a)
  {
    match a
    case Read(line) => Take(s, line)
    case EndInput => s.(phase := Draining)
    case Step(i, step) =>
      var t := s.tasks[i];
      s.(tasks := s.tasks[i := StepTask(t, step)], free := StepFree(t, step, s.free), out := s.out + Sent(t, step),
         inFlight := if step.CleanUp? then s.inFlight - {t.key} else s.inFlight)
    case Reap(i) => s.(handles := s.handles - {i})
    case Return => s.(phase := Returned)
  }

  // ---- Runs ----

  /** A run from `s`: every action enabled where it is taken. */
  predicate IsRun(s: State, run: seq<Action>)
    decreases |run|
  {
    run == [] || (Enabled(s, run[0]) && IsRun(Next(s, run[0]), run[1..]))
  }

  function After(s: State, run: seq<Action>): State
    requires IsRun(s, run)
    decreases |run|
  {
    if run == [] then s else After(Next(s, run[0]), run[1..])
  }

  // ---- What every reachable state satisfies ----

  /** The responses queued for one line, in order. */
  function MessagesFor(out: seq<Message>, n: nat): seq<Message> {
    if out == [] then []
    else
      MessagesFor(out[..|out| - 1], n) + if out[|out| - 1].line == n then [out[|out| - 1]] else []
  }

  /** The responses an accepted request has had so far. */
  function Replies(t: Task): seq<Message> {
    match t.worker
    case Answered(body) => [Message(Some(t.key), body, t.line)]
    case Panicked => if t.supervisor.Watching? then [] else Apology(t)
    case _ => []
  }

  /** The responses due to a line at this moment. */
  function Due(s: State, n: nat): seq<Message>
    requires n < |s.fates|
  {
    match s.fates[n]
    case Ignored => []
    case Refused(reply) => [reply]
    case Accepted(i) => if i < |s.tasks| then Replies(s.tasks[i]) else []
  }

  function HoldingCount(tasks: seq<Task>): nat {
    if tasks == [] then 0
    else HoldingCount(tasks[..|tasks| - 1]) + Released(tasks[|tasks| - 1])
  }

  /** Whether a line's fate is one the protocol allows it. */
  predicate FateFits(line: Line, fate: Fate, n: nat) {
    match line
    case Blank => fate.Ignored?
    case Notification(_) => fate.Ignored?
    case NotJson => fate == Refused(Message(None, Error(PARSE_ERROR), n))
    case NotObject => fate == Refused(Message(None, Error(INVALID_REQUEST), n))
    case NullId => fate == Refused(Message(None, Error(INVALID_REQUEST), n))
    case NoMethod(id) => fate == Refused(Message(Some(id), Error(INVALID_REQUEST), n))
    case Request(id, _) => fate.Accepted? || fate == Refused(Message(Some(id), Error(INVALID_REQUEST), n))
  }

  ghost predicate TasksOk(s: State) {
    && (forall i :: 0 <= i < |s.tasks| ==> TaskOk(s, i))
    && (forall n :: 0 <= n < |s.fates| && s.fates[n].Accepted? ==>
          s.fates[n].task < |s.tasks| && s.tasks[s.fates[n].task].line == n)
  }

  ghost predicate TaskOk(s: State, i: nat)
    requires i < |s.tasks|
  {
    var t := s.tasks[i];
    && t.line < |s.fates| == |s.lines| && s.fates[t.line] == Accepted(i)
    && s.lines[t.line] == Request(t.key, t.needsSlot)
    && (AtWork(t.worker) ==> t.supervisor.Watching?)
    && (t.worker.Holding? ==> t.needsSlot)
    && (t.worker.Silenced? ==> t.signalled) && (t.signalled ==> t.cancelled)
    && (i !in s.handles ==> t.supervisor.Exited?)
  }

  ghost predicate AnswersOk(s: State) {
    && (forall k :: 0 <= k < |s.out| ==> s.out[k].line < |s.fates|)
    && (forall n :: 0 <= n < |s.fates| ==> MessagesFor(s.out, n) == Due(s, n))
  }

  ghost predicate TableOk(s: State) {
    && (forall k :: k in s.inFlight ==>
          var i := s.inFlight[k]; i < |s.tasks| && s.tasks[i].key == k && Live(s.tasks[i]) && !s.tasks[i].cancelled)
    && (forall i :: i in s.handles ==> i < |s.tasks|)
    && (s.phase.Returned? ==> s.handles == {})
  }

  ghost predicate Inv(s: State) {
    && |s.fates| == |s.lines|
    && (forall n :: 0 <= n < |s.lines| ==> FateFits(s.lines[n], s.fates[n], n))
    && TasksOk(s) && AnswersOk(s) && TableOk(s)
    && s.free + HoldingCount(s.tasks) == MAX_CONCURRENT_CALLS
  }

  lemma {:induction false} HoldingUpdate(tasks: seq<Task>, i: nat, t: Task)
    requires i < |tasks|
    ensures HoldingCount(tasks[i := t]) == HoldingCount(tasks) - Released(tasks[i]) + Released(t)
  {
    var m := |tasks| - 1;
    if i == m {
      assert tasks[i := t][..m] == tasks[..m];
    } else {
      assert tasks[i := t][..m] == tasks[..m][i := t];
      HoldingUpdate(tasks[..m], i, t);
    }
  }

  lemma MessagesForAppend(out: seq<Message>, m: Message, n: nat)
    ensures MessagesFor(out + [m], n) == MessagesFor(out, n) + if m.line == n then [m] else []
  {
    assert (out + [m])[..|out|] == out;
  }

  lemma {:induction false} NoMessagesYet(out: seq<Message>, n: nat)
    requires forall k :: 0 <= k < |out| ==> out[k].line < n
    ensures MessagesFor(out, n) == []
  {
    if out != [] {
      NoMessagesYet(out[..|out| - 1], n);
    }
  }

  /** Queuing what a new line is due, and nothing for the others, keeps the answers right. */
  lemma NewLineAnswers(s: State, s': State, fate: Fate, sent: seq<Message>)
    requires Inv(s) && s'.fates == s.fates + [fate] && s'.out == s.out + sent
    requires |sent| <= 1 && forall m :: m in sent ==> m.line == |s.fates|
    requires forall n :: 0 <= n < |s.fates| ==> Due(s', n) == Due(s, n)
    requires Due(s', |s.fates|) == sent
    ensures AnswersOk(s')
  {
    NoMessagesYet(s.out, |s.fates|);
    forall n | 0 <= n < |s'.fates| ensures MessagesFor(s'.out, n) == Due(s', n) {
      AppendSent(s.out, sent, |s.fates|, n);
    }
  }

  lemma RefusalFits(s: State, line: Line, reply: Message)
    requires Refusal(s, line) == Some(reply)
    ensures FateFits(line, Refused(reply), |s.lines|) && reply.line == |s.lines|
    ensures Take(s, line) == s.(lines := s.lines + [line], fates := s.fates + [Refused(reply)], out := s.out + [reply])
  {
  }

  /** A refused line: its error is queued, and nothing else moves. */
  lemma RefuseKeepsInv(s: State, line: Line, reply: Message)
    requires Inv(s) && s.phase.Reading? && Refusal(s, line) == Some(reply)
    ensures Inv(Take(s, line))
  {
    RefusalFits(s, line, reply);
    var s' := s.(lines := s.lines + [line], fates := s.fates + [Refused(reply)], out := s.out + [reply]);
    forall n | 0 <= n < |s.fates| ensures Due(s', n) == Due(s, n) { }
    NewLineAnswers(s, s', Refused(reply), [reply]);
    forall j | 0 <= j < |s'.tasks| ensures TaskOk(s', j) { assert TaskOk(s, j); }
  }

  /** A request is accepted: a fresh task, nothing queued. */
  lemma AcceptKeepsInv(s: State, id: Key, needsSlot: bool)
    requires Inv(s) && s.phase.Reading? && id !in s.inFlight
    ensures Inv(Take(s, Request(id, needsSlot)))
  {
    var s', i := Take(s, Request(id, needsSlot)), |s.tasks|;
    assert s'.tasks[..i] == s.tasks;
    forall n | 0 <= n < |s.fates| ensures Due(s', n) == Due(s, n) { }
    NewLineAnswers(s, s', Accepted(i), []);
    forall j | 0 <= j < |s'.tasks| ensures TaskOk(s', j) {
      if j < i { assert TaskOk(s, j); }
    }
  }

  /** A cancellation takes the entry out of the table and touches no response. */
  lemma CancelKeepsInv(s: State, k: Key)
    requires Inv(s)
    ensures Inv(Cancel(s, k))
  {
    var s' := Cancel(s, k);
    if k in s.inFlight {
      var i := s.inFlight[k];
      assert TaskOk(s, i);
      HoldingUpdate(s.tasks, i, s'.tasks[i]);
      forall j | 0 <= j < |s'.tasks| ensures TaskOk(s', j) { assert TaskOk(s, j); }
      forall n | 0 <= n < |s.fates| ensures MessagesFor(s'.out, n) == Due(s', n) {
        assert Due(s', n) == Due(s, n);
      }
    }
  }

  /** A line that is passed over. */
  lemma IgnoreKeepsInv(s: State, line: Line)
    requires Inv(s) && (line.Blank? || line.Notification?)
    ensures Inv(s.(lines := s.lines + [line], fates := s.fates + [Ignored]))
  {
    var s' := s.(lines := s.lines + [line], fates := s.fates + [Ignored]);
    forall n | 0 <= n < |s.fates| ensures Due(s', n) == Due(s, n) { }
    NewLineAnswers(s, s', Ignored, []);
    forall j | 0 <= j < |s'.tasks| ensures TaskOk(s', j) { assert TaskOk(s, j); }
  }

  lemma TakeKeepsInv(s: State, line: Line)
    requires Inv(s) && s.phase.Reading?
    ensures Inv(Take(s, line))
  {
    if Refusal(s, line).Some? {
      RefuseKeepsInv(s, line, Refusal(s, line).value);
    } else if line.Request? {
      AcceptKeepsInv(s, line.id, line.needsSlot);
    } else {
      if line.Notification? && line.cancels.Some? {
        CancelKeepsInv(s, line.cancels.value);
        IgnoreKeepsInv(Cancel(s, line.cancels.value), line);
      } else {
        IgnoreKeepsInv(s, line);
      }
    }
  }

  /** A step sends exactly what it adds to the replies of its task. */
  lemma StepReplies(t: Task, step: TaskStep, free: nat)
    requires StepEnabled(t, step, free) && (AtWork(t.worker) ==> t.supervisor.Watching?)
    ensures Replies(StepTask(t, step)) == Replies(t) + Sent(t, step)
    ensures forall m :: m in Sent(t, step) ==> m.line == t.line
    ensures |Sent(t, step)| <= 1
    ensures StepFree(t, step, free) + Released(StepTask(t, step)) == free + Released(t)
  {
  }

  lemma DueAfterStep(s: State, i: nat, step: TaskStep, n: nat)
    requires Inv(s) && Enabled(s, Step(i, step)) && n < |s.fates|
    ensures Due(Next(s, Step(i, step)), n) == Due(s, n) + if n == s.tasks[i].line then Sent(s.tasks[i], step) else []
  {
    assert TaskOk(s, i);
    if n == s.tasks[i].line {
      StepReplies(s.tasks[i], step, s.free);
    } else {
      assert s.fates[n] != Accepted(i);
    }
  }

  lemma StepAnswers(s: State, i: nat, step: TaskStep)
    requires Inv(s) && Enabled(s, Step(i, step))
    ensures AnswersOk(Next(s, Step(i, step)))
  {
    var s', t := Next(s, Step(i, step)), s.tasks[i];
    assert TaskOk(s, i);
    StepReplies(t, step, s.free);
    forall n | 0 <= n < |s.fates| ensures MessagesFor(s'.out, n) == Due(s', n) {
      AppendSent(s.out, Sent(t, step), t.line, n);
      DueAfterStep(s, i, step, n);
    }
  }

  lemma AppendSent(out: seq<Message>, sent: seq<Message>, line: nat, n: nat)
    requires |sent| <= 1 && forall m :: m in sent ==> m.line == line
    ensures MessagesFor(out + sent, n) == MessagesFor(out, n) + if n == line then sent else []
  {
    if sent == [] {
      assert out + sent == out;
    } else {
      assert sent == [sent[0]];
      MessagesForAppend(out, sent[0], n);
    }
  }

  lemma StepKeepsInv(s: State, i: nat, step: TaskStep)
    requires Inv(s) && Enabled(s, Step(i, step))
    ensures Inv(Next(s, Step(i, step)))
  {
    var s', t := Next(s, Step(i, step)), s.tasks[i];
    assert TaskOk(s, i);
    StepReplies(t, step, s.free);
    StepAnswers(s, i, step);
    HoldingUpdate(s.tasks, i, s'.tasks[i]);
    forall j | 0 <= j < |s'.tasks| ensures TaskOk(s', j) { assert TaskOk(s, j); }
  }

  lemma NextKeepsInv(s: State, a: Action)
    requires Inv(s) && Enabled(s, a)
    ensures Inv(Next(s, a))
  {
    match a
    case Read(line) => TakeKeepsInv(s, line);
    case Step(i, step) => StepKeepsInv(s, i, step);
    case _ => SameTables(s, Next(s, a));
  }

  /** Only the phase or the list of join handles moved. */
  lemma SameTables(s: State, s': State)
    requires Inv(s) && s'.handles <= s.handles && s' == s.(phase := s'.phase, handles := s'.handles)
    requires forall i :: i in s.handles && i !in s'.handles ==> i < |s.tasks| && s.tasks[i].supervisor.Exited?
    requires s'.phase.Returned? ==> s'.handles == {}
    ensures Inv(s')
  {
    forall j | 0 <= j < |s'.tasks| ensures TaskOk(s', j) { assert TaskOk(s, j); }
    forall n | 0 <= n < |s.fates| ensures MessagesFor(s'.out, n) == Due(s', n) {
      assert Due(s', n) == Due(s, n);
    }
  }

  lemma {:induction false} RunKeepsInv(s: State, run: seq<Action>)
    requires Inv(s) && IsRun(s, run)
    ensures Inv(After(s, run))
    decreases |run|
  {
    if run != [] {
      NextKeepsInv(s, run[0]);
      RunKeepsInv(Next(s, run[0]), run[1..]);
    }
  }

  // ---- Main results over every run ----

  /** What a client may rely on about one line of its input, at any moment of any run. */
  ghost predicate AnsweredRight(s: State, n: nat)
    requires n < |s.lines| == |s.fates|
  {
    var ms := MessagesFor(s.out, n);
    match s.lines[n]
    case Blank => ms == []
    case Notification(_) => ms == []
    case NotJson => ms == [Message(None, Error(PARSE_ERROR), n)]
    case NotObject => ms == [Message(None, Error(INVALID_REQUEST), n)]
    case NullId => ms == [Message(None, Error(INVALID_REQUEST), n)]
    case NoMethod(id) => ms == [Message(Some(id), Error(INVALID_REQUEST), n)]
    case Request(id, _) =>
      match s.fates[n]
      case Accepted(i) =>
        && |ms| <= 1 && (ms != [] ==> ms[0].id == Some(id))
        && i < |s.tasks| && s.tasks[i].line == n
        && (s.phase.Returned? ==> |ms| == 1 || (ms == [] && s.tasks[i].signalled))
      case _ => ms == [Message(Some(id), Error(INVALID_REQUEST), n)]
  }

  /** Main result: in every run, a notification is never answered, a refused line gets exactly its
      one error, an accepted request gets at most one response under its own id, and by the time
      the server returns exactly one, unless its own cancellation was delivered to it. Nothing is
      sent that answers no line. */
  lemma EveryLineAnsweredRight(run: seq<Action>)
    requires IsRun(Init, run)
    ensures var s := After(Init, run);
      && |s.fates| == |s.lines|
      && (forall n :: 0 <= n < |s.lines| ==> AnsweredRight(s, n))
      && (forall k :: 0 <= k < |s.out| ==> s.out[k].line < |s.lines|)
  {
    RunKeepsInv(Init, run);
    var s := After(Init, run);
    forall n | 0 <= n < |s.lines| ensures AnsweredRight(s, n) {
      LineAnsweredRight(s, n);
    }
  }

  lemma LineAnsweredRight(s: State, n: nat)
    requires Inv(s) && n < |s.lines|
    ensures AnsweredRight(s, n)
  {
    assert FateFits(s.lines[n], s.fates[n], n);
    assert MessagesFor(s.out, n) == Due(s, n);
    if s.fates[n].Accepted? {
      assert TaskOk(s, s.fates[n].task);
    }
  }

  /** Main result: permits are conserved, so at most eight handlers hold one. */
  lemma AtMostEightRun(run: seq<Action>)
    requires IsRun(Init, run)
    ensures var s := After(Init, run);
      s.free + HoldingCount(s.tasks) == MAX_CONCURRENT_CALLS && HoldingCount(s.tasks) <= 8
  {
    RunKeepsInv(Init, run);
  }

  // ---- The drain ----

  function Weight(t: Task): nat {
    match t.worker
    case Running => 4
    case Holding => 3
    case _ => if t.supervisor.Watching? then 2 else if t.supervisor.Cleaning? then 1 else 0
  }

  function TotalWeight(tasks: seq<Task>): nat {
    if tasks == [] then 0 else TotalWeight(tasks[..|tasks| - 1]) + Weight(tasks[|tasks| - 1])
  }

  /** How many more steps a draining server can take. */
  function Remaining(s: State): nat {
    TotalWeight(s.tasks) + |s.handles| + if s.phase.Returned? then 0 else 1
  }

  lemma {:induction false} WeightUpdate(tasks: seq<Task>, i: nat, t: Task)
    requires i < |tasks|
    ensures TotalWeight(tasks[i := t]) == TotalWeight(tasks) - Weight(tasks[i]) + Weight(t)
  {
    var m := |tasks| - 1;
    if i == m {
      assert tasks[i := t][..m] == tasks[..m];
    } else {
      assert tasks[i := t][..m] == tasks[..m][i := t];
      WeightUpdate(tasks[..m], i, t);
    }
  }

  lemma StepWeighsLess(t: Task, step: TaskStep, free: nat)
    requires StepEnabled(t, step, free) && (AtWork(t.worker) ==> t.supervisor.Watching?)
    ensures Weight(StepTask(t, step)) < Weight(t)
  {
  }

  lemma DrainStepCounts(s: State, a: Action)
    requires Inv(s) && Enabled(s, a) && !s.phase.Reading?
    ensures Remaining(Next(s, a)) < Remaining(s) && !Next(s, a).phase.Reading?
  {
    match a
    case Step(i, step) =>
      assert TaskOk(s, i);
      StepWeighsLess(s.tasks[i], step, s.free);
      WeightUpdate(s.tasks, i, StepTask(s.tasks[i], step));
    case Reap(i) =>
      assert s.handles - {i} < s.handles;
    case _ =>
  }

  lemma {:induction false} SomeoneHolds(tasks: seq<Task>) returns (i: nat)
    requires HoldingCount(tasks) > 0
    ensures i < |tasks| && tasks[i].worker.Holding?
  {
    if tasks[|tasks| - 1].worker.Holding? {
      i := |tasks| - 1;
    } else {
      i := SomeoneHolds(tasks[..|tasks| - 1]);
    }
  }

  /** A draining server is never stuck: some step of its own is always possible. */
  lemma DrainNeverStuck(s: State) returns (a: Action)
    requires Inv(s) && s.phase.Draining?
    ensures Enabled(s, a)
  {
    if s.handles == {} {
      a := Return;
    } else {
      var i :| i in s.handles;
      var t := s.tasks[i];
      assert TaskOk(s, i);
      if t.supervisor.Exited? {
        a := Reap(i);
      } else if t.supervisor.Cleaning? {
        a := Step(i, CleanUp);
      } else if !AtWork(t.worker) {
        a := Step(i, Report);
      } else if t.worker.Running? && t.needsSlot && s.free > 0 {
        a := Step(i, Acquire);
      } else if t.worker.Running? && t.needsSlot {
        var j := SomeoneHolds(s.tasks);
        a := Step(j, Finish(Result("")));
      } else {
        a := Step(i, Finish(Result("")));
      }
    }
  }

  /** Main result: once input has ended the server takes boundedly many steps whatever their order,
      and until it has returned there is always one to take. So every drain ends with the server
      returned and, by `EveryLineAnsweredRight`, every accepted request answered. */
  lemma {:induction false} DrainEnds(s: State, more: seq<Action>)
    requires Inv(s) && !s.phase.Reading? && IsRun(s, more)
    ensures |more| <= Remaining(s) - Remaining(After(s, more))
    ensures After(s, more).phase.Returned? || exists a :: Enabled(After(s, more), a)
    decreases |more|
  {
    if more != [] {
      NextKeepsInv(s, more[0]);
      DrainStepCounts(s, more[0]);
      DrainEnds(Next(s, more[0]), more[1..]);
    } else if s.phase.Draining? {
      var a := DrainNeverStuck(s);
    }
  }

  // ---- One live request per id ----

  ghost predicate OneLivePerId(s: State) {
    forall i, j :: 0 <= i < j < |s.tasks| && Live(s.tasks[i]) && Live(s.tasks[j]) ==> s.tasks[i].key != s.tasks[j].key
  }

  /** The client asks again under an id it cancelled, while the old handler has not exited. */
  ghost predicate ReusesCancelled(s: State, a: Action) {
    && a.Read? && a.line.Request? && a.line.id !in s.inFlight
    && exists i :: 0 <= i < |s.tasks| && Live(s.tasks[i]) && s.tasks[i].cancelled && s.tasks[i].key == a.line.id
  }

  /** Every live request that was not cancelled is in the table. */
  ghost predicate Tracked(s: State) {
    forall i :: 0 <= i < |s.tasks| && Live(s.tasks[i]) && !s.tasks[i].cancelled ==>
      s.tasks[i].key in s.inFlight && s.inFlight[s.tasks[i].key] == i
  }

  lemma TakeKeepsTracked(s: State, line: Line)
    requires Inv(s) && OneLivePerId(s) && Tracked(s) && !ReusesCancelled(s, Read(line))
    ensures OneLivePerId(Take(s, line)) && Tracked(Take(s, line))
  {
    var s' := Take(s, line);
    if line.Request? && Refusal(s, line).None? {
      assert forall i :: 0 <= i < |s.tasks| && Live(s.tasks[i]) ==> s.tasks[i].key != line.id;
    }
  }

  lemma StepKeepsTracked(s: State, a: Action)
    requires Inv(s) && Enabled(s, a) && OneLivePerId(s) && Tracked(s) && !ReusesCancelled(s, a)
    ensures OneLivePerId(Next(s, a)) && Tracked(Next(s, a))
  {
    match a
    case Read(line) => TakeKeepsTracked(s, line);
    case Step(i, step) =>
      var s', t' := Next(s, a), StepTask(s.tasks[i], step);
      assert t'.key == s.tasks[i].key && t'.cancelled == s.tasks[i].cancelled && (Live(t') ==> Live(s.tasks[i]));
      assert step.CleanUp? ==> !Live(t');
    case _ =>
  }

  lemma ReuseBreaksUniqueness(s: State, a: Action)
    requires Inv(s) && Enabled(s, a) && ReusesCancelled(s, a)
    ensures !OneLivePerId(Next(s, a))
  {
    var i :| 0 <= i < |s.tasks| && Live(s.tasks[i]) && s.tasks[i].cancelled && s.tasks[i].key == a.line.id;
    var s' := Next(s, a);
    assert s'.tasks[i] == s.tasks[i] && s'.tasks[|s.tasks|].key == a.line.id;
  }

  ghost predicate AlwaysOneLivePerId(s: State, run: seq<Action>)
    requires IsRun(s, run)
    decreases |run|
  {
    OneLivePerId(s) && (run != [] ==> AlwaysOneLivePerId(Next(s, run[0]), run[1..]))
  }

  ghost predicate NeverReuses(s: State, run: seq<Action>)
    requires IsRun(s, run)
    decreases |run|
  {
    run != [] ==> !ReusesCancelled(s, run[0]) && NeverReuses(Next(s, run[0]), run[1..])
  }

  lemma {:induction false} OneLiveIffNoReuseFrom(s: State, run: seq<Action>)
    requires Inv(s) && IsRun(s, run) && OneLivePerId(s) && Tracked(s)
    ensures AlwaysOneLivePerId(s, run) <==> NeverReuses(s, run)
    decreases |run|
  {
    if run != [] {
      NextKeepsInv(s, run[0]);
      if ReusesCancelled(s, run[0]) {
        ReuseBreaksUniqueness(s, run[0]);
      } else {
        StepKeepsTracked(s, run[0]);
        OneLiveIffNoReuseFrom(Next(s, run[0]), run[1..]);
      }
    }
  }

  /** Main result: at most one live request per id holds throughout a run exactly when the client
      never reuses an id it cancelled before the old handler has exited. Clean-up removes by id and
      not by instance, so the server's own check cannot give more. */
  lemma OneLivePerIdIffNoReuse(run: seq<Action>)
    requires IsRun(Init, run)
    ensures AlwaysOneLivePerId(Init, run) <==> NeverReuses(Init, run)
  {
    OneLiveIffNoReuseFrom(Init, run);
  }

  /** Such a run exists: a cancelled id is reused, the old clean-up drops the new entry, and a third
      request under the id is accepted while the second is still alive. */
  lemma ReuseRunExists() returns (run: seq<Action>, s: State)
    ensures IsRun(Init, run) && After(Init, run) == s
    ensures |s.tasks| == 3 && s.tasks[1].key == s.tasks[2].key && Live(s.tasks[1]) && Live(s.tasks[2])
    ensures !s.tasks[1].cancelled && s.inFlight == map["1" := 2]
  {
    run, s := CancelledAndReused();
    run, s := Extend(run, s, Step(0, Silence));
    run, s := Extend(run, s, Step(0, Report));
    run, s := Extend(run, s, Step(0, CleanUp));
    run, s := Extend(run, s, Read(Request("1", true)));
  }

  lemma CancelledAndReused() returns (run: seq<Action>, s: State)
    ensures IsRun(Init, run) && After(Init, run) == s && s.phase.Reading?
    ensures s.tasks
      == [Task("1", 0, true, Running, Watching, true, true), Task("1", 2, true, Running, Watching, false, false)]
    ensures s.inFlight == map["1" := 1]
  {
    run, s := [], Init;
    run, s := Extend(run, s, Read(Request("1", true)));
    run, s := Extend(run, s, Read(Notification(Some("1"))));
    run, s := Extend(run, s, Read(Request("1", true)));
  }

  lemma Extend(run: seq<Action>, s: State, a: Action) returns (run': seq<Action>, s': State)
    requires IsRun(Init, run) && After(Init, run) == s && Enabled(s, a)
    ensures IsRun(Init, run') && After(Init, run') == s' == Next(s, a)
  {
    AppendAction(Init, run, a);
    run', s' := run + [a], Next(s, a);
  }

  lemma {:induction false} AppendAction(s: State, run: seq<Action>, a: Action)
    requires IsRun(s, run) && Enabled(After(s, run), a)
    ensures IsRun(s, run + [a]) && After(s, run + [a]) == Next(After(s, run), a)
    decreases |run|
  {
    if run == [] {
      assert run + [a] == [a];
    } else {
      assert (run + [a])[1..] == run[1..] + [a];
      AppendAction(Next(s, run[0]), run[1..], a);
    }
  }
}
