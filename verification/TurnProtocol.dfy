/**
 One chat turn as a transition system: the drive loop between Brain answers and Action batches, the durable journal
 and checkpoint it writes, and a process that may crash between any two of its steps.

 The Brain may answer any turn, the controller adapters are the free choices of each step, and a checkpoint is durable
 once it is written.  A run is the sequence of steps taken since the turn was admitted.
 */
module TurnProtocol {
  import opened Basics
  import opened Json
  import opened Runtime
  import opened TurnCodec
  import opened Admission
  import ActionResult
  import J = Journal

  /** What does not change over a turn: its context and what that fixes, whether its Action batches are a Routine run's,
      the round limit and whether invoked Actions are recorded. */
  datatype Config = Config(
    context: RuntimeContext, terms: Terms, thread: string, routine: bool, maxRounds: nat, record: bool)

  /** The terms are the context's own. */
  ghost predicate Proper(c: Config) { c.terms == TermsOf(c.context) }

  datatype InvokedAction = InvokedAction(assistantId: string, action: string)

  /** What a checkpoint holds of a turn: the Brain's answer and the counts the rounds so far add up to. */
  datatype Continuation = Continuation(
    turn: RuntimeTurn, seen: set<string>, invoked: seq<InvokedAction>, roundIndex: nat, fileActions: nat)

  /** A durable checkpoint: where the turn resumes and the batch whose results its answer already holds. */
  datatype Saved = Saved(continuation: Continuation, undelivered: seq<ActionRequest>)

  /** A prepared batch and the journal identity of its handle. */
  datatype Handle = Handle(batch: seq<ActionRequest>, identity: J.Identity)

  datatype Process =
    | Down
    | Restarting(saved: Saved)
    | Ready(at: Continuation)
    | Offered(at: Continuation, batch: seq<ActionRequest>, files: nat)
    | Running(at: Continuation, handle: Handle, files: nat, results: seq<Value>, executing: bool)
    | Answered(next: Continuation, held: Option<Handle>)
    | Delivering(next: Continuation, handle: Handle)
    | Failed(held: Option<Handle>, uncertain: bool)
    | Ending

  datatype Event =
    | Restarted
    | Checkpointed(saved: Saved)
    | Admitted(batch: seq<ActionRequest>)
    | Paused(at: Continuation)
    | PreparedBatch(batch: seq<ActionRequest>)
    | Invoked(request: ActionRequest)
    | Dispatched(interrupt: string)
    | Reprepared(interrupt: string)
    | HumanPaused(at: Continuation, interrupt: string)
    | Resumed(results: seq<Member>)
    | Acknowledged(batch: seq<ActionRequest>)
    | SettledUndelivered
    | BrowserResumed
    | TurnCompleted(at: Continuation)
    | EndedBatch
    | Abandoned(batch: seq<ActionRequest>)

  datatype State = State(slot: J.Slot, durable: Option<Saved>, process: Process, events: seq<Event>)

  datatype Step =
    | Start(turn: RuntimeTurn)
    | Crash
    | Restart(settle: bool)
    | SettleUndelivered
    | Admit(batch: seq<ActionRequest>, files: nat)
    | Pause
    | Prepare(fingerprints: seq<string>)
    | Begin
    | RefusedInvoke
    | Complete(result: Value)
    | AskPerson
    | NotDispatched
    | HandledWithoutEffect
    | Lose
    | Resume(turn: RuntimeTurn, shown: seq<Value>)
    | RefusedResume(shown: seq<Value>)
    | AnswerBrowser(turn: RuntimeTurn)
    | Checkpoint
    | Acknowledge
    | Finish
    | Fail
    | Terminate
    | End

  // ----- The steps -------------------------------------------------------------------------------------------------

  function InvokedOf(batch: seq<ActionRequest>): seq<InvokedAction> {
    Mapped((r: ActionRequest) => InvokedAction(r.assistantId, r.action), batch)
  }

  function IdentityOf(thread: string, batch: seq<ActionRequest>, fingerprints: seq<string>): J.Identity
    requires |fingerprints| == |batch|
  {
    J.Identity(thread, seq(|batch|, i requires 0 <= i < |batch| => J.Operation(batch[i].interruptId, fingerprints[i])))
  }

  function Results(batch: seq<ActionRequest>, shown: seq<Value>): (r: seq<Member>)
    requires |shown| == |batch|
    ensures |r| == |batch| && forall i :: 0 <= i < |r| ==> r[i] == Member(batch[i].interruptId, shown[i])
  {
    seq(|batch|, i requires 0 <= i < |batch| => Member(batch[i].interruptId, shown[i]))
  }

  /** The continuation after a batch whose results the Brain answered with `turn`. */
  function Advanced(c: Config, at: Continuation, batch: seq<ActionRequest>, files: nat,
                    turn: RuntimeTurn): Continuation
  {
    Continuation(turn, at.seen + InterruptsOf(batch),
                 at.invoked + (if c.record then InvokedOf(batch) else []), at.roundIndex + 1, files)
  }

  /** What the parser guarantees of every Brain answer's interrupts. */
  predicate SafeTurn(t: RuntimeTurn) {
    forall i :: 0 <= i < |t.actions| ==> SafeId(t.actions[i].interruptId)
  }

  lemma ParsedIsSafe(p: Protocol, v: Value)
    requires Idempotent(p) && ParseTurn(p, v).Some?
    ensures SafeTurn(ParseTurn(p, v).value)
  {
    TurnExactly(p, v, ParseTurn(p, v).value);
  }

  predicate Repeats(t: RuntimeTurn, seen: set<string>) {
    t.status.ActionRequired? && exists i :: 0 <= i < |t.actions| && t.actions[i].interruptId in seen
  }

  /** The handle a failed process still has to terminate. */
  function HandleOf(p: Process): Option<Handle> {
    match p
    case Running(_, handle, _, _, _) => Some(handle)
    case Answered(_, held) => held
    case Delivering(_, handle) => Some(handle)
    case _ => None
  }

  ghost predicate ShownAll(shown: seq<Value>, results: seq<Value>) {
    |shown| == |results| && forall i :: 0 <= i < |shown| ==> Shown(shown[i], results[i])
  }

  /** Whether terminating this failed process removes the receipts of an operation that may have acted. */
  predicate Abandons(c: Config, s: State) {
    && s.process.Failed? && s.process.uncertain && s.process.held.Some? && !c.routine
    && J.AbandonSlot(s.slot, s.process.held.value.identity).Ok?
    && J.AbandonSlot(s.slot, s.process.held.value.identity).value.1
  }

  ghost predicate Enabled(c: Config, s: State, step: Step) {
    var p := s.process;
    match step
    case Start(turn) => p.Down? && s.durable.None? && s.events == [] && SafeTurn(turn)
    case Crash => true
    case Restart(_) => p.Down? && s.durable.Some?
    case SettleUndelivered => p.Restarting?
    case Admit(batch, files) =>
      p.Ready? && p.at.turn.status.ActionRequired? && p.at.roundIndex < c.maxRounds
      && RoundAdmitted(c.terms, p.at.turn, p.at.seen, p.at.fileActions, batch, files)
    case Pause => p.Offered?
    case Prepare(fingerprints) =>
      p.Offered? && |fingerprints| == |p.batch|
      && J.PrepareSlot(s.slot, IdentityOf(c.thread, p.batch, fingerprints), c.routine).Ok?
    case Begin =>
      p.Running? && !p.executing && |p.results| < |p.handle.batch|
      && J.BeginSlot(s.slot, p.handle.identity, |p.results|).Ok?
    case RefusedInvoke => p.Running? && !p.executing && |p.results| < |p.handle.batch|
    case Complete(result) =>
      p.Running? && p.executing && ActionResult.Durable(result)
      && J.SettleSlot(s.slot, p.handle.identity, |p.results|, J.Completed(result)).Ok?
    case AskPerson =>
      p.Running? && p.executing && |p.results| < |p.handle.batch|
      && J.ReprepareSlot(s.slot, p.handle.identity, |p.results|).Ok?
    case NotDispatched =>
      p.Running? && p.executing && |p.results| < |p.handle.batch|
      && J.ReprepareSlot(s.slot, p.handle.identity, |p.results|).Ok?
    case HandledWithoutEffect =>
      p.Running? && p.executing && J.SettleSlot(s.slot, p.handle.identity, |p.results|, J.NoEffect).Ok?
    case Lose => p.Running? && p.executing
    case Resume(turn, shown) =>
      p.Running? && !p.executing && |p.results| == |p.handle.batch| && ShownAll(shown, p.results)
      && SafeTurn(turn) && !Repeats(turn, p.at.seen + InterruptsOf(p.handle.batch))
    case RefusedResume(shown) =>
      p.Running? && !p.executing && |p.results| == |p.handle.batch| && ShownAll(shown, p.results)
    case AnswerBrowser(turn) =>
      p.Ready? && p.at.roundIndex <= c.maxRounds && p.at.turn.status.BrowserRequired? && p.at.turn.browser.Some?
      && c.context.browser && c.context.attachments == []
      && turn.status.Completed? && turn.memory == [] && turn.routine.None? && turn.clarification.None? && SafeTurn(turn)
    case Checkpoint => p.Answered?
    case Acknowledge => p.Delivering? && J.DeliveredSlot(s.slot, p.handle.identity).Ok?
    case Finish =>
      p.Ready? && p.at.roundIndex <= c.maxRounds && p.at.turn.status.Completed?
      && !(p.at.turn.clarification.Some? && (p.at.roundIndex > 0 || p.at.invoked != []))
    case Fail => p.Restarting? || p.Ready? || p.Offered? || (p.Running? && !p.executing) || p.Answered? || p.Delivering?
    case Terminate => p.Failed?
    case End => p.Ending?
  }

  ghost function After(c: Config, s: State, step: Step): State
    requires Enabled(c, s, step)
  {
    var p := s.process;
    match step
    case Start(turn) =>
      var saved := Saved(Continuation(turn, {}, [], 0, 0), []);
      State(s.slot, Some(saved), Ready(saved.continuation), s.events + [Checkpointed(saved)])
    case Crash => s.(process := Down)
    case Restart(settle) =>
      s.(process := if settle && s.durable.value.undelivered != [] then Restarting(s.durable.value)
                    else Ready(s.durable.value.continuation),
         events := s.events + [Restarted])
    case SettleUndelivered =>
      s.(slot := J.EndSettledSlot(s.slot), process := Ready(p.saved.continuation),
         events := s.events + [SettledUndelivered])
    case Admit(batch, files) => s.(process := Offered(p.at, batch, files), events := s.events + [Admitted(batch)])
    case Pause => s.(process := Down, events := s.events + [Paused(p.at)])
    case Prepare(fingerprints) =>
      var id := IdentityOf(c.thread, p.batch, fingerprints);
      s.(slot := Some(J.PrepareSlot(s.slot, id, c.routine).value),
         process := Running(p.at, Handle(p.batch, id), p.files, [], false),
         events := s.events + [PreparedBatch(p.batch)])
    case Begin =>
      var (stored, execution) := J.BeginSlot(s.slot, p.handle.identity, |p.results|).value;
      var request := p.handle.batch[|p.results|];
      if execution.Execute? then
        s.(slot := Some(stored), process := p.(executing := true),
           events := s.events + [Invoked(request), Dispatched(request.interruptId)])
      else s.(process := p.(results := p.results + [execution.result]), events := s.events + [Invoked(request)])
    case RefusedInvoke =>
      s.(process := Failed(Some(p.handle), false), events := s.events + [Invoked(p.handle.batch[|p.results|])])
    case Complete(result) =>
      s.(slot := Some(J.SettleSlot(s.slot, p.handle.identity, |p.results|, J.Completed(result)).value),
         process := p.(results := p.results + [result], executing := false))
    case AskPerson =>
      var interrupt := p.handle.batch[|p.results|].interruptId;
      s.(slot := Some(J.ReprepareSlot(s.slot, p.handle.identity, |p.results|).value), process := Down,
         events := s.events + [Reprepared(interrupt), HumanPaused(p.at, interrupt)])
    case NotDispatched =>
      s.(slot := Some(J.ReprepareSlot(s.slot, p.handle.identity, |p.results|).value),
         process := Failed(Some(p.handle), false),
         events := s.events + [Reprepared(p.handle.batch[|p.results|].interruptId)])
    case HandledWithoutEffect =>
      s.(slot := Some(J.SettleSlot(s.slot, p.handle.identity, |p.results|, J.NoEffect).value),
         process := Failed(Some(p.handle), false))
    case Lose => s.(process := Failed(Some(p.handle), true))
    case Resume(turn, shown) =>
      s.(process := Answered(Advanced(c, p.at, p.handle.batch, p.files, turn), Some(p.handle)),
         events := s.events + [Resumed(Results(p.handle.batch, shown))])
    case RefusedResume(shown) =>
      s.(process := Failed(Some(p.handle), false), events := s.events + [Resumed(Results(p.handle.batch, shown))])
    case AnswerBrowser(turn) =>
      s.(process := Answered(p.at.(turn := turn), None), events := s.events + [BrowserResumed])
    case Checkpoint =>
      var saved := Saved(p.next, if p.held.Some? then p.held.value.batch else []);
      s.(durable := Some(saved), process := if p.held.Some? then Delivering(p.next, p.held.value) else Ready(p.next),
         events := s.events + [Checkpointed(saved)])
    case Acknowledge =>
      s.(slot := J.DeliveredSlot(s.slot, p.handle.identity).value, process := Ready(p.next),
         events := s.events + [Acknowledged(p.handle.batch)])
    case Finish => s.(process := Ending, events := s.events + [TurnCompleted(p.at)])
    case Fail => s.(process := Failed(HandleOf(p), false))
    case Terminate => Terminated(c, s)
    case End => s.(durable := None, process := Down)
  }

  /** The batch's own `terminate`: an uncertain chat batch is abandoned, an uncertain Routine batch stays, any other
      ends. */
  function Terminated(c: Config, s: State): State
    requires s.process.Failed?
  {
    var p := s.process;
    if p.held.None? || (p.uncertain && c.routine) then s.(process := Ending)
    else if Abandons(c, s) then s.(slot := None, process := Ending,
                                   events := s.events + [Abandoned(p.held.value.batch)])
    else if p.uncertain then s.(process := Ending)
    else
      var ended := J.EndSlot(s.slot, p.held.value.identity);
      if ended.Ok? && ended.value.1 then s.(slot := ended.value.0, process := Ending, events := s.events + [EndedBatch])
      else s.(process := Ending)
  }

  // ----- Runs ------------------------------------------------------------------------------------------------------

  ghost predicate Initial(s: State) {
    s.durable.None? && s.process.Down? && s.events == [] && J.WellFormedSlot(s.slot)
  }

  /** The state after these steps, or nothing when one of them was not enabled. */
  ghost function Run(c: Config, s: State, steps: seq<Step>): Option<State> {
    if steps == [] then Some(s)
    else
      var before := Run(c, s, steps[..|steps| - 1]);
      if before.Some? && Enabled(c, before.value, steps[|steps| - 1])
      then Some(After(c, before.value, steps[|steps| - 1])) else None
  }

  ghost predicate Reached(c: Config, start: State, steps: seq<Step>, s: State) {
    Initial(start) && Run(c, start, steps) == Some(s)
  }
}
