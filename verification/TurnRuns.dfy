/**
 The invariants over whole runs of the turn, and the theorems about every reachable state.
 */
module TurnRuns {
  import opened Basics
  import opened Json
  import opened Runtime
  import opened TurnCodec
  import opened Admission
  import opened TurnProtocol
  import opened TurnTrace
  import opened TurnSafety
  import Serialization
  import J = Journal
  import L = TurnLedger

  // ----- Every step of a run ---------------------------------------------------------------------------------------

  /** An admitted round asks for new interrupts of the turn. */
  lemma AdmittedAsked(c: Config, at: Continuation, batch: seq<ActionRequest>, files: nat)
    requires at.turn.status.ActionRequired? && RoundAdmitted(c.terms, at.turn, at.seen, at.fileActions, batch, files)
    ensures Asked(at, batch)
  {
    assert forall i :: 0 <= i < |batch| ==>
      RequestAdmitted(at.turn.actions[i], c.terms.declared, c.terms.selected, batch[i]);
  }

  lemma BeginKeeps(c: Config, s: State)
    requires Inv(Viewed(s)) && Enabled(c, s, Begin)
    ensures Inv(Viewed(After(c, s, Begin)))
  {
    if s.slot.value.rows[|s.process.results|].state.Prepared? {
      DispatchedKeeps(c, s);
    } else {
      NotedLast(s.events, Invoked(s.process.handle.batch[|s.process.results|]));
      ReplayKeeps(Viewed(s));
    }
  }

  lemma {:induction false} NotedTwo(events: seq<Event>, first: Event, second: Event)
    ensures Traced(events + [first, second]) == Noted(Noted(Traced(events), first), second)
  {
    NotedLast(events, first);
    NotedLast(events + [first], second);
    assert events + [first, second] == events + [first] + [second];
  }

  lemma {:induction false} DispatchedKeeps(c: Config, s: State)
    requires Inv(Viewed(s)) && Enabled(c, s, Begin) && s.slot.value.rows[|s.process.results|].state.Prepared?
    ensures Inv(Viewed(After(c, s, Begin)))
  {
    var p := s.process;
    var k := |p.results|;
    var row := s.slot.value.rows[k].(state := J.Executing, attempts := s.slot.value.rows[k].attempts + 1);
    var events := [Invoked(p.handle.batch[k]), Dispatched(p.handle.batch[k].interruptId)];
    var after := State(Some(s.slot.value.(rows := s.slot.value.rows[k := row])), s.durable,
                       Running(p.at, p.handle, p.files, p.results, true), s.events + events);
    assert After(c, s, Begin) == after;
    DispatchedView(s, row, after);
  }

  lemma {:induction false} DispatchedView(s: State, row: J.Row, after: State)
    requires Inv(Viewed(s)) && Invoking(Viewed(s))
    requires
      var row0 := s.slot.value.rows[|s.process.results|];
      row0.state.Prepared? && row.state.Executing? && row.operation == row0.operation
    requires
      var p := s.process;
      var request := p.handle.batch[|p.results|];
      after == State(Some(s.slot.value.(rows := s.slot.value.rows[|p.results| := row])), s.durable,
                     Running(p.at, p.handle, p.files, p.results, true),
                     s.events + [Invoked(request), Dispatched(request.interruptId)])
    ensures Inv(Viewed(after))
  {
    var request := s.process.handle.batch[|s.process.results|];
    NotedTwo(s.events, Invoked(request), Dispatched(request.interruptId));
    DispatchKeeps(Viewed(s), row);
  }

  lemma ExecutedKeeps(c: Config, s: State, step: Step)
    requires Inv(Viewed(s)) && Enabled(c, s, step) && (step.Complete? || step.HandledWithoutEffect?)
    ensures Inv(Viewed(After(c, s, step)))
  {
    var row := s.slot.value.rows[|s.process.results|];
    SettledKeeps(Viewed(s), row.(state := if step.Complete? then J.Completed(step.result) else J.NoEffect));
  }

  lemma RepreparedKeeps(c: Config, s: State, step: Step)
    requires Inv(Viewed(s)) && Enabled(c, s, step) && (step.NotDispatched? || step.AskPerson?)
    ensures Inv(Viewed(After(c, s, step)))
  {
    var p := s.process;
    var x := p.handle.batch[|p.results|].interruptId;
    NotedLast(s.events, Reprepared(x));
    NotedTwo(s.events, Reprepared(x), HumanPaused(p.at, x));
    SettledKeeps(Viewed(s), s.slot.value.rows[|p.results|].(state := J.Prepared));
  }

  lemma AnsweredKeeps(c: Config, s: State, step: Step)
    requires Inv(Viewed(s)) && Enabled(c, s, step) && (step.Resume? || step.RefusedResume?)
    ensures Inv(Viewed(After(c, s, step)))
  {
    var p := s.process;
    var results := Results(p.handle.batch, step.shown);
    NotedLast(s.events, Resumed(results));
    var turn := if step.Resume? then step.turn else p.at.turn;
    ResumeKeeps(Viewed(s), Advanced(c, p.at, p.handle.batch, p.files, turn), results);
  }

  lemma PreparedKeeps(c: Config, s: State, step: Step)
    requires Inv(Viewed(s)) && Enabled(c, s, step) && step.Prepare?
    ensures Inv(Viewed(After(c, s, step)))
  {
    var p := s.process;
    var id := IdentityOf(c.thread, p.batch, step.fingerprints);
    NotedLast(s.events, PreparedBatch(p.batch));
    PrepareFacts(s.slot, c.thread, c.routine, p.batch, step.fingerprints);
    PrepareKeeps(Viewed(s), id, J.PrepareSlot(s.slot, id, c.routine).value);
  }

  lemma CheckpointedKeeps(c: Config, s: State, step: Step)
    requires Inv(Viewed(s)) && Enabled(c, s, step) && (step.Start? || step.Checkpoint?)
    ensures Inv(Viewed(After(c, s, step)))
  {
    if step.Start? {
      NotedLast(s.events, Checkpointed(Saved(Continuation(step.turn, {}, [], 0, 0), [])));
      StartKeeps(Viewed(s), step.turn);
    } else {
      var p := s.process;
      NotedLast(s.events, Checkpointed(Saved(p.next, if p.held.Some? then p.held.value.batch else [])));
      CheckpointKeeps(Viewed(s));
    }
  }

  lemma ReleasedKeeps(c: Config, s: State, step: Step)
    requires Inv(Viewed(s)) && Enabled(c, s, step) && (step.Acknowledge? || step.SettleUndelivered?)
    ensures Inv(Viewed(After(c, s, step)))
  {
    if step.Acknowledge? {
      NotedLast(s.events, Acknowledged(s.process.handle.batch));
      AcknowledgeKeeps(Viewed(s));
    } else {
      NotedLast(s.events, SettledUndelivered);
      SettleKeeps(Viewed(s));
    }
  }

  lemma {:induction false} TerminatedKeeps(c: Config, s: State)
    requires Inv(Viewed(s)) && s.process.Failed?
    ensures Inv(Viewed(Terminated(c, s)))
  {
    if Abandons(c, s) {
      AbandonedKeeps(c, s);
    } else {
      EndedKeeps(c, s);
    }
  }

  lemma {:induction false} AbandonedKeeps(c: Config, s: State)
    requires Inv(Viewed(s)) && Abandons(c, s)
    ensures Inv(Viewed(Terminated(c, s)))
  {
    var e := Abandoned(s.process.held.value.batch);
    NotedLast(s.events, e);
    AbandonKeeps(Viewed(s));
    assert Terminated(c, s) == State(None, s.durable, Ending, s.events + [e]);
  }

  lemma {:induction false} EndedKeeps(c: Config, s: State)
    requires Inv(Viewed(s)) && s.process.Failed? && !Abandons(c, s)
    ensures Inv(Viewed(Terminated(c, s)))
  {
    TerminateKeeps(Viewed(s));
    if Terminated(c, s) == s.(process := Ending) {
      assert Viewed(Terminated(c, s)) == Viewed(s).(process := Ending);
    } else {
      NotedLast(s.events, EndedBatch);
      assert Terminated(c, s)
        == State(Some(s.slot.value.(state := J.Ended)), s.durable, Ending, s.events + [EndedBatch]);
    }
  }

  lemma LeftKeeps(c: Config, s: State, step: Step)
    requires Inv(Viewed(s)) && Enabled(c, s, step)
    requires step.Admit? || step.Pause? || step.Finish? || step.AnswerBrowser? || step.RefusedInvoke?
    ensures Inv(Viewed(After(c, s, step)))
  {
    var p := s.process;
    match step
    case Admit(batch, files) =>
      NotedLast(s.events, Admitted(batch));
      AdmittedAsked(c, p.at, batch, files);
      AdmitKeeps(Viewed(s), batch, files);
    case Pause =>
      NotedLast(s.events, Paused(p.at));
      LeaveKeeps(Viewed(s), p.at.turn);
    case Finish =>
      NotedLast(s.events, TurnCompleted(p.at));
      LeaveKeeps(Viewed(s), p.at.turn);
    case AnswerBrowser(turn) =>
      NotedLast(s.events, BrowserResumed);
      LeaveKeeps(Viewed(s), turn);
    case RefusedInvoke =>
      NotedLast(s.events, Invoked(p.handle.batch[|p.results|]));
      ReplayKeeps(Viewed(s));
  }

  lemma StoppedKeeps(c: Config, s: State, step: Step)
    requires Inv(Viewed(s)) && Enabled(c, s, step)
    requires step.Crash? || step.Restart? || step.Fail? || step.Lose? || step.End?
    ensures Inv(Viewed(After(c, s, step)))
  {
    match step
    case Crash => StopKeeps(Viewed(s));
    case End => StopKeeps(Viewed(s));
    case Fail => FailKeeps(Viewed(s));
    case Lose => FailKeeps(Viewed(s));
    case Restart(settle) =>
      NotedLast(s.events, Restarted);
      RestartKeeps(Viewed(s), Ready(s.durable.value.continuation));
      RestartKeeps(Viewed(s), Restarting(s.durable.value));
  }

  lemma StepKeeps(c: Config, s: State, step: Step)
    requires Inv(Viewed(s)) && Enabled(c, s, step)
    ensures Inv(Viewed(After(c, s, step)))
  {
    if step.Begin? {
      BeginKeeps(c, s);
    } else if step.Complete? || step.HandledWithoutEffect? {
      ExecutedKeeps(c, s, step);
    } else if step.NotDispatched? || step.AskPerson? {
      RepreparedKeeps(c, s, step);
    } else if step.Resume? || step.RefusedResume? {
      AnsweredKeeps(c, s, step);
    } else if step.Prepare? {
      PreparedKeeps(c, s, step);
    } else if step.Start? || step.Checkpoint? {
      CheckpointedKeeps(c, s, step);
    } else if step.Acknowledge? || step.SettleUndelivered? {
      ReleasedKeeps(c, s, step);
    } else if step.Terminate? {
      TerminatedKeeps(c, s);
    } else if step.Admit? || step.Pause? || step.Finish? || step.AnswerBrowser? || step.RefusedInvoke? {
      LeftKeeps(c, s, step);
    } else {
      StoppedKeeps(c, s, step);
    }
  }

  // ----- The ledger over one step ----------------------------------------------------------------------------------

  /** Steps that write no event. */
  lemma SilentBooks(c: Config, s: State, step: Step)
    requires L.Inv(c, L.BookOf(c, s)) && Enabled(c, s, step)
    requires step.Crash? || step.Lose? || step.Fail? || step.End?
    ensures L.Inv(c, L.BookOf(c, After(c, s, step)))
  {
    if step.Lose? {
      assert L.RoundOf(c, s.durable.value.continuation, s.process.handle.batch, s.process.files);
    }
  }

  lemma ExecutedBooks(c: Config, s: State, step: Step)
    requires L.Inv(c, L.BookOf(c, s)) && Enabled(c, s, step) && J.WellFormedSlot(After(c, s, step).slot)
    requires step.Complete? || step.HandledWithoutEffect?
    ensures L.Inv(c, L.BookOf(c, After(c, s, step)))
  {
    var slot := After(c, s, step).slot;
    if step.Complete? {
      L.Continued(c, L.BookOf(c, s), slot, s.process.results + [step.result], false);
    } else {
      L.Halted(c, L.BookOf(c, s), slot, Failed(Some(s.process.handle), false));
    }
  }

  lemma QuietStep(c: Config, s: State, step: Step) returns (e: Event)
    requires Enabled(c, s, step)
    requires step.Restart? || step.SettleUndelivered? || step.Prepare? || step.AnswerBrowser? || step.Acknowledge?
    ensures L.Quiet(e) && After(c, s, step).events == s.events + [e]
  {
    e := After(c, s, step).events[|s.events|];
  }

  /** Steps whose one event emits, admits, invokes and resumes nothing. */
  lemma QuietBooks(c: Config, s: State, step: Step)
    requires L.Inv(c, L.BookOf(c, s)) && Enabled(c, s, step) && J.WellFormedSlot(After(c, s, step).slot)
    requires step.Restart? || step.SettleUndelivered? || step.Prepare? || step.AnswerBrowser? || step.Acknowledge?
    ensures L.Inv(c, L.BookOf(c, After(c, s, step)))
  {
    var e := QuietStep(c, s, step);
    L.EnteredLast(c, s.events, e);
    L.QuietEntry(c, L.Kept(c, s.events), e);
  }

  lemma {:induction false} TerminatedBooks(c: Config, s: State)
    requires L.Inv(c, L.BookOf(c, s)) && s.process.Failed? && J.WellFormedSlot(Terminated(c, s).slot)
    ensures L.Inv(c, L.BookOf(c, Terminated(c, s)))
  {
    var e := if Abandons(c, s) then Abandoned(s.process.held.value.batch) else EndedBatch;
    L.EnteredLast(c, s.events, e);
    L.QuietEntry(c, L.Kept(c, s.events), e);
    L.Halted(c, L.BookOf(c, s), Terminated(c, s).slot, Ending);
  }

  /** Steps that emit the durable continuation. */
  lemma EmittingBooks(c: Config, s: State, step: Step)
    requires L.Inv(c, L.BookOf(c, s)) && Enabled(c, s, step) && (step.Pause? || step.Finish?)
    ensures L.Inv(c, L.BookOf(c, After(c, s, step)))
  {
    var e := if step.Pause? then Paused(s.process.at) else TurnCompleted(s.process.at);
    L.EnteredLast(c, s.events, e);
    L.EmittedEntry(c, L.BookOf(c, s), e);
  }

  lemma AdmittedBooks(c: Config, s: State, step: Step)
    requires L.Inv(c, L.BookOf(c, s)) && Enabled(c, s, step) && step.Admit?
    ensures L.Inv(c, L.BookOf(c, After(c, s, step)))
  {
    L.EnteredLast(c, s.events, Admitted(step.batch));
    L.AdmittedEntry(c, L.BookOf(c, s), step.batch, step.files);
  }

  lemma RepreparedBooks(c: Config, s: State, step: Step)
    requires L.Inv(c, L.BookOf(c, s)) && Enabled(c, s, step) && (step.NotDispatched? || step.AskPerson?)
    requires J.WellFormedSlot(After(c, s, step).slot)
    ensures L.Inv(c, L.BookOf(c, After(c, s, step)))
  {
    var after := After(c, s, step);
    L.RepreparedEntries(c, L.BookOf(c, s), s.events, s.process.handle.batch[|s.process.results|].interruptId);
    L.Halted(c, L.BookOf(c, s), after.slot, after.process);
  }

  lemma InvokedBooks(c: Config, s: State, step: Step)
    requires L.Inv(c, L.BookOf(c, s)) && Enabled(c, s, step) && (step.Begin? || step.RefusedInvoke?)
    requires J.WellFormedSlot(After(c, s, step).slot)
    ensures L.Inv(c, L.BookOf(c, After(c, s, step)))
  {
    if step.Begin? {
      BegunBooks(c, s);
    } else {
      L.InvokedEntries(c, L.BookOf(c, s), s.events, |s.process.results|);
      L.Halted(c, L.BookOf(c, s), s.slot, Failed(Some(s.process.handle), false));
    }
  }

  lemma BegunBooks(c: Config, s: State)
    requires L.Inv(c, L.BookOf(c, s)) && Enabled(c, s, Begin) && J.WellFormedSlot(After(c, s, Begin).slot)
    ensures L.Inv(c, L.BookOf(c, After(c, s, Begin)))
  {
    var after := After(c, s, Begin);
    L.InvokedEntries(c, L.BookOf(c, s), s.events, |s.process.results|);
    L.Continued(c, L.BookOf(c, s), after.slot, after.process.results, after.process.executing);
  }

  lemma ResumedBooks(c: Config, s: State, step: Step)
    requires L.Inv(c, L.BookOf(c, s)) && Enabled(c, s, step) && (step.Resume? || step.RefusedResume?)
    ensures L.Inv(c, L.BookOf(c, After(c, s, step)))
  {
    var p := s.process;
    var results := Results(p.handle.batch, step.shown);
    L.RoundWithin(c, p.at, p.handle.batch, p.files, p.results, step.shown);
    L.EnteredLast(c, s.events, Resumed(results));
    L.ResumedEntry(c, L.Kept(c, s.events), results);
  }

  lemma CheckpointedBooks(c: Config, s: State, step: Step)
    requires L.Inv(c, L.BookOf(c, s)) && Enabled(c, s, step) && (step.Start? || step.Checkpoint?)
    ensures L.Inv(c, L.BookOf(c, After(c, s, step)))
  {
    if step.Start? {
      StartedBooks(c, s, step.turn);
    } else {
      SavedBooks(c, s);
    }
  }

  lemma {:induction false} StartedBooks(c: Config, s: State, turn: RuntimeTurn)
    requires L.Inv(c, L.BookOf(c, s)) && Enabled(c, s, Start(turn))
    ensures L.Inv(c, L.BookOf(c, After(c, s, Start(turn))))
  {
    L.EnteredLast(c, s.events, Checkpointed(Saved(Continuation(turn, {}, [], 0, 0), [])));
    assert InterruptsOf([]) == {} && InvokedOf([]) == [];
  }

  lemma {:induction false} SavedBooks(c: Config, s: State)
    requires L.Inv(c, L.BookOf(c, s)) && Enabled(c, s, Checkpoint)
    ensures L.Inv(c, L.BookOf(c, After(c, s, Checkpoint)))
  {
    var p := s.process;
    var saved := Saved(p.next, if p.held.Some? then p.held.value.batch else []);
    L.EnteredLast(c, s.events, Checkpointed(saved));
    L.CheckpointedEntry(c, L.BookOf(c, s));
    var after := After(c, s, Checkpoint);
    assert after.events == s.events + [Checkpointed(saved)] && after.durable == Some(saved) && after.slot == s.slot;
    assert after.process == if p.held.Some? then Delivering(p.next, p.held.value) else Ready(p.next);
  }

  lemma ActingBooks(c: Config, s: State, step: Step)
    requires L.Inv(c, L.BookOf(c, s)) && Enabled(c, s, step) && J.WellFormedSlot(After(c, s, step).slot)
    requires s.process.Running?
    ensures L.Inv(c, L.BookOf(c, After(c, s, step)))
  {
    if step.Crash? || step.Lose? || step.Fail? {
      SilentBooks(c, s, step);
    } else if step.Complete? || step.HandledWithoutEffect? {
      ExecutedBooks(c, s, step);
    } else if step.NotDispatched? || step.AskPerson? {
      RepreparedBooks(c, s, step);
    } else if step.Begin? || step.RefusedInvoke? {
      InvokedBooks(c, s, step);
    } else {
      ResumedBooks(c, s, step);
    }
  }

  lemma StepBooks(c: Config, s: State, step: Step)
    requires L.Inv(c, L.BookOf(c, s)) && Enabled(c, s, step) && J.WellFormedSlot(After(c, s, step).slot)
    ensures L.Inv(c, L.BookOf(c, After(c, s, step)))
  {
    if s.process.Running? {
      ActingBooks(c, s, step);
    } else if step.Crash? || step.Fail? || step.End? {
      SilentBooks(c, s, step);
    } else if step.Start? || step.Checkpoint? {
      CheckpointedBooks(c, s, step);
    } else if step.Pause? || step.Finish? {
      EmittingBooks(c, s, step);
    } else if step.Terminate? {
      TerminatedBooks(c, s);
    } else if step.Admit? {
      AdmittedBooks(c, s, step);
    } else {
      QuietBooks(c, s, step);
    }
  }

  // ----- Every run -------------------------------------------------------------------------------------------------

  lemma {:induction false} RunKeeps(c: Config, start: State, steps: seq<Step>, s: State)
    requires Reached(c, start, steps, s)
    ensures Inv(Viewed(s))
    decreases |steps|
  {
    if steps != [] {
      var before := Run(c, start, steps[..|steps| - 1]).value;
      RunKeeps(c, start, steps[..|steps| - 1], before);
      StepKeeps(c, before, steps[|steps| - 1]);
    }
  }

  lemma {:induction false} RunBooks(c: Config, start: State, steps: seq<Step>, s: State)
    requires Reached(c, start, steps, s) && Sound(c.terms.declared, c.terms.restricted)
    ensures L.Inv(c, L.BookOf(c, s))
    decreases |steps|
  {
    if steps != [] {
      var before := Run(c, start, steps[..|steps| - 1]).value;
      RunBooks(c, start, steps[..|steps| - 1], before);
      RunKeeps(c, start, steps, s);
      StepBooks(c, before, steps[|steps| - 1]);
    }
  }

  /** In every run, between two dispatches of one interrupt something happened to that very interrupt: the journal
      returned it to `prepared`, or its batch was abandoned before a checkpoint named it and the turn was resumed. */
  lemma NoSecondDispatch(c: Config, start: State, steps: seq<Step>, s: State, i: nat, j: nat)
    requires Reached(c, start, steps, s) && i < j < |s.events| && s.events[i].Dispatched? && s.events[j] == s.events[i]
    ensures LetOff(s.events, s.events[i].interrupt, i, j)
  {
    RunKeeps(c, start, steps, s);
    OnceMeaning(s.events);
    ExcusedLetOff(s.events, i, j);
  }

  /** In every run, whatever was abandoned, no interrupt that the last checkpoint names is dispatched. */
  lemma SeenIsNotDispatched(c: Config, start: State, steps: seq<Step>, s: State, j: nat)
    requires Reached(c, start, steps, s) && j < |s.events| && s.events[j].Dispatched?
    ensures s.events[j].interrupt !in Named(s.events[..j])
    ensures s.durable.Some? ==> Named(s.events) == s.durable.value.continuation.seen
  {
    RunKeeps(c, start, steps, s);
    UnseenMeaning(s.events);
    NamedMeaning(s.events);
  }

  /** In every run, every interrupt that completed, failed or may have acted and was not let off since is named by the
      durable checkpoint, or is one the checkpoint's own turn asks for and still has its receipt in the journal. */
  lemma SpentIsKept(c: Config, start: State, steps: seq<Step>, s: State, x: string, i: int)
    requires Reached(c, start, steps, s) && s.durable.Some? && SpentAt(s.events, x, i)
    ensures
      var at := s.durable.value.continuation;
      x in at.seen || (at.turn.status.ActionRequired? && x in InterruptsOf(at.turn.actions) && x in HeldBy(s.slot))
  {
    RunKeeps(c, start, steps, s);
    SpentMeaning(s.events, x);
    assert Protected(s.slot, s.durable.value.continuation, x);
  }

  /** Every event of every run is in order: only an admitted batch is prepared, and not while another is undelivered;
      its requests are invoked in order; the Brain gets one result for each; the checkpoint names them before they
      go. */
  lemma RunOrdered(c: Config, start: State, steps: seq<Step>, s: State, j: nat)
    requires Reached(c, start, steps, s) && j < |s.events|
    ensures Ordered(s.events[..j], s.events[j])
  {
    RunKeeps(c, start, steps, s);
    UnbrokenOrdered(s.events, j);
  }

  /** Every event of every run keeps the ledger: a continuation counts exactly the batches delivered before it, an
      admitted batch is a round of the last checkpoint's continuation, and an invoked Action is declared, authorizing
      while attachment content is readable. */
  lemma RunAccounts(c: Config, start: State, steps: seq<Step>, s: State, j: nat)
    requires Proper(c) && Reached(c, start, steps, s) && j < |s.events|
    ensures L.Allowed(c, s.events[j], L.Kept(c, s.events[..j + 1]))
  {
    AdmittedAuthorize(c.context);
    RunBooks(c, start, steps, s);
    L.AllowedAt(c, s.events, j);
  }

  /** Every resume with a batch's results fits the Brain's request. */
  lemma RunFits(c: Config, start: State, steps: seq<Step>, s: State, j: nat)
    requires Proper(c) && Reached(c, start, steps, s) && j < |s.events| && s.events[j].Resumed?
    ensures
      var body := ResumeBody(c.context, Obj(s.events[j].results));
      Serialization.Bytes(Serialization.Dumps(body, false)) <= MAX_REQUEST_BYTES
  {
    RunAccounts(c, start, steps, s, j);
    var results := s.events[j].results;
    assert L.Within(c.terms, results);
    var kept :| ResumeResults(results, kept);
    ResumeFits(c.context, results, kept);
  }
}
