/**
 Exactly when the turn dispatches nothing twice.  Terminating a failed chat turn removes the receipts of an Action that
 may have acted before the turn's end is durable, so a crash in between lets a restart dispatch it again; a Routine
 run's batch keeps them.
 */
module TurnExact {
  import opened Basics
  import opened Json
  import opened TurnCodec
  import opened Admission
  import opened TurnProtocol
  import opened TurnTrace
  import opened TurnRuns
  import J = Journal
  import L = TurnLedger

  /** A first answer of the Brain whose batch the turn admits. */
  ghost predicate FirstRound(c: Config, turn: RuntimeTurn, batch: seq<ActionRequest>, files: nat) {
    SafeTurn(turn) && turn.status.ActionRequired? && RoundAdmitted(c.terms, turn, {}, 0, batch, files)
  }

  /** Whether the turn can run any Action at all: rounds, room for one result, and an Action that takes no file or a
      file it may take. */
  predicate CanAct(c: Config) {
    && 0 < c.maxRounds && 0 < c.terms.capacity
    && exists k :: k in c.terms.declared && (c.terms.declared[k].inputFiles == [] || c.terms.selected != {})
  }

  /** What any round admits needs all of it. */
  lemma AdmittedActs(c: Config, turn: RuntimeTurn, seen: set<string>, before: nat, batch: seq<ActionRequest>,
                     files: nat)
    requires 0 < c.maxRounds && RoundAdmitted(c.terms, turn, seen, before, batch, files)
    ensures CanAct(c)
  {
    var k := Key(turn.actions[0]);
    assert RequestAdmitted(turn.actions[0], c.terms.declared, c.terms.selected, batch[0]);
    assert k in c.terms.declared;
  }

  /** An answer that asks for one Action the turn can run. */
  lemma FirstAction(c: Config) returns (turn: RuntimeTurn, batch: seq<ActionRequest>, files: nat)
    requires CanAct(c) && Sound(c.terms.declared, false)
    ensures FirstRound(c, turn, batch, files)
  {
    var k :| k in c.terms.declared && (c.terms.declared[k].inputFiles == [] || c.terms.selected != {});
    var action := c.terms.declared[k];
    var members := [];
    if action.inputFiles != [] {
      var file :| file in c.terms.selected;
      members := [Member(action.inputFiles[0], Str(file))];
    }
    var request := ActionRequest("a", k.0, k.1, Obj(members));
    batch := [request];
    turn := RuntimeTurn(ActionRequired, "", batch, None, [], None, None);
    files := Taking(c.terms.declared, batch);
    assert InputAdmitted(action, Obj(members), c.terms.selected);
    assert RequestAdmitted(request, c.terms.declared, c.terms.selected, request);
  }

  ghost predicate NeverTwice(c: Config) {
    forall start, steps, s :: Reached(c, start, steps, s) ==> AtMostOnce(s.events)
  }

  // ----- Where it holds --------------------------------------------------------------------------------------------

  lemma RoutineStep(c: Config, s: State, step: Step)
    requires c.routine && Enabled(c, s, step) && NoneAbandoned(s.events)
    ensures NoneAbandoned(After(c, s, step).events)
  {
  }

  lemma {:induction false} RoutineKeeps(c: Config, start: State, steps: seq<Step>, s: State)
    requires c.routine && Reached(c, start, steps, s)
    ensures NoneAbandoned(s.events)
    decreases |steps|
  {
    if steps != [] {
      var before := Run(c, start, steps[..|steps| - 1]).value;
      RoutineKeeps(c, start, steps[..|steps| - 1], before);
      RoutineStep(c, before, steps[|steps| - 1]);
    }
  }

  lemma DispatchedCanAct(c: Config, start: State, steps: seq<Step>, s: State, j: nat)
    requires Proper(c) && Reached(c, start, steps, s) && j < |s.events| && s.events[j].Dispatched?
    ensures CanAct(c)
  {
    RunOrdered(c, start, steps, s, j);
    var batch, i, k :| InvokedLast(s.events[..j], batch, i, k, s.events[j].interrupt);
    assert s.events[i - 1] == Admitted(batch);
    RunAccounts(c, start, steps, s, i - 1);
    var at := L.Kept(c, s.events[..i]).at.value;
    var files :| L.RoundOf(c, at, batch, files);
    AdmittedActs(c, at.turn, at.seen, at.fileActions, batch, files);
  }

  // ----- Where it fails --------------------------------------------------------------------------------------------

  lemma {:induction false} RunOn(c: Config, s: State, a: seq<Step>, b: seq<Step>)
    requires Run(c, s, a).Some?
    ensures Run(c, s, a + b) == Run(c, Run(c, s, a).value, b)
    decreases |b|
  {
    if b == [] {
      assert a + b == a;
    } else {
      assert (a + b)[..|a + b| - 1] == a + b[..|b| - 1];
      RunOn(c, s, a, b[..|b| - 1]);
    }
  }

  lemma RunOne(c: Config, s: State, step: Step)
    requires Enabled(c, s, step)
    ensures Run(c, s, [step]) == Some(After(c, s, step))
  {
    assert [step][..0] == [];
    assert Run(c, s, []) == Some(s);
  }

  lemma RunMore(c: Config, s: State, steps: seq<Step>, t: State, step: Step)
    requires Run(c, s, steps) == Some(t) && Enabled(c, t, step)
    ensures Run(c, s, steps + [step]) == Some(After(c, t, step))
  {
    RunOne(c, t, step);
    RunOn(c, s, steps, [step]);
  }

  /** A ready turn over an empty journal admits, prepares and dispatches the first request of its batch. */
  lemma Dispatches(c: Config, s: State, at: Continuation, batch: seq<ActionRequest>, files: nat)
    returns (steps: seq<Step>, t: State)
    requires s.process == Ready(at) && s.slot.None?
    requires at.turn.status.ActionRequired? && at.roundIndex < c.maxRounds
    requires RoundAdmitted(c.terms, at.turn, at.seen, at.fileActions, batch, files)
    ensures Run(c, s, steps) == Some(t)
    ensures t.durable == s.durable && t.slot.Some? && t.slot.value.state.Open? && J.AnyExecuting(t.slot.value)
    ensures t.process.Running? && t.process.executing && t.process.handle == Handle(batch, t.slot.value.identity)
    ensures t.events == s.events + [Admitted(batch), PreparedBatch(batch), Invoked(batch[0]),
                                    Dispatched(batch[0].interruptId)]
  {
    var prepared: State;
    steps, prepared := Prepares(c, s, at, batch, files);
    RunMore(c, s, steps, prepared, Begin);
    t := After(c, prepared, Begin);
    assert t.slot.value.rows[0].state.Executing?;
    steps := steps + [Begin];
  }

  lemma Prepares(c: Config, s: State, at: Continuation, batch: seq<ActionRequest>, files: nat)
    returns (steps: seq<Step>, t: State)
    requires s.process == Ready(at) && s.slot.None?
    requires at.turn.status.ActionRequired? && at.roundIndex < c.maxRounds
    requires RoundAdmitted(c.terms, at.turn, at.seen, at.fileActions, batch, files)
    ensures Run(c, s, steps) == Some(t)
    ensures
      t.slot.Some? && t == State(Some(J.Fresh(t.slot.value.identity, c.routine)), s.durable,
                                 Running(at, Handle(batch, t.slot.value.identity), files, [], false),
                                 s.events + [Admitted(batch), PreparedBatch(batch)])
    ensures |t.slot.value.identity.operations| == |batch|
  {
    RunOne(c, s, Admit(batch, files));
    var offered := After(c, s, Admit(batch, files));
    var fingerprints := seq(|batch|, i => "");
    RunMore(c, s, [Admit(batch, files)], offered, Prepare(fingerprints));
    t := After(c, offered, Prepare(fingerprints));
    steps := [Admit(batch, files)] + [Prepare(fingerprints)];
  }

  /** A lost chat Action is abandoned; a crash before the turn's end leaves its checkpoint, and a restart stands there
      again over an empty journal. */
  lemma Forgets(c: Config, s: State) returns (steps: seq<Step>, t: State)
    requires !c.routine && s.durable.Some? && s.durable.value.undelivered == []
    requires s.process.Running? && s.process.executing
    requires J.Current(s.slot, s.process.handle.identity) && J.AnyExecuting(s.slot.value)
    ensures Run(c, s, steps) == Some(t)
    ensures t == State(None, s.durable, Ready(s.durable.value.continuation),
                       s.events + [Abandoned(s.process.handle.batch), Restarted])
  {
    RunOne(c, s, Lose);
    var lost := After(c, s, Lose);
    RunMore(c, s, [Lose], lost, Terminate);
    var ended := After(c, lost, Terminate);
    steps := [Lose] + [Terminate];
    RunMore(c, s, steps, ended, Crash);
    var down := After(c, ended, Crash);
    steps := steps + [Crash];
    RunMore(c, s, steps, down, Restart(true));
    t := After(c, down, Restart(true));
    steps := steps + [Restart(true)];
  }

  /** A chat turn that can act has a run that dispatches one interrupt twice with no return to `prepared` in between. */
  lemma ChatCanRepeat(c: Config, turn: RuntimeTurn, batch: seq<ActionRequest>, files: nat)
    returns (start: State, steps: seq<Step>, s: State)
    requires !c.routine && 0 < c.maxRounds && FirstRound(c, turn, batch, files)
    ensures Reached(c, start, steps, s) && start.slot.None? && !AtMostOnce(s.events)
  {
    start := State(None, None, Down, []);
    var at := Continuation(turn, {}, [], 0, 0);
    RunOne(c, start, Start(turn));
    var ready := After(c, start, Start(turn));
    var first, acting := Dispatches(c, ready, at, batch, files);
    RunOn(c, start, [Start(turn)], first);
    var forget, again := Forgets(c, acting);
    RunOn(c, start, [Start(turn)] + first, forget);
    var second, twice := Dispatches(c, again, at, batch, files);
    RunOn(c, start, [Start(turn)] + first + forget, second);
    steps, s := [Start(turn)] + first + forget + second, twice;
    Repeated(s.events, ready.events, batch);
  }

  lemma Repeated(events: seq<Event>, start: seq<Event>, batch: seq<ActionRequest>)
    requires |start| == 1 && batch != []
    requires
      var round := [Admitted(batch), PreparedBatch(batch), Invoked(batch[0]), Dispatched(batch[0].interruptId)];
      events == start + round + [Abandoned(batch), Restarted] + round
    ensures !AtMostOnce(events)
  {
    assert events[4] == events[10] == Dispatched(batch[0].interruptId);
    assert events[4..10] == [Dispatched(batch[0].interruptId), Abandoned(batch), Restarted, Admitted(batch),
                             PreparedBatch(batch), Invoked(batch[0])];
  }

  /** A turn dispatches nothing twice, in every run from every journal, exactly when its batches are a Routine run's or
      it can run no Action at all. */
  lemma NeverTwiceExactly(c: Config)
    requires Proper(c)
    ensures NeverTwice(c) <==> c.routine || !CanAct(c)
  {
    if c.routine || !CanAct(c) {
      forall start, steps, s | Reached(c, start, steps, s) ensures AtMostOnce(s.events) {
        HoldsFor(c, start, steps, s);
      }
    } else {
      AdmittedAuthorize(c.context);
      var turn, batch, files := FirstAction(c);
      var start, steps, s := ChatCanRepeat(c, turn, batch, files);
    }
  }

  lemma HoldsFor(c: Config, start: State, steps: seq<Step>, s: State)
    requires Proper(c) && (c.routine || !CanAct(c)) && Reached(c, start, steps, s)
    ensures AtMostOnce(s.events)
  {
    forall i, j | 0 <= i < j < |s.events| && s.events[i].Dispatched? && s.events[j] == s.events[i]
      ensures Reprepared(s.events[i].interrupt) in s.events[i..j]
    {
      if c.routine {
        NoSecondDispatch(c, start, steps, s, i, j);
        RoutineKeeps(c, start, steps, s);
        LetOffStrictly(s.events, s.events[i].interrupt, i, j);
      } else {
        DispatchedCanAct(c, start, steps, s, i);
      }
    }
  }
}
