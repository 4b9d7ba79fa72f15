/**
 At most one dispatch: whatever the Brain answers and wherever the process crashes, an Action that completed or may have
 acted is not dispatched again, unless its own batch's receipts were removed before a checkpoint named it.  Proved as an
 invariant of the journal, the durable checkpoint, the process and the trace so far.
 */
module TurnSafety {
  import opened Basics
  import opened Json
  import opened TurnCodec
  import opened Admission
  import opened TurnProtocol
  import opened TurnTrace
  import ActionResult
  import J = Journal

  // ----- The invariant ---------------------------------------------------------------------------------------------

  /** A state with its trace folded. */
  datatype View = View(slot: J.Slot, durable: Option<Saved>, process: Process, trace: Trace)

  ghost function Viewed(s: State): View { View(s.slot, s.durable, s.process, Traced(s.events)) }

  /** The interrupts of the journal's rows that are past `prepared`. */
  ghost function HeldBy(slot: J.Slot): set<string> {
    if slot.None? then {}
    else
      set i | 0 <= i < |slot.value.rows| && !slot.value.rows[i].state.Prepared? ::
        slot.value.rows[i].operation.interrupt
  }

  /** The journal identity's operations are the batch's requests, in order. */
  ghost predicate Names(id: J.Identity, batch: seq<ActionRequest>) {
    |id.operations| == |batch| && forall i :: 0 <= i < |batch| ==> id.operations[i].interrupt == batch[i].interruptId
  }

  /** A batch of new interrupts that the continuation's turn asks for. */
  ghost predicate Asked(at: Continuation, batch: seq<ActionRequest>) {
    && at.turn.status.ActionRequired? && batch != [] && DistinctRequests(batch)
    && InterruptsOf(batch) == InterruptsOf(at.turn.actions) && InterruptsOf(batch) !! at.seen
  }

  /** The journal holds this batch open. */
  ghost predicate Holds(slot: J.Slot, handle: Handle) {
    && J.Current(slot, handle.identity) && Names(handle.identity, handle.batch)
    && |slot.value.rows| == |handle.batch|
  }

  /** The settled results of the running batch are its first completed rows. */
  ghost predicate Settled(slot: J.Slot, results: seq<Value>) {
    && slot.Some? && |results| <= |slot.value.rows|
    && forall i :: 0 <= i < |results| ==> slot.value.rows[i].state == J.Completed(results[i])
  }

  ghost predicate At(durable: Option<Saved>, at: Continuation) { durable.Some? && durable.value.continuation == at }

  /** How the running process agrees with what is durable and with the trace. */
  ghost predicate ProcessInv(v: View) {
    match v.process
    case Down => true
    case Restarting(saved) => v.durable == Some(saved) && v.trace.phase.Idle?
    case Ready(at) => At(v.durable, at) && v.trace.phase.Idle?
    case Offered(at, batch, files) => At(v.durable, at) && Asked(at, batch) && v.trace.phase == Approved(batch)
    case Running(at, handle, files, results, executing) =>
      && At(v.durable, at) && Asked(at, handle.batch) && Holds(v.slot, handle) && Settled(v.slot, results)
      && !v.trace.owed
      && (executing ==> |results| < |handle.batch| && v.slot.value.rows[|results|].state.Executing?)
      && v.trace.phase == Live(handle.batch, |results| + if executing then 1 else 0)
    case Answered(next, held) =>
      && v.durable.Some?
      && var at := v.durable.value.continuation;
         if held.None? then
           v.trace.phase.Idle? && at.turn.status.BrowserRequired? && next.turn.status.Completed? && next.seen == at.seen
         else
           && v.trace.phase == Told(held.value.batch) && !v.trace.owed && Asked(at, held.value.batch)
           && next.seen == at.seen + InterruptsOf(held.value.batch) && Holds(v.slot, held.value)
    case Delivering(next, handle) =>
      && v.durable == Some(Saved(next, handle.batch)) && v.trace.phase == Kept(handle.batch)
      && Holds(v.slot, handle) && InterruptsOf(handle.batch) <= next.seen
    case Failed(held, uncertain) =>
      && v.durable.Some?
      && (uncertain ==> held.Some? && Holds(v.slot, held.value) && J.AnyExecuting(v.slot.value))
    case Ending => v.durable.Some?
  }

  /** A spent interrupt is named by the durable checkpoint, or it is one of the checkpoint's own round and still
      journaled. */
  ghost predicate Protected(slot: J.Slot, at: Continuation, x: string) {
    x in at.seen || (at.turn.status.ActionRequired? && x in InterruptsOf(at.turn.actions) && x in HeldBy(slot))
  }

  ghost predicate AllProtected(slot: J.Slot, at: Continuation, spent: set<string>) {
    forall x :: x in spent ==> Protected(slot, at, x)
  }

  /** Nothing spent and nothing a checkpoint names was dispatched, and the spent interrupts are protected. */
  ghost predicate OnceInv(v: View) {
    && v.trace.once && v.trace.unseen
    && (v.durable.Some? ==>
          && v.trace.named == v.durable.value.continuation.seen
          && AllProtected(v.slot, v.durable.value.continuation, v.trace.spent))
  }

  /** The owed batch is one the durable checkpoint names, and the journal still holds it open. */
  ghost predicate OwedInv(v: View) {
    v.trace.owed && v.durable.Some? && v.durable.value.continuation.turn.status.ActionRequired? ==>
      && v.slot.Some? && v.slot.value.state.Open?
      && J.Interrupts(v.slot.value.identity.operations) <= v.durable.value.continuation.seen
  }

  ghost predicate Inv(v: View) {
    && J.WellFormedSlot(v.slot) && ProcessInv(v) && OnceInv(v) && OwedInv(v) && !v.trace.phase.Broken?
    && (v.durable.None? ==> v.process.Down?)
  }

  // ----- Journal steps ---------------------------------------------------------------------------------------------

  /** A prepared batch is held open, and no receipt of its own interrupts is lost. */
  lemma PrepareFacts(slot: J.Slot, thread: string, routine: bool, batch: seq<ActionRequest>, fingerprints: seq<string>)
    requires J.WellFormedSlot(slot) && batch != [] && DistinctRequests(batch) && |fingerprints| == |batch|
    requires J.PrepareSlot(slot, IdentityOf(thread, batch, fingerprints), routine).Ok?
    ensures
      var id := IdentityOf(thread, batch, fingerprints);
      var stored := J.PrepareSlot(slot, id, routine).value;
      && J.WellFormed(stored) && Holds(Some(stored), Handle(batch, id))
      && HeldBy(slot) * InterruptsOf(batch) <= HeldBy(Some(stored))
      && (slot.Some? && slot.value.state.Open? ==> J.Interrupts(slot.value.identity.operations) == InterruptsOf(batch))
  {
    var id := IdentityOf(thread, batch, fingerprints);
    assert Names(id, batch) && J.DistinctInterrupts(id.operations);
    var stored := J.PrepareSlot(slot, id, routine).value;
    if slot.Some? && slot.value.identity == id {
      assert stored.rows == slot.value.rows;
      NamedInterrupts(id, batch);
    } else if slot.Some? {
      assert forall x :: x in HeldBy(slot) ==> x !in InterruptsOf(batch);
    }
  }

  lemma NamedInterrupts(id: J.Identity, batch: seq<ActionRequest>)
    requires Names(id, batch)
    ensures J.Interrupts(id.operations) == InterruptsOf(batch)
  {
    forall x | x in InterruptsOf(batch) ensures x in J.Interrupts(id.operations) {
      var i :| 0 <= i < |batch| && batch[i].interruptId == x;
      assert id.operations[i].interrupt == x;
    }
  }

  /** Rewriting one row's state and attempts moves only its own interrupt. */
  lemma RowFacts(stored: J.Stored, handle: Handle, k: nat, row: J.Row)
    requires J.WellFormed(stored) && Holds(Some(stored), handle) && k < |stored.rows|
    requires row.operation == stored.rows[k].operation
    requires row.state.Completed? ==> ActionResult.Durable(row.state.result)
    ensures
      var after := Some(stored.(rows := stored.rows[k := row]));
      var x := handle.batch[k].interruptId;
      && J.WellFormedSlot(after) && Holds(after, handle)
      && HeldBy(after) == (if row.state.Prepared? then HeldBy(Some(stored)) - {x} else HeldBy(Some(stored)) + {x})
      && (x in HeldBy(Some(stored)) <==> !stored.rows[k].state.Prepared?)
      && x in InterruptsOf(handle.batch)
  {
    var rows := stored.rows[k := row];
    var after := Some(stored.(rows := rows));
    var x := handle.batch[k].interruptId;
    assert stored.rows[k].operation == stored.identity.operations[k];
    forall i | 0 <= i < |rows| && i != k ensures rows[i] == stored.rows[i] && rows[i].operation.interrupt != x {
      assert stored.identity.operations[i].interrupt != stored.identity.operations[k].interrupt;
    }
    assert rows[k] == row;
    forall y | y in HeldBy(Some(stored)) && y != x ensures y in HeldBy(after) {
      var i :| 0 <= i < |rows| && !stored.rows[i].state.Prepared? && stored.rows[i].operation.interrupt == y;
      assert rows[i].operation.interrupt == y;
    }
  }

  // ----- Every step keeps the invariant ----------------------------------------------------------------------------

  lemma StartKeeps(v: View, turn: RuntimeTurn)
    requires Inv(v) && v.process.Down? && v.durable.None? && v.trace == Untold
    ensures
      var saved := Saved(Continuation(turn, {}, [], 0, 0), []);
      Inv(View(v.slot, Some(saved), Ready(saved.continuation), Noted(v.trace, Checkpointed(saved))))
  {
  }

  lemma StopKeeps(v: View)
    requires Inv(v)
    ensures Inv(v.(process := Down))
    ensures v.process.Ending? ==> Inv(v.(durable := None, process := Down))
  {
  }

  lemma FailKeeps(v: View)
    requires Inv(v) && (v.process.Restarting? || v.process.Ready? || v.process.Offered? || v.process.Running? ||
                        v.process.Answered? || v.process.Delivering?)
    ensures Inv(v.(process := Failed(HandleOf(v.process), false)))
    ensures v.process.Running? && v.process.executing ==> Inv(v.(process := Failed(Some(v.process.handle), true)))
  {
  }

  lemma RestartKeeps(v: View, p: Process)
    requires Inv(v) && v.process.Down? && v.durable.Some?
    requires p == Restarting(v.durable.value) || p == Ready(v.durable.value.continuation)
    ensures Inv(v.(process := p, trace := Noted(v.trace, Restarted)))
  {
  }

  lemma SettleKeeps(v: View)
    requires Inv(v) && v.process.Restarting?
    ensures Inv(View(J.EndSettledSlot(v.slot), v.durable, Ready(v.process.saved.continuation),
                     Noted(v.trace, SettledUndelivered)))
  {
    assert HeldBy(J.EndSettledSlot(v.slot)) == HeldBy(v.slot);
  }

  lemma AdmitKeeps(v: View, batch: seq<ActionRequest>, files: nat)
    requires Inv(v) && v.process.Ready? && Asked(v.process.at, batch)
    ensures Inv(v.(process := Offered(v.process.at, batch, files), trace := Noted(v.trace, Admitted(batch))))
  {
  }

  /** A pause before the batch, the completed turn and the Browser's answer. */
  lemma LeaveKeeps(v: View, turn: RuntimeTurn)
    requires Inv(v)
    ensures v.process.Offered? ==> Inv(v.(process := Down, trace := Noted(v.trace, Paused(v.process.at))))
    ensures v.process.Ready? ==> Inv(v.(process := Ending, trace := Noted(v.trace, TurnCompleted(v.process.at))))
    ensures v.process.Ready? && v.process.at.turn.status.BrowserRequired? && turn.status.Completed? ==>
      Inv(v.(process := Answered(v.process.at.(turn := turn), None), trace := Noted(v.trace, BrowserResumed)))
  {
  }

  lemma PrepareKeeps(v: View, id: J.Identity, stored: J.Stored)
    requires Inv(v) && v.process.Offered? && J.WellFormed(stored) && Holds(Some(stored), Handle(v.process.batch, id))
    requires HeldBy(v.slot) * InterruptsOf(v.process.batch) <= HeldBy(Some(stored))
    requires v.slot.Some? && v.slot.value.state.Open? ==>
      J.Interrupts(v.slot.value.identity.operations) == InterruptsOf(v.process.batch)
    ensures
      var p := v.process;
      Inv(View(Some(stored), v.durable, Running(p.at, Handle(p.batch, id), p.files, [], false),
               Noted(v.trace, PreparedBatch(p.batch))))
  {
    assert v.process.batch[0].interruptId in InterruptsOf(v.process.batch);
  }

  /** A process about to invoke its batch's next request. */
  ghost predicate Invoking(v: View) {
    v.process.Running? && !v.process.executing && |v.process.results| < |v.process.handle.batch|
  }

  /** A replayed result, and an invocation refused before the journal. */
  lemma ReplayKeeps(v: View)
    requires Inv(v) && Invoking(v)
    ensures
      var p := v.process;
      var trace := Noted(v.trace, Invoked(p.handle.batch[|p.results|]));
      var state := v.slot.value.rows[|p.results|].state;
      && Inv(v.(process := Failed(Some(p.handle), false), trace := trace))
      && (state.Completed? ==>
            Inv(v.(process := Running(p.at, p.handle, p.files, p.results + [state.result], false), trace := trace)))
  {
  }

  /** What a dispatch spends is new: a spent interrupt of this batch would be seen or past `prepared`. */
  lemma DispatchIsNew(slot: J.Slot, at: Continuation, spent: set<string>, handle: Handle, k: nat, row: J.Row)
    requires J.WellFormedSlot(slot) && Holds(slot, handle) && k < |handle.batch| && Asked(at, handle.batch)
    requires AllProtected(slot, at, spent)
    requires slot.value.rows[k].state.Prepared? && row.state.Executing? && row.operation == slot.value.rows[k].operation
    ensures
      var x := handle.batch[k].interruptId;
      && x !in spent && x !in at.seen
      && AllProtected(Some(slot.value.(rows := slot.value.rows[k := row])), at, spent + {x})
  {
    RowFacts(slot.value, handle, k, row);
  }

  lemma DispatchKeeps(v: View, row: J.Row)
    requires Inv(v) && Invoking(v)
    requires v.slot.value.rows[|v.process.results|].state.Prepared? && row.state.Executing?
    requires row.operation == v.slot.value.rows[|v.process.results|].operation
    ensures
      var p := v.process;
      var request := p.handle.batch[|p.results|];
      Inv(View(Some(v.slot.value.(rows := v.slot.value.rows[|p.results| := row])), v.durable,
               Running(p.at, p.handle, p.files, p.results, true),
               Noted(Noted(v.trace, Invoked(request)), Dispatched(request.interruptId))))
  {
    var p := v.process;
    var k := |p.results|;
    RowFacts(v.slot.value, p.handle, k, row);
    DispatchIsNew(v.slot, p.at, v.trace.spent, p.handle, k, row);
  }

  /** The executing row settles: completed, failed without effect, or back to `prepared`. */
  lemma SettledKeeps(v: View, row: J.Row)
    requires Inv(v) && v.process.Running? && v.process.executing
    requires row.operation == v.slot.value.rows[|v.process.results|].operation
    requires row.state.Completed? ==> ActionResult.Durable(row.state.result)
    ensures
      var p := v.process;
      var x := p.handle.batch[|p.results|].interruptId;
      var slot := Some(v.slot.value.(rows := v.slot.value.rows[|p.results| := row]));
      var back := Noted(v.trace, Reprepared(x));
      && (row.state.Completed? ==>
            Inv(View(slot, v.durable, Running(p.at, p.handle, p.files, p.results + [row.state.result], false),
                     v.trace)))
      && (row.state.NoEffect? ==> Inv(View(slot, v.durable, Failed(Some(p.handle), false), v.trace)))
      && (row.state.Prepared? ==> Inv(View(slot, v.durable, Failed(Some(p.handle), false), back)))
      && (row.state.Prepared? ==> Inv(View(slot, v.durable, Down, Noted(back, HumanPaused(p.at, x)))))
  {
    RowFacts(v.slot.value, v.process.handle, |v.process.results|, row);
  }

  lemma ResumeKeeps(v: View, next: Continuation, results: seq<Member>)
    requires Inv(v) && v.process.Running? && !v.process.executing && |v.process.results| == |v.process.handle.batch|
    requires ResultsOf(v.process.handle.batch, results)
    requires next.seen == v.process.at.seen + InterruptsOf(v.process.handle.batch)
    ensures
      var p := v.process;
      var told := Noted(v.trace, Resumed(results));
      && Inv(v.(process := Answered(next, Some(p.handle)), trace := told))
      && Inv(v.(process := Failed(Some(p.handle), false), trace := told))
  {
  }

  /** The checkpoint names every spent interrupt of its round before the journal lets go of it. */
  lemma CheckpointKeeps(v: View)
    requires Inv(v) && v.process.Answered?
    ensures
      var p := v.process;
      var saved := Saved(p.next, if p.held.Some? then p.held.value.batch else []);
      Inv(View(v.slot, Some(saved), if p.held.Some? then Delivering(p.next, p.held.value) else Ready(p.next),
               Noted(v.trace, Checkpointed(saved))))
  {
    var p := v.process;
    if p.held.Some? {
      NamedInterrupts(p.held.value.identity, p.held.value.batch);
    }
  }

  lemma AcknowledgeKeeps(v: View)
    requires Inv(v) && v.process.Delivering?
    ensures
      var p := v.process;
      Inv(View(None, v.durable, Ready(p.next), Noted(v.trace, Acknowledged(p.handle.batch))))
  {
    var p := v.process;
    NamedInterrupts(p.handle.identity, p.handle.batch);
    assert HeldBy(v.slot) <= J.Interrupts(p.handle.identity.operations);
  }

  /** What an abandonment leaves spent is named by the checkpoint: everything else was of the abandoned batch. */
  lemma AbandonedProtected(v: View)
    requires Inv(v) && v.process.Failed? && v.process.uncertain
    ensures
      var at, e := v.durable.value.continuation, Abandoned(v.process.held.value.batch);
      AllProtected(None, at, Noted(v.trace, e).spent)
  {
    var handle := v.process.held.value;
    NamedInterrupts(handle.identity, handle.batch);
    assert HeldBy(v.slot) <= J.Interrupts(handle.identity.operations);
  }

  lemma AbandonKeeps(v: View)
    requires Inv(v) && v.process.Failed? && v.process.uncertain
    ensures Inv(v.(slot := None, process := Ending, trace := Noted(v.trace, Abandoned(v.process.held.value.batch))))
  {
    AbandonedProtected(v);
  }

  lemma TerminateKeeps(v: View)
    requires Inv(v) && v.process.Failed?
    ensures Inv(v.(process := Ending))
    ensures v.slot.Some? && v.slot.value.state.Open? ==>
      Inv(v.(slot := Some(v.slot.value.(state := J.Ended)), process := Ending, trace := Noted(v.trace, EndedBatch)))
  {
    if v.slot.Some? {
      assert HeldBy(Some(v.slot.value.(state := J.Ended))) == HeldBy(v.slot);
    }
  }
}
