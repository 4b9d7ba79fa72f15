/**
 The turn's own loop, imperatively: `drive` over rounds, each admitting, preparing, running, resuming, checkpointing and
 acknowledging one batch on the journal.  Every execution, whatever the Brain, the Actions and the controller answer, is
 a run of the protocol, so every theorem about runs is one about this code.
 */
module TurnDrive {
  import opened Basics
  import opened Json
  import opened Runtime
  import opened TurnCodec
  import opened Admission
  import opened TurnProtocol
  import opened TurnRuns
  import ActionResult
  import TurnSafety
  import J = Journal

  /** How one invocation ended: with a result, with a question to a person, or failed. */
  datatype Invocation = Result(value: Value) | Asks | Failure

  datatype Ran = Done(results: seq<Value>, invoked: seq<InvokedAction>) | PausedForPerson | Broken(place: nat)

  /** What a completed turn answers: the Brain's last turn, the Actions it invoked, and the Browser's result. */
  datatype Reply = Reply(
    reply: string, actions: seq<InvokedAction>, clarification: Option<Value>, memory: seq<Value>,
    routine: Option<Value>,
    browser: Option<Value>)

  function ReplyOf(at: Continuation, browser: Option<Value>): Reply {
    Reply(at.turn.reply, at.invoked, at.turn.clarification, at.turn.memory, at.turn.routine, browser)
  }

  /** Why a turn stopped where it was: the controller's check, admission, the journal, a request of the batch, the
      Brain's answer, the checkpoint, the acknowledgement, the Browser, a late question, or the round limit. */
  datatype Cause =
    | NotCurrent
    | NotAdmitted
    | NotPrepared
    | NotRun(place: nat)
    | NotAnswered
    | NotWritten
    | NotAcknowledged
    | NotOffered
    | NotPlain
    | LateQuestion
    | RoundLimit

  datatype Outcome =
    | Completed(at: Continuation, reply: Reply)
    | Suspended(at: Continuation)
    | Human(at: Continuation)
    | Unfinished(at: Continuation, cause: Cause)
    | NotStarted

  /** What a dispatched attempt came to; a failure the Action handled had no effect when the Action only reads. */
  datatype Attempt = Finished(result: Value) | Request | Undelivered | Failing(readOnly: bool) | Lost

  /** What happens around one invocation: whether the turn goes on before it, whether the request is still admitted,
      what its attempt comes to, whether the journal can write that, and whether a stop comes after. */
  datatype Conduct = Conduct(current: bool, admitted: bool, attempt: Attempt, writes: bool, stopped: bool)

  /** What the controller, the Browser, the Actions and the Brain answer in one round. */
  datatype World = World(
    current: bool, task: Option<Value>, plain: Option<RuntimeTurn>, kept: bool, confirmed: bool, pause: bool,
    fingerprints: seq<string>, conduct: nat -> Conduct, handles: seq<nat>, answer: Option<RuntimeTurn>, written: bool,
    acknowledged: bool)

  // ----- Rows of the journal ---------------------------------------------------------------------------------------

  /** The state of one row of a generation. */
  ghost function StateAt(t: J.Table, g: string, k: nat): Option<J.OperationState> {
    if g in t && k < |t[g].rows| then Some(t[g].rows[k].state) else None
  }

  /** One row has this state and so many attempts more; nothing else changed. */
  ghost predicate Rewrote(before: J.Table, after: J.Table, g: string, k: nat, state: J.OperationState, more: nat) {
    && g in before && k < |before[g].rows|
    && var row := before[g].rows[k];
       after == before[g := before[g].(rows := before[g].rows[k := J.Row(row.operation, row.attempts + more, state)])]
  }

  /** The attempt leaves a result the journal holds. */
  ghost predicate Kept(d: Conduct) { d.attempt.Finished? && d.writes && ActionResult.Durable(d.attempt.result) }

  /** The journal returns the attempt's request to `prepared`. */
  ghost predicate Returned(d: Conduct) { (d.attempt.Request? || d.attempt.Undelivered?) && d.writes }

  /** Nobody knows what the attempt did. */
  ghost predicate Unknown(d: Conduct) {
    !d.writes || d.attempt.Lost? || d.attempt == Failing(false)
    || (d.attempt.Finished? && !ActionResult.Durable(d.attempt.result))
  }

  /** A request with this row has a result and the turn goes on: the kept one, or its attempt's. */
  ghost predicate Goes(row: Option<J.OperationState>, d: Conduct) {
    d.current && d.admitted && !d.stopped && row.Some? && (row.value.Completed? || (row.value.Prepared? && Kept(d)))
  }

  /** The request asks a person. */
  ghost predicate Waits(row: Option<J.OperationState>, d: Conduct) {
    d.current && d.admitted && !d.stopped && row == Some(J.Prepared) && d.attempt.Request? && d.writes
  }

  /** The result of a request that goes: the kept one, or its attempt's. */
  ghost function ResultAt(row: Option<J.OperationState>, d: Conduct): Value {
    if row.Some? && row.value.Completed? then row.value.result
    else if d.attempt.Finished? then d.attempt.result else Null
  }

  /** A request stops its batch: the turn does not go on, or its row has no result although a kept attempt's would. */
  ghost predicate Breaks(d: Conduct, row: Option<J.OperationState>) {
    || !d.current || !d.admitted || d.stopped
    || (row.Some? && !row.value.Completed? && (Kept(d) ==> !row.value.Prepared?))
  }

  /** The rows from this place on are as they were. */
  ghost predicate SameFrom(before: J.Table, after: J.Table, g: string, k: nat) {
    forall i :: k <= i ==> StateAt(after, g, i) == StateAt(before, g, i)
  }

  /** A generation of this identity with nothing executing is ended, its rows kept; nothing else changed. */
  ghost predicate EndsOnly(before: J.Table, after: J.Table, g: string, id: J.Identity) {
    var ends := g in before && before[g].identity == id && before[g].state.Open? && !J.AnyExecuting(before[g]);
    after == if ends then before[g := before[g].(state := J.Ended)] else before
  }

  /** The first requests of a batch went on, with these results. */
  ghost predicate Went(g: string, conduct: nat -> Conduct, before: J.Table, results: seq<Value>) {
    forall k :: 0 <= k < |results| ==>
      Goes(StateAt(before, g, k), conduct(k)) && results[k] == ResultAt(StateAt(before, g, k), conduct(k))
  }

  /** The request at this place asks a person, the ones before it went on, and the journal holds it prepared. */
  ghost predicate WaitsAt(g: string, conduct: nat -> Conduct, before: J.Table, after: J.Table, k: nat) {
    && Waits(StateAt(before, g, k), conduct(k)) && StateAt(after, g, k) == Some(J.Prepared)
    && forall j :: 0 <= j < k ==> Goes(StateAt(before, g, j), conduct(j))
  }

  /** The request at this place stops the batch, and the ones before it went on. */
  ghost predicate BreaksAt(g: string, conduct: nat -> Conduct, before: J.Table, after: J.Table, k: nat) {
    && Breaks(conduct(k), StateAt(after, g, k))
    && !Goes(StateAt(before, g, k), conduct(k)) && !Waits(StateAt(before, g, k), conduct(k))
    && forall j :: 0 <= j < k ==> Goes(StateAt(before, g, j), conduct(j))
  }

  /** How a batch of `n` requests ended, as its rows and what happened around each request say. */
  ghost predicate Ends(g: string, conduct: nat -> Conduct, n: nat, before: J.Table, after: J.Table, r: Ran) {
    match r
    case Done(results, _) => |results| == n && Went(g, conduct, before, results)
    case PausedForPerson => exists k: nat :: k < n && WaitsAt(g, conduct, before, after, k)
    case Broken(k) => k < n && BreaksAt(g, conduct, before, after, k)
  }

  /** The Actions of a batch that the turn records as invoked. */
  function Recorded(record: bool, batch: seq<ActionRequest>): seq<InvokedAction> {
    if record then InvokedOf(batch) else []
  }

  lemma RecordedLonger(record: bool, batch: seq<ActionRequest>, k: nat)
    requires k < |batch|
    ensures Recorded(record, batch[..k + 1])
      == Recorded(record, batch[..k]) + Recorded(record, [batch[k]])
  {
    if record {
      assert InvokedOf(batch[..k + 1]) == InvokedOf(batch[..k]) + InvokedOf([batch[k]]);
    }
  }

  /** A batch is done exactly when each of its requests goes on. */
  lemma EndsExactly(g: string, conduct: nat -> Conduct, n: nat, before: J.Table, after: J.Table, r: Ran)
    requires Ends(g, conduct, n, before, after, r)
    ensures r.Done? <==> forall k :: 0 <= k < n ==> Goes(StateAt(before, g, k), conduct(k))
  {
  }

  lemma WentOn(g: string, conduct: nat -> Conduct, n: nat, before: J.Table, table: J.Table, after: J.Table,
               results: seq<Value>, r: Invocation)
    requires Went(g, conduct, before, results) && SameFrom(before, table, g, |results|) && |results| < n
    requires
      var d, row, left := conduct(|results|), StateAt(table, g, |results|), StateAt(after, g, |results|);
      && (r.Result? <==> Goes(row, d)) && (r.Asks? <==> Waits(row, d))
      && (r.Result? ==> r.value == ResultAt(row, d) && SameFrom(table, after, g, |results| + 1))
      && (r.Asks? ==> left == Some(J.Prepared)) && (r.Failure? ==> Breaks(d, left))
    ensures r.Result? ==>
      Went(g, conduct, before, results + [r.value]) && SameFrom(before, after, g, |results| + 1)
    ensures r.Asks? ==> Ends(g, conduct, n, before, after, PausedForPerson)
    ensures r.Failure? ==> Ends(g, conduct, n, before, after, Broken(|results|))
  {
    if r.Asks? {
      assert WaitsAt(g, conduct, before, after, |results|);
    }
  }

  /** The Brain answers, with safe interrupts of its own: none that was seen when it asks for Actions. */
  ghost predicate Answers(answer: Option<RuntimeTurn>, seen: set<string>) {
    && answer.Some?
    && forall a :: a in answer.value.actions ==>
      SafeId(a.interruptId) && (answer.value.status.ActionRequired? ==> a.interruptId !in seen)
  }

  /** A batch of the same interrupts has the same identity. */
  lemma SameIdentity(thread: string, a: seq<ActionRequest>, b: seq<ActionRequest>, fingerprints: seq<string>)
    requires |a| == |b| && forall i :: 0 <= i < |a| ==> a[i].interruptId == b[i].interruptId
    ensures |fingerprints| == |a| ==> IdentityOf(thread, a, fingerprints) == IdentityOf(thread, b, fingerprints)
  {
  }

  /** What an attempt of the process `p` leaves of a table: a kept result, a request returned to `prepared`, a failure
      known to have done nothing, or an outcome nobody knows, its row left executing.  `more` counts the attempts since
      the table `before`. */
  ghost predicate Settles(g: string, p: Process, d: Conduct, more: nat, before: J.Table, after: J.Table, r: Invocation,
                          next: Process)
    requires p.Running?
  {
    && (Kept(d) ==>
          && r == Result(d.attempt.result)
          && next == Running(p.at, p.handle, p.files, p.results + [d.attempt.result], false)
          && Rewrote(before, after, g, |p.results|, J.Completed(d.attempt.result), more))
    && (Returned(d) ==>
          && Rewrote(before, after, g, |p.results|, J.Prepared, more)
          && if d.attempt.Request? && !d.stopped then r.Asks? && next.Down?
             else r.Failure? && next == Failed(Some(p.handle), false))
    && (d.attempt == Failing(true) && d.writes ==>
          && r.Failure? && next == Failed(Some(p.handle), false)
          && Rewrote(before, after, g, |p.results|, J.NoEffect, more))
    && (Unknown(d) ==>
          && r.Failure? && next == Failed(Some(p.handle), true)
          && Rewrote(before, after, g, |p.results|, J.Executing, more))
  }

  /** What an invocation by the process `p` leaves: a refusal changes nothing, a kept result replays, and a prepared
      request is dispatched and settled. */
  ghost predicate Invokes(g: string, p: Process, d: Conduct, before: J.Table, after: J.Table, r: Invocation,
                          next: Process)
    requires p.Running?
  {
    && StateAt(before, g, |p.results|).Some?
    && match StateAt(before, g, |p.results|).value
       case Completed(result) =>
         && after == before
         && if d.admitted
            then r == Result(result) && next == Running(p.at, p.handle, p.files, p.results + [result], false)
            else r.Failure? && next == Failed(Some(p.handle), false)
       case Prepared =>
         if d.admitted then Settles(g, p, d, 1, before, after, r, next)
         else r.Failure? && next == Failed(Some(p.handle), false) && after == before
       case _ => r.Failure? && next == Failed(Some(p.handle), false) && after == before
  }

  /** What the journal answers to a request of the process `p`. */
  ghost predicate Opens(g: string, p: Process, admitted: bool, before: J.Table, after: J.Table, r: Option<J.Execution>,
                        next: Process)
    requires p.Running?
  {
    && StateAt(before, g, |p.results|).Some?
    && var row := StateAt(before, g, |p.results|).value;
       if !admitted || row.Executing? || row.NoEffect? then
         r.None? && next == Failed(Some(p.handle), false) && after == before
       else if row.Completed? then
         && r == Some(J.Replay(row.result)) && after == before
         && next == Running(p.at, p.handle, p.files, p.results + [row.result], false)
       else
         && r == Some(J.Execute) && next == Running(p.at, p.handle, p.files, p.results, true)
         && Rewrote(before, after, g, |p.results|, J.Executing, 1)
  }

  /** An answer of the journal, and the settlement of what it let go, is an invocation. */
  lemma OpenedInvokes(g: string, p: Process, d: Conduct, before: J.Table, begun: J.Table, after: J.Table,
                      decision: Option<J.Execution>, r: Invocation, next: Process)
    requires p.Running?
    requires
      if decision == Some(J.Execute) then
        && Opens(g, p, d.admitted, before, begun, decision, Running(p.at, p.handle, p.files, p.results, true))
        && Settles(g, p.(executing := true), d, 0, begun, after, r, next)
      else
        && Opens(g, p, d.admitted, before, begun, decision, next) && after == begun
        && r == if decision.Some? then Result(decision.value.result) else Failure
    ensures Invokes(g, p, d, before, after, r, next)
  {
    if decision == Some(J.Execute) {
      SettlesBegun(g, p, d, before, begun, after, r, next);
    }
  }

  ghost function Dispatches(request: ActionRequest, traces: seq<Event>): seq<Event> {
    [Invoked(request), Dispatched(request.interruptId)] + traces
  }

  lemma DispatchTraced(events: seq<Event>, request: ActionRequest, traces: seq<Event>)
    ensures events + [Invoked(request), Dispatched(request.interruptId)] + traces
      == events + Dispatches(request, traces)
  {
  }

  lemma LastAsked(events: seq<Event>, request: ActionRequest, at: Continuation, d: Conduct)
    ensures
      var all := events + Dispatches(request, Traces(at, request.interruptId, d));
      && all != []
      && (Returned(d) && d.attempt.Request? && !d.stopped ==>
            all[|all| - 1] == HumanPaused(at, request.interruptId))
  {
  }

  /** What is left of the row an invocation was of, and of the rows after it. */
  lemma InvokedRow(g: string, p: Process, d: Conduct, before: J.Table, after: J.Table, r: Invocation, next: Process)
    requires p.Running? && Invokes(g, p, d, before, after, r, next)
    requires d.current
    ensures
      var row, left := StateAt(before, g, |p.results|), StateAt(after, g, |p.results|);
      && (r.Result? <==> Goes(row, d.(stopped := false))) && (r.Asks? <==> Waits(row, d))
      && (r.Result? ==>
            && next == Running(p.at, p.handle, p.files, p.results + [r.value], false) && r.value == ResultAt(row, d)
            && SameFrom(before, after, g, |p.results| + 1))
      && (r.Asks? ==> left == Some(J.Prepared))
      && (r.Failure? ==> next.Failed? && Breaks(d, left))
  {
  }

  /** A settlement of what was begun, seen from before it began. */
  lemma SettlesBegun(g: string, p: Process, d: Conduct, before: J.Table, begun: J.Table, after: J.Table, r: Invocation,
                     next: Process)
    requires p.Running? && Rewrote(before, begun, g, |p.results|, J.Executing, 1)
    requires Settles(g, p, d, 0, begun, after, r, next)
    ensures Settles(g, p, d, 1, before, after, r, next)
  {
    RewroteTwice(before, begun, after, g, |p.results|, J.Executing);
  }

  lemma SameRow(t: J.Table, g: string, k: nat)
    requires StateAt(t, g, k).Some?
    ensures Rewrote(t, t, g, k, StateAt(t, g, k).value, 0)
  {
    assert t[g].rows[k := t[g].rows[k]] == t[g].rows;
  }

  lemma RewroteTwice(before: J.Table, begun: J.Table, after: J.Table, g: string, k: nat, first: J.OperationState)
    requires Rewrote(before, begun, g, k, first, 1)
    ensures forall state :: Rewrote(begun, after, g, k, state, 0) ==> Rewrote(before, after, g, k, state, 1)
  {
    forall state | Rewrote(begun, after, g, k, state, 0) ensures Rewrote(before, after, g, k, state, 1) {
      var row := before[g].rows[k];
      assert begun[g].rows[k := J.Row(row.operation, row.attempts + 1, state)]
        == before[g].rows[k := J.Row(row.operation, row.attempts + 1, state)];
    }
  }

  /** What the trace holds of a settled attempt: only a returned request leaves anything. */
  ghost function Traces(at: Continuation, interrupt: string, d: Conduct): seq<Event> {
    if !Returned(d) then []
    else if d.attempt.Request? && !d.stopped then [Reprepared(interrupt), HumanPaused(at, interrupt)]
    else [Reprepared(interrupt)]
  }

  /** Where the run goes when the journal begins the next request. */
  lemma BegunAs(c: Config, s: State, g: string, t: J.Table)
    requires s.process.Running? && !s.process.executing && |s.process.results| < |s.process.handle.batch|
    requires TurnSafety.Holds(s.slot, s.process.handle) && s.slot == J.SlotOf(t, g)
    ensures Enabled(c, s, RefusedInvoke) && StateAt(t, g, |s.process.results|).Some?
    ensures
      var p := s.process;
      var b := J.BeginSlot(s.slot, p.handle.identity, |p.results|);
      match StateAt(t, g, |p.results|).value
      case Completed(result) =>
        && b == Ok((t[g], J.Replay(result))) && Enabled(c, s, Begin)
        && After(c, s, Begin) == State(s.slot, s.durable, Running(p.at, p.handle, p.files, p.results + [result], false),
                                       s.events + [Invoked(p.handle.batch[|p.results|])])
      case Prepared =>
        && b.Ok? && b.value.1.Execute? && Enabled(c, s, Begin)
        && Rewrote(t, t[g := b.value.0], g, |p.results|, J.Executing, 1)
        && var request := p.handle.batch[|p.results|];
           After(c, s, Begin) == State(Some(b.value.0), s.durable, Running(p.at, p.handle, p.files, p.results, true),
                                       s.events + [Invoked(request), Dispatched(request.interruptId)])
      case _ => b.Err?
  {
  }

  /** Each result is in the form its handle asks for: beside it when there is one of a traced call, plain otherwise. */
  ghost predicate ShownBy(shown: seq<Value>, results: seq<Value>, handles: seq<nat>) {
    |shown| == |results| && forall i :: 0 <= i < |shown| ==>
      shown[i] == if i < |handles| && 1 <= handles[i] <= 256 then Handled(handles[i], results[i]) else results[i]
  }

  /** The members of a resume: under each request's interrupt its own result, as it is shown. */
  ghost predicate Carries(members: seq<Member>, batch: seq<ActionRequest>, results: seq<Value>, handles: seq<nat>) {
    |members| == |batch| == |results| && forall i :: 0 <= i < |members| ==>
      && members[i].key == batch[i].interruptId
      && members[i].value
         == if i < |handles| && 1 <= handles[i] <= 256 then Handled(handles[i], results[i]) else results[i]
  }

  lemma CarriesShown(batch: seq<ActionRequest>, shown: seq<Value>, results: seq<Value>, handles: seq<nat>)
    requires ShownBy(shown, results, handles) && |results| == |batch|
    ensures Carries(Results(batch, shown), batch, results, handles)
  {
  }

  class Turn {
    const c: Config
    const generation: string
    const journal: J.ActionJournal
    var durable: Option<Saved>
    ghost const start: State
    ghost var steps: seq<Step>
    ghost var state: State

    /** The object is where the protocol's run is. */
    ghost predicate Valid()
      reads this, journal
    {
      && journal.Valid()
      && Reached(c, start, steps, state)
      && state.durable == durable
      && state.slot == J.SlotOf(journal.table, generation)
      && Sound(c.terms.declared, false)
    }

    constructor (context: RuntimeContext, thread: string, routine: bool, maxRounds: nat, record: bool,
                 generation: string, journal: J.ActionJournal)
      requires journal.Valid()
      ensures Valid() && Proper(c) && state.process.Down? && durable.None? && state.events == []
      ensures this.journal == journal && this.generation == generation && c.routine == routine
        && c.maxRounds == maxRounds
      ensures c.context == context && c.thread == thread && c.record == record
    {
      this.c := Config(context, TermsOf(context), thread, routine, maxRounds, record);
      this.generation := generation;
      this.journal := journal;
      this.durable := None;
      this.start := State(J.SlotOf(journal.table, generation), None, Down, []);
      this.steps := [];
      this.state := State(J.SlotOf(journal.table, generation), None, Down, []);
      AdmittedAuthorize(context);
    }

    ghost method Take(step: Step)
      requires Reached(c, start, steps, state) && Enabled(c, state, step)
      modifies this`steps, this`state
      ensures Reached(c, start, steps, state) && state == After(c, old(state), step)
    {
      var longer := steps + [step];
      assert longer[..|longer| - 1] == steps && longer[|longer| - 1] == step;
      state := After(c, state, step);
      steps := longer;
    }

    /** `fail`: the turn stops where it is. */
    ghost method Give()
      requires Valid() && Enabled(c, state, Fail)
      modifies this`steps, this`state
      ensures Valid() && state.process.Failed?
    {
      Take(Fail);
    }

    method Admit(at: Continuation, validate: Validator) returns (r: Result<(seq<ActionRequest>, nat), ChatError>)
      requires Valid() && state.process == Ready(at) && at.turn.status.ActionRequired? && at.roundIndex < c.maxRounds
      modifies this
      ensures Valid() && durable == old(durable)
      ensures r.Ok? <==> Admits(c.terms, at.turn.actions, validate, at.seen, at.fileActions)
      ensures r.Ok? ==>
        && state.process == Offered(at, r.value.0, r.value.1)
        && RoundAdmitted(c.terms, at.turn, at.seen, at.fileActions, r.value.0, r.value.1)
      ensures r.Err? ==> state.process.Failed?
    {
      r := AdmitOn(c.terms, at.turn, validate, at.seen, at.fileActions);
      if r.Ok? {
        Take(TurnProtocol.Admit(r.value.0, r.value.1));
      } else {
        Give();
      }
    }

    /** The journal takes a batch of these interrupts under these fingerprints. */
    ghost predicate Preparable(t: J.Table, requests: seq<ActionRequest>, fingerprints: seq<string>) {
      |fingerprints| == |requests| &&
      var batch := J.Batch(generation, IdentityOf(c.thread, requests, fingerprints));
      && J.Buildable(batch.identity.operations, journal.limits)
      && J.PrepareSlot(J.SlotOf(t, generation), batch.identity, c.routine).Ok?
      && (J.Holding(t, batch) || J.HasRoom(t, generation, c.routine, journal.limits))
    }

    method Prepare(at: Continuation, batch: seq<ActionRequest>, files: nat, fingerprints: seq<string>)
      returns (r: Option<Handle>)
      requires Valid() && state.process == Offered(at, batch, files)
      modifies this, journal
      ensures Valid() && durable == old(durable)
      ensures r.Some? <==> Preparable(old(journal.table), batch, fingerprints)
      ensures r.Some? ==> r.value.batch == batch && state.process == Running(at, r.value, files, [], false)
      ensures r.Some? ==>
        var id := IdentityOf(c.thread, batch, fingerprints);
        var slot := J.PrepareSlot(J.SlotOf(old(journal.table), generation), id, c.routine);
        r.value.identity == id && journal.table == old(journal.table)[generation := slot.value]
      ensures r.None? ==> state.process.Failed? && journal.table == old(journal.table)
    {
      if |fingerprints| != |batch| {
        Give();
        return None;
      }
      var id := IdentityOf(c.thread, batch, fingerprints);
      var prepared := journal.PrepareBatch(J.Batch(generation, id), c.routine);
      if prepared.Err? {
        Give();
        return None;
      }
      Take(TurnProtocol.Prepare(fingerprints));
      return Some(Handle(batch, id));
    }

    /** The journal finds the running batch's next request at its own place. */
    lemma NextPlace()
      requires Valid() && state.process.Running? && |state.process.results| < |state.process.handle.batch|
      ensures
        var p := state.process;
        && TurnSafety.Holds(state.slot, p.handle) && generation in journal.table
        && J.PlaceOf(p.handle.identity.operations, p.handle.batch[|p.results|].interruptId) == |p.results|
        && (p.executing ==> state.slot.value.rows[|p.results|].state.Executing?)
    {
      RunKeeps(c, start, steps, state);
      var p := state.process;
      assert state.slot.value.identity.operations == p.handle.identity.operations;
      J.PlaceUnique(p.handle.identity.operations, p.handle.batch[|p.results|].interruptId, |p.results|);
    }

    /** Runs one prepared request: a kept result replays, anything else is dispatched once and settled. */
    method Invoke(at: Continuation, handle: Handle, files: nat, ghost results: seq<Value>, request: ActionRequest,
                  d: Conduct)
      returns (r: Invocation)
      requires Valid() && state.process == Running(at, handle, files, results, false)
      requires |results| < |handle.batch| && request == handle.batch[|results|]
      modifies this, journal
      ensures Valid() && durable == old(durable)
      ensures Invokes(generation, old(state.process), d, old(journal.table), journal.table, r, state.process)
      ensures
        var dispatches := d.admitted && StateAt(old(journal.table), generation, |results|) == Some(J.Prepared);
        state.events == old(state.events) + if dispatches then Dispatches(request, Traces(at, request.interruptId, d))
                                            else [Invoked(request)]
    {
      ghost var before, p, events := journal.table, state.process, state.events;
      var decision := Open(at, handle, files, results, request, d.admitted);
      ghost var begun := journal.table;
      if decision != Some(J.Execute) {
        r := if decision.Some? then Result(decision.value.result) else Failure;
        OpenedInvokes(generation, p, d, before, begun, journal.table, decision, r, state.process);
        return;
      }
      r := Settle(at, handle, files, results, request, d);
      OpenedInvokes(generation, p, d, before, begun, journal.table, decision, r, state.process);
      DispatchTraced(events, request, Traces(at, request.interruptId, d));
    }

    /** Asks the journal whether one prepared request replays or is dispatched; a refusal fails the turn. */
    method Open(at: Continuation, handle: Handle, files: nat, ghost results: seq<Value>, request: ActionRequest,
                admitted: bool)
      returns (r: Option<J.Execution>)
      requires Valid() && state.process == Running(at, handle, files, results, false)
      requires |results| < |handle.batch| && request == handle.batch[|results|]
      modifies this, journal
      ensures Valid() && durable == old(durable)
      ensures Opens(generation, old(state.process), admitted, old(journal.table), journal.table, r, state.process)
      ensures state.events
        == old(state.events) + if r == Some(J.Execute) then [Invoked(request), Dispatched(request.interruptId)]
                               else [Invoked(request)]
    {
      NextPlace();
      BegunAs(c, state, generation, journal.table);
      if !admitted {
        Take(RefusedInvoke);
        return None;
      }
      var decision := journal.Begin(J.Batch(generation, handle.identity), request.interruptId);
      if decision.Err? {
        Take(RefusedInvoke);
        return None;
      }
      assert decision.value.Replay? ==> journal.table == old(journal.table);
      Take(Begin);
      return Some(decision.value);
    }

    /** Journals what a dispatched attempt came to; what cannot be journaled stays uncertain. */
    method Settle(at: Continuation, handle: Handle, files: nat, ghost results: seq<Value>, request: ActionRequest,
                  d: Conduct)
      returns (r: Invocation)
      requires Valid() && state.process == Running(at, handle, files, results, true)
      requires |results| < |handle.batch| && request == handle.batch[|results|]
      modifies this, journal
      ensures Valid() && durable == old(durable)
      ensures Settles(generation, old(state.process), d, 0, old(journal.table), journal.table, r, state.process)
      ensures Unknown(d) ==> journal.table == old(journal.table)
      ensures state.events == old(state.events) + Traces(at, request.interruptId, d)
    {
      assert state.events + [] == state.events;
      if !d.writes || d.attempt.Lost? || d.attempt == Failing(false) {
        Leave(handle);
        return Failure;
      }
      if d.attempt.Finished? {
        var kept := Keep(handle, request, d.attempt.result);
        r := if kept then Result(d.attempt.result) else Failure;
      } else if d.attempt.Failing? {
        Without(handle, request);
        r := Failure;
      } else {
        var asks := d.attempt.Request? && !d.stopped;
        Return(handle, request, asks);
        r := if asks then Asks else Failure;
      }
    }

    /** The attempt's row stays as it is, executing. */
    ghost method Leave(handle: Handle)
      requires Valid() && state.process.Running? && state.process.executing && state.process.handle == handle
      requires |state.process.results| < |handle.batch|
      modifies this`steps, this`state
      ensures Valid() && state.events == old(state.events) && state.process == Failed(Some(handle), true)
      ensures Rewrote(journal.table, journal.table, generation, |old(state.process.results)|, J.Executing, 0)
    {
      NextPlace();
      SameRow(journal.table, generation, |state.process.results|);
      Take(Lose);
    }

    method Keep(handle: Handle, request: ActionRequest, result: Value) returns (kept: bool)
      requires Valid() && state.process.Running? && state.process.executing && state.process.handle == handle
      requires |state.process.results| < |handle.batch| && request == handle.batch[|state.process.results|]
      modifies this, journal
      ensures Valid() && durable == old(durable) && state.events == old(state.events)
      ensures kept <==> ActionResult.Durable(result)
      ensures
        var p := old(state.process);
        if kept then
          && state.process == p.(results := p.results + [result], executing := false)
          && Rewrote(old(journal.table), journal.table, generation, |p.results|, J.Completed(result), 0)
        else
          && state.process == Failed(Some(handle), true) && journal.table == old(journal.table)
          && Rewrote(old(journal.table), journal.table, generation, |p.results|, J.Executing, 0)
    {
      NextPlace();
      var settled := journal.Settle(J.Batch(generation, handle.identity), request.interruptId, J.Completed(result));
      kept := settled.Ok?;
      if kept {
        Take(TurnProtocol.Complete(result));
      } else {
        Leave(handle);
      }
    }

    method Without(handle: Handle, request: ActionRequest)
      requires Valid() && state.process.Running? && state.process.executing && state.process.handle == handle
      requires |state.process.results| < |handle.batch| && request == handle.batch[|state.process.results|]
      modifies this, journal
      ensures Valid() && durable == old(durable) && state.events == old(state.events)
      ensures state.process == Failed(Some(handle), false)
      ensures Rewrote(old(journal.table), journal.table, generation, |old(state.process.results)|, J.NoEffect, 0)
    {
      NextPlace();
      var _ := journal.Settle(J.Batch(generation, handle.identity), request.interruptId, J.NoEffect);
      Take(HandledWithoutEffect);
    }

    method Return(handle: Handle, request: ActionRequest, asks: bool)
      requires Valid() && state.process.Running? && state.process.executing && state.process.handle == handle
      requires |state.process.results| < |handle.batch| && request == handle.batch[|state.process.results|]
      modifies this, journal
      ensures Valid() && durable == old(durable)
      ensures Rewrote(old(journal.table), journal.table, generation, |old(state.process.results)|, J.Prepared, 0)
      ensures
        if asks then
          && state.process.Down?
          && state.events == old(state.events) + [Reprepared(request.interruptId),
                                                  HumanPaused(old(state.process.at), request.interruptId)]
        else
          && state.process == Failed(Some(handle), false)
          && state.events == old(state.events) + [Reprepared(request.interruptId)]
    {
      NextPlace();
      var _ := journal.Reprepare(J.Batch(generation, handle.identity), request.interruptId);
      if asks {
        Take(AskPerson);
      } else {
        Take(NotDispatched);
      }
    }

    /** Invokes request after request until all have results, or one asks a person or fails: exactly as the journal's
        rows and what happens around each request say. */
    method RunBatch(at: Continuation, handle: Handle, files: nat, conduct: nat -> Conduct) returns (r: Ran)
      requires Valid() && state.process == Running(at, handle, files, [], false)
      modifies this, journal
      ensures Valid() && durable == old(durable)
      ensures Ends(generation, conduct, |handle.batch|, old(journal.table), journal.table, r)
      ensures r.Done? ==>
        state.process == Running(at, handle, files, r.results, false) && r.invoked == Recorded(c.record, handle.batch)
      ensures r.PausedForPerson? ==> Ended(Human(at))
      ensures r.Broken? ==> state.process.Failed?
    {
      ghost var before := journal.table;
      var results: seq<Value> := [];
      var invoked: seq<InvokedAction> := [];
      while |results| < |handle.batch|
        invariant Valid() && durable == old(durable)
        invariant |results| <= |handle.batch| && state.process == Running(at, handle, files, results, false)
        invariant invoked == Recorded(c.record, handle.batch[..|results|])
        invariant SameFrom(before, journal.table, generation, |results|)
        invariant Went(generation, conduct, before, results)
      {
        var k := |results|;
        var outcome := Advance(at, handle, files, results, conduct, before);
        if outcome.Asks? {
          return PausedForPerson;
        }
        if outcome.Failure? {
          return Broken(k);
        }
        RecordedLonger(c.record, handle.batch, k);
        results, invoked := results + [outcome.value], invoked + Recorded(c.record, [handle.batch[k]]);
      }
      assert handle.batch[..|handle.batch|] == handle.batch;
      return Done(results, invoked);
    }

    /** One request of the batch, between the checks before and after it. */
    method Advance(at: Continuation, handle: Handle, files: nat, results: seq<Value>, conduct: nat -> Conduct,
                   ghost before: J.Table)
      returns (r: Invocation)
      requires Valid() && state.process == Running(at, handle, files, results, false) && |results| < |handle.batch|
      requires Went(generation, conduct, before, results)
      requires SameFrom(before, journal.table, generation, |results|)
      modifies this, journal
      ensures Valid() && durable == old(durable)
      ensures r.Result? ==>
        && state.process == Running(at, handle, files, results + [r.value], false)
        && Went(generation, conduct, before, results + [r.value])
        && SameFrom(before, journal.table, generation, |results| + 1)
      ensures r.Asks? ==>
        Ended(Human(at)) && Ends(generation, conduct, |handle.batch|, before, journal.table, PausedForPerson)
      ensures r.Failure? ==>
        && state.process.Failed?
        && Ends(generation, conduct, |handle.batch|, before, journal.table, Broken(|results|))
    {
      var d := conduct(|results|);
      ghost var table, p, events := journal.table, state.process, state.events;
      if !d.current {
        Give();
        r := Failure;
      } else {
        r := Invoke(at, handle, files, results, handle.batch[|results|], d);
        InvokedRow(generation, p, d, table, journal.table, r, state.process);
        LastAsked(events, handle.batch[|results|], at, d);
        if r.Result? && d.stopped {
          Give();
          r := Failure;
        }
      }
      WentOn(generation, conduct, |handle.batch|, before, table, journal.table, results, r);
    }

    /** Chooses a form of each result; `handles` gives the number of each traced call. */
    static method Show(results: seq<Value>, handles: seq<nat>) returns (shown: seq<Value>)
      ensures ShownAll(shown, results) && ShownBy(shown, results, handles)
    {
      shown := [];
      for i := 0 to |results|
        invariant |shown| == i && forall j :: 0 <= j < i ==> Shown(shown[j], results[j])
        invariant ShownBy(shown, results[..i], handles)
      {
        var traced := i < |handles| && 1 <= handles[i] <= 256;
        shown := shown + [if traced then Handled(handles[i], results[i]) else results[i]];
      }
    }

    /** The resume step with the batch's results; exactly an answer that repeats no seen interrupt goes on. */
    method Deliver(at: Continuation, handle: Handle, files: nat, results: seq<Value>, handles: seq<nat>,
                   answer: Option<RuntimeTurn>)
      returns (ok: bool)
      requires Valid() && state.process == Running(at, handle, files, results, false) && |results| == |handle.batch|
      modifies this
      ensures Valid() && durable == old(durable)
      ensures ok <==> Answers(answer, at.seen + InterruptsOf(handle.batch))
      ensures ok ==> state.process == Answered(Advanced(c, at, handle.batch, files, answer.value), Some(handle))
      ensures !ok ==> state.process.Failed?
      ensures exists resumed ::
        Carries(resumed, handle.batch, results, handles) && state.events == old(state.events) + [Resumed(resumed)]
    {
      var shown := Show(results, handles);
      CarriesShown(handle.batch, shown, results, handles);
      if answer.None? || !SafeTurn(answer.value) || Repeats(answer.value, at.seen + InterruptsOf(handle.batch)) {
        Take(RefusedResume(shown));
        return false;
      }
      Take(Resume(answer.value, shown));
      return true;
    }

    /** The checkpoint step and then the acknowledgement, each of which may fail; all receipts are complete by then. */
    method Delivered(next: Continuation, handle: Handle, written: bool, acknowledged: bool) returns (ok: bool)
      requires Valid() && state.process == Answered(next, Some(handle))
      requires J.DeliveredSlot(state.slot, handle.identity).Ok?
      modifies this, journal
      ensures Valid() && (ok <==> written && acknowledged)
      ensures durable == if written then Some(Saved(next, handle.batch)) else old(durable)
      ensures journal.table == if ok then J.With(old(journal.table), generation, None) else old(journal.table)
      ensures if ok then state.process == Ready(next) else state.process.Failed?
    {
      if !written {
        Give();
        return false;
      }
      durable := Some(Saved(next, handle.batch));
      Take(Checkpoint);
      if !acknowledged {
        Give();
        return false;
      }
      var _ := journal.Delivered(J.Batch(generation, handle.identity));
      Take(Acknowledge);
      return true;
    }

    /** One iteration of the loop for a turn that asks for Actions: from ready at one continuation to ready at the
        next. */
    method Round(at: Continuation, validate: Validator, w: World) returns (r: Result<Continuation, Outcome>)
      requires Valid() && state.process == Ready(at) && at.turn.status.ActionRequired? && at.roundIndex < c.maxRounds
      modifies this, journal
      ensures Valid()
      ensures r.Ok? ==>
        && state.process == Ready(r.value) && r.value.roundIndex == at.roundIndex + 1
        && w.answer == Some(r.value.turn) && r.value.seen == at.seen + InterruptsOf(at.turn.actions)
      ensures r.Err? ==> Ended(r.error) && Explained(r.error, at, validate, w)
    {
      var admitted := Admit(at, validate);
      if admitted.Err? {
        return Err(Unfinished(at, NotAdmitted));
      }
      var (batch, files) := admitted.value;
      AdmittedKeys(at.turn.actions, c.terms.declared, c.terms.capacity, c.terms.selected, batch);
      if w.pause {
        Take(Pause);
        return Err(Suspended(at));
      }
      SameIdentity(c.thread, at.turn.actions, batch, w.fingerprints);
      var prepared := Prepare(at, batch, files, w.fingerprints);
      if prepared.None? {
        return Err(Unfinished(at, NotPrepared));
      }
      r := Work(at, prepared.value, files, w);
    }

    /** The part of a round after its batch is prepared. */
    method Work(at: Continuation, handle: Handle, files: nat, w: World) returns (r: Result<Continuation, Outcome>)
      requires Valid() && state.process == Running(at, handle, files, [], false)
      modifies this, journal
      ensures Valid()
      ensures r.Ok? ==>
        && state.process == Ready(r.value) && r.value.roundIndex == at.roundIndex + 1
        && w.answer == Some(r.value.turn) && r.value.seen == at.seen + InterruptsOf(handle.batch)
      ensures r.Err? ==> Ended(r.error) && Stopped(r.error, at, handle.batch, w)
    {
      var ran := RunBatch(at, handle, files, w.conduct);
      if ran.PausedForPerson? {
        return Err(Human(at));
      }
      if ran.Broken? {
        return Err(Unfinished(at, NotRun(ran.place)));
      }
      AllKept();
      var answered := Deliver(at, handle, files, ran.results, w.handles, w.answer);
      if !answered {
        return Err(Unfinished(at, NotAnswered));
      }
      var next := Continuation(w.answer.value, at.seen + InterruptsOf(handle.batch), at.invoked + ran.invoked,
                               at.roundIndex + 1, files);
      var ok := Delivered(next, handle, w.written, w.acknowledged);
      return if ok then Ok(next) else Err(Unfinished(at, if w.written then NotAcknowledged else NotWritten));
    }

    /** A batch that ran to its end may be acknowledged. */
    lemma AllKept()
      requires Valid() && state.process.Running? && |state.process.results| == |state.process.handle.batch|
      ensures J.DeliveredSlot(state.slot, state.process.handle.identity).Ok?
    {
      RunKeeps(c, start, steps, state);
    }

    /** The Browser step and its checkpoint; the answer must complete the turn and carry nothing else. */
    method Browser(at: Continuation, w: World) returns (r: Result<Continuation, Cause>)
      requires Valid() && state.process == Ready(at) && at.turn.status.BrowserRequired? && at.roundIndex <= c.maxRounds
      modifies this
      ensures Valid()
      ensures r.Ok? ==>
        && w.task.Some? && w.plain.Some? && r.value == at.(turn := w.plain.value) && state.process == Ready(r.value)
        && r.value.turn.status.Completed? && r.value.turn.clarification.None?
      ensures r.Err? ==> state.process.Failed? && durable == old(durable) && Unbrowsed(r.error, at, w)
    {
      if at.turn.browser.None? || !c.context.browser || c.context.attachments != [] || w.task.None? {
        Give();
        return Err(NotOffered);
      }
      if w.plain.None? || !SafeTurn(w.plain.value) {
        Give();
        return Err(NotAnswered);
      }
      var turn := w.plain.value;
      if !turn.status.Completed? || turn.memory != [] || !turn.routine.None? || !turn.clarification.None? {
        Give();
        return Err(NotPlain);
      }
      Take(AnswerBrowser(turn));
      if !w.kept {
        Give();
        return Err(NotWritten);
      }
      durable := Some(Saved(at.(turn := turn), []));
      Take(Checkpoint);
      return Ok(at.(turn := turn));
    }

    /** Ends a completed turn: what it answers is all of the Brain's last turn and what the turn invoked. */
    method Complete(at: Continuation, browser: Option<Value>, confirmed: bool) returns (r: Outcome)
      requires Valid() && state.process == Ready(at) && at.turn.status.Completed? && at.roundIndex <= c.maxRounds
      modifies this
      ensures Valid() && Ended(r) && durable == old(durable)
      ensures
        r == if at.turn.clarification.Some? && (at.roundIndex > 0 || at.invoked != []) then Unfinished(at, LateQuestion)
             else if !confirmed then Unfinished(at, NotCurrent)
             else Outcome.Completed(at, ReplyOf(at, browser))
    {
      if at.turn.clarification.Some? && (at.roundIndex > 0 || at.invoked != []) {
        Give();
        return Unfinished(at, LateQuestion);
      }
      if !confirmed {
        Give();
        return Unfinished(at, NotCurrent);
      }
      Take(Finish);
      return Outcome.Completed(at, ReplyOf(at, browser));
    }

    /** The drive loop: rounds until the turn completes, pauses or fails; whatever it ends in has its cause in the round
        it ended in. */
    method Drive(continuation: Continuation, validate: Validator, world: nat -> World) returns (r: Outcome)
      requires Valid() && state.process == Ready(continuation)
      modifies this, journal
      ensures Valid() && Ended(r) && !r.NotStarted?
      ensures continuation.roundIndex <= r.at.roundIndex
      ensures r.Completed? || r.Suspended? || r.Human? ==> r.at.roundIndex <= c.maxRounds
      ensures r.Completed? ==>
        var w := world(r.at.roundIndex);
        && w.current && w.confirmed && r.at.turn.status.Completed? && r.reply == ReplyOf(r.at, r.reply.browser)
        && (r.reply.browser.Some? ==> r.reply.browser == w.task && w.plain == Some(r.at.turn))
      ensures !r.Completed? ==> Explained(r, r.at, validate, world(r.at.roundIndex))
    {
      var standing := continuation;
      while standing.roundIndex <= c.maxRounds
        invariant Valid() && state.process == Ready(standing) && continuation.roundIndex <= standing.roundIndex
        decreases c.maxRounds - standing.roundIndex
      {
        var w := world(standing.roundIndex);
        if !w.current {
          Give();
          return Unfinished(standing, NotCurrent);
        }
        var browser: Option<Value> := None;
        if standing.turn.status.BrowserRequired? {
          var replied := Browser(standing, w);
          if replied.Err? {
            return Unfinished(standing, replied.error);
          }
          standing, browser := replied.value, w.task;
        }
        if standing.turn.status.Completed? {
          r := Complete(standing, browser, w.confirmed);
          return;
        }
        if standing.roundIndex == c.maxRounds {
          Give();
          return Unfinished(standing, RoundLimit);
        }
        var next := Round(standing, validate, w);
        if next.Err? {
          return next.error;
        }
        standing := next.value;
      }
      Give();
      return Unfinished(standing, RoundLimit);
    }

    /** A run from the first checkpoint on. */
    method RunUntilPause(first: Option<RuntimeTurn>, written: bool, validate: Validator, world: nat -> World)
      returns (r: Outcome)
      requires Valid() && state.process.Down? && durable.None? && state.events == []
      modifies this, journal
      ensures Valid()
      ensures r.NotStarted? <==> !(first.Some? && SafeTurn(first.value) && written)
      ensures r.NotStarted? ==> durable.None? && state == old(state)
      ensures !r.NotStarted? ==> Ended(r) && (r.Completed? || Explained(r, r.at, validate, world(r.at.roundIndex)))
    {
      if first.None? || !SafeTurn(first.value) || !written {
        return NotStarted;
      }
      var continuation := Continuation(first.value, {}, [], 0, 0);
      durable := Some(Saved(continuation, []));
      Take(Start(first.value));
      r := Drive(continuation, validate, world);
    }

    /** Continues a turn a previous process left at its checkpoint, after a crash or a pause. */
    method Continue(afterCrash: bool, settles: bool, validate: Validator, world: nat -> World) returns (r: Outcome)
      requires Valid() && state.process.Down? && durable.Some?
      modifies this, journal
      ensures Valid() && Ended(r) && !r.NotStarted?
      ensures old(durable.value.continuation).roundIndex <= r.at.roundIndex
      ensures
        var saved := old(durable.value);
        if afterCrash && saved.undelivered != [] && !settles
        then r == Unfinished(saved.continuation, NotAcknowledged) && journal.table == old(journal.table)
        else r.Completed? || Explained(r, r.at, validate, world(r.at.roundIndex))
    {
      var saved := durable.value;
      Take(Restart(afterCrash));
      if afterCrash && saved.undelivered != [] {
        if !settles {
          Give();
          return Unfinished(saved.continuation, NotAcknowledged);
        }
        journal.EndSettled(generation);
        Take(SettleUndelivered);
      }
      r := Drive(saved.continuation, validate, world);
    }

    // ----- Why a turn ended --------------------------------------------------------------------------------------

    /** The Browser step could not be taken for this cause. */
    ghost predicate Unbrowsed(cause: Cause, at: Continuation, w: World) {
      match cause
      case NotOffered =>
        at.turn.browser.None? || !c.context.browser || c.context.attachments != [] || w.task.None?
      case NotAnswered => w.plain.None? || !SafeTurn(w.plain.value)
      case NotPlain =>
        && w.plain.Some?
        && var turn := w.plain.value;
           !turn.status.Completed? || turn.memory != [] || turn.routine.Some? || turn.clarification.Some?
      case NotWritten => !w.kept
      case _ => false
    }

    /** The rest of a round, once its batch was prepared, ended so for a cause in the round and the journal. */
    ghost predicate Stopped(o: Outcome, at: Continuation, batch: seq<ActionRequest>, w: World)
      reads this, journal
    {
      match o
      case Human(where) =>
        && where == at && exists k ::
             0 <= k < |batch| && w.conduct(k).attempt.Request? && w.conduct(k).writes
             && StateAt(journal.table, generation, k) == Some(J.Prepared)
      case Unfinished(where, cause) =>
        && where == at
        && (match cause
            case NotRun(k) => k < |batch| && Breaks(w.conduct(k), StateAt(journal.table, generation, k))
            case NotAnswered => !Answers(w.answer, at.seen + InterruptsOf(batch))
            case NotWritten => !w.written
            case NotAcknowledged => !w.acknowledged
            case _ => false)
      case _ => false
    }

    /** A turn that did not complete ended at this continuation for a cause in its round, its terms or the journal. */
    ghost predicate Explained(o: Outcome, at: Continuation, validate: Validator, w: World)
      reads this, journal
    {
      var admits := Admits(c.terms, at.turn.actions, validate, at.seen, at.fileActions);
      match o
      case Suspended(where) => where == at && w.pause && admits
      case Unfinished(where, NotCurrent) => where == at && (!w.current || !w.confirmed)
      case Unfinished(where, NotAdmitted) => where == at && !admits
      case Unfinished(where, NotPrepared) =>
        where == at && !w.pause && !Preparable(journal.table, at.turn.actions, w.fingerprints)
      case Unfinished(where, RoundLimit) =>
        where == at && (at.roundIndex > c.maxRounds || (at.roundIndex == c.maxRounds && !at.turn.status.Completed?))
      case Unfinished(where, LateQuestion) =>
        where == at && at.turn.clarification.Some? && (at.roundIndex > 0 || at.invoked != [])
      case Unfinished(where, cause) =>
        where == at && if at.turn.status.BrowserRequired? then Unbrowsed(cause, at, w)
                       else admits && Stopped(o, at, at.turn.actions, w)
      case Human(where) => where == at && admits && Stopped(o, at, at.turn.actions, w)
      case _ => false
    }

    /** What terminating finds in the journal, and where the run goes. */
    lemma TerminatesAs(held: Option<Handle>, uncertain: bool)
      requires Valid() && state.process == Failed(held, uncertain)
      ensures
        var s, t := state, Terminated(c, state);
        && t.durable == s.durable && t.process.Ending?
        && (held.None? || (uncertain && c.routine) ==> t.slot == s.slot && t.events == s.events)
        && (held.Some? && uncertain && !c.routine ==>
              && J.AbandonSlot(s.slot, held.value.identity) == Ok((None, true))
              && t.slot == None && t.events == s.events + [Abandoned(held.value.batch)])
        && (held.Some? && !uncertain ==>
              var e := J.EndSlot(s.slot, held.value.identity); t.slot == if e.Ok? then e.value.0 else s.slot)
    {
      RunKeeps(c, start, steps, state);
    }

    /** Ends a failed turn's batch: a Routine run's uncertain outcome stays, a chat's is abandoned, any other ends. */
    method Terminate(held: Option<Handle>, uncertain: bool)
      requires Valid() && state.process == Failed(held, uncertain)
      modifies this, journal
      ensures Valid() && state.process.Ending? && durable == old(durable)
      ensures held.None? || (uncertain && c.routine) ==>
        journal.table == old(journal.table) && state.events == old(state.events)
      ensures held.Some? && uncertain && !c.routine ==>
        && journal.table == J.With(old(journal.table), generation, None)
        && state.events == old(state.events) + [Abandoned(held.value.batch)]
      ensures held.Some? && !uncertain ==> EndsOnly(old(journal.table), journal.table, generation, held.value.identity)
    {
      TerminatesAs(held, uncertain);
      if held.Some? && !(uncertain && c.routine) {
        var batch := J.Batch(generation, held.value.identity);
        if uncertain {
          var _ := journal.AbandonUncertain(batch);
        } else {
          var _ := journal.End(batch);
        }
      }
      Take(TurnProtocol.Terminate);
    }

    /** The process is gone; what is durable stays. */
    method Crash()
      requires Valid()
      modifies this`steps, this`state
      ensures Valid() && state == old(state).(process := Down)
    {
      Take(TurnProtocol.Crash);
    }

    /** The turn's end is durable. */
    method End()
      requires Valid() && state.process.Ending?
      modifies this
      ensures Valid() && durable.None? && state == old(state).(durable := None, process := Down)
    {
      durable := None;
      Take(TurnProtocol.End);
    }

    /** Whether the process stands where this outcome leaves it. */
    ghost predicate Ended(o: Outcome)
      reads this
    {
      match o
      case Completed(at, _) =>
        state.process.Ending? && state.events != [] && state.events[|state.events| - 1] == TurnCompleted(at)
      case Suspended(at) => state.process.Down? && state.events != [] && state.events[|state.events| - 1] == Paused(at)
      case Human(at) =>
        && state.process.Down? && state.events != []
        && state.events[|state.events| - 1].HumanPaused? && state.events[|state.events| - 1].at == at
      case Unfinished(_, _) => state.process.Failed?
      case NotStarted => state.process.Down?
    }
  }
}
