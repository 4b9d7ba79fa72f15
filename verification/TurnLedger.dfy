/**
 What a turn's continuations account for: every one it emits counts exactly the batches delivered before it, every
 invoked Action is a declared one, and every resume with a batch's results fits the Brain's request.
 */
module TurnLedger {
  import opened Basics
  import opened Json
  import opened Runtime
  import opened TurnCodec
  import opened Admission
  import opened TurnProtocol
  import ActionResult
  import J = Journal

  // ----- What one event may be -------------------------------------------------------------------------------------

  ghost function Flat(batches: seq<seq<ActionRequest>>): seq<ActionRequest> {
    if batches == [] then [] else Flat(batches[..|batches| - 1]) + batches[|batches| - 1]
  }

  /** A continuation that accounts for exactly these delivered batches. */
  ghost predicate Accounts(c: Config, at: Continuation, batches: seq<seq<ActionRequest>>) {
    && at.roundIndex == |batches| && at.roundIndex <= c.maxRounds
    && at.seen == InterruptsOf(Flat(batches))
    && at.fileActions == Taking(c.terms.declared, Flat(batches)) && at.fileActions <= MAX_FILE_ACTIONS_PER_TURN
    && at.invoked == if c.record then InvokedOf(Flat(batches)) else []
  }

  /** The continuation an event hands out: a checkpoint's, a pause's or the completed turn's. */
  function Emitted(e: Event): Option<Continuation> {
    match e
    case Checkpointed(saved) => Some(saved.continuation)
    case Paused(at) => Some(at)
    case HumanPaused(at, _) => Some(at)
    case TurnCompleted(at) => Some(at)
    case _ => None
  }

  /** A declared Action, and an authorizing one while attachment content is readable. */
  ghost predicate MayInvoke(terms: Terms, request: ActionRequest) {
    Key(request) in terms.declared && (terms.restricted ==> terms.declared[Key(request)].authorization)
  }

  /** Within the resume's capacity, every result is a kept one as the Brain is shown it. */
  ghost predicate Within(terms: Terms, results: seq<Member>) {
    0 < |results| <= terms.capacity && exists kept :: ResumeResults(results, kept)
  }

  /** The batches a checkpoint holds the results of, the continuation of the last one, and whether every event so far
      was allowed. */
  datatype Ledger = Ledger(batches: seq<seq<ActionRequest>>, at: Option<Continuation>, allowed: bool)

  /** What an event must be, given the batches checkpointed up to and with it and where the last checkpoint stands. */
  ghost predicate Allowed(c: Config, e: Event, l: Ledger) {
    && (Emitted(e).Some? ==> Accounts(c, Emitted(e).value, l.batches))
    && (e.Admitted? ==> l.at.Some? && exists files :: RoundOf(c, l.at.value, e.batch, files))
    && (e.Invoked? ==> MayInvoke(c.terms, e.request))
    && (e.Resumed? ==> Within(c.terms, e.results))
    && (e.TurnCompleted? && e.at.turn.clarification.Some? ==> l.batches == [])
  }

  ghost function Entered(c: Config, l: Ledger, e: Event): Ledger {
    var batches := if e.Checkpointed? && e.saved.undelivered != [] then l.batches + [e.saved.undelivered]
                   else l.batches;
    var at := if e.Checkpointed? then Some(e.saved.continuation) else l.at;
    var after := Ledger(batches, at, l.allowed);
    after.(allowed := l.allowed && Allowed(c, e, after))
  }

  ghost function Kept(c: Config, events: seq<Event>): Ledger {
    if events == [] then Ledger([], None, true) else Entered(c, Kept(c, events[..|events| - 1]), events[|events| - 1])
  }

  lemma {:induction false} EnteredLast(c: Config, events: seq<Event>, e: Event)
    ensures Kept(c, events + [e]) == Entered(c, Kept(c, events), e)
  {
    assert (events + [e])[..|events|] == events;
  }

  /** Every event of an allowed trace was allowed when it happened. */
  lemma {:induction false} AllowedAt(c: Config, events: seq<Event>, j: nat)
    requires j < |events| && Kept(c, events).allowed
    ensures Allowed(c, events[j], Kept(c, events[..j + 1]))
    decreases |events|
  {
    if j == |events| - 1 {
      assert events[..j + 1] == events;
    } else {
      var before := events[..|events| - 1];
      AllowedAt(c, before, j);
      assert before[..j + 1] == events[..j + 1];
    }
  }

  // ----- Admitted rounds -------------------------------------------------------------------------------------------

  /** An admitted round of a continuation. */
  ghost predicate RoundOf(c: Config, at: Continuation, batch: seq<ActionRequest>, files: nat) {
    && at.turn.status.ActionRequired? && at.roundIndex < c.maxRounds
    && RoundAdmitted(c.terms, at.turn, at.seen, at.fileActions, batch, files)
  }

  /** What an admitted round's batch is: new, distinct, declared, within the resume capacity. */
  lemma RoundFacts(c: Config, at: Continuation, batch: seq<ActionRequest>, files: nat)
    requires RoundOf(c, at, batch, files) && Sound(c.terms.declared, c.terms.restricted)
    ensures InterruptsOf(batch) == InterruptsOf(at.turn.actions) && DistinctRequests(batch)
    ensures InterruptsOf(batch) !! at.seen
    ensures 0 < |batch| == |at.turn.actions| <= c.terms.capacity
    ensures forall i :: 0 <= i < |batch| ==> batch[i].interruptId == at.turn.actions[i].interruptId
    ensures forall i :: 0 <= i < |batch| ==> MayInvoke(c.terms, batch[i])
    ensures files == at.fileActions + Taking(c.terms.declared, batch) <= MAX_FILE_ACTIONS_PER_TURN
  {
    var declared := c.terms.declared;
    AdmittedKeys(at.turn.actions, declared, c.terms.capacity,
                 c.terms.selected, batch);
    forall i | 0 <= i < |batch|
      ensures batch[i].interruptId == at.turn.actions[i].interruptId && Key(batch[i]) in declared
    {
      assert RequestAdmitted(at.turn.actions[i], declared, c.terms.selected, batch[i]);
    }
  }

  lemma {:induction false} TakingConcat(declared: Declared, a: seq<ActionRequest>, b: seq<ActionRequest>)
    ensures Taking(declared, a + b) == Taking(declared, a) + Taking(declared, b)
    decreases |b|
  {
    if b == [] {
      assert a + b == a;
    } else {
      assert (a + b)[..|a + b| - 1] == a + b[..|b| - 1];
      TakingConcat(declared, a, b[..|b| - 1]);
    }
  }

  lemma InterruptsConcat(a: seq<ActionRequest>, b: seq<ActionRequest>)
    ensures InterruptsOf(a + b) == InterruptsOf(a) + InterruptsOf(b)
  {
    forall x | x in InterruptsOf(a) ensures x in InterruptsOf(a + b) {
      var i :| 0 <= i < |a| && a[i].interruptId == x;
      assert (a + b)[i].interruptId == x;
    }
    forall x | x in InterruptsOf(b) ensures x in InterruptsOf(a + b) {
      var i :| 0 <= i < |b| && b[i].interruptId == x;
      assert (a + b)[|a| + i].interruptId == x;
    }
  }

  lemma InvokedConcat(a: seq<ActionRequest>, b: seq<ActionRequest>)
    ensures InvokedOf(a + b) == InvokedOf(a) + InvokedOf(b)
  {
  }

  /** The continuation after a delivered round accounts for one batch more. */
  lemma AdvancedAccounts(c: Config, at: Continuation, batches: seq<seq<ActionRequest>>, batch: seq<ActionRequest>,
                         files: nat, turn: RuntimeTurn)
    requires Accounts(c, at, batches) && RoundOf(c, at, batch, files)
    ensures Accounts(c, Advanced(c, at, batch, files, turn), batches + [batch])
  {
    var all := batches + [batch];
    assert all[..|all| - 1] == batches;
    assert Flat(all) == Flat(batches) + batch;
    TakingConcat(c.terms.declared, Flat(batches), batch);
    InterruptsConcat(Flat(batches), batch);
    InvokedConcat(Flat(batches), batch);
  }

  /** An admitted batch's results are within one resume. */
  lemma RoundWithin(c: Config, at: Continuation, batch: seq<ActionRequest>, files: nat, results: seq<Value>,
                    shown: seq<Value>)
    requires RoundOf(c, at, batch, files) && SafeTurn(at.turn) && Sound(c.terms.declared, c.terms.restricted)
    requires |results| == |batch| && ShownAll(shown, results)
    requires forall i :: 0 <= i < |results| ==> ActionResult.Durable(results[i])
    ensures Within(c.terms, Results(batch, shown))
  {
    RoundFacts(c, at, batch, files);
    var members := Results(batch, shown);
    forall i | 0 <= i < |members| ensures ResumeResult(members[i], results[i]) {
      assert SafeId(at.turn.actions[i].interruptId);
      assert Shown(shown[i], results[i]);
    }
    assert ResumeResults(members, results);
  }

  // ----- The invariant ---------------------------------------------------------------------------------------------

  datatype Book = Book(slot: J.Slot, durable: Option<Saved>, process: Process, ledger: Ledger)

  ghost function BookOf(c: Config, s: State): Book { Book(s.slot, s.durable, s.process, Kept(c, s.events)) }

  ghost predicate Standing(b: Book, at: Continuation) { b.durable.Some? && b.durable.value.continuation == at }

  /** The process stands at the durable continuation with an admitted round of it. */
  ghost predicate ProcessInv(c: Config, b: Book) {
    match b.process
    case Down => true
    case Restarting(saved) => b.durable == Some(saved)
    case Ready(at) => Standing(b, at)
    case Offered(at, batch, files) => Standing(b, at) && RoundOf(c, at, batch, files)
    case Running(at, handle, files, results, _) =>
      && Standing(b, at) && RoundOf(c, at, handle.batch, files)
      && forall i :: 0 <= i < |results| ==> ActionResult.Durable(results[i])
    case Answered(next, held) =>
      && b.durable.Some? && SafeTurn(next.turn)
      && var at := b.durable.value.continuation;
         if held.None? then
           next == at.(turn := next.turn)
         else
           && RoundOf(c, at, held.value.batch, next.fileActions)
           && next == Advanced(c, at, held.value.batch, next.fileActions, next.turn)
    case Delivering(next, handle) => Standing(b, next)
    case Failed(held, uncertain) =>
      uncertain ==>
        && b.durable.Some? && held.Some?
        && exists files :: RoundOf(c, b.durable.value.continuation, held.value.batch, files)
    case Ending => true
  }

  ghost predicate Inv(c: Config, b: Book) {
    && Sound(c.terms.declared, c.terms.restricted)
    && J.WellFormedSlot(b.slot) && ProcessInv(c, b) && b.ledger.allowed
    && (b.durable.Some? ==>
          b.ledger.at == Some(b.durable.value.continuation) &&
          Accounts(c, b.durable.value.continuation, b.ledger.batches) && SafeTurn(b.durable.value.continuation.turn))
  }

  // ----- Every step keeps it ---------------------------------------------------------------------------------------

  /** An event that emits, admits, invokes and resumes nothing. */
  predicate Quiet(e: Event) { Emitted(e).None? && !e.Admitted? && !e.Invoked? && !e.Resumed? }

  lemma QuietEntry(c: Config, l: Ledger, e: Event)
    requires Quiet(e)
    ensures Entered(c, l, e) == l
  {
  }

  /** An admitted batch is a round of the durable continuation. */
  lemma AdmittedEntry(c: Config, b: Book, batch: seq<ActionRequest>, files: nat)
    requires Inv(c, b) && b.process.Ready? && RoundOf(c, b.process.at, batch, files)
    ensures Entered(c, b.ledger, Admitted(batch)) == b.ledger
  {
  }

  /** Emitting the durable continuation changes nothing. */
  lemma EmittedEntry(c: Config, b: Book, e: Event)
    requires Inv(c, b) && (e.Paused? || e.HumanPaused? || e.TurnCompleted?) && Standing(b, e.at)
    requires e.TurnCompleted? && e.at.turn.clarification.Some? ==> e.at.roundIndex == 0
    ensures Entered(c, b.ledger, e) == b.ledger
  {
  }

  /** Two events that change nothing. */
  lemma KeptTwo(c: Config, l: Ledger, events: seq<Event>, first: Event, second: Event)
    requires l == Kept(c, events) && Entered(c, l, first) == l && Entered(c, l, second) == l
    ensures Kept(c, events + [first]) == l && Kept(c, events + [first, second]) == l
  {
    EnteredLast(c, events, first);
    EnteredLast(c, events + [first], second);
    assert events + [first, second] == events + [first] + [second];
  }

  lemma InvokedEntry(c: Config, b: Book, k: nat)
    requires Inv(c, b) && b.process.Running? && k < |b.process.handle.batch|
    ensures Entered(c, b.ledger, Invoked(b.process.handle.batch[k])) == b.ledger
  {
    RoundFacts(c, b.process.at, b.process.handle.batch, b.process.files);
  }

  /** An operation returned to `prepared`, alone or before the pause for a person. */
  lemma {:induction false} RepreparedEntries(c: Config, b: Book, events: seq<Event>, x: string)
    requires Inv(c, b) && b.ledger == Kept(c, events) && b.process.Running?
    ensures Kept(c, events + [Reprepared(x)]) == b.ledger
    ensures Kept(c, events + [Reprepared(x), HumanPaused(b.process.at, x)]) == b.ledger
  {
    var e := HumanPaused(b.process.at, x);
    QuietEntry(c, b.ledger, Reprepared(x));
    EmittedEntry(c, b, e);
    KeptTwo(c, b.ledger, events, Reprepared(x), e);
  }

  /** An invocation, alone or with its dispatch. */
  lemma InvokedEntries(c: Config, b: Book, events: seq<Event>, k: nat)
    requires Inv(c, b) && b.ledger == Kept(c, events) && b.process.Running? && k < |b.process.handle.batch|
    ensures
      var request := b.process.handle.batch[k];
      && Kept(c, events + [Invoked(request)]) == b.ledger
      && Kept(c, events + [Invoked(request), Dispatched(request.interruptId)]) == b.ledger
  {
    var request := b.process.handle.batch[k];
    var e := Dispatched(request.interruptId);
    InvokedEntry(c, b, k);
    QuietEntry(c, b.ledger, e);
    KeptTwo(c, b.ledger, events, Invoked(request), e);
  }

  /** A stopped, ending or surely failed process stands for nothing. */
  lemma Halted(c: Config, b: Book, slot: J.Slot, p: Process)
    requires Inv(c, b) && J.WellFormedSlot(slot) && (p.Down? || p.Ending? || (p.Failed? && !p.uncertain))
    ensures Inv(c, Book(slot, b.durable, p, b.ledger))
  {
  }

  /** The running batch goes on, with one more durable result or an execution begun. */
  lemma Continued(c: Config, b: Book, slot: J.Slot, results: seq<Value>, executing: bool)
    requires Inv(c, b) && J.WellFormedSlot(slot) && b.process.Running?
    requires forall i :: 0 <= i < |results| ==> ActionResult.Durable(results[i])
    ensures
      var p := b.process;
      Inv(c, Book(slot, b.durable, Running(p.at, p.handle, p.files, results, executing), b.ledger))
  {
  }

  lemma ResumedEntry(c: Config, l: Ledger, results: seq<Member>)
    requires Within(c.terms, results)
    ensures Entered(c, l, Resumed(results)) == l
  {
  }

  lemma CheckpointedEntry(c: Config, b: Book)
    requires Inv(c, b) && b.process.Answered?
    ensures
      var p := b.process;
      var saved := Saved(p.next, if p.held.Some? then p.held.value.batch else []);
      && Entered(c, b.ledger, Checkpointed(saved)).allowed
      && Accounts(c, p.next, Entered(c, b.ledger, Checkpointed(saved)).batches)
  {
    var p := b.process;
    if p.held.Some? {
      var at := b.durable.value.continuation;
      AdvancedAccounts(c, at, b.ledger.batches, p.held.value.batch, p.next.fileActions, p.next.turn);
      RoundFacts(c, at, p.held.value.batch, p.next.fileActions);
    }
  }
}
