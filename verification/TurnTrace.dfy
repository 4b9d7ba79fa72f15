/**
 What a turn's event trace must satisfy, folded event by event: which interrupts are spent, whether any was dispatched
 again, and where the trace stands in the protocol's grammar.
 */
module TurnTrace {
  import opened Basics
  import opened Json
  import opened TurnCodec
  import opened Admission
  import opened TurnProtocol

  // ----- The grammar of a trace ------------------------------------------------------------------------------------

  /** Where a trace stands: nothing open, a batch admitted, running with its first `invoked` requests invoked, answered,
      kept by a checkpoint, or ended by a termination. */
  datatype Phase =
    | Idle
    | Approved(batch: seq<ActionRequest>)
    | Live(batch: seq<ActionRequest>, invoked: nat)
    | Told(batch: seq<ActionRequest>)
    | Kept(batch: seq<ActionRequest>)
    | Over
    | Broken

  predicate ResultsOf(batch: seq<ActionRequest>, results: seq<Member>) {
    |results| == |batch| && forall i :: 0 <= i < |batch| ==> results[i].key == batch[i].interruptId
  }

  /** Whether `x` is the interrupt of the request invoked last. */
  predicate Acting(p: Phase, x: string) {
    p.Live? && 0 < p.invoked <= |p.batch| && p.batch[p.invoked - 1].interruptId == x
  }

  /** The next phase; `owed` is whether a checkpointed batch is neither acknowledged nor ended yet. */
  function Follow(p: Phase, owed: bool, e: Event): Phase {
    match e
    case Restarted => if p.Broken? then p else Idle
    case Checkpointed(saved) =>
      if saved.undelivered == [] then (if p.Idle? then p else Broken)
      else if p == Told(saved.undelivered) && InterruptsOf(saved.undelivered) <= saved.continuation.seen && !owed
      then Kept(saved.undelivered) else Broken
    case Admitted(batch) => if p.Idle? then Approved(batch) else Broken
    case Paused(_) => if p.Approved? then Idle else Broken
    case PreparedBatch(batch) => if p == Approved(batch) && !owed then Live(batch, 0) else Broken
    case Invoked(request) =>
      if p.Live? && p.invoked < |p.batch| && p.batch[p.invoked] == request then p.(invoked := p.invoked + 1) else Broken
    case Dispatched(x) => if Acting(p, x) then p else Broken
    case Reprepared(x) => if Acting(p, x) then p else Broken
    case HumanPaused(_, x) => if Acting(p, x) then Idle else Broken
    case Resumed(results) =>
      if p.Live? && p.invoked == |p.batch| && ResultsOf(p.batch, results) then Told(p.batch) else Broken
    case Acknowledged(batch) => if p == Kept(batch) then Idle else Broken
    case SettledUndelivered => if p.Idle? then Idle else Broken
    case BrowserResumed => if p.Idle? then Idle else Broken
    case TurnCompleted(_) => if p.Idle? then Idle else Broken
    case EndedBatch => if p.Broken? then p else Over
    case Abandoned(_) => if p.Broken? then p else Over
  }

  // ----- The fold --------------------------------------------------------------------------------------------------

  /** `owed`: a checkpointed batch is neither acknowledged nor ended yet. `named`: what the last checkpoint says was
      seen. `spent`: dispatched, and neither journaled back to `prepared` nor forgotten since. `once`: nothing spent was
      dispatched. `unseen`: nothing the last checkpoint named was dispatched. */
  datatype Trace = Trace(phase: Phase, owed: bool, named: set<string>, spent: set<string>, once: bool, unseen: bool)

  predicate Keeps(e: Event) { e.Checkpointed? && e.saved.undelivered != [] }

  predicate Releases(e: Event) { e.Acknowledged? || e.SettledUndelivered? || e.EndedBatch? || e.Abandoned? }

  /** An abandoned batch's receipts are gone, so its interrupts are forgotten unless a checkpoint names them. */
  predicate Forgotten(e: Event, named: set<string>, x: string) {
    e.Abandoned? && x in InterruptsOf(e.batch) && x !in named
  }

  function Noted(t: Trace, e: Event): Trace {
    Trace(
      Follow(t.phase, t.owed, e),
      Keeps(e) || (t.owed && !Releases(e)),
      if e.Checkpointed? then e.saved.continuation.seen else t.named,
      match e
      case Dispatched(x) => t.spent + {x}
      case Reprepared(x) => t.spent - {x}
      case Abandoned(_) => set x | x in t.spent && !Forgotten(e, t.named, x)
      case _ => t.spent,
      t.once && (e.Dispatched? ==> e.interrupt !in t.spent),
      t.unseen && (e.Dispatched? ==> e.interrupt !in t.named))
  }

  const Untold := Trace(Idle, false, {}, {}, true, true)

  function Traced(events: seq<Event>): Trace {
    if events == [] then Untold else Noted(Traced(events[..|events| - 1]), events[|events| - 1])
  }

  lemma {:induction false} NotedLast(events: seq<Event>, e: Event)
    ensures Traced(events + [e]) == Noted(Traced(events), e)
  {
    assert (events + [e])[..|events|] == events;
  }

  // ----- What the fold means, in terms of the events themselves ----------------------------------------------------

  /** What the last checkpoint says was seen. */
  ghost function Named(events: seq<Event>): set<string> {
    if events == [] then {}
    else
      var e := events[|events| - 1];
      if e.Checkpointed? then e.saved.continuation.seen else Named(events[..|events| - 1])
  }

  lemma {:induction false} NamedMeaning(events: seq<Event>)
    ensures Traced(events).named == Named(events)
    decreases |events|
  {
    if events != [] { NamedMeaning(events[..|events| - 1]); }
  }

  /** The event at `k` lets the interrupt be dispatched again: the journal returned it to `prepared`, or its batch was
      abandoned while the last checkpoint did not name it. */
  ghost predicate Excuses(events: seq<Event>, x: string, k: int) {
    0 <= k < |events| && (events[k] == Reprepared(x) || Forgotten(events[k], Named(events[..k]), x))
  }

  /** Some event after `i` and before `j` lets the interrupt be dispatched again. */
  ghost predicate Excused(events: seq<Event>, x: string, i: int, j: int) {
    exists k :: i < k < j && Excuses(events, x, k)
  }

  /** Between two dispatches of one interrupt something about that very interrupt lets it be dispatched again. */
  ghost predicate OnceUnlessExcused(events: seq<Event>) {
    forall i, j :: 0 <= i < j < |events| && events[i].Dispatched? && events[j] == events[i] ==>
      Excused(events, events[i].interrupt, i, j)
  }

  /** Between two dispatches of one interrupt the journal returned it to `prepared`. */
  ghost predicate AtMostOnce(events: seq<Event>) {
    forall i, j :: 0 <= i < j < |events| && events[i].Dispatched? && events[j] == events[i] ==>
      Reprepared(events[i].interrupt) in events[i..j]
  }

  /** Nothing that the last checkpoint names is dispatched. */
  ghost predicate NamedNever(events: seq<Event>) {
    forall j :: 0 <= j < |events| && events[j].Dispatched? ==> events[j].interrupt !in Named(events[..j])
  }

  /** Dispatched at `i` and not let off since. */
  ghost predicate SpentAt(events: seq<Event>, x: string, i: int) {
    0 <= i < |events| && events[i] == Dispatched(x) && !Excused(events, x, i, |events|)
  }

  /** What excuses an interrupt in a prefix is what does so there in the whole trace. */
  lemma {:induction false} ExcusedBefore(before: seq<Event>, e: Event, x: string, i: int, j: int)
    requires 0 <= i && j <= |before|
    ensures Excused(before + [e], x, i, j) <==> Excused(before, x, i, j)
  {
    assert forall k :: 0 <= k < |before| ==> (before + [e])[..k] == before[..k];
    assert forall k :: 0 <= k < |before| ==> (Excuses(before + [e], x, k) <==> Excuses(before, x, k));
  }

  lemma {:induction false} ExcusedLast(before: seq<Event>, e: Event, x: string, i: int)
    requires 0 <= i < |before|
    ensures Excused(before + [e], x, i, |before| + 1) <==>
      Excused(before, x, i, |before|) || e == Reprepared(x) || Forgotten(e, Named(before), x)
  {
    var n := |before|;
    ExcusedBefore(before, e, x, i, n);
    assert (before + [e])[..n] == before;
    assert Excuses(before + [e], x, n) <==> e == Reprepared(x) || Forgotten(e, Named(before), x);
    if Excused(before + [e], x, i, n) {
      var k :| i < k < n && Excuses(before + [e], x, k);
      assert i < k < n + 1;
    }
  }

  lemma {:induction false} SpentMeaning(events: seq<Event>, x: string)
    ensures x in Traced(events).spent <==> exists i :: SpentAt(events, x, i)
    decreases |events|
  {
    if events != [] {
      var n := |events| - 1;
      var before, e := events[..n], events[n];
      SpentMeaning(before, x);
      NamedMeaning(before);
      assert events == before + [e];
      forall i | 0 <= i < n
        ensures SpentAt(events, x, i) <==>
          SpentAt(before, x, i) && e != Reprepared(x) && !Forgotten(e, Named(before), x)
      {
        ExcusedLast(before, e, x, i);
      }
      assert SpentAt(events, x, n) <==> e == Dispatched(x);
    }
  }

  /** The fold's `once` is the statement about pairs of dispatches. */
  lemma {:induction false} OnceMeaning(events: seq<Event>)
    ensures Traced(events).once <==> OnceUnlessExcused(events)
    decreases |events|
  {
    if events != [] {
      var n := |events| - 1;
      var before, e := events[..n], events[n];
      OnceMeaning(before);
      OnceLonger(before, e);
      assert events == before + [e];
      if e.Dispatched? {
        SpentMeaning(before, e.interrupt);
        NewMeaning(before, e);
      }
    }
  }

  /** Every earlier dispatch of the same interrupt was let off. */
  ghost predicate NewAfter(before: seq<Event>, e: Event)
    requires e.Dispatched?
  {
    forall i :: 0 <= i < |before| && before[i] == e ==> Excused(before, e.interrupt, i, |before|)
  }

  lemma {:induction false} NewMeaning(before: seq<Event>, e: Event)
    requires e.Dispatched?
    ensures NewAfter(before, e) <==> !exists i :: SpentAt(before, e.interrupt, i)
  {
    assert forall i :: 0 <= i < |before| && before[i] == e ==>
      (SpentAt(before, e.interrupt, i) <==> !Excused(before, e.interrupt, i, |before|));
  }

  lemma {:induction false} OnceLonger(before: seq<Event>, e: Event)
    ensures OnceUnlessExcused(before + [e]) <==> OnceUnlessExcused(before) && (e.Dispatched? ==> NewAfter(before, e))
  {
    var events, n := before + [e], |before|;
    forall x, i, j | 0 <= i && j <= n ensures Excused(events, x, i, j) <==> Excused(before, x, i, j) {
      ExcusedBefore(before, e, x, i, j);
    }
    if OnceUnlessExcused(events) {
      forall i, j | 0 <= i < j < n && before[i].Dispatched? && before[j] == before[i]
        ensures Excused(before, before[i].interrupt, i, j)
      {
        assert events[i].Dispatched? && events[j] == events[i];
      }
      if e.Dispatched? {
        forall i | 0 <= i < n && before[i] == e ensures Excused(before, e.interrupt, i, n) {
          assert events[i].Dispatched? && events[n] == events[i];
        }
      }
    }
  }

  lemma {:induction false} UnseenMeaning(events: seq<Event>)
    ensures Traced(events).unseen <==> NamedNever(events)
    decreases |events|
  {
    if events != [] {
      var n := |events| - 1;
      UnseenMeaning(events[..n]);
      NamedMeaning(events[..n]);
      assert forall j :: 0 <= j < n ==> events[..n][..j] == events[..j];
    }
  }

  /** What lets an interrupt be dispatched again before `j`: at `k` the journal returned it to `prepared`, or its own
      batch was abandoned while the last checkpoint did not name it and a process resumed the turn after that. */
  ghost predicate Lets(events: seq<Event>, x: string, k: nat, j: nat)
    requires k < j <= |events|
  {
    || events[k] == Reprepared(x)
    || (Forgotten(events[k], Named(events[..k]), x) && exists r :: k < r < j && events[r].Restarted?)
  }

  ghost predicate LetOff(events: seq<Event>, x: string, i: nat, j: nat)
    requires i < j <= |events|
  {
    exists k: nat :: i < k < j && Lets(events, x, k, j)
  }

  lemma {:induction false} ExcusedLetOff(events: seq<Event>, i: nat, j: nat)
    requires i < j < |events| && events[i].Dispatched? && events[j] == events[i]
    requires OnceUnlessExcused(events) && !Traced(events).phase.Broken?
    ensures LetOff(events, events[i].interrupt, i, j)
  {
    var x := events[i].interrupt;
    var k: nat :| i < k < j && Excuses(events, x, k);
    if events[k] != Reprepared(x) {
      RestartedBetween(events, k, j);
    }
    assert Lets(events, x, k, j);
  }

  predicate NoneAbandoned(events: seq<Event>) { forall i :: 0 <= i < |events| ==> !events[i].Abandoned? }

  /** Where nothing was abandoned only a return to `prepared` lets an interrupt be dispatched again. */
  lemma {:induction false} LetOffStrictly(events: seq<Event>, x: string, i: nat, j: nat)
    requires i < j <= |events| && LetOff(events, x, i, j) && NoneAbandoned(events)
    ensures Reprepared(x) in events[i..j]
  {
    var k: nat :| i < k < j && Lets(events, x, k, j);
    assert events[i..j][k - i] == events[k];
  }

  /** After a batch was abandoned nothing is dispatched before a process resumes the turn. */
  lemma {:induction false} RestartedBetween(events: seq<Event>, k: nat, j: nat)
    requires k < j < |events| && !Traced(events).phase.Broken? && events[k].Abandoned? && events[j].Dispatched?
    ensures exists r :: k < r < j && events[r].Restarted?
  {
    if forall r :: k < r < j ==> !events[r].Restarted? {
      OverUntil(events, k, j);
      UnbrokenAt(events, j);
    }
  }

  lemma OverStays(p: Phase, owed: bool, e: Event)
    requires (p.Over? && !e.Restarted?) || e.Abandoned?
    ensures Follow(p, owed, e).Broken? || Follow(p, owed, e).Over?
  {
  }

  lemma {:induction false} OverNext(events: seq<Event>, j: nat)
    requires j < |events| && !Traced(events).phase.Broken?
    requires (Traced(events[..j]).phase.Over? && !events[j].Restarted?) || events[j].Abandoned?
    ensures Traced(events[..j + 1]).phase.Over?
  {
    UnbrokenAt(events, j);
    OverStays(Traced(events[..j]).phase, Traced(events[..j]).owed, events[j]);
  }

  lemma {:induction false} OverUntil(events: seq<Event>, k: nat, j: nat)
    requires k < j <= |events| && !Traced(events).phase.Broken? && events[k].Abandoned?
    requires forall r :: k < r < j ==> !events[r].Restarted?
    ensures Traced(events[..j]).phase.Over?
    decreases j
  {
    if j > k + 1 {
      OverUntil(events, k, j - 1);
    }
    OverNext(events, j - 1);
  }

  /** The requests invoked, in order. */
  ghost function InvokedRequests(events: seq<Event>): seq<ActionRequest> {
    if events == [] then []
    else
      var before := InvokedRequests(events[..|events| - 1]);
      if events[|events| - 1].Invoked? then before + [events[|events| - 1].request] else before
  }

  /** Since its preparation at `i`, exactly these requests of a batch were invoked, and no batch was prepared. */
  ghost predicate RanSince(events: seq<Event>, batch: seq<ActionRequest>, i: int, ran: seq<ActionRequest>) {
    && 0 < i < |events| && events[i] == PreparedBatch(batch) && events[i - 1] == Admitted(batch)
    && (forall k :: i < k < |events| ==> !events[k].PreparedBatch?)
    && InvokedRequests(events[i..]) == ran
  }

  /** Since its checkpoint at `i` nothing released the batch. */
  ghost predicate OwedSince(events: seq<Event>, i: int) {
    0 <= i < |events| && Keeps(events[i]) && forall k :: i < k < |events| ==> !Releases(events[k])
  }

  ghost predicate PhaseMeans(events: seq<Event>, p: Phase) {
    match p
    case Approved(batch) => events != [] && events[|events| - 1] == Admitted(batch)
    case Live(batch, invoked) => invoked <= |batch| && exists i :: RanSince(events, batch, i, batch[..invoked])
    case Told(batch) => exists i :: RanSince(events, batch, i, batch)
    case Kept(batch) => events != [] && Keeps(events[|events| - 1]) && events[|events| - 1].saved.undelivered == batch
    case _ => true
  }

  lemma {:induction false} RanLonger(events: seq<Event>, e: Event, batch: seq<ActionRequest>, i: int,
                                     ran: seq<ActionRequest>)
    requires RanSince(events, batch, i, ran) && !e.PreparedBatch?
    ensures RanSince(events + [e], batch, i, if e.Invoked? then ran + [e.request] else ran)
  {
    var after := events + [e];
    assert after[i..] == events[i..] + [e];
    assert after[i..][..|after[i..]| - 1] == events[i..];
  }

  lemma {:induction false} PhaseStep(events: seq<Event>, p: Phase, owed: bool, e: Event)
    requires PhaseMeans(events, p)
    ensures PhaseMeans(events + [e], Follow(p, owed, e))
  {
    var after := events + [e];
    assert after[|after| - 1] == e;
    match p
    case Approved(batch) =>
      if e == PreparedBatch(batch) && !owed {
        assert after[|events|..] == [e];
        assert InvokedRequests([e]) == [];
        assert RanSince(after, batch, |events|, batch[..0]);
      }
    case Live(batch, invoked) => LiveStep(events, batch, invoked, owed, e);
    case _ =>
  }

  lemma {:induction false} LiveStep(events: seq<Event>, batch: seq<ActionRequest>, invoked: nat, owed: bool, e: Event)
    requires PhaseMeans(events, Live(batch, invoked))
    ensures PhaseMeans(events + [e], Follow(Live(batch, invoked), owed, e))
  {
    var i :| RanSince(events, batch, i, batch[..invoked]);
    if !e.PreparedBatch? {
      RanLonger(events, e, batch, i, batch[..invoked]);
      if e.Invoked? && invoked < |batch| {
        assert batch[..invoked] + [batch[invoked]] == batch[..invoked + 1];
      }
      assert batch[..|batch|] == batch;
    }
    assert (events + [e])[|events|] == e;
  }

  /** Where the trace stands says which batch was admitted, prepared and how far it was invoked, or which one is
      kept. */
  lemma {:induction false} PhaseMeaning(events: seq<Event>)
    ensures PhaseMeans(events, Traced(events).phase)
    decreases |events|
  {
    if events != [] {
      var n := |events| - 1;
      PhaseMeaning(events[..n]);
      PhaseStep(events[..n], Traced(events[..n]).phase, Traced(events[..n]).owed, events[n]);
      assert events[..n] + [events[n]] == events;
    }
  }

  lemma {:induction false} OwedMeaning(events: seq<Event>)
    ensures Traced(events).owed <==> exists i :: OwedSince(events, i)
    decreases |events|
  {
    if events != [] {
      var n := |events| - 1;
      OwedMeaning(events[..n]);
      assert forall i :: 0 <= i < n ==> (OwedSince(events, i) <==> OwedSince(events[..n], i) && !Releases(events[n]));
      assert OwedSince(events, n) <==> Keeps(events[n]);
    }
  }

  /** A trace that is not broken was not broken at any earlier point. */
  lemma {:induction false} UnbrokenPrefix(events: seq<Event>, k: nat)
    requires k <= |events| && !Traced(events).phase.Broken?
    ensures !Traced(events[..k]).phase.Broken?
    decreases |events|
  {
    if k < |events| {
      var n := |events| - 1;
      UnbrokenPrefix(events[..n], k);
      assert events[..n][..k] == events[..k];
    } else {
      assert events[..k] == events;
    }
  }

  /** Each event leads on to the next phase, and breaks nothing. */
  lemma {:induction false} UnbrokenAt(events: seq<Event>, j: nat)
    requires j < |events| && !Traced(events).phase.Broken?
    ensures
      var t := Traced(events[..j]);
      Traced(events[..j + 1]).phase == Follow(t.phase, t.owed, events[j]) && !Follow(t.phase, t.owed, events[j]).Broken?
  {
    UnbrokenPrefix(events, j + 1);
    assert events[..j + 1] == events[..j] + [events[j]];
    NotedLast(events[..j], events[j]);
  }

  /** The request invoked last of a batch prepared in this trace. */
  ghost predicate InvokedLast(events: seq<Event>, batch: seq<ActionRequest>, i: int, k: nat, x: string) {
    k < |batch| && RanSince(events, batch, i, batch[..k + 1]) && batch[k].interruptId == x
  }

  ghost predicate InvokesNext(events: seq<Event>, batch: seq<ActionRequest>, i: int, k: nat, request: ActionRequest) {
    k < |batch| && RanSince(events, batch, i, batch[..k]) && batch[k] == request
  }

  /** The order of a turn: what the trace before an event must hold. */
  ghost predicate Ordered(before: seq<Event>, e: Event) {
    match e
    case PreparedBatch(batch) =>
      before != [] && before[|before| - 1] == Admitted(batch) && !exists i :: OwedSince(before, i)
    case Invoked(request) => exists batch, i, k :: InvokesNext(before, batch, i, k, request)
    case Dispatched(x) => exists batch, i, k :: InvokedLast(before, batch, i, k, x)
    case Resumed(results) => exists batch, i :: RanSince(before, batch, i, batch) && ResultsOf(batch, results)
    case Checkpointed(saved) =>
      saved.undelivered != [] ==>
        && InterruptsOf(saved.undelivered) <= saved.continuation.seen
        && exists i :: RanSince(before, saved.undelivered, i, saved.undelivered)
    case Acknowledged(batch) =>
      before != [] && Keeps(before[|before| - 1]) && before[|before| - 1].saved.undelivered == batch
    case _ => true
  }

  lemma FollowOrdered(before: seq<Event>, p: Phase, owed: bool, e: Event)
    requires PhaseMeans(before, p) && (owed <==> exists i :: OwedSince(before, i)) && !Follow(p, owed, e).Broken?
    ensures Ordered(before, e)
  {
    if p.Live? {
      var i :| RanSince(before, p.batch, i, p.batch[..p.invoked]);
      if e.Invoked? {
        assert InvokesNext(before, p.batch, i, p.invoked, e.request);
      } else if e.Dispatched? {
        assert InvokedLast(before, p.batch, i, p.invoked - 1, e.interrupt);
      } else if e.Resumed? {
        assert p.batch[..p.invoked] == p.batch;
      }
    }
  }

  /** A trace the grammar does not break is in order at every event. */
  lemma {:induction false} UnbrokenOrdered(events: seq<Event>, j: nat)
    requires j < |events| && !Traced(events).phase.Broken?
    ensures Ordered(events[..j], events[j])
  {
    var before := events[..j];
    UnbrokenAt(events, j);
    PhaseMeaning(before);
    OwedMeaning(before);
    FollowOrdered(before, Traced(before).phase, Traced(before).owed, events[j]);
  }
}
