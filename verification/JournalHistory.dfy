/**
 Histories of one generation of the journal.  What each transaction admits and changes is stated by the batch, its rows
 and its reservation alone, and over every history of transactions a receipt is lost in four ways only.
 */
module JournalHistory {
  import opened Basics
  import opened Json
  import opened Journal

  datatype Transaction =
    | Prepare(id: Identity, archivable: bool)
    | Begin(id: Identity, k: nat)
    | Settle(id: Identity, k: nat, state: OperationState)
    | Reprepare(id: Identity, k: nat)
    | Deliver(id: Identity)
    | Abandon(id: Identity)
    | End(id: Identity)
    | EndSettled
    | Archive(id: Identity)
    | Release(id: Identity)

  /** A settlement is a result or the absence of an effect. */
  predicate Proper(t: Transaction) { t.Settle? ==> t.state.Completed? || t.state.NoEffect? }

  /** The slot after a transaction, or why it is refused. */
  function Applied(slot: Slot, t: Transaction): Result<Slot, JournalError>
    requires Proper(t)
  {
    match t
    case Prepare(id, archivable) =>
      var r := PrepareSlot(slot, id, archivable);
      if r.Ok? then Ok(Some(r.value)) else Err(r.error)
    case Begin(id, k) =>
      var r := BeginSlot(slot, id, k);
      if r.Ok? then Ok(Some(r.value.0)) else Err(r.error)
    case Settle(id, k, state) =>
      var r := SettleSlot(slot, id, k, state);
      if r.Ok? then Ok(Some(r.value)) else Err(r.error)
    case Reprepare(id, k) =>
      var r := ReprepareSlot(slot, id, k);
      if r.Ok? then Ok(Some(r.value)) else Err(r.error)
    case Deliver(id) => DeliveredSlot(slot, id)
    case Abandon(id) =>
      var r := AbandonSlot(slot, id);
      if r.Ok? then Ok(r.value.0) else Err(r.error)
    case End(id) =>
      var r := EndSlot(slot, id);
      if r.Ok? then Ok(r.value.0) else Err(r.error)
    case EndSettled => Ok(EndSettledSlot(slot))
    case Archive(id) =>
      var r := ArchiveSlot(slot, id);
      if r.Ok? then Ok(Some(r.value)) else Err(r.error)
    case Release(id) => ReleaseSlot(slot, id)
  }

  // ----- What a transaction needs and does -------------------------------------------------------------------------

  /** The slot holds this batch in this state. */
  ghost predicate Is(slot: Slot, id: Identity, state: BatchState) {
    slot.Some? && slot.value.identity == id && slot.value.state == state
  }

  /** Row `k` of this open batch is in a state. */
  ghost predicate RowIs(slot: Slot, id: Identity, k: nat, state: OperationState) {
    Is(slot, id, Open) && k < |slot.value.rows| && slot.value.rows[k].state == state
  }

  /** Some row of the batch may have had its effect and has no result yet. */
  ghost predicate Doubtful(slot: Slot) { slot.Some? && exists row :: row in slot.value.rows && row.state == Executing }

  /** Each row of the batch has its result. */
  ghost predicate Settled(slot: Slot) {
    slot.Some? && forall row :: row in slot.value.rows ==> row.state.Completed?
  }

  /** Nothing of the other batch is asked for again. */
  ghost predicate Apart(slot: Slot, id: Identity) {
    slot.Some? && forall row, o :: row in slot.value.rows && o in id.operations ==>
      row.operation.interrupt != o.interrupt
  }

  /** What a transaction needs of the slot, by the batch it holds and its rows. */
  ghost predicate Permits(slot: Slot, t: Transaction) {
    match t
    case Prepare(id, archivable) =>
      || slot == None
      || (Is(slot, id, Open) && slot.value.archivable == archivable)
      || (Is(slot, id, Ended) && slot.value.archivable == archivable)
      || (slot.value.identity != id && slot.value.state == Ended && Apart(slot, id))
    case Begin(id, k) =>
      RowIs(slot, id, k, Prepared) || exists v :: RowIs(slot, id, k, Completed(v))
    case Settle(id, k, state) => RowIs(slot, id, k, Executing) || RowIs(slot, id, k, state)
    case Reprepare(id, k) => RowIs(slot, id, k, Executing)
    case Deliver(id) => slot == None || (Is(slot, id, Open) && Settled(slot))
    case Abandon(id) => slot == None || Is(slot, id, Open)
    case End(id) => slot == None || Is(slot, id, Open) || Is(slot, id, Ended)
    case EndSettled => true
    case Archive(id) =>
      || Is(slot, id, Archived)
      || ((Is(slot, id, Open) || Is(slot, id, Ended)) && slot.value.archivable)
    case Release(id) => slot == None || Is(slot, id, Archived)
  }

  /** The slot is the old one with this batch state. */
  ghost predicate Marked(before: Slot, state: BatchState, after: Slot) {
    && before.Some? && after.Some?
    && after.value.identity == before.value.identity
    && after.value.archivable == before.value.archivable
    && after.value.rows == before.value.rows
    && after.value.state == state
  }

  /** Only row `k` changed: it has this state and was attempted `more` times more. */
  ghost predicate Moved(before: Slot, k: nat, state: OperationState, more: nat, after: Slot) {
    && before.Some? && after.Some?
    && after.value.identity == before.value.identity
    && after.value.archivable == before.value.archivable
    && after.value.state == before.value.state
    && k < |before.value.rows| == |after.value.rows|
    && after.value.rows[k].operation == before.value.rows[k].operation
    && after.value.rows[k].attempts == before.value.rows[k].attempts + more
    && after.value.rows[k].state == state
    && forall i :: 0 <= i < |after.value.rows| && i != k ==> after.value.rows[i] == before.value.rows[i]
  }

  /** An open batch none of whose operations was attempted. */
  ghost predicate Unattempted(id: Identity, archivable: bool, after: Slot) {
    && Is(after, id, Open)
    && after.value.archivable == archivable
    && |after.value.rows| == |id.operations|
    && forall i :: 0 <= i < |after.value.rows| ==>
      && after.value.rows[i].operation == id.operations[i]
      && after.value.rows[i].attempts == 0
      && after.value.rows[i].state == Prepared
  }

  /** A marker: the identity and its reservation stay, the rows are gone. */
  ghost predicate Marker(id: Identity, after: Slot) {
    Is(after, id, Archived) && after.value.archivable && after.value.rows == []
  }

  /** What a permitted transaction leaves. */
  ghost predicate Leaves(before: Slot, t: Transaction, after: Slot) {
    match t
    case Prepare(id, archivable) =>
      if before.Some? && before.value.identity == id then Marked(before, Open, after)
      else Unattempted(id, archivable, after)
    case Begin(id, k) =>
      if RowIs(before, id, k, Prepared) then Moved(before, k, Executing, 1, after) else after == before
    case Settle(id, k, state) => Moved(before, k, state, 0, after)
    case Reprepare(id, k) => Moved(before, k, Prepared, 0, after)
    case Deliver(id) => after == None
    case Abandon(id) => after == if Doubtful(before) then None else before
    case End(id) =>
      if Is(before, id, Open) && !Doubtful(before) then Marked(before, Ended, after) else after == before
    case EndSettled =>
      if before.Some? && before.value.state == Open && !Doubtful(before) then Marked(before, Ended, after)
      else after == before
    case Archive(id) => if Is(before, id, Archived) then after == before else Marker(id, after)
    case Release(id) => after == None
  }

  /** Why a transaction that is not permitted is refused. */
  ghost predicate RefusedAs(slot: Slot, t: Transaction, error: JournalError) {
    if t.Prepare? && slot.Some? && slot.value.state == Archived then error == ArchivedBatch
    else if t.Begin? && RowIs(slot, t.id, t.k, Executing) then error == Uncertain
    else error == Conflict
  }

  lemma DoubtfulExactly(slot: Slot)
    requires slot.Some?
    ensures Doubtful(slot) <==> AnyExecuting(slot.value)
    ensures Settled(slot) <==> AllCompleted(slot.value)
  {
  }

  lemma ApartExactly(slot: Slot, id: Identity)
    requires slot.Some?
    ensures Apart(slot, id) <==> !SharesInterrupt(slot.value, id)
  {
    if !Apart(slot, id) {
      var row, o :| row in slot.value.rows && o in id.operations && row.operation.interrupt == o.interrupt;
      var i :| 0 <= i < |slot.value.rows| && slot.value.rows[i] == row;
      var j :| 0 <= j < |id.operations| && id.operations[j] == o;
      assert slot.value.rows[i].operation.interrupt == id.operations[j].interrupt;
    }
  }

  lemma PrepareExactly(slot: Slot, id: Identity, archivable: bool)
    ensures var t, r := Prepare(id, archivable), Applied(slot, Prepare(id, archivable));
      && (r.Ok? <==> Permits(slot, t))
      && (if r.Ok? then Leaves(slot, t, r.value) else RefusedAs(slot, t, r.error))
  {
    if slot.Some? {
      ApartExactly(slot, id);
    }
  }

  lemma RowExactly(slot: Slot, t: Transaction)
    requires Proper(t) && (t.Begin? || t.Settle? || t.Reprepare?)
    ensures var r := Applied(slot, t);
      && (r.Ok? <==> Permits(slot, t))
      && (if r.Ok? then Leaves(slot, t, r.value) else RefusedAs(slot, t, r.error))
  {
    if t.Begin? && Current(slot, t.id) && t.k < |slot.value.rows| && slot.value.rows[t.k].state.Completed? {
      assert RowIs(slot, t.id, t.k, Completed(slot.value.rows[t.k].state.result));
    }
  }

  /** Every transaction succeeds exactly when it is permitted, leaves exactly what it says, and is refused for its
      reason. */
  lemma TransactionExactly(slot: Slot, t: Transaction)
    requires Proper(t)
    ensures var r := Applied(slot, t);
      && (r.Ok? <==> Permits(slot, t))
      && (if r.Ok? then Leaves(slot, t, r.value) else RefusedAs(slot, t, r.error))
  {
    if t.Prepare? {
      PrepareExactly(slot, t.id, t.archivable);
    } else if t.Begin? || t.Settle? || t.Reprepare? {
      RowExactly(slot, t);
    } else if slot.Some? {
      DoubtfulExactly(slot);
    }
  }

  /** What a transaction answers: a row runs once it was prepared and replays its own result, and a batch is said to be
      abandoned or ended exactly when it was. */
  lemma AnswersExactly(slot: Slot, id: Identity, k: nat)
    ensures BeginSlot(slot, id, k).Ok? ==>
      match BeginSlot(slot, id, k).value.1
      case Execute => RowIs(slot, id, k, Prepared)
      case Replay(v) => RowIs(slot, id, k, Completed(v))
    ensures AbandonSlot(slot, id).Ok? ==> (AbandonSlot(slot, id).value.1 <==> Doubtful(slot))
    ensures EndSlot(slot, id).Ok? ==> (EndSlot(slot, id).value.1 <==> Is(slot, id, Open) && !Doubtful(slot))
  {
    if slot.Some? {
      DoubtfulExactly(slot);
    }
  }

  // ----- Histories -------------------------------------------------------------------------------------------------

  /** A refused transaction changes nothing. */
  function Next(slot: Slot, t: Transaction): Slot
    requires Proper(t)
  {
    var r := Applied(slot, t);
    if r.Ok? then r.value else slot
  }

  predicate AllProper(ts: seq<Transaction>) { forall i :: 0 <= i < |ts| ==> Proper(ts[i]) }

  function After(slot: Slot, ts: seq<Transaction>): Slot
    requires AllProper(ts)
    decreases |ts|
  {
    if ts == [] then slot else After(Next(slot, ts[0]), ts[1..])
  }

  /** A live batch has settled its operation `k` like this. */
  ghost predicate Receipt(slot: Slot, id: Identity, k: nat, state: OperationState) {
    && slot.Some? && slot.value.identity == id && slot.value.state != Archived
    && k < |slot.value.rows| && slot.value.rows[k].state == state
  }

  /** The four ways a batch goes: delivered with all its results, abandoned in doubt, archived, or replaced once ended
      by a batch that asks for nothing of it. */
  ghost predicate Loses(slot: Slot, id: Identity, t: Transaction) {
    || (t == Deliver(id) && Is(slot, id, Open) && Settled(slot))
    || (t == Abandon(id) && Is(slot, id, Open) && Doubtful(slot))
    || (t == Archive(id) && slot.Some? && slot.value.archivable)
    || (t.Prepare? && t.id != id && Is(slot, id, Ended) && Apart(slot, t.id))
  }

  ghost predicate LosesReceipt(slot: Slot, id: Identity, k: nat, state: OperationState, t: Transaction) {
    Receipt(slot, id, k, state) && Loses(slot, id, t)
  }

  /** A settled operation keeps its settlement, whoever's transaction comes next, unless its batch goes. */
  lemma ReceiptStays(slot: Slot, t: Transaction, id: Identity, k: nat, state: OperationState)
    requires Proper(t) && Receipt(slot, id, k, state) && (state.Completed? || state.NoEffect?)
    ensures Receipt(Next(slot, t), id, k, state) || Loses(slot, id, t)
  {
    TransactionExactly(slot, t);
  }

  /** In every history, a settled operation keeps its settlement until its batch goes in one of the four ways. */
  lemma {:induction false} ReceiptKept(
      slot: Slot, ts: seq<Transaction>, id: Identity, k: nat, state: OperationState)
    requires AllProper(ts) && Receipt(slot, id, k, state) && (state.Completed? || state.NoEffect?)
    ensures
      || Receipt(After(slot, ts), id, k, state)
      || exists i :: 0 <= i < |ts| && LosesReceipt(After(slot, ts[..i]), id, k, state, ts[i])
    decreases |ts|
  {
    if ts != [] {
      var next := Next(slot, ts[0]);
      ReceiptStays(slot, ts[0], id, k, state);
      if Loses(slot, id, ts[0]) {
        assert After(slot, ts[..0]) == slot;
      } else {
        ReceiptKept(next, ts[1..], id, k, state);
        if !Receipt(After(next, ts[1..]), id, k, state) {
          var i :| 0 <= i < |ts[1..]| && LosesReceipt(After(next, ts[1..][..i]), id, k, state, ts[1..][i]);
          assert ts[..i + 1][1..] == ts[1..][..i];
          assert After(slot, ts[..i + 1]) == After(next, ts[1..][..i]);
        }
      }
    }
  }

  /** The batch is live. */
  ghost predicate Live(slot: Slot, id: Identity) {
    slot.Some? && slot.value.identity == id && slot.value.state != Archived
  }

  /** How often operation `k` of the batch was told to run. */
  ghost function Executions(slot: Slot, ts: seq<Transaction>, id: Identity, k: nat): nat
    requires AllProper(ts)
    decreases |ts|
  {
    if ts == [] then 0
    else
      (if ts[0] == Begin(id, k) && RowIs(slot, id, k, Prepared) then 1 else 0) +
      Executions(Next(slot, ts[0]), ts[1..], id, k)
  }

  lemma AttemptCounted(slot: Slot, t: Transaction, id: Identity, k: nat)
    requires Proper(t) && Live(slot, id) && Live(Next(slot, t), id) && k < |slot.value.rows|
    ensures k < |Next(slot, t).value.rows|
    ensures Next(slot, t).value.rows[k].attempts ==
      slot.value.rows[k].attempts + if t == Begin(id, k) && RowIs(slot, id, k, Prepared) then 1 else 0
  {
    TransactionExactly(slot, t);
  }

  /** In every history through which a batch stays live, the attempts a row counts are the times it was told to run. */
  lemma {:induction false} AttemptsCounted(slot: Slot, ts: seq<Transaction>, id: Identity, k: nat)
    requires AllProper(ts) && Live(slot, id) && k < |slot.value.rows|
    requires forall i :: 0 <= i <= |ts| ==> Live(After(slot, ts[..i]), id)
    ensures Live(After(slot, ts), id) && k < |After(slot, ts).value.rows|
    ensures After(slot, ts).value.rows[k].attempts == slot.value.rows[k].attempts + Executions(slot, ts, id, k)
    decreases |ts|
  {
    if ts != [] {
      var next := Next(slot, ts[0]);
      forall i | 0 <= i <= |ts[1..]| ensures Live(After(next, ts[1..][..i]), id) {
        assert ts[..i + 1][1..] == ts[1..][..i];
        assert After(slot, ts[..i + 1]) == After(next, ts[1..][..i]);
      }
      assert ts[1..][..0] == [] && After(next, []) == next;
      AttemptCounted(slot, ts[0], id, k);
      AttemptsCounted(next, ts[1..], id, k);
    }
  }
}
