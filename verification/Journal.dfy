/**
 The crash-safe journal of Action side effects: at most one batch per generation, each operation a closed state
 machine.  The functions over one generation's slot say what every transaction does; the class is the table they are
 applied to, with its capacity bounds.  A batch fingerprint is a digest of the thread and the operations, so it is
 modelled as exactly those.
 */
module Journal {
  import opened Basics
  import opened Json
  import ActionResult

  datatype Operation = Operation(interrupt: string, fingerprint: string)

  datatype OperationState = Prepared | Executing | Completed(result: Value) | NoEffect

  datatype Row = Row(operation: Operation, attempts: nat, state: OperationState)

  datatype BatchState = Open | Ended | Archived

  datatype Identity = Identity(thread: string, operations: seq<Operation>)

  datatype Stored = Stored(identity: Identity, state: BatchState, archivable: bool, rows: seq<Row>)

  datatype Batch = Batch(generation: string, identity: Identity)

  datatype JournalError = Unavailable | Conflict | Uncertain | Corrupt | ArchivedBatch

  datatype Execution = Execute | Replay(result: Value)

  type Slot = Option<Stored>

  predicate DistinctInterrupts(operations: seq<Operation>) {
    forall i, j :: 0 <= i < j < |operations| ==> operations[i].interrupt != operations[j].interrupt
  }

  function Interrupts(operations: seq<Operation>): set<string> {
    set i | 0 <= i < |operations| :: operations[i].interrupt
  }

  /** The place of the first operation with this interrupt, or the number of operations. */
  function PlaceOf(operations: seq<Operation>, interrupt: string): (k: nat)
    ensures k <= |operations|
    ensures k < |operations| ==> operations[k].interrupt == interrupt
    ensures forall i :: 0 <= i < k ==> operations[i].interrupt != interrupt
  {
    if operations == [] || operations[0].interrupt == interrupt then 0 else 1 + PlaceOf(operations[1..], interrupt)
  }

  lemma PlaceUnique(operations: seq<Operation>, interrupt: string, k: nat)
    requires k <= |operations|
    requires k < |operations| ==> operations[k].interrupt == interrupt
    requires forall i :: 0 <= i < k ==> operations[i].interrupt != interrupt
    ensures k == PlaceOf(operations, interrupt)
  {
  }

  /** The rows of a live batch are its operations in order; a marker holds none; a kept result is durable. */
  ghost predicate WellFormed(s: Stored) {
    && s.identity.operations != []
    && DistinctInterrupts(s.identity.operations)
    && (s.state.Archived? ==> s.archivable && s.rows == [])
    && (!s.state.Archived? ==> |s.rows| == |s.identity.operations|)
    && (forall i :: 0 <= i < |s.rows| && i < |s.identity.operations| ==>
          s.rows[i].operation == s.identity.operations[i])
    && forall i :: 0 <= i < |s.rows| ==> s.rows[i].state.Completed? ==> ActionResult.Durable(s.rows[i].state.result)
  }

  ghost predicate WellFormedSlot(slot: Slot) { slot.Some? ==> WellFormed(slot.value) }

  // ----- What each transaction does to one generation --------------------------------------------------------------

  function Fresh(id: Identity, archivable: bool): (s: Stored)
    ensures |s.rows| == |id.operations|
    ensures id.operations != [] && DistinctInterrupts(id.operations) ==> WellFormed(s)
  {
    Stored(id, Open, archivable,
           seq(|id.operations|, i requires 0 <= i < |id.operations| => Row(id.operations[i], 0, Prepared)))
  }

  predicate SharesInterrupt(s: Stored, id: Identity) {
    exists i, j :: 0 <= i < |s.rows| && 0 <= j < |id.operations| &&
      s.rows[i].operation.interrupt == id.operations[j].interrupt
  }

  /** The same batch reopens; a fresh one takes an empty slot or replaces an ended batch it repeats nothing of. */
  function PrepareSlot(slot: Slot, id: Identity, archivable: bool): Result<Stored, JournalError> {
    match slot
    case None => Ok(Fresh(id, archivable))
    case Some(s) =>
      if s.state.Archived? then Err(ArchivedBatch)
      else if s.identity == id then
        if s.archivable != archivable then Err(Conflict) else Ok(s.(state := Open))
      else if s.state.Open? then Err(Conflict)
      else if SharesInterrupt(s, id) then Err(Conflict)
      else Ok(Fresh(id, archivable))
  }

  /** Whether the slot holds exactly this batch, open. */
  predicate Current(slot: Slot, id: Identity) {
    slot.Some? && slot.value.identity == id && slot.value.state.Open?
  }

  function SetState(s: Stored, k: nat, state: OperationState): Stored
    requires k < |s.rows|
  {
    s.(rows := s.rows[k := s.rows[k].(state := state)])
  }

  /** What a row's state answers to an attempt to execute it; only a prepared row changes. */
  function BeginSlot(slot: Slot, id: Identity, k: nat): Result<(Stored, Execution), JournalError> {
    if !Current(slot, id) || k >= |slot.value.rows| then Err(Conflict)
    else
      var row := slot.value.rows[k];
      match row.state
      case Executing => Err(Uncertain)
      case NoEffect => Err(Conflict)
      case Completed(result) => Ok((slot.value, Replay(result)))
      case Prepared =>
        Ok((slot.value.(rows := slot.value.rows[k := row.(state := Executing, attempts := row.attempts + 1)]), Execute))
  }

  /** The execution settles its operation once; repeating the same settlement changes nothing. */
  function SettleSlot(slot: Slot, id: Identity, k: nat, state: OperationState): Result<Stored, JournalError>
    requires state.Completed? || state.NoEffect?
  {
    if !Current(slot, id) || k >= |slot.value.rows| then Err(Conflict)
    else if slot.value.rows[k].state == state then Ok(slot.value)
    else if !slot.value.rows[k].state.Executing? then Err(Conflict)
    else Ok(SetState(slot.value, k, state))
  }

  /** Only an executing operation returns to `prepared`. */
  function ReprepareSlot(slot: Slot, id: Identity, k: nat): Result<Stored, JournalError> {
    if !Current(slot, id) || k >= |slot.value.rows| || !slot.value.rows[k].state.Executing? then Err(Conflict)
    else Ok(SetState(slot.value, k, Prepared))
  }

  predicate AllCompleted(s: Stored) { forall i :: 0 <= i < |s.rows| ==> s.rows[i].state.Completed? }

  predicate AnyExecuting(s: Stored) { exists i :: 0 <= i < |s.rows| && s.rows[i].state.Executing? }

  /** Once every result exists the delivered batch goes; a batch already gone is done. */
  function DeliveredSlot(slot: Slot, id: Identity): Result<Slot, JournalError> {
    if slot.None? then Ok(None)
    else if slot.value.identity != id || !slot.value.state.Open? || !AllCompleted(slot.value) then Err(Conflict)
    else Ok(None)
  }

  /** An open slot of this identity is emptied when some row is executing; the flag says if it was. */
  function AbandonSlot(slot: Slot, id: Identity): Result<(Slot, bool), JournalError> {
    if slot.None? then Ok((slot, false))
    else if slot.value.identity != id || !slot.value.state.Open? then Err(Conflict)
    else if AnyExecuting(slot.value) then Ok((None, true)) else Ok((slot, false))
  }

  /** An open slot of this identity becomes ended when no row is executing; the flag says if it did. */
  function EndSlot(slot: Slot, id: Identity): Result<(Slot, bool), JournalError> {
    if slot.None? then Ok((slot, false))
    else if slot.value.identity != id then Err(Conflict)
    else if slot.value.state.Ended? then Ok((slot, false))
    else if slot.value.state.Archived? then Err(Conflict)
    else if AnyExecuting(slot.value) then Ok((slot, false))
    else Ok((Some(slot.value.(state := Ended)), true))
  }

  /** As `EndSlot`, whatever the slot's identity is. */
  function EndSettledSlot(slot: Slot): Slot {
    if slot.Some? && slot.value.state.Open? && !AnyExecuting(slot.value)
    then Some(slot.value.(state := Ended)) else slot
  }

  /** A held batch becomes its reserved marker; its operation rows go. */
  function ArchiveSlot(slot: Slot, id: Identity): Result<Stored, JournalError> {
    if slot.None? || slot.value.identity != id then Err(Conflict)
    else if slot.value.state.Archived? then Ok(slot.value)
    else if !slot.value.archivable then Err(Conflict)
    else Ok(slot.value.(state := Archived, rows := []))
  }

  function ReleaseSlot(slot: Slot, id: Identity): Result<Slot, JournalError> {
    if slot.None? then Ok(None)
    else if slot.value.identity == id && slot.value.state.Archived? then Ok(None)
    else Err(Conflict)
  }

  // ----- The table -------------------------------------------------------------------------------------------------

  type Table = map<string, Stored>

  function SlotOf(t: Table, generation: string): Slot {
    if generation in t then Some(t[generation]) else None
  }

  function With(t: Table, generation: string, slot: Slot): (r: Table)
    ensures SlotOf(r, generation) == slot
    ensures forall g :: g != generation ==> SlotOf(r, g) == SlotOf(t, g)
  {
    if slot.Some? then t[generation := slot.value] else map g | g in t && g != generation :: t[g]
  }

  /** The generations that are not archive markers. */
  function Active(t: Table): set<string> { set g | g in t && !t[g].state.Archived? }

  /** The generations that hold, or are, an archive marker. */
  function Reserved(t: Table): set<string> { set g | g in t && t[g].archivable }

  datatype Limits = Limits(maxGenerations: nat, maxOperations: nat, maxArchived: nat)

  ghost predicate Inv(t: Table, limits: Limits) {
    && (forall g :: g in t ==> WellFormed(t[g]) && |t[g].identity.operations| <= limits.maxOperations)
    && |Active(t)| <= limits.maxGenerations
    && |Reserved(t)| <= limits.maxArchived
  }

  lemma Smaller(a: set<string>, b: set<string>)
    requires a <= b
    ensures |a| <= |b|
  {
    Json.SubsetSize(a, b);
  }

  /** Changing one generation to a well-formed batch that is no more active and no more reserved keeps the table
      valid. */
  lemma Kept(t: Table, generation: string, slot: Slot, limits: Limits)
    requires Inv(t, limits)
    requires slot.Some? ==> WellFormed(slot.value) && |slot.value.identity.operations| <= limits.maxOperations
    requires slot.Some? ==> generation in t && slot.value.archivable == t[generation].archivable
    requires slot.Some? && !slot.value.state.Archived? ==> !t[generation].state.Archived?
    ensures Inv(With(t, generation, slot), limits)
  {
    var r := With(t, generation, slot);
    Smaller(Active(r), Active(t));
    Smaller(Reserved(r), Reserved(t));
  }

  /** Adding one generation keeps the table valid while a reservation admits it. */
  lemma Added(t: Table, generation: string, s: Stored, limits: Limits)
    requires Inv(t, limits) && generation !in t
    requires WellFormed(s) && |s.identity.operations| <= limits.maxOperations
    requires |Active(t)| < limits.maxGenerations
    requires s.archivable ==> |Reserved(t)| < limits.maxArchived
    ensures Inv(t[generation := s], limits)
  {
    var r := t[generation := s];
    Smaller(Active(r), Active(t) + {generation});
    if s.archivable {
      Smaller(Reserved(r), Reserved(t) + {generation});
    } else {
      Smaller(Reserved(r), Reserved(t));
    }
  }

  /** Some operations within the limit, each with its own interrupt. */
  predicate Buildable(operations: seq<Operation>, limits: Limits) {
    operations != [] && |operations| <= limits.maxOperations && DistinctInterrupts(operations)
  }

  /** The generation holds this very batch. */
  predicate Holding(t: Table, batch: Batch) {
    batch.generation in t && t[batch.generation].identity == batch.identity
  }

  /** There is room for the generation beside the others, and for a marker when it reserves one. */
  predicate Roomy(t: Table, generation: string, archivable: bool, limits: Limits) {
    var others := With(t, generation, None);
    |Active(others)| < limits.maxGenerations && (archivable ==> |Reserved(others)| < limits.maxArchived)
  }

  /** Fewer other generations are live than the limit, and fewer others hold a reservation when one is asked for. */
  ghost predicate HasRoom(t: Table, generation: string, archivable: bool, limits: Limits) {
    && |set g | g in t && g != generation && t[g].state != Archived| < limits.maxGenerations
    && (archivable ==> |set g | g in t && g != generation && t[g].archivable| < limits.maxArchived)
  }

  lemma RoomyExactly(t: Table, generation: string, archivable: bool, limits: Limits)
    ensures Roomy(t, generation, archivable, limits) <==> HasRoom(t, generation, archivable, limits)
  {
    var others := With(t, generation, None);
    assert forall g :: g in others <==> g in t && g != generation;
    assert Active(others) == set g | g in t && g != generation && t[g].state != Archived;
    assert Reserved(others) == set g | g in t && g != generation && t[g].archivable;
  }

  class ActionJournal {
    const limits: Limits
    var table: Table

    ghost predicate Valid()
      reads this
    {
      Inv(table, limits)
    }

    constructor (limits: Limits)
      ensures Valid() && table == map[] && this.limits == limits
    {
      this.limits := limits;
      this.table := map[];
    }

    /** Prepares a batch: exactly a well-formed one that its generation takes, with room unless it is held already. */
    method PrepareBatch(batch: Batch, archivable: bool) returns (r: Result<(), JournalError>)
      requires Valid()
      modifies this
      ensures Valid()
      ensures
        var p := PrepareSlot(old(SlotOf(table, batch.generation)), batch.identity, archivable);
        var built := Buildable(batch.identity.operations, limits);
        && (r.Ok? <==>
              built && p.Ok? && (Holding(old(table), batch)
                                 || HasRoom(old(table), batch.generation, archivable, limits)))
        && (r.Err? ==> r.error == if built && p.Err? then p.error else Conflict)
        && table == if r.Ok? then old(table)[batch.generation := p.value] else old(table)
    {
      var built := Build(batch.identity.operations);
      if !built {
        return Err(Conflict);
      }
      var prepared := PrepareSlot(SlotOf(table, batch.generation), batch.identity, archivable);
      if prepared.Err? {
        return Err(prepared.error);
      }
      RoomyExactly(table, batch.generation, archivable, limits);
      if Holding(table, batch) {
        Kept(table, batch.generation, Some(prepared.value), limits);
        assert With(table, batch.generation, Some(prepared.value)) == table[batch.generation := prepared.value];
      } else if Roomy(table, batch.generation, archivable, limits) {
        var freed := With(table, batch.generation, None);
        Kept(table, batch.generation, None, limits);
        Added(freed, batch.generation, prepared.value, limits);
        assert freed[batch.generation := prepared.value] == table[batch.generation := prepared.value];
      } else {
        return Err(Conflict);
      }
      table := table[batch.generation := prepared.value];
      return Ok(());
    }

    /** Whether these operations make a batch. */
    method Build(operations: seq<Operation>) returns (built: bool)
      ensures built <==> Buildable(operations, limits)
    {
      if operations == [] || |operations| > limits.maxOperations {
        return false;
      }
      for i := 0 to |operations|
        invariant DistinctInterrupts(operations[..i])
      {
        for j := 0 to i
          invariant forall m :: 0 <= m < j ==> operations[m].interrupt != operations[i].interrupt
        {
          if operations[j].interrupt == operations[i].interrupt {
            return false;
          }
        }
      }
      assert operations[..|operations|] == operations;
      return true;
    }

    /** The loop that finds an operation by its interrupt. */
    method Find(operations: seq<Operation>, interrupt: string) returns (k: nat)
      ensures k == PlaceOf(operations, interrupt)
    {
      k := 0;
      while k < |operations| && operations[k].interrupt != interrupt
        invariant k <= |operations|
        invariant forall i :: 0 <= i < k ==> operations[i].interrupt != interrupt
      {
        k := k + 1;
      }
      PlaceUnique(operations, interrupt, k);
    }

    method Begin(batch: Batch, interrupt: string) returns (r: Result<Execution, JournalError>)
      requires Valid()
      modifies this
      ensures Valid()
      ensures
        var k := PlaceOf(batch.identity.operations, interrupt);
        var b := BeginSlot(old(SlotOf(table, batch.generation)), batch.identity, k);
        if b.Ok? then r == Ok(b.value.1) && table == old(table)[batch.generation := b.value.0]
        else r == Err(b.error) && table == old(table)
    {
      var slot := SlotOf(table, batch.generation);
      if !Current(slot, batch.identity) {
        return Err(Conflict);
      }
      var k := Find(batch.identity.operations, interrupt);
      var b := BeginSlot(slot, batch.identity, k);
      if b.Err? {
        return Err(b.error);
      }
      Kept(table, batch.generation, Some(b.value.0), limits);
      assert With(table, batch.generation, Some(b.value.0)) == table[batch.generation := b.value.0];
      table := table[batch.generation := b.value.0];
      return Ok(b.value.1);
    }

    /** `complete` and `fail_without_effect`: a result beyond the durable bound is refused before anything changes. */
    method Settle(batch: Batch, interrupt: string, state: OperationState) returns (r: Result<(), JournalError>)
      requires Valid()
      requires state.Completed? || state.NoEffect?
      modifies this
      ensures Valid()
      ensures state.Completed? && !ActionResult.Durable(state.result) ==> r == Err(Conflict) && table == old(table)
      ensures (state.Completed? ==> ActionResult.Durable(state.result)) ==>
        var k := PlaceOf(batch.identity.operations, interrupt);
        var b := SettleSlot(old(SlotOf(table, batch.generation)), batch.identity, k, state);
        if b.Ok? then r == Ok(()) && table == old(table)[batch.generation := b.value]
        else r == Err(b.error) && table == old(table)
    {
      if state.Completed? {
        var durable := ActionResult.RequireDurable(state.result);
        if !durable {
          return Err(Conflict);
        }
      }
      var slot := SlotOf(table, batch.generation);
      if !Current(slot, batch.identity) {
        return Err(Conflict);
      }
      var k := Find(batch.identity.operations, interrupt);
      var b := SettleSlot(slot, batch.identity, k, state);
      if b.Err? {
        return Err(b.error);
      }
      Kept(table, batch.generation, Some(b.value), limits);
      assert With(table, batch.generation, Some(b.value)) == table[batch.generation := b.value];
      table := table[batch.generation := b.value];
      return Ok(());
    }

    /** `suspend` and `not_dispatched`. */
    method Reprepare(batch: Batch, interrupt: string) returns (r: Result<(), JournalError>)
      requires Valid()
      modifies this
      ensures Valid()
      ensures
        var k := PlaceOf(batch.identity.operations, interrupt);
        var b := ReprepareSlot(old(SlotOf(table, batch.generation)), batch.identity, k);
        if b.Ok? then r == Ok(()) && table == old(table)[batch.generation := b.value]
        else r == Err(b.error) && table == old(table)
    {
      var slot := SlotOf(table, batch.generation);
      if !Current(slot, batch.identity) {
        return Err(Conflict);
      }
      var k := Find(batch.identity.operations, interrupt);
      var b := ReprepareSlot(slot, batch.identity, k);
      if b.Err? {
        return Err(b.error);
      }
      Kept(table, batch.generation, Some(b.value), limits);
      assert With(table, batch.generation, Some(b.value)) == table[batch.generation := b.value];
      table := table[batch.generation := b.value];
      return Ok(());
    }

    method Delivered(batch: Batch) returns (r: Result<(), JournalError>)
      requires Valid()
      modifies this
      ensures Valid()
      ensures var d := DeliveredSlot(old(SlotOf(table, batch.generation)), batch.identity);
        if d.Ok? then r == Ok(()) && table == With(old(table), batch.generation, None)
        else r == Err(d.error) && table == old(table)
    {
      var d := DeliveredSlot(SlotOf(table, batch.generation), batch.identity);
      if d.Err? {
        return Err(d.error);
      }
      Kept(table, batch.generation, None, limits);
      table := With(table, batch.generation, None);
      return Ok(());
    }

    method AbandonUncertain(batch: Batch) returns (r: Result<bool, JournalError>)
      requires Valid()
      modifies this
      ensures Valid()
      ensures var a := AbandonSlot(old(SlotOf(table, batch.generation)), batch.identity);
        if a.Ok? then r == Ok(a.value.1) && table == With(old(table), batch.generation, a.value.0)
        else r == Err(a.error) && table == old(table)
    {
      var slot := SlotOf(table, batch.generation);
      var a := AbandonSlot(slot, batch.identity);
      if a.Err? {
        return Err(a.error);
      }
      Kept(table, batch.generation, a.value.0, limits);
      table := With(table, batch.generation, a.value.0);
      return Ok(a.value.1);
    }

    method End(batch: Batch) returns (r: Result<bool, JournalError>)
      requires Valid()
      modifies this
      ensures Valid()
      ensures var e := EndSlot(old(SlotOf(table, batch.generation)), batch.identity);
        if e.Ok? then r == Ok(e.value.1) && table == With(old(table), batch.generation, e.value.0)
        else r == Err(e.error) && table == old(table)
    {
      var slot := SlotOf(table, batch.generation);
      var e := EndSlot(slot, batch.identity);
      if e.Err? {
        return Err(e.error);
      }
      Kept(table, batch.generation, e.value.0, limits);
      table := With(table, batch.generation, e.value.0);
      return Ok(e.value.1);
    }

    method EndSettled(generation: string)
      requires Valid()
      modifies this
      ensures Valid()
      ensures table == With(old(table), generation, EndSettledSlot(old(SlotOf(table, generation))))
    {
      var slot := EndSettledSlot(SlotOf(table, generation));
      Kept(table, generation, slot, limits);
      table := With(table, generation, slot);
    }

    /** Archiving never fails for capacity: the marker was reserved when the batch was prepared. */
    method Archive(batch: Batch) returns (r: Result<(), JournalError>)
      requires Valid()
      modifies this
      ensures Valid()
      ensures var a := ArchiveSlot(old(SlotOf(table, batch.generation)), batch.identity);
        if a.Ok? then r == Ok(()) && table == old(table)[batch.generation := a.value]
        else r == Err(a.error) && table == old(table)
    {
      var a := ArchiveSlot(SlotOf(table, batch.generation), batch.identity);
      if a.Err? {
        return Err(a.error);
      }
      Kept(table, batch.generation, Some(a.value), limits);
      assert With(table, batch.generation, Some(a.value)) == table[batch.generation := a.value];
      table := table[batch.generation := a.value];
      return Ok(());
    }

    method ReleaseArchive(batch: Batch) returns (r: Result<(), JournalError>)
      requires Valid()
      modifies this
      ensures Valid()
      ensures var a := ReleaseSlot(old(SlotOf(table, batch.generation)), batch.identity);
        if a.Ok? then r == Ok(()) && table == With(old(table), batch.generation, None)
        else r == Err(a.error) && table == old(table)
    {
      var a := ReleaseSlot(SlotOf(table, batch.generation), batch.identity);
      if a.Err? {
        return Err(a.error);
      }
      Kept(table, batch.generation, None, limits);
      table := With(table, batch.generation, None);
      return Ok(());
    }
  }
}
