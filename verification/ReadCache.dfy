/**
 A cache bounded by count and weight over reads that finish later: entries in the order of their last use, and for each
 key at most one flight whose result may still land.

 Every method is one section under the cache's lock, or one read starting or finishing outside it; lookups, reads,
 landings and discards of any number of callers interleave as any order of calls.
 */
module ReadCache {
  import opened Basics

  /** What a read returns; the cache never looks inside it, nor inside an error. */
  type Content = string
  type Failure = string

  datatype Entry = Entry(key: string, value: Content, size: nat)

  // ----- Eviction --------------------------------------------------------------------------------------------------

  function Weight(entries: seq<Entry>): nat {
    if entries == [] then 0 else entries[0].size + Weight(entries[1..])
  }

  lemma {:induction false} WeightConcat(a: seq<Entry>, b: seq<Entry>)
    ensures Weight(a + b) == Weight(a) + Weight(b)
    decreases |a|
  {
    if a == [] {
      assert a + b == b;
    } else {
      assert (a + b)[1..] == a[1..] + b;
      WeightConcat(a[1..], b);
    }
  }

  /** Within the count, and within the budget or down to one entry. */
  predicate Fits(entries: seq<Entry>, maxEntries: nat, maxWeight: Option<nat>) {
    |entries| <= maxEntries && (maxWeight.Some? ==> Weight(entries) <= maxWeight.value || |entries| <= 1)
  }

  /** How many of the oldest entries go. */
  ghost function Evictions(entries: seq<Entry>, maxEntries: nat, maxWeight: Option<nat>): (n: nat)
    ensures n <= |entries|
    decreases |entries|
  {
    if entries == [] || Fits(entries, maxEntries, maxWeight) then 0
    else Evictions(entries[1..], maxEntries, maxWeight) + 1
  }

  /** The entries kept are the longest run of the newest ones that fits, and never none of some. */
  lemma {:induction false} EvictionsFewest(entries: seq<Entry>, maxEntries: nat, maxWeight: Option<nat>)
    requires maxEntries >= 1
    ensures
      var n := Evictions(entries, maxEntries, maxWeight);
      && Fits(entries[n..], maxEntries, maxWeight) && (entries != [] ==> n < |entries|)
      && forall m :: 0 <= m < n ==> !Fits(entries[m..], maxEntries, maxWeight)
    decreases |entries|
  {
    assert entries[0..] == entries;
    if entries != [] && !Fits(entries, maxEntries, maxWeight) {
      EvictionsFewest(entries[1..], maxEntries, maxWeight);
      assert forall m :: 1 <= m <= |entries| ==> entries[1..][m - 1..] == entries[m..];
    }
  }

  // ----- What happened to a cache ----------------------------------------------------------------------------------

  /** A cached entry, when it was last used, and the flight whose read it is the result of. */
  datatype Row = Row(entry: Entry, used: nat, flight: nat)

  /** The cache and its history: the rows oldest first, the flight in the air for each key, each finished flight's
      shared result, and, by a clock, each flight's key and the time its read began, and each key's last discard. */
  datatype Log = Log(
    rows: seq<Row>, flights: map<string, nat>, cells: map<nat, Result<Content, Failure>>, next: nat,
    clock: nat, keys: map<nat, string>, begun: map<nat, nat>, discarded: map<string, nat>)

  function Entries(rows: seq<Row>): (r: seq<Entry>)
    ensures |r| == |rows| && forall i :: 0 <= i < |r| ==> r[i] == rows[i].entry
  {
    seq(|rows|, i requires 0 <= i < |rows| => rows[i].entry)
  }

  /** `i` is the place of the row of a key, or the number of rows when there is none. */
  ghost predicate PlaceOf(rows: seq<Row>, key: string, i: nat) {
    if i < |rows| then rows[i].entry.key == key else i == |rows| && forall row :: row in rows ==> row.entry.key != key
  }

  /** The flight is of this key, and its read, if it began, began after the key's last discard. */
  ghost predicate Current(l: Log, flight: nat, key: string) {
    && flight in l.keys && l.keys[flight] == key
    && (flight in l.begun && key in l.discarded ==> l.discarded[key] < l.begun[flight])
  }

  /** A row holds the successful result of a finished read that began after its key's last discard. */
  ghost predicate RowInv(l: Log, row: Row) {
    && row.flight in l.cells && l.cells[row.flight] == Ok(row.entry.value) && row.flight in l.begun
    && Current(l, row.flight, row.entry.key) && row.entry.key !in l.flights && row.used < l.clock
  }

  /** Keys are unique and rows are in order of their last use. */
  predicate Ordered(rows: seq<Row>) {
    forall i, j :: 0 <= i < j < |rows| ==> rows[i].entry.key != rows[j].entry.key && rows[i].used < rows[j].used
  }

  ghost predicate HistoryInv(l: Log) {
    && (forall k :: k in l.flights ==> Current(l, l.flights[k], k))
    && (forall f :: f in l.keys ==> f < l.next)
    && (forall f :: f in l.cells ==> f in l.begun)
    && (forall f :: f in l.begun ==> f in l.keys && l.begun[f] < l.clock)
    && (forall k :: k in l.discarded ==> l.discarded[k] < l.clock)
  }

  ghost predicate Inv(l: Log, maxEntries: nat, maxWeight: Option<nat>) {
    && Ordered(l.rows) && Fits(Entries(l.rows), maxEntries, maxWeight)
    && RowsInv(l, l.rows) && HistoryInv(l)
  }

  ghost predicate RowsInv(l: Log, rows: seq<Row>) { forall row :: row in rows ==> RowInv(l, row) }

  // ----- The steps -------------------------------------------------------------------------------------------------

  function Without(rows: seq<Row>, i: nat): (r: seq<Row>)
    requires i < |rows|
    ensures |r| == |rows| - 1
  {
    rows[..i] + rows[i + 1..]
  }

  /** A lookup of the key at place `i`: a hit becomes the newest row; a miss joins its key's flight, or opens one. */
  function LookedUp(l: Log, key: string, i: nat): Log {
    if i < |l.rows| then Touched(l, i) else if key in l.flights then l.(clock := l.clock + 1) else Opened(l, key)
  }

  function Touched(l: Log, i: nat): Log
    requires i < |l.rows|
  {
    l.(rows := Without(l.rows, i) + [l.rows[i].(used := l.clock)], clock := l.clock + 1)
  }

  function Opened(l: Log, key: string): Log {
    l.(flights := l.flights[key := l.next], keys := l.keys[l.next := key], next := l.next + 1, clock := l.clock + 1)
  }

  /** A caller of an unfinished flight starts its read, again after one that was dropped. */
  function Began(l: Log, flight: nat): Log {
    l.(begun := l.begun[flight := l.clock], clock := l.clock + 1)
  }

  function Finished(l: Log, flight: nat, result: Result<Content, Failure>): Log {
    l.(cells := l.cells[flight := result], clock := l.clock + 1)
  }

  /** A finished flight lands: only while it is its key's flight, kept only when it succeeded, then the oldest rows
      go. */
  ghost function Landed(l: Log, flight: nat, size: nat, maxEntries: nat, maxWeight: Option<nat>): Log
    requires flight in l.keys && flight in l.cells && maxEntries >= 1
  {
    var key := l.keys[flight];
    if key !in l.flights || l.flights[key] != flight then l.(clock := l.clock + 1)
    else
      match l.cells[flight]
      case Err(_) => l.(flights := l.flights - {key}, clock := l.clock + 1)
      case Ok(value) => Stored(l, Row(Entry(key, value, size), l.clock, flight), maxEntries, maxWeight)
  }

  /** A landed row is the newest; the oldest go until the rest fits. */
  ghost function Stored(l: Log, row: Row, maxEntries: nat, maxWeight: Option<nat>): Log {
    var rows := l.rows + [row];
    l.(rows := rows[Evictions(Entries(rows), maxEntries, maxWeight)..], flights := l.flights - {row.entry.key},
       clock := l.clock + 1)
  }

  /** A discard forgets the key's entry, at place `i`, and its flight. */
  function Discarded(l: Log, key: string, i: nat): Log {
    l.(rows := if i < |l.rows| then Without(l.rows, i) else l.rows, flights := l.flights - {key},
       discarded := l.discarded[key := l.clock], clock := l.clock + 1)
  }

  datatype Step =
    | Lookup(key: string, place: nat)
    | Begin(flight: nat)
    | Finish(flight: nat, result: Result<Content, Failure>)
    | Land(flight: nat, size: nat)
    | Discard(key: string, place: nat)

  /** What callers can do: a read begins on a known unfinished flight, finishes once begun, and a finished flight
      lands. */
  ghost predicate Enabled(l: Log, step: Step) {
    match step
    case Lookup(key, i) => PlaceOf(l.rows, key, i)
    case Begin(f) => f in l.keys && f !in l.cells
    case Finish(f, _) => f in l.begun && f !in l.cells
    case Land(f, _) => f in l.keys && f in l.cells
    case Discard(key, i) => PlaceOf(l.rows, key, i)
  }

  ghost function After(l: Log, step: Step, maxEntries: nat, maxWeight: Option<nat>): Log
    requires Enabled(l, step) && maxEntries >= 1
  {
    match step
    case Lookup(key, i) => LookedUp(l, key, i)
    case Begin(f) => Began(l, f)
    case Finish(f, result) => Finished(l, f, result)
    case Land(f, size) => Landed(l, f, size, maxEntries, maxWeight)
    case Discard(key, i) => Discarded(l, key, i)
  }

  // ----- Every step keeps the cache sound --------------------------------------------------------------------------

  lemma WithoutWeight(rows: seq<Row>, i: nat)
    requires i < |rows|
    ensures Weight(Entries(Without(rows, i))) + rows[i].entry.size == Weight(Entries(rows))
  {
    var entries := Entries(rows);
    assert Entries(Without(rows, i)) == entries[..i] + entries[i + 1..];
    WeightConcat(entries[..i], entries[i + 1..]);
    WeightConcat(entries[..i], entries[i..]);
    assert entries[..i] + entries[i..] == entries;
    assert entries[i..][1..] == entries[i + 1..];
  }

  lemma PushedWeight(rows: seq<Row>, row: Row)
    ensures Weight(Entries(rows + [row])) == Weight(Entries(rows)) + row.entry.size
  {
    assert Entries(rows + [row]) == Entries(rows) + [row.entry];
    WeightConcat(Entries(rows), [row.entry]);
    assert [row.entry][1..] == [];
  }

  lemma WithoutOrdered(rows: seq<Row>, i: nat)
    requires Ordered(rows) && i < |rows|
    ensures Ordered(Without(rows, i))
    ensures forall row :: row in Without(rows, i) ==> row in rows && row.entry.key != rows[i].entry.key
  {
    var rest := Without(rows, i);
    forall j, k | 0 <= j < k < |rest| ensures rest[j].entry.key != rest[k].entry.key && rest[j].used < rest[k].used {
      assert rest[j] == rows[if j < i then j else j + 1] && rest[k] == rows[if k < i then k else k + 1];
    }
  }

  lemma PushedOrdered(rows: seq<Row>, row: Row)
    requires Ordered(rows) && forall r :: r in rows ==> r.entry.key != row.entry.key && r.used < row.used
    ensures Ordered(rows + [row])
  {
    var all := rows + [row];
    forall j, k | 0 <= j < k < |all| ensures all[j].entry.key != all[k].entry.key && all[j].used < all[k].used {
      assert all[j] in rows;
    }
  }

  lemma WithoutFits(rows: seq<Row>, i: nat, maxEntries: nat, maxWeight: Option<nat>)
    requires i < |rows| && Fits(Entries(rows), maxEntries, maxWeight)
    ensures Fits(Entries(Without(rows, i)), maxEntries, maxWeight)
    ensures forall used :: Fits(Entries(Without(rows, i) + [rows[i].(used := used)]), maxEntries, maxWeight)
  {
    WithoutWeight(rows, i);
    forall used: nat ensures Fits(Entries(Without(rows, i) + [rows[i].(used := used)]), maxEntries, maxWeight) {
      PushedWeight(Without(rows, i), rows[i].(used := used));
    }
  }

  lemma {:induction false} HitKeeps(l: Log, i: nat, maxEntries: nat, maxWeight: Option<nat>)
    requires Inv(l, maxEntries, maxWeight) && i < |l.rows|
    ensures Inv(Touched(l, i), maxEntries, maxWeight)
  {
    var after := Touched(l, i);
    assert l.rows[i] in l.rows;
    WithoutOrdered(l.rows, i);
    WithoutFits(l.rows, i, maxEntries, maxWeight);
    PushedOrdered(Without(l.rows, i), l.rows[i].(used := l.clock));
    assert RowsInv(after, after.rows) by {
      forall row | row in after.rows ensures RowInv(after, row) {
        assert RowInv(l, if row in Without(l.rows, i) then row else l.rows[i]);
      }
    }
  }

  lemma {:induction false} MissKeeps(l: Log, key: string, maxEntries: nat, maxWeight: Option<nat>)
    requires Inv(l, maxEntries, maxWeight) && key !in l.flights && forall row :: row in l.rows ==> row.entry.key != key
    ensures Inv(Opened(l, key), maxEntries, maxWeight)
  {
  }

  lemma {:induction false} LookupKeeps(l: Log, key: string, i: nat, maxEntries: nat, maxWeight: Option<nat>)
    requires Inv(l, maxEntries, maxWeight) && PlaceOf(l.rows, key, i)
    ensures Inv(LookedUp(l, key, i), maxEntries, maxWeight)
  {
    if i < |l.rows| {
      HitKeeps(l, i, maxEntries, maxWeight);
    } else if key in l.flights {
      Ticks(l, maxEntries, maxWeight);
    } else {
      MissKeeps(l, key, maxEntries, maxWeight);
    }
  }

  lemma BeginKeeps(l: Log, flight: nat, maxEntries: nat, maxWeight: Option<nat>)
    requires Inv(l, maxEntries, maxWeight) && flight in l.keys && flight !in l.cells
    ensures Inv(Began(l, flight), maxEntries, maxWeight)
  {
    assert forall row :: row in l.rows ==> RowInv(l, row);
  }

  lemma FinishKeeps(l: Log, flight: nat, result: Result<Content, Failure>, maxEntries: nat, maxWeight: Option<nat>)
    requires Inv(l, maxEntries, maxWeight) && flight in l.begun && flight !in l.cells
    ensures Inv(Finished(l, flight, result), maxEntries, maxWeight)
  {
    assert forall row :: row in l.rows ==> RowInv(l, row);
  }

  lemma {:induction false} DiscardKeeps(l: Log, key: string, i: nat, maxEntries: nat, maxWeight: Option<nat>)
    requires Inv(l, maxEntries, maxWeight) && PlaceOf(l.rows, key, i)
    ensures Inv(Discarded(l, key, i), maxEntries, maxWeight)
    ensures forall row :: row in Discarded(l, key, i).rows ==> row.entry.key != key
  {
    if i < |l.rows| {
      WithoutOrdered(l.rows, i);
      WithoutFits(l.rows, i, maxEntries, maxWeight);
    }
  }

  /** The flight of a key that lands with a value: the newest row, after which the oldest go. */
  lemma KeptLanding(l: Log, row: Row, maxEntries: nat, maxWeight: Option<nat>)
    requires Ordered(l.rows) && RowsInv(l, l.rows) && maxEntries >= 1
    requires row.used == l.clock && forall r :: r in l.rows ==> r.entry.key != row.entry.key
    ensures
      var rows := l.rows + [row];
      var kept := rows[Evictions(Entries(rows), maxEntries, maxWeight)..];
      Ordered(kept) && Fits(Entries(kept), maxEntries, maxWeight) && forall r :: r in kept ==> r in rows
  {
    PushedOrdered(l.rows, row);
    var rows := l.rows + [row];
    var n := Evictions(Entries(rows), maxEntries, maxWeight);
    EvictionsFewest(Entries(rows), maxEntries, maxWeight);
    assert Entries(rows)[n..] == Entries(rows[n..]);
  }

  /** Whatever of the old rows and the landed one is kept is sound once the flight is gone. */
  lemma {:induction false} LandedRows(l: Log, row: Row, kept: seq<Row>)
    requires RowsInv(l, l.rows) && row.entry.key in l.flights && l.flights[row.entry.key] == row.flight && HistoryInv(l)
    requires row.flight in l.cells && l.cells[row.flight] == Ok(row.entry.value) && row.used == l.clock
    requires forall r :: r in kept ==> r in l.rows + [row]
    ensures
      var after := l.(rows := kept, flights := l.flights - {row.entry.key}, clock := l.clock + 1);
      RowsInv(after, kept) && HistoryInv(after)
  {
  }

  lemma {:induction false} ValueLands(l: Log, row: Row, maxEntries: nat, maxWeight: Option<nat>)
    requires Inv(l, maxEntries, maxWeight) && maxEntries >= 1
    requires row.entry.key in l.flights && l.flights[row.entry.key] == row.flight
    requires row.flight in l.cells && l.cells[row.flight] == Ok(row.entry.value) && row.used == l.clock
    ensures Inv(Stored(l, row, maxEntries, maxWeight), maxEntries, maxWeight)
  {
    assert forall r :: r in l.rows ==> RowInv(l, r);
    KeptLanding(l, row, maxEntries, maxWeight);
    var rows := l.rows + [row];
    var kept := rows[Evictions(Entries(rows), maxEntries, maxWeight)..];
    LandedRows(l, row, kept);
    assert Stored(l, row, maxEntries, maxWeight) ==
      l.(rows := kept, flights := l.flights - {row.entry.key}, clock := l.clock + 1);
  }

  lemma {:induction false} ErrorLands(l: Log, key: string, maxEntries: nat, maxWeight: Option<nat>)
    requires Inv(l, maxEntries, maxWeight)
    ensures Inv(l.(flights := l.flights - {key}, clock := l.clock + 1), maxEntries, maxWeight)
  {
    assert forall r :: r in l.rows ==> RowInv(l, r);
  }

  lemma {:induction false} LandKeeps(l: Log, flight: nat, size: nat, maxEntries: nat, maxWeight: Option<nat>)
    requires Inv(l, maxEntries, maxWeight) && flight in l.keys && flight in l.cells && maxEntries >= 1
    ensures Inv(Landed(l, flight, size, maxEntries, maxWeight), maxEntries, maxWeight)
  {
    var key, after := l.keys[flight], Landed(l, flight, size, maxEntries, maxWeight);
    if key !in l.flights || l.flights[key] != flight {
      Ticks(l, maxEntries, maxWeight);
      assert after == l.(clock := l.clock + 1);
    } else if l.cells[flight].Ok? {
      var row := Row(Entry(key, l.cells[flight].value, size), l.clock, flight);
      ValueLands(l, row, maxEntries, maxWeight);
      assert after == Stored(l, row, maxEntries, maxWeight);
    } else {
      ErrorLands(l, key, maxEntries, maxWeight);
      assert after == l.(flights := l.flights - {key}, clock := l.clock + 1);
    }
  }

  lemma {:induction false} Ticks(l: Log, maxEntries: nat, maxWeight: Option<nat>)
    requires Inv(l, maxEntries, maxWeight)
    ensures Inv(l.(clock := l.clock + 1), maxEntries, maxWeight)
  {
    assert forall r :: r in l.rows ==> RowInv(l, r);
  }

  lemma {:induction false} StepKeeps(l: Log, step: Step, maxEntries: nat, maxWeight: Option<nat>)
    requires Inv(l, maxEntries, maxWeight) && Enabled(l, step) && maxEntries >= 1
    ensures Inv(After(l, step, maxEntries, maxWeight), maxEntries, maxWeight)
  {
    match step
    case Lookup(key, i) => LookupKeeps(l, key, i, maxEntries, maxWeight);
    case Begin(f) => BeginKeeps(l, f, maxEntries, maxWeight);
    case Finish(f, result) => FinishKeeps(l, f, result, maxEntries, maxWeight);
    case Land(f, size) => LandKeeps(l, f, size, maxEntries, maxWeight);
    case Discard(key, i) => DiscardKeeps(l, key, i, maxEntries, maxWeight);
  }

  // ----- Every interleaving ----------------------------------------------------------------------------------------

  function Empty(): Log { Log([], map[], map[], 0, 0, map[], map[], map[]) }

  /** The cache after these steps of any callers, or nothing when one of them could not happen. */
  ghost function Run(steps: seq<Step>, maxEntries: nat, maxWeight: Option<nat>): Option<Log>
    requires maxEntries >= 1
  {
    if steps == [] then Some(Empty())
    else
      var before := Run(steps[..|steps| - 1], maxEntries, maxWeight);
      if before.Some? && Enabled(before.value, steps[|steps| - 1])
      then Some(After(before.value, steps[|steps| - 1], maxEntries, maxWeight)) else None
  }

  lemma {:induction false} RunSound(steps: seq<Step>, maxEntries: nat, maxWeight: Option<nat>)
    requires maxEntries >= 1 && Run(steps, maxEntries, maxWeight).Some?
    ensures Inv(Run(steps, maxEntries, maxWeight).value, maxEntries, maxWeight)
    decreases |steps|
  {
    if steps == [] {
      assert Entries([]) == [];
    } else {
      RunSound(steps[..|steps| - 1], maxEntries, maxWeight);
      StepKeeps(Run(steps[..|steps| - 1], maxEntries, maxWeight).value, steps[|steps| - 1], maxEntries, maxWeight);
    }
  }

  /** The clock counts the steps, and the times it gave are those of the steps they stand for. */
  ghost predicate Timed(steps: seq<Step>, l: Log) {
    && l.clock == |steps|
    && (forall f :: f in l.begun ==> l.begun[f] < |steps| && steps[l.begun[f]] == Begin(f))
    && (forall d :: 0 <= d < |steps| && steps[d].Discard? ==>
          steps[d].key in l.discarded && d <= l.discarded[steps[d].key])
  }

  lemma {:induction false} RunTimed(steps: seq<Step>, maxEntries: nat, maxWeight: Option<nat>)
    requires maxEntries >= 1 && Run(steps, maxEntries, maxWeight).Some?
    ensures Timed(steps, Run(steps, maxEntries, maxWeight).value)
    decreases |steps|
  {
    if steps != [] {
      var n := |steps| - 1;
      LastStep(steps, maxEntries, maxWeight);
      RunTimed(steps[..n], maxEntries, maxWeight);
      TimedNext(steps[..n], Run(steps[..n], maxEntries, maxWeight).value, steps[n], maxEntries, maxWeight);
    }
  }

  lemma {:induction false} LastStep(steps: seq<Step>, maxEntries: nat, maxWeight: Option<nat>)
    requires maxEntries >= 1 && steps != [] && Run(steps, maxEntries, maxWeight).Some?
    ensures
      var n := |steps| - 1;
      && steps[..n] + [steps[n]] == steps && Run(steps[..n], maxEntries, maxWeight).Some?
      && var l := Run(steps[..n], maxEntries, maxWeight).value;
         && Enabled(l, steps[n]) && (forall k :: k in l.discarded ==> l.discarded[k] < l.clock)
         && Run(steps, maxEntries, maxWeight).value == After(l, steps[n], maxEntries, maxWeight)
  {
    FrontAndLast(steps);
    DiscardsPast(steps[..|steps| - 1], maxEntries, maxWeight);
  }

  lemma FrontAndLast(steps: seq<Step>)
    requires steps != []
    ensures steps[..|steps| - 1] + [steps[|steps| - 1]] == steps
  {
  }

  lemma {:induction false} DiscardsPast(steps: seq<Step>, maxEntries: nat, maxWeight: Option<nat>)
    requires maxEntries >= 1 && Run(steps, maxEntries, maxWeight).Some?
    ensures var l := Run(steps, maxEntries, maxWeight).value; forall k :: k in l.discarded ==> l.discarded[k] < l.clock
  {
    RunSound(steps, maxEntries, maxWeight);
  }

  lemma {:induction false} TimedNext(steps: seq<Step>, l: Log, step: Step, maxEntries: nat, maxWeight: Option<nat>)
    requires Timed(steps, l) && (forall k :: k in l.discarded ==> l.discarded[k] < l.clock)
    requires maxEntries >= 1 && Enabled(l, step)
    ensures Timed(steps + [step], After(l, step, maxEntries, maxWeight))
  {
    match step
    case Lookup(key, i) => TimedLookup(steps, l, key, i);
    case Begin(f) => TimedStep(steps, l, step, Began(l, f));
    case Finish(f, result) => TimedStep(steps, l, step, Finished(l, f, result));
    case Land(f, size) => TimedLand(steps, l, f, size, maxEntries, maxWeight);
    case Discard(key, i) => TimedStep(steps, l, step, Discarded(l, key, i));
  }

  lemma {:induction false} TimedStep(steps: seq<Step>, l: Log, step: Step, after: Log)
    requires Timed(steps, l) && (forall k :: k in l.discarded ==> l.discarded[k] < l.clock)
      && after.clock == l.clock + 1
    requires after.begun == if step.Begin? then l.begun[step.flight := l.clock] else l.begun
    requires after.discarded == if step.Discard? then l.discarded[step.key := l.clock] else l.discarded
    ensures Timed(steps + [step], after)
  {
    var all := steps + [step];
    forall d | 0 <= d < |all| && all[d].Discard?
      ensures all[d].key in after.discarded && d <= after.discarded[all[d].key]
    {
      assert d < |steps| ==> steps[d].key in l.discarded && d <= l.discarded[steps[d].key];
    }
  }

  lemma {:induction false} TimedLookup(steps: seq<Step>, l: Log, key: string, i: nat)
    requires Timed(steps, l) && (forall k :: k in l.discarded ==> l.discarded[k] < l.clock)
    ensures Timed(steps + [Lookup(key, i)], LookedUp(l, key, i))
  {
    TimedStep(steps, l, Lookup(key, i), LookedUp(l, key, i));
  }

  lemma {:induction false} TimedLand(steps: seq<Step>, l: Log, flight: nat, size: nat, maxEntries: nat,
                                     maxWeight: Option<nat>)
    requires Timed(steps, l) && (forall k :: k in l.discarded ==> l.discarded[k] < l.clock)
    requires flight in l.keys && flight in l.cells && maxEntries >= 1
    ensures Timed(steps + [Land(flight, size)], Landed(l, flight, size, maxEntries, maxWeight))
  {
    TimedStep(steps, l, Land(flight, size), Landed(l, flight, size, maxEntries, maxWeight));
  }

  /** In every interleaving a cached value is the successful result of a read that began after the last discard of its
      key: a read begun before a discard is never cached, and neither is an error. */
  lemma NoStaleEntry(steps: seq<Step>, maxEntries: nat, maxWeight: Option<nat>, row: Row)
    requires maxEntries >= 1 && Run(steps, maxEntries, maxWeight).Some?
      && row in Run(steps, maxEntries, maxWeight).value.rows
    ensures exists b ::
      && 0 <= b < |steps| && steps[b] == Begin(row.flight)
      && forall d :: b <= d < |steps| && steps[d].Discard? ==> steps[d].key != row.entry.key
    ensures
      var l := Run(steps, maxEntries, maxWeight).value;
      row.flight in l.cells && l.cells[row.flight] == Ok(row.entry.value)
  {
    RunSound(steps, maxEntries, maxWeight);
    RunTimed(steps, maxEntries, maxWeight);
    var l := Run(steps, maxEntries, maxWeight).value;
    assert RowInv(l, row);
    var b := l.begun[row.flight];
    assert steps[b] == Begin(row.flight);
  }

  /** A row's last use is the last lookup of its key that hit it, or its own landing. */
  ghost predicate UsedLast(steps: seq<Step>, row: Row) {
    && row.used < |steps|
    && ((steps[row.used].Lookup? && steps[row.used].key == row.entry.key) ||
        (steps[row.used].Land? && steps[row.used].flight == row.flight))
    && forall d :: row.used < d < |steps| && steps[d].Lookup? ==> steps[d].key != row.entry.key
  }

  lemma {:induction false} UsedLonger(steps: seq<Step>, step: Step, row: Row)
    requires UsedLast(steps, row) && (step.Lookup? ==> step.key != row.entry.key)
    ensures UsedLast(steps + [step], row)
  {
  }

  lemma {:induction false} UsedStep(steps: seq<Step>, l: Log, step: Step, maxEntries: nat, maxWeight: Option<nat>,
                                    row: Row)
    requires l.clock == |steps| && Ordered(l.rows) && Enabled(l, step) && maxEntries >= 1
    requires forall r :: r in l.rows ==> UsedLast(steps, r)
    requires row in After(l, step, maxEntries, maxWeight).rows
    ensures UsedLast(steps + [step], row)
  {
    if row in l.rows && !(step.Lookup? && step.key == row.entry.key) {
      UsedLonger(steps, step, row);
    } else if step.Lookup? {
      WithoutOrdered(l.rows, step.place);
      assert row == l.rows[step.place].(used := l.clock);
    } else {
      assert step.Land? && row.used == l.clock && row.flight == step.flight by {
        OnlyLandingAdds(l, step, maxEntries, maxWeight, row);
      }
    }
  }

  lemma {:induction false} OnlyLandingAdds(l: Log, step: Step, maxEntries: nat, maxWeight: Option<nat>, row: Row)
    requires Enabled(l, step) && maxEntries >= 1 && !step.Lookup? && row !in l.rows
    requires row in After(l, step, maxEntries, maxWeight).rows
    ensures step.Land? && row.used == l.clock && row.flight == step.flight
  {
  }

  lemma RunClock(steps: seq<Step>, maxEntries: nat, maxWeight: Option<nat>)
    requires maxEntries >= 1 && Run(steps, maxEntries, maxWeight).Some?
    ensures var l := Run(steps, maxEntries, maxWeight).value; l.clock == |steps| && Ordered(l.rows)
  {
    RunSound(steps, maxEntries, maxWeight);
    RunTimed(steps, maxEntries, maxWeight);
  }

  ghost predicate AllUsed(steps: seq<Step>, rows: seq<Row>) { forall row :: row in rows ==> UsedLast(steps, row) }

  lemma {:induction false} AllUsedStep(steps: seq<Step>, l: Log, step: Step, maxEntries: nat, maxWeight: Option<nat>)
    requires l.clock == |steps| && Ordered(l.rows) && Enabled(l, step) && maxEntries >= 1 && AllUsed(steps, l.rows)
    ensures AllUsed(steps + [step], After(l, step, maxEntries, maxWeight).rows)
  {
    forall row | row in After(l, step, maxEntries, maxWeight).rows ensures UsedLast(steps + [step], row) {
      UsedStep(steps, l, step, maxEntries, maxWeight, row);
    }
  }

  lemma {:induction false} RunAllUsed(steps: seq<Step>, maxEntries: nat, maxWeight: Option<nat>)
    requires maxEntries >= 1 && Run(steps, maxEntries, maxWeight).Some?
    ensures AllUsed(steps, Run(steps, maxEntries, maxWeight).value.rows)
    decreases |steps|
  {
    if steps != [] {
      var before, step := steps[..|steps| - 1], steps[|steps| - 1];
      RunAllUsed(before, maxEntries, maxWeight);
      RunClock(before, maxEntries, maxWeight);
      AllUsedStep(before, Run(before, maxEntries, maxWeight).value, step, maxEntries, maxWeight);
      assert before + [step] == steps;
    }
  }

  /** In every interleaving the rows are in order of their last use: the first evicted is the least recently used. */
  lemma {:induction false} RunUsed(steps: seq<Step>, maxEntries: nat, maxWeight: Option<nat>, row: Row)
    requires maxEntries >= 1 && Run(steps, maxEntries, maxWeight).Some?
    requires row in Run(steps, maxEntries, maxWeight).value.rows
    ensures UsedLast(steps, row)
    ensures Ordered(Run(steps, maxEntries, maxWeight).value.rows)
  {
    RunAllUsed(steps, maxEntries, maxWeight);
    RunClock(steps, maxEntries, maxWeight);
  }

  // ----- The rows as entries ---------------------------------------------------------------------------------------

  function Dropped(entries: seq<Entry>, i: nat): seq<Entry>
    requires i < |entries|
  {
    entries[..i] + entries[i + 1..]
  }

  lemma {:induction false} DroppedRows(rows: seq<Row>, i: nat)
    requires i < |rows|
    ensures Entries(Without(rows, i)) == Dropped(Entries(rows), i)
    ensures Weight(Dropped(Entries(rows), i)) + Entries(rows)[i].size == Weight(Entries(rows))
  {
    WithoutWeight(rows, i);
  }

  lemma {:induction false} MovedRows(rows: seq<Row>, i: nat, clock: nat)
    requires i < |rows|
    ensures
      var entries := Entries(rows);
      var moved := Dropped(entries, i) + [entries[i]];
      && Entries(Without(rows, i) + [rows[i].(used := clock)]) == moved
      && Weight(moved) == Weight(entries) && multiset(moved) == multiset(entries)
  {
    var entries := Entries(rows);
    DroppedRows(rows, i);
    WeightConcat(Dropped(entries, i), [entries[i]]);
    assert Weight([entries[i]]) == entries[i].size by { assert [entries[i]][1..] == []; }
    SameEntries(entries, i);
  }

  lemma SameEntries(entries: seq<Entry>, i: nat)
    requires i < |entries|
    ensures multiset(Dropped(entries, i) + [entries[i]]) == multiset(entries)
  {
    assert entries == entries[..i] + [entries[i]] + entries[i + 1..];
  }

  lemma {:induction false} LandedEntries(rows: seq<Row>, row: Row, maxEntries: nat, maxWeight: Option<nat>)
    ensures
      var all := Entries(rows) + [row.entry];
      var kept := (rows + [row])[Evictions(Entries(rows + [row]), maxEntries, maxWeight)..];
      && Entries(kept) == all[Evictions(all, maxEntries, maxWeight)..]
      && Weight(all) == Weight(Entries(rows)) + row.entry.size
  {
    assert Entries(rows + [row]) == Entries(rows) + [row.entry];
    PushedWeight(rows, row);
  }

  lemma {:induction false} DroppedHas(entries: seq<Entry>, key: string, i: nat, e: Entry)
    requires i < |entries| && entries[i].key == key
    requires forall k :: 0 <= k < |entries| && k != i ==> entries[k].key != key
    ensures e in Dropped(entries, i) <==> e in entries && e.key != key
  {
    if e in entries && e.key != key {
      var k :| 0 <= k < |entries| && entries[k] == e;
      assert Dropped(entries, i)[if k < i then k else k - 1] == e;
    }
    if e in Dropped(entries, i) {
      var k :| 0 <= k < |entries| - 1 && Dropped(entries, i)[k] == e;
      assert entries[if k < i then k else k + 1] == e;
    }
  }

  /** Exactly the entries of other keys. */
  ghost predicate WithoutKey(after: seq<Entry>, before: seq<Entry>, key: string) {
    forall e :: e in after <==> e in before && e.key != key
  }

  lemma {:induction false} ForgottenEntries(rows: seq<Row>, key: string, i: nat)
    requires Ordered(rows) && PlaceOf(rows, key, i)
    ensures WithoutKey(if i < |rows| then Dropped(Entries(rows), i) else Entries(rows), Entries(rows), key)
  {
    var entries := Entries(rows);
    if i < |rows| {
      assert entries[i].key == key && forall k :: 0 <= k < |entries| && k != i ==> entries[k].key != key;
      forall e ensures e in Dropped(entries, i) <==> e in entries && e.key != key {
        DroppedHas(entries, key, i, e);
      }
    } else {
      assert forall k :: 0 <= k < |rows| ==> rows[k] in rows;
    }
  }

  // ----- The cache itself ------------------------------------------------------------------------------------------

  class Cache {
    const maxEntries: nat
    const maxWeight: Option<nat>
    var entries: seq<Entry>
    var flights: map<string, nat>
    var weight: nat
    /** The identity of the next flight, and each flight's one shared result once its read finished. */
    var nextFlight: nat
    var cells: map<nat, Result<Content, Failure>>
    ghost var steps: seq<Step>
    ghost var log: Log

    /** The fields are those of the run so far. */
    ghost predicate Valid()
      reads this
    {
      && maxEntries >= 1
      && Run(steps, maxEntries, maxWeight) == Some(log)
      && entries == Entries(log.rows) && weight == Weight(entries)
      && flights == log.flights && nextFlight == log.next && cells == log.cells
    }

    constructor (maxEntries: nat, maxWeight: Option<nat>)
      ensures Valid() && entries == [] && flights == map[] && steps == []
      ensures this.maxEntries == (if maxEntries == 0 then 1 else maxEntries) && this.maxWeight == maxWeight
    {
      this.maxEntries := if maxEntries == 0 then 1 else maxEntries;
      this.maxWeight := maxWeight;
      entries, flights, weight := [], map[], 0;
      nextFlight, cells := 0, map[];
      steps, log := [], Empty();
      new;
      assert Entries([]) == [];
    }

    ghost method Take(step: Step)
      requires maxEntries >= 1 && Run(steps, maxEntries, maxWeight) == Some(log) && Enabled(log, step)
      modifies this`steps, this`log
      ensures Run(steps, maxEntries, maxWeight) == Some(log)
      ensures log == After(old(log), step, maxEntries, maxWeight) && steps == old(steps) + [step]
    {
      var longer := steps + [step];
      assert longer[..|longer| - 1] == steps && longer[|longer| - 1] == step;
      log := After(log, step, maxEntries, maxWeight);
      steps := longer;
    }

    method Find(key: string) returns (i: nat)
      requires Valid()
      ensures PlaceOf(log.rows, key, i)
    {
      i := 0;
      while i < |entries| && entries[i].key != key
        invariant i <= |entries| && forall j :: 0 <= j < i ==> entries[j].key != key
      {
        i := i + 1;
      }
    }

    /** The locked part of `get`: a hit moves its entry to the newest place; a miss joins the key's flight or opens
        one. */
    method Get(key: string) returns (hit: Option<Content>, flight: nat)
      requires Valid()
      modifies this
      ensures Valid() && cells == old(cells)
      ensures hit.Some? <==> exists i :: 0 <= i < |old(entries)| && old(entries)[i].key == key
      ensures hit.Some? ==>
        && flights == old(flights) && multiset(entries) == multiset(old(entries))
        && entries != [] && entries[|entries| - 1].key == key && entries[|entries| - 1].value == hit.value
      ensures hit.None? ==>
        && entries == old(entries) && flights == old(flights)[key := flight]
        && flight == if key in old(flights) then old(flights)[key] else old(nextFlight)
    {
      var i := Find(key);
      if i < |entries| {
        hit, flight := Some(entries[i].value), 0;
        Renew(i);
      } else {
        if key !in flights {
          flights := flights[key := nextFlight];
          nextFlight := nextFlight + 1;
        }
        hit, flight := None, flights[key];
        assert flights == old(flights)[key := flight];
      }
      Take(Lookup(key, i));
    }

    /** Moves one entry to the newest place. */
    method Renew(i: nat)
      requires Valid() && i < |entries|
      modifies this`entries
      ensures entries == Entries(Without(log.rows, i) + [log.rows[i].(used := log.clock)])
      ensures entries != [] && entries[|entries| - 1] == old(entries)[i]
      ensures weight == Weight(entries) && multiset(entries) == multiset(old(entries))
    {
      MovedRows(log.rows, i, log.clock);
      var entry := entries[i];
      entries := Dropped(entries, i) + [entry];
    }

    /** One caller of an unfinished flight starts its read outside the lock. */
    ghost method Start(flight: nat)
      requires Valid() && flight in log.keys && flight !in cells
      modifies this`steps, this`log
      ensures Valid() && flight in log.begun
    {
      Take(Begin(flight));
    }

    /** The started read of a flight ends, once: every caller of the flight shares the result. */
    method Settle(flight: nat, result: Result<Content, Failure>)
      requires Valid() && flight in log.begun && flight !in cells
      modifies this
      ensures Valid() && cells == old(cells)[flight := result] && entries == old(entries) && flights == old(flights)
    {
      cells := cells[flight := result];
      Take(Finish(flight, result));
    }

    /** `land`: only the key's own flight is cached, an error never, then the oldest entries go until the rest fits. */
    method Land(key: string, flight: nat, size: nat)
      requires Valid() && flight in cells && flight in log.keys && log.keys[flight] == key
      modifies this
      ensures Valid() && cells == old(cells)
      ensures (key !in old(flights) || old(flights)[key] != flight) ==>
        entries == old(entries) && flights == old(flights)
      ensures key in old(flights) && old(flights)[key] == flight ==>
        && flights == old(flights) - {key}
        && entries == match cells[flight]
           case Err(_) => old(entries)
           case Ok(value) =>
             var all := old(entries) + [Entry(key, value, size)];
             all[Evictions(all, maxEntries, maxWeight)..]
    {
      if key in flights && flights[key] == flight {
        if cells[flight].Ok? {
          Store(key, cells[flight].value, size, flight);
        }
        flights := flights - {key};
      }
      Take(Step.Land(flight, size));
    }

    /** A landed value becomes the newest entry, and the oldest make room for it. */
    method Store(key: string, value: Content, size: nat, ghost flight: nat)
      requires maxEntries >= 1 && entries == Entries(log.rows) && weight == Weight(entries)
      modifies this`entries, this`weight
      ensures
        var entry := Entry(key, value, size);
        var rows, all := log.rows + [Row(entry, log.clock, flight)], old(entries) + [entry];
        && entries == all[Evictions(all, maxEntries, maxWeight)..] && weight == Weight(entries)
        && entries == Entries(rows[Evictions(Entries(rows), maxEntries, maxWeight)..])
    {
      LandedEntries(log.rows, Row(Entry(key, value, size), log.clock, flight), maxEntries, maxWeight);
      entries, weight := entries + [Entry(key, value, size)], weight + size;
      Evict(entries);
    }

    /** The eviction loop. */
    method Evict(ghost all: seq<Entry>)
      requires maxEntries >= 1 && entries == all && weight == Weight(entries)
      modifies this`entries, this`weight
      ensures entries == all[Evictions(all, maxEntries, maxWeight)..] && weight == Weight(entries)
    {
      ghost var gone := 0;
      assert all[0..] == all;
      while |entries| > maxEntries || (maxWeight.Some? && weight > maxWeight.value && |entries| > 1)
        invariant gone <= |all| && entries == all[gone..] && weight == Weight(entries)
        invariant Evictions(all, maxEntries, maxWeight) == gone + Evictions(entries, maxEntries, maxWeight)
        decreases |entries|
      {
        weight := weight - entries[0].size;
        entries := entries[1..];
        gone := gone + 1;
      }
    }

    /** Drops the key's entry and its flight, so nothing begun before can land. */
    method Forget(key: string)
      requires Valid()
      modifies this
      ensures Valid() && cells == old(cells) && flights == old(flights) - {key}
      ensures WithoutKey(entries, old(entries), key)
    {
      var i := Find(key);
      RunSound(steps, maxEntries, maxWeight);
      ForgottenEntries(log.rows, key, i);
      if i < |entries| {
        DropEntry(i);
      }
      flights := flights - {key};
      Take(Discard(key, i));
    }

    /** Takes one entry out, and its size off the weight. */
    method DropEntry(i: nat)
      requires Valid() && i < |entries|
      modifies this`entries, this`weight
      ensures entries == Dropped(old(entries), i) == Entries(Without(log.rows, i)) && weight == Weight(entries)
    {
      DroppedRows(log.rows, i);
      weight := weight - entries[i].size;
      entries := Dropped(entries, i);
    }
  }
}
