/**
 One Team's file table: a byte quota and a file count, identical uploads stored once, a web mark shared by every row of
 the same bytes, and marks of the files a conversation references; an unreferenced file goes after its grace period.
 Every operation is one transaction that commits only when it succeeds.
 */
module TeamFiles {
  import opened Basics
  import opened TextOrder
  import Serialization

  const MAX_FILES: nat := 256
  const MAX_SELECTED: nat := 8
  const GRACE: int := 24 * 60 * 60

  datatype Row = Row(
    id: string, name: string, media: string, size: nat, digest: string, created: int, referenced: bool, idle: int,
    web: bool)

  datatype NewFile = NewFile(name: string, media: string, digest: string, size: nat, web: bool)

  datatype StorageError = Input | Quota | NotFound

  // ----- The table -------------------------------------------------------------------------------------------------

  function Used(rows: seq<Row>): nat { if rows == [] then 0 else Used(rows[..|rows| - 1]) + rows[|rows| - 1].size }

  predicate UniqueIds(rows: seq<Row>) { forall i, j :: 0 <= i < j < |rows| ==> rows[i].id != rows[j].id }

  /** Every row of one digest carries the same web mark. */
  ghost predicate UniformWeb(rows: seq<Row>) {
    forall i, j :: 0 <= i < |rows| && 0 <= j < |rows| && rows[i].digest == rows[j].digest ==> rows[i].web == rows[j].web
  }

  ghost predicate Sound(rows: seq<Row>, limit: nat) {
    UniqueIds(rows) && UniformWeb(rows) && |rows| <= 256 && Used(rows) <= limit
  }

  function ReferencedIds(rows: seq<Row>): set<string> { set i | 0 <= i < |rows| && rows[i].referenced :: rows[i].id }

  function Ids(rows: seq<Row>): set<string> { set i | 0 <= i < |rows| :: rows[i].id }

  // ----- Sweeping --------------------------------------------------------------------------------------------------

  /** Unreferenced, and idle for the whole grace period. */
  predicate Collectable(row: Row, now: int) { !row.referenced && row.idle <= now - GRACE }

  function Swept(rows: seq<Row>, now: int): seq<Row> {
    if rows == [] then []
    else
      var before, last := Swept(rows[..|rows| - 1], now), rows[|rows| - 1];
      if Collectable(last, now) then before else before + [last]
  }

  /** Exactly the rows that are referenced or within their grace period stay, in order. */
  lemma {:induction false} SweptKeeps(rows: seq<Row>, now: int, row: Row)
    ensures row in Swept(rows, now) <==> row in rows && (row.referenced || now - row.idle < 86_400)
    decreases |rows|
  {
    if rows != [] {
      SweptKeeps(rows[..|rows| - 1], now, row);
      assert rows == rows[..|rows| - 1] + [rows[|rows| - 1]];
    }
  }

  lemma FrontSound(rows: seq<Row>, limit: nat)
    requires Sound(rows, limit) && rows != []
    ensures Sound(rows[..|rows| - 1], limit) && rows == rows[..|rows| - 1] + [rows[|rows| - 1]]
  {
  }

  lemma {:induction false} SweptSound(rows: seq<Row>, now: int, limit: nat)
    requires Sound(rows, limit)
    ensures Sound(Swept(rows, now), limit) && Used(Swept(rows, now)) <= Used(rows) && |Swept(rows, now)| <= |rows|
    decreases |rows|
  {
    if rows != [] {
      var front, last := rows[..|rows| - 1], rows[|rows| - 1];
      FrontSound(rows, limit);
      SweptSound(front, now, limit);
      SweptLast(front, last, now, limit);
    }
  }

  lemma {:induction false} SweptLast(front: seq<Row>, last: Row, now: int, limit: nat)
    requires Sound(front + [last], limit) && Sound(Swept(front, now), limit)
    requires Used(Swept(front, now)) <= Used(front) && |Swept(front, now)| <= |front|
    ensures
      var swept := Swept(front + [last], now);
      Sound(swept, limit) && Used(swept) <= Used(front + [last]) && |swept| <= |front| + 1
  {
    var before := Swept(front, now);
    assert (front + [last])[..|front|] == front;
    forall i | 0 <= i < |before| ensures before[i] in front {
      SweptKeeps(front, now, before[i]);
    }
    if !Collectable(last, now) {
      SoundMore(before, last, front, limit);
    }
  }

  /** One more row of a table is sound beside some of the others. */
  lemma SoundMore(some: seq<Row>, last: Row, all: seq<Row>, limit: nat)
    requires Sound(some, limit) && Sound(all + [last], limit) && Used(some) <= Used(all) && |some| <= |all|
    requires forall i :: 0 <= i < |some| ==> some[i] in all
    ensures UniqueIds(some + [last]) && UniformWeb(some + [last]) && Used(some + [last]) <= Used(all + [last])
  {
    var whole, part := all + [last], some + [last];
    assert whole[..|all|] == all && part[..|some|] == some;
    forall i | 0 <= i < |some|
      ensures some[i].id != last.id && (some[i].digest == last.digest ==> some[i].web == last.web)
    {
      var k :| 0 <= k < |all| && all[k] == some[i];
      assert whole[k] == some[i] && whole[|all|] == last;
    }
  }

  lemma SweptReferences(rows: seq<Row>, now: int)
    ensures ReferencedIds(Swept(rows, now)) == ReferencedIds(rows)
  {
    var swept := Swept(rows, now);
    forall id | id in ReferencedIds(rows) ensures id in ReferencedIds(swept) {
      var i :| 0 <= i < |rows| && rows[i].referenced && rows[i].id == id;
      SweptKeeps(rows, now, rows[i]);
      var k :| 0 <= k < |swept| && swept[k] == rows[i];
    }
    forall id | id in ReferencedIds(swept) ensures id in ReferencedIds(rows) {
      var i :| 0 <= i < |swept| && swept[i].referenced && swept[i].id == id;
      SweptKeeps(rows, now, swept[i]);
      var k :| 0 <= k < |rows| && rows[k] == swept[i];
    }
  }

  // ----- Listing ---------------------------------------------------------------------------------------------------

  /** By creation, then by id. */
  predicate RowLeq(a: Row, b: Row) {
    a.created < b.created || (a.created == b.created && Serialization.TextLeq(a.id, b.id))
  }

  predicate Aged(rows: seq<Row>) { forall i, j :: 0 <= i < j < |rows| ==> RowLeq(rows[i], rows[j]) }

  function Placed(row: Row, sorted: seq<Row>): seq<Row> {
    if sorted == [] then [row]
    else if RowLeq(row, sorted[0]) then [row] + sorted
    else [sorted[0]] + Placed(row, sorted[1..])
  }

  function OldestFirst(rows: seq<Row>): seq<Row> {
    if rows == [] then [] else Placed(rows[0], OldestFirst(rows[1..]))
  }

  lemma RowOrder(a: Row, b: Row, c: Row)
    ensures RowLeq(a, b) || RowLeq(b, a)
    ensures RowLeq(a, b) && RowLeq(b, c) ==> RowLeq(a, c)
  {
    TextTotal(a.id, b.id);
    if Serialization.TextLeq(a.id, b.id) && Serialization.TextLeq(b.id, c.id) {
      TextTransitive(a.id, b.id, c.id);
    }
  }

  lemma {:induction false} PlacedAged(row: Row, sorted: seq<Row>)
    ensures multiset(Placed(row, sorted)) == multiset(sorted) + multiset{row}
    ensures Aged(sorted) ==> Aged(Placed(row, sorted))
    decreases |sorted|
  {
    if sorted != [] {
      assert sorted == [sorted[0]] + sorted[1..];
      if RowLeq(row, sorted[0]) {
        forall i | 0 < i < |sorted| && Aged(sorted) ensures RowLeq(row, sorted[i]) {
          RowOrder(row, sorted[0], sorted[i]);
        }
      } else {
        RowOrder(sorted[0], row, row);
        PlacedAged(row, sorted[1..]);
        PlacedAfter(row, sorted[0], sorted[1..]);
      }
    }
  }

  /** What is placed among later rows stays after an earlier one. */
  lemma {:induction false} PlacedAfter(row: Row, first: Row, sorted: seq<Row>)
    requires RowLeq(first, row)
    ensures (forall i :: 0 <= i < |sorted| ==> RowLeq(first, sorted[i])) ==>
      forall i :: 0 <= i < |Placed(row, sorted)| ==> RowLeq(first, Placed(row, sorted)[i])
    decreases |sorted|
  {
    if sorted != [] {
      PlacedAfter(row, first, sorted[1..]);
    }
  }

  lemma FirstOf(rows: seq<Row>)
    requires rows != []
    ensures multiset(rows) == multiset(rows[1..]) + multiset{rows[0]}
  {
    assert rows == [rows[0]] + rows[1..];
  }

  /** A listing holds exactly the rows, oldest first. */
  lemma {:induction false} OldestFirstListed(rows: seq<Row>)
    ensures multiset(OldestFirst(rows)) == multiset(rows) && Aged(OldestFirst(rows))
    ensures
      var listed := OldestFirst(rows);
      forall i, j :: 0 <= i < j < |listed| ==>
        && listed[i].created <= listed[j].created
        && (listed[i].created == listed[j].created ==> Serialization.TextLeq(listed[i].id, listed[j].id))
    decreases |rows|
  {
    if rows != [] {
      OldestFirstListed(rows[1..]);
      PlacedAged(rows[0], OldestFirst(rows[1..]));
      FirstOf(rows);
    }
  }

  // ----- Storing ---------------------------------------------------------------------------------------------------

  /** The rows, each changed by `f`. */
  function Each(rows: seq<Row>, f: Row -> Row): (r: seq<Row>)
    ensures |r| == |rows| && forall i :: 0 <= i < |rows| ==> r[i] == f(rows[i])
  {
    seq(|rows|, i requires 0 <= i < |rows| => f(rows[i]))
  }

  function WebMarked(rows: seq<Row>, digest: string): seq<Row> {
    Each(rows, (row: Row) => if row.digest == digest then row.(web := true) else row)
  }

  predicate HasMark(rows: seq<Row>, digest: string) {
    exists i :: 0 <= i < |rows| && rows[i].digest == digest && rows[i].web
  }

  predicate Identical(row: Row, file: NewFile) {
    row.digest == file.digest && row.name == file.name && row.media == file.media
  }

  /** The table once the sweep and the web mark of an upload are done. */
  function Readied(rows: seq<Row>, file: NewFile, now: int): seq<Row> {
    var swept := Swept(rows, now);
    if file.web || HasMark(swept, file.digest) then WebMarked(swept, file.digest) else swept
  }

  function NewRow(rows: seq<Row>, file: NewFile, id: string, now: int): Row {
    Row(id, file.name, file.media, file.size, file.digest, now, false, now,
        file.web || HasMark(Swept(rows, now), file.digest))
  }

  function Max(a: int, b: int): int { if a >= b then a else b }

  /** The row is the upload's, unreferenced and idle since now; a web upload marks it. */
  ghost predicate Uploads(row: Row, file: NewFile, id: string, now: int) {
    && row.id == id && row.name == file.name && row.media == file.media && row.size == file.size
    && row.digest == file.digest && row.created == now && !row.referenced && row.idle == now && (file.web ==> row.web)
  }

  lemma {:induction false} EachUsed(rows: seq<Row>, f: Row -> Row)
    requires forall i :: 0 <= i < |rows| ==> f(rows[i]).size == rows[i].size
    ensures Used(Each(rows, f)) == Used(rows)
    decreases |rows|
  {
    if rows != [] {
      var front := rows[..|rows| - 1];
      EachUsed(front, f);
      assert Each(rows, f)[..|rows| - 1] == Each(front, f);
    }
  }

  /** A change that keeps ids, sizes, digests and web marks keeps the table sound. */
  lemma EachSound(rows: seq<Row>, f: Row -> Row, limit: nat)
    requires Sound(rows, limit)
    requires forall i :: 0 <= i < |rows| ==>
      var r := f(rows[i]);
      r.id == rows[i].id && r.size == rows[i].size && r.digest == rows[i].digest && r.web == rows[i].web
    ensures Sound(Each(rows, f), limit)
  {
    EachUsed(rows, f);
  }

  lemma WebMarkedSound(rows: seq<Row>, digest: string, limit: nat)
    requires Sound(rows, limit)
    ensures Sound(WebMarked(rows, digest), limit) && Used(WebMarked(rows, digest)) == Used(rows)
  {
    EachUsed(rows, (row: Row) => if row.digest == digest then row.(web := true) else row);
  }

  /** After an upload every row of its bytes carries the mark the upload's row carries. */
  lemma ReadiedSound(rows: seq<Row>, file: NewFile, now: int, limit: nat)
    requires Sound(rows, limit)
    ensures
      var after := Readied(rows, file, now);
      && Sound(after, limit) && Used(after) == Used(Swept(rows, now)) && |after| == |Swept(rows, now)|
      && forall i :: 0 <= i < |after| && after[i].digest == file.digest ==>
           after[i].web == (file.web || HasMark(Swept(rows, now), file.digest))
  {
    SweptSound(rows, now, limit);
    WebMarkedSound(Swept(rows, now), file.digest, limit);
  }

  lemma AppendSound(rows: seq<Row>, row: Row, limit: nat)
    requires Sound(rows, limit) && |rows| < MAX_FILES && Used(rows) + row.size <= limit && row.id !in Ids(rows)
    requires forall i :: 0 <= i < |rows| && rows[i].digest == row.digest ==> rows[i].web == row.web
    ensures Sound(rows + [row], limit) && Used(rows + [row]) == Used(rows) + row.size
  {
    AppendUsed(rows, row);
    AppendUnique(rows, row);
  }

  lemma AppendUsed(rows: seq<Row>, row: Row)
    ensures Used(rows + [row]) == Used(rows) + row.size
  {
    assert (rows + [row])[..|rows|] == rows;
  }

  lemma AppendUnique(rows: seq<Row>, row: Row)
    requires UniqueIds(rows) && row.id !in Ids(rows)
    ensures UniqueIds(rows + [row])
  {
    assert forall i :: 0 <= i < |rows| ==> rows[i].id in Ids(rows);
  }

  // ----- The grace period ------------------------------------------------------------------------------------------

  /** When each file was last uploaded or released, by the clock its operation read. */
  type Activity = map<string, int>

  ghost predicate Tracked(rows: seq<Row>, active: Activity) { forall i :: 0 <= i < |rows| ==> rows[i].id in active }

  /** No row's grace period ends before it was idle that long since its last upload or release. */
  ghost predicate Graceful(rows: seq<Row>, active: Activity) {
    Tracked(rows, active) && forall i :: 0 <= i < |rows| ==> active[rows[i].id] <= rows[i].idle
  }

  /** What a sweep removes was unreferenced, and idle for the whole grace period since its last upload or release. */
  lemma {:induction false} SweptFair(rows: seq<Row>, active: Activity, now: int, row: Row)
    requires Graceful(rows, active) && row in rows && row !in Swept(rows, now)
    ensures !row.referenced && row.id in active && active[row.id] + GRACE <= now
  {
    SweptKeeps(rows, now, row);
    var i :| 0 <= i < |rows| && rows[i] == row;
  }

  /** Every row that is gone was swept fairly. */
  ghost predicate FairlyGone(before: seq<Row>, after: seq<Row>, active: Activity, now: int) {
    forall i :: 0 <= i < |before| && before[i].id !in Ids(after) ==>
      !before[i].referenced && before[i].id in active && active[before[i].id] + GRACE <= now
  }

  lemma GoneFairly(before: seq<Row>, after: seq<Row>, active: Activity, now: int)
    requires Graceful(before, active) && Ids(Swept(before, now)) <= Ids(after)
    ensures FairlyGone(before, after, active, now)
  {
    forall i | 0 <= i < |before| && before[i].id !in Ids(after)
      ensures !before[i].referenced && before[i].id in active && active[before[i].id] + GRACE <= now
    {
      SweptFair(before, active, now, before[i]);
    }
  }

  /** What a sweep leaves are rows of the table. */
  lemma {:induction false} SweptOf(rows: seq<Row>, now: int, i: nat) returns (k: nat)
    requires i < |Swept(rows, now)|
    ensures k < |rows| && rows[k] == Swept(rows, now)[i]
  {
    var row := Swept(rows, now)[i];
    SweptKeeps(rows, now, row);
    k :| 0 <= k < |rows| && rows[k] == row;
  }

  lemma {:induction false} SweptGraceful(rows: seq<Row>, active: Activity, now: int)
    requires Tracked(rows, active)
    ensures Tracked(Swept(rows, now), active) && (Graceful(rows, active) ==> Graceful(Swept(rows, now), active))
  {
    forall i | 0 <= i < |Swept(rows, now)|
      ensures
        var row := Swept(rows, now)[i];
        row.id in active && (Graceful(rows, active) ==> active[row.id] <= row.idle)
    {
      var k := SweptOf(rows, now, i);
    }
  }

  /** A sweep at `t` loses the row before its grace period since its last upload or release. */
  ghost predicate Lost(rows: seq<Row>, active: Activity, i: nat, t: int)
    requires i < |rows| && Tracked(rows, active)
  {
    rows[i] !in Swept(rows, t) && t < active[rows[i].id] + GRACE
  }

  /** No sweep ever loses a row early exactly when every unreferenced row is idle since its last upload or release. */
  lemma {:induction false} GraceMeans(rows: seq<Row>, active: Activity)
    requires Tracked(rows, active)
    ensures (forall i: nat, t :: i < |rows| ==> !Lost(rows, active, i, t)) <==>
      forall i :: 0 <= i < |rows| && !rows[i].referenced ==> active[rows[i].id] <= rows[i].idle
  {
    forall i: nat, t | i < |rows| ensures rows[i] !in Swept(rows, t) <==> Collectable(rows[i], t) {
      SweptKeeps(rows, t, rows[i]);
    }
    if i: nat :| i < |rows| && !rows[i].referenced && rows[i].idle < active[rows[i].id] {
      assert Lost(rows, active, i, rows[i].idle + GRACE);
    }
  }

  lemma SameIds(a: seq<Row>, b: seq<Row>)
    requires |a| <= |b| && forall i :: 0 <= i < |a| ==> a[i].id == b[i].id
    ensures Ids(a) <= Ids(b) && (|a| == |b| ==> Ids(a) == Ids(b))
  {
    forall id | id in Ids(a) ensures id in Ids(b) {
      var i :| 0 <= i < |a| && a[i].id == id;
      assert b[i].id == id;
    }
    if |a| == |b| {
      forall id | id in Ids(b) ensures id in Ids(a) {
        var i :| 0 <= i < |b| && b[i].id == id;
        assert a[i].id == id;
      }
    }
  }

  function Released(row: Row, now: int): Row { row.(referenced := false, idle := now) }

  // ----- References ------------------------------------------------------------------------------------------------

  function Referencing(rows: seq<Row>, ids: seq<string>): seq<Row> {
    Each(rows, (row: Row) => if row.id in ids then row.(referenced := true) else row)
  }

  /** The files a reference newly marks. */
  function Newly(rows: seq<Row>, ids: seq<string>): seq<string> {
    if ids == [] then []
    else
      var before, last := Newly(rows, ids[..|ids| - 1]), ids[|ids| - 1];
      if last in ReferencedIds(rows) then before else before + [last]
  }

  function Releasing(rows: seq<Row>, ids: seq<string>, now: int): seq<Row> {
    Each(rows, (row: Row) => if row.referenced && row.id in ids then Released(row, now) else row)
  }

  function Settling(rows: seq<Row>, ids: seq<string>, now: int): seq<Row> {
    Each(rows, (row: Row) =>
      if row.id in ids then row.(referenced := true) else if row.referenced then Released(row, now) else row)
  }

  lemma {:induction false} NewlyMeans(rows: seq<Row>, ids: seq<string>, id: string)
    ensures id in Newly(rows, ids) <==> id in ids && id !in ReferencedIds(rows)
    decreases |ids|
  {
    if ids != [] {
      NewlyMeans(rows, ids[..|ids| - 1], id);
      assert ids == ids[..|ids| - 1] + [ids[|ids| - 1]];
    }
  }

  lemma ReferencedAt(rows: seq<Row>, i: nat)
    requires UniqueIds(rows) && i < |rows|
    ensures rows[i].id in ReferencedIds(rows) <==> rows[i].referenced
  {
    if rows[i].id in ReferencedIds(rows) {
      var k :| 0 <= k < |rows| && rows[k].referenced && rows[k].id == rows[i].id;
    }
  }

  /** A reference adds exactly the named files to the referenced ones. */
  lemma ReferencingAdds(rows: seq<Row>, ids: seq<string>)
    requires forall id :: id in ids ==> id in Ids(rows)
    ensures ReferencedIds(Referencing(rows, ids)) == ReferencedIds(rows) + set id | id in ids
  {
    var after := Referencing(rows, ids);
    forall id | id in ids ensures id in ReferencedIds(after) {
      var i :| 0 <= i < |rows| && rows[i].id == id;
      assert after[i].referenced && after[i].id == id;
    }
    forall id | id in ReferencedIds(rows) ensures id in ReferencedIds(after) {
      var i :| 0 <= i < |rows| && rows[i].referenced && rows[i].id == id;
      assert after[i].referenced && after[i].id == id;
    }
  }

  /** Releasing what a reference newly marked restores the referenced files. */
  lemma {:induction false} ReferenceReleased(rows: seq<Row>, ids: seq<string>, now: int)
    requires UniqueIds(rows)
    ensures ReferencedIds(Releasing(Referencing(rows, ids), Newly(rows, ids), now)) == ReferencedIds(rows)
  {
    var marked := Referencing(rows, ids);
    var after := Releasing(marked, Newly(rows, ids), now);
    forall i | 0 <= i < |rows| ensures after[i].referenced == rows[i].referenced && after[i].id == rows[i].id {
      NewlyMeans(rows, ids, rows[i].id);
      ReferencedAt(rows, i);
      assert marked[i] == if rows[i].id in ids then rows[i].(referenced := true) else rows[i];
      assert after[i] == if marked[i].referenced && marked[i].id in Newly(rows, ids) then Released(marked[i], now)
                         else marked[i];
    }
    SameReferences(rows, after);
  }

  lemma SameReferences(a: seq<Row>, b: seq<Row>)
    requires |a| == |b| && forall i :: 0 <= i < |a| ==> a[i].referenced == b[i].referenced && a[i].id == b[i].id
    ensures ReferencedIds(a) == ReferencedIds(b)
  {
    forall id | id in ReferencedIds(a) ensures id in ReferencedIds(b) {
      var i :| 0 <= i < |a| && a[i].referenced && a[i].id == id;
      assert b[i].referenced && b[i].id == id;
    }
    forall id | id in ReferencedIds(b) ensures id in ReferencedIds(a) {
      var i :| 0 <= i < |b| && b[i].referenced && b[i].id == id;
      assert a[i].referenced && a[i].id == id;
    }
  }

  /** After a settlement the referenced files are exactly the named ones that exist. */
  lemma SettledExactly(rows: seq<Row>, ids: seq<string>, now: int)
    ensures ReferencedIds(Swept(Settling(rows, ids, now), now)) == set id | id in ids && id in Ids(rows)
  {
    var after := Settling(rows, ids, now);
    SweptReferences(after, now);
    forall id | id in ids && id in Ids(rows) ensures id in ReferencedIds(after) {
      var i :| 0 <= i < |rows| && rows[i].id == id;
      assert after[i].referenced && after[i].id == id;
    }
    forall id | id in ReferencedIds(after) ensures id in ids && id in Ids(rows) {
      var i :| 0 <= i < |after| && after[i].referenced && after[i].id == id;
      assert rows[i].id == id;
    }
  }

  // ----- What every transaction keeps ------------------------------------------------------------------------------

  /** Every activity was read from a clock up to this one. */
  ghost predicate Clocked(rows: seq<Row>, active: Activity, clock: int) {
    Tracked(rows, active) && forall i :: 0 <= i < |rows| ==> active[rows[i].id] <= clock
  }

  lemma {:induction false} SweptClocked(rows: seq<Row>, active: Activity, clock: int, now: int)
    requires Clocked(rows, active, clock)
    ensures Clocked(Swept(rows, now), active, clock)
  {
    forall i | 0 <= i < |Swept(rows, now)|
      ensures Swept(rows, now)[i].id in active && active[Swept(rows, now)[i].id] <= clock
    {
      var k := SweptOf(rows, now, i);
    }
  }

  lemma SweptKept(rows: seq<Row>, limit: nat, active: Activity, clock: int, now: int)
    requires Sound(rows, limit) && Clocked(rows, active, clock)
    ensures
      var swept := Swept(rows, now);
      && Sound(swept, limit) && Clocked(swept, active, Max(clock, now)) && ReferencedIds(swept) == ReferencedIds(rows)
      && (Graceful(rows, active) ==> Graceful(swept, active) && FairlyGone(rows, swept, active, now))
  {
    SweptSound(rows, now, limit);
    SweptGraceful(rows, active, now);
    SweptClocked(rows, active, clock, now);
    SweptReferences(rows, now);
    if Graceful(rows, active) {
      GoneFairly(rows, Swept(rows, now), active, now);
    }
  }

  /** The table an upload finds: sound, as fair as before, and with every id the sweep kept. */
  lemma ReadiedKept(rows: seq<Row>, limit: nat, active: Activity, clock: int, file: NewFile, now: int)
    requires Sound(rows, limit) && Clocked(rows, active, clock)
    ensures
      var table := Readied(rows, file, now);
      && Sound(table, limit) && Clocked(table, active, clock) && (Graceful(rows, active) ==> Graceful(table, active))
      && Ids(table) == Ids(Swept(rows, now)) && Used(table) == Used(Swept(rows, now))
  {
    ReadiedSound(rows, file, now, limit);
    ReadiedTimes(rows, active, clock, file, now);
  }

  lemma {:induction false} ReadiedTimes(rows: seq<Row>, active: Activity, clock: int, file: NewFile, now: int)
    requires Clocked(rows, active, clock)
    ensures
      var table := Readied(rows, file, now);
      && Clocked(table, active, clock) && (Graceful(rows, active) ==> Graceful(table, active))
      && Ids(table) == Ids(Swept(rows, now))
  {
    var swept, table := Swept(rows, now), Readied(rows, file, now);
    SweptGraceful(rows, active, now);
    SweptClocked(rows, active, clock, now);
    SameTimes(swept, table, active, clock);
    SameIds(swept, table);
  }

  /** What is tracked, timely and fair depends on ids and idle times alone. */
  lemma {:induction false} SameTimes(a: seq<Row>, b: seq<Row>, active: Activity, clock: int)
    requires |a| == |b| && forall i :: 0 <= i < |b| ==> b[i].id == a[i].id && b[i].idle == a[i].idle
    ensures Clocked(a, active, clock) ==> Clocked(b, active, clock)
    ensures Graceful(a, active) ==> Graceful(b, active)
  {
  }

  /** The table after an identical upload of row `k`. */
  function Reused(table: seq<Row>, k: nat, now: int): seq<Row>
    requires k < |table|
  {
    table[k := table[k].(idle := Max(table[k].idle, now))]
  }

  /** The last activity of a file once it was also active at `now`. */
  ghost function Touched(active: Activity, id: string, now: int): Activity
    requires id in active
  {
    active[id := Max(active[id], now)]
  }

  lemma ReusedKept(table: seq<Row>, limit: nat, active: Activity, clock: int, k: nat, now: int)
    requires Sound(table, limit) && Clocked(table, active, clock) && k < |table|
    ensures
      var next, after := Reused(table, k, now), Touched(active, table[k].id, now);
      && Sound(next, limit) && Clocked(next, after, Max(clock, now))
      && (Graceful(table, active) ==> Graceful(next, after))
      && Used(next) == Used(table) && Ids(next) == Ids(table)
  {
    var next := Reused(table, k, now);
    var f := (row: Row) => if row.id == table[k].id then row.(idle := Max(row.idle, now)) else row;
    assert next == Each(table, f);
    EachSound(table, f, limit);
    EachUsed(table, f);
    SameIds(table, next);
  }

  /** An identical upload keeps the table sound and removes only what its grace period allows. */
  lemma ReuseKept(rows: seq<Row>, limit: nat, active: Activity, clock: int, file: NewFile, k: nat, now: int)
    requires Sound(rows, limit) && Clocked(rows, active, clock) && k < |Readied(rows, file, now)|
    ensures
      var table := Readied(rows, file, now);
      && table[k].id in active
      && var next, after := Reused(table, k, now), Touched(active, table[k].id, now);
         && Sound(next, limit) && Clocked(next, after, Max(clock, now))
         && (Graceful(rows, active) ==> Graceful(next, after) && FairlyGone(rows, next, active, now))
         && Used(next) == Used(table) == Used(Swept(rows, now))
  {
    var table := Readied(rows, file, now);
    ReadiedKept(rows, limit, active, clock, file, now);
    ReusedKept(table, limit, active, clock, k, now);
    if Graceful(rows, active) {
      GoneFairly(rows, Reused(table, k, now), active, now);
    }
  }

  lemma AddedKept(table: seq<Row>, limit: nat, active: Activity, clock: int, row: Row, now: int)
    requires Sound(table, limit) && Clocked(table, active, clock) && row.idle == now
    requires |table| < MAX_FILES && Used(table) + row.size <= limit && row.id !in Ids(table)
    requires forall i :: 0 <= i < |table| && table[i].digest == row.digest ==> table[i].web == row.web
    ensures
      var next, after := table + [row], active[row.id := now];
      && Sound(next, limit) && Clocked(next, after, Max(clock, now))
      && (Graceful(table, active) ==> Graceful(next, after))
      && Used(next) == Used(table) + row.size && Ids(table) <= Ids(next)
  {
    AppendSound(table, row, limit);
    SameIds(table, table + [row]);
    assert forall i :: 0 <= i < |table| ==> table[i].id in Ids(table);
  }

  /** A new upload within the limits keeps the table sound and removes only what its grace period allows. */
  lemma UploadKept(rows: seq<Row>, limit: nat, active: Activity, clock: int, file: NewFile, id: string, now: int)
    requires Sound(rows, limit) && Clocked(rows, active, clock) && id !in Ids(rows)
    requires |Readied(rows, file, now)| < MAX_FILES && Used(Readied(rows, file, now)) + file.size <= limit
    ensures
      var next, after := Readied(rows, file, now) + [NewRow(rows, file, id, now)], active[id := now];
      && Sound(next, limit) && Clocked(next, after, Max(clock, now))
      && (Graceful(rows, active) ==> Graceful(next, after) && FairlyGone(rows, next, active, now))
      && Used(next) == Used(Swept(rows, now)) + file.size == Used(Readied(rows, file, now)) + file.size
  {
    var table, row := Readied(rows, file, now), NewRow(rows, file, id, now);
    ReadiedKept(rows, limit, active, clock, file, now);
    FreshSwept(rows, now, id);
    ReadiedSound(rows, file, now, limit);
    AddedKept(table, limit, active, clock, row, now);
    if Graceful(rows, active) {
      GoneFairly(rows, table + [row], active, now);
    }
  }

  lemma ReferencingMore(rows: seq<Row>, ids: seq<string>, id: string)
    ensures Referencing(Referencing(rows, ids), [id]) == Referencing(rows, ids + [id])
  {
  }

  lemma ReferencingKept(rows: seq<Row>, limit: nat, active: Activity, clock: int, ids: seq<string>)
    requires Sound(rows, limit) && Clocked(rows, active, clock)
    ensures
      var after := Referencing(rows, ids);
      && Sound(after, limit) && Clocked(after, active, clock) && (Graceful(after, active) <==> Graceful(rows, active))
      && Ids(after) == Ids(rows)
  {
    var after := Referencing(rows, ids);
    EachSound(rows, (row: Row) => if row.id in ids then row.(referenced := true) else row, limit);
    SameIds(rows, after);
    assert forall i :: 0 <= i < |rows| ==> after[i].id == rows[i].id && after[i].idle == rows[i].idle;
  }

  lemma ReleasingMore(rows: seq<Row>, ids: seq<string>, id: string, now: int)
    ensures Releasing(Releasing(rows, ids, now), [id], now) == Releasing(rows, ids + [id], now)
  {
  }

  /** Each released file was active at its release, and before. */
  ghost function ReleasedActivity(rows: seq<Row>, ids: seq<string>, active: Activity, now: int): Activity {
    map id | id in active :: if id in ids && id in ReferencedIds(rows) then Max(active[id], now) else active[id]
  }

  /** Every file a release lets go was last active by the clock it read. */
  ghost predicate InOrder(rows: seq<Row>, ids: seq<string>, active: Activity, now: int)
    requires Tracked(rows, active)
  {
    forall i :: 0 <= i < |rows| && rows[i].referenced && rows[i].id in ids ==> active[rows[i].id] <= now
  }

  /** In every table a release keeps the whole grace period of every file exactly when each file it lets go was last
      active by the clock it read. */
  lemma {:induction false} ReleaseGraceExactly(rows: seq<Row>, ids: seq<string>, active: Activity, now: int)
    requires UniqueIds(rows) && Graceful(rows, active)
    ensures Graceful(Releasing(rows, ids, now), ReleasedActivity(rows, ids, active, now)) <==>
      InOrder(rows, ids, active, now)
  {
    var after, next := Releasing(rows, ids, now), ReleasedActivity(rows, ids, active, now);
    forall i | 0 <= i < |rows|
      ensures after[i].id in next
      ensures next[after[i].id] <= after[i].idle <==>
        (rows[i].referenced && rows[i].id in ids ==> active[rows[i].id] <= now)
    {
      ReferencedAt(rows, i);
    }
  }

  lemma ReleasingKept(rows: seq<Row>, limit: nat, active: Activity, clock: int, ids: seq<string>, now: int)
    requires Sound(rows, limit) && Clocked(rows, active, clock)
    ensures
      var after := Releasing(rows, ids, now);
      && Sound(after, limit) && Clocked(after, ReleasedActivity(rows, ids, active, now), Max(clock, now))
      && Ids(after) == Ids(rows)
  {
    var after := Releasing(rows, ids, now);
    EachSound(rows, (row: Row) => if row.referenced && row.id in ids then Released(row, now) else row, limit);
    SameIds(rows, after);
  }

  /** Releasing what is no longer named, then marking what is newly named, is one settlement. */
  lemma SettlingParts(rows: seq<Row>, ids: seq<string>, dropped: seq<string>, missing: seq<string>, now: int)
    requires UniqueIds(rows)
    requires forall id :: id in dropped <==> id in ReferencedIds(rows) && id !in ids
    requires forall id :: id in missing <==> id in ids && id !in ReferencedIds(rows)
    ensures Referencing(Releasing(rows, dropped, now), missing) == Settling(rows, ids, now)
  {
    var released := Releasing(rows, dropped, now);
    forall i | 0 <= i < |rows| ensures Referencing(released, missing)[i] == Settling(rows, ids, now)[i] {
      ReferencedAt(rows, i);
    }
  }

  /** What a settlement releases is not past its grace period yet, so its own sweep keeps it: the settled table is as
      fair as the one before the sweep. */
  lemma {:induction false} SettledGraceful(rows: seq<Row>, ids: seq<string>, active: Activity, next: Activity, now: int)
    requires Graceful(rows, active) && Tracked(rows, next)
    requires forall i :: 0 <= i < |rows| && (rows[i].id in ids || !rows[i].referenced) ==>
      next[rows[i].id] == active[rows[i].id]
    ensures
      var after := Settling(rows, ids, now);
      Graceful(Swept(after, now), next) <==> Graceful(after, next)
  {
    var after := Settling(rows, ids, now);
    SweptGraceful(after, next, now);
    if Graceful(Swept(after, now), next) {
      forall i | 0 <= i < |after| ensures next[after[i].id] <= after[i].idle {
        if rows[i].referenced && rows[i].id !in ids {
          SweptKeeps(after, now, after[i]);
          var k :| 0 <= k < |Swept(after, now)| && Swept(after, now)[k] == after[i];
        }
      }
    }
  }

  /** In every table a settlement keeps the whole grace period of every file exactly when each file it lets go was last
      active by the clock it read. */
  lemma {:induction false} SettleGraceExactly(rows: seq<Row>, ids: seq<string>, dropped: seq<string>, active: Activity,
                                              now: int)
    requires UniqueIds(rows) && Graceful(rows, active)
    requires forall id :: id in dropped <==> id in ReferencedIds(rows) && id !in ids
    ensures Graceful(Swept(Settling(rows, ids, now), now), ReleasedActivity(rows, dropped, active, now))
      <==> InOrder(rows, dropped, active, now)
  {
    var missing := Newly(rows, ids);
    forall id ensures id in missing <==> id in ids && id !in ReferencedIds(rows) {
      NewlyMeans(rows, ids, id);
    }
    SettlingParts(rows, ids, dropped, missing, now);
    var released, next := Releasing(rows, dropped, now), ReleasedActivity(rows, dropped, active, now);
    ReleaseGraceExactly(rows, dropped, active, now);
    var after := Referencing(released, missing);
    assert forall i :: 0 <= i < |released| ==> after[i].id == released[i].id && after[i].idle == released[i].idle;
    forall i | 0 <= i < |rows| && (rows[i].id in ids || !rows[i].referenced)
      ensures next[rows[i].id] == active[rows[i].id]
    {
      ReferencedAt(rows, i);
    }
    SettledGraceful(rows, ids, active, next, now);
  }

  /** An upload, a reference and a second upload commit, then a release whose clock was read before the second: a sweep
      loses the file before its grace period since that upload. */
  lemma OutOfOrderRelease(file: NewFile, id: string, early: int, late: int)
    requires early < late < early + GRACE
    ensures
      var uploaded := Readied([], file, early) + [NewRow([], file, id, early)];
      var held := Readied(Referencing(uploaded, [id]), file, late);
      && |held| == 1 && Identical(held[0], file)
      && var released := Releasing(Reused(held, 0, late), [id], early);
         var active := ReleasedActivity(Reused(held, 0, late), [id], map[id := late], early);
         && Swept(released, early + GRACE) == [] && active[id] == late && Lost(released, active, 0, early + GRACE)
  {
    UploadedTwice(file, id, early, late);
    var uploaded := Readied([], file, early) + [NewRow([], file, id, early)];
    ReleasedEarly(Reused(Readied(Referencing(uploaded, [id]), file, late), 0, late)[0], early, late);
  }

  /** The second upload finds the first, referenced. */
  lemma UploadedTwice(file: NewFile, id: string, early: int, late: int)
    requires early < late
    ensures
      var uploaded := Readied([], file, early) + [NewRow([], file, id, early)];
      var held := Readied(Referencing(uploaded, [id]), file, late);
      && |held| == 1 && Identical(held[0], file) && held[0].id == id && held[0].referenced
      && var again := Reused(held, 0, late)[0];
         Reused(held, 0, late) == [again] && again.id == id && again.referenced && again.idle == late
  {
    var row := NewRow([], file, id, early);
    assert Readied([], file, early) == [];
    var referenced := Referencing([row], [id]);
    assert referenced == [row.(referenced := true)];
    assert Swept(referenced, late) == referenced by { assert referenced[..0] == []; }
  }

  /** A release by an earlier clock lets a sweep lose the file before its grace period. */
  lemma ReleasedEarly(row: Row, early: int, late: int)
    requires row.referenced && row.idle == late && early < late < early + GRACE
    ensures
      var released := Releasing([row], [row.id], early);
      var active := ReleasedActivity([row], [row.id], map[row.id := late], early);
      && Swept(released, early + GRACE) == [] && active[row.id] == late && Lost(released, active, 0, early + GRACE)
  {
    var released := Releasing([row], [row.id], early);
    assert released == [Released(row, early)];
    assert Swept(released, early + GRACE) == [] by { assert released[..0] == []; }
    assert [row][0].id in ReferencedIds([row]);
  }

  // ----- The store -------------------------------------------------------------------------------------------------

  /** A file id, as `file_id` admits it. */
  type IdCheck = string -> bool

  /** At most eight valid, different ids. */
  ghost predicate Selected(ids: seq<string>, valid: IdCheck) {
    && |ids| <= 8 && (forall i :: 0 <= i < |ids| ==> valid(ids[i]))
    && forall i, j :: 0 <= i < j < |ids| ==> ids[i] != ids[j]
  }

  ghost predicate Holds(table: seq<Row>, file: NewFile) { exists k :: 0 <= k < |table| && Identical(table[k], file) }

  /** The upload is the last row. */
  ghost predicate Adds(before: seq<Row>, table: seq<Row>, file: NewFile, id: string, now: int, after: seq<Row>) {
    after == table + [NewRow(before, file, id, now)] && Uploads(after[|table|], file, id, now)
  }

  /** The answer is an identical row's, and only its grace period changed. */
  ghost predicate Reuses(table: seq<Row>, file: NewFile, now: int, id: string, created: int, after: seq<Row>) {
    exists k :: 0 <= k < |table| && Identical(table[k], file) && id == table[k].id && created == table[k].created
      && after == Reused(table, k, now)
  }

  class FileStore {
    const limit: nat
    const valid: IdCheck
    var rows: seq<Row>
    /** When each file was last uploaded or released, and the latest clock any operation read. */
    ghost var active: Activity
    ghost var clock: int

    ghost predicate Valid()
      reads this
    {
      Sound(rows, limit) && Clocked(rows, active, clock)
    }

    /** No file goes before its grace period since its last upload or release. */
    ghost predicate Fair()
      reads this
    {
      Graceful(rows, active)
    }

    constructor (limit: nat, valid: IdCheck)
      ensures Valid() && Fair() && rows == [] && this.limit == limit && this.valid == valid
    {
      this.limit, this.valid := limit, valid;
      rows, active, clock := [], map[], 0;
    }

    method Select(ids: seq<string>) returns (ok: bool)
      ensures ok <==> Selected(ids, valid)
    {
      if |ids| > MAX_SELECTED {
        return false;
      }
      for i := 0 to |ids|
        invariant forall j :: 0 <= j < i ==> valid(ids[j])
        invariant Distinct(ids[..i])
      {
        if !valid(ids[i]) || ids[i] in ids[..i] {
          assert ids[i] in ids[..i] ==> exists k :: 0 <= k < i && ids[k] == ids[i];
          return false;
        }
      }
      assert ids[..|ids|] == ids;
      return true;
    }

    /** The first row identical to an upload, or the number of rows. */
    method Find(table: seq<Row>, file: NewFile) returns (k: nat)
      ensures k <= |table| && (k < |table| <==> Holds(table, file))
      ensures k < |table| ==> Identical(table[k], file)
    {
      k := 0;
      while k < |table| && !Identical(table[k], file)
        invariant k <= |table| && forall i :: 0 <= i < k ==> !Identical(table[i], file)
      {
        k := k + 1;
      }
    }

    /** An upload: an identical row is reused with its id and creation time, any other file becomes a row of its own. */
    method Put(file: NewFile, id: string, now: int) returns (r: Result<(string, int, nat), StorageError>)
      requires Valid() && id !in Ids(rows)
      modifies this
      ensures Valid() && clock >= old(clock) && (r.Err? ==> rows == old(rows) && active == old(active))
      ensures old(Fair()) ==> Fair() && (r.Ok? ==> FairlyGone(old(rows), rows, old(active), now))
      ensures
        var table := Readied(old(rows), file, now);
        if file.size == 0 then r == Err(Input)
        else if file.size > limit then r == Err(Quota)
        else if Holds(table, file) then
          && r.Ok? && r.value.2 == Used(rows) == Used(Swept(old(rows), now))
          && Reuses(table, file, now, r.value.0, r.value.1, rows)
        else if |table| >= 256 || Used(table) + file.size > limit then r == Err(Quota)
        else
          && r == Ok((id, now, Used(Swept(old(rows), now)) + file.size)) && Used(rows) == r.value.2
          && Adds(old(rows), table, file, id, now, rows)
    {
      if file.size == 0 {
        return Err(Input);
      }
      if file.size > limit {
        return Err(Quota);
      }
      var table := Readied(rows, file, now);
      var k := Find(table, file);
      if k < |table| {
        assert Reuses(table, file, now, table[k].id, table[k].created, Reused(table, k, now));
        r := Reuse(table, k, file, now);
      } else {
        r := Add(table, file, id, now);
      }
    }

    /** The identical row's grace period starts again, never earlier than it was. */
    method Reuse(table: seq<Row>, k: nat, file: NewFile, now: int) returns (r: Result<(string, int, nat), StorageError>)
      requires Valid() && table == Readied(rows, file, now) && k < |table|
      modifies this
      ensures Valid() && clock == Max(old(clock), now) && rows == Reused(table, k, now)
      ensures old(Fair()) ==> Fair() && FairlyGone(old(rows), rows, old(active), now)
      ensures r == Ok((table[k].id, table[k].created, Used(Swept(old(rows), now))))
      ensures Used(rows) == Used(Swept(old(rows), now))
    {
      ReuseKept(rows, limit, active, clock, file, k, now);
      r := Ok((table[k].id, table[k].created, Used(table)));
      active := Touched(active, table[k].id, now);
      clock := Max(clock, now);
      rows := Reused(table, k, now);
    }

    /** A new file is charged to the quota, unreferenced and idle from now on. */
    method Add(table: seq<Row>, file: NewFile, id: string, now: int)
      returns (r: Result<(string, int, nat), StorageError>)
      requires Valid() && table == Readied(rows, file, now) && id !in Ids(rows)
      modifies this
      ensures Valid() && clock >= old(clock) && (r.Err? ==> rows == old(rows) && active == old(active))
      ensures old(Fair()) ==> Fair() && (r.Ok? ==> FairlyGone(old(rows), rows, old(active), now))
      ensures
        if |table| >= MAX_FILES || Used(table) + file.size > limit then r == Err(Quota)
        else
          && r == Ok((id, now, Used(Swept(old(rows), now)) + file.size)) && Used(rows) == r.value.2
          && Adds(old(rows), table, file, id, now, rows)
    {
      if |table| >= MAX_FILES || Used(table) + file.size > limit {
        return Err(Quota);
      }
      UploadKept(rows, limit, active, clock, file, id, now);
      var next, after, later := table + [NewRow(rows, file, id, now)], active[id := now], Max(clock, now);
      assert Sound(next, limit) && Clocked(next, after, later);
      r := Ok((id, now, Used(table) + file.size));
      rows, active, clock := next, after, later;
    }

    /** The rows a sweep leaves, oldest first, and their usage. */
    method List(now: int) returns (listed: seq<Row>, used: nat)
      requires Valid()
      modifies this
      ensures Valid() && rows == Swept(old(rows), now) && listed == OldestFirst(rows) && used == Used(rows)
      ensures ReferencedIds(rows) == ReferencedIds(old(rows))
      ensures old(Fair()) ==> Fair() && FairlyGone(old(rows), rows, old(active), now)
    {
      SweptKept(rows, limit, active, clock, now);
      var swept := Swept(rows, now);
      rows, clock := swept, Max(clock, now);
      return OldestFirst(swept), Used(swept);
    }

    /** Marks the files a turn selected; the ones it newly marked, or nothing when one is gone. */
    method Reference(ids: seq<string>) returns (r: Result<seq<string>, StorageError>)
      requires Valid()
      modifies this`rows
      ensures Valid() && (Fair() <==> old(Fair()))
      ensures
        if !Selected(ids, valid) then r == Err(Input) && rows == old(rows)
        else if forall id :: id in ids ==> id in Ids(old(rows)) then
          r == Ok(Newly(old(rows), ids)) && rows == Referencing(old(rows), ids)
        else r == Err(NotFound) && rows == old(rows)
    {
      var ok := Select(ids);
      if !ok {
        return Err(Input);
      }
      var marked := MarkAll(rows, ids);
      if marked.None? {
        return Err(NotFound);
      }
      ReferencingKept(rows, limit, active, clock, ids);
      rows := marked.value.0;
      return Ok(marked.value.1);
    }

    /** Lets go of the named files; each one's grace period starts at the clock this read, so it is kept whole exactly
        when no later activity of the file committed before. */
    method Release(ids: seq<string>, now: int) returns (r: Result<(), StorageError>)
      requires Valid()
      modifies this
      ensures Valid()
      ensures !Selected(ids, valid) ==> r == Err(Input) && rows == old(rows) && active == old(active)
      ensures Selected(ids, valid) ==>
        && r == Ok(()) && rows == Releasing(old(rows), ids, now)
        && active == ReleasedActivity(old(rows), ids, old(active), now)
        && (old(Fair()) ==> (Fair() <==> InOrder(old(rows), ids, old(active), now)))
      ensures old(Fair()) && old(clock) <= now ==> Fair()
    {
      var ok := Select(ids);
      if !ok {
        return Err(Input);
      }
      var table := ReleaseAll(rows, ids, now);
      ReleasingKept(rows, limit, active, clock, ids, now);
      if Fair() {
        ReleaseGraceExactly(rows, ids, active, now);
      }
      active := ReleasedActivity(rows, ids, active, now);
      rows, clock := table, Max(clock, now);
      return Ok(());
    }

    /** Marks exactly the named files, lets go of every other one and sweeps. */
    method Settle(ids: seq<string>, now: int) returns (r: Result<(), StorageError>)
      requires Valid()
      modifies this
      ensures Valid()
      ensures !Selected(ids, valid) ==> r == Err(Input) && rows == old(rows) && active == old(active)
      ensures Selected(ids, valid) ==>
        && r == Ok(()) && rows == Swept(Settling(old(rows), ids, now), now)
        && ReferencedIds(rows) == (set id | id in ids && id in Ids(old(rows)))
        && (old(Fair()) ==>
              && FairlyGone(old(rows), rows, old(active), now)
              && (Fair() <==> SettledInOrder(old(rows), ids, old(active), now)))
      ensures old(Fair()) && old(clock) <= now ==> Fair()
    {
      var ok := Select(ids);
      if !ok {
        return Err(Input);
      }
      var dropped := Dropped(rows, ids);
      var table := ReleaseAll(rows, dropped, now);
      var missing := Newly(rows, ids);
      SettlingKept(rows, limit, active, clock, ids, dropped, now);
      if Fair() {
        SettlingExactly(rows, active, ids, dropped, now);
      }
      active := ReleasedActivity(rows, dropped, active, now);
      rows, clock := Swept(Referencing(table, missing), now), Max(clock, now);
      return Ok(());
    }
  }

  /** Every file a settlement lets go was last active by the clock it read. */
  ghost predicate SettledInOrder(rows: seq<Row>, ids: seq<string>, active: Activity, now: int)
    requires Tracked(rows, active)
  {
    forall i :: 0 <= i < |rows| && rows[i].referenced && rows[i].id !in ids ==> active[rows[i].id] <= now
  }

  lemma SettlingExactly(rows: seq<Row>, active: Activity, ids: seq<string>, dropped: seq<string>, now: int)
    requires UniqueIds(rows) && Graceful(rows, active)
    requires forall id :: id in dropped <==> id in ReferencedIds(rows) && id !in ids
    ensures
      var settled := Swept(Settling(rows, ids, now), now);
      && FairlyGone(rows, settled, active, now)
      && (Graceful(settled, ReleasedActivity(rows, dropped, active, now)) <==> SettledInOrder(rows, ids, active, now))
  {
    SettlingFair(rows, active, ids, now);
    SettleGraceExactly(rows, ids, dropped, active, now);
    DroppedInOrder(rows, ids, dropped, active, now);
  }

  lemma DroppedInOrder(rows: seq<Row>, ids: seq<string>, dropped: seq<string>, active: Activity, now: int)
    requires UniqueIds(rows) && Tracked(rows, active)
    requires forall id :: id in dropped <==> id in ReferencedIds(rows) && id !in ids
    ensures SettledInOrder(rows, ids, active, now) <==> InOrder(rows, dropped, active, now)
  {
    forall i | 0 <= i < |rows|
      ensures rows[i].referenced && rows[i].id !in ids <==> rows[i].referenced && rows[i].id in dropped
    {
      ReferencedAt(rows, i);
    }
  }

  /** A settlement collects only what a sweep before it would have. */
  lemma SettlingFair(rows: seq<Row>, active: Activity, ids: seq<string>, now: int)
    requires Graceful(rows, active)
    ensures FairlyGone(rows, Swept(Settling(rows, ids, now), now), active, now)
  {
    var after, swept := Settling(rows, ids, now), Swept(rows, now);
    var settled := Swept(after, now);
    forall id | id in Ids(swept) ensures id in Ids(settled) {
      var k :| 0 <= k < |swept| && swept[k].id == id;
      SweptKeeps(rows, now, swept[k]);
      var i :| 0 <= i < |rows| && rows[i] == swept[k];
      assert after[i].id == id && !Collectable(after[i], now);
      SweptKeeps(after, now, after[i]);
      var m :| 0 <= m < |settled| && settled[m] == after[i];
    }
    GoneFairly(rows, settled, active, now);
  }

  lemma SettlingKept(
    rows: seq<Row>, limit: nat, active: Activity, clock: int, ids: seq<string>, dropped: seq<string>, now: int)
    requires Sound(rows, limit) && Clocked(rows, active, clock)
    requires forall id :: id in dropped <==> id in ReferencedIds(rows) && id !in ids
    ensures
      var settled := Swept(Settling(rows, ids, now), now);
      && Sound(settled, limit) && Clocked(settled, ReleasedActivity(rows, dropped, active, now), Max(clock, now))
      && settled == Swept(Referencing(Releasing(rows, dropped, now), Newly(rows, ids)), now)
      && ReferencedIds(settled) == set id | id in ids && id in Ids(rows)
  {
    var missing := Newly(rows, ids);
    forall id ensures id in missing <==> id in ids && id !in ReferencedIds(rows) {
      NewlyMeans(rows, ids, id);
    }
    SettlingParts(rows, ids, dropped, missing, now);
    SettledExactly(rows, ids, now);
    var next := ReleasedActivity(rows, dropped, active, now);
    ReleasingKept(rows, limit, active, clock, dropped, now);
    ReferencingKept(Releasing(rows, dropped, now), limit, next, Max(clock, now), missing);
    SweptSound(Settling(rows, ids, now), now, limit);
    SweptClocked(Settling(rows, ids, now), next, Max(clock, now), now);
  }

  /** The loop that marks each selected file, and what it newly marked; nothing when one is gone. */
  method MarkAll(rows: seq<Row>, ids: seq<string>) returns (r: Option<(seq<Row>, seq<string>)>)
    ensures r ==
      if forall id :: id in ids ==> id in Ids(rows) then Some((Referencing(rows, ids), Newly(rows, ids))) else None
  {
    var table, added: seq<string> := rows, [];
    var known, held := Ids(rows), ReferencedIds(rows);
    assert Referencing(rows, []) == rows;
    for i := 0 to |ids|
      invariant table == Referencing(rows, ids[..i])
      invariant added == Newly(rows, ids[..i])
      invariant forall k :: 0 <= k < i ==> ids[k] in known
    {
      if ids[i] !in known {
        return None;
      }
      MarkMore(rows, ids, i);
      if ids[i] !in held {
        added := added + [ids[i]];
      }
      table := Referencing(table, [ids[i]]);
    }
    assert ids[..|ids|] == ids;
    return Some((table, added));
  }

  lemma MarkMore(rows: seq<Row>, ids: seq<string>, i: nat)
    requires i < |ids|
    ensures Referencing(Referencing(rows, ids[..i]), [ids[i]]) == Referencing(rows, ids[..i + 1])
    ensures Newly(rows, ids[..i + 1]) == Newly(rows, ids[..i]) + if ids[i] in ReferencedIds(rows) then [] else [ids[i]]
  {
    assert ids[..i + 1] == ids[..i] + [ids[i]] && ids[..i + 1][..i] == ids[..i];
    ReferencingMore(rows, ids[..i], ids[i]);
  }

  method ReleaseAll(rows: seq<Row>, ids: seq<string>, now: int) returns (table: seq<Row>)
    ensures table == Releasing(rows, ids, now)
  {
    table := rows;
    assert Releasing(rows, [], now) == rows;
    for i := 0 to |ids|
      invariant table == Releasing(rows, ids[..i], now)
    {
      assert ids[..i + 1] == ids[..i] + [ids[i]];
      ReleasingMore(rows, ids[..i], ids[i], now);
      table := Releasing(table, [ids[i]], now);
    }
    assert ids[..|ids|] == ids;
  }

  /** The referenced files that are no longer named. */
  method Dropped(rows: seq<Row>, ids: seq<string>) returns (dropped: seq<string>)
    ensures forall id :: id in dropped <==> id in ReferencedIds(rows) && id !in ids
  {
    dropped := [];
    for i := 0 to |rows|
      invariant forall id :: id in dropped <==> id in ReferencedIds(rows[..i]) && id !in ids
    {
      ReferencedMore(rows, i);
      if rows[i].referenced && rows[i].id !in ids {
        dropped := dropped + [rows[i].id];
      }
    }
    assert rows[..|rows|] == rows;
  }

  lemma ReferencedMore(rows: seq<Row>, i: nat)
    requires i < |rows|
    ensures ReferencedIds(rows[..i + 1]) == ReferencedIds(rows[..i]) + if rows[i].referenced then {rows[i].id} else {}
  {
    var all, some := rows[..i + 1], rows[..i];
    assert all[i] == rows[i];
    forall id | id in ReferencedIds(some) ensures id in ReferencedIds(all) {
      var k :| 0 <= k < |some| && some[k].referenced && some[k].id == id;
      assert all[k].referenced && all[k].id == id;
    }
  }

  lemma {:induction false} FreshSwept(rows: seq<Row>, now: int, id: string)
    requires id !in Ids(rows)
    ensures id !in Ids(Swept(rows, now))
  {
    var swept := Swept(rows, now);
    forall i | 0 <= i < |swept| ensures swept[i].id != id {
      SweptKeeps(rows, now, swept[i]);
      var k :| 0 <= k < |rows| && rows[k] == swept[i];
      assert rows[k].id in Ids(rows);
    }
  }
}
