/**
 When a recorded input has a source, and which one: stated over the recorded results, the positions a value has in them
 and the members of the items it is in.  One result, one position, or one position a person's own word singles out; in
 every other case the value has none and is asked about.
 */
module SourceExact {
  import opened Basics
  import opened Json
  import opened Pointers
  import opened KeptValues
  import opened PlanSelection
  import opened Provenance
  import opened Sourcing
  import opened SourceBinding

  // ----- The results that hold a value -----------------------------------------------------------------------------

  /** The value is at this position of the call's result, where nothing was withheld. */
  ghost predicate At(ctx: Context, n: nat, value: Value, p: Position) {
    && n < |ctx.calls| && LeadsTo(ctx.calls[n].result.value, p.tokens, p.arrays, value)
    && Available(ctx.calls[n].result, Pointer(p.tokens))
  }

  /** A representative other than the consumer's own holds the value. */
  ghost predicate Has(ctx: Context, consumer: nat, value: Value, n: nat) {
    && n < |ctx.calls| && Class(ctx.classes, n) == n && n != Class(ctx.classes, consumer)
    && exists p :: At(ctx, n, value, p)
  }

  /** The work ran a call this one represents. */
  ghost predicate Ran(ctx: Context, n: nat) {
    exists i :: 0 <= i < |ctx.work| && Class(ctx.classes, ctx.work[i]) == n
  }

  /** The one result the value is from: the only one that has it, or the only one the work ran for a consumer of its
      own. */
  ghost predicate Chosen(ctx: Context, consumer: nat, value: Value, n: nat) {
    && Has(ctx, consumer, value, n)
    && (|| (forall k :: Has(ctx, consumer, value, k) ==> k == n)
        || (&& Ran(ctx, Class(ctx.classes, consumer)) && Ran(ctx, n)
            && forall k :: Has(ctx, consumer, value, k) && Ran(ctx, k) ==> k == n))
  }

  lemma AvailableExactly(ctx: Context, n: nat, value: Value, p: Position)
    requires WellFormed(ctx) && n < |ctx.calls|
    ensures p in AvailablePositions(ctx.calls[n].result, value) <==> At(ctx, n, value, p)
  {
    PositionsExactly(ctx.calls[n].result.value, value, p);
  }

  lemma HasExactly(ctx: Context, consumer: nat, value: Value, n: nat)
    requires WellFormed(ctx)
    ensures n in HoldersOf(ctx, consumer, value, |ctx.calls|) <==> Has(ctx, consumer, value, n)
  {
    var list, own := Examinations(ctx, value), Class(ctx.classes, consumer);
    if n in HoldersOf(ctx, consumer, value, |ctx.calls|) {
      var j := ExaminedFirst(list, own, |ctx.calls|, n);
      NewHolder(ctx, consumer, value, j, n);
      var p := AvailablePositions(ctx.calls[n].result, value)[0];
      AvailableExactly(ctx, n, value, p);
    }
    if Has(ctx, consumer, value, n) {
      var p :| At(ctx, n, value, p);
      AvailableExactly(ctx, n, value, p);
      ExaminedHas(list, own, |ctx.calls|, n);
    }
  }

  lemma OnlyOne(s: set<nat>, n: nat)
    requires n in s
    ensures |s| == 1 <==> forall k :: k in s ==> k == n
  {
    if forall k :: k in s ==> k == n {
      assert s == {n};
    } else {
      var k :| k in s && k != n;
      SubsetSize({n, k}, s);
    }
  }

  /** Narrowing leaves one result exactly when the value is from it, and none exactly when none has it. */
  lemma NarrowedExactly(ctx: Context, consumer: nat, value: Value, n: nat)
    requires WellFormed(ctx)
    ensures |Narrowed(ctx, consumer, value)| == 1 && n in Narrowed(ctx, consumer, value) <==>
      Chosen(ctx, consumer, value, n)
    ensures Narrowed(ctx, consumer, value) == map[] <==> forall k :: !Has(ctx, consumer, value, k)
  {
    var found := HoldersOf(ctx, consumer, value, |ctx.calls|);
    forall k ensures k in found <==> Has(ctx, consumer, value, k) {
      HasExactly(ctx, consumer, value, k);
    }
    NarrowedKeys(ctx, consumer, found, n);
    ChosenSame(ctx, consumer, value, found.Keys, n);
    assert found == map[] <==> forall k :: k !in found;
  }

  ghost predicate ChosenIn(ctx: Context, consumer: nat, keys: set<nat>, n: nat) {
    && n in keys
    && (|| (forall k :: k in keys ==> k == n)
        || (&& Ran(ctx, Class(ctx.classes, consumer)) && Ran(ctx, n)
            && forall k :: k in keys && Ran(ctx, k) ==> k == n))
  }

  lemma ChosenSame(ctx: Context, consumer: nat, value: Value, keys: set<nat>, n: nat)
    requires forall k :: k in keys <==> Has(ctx, consumer, value, k)
    ensures ChosenIn(ctx, consumer, keys, n) <==> Chosen(ctx, consumer, value, n)
  {
  }

  lemma NarrowedKeys(ctx: Context, consumer: nat, found: map<nat, seq<Position>>, n: nat)
    ensures
      var narrowed := if |found| > 1 then FromWork(ctx, consumer, found) else found;
      && (|narrowed| == 1 && n in narrowed <==> ChosenIn(ctx, consumer, found.Keys, n))
      && (narrowed == map[] <==> found == map[])
  {
    var ran := set i | 0 <= i < |ctx.work| :: Class(ctx.classes, ctx.work[i]);
    var kept := map k | k in found && k in ran :: found[k];
    assert FromWork(ctx, consumer, found)
      == if Class(ctx.classes, consumer) in ran && |kept| == 1 then kept else found;
    assert forall k :: k in ran <==> Ran(ctx, k);
    assert forall k :: k in kept <==> k in found && Ran(ctx, k);
    SmallMap(found);
    MapOne(found, n);
    MapOne(kept, n);
  }

  lemma MapOne(m: map<nat, seq<Position>>, n: nat)
    ensures |m| == 1 && n in m <==> n in m && forall k :: k in m ==> k == n
  {
    assert |m| == |m.Keys|;
    if n in m {
      OnlyOne(m.Keys, n);
    }
  }

  lemma SmallMap(m: map<nat, seq<Position>>)
    ensures |m| == 0 <==> m == map[]
  {
    assert |m| == |m.Keys|;
  }

  // ----- The member that singles an item out -----------------------------------------------------------------------

  /** The path goes through members to one array, one of its items, and members inside it. */
  ghost predicate Through(v: Value, p: Position, list: seq<string>, items: seq<Value>, chosen: nat, rest: seq<string>) {
    && Reached(v, list) == Some(Arr(items)) && chosen < |items|
    && p.tokens == list + [IndexText(chosen)] + rest && |p.arrays| == |p.tokens|
    && forall k :: 0 <= k < |p.arrays| ==> (p.arrays[k] <==> k == |list|)
  }

  /** The path goes through members alone. */
  ghost predicate Plain(p: Position) { forall k :: 0 <= k < |p.arrays| ==> !p.arrays[k] }

  /** A member of the chosen item, other than the one the path goes on through, that a person wrote: text of at least
      two characters or a whole number. No other item has it, and none hides it. */
  ghost predicate Singles(ctx: Context, result: Kept, list: seq<string>, items: seq<Value>, chosen: nat,
                          rest: seq<string>, m: Member)
  {
    && chosen < |items| && items[chosen].Obj? && m in items[chosen].members
    && (rest == [] || rest[0] != m.key)
    && ((m.value.Str? && |m.value.text| >= 2) || (m.value.Num? && m.value.number.Int?)) && ctx.names(m.value)
    && forall i :: 0 <= i < |items| && i != chosen ==>
         && Available(result, Pointer(list + [IndexText(i), m.key]))
         && (Get(items[i], m.key).Some? ==> !Same(Get(items[i], m.key).value, m.value))
  }

  /** The member that selects the item: the only one that singles it out, or the only one of those that names it. */
  ghost predicate SelectsBy(ctx: Context, result: Kept, list: seq<string>, items: seq<Value>, chosen: nat,
                            rest: seq<string>, m: Member)
  {
    var names := {"name", "title", "label", "display_name", "hostname", "domain"};
    && Singles(ctx, result, list, items, chosen, rest, m)
    && (|| (forall k :: Singles(ctx, result, list, items, chosen, rest, k) ==> k == m)
        || (&& m.key in names
            && forall k :: Singles(ctx, result, list, items, chosen, rest, k) && k.key in names ==> k == m))
  }

  /** The position can be read by a selector. */
  ghost predicate Selected(ctx: Context, n: nat, p: Position)
    requires n < |ctx.calls|
  {
    exists list, items, chosen, rest, m ::
      && Through(ctx.calls[n].result.value, p, list, items, chosen, rest)
      && SelectsBy(ctx, ctx.calls[n].result, list, items, chosen, rest, m)
  }

  /** Exactly one place of a sequence passes. */
  ghost predicate OnePlace<T(!new)>(f: T -> bool, s: seq<T>) {
    exists i :: PassesOnly(f, s, i)
  }

  ghost predicate PassesOnly<T(!new)>(f: T -> bool, s: seq<T>, i: int) {
    0 <= i < |s| && f(s[i]) && forall j :: 0 <= j < |s| && f(s[j]) ==> j == i
  }

  lemma {:induction false} FilteredOnce<T(!new)>(f: T -> bool, s: seq<T>)
    ensures |Filtered(f, s)| == 1 <==> OnePlace(f, s)
    decreases |s|
  {
    if s != [] {
      if f(s[0]) {
        FilteredNone(f, s[1..]);
        FirstOnly(f, s);
      } else {
        FilteredOnce(f, s[1..]);
        LaterOnly(f, s);
      }
    }
  }

  lemma FirstOnly<T(!new)>(f: T -> bool, s: seq<T>)
    requires s != [] && f(s[0])
    ensures OnePlace(f, s) <==> forall j :: 0 <= j < |s[1..]| ==> !f(s[1..][j])
  {
    assert forall j :: 0 < j < |s| ==> s[j] == s[1..][j - 1];
    if forall j :: 0 <= j < |s[1..]| ==> !f(s[1..][j]) {
      assert PassesOnly(f, s, 0);
    }
  }

  lemma LaterOnly<T(!new)>(f: T -> bool, s: seq<T>)
    requires s != [] && !f(s[0])
    ensures OnePlace(f, s) <==> OnePlace(f, s[1..])
  {
    assert forall j :: 0 < j < |s| ==> s[j] == s[1..][j - 1];
    if i :| PassesOnly(f, s, i) {
      assert PassesOnly(f, s[1..], i - 1);
    }
    if i :| PassesOnly(f, s[1..], i) {
      assert PassesOnly(f, s, i + 1);
    }
  }

  lemma FilteredNone<T(!new)>(f: T -> bool, s: seq<T>)
    ensures Filtered(f, s) == [] <==> forall j :: 0 <= j < |s| ==> !f(s[j])
  {
    assert forall j :: 0 <= j < |s| && f(s[j]) ==> s[j] in Filtered(f, s);
    if Filtered(f, s) != [] {
      assert Filtered(f, s)[0] in Filtered(f, s);
    }
  }

  ghost predicate NoneAgain<T(!new)>(s: seq<T>) { forall i, j :: 0 <= i < j < |s| ==> s[i] != s[j] }

  lemma {:induction false} FilteredNoneAgain<T(!new)>(f: T -> bool, s: seq<T>)
    requires NoneAgain(s)
    ensures NoneAgain(Filtered(f, s))
    decreases |s|
  {
    if s != [] {
      FilteredNoneAgain(f, s[1..]);
      assert forall x :: x in Filtered(f, s[1..]) ==> x in s[1..];
      assert s[0] !in s[1..];
    }
  }

  lemma OneElement<T(!new)>(s: seq<T>, x: T)
    requires NoneAgain(s)
    ensures s == [x] <==> x in s && forall y :: y in s ==> y == x
  {
    if x in s && forall y :: y in s ==> y == x {
      assert forall i :: 0 <= i < |s| ==> s[i] in s;
      assert |s| > 1 ==> s[0] == s[1];
    }
  }

  /** One member is left of the item's exactly when it selects the item. */
  lemma SinglingExactly(ctx: Context, result: Kept, list: seq<string>, rest: seq<string>, items: seq<Value>,
                        chosen: nat, m: Member)
    requires chosen < |items| && (items[chosen].Obj? ==> UniqueKeys(items[chosen].members))
    ensures Singling(ctx, result, list, rest, items, chosen, items[chosen]) == [m] <==>
      SelectsBy(ctx, result, list, items, chosen, rest, m)
  {
    var members := Members(items[chosen]);
    var f := (m: Member) => (rest == [] || rest[0] != m.key) && Selectable(m.value, ctx.names);
    var g := (m: Member) => DistinctMember(result, list, items, chosen, m);
    var h := (m: Member) => m.key in NAME_MEMBERS;
    var unique := Filtered(g, Filtered(f, members));
    assert NoneAgain(members);
    FilteredNoneAgain(f, members);
    FilteredNoneAgain(g, Filtered(f, members));
    FilteredNoneAgain(h, unique);
    forall k ensures k in unique <==> Singles(ctx, result, list, items, chosen, rest, k) {
    }
    OneElement(unique, m);
    OneElement(Filtered(h, unique), m);
    assert |unique| > 1 ==> unique != [m];
    if m in unique && |unique| <= 1 {
      assert unique == [m];
    }
  }

  // ----- How one position is read ----------------------------------------------------------------------------------

  lemma {:induction false} CrossedNone(arrays: seq<bool>)
    requires forall k :: 0 <= k < |arrays| ==> !arrays[k]
    ensures Crossed(arrays) == []
    decreases |arrays|
  {
    if arrays != [] {
      CrossedNone(arrays[..|arrays| - 1]);
    }
  }

  lemma {:induction false} CrossedOnly(arrays: seq<bool>, place: nat)
    requires place < |arrays| && forall k :: 0 <= k < |arrays| ==> (arrays[k] <==> k == place)
    ensures Crossed(arrays) == [place]
    decreases |arrays|
  {
    var n := |arrays| - 1;
    if place == n {
      CrossedNone(arrays[..n]);
    } else {
      CrossedOnly(arrays[..n], place);
    }
  }

  lemma PlainExactly(p: Position)
    ensures Crossed(p.arrays) == [] <==> Plain(p)
  {
    if Crossed(p.arrays) != [] {
      assert Crossed(p.arrays)[0] in Crossed(p.arrays);
    }
    assert forall k :: 0 <= k < |p.arrays| && p.arrays[k] ==> k in Crossed(p.arrays);
  }

  /** A position inside one array's item is read as the item's members say. */
  lemma ThroughBinding(ctx: Context, n: nat, p: Position, list: seq<string>, items: seq<Value>, chosen: nat,
                       rest: seq<string>)
    requires WellFormed(ctx) && n < |ctx.calls| && Through(ctx.calls[n].result.value, p, list, items, chosen, rest)
    ensures UniqueKeys(Members(items[chosen]))
    ensures
      var result := ctx.calls[n].result;
      var single := Singling(ctx, result, list, rest, items, chosen, items[chosen]);
      BindingOf(ctx, n, p)
      == if |single| == 1 then BySelector(Pointer(list), single[0].key, single[0].value, Pointer(rest)) else Offered
  {
    var result := ctx.calls[n].result;
    CrossedOnly(p.arrays, |list|);
    assert p.tokens[..|list|] == list && p.tokens[|list|] == IndexText(chosen) && p.tokens[|list| + 1..] == rest;
    ReachedReach(result.value, list);
    ReachUnique(result.value, list);
    ParsedIndex(chosen);
  }

  /** The selector of a position that has one. */
  lemma SelectedBinding(ctx: Context, n: nat, p: Position, list: seq<string>, items: seq<Value>, chosen: nat,
                        rest: seq<string>, m: Member)
    requires WellFormed(ctx) && n < |ctx.calls| && Through(ctx.calls[n].result.value, p, list, items, chosen, rest)
    requires SelectsBy(ctx, ctx.calls[n].result, list, items, chosen, rest, m)
    ensures BindingOf(ctx, n, p) == BySelector(Pointer(list), m.key, m.value, Pointer(rest))
  {
    ThroughBinding(ctx, n, p, list, items, chosen, rest);
    SinglingExactly(ctx, ctx.calls[n].result, list, rest, items, chosen, m);
  }

  lemma BindingSelected(ctx: Context, n: nat, value: Value, p: Position)
    returns (list: seq<string>, items: seq<Value>, chosen: nat, rest: seq<string>, m: Member)
    requires WellFormed(ctx) && At(ctx, n, value, p) && BindingOf(ctx, n, p).BySelector?
    ensures Through(ctx.calls[n].result.value, p, list, items, chosen, rest)
    ensures SelectsBy(ctx, ctx.calls[n].result, list, items, chosen, rest, m)
    ensures BindingOf(ctx, n, p) == BySelector(Pointer(list), m.key, m.value, Pointer(rest))
  {
    var v := ctx.calls[n].result.value;
    list, chosen, rest := ArrayParts(v, p, value);
    items := Reached(v, list).value.items;
    forall k | 0 <= k < |p.arrays| ensures p.arrays[k] <==> k == |list| {
      if k != |list| {
        OneCrossed(p.arrays, k);
      } else {
        assert Crossed(p.arrays)[0] in Crossed(p.arrays);
      }
    }
    ThroughBinding(ctx, n, p, list, items, chosen, rest);
    var single := Singling(ctx, ctx.calls[n].result, list, rest, items, chosen, items[chosen]);
    m := single[0];
    assert single == [m];
    SinglingExactly(ctx, ctx.calls[n].result, list, rest, items, chosen, m);
  }

  lemma SelectedExactly(ctx: Context, n: nat, value: Value, p: Position)
    requires WellFormed(ctx) && At(ctx, n, value, p)
    ensures BindingOf(ctx, n, p).BySelector? <==> Selected(ctx, n, p)
    ensures BindingOf(ctx, n, p).ByPointer? <==> Plain(p)
  {
    PlainExactly(p);
    if BindingOf(ctx, n, p).BySelector? {
      var list, items, chosen, rest, m := BindingSelected(ctx, n, value, p);
    }
    if Selected(ctx, n, p) {
      var list, items, chosen, rest, m :|
        && Through(ctx.calls[n].result.value, p, list, items, chosen, rest)
        && SelectsBy(ctx, ctx.calls[n].result, list, items, chosen, rest, m);
      SelectedBinding(ctx, n, p, list, items, chosen, rest, m);
    }
  }

  // ----- The one source --------------------------------------------------------------------------------------------

  /** The position the value is read from: its only one, through members alone, or the only one a selector reads. */
  ghost predicate Decides(ctx: Context, n: nat, value: Value, p: Position) {
    && At(ctx, n, value, p)
    && (|| (Plain(p) && forall q :: At(ctx, n, value, q) ==> q == p)
        || (Selected(ctx, n, p) && forall q :: At(ctx, n, value, q) && Selected(ctx, n, q) ==> q == p))
  }

  /** The source that reads the position. */
  ghost predicate ReadBy(ctx: Context, n: nat, p: Position, source: Source)
    requires n < |ctx.calls|
  {
    if Plain(p) then source == Source(n, Pointer(p.tokens), None, "")
    else exists list, items, chosen, rest, m ::
      && Through(ctx.calls[n].result.value, p, list, items, chosen, rest)
      && SelectsBy(ctx, ctx.calls[n].result, list, items, chosen, rest, m)
      && source == Source(n, Pointer(list), Some((m.key, m.value)), Pointer(rest))
  }

  lemma ReadByExactly(ctx: Context, n: nat, value: Value, p: Position, source: Source)
    requires WellFormed(ctx) && At(ctx, n, value, p)
    ensures ReadBy(ctx, n, p, source) <==>
      !BindingOf(ctx, n, p).Offered? && source == SourceOf(n, BindingOf(ctx, n, p))
  {
    SelectedExactly(ctx, n, value, p);
    if !Plain(p) {
      if ReadBy(ctx, n, p, source) {
        var list, items, chosen, rest, m :|
          && Through(ctx.calls[n].result.value, p, list, items, chosen, rest)
          && SelectsBy(ctx, ctx.calls[n].result, list, items, chosen, rest, m)
          && source == Source(n, Pointer(list), Some((m.key, m.value)), Pointer(rest));
        SelectedBinding(ctx, n, p, list, items, chosen, rest, m);
      }
      if BindingOf(ctx, n, p).BySelector? {
        var list, items, chosen, rest, m := BindingSelected(ctx, n, value, p);
      }
    }
  }

  /** The binding that decides among these positions: of one alone, or of the only one with a selector. */
  ghost predicate DecidesAt(ctx: Context, n: nat, positions: seq<Position>, i: int)
    requires n < |ctx.calls| && forall i :: 0 <= i < |positions| ==> |positions[i].tokens| == |positions[i].arrays|
  {
    && 0 <= i < |positions|
    && var b := BindingOf(ctx, n, positions[i]);
       || (|positions| == 1 && b.ByPointer?)
       || (b.BySelector? && forall j :: 0 <= j < |positions| && BindingOf(ctx, n, positions[j]).BySelector? ==> j == i)
  }

  lemma OfPositionsExactly(ctx: Context, n: nat, positions: seq<Position>, source: Source)
    requires n < |ctx.calls| && forall i :: 0 <= i < |positions| ==> |positions[i].tokens| == |positions[i].arrays|
    ensures OfPositions(ctx, n, positions) == Ok(source) <==>
      exists i :: DecidesAt(ctx, n, positions, i) && source == SourceOf(n, BindingOf(ctx, n, positions[i]))
  {
    var bindings := Bound(ctx, n, positions);
    var f := (b: Binding) => b.BySelector?;
    FilteredOnce(f, bindings);
    if |Filtered(f, bindings)| == 1 {
      var i :| PassesOnly(f, bindings, i);
      assert Filtered(f, bindings)[0] in Filtered(f, bindings);
      assert Filtered(f, bindings)[0] == bindings[i];
      assert DecidesAt(ctx, n, positions, i);
    }
    if |positions| == 1 && bindings[0].ByPointer? {
      assert DecidesAt(ctx, n, positions, 0);
    }
    if i :| DecidesAt(ctx, n, positions, i) && source == SourceOf(n, BindingOf(ctx, n, positions[i])) {
      if bindings[i].BySelector? {
        assert PassesOnly(f, bindings, i);
      }
    }
  }

  /** Of all positions of the value in a result, the one that decides is the one its source reads. */
  lemma DecidedExactly(ctx: Context, n: nat, value: Value, source: Source)
    requires WellFormed(ctx) && n < |ctx.calls|
    requires
      var positions := AvailablePositions(ctx.calls[n].result, value);
      forall i :: 0 <= i < |positions| ==> |positions[i].tokens| == |positions[i].arrays|
    ensures OfPositions(ctx, n, AvailablePositions(ctx.calls[n].result, value)) == Ok(source) <==>
      exists p :: Decides(ctx, n, value, p) && ReadBy(ctx, n, p, source)
  {
    var positions := AvailablePositions(ctx.calls[n].result, value);
    OfPositionsExactly(ctx, n, positions, source);
    if i :| DecidesAt(ctx, n, positions, i) && source == SourceOf(n, BindingOf(ctx, n, positions[i])) {
      DecidesFrom(ctx, n, value, positions, i);
      ReadByExactly(ctx, n, value, positions[i], source);
    }
    if p :| Decides(ctx, n, value, p) && ReadBy(ctx, n, p, source) {
      var i := DecidesTo(ctx, n, value, positions, p);
      ReadByExactly(ctx, n, value, p, source);
    }
  }

  lemma DecidesFrom(ctx: Context, n: nat, value: Value, positions: seq<Position>, i: nat)
    requires WellFormed(ctx) && n < |ctx.calls| && positions == AvailablePositions(ctx.calls[n].result, value)
    requires forall i :: 0 <= i < |positions| ==> |positions[i].tokens| == |positions[i].arrays|
    requires DecidesAt(ctx, n, positions, i)
    ensures Decides(ctx, n, value, positions[i])
  {
    var p := positions[i];
    assert p in positions;
    AvailableExactly(ctx, n, value, p);
    SelectedExactly(ctx, n, value, p);
    if BindingOf(ctx, n, p).BySelector? {
      forall q | At(ctx, n, value, q) && Selected(ctx, n, q) ensures q == p {
        var j := PlaceFound(ctx, n, value, positions, q);
        SelectedExactly(ctx, n, value, q);
      }
    } else {
      forall q | At(ctx, n, value, q) ensures q == p {
        var j := PlaceFound(ctx, n, value, positions, q);
      }
    }
  }

  lemma PlaceFound(ctx: Context, n: nat, value: Value, positions: seq<Position>, p: Position) returns (i: nat)
    requires WellFormed(ctx) && n < |ctx.calls| && positions == AvailablePositions(ctx.calls[n].result, value)
    requires At(ctx, n, value, p)
    ensures i < |positions| && positions[i] == p
  {
    AvailableExactly(ctx, n, value, p);
    i :| 0 <= i < |positions| && positions[i] == p;
  }

  lemma DecidesTo(ctx: Context, n: nat, value: Value, positions: seq<Position>, p: Position) returns (i: nat)
    requires WellFormed(ctx) && n < |ctx.calls| && positions == AvailablePositions(ctx.calls[n].result, value)
    requires forall i :: 0 <= i < |positions| ==> |positions[i].tokens| == |positions[i].arrays|
    requires Decides(ctx, n, value, p)
    ensures DecidesAt(ctx, n, positions, i) && positions[i] == p
  {
    var result := ctx.calls[n].result;
    FoundNoneTwice(result.value, value, Top);
    assert NoneAgain(Found(result.value, value, Top));
    FilteredNoneAgain((q: Position) => Available(result, Pointer(q.tokens)), Found(result.value, value, Top));
    forall q ensures q in positions <==> At(ctx, n, value, q) {
      AvailableExactly(ctx, n, value, q);
    }
    assert p in positions;
    i :| 0 <= i < |positions| && positions[i] == p;
    SelectedExactly(ctx, n, value, p);
    if Plain(p) && forall q :: At(ctx, n, value, q) ==> q == p {
      OneElement(positions, p);
    } else {
      forall j | 0 <= j < |positions| && BindingOf(ctx, n, positions[j]).BySelector? ensures j == i {
        assert positions[j] in positions;
        SelectedExactly(ctx, n, value, positions[j]);
      }
    }
  }

  /** The value is from one result, one position there decides it, and the source reads that position. */
  ghost predicate Settled(ctx: Context, consumer: nat, value: Value, source: Source, n: nat) {
    Chosen(ctx, consumer, value, n) && exists p :: Decides(ctx, n, value, p) && ReadBy(ctx, n, p, source)
  }

  /** With one result left, the source is the one its positions give. */
  lemma SourcedFrom(ctx: Context, consumer: nat, value: Value, n: nat)
    requires WellFormed(ctx) && |Narrowed(ctx, consumer, value)| == 1 && n in Narrowed(ctx, consumer, value)
    ensures n < |ctx.calls|
    ensures
      var positions := AvailablePositions(ctx.calls[n].result, value);
      && (forall i :: 0 <= i < |positions| ==> |positions[i].tokens| == |positions[i].arrays|)
      && Sourced(ctx, consumer, value) == OfPositions(ctx, n, positions)
  {
    var found := Narrowed(ctx, consumer, value);
    assert |found.Keys| == |found|;
    OneKey(found.Keys, Only(found.Keys), n);
    HolderPositions(ctx, consumer, value, n);
    assert forall i :: 0 <= i < |found[n]| ==> found[n][i] in found[n];
  }

  /** A value has this source exactly when it is from one result and one position there decides it; it has none because
      nothing holds it exactly when no result but the consumer's own does.  In every other case it is ambiguous. */
  lemma SourcedExactly(ctx: Context, consumer: nat, value: Value, source: Source)
    requires WellFormed(ctx)
    ensures Sourced(ctx, consumer, value) == Ok(source) <==> exists n :: Settled(ctx, consumer, value, source, n)
    ensures Sourced(ctx, consumer, value) == Err(Rerun) <==> forall n :: !Has(ctx, consumer, value, n)
    ensures Sourced(ctx, consumer, value).Ok? || Sourced(ctx, consumer, value) in {Err(Rerun), Err(Ambiguous)}
  {
    SourcedKinds(ctx, consumer, value);
    if n :| Settled(ctx, consumer, value, source, n) {
      NarrowedExactly(ctx, consumer, value, n);
      SourcedFrom(ctx, consumer, value, n);
      DecidedExactly(ctx, n, value, source);
    }
    if Sourced(ctx, consumer, value) == Ok(source) {
      var n := Only(Narrowed(ctx, consumer, value).Keys);
      NarrowedExactly(ctx, consumer, value, n);
      SourcedFrom(ctx, consumer, value, n);
      DecidedExactly(ctx, n, value, source);
      assert Settled(ctx, consumer, value, source, n);
    }
  }

  lemma SourcedKinds(ctx: Context, consumer: nat, value: Value)
    requires WellFormed(ctx)
    ensures Sourced(ctx, consumer, value).Ok? ==>
      |Narrowed(ctx, consumer, value)| == 1 && |Narrowed(ctx, consumer, value).Keys| == 1
    ensures Sourced(ctx, consumer, value) == Err(Rerun) <==> forall n :: !Has(ctx, consumer, value, n)
    ensures Sourced(ctx, consumer, value).Ok? || Sourced(ctx, consumer, value) in {Err(Rerun), Err(Ambiguous)}
  {
    var found := Narrowed(ctx, consumer, value);
    assert |found.Keys| == |found|;
    NarrowedExactly(ctx, consumer, value, 0);
    if |found| == 1 {
      SourcedFrom(ctx, consumer, value, Only(found.Keys));
    }
  }
}
