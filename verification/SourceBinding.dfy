/**
 The reference made for a position in a source's result: its pointer when no token is an index, a selector when one is,
 and none otherwise.  The theorems say what reading it gives, from the recorded result and from every full result the
 recording kept the safe part of.
 */
module SourceBinding {
  import opened Basics
  import opened Json
  import opened Pointers
  import opened KeptValues
  import opened PlanSelection
  import opened Provenance
  import opened Sourcing

  // ----- One position ----------------------------------------------------------------------------------------------

  datatype Binding =
    | ByPointer(pointer: string)
    | BySelector(pointer: string, key: string, constant: Value, item: string)
    | Offered

  /** The places of a path that index an array. */
  function Crossed(arrays: seq<bool>): (places: seq<nat>)
    ensures forall k :: k in places <==> 0 <= k < |arrays| && arrays[k]
  {
    if arrays == [] then []
    else
      var n := |arrays| - 1;
      var before := Crossed(arrays[..n]);
      if arrays[n] then before + [n] else before
  }

  function Members(v: Value): seq<Member> { if v.Obj? then v.members else [] }

  function Elements(v: Value): seq<Value> { if v.Arr? then v.items else [] }

  predicate Selectable(constant: Value, names: Value -> bool) {
    match constant
    case Str(written) => |written| >= MIN_SELECTOR_CHARS && names(constant)
    case _ => IsInteger(constant) && names(constant)
  }

  /** The member tells the chosen item from every other, also where a withheld value might have been equal. */
  predicate DistinctMember(result: Kept, list: seq<string>, items: seq<Value>, chosen: nat, m: Member) {
    forall i :: 0 <= i < |items| && i != chosen ==>
      Available(result, Pointer(list + [IndexText(i), m.key])) && !MatchesWhere(items[i], m.key, m.value)
  }

  function BindingOf(ctx: Context, node: nat, p: Position): Binding
    requires node < |ctx.calls| && |p.tokens| == |p.arrays|
  {
    var crossed := Crossed(p.arrays);
    if crossed == [] then ByPointer(Pointer(p.tokens))
    else if |crossed| > 1 then Offered
    else
      var place := crossed[0];
      assert place in crossed;
      ThroughArray(ctx, ctx.calls[node].result, p.tokens[..place], p.tokens[place], p.tokens[place + 1..])
  }

  /** How a position inside one array's item is read. */
  function ThroughArray(ctx: Context, result: Kept, list: seq<string>, index: string, rest: seq<string>): Binding {
    var items := Elements(Reach(result.value, list));
    var parsed := Parsed(index);
    var chosen := if parsed.Some? then parsed.value else |items|;
    var item := if chosen < |items| then items[chosen] else Null;
    var single := Singling(ctx, result, list, rest, items, chosen, item);
    if |single| == 1 then BySelector(Pointer(list), single[0].key, single[0].value, Pointer(rest)) else Offered
  }

  /** The named members that single an item out: those that name it to a person, when several do. */
  function Singling(ctx: Context, result: Kept, list: seq<string>, rest: seq<string>, items: seq<Value>, chosen: nat,
                    item: Value)
    : (single: seq<Member>)
    ensures forall m :: m in single ==>
      m in Members(item) && Selectable(m.value, ctx.names) && DistinctMember(result, list, items, chosen, m)
  {
    var named := Filtered(
      (m: Member) => (rest == [] || rest[0] != m.key) && Selectable(m.value, ctx.names), Members(item));
    var unique := Filtered((m: Member) => DistinctMember(result, list, items, chosen, m), named);
    var byName := Filtered((m: Member) => m.key in NAME_MEMBERS, unique);
    if |unique| > 1 && byName != [] then byName else unique
  }

  // ----- The one source --------------------------------------------------------------------------------------------

  function SourceOf(node: nat, b: Binding): Source
    requires !b.Offered?
  {
    match b
    case ByPointer(pointer) => Source(node, pointer, None, "")
    case BySelector(pointer, key, constant, item) => Source(node, pointer, Some((key, constant)), item)
  }

  /** Keeps the sources the work ran when the consumer is one of it and a single source remains. */
  function FromWork(ctx: Context, consumer: nat, found: map<nat, seq<Position>>): (r: map<nat, seq<Position>>)
    ensures forall n :: n in r ==> n in found && r[n] == found[n]
    ensures found != map[] ==> r != map[]
  {
    var ran := set i | 0 <= i < |ctx.work| :: Class(ctx.classes, ctx.work[i]);
    var kept := map n | n in found && n in ran :: found[n];
    if Class(ctx.classes, consumer) in ran && |kept| == 1 then kept else found
  }

  function Narrowed(ctx: Context, consumer: nat, value: Value): map<nat, seq<Position>> {
    var found := HoldersOf(ctx, consumer, value, |ctx.calls|);
    if |found| > 1 then FromWork(ctx, consumer, found) else found
  }

  lemma OneKey(keys: set<nat>, a: nat, b: nat)
    requires |keys| <= 1 && a in keys && b in keys
    ensures a == b
  {
    if a != b {
      SubsetSize({a, b}, keys);
    }
  }

  function Only(keys: set<nat>): (k: nat)
    requires |keys| == 1
    ensures k in keys
  {
    assert keys != {};
    assert forall a, b :: a in keys && b in keys ==> a == b by {
      forall a, b | a in keys && b in keys ensures a == b {
        OneKey(keys, a, b);
      }
    }
    var k :| k in keys;
    k
  }

  function Bound(ctx: Context, node: nat, positions: seq<Position>): (r: seq<Binding>)
    requires node < |ctx.calls| && forall i :: 0 <= i < |positions| ==> |positions[i].tokens| == |positions[i].arrays|
    ensures |r| == |positions|
    ensures forall i :: 0 <= i < |r| ==> r[i] == BindingOf(ctx, node, positions[i])
  {
    seq(|positions|, i requires 0 <= i < |positions| => BindingOf(ctx, node, positions[i]))
  }

  /** Every position a holder lists is one of its result's. */
  lemma HolderPositions(ctx: Context, consumer: nat, value: Value, node: nat)
    requires WellFormed(ctx) && node in Narrowed(ctx, consumer, value)
    ensures node < |ctx.calls|
      && Narrowed(ctx, consumer, value)[node] == AvailablePositions(ctx.calls[node].result, value)
    ensures forall p :: p in Narrowed(ctx, consumer, value)[node] ==>
      LeadsTo(ctx.calls[node].result.value, p.tokens, p.arrays, value)
        && Available(ctx.calls[node].result, Pointer(p.tokens))
  {
    HolderIsRepresentative(ctx, consumer, value, |ctx.calls|, node);
    forall p | p in Narrowed(ctx, consumer, value)[node]
      ensures LeadsTo(ctx.calls[node].result.value, p.tokens, p.arrays, value)
    {
      PositionsExactly(ctx.calls[node].result.value, value, p);
    }
  }

  /** The source a node's positions give: its only binding, or its only selector among several bindings. */
  function OfPositions(ctx: Context, n: nat, positions: seq<Position>): Result<Source, Stop>
    requires n < |ctx.calls| && forall i :: 0 <= i < |positions| ==> |positions[i].tokens| == |positions[i].arrays|
  {
    var bindings := Bound(ctx, n, positions);
    if |bindings| == 1 && !bindings[0].Offered? then Ok(SourceOf(n, bindings[0]))
    else
      var selected := Filtered((b: Binding) => b.BySelector?, bindings);
      if |selected| == 1 then
        assert selected[0] in selected;
        Ok(SourceOf(n, selected[0]))
      else Err(Ambiguous)
  }

  /** The source of a value: the one its only result gives. */
  function Sourced(ctx: Context, consumer: nat, value: Value): (r: Result<Source, Stop>)
    requires WellFormed(ctx)
  {
    var found := Narrowed(ctx, consumer, value);
    if found == map[] then Err(Rerun)
    else if |found| > 1 then Err(Ambiguous)
    else
      assert |found.Keys| == |found|;
      var node := Only(found.Keys);
      HolderPositions(ctx, consumer, value, node);
      assert forall i :: 0 <= i < |found[node]| ==> found[node][i] in found[node];
      OfPositions(ctx, node, found[node])
  }

  // ----- Paths through members and through one array ---------------------------------------------------------------

  lemma {:induction false} PlainPath(v: Value, tokens: seq<string>, arrays: seq<bool>)
    requires |tokens| == |arrays| && Leads(v, tokens, arrays).Some? && forall k :: 0 <= k < |arrays| ==> !arrays[k]
    ensures Reached(v, tokens) == Leads(v, tokens, arrays)
    decreases |tokens|
  {
    if tokens != [] {
      PlainPath(Get(v, tokens[0]).value, tokens[1..], arrays[1..]);
    }
  }

  /** A path through one array: members to it, an index, and members inside the item. */
  lemma {:induction false} OneArrayPath(v: Value, tokens: seq<string>, arrays: seq<bool>, place: nat)
    requires |tokens| == |arrays| && Leads(v, tokens, arrays).Some? && place < |arrays| && arrays[place]
    requires forall k :: 0 <= k < |arrays| && k != place ==> !arrays[k]
    ensures
      var list, index := Reached(v, tokens[..place]), Parsed(tokens[place]);
      && list.Some? && list.value.Arr? && index.Some? && index.value < |list.value.items|
      && IndexText(index.value) == tokens[place]
      && Reached(list.value.items[index.value], tokens[place + 1..]) == Leads(v, tokens, arrays)
    decreases |tokens|
  {
    if place == 0 {
      var k := Parsed(tokens[0]).value;
      assert tokens[..0] == [];
      PlainPath(v.items[k], tokens[1..], arrays[1..]);
    } else {
      OneArrayPath(Get(v, tokens[0]).value, tokens[1..], arrays[1..], place - 1);
      assert tokens[..place][1..] == tokens[1..][..place - 1];
      assert tokens[1..][place..] == tokens[place + 1..];
    }
  }

  // ----- Reading from the full result ------------------------------------------------------------------------------

  /** What members reach at an available position is the same in the full result. */
  lemma ReachedInFull(kept: Kept, full: Value, withheld: set<seq<string>>, tokens: seq<string>)
    requires KeptOf(kept, full, withheld) && Reached(kept.value, tokens).Some? && Available(kept, Pointer(tokens))
    ensures Reached(full, tokens) == Reached(kept.value, tokens)
  {
    MaskedReached(full, kept.value, withheld, [], tokens);
    assert [] + tokens == tokens;
    AvailableMeans(kept, withheld, tokens);
    Untouched(Reached(full, tokens).value, Reached(kept.value, tokens).value, withheld, tokens);
  }

  /** The chosen item of the full array has the constant member. */
  lemma ChosenMatches(full: Value, kept: Value, withheld: set<seq<string>>, at: seq<string>, m: Member)
    requires Masked(full, kept, withheld, at) && kept.Obj? && UniqueKeys(kept.members) && m in kept.members
      && WhereShape(m.value)
    ensures MatchesWhere(full, m.key, m.value)
  {
    var i :| 0 <= i < |kept.members| && kept.members[i] == m;
    UniquePlace(kept.members, i);
    MaskedMember(full, kept, withheld, at, m.key);
  }

  /** Another item of the full array has not. */
  lemma OtherDiffers(full: Value, kept: Value, withheld: set<seq<string>>, at: seq<string>, m: Member)
    requires Masked(full, kept, withheld, at) && Apart(withheld, at + [m.key]) && !MatchesWhere(kept, m.key, m.value)
    ensures !MatchesWhere(full, m.key, m.value)
  {
    assert at <= at + [m.key];
    if kept.Obj? {
      MaskedMember(full, kept, withheld, at, m.key);
      if Get(kept, m.key).Some? {
        Untouched(Get(full, m.key).value, Get(kept, m.key).value, withheld, at + [m.key]);
      }
    }
  }

  /** The array a selector searches, in the full result: exactly the chosen item matches, and holds what was
      recorded. */
  lemma SelectedInFull(kept: Kept, full: Value, withheld: set<seq<string>>, list: seq<string>, chosen: nat, m: Member,
                       rest: seq<string>)
    returns (items: seq<Value>)
    requires KeptOf(kept, full, withheld)
    requires Reached(kept.value, list).Some? && Reached(kept.value, list).value.Arr?
    requires chosen < |Reached(kept.value, list).value.items|
    requires
      var recorded := Reached(kept.value, list).value.items;
      && recorded[chosen].Obj? && UniqueKeys(recorded[chosen].members) && m in recorded[chosen].members
      && WhereShape(m.value)
      && DistinctMember(kept, list, recorded, chosen, m) && Reached(recorded[chosen], rest).Some?
    requires Available(kept, Pointer(list + [IndexText(chosen)] + rest))
    ensures Reached(full, list) == Some(Arr(items)) && chosen < |items|
    ensures PlanSelection.Matching(items, m.key, m.value) == [items[chosen]]
    ensures Reached(items[chosen], rest) == Reached(Reached(kept.value, list).value.items[chosen], rest)
  {
    var recorded := Reached(kept.value, list).value.items;
    MaskedReached(full, kept.value, withheld, [], list);
    assert [] + list == list;
    items := Reached(full, list).value.items;
    var here := list + [IndexText(chosen)];
    ChosenMatches(items[chosen], recorded[chosen], withheld, here, m);
    forall i | 0 <= i < |items| && i != chosen ensures !MatchesWhere(items[i], m.key, m.value) {
      assert list + [IndexText(i), m.key] == list + [IndexText(i)] + [m.key];
      AvailableMeans(kept, withheld, list + [IndexText(i), m.key]);
      OtherDiffers(items[i], recorded[i], withheld, list + [IndexText(i)], m);
    }
    MatchingOne(items, m.key, m.value, chosen);
    MaskedReached(items[chosen], recorded[chosen], withheld, here, rest);
    AvailableMeans(kept, withheld, here + rest);
    Untouched(Reached(items[chosen], rest).value, Reached(recorded[chosen], rest).value, withheld, here + rest);
  }

  // ----- What a source reads back ----------------------------------------------------------------------------------

  predicate PointersFit(source: Source) { |source.pointer| <= MAX_POINTER && |source.item| <= MAX_POINTER }

  /** What reading a source gives: the recorded value, exactly while its pointers are within their bound. */
  ghost predicate ReadsBack(full: Value, source: Source, value: Value) {
    && (Read(full, source).Ok? <==> PointersFit(source))
    && (Read(full, source).Ok? ==> Same(Read(full, source).value, value))
  }

  /** The source's pointers go through members alone, to the array the selector searches and inside its one match. */
  ghost predicate CrossesNoIndex(result: Value, source: Source) {
    exists list, rest ::
      && source.pointer == Pointer(list) && source.item == Pointer(rest) && Reached(result, list).Some?
      && (source.selector.None? ==> rest == [])
      && (source.selector.Some? ==>
            var found := PlanSelection.Matching(Elements(Reached(result, list).value), source.selector.value.0,
                                                source.selector.value.1);
            Reached(result, list).value.Arr? && |found| == 1 && Reached(found[0], rest).Some?)
  }

  lemma PointerReads(ctx: Context, node: nat, p: Position, value: Value, full: Value, withheld: set<seq<string>>)
    requires WellFormed(ctx) && node < |ctx.calls| && KeptOf(ctx.calls[node].result, full, withheld)
    requires LeadsTo(ctx.calls[node].result.value, p.tokens, p.arrays, value)
      && Available(ctx.calls[node].result, Pointer(p.tokens))
    requires Crossed(p.arrays) == []
    ensures ReadsBack(full, SourceOf(node, BindingOf(ctx, node, p)), value)
    ensures CrossesNoIndex(full, SourceOf(node, BindingOf(ctx, node, p)))
  {
    var kept := ctx.calls[node].result;
    assert forall k :: 0 <= k < |p.arrays| && p.arrays[k] ==> k in Crossed(p.arrays);
    PlainPath(kept.value, p.tokens, p.arrays);
    ReachedInFull(kept, full, withheld, p.tokens);
    SelectWritten(full, p.tokens);
    assert Pointer([]) == "";
  }

  lemma {:induction false} ReachUnique(v: Value, tokens: seq<string>)
    requires Unique(v) && Reached(v, tokens).Some?
    ensures Unique(Reached(v, tokens).value)
    decreases |tokens|
  {
    if tokens != [] {
      ReachUnique(Get(v, tokens[0]).value, tokens[1..]);
    }
  }

  /** A selection through the one matching item, by pointers written from tokens. */
  lemma WhereReads(full: Value, list: seq<string>, items: seq<Value>, m: Member, chosen: nat, rest: seq<string>)
    requires Reached(full, list) == Some(Arr(items)) && chosen < |items| && WhereShape(m.value)
    requires PlanSelection.Matching(items, m.key, m.value) == [items[chosen]] && Reached(items[chosen], rest).Some?
    ensures SelectWhere(full, Pointer(list), m.key, m.value, Pointer(rest)) ==
      if |Pointer(list)| <= MAX_POINTER && |Pointer(rest)| <= MAX_POINTER then Ok(Reached(items[chosen], rest).value)
      else Err(ReferenceInvalid)
  {
    SelectWritten(full, list);
    SelectWritten(items[chosen], rest);
    PointerRoundTrip(list);
    PointerRoundTrip(rest);
  }

  lemma OneCrossed(arrays: seq<bool>, k: nat)
    requires |Crossed(arrays)| == 1 && k < |arrays| && k != Crossed(arrays)[0]
    ensures !arrays[k]
  {
  }

  /** A position inside one array's item: the array, the index and the rest. */
  lemma ArrayParts(v: Value, p: Position, value: Value) returns (list: seq<string>, chosen: nat, rest: seq<string>)
    requires LeadsTo(v, p.tokens, p.arrays, value) && |Crossed(p.arrays)| == 1
    ensures
      var place := Crossed(p.arrays)[0];
      place < |p.tokens| && list == p.tokens[..place] && p.tokens[place] == IndexText(chosen)
        && rest == p.tokens[place + 1..]
    ensures p.tokens == list + [IndexText(chosen)] + rest
    ensures
      var items := Reached(v, list);
      && items.Some? && items.value.Arr? && chosen < |items.value.items|
      && Reached(items.value.items[chosen], rest).Some? && Same(Reached(items.value.items[chosen], rest).value, value)
  {
    var place := Crossed(p.arrays)[0];
    assert place in Crossed(p.arrays);
    forall k | 0 <= k < |p.arrays| && k != place ensures !p.arrays[k] {
      OneCrossed(p.arrays, k);
    }
    OneArrayPath(v, p.tokens, p.arrays, place);
    list, rest := p.tokens[..place], p.tokens[place + 1..];
    chosen := Parsed(p.tokens[place]).value;
  }

  /** What a selector is made from. */
  lemma SelectorParts(ctx: Context, result: Kept, list: seq<string>, chosen: nat, rest: seq<string>) returns (m: Member)
    requires Unique(result.value) && Reached(result.value, list).Some? && Reached(result.value, list).value.Arr?
    requires chosen < |Reached(result.value, list).value.items|
    requires ThroughArray(ctx, result, list, IndexText(chosen), rest).BySelector?
    ensures ThroughArray(ctx, result, list, IndexText(chosen), rest)
      == BySelector(Pointer(list), m.key, m.value, Pointer(rest))
    ensures
      var items := Reached(result.value, list).value.items;
      && items[chosen].Obj? && UniqueKeys(items[chosen].members) && m in items[chosen].members && WhereShape(m.value)
      && DistinctMember(result, list, items, chosen, m)
  {
    ParsedIndex(chosen);
    ReachedReach(result.value, list);
    ReachUnique(result.value, list);
    var items := Reached(result.value, list).value.items;
    var single := Singling(ctx, result, list, rest, items, chosen, items[chosen]);
    m := single[0];
    assert m in single;
  }

  lemma SelectorReads(ctx: Context, node: nat, p: Position, value: Value, full: Value, withheld: set<seq<string>>)
    requires WellFormed(ctx) && node < |ctx.calls| && KeptOf(ctx.calls[node].result, full, withheld)
    requires LeadsTo(ctx.calls[node].result.value, p.tokens, p.arrays, value)
      && Available(ctx.calls[node].result, Pointer(p.tokens))
    requires |Crossed(p.arrays)| == 1 && BindingOf(ctx, node, p).BySelector?
    ensures ReadsBack(full, SourceOf(node, BindingOf(ctx, node, p)), value)
    ensures CrossesNoIndex(full, SourceOf(node, BindingOf(ctx, node, p)))
  {
    var list, chosen, rest := ArrayParts(ctx.calls[node].result.value, p, value);
    var m := SelectorParts(ctx, ctx.calls[node].result, list, chosen, rest);
    var items := SelectedInFull(ctx.calls[node].result, full, withheld, list, chosen, m, rest);
    SelectorSource(full, node, list, items, m, chosen, rest, value);
  }

  lemma SelectorSource(
    full: Value, node: nat, list: seq<string>, items: seq<Value>, m: Member, chosen: nat, rest: seq<string>,
    value: Value)
    requires Reached(full, list) == Some(Arr(items)) && chosen < |items| && WhereShape(m.value)
    requires PlanSelection.Matching(items, m.key, m.value) == [items[chosen]]
    requires Reached(items[chosen], rest).Some? && Same(Reached(items[chosen], rest).value, value)
    ensures
      var source := Source(node, Pointer(list), Some((m.key, m.value)), Pointer(rest));
      ReadsBack(full, source, value) && CrossesNoIndex(full, source)
  {
    WhereReads(full, list, items, m, chosen, rest);
  }

  lemma {:induction false} MaskedSelf(full: Value, kept: Value, withheld: set<seq<string>>, at: seq<string>)
    requires Masked(full, kept, withheld, at)
    ensures Masked(kept, kept, withheld, at)
    decreases full
  {
    if at !in withheld {
      match full
      case Obj(members) =>
        forall i | 0 <= i < |members|
          ensures Masked(kept.members[i].value, kept.members[i].value, withheld, at + [members[i].key])
        {
          MaskedSelf(members[i].value, kept.members[i].value, withheld, at + [members[i].key]);
        }
      case Arr(items) =>
        forall i | 0 <= i < |items| ensures Masked(kept.items[i], kept.items[i], withheld, at + [IndexText(i)]) {
          MaskedSelf(items[i], kept.items[i], withheld, at + [IndexText(i)]);
        }
      case _ =>
    }
  }

  /** A source is the binding of one available position of the value in its node's result. */
  lemma SourcedPosition(ctx: Context, consumer: nat, value: Value) returns (p: Position)
    requires WellFormed(ctx) && Sourced(ctx, consumer, value).Ok?
    ensures
      var source := Sourced(ctx, consumer, value).value;
      && source.node < |ctx.calls| && LeadsTo(ctx.calls[source.node].result.value, p.tokens, p.arrays, value)
      && Available(ctx.calls[source.node].result, Pointer(p.tokens))
      && !BindingOf(ctx, source.node, p).Offered? && source == SourceOf(source.node, BindingOf(ctx, source.node, p))
  {
    var found := Narrowed(ctx, consumer, value);
    assert |found.Keys| == |found|;
    var node := Only(found.Keys);
    HolderPositions(ctx, consumer, value, node);
    assert forall i :: 0 <= i < |found[node]| ==> found[node][i] in found[node];
    var bindings := Bound(ctx, node, found[node]);
    if |bindings| == 1 && !bindings[0].Offered? {
      p := found[node][0];
    } else {
      var selected := Filtered((b: Binding) => b.BySelector?, bindings);
      assert selected[0] in selected;
      var i :| 0 <= i < |bindings| && bindings[i] == selected[0];
      p := found[node][i];
    }
  }

  /** Every source, read back against the recorded result or any full result kept as it, gives the recorded value
      exactly while its pointers are within their bound; its pointers cross no array by index. */
  lemma SourceReadsBack(ctx: Context, consumer: nat, value: Value, full: Value, withheld: set<seq<string>>)
    requires WellFormed(ctx) && Sourced(ctx, consumer, value).Ok?
    requires
      var node := Sourced(ctx, consumer, value).value.node;
      node < |ctx.calls| ==> KeptOf(ctx.calls[node].result, full, withheld)
    ensures
      var source := Sourced(ctx, consumer, value).value;
      && source.node < |ctx.calls|
      && ReadsBack(full, source, value) && CrossesNoIndex(full, source)
      && ReadsBack(ctx.calls[source.node].result.value, source, value)
      && CrossesNoIndex(ctx.calls[source.node].result.value, source)
  {
    var source := Sourced(ctx, consumer, value).value;
    var p := SourcedPosition(ctx, consumer, value);
    var kept := ctx.calls[source.node].result;
    MaskedSelf(full, kept.value, withheld, []);
    if Crossed(p.arrays) == [] {
      PointerReads(ctx, source.node, p, value, full, withheld);
      PointerReads(ctx, source.node, p, value, kept.value, withheld);
    } else {
      SelectorReads(ctx, source.node, p, value, full, withheld);
      SelectorReads(ctx, source.node, p, value, kept.value, withheld);
    }
  }

  /** A selector source reads the same value from any result whose array has the same items in another order. */
  lemma SourceReordered(ctx: Context, consumer: nat, value: Value, full: Value, withheld: set<seq<string>>,
                        other: Value)
    requires WellFormed(ctx) && Sourced(ctx, consumer, value).Ok? && Sourced(ctx, consumer, value).value.selector.Some?
    requires
      var source := Sourced(ctx, consumer, value).value;
      && (source.node < |ctx.calls| ==> KeptOf(ctx.calls[source.node].result, full, withheld))
      && Select(full, source.pointer).Ok? && Select(full, source.pointer).value.Arr?
      && Select(other, source.pointer).Ok? && Select(other, source.pointer).value.Arr?
      && multiset(Select(other, source.pointer).value.items) == multiset(Select(full, source.pointer).value.items)
    ensures Read(other, Sourced(ctx, consumer, value).value) == Read(full, Sourced(ctx, consumer, value).value)
  {
    SourceReadsBack(ctx, consumer, value, full, withheld);
    ReadReordered(full, other, Sourced(ctx, consumer, value).value);
  }

  lemma ReadReordered(full: Value, other: Value, source: Source)
    requires CrossesNoIndex(full, source) && source.selector.Some?
    requires Select(full, source.pointer).Ok? && Select(full, source.pointer).value.Arr?
    requires Select(other, source.pointer).Ok? && Select(other, source.pointer).value.Arr?
    requires multiset(Select(other, source.pointer).value.items) == multiset(Select(full, source.pointer).value.items)
    ensures Read(other, source) == Read(full, source)
  {
    var list, rest :|
      && source.pointer == Pointer(list) && source.item == Pointer(rest) && Reached(full, list).Some?
      && Reached(full, list).value.Arr?
      && |PlanSelection.Matching(Elements(Reached(full, list).value), source.selector.value.0, source.selector.value.1)|
           == 1;
    SelectWritten(full, list);
    PickedReordered(Select(full, source.pointer).value.items, Select(other, source.pointer).value.items,
                    source.selector.value.0, source.selector.value.1, source.item);
  }

  // ----- The admitted reference ------------------------------------------------------------------------------------

  /** A source a plan may hold: its pointers within their bound, neither they nor the selector holding a protected
      value. */
  function Referenced(ctx: Context, consumer: nat, value: Value): Result<Source, Stop>
    requires WellFormed(ctx)
  {
    var source :- Sourced(ctx, consumer, value);
    Admissible(ctx, source)
  }

  function Admissible(ctx: Context, source: Source): Result<Source, Stop> {
    var tokens, inside := TokensOf(source.pointer), TokensOf(source.item);
    if tokens.None? || inside.None? then Err(TooLarge)
    else
      var written := [Str(source.pointer), Str(source.item)] + Texts(tokens.value + inside.value)
                   + [Obj(if source.selector.Some? then [Member(source.selector.value.0, source.selector.value.1)]
                          else [])];
      if ctx.exposes(written) then Err(SecretLiteral) else Ok(source)
  }

  function Texts(tokens: seq<string>): seq<Value> {
    seq(|tokens|, i requires 0 <= i < |tokens| => Str(tokens[i]))
  }

  /** Everything a reference writes into the plan. */
  ghost function Writes(source: Source, list: seq<string>, rest: seq<string>): seq<Value> {
    [Str(source.pointer), Str(source.item)] + seq(|list| + |rest|, i requires 0 <= i < |list| + |rest| =>
      Str(if i < |list| then list[i] else rest[i - |list|]))
    + [Obj(match source.selector case None => [] case Some(s) => [Member(s.0, s.1)])]
  }

  /** These are the tokens of the source's two pointers, each within its 256 characters. */
  ghost predicate Tokenized(source: Source, list: seq<string>, rest: seq<string>) {
    source.pointer == Pointer(list) && source.item == Pointer(rest) && |source.pointer| <= 256 && |source.item| <= 256
  }

  /** The source can be written within its bounds, and what is written exposes a protected value or does not. */
  ghost predicate Written(ctx: Context, source: Source, exposed: bool) {
    exists list, rest :: Tokenized(source, list, rest) && ctx.exposes(Writes(source, list, rest)) == exposed
  }

  lemma TokenizedExactly(source: Source, list: seq<string>, rest: seq<string>)
    ensures Tokenized(source, list, rest)
       <==> TokensOf(source.pointer) == Some(list) && TokensOf(source.item) == Some(rest)
  {
    TokensExactly(source.pointer, list);
    TokensExactly(source.item, rest);
  }

  lemma WrittenExactly(ctx: Context, source: Source, exposed: bool)
    ensures
      var tokens, inside := TokensOf(source.pointer), TokensOf(source.item);
      Written(ctx, source, exposed) <==>
        tokens.Some? && inside.Some? && ctx.exposes(Writes(source, tokens.value, inside.value)) == exposed
  {
    var tokens, inside := TokensOf(source.pointer), TokensOf(source.item);
    if Written(ctx, source, exposed) {
      var list, rest :| Tokenized(source, list, rest) && ctx.exposes(Writes(source, list, rest)) == exposed;
      TokenizedExactly(source, list, rest);
    }
    if tokens.Some? && inside.Some? {
      TokenizedExactly(source, tokens.value, inside.value);
    }
  }

  lemma WritesTexts(source: Source, list: seq<string>, rest: seq<string>)
    ensures Writes(source, list, rest)
      == [Str(source.pointer), Str(source.item)] + Texts(list + rest)
         + [Obj(if source.selector.Some? then [Member(source.selector.value.0, source.selector.value.1)] else [])]
  {
    assert Texts(list + rest) == seq(|list| + |rest|, i requires 0 <= i < |list| + |rest| =>
      Str(if i < |list| then list[i] else rest[i - |list|]));
  }

  lemma AdmissibleExactly(ctx: Context, source: Source)
    ensures Admissible(ctx, source)
      == if Written(ctx, source, false) then Ok(source)
         else if Written(ctx, source, true) then Err(SecretLiteral)
         else Err(TooLarge)
  {
    var tokens, inside := TokensOf(source.pointer), TokensOf(source.item);
    WrittenExactly(ctx, source, false);
    WrittenExactly(ctx, source, true);
    if tokens.Some? && inside.Some? {
      WritesTexts(source, tokens.value, inside.value);
    }
  }

  /** A reference is admitted exactly when it is the value's source, its pointers are within their bound and nothing it
      writes exposes a protected value; otherwise the refusal says which of these it is. */
  lemma ReferencedExactly(ctx: Context, consumer: nat, value: Value)
    requires WellFormed(ctx)
    ensures
      var r, sourced := Referenced(ctx, consumer, value), Sourced(ctx, consumer, value);
      if sourced.Err? || Written(ctx, sourced.value, false) then r == sourced
      else if Written(ctx, sourced.value, true) then r == Err(SecretLiteral)
      else r == Err(TooLarge)
  {
    if Sourced(ctx, consumer, value).Ok? {
      AdmissibleExactly(ctx, Sourced(ctx, consumer, value).value);
    }
  }

  /** Every reference a plan admits selects the recorded value. */
  lemma ReferenceReadsBack(ctx: Context, consumer: nat, value: Value, full: Value, withheld: set<seq<string>>)
    requires WellFormed(ctx) && Referenced(ctx, consumer, value).Ok?
    requires
      var node := Referenced(ctx, consumer, value).value.node;
      node < |ctx.calls| ==> KeptOf(ctx.calls[node].result, full, withheld)
    ensures
      var source := Referenced(ctx, consumer, value).value;
      && source.node < |ctx.calls|
      && Read(full, source).Ok? && Same(Read(full, source).value, value)
      && Read(ctx.calls[source.node].result.value, source).Ok?
      && Same(Read(ctx.calls[source.node].result.value, source).value, value)
  {
    SourceReadsBack(ctx, consumer, value, full, withheld);
  }

  // ----- A source that does not read back --------------------------------------------------------------------------

  lemma {:induction false} EscapeLonger(token: string)
    ensures |Escape(token)| >= |token|
    decreases |token|
  {
    if token != [] {
      EscapeFirst(token);
      EscapeLonger(token[1..]);
    }
  }

  /** One call whose result holds the value under one member. */
  function OneCall(key: string, value: Value): Context {
    Context([Call(0, "a", "b", true, Kept(Null, {}, false), Kept(Obj([Member(key, value)]), {}, false))], [],
            map[0 := 0],
            (v: Value) => false, (v: seq<Value>) => false)
  }

  lemma OneCallFound(key: string, written: string)
    ensures WellFormed(OneCall(key, Str(written)))
    ensures AvailablePositions(OneCall(key, Str(written)).calls[0].result, Str(written)) == [Position([key], [false])]
  {
    var ctx, value := OneCall(key, Str(written)), Str(written);
    var result := ctx.calls[0].result;
    assert Represents(ctx.calls, ctx.classes, 0);
    var members := [Member(key, value)];
    var p := Under(Top, key, false);
    assert p == Position([key], [false]);
    assert members[0].value == value;
    assert Found(value, value, p) == [p];
    assert result.value == Obj(members) && !Same(result.value, value);
    assert FoundInside(result.value, value, Top) == [[p]];
    assert [[p]][..0] == [];
    assert Flat([[p]]) == [p];
    assert Found(result.value, value, Top) == [p];
    FilteredOne((q: Position) => Available(result, Pointer(q.tokens)), p);
  }

  lemma FilteredOne(f: Position -> bool, p: Position)
    requires f(p)
    ensures Filtered(f, [p]) == [p]
  {
    assert [p][1..] == [];
  }

  /** A value under a member name as long as the pointer bound is sourced, but its source selects nothing. */
  lemma LongPointerReadsNothing(key: string, written: string)
    requires |key| >= MAX_POINTER
    ensures
      var ctx := OneCall(key, Str(written));
      && WellFormed(ctx) && Sourced(ctx, 1, Str(written)).Ok?
      && Read(ctx.calls[0].result.value, Sourced(ctx, 1, Str(written)).value) == Err(ReferenceInvalid)
      && Referenced(ctx, 1, Str(written)) == Err(TooLarge)
  {
    var ctx, value := OneCall(key, Str(written)), Str(written);
    OneCallFound(key, written);
    var one := [Position([key], [false])];
    assert HoldersOf(ctx, 1, value, 0) == map[];
    assert HoldersOf(ctx, 1, value, 1) == map[0 := one];
    assert Narrowed(ctx, 1, value) == map[0 := one];
    assert Only(map[0 := one].Keys) == 0;
    assert Crossed([false]) == [] by { assert [false][..0] == []; }
    assert Bound(ctx, 0, one) == [ByPointer(Pointer([key]))];
    EscapeLonger(key);
    assert |Pointer([key])| > MAX_POINTER;
  }
}
