/**
 The one reference a recorded input is read back by: the earlier calls whose result holds it, the single one the work
 itself ran, and a pointer or a selector to it.  Whatever a source selects from the recorded result, or from the full
 result the recording kept only the safe part of, is the recorded value.
 */
module Sourcing {
  import opened Basics
  import opened Json
  import opened Pointers
  import opened KeptValues
  import opened PlanSelection
  import opened Provenance

  const MIN_SELECTOR_CHARS: nat := 2
  const NAME_MEMBERS := {"name", "title", "label", "display_name", "hostname", "domain"}

  datatype Call = Call(index: nat, assistant: string, action: string, readOnly: bool, input: Kept, result: Kept)

  /** What sourcing reads: the calls by index, the indices of the work, the representative of each index, and two
      oracles for values a text names and values that expose a secret. */
  datatype Context = Context(
    calls: seq<Call>, work: seq<nat>, classes: map<nat, nat>, names: Value -> bool, exposes: seq<Value> -> bool)

  datatype Stop = Rerun | Ambiguous | TooLarge | SecretLiteral

  function Class(classes: map<nat, nat>, index: nat): nat { if index in classes then classes[index] else index }

  // ----- Source representatives ------------------------------------------------------------------------------------

  predicate Whole(kept: Kept) { kept.withheld == {} && !kept.oversize }

  /** Two calls that cannot be told apart, both kept whole. */
  predicate Twins(left: Call, right: Call) {
    && Whole(left.input) && Whole(left.result) && Whole(right.input) && Whole(right.result)
    && left.assistant == right.assistant && left.action == right.action
    && Same(left.input.value, right.input.value) && Same(left.result.value, right.result.value)
  }

  predicate Indexed(calls: seq<Call>) { forall i :: 0 <= i < |calls| ==> calls[i].index == i }

  /** Nothing changed between `from` and `to`. */
  predicate Unchanged(calls: seq<Call>, from: nat, to: nat) {
    forall k :: from <= k < to && k < |calls| ==> calls[k].readOnly
  }

  /** The representative of a call is itself, or its earlier read-only twin that represents itself, no change
      between. */
  ghost predicate Represents(calls: seq<Call>, classes: map<nat, nat>, i: nat)
    requires i < |calls|
  {
    && i in classes && classes[i] <= i
    && (classes[i] != i ==>
          && classes[i] in classes && classes[classes[i]] == classes[i]
          && Twins(calls[classes[i]], calls[i]) && Unchanged(calls, classes[i], i + 1))
  }

  ghost predicate Classed(calls: seq<Call>, classes: map<nat, nat>) {
    forall i :: 0 <= i < |calls| ==> Represents(calls, classes, i)
  }

  /** No call before the representative is a twin with no change between. */
  ghost predicate Earliest(calls: seq<Call>, classes: map<nat, nat>, i: nat)
    requires i < |calls|
  {
    forall j :: 0 <= j < i && Unchanged(calls, j, i + 1) && Twins(calls[j], calls[i]) ==> Class(classes, i) <= j
  }

  lemma TwinsTransitive(a: Call, b: Call, c: Call)
    requires Twins(a, b) && Twins(b, c)
    ensures Twins(a, c)
  {
    SameTransitive(a.input.value, b.input.value, c.input.value);
    SameTransitive(a.result.value, b.result.value, c.result.value);
  }

  /** The open sources: every call since the last change is represented among them, in order. */
  ghost predicate Covers(calls: seq<Call>, classes: map<nat, nat>, open: seq<nat>, n: nat) {
    && (forall k :: 0 <= k < |open| ==>
          open[k] < n && open[k] in classes && classes[open[k]] == open[k] && Unchanged(calls, open[k], n))
    && (forall k, m :: 0 <= k < m < |open| ==> open[k] < open[m])
    && forall j :: 0 <= j < n && Unchanged(calls, j, n) ==> j in classes && classes[j] in open
  }

  /** The first open twin of a call is its earliest one. */
  lemma FirstIsEarliest(calls: seq<Call>, classes: map<nat, nat>, open: seq<nat>, n: nat, k: nat)
    requires n < |calls| && Covers(calls, classes, open, n) && forall i :: 0 <= i < n ==> Represents(calls, classes, i)
    requires k <= |open| && forall i :: 0 <= i < k ==> !Twins(calls[open[i]], calls[n])
    ensures forall j :: 0 <= j < n && Unchanged(calls, j, n + 1) && Twins(calls[j], calls[n]) ==>
      k < |open| && open[k] <= j
  {
    forall j | 0 <= j < n && Unchanged(calls, j, n + 1) && Twins(calls[j], calls[n])
      ensures k < |open| && open[k] <= j
    {
      assert Unchanged(calls, j, n);
      assert Represents(calls, classes, j);
      var m :| 0 <= m < |open| && open[m] == classes[j];
      if classes[j] != j {
        TwinsTransitive(calls[classes[j]], calls[j], calls[n]);
      }
      assert Twins(calls[open[m]], calls[n]);
    }
  }

  /** Every call before `n` is represented, earliest where it is read-only. */
  ghost predicate Settled(calls: seq<Call>, classes: map<nat, nat>, n: nat)
    requires n <= |calls|
  {
    && (forall i :: 0 <= i < n ==> Represents(calls, classes, i))
    && (forall i :: 0 <= i < n && calls[i].readOnly ==> Earliest(calls, classes, i))
    && forall i :: i in classes ==> i < n
  }

  lemma SettledWith(calls: seq<Call>, classes: map<nat, nat>, n: nat, twin: nat)
    requires n < |calls| && Settled(calls, classes, n) && Represents(calls, classes[n := twin], n)
    requires calls[n].readOnly ==> Earliest(calls, classes[n := twin], n)
    ensures Settled(calls, classes[n := twin], n + 1)
  {
    var after := classes[n := twin];
    forall i | 0 <= i < n ensures Represents(calls, after, i) && (calls[i].readOnly ==> Earliest(calls, after, i)) {
      assert Represents(calls, classes, i);
    }
  }

  /** One more call, its representative and the open sources after it. */
  lemma SettledNext(calls: seq<Call>, classes: map<nat, nat>, open: seq<nat>, n: nat, k: nat)
    requires n < |calls| && Settled(calls, classes, n) && Covers(calls, classes, open, n) && k <= |open|
    requires k < |open| ==> Twins(calls[open[k]], calls[n])
    requires forall i :: 0 <= i < k ==> !Twins(calls[open[i]], calls[n])
    ensures calls[n].readOnly && k < |open| ==> Settled(calls, classes[n := open[k]], n + 1)
    ensures calls[n].readOnly && k == |open| ==> Settled(calls, classes[n := n], n + 1)
    ensures !calls[n].readOnly ==> Settled(calls, classes[n := n], n + 1)
  {
    FirstIsEarliest(calls, classes, open, n, k);
    if calls[n].readOnly && k < |open| {
      TwinRepresents(calls, classes, open, n, k);
      SettledWith(calls, classes, n, open[k]);
    } else {
      SettledWith(calls, classes, n, n);
    }
  }

  lemma TwinRepresents(calls: seq<Call>, classes: map<nat, nat>, open: seq<nat>, n: nat, k: nat)
    requires n < |calls| && Covers(calls, classes, open, n) && k < |open| && Twins(calls[open[k]], calls[n])
    requires calls[n].readOnly
    ensures Represents(calls, classes[n := open[k]], n)
  {
  }

  lemma CoversNext(calls: seq<Call>, classes: map<nat, nat>, open: seq<nat>, n: nat, k: nat)
    requires n < |calls| && n !in classes && Covers(calls, classes, open, n) && k <= |open|
    ensures calls[n].readOnly && k < |open| ==> Covers(calls, classes[n := open[k]], open, n + 1)
    ensures calls[n].readOnly && k == |open| ==> Covers(calls, classes[n := n], open + [n], n + 1)
    ensures !calls[n].readOnly ==> Covers(calls, classes[n := n], [], n + 1)
  {
    assert forall j :: 0 <= j < n && Unchanged(calls, j, n + 1) ==> Unchanged(calls, j, n);
    assert calls[n].readOnly ==> forall j :: 0 <= j <= n && Unchanged(calls, j, n) ==> Unchanged(calls, j, n + 1);
    if calls[n].readOnly && k == |open| {
      assert (open + [n])[|open|] == n;
      assert forall x :: x in open ==> x in open + [n];
    }
  }

  /** `source_classes`: each call's earliest read-only twin with no change between. */
  method SourceClasses(calls: seq<Call>) returns (classes: map<nat, nat>)
    ensures Classed(calls, classes)
    ensures forall i :: 0 <= i < |calls| && calls[i].readOnly ==> Earliest(calls, classes, i)
  {
    var open: seq<nat> := [];
    classes := map[];
    for n := 0 to |calls|
      invariant Settled(calls, classes, n) && Covers(calls, classes, open, n)
    {
      var k := FirstTwin(calls, open, calls[n]);
      SettledNext(calls, classes, open, n, k);
      CoversNext(calls, classes, open, n, k);
      if !calls[n].readOnly {
        open := [];
        classes := classes[n := n];
      } else if k < |open| {
        classes := classes[n := open[k]];
      } else {
        open := open + [n];
        classes := classes[n := n];
      }
    }
  }

  method FirstTwin(calls: seq<Call>, open: seq<nat>, call: Call) returns (k: nat)
    requires forall i :: 0 <= i < |open| ==> open[i] < |calls|
    ensures k <= |open| && (k < |open| ==> Twins(calls[open[k]], call))
    ensures forall i :: 0 <= i < k ==> !Twins(calls[open[i]], call)
  {
    k := 0;
    while k < |open| && !Twins(calls[open[k]], call)
      invariant k <= |open|
      invariant forall i :: 0 <= i < k ==> !Twins(calls[open[i]], call)
    {
      k := k + 1;
    }
  }

  // ----- Holders ---------------------------------------------------------------------------------------------------

  function Filtered<T(==,!new)>(f: T -> bool, s: seq<T>): (r: seq<T>)
    ensures forall x :: x in r <==> x in s && f(x)
  {
    if s == [] then [] else
      var rest := Filtered(f, s[1..]);
      assert s == [s[0]] + s[1..];
      if f(s[0]) then [s[0]] + rest else rest
  }

  /** The positions of a value in a kept result that nothing withheld touches. */
  function AvailablePositions(result: Kept, value: Value): seq<Position> {
    Filtered((p: Position) => Available(result, Pointer(p.tokens)), Found(result.value, value, Top))
  }

  /** A call's representative and the positions of the value in its result. */
  datatype Examination = Examination(representative: nat, available: seq<Position>)

  function Examinations(ctx: Context, value: Value): (r: seq<Examination>)
    ensures |r| == |ctx.calls|
  {
    seq(|ctx.calls|, i requires 0 <= i < |ctx.calls| =>
      Examination(Class(ctx.classes, ctx.calls[i].index), AvailablePositions(ctx.calls[i].result, value)))
  }

  /** Each representative other than `own`, with the positions of its first call that holds the value. */
  function Examined(list: seq<Examination>, own: nat, n: nat): map<nat, seq<Position>>
    requires n <= |list|
  {
    if n == 0 then map[]
    else
      Noted(Examined(list, own, n - 1), own, list[n - 1])
  }

  function Noted(before: map<nat, seq<Position>>, own: nat, e: Examination): map<nat, seq<Position>> {
    if e.representative == own || e.representative in before || e.available == [] then before
    else before[e.representative := e.available]
  }

  lemma {:induction false} HoldersNext(ctx: Context, consumer: nat, value: Value, n: nat)
    requires n < |ctx.calls|
    ensures
      var call := ctx.calls[n];
      HoldersOf(ctx, consumer, value, n + 1)
      == Noted(HoldersOf(ctx, consumer, value, n), Class(ctx.classes, consumer),
               Examination(Class(ctx.classes, call.index), AvailablePositions(call.result, value)))
  {
  }

  function HoldersOf(ctx: Context, consumer: nat, value: Value, n: nat): map<nat, seq<Position>>
    requires n <= |ctx.calls|
  {
    Examined(Examinations(ctx, value), Class(ctx.classes, consumer), n)
  }

  /** A representative is found by the first call of it that holds the value. */
  lemma {:induction false} ExaminedFirst(list: seq<Examination>, own: nat, n: nat, node: nat) returns (i: nat)
    requires n <= |list| && node in Examined(list, own, n)
    ensures i < n && list[i].representative == node && node != own && node !in Examined(list, own, i)
    ensures Examined(list, own, n)[node] == list[i].available != []
    decreases n
  {
    i := n - 1;
    if node in Examined(list, own, n - 1) {
      i := ExaminedFirst(list, own, n - 1, node);
    }
  }

  lemma {:induction false} ExaminedHas(list: seq<Examination>, own: nat, n: nat, i: nat)
    requires i < n <= |list| && list[i].representative != own && list[i].available != []
    ensures list[i].representative in Examined(list, own, n)
    decreases n
  {
    if i < n - 1 {
      ExaminedHas(list, own, n - 1, i);
    }
  }

  method Holders(ctx: Context, consumer: nat, value: Value) returns (found: map<nat, seq<Position>>)
    ensures found == HoldersOf(ctx, consumer, value, |ctx.calls|)
  {
    found := map[];
    for n := 0 to |ctx.calls|
      invariant found == HoldersOf(ctx, consumer, value, n)
    {
      HoldersNext(ctx, consumer, value, n);
      var call := ctx.calls[n];
      var representative := Class(ctx.classes, call.index);
      if representative == Class(ctx.classes, consumer) || representative in found {
        continue;
      }
      var _, all := Positions(call.result.value, value, Top, []);
      assert [] + Found(call.result.value, value, Top) == Found(call.result.value, value, Top);
      var available := Filtered((p: Position) => Available(call.result, Pointer(p.tokens)), all);
      assert available == AvailablePositions(call.result, value);
      if available != [] {
        found := found[representative := available];
      }
    }
  }

  /** A span the recorder builds: calls in dispatch order, unique member names, and their representatives. */
  ghost predicate WellFormed(ctx: Context) {
    && Indexed(ctx.calls) && Classed(ctx.calls, ctx.classes)
    && forall i :: 0 <= i < |ctx.calls| ==> Unique(ctx.calls[i].result.value)
  }

  /** A path that leads to a value in one of two equal values leads to it in the other. */
  lemma {:induction false} SameLeads(a: Value, b: Value, tokens: seq<string>, arrays: seq<bool>, value: Value)
    requires Unique(a) && Unique(b) && Same(a, b) && LeadsTo(b, tokens, arrays, value)
    ensures LeadsTo(a, tokens, arrays, value)
    decreases |tokens|
  {
    if tokens == [] {
      SameTransitive(a, b, value);
    } else if arrays[0] {
      var k := Parsed(tokens[0]).value;
      SameLeads(a.items[k], b.items[k], tokens[1..], arrays[1..], value);
    } else {
      SameMember(a, b, tokens[0]);
      SameLeads(Get(a, tokens[0]).value, Get(b, tokens[0]).value, tokens[1..], arrays[1..], value);
    }
  }

  /** A member of one of two equal objects is equal to the other's. */
  lemma SameMember(a: Value, b: Value, key: string)
    requires Unique(a) && Unique(b) && Same(a, b) && Get(b, key).Some?
    ensures Get(a, key).Some? && Same(Get(a, key).value, Get(b, key).value)
    ensures Unique(Get(a, key).value) && Unique(Get(b, key).value)
  {
    SameSymmetric(a, b);
    var j := Place(b.members, key);
    var i := Place(a.members, key);
    assert Place(a.members, b.members[j].key) < |a.members|;
    assert Place(b.members, a.members[i].key) == j;
  }

  /** Every holder is its own representative: the positions are those of the call the source names. */
  lemma {:induction false} HolderIsRepresentative(ctx: Context, consumer: nat, value: Value, n: nat, node: nat)
    requires WellFormed(ctx) && n <= |ctx.calls| && node in HoldersOf(ctx, consumer, value, n)
    ensures node < n && HoldersOf(ctx, consumer, value, n)[node] == AvailablePositions(ctx.calls[node].result, value)
    ensures AvailablePositions(ctx.calls[node].result, value) != []
  {
    var j := ExaminedFirst(Examinations(ctx, value), Class(ctx.classes, consumer), n, node);
    NewHolder(ctx, consumer, value, j, node);
  }

  /** A representative first found at a call is that call: had it been an earlier twin, it would have been found
      there. */
  lemma {:induction false} NewHolder(ctx: Context, consumer: nat, value: Value, j: nat, node: nat)
    requires WellFormed(ctx) && j < |ctx.calls| && node == Class(ctx.classes, ctx.calls[j].index)
    requires node != Class(ctx.classes, consumer) && node !in HoldersOf(ctx, consumer, value, j)
    requires AvailablePositions(ctx.calls[j].result, value) != []
    ensures node == j
  {
    assert Represents(ctx.calls, ctx.classes, j);
    if node != j {
      TwinHolds(ctx, node, j, value);
      assert Represents(ctx.calls, ctx.classes, node);
      ExaminedHas(Examinations(ctx, value), Class(ctx.classes, consumer), j, node);
    }
  }

  /** A twin of a call that holds the value holds it too. */
  lemma TwinHolds(ctx: Context, node: nat, j: nat, value: Value)
    requires WellFormed(ctx) && node < j < |ctx.calls| && Twins(ctx.calls[node], ctx.calls[j])
    requires AvailablePositions(ctx.calls[j].result, value) != []
    ensures AvailablePositions(ctx.calls[node].result, value) != []
  {
    var p := AvailablePositions(ctx.calls[j].result, value)[0];
    assert p in AvailablePositions(ctx.calls[j].result, value);
    PositionsExactly(ctx.calls[j].result.value, value, p);
    SameLeads(ctx.calls[node].result.value, ctx.calls[j].result.value, p.tokens, p.arrays, value);
    PositionsExactly(ctx.calls[node].result.value, value, p);
    assert p in AvailablePositions(ctx.calls[node].result, value);
  }
}
