/**
 Where a recorded input comes from: every position of an earlier result that holds its value, and the one reference a
 plan may read it back by, never through an array index.
 */
module Provenance {
  import opened Basics
  import opened Json
  import opened KeptValues

  // ----- Positions -------------------------------------------------------------------------------------------------

  /** A path into a value; `arrays` says of each token whether it is an index. */
  datatype Position = Position(tokens: seq<string>, arrays: seq<bool>)

  const Top := Position([], [])

  function Under(at: Position, token: string, array_: bool): Position {
    Position(at.tokens + [token], at.arrays + [array_])
  }

  /** The node a path leads to. */
  function Leads(v: Value, tokens: seq<string>, arrays: seq<bool>): Option<Value>
    requires |tokens| == |arrays|
    decreases |tokens|
  {
    if tokens == [] then Some(v)
    else if arrays[0] then
      var k := Parsed(tokens[0]);
      if v.Arr? && k.Some? && k.value < |v.items| && IndexText(k.value) == tokens[0]
      then Leads(v.items[k.value], tokens[1..], arrays[1..]) else None
    else if Get(v, tokens[0]).Some? then Leads(Get(v, tokens[0]).value, tokens[1..], arrays[1..])
    else None
  }

  /** Whether the path leads to the value. */
  predicate LeadsTo(v: Value, tokens: seq<string>, arrays: seq<bool>, value: Value) {
    |tokens| == |arrays| && Leads(v, tokens, arrays).Some? && Same(Leads(v, tokens, arrays).value, value)
  }

  function Flat(parts: seq<seq<Position>>): seq<Position> {
    if parts == [] then [] else Flat(parts[..|parts| - 1]) + parts[|parts| - 1]
  }

  /** Every position of `value` in a node, the node itself first, then its members or items in order. */
  function Found(node: Value, value: Value, at: Position): seq<Position>
    decreases node, 1
  {
    (if Same(node, value) then [at] else []) + Flat(FoundInside(node, value, at))
  }

  /** The positions under each member or item. */
  function FoundInside(node: Value, value: Value, at: Position): seq<seq<Position>>
    decreases node, 0
  {
    match node
    case Obj(members) =>
      seq(|members|, i requires 0 <= i < |members| => Found(members[i].value, value, Under(at, members[i].key, false)))
    case Arr(items) =>
      seq(|items|, i requires 0 <= i < |items| => Found(items[i], value, Under(at, IndexText(i), true)))
    case _ => []
  }

  lemma {:induction false} FlatHas(parts: seq<seq<Position>>, i: nat, p: Position)
    requires i < |parts| && p in parts[i]
    ensures p in Flat(parts)
  {
    if i < |parts| - 1 { FlatHas(parts[..|parts| - 1], i, p); }
  }

  lemma {:induction false} FlatFrom(parts: seq<seq<Position>>, p: Position) returns (i: nat)
    requires p in Flat(parts)
    ensures i < |parts| && p in parts[i]
  {
    i := |parts| - 1;
    if p !in parts[i] { i := FlatFrom(parts[..i], p); }
  }

  lemma FlatNext(parts: seq<seq<Position>>, i: nat)
    requires i < |parts|
    ensures Flat(parts[..i + 1]) == Flat(parts[..i]) + parts[i]
  {
    assert parts[..i + 1][..i] == parts[..i];
  }

  lemma NextMember(members: seq<Member>, value: Value, at: Position, i: nat, found: seq<Position>)
    requires i < |members|
    ensures
      var parts := FoundInside(Obj(members), value, at);
      && |parts| == |members|
      && found + Flat(parts[..i + 1])
         == found + Flat(parts[..i]) + Found(members[i].value, value, Under(at, members[i].key, false))
  {
    FlatNext(FoundInside(Obj(members), value, at), i);
  }

  lemma NextItem(items: seq<Value>, value: Value, at: Position, i: nat, found: seq<Position>)
    requires i < |items|
    ensures
      var parts := FoundInside(Arr(items), value, at);
      && |parts| == |items|
      && found + Flat(parts[..i + 1])
           == found + Flat(parts[..i]) + Found(items[i], value, Under(at, IndexText(i), true))
  {
    FlatNext(FoundInside(Arr(items), value, at), i);
  }

  /** `positions`: one path is pushed and popped along the walk. */
  method Positions(node: Value, value: Value, at: Position, found: seq<Position>)
    returns (after: Position, all: seq<Position>)
    ensures after == at
    ensures all == found + Found(node, value, at)
    decreases node, 1
  {
    after, all := at, found;
    FoundAfter(node, value, at, found);
    if Same(node, value) {
      all := all + [after];
    }
    match node
    case Obj(members) => after, all := MemberPositions(members, value, after, all);
    case Arr(items) => after, all := ItemPositions(items, value, after, all);
    case _ =>
  }

  lemma {:induction false} FoundAfter(node: Value, value: Value, at: Position, found: seq<Position>)
    ensures found + Found(node, value, at)
      == (if Same(node, value) then found + [at] else found) + Flat(FoundInside(node, value, at))
  {
    Grouped(found, if Same(node, value) then [at] else [], Flat(FoundInside(node, value, at)));
    assert found + [] == found;
  }

  lemma Grouped(a: seq<Position>, b: seq<Position>, c: seq<Position>)
    ensures a + (b + c) == a + b + c
  {
  }

  method MemberPositions(members: seq<Member>, value: Value, at: Position, found: seq<Position>)
    returns (after: Position, all: seq<Position>)
    ensures after == at
    ensures all == found + Flat(FoundInside(Obj(members), value, at))
    decreases members, 0
  {
    after, all := at, found;
    ghost var parts := FoundInside(Obj(members), value, at);
    for i := 0 to |members|
      invariant after == at
      invariant all == found + Flat(parts[..i])
    {
      NextMember(members, value, at, i, found);
      after := Under(after, members[i].key, false);
      after, all := Positions(members[i].value, value, after, all);
      after := Popped(after);
    }
    assert parts[..|members|] == parts;
  }

  method ItemPositions(items: seq<Value>, value: Value, at: Position, found: seq<Position>)
    returns (after: Position, all: seq<Position>)
    ensures after == at
    ensures all == found + Flat(FoundInside(Arr(items), value, at))
    decreases items, 0
  {
    after, all := at, found;
    ghost var parts := FoundInside(Arr(items), value, at);
    for i := 0 to |items|
      invariant after == at
      invariant all == found + Flat(parts[..i])
    {
      NextItem(items, value, at, i, found);
      after := Under(after, IndexText(i), true);
      after, all := Positions(items[i], value, after, all);
      after := Popped(after);
    }
    assert parts[..|items|] == parts;
  }

  function Popped(at: Position): Position
    requires at.tokens != [] && at.arrays != []
  {
    Position(at.tokens[..|at.tokens| - 1], at.arrays[..|at.arrays| - 1])
  }

  /** A position found under `at`: the rest of its path leads to the value. */
  ghost predicate FoundUnder(node: Value, value: Value, at: Position, p: Position) {
    && at.tokens <= p.tokens && at.arrays <= p.arrays && |p.tokens| - |at.tokens| == |p.arrays| - |at.arrays|
    && LeadsTo(node, p.tokens[|at.tokens|..], p.arrays[|at.arrays|..], value)
  }

  lemma UnderMember(members: seq<Member>, i: nat, value: Value, at: Position, p: Position)
    requires i < |members| && Unique(Obj(members))
      && FoundUnder(members[i].value, value, Under(at, members[i].key, false), p)
    ensures FoundUnder(Obj(members), value, at, p)
  {
    UniquePlace(members, i);
    OneDown(at, members[i].key, false, p);
  }

  lemma UnderItem(items: seq<Value>, i: nat, value: Value, at: Position, p: Position)
    requires i < |items| && FoundUnder(items[i], value, Under(at, IndexText(i), true), p)
    ensures FoundUnder(Arr(items), value, at, p)
  {
    ParsedIndex(i);
    OneDown(at, IndexText(i), true, p);
  }

  lemma {:induction false} FoundSound(node: Value, value: Value, at: Position, p: Position)
    requires Unique(node) && p in Found(node, value, at)
    ensures FoundUnder(node, value, at, p)
    decreases node
  {
    if p == at && Same(node, value) {
      assert p.tokens[|at.tokens|..] == [] && p.arrays[|at.arrays|..] == [];
    } else {
      match node
      case Obj(members) =>
        var i := FlatFrom(FoundInside(node, value, at), p);
        FoundSound(members[i].value, value, Under(at, members[i].key, false), p);
        UnderMember(members, i, value, at, p);
      case Arr(items) =>
        var i := FlatFrom(FoundInside(node, value, at), p);
        FoundSound(items[i], value, Under(at, IndexText(i), true), p);
        UnderItem(items, i, value, at, p);
      case _ =>
    }
  }

  lemma OneDown(at: Position, token: string, array_: bool, p: Position)
    requires at.tokens + [token] <= p.tokens && at.arrays + [array_] <= p.arrays
    ensures at.tokens <= p.tokens && at.arrays <= p.arrays
    ensures p.tokens[|at.tokens|..] == [token] + p.tokens[|at.tokens| + 1..]
    ensures p.arrays[|at.arrays|..] == [array_] + p.arrays[|at.arrays| + 1..]
  {
  }

  lemma {:induction false} FoundComplete(node: Value, value: Value, at: Position, tokens: seq<string>,
                                         arrays: seq<bool>)
    requires LeadsTo(node, tokens, arrays, value)
    ensures Position(at.tokens + tokens, at.arrays + arrays) in Found(node, value, at)
    decreases |tokens|
  {
    if tokens == [] {
      assert Position(at.tokens + tokens, at.arrays + arrays) == at;
    } else {
      var next := Under(at, tokens[0], arrays[0]);
      assert next.tokens + tokens[1..] == at.tokens + tokens && next.arrays + arrays[1..] == at.arrays + arrays;
      if arrays[0] {
        var k := Parsed(tokens[0]).value;
        FoundComplete(node.items[k], value, next, tokens[1..], arrays[1..]);
        FlatHas(FoundInside(node, value, at), k, Position(at.tokens + tokens, at.arrays + arrays));
      } else {
        var k := Place(node.members, tokens[0]);
        FoundComplete(node.members[k].value, value, next, tokens[1..], arrays[1..]);
        FlatHas(FoundInside(node, value, at), k, Position(at.tokens + tokens, at.arrays + arrays));
      }
    }
  }

  /** The walk finds exactly the paths that lead to the value. */
  lemma PositionsExactly(node: Value, value: Value, p: Position)
    requires Unique(node)
    ensures p in Found(node, value, Top) <==> LeadsTo(node, p.tokens, p.arrays, value)
  {
    assert p.tokens[0..] == p.tokens && p.arrays[0..] == p.arrays;
    if p in Found(node, value, Top) {
      FoundSound(node, value, Top, p);
    }
    if LeadsTo(node, p.tokens, p.arrays, value) {
      FoundComplete(node, value, Top, p.tokens, p.arrays);
      assert Position(Top.tokens + p.tokens, Top.arrays + p.arrays) == p;
    }
  }

  // ----- No position twice -----------------------------------------------------------------------------------------

  ghost predicate NoneTwice(ps: seq<Position>) { forall i, j :: 0 <= i < j < |ps| ==> ps[i] != ps[j] }

  ghost predicate PartsApart(parts: seq<seq<Position>>) {
    && (forall i :: 0 <= i < |parts| ==> NoneTwice(parts[i]))
    && forall i, j, p :: 0 <= i < j < |parts| && p in parts[i] ==> p !in parts[j]
  }

  lemma {:induction false} FlatNoneTwice(parts: seq<seq<Position>>)
    requires PartsApart(parts)
    ensures NoneTwice(Flat(parts))
    decreases |parts|
  {
    if parts != [] {
      var front, last := parts[..|parts| - 1], parts[|parts| - 1];
      FlatNoneTwice(front);
      forall p | p in Flat(front) ensures p !in last {
        var i := FlatFrom(front, p);
        assert p in parts[i];
      }
      JoinedNoneTwice(Flat(front), last);
    }
  }

  lemma JoinedNoneTwice(a: seq<Position>, b: seq<Position>)
    requires NoneTwice(a) && NoneTwice(b) && forall p :: p in a ==> p !in b
    ensures NoneTwice(a + b)
  {
    assert forall i :: 0 <= i < |a| ==> a[i] in a;
  }

  /** What is found under a token goes through it. */
  lemma FoundThrough(node: Value, value: Value, at: Position, token: string, array_: bool, p: Position)
    requires Unique(node) && p in Found(node, value, Under(at, token, array_))
    ensures |p.tokens| > |at.tokens| && p.tokens[|at.tokens|] == token
  {
    FoundSound(node, value, Under(at, token, array_), p);
  }

  /** The walk finds no position twice. */
  lemma {:induction false} FoundNoneTwice(node: Value, value: Value, at: Position)
    requires Unique(node)
    ensures NoneTwice(Found(node, value, at))
    decreases node, 1
  {
    var parts := FoundInside(node, value, at);
    InsideNoneTwice(node, value, at);
    FlatNoneTwice(parts);
    forall p | p in Flat(parts) ensures p != at {
      var i := FlatFrom(parts, p);
      InsideLonger(node, value, at, i, p);
    }
    JoinedNoneTwice(if Same(node, value) then [at] else [], Flat(parts));
  }

  lemma InsideLonger(node: Value, value: Value, at: Position, i: nat, p: Position)
    requires Unique(node) && i < |FoundInside(node, value, at)| && p in FoundInside(node, value, at)[i]
    ensures |p.tokens| > |at.tokens|
    ensures p.tokens[|at.tokens|] == if node.Obj? then node.members[i].key else IndexText(i)
  {
    match node
    case Obj(members) => FoundThrough(members[i].value, value, at, members[i].key, false, p);
    case Arr(items) => FoundThrough(items[i], value, at, IndexText(i), true, p);
  }

  lemma {:induction false} InsideNoneTwice(node: Value, value: Value, at: Position)
    requires Unique(node)
    ensures PartsApart(FoundInside(node, value, at))
    decreases node, 0
  {
    var parts := FoundInside(node, value, at);
    forall i | 0 <= i < |parts| ensures NoneTwice(parts[i]) {
      match node
      case Obj(members) => FoundNoneTwice(members[i].value, value, Under(at, members[i].key, false));
      case Arr(items) => FoundNoneTwice(items[i], value, Under(at, IndexText(i), true));
    }
    forall i, j, p | 0 <= i < j < |parts| && p in parts[i] ensures p !in parts[j] {
      InsideLonger(node, value, at, i, p);
      if p in parts[j] {
        InsideLonger(node, value, at, j, p);
        if node.Arr? {
          IndexInjective(i, j);
        }
      }
    }
  }
}
