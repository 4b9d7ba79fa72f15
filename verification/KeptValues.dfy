/**
 What a recording holds of a JSON value: the value with some positions replaced by null, the pointers of those
 positions, and which reads of it equal reads of the whole value.
 */
module KeptValues {
  import opened Basics
  import opened Json
  import opened Serialization
  import opened Pointers

  datatype Kept = Kept(value: Value, withheld: set<string>, oversize: bool)

  /** The pointer and every withheld one are neither equal nor one inside the other. */
  predicate Available(kept: Kept, pointer: string) {
    !exists w :: w in kept.withheld && (w == "" || Pointers.Within(w, pointer) || Pointers.Within(pointer, w))
  }

  // ----- Positions inside a value ----------------------------------------------------------------------------------

  /** The token of an array index. */
  function IndexText(k: nat): string { Digits(k) }

  function Digit(c: char): Option<nat> { if '0' <= c <= '9' then Some((c - '0') as nat) else None }

  /** `token.parse::<usize>()` of a token of digits. */
  function Parsed(s: string): Option<nat> {
    if s == "" then None
    else if |s| == 1 then Digit(s[0])
    else
      var front, last := Parsed(s[..|s| - 1]), Digit(s[|s| - 1]);
      if front.Some? && last.Some? then Some(10 * front.value + last.value) else None
  }

  lemma {:induction false} ParsedIndex(k: nat)
    ensures Parsed(IndexText(k)) == Some(k)
    decreases k
  {
    if k >= 10 {
      ParsedIndex(k / 10);
      var s := Digits(k);
      assert s[..|s| - 1] == Digits(k / 10);
      DigitText(k % 10);
    } else {
      DigitText(k);
    }
  }

  lemma DigitText(d: nat)
    requires d < 10
    ensures Digit("0123456789"[d]) == Some(d)
  {
  }

  lemma IndexInjective(a: nat, b: nat)
    requires IndexText(a) == IndexText(b)
    ensures a == b
  {
    ParsedIndex(a);
    ParsedIndex(b);
  }

  /** The node member tokens reach, crossing no array. */
  function Reached(v: Value, tokens: seq<string>): Option<Value>
    decreases |tokens|
  {
    if tokens == [] then Some(v)
    else if Get(v, tokens[0]).Some? then Reached(Get(v, tokens[0]).value, tokens[1..]) else None
  }

  /** The node after following members and items token by token, null where there is none. */
  function Reach(v: Value, tokens: seq<string>): Value
    decreases |tokens|
  {
    if tokens == [] then v
    else if v.Arr? then
      var k := Parsed(tokens[0]);
      Reach(if k.Some? && k.value < |v.items| then v.items[k.value] else Null, tokens[1..])
    else Reach(if Get(v, tokens[0]).Some? then Get(v, tokens[0]).value else Null, tokens[1..])
  }

  lemma {:induction false} ReachedReach(v: Value, tokens: seq<string>)
    requires Reached(v, tokens).Some?
    ensures Reach(v, tokens) == Reached(v, tokens).value
    decreases |tokens|
  {
    if tokens != [] {
      ReachedReach(Get(v, tokens[0]).value, tokens[1..]);
    }
  }

  // ----- What keeping withholds ------------------------------------------------------------------------------------

  /** `kept` is `full` with exactly the withheld positions emptied. */
  ghost predicate Masked(full: Value, kept: Value, withheld: set<seq<string>>, at: seq<string>)
    decreases full
  {
    if at in withheld then kept == Null
    else
      match full
      case Obj(members) =>
        && kept.Obj? && |kept.members| == |members|
        && forall i :: 0 <= i < |members| ==>
             && kept.members[i].key == members[i].key
             && Masked(members[i].value, kept.members[i].value, withheld, at + [members[i].key])
      case Arr(items) =>
        && kept.Arr? && |kept.items| == |items|
        && forall i :: 0 <= i < |items| ==> Masked(items[i], kept.items[i], withheld, at + [IndexText(i)])
      case _ => kept == full
  }

  ghost function PointersOf(withheld: set<seq<string>>): set<string> { set w | w in withheld :: Pointer(w) }

  /** A kept form of `full` whose withheld pointers are those of the emptied positions. */
  ghost predicate KeptOf(kept: Kept, full: Value, withheld: set<seq<string>>) {
    kept.withheld == PointersOf(withheld) && Masked(full, kept.value, withheld, [])
  }

  /** Neither position is inside the other. */
  ghost predicate Apart(withheld: set<seq<string>>, at: seq<string>) {
    forall w :: w in withheld ==> !(w <= at) && !(at <= w)
  }

  /** The text test for availability is the test of positions. */
  lemma AvailableMeans(kept: Kept, withheld: set<seq<string>>, at: seq<string>)
    requires kept.withheld == PointersOf(withheld)
    ensures Available(kept, Pointer(at)) <==> Apart(withheld, at)
  {
    forall w | w in withheld
      ensures Pointer(w) in kept.withheld
      ensures (Pointer(w) == "" || Pointers.Within(Pointer(w), Pointer(at)) || Pointers.Within(Pointer(at), Pointer(w)))
        <==> (w <= at || at <= w)
    {
      WithinMeans(w, at);
      WithinMeans(at, w);
    }
  }

  /** What is apart from everything withheld was kept as it is. */
  lemma {:induction false} Untouched(full: Value, kept: Value, withheld: set<seq<string>>, at: seq<string>)
    requires Masked(full, kept, withheld, at) && Apart(withheld, at)
    ensures kept == full
    decreases full
  {
    assert at !in withheld;
    match full
    case Obj(members) =>
      forall i | 0 <= i < |members| ensures kept.members[i] == members[i] {
        ApartUnder(withheld, at, members[i].key);
        Untouched(members[i].value, kept.members[i].value, withheld, at + [members[i].key]);
      }
      assert kept.members == members;
    case Arr(items) =>
      forall i | 0 <= i < |items| ensures kept.items[i] == items[i] {
        ApartUnder(withheld, at, IndexText(i));
        Untouched(items[i], kept.items[i], withheld, at + [IndexText(i)]);
      }
      assert kept.items == items;
    case _ =>
  }

  lemma ApartUnder(withheld: set<seq<string>>, at: seq<string>, token: string)
    requires Apart(withheld, at)
    ensures Apart(withheld, at + [token])
  {
  }

  /** A member of a kept object is the kept form of the same member. */
  lemma MaskedMember(full: Value, kept: Value, withheld: set<seq<string>>, at: seq<string>, key: string)
    requires Masked(full, kept, withheld, at) && kept.Obj?
    ensures full.Obj? && (Get(full, key).Some? <==> Get(kept, key).Some?)
    ensures Get(kept, key).Some? ==> Masked(Get(full, key).value, Get(kept, key).value, withheld, at + [key])
  {
    SamePlace(full.members, kept.members, key);
  }

  lemma {:induction false} SamePlace(a: seq<Member>, b: seq<Member>, key: string)
    requires |a| == |b| && forall i :: 0 <= i < |a| ==> a[i].key == b[i].key
    ensures Place(a, key) == Place(b, key)
    decreases |a|
  {
    if a != [] {
      SamePlace(a[1..], b[1..], key);
    }
  }

  lemma {:induction false} MaskedNext(full: Value, kept: Value, withheld: set<seq<string>>, at: seq<string>,
                                      tokens: seq<string>)
    requires Masked(full, kept, withheld, at) && tokens != [] && Reached(kept, tokens).Some?
    ensures Get(full, tokens[0]).Some? && Get(kept, tokens[0]).Some?
    ensures Reached(full, tokens) == Reached(Get(full, tokens[0]).value, tokens[1..])
    ensures Reached(kept, tokens) == Reached(Get(kept, tokens[0]).value, tokens[1..])
    ensures Masked(Get(full, tokens[0]).value, Get(kept, tokens[0]).value, withheld, at + [tokens[0]])
  {
    MaskedMember(full, kept, withheld, at, tokens[0]);
  }

  /** Member tokens that reach a kept node reach its full form. */
  lemma {:induction false} MaskedReached(full: Value, kept: Value, withheld: set<seq<string>>, at: seq<string>,
                                         tokens: seq<string>)
    requires Masked(full, kept, withheld, at) && Reached(kept, tokens).Some?
    ensures Reached(full, tokens).Some?
    ensures Masked(Reached(full, tokens).value, Reached(kept, tokens).value, withheld, at + tokens)
    decreases |tokens|
  {
    if tokens == [] {
      assert at + tokens == at;
    } else {
      MaskedNext(full, kept, withheld, at, tokens);
      var inside, whole := Get(kept, tokens[0]).value, Get(full, tokens[0]).value;
      MaskedReached(whole, inside, withheld, at + [tokens[0]], tokens[1..]);
      Further(at, tokens);
    }
  }

  lemma Further(at: seq<string>, tokens: seq<string>)
    requires tokens != []
    ensures at + [tokens[0]] + tokens[1..] == at + tokens
  {
  }

  // ----- Keeping ---------------------------------------------------------------------------------------------------

  /** Whether a value at a position may be secret. */
  type Hides = (seq<string>, Value) -> bool

  function Keep(v: Value, at: seq<string>, hides: Hides): Value
    decreases v
  {
    if hides(at, v) then Null
    else
      match v
      case Obj(members) =>
        Obj(seq(|members|, i requires 0 <= i < |members| =>
          Member(members[i].key, Keep(members[i].value, at + [members[i].key], hides))))
      case Arr(items) =>
        Arr(seq(|items|, i requires 0 <= i < |items| => Keep(items[i], at + [IndexText(i)], hides)))
      case _ => v
  }

  /** The positions keeping empties. */
  ghost function Withheld(v: Value, at: seq<string>, hides: Hides): set<seq<string>>
    decreases v
  {
    if hides(at, v) then {at}
    else
      match v
      case Obj(members) =>
        set i, w | 0 <= i < |members| && w in Withheld(members[i].value, at + [members[i].key], hides) :: w
      case Arr(items) => set i, w | 0 <= i < |items| && w in Withheld(items[i], at + [IndexText(i)], hides) :: w
      case _ => {}
  }

  lemma {:induction false} WithheldUnder(v: Value, at: seq<string>, hides: Hides, w: seq<string>)
    requires w in Withheld(v, at, hides)
    ensures at <= w && (!hides(at, v) ==> |at| < |w|)
    decreases v
  {
    if !hides(at, v) {
      match v
      case Obj(members) =>
        var i :| 0 <= i < |members| && w in Withheld(members[i].value, at + [members[i].key], hides);
        WithheldUnder(members[i].value, at + [members[i].key], hides, w);
      case Arr(items) =>
        var i :| 0 <= i < |items| && w in Withheld(items[i], at + [IndexText(i)], hides);
        WithheldUnder(items[i], at + [IndexText(i)], hides, w);
    }
  }

  /** The withheld positions at or under `at` are those of the value there. */
  ghost predicate AgreesUnder(withheld: set<seq<string>>, v: Value, at: seq<string>, hides: Hides) {
    forall w :: at <= w ==> (w in withheld <==> w in Withheld(v, at, hides))
  }

  lemma {:induction false} AgreesMember(withheld: set<seq<string>>, v: Value, at: seq<string>, hides: Hides, i: nat)
    requires AgreesUnder(withheld, v, at, hides) && !hides(at, v) && v.Obj? && UniqueKeys(v.members) && i < |v.members|
    ensures AgreesUnder(withheld, v.members[i].value, at + [v.members[i].key], hides)
  {
    var here := at + [v.members[i].key];
    forall w | here <= w ensures w in withheld <==> w in Withheld(v.members[i].value, here, hides) {
      assert at <= w;
      if w in withheld {
        var j :| 0 <= j < |v.members| && w in Withheld(v.members[j].value, at + [v.members[j].key], hides);
        WithheldUnder(v.members[j].value, at + [v.members[j].key], hides, w);
        assert w[|at|] == v.members[j].key == v.members[i].key;
      }
    }
  }

  lemma {:induction false} AgreesItem(withheld: set<seq<string>>, v: Value, at: seq<string>, hides: Hides, i: nat)
    requires AgreesUnder(withheld, v, at, hides) && !hides(at, v) && v.Arr? && i < |v.items|
    ensures AgreesUnder(withheld, v.items[i], at + [IndexText(i)], hides)
  {
    var here := at + [IndexText(i)];
    forall w | here <= w ensures w in withheld <==> w in Withheld(v.items[i], here, hides) {
      assert at <= w;
      if w in withheld {
        var j :| 0 <= j < |v.items| && w in Withheld(v.items[j], at + [IndexText(j)], hides);
        WithheldUnder(v.items[j], at + [IndexText(j)], hides, w);
        assert w[|at|] == IndexText(j) == IndexText(i);
        IndexInjective(i, j);
      }
    }
  }

  lemma {:induction false} KeepMasks(v: Value, at: seq<string>, hides: Hides, withheld: set<seq<string>>)
    requires Unique(v) && AgreesUnder(withheld, v, at, hides)
    ensures Masked(v, Keep(v, at, hides), withheld, at)
    decreases v
  {
    if hides(at, v) {
      assert at in withheld;
    } else {
      if at in withheld {
        WithheldUnder(v, at, hides, at);
      }
      match v
      case Obj(members) =>
        forall i | 0 <= i < |members|
          ensures Masked(members[i].value, Keep(members[i].value, at + [members[i].key], hides), withheld,
                         at + [members[i].key])
        {
          AgreesMember(withheld, v, at, hides, i);
          KeepMasks(members[i].value, at + [members[i].key], hides, withheld);
        }
      case Arr(items) =>
        forall i | 0 <= i < |items|
          ensures Masked(items[i], Keep(items[i], at + [IndexText(i)], hides), withheld, at + [IndexText(i)])
        {
          AgreesItem(withheld, v, at, hides, i);
          KeepMasks(items[i], at + [IndexText(i)], hides, withheld);
        }
      case _ =>
    }
  }

  /** The node tokens lead to, through members by name and items by how their index is written. */
  ghost function Node(v: Value, tokens: seq<string>): Option<Value>
    decreases |tokens|
  {
    if tokens == [] then Some(v)
    else if v.Arr? then
      var k := Parsed(tokens[0]);
      if k.Some? && k.value < |v.items| && IndexText(k.value) == tokens[0] then Node(v.items[k.value], tokens[1..])
      else None
    else if Get(v, tokens[0]).Some? then Node(Get(v, tokens[0]).value, tokens[1..])
    else None
  }

  /** The node the tokens lead to may be secret, and none on the way to it may. */
  ghost predicate HidesFirst(v: Value, at: seq<string>, hides: Hides, tokens: seq<string>)
    decreases |tokens|
  {
    if tokens == [] then hides(at, v)
    else
      && !hides(at, v) && Node(v, tokens[..1]).Some?
      && HidesFirst(Node(v, tokens[..1]).value, at + [tokens[0]], hides, tokens[1..])
  }

  /** What is withheld is exactly every first node that may be secret on a path from the top. */
  lemma {:induction false} WithheldExactly(v: Value, at: seq<string>, hides: Hides, tokens: seq<string>)
    requires Unique(v)
    ensures at + tokens in Withheld(v, at, hides) <==> HidesFirst(v, at, hides, tokens)
    decreases |tokens|
  {
    var w := at + tokens;
    if tokens == [] {
      assert w == at;
      if w in Withheld(v, at, hides) {
        WithheldUnder(v, at, hides, w);
      }
    } else if !hides(at, v) {
      var first, rest := tokens[0], tokens[1..];
      assert w == at + [first] + rest;
      OneStep(v, tokens);
      if v.Obj? {
        WithheldMembers(v, at, hides, first, w);
        if Get(v, first).Some? {
          WithheldExactly(Get(v, first).value, at + [first], hides, rest);
        }
      } else if v.Arr? {
        WithheldItems(v, at, hides, first, w);
        var k := Parsed(first);
        if k.Some? && k.value < |v.items| {
          WithheldExactly(v.items[k.value], at + [first], hides, rest);
        }
      }
    }
  }

  lemma {:induction false} OneStep(v: Value, tokens: seq<string>)
    requires tokens != []
    ensures Node(v, tokens[..1]) ==
      if v.Arr? then
        var k := Parsed(tokens[0]);
        if k.Some? && k.value < |v.items| && IndexText(k.value) == tokens[0] then Some(v.items[k.value]) else None
      else Get(v, tokens[0])
  {
    assert tokens[..1][1..] == [] && tokens[..1][0] == tokens[0];
  }

  lemma {:induction false} WithheldMembers(v: Value, at: seq<string>, hides: Hides, first: string, w: seq<string>)
    requires Unique(v) && v.Obj? && !hides(at, v) && at + [first] <= w
    ensures w in Withheld(v, at, hides) <==>
      Get(v, first).Some? && w in Withheld(Get(v, first).value, at + [first], hides)
  {
    var k := Place(v.members, first);
    if w in Withheld(v, at, hides) {
      var i :| 0 <= i < |v.members| && w in Withheld(v.members[i].value, at + [v.members[i].key], hides);
      WithheldUnder(v.members[i].value, at + [v.members[i].key], hides, w);
      assert w[|at|] == v.members[i].key == first;
      UniquePlace(v.members, i);
    }
  }

  lemma {:induction false} WithheldItems(v: Value, at: seq<string>, hides: Hides, first: string, w: seq<string>)
    requires v.Arr? && !hides(at, v) && at + [first] <= w
    ensures
      var k := Parsed(first);
      w in Withheld(v, at, hides) <==>
        && k.Some? && k.value < |v.items| && IndexText(k.value) == first
        && w in Withheld(v.items[k.value], at + [first], hides)
  {
    if w in Withheld(v, at, hides) {
      var i :| 0 <= i < |v.items| && w in Withheld(v.items[i], at + [IndexText(i)], hides);
      WithheldUnder(v.items[i], at + [IndexText(i)], hides, w);
      assert w[|at|] == IndexText(i) == first;
      ParsedIndex(i);
    }
  }

  const MAX_KEPT_BYTES: nat := 256 * 1024

  /** What is recorded of a value: its kept form, or nothing of it when even that is too large. */
  ghost function Recorded(v: Value, hides: Hides): Kept {
    var kept := Keep(v, [], hides);
    if Bytes(Dumps(kept, true)) > MAX_KEPT_BYTES then Kept(Null, {""}, true)
    else Kept(kept, PointersOf(Withheld(v, [], hides)), false)
  }

  /** What is recorded of any value is a kept form of it, the whole value withheld when it is too large. */
  lemma KeepKeeps(v: Value, hides: Hides)
    requires Unique(v)
    ensures
      var kept := Recorded(v, hides);
      && KeptOf(kept, v, if kept.oversize then {[]} else Withheld(v, [], hides))
      && (kept.oversize <==> Bytes(Dumps(Keep(v, [], hides), true)) > 262_144)
  {
    KeepMasks(v, [], hides, Withheld(v, [], hides));
    assert PointersOf({[]}) == {""} by { assert Pointer([]) == ""; }
  }
}
