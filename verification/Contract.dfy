/**
 The contract of an Assistant: the canonical text of what the Brain receives of it, which a Routine's scope pin keeps
 the digest of.  A digest is taken to be as good as the text it is of.
 */
module Contract {
  import opened Basics
  import opened Json
  import opened JsonText
  import opened Runtime
  import Serialization

  function ContractText(a: RuntimeAssistant): string { Serialization.Dumps(AssistantWire(a), true) }

  /** The two values say the same, whatever the order of members. */
  ghost predicate Alike(v: Value, w: Value) { Shape(Canonical(v)) == Shape(Canonical(w)) }

  ghost predicate ActionAlike(a: RuntimeAction, b: RuntimeAction) {
    && a.id == b.id && a.summary == b.summary && a.authorization == b.authorization && a.inputFiles == b.inputFiles
    && Alike(a.inputSchema, b.inputSchema) && Alike(a.outputSchema, b.outputSchema)
  }

  ghost predicate AssistantAlike(a: RuntimeAssistant, b: RuntimeAssistant) {
    && a.id == b.id && a.genesis == b.genesis && |a.actions| == |b.actions|
    && forall i :: 0 <= i < |a.actions| ==> ActionAlike(a.actions[i], b.actions[i])
  }

  /** Every number of the contract's schemas is finite. */
  ghost predicate Finite(a: RuntimeAssistant) {
    forall i :: 0 <= i < |a.actions| ==> Plain(a.actions[i].inputSchema) && Plain(a.actions[i].outputSchema)
  }

  // ----- What a canonical value holds ------------------------------------------------------------------------------

  lemma {:induction false} CanonicalItem(items: seq<Value>, i: nat)
    requires i < |items|
    ensures |CanonicalItems(items)| == |items| && CanonicalItems(items)[i] == Canonical(items[i])
    decreases |items|
  {
    if |items| > 1 {
      CanonicalItem(items[1..], if i == 0 then 0 else i - 1);
    }
  }

  lemma {:induction false} ItemsCount(items: seq<Value>)
    ensures |CanonicalItems(items)| == |items|
  {
    if items != [] {
      CanonicalItem(items, 0);
    }
  }

  lemma {:induction false} CanonicalMember(members: seq<Member>, i: nat)
    requires i < |members|
    ensures |CanonicalMembers(members)| == |members|
    ensures CanonicalMembers(members)[i] == Member(members[i].key, Canonical(members[i].value))
    decreases |members|
  {
    if |members| > 1 {
      CanonicalMember(members[1..], if i == 0 then 0 else i - 1);
    }
  }

  /** Arrays that say the same have alike items in the same places. */
  lemma {:induction false} ItemsAlike(v: seq<Value>, w: seq<Value>)
    requires Alike(Arr(v), Arr(w))
    ensures |v| == |w| && forall i :: 0 <= i < |v| ==> Alike(v[i], w[i])
  {
    ItemsCount(v);
    ItemsCount(w);
    var a, b := Shape(Arr(CanonicalItems(v))), Shape(Arr(CanonicalItems(w)));
    assert a == b && |a.items| == |v| && |b.items| == |w|;
    forall i | 0 <= i < |v| ensures Alike(v[i], w[i]) {
      CanonicalItem(v, i);
      CanonicalItem(w, i);
      assert a.items[i] == b.items[i];
    }
  }

  /** A member of one object is a member of any that says the same. */
  lemma {:induction false} MemberAlike(v: seq<Member>, w: seq<Member>, i: nat) returns (j: nat)
    requires Alike(Obj(v), Obj(w)) && i < |v|
    ensures j < |w| && w[j].key == v[i].key && Alike(v[i].value, w[j].value)
  {
    var a, b := CanonicalMembers(v), CanonicalMembers(w);
    CanonicalMember(v, i);
    SortedMembers(a);
    SortedMembers(b);
    assert a[i] in multiset(SortMembers(a));
    var x :| 0 <= x < |SortMembers(a)| && SortMembers(a)[x] == a[i];
    assert Shape(Canonical(Obj(v))).members[x] == Shape(Canonical(Obj(w))).members[x];
    var m := SortMembers(b)[x];
    assert m in multiset(SortMembers(b));
    j :| 0 <= j < |b| && b[j] == m;
    MembersCount(w);
    CanonicalMember(w, j);
  }

  lemma {:induction false} MembersCount(members: seq<Member>)
    ensures |CanonicalMembers(members)| == |members|
  {
    if members != [] {
      CanonicalMember(members, 0);
    }
  }

  /** Objects with the same names, none twice, that say the same have alike members in the same places. */
  lemma {:induction false} MembersAlike(v: seq<Member>, w: seq<Member>)
    requires Alike(Obj(v), Obj(w)) && UniqueKeys(w) && |v| == |w|
    requires forall i :: 0 <= i < |v| ==> v[i].key == w[i].key
    ensures forall i :: 0 <= i < |v| ==> Alike(v[i].value, w[i].value)
  {
    forall i | 0 <= i < |v| ensures Alike(v[i].value, w[i].value) {
      var j := MemberAlike(v, w, i);
    }
  }

  // ----- The contract ----------------------------------------------------------------------------------------------

  lemma {:induction false} ActionPlain(a: RuntimeAction)
    requires Plain(a.inputSchema) && Plain(a.outputSchema)
    ensures Plain(ActionWire(a))
  {
  }

  lemma {:induction false} AssistantPlain(a: RuntimeAssistant)
    requires Finite(a)
    ensures Plain(AssistantWire(a))
  {
    var actions := Mapped(ActionWire, a.actions);
    forall i | 0 <= i < |actions| ensures Plain(actions[i]) {
      ActionPlain(a.actions[i]);
    }
    assert Plain(Arr(actions));
  }

  lemma {:induction false} FilesAlike(a: seq<string>, b: seq<string>)
    requires Alike(Arr(Mapped((s: string) => Str(s), a)), Arr(Mapped((s: string) => Str(s), b)))
    ensures a == b
  {
    var v, w := Mapped((s: string) => Str(s), a), Mapped((s: string) => Str(s), b);
    ItemsAlike(v, w);
    forall i | 0 <= i < |a| ensures a[i] == b[i] {
      assert Alike(v[i], w[i]) && v[i] == Str(a[i]) && w[i] == Str(b[i]);
    }
  }

  lemma {:induction false} WireActionAlike(a: RuntimeAction, b: RuntimeAction)
    requires Alike(ActionWire(a), ActionWire(b))
    ensures ActionAlike(a, b)
  {
    var v, w := ActionWire(a).members, ActionWire(b).members;
    MembersAlike(v, w);
    assert Alike(v[0].value, w[0].value) && Alike(v[1].value, w[1].value) && Alike(v[4].value, w[4].value);
    assert Alike(v[2].value, w[2].value) && Alike(v[3].value, w[3].value) && Alike(v[5].value, w[5].value);
    FilesAlike(a.inputFiles, b.inputFiles);
  }

  lemma {:induction false} WireAlike(a: RuntimeAssistant, b: RuntimeAssistant)
    requires Alike(AssistantWire(a), AssistantWire(b))
    ensures AssistantAlike(a, b)
  {
    var v, w := AssistantWire(a).members, AssistantWire(b).members;
    MembersAlike(v, w);
    assert Alike(v[0].value, w[0].value) && Alike(v[1].value, w[1].value) && Alike(v[2].value, w[2].value);
    ItemsAlike(Mapped(ActionWire, a.actions), Mapped(ActionWire, b.actions));
    forall i | 0 <= i < |a.actions| ensures ActionAlike(a.actions[i], b.actions[i]) {
      assert Alike(Mapped(ActionWire, a.actions)[i], Mapped(ActionWire, b.actions)[i]);
      WireActionAlike(a.actions[i], b.actions[i]);
    }
  }

  /** A changed contract changes its text: Assistants with the same one agree in everything the Brain receives. */
  lemma {:induction false} ContractChanges(a: RuntimeAssistant, b: RuntimeAssistant)
    requires Finite(a) && Finite(b) && ContractText(a) == ContractText(b)
    ensures AssistantAlike(a, b)
  {
    AssistantPlain(a);
    AssistantPlain(b);
    CanonicalReadBack(AssistantWire(a));
    CanonicalReadBack(AssistantWire(b));
    WireAlike(a, b);
  }
}
