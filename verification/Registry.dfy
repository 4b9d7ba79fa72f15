/**
 The durable registry of Assistant bindings: one binding per Team and Assistant, written sorted, changed one binding at
 a time under the registry's lock, and re-admitted on every read with a bounded memory of what was admitted.
 */
module Registry {
  import opened Basics
  import Serialization
  import opened TextOrder
  import Json

  const MAX_BINDINGS: nat := 4096
  const MAX_TEAM_ASSISTANTS: nat := 16
  const MAX_ADMISSIONS: nat := 1024

  /** What a binding's digest is taken over. */
  datatype Identity = Identity(team: string, assistant: string, published: bool, document: Json.Value)

  datatype Binding = Binding(identity: Identity, digest: string)

  datatype BindingError = Invalid | Conflict | LimitReached | Unavailable

  // ----- The written order -----------------------------------------------------------------------------------------

  predicate KeyLeq(a: Binding, b: Binding) {
    || Less(a.identity.team, b.identity.team)
    || (a.identity.team == b.identity.team && Serialization.TextLeq(a.identity.assistant, b.identity.assistant))
  }

  predicate SameKey(a: Binding, b: Binding) {
    a.identity.team == b.identity.team && a.identity.assistant == b.identity.assistant
  }

  lemma KeyTotal(a: Binding, b: Binding)
    ensures KeyLeq(a, b) || KeyLeq(b, a)
  {
    TextTotal(a.identity.team, b.identity.team);
    TextTotal(a.identity.assistant, b.identity.assistant);
  }

  lemma KeyTransitive(a: Binding, b: Binding, c: Binding)
    requires KeyLeq(a, b) && KeyLeq(b, c)
    ensures KeyLeq(a, c)
  {
    if a.identity.team == b.identity.team == c.identity.team {
      TextTransitive(a.identity.assistant, b.identity.assistant, c.identity.assistant);
    } else {
      assert a.identity.team != b.identity.team ==> Serialization.TextLeq(a.identity.team, b.identity.team);
      if a.identity.team != b.identity.team && b.identity.team != c.identity.team {
        TextTransitive(a.identity.team, b.identity.team, c.identity.team);
        if a.identity.team == c.identity.team {
          TextAntisymmetric(a.identity.team, b.identity.team);
        }
      }
    }
  }

  lemma KeyAntisymmetric(a: Binding, b: Binding)
    requires KeyLeq(a, b) && KeyLeq(b, a)
    ensures SameKey(a, b)
  {
    if a.identity.team != b.identity.team {
      TextAntisymmetric(a.identity.team, b.identity.team);
    } else {
      TextAntisymmetric(a.identity.assistant, b.identity.assistant);
    }
  }

  predicate InOrder(bindings: seq<Binding>) {
    forall i, j :: 0 <= i < j < |bindings| ==> KeyLeq(bindings[i], bindings[j])
  }

  function Placed(b: Binding, sorted: seq<Binding>): seq<Binding> {
    if sorted == [] then [b]
    else if KeyLeq(b, sorted[0]) then [b] + sorted
    else [sorted[0]] + Placed(b, sorted[1..])
  }

  /** The order the registry is written in. */
  function Sorted(bindings: seq<Binding>): seq<Binding> {
    if bindings == [] then [] else Placed(bindings[0], Sorted(bindings[1..]))
  }

  lemma {:induction false} PlacedContents(b: Binding, sorted: seq<Binding>)
    ensures multiset(Placed(b, sorted)) == multiset(sorted) + multiset{b}
    decreases |sorted|
  {
    if sorted != [] {
      assert sorted == [sorted[0]] + sorted[1..];
      if !KeyLeq(b, sorted[0]) {
        PlacedContents(b, sorted[1..]);
      }
    }
  }

  lemma {:induction false} SortedContents(bindings: seq<Binding>)
    ensures multiset(Sorted(bindings)) == multiset(bindings) && |Sorted(bindings)| == |bindings|
    decreases |bindings|
  {
    if bindings != [] {
      assert bindings == [bindings[0]] + bindings[1..];
      SortedContents(bindings[1..]);
      PlacedContents(bindings[0], Sorted(bindings[1..]));
    }
    assert |multiset(Sorted(bindings))| == |Sorted(bindings)| && |multiset(bindings)| == |bindings|;
  }

  lemma {:induction false} PlacedInOrder(b: Binding, sorted: seq<Binding>)
    requires InOrder(sorted)
    ensures InOrder(Placed(b, sorted))
    decreases |sorted|
  {
    if sorted != [] {
      KeyTotal(b, sorted[0]);
      if KeyLeq(b, sorted[0]) {
        forall j | 0 <= j < |sorted| ensures KeyLeq(b, sorted[j]) {
          if j > 0 {
            KeyTransitive(b, sorted[0], sorted[j]);
          }
        }
      } else {
        PlacedInOrder(b, sorted[1..]);
        PlacedContents(b, sorted[1..]);
        var rest := Placed(b, sorted[1..]);
        forall j | 0 <= j < |rest| ensures KeyLeq(sorted[0], rest[j]) {
          assert rest[j] in multiset(rest);
          assert rest[j] == b || rest[j] in sorted[1..];
        }
      }
    }
  }

  lemma {:induction false} SortedInOrder(bindings: seq<Binding>)
    ensures InOrder(Sorted(bindings))
    decreases |bindings|
  {
    if bindings != [] {
      SortedInOrder(bindings[1..]);
      PlacedInOrder(bindings[0], Sorted(bindings[1..]));
    }
  }

  // ----- The limits ------------------------------------------------------------------------------------------------

  predicate UniqueKeys(bindings: seq<Binding>) {
    forall i, j :: 0 <= i < j < |bindings| ==> !SameKey(bindings[i], bindings[j])
  }

  /** How many bindings a Team has. */
  function TeamCount(bindings: seq<Binding>, team: string): nat {
    if bindings == [] then 0
    else TeamCount(bindings[1..], team) + if bindings[0].identity.team == team then 1 else 0
  }

  lemma {:induction false} TeamCountConcat(a: seq<Binding>, b: seq<Binding>, team: string)
    ensures TeamCount(a + b, team) == TeamCount(a, team) + TeamCount(b, team)
    decreases |a|
  {
    if a == [] {
      assert a + b == b;
    } else {
      assert (a + b)[1..] == a[1..] + b;
      TeamCountConcat(a[1..], b, team);
    }
  }

  lemma {:induction false} PlacedCount(b: Binding, sorted: seq<Binding>, team: string)
    ensures TeamCount(Placed(b, sorted), team) == TeamCount(sorted, team) + TeamCount([b], team)
    decreases |sorted|
  {
    if sorted == [] || KeyLeq(b, sorted[0]) {
      TeamCountConcat([b], sorted, team);
      assert Placed(b, sorted) == [b] + sorted;
    } else {
      PlacedCount(b, sorted[1..], team);
      assert Placed(b, sorted)[1..] == Placed(b, sorted[1..]);
    }
  }

  lemma {:induction false} SortedCount(bindings: seq<Binding>, team: string)
    ensures TeamCount(Sorted(bindings), team) == TeamCount(bindings, team)
    decreases |bindings|
  {
    if bindings != [] {
      SortedCount(bindings[1..], team);
      PlacedCount(bindings[0], Sorted(bindings[1..]), team);
      TeamCountConcat([bindings[0]], bindings[1..], team);
      assert bindings == [bindings[0]] + bindings[1..];
    }
  }

  ghost predicate WithinLimits(bindings: seq<Binding>) {
    |bindings| <= MAX_BINDINGS && forall team :: TeamCount(bindings, team) <= MAX_TEAM_ASSISTANTS
  }

  /** A registry as its file holds it. */
  ghost predicate Stored(bindings: seq<Binding>) { UniqueKeys(bindings) && WithinLimits(bindings) }

  lemma UniqueByContents(a: seq<Binding>, b: seq<Binding>)
    requires UniqueKeys(a) && multiset(a) == multiset(b)
    ensures UniqueKeys(b)
  {
    forall i, j | 0 <= i < j < |b| ensures !SameKey(b[i], b[j]) {
      if SameKey(b[i], b[j]) {
        assert b[i] in multiset(a) && b[j] in multiset(a);
        var x :| 0 <= x < |a| && a[x] == b[i];
        var y :| 0 <= y < |a| && a[y] == b[j];
        if x == y {
          Twice(b, i, j);
          Once(a, x);
        }
      }
    }
  }

  lemma Twice(b: seq<Binding>, i: nat, j: nat)
    requires i < j < |b| && b[i] == b[j]
    ensures multiset(b)[b[i]] >= 2
  {
    assert b == b[..i] + [b[i]] + b[i + 1..j] + [b[j]] + b[j + 1..];
  }

  lemma Once(a: seq<Binding>, x: nat)
    requires UniqueKeys(a) && x < |a|
    ensures multiset(a)[a[x]] == 1
  {
    assert a == a[..x] + [a[x]] + a[x + 1..];
    assert a[x] !in a[..x] && a[x] !in a[x + 1..];
  }

  /** What is written keeps what is stored, in order. */
  lemma SortedStored(bindings: seq<Binding>)
    requires Stored(bindings)
    ensures Stored(Sorted(bindings)) && InOrder(Sorted(bindings))
  {
    SortedContents(bindings);
    SortedInOrder(bindings);
    UniqueByContents(bindings, Sorted(bindings));
    forall team ensures TeamCount(Sorted(bindings), team) <= MAX_TEAM_ASSISTANTS {
      SortedCount(bindings, team);
    }
  }

  /** A registry in order is written as it is. */
  lemma {:induction false} SortedAgain(bindings: seq<Binding>)
    requires InOrder(bindings)
    ensures Sorted(bindings) == bindings
    decreases |bindings|
  {
    if bindings != [] {
      SortedAgain(bindings[1..]);
      assert bindings == [bindings[0]] + bindings[1..];
    }
  }

  // ----- Changing one binding --------------------------------------------------------------------------------------

  /** The place of a Team's Assistant, or the number of bindings. */
  ghost predicate PlaceOf(bindings: seq<Binding>, team: string, assistant: string, i: nat) {
    && i <= |bindings|
    && (i < |bindings| ==> bindings[i].identity.team == team && bindings[i].identity.assistant == assistant)
    && forall j :: 0 <= j < i ==> !(bindings[j].identity.team == team && bindings[j].identity.assistant == assistant)
  }

  /** One list in order holds the same bindings: what is written does not depend on the order they were held in. */
  lemma {:induction false} OneOrder(a: seq<Binding>, b: seq<Binding>)
    requires InOrder(a) && InOrder(b) && UniqueKeys(a) && multiset(a) == multiset(b)
    ensures a == b
    decreases |a|
  {
    if a == [] {
      assert |multiset(b)| == |b|;
    } else {
      assert |multiset(a)| == |a| && |multiset(b)| == |b|;
      OneFirst(a, b);
      RestContents(a, b);
      OneOrder(a[1..], b[1..]);
    }
  }

  lemma OneFirst(a: seq<Binding>, b: seq<Binding>)
    requires InOrder(a) && InOrder(b) && UniqueKeys(a) && multiset(a) == multiset(b) && a != [] && b != []
    ensures a[0] == b[0]
  {
    assert a[0] in multiset(b) && b[0] in multiset(a);
    var j :| 0 <= j < |b| && b[j] == a[0];
    var i :| 0 <= i < |a| && a[i] == b[0];
    if i > 0 && j > 0 {
      KeyAntisymmetric(a[0], b[0]);
    }
  }

  lemma RestContents(a: seq<Binding>, b: seq<Binding>)
    requires a != [] && b != [] && a[0] == b[0] && multiset(a) == multiset(b)
    ensures multiset(a[1..]) == multiset(b[1..])
  {
    assert a == [a[0]] + a[1..] && b == [b[0]] + b[1..];
    assert multiset(a[1..]) == multiset(a) - multiset{a[0]} && multiset(b[1..]) == multiset(b) - multiset{b[0]};
  }

  lemma SortedOnce(a: seq<Binding>, b: seq<Binding>)
    requires UniqueKeys(a) && multiset(a) == multiset(b)
    ensures Sorted(a) == Sorted(b)
  {
    SortedContents(a);
    SortedContents(b);
    SortedInOrder(a);
    SortedInOrder(b);
    UniqueByContents(a, Sorted(a));
    OneOrder(Sorted(a), Sorted(b));
  }

  lemma AppendedStored(bindings: seq<Binding>, b: Binding)
    requires Stored(bindings) && |bindings| < MAX_BINDINGS && TeamCount(bindings, b.identity.team) < MAX_TEAM_ASSISTANTS
    requires forall i :: 0 <= i < |bindings| ==> !SameKey(bindings[i], b)
    ensures Stored(bindings + [b])
  {
    forall team ensures TeamCount(bindings + [b], team) <= MAX_TEAM_ASSISTANTS {
      TeamCountConcat(bindings, [b], team);
      assert [b][1..] == [];
    }
  }

  lemma RemovedStored(bindings: seq<Binding>, i: nat)
    requires Stored(bindings) && i < |bindings|
    ensures Stored(bindings[..i] + bindings[i + 1..])
    ensures multiset(bindings) == multiset(bindings[..i] + bindings[i + 1..]) + multiset{bindings[i]}
  {
    var rest := bindings[..i] + bindings[i + 1..];
    assert bindings == bindings[..i] + [bindings[i]] + bindings[i + 1..];
    forall j, k | 0 <= j < k < |rest| ensures !SameKey(rest[j], rest[k]) {
      assert rest[j] == bindings[if j < i then j else j + 1] && rest[k] == bindings[if k < i then k else k + 1];
    }
    forall team ensures TeamCount(rest, team) <= MAX_TEAM_ASSISTANTS {
      TeamCountConcat(bindings[..i], bindings[i + 1..], team);
      TeamCountConcat(bindings[..i] + [bindings[i]], bindings[i + 1..], team);
      TeamCountConcat(bindings[..i], [bindings[i]], team);
    }
  }

  lemma SwappedStored(bindings: seq<Binding>, i: nat, b: Binding)
    requires Stored(bindings) && i < |bindings| && SameKey(bindings[i], b)
    ensures Stored(bindings[i := b])
    ensures multiset(bindings[i := b]) == multiset(bindings) - multiset{bindings[i]} + multiset{b}
  {
    var after := bindings[i := b];
    assert bindings == bindings[..i] + [bindings[i]] + bindings[i + 1..];
    assert after == bindings[..i] + [b] + bindings[i + 1..];
    forall j, k | 0 <= j < k < |after| ensures !SameKey(after[j], after[k]) {
      assert !SameKey(bindings[j], bindings[k]);
    }
    forall team ensures TeamCount(after, team) <= MAX_TEAM_ASSISTANTS {
      TeamCountConcat(bindings[..i] + [bindings[i]], bindings[i + 1..], team);
      TeamCountConcat(bindings[..i] + [b], bindings[i + 1..], team);
      TeamCountConcat(bindings[..i], [bindings[i]], team);
      TeamCountConcat(bindings[..i], [b], team);
      assert [b][1..] == [] && [bindings[i]][1..] == [];
    }
  }

  /** The binding at `i` is the one of the same key and provenance whose digest the caller expects. */
  ghost predicate Replaces(bindings: seq<Binding>, i: int, b: Binding, expected: string) {
    && 0 <= i < |bindings| && SameKey(bindings[i], b) && bindings[i].digest == expected
    && bindings[i].identity.published == b.identity.published
  }

  lemma NoneReplaced(bindings: seq<Binding>, i: nat, b: Binding, expected: string)
    requires UniqueKeys(bindings) && PlaceOf(bindings, b.identity.team, b.identity.assistant, i)
    requires !Replaces(bindings, i, b, expected)
    ensures !exists j :: Replaces(bindings, j, b, expected)
  {
  }

  // ----- The store -------------------------------------------------------------------------------------------------

  /** What the registry is given: the digest of an identity, which identities and digests are well formed, and which
      identities the current contract admits. */
  datatype Rules = Rules(
    digestOf: Identity -> string, identified: Identity -> bool, admits: Identity -> bool, isDigest: string -> bool)

  ghost predicate Injective(rules: Rules) {
    forall a, b :: rules.digestOf(a) == rules.digestOf(b) ==> a == b
  }

  /** Intact and admitted by the current contract. */
  predicate Accepts(rules: Rules, b: Binding) {
    rules.identified(b.identity) && b.digest == rules.digestOf(b.identity) && rules.admits(b.identity)
  }

  /** How reading and writing the record fail, if they do. */
  datatype Io = Io(read: Option<BindingError>, write: Option<BindingError>)

  /** What reading the registry gives. */
  ghost function Opened(rules: Rules, file: seq<Binding>, io: Io): Result<seq<Binding>, BindingError> {
    if io.read.Some? then Err(io.read.value)
    else if |file| <= 4096 && UniqueKeys(file) && (forall i :: 0 <= i < |file| ==> Accepts(rules, file[i]))
    then Ok(file)
    else Err(Invalid)
  }

  /** The binding at `i` is the Team's Assistant's, with the digest the caller expects, if any. */
  ghost predicate Named(bindings: seq<Binding>, i: int, team: string, assistant: string, expected: Option<string>) {
    && 0 <= i < |bindings| && bindings[i].identity.team == team && bindings[i].identity.assistant == assistant
    && (expected.Some? ==> bindings[i].digest == expected.value)
  }

  /** Reading what was written of a sound list gives that list sorted, with the same contents. */
  lemma WrittenReadsBack(rules: Rules, bindings: seq<Binding>)
    requires Stored(bindings) && forall i :: 0 <= i < |bindings| ==> Accepts(rules, bindings[i])
    ensures Opened(rules, Sorted(bindings), Io(None, None)) == Ok(Sorted(bindings))
    ensures multiset(Sorted(bindings)) == multiset(bindings) && InOrder(Sorted(bindings))
  {
    SortedStored(bindings);
    SortedContents(bindings);
    forall i | 0 <= i < |Sorted(bindings)| ensures Accepts(rules, Sorted(bindings)[i]) {
      assert Sorted(bindings)[i] in multiset(bindings);
    }
  }

  lemma NoneNamed(bindings: seq<Binding>, i: nat, team: string, assistant: string, expected: Option<string>)
    requires UniqueKeys(bindings) && PlaceOf(bindings, team, assistant, i)
      && !Named(bindings, i, team, assistant, expected)
    ensures !exists j :: Named(bindings, j, team, assistant, expected)
  {
  }

  /** A remembered digest is that of an admitted identity. */
  ghost predicate Remembered(rules: Rules, digest: string) {
    exists id :: rules.digestOf(id) == digest && rules.admits(id)
  }

  /** The digest is used: its place is the last one, and the others keep their order. */
  ghost predicate UsedLast(before: seq<string>, digest: string, after: seq<string>) {
    exists i :: 0 <= i < |before| && before[i] == digest && after == before[..i] + before[i + 1..] + [digest]
  }

  class BindingStore {
    const rules: Rules
    /** The bindings the file holds, in its order. */
    var file: seq<Binding>
    var admissions: seq<string>

    ghost predicate Valid()
      reads this
    {
      && Injective(rules) && |admissions| <= MAX_ADMISSIONS
      && forall i :: 0 <= i < |admissions| ==> Remembered(rules, admissions[i])
    }

    /** What every change keeps of a registry it could read. */
    ghost predicate Sound()
      reads this
    {
      Stored(file) && InOrder(file) && forall i :: 0 <= i < |file| ==> Accepts(rules, file[i])
    }

    constructor (rules: Rules)
      requires Injective(rules)
      ensures Valid() && Sound() && file == [] && this.rules == rules
    {
      this.rules := rules;
      file, admissions := [], [];
    }

    /** Admits an intact binding, once per remembered digest: the answer is the contract's, whatever is remembered. */
    method Admit(b: Binding) returns (ok: bool)
      requires Valid() && b.digest == rules.digestOf(b.identity)
      modifies this`admissions
      ensures Valid() && ok == rules.admits(b.identity)
      ensures b.digest in old(admissions) ==> UsedLast(old(admissions), b.digest, admissions)
      ensures b.digest !in old(admissions) ==>
        admissions
        == if !ok then old(admissions)
           else if |old(admissions)| < 1024 then old(admissions) + [b.digest] else old(admissions)[1..] + [b.digest]
    {
      var i := 0;
      while i < |admissions| && admissions[i] != b.digest
        invariant i <= |admissions| && b.digest !in admissions[..i]
      {
        i := i + 1;
      }
      if i < |admissions| {
        assert Remembered(rules, admissions[i]);
        admissions := admissions[..i] + admissions[i + 1..] + [b.digest];
        return true;
      }
      if !rules.admits(b.identity) {
        return false;
      }
      assert admissions[..i] == admissions;
      admissions := admissions + [b.digest];
      ghost var longer := admissions;
      while |admissions| > MAX_ADMISSIONS
        invariant |admissions| >= MAX_ADMISSIONS || admissions == longer
        invariant admissions == longer[|longer| - |admissions|..] && |admissions| <= |longer|
        invariant forall k :: 0 <= k < |admissions| ==> Remembered(rules, admissions[k])
      {
        admissions := admissions[1..];
      }
      return true;
    }

    /** Checks the digest before asking whether the identity is admitted. */
    method Decode(b: Binding) returns (r: Result<Binding, BindingError>)
      requires Valid()
      modifies this`admissions
      ensures Valid() && r == if Accepts(rules, b) then Ok(b) else Err(Invalid)
    {
      if !rules.identified(b.identity) || b.digest != rules.digestOf(b.identity) {
        return Err(Invalid);
      }
      var admitted := Admit(b);
      return if admitted then Ok(b) else Err(Invalid);
    }

    /** Reads the registry: every binding decoded, no key twice. */
    method Read(io: Io) returns (r: Result<seq<Binding>, BindingError>)
      requires Valid()
      modifies this`admissions
      ensures Valid() && r == Opened(rules, file, io)
    {
      if io.read.Some? {
        return Err(io.read.value);
      }
      if |file| > MAX_BINDINGS {
        return Err(Invalid);
      }
      var bindings: seq<Binding> := [];
      for i := 0 to |file|
        invariant Valid() && bindings == file[..i] && forall j :: 0 <= j < i ==> Accepts(rules, file[j])
      {
        var decoded := Decode(file[i]);
        if decoded.Err? {
          return Err(Invalid);
        }
        bindings := bindings + [decoded.value];
      }
      assert bindings == file;
      for i := 0 to |bindings|
        invariant UniqueKeys(bindings[..i])
      {
        for j := 0 to i
          invariant forall k :: 0 <= k < j ==> !SameKey(bindings[k], bindings[i])
        {
          if SameKey(bindings[j], bindings[i]) {
            return Err(Invalid);
          }
        }
      }
      return Ok(bindings);
    }

    /** Writes the bindings sorted, or fails and leaves the file. */
    method Write(bindings: seq<Binding>, io: Io) returns (r: Result<(), BindingError>)
      modifies this`file
      ensures r == (if io.write.Some? then Err(io.write.value) else Ok(()))
      ensures file == if r.Ok? then Sorted(bindings) else old(file)
    {
      if io.write.Some? {
        return Err(io.write.value);
      }
      file := Sorted(bindings);
      return Ok(());
    }

    method Find(bindings: seq<Binding>, team: string, assistant: string) returns (i: nat)
      ensures PlaceOf(bindings, team, assistant, i)
    {
      i := 0;
      while i < |bindings| && !(bindings[i].identity.team == team && bindings[i].identity.assistant == assistant)
        invariant i <= |bindings|
        invariant forall j :: 0 <= j < i ==>
          !(bindings[j].identity.team == team && bindings[j].identity.assistant == assistant)
      {
        i := i + 1;
      }
    }

    method CountTeam(bindings: seq<Binding>, team: string) returns (n: nat)
      ensures n == TeamCount(bindings, team)
    {
      n := 0;
      for i := |bindings| downto 0
        invariant n == TeamCount(bindings[i..], team)
      {
        assert bindings[i..][1..] == bindings[i + 1..];
        if bindings[i].identity.team == team {
          n := n + 1;
        }
      }
      assert bindings[0..] == bindings;
    }

    /** What a write of a sound list leaves. */
    lemma WrittenSound(bindings: seq<Binding>)
      requires Stored(bindings) && forall i :: 0 <= i < |bindings| ==> Accepts(rules, bindings[i])
      ensures Stored(Sorted(bindings)) && InOrder(Sorted(bindings)) && multiset(Sorted(bindings)) == multiset(bindings)
      ensures forall i :: 0 <= i < |Sorted(bindings)| ==> Accepts(rules, Sorted(bindings)[i])
    {
      SortedStored(bindings);
      SortedContents(bindings);
      forall i | 0 <= i < |Sorted(bindings)| ensures Accepts(rules, Sorted(bindings)[i]) {
        assert Sorted(bindings)[i] in multiset(bindings);
      }
    }

    /** Adds a binding whose key is new; the flag says whether the file changed. */
    method Insert(b: Binding, io: Io) returns (r: Result<(Binding, bool), BindingError>)
      requires Valid() && Accepts(rules, b)
      modifies this
      ensures Valid() && (old(Sound()) ==> Sound())
      ensures
        var current := Opened(rules, old(file), io);
        r == if current.Err? then Err(current.error)
             else if b in old(file) then Ok((b, false))
             else if exists i :: 0 <= i < |old(file)| && SameKey(old(file)[i], b) then Err(Conflict)
             else if TeamCount(old(file), b.identity.team) >= 16 then Err(LimitReached)
             else if |old(file)| >= 4096 then Err(Invalid)
             else if io.write.Some? then Err(io.write.value) else Ok((b, true))
      ensures file == if r.Ok? && r.value.1 then Sorted(old(file) + [b]) else old(file)
    {
      var bindings :- Read(io);
      var i := Find(bindings, b.identity.team, b.identity.assistant);
      if i < |bindings| {
        assert SameKey(file[i], b);
        OneOfKey(bindings, i, b);
        return if bindings[i] == b then Ok((b, false)) else Err(Conflict);
      }
      assert forall k :: 0 <= k < |file| ==> !SameKey(file[k], b);
      var count := CountTeam(bindings, b.identity.team);
      if count >= MAX_TEAM_ASSISTANTS {
        return Err(LimitReached);
      }
      if |bindings| >= MAX_BINDINGS {
        return Err(Invalid);
      }
      if Sound() {
        AppendedStored(bindings, b);
        WrittenSound(bindings + [b]);
      }
      var _ :- Write(bindings + [b], io);
      return Ok((b, true));
    }

    /** A binding is stored exactly when it is the one stored under its key. */
    static lemma OneOfKey(bindings: seq<Binding>, i: nat, b: Binding)
      requires UniqueKeys(bindings) && i < |bindings| && SameKey(bindings[i], b)
      ensures b in bindings <==> bindings[i] == b
    {
    }

    /** Replaces the binding of a Team's Assistant only while its digest is `expected`. */
    method Swap(b: Binding, expected: string, io: Io) returns (r: Result<Binding, BindingError>)
      requires Valid() && Accepts(rules, b)
      modifies this
      ensures Valid() && (old(Sound()) ==> Sound())
      ensures
        var current := Opened(rules, old(file), io);
        r == if !rules.isDigest(expected) then Err(Conflict)
             else if current.Err? then Err(current.error)
             else if !exists i :: Replaces(old(file), i, b, expected) then Err(Conflict)
             else if b !in old(file) && io.write.Some? then Err(io.write.value) else Ok(b)
      ensures r.Ok? ==> exists i ::
        && Replaces(old(file), i, b, expected)
        && file == if old(file)[i] == b then old(file) else Sorted(old(file)[i := b])
      ensures r.Err? ==> file == old(file)
    {
      if !rules.isDigest(expected) {
        return Err(Conflict);
      }
      var bindings :- Read(io);
      var i := Find(bindings, b.identity.team, b.identity.assistant);
      if i == |bindings| || bindings[i].digest != expected
        || bindings[i].identity.published != b.identity.published {
        NoneReplaced(bindings, i, b, expected);
        return Err(Conflict);
      }
      assert Replaces(bindings, i, b, expected);
      OneOfKey(bindings, i, b);
      if bindings[i] == b {
        return Ok(b);
      }
      if Sound() {
        SwappedStored(bindings, i, b);
        WrittenSound(bindings[i := b]);
      }
      var _ :- Write(bindings[i := b], io);
      return Ok(b);
    }

    lemma RemovedSound(bindings: seq<Binding>, i: nat)
      requires Stored(bindings) && i < |bindings| && forall k :: 0 <= k < |bindings| ==> Accepts(rules, bindings[k])
      ensures
        var after := Sorted(bindings[..i] + bindings[i + 1..]);
        Stored(after) && InOrder(after) && forall k :: 0 <= k < |after| ==> Accepts(rules, after[k])
    {
      RemovedStored(bindings, i);
      WrittenSound(bindings[..i] + bindings[i + 1..]);
    }

    /** Removes the binding of a Team's Assistant; with `expected`, only while its digest is that. */
    method Delete(team: string, assistant: string, expected: Option<string>, io: Io)
      returns (r: Result<bool, BindingError>)
      requires Valid()
      modifies this
      ensures Valid() && (old(Sound()) ==> Sound())
      ensures
        var current := Opened(rules, old(file), io);
        r == if expected.Some? && !rules.isDigest(expected.value) then Err(Conflict)
             else if current.Err? then Err(current.error)
             else if !exists i :: Named(old(file), i, team, assistant, expected) then Ok(false)
             else if io.write.Some? then Err(io.write.value) else Ok(true)
      ensures r == Ok(true) ==> exists i ::
        Named(old(file), i, team, assistant, expected) && file == Sorted(old(file)[..i] + old(file)[i + 1..])
      ensures r != Ok(true) ==> file == old(file)
    {
      if expected.Some? && !rules.isDigest(expected.value) {
        return Err(Conflict);
      }
      var bindings :- Read(io);
      var i := Find(bindings, team, assistant);
      if i == |bindings| || (expected.Some? && bindings[i].digest != expected.value) {
        NoneNamed(bindings, i, team, assistant, expected);
        return Ok(false);
      }
      assert Named(bindings, i, team, assistant, expected);
      var rest := bindings[..i] + bindings[i + 1..];
      if Sound() {
        RemovedSound(bindings, i);
      }
      var _ :- Write(rest, io);
      return Ok(true);
    }
  }
}
