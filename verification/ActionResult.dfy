/**
 The structure and size bounds of an Action result, the iterative walker that enforces them, and the projection of an
 Action's terminal frame: which frames become results, and that no injected secret travels inside one.
 */
module ActionResult {
  import opened Basics
  import opened Json
  import opened Serialization

  const MAX_RESULT_BYTES: nat := 512 * 1024
  const MAX_JSON_DEPTH: nat := 32
  const MAX_JSON_NODES: nat := 4096

  function Children(v: Value): (r: seq<Value>)
    ensures forall i :: 0 <= i < |r| ==> r[i] < v
  {
    match v
    case Arr(items) => items
    case Obj(members) => seq(|members|, i requires 0 <= i < |members| => members[i].value)
    case _ => []
  }

  /** How many values the tree holds, itself included. */
  ghost function Nodes(v: Value): (n: nat)
    ensures n >= 1
    decreases v, 1
  {
    1 + NodesOf(v, Children(v))
  }

  ghost function NodesOf(v: Value, children: seq<Value>): nat
    requires forall i :: 0 <= i < |children| ==> children[i] < v
    decreases v, 0, |children|
  {
    if children == [] then 0 else Nodes(children[0]) + NodesOf(v, children[1..])
  }

  /** Whether some value nests deeper than `depth` below this one. */
  ghost predicate Deeper(v: Value, depth: int) {
    depth < 0 || exists i :: 0 <= i < |Children(v)| && Deeper(Children(v)[i], depth - 1)
  }

  // ----- The explicit-stack walk -----------------------------------------------------------------------------------

  type Pending = seq<(Value, nat)>

  ghost function Left(pending: Pending): nat {
    if pending == [] then 0 else Nodes(pending[|pending| - 1].0) + Left(pending[..|pending| - 1])
  }

  ghost predicate Shallow(pending: Pending) {
    forall i :: 0 <= i < |pending| ==> !Deeper(pending[i].0, MAX_JSON_DEPTH - pending[i].1)
  }

  function At(values: seq<Value>, depth: nat): (r: Pending)
    ensures |r| == |values| && forall i :: 0 <= i < |r| ==> r[i] == (values[i], depth)
  {
    seq(|values|, i requires 0 <= i < |values| => (values[i], depth))
  }

  lemma {:induction false} LeftExtended(v: Value, pending: Pending, children: seq<Value>, depth: nat)
    requires forall i :: 0 <= i < |children| ==> children[i] < v
    ensures Left(pending + At(children, depth)) == Left(pending) + NodesOf(v, children)
    decreases |children|
  {
    if children == [] {
      assert pending + At(children, depth) == pending;
    } else {
      var first := pending + [(children[0], depth)];
      assert pending + At(children, depth) == first + At(children[1..], depth);
      assert first[..|first| - 1] == pending;
      LeftExtended(v, first, children[1..], depth);
    }
  }

  lemma {:induction false} ShallowExtended(v: Value, depth: nat, pending: Pending)
    requires depth <= MAX_JSON_DEPTH
    ensures Shallow(pending + At(Children(v), depth + 1)) <==> Shallow(pending + [(v, depth)])
  {
    var after, before := pending + At(Children(v), depth + 1), pending + [(v, depth)];
    if Shallow(after) {
      forall i | 0 <= i < |Children(v)| ensures !Deeper(Children(v)[i], MAX_JSON_DEPTH - depth - 1) {
        assert after[|pending| + i] == (Children(v)[i], depth + 1);
      }
      forall i | 0 <= i < |pending| ensures !Deeper(pending[i].0, MAX_JSON_DEPTH - pending[i].1) {
        assert after[i] == pending[i];
      }
    }
    if Shallow(before) {
      assert before[|pending|] == (v, depth);
      forall i | 0 <= i < |pending| ensures !Deeper(pending[i].0, MAX_JSON_DEPTH - pending[i].1) {
        assert before[i] == pending[i];
      }
    }
  }

  /** Replacing a value by its children one level down removes exactly one node. */
  lemma {:induction false} PoppedNodes(rest: Pending, current: Value, depth: nat)
    ensures Left(rest + [(current, depth)]) == Left(rest + At(Children(current), depth + 1)) + 1
  {
    LeftExtended(current, rest, Children(current), depth + 1);
    assert (rest + [(current, depth)])[..|rest|] == rest;
  }

  /** A value below the depth bound is too deep exactly when one of its children is. */
  lemma {:induction false} PoppedDepth(rest: Pending, current: Value, depth: nat)
    ensures depth <= MAX_JSON_DEPTH ==>
      (Shallow(rest + [(current, depth)]) <==> Shallow(rest + At(Children(current), depth + 1)))
    ensures depth > MAX_JSON_DEPTH ==> !Shallow(rest + [(current, depth)])
  {
    if depth <= MAX_JSON_DEPTH {
      ShallowExtended(current, depth, rest);
    } else {
      assert (rest + [(current, depth)])[|rest|] == (current, depth);
    }
  }

  lemma {:induction false} Initial(value: Value)
    ensures Left([(value, 0)]) == Nodes(value)
    ensures Shallow([(value, 0)]) <==> !Deeper(value, MAX_JSON_DEPTH)
  {
    var start: Pending := [(value, 0)];
    assert start[..0] == [];
    assert start[0] == (value, 0);
  }

  /** The loop over a mutable stack admits a value exactly when its tree is within both bounds. */
  method Walk(value: Value) returns (admitted: bool)
    ensures admitted <==> Nodes(value) <= 4096 && !Deeper(value, 32)
  {
    var budget := MAX_JSON_NODES;
    var pending: Pending := [(value, 0)];
    Initial(value);
    while pending != []
      invariant MAX_JSON_NODES - budget + Left(pending) == Nodes(value)
      invariant Shallow(pending) <==> !Deeper(value, MAX_JSON_DEPTH)
      decreases budget
    {
      var (current, depth) := pending[|pending| - 1];
      assert pending == pending[..|pending| - 1] + [(current, depth)];
      pending := pending[..|pending| - 1];
      PoppedNodes(pending, current, depth);
      PoppedDepth(pending, current, depth);
      if budget == 0 {
        return false;
      }
      budget := budget - 1;
      if depth > MAX_JSON_DEPTH {
        return false;
      }
      pending := pending + At(Children(current), depth + 1);
    }
    return true;
  }

  /** `require_durable`: the structure bounds and the canonical byte bound of every kept result. */
  ghost predicate Durable(v: Value) {
    && Nodes(v) <= 4096
    && !Deeper(v, 32)
    && Bytes(Dumps(v, true)) <= 524_288
  }

  method RequireDurable(v: Value) returns (admitted: bool)
    ensures admitted <==> Durable(v)
  {
    admitted := Walk(v);
    if admitted {
      admitted := Bytes(Dumps(v, true)) <= MAX_RESULT_BYTES;
    }
  }

  // ----- The secret scan -------------------------------------------------------------------------------------------

  predicate OccursAt(text: string, part: string, i: nat)
    requires i + |part| <= |text|
  {
    text[i..i + |part|] == part
  }

  predicate Contains(text: string, part: string) {
    exists i: nat :: i + |part| <= |text| && OccursAt(text, part, i)
  }

  /** A text contains a part exactly when it is something, the part, and something. */
  lemma ContainsExactly(text: string, part: string)
    ensures Contains(text, part) <==> exists before, after :: text == before + part + after
  {
    if Contains(text, part) {
      var i: nat :| i + |part| <= |text| && OccursAt(text, part, i);
      assert text == text[..i] + part + text[i + |part|..];
    }
    if before, after :| text == before + part + after {
      assert OccursAt(text, part, |before|);
    }
  }

  predicate ContainsAny(text: string, secrets: seq<string>) {
    exists k :: 0 <= k < |secrets| && Contains(text, secrets[k])
  }

  /** The scan's recursive visit; anything beyond the inspection bound counts as an echo. */
  predicate Visit(v: Value, secrets: seq<string>, depth: nat) {
    depth > 32
    || match v
       case Str(text) => ContainsAny(text, secrets)
       case Arr(items) => exists i :: 0 <= i < |items| && Visit(items[i], secrets, depth + 1)
       case Obj(members) =>
         exists i :: 0 <= i < |members| &&
           (depth + 1 > 32 || ContainsAny(members[i].key, secrets) || Visit(members[i].value, secrets, depth + 1))
       case _ => false
  }

  function NonEmpty(secrets: seq<string>): (r: seq<string>)
    ensures forall s :: s in r <==> s in secrets && s != ""
  {
    if secrets == [] then []
    else (if secrets[0] == "" then [] else [secrets[0]]) + NonEmpty(secrets[1..])
  }

  predicate ContainsSecret(v: Value, secrets: seq<string>) {
    NonEmpty(secrets) != [] && Visit(v, NonEmpty(secrets), 0)
  }

  /** Whether `secret` occurs inside a string or a member name anywhere in the value, at any depth. */
  ghost predicate Mentions(v: Value, secret: string) {
    match v
    case Str(text) => Contains(text, secret)
    case Arr(items) => exists i :: 0 <= i < |items| && Mentions(items[i], secret)
    case Obj(members) =>
      exists i :: 0 <= i < |members| && (Contains(members[i].key, secret) || Mentions(members[i].value, secret))
    case _ => false
  }

  ghost predicate MentionsAny(v: Value, secrets: seq<string>) {
    exists k :: 0 <= k < |secrets| && Mentions(v, secrets[k])
  }

  lemma {:induction false} VisitMeaning(v: Value, secrets: seq<string>, depth: nat)
    requires depth <= 32
    ensures Visit(v, secrets, depth) <==> Deeper(v, 32 - depth) || MentionsAny(v, secrets)
    decreases v
  {
    var children := Children(v);
    forall i | 0 <= i < |children|
      ensures Visit(children[i], secrets, depth + 1) <==>
              Deeper(children[i], 31 - depth) || MentionsAny(children[i], secrets)
    {
      if depth < 32 { VisitMeaning(children[i], secrets, depth + 1); }
    }
    VisitStep(v, secrets, depth);
    DeeperStep(v, 32 - depth);
    Gathered(v, secrets);
  }

  /** A child is visited. */
  ghost predicate ChildVisited(v: Value, secrets: seq<string>, depth: nat) {
    exists i :: 0 <= i < |Children(v)| && Visit(Children(v)[i], secrets, depth)
  }

  /** Within the bound a visit reports a text, a key or a child, or any child of a value at the bound. */
  lemma {:induction false} VisitStep(v: Value, secrets: seq<string>, depth: nat)
    requires depth <= 32
    ensures Visit(v, secrets, depth) <==>
      || (v.Str? && ContainsAny(v.text, secrets))
      || (v.Obj? && exists i :: 0 <= i < |v.members| && ContainsAny(v.members[i].key, secrets))
      || ChildVisited(v, secrets, depth + 1)
  {
    match v
    case Arr(items) =>
      if ChildVisited(v, secrets, depth + 1) {
        var i :| 0 <= i < |items| && Visit(Children(v)[i], secrets, depth + 1);
        assert Visit(items[i], secrets, depth + 1);
      }
      if Visit(v, secrets, depth) {
        var i :| 0 <= i < |items| && Visit(items[i], secrets, depth + 1);
        assert Children(v)[i] == items[i];
      }
    case Obj(members) => VisitMembers(members, secrets, depth);
    case _ => assert Children(v) == [];
  }

  lemma {:induction false} VisitMembers(members: seq<Member>, secrets: seq<string>, depth: nat)
    requires depth <= 32
    ensures Visit(Obj(members), secrets, depth) <==>
      || (exists i :: 0 <= i < |members| && ContainsAny(members[i].key, secrets))
      || ChildVisited(Obj(members), secrets, depth + 1)
  {
    var v := Obj(members);
    if ChildVisited(v, secrets, depth + 1) {
      var i :| 0 <= i < |members| && Visit(Children(v)[i], secrets, depth + 1);
      assert Visit(members[i].value, secrets, depth + 1);
    }
    if Visit(v, secrets, depth) {
      var i :| 0 <= i < |members| &&
        (depth + 1 > 32 || ContainsAny(members[i].key, secrets) || Visit(members[i].value, secrets, depth + 1));
      assert Children(v)[i] == members[i].value;
    }
  }

  lemma {:induction false} DeeperStep(v: Value, depth: nat)
    ensures Deeper(v, depth) <==> exists i :: 0 <= i < |Children(v)| && Deeper(Children(v)[i], depth - 1)
  {
  }

  /** A value mentions a secret exactly when its text, one of its keys, or one of its children does. */
  lemma Gathered(v: Value, secrets: seq<string>)
    ensures MentionsAny(v, secrets) <==>
      || (v.Str? && ContainsAny(v.text, secrets))
      || (v.Obj? && exists i :: 0 <= i < |v.members| && ContainsAny(v.members[i].key, secrets))
      || (exists i :: 0 <= i < |Children(v)| && MentionsAny(Children(v)[i], secrets))
  {
    var children := Children(v);
    if k :| 0 <= k < |secrets| && Mentions(v, secrets[k]) {
      if v.Arr? {
        var i :| 0 <= i < |v.items| && Mentions(v.items[i], secrets[k]);
        assert MentionsAny(children[i], secrets);
      } else if v.Obj? {
        var i :| 0 <= i < |v.members| &&
          (Contains(v.members[i].key, secrets[k]) || Mentions(v.members[i].value, secrets[k]));
        assert ContainsAny(v.members[i].key, secrets) || MentionsAny(children[i], secrets);
      }
    }
    if i :| 0 <= i < |children| && MentionsAny(children[i], secrets) {
      var k :| 0 <= k < |secrets| && Mentions(children[i], secrets[k]);
      assert v.Arr? ==> v.items[i] == children[i];
      assert v.Obj? ==> v.members[i].value == children[i];
      assert Mentions(v, secrets[k]);
    }
    if v.Obj? {
      if i :| 0 <= i < |v.members| && ContainsAny(v.members[i].key, secrets) {
        var k :| 0 <= k < |secrets| && Contains(v.members[i].key, secrets[k]);
        assert Mentions(v, secrets[k]);
      }
    }
  }

  /** The scan with its depth bound reports exactly the values that nest too deep or mention a held secret. */
  lemma ContainsSecretMeaning(v: Value, secrets: seq<string>)
    ensures ContainsSecret(v, secrets) <==>
      NonEmpty(secrets) != [] &&
      (Deeper(v, 32) || exists s :: s in secrets && s != "" && Mentions(v, s))
  {
    var held := NonEmpty(secrets);
    VisitMeaning(v, held, 0);
    if MentionsAny(v, held) {
      var k :| 0 <= k < |held| && Mentions(v, held[k]);
      assert held[k] in secrets;
    }
    if s :| s in secrets && s != "" && Mentions(v, s) {
      assert s in held;
      var k :| 0 <= k < |held| && held[k] == s;
    }
  }

  // ----- The projection of a terminal frame ------------------------------------------------------------------------

  datatype Condition =
    | FailureInvalid | TerminalNotObject | FrameTypeInvalid | FrameMembersInvalid | ResultWithWithheldFile
    | ResultNotDurable | ResultSchemaMismatch | StoredInputNotHeld | RequestInvalid | AuthorizationRepeated
    | HeldInputRequested

  datatype HumanRequest = HumanRequest(authorizes: bool, storedInput: Option<string>, payload: Value)

  datatype Policy = Policy(
    authorizationRequested: bool,
    injected: seq<string>,
    heldStoredInputs: seq<string>,
    declaredStoredInputs: seq<string>,
    fileWithheld: bool)

  datatype Projected = Result(result: Value) | Request(request: HumanRequest)

  datatype Refused =
    | Failure(envelope: Value)
    | SecretExposure
    | Invalid(condition: Condition)
    | StoredInputRejected(id: string)

  /** The member names, sorted, are exactly these two. */
  predicate Named(members: seq<Member>, a: string, b: string) {
    |members| == 2 &&
    ((members[0].key == a && members[1].key == b) || (members[0].key == b && members[1].key == a))
  }

  predicate IsFailure(raw: Value) { Get(raw, "type") == Some(Str("failure")) }

  /** A frame that is no failure and echoes nothing injected: an object of its type and one other member. */
  ghost predicate Framed(raw: Value, policy: Policy, kind: string, member: string) {
    && Get(raw, "type") == Some(Str(kind)) && !ContainsSecret(raw, policy.injected)
    && raw.Obj? && |raw.members| == 2
    && ((raw.members[0].key == "type" && raw.members[1].key == member)
        || (raw.members[0].key == member && raw.members[1].key == "type"))
  }

  /** Whether a person may be asked this: not for an authorization again, and not for an input that is held. */
  predicate Askable(policy: Policy, request: HumanRequest) {
    && !(policy.authorizationRequested && request.authorizes)
    && !(request.storedInput.Some? && request.storedInput.value in policy.heldStoredInputs)
  }

  /**
   Projects one terminal frame.  `failure` admits a failure and redacts it with the injected secrets, `human` admits a
   request to a person, and `validate` is the Action's output schema.
   */
  method Project(
    raw: Value, policy: Policy,
    failure: (Value, seq<string>) -> Option<Value>,
    human: Value -> Option<HumanRequest>,
    validate: Value -> Option<Condition>) returns (r: Basics.Result<Projected, Refused>)
    ensures r.Ok? && r.value.Result? <==>
      && Framed(raw, policy, "result", "result") && !policy.fileWithheld
      && validate(Get(raw, "result").value).None? && Durable(Get(raw, "result").value)
    ensures r.Ok? && r.value.Result? ==> Get(raw, "result") == Some(r.value.result)
    ensures r.Ok? && r.value.Request? <==>
      && Framed(raw, policy, "request", "request") && human(Get(raw, "request").value).Some?
      && Askable(policy, human(Get(raw, "request").value).value)
    ensures r.Ok? && r.value.Request? ==> human(Get(raw, "request").value) == Some(r.value.request)
    ensures r == Err(SecretExposure) <==>
      Get(raw, "type") != Some(Str("failure")) && ContainsSecret(raw, policy.injected)
    ensures r.Err? && r.error.Failure? <==>
      Get(raw, "type") == Some(Str("failure")) && failure(raw, policy.injected).Some?
    ensures r.Err? && r.error.Failure? ==> failure(raw, policy.injected) == Some(r.error.envelope)
    ensures r.Err? && r.error.StoredInputRejected? <==>
      && Framed(raw, policy, "stored_input_rejected", "stored_input") && Get(raw, "stored_input").value.Str?
      && Get(raw, "stored_input").value.text in policy.declaredStoredInputs
      && Get(raw, "stored_input").value.text in policy.heldStoredInputs
    ensures r.Err? && r.error.StoredInputRejected? ==> Get(raw, "stored_input") == Some(Str(r.error.id))
  {
    if IsFailure(raw) {
      var admitted := failure(raw, policy.injected);
      return Err(if admitted.Some? then Failure(admitted.value) else Invalid(FailureInvalid));
    }
    if ContainsSecret(raw, policy.injected) {
      return Err(SecretExposure);
    }
    if !raw.Obj? {
      return Err(Invalid(TerminalNotObject));
    }
    var kind := Get(raw, "type");
    if kind.None? || !kind.value.Str? {
      return Err(Invalid(FrameTypeInvalid));
    }
    match kind.value.text
    case "stored_input_rejected" =>
      if !Named(raw.members, "stored_input", "type") {
        return Err(Invalid(FrameMembersInvalid));
      }
      var id := Get(raw, "stored_input");
      if id.Some? && id.value.Str? && id.value.text in policy.declaredStoredInputs
         && id.value.text in policy.heldStoredInputs {
        return Err(StoredInputRejected(id.value.text));
      }
      return Err(Invalid(StoredInputNotHeld));
    case "request" =>
      if !Named(raw.members, "request", "type") {
        return Err(Invalid(FrameMembersInvalid));
      }
      var request := human(Get(raw, "request").value);
      if request.None? {
        return Err(Invalid(RequestInvalid));
      }
      if policy.authorizationRequested && request.value.authorizes {
        return Err(Invalid(AuthorizationRepeated));
      }
      if request.value.storedInput.Some? && request.value.storedInput.value in policy.heldStoredInputs {
        return Err(Invalid(HeldInputRequested));
      }
      return Ok(Request(request.value));
    case "result" =>
      if !Named(raw.members, "result", "type") {
        return Err(Invalid(FrameMembersInvalid));
      }
      if policy.fileWithheld {
        return Err(Invalid(ResultWithWithheldFile));
      }
      var result := Get(raw, "result").value;
      var refused := validate(result);
      if refused.Some? {
        return Err(Invalid(refused.value));
      }
      var durable := RequireDurable(result);
      if !durable {
        return Err(Invalid(ResultNotDurable));
      }
      return Ok(Result(result));
    case _ =>
      return Err(Invalid(FrameTypeInvalid));
  }

  /** A member of an object that mentions no secret mentions none either. */
  lemma ProjectedHidesSecrets(raw: Value, secrets: seq<string>, key: string)
    requires !ContainsSecret(raw, secrets)
    requires Get(raw, key).Some?
    ensures forall s :: s in secrets && s != "" ==> !Mentions(Get(raw, key).value, s)
  {
    ContainsSecretMeaning(raw, secrets);
    forall s | s in secrets && s != "" ensures !Mentions(Get(raw, key).value, s) {
      assert s in NonEmpty(secrets);
      var k := Place(raw.members, key);
      assert Mentions(raw.members[k].value, s) ==> Mentions(raw, s);
    }
  }
}
