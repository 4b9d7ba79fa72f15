/**
 Admission of a Brain suspension's whole Action batch before its first side effect: which Actions the turn declares,
 the batch's shape and inputs, and the turn's file budget.
 */
module Admission {
  import opened Basics
  import opened Json
  import opened Runtime
  import opened TurnCodec
  import ActionResult

  const MAX_FILE_ACTIONS_PER_TURN: nat := 2

  datatype ChatError = Stopped | Orchestration | BrainFailed | ActionFailed | ContextChanged | RefusedBy

  type Declared = map<(string, string), RuntimeAction>

  predicate Readable(item: Value) {
    var content := Get(item, "content");
    content.Some? && content.value.Obj? && Get(content.value, "type") in {Some(Str("text")), Some(Str("image"))}
  }

  /** Some attachment carries content of type text or image. */
  predicate ReadsContent(attachments: seq<Value>) {
    exists i :: 0 <= i < |attachments| && Readable(attachments[i])
  }

  function DeclaredOf(assistant: string, actions: seq<RuntimeAction>, restricted: bool, before: Declared): Declared {
    if actions == [] then before
    else
      var a := actions[0];
      DeclaredOf(assistant, actions[1..], restricted,
                 if !restricted || a.authorization then before[(assistant, a.id) := a] else before)
  }

  function DeclaredAll(assistants: seq<RuntimeAssistant>, restricted: bool, before: Declared): Declared {
    if assistants == [] then before
    else DeclaredAll(assistants[1..], restricted,
                     DeclaredOf(assistants[0].id, assistants[0].actions, restricted, before))
  }

  /** The map admission looks requests up in: with readable content, only entries whose Action authorizes. */
  function AdmittedActions(c: RuntimeContext): Declared {
    DeclaredAll(c.assistants, ReadsContent(c.attachments), map[])
  }

  ghost predicate Sound(declared: Declared, restricted: bool) {
    forall k :: k in declared ==> declared[k].id == k.1 && (restricted ==> declared[k].authorization)
  }

  lemma {:induction false} DeclaredOfSound(assistant: string, actions: seq<RuntimeAction>, restricted: bool,
                                           before: Declared)
    requires Sound(before, restricted)
    ensures Sound(DeclaredOf(assistant, actions, restricted, before), restricted)
    decreases |actions|
  {
    if actions != [] {
      var a := actions[0];
      DeclaredOfSound(assistant, actions[1..], restricted,
                      if !restricted || a.authorization then before[(assistant, a.id) := a] else before);
    }
  }

  lemma {:induction false} DeclaredAllSound(assistants: seq<RuntimeAssistant>, restricted: bool, before: Declared)
    requires Sound(before, restricted)
    ensures Sound(DeclaredAll(assistants, restricted, before), restricted)
    decreases |assistants|
  {
    if assistants != [] {
      DeclaredOfSound(assistants[0].id, assistants[0].actions, restricted, before);
      DeclaredAllSound(assistants[1..], restricted,
                       DeclaredOf(assistants[0].id, assistants[0].actions, restricted, before));
    }
  }

  /** While attachment content is readable, every Action the turn may run is an authorizing one. */
  lemma AdmittedAuthorize(c: RuntimeContext)
    ensures Sound(AdmittedActions(c), ReadsContent(c.attachments))
  {
    DeclaredAllSound(c.assistants, ReadsContent(c.attachments), map[]);
  }

  /** The attachment's content has this type. */
  ghost predicate HasContent(item: Value, kind: string) {
    Get(item, "content").Some? && Get(Get(item, "content").value, "type") == Some(Str(kind))
  }

  /** The `m`-th Action of the `n`-th Assistant goes by this key and may run: where the content of some attachment is
      text or an image, it authorizes. */
  ghost predicate Offers(c: RuntimeContext, n: nat, m: nat, key: (string, string)) {
    && n < |c.assistants| && m < |c.assistants[n].actions|
    && key == (c.assistants[n].id, c.assistants[n].actions[m].id)
    && ((exists i :: 0 <= i < |c.attachments| &&
           (HasContent(c.attachments[i], "text") || HasContent(c.attachments[i], "image"))) ==>
          c.assistants[n].actions[m].authorization)
  }

  /** The last of the Actions that go by this key. */
  ghost predicate OffersLast(c: RuntimeContext, n: nat, m: nat, key: (string, string)) {
    Offers(c, n, m, key) && forall i: nat, j: nat :: Offers(c, i, j, key) ==> i < n || (i == n && j <= m)
  }

  /** The turn may run exactly the Actions its context offers; of one key it is the last. */
  lemma AdmittedExactly(c: RuntimeContext, key: (string, string))
    ensures key in AdmittedActions(c) <==> exists n: nat, m: nat :: Offers(c, n, m, key)
    ensures key in AdmittedActions(c) ==>
      exists n: nat, m: nat :: OffersLast(c, n, m, key) && AdmittedActions(c)[key] == c.assistants[n].actions[m]
  {
    var restricted := ReadsContent(c.attachments);
    assert restricted <==>
      exists i :: 0 <= i < |c.attachments|
                  && (HasContent(c.attachments[i], "text") || HasContent(c.attachments[i], "image"));
    assert forall n: nat, m: nat :: Offers(c, n, m, key) <==> ListedAt(c.assistants, restricted, key, n, m);
    var last := LastOfAll(c.assistants, restricted, map[], key);
    if last.Some? {
      assert OffersLast(c, last.value.0, last.value.1, key);
    }
  }

  /** The place of the last Action of one Assistant that goes by a key, and what the map holds under it. */
  lemma {:induction false} LastOf(assistant: string, actions: seq<RuntimeAction>, restricted: bool, before: Declared,
                                  key: (string, string))
    returns (last: Option<nat>)
    ensures
      var after := DeclaredOf(assistant, actions, restricted, before);
      match last
      case None =>
        && (key in after <==> key in before) && (key in after ==> after[key] == before[key])
        && forall m :: 0 <= m < |actions| ==> !Listed(assistant, actions[m], restricted, key)
      case Some(k) =>
        && k < |actions| && Listed(assistant, actions[k], restricted, key) && key in after && after[key] == actions[k]
        && forall m :: k < m < |actions| ==> !Listed(assistant, actions[m], restricted, key)
    decreases |actions|
  {
    if actions == [] {
      return None;
    }
    var a := actions[0];
    var rest := LastOf(assistant, actions[1..], restricted,
                       if !restricted || a.authorization then before[(assistant, a.id) := a] else before, key);
    assert forall m :: 0 < m < |actions| ==> actions[m] == actions[1..][m - 1];
    last := if rest.Some? then Some(rest.value + 1)
      else if Listed(assistant, a, restricted, key) then Some(0) else None;
  }

  ghost predicate Listed(assistant: string, action: RuntimeAction, restricted: bool, key: (string, string)) {
    key == (assistant, action.id) && (restricted ==> action.authorization)
  }

  ghost predicate ListedAt(assistants: seq<RuntimeAssistant>, restricted: bool, key: (string, string), n: nat, m: nat) {
    && n < |assistants| && m < |assistants[n].actions|
    && Listed(assistants[n].id, assistants[n].actions[m], restricted, key)
  }

  lemma {:induction false} LastOfAll(assistants: seq<RuntimeAssistant>, restricted: bool, before: Declared,
                                     key: (string, string))
    returns (last: Option<(nat, nat)>)
    ensures
      var after := DeclaredAll(assistants, restricted, before);
      match last
      case None =>
        && (key in after <==> key in before) && (key in after ==> after[key] == before[key])
        && forall n: nat, m: nat :: !ListedAt(assistants, restricted, key, n, m)
      case Some((i, j)) =>
        && ListedAt(assistants, restricted, key, i, j) && key in after && after[key] == assistants[i].actions[j]
        && forall n: nat, m: nat :: ListedAt(assistants, restricted, key, n, m) ==> n < i || (n == i && m <= j)
    decreases |assistants|
  {
    if assistants == [] {
      return None;
    }
    var first, rest := assistants[0], assistants[1..];
    var own := LastOf(first.id, first.actions, restricted, before, key);
    var later := LastOfAll(rest, restricted, DeclaredOf(first.id, first.actions, restricted, before), key);
    forall n: nat, m: nat | 0 < n ensures
      ListedAt(assistants, restricted, key, n, m) <==> ListedAt(rest, restricted, key, n - 1, m)
    {
      assert n < |assistants| ==> assistants[n] == rest[n - 1];
    }
    last := if later.Some? then Some((later.value.0 + 1, later.value.1))
            else if own.Some? then Some((0, own.value)) else None;
  }

  /** The text of every attachment's `id` member. */
  function SelectedIds(attachments: seq<Value>): set<string> {
    set i | 0 <= i < |attachments| && Get(attachments[i], "id").Some? && Get(attachments[i], "id").value.Str?
      :: Get(attachments[i], "id").value.text
  }

  function Key(r: ActionRequest): (string, string) { (r.assistantId, r.action) }

  function InterruptsOf(requests: seq<ActionRequest>): set<string> {
    set i | 0 <= i < |requests| :: requests[i].interruptId
  }

  ghost predicate DistinctRequests(requests: seq<ActionRequest>) {
    forall i, j :: 0 <= i < j < |requests| ==> requests[i].interruptId != requests[j].interruptId
  }

  // ----- The batch's shape -----------------------------------------------------------------------------------------

  /** Every request names a declared Action under its own interrupt, and the results fit one resume. */
  ghost predicate WellShaped(requests: seq<ActionRequest>, declared: Declared, capacity: nat) {
    && 0 < |requests| <= capacity
    && (forall i :: 0 <= i < |requests| ==> Key(requests[i]) in declared)
    && DistinctRequests(requests)
  }

  method DeclaredBatch(requests: seq<ActionRequest>, declared: Declared, capacity: nat)
    returns (r: Result<seq<RuntimeAction>, ChatError>)
    ensures r.Ok? <==> WellShaped(requests, declared, capacity)
    ensures r.Ok? ==> |r.value| == |requests| && forall i :: 0 <= i < |requests| ==>
      r.value[i] == declared[Key(requests[i])]
  {
    if requests == [] || |requests| > capacity {
      return Err(Orchestration);
    }
    var seen: set<string> := {};
    var contracts := [];
    for i := 0 to |requests|
      invariant seen == InterruptsOf(requests[..i])
      invariant DistinctRequests(requests[..i])
      invariant forall j :: 0 <= j < i ==> Key(requests[j]) in declared
      invariant |contracts| == i && forall j :: 0 <= j < i ==> contracts[j] == declared[Key(requests[j])]
    {
      if Key(requests[i]) !in declared {
        return Err(Orchestration);
      }
      if requests[i].interruptId in seen {
        var j :| 0 <= j < i && requests[..i][j].interruptId == requests[i].interruptId;
        assert requests[j].interruptId == requests[i].interruptId;
        return Err(Orchestration);
      }
      contracts := contracts + [declared[Key(requests[i])]];
      seen := seen + {requests[i].interruptId};
      assert InterruptsOf(requests[..i + 1]) == InterruptsOf(requests[..i]) + {requests[i].interruptId} by {
        assert requests[..i + 1] == requests[..i] + [requests[i]];
        assert requests[..i + 1][i] == requests[i];
        forall x | x in InterruptsOf(requests[..i]) ensures x in InterruptsOf(requests[..i + 1]) {
          var j :| 0 <= j < i && requests[..i][j].interruptId == x;
          assert requests[..i + 1][j].interruptId == x;
        }
      }
    }
    assert requests[..|requests|] == requests;
    return Ok(contracts);
  }

  /** An oracle: what the controller makes of an input, given the Assistant and its Action. */
  type Validator = (string, RuntimeAction, Value) -> Result<Value, ChatError>

  /** Whether a validated input may go to this Action: an object, naming only a selected file where one is taken. */
  predicate InputAdmitted(action: RuntimeAction, input: Value, selected: set<string>) {
    input.Obj? &&
    (action.inputFiles != [] ==>
       var named := Get(input, action.inputFiles[0]);
       named.Some? && named.value.Str? && named.value.text in selected)
  }

  /** One admitted request: the Brain's own, at its declared Action, with an admitted input. */
  ghost predicate RequestAdmitted(raw: ActionRequest, declared: Declared, selected: set<string>,
                                  admitted: ActionRequest)
  {
    && Key(raw) in declared
    && admitted.interruptId == raw.interruptId && admitted.assistantId == raw.assistantId
    && admitted.action == declared[Key(raw)].id
    && InputAdmitted(declared[Key(raw)], admitted.input, selected)
  }

  /** The whole batch is admitted, request by request and in order. */
  ghost predicate BatchAdmitted(
    raw: seq<ActionRequest>, declared: Declared, capacity: nat, selected: set<string>, batch: seq<ActionRequest>) {
    && WellShaped(raw, declared, capacity)
    && |batch| == |raw|
    && forall i :: 0 <= i < |raw| ==> RequestAdmitted(raw[i], declared, selected, batch[i])
  }

  /** What the validator answers for one request is admitted. */
  predicate Passes(raw: ActionRequest, action: RuntimeAction, validate: Validator, selected: set<string>) {
    var input := validate(raw.assistantId, action, raw.input);
    input.Ok? && InputAdmitted(action, input.value, selected)
  }

  method ValidateBatch(
    requests: seq<ActionRequest>, declared: Declared, validate: Validator, capacity: nat, selected: set<string>)
    returns (r: Result<seq<ActionRequest>, ChatError>)
    ensures r.Ok? <==>
      && WellShaped(requests, declared, capacity)
      && forall i :: 0 <= i < |requests| ==> Passes(requests[i], declared[Key(requests[i])], validate, selected)
    ensures r.Ok? ==> BatchAdmitted(requests, declared, capacity, selected, r.value)
    ensures r.Ok? ==> forall i :: 0 <= i < |requests| ==>
      Ok(r.value[i].input) == validate(requests[i].assistantId, declared[Key(requests[i])], requests[i].input)
  {
    var contracts :- DeclaredBatch(requests, declared, capacity);
    var validated := [];
    for i := 0 to |requests|
      invariant |validated| == i
      invariant forall j :: 0 <= j < i ==> Passes(requests[j], declared[Key(requests[j])], validate, selected)
      invariant forall j :: 0 <= j < i ==> RequestAdmitted(requests[j], declared, selected, validated[j])
      invariant forall j :: 0 <= j < i ==>
        Ok(validated[j].input) == validate(requests[j].assistantId, declared[Key(requests[j])], requests[j].input)
    {
      var request, action := requests[i], contracts[i];
      var input := validate(request.assistantId, action, request.input);
      if input.Err? {
        return Err(input.error);
      }
      if !InputAdmitted(action, input.value, selected) {
        return Err(Orchestration);
      }
      validated := validated + [ActionRequest(request.interruptId, request.assistantId, action.id, input.value)];
    }
    return Ok(validated);
  }

  predicate TakesFile(declared: Declared, r: ActionRequest) {
    Key(r) in declared && declared[Key(r)].inputFiles != []
  }

  /** How many requests of a batch take a file. */
  function Taking(declared: Declared, batch: seq<ActionRequest>): (n: nat)
    ensures n <= |batch|
  {
    if batch == [] then 0
    else Taking(declared, batch[..|batch| - 1]) + if TakesFile(declared, batch[|batch| - 1]) then 1 else 0
  }

  /** What a turn's context fixes for every round: its Actions, whether attachment content is in it, how many results
      one resume takes, and the files it selected. */
  datatype Terms = Terms(declared: Declared, restricted: bool, capacity: nat, selected: set<string>)

  function TermsOf(c: RuntimeContext): Terms {
    Terms(AdmittedActions(c), ReadsContent(c.attachments), ResumeCapacity(c, ActionResult.MAX_RESULT_BYTES),
          SelectedIds(c.attachments))
  }

  /** The admission of a round: its batch, nothing of it seen before, within the turn's file budget. */
  ghost predicate RoundAdmitted(
    terms: Terms, turn: RuntimeTurn, seen: set<string>, fileActions: nat, batch: seq<ActionRequest>, total: nat) {
    && BatchAdmitted(turn.actions, terms.declared, terms.capacity, terms.selected, batch)
    && InterruptsOf(batch) !! seen
    && total == fileActions + Taking(terms.declared, batch)
    && total <= MAX_FILE_ACTIONS_PER_TURN
  }

  /** An admitted batch keeps the Brain's interrupts and takes a file exactly where the Brain's request does. */
  lemma AdmittedKeys(raw: seq<ActionRequest>, declared: Declared, capacity: nat, selected: set<string>,
                     batch: seq<ActionRequest>)
    requires BatchAdmitted(raw, declared, capacity, selected, batch)
    requires Sound(declared, false)
    ensures InterruptsOf(batch) == InterruptsOf(raw) && DistinctRequests(batch)
    ensures forall i :: 0 <= i < |batch| ==> Key(batch[i]) == Key(raw[i])
    ensures Taking(declared, batch) == Taking(declared, raw)
  {
    assert forall i :: 0 <= i < |batch| ==> RequestAdmitted(raw[i], declared, selected, batch[i]);
    SameTaking(declared, raw, batch);
  }

  lemma {:induction false} SameTaking(declared: Declared, a: seq<ActionRequest>, b: seq<ActionRequest>)
    requires |a| == |b| && forall i :: 0 <= i < |a| ==> Key(a[i]) == Key(b[i])
    ensures Taking(declared, a) == Taking(declared, b)
    decreases |a|
  {
    if a != [] {
      SameTaking(declared, a[..|a| - 1], b[..|b| - 1]);
    }
  }

  /** Exactly the batches a round may run: well shaped, every input valid, nothing seen before, within the file
      budget. */
  ghost predicate Admits(terms: Terms, actions: seq<ActionRequest>, validate: Validator, seen: set<string>,
                         fileActions: nat)
  {
    && WellShaped(actions, terms.declared, terms.capacity)
    && (forall i :: 0 <= i < |actions| ==>
          Passes(actions[i], terms.declared[Key(actions[i])], validate, terms.selected))
    && InterruptsOf(actions) !! seen
    && fileActions + Taking(terms.declared, actions) <= MAX_FILE_ACTIONS_PER_TURN
  }

  /** The controller admits this input for this Action: an object that names, where the Action takes a file, an
      attachment of the turn. */
  ghost predicate Accepts(c: RuntimeContext, a: RuntimeAction, r: ActionRequest, validate: Validator) {
    var input := validate(r.assistantId, a, r.input);
    && input.Ok? && input.value.Obj?
    && (a.inputFiles != [] ==>
          exists i, id :: 0 <= i < |c.attachments| && Get(c.attachments[i], "id") == Some(Str(id)) &&
            Get(input.value, a.inputFiles[0]) == Some(Str(id)))
  }

  /** The Action the context offers under the request's key takes the request. */
  ghost predicate Runs(c: RuntimeContext, r: ActionRequest, validate: Validator) {
    exists n: nat, m: nat ::
      OffersLast(c, n, m, (r.assistantId, r.action)) && Accepts(c, c.assistants[n].actions[m], r, validate)
  }

  ghost predicate RunsEach(c: RuntimeContext, actions: seq<ActionRequest>, validate: Validator) {
    forall i :: 0 <= i < |actions| ==> Runs(c, actions[i], validate)
  }

  ghost predicate Takes(c: RuntimeContext, r: ActionRequest) {
    exists n: nat, m: nat ::
      OffersLast(c, n, m, (r.assistantId, r.action)) && c.assistants[n].actions[m].inputFiles != []
  }

  /** The places of the requests that take a file. */
  ghost function Takers(c: RuntimeContext, actions: seq<ActionRequest>): set<int> {
    set i | 0 <= i < |actions| && Takes(c, actions[i])
  }

  /** By the context alone, a round is admitted exactly when it has a request, its results fit one resume, each request
      runs an Action the context offers, under an interrupt of its own that no earlier round had, and the turn takes at
      most two files. */
  lemma AdmitsExactly(c: RuntimeContext, actions: seq<ActionRequest>, validate: Validator, seen: set<string>,
                      fileActions: nat)
    ensures Admits(TermsOf(c), actions, validate, seen, fileActions) <==>
      && 0 < |actions| <= ResumeCapacity(c, ActionResult.MAX_RESULT_BYTES)
      && RunsEach(c, actions, validate)
      && (forall i :: 0 <= i < |actions| ==> actions[i].interruptId !in seen)
      && DistinctRequests(actions)
      && fileActions + |Takers(c, actions)| <= 2
  {
    RunsAll(c, actions, validate);
    TakesAll(c, actions);
    SeenNone(actions, seen);
    AdmitsParts(TermsOf(c), actions, validate, seen, fileActions);
  }

  ghost predicate PassesEach(terms: Terms, actions: seq<ActionRequest>, validate: Validator) {
    forall i :: 0 <= i < |actions| ==>
      && Key(actions[i]) in terms.declared
      && Passes(actions[i], terms.declared[Key(actions[i])], validate, terms.selected)
  }

  lemma AdmitsParts(terms: Terms, actions: seq<ActionRequest>, validate: Validator, seen: set<string>,
                    fileActions: nat)
    ensures Admits(terms, actions, validate, seen, fileActions) <==>
      && 0 < |actions| <= terms.capacity && PassesEach(terms, actions, validate) && InterruptsOf(actions) !! seen
      && DistinctRequests(actions) && fileActions + Taking(terms.declared, actions) <= 2
  {
  }

  lemma SeenNone(actions: seq<ActionRequest>, seen: set<string>)
    ensures InterruptsOf(actions) !! seen <==> forall i :: 0 <= i < |actions| ==> actions[i].interruptId !in seen
  {
    forall i | 0 <= i < |actions| ensures actions[i].interruptId in InterruptsOf(actions) {
    }
  }

  lemma RunsAll(c: RuntimeContext, actions: seq<ActionRequest>, validate: Validator)
    ensures RunsEach(c, actions, validate) <==> PassesEach(TermsOf(c), actions, validate)
  {
    forall i | 0 <= i < |actions|
      ensures Runs(c, actions[i], validate) <==>
        && Key(actions[i]) in TermsOf(c).declared
        && Passes(actions[i], TermsOf(c).declared[Key(actions[i])], validate, TermsOf(c).selected)
    {
      RunsExactly(c, actions[i], validate);
    }
  }

  lemma TakesAll(c: RuntimeContext, actions: seq<ActionRequest>)
    ensures Taking(AdmittedActions(c), actions) == |Takers(c, actions)|
  {
    forall i | 0 <= i < |actions| ensures Takes(c, actions[i]) <==> TakesFile(AdmittedActions(c), actions[i]) {
      TakesExactly(c, actions[i]);
    }
    TakingCount(AdmittedActions(c), actions);
    assert Takers(c, actions) == TakingPlaces(AdmittedActions(c), actions);
  }

  /** What the context offers under a key, and the map holds there. */
  lemma OfferedAs(c: RuntimeContext, key: (string, string)) returns (n: nat, m: nat)
    requires key in AdmittedActions(c)
    ensures OffersLast(c, n, m, key) && AdmittedActions(c)[key] == c.assistants[n].actions[m]
    ensures forall i: nat, j: nat :: OffersLast(c, i, j, key) ==> i == n && j == m
  {
    AdmittedExactly(c, key);
    n, m :| OffersLast(c, n, m, key) && AdmittedActions(c)[key] == c.assistants[n].actions[m];
    forall i: nat, j: nat | OffersLast(c, i, j, key) ensures i == n && j == m {
      assert Offers(c, i, j, key) && Offers(c, n, m, key);
    }
  }

  lemma TakesExactly(c: RuntimeContext, r: ActionRequest)
    ensures Takes(c, r) <==> TakesFile(AdmittedActions(c), r)
  {
    AdmittedExactly(c, Key(r));
    if Key(r) in AdmittedActions(c) {
      var n, m := OfferedAs(c, Key(r));
    }
  }

  lemma RunsExactly(c: RuntimeContext, r: ActionRequest, validate: Validator)
    ensures
      var terms := TermsOf(c);
      Runs(c, r, validate) <==>
        Key(r) in terms.declared && Passes(r, terms.declared[Key(r)], validate, terms.selected)
  {
    AdmittedExactly(c, Key(r));
    if Key(r) in AdmittedActions(c) {
      var n, m := OfferedAs(c, Key(r));
      AcceptsExactly(c, AdmittedActions(c)[Key(r)], r, validate);
    }
  }

  lemma AcceptsExactly(c: RuntimeContext, a: RuntimeAction, r: ActionRequest, validate: Validator)
    ensures Accepts(c, a, r, validate) <==> Passes(r, a, validate, SelectedIds(c.attachments))
  {
    var input := validate(r.assistantId, a, r.input);
    if input.Ok? && a.inputFiles != [] {
      forall id ensures id in SelectedIds(c.attachments) <==>
        exists i :: 0 <= i < |c.attachments| && Get(c.attachments[i], "id") == Some(Str(id)) {
      }
    }
  }

  ghost function TakingPlaces(declared: Declared, batch: seq<ActionRequest>): set<int> {
    set i | 0 <= i < |batch| && TakesFile(declared, batch[i])
  }

  lemma {:induction false} TakingCount(declared: Declared, batch: seq<ActionRequest>)
    ensures Taking(declared, batch) == |TakingPlaces(declared, batch)|
    decreases |batch|
  {
    if batch != [] {
      var n := |batch| - 1;
      TakingCount(declared, batch[..n]);
      assert TakingPlaces(declared, batch)
        == TakingPlaces(declared, batch[..n]) + if TakesFile(declared, batch[n]) then {n} else {};
    }
  }

  method AdmitBatch(
    c: RuntimeContext, turn: RuntimeTurn, validate: Validator, seen: set<string>, fileActions: nat)
    returns (r: Result<(seq<ActionRequest>, nat), ChatError>)
    ensures r.Ok? ==> RoundAdmitted(TermsOf(c), turn, seen, fileActions, r.value.0, r.value.1)
    ensures r.Ok? <==> Admits(TermsOf(c), turn.actions, validate, seen, fileActions)
  {
    AdmittedAuthorize(c);
    r := AdmitOn(TermsOf(c), turn, validate, seen, fileActions);
  }

  /** How many requests of a batch take a file. */
  method CountTaking(declared: Declared, batch: seq<ActionRequest>) returns (taking: nat)
    ensures taking == Taking(declared, batch)
  {
    taking := 0;
    for i := 0 to |batch|
      invariant taking == Taking(declared, batch[..i])
    {
      assert batch[..i + 1][..i] == batch[..i];
      if TakesFile(declared, batch[i]) {
        taking := taking + 1;
      }
    }
    assert batch[..|batch|] == batch;
  }

  method AdmitOn(terms: Terms, turn: RuntimeTurn, validate: Validator, seen: set<string>, fileActions: nat)
    returns (r: Result<(seq<ActionRequest>, nat), ChatError>)
    requires Sound(terms.declared, false)
    ensures r.Ok? ==> RoundAdmitted(terms, turn, seen, fileActions, r.value.0, r.value.1)
    ensures r.Ok? <==> Admits(terms, turn.actions, validate, seen, fileActions)
  {
    var declared := terms.declared;
    var batch :- ValidateBatch(turn.actions, declared, validate, terms.capacity, terms.selected);
    AdmittedKeys(turn.actions, declared, terms.capacity, terms.selected, batch);
    if exists i :: 0 <= i < |batch| && batch[i].interruptId in seen {
      var i :| 0 <= i < |batch| && batch[i].interruptId in seen;
      assert batch[i].interruptId in InterruptsOf(batch);
      return Err(Orchestration);
    }
    var taking := CountTaking(declared, batch);
    var total := fileActions + taking;
    if total > MAX_FILE_ACTIONS_PER_TURN {
      return Err(Orchestration);
    }
    return Ok((batch, total));
  }
}
