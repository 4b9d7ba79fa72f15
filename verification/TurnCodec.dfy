/**
 The Brain's closed turn answer: its parser, the value a turn is kept durably as, and their round trip.
 */
module TurnCodec {
  import opened Basics
  import opened Json
  import opened Runtime

  datatype ActionRequest = ActionRequest(interruptId: string, assistantId: string, action: string, input: Value)

  datatype BrowserRequest = BrowserRequest(interruptId: string, objective: string)

  datatype TurnStatus = Completed | ActionRequired | BrowserRequired

  datatype RuntimeTurn = RuntimeTurn(
    status: TurnStatus, reply: string, actions: seq<ActionRequest>, clarification: Option<Value>,
    memory: seq<Value>, routine: Option<Value>, browser: Option<BrowserRequest>)

  const MAX_ACTION_REQUESTS: nat := 64
  const MAX_REPLY_CHARS: nat := 60_000

  /**
   The HTTP protocol's own validators: each admits a value as its canonical form.  `printable` is the absence of
   control characters in a reply and `blank` a reply of white space only.
   */
  datatype Protocol = Protocol(
    memory: Value -> Option<Value>,
    clarification: Value -> Option<Value>,
    render: Value -> string,
    objective: Value -> Option<string>,
    assistantId: Value -> Option<string>,
    actionId: Value -> Option<string>,
    printable: string -> bool,
    blank: string -> bool)

  /** A canonical form is its own canonical form; an identifier is the text it was read from. */
  ghost predicate Idempotent(p: Protocol) {
    && (forall v :: p.memory(v).Some? ==> p.memory(p.memory(v).value) == p.memory(v))
    && (forall v :: p.clarification(v).Some? ==> p.clarification(p.clarification(v).value) == p.clarification(v))
    && (forall v :: p.assistantId(v).Some? ==> v == Str(p.assistantId(v).value))
    && (forall v :: p.actionId(v).Some? ==> v == Str(p.actionId(v).value))
    && (forall v :: p.clarification(v).Some? ==> p.clarification(v).value != Null)
  }

  const TURN_FIELDS: seq<string> := ["status", "reply", "actions", "clarification", "memory", "routine", "browser"]

  predicate Exactly(v: Value, fields: seq<string>) {
    v.Obj? && |v.members| == |fields| && forall i :: 0 <= i < |v.members| ==> v.members[i].key in fields
  }

  function Field(v: Value, name: string): Value {
    var found := Get(v, name);
    if found.Some? then found.value else Null
  }

  predicate Truthy(v: Value) {
    match v
    case Null => false
    case Bool(flag) => flag
    case Num(Int(i)) => i != 0
    case Num(_) => true
    case Str(s) => s != ""
    case Arr(items) => items != []
    case Obj(members) => members != []
  }

  function StatusName(s: TurnStatus): string {
    match s
    case Completed => "completed"
    case ActionRequired => "action-required"
    case BrowserRequired => "browser-required"
  }

  function ParseStatus(name: string): Option<TurnStatus> {
    if name == "completed" then Some(Completed)
    else if name == "action-required" then Some(ActionRequired)
    else if name == "browser-required" then Some(BrowserRequired)
    else None
  }

  /** The members of a turn answer as the parser reads them; an absent one reads `null`. */
  datatype Answer = Answer(
    status: Value, reply: Value, actions: Value, clarification: Value, memory: Value, routine: Value, browser: Value)

  function Answered(v: Value): Answer {
    Answer(Field(v, "status"), Field(v, "reply"), Field(v, "actions"), Field(v, "clarification"), Field(v, "memory"),
           Field(v, "routine"), Field(v, "browser"))
  }

  /** Nothing but the Browser call is in the answer. */
  predicate Alone(a: Answer) {
    !Truthy(a.reply) && !Truthy(a.actions) && a.clarification == Null && !Truthy(a.memory) && a.routine == Null
  }

  function ParseCall(p: Protocol, browser: Value): Option<BrowserRequest> {
    var id := Field(browser, "interrupt_id");
    var objective := Field(browser, "objective");
    if && Exactly(browser, ["interrupt_id", "objective"])
       && id.Str? && SafeId(id.text)
       && objective.Str? && p.objective(objective) == Some(objective.text)
    then Some(BrowserRequest(id.text, objective.text))
    else None
  }

  /** A turn's Browser call, required with its status and refused with any other. */
  function ParseBrowser(p: Protocol, a: Answer): Option<Option<BrowserRequest>> {
    if a.status != Str("browser-required") then
      if a.browser == Null then Some(None) else None
    else
      var call :- ParseCall(p, a.browser);
      if Alone(a) then Some(Some(call)) else None
  }

  function ParseAction(p: Protocol, raw: Value): Option<ActionRequest> {
    var id := Field(raw, "interrupt_id");
    if Exactly(raw, ["interrupt_id", "assistant_id", "action", "input"]) && id.Str? && SafeId(id.text) then
      var assistant :- p.assistantId(Field(raw, "assistant_id"));
      var action :- p.actionId(Field(raw, "action"));
      if Field(raw, "input").Obj? then Some(ActionRequest(id.text, assistant, action, Field(raw, "input"))) else None
    else None
  }

  function ParseEach(p: Protocol, raw: seq<Value>): (r: Option<seq<ActionRequest>>)
    ensures r.Some? ==> |r.value| == |raw|
  {
    if raw == [] then Some([])
    else
      var first :- ParseAction(p, raw[0]);
      var rest :- ParseEach(p, raw[1..]);
      Some([first] + rest)
  }

  function ParseActions(p: Protocol, actions: Value): Option<seq<ActionRequest>> {
    if actions.Arr? && |actions.items| <= MAX_ACTION_REQUESTS then ParseEach(p, actions.items) else None
  }

  /** The two optional endings; at most one is set, and only by a completed turn. */
  function ParseEnding(p: Protocol, a: Answer, completed: bool): Option<(Option<Value>, Option<Value>)> {
    var routine :- if a.routine == Null then Some(None)
                   else if a.routine.Obj? && completed && a.clarification == Null then Some(Some(a.routine)) else None;
    if a.clarification == Null then Some((routine, None))
    else
      var clarification :- p.clarification(a.clarification);
      if completed && a.reply == Str(p.render(clarification)) then Some((routine, Some(clarification))) else None
  }

  function ParseMemory(p: Protocol, memory: Value, completed: bool): Option<seq<Value>> {
    var canonical :- p.memory(memory);
    if !canonical.Arr? || (canonical.items != [] && !completed) then None else Some(canonical.items)
  }

  function ParseAnswer(p: Protocol, a: Answer): Option<RuntimeTurn> {
    var browser :- ParseBrowser(p, a);
    var completed := a.status == Str("completed");
    var memory :- ParseMemory(p, a.memory, completed);
    var ending :- ParseEnding(p, a, completed);
    var status :- if a.status.Str? then ParseStatus(a.status.text) else None;
    var reply :- if a.reply.Str? then Some(a.reply.text) else None;
    var actions :- ParseActions(p, a.actions);
    var turn := RuntimeTurn(status, reply, actions, ending.1, memory, ending.0, browser);
    if Admissible(p, turn) then Some(turn) else None
  }

  /** Admits one turn answer whole, or refuses it. */
  function ParseTurn(p: Protocol, v: Value): Option<RuntimeTurn> {
    if Exactly(v, TURN_FIELDS) then ParseAnswer(p, Answered(v)) else None
  }

  /** The bounds on a turn's reply and on what each status carries. */
  predicate Admissible(p: Protocol, t: RuntimeTurn) {
    var silent := p.blank(t.reply) && (t.routine.None? || t.reply != "");
    && |t.reply| <= MAX_REPLY_CHARS && p.printable(t.reply)
    && !(t.status == Completed && (t.actions != [] || silent))
    && !(t.status == ActionRequired && (t.reply != "" || t.actions == []))
  }

  function ActionValue(a: ActionRequest): Value {
    Obj([Member("interrupt_id", Str(a.interruptId)), Member("assistant_id", Str(a.assistantId)),
         Member("action", Str(a.action)), Member("input", a.input)])
  }

  function BrowserValue(b: Option<BrowserRequest>): Value {
    if b.None? then Null
    else Obj([Member("interrupt_id", Str(b.value.interruptId)), Member("objective", Str(b.value.objective))])
  }

  function AnswerOf(t: RuntimeTurn): Answer {
    Answer(Str(StatusName(t.status)), Str(t.reply), Arr(Mapped(ActionValue, t.actions)), Optional(t.clarification),
           Arr(t.memory), Optional(t.routine), BrowserValue(t.browser))
  }

  /** A turn answer that is admitted as `turn` again. */
  function TurnValue(t: RuntimeTurn): Value {
    var a := AnswerOf(t);
    Obj([Member("status", a.status), Member("reply", a.reply), Member("actions", a.actions),
         Member("clarification", a.clarification), Member("memory", a.memory), Member("routine", a.routine),
         Member("browser", a.browser)])
  }

  // ----- The parts of an answer ------------------------------------------------------------------------------------

  /** With unique names, a member is what its name reads. */
  lemma FieldAt(v: Value, i: nat)
    requires v.Obj? && UniqueKeys(v.members) && i < |v.members|
    ensures Field(v, v.members[i].key) == v.members[i].value
  {
    UniquePlace(v.members, i);
  }

  lemma TurnFields(t: RuntimeTurn)
    ensures Exactly(TurnValue(t), TURN_FIELDS) && Answered(TurnValue(t)) == AnswerOf(t)
  {
    var v := TurnValue(t);
    forall i | 0 <= i < 7 ensures Field(v, v.members[i].key) == v.members[i].value && v.members[i].key in TURN_FIELDS {
      FieldAt(v, i);
      assert TURN_FIELDS[i] == v.members[i].key;
    }
    assert v.members[0].key == "status" && v.members[1].key == "reply" && v.members[2].key == "actions"
        && v.members[3].key == "clarification" && v.members[4].key == "memory" && v.members[5].key == "routine"
        && v.members[6].key == "browser";
  }

  /** The parts of an admitted answer, each read on its own. */
  lemma Parts(p: Protocol, a: Answer, t: RuntimeTurn)
    requires ParseAnswer(p, a) == Some(t)
    ensures a.status == Str(StatusName(t.status)) && a.reply == Str(t.reply)
    ensures ParseBrowser(p, a) == Some(t.browser)
    ensures ParseMemory(p, a.memory, t.status == Completed) == Some(t.memory)
    ensures ParseEnding(p, a, t.status == Completed) == Some((t.routine, t.clarification))
    ensures ParseActions(p, a.actions) == Some(t.actions)
    ensures Admissible(p, t)
  {
  }

  lemma Whole(p: Protocol, a: Answer, t: RuntimeTurn)
    requires a.status == Str(StatusName(t.status)) && a.reply == Str(t.reply)
    requires ParseBrowser(p, a) == Some(t.browser)
    requires ParseMemory(p, a.memory, t.status == Completed) == Some(t.memory)
    requires ParseEnding(p, a, t.status == Completed) == Some((t.routine, t.clarification))
    requires ParseActions(p, a.actions) == Some(t.actions)
    requires Admissible(p, t)
    ensures ParseAnswer(p, a) == Some(t)
  {
  }

  // ----- Exactly what is admitted ----------------------------------------------------------------------------------

  /** An Action request by its own fields: a safe interrupt, identifiers that stand for themselves, an object. */
  ghost predicate WellFormedAction(p: Protocol, a: ActionRequest) {
    && SafeId(a.interruptId) && a.input.Obj?
    && p.assistantId(Str(a.assistantId)) == Some(a.assistantId) && p.actionId(Str(a.action)) == Some(a.action)
  }

  /** The Browser call comes with its status, safe and canonical, and alone. */
  ghost predicate WellFormedBrowser(p: Protocol, t: RuntimeTurn) {
    if t.status.BrowserRequired? then
      && t.browser.Some? && SafeId(t.browser.value.interruptId)
      && p.objective(Str(t.browser.value.objective)) == Some(t.browser.value.objective)
      && t.reply == "" && t.actions == [] && t.memory == [] && t.clarification.None? && t.routine.None?
    else t.browser.None?
  }

  /** Memory, a Routine record and a question come with a completed turn, never the last two together; the reply is the
      question's own rendering. */
  ghost predicate WellFormedEnding(p: Protocol, t: RuntimeTurn) {
    && p.memory(Arr(t.memory)) == Some(Arr(t.memory))
    && (t.memory != [] || t.routine.Some? || t.clarification.Some? ==> t.status.Completed?)
    && (t.routine.Some? ==> t.routine.value.Obj? && t.clarification.None?)
    && (t.clarification.Some? ==>
          && t.clarification.value != Null && p.clarification(t.clarification.value) == t.clarification
          && t.reply == p.render(t.clarification.value))
  }

  /** A turn that is well formed by its own fields. */
  ghost predicate WellFormedTurn(p: Protocol, t: RuntimeTurn) {
    && |t.actions| <= 64 && (forall i :: 0 <= i < |t.actions| ==> WellFormedAction(p, t.actions[i]))
    && |t.reply| <= 60_000 && p.printable(t.reply)
    && (t.status.ActionRequired? ==> t.actions != [] && t.reply == "")
    && (t.status.Completed? ==> t.actions == [] && (!p.blank(t.reply) || (t.reply == "" && t.routine.Some?)))
    && WellFormedEnding(p, t) && WellFormedBrowser(p, t)
  }

  /** Nothing, false, zero, or an empty text, list or object. */
  ghost predicate Blank(v: Value) { v in {Null, Bool(false), Num(Int(0)), Str(""), Arr([]), Obj([])} }

  ghost predicate Names(v: Value, names: set<string>) {
    v.Obj? && |v.members| == |names| && forall i :: 0 <= i < |v.members| ==> v.members[i].key in names
  }

  ghost predicate WritesAction(v: Value, a: ActionRequest) {
    && Names(v, {"interrupt_id", "assistant_id", "action", "input"})
    && Get(v, "interrupt_id") == Some(Str(a.interruptId)) && Get(v, "assistant_id") == Some(Str(a.assistantId))
    && Get(v, "action") == Some(Str(a.action)) && Get(v, "input") == Some(a.input)
  }

  ghost predicate WritesCall(v: Value, b: Option<BrowserRequest>) {
    if b.None? then v == Null
    else
      && Names(v, {"interrupt_id", "objective"})
      && Get(v, "interrupt_id") == Some(Str(b.value.interruptId)) && Get(v, "objective") == Some(Str(b.value.objective))
  }

  /** The answer writes the turn: its members by name, memory and question in some form the protocol admits as
      theirs. */
  ghost predicate Writes(p: Protocol, a: Answer, t: RuntimeTurn) {
    && a.status == Str(match t.status case Completed => "completed" case ActionRequired => "action-required"
                       case BrowserRequired => "browser-required")
    && a.reply == Str(t.reply)
    && a.actions.Arr? && |a.actions.items| == |t.actions|
    && (forall i :: 0 <= i < |t.actions| ==> WritesAction(a.actions.items[i], t.actions[i]))
    && p.memory(a.memory) == Some(Arr(t.memory)) && (t.status.BrowserRequired? ==> Blank(a.memory))
    && a.routine == (if t.routine.Some? then t.routine.value else Null)
    && (if t.clarification.Some? then a.clarification != Null && p.clarification(a.clarification) == t.clarification
        else a.clarification == Null)
    && WritesCall(a.browser, t.browser)
  }

  lemma NamesExactly(v: Value, fields: seq<string>, names: set<string>)
    requires |fields| == |names| && forall x :: x in fields <==> x in names
    ensures Exactly(v, fields) <==> Names(v, names)
  {
  }

  lemma ActionExactly(p: Protocol, v: Value, a: ActionRequest)
    requires Idempotent(p)
    ensures ParseAction(p, v) == Some(a) <==> WritesAction(v, a) && WellFormedAction(p, a)
  {
    NamesExactly(v, ["interrupt_id", "assistant_id", "action", "input"],
                 {"interrupt_id", "assistant_id", "action", "input"});
  }

  ghost predicate ParsesEach(p: Protocol, raw: seq<Value>, actions: seq<ActionRequest>) {
    |raw| == |actions| && forall i :: 0 <= i < |raw| ==> ParseAction(p, raw[i]) == Some(actions[i])
  }

  lemma {:induction false} EachExactly(p: Protocol, raw: seq<Value>, actions: seq<ActionRequest>)
    ensures ParseEach(p, raw) == Some(actions) <==> ParsesEach(p, raw, actions)
    decreases |raw|
  {
    if raw != [] && actions != [] {
      EachExactly(p, raw[1..], actions[1..]);
      EachNext(p, raw, actions);
      FirstEach(p, raw, actions);
    }
  }

  lemma {:induction false} EachNext(p: Protocol, raw: seq<Value>, actions: seq<ActionRequest>)
    requires raw != [] && actions != []
    ensures ParseEach(p, raw) == Some(actions) <==>
      ParseAction(p, raw[0]) == Some(actions[0]) && ParseEach(p, raw[1..]) == Some(actions[1..])
  {
    assert actions == [actions[0]] + actions[1..];
  }

  lemma FirstEach(p: Protocol, raw: seq<Value>, actions: seq<ActionRequest>)
    requires raw != [] && actions != []
    ensures ParsesEach(p, raw, actions) <==>
      ParseAction(p, raw[0]) == Some(actions[0]) && ParsesEach(p, raw[1..], actions[1..])
  {
    assert forall i :: 0 < i < |raw| ==> raw[i] == raw[1..][i - 1];
    assert forall i :: 0 < i < |actions| ==> actions[i] == actions[1..][i - 1];
  }

  lemma ActionsExactly(p: Protocol, v: Value, actions: seq<ActionRequest>)
    requires Idempotent(p)
    ensures ParseActions(p, v) == Some(actions) <==>
      && v.Arr? && |v.items| == |actions| <= 64
      && (forall i :: 0 <= i < |actions| ==> WritesAction(v.items[i], actions[i]))
      && forall i :: 0 <= i < |actions| ==> WellFormedAction(p, actions[i])
  {
    if v.Arr? {
      EachExactly(p, v.items, actions);
      forall i | 0 <= i < |actions| && |actions| == |v.items|
        ensures ParseAction(p, v.items[i]) == Some(actions[i]) <==>
          WritesAction(v.items[i], actions[i]) && WellFormedAction(p, actions[i])
      {
        ActionExactly(p, v.items[i], actions[i]);
      }
    }
  }

  lemma CallExactly(p: Protocol, v: Value, b: BrowserRequest)
    ensures ParseCall(p, v) == Some(b) <==>
      && WritesCall(v, Some(b)) && SafeId(b.interruptId) && p.objective(Str(b.objective)) == Some(b.objective)
  {
    NamesExactly(v, ["interrupt_id", "objective"], {"interrupt_id", "objective"});
  }

  /** Exactly the answers that write a well-formed turn are admitted, as that turn. */
  lemma AnswerExactly(p: Protocol, a: Answer, t: RuntimeTurn)
    requires Idempotent(p)
    ensures ParseAnswer(p, a) == Some(t) <==> Writes(p, a, t) && WellFormedTurn(p, t)
  {
    if ParseAnswer(p, a) == Some(t) {
      Parts(p, a, t);
      AdmittedWrites(p, a, t);
    }
    if Writes(p, a, t) && WellFormedTurn(p, t) {
      WrittenAdmitted(p, a, t);
    }
  }

  lemma AdmittedWrites(p: Protocol, a: Answer, t: RuntimeTurn)
    requires Idempotent(p)
    requires a.status == Str(StatusName(t.status)) && a.reply == Str(t.reply)
    requires ParseBrowser(p, a) == Some(t.browser)
    requires ParseMemory(p, a.memory, t.status == Completed) == Some(t.memory)
    requires ParseEnding(p, a, t.status == Completed) == Some((t.routine, t.clarification))
    requires ParseActions(p, a.actions) == Some(t.actions)
    requires Admissible(p, t)
    ensures Writes(p, a, t) && WellFormedTurn(p, t)
  {
    ActionsExactly(p, a.actions, t.actions);
    EndingExactly(p, a, t);
    BrowserExactly(p, a, t);
  }

  lemma BrowserExactly(p: Protocol, a: Answer, t: RuntimeTurn)
    requires a.status == Str(StatusName(t.status)) && ParseBrowser(p, a) == Some(t.browser)
    requires a.reply == Str(t.reply) && a.actions.Arr? && |a.actions.items| == |t.actions|
    requires WellFormedEnding(p, t)
    ensures WritesCall(a.browser, t.browser) && WellFormedBrowser(p, t)
    ensures t.status.BrowserRequired? ==> Blank(a.memory)
  {
    if t.browser.Some? {
      CallExactly(p, a.browser, t.browser.value);
    }
  }

  lemma EndingExactly(p: Protocol, a: Answer, t: RuntimeTurn)
    requires Idempotent(p) && a.reply == Str(t.reply)
    ensures
      && ParseMemory(p, a.memory, t.status == Completed) == Some(t.memory)
      && ParseEnding(p, a, t.status == Completed) == Some((t.routine, t.clarification)) <==>
        && p.memory(a.memory) == Some(Arr(t.memory)) && WellFormedEnding(p, t)
        && a.routine == (if t.routine.Some? then t.routine.value else Null)
        && (if t.clarification.Some? then a.clarification != Null && p.clarification(a.clarification) == t.clarification
            else a.clarification == Null)
  {
  }

  lemma WrittenAdmitted(p: Protocol, a: Answer, t: RuntimeTurn)
    requires Idempotent(p) && Writes(p, a, t) && WellFormedTurn(p, t)
    ensures ParseAnswer(p, a) == Some(t)
  {
    ActionsExactly(p, a.actions, t.actions);
    if t.browser.Some? {
      CallExactly(p, a.browser, t.browser.value);
    }
    EndingExactly(p, a, t);
    Whole(p, a, t);
  }

  /** Exactly the values with the seven members of a well-formed turn are admitted, as that turn. */
  lemma TurnExactly(p: Protocol, v: Value, t: RuntimeTurn)
    requires Idempotent(p)
    ensures ParseTurn(p, v) == Some(t) <==>
      && Names(v, {"status", "reply", "actions", "clarification", "memory", "routine", "browser"})
      && Writes(p, Answered(v), t) && WellFormedTurn(p, t)
  {
    NamesExactly(v, TURN_FIELDS, {"status", "reply", "actions", "clarification", "memory", "routine", "browser"});
    AnswerExactly(p, Answered(v), t);
  }

  /** A turn is read back from the value it is kept as exactly when it is well formed by its own fields. */
  lemma TurnReadBack(p: Protocol, t: RuntimeTurn)
    requires Idempotent(p)
    ensures ParseTurn(p, TurnValue(t)) == Some(t) <==> WellFormedTurn(p, t)
  {
    TurnFields(t);
    AnswerExactly(p, AnswerOf(t), t);
    if WellFormedTurn(p, t) {
      OwnAnswer(p, t);
    }
  }

  lemma OwnAnswer(p: Protocol, t: RuntimeTurn)
    requires WellFormedTurn(p, t)
    ensures Writes(p, AnswerOf(t), t)
  {
    forall i | 0 <= i < |t.actions| ensures WritesAction(ActionValue(t.actions[i]), t.actions[i]) {
      OwnAction(t.actions[i]);
    }
    OwnCall(t.browser);
  }

  lemma OwnAction(a: ActionRequest)
    ensures WritesAction(ActionValue(a), a)
  {
    var v := ActionValue(a);
    UniquePlace(v.members, 0);
    UniquePlace(v.members, 1);
    UniquePlace(v.members, 2);
    UniquePlace(v.members, 3);
    assert v.members[0].key == "interrupt_id" && v.members[1].key == "assistant_id" && v.members[2].key == "action"
        && v.members[3].key == "input";
  }

  lemma OwnCall(b: Option<BrowserRequest>)
    ensures WritesCall(BrowserValue(b), b)
  {
    if b.Some? {
      var v := BrowserValue(b);
      UniquePlace(v.members, 0);
      UniquePlace(v.members, 1);
      assert v.members[0].key == "interrupt_id" && v.members[1].key == "objective";
    }
  }

  /** Every admitted turn, whatever its status and ending, is read back exactly from the value it is kept as. */
  lemma TurnRoundTrip(p: Protocol, v: Value)
    requires Idempotent(p) && ParseTurn(p, v).Some?
    ensures ParseTurn(p, TurnValue(ParseTurn(p, v).value)) == ParseTurn(p, v)
  {
    var t := ParseTurn(p, v).value;
    TurnExactly(p, v, t);
    TurnReadBack(p, t);
  }
}
