/**
 A chat turn's Brain exchange: the request context and its byte budget, and the closed turn answer with the value it
 is kept durably as.
 */
module Runtime {
  import opened Basics
  import opened Json
  import opened Serialization
  import opened ActionResult

  // ----- The request context ---------------------------------------------------------------------------------------

  const MAX_REQUEST_BYTES: nat := 4 * 1024 * 1024
  /** An interrupt id of at most 256 characters, its quotes, colon and comma, and the wrapper of a traced call. */
  const RESULT_KEY_BYTES: nat := 256 + 4 + |"{\"call\":\"c256\",\"result\":}"|

  datatype RuntimeAction = RuntimeAction(
    id: string, summary: string, inputSchema: Value, authorization: bool, inputFiles: seq<string>, outputSchema: Value)

  datatype RuntimeAssistant = RuntimeAssistant(id: string, genesis: string, actions: seq<RuntimeAction>)

  datatype Credential = Credential(provider: string, model: string, apiKey: string)

  datatype RuntimeContext = RuntimeContext(
    threadId: string, teamName: string, assistants: seq<RuntimeAssistant>, credential: Credential,
    memories: Option<seq<Value>>, routines: Option<seq<Value>>, routineQuestion: Option<Value>, routineMode: bool,
    routineRerun: Option<seq<Value>>, routineSchedule: Option<Value>, routineOutput: Option<string>,
    routineSettingsAnswer: bool, routineSelected: Option<Value>, attachments: seq<Value>, browser: bool)

  function Mapped<A, B>(f: A -> B, s: seq<A>): (r: seq<B>)
    ensures |r| == |s| && forall i :: 0 <= i < |s| ==> r[i] == f(s[i])
  {
    seq(|s|, i requires 0 <= i < |s| => f(s[i]))
  }

  function ActionWire(a: RuntimeAction): Value {
    Obj([Member("id", Str(a.id)), Member("summary", Str(a.summary)), Member("input_schema", a.inputSchema),
         Member("output_schema", a.outputSchema), Member("authorization", Bool(a.authorization)),
         Member("input_files", Arr(Mapped((s: string) => Str(s), a.inputFiles)))])
  }

  function AssistantWire(a: RuntimeAssistant): Value {
    Obj([Member("id", Str(a.id)), Member("genesis", Str(a.genesis)),
         Member("actions", Arr(Mapped(ActionWire, a.actions)))])
  }

  function OptionalList(o: Option<seq<Value>>): Value { if o.Some? then Arr(o.value) else Null }

  function Optional(o: Option<Value>): Value { if o.Some? then o.value else Null }

  function Body(c: RuntimeContext): (r: seq<Member>)
    ensures |r| == 14 && forall i :: 0 <= i < |r| ==> r[i].key != "provider"
  {
    [Member("thread_id", Str(c.threadId)), Member("team_name", Str(c.teamName)),
     Member("assistants", Arr(Mapped(AssistantWire, c.assistants))),
     Member("memories", OptionalList(c.memories)), Member("routines", OptionalList(c.routines)),
     Member("routine_question", Optional(c.routineQuestion)), Member("routine_mode", Bool(c.routineMode)),
     Member("routine_rerun", OptionalList(c.routineRerun)), Member("routine_schedule", Optional(c.routineSchedule)),
     Member("routine_output", if c.routineOutput.Some? then Str(c.routineOutput.value) else Null),
     Member("routine_settings_answer", Bool(c.routineSettingsAnswer)),
     Member("routine_selected", Optional(c.routineSelected)), Member("attachments", Arr(c.attachments)),
     Member("browser_available", Bool(c.browser))]
  }

  function CredentialWire(k: Credential): Value {
    Obj([Member("provider", Str(k.provider)), Member("model", Str(k.model)), Member("api_key", Str(k.apiKey))])
  }

  function WithoutProvider(members: seq<Member>): (r: seq<Member>)
    ensures (forall i :: 0 <= i < |members| ==> members[i].key != "provider") ==> r == members
  {
    if members == [] then []
    else (if members[0].key == "provider" then [] else [members[0]]) + WithoutProvider(members[1..])
  }

  /** The members of a request: the credential, then the context's own. */
  function WithCredential(body: Value, k: Credential): Value {
    if body.Obj? then Obj([Member("provider", CredentialWire(k))] + WithoutProvider(body.members)) else body
  }

  /** The resume request the Brain client sends. */
  function ResumeBody(c: RuntimeContext, results: Value): Value {
    WithCredential(Obj(Body(c) + [Member("results", results)]), c.credential)
  }

  /** The number of results of that size for which the request bound still leaves room. */
  function ResumeCapacity(c: RuntimeContext, resultBytes: nat): nat {
    var fixed := Bytes(Dumps(ResumeBody(c, Obj([])), false));
    (if fixed <= MAX_REQUEST_BYTES then MAX_REQUEST_BYTES - fixed else 0) / (resultBytes + RESULT_KEY_BYTES)
  }

  // ----- Every resume of an admitted batch fits --------------------------------------------------------------------

  predicate AsciiAlnum(c: char) { '0' <= c <= '9' || 'A' <= c <= 'Z' || 'a' <= c <= 'z' }

  /** One to 256 ASCII letters, digits and `._:/-`, the first a letter or digit: nothing JSON escapes. */
  predicate SafeId(s: string) {
    && 1 <= |s| <= 256
    && AsciiAlnum(s[0])
    && forall i :: 0 <= i < |s| ==> AsciiAlnum(s[i]) || s[i] in "._:/-"
  }

  const LETTERS := "abcdefghijklmnopqrstuvwxyz"
  const CAPITALS := "ABCDEFGHIJKLMNOPQRSTUVWXYZ"

  /** An identifier is safe exactly when it is one to 256 letters, digits and five marks, no mark first. */
  lemma SafeIdExactly(s: string)
    ensures SafeId(s) <==>
      && 1 <= |s| <= 256 && s[0] in LETTERS + CAPITALS + "0123456789"
      && forall i :: 0 <= i < |s| ==> s[i] in LETTERS + CAPITALS + "0123456789._:/-"
  {
    forall i | 0 <= i < |s|
      ensures AsciiAlnum(s[i]) <==> s[i] in LETTERS + CAPITALS + "0123456789"
      ensures AsciiAlnum(s[i]) || s[i] in "._:/-" <==> s[i] in LETTERS + CAPITALS + "0123456789._:/-"
    {
      AlnumExactly(s[i]);
      assert "0123456789._:/-" == "0123456789" + "._:/-";
    }
  }

  lemma AlnumExactly(c: char)
    ensures AsciiAlnum(c) <==> c in LETTERS || c in CAPITALS || c in "0123456789"
  {
    LetterExactly(c);
    CapitalExactly(c);
    DigitExactly(c);
  }

  lemma LetterExactly(c: char)
    ensures 'a' <= c <= 'z' <==> c in LETTERS
  {
    if 'a' <= c <= 'z' {
      assert LETTERS[c as int - 'a' as int] == c;
    }
  }

  lemma CapitalExactly(c: char)
    ensures 'A' <= c <= 'Z' <==> c in CAPITALS
  {
    if 'A' <= c <= 'Z' {
      assert CAPITALS[c as int - 'A' as int] == c;
    }
  }

  lemma DigitExactly(c: char)
    ensures '0' <= c <= '9' <==> c in "0123456789"
  {
    if '0' <= c <= '9' {
      assert "0123456789"[c as int - '0' as int] == c;
    }
  }

  /** The two forms a result takes in a resume: as it is, or in an object beside its handle `c{k}`. */
  ghost predicate Shown(shown: Value, result: Value) {
    || shown == result
    || exists k :: 1 <= k <= 256 && shown == Handled(k, result)
  }

  function Handled(k: nat, result: Value): Value {
    Obj([Member("call", Str("c" + Digits(k))), Member("result", result)])
  }

  lemma {:induction false} SafeBytes(s: string)
    requires forall i :: 0 <= i < |s| ==> AsciiAlnum(s[i]) || s[i] in "._:/-"
    ensures Bytes(EscapedAll(s)) == |s|
  {
    if s != [] {
      SafeBytes(s[1..]);
      assert Escaped(s[0]) == [s[0]];
      BytesConcat(Escaped(s[0]), EscapedAll(s[1..]));
    }
  }

  lemma QuotedBytes(s: string)
    requires forall i :: 0 <= i < |s| ==> AsciiAlnum(s[i]) || s[i] in "._:/-"
    ensures Bytes(Quoted(s)) == |s| + 2
  {
    SafeBytes(s);
    BytesConcat("\"" + EscapedAll(s), "\"");
    BytesConcat("\"", EscapedAll(s));
    assert Bytes("\"") == 1;
  }

  lemma HandleText(k: nat)
    requires 1 <= k <= 256
    ensures |Digits(k)| <= 3 && forall i :: 0 <= i < |Digits(k)| ==> '0' <= Digits(k)[i] <= '9'
  {
    assert k >= 10 ==> Digits(k) == Digits(k / 10) + ["0123456789"[k % 10]];
    if k >= 100 {
      assert Digits(k / 10) == Digits(k / 100) + ["0123456789"[k / 10 % 10]];
      assert Digits(k / 100) == ["0123456789"[k / 100]];
    } else if k >= 10 {
      assert Digits(k / 10) == ["0123456789"[k / 10]];
    }
  }

  /** A member whose key needs no escape: its key, quotes and colon, then its value. */
  lemma WrittenBytes(key: string, v: Value)
    requires forall i :: 0 <= i < |key| ==> AsciiAlnum(key[i]) || key[i] in "._:/-"
    ensures Bytes(Written(Member(key, v), false).text) == |key| + 3 + Bytes(Dumps(v, false))
  {
    QuotedBytes(key);
    BytesConcat(Quoted(key) + ":", Dumps(v, false));
    BytesConcat(Quoted(key), ":");
    assert Bytes(":") == 1;
  }

  lemma {:induction false} TwoMembers(a: Member, b: Member)
    ensures Bytes(Dumps(Obj([a, b]), false)) == 3 + Bytes(Written(a, false).text) + Bytes(Written(b, false).text)
  {
    ObjectBytes([a, b]);
    EntriesConcat([a], [b]);
    assert [a] + [b] == [a, b];
    OneEntry(a);
    OneEntry(b);
  }

  lemma {:induction false} OneEntry(m: Member)
    ensures Total(Texts(Entries([m], false))) == Bytes(Written(m, false).text)
  {
    assert Entries([m], false) == [Written(m, false)];
    assert Texts([Written(m, false)]) == [Written(m, false).text];
  }

  lemma {:induction false} HandledBytes(k: nat, result: Value)
    requires 1 <= k <= 256
    ensures Bytes(Dumps(Handled(k, result), false)) <= Bytes(Dumps(result, false)) + 25
  {
    HandleText(k);
    var handle := "c" + Digits(k);
    QuotedBytes(handle);
    assert Dumps(Str(handle), false) == Quoted(handle);
    WrittenBytes("call", Str(handle));
    WrittenBytes("result", result);
    TwoMembers(Member("call", Str(handle)), Member("result", result));
  }

  lemma {:induction false} ShownBytes(shown: Value, result: Value)
    requires Shown(shown, result)
    requires Bytes(Dumps(result, true)) <= MAX_RESULT_BYTES
    ensures Bytes(Dumps(shown, false)) <= MAX_RESULT_BYTES + 25
  {
    CanonicalLength(result);
    if shown != result {
      var k :| 1 <= k <= 256 && shown == Handled(k, result);
      HandledBytes(k, result);
    }
  }

  /** The results of one resume: one member per request, in order, each a kept result as the Brain is shown it. */
  ghost predicate ResumeResults(members: seq<Member>, results: seq<Value>) {
    |members| == |results| && forall i :: 0 <= i < |members| ==> ResumeResult(members[i], results[i])
  }

  ghost predicate ResumeResult(m: Member, result: Value) {
    SafeId(m.key) && Shown(m.value, result) && Durable(result)
  }

  /** One result's entry and its separator stay within its reserved share. */
  lemma {:induction false} ResultBytes(m: Member, result: Value)
    requires ResumeResult(m, result)
    ensures Bytes(Written(m, false).text) + 1 <= MAX_RESULT_BYTES + RESULT_KEY_BYTES
  {
    ShownBytes(m.value, result);
    WrittenBytes(m.key, m.value);
    assert RESULT_KEY_BYTES == 285;
  }

  lemma {:induction false} EntryAt(members: seq<Member>, i: nat)
    requires i < |members|
    ensures Entries(members, false)[i] == Written(members[i], false)
  {
    if i > 0 { EntryAt(members[1..], i - 1); }
  }

  lemma {:induction false} TotalBound(texts: seq<string>, each: nat)
    requires forall i :: 0 <= i < |texts| ==> Bytes(texts[i]) + 1 <= each
    ensures Total(texts) + |texts| <= |texts| * each
  {
    if texts != [] {
      TotalBound(texts[1..], each);
      assert |texts| * each == each + |texts[1..]| * each;
    }
  }

  lemma {:induction false} ResultsBytes(members: seq<Member>, results: seq<Value>, each: nat)
    requires ResumeResults(members, results)
    requires each == MAX_RESULT_BYTES + RESULT_KEY_BYTES
    ensures Total(Texts(Entries(members, false))) + |members| <= |members| * each
  {
    var texts := Texts(Entries(members, false));
    forall i | 0 <= i < |texts| ensures Bytes(texts[i]) + 1 <= each {
      EntryAt(members, i);
      ResultBytes(members[i], results[i]);
    }
    TotalBound(texts, each);
  }

  lemma {:induction false} LastMemberBytes(front: seq<Member>, a: Value, b: Value)
    ensures Bytes(Dumps(Obj(front + [Member("results", a)]), false)) + Bytes(Dumps(b, false))
         == Bytes(Dumps(Obj(front + [Member("results", b)]), false)) + Bytes(Dumps(a, false))
  {
    var x, y := Member("results", a), Member("results", b);
    ObjectBytes(front + [x]);
    ObjectBytes(front + [y]);
    EntriesConcat(front, [x]);
    EntriesConcat(front, [y]);
    OneEntry(x);
    OneEntry(y);
    WrittenBytes("results", a);
    WrittenBytes("results", b);
  }

  lemma ResumeShape(c: RuntimeContext, body: seq<Member>, results: Value)
    requires body == Body(c)
    ensures ResumeBody(c, results)
         == Obj([Member("provider", CredentialWire(c.credential))] + body + [Member("results", results)])
  {
    var members := body + [Member("results", results)];
    assert WithoutProvider(members) == members;
  }

  /** A resume carries the credential, everything the context holds, and the results, each under its wire name. */
  lemma {:induction false} ResumeCarries(c: RuntimeContext, results: Value)
    ensures ResumeBody(c, results) == Obj([Member("provider", CredentialWire(c.credential))] + [
      Member("thread_id", Str(c.threadId)), Member("team_name", Str(c.teamName)),
      Member("assistants", Arr(Mapped(AssistantWire, c.assistants))),
      Member("memories", if c.memories.Some? then Arr(c.memories.value) else Null),
      Member("routines", if c.routines.Some? then Arr(c.routines.value) else Null),
      Member("routine_question", if c.routineQuestion.Some? then c.routineQuestion.value else Null),
      Member("routine_mode", Bool(c.routineMode)),
      Member("routine_rerun", if c.routineRerun.Some? then Arr(c.routineRerun.value) else Null),
      Member("routine_schedule", if c.routineSchedule.Some? then c.routineSchedule.value else Null),
      Member("routine_output", if c.routineOutput.Some? then Str(c.routineOutput.value) else Null),
      Member("routine_settings_answer", Bool(c.routineSettingsAnswer)),
      Member("routine_selected", if c.routineSelected.Some? then c.routineSelected.value else Null),
      Member("attachments", Arr(c.attachments)), Member("browser_available", Bool(c.browser))]
      + [Member("results", results)])
  {
    ResumeShape(c, Body(c), results);
  }

  /** An Assistant goes whole, each part under its wire name. */
  lemma {:induction false} AssistantWhole(s: RuntimeAssistant)
    ensures
      var w := AssistantWire(s);
      && Get(w, "id") == Some(Str(s.id)) && Get(w, "genesis") == Some(Str(s.genesis))
      && Get(w, "actions").Some? && Get(w, "actions").value.Arr? && |Get(w, "actions").value.items| == |s.actions|
      && forall i :: 0 <= i < |s.actions| ==> Get(w, "actions").value.items[i] == ActionWire(s.actions[i])
  {
    var w := AssistantWire(s).members;
    OwnMembers(w);
    assert Own(w, 0) && Own(w, 1) && Own(w, 2);
  }

  /** An Action goes whole, each part under its wire name. */
  lemma {:induction false} ActionWhole(a: RuntimeAction)
    ensures
      var w := ActionWire(a);
      && Get(w, "id") == Some(Str(a.id)) && Get(w, "summary") == Some(Str(a.summary))
      && Get(w, "input_schema") == Some(a.inputSchema) && Get(w, "output_schema") == Some(a.outputSchema)
      && Get(w, "authorization") == Some(Bool(a.authorization))
      && Get(w, "input_files") == Some(Arr(Mapped((s: string) => Str(s), a.inputFiles)))
  {
    var w := ActionWire(a).members;
    OwnMembers(w);
    assert Own(w, 0) && Own(w, 1) && Own(w, 2);
    assert Own(w, 3) && Own(w, 4) && Own(w, 5);
  }

  lemma {:induction false} CredentialWhole(k: Credential)
    ensures
      var w := CredentialWire(k);
      && Get(w, "provider") == Some(Str(k.provider)) && Get(w, "model") == Some(Str(k.model))
      && Get(w, "api_key") == Some(Str(k.apiKey))
  {
    var w := CredentialWire(k).members;
    OwnMembers(w);
    assert Own(w, 0) && Own(w, 1) && Own(w, 2);
  }

  /** The member is the one its name finds. */
  ghost predicate Own(members: seq<Member>, i: nat)
    requires i < |members|
  {
    Get(Obj(members), members[i].key) == Some(members[i].value)
  }

  lemma {:induction false} OwnMembers(members: seq<Member>)
    requires UniqueKeys(members)
    ensures forall i :: 0 <= i < |members| ==> Own(members, i)
  {
  }

  lemma {:induction false} BodyBytes(c: RuntimeContext, results: Value)
    ensures Bytes(Dumps(ResumeBody(c, results), false)) + Bytes(Dumps(Obj([]), false))
         == Bytes(Dumps(ResumeBody(c, Obj([])), false)) + Bytes(Dumps(results, false))
  {
    var body := Body(c);
    ResumeShape(c, body, results);
    ResumeShape(c, body, Obj([]));
    LastMemberBytes([Member("provider", CredentialWire(c.credential))] + body, results, Obj([]));
  }

  /**
   A batch within `ResumeCapacity` always fits its one resume: the request written with every result, each at its
   durable bound and wrapped or not, is at most the Brain's request bound.
   */
  lemma {:induction false} ResumeFits(c: RuntimeContext, members: seq<Member>, results: seq<Value>)
    requires ResumeResults(members, results)
    requires 0 < |members| <= ResumeCapacity(c, MAX_RESULT_BYTES)
    ensures Bytes(Dumps(ResumeBody(c, Obj(members)), false)) <= 4_194_304
  {
    var fixed := Bytes(Dumps(ResumeBody(c, Obj([])), false));
    var each := MAX_RESULT_BYTES + RESULT_KEY_BYTES;
    var written := Bytes(Dumps(Obj(members), false));
    assert written <= 2 + |members| * each by {
      ResultsBytes(members, results, each);
      ObjectBytes(members);
    }
    assert Bytes(Dumps(ResumeBody(c, Obj(members)), false)) + 2 == fixed + written by {
      BodyBytes(c, Obj(members));
      ObjectBytes([]);
    }
    CapacityBound(MAX_REQUEST_BYTES, fixed, each, |members|);
  }

  /** The capacity is the most results whose shares, each a whole result, its key and its wrapper, fit beside the
      request without any. */
  lemma CapacityExactly(c: RuntimeContext, resultBytes: nat, n: nat)
    ensures n <= ResumeCapacity(c, resultBytes) <==>
      n == 0 || Bytes(Dumps(ResumeBody(c, Obj([])), false)) + n * (resultBytes + 285) <= 4194304
  {
    var fixed := Bytes(Dumps(ResumeBody(c, Obj([])), false));
    QuotientMost(if fixed <= 4194304 then 4194304 - fixed else 0, resultBytes + 285, n);
    assert fixed > 4194304 && n > 0 ==> n * (resultBytes + 285) >= 0;
  }

  lemma QuotientMost(whole: nat, each: nat, n: nat)
    requires each > 0
    ensures n <= whole / each <==> n * each <= whole
  {
    var q := whole / each;
    assert q * each <= whole < (q + 1) * each;
    if n <= q {
      assert n * each <= q * each;
    } else {
      assert n * each >= (q + 1) * each;
    }
  }

  lemma CapacityBound(bound: nat, fixed: nat, each: nat, count: nat)
    requires each > 0 && 0 < count <= (if fixed <= bound then bound - fixed else 0) / each
    ensures fixed + count * each <= bound
  {
    assert count * each <= (bound - fixed) / each * each <= bound - fixed;
  }
}
