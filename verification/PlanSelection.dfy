/**
 Reading references back from a result: by a pointer alone, or by a pointer inside the one array item that has a given
 member.
 */
module PlanSelection {
  import opened Basics
  import opened Json
  import opened Pointers
  import opened KeptValues

  datatype PlanError = ReferenceInvalid | ReferenceMissing | ReferenceAmbiguous

  /** The number a token stands for as an array index, if it is written the one way an index is. */
  function IndexToken(token: string): Option<nat> {
    if 1 <= |token| <= 9 && (forall i :: 0 <= i < |token| ==> '0' <= token[i] <= '9')
      && (token == "0" || token[0] != '0')
    then Parsed(token) else None
  }

  function SelectTokens(v: Value, tokens: seq<string>): Result<Value, PlanError>
    decreases |tokens|
  {
    if tokens == [] then Ok(v)
    else
      match v
      case Obj(_) =>
        if Get(v, tokens[0]).Some? then SelectTokens(Get(v, tokens[0]).value, tokens[1..]) else Err(ReferenceMissing)
      case Arr(items) =>
        var k := IndexToken(tokens[0]);
        if k.Some? && k.value < |items| then SelectTokens(items[k.value], tokens[1..]) else Err(ReferenceMissing)
      case _ => Err(ReferenceMissing)
  }

  function Select(v: Value, pointer: string): Result<Value, PlanError> {
    var tokens := TokensOf(pointer);
    if tokens.None? then Err(ReferenceInvalid) else SelectTokens(v, tokens.value)
  }

  /** Whether an array item is an object whose member is the constant. */
  predicate MatchesWhere(entry: Value, key: string, constant: Value) {
    Get(entry, key).Some? && Same(Get(entry, key).value, constant)
  }

  /** The items that match, in order. */
  function Matching(items: seq<Value>, key: string, constant: Value): seq<Value> {
    if items == [] then []
    else
      var rest := Matching(items[1..], key, constant);
      if MatchesWhere(items[0], key, constant) then [items[0]] + rest else rest
  }

  /** The value inside the one matching item. */
  function Picked(items: seq<Value>, key: string, constant: Value, item: string): Result<Value, PlanError> {
    var found := Matching(items, key, constant);
    if found == [] then Err(ReferenceMissing)
    else if |found| == 1 then Select(found[0], item)
    else Err(ReferenceAmbiguous)
  }

  predicate WhereShape(constant: Value) { constant.Str? || IsInteger(constant) }

  function SelectWhere(v: Value, pointer: string, key: string, constant: Value,
                       item: string): Result<Value, PlanError>
  {
    if TokensOf(pointer).None? || TokensOf(item).None? || !WhereShape(constant) then Err(ReferenceInvalid)
    else
      var list := Select(v, pointer);
      if list.Err? then list
      else if !list.value.Arr? then Err(ReferenceMissing)
      else Picked(list.value.items, key, constant, item)
  }

  /** A reference of a plan: a source call and what is selected from its result. */
  datatype Source = Source(node: nat, pointer: string, selector: Option<(string, Value)>, item: string)

  function Read(result: Value, s: Source): Result<Value, PlanError> {
    match s.selector
    case None => Select(result, s.pointer)
    case Some((key, constant)) => SelectWhere(result, s.pointer, key, constant, s.item)
  }

  // ----- Selecting by members --------------------------------------------------------------------------------------

  lemma {:induction false} SelectReached(v: Value, tokens: seq<string>)
    requires Reached(v, tokens).Some?
    ensures SelectTokens(v, tokens) == Ok(Reached(v, tokens).value)
    decreases |tokens|
  {
    if tokens != [] {
      SelectReached(Get(v, tokens[0]).value, tokens[1..]);
    }
  }

  /** A written pointer that reaches a node through members selects it exactly when it is within its bound. */
  lemma SelectWritten(v: Value, tokens: seq<string>)
    requires Reached(v, tokens).Some?
    ensures Select(v, Pointer(tokens)) ==
      if |Pointer(tokens)| <= MAX_POINTER then Ok(Reached(v, tokens).value) else Err(ReferenceInvalid)
  {
    PointerRoundTrip(tokens);
    SelectReached(v, tokens);
  }

  // ----- Selecting by a constant -----------------------------------------------------------------------------------

  lemma {:induction false} MatchingOne(items: seq<Value>, key: string, constant: Value, k: nat)
    requires k < |items| && MatchesWhere(items[k], key, constant)
    requires forall i :: 0 <= i < |items| && i != k ==> !MatchesWhere(items[i], key, constant)
    ensures Matching(items, key, constant) == [items[k]]
    decreases |items|
  {
    if k == 0 {
      MatchingNone(items[1..], key, constant);
    } else {
      MatchingOne(items[1..], key, constant, k - 1);
    }
  }

  lemma {:induction false} MatchingNone(items: seq<Value>, key: string, constant: Value)
    requires forall i :: 0 <= i < |items| ==> !MatchesWhere(items[i], key, constant)
    ensures Matching(items, key, constant) == []
    decreases |items|
  {
    if items != [] {
      MatchingNone(items[1..], key, constant);
    }
  }

  lemma {:induction false} MatchingCount(items: seq<Value>, key: string, constant: Value, v: Value)
    ensures multiset(Matching(items, key, constant))[v]
         == if MatchesWhere(v, key, constant) then multiset(items)[v] else 0
    decreases |items|
  {
    if items != [] {
      MatchingCount(items[1..], key, constant, v);
      assert items == [items[0]] + items[1..];
    }
  }

  /** A selection through one matching item does not depend on the order of the array. */
  lemma PickedReordered(items: seq<Value>, other: seq<Value>, key: string, constant: Value, item: string)
    requires multiset(items) == multiset(other) && |Matching(items, key, constant)| == 1
    ensures Matching(other, key, constant) == Matching(items, key, constant)
    ensures Picked(other, key, constant, item) == Picked(items, key, constant, item)
  {
    var found, again := Matching(items, key, constant), Matching(other, key, constant);
    forall v ensures multiset(found)[v] == multiset(again)[v] {
      MatchingCount(items, key, constant, v);
      MatchingCount(other, key, constant, v);
    }
    assert multiset(found) == multiset(again);
    assert |again| == |multiset(again)| == |multiset(found)| == 1;
    assert found[0] in multiset(again);
  }

  // ----- Exactly what is selected ----------------------------------------------------------------------------------

  lemma {:induction false} DigitsMany(k: nat, n: nat)
    requires n >= 1
    ensures |IndexText(k)| <= n <==> k < Tens(n)
    decreases n
  {
    if k >= 10 && n > 1 {
      DigitsMany(k / 10, n - 1);
    }
  }

  function Tens(n: nat): (r: nat)
    ensures r > 0 && (n > 0 ==> r >= 10)
  {
    if n == 0 then 1 else 10 * Tens(n - 1)
  }

  lemma {:induction false} IndexDigits(k: nat)
    ensures forall i :: 0 <= i < |IndexText(k)| ==> '0' <= IndexText(k)[i] <= '9'
    ensures k > 0 ==> IndexText(k)[0] != '0'
    decreases k
  {
    if k >= 10 {
      IndexDigits(k / 10);
    }
  }

  /** Digits without a leading zero are the text of their number. */
  lemma {:induction false} DigitsText(token: string)
    requires token != "" && (forall i :: 0 <= i < |token| ==> '0' <= token[i] <= '9')
    requires token == "0" || token[0] != '0'
    ensures Parsed(token).Some? && IndexText(Parsed(token).value) == token
    ensures token[0] != '0' ==> Parsed(token).value > 0
    decreases |token|
  {
    var n := |token| - 1;
    if n > 0 {
      assert token[0] != '0' && token[..n][0] == token[0];
      DigitsText(token[..n]);
      LastDigit(token[n]);
      NextDigit(Parsed(token[..n]).value, Digit(token[n]).value);
      assert token == token[..n] + [token[n]];
    } else {
      OneDigit(token[0]);
      assert token == [token[0]];
    }
  }

  lemma OneDigit(c: char)
    requires '0' <= c <= '9'
    ensures Parsed([c]).Some? && IndexText(Parsed([c]).value) == [c] && (c != '0' ==> Parsed([c]).value > 0)
  {
    LastDigit(c);
    assert [c][..0] == [];
  }

  lemma {:induction false} NextDigit(front: nat, d: nat)
    requires front > 0 && d < 10
    ensures IndexText(10 * front + d) == IndexText(front) + ["0123456789"[d]]
  {
    assert (10 * front + d) / 10 == front && (10 * front + d) % 10 == d;
  }

  lemma LastDigit(c: char)
    requires '0' <= c <= '9'
    ensures Digit(c).Some? && Digit(c).value < 10 && "0123456789"[Digit(c).value] == c
    ensures c != '0' ==> Digit(c).value > 0
  {
  }

  /** A token is an index exactly when it is how the index is written, below a billion. */
  lemma IndexExactly(token: string, k: nat)
    ensures IndexToken(token) == Some(k) <==> token == IndexText(k) && k < 1_000_000_000
  {
    if IndexToken(token) == Some(k) {
      DigitsText(token);
    }
    ParsedIndex(k);
    IndexDigits(k);
    DigitsMany(k, 9);
    assert Tens(9) == 1_000_000_000 by { assert Tens(3) == 1000; assert Tens(6) == 1_000_000; }
  }

  /** The tokens lead to the node: through members by name, through items by how their index is written. */
  ghost predicate Follows(v: Value, tokens: seq<string>, node: Value)
    decreases |tokens|
  {
    if tokens == [] then node == v
    else if v.Obj? then Get(v, tokens[0]).Some? && Follows(Get(v, tokens[0]).value, tokens[1..], node)
    else
      && v.Arr?
      && exists k :: 0 <= k < |v.items| && k < 1_000_000_000 && tokens[0] == IndexText(k) &&
           Follows(v.items[k], tokens[1..], node)
  }

  lemma {:induction false} FollowsExactly(v: Value, tokens: seq<string>, node: Value)
    ensures SelectTokens(v, tokens) == Ok(node) <==> Follows(v, tokens, node)
    ensures SelectTokens(v, tokens).Err? ==> SelectTokens(v, tokens) == Err(ReferenceMissing)
    decreases |tokens|
  {
    if tokens != [] {
      if Get(v, tokens[0]).Some? {
        FollowsExactly(Get(v, tokens[0]).value, tokens[1..], node);
      } else if v.Arr? {
        var k := IndexToken(tokens[0]);
        if k.Some? && k.value < |v.items| {
          IndexExactly(tokens[0], k.value);
          FollowsExactly(v.items[k.value], tokens[1..], node);
        }
        forall i | 0 <= i < |v.items| && i < 1_000_000_000 && tokens[0] == IndexText(i) ensures k == Some(i) {
          IndexExactly(tokens[0], i);
        }
      }
    }
  }

  /** A pointer selects a node exactly when it is how tokens that lead to it are written, within the bound; it is
      invalid exactly when it is how no tokens are. */
  lemma SelectExactly(v: Value, pointer: string, node: Value)
    ensures Select(v, pointer) == Ok(node) <==>
      exists tokens :: pointer == Pointer(tokens) && |pointer| <= 256 && Follows(v, tokens, node)
    ensures Select(v, pointer) == Err(ReferenceInvalid) <==>
      |pointer| > 256 || !exists tokens :: pointer == Pointer(tokens)
  {
    if TokensOf(pointer).Some? {
      var tokens := TokensOf(pointer).value;
      TokensExactly(pointer, tokens);
      FollowsExactly(v, tokens, node);
      forall other | pointer == Pointer(other) ensures other == tokens {
        TokensExactly(pointer, other);
      }
    } else if |pointer| <= 256 {
      forall tokens ensures pointer != Pointer(tokens) {
        TokensExactly(pointer, tokens);
      }
    }
  }

  /** Exactly one item matches, or none does, or several do. */
  lemma {:induction false} PickedExactly(items: seq<Value>, key: string, constant: Value, item: string)
    ensures (forall i :: 0 <= i < |items| ==> !MatchesWhere(items[i], key, constant)) <==>
      Matching(items, key, constant) == []
    ensures forall i :: MatchesOnly(items, key, constant, i) ==>
      Picked(items, key, constant, item) == Select(items[i], item)
    ensures (exists i, j :: 0 <= i < j < |items| && MatchesWhere(items[i], key, constant)
                            && MatchesWhere(items[j], key, constant)) ==>
      Picked(items, key, constant, item) == Err(ReferenceAmbiguous)
  {
    MatchingCounts(items, key, constant);
  }

  ghost predicate MatchesOnly(items: seq<Value>, key: string, constant: Value, i: int) {
    && 0 <= i < |items| && MatchesWhere(items[i], key, constant)
    && forall j :: 0 <= j < |items| && MatchesWhere(items[j], key, constant) ==> j == i
  }

  lemma {:induction false} MatchingCounts(items: seq<Value>, key: string, constant: Value)
    ensures (forall i :: 0 <= i < |items| ==> !MatchesWhere(items[i], key, constant)) <==>
      Matching(items, key, constant) == []
    ensures forall i :: MatchesOnly(items, key, constant, i) ==> Matching(items, key, constant) == [items[i]]
    ensures (exists i, j :: 0 <= i < j < |items| && MatchesWhere(items[i], key, constant)
                            && MatchesWhere(items[j], key, constant)) ==>
      |Matching(items, key, constant)| > 1
    decreases |items|
  {
    if items != [] {
      MatchingCounts(items[1..], key, constant);
      assert forall i :: 0 < i < |items| ==> items[i] == items[1..][i - 1];
      forall i | MatchesOnly(items, key, constant, i) ensures Matching(items, key, constant) == [items[i]] {
        if i > 0 {
          assert MatchesOnly(items[1..], key, constant, i - 1);
        }
      }
    }
  }
}
