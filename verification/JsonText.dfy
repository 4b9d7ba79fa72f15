/**
 What a written JSON text means: a reader of the grammar of RFC 8259, sections 2 to 7, over compact texts.  Every text
 the writer makes reads back as exactly the value it was made from, so two values with one text are one value; with
 sorted keys it is the text of the same value, its members in key order at every depth.
 */
module JsonText {
  import opened Basics
  import opened Json
  import opened Serialization
  import opened TextOrder
  import KeptValues

  /** What a text says: a number is its own text. */
  datatype Tree = TNull | TBool(flag: bool) | TNum(text: string) | TStr(text: string) | TArr(items: seq<Tree>)
                | TObj(members: seq<(string, Tree)>)

  // ----- Texts -----------------------------------------------------------------------------------------------------

  function HexDigit(c: char): Option<nat> {
    if '0' <= c <= '9' then Some((c - '0') as nat)
    else if 'a' <= c <= 'f' then Some((c - 'a') as nat + 10)
    else if 'A' <= c <= 'F' then Some((c - 'A') as nat + 10)
    else None
  }

  /** The character of four hexadecimal digits, unless they are half of a surrogate pair. */
  function Unit(s: string): Option<char>
    requires |s| == 4
  {
    var a, b, c, d := HexDigit(s[0]), HexDigit(s[1]), HexDigit(s[2]), HexDigit(s[3]);
    if a.None? || b.None? || c.None? || d.None? then None
    else
      var code := ((a.value * 16 + b.value) * 16 + c.value) * 16 + d.value;
      if code < 0xd800 then Some(code as char) else None
  }

  /** One character of a string and what follows it. */
  function ReadChar(s: string): (r: Option<(char, string)>)
    requires s != ""
    ensures r.Some? ==> |r.value.1| < |s|
  {
    if s[0] < ' ' || s[0] == '"' then None
    else if s[0] != '\\' then Some((s[0], s[1..]))
    else if |s| < 2 then None
    else if s[1] == '"' || s[1] == '\\' || s[1] == '/' then Some((s[1], s[2..]))
    else if s[1] == 'n' then Some(('\n', s[2..]))
    else if s[1] == 'r' then Some(('\r', s[2..]))
    else if s[1] == 't' then Some(('\t', s[2..]))
    else if s[1] == 'b' then Some((8 as char, s[2..]))
    else if s[1] == 'f' then Some((12 as char, s[2..]))
    else if s[1] == 'u' && |s| >= 6 && Unit(s[2..6]).Some? then Some((Unit(s[2..6]).value, s[6..]))
    else None
  }

  /** The rest of a string after its opening quote, and what follows the closing one. */
  function ReadText(s: string): (r: Option<(string, string)>)
    ensures r.Some? ==> |r.value.1| < |s|
    decreases |s|
  {
    if s == "" then None
    else if s[0] == '"' then Some(("", s[1..]))
    else
      var first :- ReadChar(s);
      var rest :- ReadText(first.1);
      Some(([first.0] + rest.0, rest.1))
  }

  lemma {:induction false} EscapeReadBack(c: char, rest: string)
    ensures Escaped(c) + rest != "" && (Escaped(c) + rest)[0] != '"'
    ensures ReadChar(Escaped(c) + rest) == Some((c, rest))
  {
    var s := Escaped(c) + rest;
    if c < ' ' && c !in {'\n', '\r', '\t', 8 as char, 12 as char} {
      ControlReadBack(c, rest);
    } else {
      assert s[|Escaped(c)|..] == rest;
    }
  }

  lemma {:induction false} ControlReadBack(c: char, rest: string)
    requires c < ' ' && c !in {'\n', '\r', '\t', 8 as char, 12 as char}
    ensures ReadChar(Escaped(c) + rest) == Some((c, rest))
  {
    var s := Escaped(c) + rest;
    var high, low := c as int / 16, c as int % 16;
    HexReadBack(high);
    HexReadBack(low);
    assert s[2..6] == ['0', '0', HEX[high], HEX[low]];
    assert s[6..] == rest;
  }

  lemma {:induction false} HexReadBack(d: nat)
    requires d < 16
    ensures HexDigit(HEX[d]) == Some(d)
  {
  }

  /** A character is escaped in two characters where there is a short form, in lower-case hexadecimal digits when it is
      another control character, and not at all otherwise. */
  lemma {:induction false} EscapeForm(c: char)
    ensures |Escaped(c)| == if c in {'"', '\\', '\n', '\r', '\t', 8 as char, 12 as char} then 2
                            else if c < ' ' then 6 else 1
    ensures |Escaped(c)| == 6 ==> forall i :: 2 <= i < 6 ==> '0' <= Escaped(c)[i] <= '9' || 'a' <= Escaped(c)[i] <= 'f'
  {
    if |Escaped(c)| == 6 {
      LowerHex(c as int / 16);
      LowerHex(c as int % 16);
    }
  }

  lemma {:induction false} LowerHex(d: nat)
    requires d < 16
    ensures '0' <= HEX[d] <= '9' || 'a' <= HEX[d] <= 'f'
  {
  }

  /** Every text reads back from its quoted form. */
  lemma {:induction false} TextReadBack(s: string, rest: string)
    ensures ReadText(EscapedAll(s) + ("\"" + rest)) == Some((s, rest))
    decreases |s|
  {
    if s == "" {
      assert EscapedAll(s) + ("\"" + rest) == "\"" + rest;
    } else {
      var after := EscapedAll(s[1..]) + ("\"" + rest);
      assert EscapedAll(s) + ("\"" + rest) == Escaped(s[0]) + after;
      EscapeReadBack(s[0], after);
      TextReadBack(s[1..], rest);
      assert s == [s[0]] + s[1..];
    }
  }

  // ----- Numbers ---------------------------------------------------------------------------------------------------

  predicate NumberChar(c: char) { c in "0123456789+-.eE" }

  function NumberLength(s: string): (n: nat)
    ensures n <= |s|
  {
    if s == "" || !NumberChar(s[0]) then 0 else 1 + NumberLength(s[1..])
  }

  lemma {:induction false} NumberReadBack(text: string, rest: string)
    requires (forall i :: 0 <= i < |text| ==> NumberChar(text[i])) && (rest == "" || !NumberChar(rest[0]))
    ensures NumberLength(text + rest) == |text|
    decreases |text|
  {
    if text == "" {
      assert text + rest == rest;
    } else {
      assert (text + rest)[1..] == text[1..] + rest;
      NumberReadBack(text[1..], rest);
    }
  }

  /** Digits, none of them a leading zero. */
  lemma {:induction false} DigitsPlain(n: nat)
    ensures forall i :: 0 <= i < |Digits(n)| ==> '0' <= Digits(n)[i] <= '9'
    ensures Digits(n) != "" && (n > 0 ==> Digits(n)[0] != '0') && (n == 0 ==> Digits(n) == "0")
    decreases n
  {
    if n >= 10 {
      DigitsPlain(n / 10);
    }
  }

  lemma {:induction false} DecimalPlain(n: int)
    ensures Decimal(n) != "" && forall i :: 0 <= i < |Decimal(n)| ==> NumberChar(Decimal(n)[i])
  {
    var digits := Digits(if n < 0 then -n else n);
    DigitsPlain(if n < 0 then -n else n);
    forall i | 0 <= i < |digits| ensures NumberChar(digits[i]) {
      DigitChar(digits[i]);
    }
  }

  lemma DigitChar(c: char)
    requires '0' <= c <= '9'
    ensures NumberChar(c)
  {
  }

  /** The whole number of a text. */
  function ReadInteger(s: string): Option<int> {
    if s != "" && s[0] == '-' then
      var n :- KeptValues.Parsed(s[1..]);
      Some((n as int) * -1)
    else
      var n :- KeptValues.Parsed(s);
      Some(n as int)
  }

  lemma {:induction false} NaturalReadBack(n: nat)
    ensures ReadInteger(Digits(n)) == Some(n)
  {
    KeptValues.ParsedIndex(n);
    DigitsPlain(n);
  }

  lemma {:induction false} NegativeReadBack(n: nat)
    ensures ReadInteger("-" + Digits(n)) == Some(0 - n as int)
  {
    KeptValues.ParsedIndex(n);
    assert ("-" + Digits(n))[1..] == Digits(n);
  }

  /** An integer is written with a sign exactly when it is negative, and without leading zeros. */
  lemma {:induction false} DecimalForm(n: int)
    ensures Decimal(n) != "" && (Decimal(n)[0] == '-' <==> n < 0)
    ensures n > 0 ==> Decimal(n)[0] != '0'
    ensures n < 0 ==> |Decimal(n)| > 1 && Decimal(n)[1] != '0'
    ensures n == 0 ==> Decimal(n) == "0"
  {
    DigitsPlain(if n < 0 then -n else n);
    if n < 0 {
      assert Decimal(n)[1] == Digits(-n)[0];
    } else {
      assert '0' <= Digits(n)[0] <= '9';
    }
  }

  lemma {:induction false} IntegerReadBack(n: int)
    ensures ReadInteger(Decimal(n)) == Some(n)
  {
    if n < 0 {
      NegativeReadBack(-n);
    } else {
      NaturalReadBack(n);
    }
  }

  // ----- Values ----------------------------------------------------------------------------------------------------

  predicate StartsWith(s: string, word: string) { |word| <= |s| && s[..|word|] == word }

  function ReadValue(s: string): (r: Option<(Tree, string)>)
    ensures r.Some? ==> |r.value.1| < |s|
    decreases |s|, 1
  {
    if s == "" then None
    else if StartsWith(s, "null") then Some((TNull, s[4..]))
    else if StartsWith(s, "true") then Some((TBool(true), s[4..]))
    else if StartsWith(s, "false") then Some((TBool(false), s[5..]))
    else if s[0] == '"' then
      var text :- ReadText(s[1..]);
      Some((TStr(text.0), text.1))
    else if s[0] == '[' then
      if StartsWith(s, "[]") then Some((TArr([]), s[2..]))
      else
        var items :- ReadItems(s[1..]);
        Some((TArr(items.0), items.1))
    else if s[0] == '{' then
      if StartsWith(s, "{}") then Some((TObj([]), s[2..]))
      else
        var members :- ReadMembers(s[1..]);
        Some((TObj(members.0), members.1))
    else
      var n := NumberLength(s);
      if n == 0 then None else Some((TNum(s[..n]), s[n..]))
  }

  /** Items up to the closing bracket, and what follows it. */
  function ReadItems(s: string): (r: Option<(seq<Tree>, string)>)
    ensures r.Some? ==> |r.value.1| < |s|
    decreases |s|, 2
  {
    var first :- ReadValue(s);
    if StartsWith(first.1, "]") then Some(([first.0], first.1[1..]))
    else if StartsWith(first.1, ",") then
      var later :- ReadItems(first.1[1..]);
      Some(([first.0] + later.0, later.1))
    else None
  }

  /** Members up to the closing brace, and what follows it. */
  function ReadMembers(s: string): (r: Option<(seq<(string, Tree)>, string)>)
    ensures r.Some? ==> |r.value.1| < |s|
    decreases |s|, 2
  {
    if !StartsWith(s, "\"") then None
    else
      var key :- ReadText(s[1..]);
      if !StartsWith(key.1, ":") then None
      else
        var value :- ReadValue(key.1[1..]);
        if StartsWith(value.1, "}") then Some(([(key.0, value.0)], value.1[1..]))
        else if StartsWith(value.1, ",") then
          var later :- ReadMembers(value.1[1..]);
          Some(([(key.0, value.0)] + later.0, later.1))
        else None
  }

  // ----- The round trip --------------------------------------------------------------------------------------------

  /** Every float in the value is written with number characters, as a finite one is. */
  predicate Plain(v: Value) {
    match v
    case Num(Float(_, repr)) => repr != "" && forall i :: 0 <= i < |repr| ==> NumberChar(repr[i])
    case Arr(items) => forall i :: 0 <= i < |items| ==> Plain(items[i])
    case Obj(members) => forall i :: 0 <= i < |members| ==> Plain(members[i].value)
    case _ => true
  }

  /** The value with each number as its text. */
  function Shape(v: Value): Tree {
    match v
    case Null => TNull
    case Bool(flag) => TBool(flag)
    case Num(n) => TNum(NumberText(n))
    case Str(s) => TStr(s)
    case Arr(items) => TArr(seq(|items|, i requires 0 <= i < |items| => Shape(items[i])))
    case Obj(members) =>
      TObj(seq(|members|, i requires 0 <= i < |members| => (members[i].key, Shape(members[i].value))))
  }

  ghost predicate Ends(rest: string) { rest == "" || rest[0] in ",]}" }

  lemma {:induction false} NumberTextPlain(n: Number)
    requires Plain(Num(n))
    ensures NumberText(n) != "" && forall i :: 0 <= i < |NumberText(n)| ==> NumberChar(NumberText(n)[i])
  {
    if n.Int? {
      DecimalPlain(n.whole);
    }
  }

  lemma {:induction false} ReadNumber(s: string)
    requires s != "" && NumberChar(s[0])
    ensures ReadValue(s) == Some((TNum(s[..NumberLength(s)]), s[NumberLength(s)..]))
  {
  }

  lemma {:induction false} ReadQuoted(s: string)
    requires s != "" && s[0] == '"' && ReadText(s[1..]).Some?
    ensures ReadValue(s) == Some((TStr(ReadText(s[1..]).value.0), ReadText(s[1..]).value.1))
  {
  }

  lemma {:induction false} ReadArray(s: string)
    requires |s| >= 2 && s[0] == '[' && s[1] != ']' && ReadItems(s[1..]).Some?
    ensures ReadValue(s) == Some((TArr(ReadItems(s[1..]).value.0), ReadItems(s[1..]).value.1))
  {
  }

  lemma {:induction false} ReadObject(s: string)
    requires |s| >= 2 && s[0] == '{' && s[1] != '}' && ReadMembers(s[1..]).Some?
    ensures ReadValue(s) == Some((TObj(ReadMembers(s[1..]).value.0), ReadMembers(s[1..]).value.1))
  {
  }

  /** A word of the grammar and what follows it. */
  lemma {:induction false} ReadWord(word: string, rest: string)
    requires word in {"null", "true", "false", "[]", "{}"}
    ensures ReadValue(word + rest)
      == Some((if word == "null" then TNull else if word == "true" then TBool(true)
               else if word == "false" then TBool(false) else if word == "[]" then TArr([]) else TObj([]), rest))
  {
    var s := word + rest;
    assert s[0] == word[0] && s[..|word|] == word && s[|word|..] == rest;
    assert StartsWith(s, "null") ==> s[..4][0] == 'n';
    assert StartsWith(s, "true") ==> s[..4][0] == 't';
    assert StartsWith(s, "false") ==> s[..5][0] == 'f';
  }

  /** Every value reads back from its text, whatever may follow. */
  lemma {:induction false} ValueReadBack(v: Value, rest: string)
    requires Plain(v) && Ends(rest)
    ensures ReadValue(Dumps(v, false) + rest) == Some((Shape(v), rest))
    decreases v, 3
  {
    match v
    case Null => ReadWord("null", rest);
    case Bool(flag) => ReadWord(if flag then "true" else "false", rest);
    case Num(n) => NumberValue(n, rest);
    case Str(text) => StringValue(text, rest);
    case Arr(items) => ArrayReadBack(items, rest);
    case Obj(members) => ObjectReadBack(members, rest);
  }

  lemma {:induction false} StringValue(text: string, rest: string)
    ensures ReadValue(Quoted(text) + rest) == Some((TStr(text), rest))
  {
    TextReadBack(text, rest);
    QuotedParts(EscapedAll(text), rest);
    ReadQuoted(Quoted(text) + rest);
  }

  lemma QuotedParts(inner: string, rest: string)
    ensures
      var s := "\"" + inner + "\"" + rest;
      s[0] == '"' && s[1..] == inner + ("\"" + rest)
  {
  }

  lemma {:induction false} NumberValue(n: Number, rest: string)
    requires Plain(Num(n)) && Ends(rest)
    ensures ReadValue(NumberText(n) + rest) == Some((TNum(NumberText(n)), rest))
  {
    var text := NumberText(n);
    NumberTextPlain(n);
    NumberReadBack(text, rest);
    assert (text + rest)[0] == text[0];
    ReadNumber(text + rest);
    assert (text + rest)[..|text|] == text && (text + rest)[|text|..] == rest;
  }

  lemma {:induction false} ArrayReadBack(items: seq<Value>, rest: string)
    requires Plain(Arr(items)) && Ends(rest)
    ensures ReadValue(Dumps(Arr(items), false) + rest) == Some((Shape(Arr(items)), rest))
    decreases items, 2
  {
    if items == [] {
      assert Dumps(Arr(items), false) == "[]" && Shape(Arr(items)).items == [];
      ReadWord("[]", rest);
    } else {
      var inner := Joined(Items(items, false)) + ("]" + rest);
      var s := Dumps(Arr(items), false) + rest;
      assert s == "[" + inner;
      assert s[1..] == inner;
      ItemsReadBack(items, rest);
      ItemsStart(items, "]" + rest);
      ReadArray(s);
    }
  }

  /** A written value does not start with a bracket or brace that closes. */
  lemma {:induction false} ValueStart(v: Value)
    requires Plain(v)
    ensures Dumps(v, false) != "" && Dumps(v, false)[0] !in "]},:"
  {
    if v.Num? {
      NumberTextPlain(v.number);
      assert NumberChar(Dumps(v, false)[0]);
    }
  }

  lemma {:induction false} ItemsStart(items: seq<Value>, rest: string)
    requires items != [] && Plain(Arr(items))
    ensures var s := "[" + (Joined(Items(items, false)) + rest); |s| >= 2 && s[1] != ']'
  {
    ValueStart(items[0]);
    assert Items(items, false)[0] == Dumps(items[0], false);
  }

  /** What items up to the closing bracket read as, from what the first does. */
  lemma {:induction false} ReadFirstItem(s: string, item: Tree, rest: string)
    requires ReadValue(s) == Some((item, rest))
    ensures StartsWith(rest, "]") ==> ReadItems(s) == Some(([item], rest[1..]))
    ensures !StartsWith(rest, "]") && StartsWith(rest, ",") ==>
      var later := ReadItems(rest[1..]);
      ReadItems(s) == if later.None? then None else Some(([item] + later.value.0, later.value.1))
  {
  }

  lemma {:induction false} ItemsReadBack(items: seq<Value>, rest: string)
    requires items != [] && Plain(Arr(items))
    ensures ReadItems(Joined(Items(items, false)) + ("]" + rest)) == Some((Shape(Arr(items)).items, rest))
    decreases items, 1
  {
    var first, later := items[0], items[1..];
    ItemsJoined(items, rest);
    ItemsShape(items);
    assert Plain(first) && forall i :: 0 <= i < |later| ==> later[i] == items[i + 1];
    if later == [] {
      ValueReadBack(first, "]" + rest);
      ReadFirstItem(Dumps(first, false) + ("]" + rest), Shape(first), "]" + rest);
      Separated("]", rest);
    } else {
      var after := Joined(Items(later, false)) + ("]" + rest);
      ValueReadBack(first, "," + after);
      ReadFirstItem(Dumps(first, false) + ("," + after), Shape(first), "," + after);
      Separated(",", after);
      ItemsReadBack(later, rest);
    }
  }

  /** A separator and what follows it. */
  lemma Separated(mark: string, rest: string)
    requires |mark| == 1
    ensures (mark + rest)[1..] == rest && (mark + rest)[..1] == mark
  {
  }

  lemma {:induction false} ItemsJoined(items: seq<Value>, rest: string)
    requires items != []
    ensures
      var later := items[1..];
      var after := Joined(Items(later, false)) + ("]" + rest);
      Joined(Items(items, false)) + ("]" + rest)
      == Dumps(items[0], false) + if later == [] then "]" + rest else "," + after
  {
    var texts := Items(items, false);
    assert texts[1..] == Items(items[1..], false);
    Appended(texts, "]" + rest);
  }

  /** Joined texts and what follows them, the first taken out. */
  lemma {:induction false} Appended(texts: seq<string>, rest: string)
    requires texts != []
    ensures Joined(texts) + rest == texts[0] + if |texts| == 1 then rest else "," + (Joined(texts[1..]) + rest)
  {
    if |texts| > 1 {
      assert texts[0] + "," + Joined(texts[1..]) + rest == texts[0] + ("," + (Joined(texts[1..]) + rest));
    }
  }

  lemma {:induction false} ItemsShape(items: seq<Value>)
    requires items != []
    ensures Shape(Arr(items)).items == [Shape(items[0])] + Shape(Arr(items[1..])).items
    ensures |items| == 1 ==> Shape(Arr(items)).items == [Shape(items[0])]
  {
  }

  lemma {:induction false} ObjectReadBack(members: seq<Member>, rest: string)
    requires Plain(Obj(members)) && Ends(rest)
    ensures ReadValue(Dumps(Obj(members), false) + rest) == Some((Shape(Obj(members)), rest))
    decreases members, 2
  {
    if members == [] {
      assert Dumps(Obj(members), false) == "{}" && Shape(Obj(members)).members == [];
      ReadWord("{}", rest);
    } else {
      var inner := Joined(Texts(Entries(members, false))) + ("}" + rest);
      var s := Dumps(Obj(members), false) + rest;
      assert s == "{" + inner;
      assert s[1..] == inner;
      MembersReadBack(members, rest);
      MembersStart(members, "}" + rest);
      ReadObject(s);
    }
  }

  lemma {:induction false} MembersStart(members: seq<Member>, rest: string)
    requires members != []
    ensures var s := "{" + (Joined(Texts(Entries(members, false))) + rest); |s| >= 2 && s[1] == '"'
  {
    assert Entries(members, false)[0] == Written(members[0], false);
    assert Joined(Texts(Entries(members, false)))[0] == '"';
  }

  /** What members up to the closing brace read as, from what the first does. */
  lemma {:induction false} ReadFirstMember(s: string, key: string, value: Tree, rest: string)
    requires StartsMember(s, key, value, rest)
    ensures StartsWith(rest, "}") ==> ReadMembers(s) == Some(([(key, value)], rest[1..]))
    ensures !StartsWith(rest, "}") && StartsWith(rest, ",") ==>
      var later := ReadMembers(rest[1..]);
      ReadMembers(s) == if later.None? then None else Some(([(key, value)] + later.value.0, later.value.1))
  {
  }

  /** The text starts with this member. */
  ghost predicate StartsMember(s: string, key: string, value: Tree, rest: string) {
    && StartsWith(s, "\"") && ReadText(s[1..]).Some? && ReadText(s[1..]).value.0 == key
    && StartsWith(ReadText(s[1..]).value.1, ":")
    && ReadValue(ReadText(s[1..]).value.1[1..]) == Some((value, rest))
  }

  lemma {:induction false} MembersReadBack(members: seq<Member>, rest: string)
    requires members != [] && Plain(Obj(members))
    ensures ReadMembers(Joined(Texts(Entries(members, false))) + ("}" + rest))
      == Some((Shape(Obj(members)).members, rest))
    decreases members, 1
  {
    var first, later := members[0], members[1..];
    MembersJoined(members, rest);
    MembersShape(members);
    assert Plain(first.value) && forall i :: 0 <= i < |later| ==> later[i] == members[i + 1];
    if later == [] {
      MemberReadBack(first, "}" + rest);
      ReadFirstMember(Written(first, false).text + ("}" + rest), first.key, Shape(first.value), "}" + rest);
      Separated("}", rest);
    } else {
      var after := Joined(Texts(Entries(later, false))) + ("}" + rest);
      MemberReadBack(first, "," + after);
      ReadFirstMember(Written(first, false).text + ("," + after), first.key, Shape(first.value), "," + after);
      Separated(",", after);
      MembersReadBack(later, rest);
    }
  }

  lemma {:induction false} MembersJoined(members: seq<Member>, rest: string)
    requires members != []
    ensures
      var later := members[1..];
      var after := Joined(Texts(Entries(later, false))) + ("}" + rest);
      Joined(Texts(Entries(members, false))) + ("}" + rest)
      == Written(members[0], false).text + if later == [] then "}" + rest else "," + after
  {
    var texts := Texts(Entries(members, false));
    assert texts[0] == Written(members[0], false).text && texts[1..] == Texts(Entries(members[1..], false));
    Appended(texts, "}" + rest);
  }

  lemma {:induction false} MembersShape(members: seq<Member>)
    requires members != []
    ensures Shape(Obj(members)).members
      == [(members[0].key, Shape(members[0].value))] + Shape(Obj(members[1..])).members
    ensures |members| == 1 ==> Shape(Obj(members)).members == [(members[0].key, Shape(members[0].value))]
  {
  }

  /** A member's key, colon and value, and what follows. */
  lemma {:induction false} MemberReadBack(m: Member, rest: string)
    requires Plain(m.value) && Ends(rest)
    ensures StartsMember(Written(m, false).text + rest, m.key, Shape(m.value), rest)
    decreases m, 4
  {
    ValueReadBack(m.value, rest);
    MemberStarts(m.key, Dumps(m.value, false), Shape(m.value), rest);
  }

  lemma {:induction false} MemberStarts(key: string, written: string, value: Tree, rest: string)
    requires ReadValue(written + rest) == Some((value, rest))
    ensures StartsMember(Quoted(key) + ":" + written + rest, key, value, rest)
  {
    var after := ":" + (written + rest);
    TextReadBack(key, after);
    QuotedParts(EscapedAll(key), after);
    ColonParts(Quoted(key), written, rest);
  }

  lemma ColonParts(key: string, written: string, rest: string)
    ensures key + ":" + written + rest == key + (":" + (written + rest))
    ensures (":" + (written + rest))[1..] == written + rest && StartsWith(":" + (written + rest), ":")
  {
  }

  /** A written text says exactly the value it was made from. */
  lemma {:induction false} DumpsReadBack(v: Value)
    requires Plain(v)
    ensures ReadValue(Dumps(v, false)) == Some((Shape(v), ""))
  {
    ValueReadBack(v, "");
    assert Dumps(v, false) + "" == Dumps(v, false);
  }

  /** Two values with one text say the same. */
  lemma OneText(v: Value, w: Value)
    requires Plain(v) && Plain(w) && Dumps(v, false) == Dumps(w, false)
    ensures Shape(v) == Shape(w)
  {
    DumpsReadBack(v);
    DumpsReadBack(w);
  }

  // ----- Canonical texts -------------------------------------------------------------------------------------------

  function InsertMember(m: Member, sorted: seq<Member>): seq<Member> {
    if sorted == [] || TextLeq(m.key, sorted[0].key) then [m] + sorted else [sorted[0]] + InsertMember(m, sorted[1..])
  }

  function SortMembers(members: seq<Member>): seq<Member> {
    if members == [] then [] else InsertMember(members[0], SortMembers(members[1..]))
  }

  /** The value with the members of every object in key order. */
  function Canonical(v: Value): Value
    decreases v, 1
  {
    match v
    case Arr(items) => Arr(CanonicalItems(items))
    case Obj(members) => Obj(SortMembers(CanonicalMembers(members)))
    case _ => v
  }

  function CanonicalItems(items: seq<Value>): seq<Value>
    decreases items, 0
  {
    if items == [] then [] else [Canonical(items[0])] + CanonicalItems(items[1..])
  }

  function CanonicalMembers(members: seq<Member>): seq<Member>
    decreases members, 0
  {
    if members == [] then []
    else
      assert members[0].value < members[0];
      [Member(members[0].key, Canonical(members[0].value))] + CanonicalMembers(members[1..])
  }

  ghost predicate Ascending(members: seq<Member>) {
    forall i, j :: 0 <= i < j < |members| ==> TextLeq(members[i].key, members[j].key)
  }

  lemma {:induction false} InsertHolds(m: Member, sorted: seq<Member>)
    ensures multiset(InsertMember(m, sorted)) == multiset(sorted) + multiset{m}
    decreases |sorted|
  {
    if sorted != [] && !TextLeq(m.key, sorted[0].key) {
      InsertHolds(m, sorted[1..]);
      assert sorted == [sorted[0]] + sorted[1..];
    }
  }

  lemma {:induction false} InsertAscending(m: Member, sorted: seq<Member>)
    requires Ascending(sorted)
    ensures Ascending(InsertMember(m, sorted))
    decreases |sorted|
  {
    if sorted == [] {
    } else if TextLeq(m.key, sorted[0].key) {
      forall j | 0 <= j < |sorted| ensures TextLeq(m.key, sorted[j].key) {
        if j > 0 {
          TextTransitive(m.key, sorted[0].key, sorted[j].key);
        }
      }
    } else {
      TextTotal(m.key, sorted[0].key);
      InsertAscending(m, sorted[1..]);
      InsertHolds(m, sorted[1..]);
      var rest := InsertMember(m, sorted[1..]);
      forall j | 0 <= j < |rest| ensures TextLeq(sorted[0].key, rest[j].key) {
        assert rest[j] in multiset(sorted[1..]) + multiset{m};
        if rest[j] != m {
          var k :| 0 <= k < |sorted[1..]| && sorted[1..][k] == rest[j];
        }
      }
    }
  }

  /** Sorting keeps the members and puts them in key order. */
  lemma {:induction false} SortedMembers(members: seq<Member>)
    ensures multiset(SortMembers(members)) == multiset(members) && Ascending(SortMembers(members))
    decreases |members|
  {
    if members != [] {
      SortedMembers(members[1..]);
      InsertHolds(members[0], SortMembers(members[1..]));
      InsertAscending(members[0], SortMembers(members[1..]));
      assert members == [members[0]] + members[1..];
    }
  }

  lemma {:induction false} InsertSame(m: Member, members: seq<Member>)
    ensures Insert(Written(m, false), Entries(members, false)) == Entries(InsertMember(m, members), false)
    decreases |members|
  {
    if members == [] || TextLeq(m.key, members[0].key) {
      assert ([m] + members)[1..] == members;
    } else {
      InsertSame(m, members[1..]);
      assert ([members[0]] + InsertMember(m, members[1..]))[1..] == InsertMember(m, members[1..]);
      assert Entries(members, false)[1..] == Entries(members[1..], false);
    }
  }

  lemma {:induction false} SortSame(members: seq<Member>)
    ensures Sorted(Entries(members, false)) == Entries(SortMembers(members), false)
    decreases |members|
  {
    if members != [] {
      SortSame(members[1..]);
      assert Entries(members, false)[1..] == Entries(members[1..], false);
      InsertSame(members[0], SortMembers(members[1..]));
    }
  }

  /** The text with sorted keys is the text of the value in key order. */
  lemma {:induction false} CanonicalText(v: Value)
    ensures Dumps(v, true) == Dumps(Canonical(v), false)
    decreases v, 1
  {
    match v
    case Arr(items) => CanonicalItemTexts(items);
    case Obj(members) =>
      CanonicalEntries(members);
      SortSame(CanonicalMembers(members));
    case _ =>
  }

  lemma {:induction false} CanonicalItemTexts(items: seq<Value>)
    ensures Items(items, true) == Items(CanonicalItems(items), false)
    decreases items, 0
  {
    if items != [] {
      CanonicalText(items[0]);
      CanonicalItemTexts(items[1..]);
      assert CanonicalItems(items)[1..] == CanonicalItems(items[1..]);
    }
  }

  lemma {:induction false} CanonicalEntries(members: seq<Member>)
    ensures Entries(members, true) == Entries(CanonicalMembers(members), false)
    decreases members, 0
  {
    if members != [] {
      CanonicalText(members[0].value);
      CanonicalEntries(members[1..]);
      assert CanonicalMembers(members)[1..] == CanonicalMembers(members[1..]);
    }
  }

  lemma {:induction false} CanonicalPlain(v: Value)
    requires Plain(v)
    ensures Plain(Canonical(v))
    decreases v, 1
  {
    match v
    case Arr(items) => CanonicalItemsPlain(items);
    case Obj(members) =>
      CanonicalMembersPlain(members);
      SortedMembers(CanonicalMembers(members));
      forall i | 0 <= i < |SortMembers(CanonicalMembers(members))|
        ensures Plain(SortMembers(CanonicalMembers(members))[i].value)
      {
        assert SortMembers(CanonicalMembers(members))[i] in multiset(CanonicalMembers(members));
      }
    case _ =>
  }

  lemma {:induction false} CanonicalItemsPlain(items: seq<Value>)
    requires forall i :: 0 <= i < |items| ==> Plain(items[i])
    ensures forall i :: 0 <= i < |CanonicalItems(items)| ==> Plain(CanonicalItems(items)[i])
    decreases items, 0
  {
    if items != [] {
      CanonicalPlain(items[0]);
      CanonicalItemsPlain(items[1..]);
    }
  }

  lemma {:induction false} CanonicalMembersPlain(members: seq<Member>)
    requires forall i :: 0 <= i < |members| ==> Plain(members[i].value)
    ensures forall m :: m in CanonicalMembers(members) ==> Plain(m.value)
    decreases members, 0
  {
    if members != [] {
      CanonicalPlain(members[0].value);
      CanonicalMembersPlain(members[1..]);
    }
  }

  /** A canonical text says exactly the value it was made from, its members in key order. */
  lemma CanonicalReadBack(v: Value)
    requires Plain(v)
    ensures ReadValue(Dumps(v, true)) == Some((Shape(Canonical(v)), ""))
  {
    CanonicalText(v);
    CanonicalPlain(v);
    DumpsReadBack(Canonical(v));
  }

  // ----- Bytes -----------------------------------------------------------------------------------------------------

  /** The UTF-8 bytes of a character, as section 3 of RFC 3629 lays out its bits. */
  function Encoded(c: char): (r: seq<nat>)
    ensures forall i :: 0 <= i < |r| ==> r[i] < 256
  {
    var n := c as int;
    if n < 0x80 then [n]
    else if n < 0x800 then [0xc0 + n / 64, 0x80 + n % 64]
    else if n < 0x1_0000 then [0xe0 + n / 64 / 64, 0x80 + n / 64 % 64, 0x80 + n % 64]
    else [0xf0 + n / 64 / 64 / 64, 0x80 + n / 64 / 64 % 64, 0x80 + n / 64 % 64, 0x80 + n % 64]
  }

  /** The code point of the first character of a byte string, by its first byte. */
  function Decoded(s: seq<nat>): Option<nat> {
    if s == [] then None
    else if s[0] < 0x80 then Some(s[0])
    else if 0xc0 <= s[0] < 0xe0 && |s| >= 2 && s[1] >= 0x80 then Some((s[0] - 0xc0) * 64 + (s[1] - 0x80))
    else if 0xe0 <= s[0] < 0xf0 && |s| >= 3 && s[1] >= 0x80 && s[2] >= 0x80 then
      Some(((s[0] - 0xe0) * 64 + (s[1] - 0x80)) * 64 + (s[2] - 0x80))
    else if 0xf0 <= s[0] && |s| >= 4 && s[1] >= 0x80 && s[2] >= 0x80 && s[3] >= 0x80 then
      Some((((s[0] - 0xf0) * 64 + (s[1] - 0x80)) * 64 + (s[2] - 0x80)) * 64 + (s[3] - 0x80))
    else None
  }

  /** The length counted for a character is that of its bytes, which say which character it is. */
  lemma EncodedExactly(c: char)
    ensures |Encoded(c)| == Utf8Len(c) && Decoded(Encoded(c)) == Some(c as int)
  {
    var n := c as int;
    SixBits(n);
    SixBits(n / 64);
    SixBits(n / 64 / 64);
  }

  lemma SixBits(n: nat)
    ensures n == n / 64 * 64 + n % 64 && n % 64 < 64
  {
  }

  function EncodedAll(s: string): seq<nat> { if s == "" then [] else Encoded(s[0]) + EncodedAll(s[1..]) }

  /** The bytes counted for a text are those of its UTF-8 form. */
  lemma {:induction false} BytesExactly(s: string)
    ensures Bytes(s) == |EncodedAll(s)|
    decreases |s|
  {
    if s != "" {
      EncodedExactly(s[0]);
      BytesExactly(s[1..]);
    }
  }
}
