/**
 JSON pointers (sections 3 and 4 of RFC 6901): writing a position's tokens, reading them back, and what a prefix of the
 text means about the tokens.
 */
module Pointers {
  import opened Basics

  const MAX_POINTER: nat := 256

  // ----- Tokens ----------------------------------------------------------------------------------------------------

  /** `text.replace(c, by)`. */
  function Replaced(s: string, c: char, text: string): string {
    if s == [] then [] else (if s[0] == c then text else [s[0]]) + Replaced(s[1..], c, text)
  }

  /** `text.replace("~d", c)`: every `~` followed by `d`, from the left. */
  function Unpaired(s: string, d: char, c: char): string {
    if |s| < 2 then s
    else if s[0] == '~' && s[1] == d then [c] + Unpaired(s[2..], d, c)
    else [s[0]] + Unpaired(s[1..], d, c)
  }

  function Escape(token: string): string { Replaced(Replaced(token, '~', "~0"), '/', "~1") }

  function Unescape(token: string): string { Unpaired(Unpaired(token, '1', '/'), '0', '~') }

  function EscapedChar(c: char): string { if c == '~' then "~0" else if c == '/' then "~1" else [c] }

  lemma {:induction false} ReplacedConcat(a: string, b: string, c: char, text: string)
    ensures Replaced(a + b, c, text) == Replaced(a, c, text) + Replaced(b, c, text)
    decreases |a|
  {
    if a == [] {
      assert a + b == b;
    } else {
      assert (a + b)[1..] == a[1..] + b;
      ReplacedConcat(a[1..], b, c, text);
    }
  }

  /** Escaping writes each character by itself. */
  lemma {:induction false} EscapeFirst(token: string)
    requires token != []
    ensures Escape(token) == EscapedChar(token[0]) + Escape(token[1..])
  {
    var first := if token[0] == '~' then "~0" else [token[0]];
    var rest := Replaced(token[1..], '~', "~0");
    assert Replaced(token, '~', "~0") == first + rest;
    ReplacedConcat(first, rest, '/', "~1");
    assert first[1..] == if token[0] == '~' then "0" else [];
    assert Replaced(first, '/', "~1") == EscapedChar(token[0]);
  }

  /** An escaped token holds no separator, and every `~` in it starts a pair. */
  lemma {:induction false} EscapeSafe(token: string)
    ensures '/' !in Escape(token) && Paired(Escape(token))
    decreases |token|
  {
    if token != [] {
      EscapeFirst(token);
      EscapeSafe(token[1..]);
      PairedConcat(EscapedChar(token[0]), Escape(token[1..]));
    }
  }

  /** Every `~` is followed by `0` or `1`. */
  predicate Paired(s: string) { forall i :: 0 <= i < |s| && s[i] == '~' ==> i + 1 < |s| && s[i + 1] in "01" }

  lemma PairedConcat(a: string, b: string)
    requires Paired(a) && Paired(b)
    ensures Paired(a + b)
  {
    var s := a + b;
    forall i | 0 <= i < |s| && s[i] == '~' ensures i + 1 < |s| && s[i + 1] in "01" {
      if i < |a| {
        assert a[i] == '~';
        assert s[i + 1] == a[i + 1];
      } else {
        assert b[i - |a|] == '~';
        assert s[i + 1] == b[i - |a| + 1];
      }
    }
  }

  /** The first pass of unescaping undoes the second of escaping. */
  lemma {:induction false} UnpairSlash(token: string)
    ensures Unpaired(Escape(token), '1', '/') == Replaced(token, '~', "~0")
    decreases |token|
  {
    if token != [] {
      EscapeFirst(token);
      UnpairSlash(token[1..]);
      var rest := Escape(token[1..]);
      var s := Escape(token);
      if token[0] == '~' {
        assert s == "~0" + rest && s[1..] == "0" + rest;
        Plain('0', rest, '1', '/');
        assert Unpaired(s, '1', '/') == "~" + Unpaired("0" + rest, '1', '/');
      } else if token[0] == '/' {
        assert s[2..] == rest;
      } else {
        assert s == [token[0]] + rest;
        Plain(token[0], rest, '1', '/');
      }
    }
  }

  /** A character that starts no pair is kept. */
  lemma Plain(first: char, rest: string, d: char, c: char)
    requires first != '~'
    ensures Unpaired([first] + rest, d, c) == [first] + Unpaired(rest, d, c)
  {
    assert ([first] + rest)[1..] == rest;
  }

  lemma {:induction false} UnpairTilde(token: string)
    ensures Unpaired(Replaced(token, '~', "~0"), '0', '~') == token
    decreases |token|
  {
    if token != [] {
      UnpairTilde(token[1..]);
      var rest := Replaced(token[1..], '~', "~0");
      var s := Replaced(token, '~', "~0");
      if token[0] == '~' {
        assert s[2..] == rest;
      } else {
        assert s == [token[0]] + rest;
        Plain(token[0], rest, '0', '~');
      }
    }
  }

  lemma UnescapeEscape(token: string)
    ensures Unescape(Escape(token)) == token
  {
    UnpairSlash(token);
    UnpairTilde(token);
  }

  // ----- Pointers --------------------------------------------------------------------------------------------------

  function Pointer(tokens: seq<string>): string {
    if tokens == [] then "" else "/" + Escape(tokens[0]) + Pointer(tokens[1..])
  }

  /** The text up to the first `/`, and each part after one. */
  function Split(s: string): (parts: seq<string>)
    ensures parts != []
  {
    if s == [] then [""]
    else
      var rest := Split(s[1..]);
      if s[0] == '/' then [""] + rest else [[s[0]] + rest[0]] + rest[1..]
  }

  function UnescapedAll(parts: seq<string>): (r: seq<string>)
    ensures |r| == |parts|
  {
    seq(|parts|, i requires 0 <= i < |parts| => Unescape(parts[i]))
  }

  /** The unescaped parts after each `/`. */
  function Parts(pointer: string): seq<string> {
    if pointer == "" then [] else UnescapedAll(Split(pointer[1..]))
  }

  /** Empty, or parts each after a `/`. */
  predicate PointerText(s: string) { s == "" || (s[0] == '/' && Paired(s)) }

  /** The tokens of a pointer within its bound. */
  function TokensOf(pointer: string): Option<seq<string>> {
    if |pointer| > MAX_POINTER || !PointerText(pointer) then None
    else Some(Parts(pointer))
  }

  lemma {:induction false} SplitPart(part: string, rest: string)
    requires '/' !in part && (rest == "" || rest[0] == '/')
    ensures Split(part + rest) == if rest == "" then [part] else [part] + Split(rest[1..])
    decreases |part|
  {
    if part == [] {
      assert part + rest == rest;
    } else {
      assert (part + rest)[1..] == part[1..] + rest;
      SplitPart(part[1..], rest);
      assert [part[0]] + part[1..] == part;
    }
  }

  /** One more part in front is one more token. */
  lemma {:induction false} PartFirst(part: string, token: string, rest: string)
    requires '/' !in part && Unescape(part) == token && (rest == "" || rest[0] == '/')
    ensures Parts("/" + part + rest) == [token] + Parts(rest)
  {
    assert ("/" + part + rest)[1..] == part + rest;
    SplitPart(part, rest);
    if rest == "" {
      assert UnescapedAll([part]) == [token];
    } else {
      UnescapedFirst(part, Split(rest[1..]));
    }
  }

  lemma {:induction false} UnescapedFirst(part: string, parts: seq<string>)
    ensures UnescapedAll([part] + parts) == [Unescape(part)] + UnescapedAll(parts)
  {
  }

  lemma {:induction false} PointerParts(tokens: seq<string>)
    ensures Parts(Pointer(tokens)) == tokens
    decreases |tokens|
  {
    if tokens != [] {
      var part, rest := Escape(tokens[0]), Pointer(tokens[1..]);
      assert '/' !in part && Unescape(part) == tokens[0] by {
        EscapeSafe(tokens[0]);
        UnescapeEscape(tokens[0]);
      }
      PartFirst(part, tokens[0], rest);
      PointerParts(tokens[1..]);
    }
  }

  lemma {:induction false} PointerWritten(tokens: seq<string>)
    ensures PointerText(Pointer(tokens)) && Paired(Pointer(tokens))
    decreases |tokens|
  {
    if tokens != [] {
      PointerWritten(tokens[1..]);
      EscapeSafe(tokens[0]);
      PairedConcat("/", Escape(tokens[0]));
      PairedConcat("/" + Escape(tokens[0]), Pointer(tokens[1..]));
    }
  }

  /** Reading a written pointer gives its tokens exactly when it is within its bound. */
  lemma PointerRoundTrip(tokens: seq<string>)
    ensures TokensOf(Pointer(tokens)) == if |Pointer(tokens)| <= 256 then Some(tokens) else None
  {
    PointerWritten(tokens);
    PointerParts(tokens);
  }

  /** Unescaping reads each pair and each other character by itself. */
  lemma {:induction false} UnescapeFirst(part: string)
    requires part != "" && Paired(part)
    ensures part[0] == '~' ==>
      && |part| >= 2 && part[1] in "01"
      && Unescape(part) == (if part[1] == '0' then "~" else "/") + Unescape(part[2..])
    ensures part[0] != '~' ==> Unescape(part) == [part[0]] + Unescape(part[1..])
  {
    if part[0] != '~' {
      assert part == [part[0]] + part[1..];
      Plain(part[0], part[1..], '1', '/');
      Plain(part[0], Unpaired(part[1..], '1', '/'), '0', '~');
    } else if part[1] == '1' {
      Plain('/', Unpaired(part[2..], '1', '/'), '0', '~');
    } else {
      var rest := part[2..];
      assert part[1..] == "0" + rest;
      Plain('0', rest, '1', '/');
      assert Unpaired(part, '1', '/') == "~" + ("0" + Unpaired(rest, '1', '/'));
      assert ("~" + ("0" + Unpaired(rest, '1', '/')))[2..] == Unpaired(rest, '1', '/');
    }
  }

  lemma {:induction false} EscapeUnescape(part: string)
    requires '/' !in part && Paired(part)
    ensures Escape(Unescape(part)) == part
    decreases |part|
  {
    if part != "" {
      UnescapeFirst(part);
      EscapeFirst(Unescape(part));
      if part[0] == '~' {
        EscapeUnescape(part[2..]);
        assert Unescape(part)[1..] == Unescape(part[2..]);
        assert part == [part[0], part[1]] + part[2..];
      } else {
        EscapeUnescape(part[1..]);
        assert Unescape(part)[1..] == Unescape(part[1..]);
        assert part == [part[0]] + part[1..];
      }
    }
  }

  /** Parts each after a `/`. */
  ghost function Slashed(parts: seq<string>): string {
    if parts == [] then "" else "/" + parts[0] + Slashed(parts[1..])
  }

  lemma {:induction false} SplitSlashed(s: string)
    ensures Slashed(Split(s)) == "/" + s
    ensures forall i :: 0 <= i < |Split(s)| ==> '/' !in Split(s)[i]
    decreases |s|
  {
    if s == "" {
      assert Slashed([""]) == "/" + "" + Slashed([""][1..]);
    } else {
      SplitSlashed(s[1..]);
      var rest := Split(s[1..]);
      if s[0] == '/' {
        assert Split(s)[1..] == rest;
        assert "/" + "" + ("/" + s[1..]) == "/" + s;
      } else {
        assert Split(s)[1..] == rest[1..];
        LongerPart(s[0], rest[0], Slashed(rest[1..]), s[1..]);
        assert s == [s[0]] + s[1..];
      }
    }
  }

  lemma LongerPart(c: char, part: string, after: string, s: string)
    requires "/" + part + after == "/" + s
    ensures "/" + ([c] + part) + after == "/" + ([c] + s)
  {
    assert part + after == ("/" + part + after)[1..] == s;
    assert [c] + part + after == [c] + (part + after);
  }

  /** Parts of a paired text are paired. */
  lemma {:induction false} SlashedPaired(parts: seq<string>)
    requires Paired(Slashed(parts)) && forall i :: 0 <= i < |parts| ==> '/' !in parts[i]
    ensures forall i :: 0 <= i < |parts| ==> Paired(parts[i])
    decreases |parts|
  {
    if parts != [] {
      var first, rest, all := parts[0], Slashed(parts[1..]), Slashed(parts);
      assert rest == "" || (rest[0] == '/' && all[1 + |first|] == '/');
      forall i | 0 <= i < |first| && first[i] == '~' ensures i + 1 < |first| && first[i + 1] in "01" {
        assert all[i + 1] == '~';
        assert i + 1 < |first| ==> all[i + 2] == first[i + 1];
      }
      forall i | 0 <= i < |rest| && rest[i] == '~' ensures i + 1 < |rest| && rest[i + 1] in "01" {
        assert all[1 + |first| + i] == '~';
        assert i + 1 < |rest| ==> all[2 + |first| + i] == rest[i + 1];
      }
      SlashedPaired(parts[1..]);
    }
  }

  lemma {:induction false} PointerSlashed(parts: seq<string>)
    requires forall i :: 0 <= i < |parts| ==> '/' !in parts[i] && Paired(parts[i])
    ensures Pointer(UnescapedAll(parts)) == Slashed(parts)
    decreases |parts|
  {
    if parts != [] {
      EscapeUnescape(parts[0]);
      PointerSlashed(parts[1..]);
      assert UnescapedAll(parts)[1..] == UnescapedAll(parts[1..]);
    }
  }

  /** A text has these tokens exactly when it is how they are written, within the bound. */
  lemma TokensExactly(s: string, tokens: seq<string>)
    ensures TokensOf(s) == Some(tokens) <==> s == Pointer(tokens) && |s| <= 256
  {
    if TokensOf(s) == Some(tokens) && s != "" {
      SplitSlashed(s[1..]);
      assert s == "/" + s[1..];
      SlashedPaired(Split(s[1..]));
      PointerSlashed(Split(s[1..]));
    }
    PointerRoundTrip(tokens);
  }

  // ----- Prefixes --------------------------------------------------------------------------------------------------

  /** The text of the pointer, or the text followed by a separator, starts the other. */
  predicate Within(outer: string, inner: string) { inner == outer || outer + "/" <= inner }

  /** Two texts without separators that agree up to a separator or the end are one. */
  lemma SamePart(a: string, rest: string, b: string, more: string)
    requires '/' !in a && '/' !in b && a + rest == b + more
    requires (rest == "" || rest[0] == '/') && (more == "" || more[0] == '/')
    ensures a == b && rest == more
  {
    assert a == (a + rest)[..|a|] && b == (b + more)[..|b|];
    assert rest == (a + rest)[|a|..] && more == (b + more)[|b|..];
  }

  /** One pointer is at or under another exactly when its tokens extend the other's. */
  lemma {:induction false} WithinMeans(outer: seq<string>, inner: seq<string>)
    ensures Within(Pointer(outer), Pointer(inner)) <==> outer <= inner
    decreases |outer|
  {
    if outer == [] {
      assert inner != [] ==> "" + "/" <= Pointer(inner);
    } else if inner == [] {
      assert Pointer(outer)[0] == '/';
    } else {
      WithinMeans(outer[1..], inner[1..]);
      WithinFirst(outer, inner);
      assert outer <= inner <==> outer[0] == inner[0] && outer[1..] <= inner[1..];
    }
  }

  lemma {:induction false} WithinFirst(outer: seq<string>, inner: seq<string>)
    requires outer != [] && inner != []
    ensures Within(Pointer(outer), Pointer(inner)) <==>
      outer[0] == inner[0] && Within(Pointer(outer[1..]), Pointer(inner[1..]))
  {
    var a, b := Escape(outer[0]), Escape(inner[0]);
    var rest, more := Pointer(outer[1..]), Pointer(inner[1..]);
    assert '/' !in a && '/' !in b && (a == b <==> outer[0] == inner[0]) by {
      EscapeSafe(outer[0]);
      EscapeSafe(inner[0]);
      UnescapeEscape(outer[0]);
      UnescapeEscape(inner[0]);
    }
    assert Pointer(outer) == "/" + (a + rest) && Pointer(inner) == "/" + (b + more);
    WithinParts(a, rest, b, more);
  }

  lemma WithinParts(a: string, rest: string, b: string, more: string)
    requires '/' !in a && '/' !in b
    requires (rest == "" || rest[0] == '/') && (more == "" || more[0] == '/')
    ensures Within("/" + (a + rest), "/" + (b + more)) <==> a == b && Within(rest, more)
  {
    var outer, inner := "/" + (a + rest), "/" + (b + more);
    if Within(outer, inner) {
      if inner == outer {
        assert outer[1..] == a + rest && inner[1..] == b + more;
        SamePart(a, rest, b, more);
      } else {
        var tail := inner[|outer| + 1..];
        assert inner == outer + "/" + tail;
        assert inner[1..] == a + (rest + "/" + tail) && inner[1..] == b + more;
        SamePart(a, rest + "/" + tail, b, more);
      }
    }
    if a == b && Within(rest, more) && more != rest {
      var tail := more[|rest| + 1..];
      assert more == rest + "/" + tail;
      assert inner == outer + "/" + tail;
    }
  }
}
