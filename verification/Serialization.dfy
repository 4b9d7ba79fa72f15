/**
 Python's compact `json.dumps` without `ensure_ascii`, in insertion order (a Brain request body) or with sorted keys
 (canonical JSON v1), and its length in UTF-8 bytes.
 */
module Serialization {
  import opened Json

  function Utf8Len(c: char): (n: nat)
    ensures 1 <= n <= 4
  {
    if c < 0x80 as char then 1 else if c < 0x800 as char then 2 else if c < 0x1_0000 as char then 3 else 4
  }

  /** How many bytes a text encodes to. */
  function Bytes(s: string): nat {
    if s == [] then 0 else Utf8Len(s[0]) + Bytes(s[1..])
  }

  lemma BytesConcat(a: string, b: string)
    ensures Bytes(a + b) == Bytes(a) + Bytes(b)
  {
    if a == [] {
      assert a + b == b;
    } else {
      assert (a + b)[1..] == a[1..] + b;
      BytesConcat(a[1..], b);
    }
  }

  const HEX := "0123456789abcdef"

  function Escaped(c: char): (s: string) {
    if c == '"' then "\\\""
    else if c == '\\' then "\\\\"
    else if c == '\n' then "\\n"
    else if c == '\r' then "\\r"
    else if c == '\t' then "\\t"
    else if c == 8 as char then "\\b"
    else if c == 12 as char then "\\f"
    else if c < ' ' then "\\u00" + [HEX[c as int / 16]] + [HEX[c as int % 16]]
    else [c]
  }

  function Quoted(s: string): string { "\"" + EscapedAll(s) + "\"" }

  function EscapedAll(s: string): string {
    if s == [] then "" else Escaped(s[0]) + EscapedAll(s[1..])
  }

  /** The decimal text of an integer. */
  function Decimal(n: int): string {
    if n < 0 then "-" + Digits(-n) else Digits(n)
  }

  function Digits(n: nat): (s: string)
    ensures |s| > 0
  {
    if n < 10 then ["0123456789"[n]] else Digits(n / 10) + ["0123456789"[n % 10]]
  }

  function NumberText(n: Number): string {
    match n
    case Int(i) => Decimal(i)
    case Float(_, repr) => repr
  }

  /** Code point order of two texts. */
  predicate TextLeq(a: string, b: string) {
    a == [] || (b != [] && (a[0] < b[0] || (a[0] == b[0] && TextLeq(a[1..], b[1..]))))
  }

  /** A written member: its key and its whole text. */
  datatype Entry = Entry(key: string, text: string)

  function Insert(e: Entry, sorted: seq<Entry>): seq<Entry> {
    if sorted == [] then [e]
    else if TextLeq(e.key, sorted[0].key) then [e] + sorted
    else [sorted[0]] + Insert(e, sorted[1..])
  }

  function Sorted(entries: seq<Entry>): seq<Entry> {
    if entries == [] then [] else Insert(entries[0], Sorted(entries[1..]))
  }

  function Joined(texts: seq<string>): string {
    if texts == [] then ""
    else if |texts| == 1 then texts[0]
    else texts[0] + "," + Joined(texts[1..])
  }

  function Texts(entries: seq<Entry>): (r: seq<string>)
    ensures |r| == |entries| && forall i :: 0 <= i < |r| ==> r[i] == entries[i].text
  {
    seq(|entries|, i requires 0 <= i < |entries| => entries[i].text)
  }

  /** The compact text of a value, its members in their own order or sorted by key. */
  function Dumps(v: Value, sortKeys: bool): string
    decreases v, 1
  {
    match v
    case Null => "null"
    case Bool(flag) => if flag then "true" else "false"
    case Num(n) => NumberText(n)
    case Str(s) => Quoted(s)
    case Arr(items) => "[" + Joined(Items(items, sortKeys)) + "]"
    case Obj(members) =>
      var entries := Entries(members, sortKeys);
      "{" + Joined(Texts(if sortKeys then Sorted(entries) else entries)) + "}"
  }

  function Items(items: seq<Value>, sortKeys: bool): (r: seq<string>)
    ensures |r| == |items|
    decreases items, 0
  {
    if items == [] then [] else [Dumps(items[0], sortKeys)] + Items(items[1..], sortKeys)
  }

  function Written(m: Member, sortKeys: bool): Entry
    decreases m, 2
  {
    Entry(m.key, Quoted(m.key) + ":" + Dumps(m.value, sortKeys))
  }

  function Entries(members: seq<Member>, sortKeys: bool): (r: seq<Entry>)
    ensures |r| == |members|
    decreases members, 0
  {
    if members == [] then [] else [Written(members[0], sortKeys)] + Entries(members[1..], sortKeys)
  }

  /** The summed bytes of texts, separators not counted. */
  function Total(texts: seq<string>): nat {
    if texts == [] then 0 else Bytes(texts[0]) + Total(texts[1..])
  }

  lemma {:induction false} JoinedBytes(texts: seq<string>)
    ensures Bytes(Joined(texts)) == Total(texts) + if texts == [] then 0 else |texts| - 1
  {
    if |texts| > 1 {
      JoinedBytes(texts[1..]);
      BytesConcat(texts[0] + ",", Joined(texts[1..]));
      BytesConcat(texts[0], ",");
      assert Bytes(",") == 1;
    }
  }

  lemma BracedBytes(open: string, texts: seq<string>, close: string)
    requires Bytes(open) == 1 && Bytes(close) == 1
    ensures Bytes(open + Joined(texts) + close) == 2 + Total(texts) + if texts == [] then 0 else |texts| - 1
  {
    JoinedBytes(texts);
    BytesConcat(open + Joined(texts), close);
    BytesConcat(open, Joined(texts));
  }

  lemma {:induction false} InsertTotal(e: Entry, sorted: seq<Entry>)
    ensures |Insert(e, sorted)| == |sorted| + 1
    ensures Total(Texts(Insert(e, sorted))) == Bytes(e.text) + Total(Texts(sorted))
  {
    if sorted == [] {
      assert Texts([e]) == [e.text];
    } else if TextLeq(e.key, sorted[0].key) {
      assert Texts([e] + sorted) == [e.text] + Texts(sorted);
    } else {
      InsertTotal(e, sorted[1..]);
      assert Texts([sorted[0]] + Insert(e, sorted[1..])) == [sorted[0].text] + Texts(Insert(e, sorted[1..]));
      assert Texts(sorted) == [sorted[0].text] + Texts(sorted[1..]);
    }
  }

  lemma {:induction false} SortedTotal(entries: seq<Entry>)
    ensures |Sorted(entries)| == |entries|
    ensures Total(Texts(Sorted(entries))) == Total(Texts(entries))
  {
    if entries != [] {
      SortedTotal(entries[1..]);
      InsertTotal(entries[0], Sorted(entries[1..]));
      assert Texts(entries) == [entries[0].text] + Texts(entries[1..]);
    }
  }

  /** Sorting keys moves text but never changes its length, at any depth: the canonical bound bounds the body too. */
  lemma {:induction false} CanonicalLength(v: Value)
    ensures Bytes(Dumps(v, true)) == Bytes(Dumps(v, false))
    decreases v, 1
  {
    match v
    case Arr(items) =>
      ItemsLength(items);
      BracedBytes("[", Items(items, true), "]");
      BracedBytes("[", Items(items, false), "]");
    case Obj(members) =>
      EntriesLength(members);
      SortedTotal(Entries(members, true));
      BracedBytes("{", Texts(Sorted(Entries(members, true))), "}");
      BracedBytes("{", Texts(Entries(members, false)), "}");
    case _ =>
  }

  lemma {:induction false} ItemsLength(items: seq<Value>)
    ensures Total(Items(items, true)) == Total(Items(items, false))
    decreases items, 0
  {
    if items != [] {
      CanonicalLength(items[0]);
      ItemsLength(items[1..]);
      assert Items(items, true)[1..] == Items(items[1..], true);
      assert Items(items, false)[1..] == Items(items[1..], false);
    }
  }

  lemma {:induction false} EntriesLength(members: seq<Member>)
    ensures Total(Texts(Entries(members, true))) == Total(Texts(Entries(members, false)))
    decreases members, 0
  {
    if members != [] {
      var m := members[0];
      CanonicalLength(m.value);
      BytesConcat(Quoted(m.key) + ":", Dumps(m.value, true));
      BytesConcat(Quoted(m.key) + ":", Dumps(m.value, false));
      EntriesLength(members[1..]);
      assert Texts(Entries(members, true))[1..] == Texts(Entries(members[1..], true));
      assert Texts(Entries(members, false))[1..] == Texts(Entries(members[1..], false));
    }
  }

  /** The exact length of an object written in insertion order. */
  lemma {:induction false} ObjectBytes(members: seq<Member>)
    ensures Bytes(Dumps(Obj(members), false))
         == 2 + Total(Texts(Entries(members, false))) + if members == [] then 0 else |members| - 1
  {
    var texts := Texts(Entries(members, false));
    BracedBytes("{", texts, "}");
    assert Dumps(Obj(members), false) == "{" + Joined(texts) + "}";
  }

  lemma {:induction false} EntriesConcat(a: seq<Member>, b: seq<Member>)
    ensures Entries(a + b, false) == Entries(a, false) + Entries(b, false)
    ensures Total(Texts(Entries(a + b, false))) == Total(Texts(Entries(a, false))) + Total(Texts(Entries(b, false)))
  {
    EntriesAppend(a, b);
    TotalsConcat(Entries(a, false), Entries(b, false));
  }

  lemma {:induction false} EntriesAppend(a: seq<Member>, b: seq<Member>)
    ensures Entries(a + b, false) == Entries(a, false) + Entries(b, false)
  {
    if a == [] {
      assert a + b == b;
    } else {
      assert (a + b)[0] == a[0] && (a + b)[1..] == a[1..] + b;
      EntriesAppend(a[1..], b);
    }
  }

  lemma {:induction false} TotalsConcat(a: seq<Entry>, b: seq<Entry>)
    ensures Total(Texts(a + b)) == Total(Texts(a)) + Total(Texts(b))
  {
    if a == [] {
      assert a + b == b;
    } else {
      TotalsConcat(a[1..], b);
      assert Texts(a + b)[1..] == Texts(a[1..] + b) && Texts(a)[1..] == Texts(a[1..]);
    }
  }
}
