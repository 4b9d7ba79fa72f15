/**
 Archives written part by part, extended headers included, and what the byte reader makes of them: the records of an
 extended header as they were written, and the members with the names and sizes the parts before them gave.
 */
module ArchiveParts {
  import opened Basics
  import opened Archive

  // ----- Decimal numbers -------------------------------------------------------------------------------------------

  function Decimal(n: nat): (r: Bytes)
    ensures r != [] && forall i :: 0 <= i < |r| ==> 48 <= r[i] < 58
  {
    if n < 10 then [48 + n] else Decimal(n / 10) + [48 + n % 10]
  }

  lemma {:induction false} DecimalValue(n: nat)
    ensures DigitsValue(Decimal(n), 10) == Some(n)
    decreases n
  {
    var s := Decimal(n);
    if n < 10 {
      assert s[..0] == [];
    } else {
      DecimalValue(n / 10);
      assert s[..|s| - 1] == Decimal(n / 10);
    }
  }

  lemma DecimalParsed(n: nat)
    ensures Parsed(Decimal(n), 10) == Word(n)
  {
    DecimalValue(n);
  }

  function Pow10(k: nat): (r: nat)
    ensures r > 0
  {
    if k == 0 then 1 else 10 * Pow10(k - 1)
  }

  /** A number below a power of ten and not below the one before has that many digits. */
  lemma {:induction false} DecimalLength(n: nat, k: nat)
    requires k >= 1 && n < Pow10(k) && (k == 1 || Pow10(k - 1) <= n)
    ensures |Decimal(n)| == k
    decreases k
  {
    if k > 1 {
      if k == 2 {
        assert Pow10(1) == 10 && Pow10(2) == 100;
      }
      TenthLength(n, k);
      DecimalLength(n / 10, k - 1);
    }
  }

  lemma TenthLength(n: nat, k: nat)
    requires k > 1 && Pow10(k - 1) <= n < Pow10(k)
    ensures n >= 10 && n / 10 < Pow10(k - 1) && (k == 2 || Pow10(k - 2) <= n / 10)
  {
    assert Pow10(k) == 10 * Pow10(k - 1) && Pow10(k - 1) == 10 * Pow10(k - 2);
  }

  lemma {:induction false} DecimalRange(n: nat) returns (k: nat)
    ensures k == |Decimal(n)| >= 1 && n < Pow10(k) && (k == 1 || Pow10(k - 1) <= n)
    decreases n
  {
    if n < 10 {
      k := 1;
      assert Pow10(1) == 10 * Pow10(0);
    } else {
      k := DecimalRange(n / 10);
      k := k + 1;
      assert Pow10(k) == 10 * Pow10(k - 1);
      if k > 2 {
        assert Pow10(k - 1) == 10 * Pow10(k - 2);
      } else {
        assert Pow10(1) == 10 * Pow10(0);
      }
    }
  }

  lemma {:induction false} PowerGrows(k: nat)
    ensures k + 1 <= 9 * Pow10(k)
  {
    if k > 0 {
      PowerGrows(k - 1);
    }
  }

  /** Any payload has a length that counts its own digits. */
  lemma CountsItself(payload: nat) returns (length: nat)
    ensures length == payload + |Decimal(length)|
  {
    var k := DecimalRange(payload);
    PowerGrows(k);
    assert Pow10(k + 1) == 10 * Pow10(k);
    if payload + k < Pow10(k) {
      length := payload + k;
      DecimalLength(length, k);
    } else {
      length := payload + k + 1;
      DecimalLength(length, k + 1);
    }
  }

  // ----- Records ---------------------------------------------------------------------------------------------------

  datatype Record = Record(key: Bytes, value: Bytes)

  /** The bytes are one record, whose length counts itself. */
  ghost predicate IsRecord(bytes: Bytes, r: Record) {
    bytes == Decimal(|bytes|) + [32] + r.key + [61] + r.value + [10] && |bytes| < USIZE && 61 !in r.key
  }

  /** A record without `=` in its key can be written. */
  lemma RecordWritten(r: Record) returns (bytes: Bytes)
    requires 61 !in r.key && |r.key| + |r.value| < USIZE / 2
    ensures IsRecord(bytes, r)
  {
    var length := CountsItself(|r.key| + |r.value| + 3);
    var k := DecimalRange(length);
    bytes := Decimal(length) + [32] + r.key + [61] + r.value + [10];
    assert |bytes| == length;
    ShortLength(length, k, |r.key| + |r.value| + 3);
  }

  lemma ShortLength(length: nat, k: nat, payload: nat)
    requires length == payload + k && payload < USIZE / 2 + 3 && k >= 1 && (k == 1 || Pow10(k - 1) <= length)
    ensures length < USIZE
  {
    if k > 1 {
      PowerGrows(k - 1);
      PowerFast(k - 1);
    }
  }

  lemma {:induction false} PowerFast(k: nat)
    requires k >= 1
    ensures 5 * k + 5 <= Pow10(k)
  {
    if k == 1 {
      assert Pow10(1) == 10 * Pow10(0);
    } else {
      PowerFast(k - 1);
    }
  }

  lemma {:induction false} FirstAt(s: Bytes, b: Byte, rest: Bytes)
    requires b !in s && rest != [] && rest[0] == b
    ensures IndexOf(s + rest, b) == |s|
  {
    if s == [] {
      assert s + rest == rest;
    } else {
      assert (s + rest)[1..] == s[1..] + rest;
      FirstAt(s[1..], b, rest);
    }
  }

  /** The record may stand: a path is text, a size a number. */
  ghost predicate Admitted(utf8: Utf8, r: Record) {
    (r.key == [112, 97, 116, 104] ==> utf8(r.value)) && (r.key == [115, 105, 122, 101] ==> Parsed(r.value, 10).Some?)
  }

  /** What one record overrides. */
  ghost function Over(o: Overrides, r: Record): Overrides {
    if r.key == [112, 97, 116, 104] then Overrides(Some(r.value), o.size)
    else if r.key == [115, 105, 122, 101] then Overrides(o.path, Parsed(r.value, 10))
    else o
  }

  /** The reader takes a written record apart. */
  lemma RecordParts(bytes: Bytes, r: Record, rest: Bytes)
    requires IsRecord(bytes, r)
    ensures
      var data, space := bytes + rest, |Decimal(|bytes|)|;
      && IndexOf(data, SPACE) == space < |data| && data[..space] == Decimal(|bytes|) && space + 1 <= |bytes|
      && data[space + 1..|bytes|] == r.key + [61] + r.value + [10]
      && data[|bytes|..] == rest
  {
    var digits, line := Decimal(|bytes|), r.key + [61] + r.value + [10];
    assert bytes == digits + [32] + line;
    ThreeParts(digits, line, rest);
    FirstAt(digits, SPACE, [32] + line + rest);
  }

  lemma ThreeParts(digits: Bytes, line: Bytes, rest: Bytes)
    ensures
      var data := digits + [32] + line + rest;
      && data == digits + ([32] + line + rest) && data[..|digits|] == digits
      && data[|digits| + 1..|digits| + 1 + |line|] == line && data[|digits| + 1 + |line|..] == rest
  {
  }

  lemma LineParts(r: Record)
    requires 61 !in r.key
    ensures
      var line := r.key + [61] + r.value + [10];
      var record := line[..|line| - 1];
      && line[|line| - 1] == NEWLINE && IndexOf(record, EQUALS) == |r.key| < |record|
      && record[..|r.key|] == r.key && record[|r.key| + 1..] == r.value
  {
    var line := r.key + [61] + r.value + [10];
    assert line[..|line| - 1] == r.key + ([61] + r.value);
    FirstAt(r.key, EQUALS, [61] + r.value);
  }

  /** A written record is read back, whatever follows it. */
  lemma {:induction false} RecordReadBack(utf8: Utf8, bytes: Bytes, r: Record, rest: Bytes, o: Overrides)
    requires IsRecord(bytes, r)
    ensures PaxRecord(utf8, bytes + rest, o) == if Admitted(utf8, r) then Some((|bytes|, Over(o, r))) else None
  {
    RecordParts(bytes, r, rest);
    DecimalParsed(|bytes|);
    LineParts(r);
  }

  ghost function Joined(parts: seq<Bytes>): Bytes { if parts == [] then [] else parts[0] + Joined(parts[1..]) }

  ghost predicate AreRecords(written: seq<Bytes>, records: seq<Record>) {
    |written| == |records| && forall i :: 0 <= i < |records| ==> IsRecord(written[i], records[i])
  }

  ghost function OverAll(o: Overrides, records: seq<Record>): Overrides
    decreases |records|
  {
    if records == [] then o else OverAll(Over(o, records[0]), records[1..])
  }

  /** Written records are read exactly when each may stand, and override what they say in order. */
  lemma {:induction false} PaxReads(utf8: Utf8, written: seq<Bytes>, records: seq<Record>, o: Overrides)
    requires AreRecords(written, records)
    ensures Pax(utf8, Joined(written), o)
      == if forall i :: 0 <= i < |records| ==> Admitted(utf8, records[i]) then Some(OverAll(o, records)) else None
    decreases |records|
  {
    if records != [] {
      var bytes, r, rest := written[0], records[0], Joined(written[1..]);
      RecordReadBack(utf8, bytes, r, rest, o);
      assert (bytes + rest)[|bytes|..] == rest;
      PaxReads(utf8, written[1..], records[1..], Over(o, r));
      assert forall i :: 0 < i < |records| ==> records[i] == records[1..][i - 1];
    }
  }

  /** The last record of a key. */
  ghost predicate LastOf(records: seq<Record>, key: Bytes, i: int) {
    0 <= i < |records| && records[i].key == key && forall j :: i < j < |records| ==> records[j].key != key
  }

  /** An extended header's path and size are the last ones written, or those before it; other keys change nothing. */
  lemma {:induction false} PaxReadBack(utf8: Utf8, written: seq<Bytes>, records: seq<Record>, o: Overrides)
    requires AreRecords(written, records)
    ensures
      var r := Pax(utf8, Joined(written), o);
      && (r.Some? <==> forall i :: 0 <= i < |records| ==> Admitted(utf8, records[i]))
      && (r.Some? ==>
            && (forall i :: LastOf(records, [112, 97, 116, 104], i) ==> r.value.path == Some(records[i].value))
            && (forall i :: LastOf(records, [115, 105, 122, 101], i) ==>
                  Parsed(records[i].value, 10).Some? && r.value.size == Parsed(records[i].value, 10))
            && ((forall i :: 0 <= i < |records| ==> records[i].key != [112, 97, 116, 104]) ==> r.value.path == o.path)
            && ((forall i :: 0 <= i < |records| ==> records[i].key != [115, 105, 122, 101]) ==> r.value.size == o.size))
  {
    PaxReads(utf8, written, records, o);
    forall i | LastOf(records, [112, 97, 116, 104], i) ensures OverAll(o, records).path == Some(records[i].value) {
      LastPath(records, o, i);
    }
    forall i | LastOf(records, [115, 105, 122, 101], i)
      ensures OverAll(o, records).size == Parsed(records[i].value, 10)
    {
      LastSize(records, o, i);
    }
    NoPath(records, o);
    NoSize(records, o);
  }

  lemma {:induction false} LastPath(records: seq<Record>, o: Overrides, i: nat)
    requires LastOf(records, [112, 97, 116, 104], i)
    ensures OverAll(o, records).path == Some(records[i].value)
    decreases |records|
  {
    if i == 0 {
      NoPath(records[1..], Over(o, records[0]));
    } else {
      LastPath(records[1..], Over(o, records[0]), i - 1);
    }
  }

  lemma {:induction false} LastSize(records: seq<Record>, o: Overrides, i: nat)
    requires LastOf(records, [115, 105, 122, 101], i)
    ensures OverAll(o, records).size == Parsed(records[i].value, 10)
    decreases |records|
  {
    if i == 0 {
      NoSize(records[1..], Over(o, records[0]));
    } else {
      LastSize(records[1..], Over(o, records[0]), i - 1);
    }
  }

  lemma {:induction false} NoPath(records: seq<Record>, o: Overrides)
    ensures (forall i :: 0 <= i < |records| ==> records[i].key != [112, 97, 116, 104]) ==>
      OverAll(o, records).path == o.path
    decreases |records|
  {
    if records != [] {
      NoPath(records[1..], Over(o, records[0]));
    }
  }

  lemma {:induction false} NoSize(records: seq<Record>, o: Overrides)
    ensures (forall i :: 0 <= i < |records| ==> records[i].key != [115, 105, 122, 101]) ==>
      OverAll(o, records).size == o.size
    decreases |records|
  {
    if records != [] {
      NoSize(records[1..], Over(o, records[0]));
    }
  }

  // ----- Parts -----------------------------------------------------------------------------------------------------

  /** What a part carries: the records of an extended header for the next member or for all, a long name, or a
      member. */
  datatype Content =
    | Extended(written: seq<Bytes>, records: seq<Record>)
    | Shared(written: seq<Bytes>, records: seq<Record>)
    | Long(path: Bytes)
    | File(kind: Byte, data: Bytes)

  /** A header's own name, mode and size, and what follows it. */
  datatype Part = Part(prefix: Bytes, name: Bytes, mode: nat, announced: nat, content: Content)

  ghost function DataOf(c: Content): Bytes {
    match c
    case Extended(written, _) => Joined(written)
    case Shared(written, _) => Joined(written)
    case Long(path) => path + [0]
    case File(_, data) => data
  }

  ghost function FieldsOf(p: Part): Fields {
    Fields(p.prefix, p.name, p.mode, p.announced,
           match p.content case Extended(_, _) => 120 case Shared(_, _) => 103 case Long(_) => 76 case File(k, _) => k)
  }

  ghost function PartBytes(p: Part): (r: Bytes)
    ensures |r| == BLOCK + Padded(|DataOf(p.content)|)
  {
    var data := DataOf(p.content);
    Written(FieldsOf(p)) + data + Zeroed(Padded(|data|) - |data|)
  }

  ghost function PartsBytes(parts: seq<Part>): Bytes {
    if parts == [] then Zeroed(2 * BLOCK) else PartBytes(parts[0]) + PartsBytes(parts[1..])
  }

  ghost predicate WellWritten(p: Part) {
    && Fitting(FieldsOf(p))
    && match p.content
       case Extended(written, records) => AreRecords(written, records)
       case Shared(written, records) => AreRecords(written, records)
       case Long(path) => 0 !in path
       case File(kind, _) => kind !in {120, 103, 76}
  }

  ghost predicate AllAdmitted(utf8: Utf8, records: seq<Record>) {
    forall i :: 0 <= i < |records| ==> Admitted(utf8, records[i])
  }

  /** The size the reader takes for the next data: the next member's, else the shared one, else the header's own. */
  ghost function SizeFor(p: Part, pending: Overrides, shared: Overrides): nat {
    if pending.size.Some? then pending.size.value else if shared.size.Some? then shared.size.value else p.announced
  }

  /** What a part leaves: the overrides in force after it, for the next member and for all, and the member it is. */
  datatype Effect = Effect(pending: Overrides, shared: Overrides, own: seq<Member>)

  /** The effect of a part; nothing when a record or a name is refused. */
  ghost function EffectOf(utf8: Utf8, p: Part, pending: Overrides, shared: Overrides): Option<Effect> {
    match p.content
    case Extended(_, records) =>
      if AllAdmitted(utf8, records) then Some(Effect(OverAll(None_, records), shared, [])) else None
    case Shared(_, records) =>
      if AllAdmitted(utf8, records) then Some(Effect(pending, OverAll(shared, records), [])) else None
    case Long(path) => if utf8(path) then Some(Effect(Overrides(Some(path), pending.size), shared, [])) else None
    case File(kind, data) =>
      var name := if pending.path.Some? then pending.path else if shared.path.Some? then shared.path
                  else if !utf8(p.name) || !utf8(p.prefix) then None
                  else if p.prefix == [] then Some(p.name) else Some(p.prefix + [47] + p.name);
      if name.None? then None
      else Some(Effect(None_, shared, [Member(name.value, kind in {48, 0}, p.mode, data)]))
  }

  /** The members the parts mean, with the overrides in force before them. */
  ghost function Meant(utf8: Utf8, parts: seq<Part>, pending: Overrides, shared: Overrides): Option<seq<Member>>
    decreases |parts|
  {
    if parts == [] then Some([])
    else
      var e :- EffectOf(utf8, parts[0], pending, shared);
      var later :- Meant(utf8, parts[1..], e.pending, e.shared);
      Some(e.own + later)
  }

  /** Each part's data has the size in force where the reader meets it. */
  ghost predicate Sized(utf8: Utf8, parts: seq<Part>, pending: Overrides, shared: Overrides)
    decreases |parts|
  {
    parts == [] ||
    (&& |DataOf(parts[0].content)| == SizeFor(parts[0], pending, shared)
     && var e := EffectOf(utf8, parts[0], pending, shared);
        e.None? || Sized(utf8, parts[1..], e.value.pending, e.value.shared))
  }

  /** A written part is where the reader looks for it. */
  lemma PartSlices(prefix: Bytes, p: Part, rest: Bytes)
    ensures
      var archive, data := prefix + (PartBytes(p) + rest), DataOf(p.content);
      && |prefix| + BLOCK + |data| <= |archive|
      && HeaderAt(archive, |prefix|) == Written(FieldsOf(p)) && DataAt(archive, |prefix|, |data|) == data
  {
    var header, data := Written(FieldsOf(p)), DataOf(p.content);
    var pad := Zeroed(Padded(|data|) - |data|);
    Sliced(prefix, header, data, pad + rest);
    assert prefix + (PartBytes(p) + rest) == prefix + header + data + (pad + rest);
  }

  lemma Sliced(prefix: Bytes, header: Bytes, data: Bytes, rest: Bytes)
    ensures
      var all := prefix + header + data + rest;
      && all[|prefix|..|prefix| + |header|] == header
      && all[|prefix| + |header|..|prefix| + |header| + |data|] == data
  {
  }

  /** The data a written header announces. */
  lemma PartWanted(p: Part, r: Reader)
    requires WellWritten(p)
    ensures !Zeros(Written(FieldsOf(p))) && Written(FieldsOf(p))[156] == FieldsOf(p).kind
    ensures Wanted(r, Written(FieldsOf(p))) == Some(SizeFor(p, r.pending, r.global))
  {
    WrittenChecksum(FieldsOf(p));
    WrittenNumbers(FieldsOf(p));
    assert Written(FieldsOf(p))[257] == 117;
  }

  /** What one written part makes of the reader. */
  lemma {:induction false} PartApplied(utf8: Utf8, p: Part, r: Reader)
    requires WellWritten(p)
    ensures
      var e := EffectOf(utf8, p, r.pending, r.global);
      Applied(utf8, r, Written(FieldsOf(p)), DataOf(p.content))
      == if e.None? then None
         else Some(Reader(r.offset + |PartBytes(p)|, e.value.pending, e.value.shared, r.found + e.value.own))
  {
    var header, data := Written(FieldsOf(p)), DataOf(p.content);
    assert header[156] == FieldsOf(p).kind by { PartWanted(p, r); }
    if p.content.File? {
      FileApplied(utf8, FieldsOf(p), r, data);
    } else {
      assert r.found + [] == r.found;
      HeaderApplied(utf8, header, r, data);
      if p.content.Extended? {
        PaxReads(utf8, p.content.written, p.content.records, None_);
      } else if p.content.Shared? {
        PaxReads(utf8, p.content.written, p.content.records, r.global);
      } else {
        UntilZeroOf(p.content.path, [0]);
      }
    }
  }

  /** What a header that carries no member makes of the reader. */
  lemma {:induction false} HeaderApplied(utf8: Utf8, header: Bytes, r: Reader, data: Bytes)
    requires |header| == BLOCK && header[156] in {120, 103, 76}
    ensures
      var at := r.offset + BLOCK + Padded(|data|);
      var o := if header[156] == 120 then Pax(utf8, data, None_) else Pax(utf8, data, r.global);
      Applied(utf8, r, header, data)
      == if header[156] == 76 then
           if utf8(UntilZero(data))
           then Some(Reader(at, Overrides(Some(UntilZero(data)), r.pending.size), r.global, r.found)) else None
         else if o.None? then None
         else if header[156] == 120 then Some(Reader(at, o.value, r.global, r.found))
         else Some(Reader(at, r.pending, o.value, r.found))
  {
  }

  lemma FileApplied(utf8: Utf8, f: Fields, r: Reader, data: Bytes)
    requires Fitting(f) && f.kind !in {120, 103, 76} && Written(f)[156] == f.kind
    ensures
      var name := if r.pending.path.Some? then r.pending.path else if r.global.path.Some? then r.global.path
                  else if utf8(f.name) && utf8(f.prefix) then Some(FullName(f)) else None;
      Applied(utf8, r, Written(f), data)
      == if name.None? then None
         else Some(Reader(r.offset + BLOCK + Padded(|data|), None_, r.global,
                          r.found + [Member(name.value, f.kind in {48, 0}, f.mode, data)]))
  {
    WrittenNumbers(f);
    WrittenName(utf8, f);
  }

  /** Whatever came before, the reader finds in written parts exactly the members they mean. */
  lemma {:induction false} PartsFrom(utf8: Utf8, prefix: Bytes, parts: seq<Part>, r: Reader)
    requires r.offset == |prefix|
    requires (forall i :: 0 <= i < |parts| ==> WellWritten(parts[i])) && Sized(utf8, parts, r.pending, r.global)
    ensures
      var meant := Meant(utf8, parts, r.pending, r.global);
      Members(Tar(utf8), prefix + PartsBytes(parts), r) == if meant.Some? then Some(r.found + meant.value) else None
    decreases |parts|
  {
    if parts == [] {
      EndsHere(utf8, prefix, r);
    } else {
      var p, rest := parts[0], PartsBytes(parts[1..]);
      PartsStep(utf8, prefix, p, rest, r);
      var effect := EffectOf(utf8, p, r.pending, r.global);
      if effect.Some? {
        var e := effect.value;
        Regrouped(prefix, PartBytes(p), rest);
        PartsFrom(utf8, prefix + PartBytes(p), parts[1..],
                  Reader(r.offset + |PartBytes(p)|, e.pending, e.shared, r.found + e.own));
        var later := Meant(utf8, parts[1..], e.pending, e.shared);
        assert later.Some? ==> r.found + e.own + later.value == r.found + (e.own + later.value);
      }
    }
  }

  lemma Regrouped(a: Bytes, b: Bytes, c: Bytes)
    ensures a + (b + c) == a + b + c
  {
  }

  lemma EndsHere(utf8: Utf8, prefix: Bytes, r: Reader)
    requires r.offset == |prefix|
    ensures Members(Tar(utf8), prefix + Zeroed(2 * BLOCK), r) == Some(r.found + [])
  {
    var archive := prefix + Zeroed(2 * BLOCK);
    assert HeaderAt(archive, r.offset) == Zeroed(BLOCK);
    assert Next(Tar(utf8), archive, r) == End;
    assert r.found + [] == r.found;
  }

  /** One written part of an archive, read. */
  lemma PartsStep(utf8: Utf8, prefix: Bytes, p: Part, rest: Bytes, r: Reader)
    requires r.offset == |prefix| && WellWritten(p)
    requires |DataOf(p.content)| == SizeFor(p, r.pending, r.global)
    ensures
      var archive, e := prefix + (PartBytes(p) + rest), EffectOf(utf8, p, r.pending, r.global);
      Members(Tar(utf8), archive, r)
      == if e.None? then None
         else Members(Tar(utf8), archive,
                      Reader(r.offset + |PartBytes(p)|, e.value.pending, e.value.shared, r.found + e.value.own))
  {
    PartSlices(prefix, p, rest);
    PartWanted(p, r);
    PartApplied(utf8, p, r);
    PartNext(Tar(utf8), prefix + (PartBytes(p) + rest), p, r);
  }

  lemma PartNext(f: Format, archive: Bytes, p: Part, r: Reader)
    requires
      var header, data := Written(FieldsOf(p)), DataOf(p.content);
      && r.offset + BLOCK + |data| <= |archive| && !Zeros(header)
      && HeaderAt(archive, r.offset) == header && DataAt(archive, r.offset, |data|) == data
      && f.wants(r, header) == Some(|data|)
      && (f.applies(r, header, data).Some? ==> f.applies(r, header, data).value.offset > r.offset)
    ensures
      var applied := f.applies(r, Written(FieldsOf(p)), DataOf(p.content));
      Members(f, archive, r) == if applied.Some? then Members(f, archive, applied.value) else None
  {
  }

  /** An archive written in parts is read as exactly the members its parts mean, or refused with them. */
  lemma PartsReadBack(utf8: Utf8, parts: seq<Part>)
    requires (forall i :: 0 <= i < |parts| ==> WellWritten(parts[i])) && Sized(utf8, parts, None_, None_)
    ensures Members(Tar(utf8), PartsBytes(parts), START) == Meant(utf8, parts, None_, None_)
  {
    PartsFrom(utf8, [], parts, START);
    NothingBefore(PartsBytes(parts), Meant(utf8, parts, None_, None_));
  }

  lemma NothingBefore(bytes: Bytes, members: Option<seq<Member>>)
    ensures [] + bytes == bytes
    ensures members == if members.Some? then Some([] + members.value) else None
  {
    assert members.Some? ==> [] + members.value == members.value;
  }
}
