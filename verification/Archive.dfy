/**
 Reading one fixed file of an image from the tar archive the container daemon returns: ustar headers, PAX extended
 headers and GNU long names (the POSIX.1-2017 `pax` utility, "ustar Interchange Format" and "pax Extended Header").
 */
module Archive {
  import opened Basics

  type Byte = n: nat | n < 256
  type Bytes = seq<Byte>

  const BLOCK: nat := 512
  const USIZE: nat := 0x1_0000_0000_0000_0000
  const SPACE: Byte := 32
  const PLUS: Byte := 43
  const EQUALS: Byte := 61
  const NEWLINE: Byte := 10

  /** Whether bytes are valid UTF-8. */
  type Utf8 = Bytes -> bool

  // ----- Numbers ---------------------------------------------------------------------------------------------------

  /** The value of digits in a radix of at most ten. */
  function DigitsValue(s: Bytes, radix: nat): Option<nat> {
    if s == [] then Some(0)
    else
      var front := DigitsValue(s[..|s| - 1], radix);
      var d := s[|s| - 1] as int - 48;
      if front.Some? && 0 <= d < radix then Some(front.value * radix + d) else None
  }

  /** An unsigned 64-bit number in a radix: an optional `+`, then at least one digit. */
  function Parsed(s: Bytes, radix: nat): Option<nat> {
    var digits := if s != [] && s[0] == PLUS then s[1..] else s;
    if digits == [] then None
    else
      var value := DigitsValue(digits, radix);
      if value.Some? && value.value < USIZE then value else None
  }

  /** The bytes before the first zero. */
  function UntilZero(s: Bytes): Bytes {
    if s == [] || s[0] == 0 then [] else [s[0]] + UntilZero(s[1..])
  }

  function TrimStart(s: Bytes): Bytes { if s != [] && s[0] == SPACE then TrimStart(s[1..]) else s }

  function TrimEnd(s: Bytes): Bytes { if s != [] && s[|s| - 1] == SPACE then TrimEnd(s[..|s| - 1]) else s }

  function Base256(total: nat, s: Bytes): Option<nat>
    decreases |s|
  {
    if s == [] then Some(total)
    else if total * 256 + s[0] >= USIZE then None
    else Base256(total * 256 + s[0], s[1..])
  }

  /** A number field's value: base 256 from the second byte on when the first is at least 128, octal digits
      otherwise. */
  function Octal(field: Bytes): Option<nat> {
    if field != [] && field[0] >= 128 then Base256(field[0] - 128, field[1..])
    else
      var trimmed := TrimEnd(TrimStart(UntilZero(field)));
      if trimmed == [] then Some(0) else Parsed(trimmed, 8)
  }

  // ----- Headers ---------------------------------------------------------------------------------------------------

  /** The summed bytes of a header, its checksum field taken as spaces, each byte's value given by `value`. */
  function Summed(header: Bytes, value: Byte -> int, n: nat): int
    requires n <= |header|
  {
    if n == 0 then 0 else Summed(header, value, n - 1) + if 148 <= n - 1 < 156 then 32 else value(header[n - 1])
  }

  function Unsigned(b: Byte): int { b }

  /** The byte as a signed one. */
  function Signed(b: Byte): (n: int)
    ensures -128 <= n < 128 && (b - n) % 256 == 0
  {
    if b < 128 then b else b - 256
  }

  predicate ChecksumValid(header: Bytes)
    requires |header| == BLOCK
  {
    var recorded := Octal(header[148..156]);
    recorded.Some? && (recorded.value == Summed(header, Unsigned, BLOCK)
                       || recorded.value == Summed(header, Signed, BLOCK))
  }

  function Text(utf8: Utf8, field: Bytes): Option<Bytes> {
    var written := UntilZero(field);
    if utf8(written) then Some(written) else None
  }

  const USTAR: Bytes := [117, 115, 116, 97, 114]

  function UstarName(utf8: Utf8, header: Bytes): Option<Bytes>
    requires |header| == BLOCK
  {
    var name := Text(utf8, header[0..100]);
    var prefix := if header[257..262] == USTAR then Text(utf8, header[345..500]) else Some([]);
    if name.None? || prefix.None? then None
    else if prefix.value == [] then name
    else Some(prefix.value + [47] + name.value)
  }

  // ----- PAX records -----------------------------------------------------------------------------------------------

  datatype Overrides = Overrides(path: Option<Bytes>, size: Option<nat>)

  const None_ := Overrides(None, None)

  function IndexOf(s: Bytes, b: Byte): (i: nat)
    ensures i <= |s| && (i < |s| ==> s[i] == b)
  {
    if s == [] || s[0] == b then 0 else 1 + IndexOf(s[1..], b)
  }

  const PATH: Bytes := [112, 97, 116, 104]
  const SIZE: Bytes := [115, 105, 122, 101]

  /** One record `"<length> <key>=<value>\n"` at the start of the data: its length and what it overrides. */
  function PaxRecord(utf8: Utf8, data: Bytes, o: Overrides): (r: Option<(nat, Overrides)>)
    ensures r.Some? ==> 0 < r.value.0 <= |data|
  {
    var space := IndexOf(data, SPACE);
    if space == |data| then None
    else
      var length := Parsed(data[..space], 10);
      if length.None? || !(space + 1 <= length.value <= |data|) then None
      else
        var line := data[space + 1..length.value];
        if line == [] || line[|line| - 1] != NEWLINE then None
        else
          var record := line[..|line| - 1];
          var equals := IndexOf(record, EQUALS);
          if equals == |record| then None
          else
            var key, value := record[..equals], record[equals + 1..];
            if key == PATH then if utf8(value) then Some((length.value, o.(path := Some(value)))) else None
            else if key == SIZE then
              if Parsed(value, 10).Some? then Some((length.value, o.(size := Parsed(value, 10)))) else None
            else Some((length.value, o))
  }

  function Pax(utf8: Utf8, data: Bytes, o: Overrides): Option<Overrides>
    decreases |data|
  {
    if data == [] then Some(o)
    else
      var record := PaxRecord(utf8, data, o);
      if record.None? then None else Pax(utf8, data[record.value.0..], record.value.1)
  }

  method ReadPax(utf8: Utf8, data: Bytes, overrides: Overrides) returns (r: Option<Overrides>)
    ensures r == Pax(utf8, data, overrides)
  {
    var rest, o := data, overrides;
    while rest != []
      invariant Pax(utf8, rest, o) == Pax(utf8, data, overrides)
      decreases |rest|
    {
      var record := PaxRecord(utf8, rest, o);
      if record.None? {
        return None;
      }
      rest, o := rest[record.value.0..], record.value.1;
    }
    return Some(o);
  }

  // ----- Members ---------------------------------------------------------------------------------------------------

  datatype Member = Member(name: Bytes, regular: bool, mode: nat, data: Bytes)

  /** Where the reader is, the overrides it carries, and what it found. */
  datatype Reader = Reader(offset: nat, pending: Overrides, global: Overrides, found: seq<Member>)

  const START := Reader(0, None_, None_, [])

  datatype Outcome = Malformed | End | More(next: Reader)

  /** The size rounded up to whole blocks. */
  function Padded(size: nat): (n: nat)
    ensures size <= n < size + 512 && n % 512 == 0
  {
    (size + BLOCK - 1) / BLOCK * BLOCK
  }

  predicate Zeros(s: Bytes) { forall i :: 0 <= i < |s| ==> s[i] == 0 }

  function Or<T>(a: Option<T>, b: Option<T>): Option<T> { if a.Some? then a else b }

  function SizeOf(r: Reader, header: Bytes): Option<nat>
    requires |header| == BLOCK
  {
    Or(Or(r.pending.size, r.global.size), Octal(header[124..136]))
  }

  /** What one header and its data make of the reader. */
  function Applied(utf8: Utf8, r: Reader, header: Bytes, data: Bytes): Option<Reader>
    requires |header| == BLOCK
  {
    var kind := header[156];
    var moved := r.(offset := r.offset + BLOCK + Padded(|data|));
    if kind == 120 then
      var o := Pax(utf8, data, None_);
      if o.None? then None else Some(moved.(pending := o.value))
    else if kind == 103 then
      var o := Pax(utf8, data, r.global);
      if o.None? then None else Some(moved.(global := o.value))
    else if kind == 76 then
      var path := Text(utf8, data);
      if path.None? then None else Some(moved.(pending := r.pending.(path := path)))
    else
      var name := Or(Or(r.pending.path, r.global.path), UstarName(utf8, header));
      var mode := Octal(header[100..108]);
      if name.None? || mode.None? then None
      else Some(moved.(pending := None_,
                       found := r.found + [Member(name.value, kind == 48 || kind == 0, mode.value, data)]))
  }

  /** The data a header announces, if its checksum is valid and its size readable. */
  function Wanted(r: Reader, header: Bytes): Option<nat>
    requires |header| == BLOCK
  {
    if ChecksumValid(header) then SizeOf(r, header) else None
  }

  /** How headers and data are understood. */
  datatype Format = Format(wants: (Reader, Bytes) -> Option<nat>, applies: (Reader, Bytes, Bytes) -> Option<Reader>)

  function Tar(utf8: Utf8): Format {
    Format((r: Reader, header: Bytes) => if |header| == BLOCK then Wanted(r, header) else None,
           (r: Reader, header: Bytes, data: Bytes) =>
             if |header| == BLOCK then Applied(utf8, r, header, data) else None)
  }

  function HeaderAt(archive: Bytes, offset: nat): (header: Bytes)
    requires offset + BLOCK <= |archive|
    ensures |header| == BLOCK
  {
    archive[offset..offset + BLOCK]
  }

  function DataAt(archive: Bytes, offset: nat, size: nat): (data: Bytes)
    requires offset + BLOCK + size <= |archive|
    ensures |data| == size
  {
    archive[offset + BLOCK..offset + BLOCK + size]
  }

  /** One header and its data; a format that does not move on is malformed, which no header of this one is. */
  function Next(f: Format, archive: Bytes, r: Reader): Outcome {
    if r.offset + BLOCK > |archive| then Malformed
    else
      var header := HeaderAt(archive, r.offset);
      if Zeros(header) then End
      else
        var size := f.wants(r, header);
        if size.None? || r.offset + BLOCK + size.value > |archive| then Malformed
        else
          var applied := f.applies(r, header, DataAt(archive, r.offset, size.value));
          if applied.None? || applied.value.offset <= r.offset then Malformed else More(applied.value)
  }

  /** Every member up to the end marker, or nothing for a malformed archive. */
  function Members(f: Format, archive: Bytes, r: Reader): Option<seq<Member>>
    decreases |archive| - r.offset
  {
    match Next(f, archive, r)
    case Malformed => None
    case End => Some(r.found)
    case More(next) => Members(f, archive, next)
  }

  method ReadMembers(utf8: Utf8, archive: Bytes) returns (r: Option<seq<Member>>)
    ensures r == Members(Tar(utf8), archive, START)
  {
    var reader, f := START, Tar(utf8);
    while true
      invariant Members(f, archive, reader) == Members(f, archive, START)
      decreases |archive| - reader.offset
    {
      var outcome := Next(f, archive, reader);
      match outcome
      case Malformed => return None;
      case End => return Some(reader.found);
      case More(next) => reader := next;
    }
  }

  // ----- What the reader reads -------------------------------------------------------------------------------------

  /** A header and the bytes of its data. */
  datatype Span = Span(header: nat, size: nat, kind: Byte)

  /** Whether a header's data is a member's, not an extended header's. */
  predicate Carries(kind: Byte) { kind != 120 && kind != 103 && kind != 76 }

  function Contents(found: seq<Member>): (r: seq<Bytes>)
    ensures |r| == |found|
  {
    seq(|found|, i requires 0 <= i < |found| => found[i].data)
  }

  /** Data moves the reader past its whole blocks, and is kept exactly when it is a member's. */
  ghost predicate Lawful(f: Format) {
    forall r: Reader, header: Bytes, data: Bytes ::
      |header| == BLOCK && f.applies(r, header, data).Some? ==>
        var next := f.applies(r, header, data).value;
        && next.offset == r.offset + BLOCK + Padded(|data|)
        && Contents(next.found) == Contents(r.found) + if Carries(header[156]) then [data] else []
  }

  lemma TarLawful(utf8: Utf8)
    ensures Lawful(Tar(utf8))
  {
    forall r: Reader, header: Bytes, data: Bytes | |header| == BLOCK && Tar(utf8).applies(r, header, data).Some?
      ensures
        var next := Tar(utf8).applies(r, header, data).value;
        && next.offset == r.offset + BLOCK + Padded(|data|)
        && Contents(next.found) == Contents(r.found) + if Carries(header[156]) then [data] else []
    {
      AppliedMoves(utf8, r, header, data);
    }
  }

  lemma AppliedMoves(utf8: Utf8, r: Reader, header: Bytes, data: Bytes)
    requires |header| == BLOCK && Applied(utf8, r, header, data).Some?
    ensures
      var next := Applied(utf8, r, header, data).value;
      && next.offset == r.offset + BLOCK + Padded(|data|)
      && Contents(next.found) == Contents(r.found) + if Carries(header[156]) then [data] else []
  {
  }

  /** The headers read, in order. */
  function Spans(f: Format, archive: Bytes, r: Reader): seq<Span>
    decreases |archive| - r.offset
  {
    match Next(f, archive, r)
    case More(next) =>
      [SpanAt(f, archive, r)] + Spans(f, archive, next)
    case _ => []
  }

  function SpanAt(f: Format, archive: Bytes, r: Reader): (span: Span)
    requires Next(f, archive, r).More?
    ensures r.offset + BLOCK + span.size <= |archive|
  {
    var header := HeaderAt(archive, r.offset);
    Span(r.offset, f.wants(r, header).value, header[156])
  }

  /** The data a span adds to the members. */
  function Own(archive: Bytes, span: Span): seq<Bytes>
    requires span.header + BLOCK + span.size <= |archive|
  {
    if Carries(span.kind) then [DataAt(archive, span.header, span.size)] else []
  }

  /** One step reads one span. */
  lemma NextCarries(f: Format, archive: Bytes, r: Reader)
    requires Lawful(f) && Next(f, archive, r).More?
    ensures
      var span, next := SpanAt(f, archive, r), Next(f, archive, r).next;
      && next.offset == r.offset + BLOCK + Padded(span.size)
      && Contents(next.found) == Contents(r.found) + Own(archive, span)
  {
    var header := HeaderAt(archive, r.offset);
    var data := DataAt(archive, r.offset, f.wants(r, header).value);
    assert f.applies(r, header, data) == Some(Next(f, archive, r).next);
  }

  /** The offset of the end marker. */
  function EndOf(f: Format, archive: Bytes, r: Reader): nat
    decreases |archive| - r.offset
  {
    match Next(f, archive, r)
    case More(next) => EndOf(f, archive, next)
    case _ => r.offset
  }

  /** The spans follow one another in whole blocks from one offset to another. */
  ghost predicate Tiles(spans: seq<Span>, from: nat, to: nat) {
    if spans == [] then from == to
    else spans[0].header == from && Tiles(spans[1..], from + BLOCK + Padded(spans[0].size), to)
  }

  ghost predicate Inside(spans: seq<Span>, to: nat) {
    forall i :: 0 <= i < |spans| ==> spans[i].header + BLOCK + spans[i].size <= to
  }

  function DataOf(archive: Bytes, spans: seq<Span>): seq<Bytes>
    requires Inside(spans, |archive|)
  {
    if spans == [] then [] else Own(archive, spans[0]) + DataOf(archive, spans[1..])
  }

  lemma {:induction false} DataOfFirst(archive: Bytes, span: Span, later: seq<Span>)
    requires Inside([span] + later, |archive|)
    ensures Inside(later, |archive|) && span.header + BLOCK + span.size <= |archive|
    ensures
      DataOf(archive, [span] + later) == Own(archive, span) + DataOf(archive, later)
  {
    assert ([span] + later)[0] == span;
    assert forall i :: 0 <= i < |later| ==> later[i] == ([span] + later)[i + 1];
    assert ([span] + later)[1..] == later;
  }

  /** From its offset to the block of zeros it stops at, the reader's spans follow one another without gap or
      overlap. */
  lemma {:induction false} SpansTile(f: Format, archive: Bytes, r: Reader)
    requires Lawful(f) && Members(f, archive, r).Some?
    ensures
      var spans, end := Spans(f, archive, r), EndOf(f, archive, r);
      && Tiles(spans, r.offset, end) && r.offset <= end && end + 512 <= |archive| && Zeros(HeaderAt(archive, end))
      && (forall i :: end <= i < end + 512 ==> archive[i] == 0)
      && Inside(spans, end)
    decreases |archive| - r.offset
  {
    var outcome := Next(f, archive, r);
    if outcome.More? {
      SpansTile(f, archive, outcome.next);
      NextCarries(f, archive, r);
      assert ([SpanAt(f, archive, r)] + Spans(f, archive, outcome.next))[1..] == Spans(f, archive, outcome.next);
    } else {
      ZerosAt(archive, r.offset);
    }
  }

  lemma ZerosAt(archive: Bytes, at: nat)
    requires at + BLOCK <= |archive| && Zeros(HeaderAt(archive, at))
    ensures forall i :: at <= i < at + 512 ==> archive[i] == 0
  {
    forall i | at <= i < at + 512 ensures archive[i] == 0 {
      assert archive[i] == HeaderAt(archive, at)[i - at];
    }
  }

  /** The members read are exactly the data of the spans that carry one, in order. */
  lemma {:induction false} SpansCarry(f: Format, archive: Bytes, r: Reader)
    requires Lawful(f) && Members(f, archive, r).Some? && Inside(Spans(f, archive, r), |archive|)
    ensures Contents(Members(f, archive, r).value) == Contents(r.found) + DataOf(archive, Spans(f, archive, r))
    decreases |archive| - r.offset
  {
    var outcome := Next(f, archive, r);
    if outcome.More? {
      var span, later := SpanAt(f, archive, r), Spans(f, archive, outcome.next);
      NextCarries(f, archive, r);
      DataOfFirst(archive, span, later);
      SpansCarry(f, archive, outcome.next);
      assert Contents(r.found) + Own(archive, span) + DataOf(archive, later)
          == Contents(r.found) + (Own(archive, span) + DataOf(archive, later));
    }
  }

  /** The reader's next step depends on nothing after the data it reads. */
  lemma {:induction false} NextLocal(f: Format, archive: Bytes, other: Bytes, r: Reader, end: nat)
    requires Lawful(f) && end + BLOCK <= |archive| && end + BLOCK <= |other|
      && archive[..end + BLOCK] == other[..end + BLOCK]
    requires r.offset <= end && !Next(f, archive, r).Malformed?
    requires Next(f, archive, r).More? ==> Next(f, archive, r).next.offset <= end
    ensures Next(f, other, r) == Next(f, archive, r)
  {
    SameSlice(archive, other, end + BLOCK, r.offset, r.offset + BLOCK);
    var header := HeaderAt(archive, r.offset);
    if Next(f, archive, r).More? {
      var size := f.wants(r, header).value;
      assert f.applies(r, header, DataAt(archive, r.offset, size)) == Some(Next(f, archive, r).next);
      SameSlice(archive, other, end + BLOCK, r.offset + BLOCK, r.offset + BLOCK + size);
    }
  }

  lemma SameSlice(a: Bytes, b: Bytes, n: nat, from: nat, to: nat)
    requires n <= |a| && n <= |b| && a[..n] == b[..n] && from <= to <= n
    ensures a[from..to] == b[from..to]
  {
    assert a[from..to] == a[..n][from..to] && b[from..to] == b[..n][from..to];
  }

  /** The answer ignores every byte after the end marker. */
  lemma {:induction false} MembersIgnoreTail(f: Format, archive: Bytes, other: Bytes, r: Reader)
    requires Lawful(f) && Members(f, archive, r).Some?
    requires
      var end := EndOf(f, archive, r);
      end + BLOCK <= |archive| && end + BLOCK <= |other| && archive[..end + BLOCK] == other[..end + BLOCK]
    ensures Members(f, other, r) == Members(f, archive, r)
    decreases |archive| - r.offset
  {
    SpansTile(f, archive, r);
    var outcome := Next(f, archive, r);
    if outcome.More? {
      SpansTile(f, archive, outcome.next);
      MembersIgnoreTail(f, archive, other, outcome.next);
    }
    NextLocal(f, archive, other, r, EndOf(f, archive, r));
  }

  // ----- One file --------------------------------------------------------------------------------------------------

  const READ_ONLY: nat := 0x124

  /** The length beyond which an archive is refused. */
  function ArchiveBound(maximum: nat): nat { maximum + 32 * 1024 }

  /** The daemon's stat answer: each field present with its own type, or absent. */
  datatype Stat = Stat(name: Option<Bytes>, size: Option<int>, mode: Option<int>)

  /** The size the metadata gives exactly this read-only file. */
  function StatedSize(metadata: Stat, name: Bytes, maximum: nat): (r: Option<nat>)
    ensures r.Some? ==> 1 <= r.value <= maximum
  {
    if metadata.name == Some(name) && metadata.mode == Some(READ_ONLY)
       && metadata.size.Some? && 1 <= metadata.size.value <= maximum && metadata.size.value < USIZE
    then Some(metadata.size.value) else None
  }

  predicate Admits(m: Member, name: Bytes, size: nat) {
    (m.name == name || m.name == [46, 47] + name) && m.regular && m.mode % 512 == READ_ONLY && |m.data| == size
  }

  function FileBy(f: Format, metadata: Stat, archive: Bytes, name: Bytes, maximum: nat): Option<Bytes> {
    var size := StatedSize(metadata, name, maximum);
    if size.None? || |archive| > ArchiveBound(maximum) then None
    else
      var members := Members(f, archive, START);
      if members.Some? && |members.value| == 1 && Admits(members.value[0], name, size.value)
      then Some(members.value[0].data)
      else None
  }

  function ContainerFile(utf8: Utf8, metadata: Stat, archive: Bytes, name: Bytes, maximum: nat): Option<Bytes> {
    FileBy(Tar(utf8), metadata, archive, name, maximum)
  }

  /**
   An admitted file is the data of the one member span among spans that tile the archive from its start to a block of
   zeros, and has the stated size.
   */
  lemma AdmittedFile(utf8: Utf8, metadata: Stat, archive: Bytes, name: Bytes, maximum: nat)
    requires ContainerFile(utf8, metadata, archive, name, maximum).Some?
    ensures
      var f, file := Tar(utf8), ContainerFile(utf8, metadata, archive, name, maximum).value;
      var spans, end := Spans(f, archive, START), EndOf(f, archive, START);
      && Tiles(spans, 0, end) && end + 512 <= |archive| <= maximum + 32_768
      && (forall i :: end <= i < end + 512 ==> archive[i] == 0)
      && Inside(spans, |archive|) && DataOf(archive, spans) == [file]
      && metadata.size == Some(|file|) && 1 <= |file| <= maximum
  {
    TarLawful(utf8);
    OnlyMember(Tar(utf8), metadata, archive, name, maximum);
  }

  lemma OnlyMember(f: Format, metadata: Stat, archive: Bytes, name: Bytes, maximum: nat)
    requires Lawful(f) && FileBy(f, metadata, archive, name, maximum).Some?
    ensures
      var file := FileBy(f, metadata, archive, name, maximum).value;
      var spans, end := Spans(f, archive, START), EndOf(f, archive, START);
      && Tiles(spans, 0, end) && end + 512 <= |archive| <= maximum + 32_768
      && (forall i :: end <= i < end + 512 ==> archive[i] == 0)
      && Inside(spans, |archive|) && DataOf(archive, spans) == [file]
      && metadata.size == Some(|file|) && 1 <= |file| <= maximum
  {
    SpansTile(f, archive, START);
    SpansCarry(f, archive, START);
    var members := Members(f, archive, START).value;
    assert Contents(members) == [members[0].data];
    assert Contents(START.found) == [];
  }

  /** The admitted file stays the same whatever follows the archive's end marker within the bound. */
  lemma AdmittedWhateverFollows(utf8: Utf8, metadata: Stat, archive: Bytes, name: Bytes, maximum: nat, other: Bytes)
    requires ContainerFile(utf8, metadata, archive, name, maximum).Some?
    requires
      var to := EndOf(Tar(utf8), archive, START) + BLOCK;
      to <= |archive| && to <= |other| <= ArchiveBound(maximum) && archive[..to] == other[..to]
    ensures ContainerFile(utf8, metadata, other, name, maximum) == ContainerFile(utf8, metadata, archive, name, maximum)
  {
    TarLawful(utf8);
    MembersIgnoreTail(Tar(utf8), archive, other, START);
  }

  // ----- The archive of one file -----------------------------------------------------------------------------------

  function Pow8(n: nat): (r: nat)
    ensures r > 0
  {
    if n == 0 then 1 else 8 * Pow8(n - 1)
  }

  /** A number's octal digits in a fixed width. */
  function OctalDigits(n: nat, width: nat): (r: Bytes)
    ensures |r| == width && forall i :: 0 <= i < width ==> 48 <= r[i] < 56
  {
    if width == 0 then [] else OctalDigits(n / 8, width - 1) + [48 + n % 8]
  }

  lemma {:induction false} DigitsThen(s: Bytes, value: nat, last: nat)
    requires DigitsValue(s, 8) == Some(value) && last < 8
    ensures DigitsValue(s + [48 + last], 8) == Some(value * 8 + last)
  {
    assert (s + [48 + last])[..|s|] == s;
  }

  lemma {:induction false} DigitsReadBack(n: nat, width: nat)
    requires n < Pow8(width)
    ensures DigitsValue(OctalDigits(n, width), 8) == Some(n)
  {
    if width > 0 {
      DigitsReadBack(n / 8, width - 1);
      DigitsThen(OctalDigits(n / 8, width - 1), n / 8, n % 8);
    }
  }

  lemma {:induction false} UntilZeroOf(s: Bytes, rest: Bytes)
    requires 0 !in s && (rest == [] || rest[0] == 0)
    ensures UntilZero(s + rest) == s
  {
    if s == [] {
      assert s + rest == rest;
    } else {
      assert (s + rest)[1..] == s[1..] + rest;
      UntilZeroOf(s[1..], rest);
    }
  }

  /** An octal field read back: digits, then a zero and anything. */
  lemma OctalReadBack(n: nat, width: nat, rest: Bytes)
    requires 0 < width && n < Pow8(width) && n < USIZE && rest != [] && rest[0] == 0
    ensures Octal(OctalDigits(n, width) + rest) == Some(n)
  {
    var digits := OctalDigits(n, width);
    UntilZeroOf(digits, rest);
    DigitsReadBack(n, width);
    assert (digits + rest)[0] == digits[0];
    assert TrimStart(digits) == digits && TrimEnd(digits) == digits;
  }

  function Spaces(n: nat): (r: Bytes)
    ensures |r| == n && forall i :: 0 <= i < n ==> r[i] == 32
  {
    seq(n, _ => 32 as Byte)
  }

  lemma {:induction false} TrimmedStart(n: nat, s: Bytes)
    requires s == [] || s[0] != 32
    ensures TrimStart(Spaces(n) + s) == s
    decreases n
  {
    if n == 0 {
      assert Spaces(0) + s == s;
    } else {
      assert (Spaces(n) + s)[1..] == Spaces(n - 1) + s;
      TrimmedStart(n - 1, s);
    }
  }

  lemma {:induction false} TrimmedEnd(s: Bytes, n: nat)
    requires s == [] || s[|s| - 1] != 32
    ensures TrimEnd(s + Spaces(n)) == s
    decreases n
  {
    if n == 0 {
      assert s + Spaces(0) == s;
    } else {
      assert (s + Spaces(n))[..|s| + n - 1] == s + Spaces(n - 1);
      TrimmedEnd(s, n - 1);
    }
  }

  /** A number that is one of 64 bits. */
  ghost function Word(n: nat): Option<nat> { if n < 18_446_744_073_709_551_616 then Some(n) else None }

  /** An octal field between spaces reads back exactly while it is one of 64 bits; a blank one is zero. */
  lemma PaddedReadBack(n: nat, width: nat, before: nat, after: nat, rest: Bytes)
    requires n < Pow8(width) && (rest == [] || rest[0] == 0)
    ensures Octal(Spaces(before) + OctalDigits(n, width) + Spaces(after) + rest) == Word(n)
  {
    var digits := OctalDigits(n, width);
    var text := Spaces(before) + digits + Spaces(after);
    UntilZeroOf(text, rest);
    DigitsReadBack(n, width);
    assert (text + rest) != [] ==> (text + rest)[0] < 128;
    if width == 0 {
      assert text == Spaces(before + after) + [];
      TrimmedStart(before + after, []);
    } else {
      assert text == Spaces(before) + (digits + Spaces(after));
      TrimmedStart(before, digits + Spaces(after));
      TrimmedEnd(digits, after);
    }
  }

  function Pow256(n: nat): (r: nat)
    ensures r > 0
  {
    if n == 0 then 1 else 256 * Pow256(n - 1)
  }

  /** A number's bytes in a fixed width. */
  function BytesOf(n: nat, width: nat): (r: Bytes)
    ensures |r| == width
  {
    if width == 0 then [] else BytesOf(n / 256, width - 1) + [n % 256]
  }

  lemma {:induction false} Base256Next(total: nat, s: Bytes, b: Byte)
    ensures
      var before := Base256(total, s);
      Base256(total, s + [b])
      == if before.None? || before.value * 256 + b >= USIZE then None else Some(before.value * 256 + b)
    decreases |s|
  {
    if s == [] {
      assert s + [b] == [b] && [b][1..] == [];
    } else {
      assert (s + [b])[1..] == s[1..] + [b];
      if total * 256 + s[0] < USIZE {
        Base256Next(total * 256 + s[0], s[1..], b);
      }
    }
  }

  lemma {:induction false} Base256Value(top: nat, n: nat, width: nat)
    requires top < 128 && n < Pow256(width)
    ensures Base256(top, BytesOf(n, width)) == Word(top * Pow256(width) + n)
    decreases width
  {
    if width > 0 {
      assert Pow256(width) == 256 * Pow256(width - 1);
      assert n / 256 < Pow256(width - 1);
      assert top * Pow256(width) == 256 * (top * Pow256(width - 1));
      Base256Value(top, n / 256, width - 1);
      Base256Next(top, BytesOf(n / 256, width - 1), n % 256);
      assert top * Pow256(width) + n == 256 * (top * Pow256(width - 1) + n / 256) + n % 256;
    }
  }

  /** A number too large for octal digits reads back from its bytes behind a first byte with the high bit set, exactly
      while it is one of 64 bits. */
  lemma Base256ReadBack(top: nat, n: nat, width: nat)
    requires top < 128 && n < Pow256(width)
    ensures Octal([128 + top] + BytesOf(n, width)) == Word(top * Pow256(width) + n)
  {
    Base256Value(top, n, width);
    assert ([128 + top] + BytesOf(n, width))[1..] == BytesOf(n, width);
  }

  /** A number may be written behind a plus sign. */
  lemma PlusParsed(digits: Bytes, radix: nat)
    requires digits != [] && digits[0] != 43
    ensures Parsed([43] + digits, radix) == Parsed(digits, radix)
  {
    assert ([43] + digits)[1..] == digits;
  }

  /** The fields of one file's header. */
  datatype Fields = Fields(prefix: Bytes, name: Bytes, mode: nat, size: nat, kind: Byte)

  predicate Fitting(f: Fields) {
    && 0 !in f.prefix && |f.prefix| <= 155 && 0 !in f.name && |f.name| <= 100
    && f.mode < Pow8(7) && f.size < Pow8(11) && f.size < USIZE
  }

  /** Each byte of a header whose checksum field holds `sum`. */
  function HeaderByte(f: Fields, sum: Bytes, i: nat): Byte
    requires |sum| == 8
  {
    if i < 100 then if i < |f.name| then f.name[i] else 0
    else if i < 107 then OctalDigits(f.mode, 7)[i - 100]
    else if 124 <= i < 135 then OctalDigits(f.size, 11)[i - 124]
    else if 148 <= i < 156 then sum[i - 148]
    else if i == 156 then f.kind
    else if 257 <= i < 262 then [117, 115, 116, 97, 114][i - 257]
    else if 263 <= i < 265 then 48
    else if 345 <= i < 500 then if i - 345 < |f.prefix| then f.prefix[i - 345] else 0
    else 0
  }

  function HeaderWith(f: Fields, sum: Bytes): (header: Bytes)
    requires |sum| == 8
    ensures |header| == BLOCK
  {
    seq(BLOCK, i requires 0 <= i < BLOCK => HeaderByte(f, sum, i))
  }

  const SPACES: Bytes := [32, 32, 32, 32, 32, 32, 32, 32]

  function Written(f: Fields): (header: Bytes)
    ensures |header| == BLOCK
  {
    HeaderWith(f, OctalDigits(Total(f), 6) + [0, 32])
  }

  /** The summed bytes of the header with its checksum field blank. */
  function Total(f: Fields): nat { PlainSum(HeaderWith(f, SPACES)) }

  function PlainSum(s: Bytes): nat { if s == [] then 0 else PlainSum(s[..|s| - 1]) + s[|s| - 1] }

  function Zeroed(n: nat): (r: Bytes)
    ensures |r| == n && Zeros(r)
  {
    seq(n, _ => 0 as Byte)
  }

  /** The archive of one file. */
  function TarOf(f: Fields, data: Bytes): Bytes
    requires |data| == f.size
  {
    Written(f) + data + Zeroed(Padded(f.size) - f.size + 2 * BLOCK)
  }

  lemma {:induction false} PlainSumBounded(s: Bytes)
    ensures PlainSum(s) <= 255 * |s|
  {
    if s != [] { PlainSumBounded(s[..|s| - 1]); }
  }

  /** The sum with the field taken as spaces is the plain sum of the blank header. */
  lemma {:induction false} SummedIsTotal(f: Fields, sum: Bytes, n: nat)
    requires |sum| == 8 && n <= BLOCK
    ensures Summed(HeaderWith(f, sum), Unsigned, n) == PlainSum(HeaderWith(f, SPACES)[..n])
  {
    if n > 0 {
      SummedIsTotal(f, sum, n - 1);
      var blank, header := HeaderWith(f, SPACES), HeaderWith(f, sum);
      assert blank[..n][..n - 1] == blank[..n - 1];
      assert blank[n - 1] == HeaderByte(f, SPACES, n - 1) && header[n - 1] == HeaderByte(f, sum, n - 1);
    }
  }

  lemma WrittenChecksum(f: Fields)
    ensures ChecksumValid(Written(f))
  {
    var blank, sum := HeaderWith(f, SPACES), OctalDigits(Total(f), 6) + [0, 32];
    PlainSumBounded(blank);
    assert Pow8(6) == 262144 by { PowersOfEight(); }
    OctalReadBack(Total(f), 6, [0, 32]);
    assert Written(f)[148..156] == sum;
    SummedIsTotal(f, sum, BLOCK);
    assert blank[..BLOCK] == blank;
  }

  lemma PowersOfEight()
    ensures Pow8(6) == 262144 && Pow8(7) == 2097152
  {
    assert Pow8(3) == 512;
    assert Pow8(5) == 32768;
  }

  lemma WrittenNumbers(f: Fields)
    requires Fitting(f)
    ensures Octal(Written(f)[100..108]) == Some(f.mode) && Octal(Written(f)[124..136]) == Some(f.size)
  {
    var header := Written(f);
    PowersOfEight();
    OctalReadBack(f.mode, 7, [0]);
    OctalReadBack(f.size, 11, [0]);
    assert header[100..108] == OctalDigits(f.mode, 7) + [0];
    assert header[124..136] == OctalDigits(f.size, 11) + [0];
  }

  /** The name of a file: its own, behind its prefix when it has one. */
  function FullName(f: Fields): Bytes { if f.prefix == [] then f.name else f.prefix + [47] + f.name }

  lemma WrittenName(utf8: Utf8, f: Fields)
    requires Fitting(f)
    ensures UstarName(utf8, Written(f)) == if utf8(f.name) && utf8(f.prefix) then Some(FullName(f)) else None
  {
    var header := Written(f);
    assert header[0..100] == f.name + Zeroed(100 - |f.name|);
    UntilZeroOf(f.name, Zeroed(100 - |f.name|));
    assert header[345..500] == f.prefix + Zeroed(155 - |f.prefix|);
    UntilZeroOf(f.prefix, Zeroed(155 - |f.prefix|));
    assert header[257..262] == USTAR;
  }

  /** A written header starts the member it names. */
  lemma WrittenApplied(utf8: Utf8, f: Fields, data: Bytes)
    requires Fitting(f) && Carries(f.kind) && utf8(f.name) && utf8(f.prefix) && |data| == f.size
    ensures Wanted(START, Written(f)) == Some(f.size)
    ensures
      Applied(utf8, START, Written(f), data)
      == Some(Reader(BLOCK + Padded(f.size), None_, None_,
                     [Member(FullName(f), f.kind == 48 || f.kind == 0, f.mode, data)]))
  {
    WrittenChecksum(f);
    WrittenNumbers(f);
    WrittenName(utf8, f);
    assert Written(f)[156] == f.kind;
    assert START.found + [Member(FullName(f), f.kind == 48 || f.kind == 0, f.mode, data)]
        == [Member(FullName(f), f.kind == 48 || f.kind == 0, f.mode, data)];
  }

  /** Written header, data and padding are where the reader looks for them. */
  lemma TarSlices(f: Fields, data: Bytes)
    requires |data| == f.size
    ensures
      var archive, end := TarOf(f, data), BLOCK + Padded(f.size);
      && |archive| == end + 2 * BLOCK && HeaderAt(archive, 0) == Written(f) && DataAt(archive, 0, f.size) == data
      && Zeros(HeaderAt(archive, end))
  {
  }

  /** The archive written for a file holds exactly that file. */
  lemma TarReadBack(utf8: Utf8, f: Fields, data: Bytes)
    requires Fitting(f) && Carries(f.kind) && utf8(f.name) && utf8(f.prefix) && |data| == f.size
    ensures
      Members(Tar(utf8), TarOf(f, data), START)
        == Some([Member(FullName(f), f.kind == 48 || f.kind == 0, f.mode, data)])
  {
    WrittenApplied(utf8, f, data);
    TarSlices(f, data);
    assert Written(f)[257] == 117;
    OneMember(Tar(utf8), TarOf(f, data), Written(f), data,
              Reader(BLOCK + Padded(f.size), None_, None_,
                     [Member(FullName(f), f.kind == 48 || f.kind == 0, f.mode, data)]));
  }

  lemma {:induction false} OneMember(f: Format, archive: Bytes, header: Bytes, data: Bytes, after: Reader)
    requires |header| == BLOCK && !Zeros(header) && f.wants(START, header) == Some(|data|)
    requires f.applies(START, header, data) == Some(after) && 0 < after.offset && after.offset + BLOCK <= |archive|
    requires BLOCK + |data| <= |archive| && HeaderAt(archive, 0) == header && DataAt(archive, 0, |data|) == data
    requires Zeros(HeaderAt(archive, after.offset))
    ensures Members(f, archive, START) == Some(after.found)
  {
    assert Next(f, archive, START) == More(after);
    assert Next(f, archive, after) == End;
  }

  /** A read-only file within the bound, written under its name or that name behind `./`, is admitted with its exact
      bytes. */
  lemma FileReadBack(utf8: Utf8, name: Bytes, dotted: bool, data: Bytes, maximum: nat)
    requires
      var written := Fields([], if dotted then [46, 47] + name else name, READ_ONLY, |data|, 48);
      Fitting(written) && utf8(written.name) && utf8([])
    requires 1 <= |data| <= maximum
    ensures
      var written := Fields([], if dotted then [46, 47] + name else name, READ_ONLY, |data|, 48);
      ContainerFile(utf8, Stat(Some(name), Some(|data|), Some(READ_ONLY)), TarOf(written, data), name, maximum)
        == Some(data)
  {
    var written := Fields([], if dotted then [46, 47] + name else name, READ_ONLY, |data|, 48);
    TarReadBack(utf8, written, data);
    TarSlices(written, data);
  }
}
