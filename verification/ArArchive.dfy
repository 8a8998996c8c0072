/** The ar(5) reader and the rebuilder that drops one member before a signature check. */
module ArArchive {
  import opened Wrappers

  const MAGIC: seq<byte> := [33, 60, 97, 114, 99, 104, 62, 10]  // "!<arch>\n"
  const HEADER_SIZE := 60
  const FILE_MAGIC: seq<byte> := [96, 10]  // "`\n"

  datatype Error =
    | NotAnArchive
    | BadHeader(pos: nat)
    | BadSize(pos: nat)
    | Truncated(pos: nat)
    | NegativeSize(pos: nat)  // the reader panics

  datatype Entry = Entry(name: seq<byte>, data: seq<byte>)

  /** A member together with its header bytes. */
  datatype Member = Member(header: seq<byte>, entry: Entry)

  // ---------------------------------------------------------------- header fields

  predicate IsSpace(b: byte) {
    b == 32 || 9 <= b <= 13
  }

  predicate IsDigit(b: byte) {
    48 <= b <= 57
  }

  /** `TrimRight(s, " /")`. */
  function TrimName(s: seq<byte>): seq<byte> {
    if s != [] && s[|s| - 1] in {32, 47} then TrimName(s[..|s| - 1]) else s
  }

  function SkipSpaces(s: seq<byte>): seq<byte> {
    if s != [] && IsSpace(s[0]) then SkipSpaces(s[1..]) else s
  }

  function Digits(s: seq<byte>, value: nat): nat {
    if s != [] && IsDigit(s[0]) then Digits(s[1..], 10 * value + (s[0] - 48) as nat) else value
  }

  /** `Sscanf` with "%d" on the trimmed field: a sign, digits, and anything after them. */
  function ScanInt(field: seq<byte>): Option<int> {
    var s := SkipSpaces(field);
    var digits := if s != [] && s[0] in {43, 45} then s[1..] else s;
    if digits == [] || !IsDigit(digits[0]) then None
    else
      var value: int := Digits(digits, 0);
      Some(if s[0] == 45 then -value else value)
  }

  function HeaderName(header: seq<byte>): seq<byte>
    requires |header| == HEADER_SIZE
  {
    TrimName(header[0..16])
  }

  function HeaderSize(header: seq<byte>): Option<int>
    requires |header| == HEADER_SIZE
  {
    ScanInt(header[48..58])
  }

  // ---------------------------------------------------------------- parsing

  /** The member whose header starts at `pos`, or why it cannot be read. */
  function ReadMember(data: seq<byte>, pos: nat): (r: Result<Member, Error>)
    requires pos + HEADER_SIZE <= |data|
    ensures r.Ok? ==> |r.value.header| == HEADER_SIZE && pos + HEADER_SIZE + |r.value.entry.data| <= |data|
  {
    var header := data[pos..pos + HEADER_SIZE];
    if header[58..60] != FILE_MAGIC then Err(BadHeader(pos))
    else if HeaderSize(header).None? then Err(BadSize(pos))
    else
      var size := HeaderSize(header).value;
      var start := pos + HEADER_SIZE;
      if |data| < start + size then Err(Truncated(pos))
      else if size < 0 then Err(NegativeSize(pos))
      else Ok(Member(header, Entry(HeaderName(header), data[start..start + size])))
  }

  /** Members of odd size are followed by a padding byte. */
  function Span(e: Entry): nat {
    HEADER_SIZE + |e.data| + |e.data| % 2
  }

  /** The members from `pos` on. A tail too short for a header is ignored. */
  function ParseFrom(data: seq<byte>, pos: nat): Result<seq<Member>, Error>
    decreases |data| - pos
  {
    if |data| < pos + HEADER_SIZE then Ok([])
    else
      var m := ReadMember(data, pos);
      if m.Err? then Err(m.error)
      else
        var rest := ParseFrom(data, pos + Span(m.value.entry));
        if rest.Err? then rest else Ok([m.value] + rest.value)
  }

  function Parse(data: seq<byte>): Result<seq<Member>, Error> {
    if MAGIC <= data then ParseFrom(data, |MAGIC|) else Err(NotAnArchive)
  }

  lemma ParseStep(data: seq<byte>, pos: nat, m: Member, tail: Result<seq<Member>, Error>)
    requires pos + HEADER_SIZE <= |data| && ReadMember(data, pos) == Ok(m)
    requires ParseFrom(data, pos + Span(m.entry)) == tail
    ensures ParseFrom(data, pos) == if tail.Err? then tail else Ok([m] + tail.value)
  {
  }

  /** The members read so far, and what is left from `pos` on, make up the whole parse. */
  ghost predicate ParsedUpTo(data: seq<byte>, pos: nat, done: seq<Member>) {
    var rest := ParseFrom(data, pos);
    Parse(data) == if rest.Err? then rest else Ok(done + rest.value)
  }

  lemma ParsedOneMore(data: seq<byte>, pos: nat, done: seq<Member>, m: Member)
    requires pos + HEADER_SIZE <= |data| && ReadMember(data, pos) == Ok(m) && ParsedUpTo(data, pos, done)
    ensures ParsedUpTo(data, pos + Span(m.entry), done + [m])
  {
    var rest := ParseFrom(data, pos + Span(m.entry));
    ParseStep(data, pos, m, rest);
    if rest.Ok? {
      assert done + ([m] + rest.value) == done + [m] + rest.value;
    }
  }

  function Entries(ms: seq<Member>): (r: seq<Entry>)
    ensures |r| == |ms|
    ensures forall i :: 0 <= i < |ms| ==> r[i] == ms[i].entry
  {
    seq(|ms|, i requires 0 <= i < |ms| => ms[i].entry)
  }

  /** The last member of every name. */
  function ByName(ms: seq<Member>): map<seq<byte>, seq<byte>> {
    if ms == [] then map[]
    else
      var last := ms[|ms| - 1].entry;
      ByName(ms[..|ms| - 1])[last.name := last.data]
  }

  /** Under a name stands the data of the last member that has it. */
  lemma {:induction false} ByNameIsLast(ms: seq<Member>, i: nat)
    requires i < |ms| && forall j :: i < j < |ms| ==> ms[j].entry.name != ms[i].entry.name
    ensures ms[i].entry.name in ByName(ms) && ByName(ms)[ms[i].entry.name] == ms[i].entry.data
    decreases |ms|
  {
    if i < |ms| - 1 {
      ByNameIsLast(ms[..|ms| - 1], i);
    }
  }

  lemma Appended(ms: seq<Member>, m: Member)
    ensures Entries(ms + [m]) == Entries(ms) + [m.entry]
    ensures ByName(ms + [m]) == ByName(ms)[m.entry.name := m.entry.data]
  {
    assert (ms + [m])[..|ms|] == ms;
  }

  lemma ParseBegins(data: seq<byte>)
    requires MAGIC <= data
    ensures ParsedUpTo(data, |MAGIC|, [])
  {
    var rest := ParseFrom(data, |MAGIC|);
    assert rest.Ok? ==> [] + rest.value == rest.value;
  }

  lemma ParseFails(data: seq<byte>, pos: nat, done: seq<Member>, error: Error)
    requires pos + HEADER_SIZE <= |data| && ReadMember(data, pos) == Err(error) && ParsedUpTo(data, pos, done)
    ensures Parse(data) == Err(error)
  {
  }

  lemma ParseEnds(data: seq<byte>, pos: nat, done: seq<Member>)
    requires MAGIC <= data && ParsedUpTo(data, pos, done) && |data| < pos + HEADER_SIZE
    ensures Parse(data) == Ok(done)
  {
    assert ParseFrom(data, pos) == Ok([]);
    assert done + [] == done;
  }

  /** The parsing loop. */
  method ParseAr(data: seq<byte>) returns (members: map<seq<byte>, seq<byte>>, order: seq<Entry>, err: Option<Error>)
    ensures err == (if Parse(data).Err? then Some(Parse(data).error) else None)
    ensures err.None? ==> order == Entries(Parse(data).value) && members == ByName(Parse(data).value)
  {
    members, order := map[], [];
    if !(MAGIC <= data) {
      return members, order, Some(NotAnArchive);
    }
    ghost var done: seq<Member> := [];
    var pos: nat := |MAGIC|;
    ParseBegins(data);
    while pos < |data|
      invariant order == Entries(done) && members == ByName(done)
      invariant ParsedUpTo(data, pos, done)
      decreases |data| - pos
    {
      if pos + HEADER_SIZE > |data| {
        break;
      }
      var m := ReadMember(data, pos);
      if m.Err? {
        ParseFails(data, pos, done, m.error);
        return members, order, Some(m.error);
      }
      ParsedOneMore(data, pos, done, m.value);
      Appended(done, m.value);
      done := done + [m.value];
      members := members[m.value.entry.name := m.value.entry.data];
      order := order + [m.value.entry];
      pos := pos + Span(m.value.entry);
    }
    ParseEnds(data, pos, done);
    err := None;
  }

  // ---------------------------------------------------------------- what parses

  /** Where these members end if they begin at `pos`. */
  function EndOf(pos: nat, ms: seq<Member>): nat
    decreases |ms|
  {
    if ms == [] then pos else EndOf(pos + Span(ms[0].entry), ms[1..])
  }

  lemma LaidRead(data: seq<byte>, pos: nat, m: Member)
    requires Described(m) && pos + 60 + |m.entry.data| <= |data|
    requires data[pos..pos + 60] == m.header && data[pos + 60..pos + 60 + |m.entry.data|] == m.entry.data
    ensures ReadMember(data, pos) == Ok(m)
  {
  }

  lemma {:induction false} LaidParses(data: seq<byte>, pos: nat, ms: seq<Member>)
    requires Laid(data, pos, ms) && AllDescribed(ms) && |data| < EndOf(pos, ms) + 60
    ensures ParseFrom(data, pos) == Ok(ms)
    decreases |ms|
  {
    if ms != [] {
      LaidRead(data, pos, ms[0]);
      LaidParses(data, pos + Span(ms[0].entry), ms[1..]);
      ParseJoin(data, pos, ms);
    }
  }

  lemma {:induction false} ParsedToEnd(data: seq<byte>, pos: nat)
    requires ParseFrom(data, pos).Ok?
    ensures |data| < EndOf(pos, ParseFrom(data, pos).value) + 60
    decreases |data| - pos
  {
    if pos + HEADER_SIZE <= |data| {
      var m := ReadMember(data, pos).value;
      ParsedToEnd(data, pos + Span(m.entry));
      var ms := ParseFrom(data, pos).value;
      assert ms[0] == m && ms[1..] == ParseFrom(data, pos + Span(m.entry)).value;
    }
  }

  /** An archive parses to these members if and only if it begins with "!<arch>" and a newline,
      the members stand in it one after the other, each header describes its member, and what
      is left is too short for a header. */
  lemma ParseExactly(data: seq<byte>, ms: seq<Member>)
    ensures Parse(data) == Ok(ms) <==>
      [33, 60, 97, 114, 99, 104, 62, 10] <= data && Laid(data, 8, ms) && AllDescribed(ms) && |data| < EndOf(8, ms) + 60
  {
    if Parse(data) == Ok(ms) {
      ParsedAreLaid(data, 8);
      ParsedAreDescribed(data, 8);
      ParsedToEnd(data, 8);
    }
    if [33, 60, 97, 114, 99, 104, 62, 10] <= data && Laid(data, 8, ms) && AllDescribed(ms) && |data| < EndOf(8, ms) + 60 {
      LaidParses(data, 8, ms);
    }
  }

  lemma SliceOfSlice(data: seq<byte>, pos: nat, n: nat, i: nat, j: nat)
    requires pos + n <= |data| && i <= j <= n
    ensures data[pos..pos + n][i..j] == data[pos + i..pos + j]
  {
    var a, b := data[pos..pos + n][i..j], data[pos + i..pos + j];
    assert |a| == |b| && forall k :: 0 <= k < |a| ==> a[k] == b[k];
  }

  lemma TwoBytes(data: seq<byte>, i: nat)
    requires i + 2 <= |data|
    ensures data[i..i + 2] == [data[i], data[i + 1]]
  {
  }

  /** Why the member at `pos` cannot be read, if it cannot: its header does not end in a grave
      accent and a newline, its size is no number, it reaches beyond the end, or it is negative. */
  lemma ErrorsExactly(data: seq<byte>, pos: nat)
    requires pos + 60 <= |data|
    ensures var r, ends, size := ReadMember(data, pos), data[pos + 58] == 96 && data[pos + 59] == 10, ScanInt(data[pos + 48..pos + 58]);
            && (r == Err(BadHeader(pos)) <==> !ends)
            && (r == Err(BadSize(pos)) <==> ends && size.None?)
            && (r == Err(Truncated(pos)) <==> ends && size.Some? && |data| - pos - 60 < size.value)
            && (r == Err(NegativeSize(pos)) <==> ends && size.Some? && size.value < 0)
  {
    SliceOfSlice(data, pos, 60, 58, 60);
    SliceOfSlice(data, pos, 60, 48, 58);
    TwoBytes(data, pos + 58);
  }

  // ---------------------------------------------------------------- rebuilding

  function Pad(data: seq<byte>): seq<byte> {
    if |data| % 2 != 0 then [0] else []
  }

  function Body(m: Member): seq<byte> {
    m.header + m.entry.data + Pad(m.entry.data)
  }

  /** The bytes an archive of these members has after its magic. */
  function Serialize(ms: seq<Member>): seq<byte> {
    if ms == [] then [] else Body(ms[0]) + Serialize(ms[1..])
  }

  function Keep(ms: seq<Member>, skip: seq<byte>): seq<Member> {
    if ms == [] then []
    else if ms[0].entry.name == skip then Keep(ms[1..], skip)
    else [ms[0]] + Keep(ms[1..], skip)
  }

  /** What the rebuilder appends for one entry whose header stands at `pos`. */
  function Chunk(original: seq<byte>, e: Entry, skip: seq<byte>, pos: nat): seq<byte> {
    if e.name == skip then []
    else (if pos + HEADER_SIZE <= |original| then original[pos..pos + HEADER_SIZE] else []) + e.data + Pad(e.data)
  }

  function RebuildFrom(original: seq<byte>, order: seq<Entry>, skip: seq<byte>, pos: nat): seq<byte> {
    if order == [] then []
    else Chunk(original, order[0], skip, pos) + RebuildFrom(original, order[1..], skip, pos + Span(order[0]))
  }

  /** The loop body: appends one entry and advances in the original. */
  method CopyEntry(original: seq<byte>, entry: Entry, skip: seq<byte>, pos: nat) returns (chunk: seq<byte>, next: nat)
    ensures chunk == Chunk(original, entry, skip, pos) && next == pos + Span(entry)
  {
    chunk := [];
    if entry.name != skip {
      if pos + HEADER_SIZE <= |original| {
        chunk := original[pos..pos + HEADER_SIZE];
      }
      chunk := chunk + entry.data;
      if |entry.data| % 2 != 0 {
        chunk := chunk + [0];
      }
    }
    next := pos + HEADER_SIZE + |entry.data|;
    if |entry.data| % 2 != 0 {
      next := next + 1;
    }
  }

  lemma Associate(a: seq<byte>, b: seq<byte>, c: seq<byte>)
    ensures a + (b + c) == a + b + c
  {
  }

  method RebuildArWithout(original: seq<byte>, order: seq<Entry>, skip: seq<byte>) returns (buf: seq<byte>)
    ensures buf == MAGIC + RebuildFrom(original, order, skip, |MAGIC|)
  {
    buf := MAGIC;
    var pos: nat := |MAGIC|;
    assert order[0..] == order;
    for i := 0 to |order|
      invariant MAGIC + RebuildFrom(original, order, skip, |MAGIC|) == buf + RebuildFrom(original, order[i..], skip, pos)
    {
      assert order[i..][0] == order[i] && order[i..][1..] == order[i + 1..];
      var chunk, next := CopyEntry(original, order[i], skip, pos);
      Associate(buf, chunk, RebuildFrom(original, order[i + 1..], skip, next));
      buf, pos := buf + chunk, next;
    }
    assert order[|order|..] == [];
  }

  /** A member whose header describes it. */
  predicate Described(m: Member) {
    && |m.header| == HEADER_SIZE && m.header[58..60] == FILE_MAGIC
    && HeaderName(m.header) == m.entry.name && HeaderSize(m.header) == Some(|m.entry.data|)
  }

  predicate AllDescribed(ms: seq<Member>) {
    ms != [] ==> Described(ms[0]) && AllDescribed(ms[1..])
  }

  lemma {:induction false} ParsedAreDescribed(data: seq<byte>, pos: nat)
    requires ParseFrom(data, pos).Ok?
    ensures AllDescribed(ParseFrom(data, pos).value)
    decreases |data| - pos
  {
    if pos + HEADER_SIZE <= |data| {
      var m := ReadMember(data, pos).value;
      ParsedAreDescribed(data, pos + Span(m.entry));
      var ms := ParseFrom(data, pos).value;
      assert ms[0] == m && ms[1..] == ParseFrom(data, pos + Span(m.entry)).value;
    }
  }

  /** The headers and data of `ms` stand in `data` one after the other, from `pos` on. */
  ghost predicate Laid(data: seq<byte>, pos: nat, ms: seq<Member>)
    decreases |ms|
  {
    ms != [] ==>
      var start, end := pos + HEADER_SIZE, pos + HEADER_SIZE + |ms[0].entry.data|;
      && end <= |data| && data[pos..start] == ms[0].header && data[start..end] == ms[0].entry.data
      && Laid(data, pos + Span(ms[0].entry), ms[1..])
  }

  lemma {:induction false} ParsedAreLaid(data: seq<byte>, pos: nat)
    requires ParseFrom(data, pos).Ok?
    ensures Laid(data, pos, ParseFrom(data, pos).value)
    decreases |data| - pos
  {
    if pos + HEADER_SIZE <= |data| {
      var m := ReadMember(data, pos).value;
      ParsedAreLaid(data, pos + Span(m.entry));
      var ms := ParseFrom(data, pos).value;
      assert ms[0] == m && ms[1..] == ParseFrom(data, pos + Span(m.entry)).value;
    }
  }

  lemma KeepUnfolds(ms: seq<Member>, skip: seq<byte>)
    requires ms != []
    ensures Serialize(Keep(ms, skip)) ==
            if ms[0].entry.name == skip then Serialize(Keep(ms[1..], skip)) else Body(ms[0]) + Serialize(Keep(ms[1..], skip))
  {
    var kept := Keep(ms[1..], skip);
    assert ([ms[0]] + kept)[1..] == kept;
  }

  lemma RebuildUnfolds(data: seq<byte>, pos: nat, ms: seq<Member>, skip: seq<byte>)
    requires ms != [] && Laid(data, pos, ms)
    ensures RebuildFrom(data, Entries(ms), skip, pos) ==
            (if ms[0].entry.name == skip then [] else Body(ms[0])) + RebuildFrom(data, Entries(ms[1..]), skip, pos + Span(ms[0].entry))
  {
    assert Entries(ms)[1..] == Entries(ms[1..]);
  }

  lemma {:induction false} RebuildLaid(data: seq<byte>, pos: nat, ms: seq<Member>, skip: seq<byte>)
    requires Laid(data, pos, ms)
    ensures RebuildFrom(data, Entries(ms), skip, pos) == Serialize(Keep(ms, skip))
    decreases |ms|
  {
    if ms != [] {
      RebuildLaid(data, pos + Span(ms[0].entry), ms[1..], skip);
      RebuildUnfolds(data, pos, ms, skip);
      KeepUnfolds(ms, skip);
      var rest := Serialize(Keep(ms[1..], skip));
      assert [] + rest == rest;
    }
  }

  /** Rebuilding what was parsed serializes the members that are kept. */
  lemma RebuildSerializes(data: seq<byte>, pos: nat, skip: seq<byte>)
    requires ParseFrom(data, pos).Ok?
    ensures var ms := ParseFrom(data, pos).value;
            RebuildFrom(data, Entries(ms), skip, pos) == Serialize(Keep(ms, skip))
  {
    ParsedAreLaid(data, pos);
    RebuildLaid(data, pos, ParseFrom(data, pos).value, skip);
  }

  /** Three consecutive stretches of `all` from `pos` on. */
  lemma Stretches(all: seq<byte>, pos: nat, a: seq<byte>, b: seq<byte>, c: seq<byte>)
    requires pos <= |all| && all[pos..] == a + b + c
    ensures |all| == pos + |a| + |b| + |c|
    ensures all[pos..pos + |a|] == a && all[pos + |a|..pos + |a| + |b|] == b && all[pos + |a| + |b|..] == c
  {
    var tail := all[pos..];
    assert tail[..|a|] == a && tail[|a|..|a| + |b|] == b && tail[|a| + |b|..] == c;
  }

  /** A described member is read back from its bytes, whatever byte pads it. */
  lemma ReadPadded(all: seq<byte>, pos: nat, m: Member, padding: seq<byte>, rest: seq<byte>)
    requires Described(m) && |padding| == |m.entry.data| % 2
    requires pos <= |all| && all[pos..] == m.header + m.entry.data + padding + rest
    ensures pos + HEADER_SIZE <= |all| && ReadMember(all, pos) == Ok(m)
    ensures pos + Span(m.entry) <= |all| && all[pos + Span(m.entry)..] == rest
  {
    Stretches(all, pos, m.header + m.entry.data + padding, [], rest);
    assert m.header + m.entry.data + padding + rest == m.header + m.entry.data + (padding + rest);
    Stretches(all, pos, m.header, m.entry.data, padding + rest);
  }

  lemma ReadBody(all: seq<byte>, pos: nat, m: Member, rest: seq<byte>)
    requires Described(m) && pos <= |all| && all[pos..] == Body(m) + rest
    ensures pos + HEADER_SIZE <= |all| && ReadMember(all, pos) == Ok(m)
    ensures pos + Span(m.entry) <= |all| && all[pos + Span(m.entry)..] == rest
  {
    ReadPadded(all, pos, m, Pad(m.entry.data), rest);
  }

  lemma ParseJoin(all: seq<byte>, pos: nat, ms: seq<Member>)
    requires ms != [] && pos + HEADER_SIZE <= |all| && ReadMember(all, pos) == Ok(ms[0])
    requires ParseFrom(all, pos + Span(ms[0].entry)) == Ok(ms[1..])
    ensures ParseFrom(all, pos) == Ok(ms)
  {
    assert [ms[0]] + ms[1..] == ms;
  }

  /** Serialized members parse back, wherever they start. */
  lemma {:induction false} ParseSerialized(all: seq<byte>, pos: nat, ms: seq<Member>)
    requires AllDescribed(ms)
    requires pos <= |all| && all[pos..] == Serialize(ms)
    ensures ParseFrom(all, pos) == Ok(ms)
    decreases |ms|
  {
    if ms != [] {
      ReadBody(all, pos, ms[0], Serialize(ms[1..]));
      ParseSerialized(all, pos + Span(ms[0].entry), ms[1..]);
      ParseJoin(all, pos, ms);
    }
  }

  /** Keeping members keeps them described, and keeping twice keeps no fewer. */
  lemma {:induction false} KeepSelects(ms: seq<Member>, skip: seq<byte>)
    ensures AllDescribed(ms) ==> AllDescribed(Keep(ms, skip))
    ensures Keep(Keep(ms, skip), skip) == Keep(ms, skip)
  {
    if ms != [] {
      KeepSelects(ms[1..], skip);
      var kept := Keep(ms[1..], skip);
      assert ([ms[0]] + kept)[1..] == kept;
    }
  }

  /** What `RebuildArWithout` returns for a parsed archive. */
  function Rebuilt(data: seq<byte>, skip: seq<byte>): seq<byte>
    requires Parse(data).Ok?
  {
    MAGIC + RebuildFrom(data, Entries(Parse(data).value), skip, |MAGIC|)
  }

  /** Round trip: the rebuilt archive parses to the original members minus those named
      `skip`, in order and with identical headers, and rebuilding it changes nothing. */
  lemma RebuildRoundTrip(data: seq<byte>, skip: seq<byte>)
    requires Parse(data).Ok?
    ensures Parse(Rebuilt(data, skip)) == Ok(Keep(Parse(data).value, skip))
    ensures Rebuilt(Rebuilt(data, skip), skip) == Rebuilt(data, skip)
  {
    var ms := Parse(data).value;
    RebuildSerializes(data, |MAGIC|, skip);
    ParsedAreDescribed(data, |MAGIC|);
    KeepSelects(ms, skip);
    assert Rebuilt(data, skip)[|MAGIC|..] == Serialize(Keep(ms, skip));
    ParseSerialized(Rebuilt(data, skip), |MAGIC|, Keep(ms, skip));
    RebuildSerializes(Rebuilt(data, skip), |MAGIC|, skip);
  }

  // ---------------------------------------------------------------- headers as ar(5) writes them

  function DigitByte(d: nat): byte
    requires d < 10
  {
    [48, 49, 50, 51, 52, 53, 54, 55, 56, 57][d]
  }

  function Decimal(n: nat): seq<byte> {
    if n < 10 then [DigitByte(n)] else Decimal(n / 10) + [DigitByte(n % 10)]
  }

  function Spaces(n: nat): (r: seq<byte>)
    ensures |r| == n
  {
    if n == 0 then [] else [32] + Spaces(n - 1)
  }

  lemma DigitByteRead(d: nat, tail: seq<byte>, value: nat)
    requires d < 10
    ensures IsDigit(DigitByte(d)) && Digits([DigitByte(d)] + tail, value) == Digits(tail, 10 * value + d)
  {
    assert ([DigitByte(d)] + tail)[1..] == tail;
  }

  lemma {:induction false} DigitsOfDecimal(n: nat, tail: seq<byte>)
    ensures Decimal(n) != [] && IsDigit(Decimal(n)[0])
    ensures Digits(Decimal(n) + tail, 0) == Digits(tail, n)
  {
    if n < 10 {
      DigitByteRead(n, tail, 0);
    } else {
      var last := [DigitByte(n % 10)];
      DigitsOfDecimal(n / 10, last + tail);
      DigitByteRead(n % 10, tail, n / 10);
      assert Decimal(n) + tail == Decimal(n / 10) + (last + tail);
    }
  }

  /** Nothing but ASCII spaces. */
  predicate Blank(s: seq<byte>) {
    forall b :: b in s ==> b in {9, 10, 11, 12, 13, 32}
  }

  /** A decimal number, after spaces and with a sign or not, is read from a size field, whatever
      follows its last digit. */
  lemma NumberRead(blanks: seq<byte>, sign: seq<byte>, n: nat, rest: seq<byte>)
    requires Blank(blanks) && sign in {[], [43], [45]} && (rest == [] || !(48 <= rest[0] <= 57))
    ensures ScanInt(blanks + sign + Decimal(n) + rest) == Some(if sign == [45] then -(n as int) else n)
  {
    var digits := Decimal(n) + rest;
    var number := sign + digits;
    DigitsOfDecimal(n, rest);
    assert blanks + sign + Decimal(n) + rest == blanks + number;
    BlanksSkipped(blanks, number);
    assert sign != [] ==> number[1..] == digits;
    assert sign == [] ==> number == digits;
  }

  lemma {:induction false} BlanksSkipped(blanks: seq<byte>, s: seq<byte>)
    requires Blank(blanks) && s != [] && !IsSpace(s[0])
    ensures SkipSpaces(blanks + s) == s
  {
    if blanks == [] {
      assert blanks + s == s;
    } else {
      assert forall b :: b in blanks[1..] ==> b in blanks;
      assert blanks[0] in blanks && (blanks + s)[1..] == blanks[1..] + s;
      BlanksSkipped(blanks[1..], s);
    }
  }

  /** A field without a digit where the number should be is no size. */
  lemma NoNumberRead(blanks: seq<byte>, sign: seq<byte>, rest: seq<byte>)
    requires Blank(blanks) && sign in {[], [43], [45]} && rest != []
    requires !(48 <= rest[0] <= 57) && !IsSpace(rest[0]) && rest[0] !in {43, 45}
    ensures ScanInt(blanks + sign + rest) == None
  {
    assert blanks + sign + rest == blanks + (sign + rest);
    BlanksSkipped(blanks, sign + rest);
    assert sign != [] ==> (sign + rest)[1..] == rest;
    assert sign == [] ==> sign + rest == rest;
  }

  lemma SizeFieldRead(field: seq<byte>, n: nat, k: nat)
    requires field == Decimal(n) + Spaces(k)
    ensures ScanInt(field) == Some(n)
  {
    assert [] + [] + Decimal(n) + Spaces(k) == field;
    NumberRead([], [], n, Spaces(k));
  }

  /** A name that ends in neither space nor slash is read, whatever pads it of the two; some
      archivers end a name with a slash. */
  lemma {:induction false} NameFieldRead(field: seq<byte>, name: seq<byte>)
    requires name <= field && (name == [] || name[|name| - 1] !in {32, 47})
    requires forall i :: |name| <= i < |field| ==> field[i] == 32 || field[i] == 47
    ensures TrimName(field) == name
    decreases |field|
  {
    if |field| > |name| {
      NameFieldRead(field[..|field| - 1], name);
    }
  }

  /** A header: name, 32 bytes of date, owner, group and mode, size, and the closing magic. */
  function Header(name: seq<byte>, middle: seq<byte>, size: nat): seq<byte>
    requires |name| <= 16 && |middle| == 32 && |Decimal(size)| <= 10
  {
    (name + Spaces(16 - |name|)) + middle + (Decimal(size) + Spaces(10 - |Decimal(size)|)) + FILE_MAGIC
  }

  lemma Fields(a: seq<byte>, b: seq<byte>, c: seq<byte>, d: seq<byte>)
    requires |a| == 16 && |b| == 32 && |c| == 10 && |d| == 2
    ensures var h := a + b + c + d; |h| == HEADER_SIZE && h[0..16] == a && h[48..58] == c && h[58..60] == d
  {
  }

  /** Whether a header was written in this format, its name padded with spaces or slashes. */
  predicate IsHeader(h: seq<byte>, name: seq<byte>, size: nat) {
    && |h| == 60 && |name| <= 16 && |Decimal(size)| <= 10
    && name <= h[0..16] && (forall i :: |name| <= i < 16 ==> h[i] == 32 || h[i] == 47)
    && h[48..58] == Decimal(size) + Spaces(10 - |Decimal(size)|)
    && h[58] == 96 && h[59] == 10
  }

  lemma HeaderIs(name: seq<byte>, middle: seq<byte>, size: nat)
    requires |name| <= 16 && |middle| == 32 && |Decimal(size)| <= 10
    ensures IsHeader(Header(name, middle, size), name, size)
  {
    var field, h := name + Spaces(16 - |name|), Header(name, middle, size);
    Fields(field, middle, Decimal(size) + Spaces(10 - |Decimal(size)|), FILE_MAGIC);
    AllSpaces(16 - |name|);
    forall i | |name| <= i < 16 ensures h[i] == 32 {
      assert h[i] == h[0..16][i] == field[i] == Spaces(16 - |name|)[i - |name|];
    }
    assert h[58] == h[58..60][0] && h[59] == h[58..60][1];
  }

  lemma {:induction false} AllSpaces(n: nat)
    ensures forall i :: 0 <= i < n ==> Spaces(n)[i] == 32
  {
    if n != 0 {
      AllSpaces(n - 1);
    }
  }

  lemma NameRead(h: seq<byte>, name: seq<byte>, size: nat)
    requires IsHeader(h, name, size) && (name == [] || name[|name| - 1] !in {32, 47})
    ensures HeaderName(h) == name
  {
    NameFieldRead(h[0..16], name);
  }

  lemma SizeRead(h: seq<byte>, name: seq<byte>, size: nat)
    requires IsHeader(h, name, size)
    ensures HeaderSize(h) == Some(size)
  {
    SizeFieldRead(h[48..58], size, 10 - |Decimal(size)|);
  }

  /** Headers in this format describe their members, so archives made of them are parsed as
      they were written. */
  lemma HeaderDescribes(h: seq<byte>, name: seq<byte>, data: seq<byte>)
    requires IsHeader(h, name, |data|) && (name == [] || name[|name| - 1] !in {32, 47})
    ensures Described(Member(h, Entry(name, data)))
  {
    assert h[58..60] == [h[58], h[59]];
    NameRead(h, name, |data|);
    SizeRead(h, name, |data|);
  }

  /** A file to be archived. */
  datatype File = File(name: seq<byte>, middle: seq<byte>, data: seq<byte>)

  /** Whether the header format has room for it. */
  predicate Writable(f: File) {
    && |f.name| <= 16 && |f.middle| == 32 && |Decimal(|f.data|)| <= 10
    && (f.name == [] || f.name[|f.name| - 1] !in {32, 47})
  }

  predicate AllWritable(fs: seq<File>) {
    fs != [] ==> Writable(fs[0]) && AllWritable(fs[1..])
  }

  function MemberOf(f: File): Member
    requires Writable(f)
  {
    Member(Header(f.name, f.middle, |f.data|), Entry(f.name, f.data))
  }

  function Members(fs: seq<File>): seq<Member>
    requires AllWritable(fs)
  {
    if fs == [] then [] else [MemberOf(fs[0])] + Members(fs[1..])
  }

  /** The members one after the other, those of odd size padded with a byte; ar(5) pads with
      a newline. */
  function Written(ms: seq<Member>, pad: byte): seq<byte> {
    if ms == [] then [] else ms[0].header + ms[0].entry.data + Padding(ms[0], pad) + Written(ms[1..], pad)
  }

  function Padding(m: Member, pad: byte): (r: seq<byte>)
    ensures |r| == |m.entry.data| % 2
  {
    if |m.entry.data| % 2 != 0 then [pad] else []
  }

  lemma MemberDescribed(f: File)
    requires Writable(f)
    ensures Described(MemberOf(f))
  {
    HeaderIs(f.name, f.middle, |f.data|);
    HeaderDescribes(Header(f.name, f.middle, |f.data|), f.name, f.data);
  }

  lemma {:induction false} MembersDescribed(fs: seq<File>)
    requires AllWritable(fs)
    ensures AllDescribed(Members(fs))
  {
    if fs != [] {
      MemberDescribed(fs[0]);
      MembersDescribed(fs[1..]);
      assert Members(fs)[1..] == Members(fs[1..]);
    }
  }

  lemma ReadWritten(all: seq<byte>, pos: nat, ms: seq<Member>, pad: byte)
    requires ms != [] && Described(ms[0]) && pos <= |all| && all[pos..] == Written(ms, pad)
    ensures pos + HEADER_SIZE <= |all| && ReadMember(all, pos) == Ok(ms[0])
    ensures pos + Span(ms[0].entry) <= |all| && all[pos + Span(ms[0].entry)..] == Written(ms[1..], pad)
  {
    ReadPadded(all, pos, ms[0], Padding(ms[0], pad), Written(ms[1..], pad));
  }

  lemma {:induction false} WrittenFrom(all: seq<byte>, pos: nat, ms: seq<Member>, pad: byte)
    requires AllDescribed(ms) && pos <= |all| && all[pos..] == Written(ms, pad)
    ensures ParseFrom(all, pos) == Ok(ms)
    decreases |ms|
  {
    if ms != [] {
      ReadWritten(all, pos, ms, pad);
      WrittenFrom(all, pos + Span(ms[0].entry), ms[1..], pad);
      ParseJoin(all, pos, ms);
    }
  }

  /** An archive written in the format parses to the files it was written from. */
  lemma WrittenParses(fs: seq<File>, pad: byte)
    requires AllWritable(fs)
    ensures Parse(MAGIC + Written(Members(fs), pad)) == Ok(Members(fs))
  {
    var all := MAGIC + Written(Members(fs), pad);
    assert all[|MAGIC|..] == Written(Members(fs), pad);
    MembersDescribed(fs);
    WrittenFrom(all, |MAGIC|, Members(fs), pad);
  }

  // ---------------------------------------------------------------- against plain excision

  /** The raw bytes of the member at `pos`, cut short if its padding byte is missing. */
  function RawMember(data: seq<byte>, pos: nat, e: Entry): seq<byte>
    requires pos + HEADER_SIZE + |e.data| <= |data|
  {
    if pos + Span(e) <= |data| then data[pos..pos + Span(e)] else data[pos..]
  }

  /** The original from `pos` on without the bytes of the skipped members. */
  ghost function Excised(data: seq<byte>, pos: nat, ms: seq<Member>, skip: seq<byte>): seq<byte>
    requires Laid(data, pos, ms)
    decreases |ms|
  {
    if ms == [] then (if |data| <= pos then [] else data[pos..])
    else
      (if ms[0].entry.name == skip then [] else RawMember(data, pos, ms[0].entry))
      + Excised(data, pos + Span(ms[0].entry), ms[1..], skip)
  }

  /** The member's padding byte, if it has odd size, is there and zero. */
  predicate PadIsZero(data: seq<byte>, pos: nat, e: Entry) {
    |e.data| % 2 == 0 || (pos + Span(e) <= |data| && data[pos + Span(e) - 1] == 0)
  }

  /** Every kept member is padded with zero, and nothing trails the last member. */
  ghost predicate ZeroPadded(data: seq<byte>, pos: nat, ms: seq<Member>, skip: seq<byte>)
    decreases |ms|
  {
    if ms == [] then |data| <= pos
    else
      && (ms[0].entry.name == skip || PadIsZero(data, pos, ms[0].entry))
      && ZeroPadded(data, pos + Span(ms[0].entry), ms[1..], skip)
  }

  lemma ConcatEqual(a: seq<byte>, x: seq<byte>, b: seq<byte>, y: seq<byte>)
    requires |a| == |b|
    ensures a + x == b + y <==> a == b && x == y
  {
    if a + x == b + y {
      assert a == (a + x)[..|a|] && x == (a + x)[|a|..];
      assert b == (b + y)[..|b|] && y == (b + y)[|b|..];
    }
  }

  /** A kept member is rebuilt as it was exactly if its padding is there and zero. */
  lemma BodyIsRaw(data: seq<byte>, pos: nat, ms: seq<Member>)
    requires ms != [] && Laid(data, pos, ms)
    ensures |Body(ms[0])| == Span(ms[0].entry)
    ensures var raw := RawMember(data, pos, ms[0].entry);
            && |raw| == (if pos + Span(ms[0].entry) <= |data| then Span(ms[0].entry) else Span(ms[0].entry) - 1)
            && (Body(ms[0]) == raw <==> PadIsZero(data, pos, ms[0].entry))
  {
    var m := ms[0];
    var size := |m.entry.data|;
    var end := pos + HEADER_SIZE + size;
    assert data[pos..end] == data[pos..pos + HEADER_SIZE] + data[pos + HEADER_SIZE..end];
    if size % 2 == 0 {
      assert RawMember(data, pos, m.entry) == data[pos..end];
    } else if pos + Span(m.entry) <= |data| {
      assert RawMember(data, pos, m.entry) == data[pos..end] + [data[end]];
      ConcatEqual(m.header + m.entry.data, [0], data[pos..end], [data[end]]);
    }
  }

  lemma KeptMemberCompared(data: seq<byte>, pos: nat, ms: seq<Member>, rest: seq<byte>, raw: seq<byte>)
    requires ms != [] && Laid(data, pos, ms)
    requires |data| < pos + Span(ms[0].entry) ==> raw == []
    ensures Body(ms[0]) + rest == RawMember(data, pos, ms[0].entry) + raw <==>
              PadIsZero(data, pos, ms[0].entry) && rest == raw
  {
    BodyIsRaw(data, pos, ms);
    if pos + Span(ms[0].entry) <= |data| {
      ConcatEqual(Body(ms[0]), rest, RawMember(data, pos, ms[0].entry), raw);
    } else {
      assert |RawMember(data, pos, ms[0].entry) + raw| < |Body(ms[0]) + rest|;
    }
  }

  lemma NothingPastTheEnd(data: seq<byte>, pos: nat, ms: seq<Member>, skip: seq<byte>)
    requires Laid(data, pos, ms) && |data| < pos
    ensures ms == [] && Excised(data, pos, ms, skip) == []
  {
  }

  /** One member of the comparison, given what the rest comes to on either side. */
  lemma ExcisionUnfolds(data: seq<byte>, pos: nat, ms: seq<Member>, skip: seq<byte>)
    requires ms != [] && Laid(data, pos, ms)
    ensures var e, next := ms[0].entry, pos + Span(ms[0].entry);
            Serialize(Keep(ms, skip)) == Excised(data, pos, ms, skip) <==>
              Serialize(Keep(ms[1..], skip)) == Excised(data, next, ms[1..], skip) && (e.name == skip || PadIsZero(data, pos, e))
  {
    var next := pos + Span(ms[0].entry);
    KeepUnfolds(ms, skip);
    var rest, raw := Serialize(Keep(ms[1..], skip)), Excised(data, next, ms[1..], skip);
    if |data| < next {
      NothingPastTheEnd(data, next, ms[1..], skip);
    }
    KeptMemberCompared(data, pos, ms, rest, raw);
    assert [] + raw == raw;
  }

  lemma {:induction false} RebuildIsExcisionLaid(data: seq<byte>, pos: nat, ms: seq<Member>, skip: seq<byte>)
    requires Laid(data, pos, ms)
    ensures Serialize(Keep(ms, skip)) == Excised(data, pos, ms, skip) <==> ZeroPadded(data, pos, ms, skip)
    decreases |ms|
  {
    if ms != [] {
      RebuildIsExcisionLaid(data, pos + Span(ms[0].entry), ms[1..], skip);
      ExcisionUnfolds(data, pos, ms, skip);
    }
  }

  /** The rebuilt archive is the original with the skipped members cut out if and only if
      every kept member of odd size is padded with zero and nothing trails the last one. */
  lemma RebuildIsExcision(data: seq<byte>, skip: seq<byte>)
    requires Parse(data).Ok?
    ensures Laid(data, |MAGIC|, Parse(data).value)
    ensures Rebuilt(data, skip) == MAGIC + Excised(data, |MAGIC|, Parse(data).value, skip) <==>
            ZeroPadded(data, |MAGIC|, Parse(data).value, skip)
  {
    var ms := Parse(data).value;
    ParsedAreLaid(data, |MAGIC|);
    RebuildLaid(data, |MAGIC|, ms, skip);
    RebuildIsExcisionLaid(data, |MAGIC|, ms, skip);
    ConcatEqual(MAGIC, Serialize(Keep(ms, skip)), MAGIC, Excised(data, |MAGIC|, ms, skip));
  }
}
