/** The session cookie: a payload in base64url without padding (section 5 of RFC 4648), a
    dot, and a signature of the payload. Strings are the octets Go strings are made of. */
module Session {
  import opened Wrappers

  type Octet = x: int | 0 <= x < 256
  type Octets = seq<Octet>

  const LF: Octet := 10
  const CR: Octet := 13
  const PLUS: Octet := 43
  const MINUS: Octet := 45
  const DOT: Octet := 46
  const ZERO: Octet := 48
  const PIPE: Octet := 124

  // ---------------------------------------------------------------- base64url

  type Sextet = x: int | 0 <= x < 64

  /** A-Z, a-z, 0-9, minus and underscore. */
  function Symbol(v: Sextet): Octet {
    if v < 26 then 65 + v
    else if v < 52 then 97 + (v - 26)
    else if v < 62 then 48 + (v - 52)
    else if v == 62 then 45
    else 95
  }

  function SymbolValue(c: Octet): Option<Sextet> {
    if 65 <= c <= 90 then Some(c - 65)
    else if 97 <= c <= 122 then Some(c - 97 + 26)
    else if 48 <= c <= 57 then Some(c - 48 + 52)
    else if c == 45 then Some(62)
    else if c == 95 then Some(63)
    else None
  }

  function Sextet0(x: Octet): Sextet { x / 4 }
  function Sextet1(x: Octet, y: Octet): Sextet { x % 4 * 16 + y / 16 }
  function Sextet2(y: Octet, z: Octet): Sextet { y % 16 * 4 + z / 64 }
  function Sextet3(z: Octet): Sextet { z % 64 }

  function Encode64(b: Octets): Octets {
    if |b| == 0 then []
    else if |b| == 1 then [Symbol(Sextet0(b[0])), Symbol(Sextet1(b[0], 0))]
    else if |b| == 2 then [Symbol(Sextet0(b[0])), Symbol(Sextet1(b[0], b[1])), Symbol(Sextet2(b[1], 0))]
    else
      [Symbol(Sextet0(b[0])), Symbol(Sextet1(b[0], b[1])), Symbol(Sextet2(b[1], b[2])), Symbol(Sextet3(b[2]))]
      + Encode64(b[3..])
  }

  /** Line breaks are skipped wherever they stand. */
  function SkipBreaks(s: Octets): Octets {
    if s == [] then []
    else if s[0] == LF || s[0] == CR then SkipBreaks(s[1..])
    else [s[0]] + SkipBreaks(s[1..])
  }

  function Sextets(s: Octets): Option<seq<Sextet>> {
    if s == [] then Some([])
    else
      match SymbolValue(s[0])
      case None => None
      case Some(v) =>
        match Sextets(s[1..])
        case None => None
        case Some(rest) => Some([v] + rest)
  }

  function Byte0(a: Sextet, b: Sextet): Octet {
    (a as int) * 4 + b / 16
  }

  function Byte1(b: Sextet, c: Sextet): Octet {
    (b as int) % 16 * 16 + c / 4
  }

  function Byte2(c: Sextet, d: Sextet): Octet {
    (c as int) % 4 * 64 + d
  }

  /** Left-over bits of a short last group are dropped, whatever they are. */
  function Join(v: seq<Sextet>): Option<Octets> {
    if |v| == 0 then Some([])
    else if |v| == 1 then None
    else if |v| == 2 then Some([Byte0(v[0], v[1])])
    else if |v| == 3 then Some([Byte0(v[0], v[1]), Byte1(v[1], v[2])])
    else
      match Join(v[4..])
      case None => None
      case Some(rest) => Some([Byte0(v[0], v[1]), Byte1(v[1], v[2]), Byte2(v[2], v[3])] + rest)
  }

  function Decode64(s: Octets): Option<Octets> {
    match Sextets(SkipBreaks(s))
    case None => None
    case Some(v) => Join(v)
  }

  /** The sextets an encoding consists of. */
  function Split(b: Octets): seq<Sextet> {
    if |b| == 0 then []
    else if |b| == 1 then [Sextet0(b[0]), Sextet1(b[0], 0)]
    else if |b| == 2 then [Sextet0(b[0]), Sextet1(b[0], b[1]), Sextet2(b[1], 0)]
    else [Sextet0(b[0]), Sextet1(b[0], b[1]), Sextet2(b[1], b[2]), Sextet3(b[2])] + Split(b[3..])
  }

  function Symbols(v: seq<Sextet>): Octets {
    if v == [] then [] else [Symbol(v[0])] + Symbols(v[1..])
  }

  lemma SymbolRoundTrip(v: Sextet)
    ensures SymbolValue(Symbol(v)) == Some(v)
    ensures Symbol(v) != LF && Symbol(v) != CR && Symbol(v) != DOT
  {
  }

  lemma {:induction false} SymbolsRead(v: seq<Sextet>)
    ensures SkipBreaks(Symbols(v)) == Symbols(v) && Sextets(Symbols(v)) == Some(v) && DOT !in Symbols(v)
  {
    if v != [] {
      SymbolRoundTrip(v[0]);
      SymbolsRead(v[1..]);
      assert v == [v[0]] + v[1..];
      assert Symbols(v)[1..] == Symbols(v[1..]);
    }
  }

  lemma SymbolsCons(v: Sextet, rest: seq<Sextet>)
    ensures Symbols([v] + rest) == [Symbol(v)] + Symbols(rest)
  {
    assert ([v] + rest)[1..] == rest;
  }

  lemma SymbolsOfThree(a: Sextet, b: Sextet, c: Sextet, rest: seq<Sextet>)
    ensures Symbols([a, b, c] + rest) == [Symbol(a), Symbol(b), Symbol(c)] + Symbols(rest)
  {
    SymbolsCons(c, rest);
    SymbolsCons(b, [c] + rest);
    SymbolsCons(a, [b] + ([c] + rest));
    assert [a, b, c] + rest == [a] + ([b] + ([c] + rest));
  }

  lemma SplitOne(b: Octets)
    requires |b| == 1
    ensures Split(b) == [Sextet0(b[0]), Sextet1(b[0], 0)]
    ensures Encode64(b) == [Symbol(Sextet0(b[0])), Symbol(Sextet1(b[0], 0))]
  {
  }

  lemma SplitTwo(b: Octets)
    requires |b| == 2
    ensures Split(b) == [Sextet0(b[0]), Sextet1(b[0], b[1]), Sextet2(b[1], 0)]
    ensures Encode64(b) == [Symbol(Sextet0(b[0])), Symbol(Sextet1(b[0], b[1])), Symbol(Sextet2(b[1], 0))]
  {
  }

  lemma SymbolsOfTwo(a: Sextet, b: Sextet)
    ensures Symbols([a, b]) == [Symbol(a), Symbol(b)]
  {
    SymbolsCons(a, [b]);
    SymbolsCons(b, []);
    assert [a, b] == [a] + [b] && [b] == [b] + [];
  }

  lemma SymbolsOfFour(a: Sextet, b: Sextet, c: Sextet, d: Sextet, rest: seq<Sextet>)
    ensures Symbols([a, b, c, d] + rest) == [Symbol(a), Symbol(b), Symbol(c), Symbol(d)] + Symbols(rest)
  {
    SymbolsOfThree(a, b, c, [d] + rest);
    SymbolsCons(d, rest);
    assert [a, b, c, d] + rest == [a, b, c] + ([d] + rest);
  }

  lemma {:induction false} EncodeIsSymbols(b: Octets)
    ensures Encode64(b) == Symbols(Split(b))
  {
    if |b| == 1 {
      SplitOne(b);
      SymbolsOfTwo(Sextet0(b[0]), Sextet1(b[0], 0));
    } else if |b| == 2 {
      SplitTwo(b);
      SymbolsOfThree(Sextet0(b[0]), Sextet1(b[0], b[1]), Sextet2(b[1], 0), []);
      assert Split(b) == [Sextet0(b[0]), Sextet1(b[0], b[1]), Sextet2(b[1], 0)] + [];
    } else if |b| > 2 {
      EncodeIsSymbols(b[3..]);
      SymbolsOfFour(Sextet0(b[0]), Sextet1(b[0], b[1]), Sextet2(b[1], b[2]), Sextet3(b[2]), Split(b[3..]));
    }
  }

  lemma Regroup(x: Octet, y: Octet, z: Octet)
    ensures Byte0(Sextet0(x), Sextet1(x, y)) == x
    ensures Byte1(Sextet1(x, y), Sextet2(y, z)) == y
    ensures Byte2(Sextet2(y, z), Sextet3(z)) == z
  {
  }

  lemma JoinOf(v: seq<Sextet>)
    ensures |v| == 2 ==> Join(v) == Some([Byte0(v[0], v[1])])
    ensures |v| == 3 ==> Join(v) == Some([Byte0(v[0], v[1]), Byte1(v[1], v[2])])
    ensures |v| > 3 && Join(v[4..]).Some? ==>
      Join(v) == Some([Byte0(v[0], v[1]), Byte1(v[1], v[2]), Byte2(v[2], v[3])] + Join(v[4..]).value)
  {
  }

  lemma BytesOfOne(b: Octets, y: Octet)
    requires |b| == 1
    ensures b == [Byte0(Sextet0(b[0]), Sextet1(b[0], y))]
  {
    Regroup(b[0], y, 0);
    assert b == [b[0]];
  }

  lemma BytesOfTwo(b: Octets, z: Octet)
    requires |b| == 2
    ensures b == [Byte0(Sextet0(b[0]), Sextet1(b[0], b[1])), Byte1(Sextet1(b[0], b[1]), Sextet2(b[1], z))]
  {
    Regroup(b[0], b[1], z);
    assert b == [b[0], b[1]];
  }

  lemma JoinGroup(x: Octet, y: Octet, z: Octet, rest: seq<Sextet>)
    requires Join(rest).Some?
    ensures Join([Sextet0(x), Sextet1(x, y), Sextet2(y, z), Sextet3(z)] + rest) == Some([x, y, z] + Join(rest).value)
  {
    var v := [Sextet0(x), Sextet1(x, y), Sextet2(y, z), Sextet3(z)] + rest;
    assert v[4..] == rest;
    JoinOf(v);
    Regroup(x, y, z);
  }

  lemma {:induction false} JoinSplit(b: Octets)
    ensures Join(Split(b)) == Some(b)
  {
    if |b| == 1 {
      SplitOne(b);
      JoinOf(Split(b));
      BytesOfOne(b, 0);
    } else if |b| == 2 {
      SplitTwo(b);
      JoinOf(Split(b));
      BytesOfTwo(b, 0);
    } else if |b| > 2 {
      var rest := b[3..];
      JoinSplit(rest);
      JoinGroup(b[0], b[1], b[2], Split(rest));
      assert b == [b[0], b[1], b[2]] + rest;
    }
  }

  lemma Base64RoundTrip(b: Octets)
    ensures Decode64(Encode64(b)) == Some(b) && DOT !in Encode64(b)
  {
    EncodeIsSymbols(b);
    SymbolsRead(Split(b));
    JoinSplit(b);
  }

  /** The alphabet and the order of bits, on two texts: "foobar", and three octets that need
      both symbols base64url adds. */
  lemma KnownEncodings()
    ensures Encode64([102, 111, 111, 98, 97, 114]) == [90, 109, 57, 118, 89, 109, 70, 121]
    ensures Encode64([251, 255, 191]) == [45, 95, 45, 95]
    ensures Encode64([102]) == [90, 103] && Encode64([102, 111]) == [90, 109, 56]
  {
    var rest: Octets := [98, 97, 114];
    assert Encode64(rest) == [89, 109, 70, 121];
    assert [102, 111, 111, 98, 97, 114][3..] == rest;
  }

  lemma {:induction false} SkipConcat(a: Octets, b: Octets)
    ensures SkipBreaks(a + b) == SkipBreaks(a) + SkipBreaks(b)
  {
    if a == [] {
      assert a + b == b;
    } else {
      assert (a + b)[1..] == a[1..] + b;
      SkipConcat(a[1..], b);
    }
  }

  /** Line breaks do not matter, wherever they stand. */
  lemma BreaksIgnored(a: Octets, c: Octet, b: Octets)
    requires c == 10 || c == 13
    ensures Decode64(a + [c] + b) == Decode64(a + b)
  {
    SkipConcat(a + [c], b);
    SkipConcat(a, [c]);
    SkipConcat(a, b);
    assert [c][1..] == [];
    assert SkipBreaks([c]) == [];
    assert SkipBreaks(a) + [] == SkipBreaks(a);
  }

  predicate IsSymbol(c: Octet) {
    65 <= c <= 90 || 97 <= c <= 122 || 48 <= c <= 57 || c == 45 || c == 95
  }

  lemma InHeadOrTail(s: Octets)
    requires s != []
    ensures s[0] in s && forall c: Octet :: c in s <==> c == s[0] || c in s[1..]
  {
  }

  lemma {:induction false} SextetsExactly(s: Octets)
    ensures Sextets(s).Some? <==> forall c :: c in s ==> IsSymbol(c)
    ensures Sextets(s).Some? ==> |Sextets(s).value| == |s|
  {
    if s != [] {
      SextetsExactly(s[1..]);
      assert SymbolValue(s[0]).Some? <==> IsSymbol(s[0]);
      InHeadOrTail(s);
    }
  }

  lemma {:induction false} JoinExactly(v: seq<Sextet>)
    ensures Join(v).Some? <==> |v| % 4 != 1
  {
    if |v| > 3 {
      JoinExactly(v[4..]);
    }
  }

  lemma {:induction false} SkippedAre(s: Octets)
    ensures forall c :: c in SkipBreaks(s) <==> c in s && c != 10 && c != 13
    ensures (forall c :: c in s ==> c != 10 && c != 13) ==> SkipBreaks(s) == s
  {
    if s != [] {
      SkippedAre(s[1..]);
      InHeadOrTail(s);
      assert [s[0]] + s[1..] == s;
    }
  }

  /** What decodes at all: symbols of the alphabet and line breaks, the symbols not one more than
      a multiple of four. Left-over bits may be anything. */
  lemma DecodesExactly(s: Octets)
    ensures Decode64(s).Some? <==> (forall c :: c in s ==> IsSymbol(c) || c == 10 || c == 13) && |SkipBreaks(s)| % 4 != 1
  {
    SkippedAre(s);
    SextetsExactly(SkipBreaks(s));
    if Sextets(SkipBreaks(s)).Some? {
      JoinExactly(Sextets(SkipBreaks(s)).value);
    }
  }

  // ---------------------------------------------------------------- decimal

  const MIN_INT64: int := -0x8000_0000_0000_0000
  const MAX_INT64: int := 0x7FFF_FFFF_FFFF_FFFF

  type Int64 = x: int | -0x8000_0000_0000_0000 <= x <= 0x7FFF_FFFF_FFFF_FFFF witness 0

  function Digits(n: nat): Octets {
    if n < 10 then [ZERO + n] else Digits(n / 10) + [ZERO + n % 10]
  }

  function FormatInt(n: Int64): Octets {
    if n < 0 then [MINUS] + Digits(-(n as int)) else Digits(n)
  }

  predicate IsDigit(c: Octet) {
    48 <= c <= 57
  }

  function ParseDigits(s: Octets): Option<nat> {
    if s == [] then Some(0)
    else if !IsDigit(s[|s| - 1]) then None
    else
      match ParseDigits(s[..|s| - 1])
      case None => None
      case Some(n) => Some(10 * n + (s[|s| - 1] - ZERO))
  }

  /** An optional sign and at least one digit, within 64 bits. */
  function ParseInt(s: Octets): Option<Int64> {
    if s == [] then None
    else
      var body := if s[0] == PLUS || s[0] == MINUS then s[1..] else s;
      if body == [] then None
      else
        match ParseDigits(body)
        case None => None
        case Some(n) =>
          var v := if s[0] == MINUS then -(n as int) else n;
          if MIN_INT64 <= v <= MAX_INT64 then Some(v) else None
  }

  lemma {:induction false} DigitsParsed(n: nat)
    ensures ParseDigits(Digits(n)) == Some(n) && Digits(n) != [] && IsDigit(Digits(n)[0])
  {
    if n < 10 {
      assert Digits(n)[..0] == [];
    } else {
      DigitsParsed(n / 10);
      var d := Digits(n);
      assert d[..|d| - 1] == Digits(n / 10);
    }
  }

  lemma IntRoundTrip(n: Int64)
    ensures ParseInt(FormatInt(n)) == Some(n)
  {
    DigitsParsed(if n < 0 then -(n as int) else n);
  }

  /** Numbers beyond 64 bits are refused, and a plus sign is allowed. */
  lemma ParseIntExactly(n: nat)
    ensures ParseInt(Digits(n)) == if n < 0x8000_0000_0000_0000 then Some(n) else None
    ensures ParseInt([43] + Digits(n)) == if n < 0x8000_0000_0000_0000 then Some(n) else None
    ensures ParseInt([45] + Digits(n)) == if n <= 0x8000_0000_0000_0000 then Some(-(n as int)) else None
  {
    DigitsParsed(n);
    assert ([43] + Digits(n))[1..] == Digits(n) && ([45] + Digits(n))[1..] == Digits(n);
  }

  /** Decimal forms of four numbers. */
  lemma KnownNumbers()
    ensures FormatInt(0) == [48] && FormatInt(7) == [55] && FormatInt(-12) == [45, 49, 50] && FormatInt(305) == [51, 48, 53]
  {
    assert Digits(12) == [49, 50];
    assert Digits(30) == [51, 48];
    assert Digits(305) == [51, 48, 53];
  }

  lemma {:induction false} ForeignDigit(s: Octets, c: Octet)
    requires c in s && !IsDigit(c)
    ensures ParseDigits(s).None?
  {
    if s[|s| - 1] != c {
      ForeignDigit(s[..|s| - 1], c);
    }
  }

  lemma NoIntWithPipe(s: Octets)
    requires PIPE in s
    ensures ParseInt(s).None?
  {
    if s[0] == PLUS || s[0] == MINUS {
      assert PIPE in s[1..];
      ForeignDigit(s[1..], PIPE);
    } else {
      ForeignDigit(s, PIPE);
    }
  }

  // ---------------------------------------------------------------- separators

  /** The text before and after the first separator. */
  function Cut(s: Octets, c: Octet): (r: Option<(Octets, Octets)>)
    ensures r.Some? ==> c !in r.value.0 && s == r.value.0 + [c] + r.value.1
  {
    if s == [] then None
    else if s[0] == c then Some(([], s[1..]))
    else
      match Cut(s[1..], c)
      case None => None
      case Some(p) => Some(([s[0]] + p.0, p.1))
  }

  lemma {:induction false} CutAt(head: Octets, c: Octet, tail: Octets)
    requires c !in head
    ensures Cut(head + [c] + tail, c) == Some((head, tail))
  {
    var s := head + [c] + tail;
    if head == [] {
      assert s[1..] == tail;
    } else {
      assert s[1..] == head[1..] + [c] + tail;
      CutAt(head[1..], c, tail);
      assert head == [head[0]] + head[1..];
    }
  }

  /** At most three parts: the third keeps its separators. */
  function SplitN3(s: Octets, c: Octet): (r: seq<Octets>)
    ensures 1 <= |r| <= 3
  {
    match Cut(s, c)
    case None => [s]
    case Some(p) =>
      match Cut(p.1, c)
      case None => [p.0, p.1]
      case Some(q) => [p.0, q.0, q.1]
  }

  // ---------------------------------------------------------------- sessions

  /** Seconds since the first of January of year 1, and nanoseconds. */
  datatype Time = Time(sec: Int64, nsec: nat)

  const UNIX_TO_INTERNAL: int := 62135596800

  function Wrap(x: int): Int64 {
    (x + 0x8000_0000_0000_0000) % 0x1_0000_0000_0000_0000 - 0x8000_0000_0000_0000
  }

  function Unix(t: Time): Int64 {
    Wrap(t.sec - UNIX_TO_INTERNAL)
  }

  function FromUnix(sec: Int64): Time {
    Time(Wrap(sec + UNIX_TO_INTERNAL), 0)
  }

  predicate After(t: Time, u: Time) {
    t.sec > u.sec || (t.sec == u.sec && t.nsec > u.nsec)
  }

  datatype Session = Session(sub: Octets, email: Octets, expiry: Time)

  datatype Error = InvalidFormat | InvalidSignature | Corrupted | InvalidExpiry | Expired

  /** The keyed hash of a text, in hexadecimal. */
  type Mac = (Octets, Octets) -> Octets

  function Plain(s: Session): Octets {
    s.sub + [PIPE] + (s.email + [PIPE] + FormatInt(Unix(s.expiry)))
  }

  function Sealed(payload: Octets, secret: Octets, mac: Mac): Octets {
    payload + [DOT] + mac(payload, secret)
  }

  function Encode(s: Session, secret: Octets, mac: Mac): Octets {
    Sealed(Encode64(Plain(s)), secret, mac)
  }

  function DecodePlain(raw: Octets, now: Time): Result<Session, Error> {
    var parts := SplitN3(raw, PIPE);
    if |parts| != 3 then Err(Corrupted)
    else
      match ParseInt(parts[2])
      case None => Err(InvalidExpiry)
      case Some(exp) =>
        var s := Session(parts[0], parts[1], FromUnix(exp));
        if After(now, s.expiry) then Err(Expired) else Ok(s)
  }

  function Decode(value: Octets, secret: Octets, mac: Mac, now: Time): Result<Session, Error> {
    match Cut(value, DOT)
    case None => Err(InvalidFormat)
    case Some(p) =>
      if p.1 != mac(p.0, secret) then Err(InvalidSignature)
      else
        match Decode64(p.0)
        case None => Err(Corrupted)
        case Some(raw) => DecodePlain(raw, now)
  }

  function WholeSecond(t: Time): Time {
    t.(nsec := 0)
  }

  lemma WrapBack(x: Int64, c: int)
    ensures Wrap(Wrap(x - c) + c) == x
  {
  }

  lemma UnixRoundTrip(t: Time)
    ensures FromUnix(Unix(t)) == t.(nsec := 0)
  {
    WrapBack(t.sec, UNIX_TO_INTERNAL);
  }

  /** Unix time begins 1969 years after the first of January of year 1, every fourth of them a
      leap year but for three centuries in four. */
  lemma UnixEpoch(t: Time)
    requires 0 <= t.sec < 0x4000_0000_0000_0000
    ensures Unix(t) == t.sec - (1969 * 365 + 1969 / 4 - 1969 / 100 + 1969 / 400) * 86400
  {
  }

  /** A separator inside the head cuts there, and the one after the head is left over. */
  lemma {:induction false} CutInside(head: Octets, c: Octet, tail: Octets)
    requires c in head
    ensures Cut(head, c).Some?
    ensures var r := Cut(head + [c] + tail, c);
            r.Some? && r.value.1 == Cut(head, c).value.1 + [c] + tail
  {
    var s := head + [c] + tail;
    assert s[1..] == head[1..] + [c] + tail;
    if head[0] != c {
      CutInside(head[1..], c, tail);
    }
  }

  lemma CutLeaves(head: Octets, c: Octet, tail: Octets)
    requires c in head || c in tail
    ensures var r := Cut(head + [c] + tail, c); r.Some? && c in r.value.1
  {
    if c in head {
      CutInside(head, c, tail);
    } else {
      CutAt(head, c, tail);
    }
  }

  /** With a separator too many, one of them ends up in the third part. */
  lemma ThirdPartHasPipe(sub: Octets, email: Octets, exp: Octets)
    requires PIPE in sub || PIPE in email
    ensures var parts := SplitN3(sub + [PIPE] + (email + [PIPE] + exp), PIPE); |parts| == 3 && PIPE in parts[2]
  {
    var rest := email + [PIPE] + exp;
    assert rest[|email|] == PIPE;
    if PIPE in sub {
      CutInside(sub, PIPE, rest);
      CutLeaves(Cut(sub, PIPE).value.1, PIPE, rest);
    } else {
      CutAt(sub, PIPE, rest);
      CutLeaves(email, PIPE, exp);
    }
  }

  /** What becomes of a session's plain text. */
  function Outcome(s: Session, now: Time): Result<Session, Error> {
    if PIPE in s.sub || PIPE in s.email then Err(InvalidExpiry)
    else if After(now, WholeSecond(s.expiry)) then Err(Expired)
    else Ok(s.(expiry := WholeSecond(s.expiry)))
  }

  lemma PlainDecoded(s: Session, now: Time)
    ensures DecodePlain(Plain(s), now) == Outcome(s, now)
  {
    var exp := FormatInt(Unix(s.expiry));
    if PIPE in s.sub || PIPE in s.email {
      ThirdPartHasPipe(s.sub, s.email, exp);
      NoIntWithPipe(SplitN3(Plain(s), PIPE)[2]);
    } else {
      CutAt(s.sub, PIPE, s.email + [PIPE] + exp);
      CutAt(s.email, PIPE, exp);
      IntRoundTrip(Unix(s.expiry));
      UnixRoundTrip(s.expiry);
    }
  }

  /** A sealed payload is opened by its own secret, and by another exactly when the two
      secrets sign it alike. */
  lemma SealOpens(payload: Octets, secret: Octets, other: Octets, mac: Mac, now: Time)
    requires DOT !in payload
    ensures Decode(Sealed(payload, secret, mac), other, mac, now) ==
      if mac(payload, secret) != mac(payload, other) then Err(InvalidSignature)
      else
        match Decode64(payload)
        case None => Err(Corrupted)
        case Some(raw) => DecodePlain(raw, now)
  {
    CutAt(payload, DOT, mac(payload, secret));
  }

  /** The round trip, for every session: a separator in the subject or the address makes the
      cookie unreadable, and nothing else but its expiry does. */
  lemma RoundTrip(s: Session, secret: Octets, mac: Mac, now: Time)
    ensures Decode(Encode(s, secret, mac), secret, mac, now) == Outcome(s, now)
    ensures Decode(Encode(s, secret, mac), secret, mac, now) == Ok(s) <==>
      && 124 !in s.sub && 124 !in s.email && s.expiry.nsec == 0
      && (now.sec < s.expiry.sec || (now.sec == s.expiry.sec && now.nsec == 0))
  {
    Base64RoundTrip(Plain(s));
    SealOpens(Encode64(Plain(s)), secret, secret, mac, now);
    PlainDecoded(s, now);
  }

  /** The plain text of one session is "a|b|0". */
  lemma KnownPlain()
    ensures Plain(Session([97], [98], Time(62135596800, 0))) == [97, 124, 98, 124, 48]
  {
    KnownNumbers();
    UnixEpoch(Time(62135596800, 0));
  }

  /** Its cookie is that in base64url, a dot, and the signature. */
  lemma KnownCookie(secret: Octets, mac: Mac)
    ensures var payload := [89, 88, 120, 105, 102, 68, 65];
            Encode(Session([97], [98], Time(62135596800, 0)), secret, mac) == payload + [46] + mac(payload, secret)
  {
    KnownPlain();
    KnownPayload();
  }

  lemma KnownPayload()
    ensures Encode64([97, 124, 98, 124, 48]) == [89, 88, 120, 105, 102, 68, 65]
  {
    var rest: Octets := [124, 48];
    assert Encode64(rest) == [102, 68, 65];
    assert [97, 124, 98, 124, 48][3..] == rest;
  }

  /** Why a cookie is refused: no dot; another signature; otherwise its payload is at fault. */
  lemma RefusedExactly(value: Octets, secret: Octets, mac: Mac, now: Time)
    ensures Decode(value, secret, mac, now) == Err(InvalidFormat) <==> 46 !in value
    ensures 46 in value ==> exists payload: Octets, signature: Octets ::
      && 46 !in payload && value == payload + [46] + signature
      && (Decode(value, secret, mac, now) == Err(InvalidSignature) <==> signature != mac(payload, secret))
  {
    CutExactly(value, 46);
    if 46 in value {
      var payload, signature := Cut(value, 46).value.0, Cut(value, 46).value.1;
      assert 46 !in payload && value == payload + [46] + signature;
    }
  }

  lemma {:induction false} CutExactly(s: Octets, c: Octet)
    ensures Cut(s, c).Some? <==> c in s
  {
    if s != [] && s[0] != c {
      CutExactly(s[1..], c);
      InHeadOrTail(s);
    }
  }

  /** Why a payload is refused: fewer than two separators; an expiry that is no number; or an
      expiry that has passed. */
  lemma PayloadRefused(sub: Octets, email: Octets, exp: Octets, now: Time)
    requires 124 !in sub && 124 !in email
    ensures DecodePlain(sub, now) == Err(Corrupted) && DecodePlain(sub + [124] + email, now) == Err(Corrupted)
    ensures DecodePlain(sub + [124] + (email + [124] + exp), now) ==
      match ParseInt(exp)
      case None => Err(InvalidExpiry)
      case Some(n) => if After(now, FromUnix(n)) then Err(Expired) else Ok(Session(sub, email, FromUnix(n)))
  {
    CutExactly(sub, 124);
    CutExactly(email, 124);
    CutAt(sub, 124, email);
    CutAt(sub, 124, email + [124] + exp);
    CutAt(email, 124, exp);
  }

  /** An accepted cookie is a sealed payload, and its session round trips from then on, for
      as long as it has not expired. */
  lemma AcceptedIsSealed(value: Octets, secret: Octets, mac: Mac, now: Time, later: Time)
    requires Decode(value, secret, mac, now).Ok?
    ensures var s := Decode(value, secret, mac, now).value;
            && (exists payload :: 46 !in payload && value == payload + [46] + mac(payload, secret))
            && !After(now, s.expiry)
            && Decode(Encode(s, secret, mac), secret, mac, later) == if After(later, s.expiry) then Err(Expired) else Ok(s)
  {
    var s := Decode(value, secret, mac, now).value;
    var payload := Cut(value, DOT).value.0;
    assert 46 !in payload && value == payload + [46] + mac(payload, secret);
    FirstTwoParts(Decode64(payload).value);
    assert WholeSecond(s.expiry) == s.expiry;
    RoundTrip(s, secret, mac, later);
  }

  lemma FirstTwoParts(raw: Octets)
    requires |SplitN3(raw, PIPE)| == 3
    ensures PIPE !in SplitN3(raw, PIPE)[0] && PIPE !in SplitN3(raw, PIPE)[1]
  {
  }
}
