/**
 The magic header line: printed by both writers (streamingwriter.cpp,
 blockwriter.cpp), parsed by header.cpp. Lines are byte strings in ASCII.
 */
module Header {
  import opened Bytes
  import opened OsfTypes
  import opened BlockStream
  import opened Stream

  datatype Version = Osf4 | Osf5

  datatype MagicHeader = MagicHeader(version: Version, metablockLen: u64, integrity: IntegrityProfile,
    metablockCrc: Option<u32>)

  const MAX_MAGIC_HEADER_LEN: nat := 128

  const SPACE: byte := 32
  const NEWLINE: byte := 10
  const RETURN: byte := 13
  const COLON: byte := 58

  /** "OSF4" */
  const OSF4: bytes := [79, 83, 70, 52]
  /** "OSF5" */
  const OSF5: bytes := [79, 83, 70, 53]
  /** "OCEAN_STREAM_FORMAT4" */
  const OCEAN_STREAM_FORMAT4: bytes := [79, 67, 69, 65, 78, 95, 83, 84, 82, 69, 65, 77, 95, 70, 79, 82, 77, 65, 84, 52]
  /** "OCEAN_STREAMING_FORMAT4" */
  const OCEAN_STREAMING_FORMAT4: bytes :=
    [79, 67, 69, 65, 78, 95, 83, 84, 82, 69, 65, 77, 73, 78, 71, 95, 70, 79, 82, 77, 65, 84, 52]
  /** "crc32c" */
  const CRC32C: bytes := [99, 114, 99, 51, 50, 99]
  /** "ed25519" */
  const ED25519: bytes := [101, 100, 50, 53, 53, 49, 57]

  // ---------------------------------------------------------------------
  // Printing.
  // ---------------------------------------------------------------------

  /** Decimal digits, as `std::to_string` prints them. */
  function Decimal(n: nat): (s: bytes)
    ensures s != []
  {
    if n < 10 then [48 + n] else Decimal(n / 10) + [48 + n % 10]
  }

  function HexDigit(d: nat): byte
    requires d < 16
  {
    if d < 10 then 48 + d else 55 + d
  }

  /** `k` uppercase hex digits, most significant first. */
  function Hex(n: nat, k: nat): (s: bytes)
    ensures |s| == k
    decreases k
  {
    if k == 0 then [] else Hex(n / 16, k - 1) + [HexDigit(n % 16)]
  }

  /** The line a writer prints: identifier, metablock length, and the CRC token if there is one. */
  function MagicLine(len: u64, crc: Option<u32>): bytes {
    OSF5 + [SPACE] + Decimal(len) + CrcToken(crc) + [NEWLINE]
  }

  function CrcToken(crc: Option<u32>): bytes {
    match crc
    case None => []
    case Some(c) => [SPACE] + CRC32C + [COLON] + Hex(c, 8)
  }

  // ---------------------------------------------------------------------
  // Parsing.
  // ---------------------------------------------------------------------

  /** The line up to the first newline and what follows it; `got` bytes were already read. */
  function FirstLine(data: bytes, got: bytes): Result<(bytes, bytes)>
    decreases |data|
  {
    if data == [] then Err(InvalidMagicHeader)
    else if data[0] == NEWLINE then Ok((got, data[1..]))
    else if |got| + 1 > MAX_MAGIC_HEADER_LEN then Err(MagicHeaderTooLong)
    else FirstLine(data[1..], got + [data[0]])
  }

  function StripReturn(line: bytes): bytes {
    if line != [] && line[|line| - 1] == RETURN then line[..|line| - 1] else line
  }

  function IdentifierToVersion(id: bytes): Result<Version> {
    if id == OSF4 || id == OCEAN_STREAM_FORMAT4 || id == OCEAN_STREAMING_FORMAT4 then Ok(Version.Osf4)
    else if id == OSF5 then Ok(Version.Osf5)
    else Err(UnsupportedVersion)
  }

  /** Position of the first `b`, or the length if there is none. */
  function Find(s: bytes, b: byte): (i: nat)
    ensures i <= |s| && (forall k :: 0 <= k < i ==> s[k] != b) && (i < |s| ==> s[i] == b)
  {
    if s == [] || s[0] == b then 0
    else
      var i := Find(s[1..], b);
      assert s[..1 + i] == [s[0]] + s[1..][..i];
      1 + i
  }

  /** Split on single spaces; never empty. */
  function Fields(s: bytes): (f: seq<bytes>)
    ensures f != []
    decreases |s|
  {
    var i := Find(s, SPACE);
    if i == |s| then [s] else [s[..i]] + Fields(s[i + 1..])
  }

  /** All-digit strings, by value. */
  function ParseDigits(s: bytes, acc: nat): Option<nat>
    decreases |s|
  {
    if s == [] then Some(acc)
    else if 48 <= s[0] <= 57 then ParseDigits(s[1..], 10 * acc + (s[0] - 48))
    else None
  }

  /** `from_chars` for a u64 that has to consume everything. */
  function ParseU64(s: bytes): Option<u64> {
    if s == [] then None
    else
      match ParseDigits(s, 0)
      case None => None
      case Some(n) => if n < TWO_TO_THE_64 then Some(n) else None
  }

  function HexValue(b: byte, upper: bool): Option<nat> {
    if 48 <= b <= 57 then Some(b - 48)
    else if upper && 65 <= b <= 70 then Some(b - 55)
    else if !upper && 97 <= b <= 102 then Some(b - 87)
    else None
  }

  function ParseHex(s: bytes, upper: bool): Option<nat>
    decreases |s|
  {
    if s == [] then Some(0)
    else
      var (front, d) := (ParseHex(s[..|s| - 1], upper), HexValue(s[|s| - 1], upper));
      if front.None? || d.None? then None else Some(16 * front.value + d.value)
  }

  predicate ValidKey(key: bytes) {
    key != [] && forall c :: c in key ==> 97 <= c <= 122 || 48 <= c <= 57 || c == 45
  }

  /** What the tokens read so far declare. */
  datatype Declared = Declared(integrity: IntegrityProfile, crc: Option<u32>)

  function ParseToken(d: Declared, version: Version, token: bytes): Result<Declared> {
    if token == [] then Err(InvalidMagicHeader)
    else if !version.Osf5? then Err(InvalidMagicHeader)
    else
      var colon := Find(token, COLON);
      var key := token[..colon];
      var value := if colon == |token| then [] else token[colon + 1..];
      if !ValidKey(key) then Err(InvalidMagicHeader)
      else if key == CRC32C then
        match (if |value| == 8 then ParseHex(value, true) else None)
        case None => Err(InvalidMagicHeader)
        case Some(crc) => if crc < TWO_TO_THE_32 then Ok(Declared(Crc32cLevel, Some(crc))) else Err(InvalidMagicHeader)
      else if key == ED25519 then
        if |value| != 16 || ParseHex(value, false).None? then Err(InvalidMagicHeader)
        else if d.crc.None? then Err(InvalidMagicHeader)
        else Ok(Declared(Ed25519Level, d.crc))
      else Err(UnknownHeaderToken)
  }

  function ParseTokens(d: Declared, version: Version, tokens: seq<bytes>): Result<Declared>
    decreases |tokens|
  {
    if tokens == [] then Ok(d)
    else
      match ParseToken(d, version, tokens[0])
      case Err(e) => Err(e)
      case Ok(d') => ParseTokens(d', version, tokens[1..])
  }

  const NOTHING_DECLARED := Declared(NoIntegrity, None)

  function ParseLine(line: bytes): Result<MagicHeader> {
    var sep := Find(line, SPACE);
    if sep == |line| then Err(InvalidMagicHeader)
    else
      match IdentifierToVersion(line[..sep])
      case Err(e) => Err(e)
      case Ok(version) =>
        var fields := Fields(line[sep + 1..]);
        match ParseU64(fields[0])
        case None => Err(InvalidMagicHeader)
        case Some(len) =>
          match ParseTokens(NOTHING_DECLARED, version, fields[1..])
          case Err(e) => Err(e)
          case Ok(d) => Ok(MagicHeader(version, len, d.integrity, d.crc))
  }

  /** Header and the bytes behind the line. */
  function ParseHeader(data: bytes): Result<(MagicHeader, bytes)> {
    match FirstLine(data, [])
    case Err(e) => Err(e)
    case Ok((line, rest)) =>
      match ParseLine(StripReturn(line))
      case Err(e) => Err(e)
      case Ok(h) => Ok((h, rest))
  }

  // ---------------------------------------------------------------------
  // Numbers read back.
  // ---------------------------------------------------------------------

  predicate AllDigits(s: bytes) {
    forall c :: c in s ==> 48 <= c <= 57
  }

  lemma {:induction false} DigitsAppend(s: bytes, d: nat, acc: nat)
    requires d < 10
    ensures ParseDigits(s + [48 + d], acc)
         == match ParseDigits(s, acc) case None => None case Some(n) => Some(10 * n + d)
    decreases |s|
  {
    if s == [] {
      assert s + [48 + d] == [48 + d];
    } else {
      assert (s + [48 + d])[1..] == s[1..] + [48 + d];
      if 48 <= s[0] <= 57 {
        DigitsAppend(s[1..], d, 10 * acc + (s[0] - 48));
      }
    }
  }

  lemma {:induction false} DecimalReadsBack(n: nat)
    ensures ParseDigits(Decimal(n), 0) == Some(n) && AllDigits(Decimal(n))
  {
    if n < 10 {
      assert Decimal(n)[1..] == [];
    } else {
      DecimalReadsBack(n / 10);
      DigitsAppend(Decimal(n / 10), n % 10, 0);
    }
  }

  function Pow10(k: nat): nat {
    if k == 0 then 1 else 10 * Pow10(k - 1)
  }

  lemma {:induction false} DecimalLength(n: nat, k: nat)
    requires k > 0 && n < Pow10(k)
    ensures |Decimal(n)| <= k
  {
    assert Pow10(0) == 1;
    if n >= 10 && k > 1 {
      DecimalLength(n / 10, k - 1);
    }
  }

  lemma U64Length(n: u64)
    ensures |Decimal(n)| <= 20
  {
    assert Pow10(4) == 10_000;
    assert Pow10(8) == 10_000 * Pow10(4);
    assert Pow10(12) == 10_000 * Pow10(8);
    assert Pow10(16) == 10_000 * Pow10(12);
    assert Pow10(20) == 10_000 * Pow10(16);
    DecimalLength(n, 20);
  }

  lemma {:induction false} U64ReadsBack(n: u64)
    ensures ParseU64(Decimal(n)) == Some(n)
  {
    DecimalReadsBack(n);
  }

  predicate AllUpperHex(s: bytes) {
    forall c :: c in s ==> 48 <= c <= 57 || 65 <= c <= 70
  }

  lemma {:induction false} HexReadsBack(n: nat, k: nat)
    requires n < Power16(k)
    ensures ParseHex(Hex(n, k), true) == Some(n) && AllUpperHex(Hex(n, k))
    decreases k
  {
    if k > 0 {
      HexReadsBack(n / 16, k - 1);
      var s := Hex(n, k);
      assert s[..k - 1] == Hex(n / 16, k - 1) && s[k - 1] == HexDigit(n % 16);
    }
  }

  function Power16(k: nat): nat {
    if k == 0 then 1 else 16 * Power16(k - 1)
  }

  lemma Power16Of8()
    ensures Power16(8) == TWO_TO_THE_32
  {
    assert Power16(4) == 65536;
    assert Power16(8) == 65536 * Power16(4);
  }

  // ---------------------------------------------------------------------
  // The round trip.
  // ---------------------------------------------------------------------

  /** The first separator is where it was put. */
  lemma FindFirst(front: bytes, b: byte, rest: bytes)
    requires b !in front
    ensures Find(front + [b] + rest, b) == |front|
  {
    var s := front + [b] + rest;
    var i := Find(s, b);
    assert forall k :: 0 <= k < |front| ==> s[k] == front[k];
    assert s[|front|] == b;
  }

  lemma FindNone(s: bytes, b: byte)
    requires b !in s
    ensures Find(s, b) == |s|
  {
  }

  lemma FieldsOne(s: bytes)
    requires SPACE !in s
    ensures Fields(s) == [s]
  {
    FindNone(s, SPACE);
  }

  lemma FieldsCons(s: bytes, rest: bytes)
    requires SPACE !in s
    ensures Fields(s + [SPACE] + rest) == [s] + Fields(rest)
  {
    FindFirst(s, SPACE, rest);
    var all := s + [SPACE] + rest;
    assert all[..|s|] == s && all[|s| + 1..] == rest;
  }

  /** Reading a line stops at its newline. */
  lemma {:induction false} FirstLineStops(line: bytes, rest: bytes, got: bytes)
    requires NEWLINE !in line && |got| + |line| <= MAX_MAGIC_HEADER_LEN
    ensures FirstLine(line + [NEWLINE] + rest, got) == Ok((got + line, rest))
    decreases |line|
  {
    var data := line + [NEWLINE] + rest;
    if line == [] {
      assert data[1..] == rest && got + line == got;
    } else {
      assert data[1..] == line[1..] + [NEWLINE] + rest;
      FirstLineStops(line[1..], rest, got + [line[0]]);
      assert got + [line[0]] + line[1..] == got + line;
    }
  }

  lemma CrcTokenParses(crc: u32)
    ensures ParseToken(NOTHING_DECLARED, Osf5, CRC32C + [COLON] + Hex(crc, 8)) == Ok(Declared(Crc32cLevel, Some(crc)))
  {
    Power16Of8();
    HexReadsBack(crc, 8);
    hide Hex, ParseHex, Find;
    var token := CRC32C + [COLON] + Hex(crc, 8);
    FindFirst(CRC32C, COLON, Hex(crc, 8));
    assert token[..6] == CRC32C && token[7..] == Hex(crc, 8);
    assert ValidKey(CRC32C);
  }

  /** The part of a writer's line behind its length. */
  lemma TokensReadBack(crc: Option<u32>, len: u64)
    ensures Fields(Decimal(len) + CrcToken(crc))[0] == Decimal(len)
    ensures ParseTokens(NOTHING_DECLARED, Osf5, Fields(Decimal(len) + CrcToken(crc))[1..])
         == Ok(Declared(if crc.Some? then Crc32cLevel else NoIntegrity, crc))
  {
    hide Decimal, Find, ParseToken, Fields;
    DecimalReadsBack(len);
    if crc.None? {
      assert Decimal(len) + CrcToken(crc) == Decimal(len);
      FieldsOne(Decimal(len));
    } else {
      var token := CRC32C + [COLON] + Hex(crc.value, 8);
      Power16Of8();
      HexReadsBack(crc.value, 8);
      hide Hex, ParseHex;
      assert Decimal(len) + CrcToken(crc) == Decimal(len) + [SPACE] + token;
      FieldsCons(Decimal(len), token);
      FieldsOne(token);
      CrcTokenParses(crc.value);
      assert ([Decimal(len)] + [token])[1..] == [token];
      assert ParseTokens(NOTHING_DECLARED, Osf5, [token]) == ParseToken(NOTHING_DECLARED, Osf5, token) by {
        var none: seq<bytes> := [token][1..];
        assert none == [];
      }
    }
  }

  function ExpectedHeader(len: u64, crc: Option<u32>): MagicHeader {
    MagicHeader(Osf5, len, if crc.Some? then Crc32cLevel else NoIntegrity, crc)
  }

  lemma LineReadsBack(len: u64, crc: Option<u32>)
    ensures ParseLine(OSF5 + [SPACE] + (Decimal(len) + CrcToken(crc))) == Ok(ExpectedHeader(len, crc))
  {
    hide Decimal, Find, ParseTokens, Fields, ParseU64, CrcToken;
    var tail := Decimal(len) + CrcToken(crc);
    var line := OSF5 + [SPACE] + tail;
    FindFirst(OSF5, SPACE, tail);
    assert line[..4] == OSF5 && line[5..] == tail;
    TokensReadBack(crc, len);
    U64ReadsBack(len);
  }

  /** A printed line is short, has no newline inside and no carriage return at its end. */
  lemma LineIsPlain(len: u64, crc: Option<u32>)
    ensures var line := OSF5 + [SPACE] + (Decimal(len) + CrcToken(crc));
         NEWLINE !in line && |line| <= MAX_MAGIC_HEADER_LEN && StripReturn(line) == line
  {
    hide Decimal, CrcToken;
    U64Length(len);
    DecimalReadsBack(len);
    TokenIsPlain(crc);
    var tail := Decimal(len) + CrcToken(crc);
    assert NEWLINE !in tail && RETURN !in tail;
    var line := OSF5 + [SPACE] + tail;
    assert line[|line| - 1] == tail[|tail| - 1];
  }

  lemma TokenIsPlain(crc: Option<u32>)
    ensures NEWLINE !in CrcToken(crc) && RETURN !in CrcToken(crc) && |CrcToken(crc)| <= 16
  {
    if crc.Some? {
      Power16Of8();
      HexReadsBack(crc.value, 8);
    }
    hide Hex;
  }

  /**
   What a writer prints parses back to the same version, length and CRC, and
   leaves the stream on the first byte of the metablock.
   */
  lemma {:induction false} MagicRoundTrip(len: u64, crc: Option<u32>, rest: bytes)
    ensures ParseHeader(MagicLine(len, crc) + rest) == Ok((ExpectedHeader(len, crc), rest))
  {
    hide Decimal, CrcToken, ParseLine, StripReturn, FirstLine;
    var line := OSF5 + [SPACE] + (Decimal(len) + CrcToken(crc));
    assert MagicLine(len, crc) + rest == line + [NEWLINE] + rest;
    LineIsPlain(len, crc);
    FirstLineStops(line, rest, []);
    assert [] + line == line;
    LineReadsBack(len, crc);
  }

  // ---------------------------------------------------------------------
  // What an accepted line can say.
  // ---------------------------------------------------------------------

  /** A token whose key the reader knows. */
  predicate Understood(token: bytes) {
    var key := token[..Find(token, COLON)];
    token != [] && (key == CRC32C || key == ED25519)
  }

  ghost predicate Consistent(d: Declared) {
    d.integrity != NoIntegrity <==> d.crc.Some?
  }

  lemma {:induction false} TokensConsistent(d: Declared, version: Version, tokens: seq<bytes>)
    requires Consistent(d) && ParseTokens(d, version, tokens).Ok?
    ensures Consistent(ParseTokens(d, version, tokens).value)
    ensures forall i :: 0 <= i < |tokens| ==> Understood(tokens[i])
    ensures tokens != [] ==> version == Osf5 && ParseTokens(d, version, tokens).value.crc.Some?
    ensures d.crc.Some? ==> ParseTokens(d, version, tokens).value.crc.Some?
    decreases |tokens|
  {
    hide Find, ParseHex, ValidKey;
    if tokens != [] {
      TokensConsistent(ParseToken(d, version, tokens[0]).value, version, tokens[1..]);
      forall i | 0 <= i < |tokens| ensures Understood(tokens[i]) {
        if i > 0 {
          assert tokens[i] == tokens[1..][i - 1];
        }
      }
    }
  }

  /** The fields behind identifier and length. */
  function Tokens(line: bytes): seq<bytes> {
    var sep := Find(line, SPACE);
    if sep == |line| then [] else Fields(line[sep + 1..])[1..]
  }

  /** The three OSF4 identifiers carry a length and nothing else. */
  lemma {:induction false} Osf4LineReadsBack(id: bytes, len: u64)
    requires id == OSF4 || id == OCEAN_STREAM_FORMAT4 || id == OCEAN_STREAMING_FORMAT4
    ensures ParseLine(id + [SPACE] + Decimal(len)) == Ok(MagicHeader(Version.Osf4, len, NoIntegrity, None))
  {
    hide Decimal, Find, Fields, ParseU64, ParseToken;
    DecimalReadsBack(len);
    FindFirst(id, SPACE, Decimal(len));
    var line := id + [SPACE] + Decimal(len);
    assert line[..|id|] == id && line[|id| + 1..] == Decimal(len);
    FieldsOne(Decimal(len));
    U64ReadsBack(len);
    var none: seq<bytes> := [Decimal(len)][1..];
    assert none == [];
  }

  lemma {:induction false} KeyIdParses(crc: u32, keyId: bytes)
    requires |keyId| == 16 && ParseHex(keyId, false).Some?
    ensures ParseToken(Declared(Crc32cLevel, Some(crc)), Osf5, ED25519 + [COLON] + keyId)
            == Ok(Declared(Ed25519Level, Some(crc)))
    ensures ParseToken(NOTHING_DECLARED, Osf5, ED25519 + [COLON] + keyId) == Err(InvalidMagicHeader)
  {
    hide ParseHex, Find;
    var token := ED25519 + [COLON] + keyId;
    FindFirst(ED25519, COLON, keyId);
    assert token[..7] == ED25519 && token[8..] == keyId;
    assert ValidKey(ED25519);
  }

  /** A signed file's tokens: the key id is accepted behind the CRC, with the CRC kept, and refused without it. */
  lemma {:induction false} SignedTokens(crc: u32, keyId: bytes)
    requires |keyId| == 16 && ParseHex(keyId, false).Some?
    ensures var (c, k) := (CRC32C + [COLON] + Hex(crc, 8), ED25519 + [COLON] + keyId);
            && ParseTokens(NOTHING_DECLARED, Osf5, [c, k]) == Ok(Declared(Ed25519Level, Some(crc)))
            && ParseTokens(NOTHING_DECLARED, Osf5, [k]) == Err(InvalidMagicHeader)
            && ParseTokens(NOTHING_DECLARED, Osf5, [k, c]) == Err(InvalidMagicHeader)
  {
    hide ParseToken, Hex, ParseHex;
    CrcTokenParses(crc);
    KeyIdParses(crc, keyId);
    var (c, k) := (CRC32C + [COLON] + Hex(crc, 8), ED25519 + [COLON] + keyId);
    var none: seq<bytes> := [k][1..];
    assert [c, k][1..] == [k] && none == [];
    assert ParseTokens(Declared(Crc32cLevel, Some(crc)), Osf5, [k]) == Ok(Declared(Ed25519Level, Some(crc)));
  }

  /**
   Every accepted line: an integrity level is declared exactly when a
   metablock CRC is, exactly when there are tokens; tokens occur only in OSF5
   and each of them is one the reader understands.
   */
  lemma {:induction false} AcceptedLine(line: bytes)
    requires ParseLine(line).Ok?
    ensures Find(line, SPACE) < |line|
    ensures ParseLine(line).value.integrity != NoIntegrity <==> ParseLine(line).value.metablockCrc.Some?
    ensures ParseLine(line).value.metablockCrc.Some? <==> Tokens(line) != []
    ensures Tokens(line) != [] ==> ParseLine(line).value.version == Osf5
    ensures forall i :: 0 <= i < |Tokens(line)| ==> Understood(Tokens(line)[i])
  {
    hide Find, Fields, ParseToken, Understood;
    var sep := Find(line, SPACE);
    var version := IdentifierToVersion(line[..sep]).value;
    TokensConsistent(NOTHING_DECLARED, version, Tokens(line));
  }

  // ---------------------------------------------------------------------
  // The parser over a stream.
  // ---------------------------------------------------------------------

  method ReadFirstLine(input: ByteStream) returns (r: Result<bytes>)
    requires input.Valid()
    modifies input`pos
    ensures input.Valid()
    ensures match FirstLine(old(input.Rest()), [])
            case Err(e) => r == Err(e)
            case Ok((line, rest)) => r == Ok(StripReturn(line)) && input.Rest() == rest
  {
    var buf: bytes := [];
    while true
      invariant input.Valid() && |buf| <= MAX_MAGIC_HEADER_LEN
      invariant FirstLine(input.Rest(), buf) == FirstLine(old(input.Rest()), [])
      decreases |input.Rest()|
    {
      var c := input.Get();
      if c.None? {
        return Err(InvalidMagicHeader);
      }
      if c.value == NEWLINE {
        break;
      }
      buf := buf + [c.value];
      if |buf| > MAX_MAGIC_HEADER_LEN {
        return Err(MagicHeaderTooLong);
      }
    }
    if buf != [] && buf[|buf| - 1] == RETURN {
      buf := buf[..|buf| - 1];
    }
    r := Ok(buf);
  }

  /** One step of the split at `start`: the field up to the next space, then the rest. */
  lemma {:induction false} FieldsStep(s: bytes, start: nat, i: nat)
    requires start <= |s| && i == start + Find(s[start..], SPACE)
    ensures Fields(s[start..]) == if i == |s| then [s[start..]] else [s[start..i]] + Fields(s[i + 1..])
  {
    hide Find;
    var tail := s[start..];
    FieldsHead(tail);
    hide Fields;
    if i < |s| {
      assert tail[..i - start] == s[start..i] && tail[i - start + 1..] == s[i + 1..];
    }
  }

  lemma {:induction false} FieldsHead(s: bytes)
    ensures Fields(s) == if Find(s, SPACE) == |s| then [s] else [s[..Find(s, SPACE)]] + Fields(s[Find(s, SPACE) + 1..])
  {
    hide Find;
  }

  method SplitFields(rest: bytes) returns (fields: seq<bytes>)
    ensures fields == Fields(rest)
  {
    hide Fields, Find;
    fields := [];
    var start := 0;
    assert rest[0..] == rest;
    while true
      invariant 0 <= start <= |rest|
      invariant fields + Fields(rest[start..]) == Fields(rest)
      decreases |rest| - start
    {
      var space := start + Find(rest[start..], SPACE);
      FieldsStep(rest, start, space);
      if space == |rest| {
        return fields + [rest[start..]];
      }
      var field := rest[start..space];
      assert fields + ([field] + Fields(rest[space + 1..])) == fields + [field] + Fields(rest[space + 1..]);
      fields, start := fields + [field], space + 1;
    }
  }

  method ParseMagicHeaderLine(line: bytes) returns (r: Result<MagicHeader>)
    ensures r == ParseLine(line)
  {
    hide ParseToken, Find, Fields, ParseU64, IdentifierToVersion;
    var sep := Find(line, SPACE);
    if sep == |line| {
      return Err(InvalidMagicHeader);
    }
    var version := IdentifierToVersion(line[..sep]);
    if version.Err? {
      return Err(version.error);
    }
    var fields := SplitFields(line[sep + 1..]);
    var len := ParseU64(fields[0]);
    if len.None? {
      return Err(InvalidMagicHeader);
    }
    var d, i := NOTHING_DECLARED, 1;
    while i < |fields|
      invariant 1 <= i <= |fields|
      invariant ParseTokens(d, version.value, fields[i..]) == ParseTokens(NOTHING_DECLARED, version.value, fields[1..])
    {
      assert fields[i..][1..] == fields[i + 1..];
      var next := ParseToken(d, version.value, fields[i]);
      if next.Err? {
        return Err(next.error);
      }
      d, i := next.value, i + 1;
    }
    r := Ok(MagicHeader(version.value, len.value, d.integrity, d.crc));
  }

  method ParseMagicHeader(input: ByteStream) returns (r: Result<MagicHeader>)
    requires input.Valid()
    modifies input`pos
    ensures input.Valid()
    ensures match ParseHeader(old(input.Rest()))
            case Err(e) => r == Err(e)
            case Ok((h, rest)) => r == Ok(h) && input.Rest() == rest
  {
    hide ParseLine, StripReturn, FirstLine;
    var line := ReadFirstLine(input);
    if line.Err? {
      return Err(line.error);
    }
    r := ParseMagicHeaderLine(line.value);
  }
}
