/**
 The grammar of the magic line: which lines the parser accepts and what it reads from
 them, stated by how such a line is spelled and proved in both directions.
 */
module HeaderGrammar {
  import opened Bytes
  import opened OsfTypes
  import opened BlockStream
  import opened Header

  // ---------------------------------------------------------------------
  // Spelling.
  // ---------------------------------------------------------------------

  predicate Identifies(id: bytes, v: Version) {
    match v
    case Osf4 => id == OSF4 || id == OCEAN_STREAM_FORMAT4 || id == OCEAN_STREAMING_FORMAT4
    case Osf5 => id == OSF5
  }

  function Zeros(k: nat): (s: bytes)
    ensures |s| == k
  {
    seq(k, _ => 48)
  }

  /** The length in decimal, with any number of zeros in front. */
  ghost predicate SpellsLength(f: bytes, n: u64) {
    exists k: nat :: f == Zeros(k) + Decimal(n)
  }

  /** The key, a colon, and eight uppercase hexadecimal digits. */
  predicate SpellsCrc(t: bytes, crc: u32) {
    t == CRC32C + [COLON] + Hex(crc, 8)
  }

  /** The key, a colon, and sixteen lowercase hexadecimal digits. */
  predicate SpellsKeyId(t: bytes) {
    && |t| == 24 && t[..8] == ED25519 + [COLON]
    && forall i :: 8 <= i < 24 ==> 48 <= t[i] <= 57 || 97 <= t[i] <= 102
  }

  /** A CRC token declares the CRC; a key id behind a CRC makes the file a signed one. */
  ghost predicate TokenSays(d: Declared, t: bytes, d': Declared) {
    || (exists crc: u32 :: SpellsCrc(t, crc) && d' == Declared(Crc32cLevel, Some(crc)))
    || (SpellsKeyId(t) && d.crc.Some? && d' == Declared(Ed25519Level, d.crc))
  }

  ghost predicate TokensSay(d: Declared, tokens: seq<bytes>, d': Declared)
    decreases |tokens|
  {
    if tokens == [] then d' == d
    else exists m :: TokenSays(d, tokens[0], m) && TokensSay(m, tokens[1..], d')
  }

  /** Every token with one space in front. */
  function Spaced(tokens: seq<bytes>): bytes {
    if tokens == [] then [] else [SPACE] + tokens[0] + Spaced(tokens[1..])
  }

  ghost predicate LineParts(line: bytes, h: MagicHeader, id: bytes, f: bytes, tokens: seq<bytes>) {
    && Identifies(id, h.version) && SpellsLength(f, h.metablockLen)
    && line == id + [SPACE] + f + Spaced(tokens)
    && (h.version.Osf4? ==> tokens == [])
    && TokensSay(Declared(NoIntegrity, None), tokens, Declared(h.integrity, h.metablockCrc))
  }

  /** Identifier, length, and in OSF5 tokens, with one space between each two. */
  ghost predicate LineLayout(line: bytes, h: MagicHeader) {
    exists id, f, tokens :: LineParts(line, h, id, f, tokens)
  }

  // ---------------------------------------------------------------------
  // Numbers.
  // ---------------------------------------------------------------------

  lemma {:induction false} DigitsAll(s: bytes, acc: nat)
    ensures ParseDigits(s, acc).Some? <==> forall i :: 0 <= i < |s| ==> 48 <= s[i] <= 57
    decreases |s|
  {
    if s != [] && 48 <= s[0] <= 57 {
      DigitsAll(s[1..], 10 * acc + (s[0] - 48));
      assert forall i :: 1 <= i < |s| ==> s[i] == s[1..][i - 1];
      assert forall i :: 0 <= i < |s| - 1 ==> s[1..][i] == s[i + 1];
    }
  }

  /** Digits that read as `n` spell it. */
  lemma {:induction false} DigitsSpell(s: bytes, n: nat) returns (k: nat)
    requires s != [] && ParseDigits(s, 0) == Some(n)
    ensures s == Zeros(k) + Decimal(n)
    decreases |s|
  {
    DigitsAll(s, 0);
    var (front, c) := (s[..|s| - 1], s[|s| - 1]);
    assert s == front + [c];
    var d := c - 48;
    DigitsAppend(front, d, 0);
    var m := ParseDigits(front, 0).value;
    if front == [] {
      k := 0;
      assert s == [48 + n];
    } else {
      var j := DigitsSpell(front, m);
      if m == 0 {
        k := j + 1;
        assert Zeros(j) + [48] == Zeros(j + 1);
        assert s == Zeros(j) + [48] + [48 + n];
      } else {
        k := j;
        assert Decimal(n) == Decimal(m) + [48 + d];
        assert s == Zeros(j) + (Decimal(m) + [48 + d]);
      }
    }
  }

  lemma {:induction false} ZerosRead(k: nat, s: bytes)
    ensures ParseDigits(Zeros(k) + s, 0) == ParseDigits(s, 0)
  {
    if k == 0 {
      assert Zeros(0) + s == s;
    } else {
      assert (Zeros(k) + s)[1..] == Zeros(k - 1) + s;
      ZerosRead(k - 1, s);
    }
  }

  lemma LengthExactly(f: bytes, n: u64)
    ensures ParseU64(f) == Some(n) <==> SpellsLength(f, n)
  {
    hide ParseDigits, Decimal;
    if ParseU64(f) == Some(n) {
      var k := DigitsSpell(f, n);
    }
    if k: nat :| f == Zeros(k) + Decimal(n) {
      ZerosRead(k, Decimal(n));
      DecimalReadsBack(n);
    }
  }

  /** Uppercase digits that read as `n` are its only spelling of that length. */
  lemma {:induction false} HexSpells(s: bytes, n: nat)
    requires ParseHex(s, true) == Some(n)
    ensures s == Hex(n, |s|) && n < Power16(|s|)
    decreases |s|
  {
    if s != [] {
      var front := s[..|s| - 1];
      HexSpells(front, ParseHex(front, true).value);
      assert s == front + [s[|s| - 1]];
    }
  }

  lemma {:induction false} LowerHex(s: bytes)
    ensures ParseHex(s, false).Some? <==> forall i :: 0 <= i < |s| ==> 48 <= s[i] <= 57 || 97 <= s[i] <= 102
    decreases |s|
  {
    if s != [] {
      LowerHex(s[..|s| - 1]);
      assert forall i :: 0 <= i < |s| - 1 ==> s[..|s| - 1][i] == s[i];
    }
  }

  // ---------------------------------------------------------------------
  // Tokens.
  // ---------------------------------------------------------------------

  lemma CrcSpelled(token: bytes, crc: u32)
    requires token[..Find(token, COLON)] == CRC32C && Find(token, COLON) < |token|
    requires var v := token[Find(token, COLON) + 1..]; |v| == 8 && ParseHex(v, true) == Some(crc)
    ensures SpellsCrc(token, crc)
  {
    hide ParseHex, Hex;
    HexSpells(token[7..], crc);
    assert token == token[..6] + [token[6]] + token[7..];
  }

  lemma KeySpelled(token: bytes)
    requires token[..Find(token, COLON)] == ED25519 && Find(token, COLON) < |token|
    requires var v := token[Find(token, COLON) + 1..]; |v| == 16 && ParseHex(v, false).Some?
    ensures SpellsKeyId(token)
  {
    hide ParseHex;
    LowerHex(token[8..]);
    assert token[..8] == token[..7] + [token[7]];
  }

  lemma CrcReads(d: Declared, token: bytes, crc: u32)
    requires SpellsCrc(token, crc)
    ensures ParseToken(d, Osf5, token) == Ok(Declared(Crc32cLevel, Some(crc)))
  {
    Power16Of8();
    HexReadsBack(crc, 8);
    hide Hex, ParseHex, Find;
    FindFirst(CRC32C, COLON, Hex(crc, 8));
    assert token[..6] == CRC32C && token[7..] == Hex(crc, 8);
    assert ValidKey(CRC32C);
  }

  lemma KeyReads(d: Declared, token: bytes)
    requires SpellsKeyId(token)
    ensures ParseToken(d, Osf5, token)
         == if d.crc.None? then Err(InvalidMagicHeader) else Ok(Declared(Ed25519Level, d.crc))
  {
    hide ParseHex, Find;
    LowerHex(token[8..]);
    assert token == ED25519 + [COLON] + token[8..];
    FindFirst(ED25519, COLON, token[8..]);
    assert token[..7] == ED25519;
    assert ValidKey(ED25519);
  }

  lemma TokenExactly(d: Declared, token: bytes, d': Declared)
    ensures ParseToken(d, Osf5, token) == Ok(d') <==> TokenSays(d, token, d')
  {
    hide ParseHex, Find, SpellsCrc, SpellsKeyId;
    if ParseToken(d, Osf5, token) == Ok(d') {
      var colon := Find(token, COLON);
      assert colon < |token| by { TokenHasValue(d, token, d'); }
      if token[..colon] == CRC32C {
        CrcSpelled(token, d'.crc.value);
      } else {
        KeySpelled(token);
      }
    }
    if crc: u32 :| SpellsCrc(token, crc) && d' == Declared(Crc32cLevel, Some(crc)) {
      CrcReads(d, token, crc);
    }
    if SpellsKeyId(token) {
      KeyReads(d, token);
    }
  }

  lemma TokenHasValue(d: Declared, token: bytes, d': Declared)
    requires ParseToken(d, Osf5, token) == Ok(d')
    ensures Find(token, COLON) < |token|
  {
    hide Find;
    assert ParseHex([], true) == Some(0);
  }

  lemma {:induction false} TokensExactly(d: Declared, tokens: seq<bytes>, d': Declared)
    ensures ParseTokens(d, Osf5, tokens) == Ok(d') <==> TokensSay(d, tokens, d')
    decreases |tokens|
  {
    hide ParseToken, TokenSays;
    if tokens != [] {
      if ParseToken(d, Osf5, tokens[0]).Ok? {
        var m := ParseToken(d, Osf5, tokens[0]).value;
        TokenExactly(d, tokens[0], m);
        TokensExactly(m, tokens[1..], d');
      }
      forall m | TokenSays(d, tokens[0], m)
        ensures ParseToken(d, Osf5, tokens[0]) == Ok(m)
      {
        TokenExactly(d, tokens[0], m);
      }
    }
  }

  /** OSF4 takes no tokens. */
  lemma Osf4Tokens(d: Declared, tokens: seq<bytes>)
    ensures ParseTokens(d, Version.Osf4, tokens).Ok? <==> tokens == []
    ensures tokens == [] ==> ParseTokens(d, Version.Osf4, tokens) == Ok(d)
  {
    hide Find;
  }

  // ---------------------------------------------------------------------
  // Fields.
  // ---------------------------------------------------------------------

  predicate NoSpaces(fields: seq<bytes>) {
    forall f :: f in fields ==> SPACE !in f
  }

  lemma {:induction false} FieldsJoin(s: bytes)
    ensures s == Fields(s)[0] + Spaced(Fields(s)[1..]) && NoSpaces(Fields(s))
    decreases |s|
  {
    hide Find;
    FieldsHead(s);
    hide Fields;
    var i := Find(s, SPACE);
    if i < |s| {
      var rest := s[i + 1..];
      FieldsJoin(rest);
      var all := [s[..i]] + Fields(rest);
      assert Fields(s) == all && all[1..] == Fields(rest);
      assert Spaced(Fields(rest)) == [SPACE] + Fields(rest)[0] + Spaced(Fields(rest)[1..]);
      assert s == s[..i] + [s[i]] + rest;
      assert [SPACE] + (Fields(rest)[0] + Spaced(Fields(rest)[1..])) == Spaced(Fields(rest));
    } else {
      assert [s][1..] == [] && s + [] == s;
      assert forall k :: 0 <= k < |s| ==> s[k] != SPACE;
    }
  }

  lemma {:induction false} FieldsOf(f: bytes, tokens: seq<bytes>)
    requires SPACE !in f && NoSpaces(tokens)
    ensures Fields(f + Spaced(tokens)) == [f] + tokens
    decreases |tokens|
  {
    hide Find, Fields;
    if tokens == [] {
      FieldsOne(f);
      assert f + Spaced(tokens) == f;
    } else {
      var rest := tokens[0] + Spaced(tokens[1..]);
      assert tokens[0] in tokens && tokens == [tokens[0]] + tokens[1..];
      FieldsOf(tokens[0], tokens[1..]);
      assert f + Spaced(tokens) == f + [SPACE] + rest;
      FieldsCons(f, rest);
    }
  }

  // ---------------------------------------------------------------------
  // Lines.
  // ---------------------------------------------------------------------

  lemma LengthPlain(f: bytes, n: u64)
    requires SpellsLength(f, n)
    ensures SPACE !in f
  {
    hide Decimal;
    DecimalReadsBack(n);
  }

  lemma TokenPlain(d: Declared, t: bytes, d': Declared)
    requires TokenSays(d, t, d')
    ensures SPACE !in t
  {
    if crc: u32 :| SpellsCrc(t, crc) && d' == Declared(Crc32cLevel, Some(crc)) {
      Power16Of8();
      HexReadsBack(crc, 8);
      hide Hex;
    } else {
      forall i | 0 <= i < |t|
        ensures t[i] != SPACE
      {
        if i < 8 {
          assert t[i] == t[..8][i];
        }
      }
    }
  }

  lemma {:induction false} TokensPlain(d: Declared, tokens: seq<bytes>, d': Declared)
    requires TokensSay(d, tokens, d')
    ensures NoSpaces(tokens)
    decreases |tokens|
  {
    hide TokenSays;
    if tokens != [] {
      var m :| TokenSays(d, tokens[0], m) && TokensSay(m, tokens[1..], d');
      TokenPlain(d, tokens[0], m);
      TokensPlain(m, tokens[1..], d');
      assert tokens == [tokens[0]] + tokens[1..];
    }
  }

  lemma IdentifiesExactly(id: bytes, v: Version)
    ensures IdentifierToVersion(id) == Ok(v) <==> Identifies(id, v)
    ensures Identifies(id, v) ==> SPACE !in id
  {
  }

  /** An accepted line is spelled as its header says. */
  lemma ParsedIsSpelled(line: bytes, h: MagicHeader)
    requires ParseLine(line) == Ok(h)
    ensures LineLayout(line, h)
  {
    hide Find, Fields, ParseU64, ParseTokens, IdentifierToVersion, Identifies, SpellsLength, TokensSay, Spaced;
    var sep := Find(line, SPACE);
    var (id, rest) := (line[..sep], line[sep + 1..]);
    var fields := Fields(rest);
    IdentifiesExactly(id, h.version);
    LengthExactly(fields[0], h.metablockLen);
    var d := Declared(h.integrity, h.metablockCrc);
    FieldsJoin(rest);
    assert line == id + [line[sep]] + rest;
    assert id + [SPACE] + (fields[0] + Spaced(fields[1..])) == id + [SPACE] + fields[0] + Spaced(fields[1..]);
    if h.version.Osf4? {
      Osf4Tokens(NOTHING_DECLARED, fields[1..]);
      OsfTokensNone(d);
    } else {
      TokensExactly(NOTHING_DECLARED, fields[1..], d);
    }
    assert LineParts(line, h, id, fields[0], fields[1..]);
  }

  lemma OsfTokensNone(d: Declared)
    ensures TokensSay(NOTHING_DECLARED, [], d) <==> d == NOTHING_DECLARED
  {
  }

  /** A line spelled so is accepted, and says that. */
  lemma SpelledParses(line: bytes, h: MagicHeader, id: bytes, f: bytes, tokens: seq<bytes>)
    requires LineParts(line, h, id, f, tokens)
    ensures ParseLine(line) == Ok(h)
  {
    hide Find, Fields, ParseU64, ParseTokens, IdentifierToVersion, Identifies, SpellsLength, TokensSay, Spaced;
    var d := Declared(h.integrity, h.metablockCrc);
    IdentifiesExactly(id, h.version);
    LengthExactly(f, h.metablockLen);
    LengthPlain(f, h.metablockLen);
    TokensPlain(NOTHING_DECLARED, tokens, d);
    var rest := f + Spaced(tokens);
    FieldsOf(f, tokens);
    assert line == id + [SPACE] + rest;
    FindFirst(id, SPACE, rest);
    assert line[..|id|] == id && line[|id| + 1..] == rest;
    assert ([f] + tokens)[1..] == tokens;
    if h.version.Osf4? {
      Osf4Tokens(NOTHING_DECLARED, tokens);
      OsfTokensNone(d);
    } else {
      TokensExactly(NOTHING_DECLARED, tokens, d);
    }
  }

  /** The parser accepts exactly the lines of the grammar, and reads from each what it spells. */
  lemma {:induction false} LineExactly(line: bytes, h: MagicHeader)
    ensures ParseLine(line) == Ok(h) <==> LineLayout(line, h)
  {
    hide ParseLine, LineParts;
    if ParseLine(line) == Ok(h) {
      ParsedIsSpelled(line, h);
    }
    if id, f, tokens :| LineParts(line, h, id, f, tokens) {
      SpelledParses(line, h, id, f, tokens);
    }
  }

  lemma {:induction false} FirstLineGives(data: bytes, got: bytes)
    requires |got| <= MAX_MAGIC_HEADER_LEN && FirstLine(data, got).Ok?
    ensures var (line, rest) := FirstLine(data, got).value;
            && |got| <= |line| <= MAX_MAGIC_HEADER_LEN && line[..|got|] == got
            && NEWLINE !in line[|got|..] && data == line[|got|..] + [NEWLINE] + rest
    decreases |data|
  {
    if data[0] == NEWLINE {
      assert got[|got|..] == [];
      assert data == [data[0]] + data[1..];
    } else {
      FirstLineGives(data[1..], got + [data[0]]);
      var (line, rest) := FirstLine(data, got).value;
      assert line[..|got|] == line[..|got| + 1][..|got|];
      assert line[|got|..] == [data[0]] + line[|got| + 1..];
      assert data == [data[0]] + data[1..];
    }
  }

  /** The first line: up to the first newline, if that comes within 128 bytes. */
  lemma {:induction false} FirstLineExactly(data: bytes, line: bytes, rest: bytes)
    ensures FirstLine(data, []) == Ok((line, rest))
       <==> |line| <= 128 && NEWLINE !in line && data == line + [NEWLINE] + rest
  {
    hide FirstLine;
    if FirstLine(data, []) == Ok((line, rest)) {
      FirstLineGives(data, []);
      assert line[0..] == line;
    }
    if |line| <= 128 && NEWLINE !in line && data == line + [NEWLINE] + rest {
      FirstLineStops(line, rest, []);
      assert [] + line == line;
    }
  }

  /** A line as it stands in a file, with the carriage return some editors put before the newline. */
  predicate EndsLine(line: bytes, raw: bytes) {
    raw == line + [13] || (raw == line && (line == [] || line[|line| - 1] != 13))
  }

  /**
   The header of a file, exactly: it is accepted if and only if a line of the grammar,
   with or without a carriage return, ends in a newline within 128 bytes, and what is
   left is what stands behind it.
   */
  lemma {:induction false} HeaderExactly(data: bytes, h: MagicHeader, rest: bytes)
    ensures ParseHeader(data) == Ok((h, rest))
       <==> exists line, raw ::
              && EndsLine(line, raw) && LineLayout(line, h)
              && |raw| <= 128 && 10 !in raw && data == raw + [10] + rest
  {
    hide ParseLine, LineLayout, FirstLine;
    if ParseHeader(data) == Ok((h, rest)) {
      var raw := FirstLine(data, []).value.0;
      FirstLineExactly(data, raw, rest);
      LineExactly(StripReturn(raw), h);
      assert EndsLine(StripReturn(raw), raw) by { StripEnds(raw); }
    }
    if line, raw :| EndsLine(line, raw) && LineLayout(line, h)
                    && |raw| <= 128 && 10 !in raw && data == raw + [10] + rest {
      FirstLineExactly(data, raw, rest);
      LineExactly(line, h);
      assert StripReturn(raw) == line;
    }
  }

  lemma StripEnds(raw: bytes)
    ensures EndsLine(StripReturn(raw), raw)
  {
  }
}
