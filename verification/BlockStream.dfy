/**
 The data section as a stepping machine: what one call of `BlockReader::next`
 does to the remaining bytes (reader.cpp), as a function.
 */
module BlockStream {
  import opened Bytes
  import opened OsfTypes
  import opened Payload
  import opened Frame

  datatype IntegrityProfile = NoIntegrity | Crc32cLevel | Ed25519Level

  datatype ChannelInfo = ChannelInfo(dataType: DataType, sov: nat)

  /** What a reader knows before the first block. */
  datatype Config = Config(
    channels: map<u16, ChannelInfo>,
    osf4: bool,
    integrity: IntegrityProfile,
    capture: bool)

  /** The outcome of one call on an unfinished reader. */
  datatype Step =
    /** No block; the reader is finished. */
    | Finish(counted: nat, truncated: bool, trailer: bool)
    /** An error; the reader is finished. */
    | Fail(error: Error, counted: nat, truncated: bool)
    /** A block or a payload error; `used` bytes were consumed and the reader goes on. */
    | Yield(result: Result<Block>, used: nat, length: nat)

  function SkippedBlock(cfg: Config, ci: u16, reason: SkipReason, length: nat, payload: bytes): Block {
    Block(ci, Skipped(reason, length, if cfg.capture then payload else []))
  }

  /** Route a CRC-free payload; `length` is what the length field said. */
  function RouteBlock(cfg: Config, ci: u16, dt: DataType, length: nat, payload: bytes): Result<Block>
    requires |payload| > 0
  {
    match Route(payload, dt, cfg.osf4)
    case Skip(kind, raw) => Ok(SkippedBlock(cfg, ci, SkipReason(kind, raw), length, payload[1..]))
    case Parsed(Err(e)) => Err(e)
    case Parsed(Ok(k)) => Ok(Block(ci, k))
  }

  /** A complete frame of a supported channel: verify and strip the CRC, then route. */
  function Deliver(cfg: Config, ci: u16, info: ChannelInfo, payload: bytes): Result<Block>
    requires |payload| > 0 && IsSov(info.sov)
  {
    if cfg.integrity.NoIntegrity? then
      RouteBlock(cfg, ci, info.dataType, |payload|, payload)
    else if |payload| < 5 || !FrameCrcOk(ci, info.sov, |payload|, payload) then
      Ok(SkippedBlock(cfg, ci, SkipReason(CrcFailed, 0), |payload|, payload))
    else
      RouteBlock(cfg, ci, info.dataType, |payload|, payload[..|payload| - 4])
  }

  /** The optional trailer: u32 length, that many bytes, then the magic trailer string. */
  function TrailerStep(rest: bytes): Step
    requires |rest| >= 2
  {
    if |rest| < 6 then Finish(6, true, true)
    else
      var length := UnLe(rest[2..6]);
      if |rest| - 6 < length then Finish(6, true, true)
      else
        Finish(6 + length + (if |rest| - 6 - length >= MAGIC_TRAILER_LEN then MAGIC_TRAILER_LEN else 0), false, true)
  }

  /** The reserved signature channel: skipped by its u32 length. */
  function SignatureStep(rest: bytes): (s: Step)
    requires |rest| >= 2
    ensures s.Yield? ==> 6 <= s.used <= |rest| && s.length + 6 == s.used
    ensures !s.Fail?
  {
    if |rest| < 6 then Finish(2, true, false)
    else
      var length := UnLe(rest[2..6]);
      if |rest| - 6 < length then Finish(6, true, false)
      else
        Yield(Ok(Block(SIGNATURE_CHANNEL_INDEX, Skipped(SkipReason(SignatureBlock, 0), length, []))),
              6 + length, length)
  }

  /** An ordinary block of a declared channel. */
  function ChannelStep(cfg: Config, rest: bytes, ci: u16, info: ChannelInfo): (s: Step)
    requires |rest| >= 2
    ensures s.Yield? ==> IsSov(info.sov) && s.length + 2 + info.sov == s.used <= |rest|
  {
    if !IsSov(info.sov) then Fail(InvalidMetablock, 2, false)
    else if |rest| < 2 + info.sov then Finish(2, true, false)
    else
      var length := UnLe(rest[2..2 + info.sov]);
      var header := 2 + info.sov;
      if length == 0 then
        Yield(Ok(Block(ci, Skipped(SkipReason(ZeroLengthBlock, 0), 0, []))), header, 0)
      else if info.dataType.Unsupported? then
        if |rest| - header < length then Fail(IoError, header, true)
        else
          Yield(Ok(SkippedBlock(cfg, ci, SkipReason(UnsupportedDataType, 0), length, rest[header..header + length])),
                header + length, length)
      else if |rest| - header < length then Finish(header, true, false)
      else
        Yield(Deliver(cfg, ci, info, rest[header..header + length]), header + length, length)
  }

  function ChannelIndex(rest: bytes): u16
    requires |rest| >= 2
  {
    Pow256Values();
    UnLe(rest[..2])
  }

  predicate IsSignature(cfg: Config, ci: u16) {
    !cfg.integrity.NoIntegrity? && ci == SIGNATURE_CHANNEL_INDEX
  }

  /** One call of `next()` on an unfinished reader whose stream holds `rest`. */
  function Next(cfg: Config, rest: bytes): (s: Step)
    ensures s.Yield? ==> 4 <= s.used <= |rest| && s.length < s.used
  {
    if |rest| < 2 then Finish(0, false, false)
    else
      var ci := ChannelIndex(rest);
      if ci == TRAILER_CHANNEL_INDEX then TrailerStep(rest)
      else if IsSignature(cfg, ci) then SignatureStep(rest)
      else if ci !in cfg.channels then Fail(UnknownChannelIndex, 2, false)
      else ChannelStep(cfg, rest, ci, cfg.channels[ci])
  }

  /** Everything the reader yields until it stays at end of stream. */
  function Items(cfg: Config, rest: bytes): seq<Result<Block>>
    decreases |rest|
  {
    match Next(cfg, rest)
    case Finish(_, _, _) => []
    case Fail(e, _, _) => [Err(e)]
    case Yield(r, used, _) => [r] + Items(cfg, rest[used..])
  }

  // ---------------------------------------------------------------------
  // Truncation.
  // ---------------------------------------------------------------------

  /** A step that yields looks no further than the bytes it uses. */
  lemma {:induction false} YieldIsStable(cfg: Config, a: bytes, b: bytes)
    requires Next(cfg, a).Yield?
    ensures Next(cfg, a + b) == Next(cfg, a)
  {
    hide Deliver, UnLe;
    var s := a + b;
    assert s[..2] == a[..2];
    var ci := ChannelIndex(a);
    if IsSignature(cfg, ci) {
      assert s[2..6] == a[2..6];
    } else {
      var info := cfg.channels[ci];
      var header := 2 + info.sov;
      assert s[2..header] == a[2..header];
      var length := UnLe(a[2..header]);
      assert s[header..header + length] == a[header..header + length];
    }
  }

  /** A step that fails for a reason other than truncation looks at two bytes only. */
  lemma FailIsStable(cfg: Config, a: bytes, b: bytes)
    requires Next(cfg, a).Fail? && !Next(cfg, a).truncated
    ensures Next(cfg, a + b) == Next(cfg, a)
  {
    assert (a + b)[..2] == a[..2];
  }

  /** The next block belongs to a channel whose datatype this reader cannot decode. */
  predicate NextIsUnsupported(cfg: Config, rest: bytes) {
    |rest| >= 2 &&
    var ci := ChannelIndex(rest);
    ci != TRAILER_CHANNEL_INDEX && !IsSignature(cfg, ci) && ci in cfg.channels && cfg.channels[ci].dataType.Unsupported?
  }

  /** A cut after `m` bytes falls inside the payload of a block that would have been skipped unread. */
  predicate CutsSkippedPayload(cfg: Config, data: bytes, m: nat)
    decreases |data|
  {
    match Next(cfg, data)
    case Finish(_, _, _) => false
    case Fail(_, _, _) => false
    case Yield(_, used, length) =>
      if m >= used then CutsSkippedPayload(cfg, data[used..], m - used)
      else NextIsUnsupported(cfg, data) && m >= used - length
  }

  lemma TruncatedFailIsUnsupported(cfg: Config, a: bytes, b: bytes)
    requires Next(cfg, a).Fail? && Next(cfg, a).truncated
    ensures NextIsUnsupported(cfg, a + b)
    ensures Next(cfg, a + b).Yield? ==> Next(cfg, a + b).result.Ok?
    ensures Next(cfg, a + b).Yield? ==> |a| < Next(cfg, a + b).used
    ensures Next(cfg, a + b).Yield? ==> |a| >= Next(cfg, a + b).used - Next(cfg, a + b).length
    ensures !Next(cfg, a + b).Yield? ==> Next(cfg, a + b) == Next(cfg, a)
  {
    hide Deliver, UnLe;
    var s := a + b;
    assert s[..2] == a[..2];
    var header := 2 + cfg.channels[ChannelIndex(a)].sov;
    assert s[2..header] == a[2..header];
  }

  lemma CutYield(cfg: Config, a: bytes, b: bytes)
    requires Next(cfg, a + b).Yield? && |a| < Next(cfg, a + b).used
    requires NextIsUnsupported(cfg, a + b) && |a| >= Next(cfg, a + b).used - Next(cfg, a + b).length
    ensures Next(cfg, a).Fail? && Next(cfg, a).truncated
  {
    hide Deliver, UnLe;
    var s := a + b;
    var header := Next(cfg, s).used - Next(cfg, s).length;
    assert s[..2] == a[..2];
    assert s[2..header] == a[2..header];
  }

  /** Reading a prefix yields a prefix of the items, except exactly when the cut falls in a skipped payload. */
  lemma {:induction false} TruncationYieldsPrefix(cfg: Config, data: bytes, m: nat)
    requires m <= |data|
    ensures Items(cfg, data[..m]) <= Items(cfg, data) <==> !CutsSkippedPayload(cfg, data, m)
    decreases |data|
  {
    hide Next;
    var a, b := data[..m], data[m..];
    assert data == a + b;
    match Next(cfg, a)
    case Yield(r, used, _) =>
      YieldIsStable(cfg, a, b);
      assert a[used..] == data[used..][..m - used];
      TruncationYieldsPrefix(cfg, data[used..], m - used);
      var (x, y) := (Items(cfg, a[used..]), Items(cfg, data[used..]));
      assert ([r] + x)[1..] == x && ([r] + y)[1..] == y;
    case Finish(_, _, _) =>
      if Next(cfg, data).Yield? && m >= Next(cfg, data).used {
        YieldBack(cfg, data, m);
        assert false;
      }
      if CutsSkippedPayload(cfg, data, m) {
        CutYield(cfg, a, b);
        assert false;
      }
    case Fail(e, _, truncated) =>
      if truncated {
        TruncatedFailIsUnsupported(cfg, a, b);
        assert Items(cfg, a) == [Err(e)];
        if Next(cfg, data).Yield? {
          assert Items(cfg, data)[0] == Next(cfg, data).result;
          assert Items(cfg, a)[0] != Items(cfg, data)[0];
        }
      } else {
        FailIsStable(cfg, a, b);
      }
  }

  /** A whole frame within the cut is read the same from the cut data. */
  lemma YieldBack(cfg: Config, data: bytes, m: nat)
    requires m <= |data| && Next(cfg, data).Yield? && Next(cfg, data).used <= m
    ensures Next(cfg, data[..m]) == Next(cfg, data)
  {
    hide Deliver, UnLe;
    var a := data[..m];
    assert a[..2] == data[..2];
    var ci := ChannelIndex(a);
    if IsSignature(cfg, ci) {
      assert data[2..6] == a[2..6];
    } else {
      var info := cfg.channels[ci];
      var header := 2 + info.sov;
      assert data[2..header] == a[2..header];
      var length := UnLe(a[2..header]);
      assert data[header..header + length] == a[header..header + length];
    }
  }
}
