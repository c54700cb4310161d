/**
 The blocks a reader passes by (reader.cpp): signatures, zero-length blocks, blocks
 of unknown datatypes, control bytes that carry no samples, and the trailer. Each
 is consumed whole, reported for what it is, and the reader stands behind it.
 */
module Skips {
  import opened Bytes
  import opened OsfTypes
  import opened Payload
  import opened Frame
  import opened BlockStream
  import opened Codec
  import opened Crc32cModel

  /** A frame with a four-byte length, as signatures and the trailer have on any channel index. */
  lemma {:induction false} WideFrameParts(ci: u16, payload: bytes, rest: bytes)
    requires |payload| < TWO_TO_THE_32
    ensures var s := FrameOf(ci, 4, payload) + rest;
            && |s| >= 6 + |payload| && ChannelIndex(s) == ci && UnLe(s[2..6]) == |payload| && s[6 + |payload|..] == rest
  {
    hide Le, UnLe, FrameOf;
    FrameParts(ci, 4, payload, rest);
  }

  /** In a file with CRCs a signature block is passed by on its own length field. */
  lemma {:induction false} SignaturePassed(cfg: Config, payload: bytes, rest: bytes)
    requires !cfg.integrity.NoIntegrity? && |payload| < TWO_TO_THE_32
    ensures Items(cfg, FrameOf(SIGNATURE_CHANNEL_INDEX, 4, payload) + rest)
         == [Ok(Block(SIGNATURE_CHANNEL_INDEX, Skipped(SkipReason(SignatureBlock, 0), |payload|, [])))]
           + Items(cfg, rest)
  {
    hide Le, UnLe, FrameOf, ChannelIndex, Items;
    var s := FrameOf(SIGNATURE_CHANNEL_INDEX, 4, payload) + rest;
    WideFrameParts(SIGNATURE_CHANNEL_INDEX, payload, rest);
    ItemsOfYield(cfg, s);
  }

  /** A block with length zero is reported and passed by, on every channel. */
  lemma {:induction false} ZeroLengthPassed(cfg: Config, ci: u16, rest: bytes)
    requires ci in cfg.channels && ci != TRAILER_CHANNEL_INDEX && !IsSignature(cfg, ci) && IsSov(cfg.channels[ci].sov)
    ensures Items(cfg, FrameOf(ci, cfg.channels[ci].sov, []) + rest)
         == [Ok(Block(ci, Skipped(SkipReason(ZeroLengthBlock, 0), 0, [])))] + Items(cfg, rest)
  {
    hide Le, UnLe, FrameOf, Items, Deliver;
    var sov := cfg.channels[ci].sov;
    FrameParts(ci, sov, [], rest);
    ItemsOfYield(cfg, FrameOf(ci, sov, []) + rest);
  }

  /** A block of a channel whose datatype is unknown: passed by unread, its payload kept if asked for. */
  lemma {:induction false} UnsupportedPassed(cfg: Config, ci: u16, payload: bytes, rest: bytes)
    requires ci in cfg.channels && ci != TRAILER_CHANNEL_INDEX && !IsSignature(cfg, ci)
    requires IsSov(cfg.channels[ci].sov) && cfg.channels[ci].dataType.Unsupported?
    requires 0 < |payload| < FieldLimit(cfg.channels[ci].sov)
    ensures Items(cfg, FrameOf(ci, cfg.channels[ci].sov, payload) + rest)
         == [Ok(Block(ci, Skipped(SkipReason(UnsupportedDataType, 0), |payload|, if cfg.capture then payload else [])))]
            + Items(cfg, rest)
  {
    hide Le, UnLe, FrameOf, Items, Deliver;
    var sov := cfg.channels[ci].sov;
    FrameParts(ci, sov, payload, rest);
    ItemsOfYield(cfg, FrameOf(ci, sov, payload) + rest);
  }

  /** Why a control byte carries no samples, if it does not. */
  function SkipOf(raw: nat, multi: bool, dt: DataType): Option<SkipKind> {
    if raw == 1 then Some(DeprecatedBlockType)
    else if raw == 3 then Some(StatusEventBlock)
    else if raw == 4 then (if multi || !IsVariable(dt) then Some(ReservedBlockType) else None)
    else if 5 <= raw <= 8 then None
    else Some(ReservedBlockType)
  }

  /** A frame as a writer leaves it: sealed if the file carries CRCs. */
  function Framed(cfg: Config, ci: u16, sov: nat, payload: bytes): bytes
    requires IsSov(sov)
  {
    if cfg.integrity.NoIntegrity? then FrameOf(ci, sov, payload) else Seal(FrameOf(ci, sov, payload), sov)
  }

  /** A frame that was not damaged is routed by its payload, without the CRC. */
  lemma {:induction false} FramedRoutes(cfg: Config, ci: u16, payload: bytes, rest: bytes)
    requires ci in cfg.channels && ci != TRAILER_CHANNEL_INDEX && !IsSignature(cfg, ci)
    requires IsSov(cfg.channels[ci].sov) && !cfg.channels[ci].dataType.Unsupported?
    requires 0 < |payload| && |payload| + Reserve(cfg) < FieldLimit(cfg.channels[ci].sov)
    ensures Items(cfg, Framed(cfg, ci, cfg.channels[ci].sov, payload) + rest)
         == [RouteBlock(cfg, ci, cfg.channels[ci].dataType, |payload| + Reserve(cfg), payload)] + Items(cfg, rest)
  {
    hide Le, FrameOf, Items, Next, Route, Seal, FrameCrcOk, Trailer;
    var sov := cfg.channels[ci].sov;
    var t := if cfg.integrity.NoIntegrity? then [] else Trailer(Le(ci, 2) + Le(|payload| + 4, sov) + payload);
    var p := payload + t;
    if cfg.integrity.NoIntegrity? {
      assert p == payload;
    } else {
      SealIsFrame(ci, sov, payload);
      SealedFrameChecks(ci, sov, payload);
      assert p[..|p| - 4] == payload;
    }
    var f := FrameOf(ci, sov, p);
    FrameStep(cfg, ci, p, rest);
    ItemsOfYield(cfg, f + rest);
    assert (f + rest)[|f|..] == rest;
  }

  /**
   A block whose control byte carries no samples is passed by with its reason and raw
   type, with or without a CRC behind it; what is kept is the body without the CRC.
   */
  lemma {:induction false} ControlPassed(cfg: Config, ci: u16, control: byte, body: bytes, rest: bytes)
    requires ci in cfg.channels && ci != TRAILER_CHANNEL_INDEX && !IsSignature(cfg, ci)
    requires IsSov(cfg.channels[ci].sov) && !cfg.channels[ci].dataType.Unsupported?
    requires 1 + |body| + Reserve(cfg) < FieldLimit(cfg.channels[ci].sov)
    requires SkipOf(control % 128, control >= 128, cfg.channels[ci].dataType).Some?
    ensures var kind := SkipOf(control % 128, control >= 128, cfg.channels[ci].dataType).value;
            var length := 1 + |body| + Reserve(cfg);
            Items(cfg, Framed(cfg, ci, cfg.channels[ci].sov, [control] + body) + rest)
            == [Ok(Block(ci, Skipped(SkipReason(kind, control % 128), length, if cfg.capture then body else [])))]
               + Items(cfg, rest)
  {
    hide Framed, Items, ParseStart, ParseContinued, ParseAbs, ParseRel, ParseMessageEvent, IsVariable, Reserve;
    var payload := [control] + body;
    assert payload[1..] == body;
    FramedRoutes(cfg, ci, payload, rest);
  }

  // ---------------------------------------------------------------------
  // What ends a section with an error, and what just ends it.
  // ---------------------------------------------------------------------

  /** A block on an index nobody declared is an error, and nothing behind it is read. */
  lemma {:induction false} UndeclaredFails(cfg: Config, ci: u16, rest: bytes)
    requires ci !in cfg.channels && ci != TRAILER_CHANNEL_INDEX && !IsSignature(cfg, ci)
    ensures Items(cfg, Le(ci, 2) + rest) == [Err(UnknownChannelIndex)]
  {
    hide Le, UnLe;
    assert (Le(ci, 2) + rest)[..2] == Le(ci, 2);
    FieldReadsBack(ci, 2);
  }

  /** So is one on a channel whose length field is neither two nor four bytes wide. */
  lemma {:induction false} BadWidthFails(cfg: Config, ci: u16, rest: bytes)
    requires ci in cfg.channels && ci != TRAILER_CHANNEL_INDEX && !IsSignature(cfg, ci)
    requires cfg.channels[ci].sov != 2 && cfg.channels[ci].sov != 4
    ensures Items(cfg, Le(ci, 2) + rest) == [Err(InvalidMetablock)]
  {
    hide Le, UnLe;
    assert (Le(ci, 2) + rest)[..2] == Le(ci, 2);
    FieldReadsBack(ci, 2);
  }

  lemma ShortHeader(ci: u16, sov: nat, length: nat, body: bytes)
    requires IsSov(sov) && length < FieldLimit(sov)
    ensures var data := Le(ci, 2) + Le(length, sov) + body;
            |data| == 2 + sov + |body| && UnLe(data[..2]) == ci && UnLe(data[2..2 + sov]) == length
  {
    hide Le, UnLe;
    var data := Le(ci, 2) + Le(length, sov) + body;
    assert data[..2] == Le(ci, 2);
    assert data[2..2 + sov] == Le(length, sov);
    FieldReadsBack(ci, 2);
    FieldReadsBack(length, sov);
  }

  lemma ShortStep(cfg: Config, ci: u16, data: bytes)
    requires ci in cfg.channels && ci != TRAILER_CHANNEL_INDEX && !IsSignature(cfg, ci) && IsSov(cfg.channels[ci].sov)
    requires |data| >= 2 + cfg.channels[ci].sov && UnLe(data[..2]) == ci
    requires |data| - 2 - cfg.channels[ci].sov < UnLe(data[2..2 + cfg.channels[ci].sov])
    ensures if cfg.channels[ci].dataType.Unsupported? then Next(cfg, data).Fail? && Next(cfg, data).error == IoError
            else Next(cfg, data).Finish?
  {
    hide UnLe, Deliver, SkippedBlock;
  }

  /** A frame that says more than there is ends the section, with an error if its channel's type is unknown. */
  lemma {:induction false} ShortFrameEnds(cfg: Config, ci: u16, length: nat, body: bytes)
    requires ci in cfg.channels && ci != TRAILER_CHANNEL_INDEX && !IsSignature(cfg, ci)
    requires IsSov(cfg.channels[ci].sov) && |body| < length < FieldLimit(cfg.channels[ci].sov)
    ensures Items(cfg, Le(ci, 2) + Le(length, cfg.channels[ci].sov) + body)
         == if cfg.channels[ci].dataType.Unsupported? then [Err(IoError)] else []
  {
    hide Le, UnLe, Next;
    ShortHeader(ci, cfg.channels[ci].sov, length, body);
    ShortStep(cfg, ci, Le(ci, 2) + Le(length, cfg.channels[ci].sov) + body);
  }

  /** Nothing behind the trailer's index is read as a block. */
  lemma {:induction false} TrailerEnds(cfg: Config, rest: bytes)
    ensures Items(cfg, Le(TRAILER_CHANNEL_INDEX, 2) + rest) == []
    ensures LastStep(cfg, Le(TRAILER_CHANNEL_INDEX, 2) + rest).Finish?
            && LastStep(cfg, Le(TRAILER_CHANNEL_INDEX, 2) + rest).trailer
  {
    hide Le, UnLe;
    var s := Le(TRAILER_CHANNEL_INDEX, 2) + rest;
    assert s[..2] == Le(TRAILER_CHANNEL_INDEX, 2);
    FieldReadsBack(TRAILER_CHANNEL_INDEX, 2);
  }

  /** A complete trailer, with the magic trailer string behind it, is counted to its last byte. */
  lemma {:induction false} TrailerCounted(cfg: Config, payload: bytes, magic: bytes)
    requires |payload| < TWO_TO_THE_32 && |magic| == MAGIC_TRAILER_LEN
    ensures var s := FrameOf(TRAILER_CHANNEL_INDEX, 4, payload) + magic;
            Next(cfg, s) == Finish(|s|, false, true)
  {
    hide Le, UnLe, FrameOf, ChannelIndex;
    WideFrameParts(TRAILER_CHANNEL_INDEX, payload, magic);
  }

  /** A trailer that says more than there is still ends the section, and is reported as cut. */
  lemma {:induction false} ShortTrailerEnds(cfg: Config, length: nat, body: bytes)
    requires |body| < length < TWO_TO_THE_32
    ensures var s := Next(cfg, Le(TRAILER_CHANNEL_INDEX, 2) + Le(length, 4) + body);
            s == Finish(6, true, true)
  {
    hide Le, UnLe, ChannelStep, SignatureStep;
    ShortHeader(TRAILER_CHANNEL_INDEX, 4, length, body);
  }

  /** So does a signature block that says more than there is, without passing for a trailer. */
  lemma {:induction false} ShortSignatureEnds(cfg: Config, length: nat, body: bytes)
    requires !cfg.integrity.NoIntegrity? && |body| < length < TWO_TO_THE_32
    ensures var s := Next(cfg, Le(SIGNATURE_CHANNEL_INDEX, 2) + Le(length, 4) + body);
            s == Finish(6, true, false)
  {
    hide Le, UnLe, ChannelStep, TrailerStep;
    ShortHeader(SIGNATURE_CHANNEL_INDEX, 4, length, body);
  }
}
