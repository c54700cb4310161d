/**
 The block reader as it runs (BlockReader in reader.cpp): a stream that moves,
 a finished flag, and counters. Every call of `Next` is proved to be one step of
 BlockStream.Next with the bookkeeping of ReaderStats.
 */
module Reader {
  import opened Bytes
  import opened OsfTypes
  import opened Payload
  import opened Frame
  import opened Crc32cModel
  import opened BlockStream
  import opened Stream
  import opened PayloadReader
  import opened ReaderStats

  const CHUNK: nat := 4096

  /**
   The frame CRC over channel index, length field and payload, fed in three
   pieces of any alignment.
   */
  method VerifyFrameCrc(tables: array2<word>, ci: u16, sov: nat, length: u32, payload: bytes) returns (ok: bool)
    requires TablesCorrect(tables) && IsSov(sov) && |payload| >= 4
    ensures ok == FrameCrcOk(ci, sov, length, payload)
  {
    hide Serial, Crc, TablesCorrect, Le, Rd32, FrameCrcOk;
    var split := |payload| - 4;
    var stored := Rd32(payload[split..]);
    var (ciLe, lenLe) := (Le(ci, 2), Le(length, 4));
    var c := new Crc32c(tables);
    c.Update(ciLe);
    c.Update(lenLe[..sov]);
    c.Update(payload[..split]);
    var v := c.Value();
    assert c.message == ciLe + lenLe[..sov] + payload[..split];
    FrameCheckIs(ci, sov, length, payload);
    ok := v == stored;
  }

  lemma FrameCheckIs(ci: u16, sov: nat, length: nat, payload: bytes)
    requires IsSov(sov) && |payload| >= 4
    ensures FrameCrcOk(ci, sov, length, payload)
       <==> Crc(Le(ci, 2) + Le(length, 4)[..sov] + payload[..|payload| - 4]) == Rd32(payload[|payload| - 4..])
  {
  }

  class BlockReader {
    const stream: ByteStream
    const cfg: Config
    const tables: array2<word>
    var finished: bool
    var stats: Stats

    ghost predicate Valid()
      reads this, stream, tables
    {
      stream.Valid() && TablesCorrect(tables)
    }

    constructor (stream: ByteStream, cfg: Config, tables: array2<word>)
      requires stream.Valid() && TablesCorrect(tables)
      ensures Valid() && this.stream == stream && this.cfg == cfg && this.tables == tables
      ensures !finished && stats == InitialStats(cfg.channels)
    {
      this.stream := stream;
      this.cfg := cfg;
      this.tables := tables;
      finished := false;
      stats := InitialStats(cfg.channels);
    }

    /** Skip `len` bytes in pieces; false if the stream ends first. */
    method Drain(len: nat) returns (ok: bool)
      requires Valid()
      modifies stream`pos
      ensures Valid() && ok == (|old(stream.Rest())| >= len)
      ensures stream.Rest() == if ok then old(stream.Rest())[len..] else []
    {
      var left := len;
      while left > 0
        invariant Valid() && 0 <= left <= len && len - left <= |old(stream.Rest())|
        invariant stream.Rest() == old(stream.Rest())[len - left..]
      {
        var want := if left > CHUNK then CHUNK else left;
        ghost var before := stream.Rest();
        var chunk, full := stream.ReadN(want);
        if !full {
          assert stream.Rest() == [];
          return false;
        }
        assert before[want..] == old(stream.Rest())[len - left + want..];
        left := left - want;
      }
      ok := true;
    }

    /** A 2- or 4-byte length; nothing if the stream ends first. */
    method ReadLengthField(sov: nat) returns (r: Result<Option<nat>>)
      requires Valid()
      modifies stream`pos
      ensures Valid()
      ensures if !IsSov(sov) then r == Err(InvalidMetablock)
              else if |old(stream.Rest())| < sov then r == Ok(None)
              else r == Ok(Some(UnLe(old(stream.Rest())[..sov]))) && stream.Rest() == old(stream.Rest())[sov..]
    {
      hide UnLe;
      if sov == 2 || sov == 4 {
        var b, full := stream.ReadN(sov);
        r := Ok(if full then Some(UnLe(b)) else None);
      } else {
        r := Err(InvalidMetablock);
      }
    }

    /** Behind the trailer's channel index: length, body, and the magic trailer if it is there. */
    method ConsumeTrailer(ghost rest: bytes, ghost before: Stats)
      requires Valid() && |rest| >= 2 && stream.Rest() == rest[2..] && stats == Consume(before, 2)
      modifies this, stream`pos
      ensures Valid() && finished && TrailerStep(rest).Finish?
      ensures stats == AfterStep(before, TrailerStep(rest))
    {
      hide UnLe;
      stats := Consume(stats, 4);
      var b, full := stream.ReadN(4);
      if !full {
        stats := CountTruncated(stats, true);
        finished := true;
        stats := stats.(trailerSeen := true);
        return;
      }
      assert rest[2..][..4] == rest[2..6];
      var length := UnLe(b);
      var drained := Drain(length);
      if drained {
        stats := Consume(stats, length);
      } else {
        stats := CountTruncated(stats, true);
      }
      var tail, whole := stream.ReadN(MAGIC_TRAILER_LEN);
      if whole {
        stats := Consume(stats, MAGIC_TRAILER_LEN);
      }
      stats := stats.(trailerSeen := true);
      finished := true;
    }

    /** Behind the signature channel's index: a u32 length and that many bytes. */
    method SkipSignature(ghost rest: bytes, ghost before: Stats) returns (r: Option<Result<Block>>)
      requires Valid() && !finished && |rest| >= 2 && stream.Rest() == rest[2..] && stats == Consume(before, 2)
      modifies this, stream`pos
      ensures Valid() && Stepped(SignatureStep(rest), rest, r)
      ensures stats == AfterStep(before, SignatureStep(rest))
    {
      hide UnLe, RecordSkip;
      var b, full := stream.ReadN(4);
      if !full {
        stats := CountTruncated(stats, true);
        finished := true;
        return None;
      }
      assert rest[2..][..4] == rest[2..6] && rest[2..][4..] == rest[6..];
      var length := UnLe(b);
      stats := Consume(stats, 4);
      var drained := Drain(length);
      if !drained {
        stats := CountTruncated(stats, true);
        finished := true;
        return None;
      }
      assert rest[6..][length..] == rest[6 + length..];
      stats := Consume(stats, length);
      stats := RecordSkip(stats, SIGNATURE_CHANNEL_INDEX, length, SignatureBlock);
      r := Some(Ok(Block(SIGNATURE_CHANNEL_INDEX, Skipped(SkipReason(SignatureBlock, 0), length, []))));
    }

    /** Skip a block of a channel whose datatype is unknown, keeping its payload if asked to. */
    method SkipBlock(ci: u16, length: nat, kind: SkipKind) returns (r: Result<Block>)
      requires Valid() && !finished
      modifies this, stream`pos
      ensures Valid()
      ensures var rest := old(stream.Rest());
              if |rest| < length
              then r == Err(IoError) && finished && stats == CountTruncated(old(stats), true)
              else && r == Ok(SkippedBlock(cfg, ci, SkipReason(kind, 0), length, rest[..length]))
                   && !finished
                   && stream.Rest() == rest[length..]
                   && stats == RecordSkip(Consume(old(stats), length), ci, length, kind)
    {
      hide RecordSkip;
      var payload: bytes := [];
      var ok: bool;
      if cfg.capture {
        payload, ok := stream.ReadN(length);
      } else {
        ok := Drain(length);
      }
      if !ok {
        stats := CountTruncated(stats, true);
        finished := true;
        return Err(IoError);
      }
      stats := Consume(stats, length);
      stats := RecordSkip(stats, ci, length, kind);
      r := Ok(Block(ci, Skipped(SkipReason(kind, 0), length, payload)));
    }

    /** Verify and strip the frame CRC, then decode; the counters follow the outcome. */
    method DeliverPayload(ci: u16, info: ChannelInfo, payload: bytes) returns (r: Result<Block>)
      requires Valid() && IsSov(info.sov) && 0 < |payload| < TWO_TO_THE_32
      modifies this`stats
      ensures r == Deliver(cfg, ci, info, payload)
      ensures stats == if r.Ok? then Record(old(stats), r.value, |payload|) else old(stats)
    {
      hide FrameCrcOk, Route, RecordSkip, RecordRead, TablesCorrect;
      var length := |payload|;
      var body := payload;
      if !cfg.integrity.NoIntegrity? {
        var ok := false;
        if |payload| >= 5 {
          ok := VerifyFrameCrc(tables, ci, info.sov, length, payload);
        }
        if !ok {
          stats := RecordSkip(stats, ci, length, CrcFailed);
          return Ok(SkippedBlock(cfg, ci, SkipReason(CrcFailed, 0), length, payload));
        }
        body := payload[..|payload| - 4];
      }
      var routed := RoutePayload(body, info.dataType, cfg.osf4);
      r := Settle(ci, length, body, routed);
    }

    /** Count a routed payload and wrap it up. */
    method Settle(ci: u16, length: nat, body: bytes, routed: Routed) returns (r: Result<Block>)
      requires |body| > 0
      modifies this`stats
      ensures r == match routed
                   case Skip(kind, raw) => Ok(SkippedBlock(cfg, ci, SkipReason(kind, raw), length, body[1..]))
                   case Parsed(Err(e)) => Err(e)
                   case Parsed(Ok(k)) => Ok(Block(ci, k))
      ensures stats == if r.Ok? then Record(old(stats), r.value, length) else old(stats)
    {
      hide RecordSkip, RecordRead;
      match routed {
        case Skip(kind, raw) =>
          stats := RecordSkip(stats, ci, length, kind);
          r := Ok(SkippedBlock(cfg, ci, SkipReason(kind, raw), length, body[1..]));
        case Parsed(Err(e)) => r := Err(e);
        case Parsed(Ok(k)) =>
          stats := Record(stats, Block(ci, k), length);
          r := Ok(Block(ci, k));
      }
    }

    /** Behind the index of a declared channel. */
    method ReadChannelBlock(ci: u16, info: ChannelInfo, ghost rest: bytes, ghost before: Stats)
      returns (r: Option<Result<Block>>)
      requires Valid() && !finished && |rest| >= 2 && stream.Rest() == rest[2..] && stats == Consume(before, 2)
      modifies this, stream`pos
      ensures Valid() && Stepped(ChannelStep(cfg, rest, ci, info), rest, r)
      ensures stats == AfterStep(before, ChannelStep(cfg, rest, ci, info))
    {
      hide UnLe, RecordSkip, RecordRead, Deliver, Pow256, SkippedBlock, TablesCorrect;
      var len := ReadLengthField(info.sov);
      if len.Err? {
        finished := true;
        return Some(Err(len.error));
      }
      if len.value.None? {
        stats := CountTruncated(stats, true);
        finished := true;
        return None;
      }
      var length := len.value.value;
      ghost var header := 2 + info.sov;
      assert rest[2..][..info.sov] == rest[2..header] && rest[2..][info.sov..] == rest[header..];
      stats := Consume(stats, info.sov);
      if length == 0 {
        stats := RecordSkip(stats, ci, 0, ZeroLengthBlock);
        return Some(Ok(Block(ci, Skipped(SkipReason(ZeroLengthBlock, 0), 0, []))));
      }
      Pow256Values();
      r := ReadBody(ci, info, length, rest, before);
    }

    /** Behind a non-zero length field. */
    method ReadBody(ci: u16, info: ChannelInfo, length: nat, ghost rest: bytes, ghost before: Stats)
      returns (r: Option<Result<Block>>)
      requires Valid() && !finished && IsSov(info.sov) && |rest| >= 2 + info.sov
               && stream.Rest() == rest[2 + info.sov..]
      requires stats == Consume(before, 2 + info.sov)
      requires 0 < length == UnLe(rest[2..2 + info.sov]) && length < TWO_TO_THE_32
      modifies this, stream`pos
      ensures Valid() && Stepped(ChannelStep(cfg, rest, ci, info), rest, r)
      ensures stats == AfterStep(before, ChannelStep(cfg, rest, ci, info))
    {
      hide UnLe, RecordSkip, RecordRead, Deliver, Pow256, TablesCorrect;
      ghost var header := 2 + info.sov;
      if |rest| - header >= length {
        assert rest[header..][length..] == rest[header + length..]
               && rest[header..][..length] == rest[header..header + length];
      }
      if info.dataType.Unsupported? {
        var skipped := SkipBlock(ci, length, UnsupportedDataType);
        return Some(skipped);
      }
      var payload, full := stream.ReadN(length);
      if !full {
        stats := CountTruncated(stats, true);
        finished := true;
        return None;
      }
      stats := Consume(stats, length);
      var b := DeliverPayload(ci, info, payload);
      r := Some(b);
    }

    /** Pull one block from the stream. */
    method Next() returns (r: Option<Result<Block>>)
      requires Valid()
      modifies this, stream`pos
      ensures Valid()
      ensures old(finished) ==> r == None && finished && stats == old(stats) && stream.Rest() == old(stream.Rest())
      ensures !old(finished) ==> Stepped(BlockStream.Next(cfg, old(stream.Rest())), old(stream.Rest()), r)
      ensures !old(finished) ==> stats == AfterStep(old(stats), BlockStream.Next(cfg, old(stream.Rest())))
    {
      hide UnLe, TrailerStep, SignatureStep, ChannelStep, TablesCorrect, Pow256;
      if finished {
        return None;
      }
      ghost var rest := stream.Rest();
      var ciBuf, full := stream.ReadN(2);
      if !full {
        finished := true;
        return None;
      }
      Pow256Values();
      var ci: u16 := UnLe(ciBuf);
      ghost var before := stats;
      stats := Consume(stats, 2);
      if ci == TRAILER_CHANNEL_INDEX {
        ConsumeTrailer(rest, before);
        return None;
      }
      if IsSignature(cfg, ci) {
        r := SkipSignature(rest, before);
        return;
      }
      if ci !in cfg.channels {
        finished := true;
        return Some(Err(UnknownChannelIndex));
      }
      r := ReadChannelBlock(ci, cfg.channels[ci], rest, before);
    }

    /** What the caller sees of a step, and where the stream stands. */
    ghost predicate Stepped(s: Step, rest: bytes, r: Option<Result<Block>>)
      requires stream.Valid()
      requires s.Yield? ==> s.used <= |rest|
      reads this, stream
    {
      match s
      case Finish(_, _, _) => r == None && finished
      case Fail(e, _, _) => r == Some(Err(e)) && finished
      case Yield(item, used, _) => r == Some(item) && !finished && stream.Rest() == rest[used..]
    }
  }
}
