/**
 The reader's bookkeeping (recordSkip, the counters of `next()` and `stats()` in
 reader.cpp) and what it adds up to over a whole data section.
 */
module ReaderStats {
  import opened Bytes
  import opened OsfTypes
  import opened BlockStream
  import Frame
  import opened Codec
  import opened Loader

  datatype ChannelStats = ChannelStats(
    blocksRead: nat,
    blocksSkipped: nat,
    bytesPayload: nat,
    samplesTotal: nat,
    segments: nat)

  datatype Stats = Stats(
    dataSectionSize: nat,
    blocksRead: nat,
    unsupported: nat,
    deprecated: nat,
    statusEvent: nat,
    reserved: nat,
    zeroLength: nat,
    crcFailed: nat,
    signature: nat,
    truncated: nat,
    trailerSeen: bool,
    perChannel: map<u16, ChannelStats>)

  const NO_BLOCKS := ChannelStats(0, 0, 0, 0, 0)

  /** The stats of a new reader. */
  function InitialStats(channels: map<u16, ChannelInfo>): Stats {
    Stats(0, 0, 0, 0, 0, 0, 0, 0, 0, 0, false, map ci | ci in channels :: NO_BLOCKS)
  }

  /** The entry of a channel; looking one up that is not there creates it. */
  function Entry(per: map<u16, ChannelStats>, ci: u16): ChannelStats {
    if ci in per then per[ci] else NO_BLOCKS
  }

  function SkipCount(st: Stats, kind: SkipKind): nat {
    match kind
    case UnsupportedDataType => st.unsupported
    case DeprecatedBlockType => st.deprecated
    case StatusEventBlock => st.statusEvent
    case ReservedBlockType => st.reserved
    case CrcFailed => st.crcFailed
    case SignatureBlock => st.signature
    case ZeroLengthBlock => st.zeroLength
  }

  function CountSkip(st: Stats, kind: SkipKind): Stats {
    match kind
    case UnsupportedDataType => st.(unsupported := st.unsupported + 1)
    case DeprecatedBlockType => st.(deprecated := st.deprecated + 1)
    case StatusEventBlock => st.(statusEvent := st.statusEvent + 1)
    case ReservedBlockType => st.(reserved := st.reserved + 1)
    case CrcFailed => st.(crcFailed := st.crcFailed + 1)
    case SignatureBlock => st.(signature := st.signature + 1)
    case ZeroLengthBlock => st.(zeroLength := st.zeroLength + 1)
  }

  function SampleTotal(k: BlockKind): nat {
    match k
    case StartData(_, _, _, samples) => |samples|
    case ContinuedData(_, samples) => |samples|
    case AbsTimestampData(_, pairs) => |pairs|
    case ContinuedRelStampData(_, deltas) => |deltas|
    case Skipped(_, _, _) => 0
  }

  function RecordSkip(st: Stats, ci: u16, length: nat, kind: SkipKind): Stats {
    var cs := Entry(st.perChannel, ci);
    CountSkip(st, kind).(perChannel := st.perChannel[ci := cs.(blocksSkipped := cs.blocksSkipped + 1,
                                                               bytesPayload := cs.bytesPayload + length)])
  }

  function RecordRead(st: Stats, ci: u16, length: nat, k: BlockKind): Stats {
    var cs := Entry(st.perChannel, ci);
    var cs' := ChannelStats(cs.blocksRead + 1, cs.blocksSkipped, cs.bytesPayload + length,
                            cs.samplesTotal + SampleTotal(k), cs.segments + if k.StartData? then 1 else 0);
    st.(blocksRead := st.blocksRead + 1, perChannel := st.perChannel[ci := cs'])
  }

  function Record(st: Stats, b: Block, length: nat): Stats {
    if b.kind.Skipped? then RecordSkip(st, b.channelIndex, length, b.kind.reason.kind)
    else RecordRead(st, b.channelIndex, length, b.kind)
  }

  function CountTruncated(st: Stats, truncated: bool): Stats {
    if truncated && st.truncated < 1 then st.(truncated := 1) else st
  }

  function Consume(st: Stats, n: nat): Stats {
    st.(dataSectionSize := st.dataSectionSize + n)
  }

  /** The stats after one call of `next()` on an unfinished reader. */
  function AfterStep(st: Stats, s: Step): Stats {
    match s
    case Finish(counted, truncated, trailer) =>
      CountTruncated(Consume(st, counted), truncated).(trailerSeen := trailer || st.trailerSeen)
    case Fail(_, counted, truncated) => CountTruncated(Consume(st, counted), truncated)
    case Yield(Ok(b), used, length) => Record(Consume(st, used), b, length)
    case Yield(Err(_), used, _) => Consume(st, used)
  }

  /** The stats once the reader stays at end of stream. */
  function FinalStats(cfg: Config, st: Stats, data: bytes): Stats
    decreases |data|
  {
    var s := Next(cfg, data);
    if s.Yield? then FinalStats(cfg, AfterStep(st, s), data[s.used..]) else AfterStep(st, s)
  }

  // ---------------------------------------------------------------------
  // What the counters mean.
  // ---------------------------------------------------------------------

  function BlocksTotal(st: Stats): nat {
    st.blocksRead + st.unsupported + st.deprecated + st.statusEvent + st.reserved + st.zeroLength + st.crcFailed
      + st.signature
  }

  /** Blocks of all channels below `n`, read or skipped. */
  function ChannelBlocks(per: map<u16, ChannelStats>, n: nat): nat
    requires n <= TWO_TO_THE_16
  {
    if n == 0 then 0
    else ChannelBlocks(per, n - 1) + Entry(per, n - 1).blocksRead + Entry(per, n - 1).blocksSkipped
  }

  function Successes(items: seq<Result<Block>>): nat {
    if items == [] then 0 else (if items[0].Ok? then 1 else 0) + Successes(items[1..])
  }

  function SkipsOf(items: seq<Result<Block>>, kind: SkipKind): nat {
    if items == [] then 0
    else (if items[0].Ok? && items[0].value.kind.Skipped? && items[0].value.kind.reason.kind == kind then 1 else 0)
         + SkipsOf(items[1..], kind)
  }

  function SkipsIn(ks: seq<BlockKind>): nat {
    if ks == [] then 0 else (if ks[0].Skipped? then 1 else 0) + SkipsIn(ks[1..])
  }

  function SamplesIn(ks: seq<BlockKind>): nat {
    if ks == [] then 0 else SampleTotal(ks[0]) + SamplesIn(ks[1..])
  }

  function StartsIn(ks: seq<BlockKind>): nat {
    if ks == [] then 0 else (if ks[0].StartData? then 1 else 0) + StartsIn(ks[1..])
  }

  /** `cs'` has counted the blocks `ks` on top of `cs`. */
  predicate Counted(cs: ChannelStats, cs': ChannelStats, ks: seq<BlockKind>) {
    && cs'.blocksRead + cs'.blocksSkipped == cs.blocksRead + cs.blocksSkipped + |ks|
    && cs'.blocksSkipped == cs.blocksSkipped + SkipsIn(ks)
    && cs'.samplesTotal == cs.samplesTotal + SamplesIn(ks)
    && cs'.segments == cs.segments + StartsIn(ks)
  }

  /** `st'` has counted `items` on top of `st`. */
  predicate Tallied(st: Stats, st': Stats, items: seq<Result<Block>>) {
    && BlocksTotal(st') == BlocksTotal(st) + Successes(items)
    && (forall kind :: SkipCount(st', kind) == SkipCount(st, kind) + SkipsOf(items, kind))
    && forall ci :: Counted(Entry(st.perChannel, ci), Entry(st'.perChannel, ci), Project(items, ci))
  }

  /** Every block sits in exactly one channel's entry. */
  predicate Balanced(st: Stats) {
    BlocksTotal(st) == ChannelBlocks(st.perChannel, TWO_TO_THE_16)
  }

  lemma {:induction false} UpdateEntry(per: map<u16, ChannelStats>, ci: u16, cs: ChannelStats, n: nat)
    requires n <= TWO_TO_THE_16
    ensures ChannelBlocks(per[ci := cs], n)
         == ChannelBlocks(per, n)
            + (if ci < n
               then cs.blocksRead + cs.blocksSkipped - Entry(per, ci).blocksRead - Entry(per, ci).blocksSkipped
               else 0)
  {
    if n > 0 {
      UpdateEntry(per, ci, cs, n - 1);
    }
  }

  lemma RecordEntry(st: Stats, b: Block, length: nat)
    ensures var cs := Entry(Record(st, b, length).perChannel, b.channelIndex);
            && Record(st, b, length).perChannel == st.perChannel[b.channelIndex := cs]
            && cs.blocksRead + cs.blocksSkipped
               == Entry(st.perChannel, b.channelIndex).blocksRead
                 + Entry(st.perChannel, b.channelIndex).blocksSkipped + 1
  {
  }

  lemma RecordBalanced(st: Stats, b: Block, length: nat)
    ensures Balanced(Record(st, b, length)) <==> Balanced(st)
  {
    RecordEntry(st, b, length);
    RecordTotal(st, b, length);
    hide Record, Entry, BlocksTotal, ChannelBlocks;
    UpdateEntry(st.perChannel, b.channelIndex, Entry(Record(st, b, length).perChannel, b.channelIndex), TWO_TO_THE_16);
  }

  lemma StepBalanced(st: Stats, s: Step)
    ensures Balanced(AfterStep(st, s)) <==> Balanced(st)
  {
    if s.Yield? && s.result.Ok? {
      hide Record, Balanced;
      RecordBalanced(Consume(st, s.used), s.result.value, s.length);
      BalancedIgnoresSize(st, Consume(st, s.used));
    }
  }

  lemma BalancedIgnoresSize(st: Stats, st': Stats)
    requires st' == st.(dataSectionSize := st'.dataSectionSize)
    ensures Balanced(st') <==> Balanced(st)
  {
  }

  lemma {:induction false} FinalBalanced(cfg: Config, st: Stats, data: bytes)
    requires Balanced(st)
    ensures Balanced(FinalStats(cfg, st, data))
    decreases |data|
  {
    hide Next, AfterStep, Balanced;
    var s := Next(cfg, data);
    StepBalanced(st, s);
    if s.Yield? {
      FinalBalanced(cfg, AfterStep(st, s), data[s.used..]);
    }
  }

  /** One block more in its own channel's entry, none in the others. */
  lemma RecordCounted(st: Stats, b: Block, length: nat, cs': ChannelStats, ci: u16, rest: seq<BlockKind>)
    requires Counted(Entry(Record(st, b, length).perChannel, ci), cs', rest)
    ensures Counted(Entry(st.perChannel, ci), cs', if ci == b.channelIndex then [b.kind] + rest else rest)
  {
    if ci == b.channelIndex {
      var ks := [b.kind] + rest;
      assert ks[1..] == rest;
      assert SkipsIn(ks) == (if b.kind.Skipped? then 1 else 0) + SkipsIn(rest);
      assert SamplesIn(ks) == SampleTotal(b.kind) + SamplesIn(rest);
      assert StartsIn(ks) == (if b.kind.StartData? then 1 else 0) + StartsIn(rest);
      assert Entry(Record(st, b, length).perChannel, ci) == Record(st, b, length).perChannel[ci];
    } else {
      assert Entry(Record(st, b, length).perChannel, ci) == Entry(st.perChannel, ci);
    }
  }

  lemma RecordSkips(st: Stats, b: Block, length: nat, kind: SkipKind)
    ensures SkipCount(Record(st, b, length), kind)
         == SkipCount(st, kind) + if b.kind.Skipped? && b.kind.reason.kind == kind then 1 else 0
  {
    hide Entry;
  }

  lemma RecordTotal(st: Stats, b: Block, length: nat)
    ensures BlocksTotal(Record(st, b, length)) == BlocksTotal(st) + 1
  {
    hide Entry;
  }

  lemma ItemInFront(r: Result<Block>, rest: seq<Result<Block>>)
    ensures Successes([r] + rest) == (if r.Ok? then 1 else 0) + Successes(rest)
    ensures forall kind ::
              SkipsOf([r] + rest, kind)
              == (if r.Ok? && r.value.kind.Skipped? && r.value.kind.reason.kind == kind then 1 else 0)
                + SkipsOf(rest, kind)
    ensures forall ci ::
              Project([r] + rest, ci)
              == if r.Ok? && r.value.channelIndex == ci then [r.value.kind] + Project(rest, ci) else Project(rest, ci)
  {
    assert ([r] + rest)[1..] == rest;
  }

  /** One block more in the totals and in the entries. */
  lemma RecordTallied(st: Stats, b: Block, length: nat, st': Stats, rest: seq<Result<Block>>)
    requires Tallied(Record(st, b, length), st', rest)
    ensures Tallied(st, st', [Ok(b)] + rest)
  {
    var st1 := Record(st, b, length);
    ItemInFront(Ok(b), rest);
    RecordTotal(st, b, length);
    hide Record, BlocksTotal, SkipCount, Counted, Successes, SkipsOf, Project, Entry;
    forall kind: SkipKind
      ensures SkipCount(st', kind) == SkipCount(st, kind) + SkipsOf([Ok(b)] + rest, kind)
    {
      RecordSkips(st, b, length, kind);
      assert SkipCount(st', kind) == SkipCount(st1, kind) + SkipsOf(rest, kind);
    }
    forall ci: u16
      ensures Counted(Entry(st.perChannel, ci), Entry(st'.perChannel, ci), Project([Ok(b)] + rest, ci))
    {
      RecordCounted(st, b, length, Entry(st'.perChannel, ci), ci, Project(rest, ci));
    }
  }

  lemma ErrorTallied(st: Stats, e: Error, st': Stats, rest: seq<Result<Block>>)
    requires Tallied(st, st', rest)
    ensures Tallied(st, st', [Err(e)] + rest)
  {
    ItemInFront(Err(e), rest);
    hide BlocksTotal, SkipCount, Counted, Successes, SkipsOf, Project, Entry;
  }

  /** Sizes, truncation and trailer play no part in the tally. */
  lemma OnlyTotals(st: Stats, st': Stats)
    requires st' == st.(dataSectionSize := st'.dataSectionSize, truncated := st'.truncated,
             trailerSeen := st'.trailerSeen)
    ensures Tallied(st, st', [])
    ensures forall st2, items :: Tallied(st', st2, items) ==> Tallied(st, st2, items)
  {
    assert forall kind :: SkipCount(st, kind) == SkipCount(st', kind);
  }

  lemma {:induction false} FinalTallied(cfg: Config, st: Stats, data: bytes)
    ensures Tallied(st, FinalStats(cfg, st, data), Items(cfg, data))
    decreases |data|
  {
    hide Next, Tallied, Record;
    var s := Next(cfg, data);
    match s
    case Finish(_, _, _) => OnlyTotals(st, AfterStep(st, s));
    case Fail(e, _, _) =>
      OnlyTotals(st, AfterStep(st, s));
      ErrorTallied(st, e, AfterStep(st, s), []);
      assert [Err(e)] + [] == Items(cfg, data);
    case Yield(r, used, length) =>
      var rest := data[used..];
      var final := FinalStats(cfg, st, data);
      FinalTallied(cfg, AfterStep(st, s), rest);
      OnlyTotals(st, Consume(st, used));
      match r
      case Ok(b) => RecordTallied(Consume(st, used), b, length, final, Items(cfg, rest));
      case Err(e) => ErrorTallied(Consume(st, used), e, final, Items(cfg, rest));
  }

  lemma {:induction false} NoChannelBlocks(channels: map<u16, ChannelInfo>, n: nat)
    requires n <= TWO_TO_THE_16
    ensures ChannelBlocks(InitialStats(channels).perChannel, n) == 0
  {
    if n > 0 {
      NoChannelBlocks(channels, n - 1);
    }
  }

  /**
   For every byte string: the successful blocks are counted once in the totals,
   once under their kind, and once in their own channel's entry.
   */
  lemma {:induction false} BlocksConserved(cfg: Config, data: bytes)
    ensures var (final, items) := (FinalStats(cfg, InitialStats(cfg.channels), data), Items(cfg, data));
            && BlocksTotal(final) == Successes(items) == ChannelBlocks(final.perChannel, TWO_TO_THE_16)
            && (forall kind :: SkipCount(final, kind) == SkipsOf(items, kind))
            && forall ci :: Counted(NO_BLOCKS, Entry(final.perChannel, ci), Project(items, ci))
  {
    hide FinalStats, Items, Counted;
    var st := InitialStats(cfg.channels);
    NoChannelBlocks(cfg.channels, TWO_TO_THE_16);
    FinalBalanced(cfg, st, data);
    FinalTallied(cfg, st, data);
    assert forall ci :: Entry(st.perChannel, ci) == NO_BLOCKS;
  }

  // ---------------------------------------------------------------------
  // Bytes and calls.
  // ---------------------------------------------------------------------

  /** The bytes in front of the call on which the reader finishes. */
  function Tail(cfg: Config, data: bytes): (t: bytes)
    ensures |t| <= |data|
    decreases |data|
  {
    var s := Next(cfg, data);
    if s.Yield? then Tail(cfg, data[s.used..]) else data
  }

  /** How many calls yield and leave the reader unfinished. */
  function Yields(cfg: Config, data: bytes): nat
    decreases |data|
  {
    var s := Next(cfg, data);
    if s.Yield? then 1 + Yields(cfg, data[s.used..]) else 0
  }

  /** The stream ends inside the length field of the trailer. */
  predicate TrailerLengthCut(rest: bytes) {
    2 <= |rest| < 6 && ChannelIndex(rest) == TRAILER_CHANNEL_INDEX
  }

  function CountedBy(s: Step): nat {
    match s
    case Finish(counted, _, _) => counted
    case Fail(_, counted, _) => counted
    case Yield(_, used, _) => used
  }

  lemma CountedWithinReach(cfg: Config, rest: bytes)
    ensures CountedBy(Next(cfg, rest)) <= |rest| <==> !TrailerLengthCut(rest)
  {
    hide Deliver, UnLe;
  }

  /**
   Every yielding call counts exactly the bytes it consumes and consumes at
   least four, so a reader stays at end of stream after |data| / 4 + 1 calls.
   The reported size exceeds the data only if the data ends inside the
   trailer's length field, which is counted before it is read.
   */
  lemma {:induction false} BytesConserved(cfg: Config, st: Stats, data: bytes)
    ensures Yields(cfg, data) + 1 <= |data| / 4 + 1
    ensures |Items(cfg, data)| == Yields(cfg, data) + (if LastStep(cfg, data).Fail? then 1 else 0)
    ensures LastStep(cfg, data) == Next(cfg, Tail(cfg, data)) && !LastStep(cfg, data).Yield?
    ensures FinalStats(cfg, st, data).dataSectionSize
         == st.dataSectionSize + |data| - |Tail(cfg, data)| + CountedBy(LastStep(cfg, data))
    ensures FinalStats(cfg, st, data).dataSectionSize <= st.dataSectionSize + |data| <==>
            !TrailerLengthCut(Tail(cfg, data))
    decreases |data|
  {
    hide Next;
    var s := Next(cfg, data);
    CountedWithinReach(cfg, data);
    if s.Yield? {
      BytesConserved(cfg, AfterStep(st, s), data[s.used..]);
    }
  }

  /** At most one truncation and one trailer, both reported by the call on which the reader finishes. */
  lemma {:induction false} EndReported(cfg: Config, st: Stats, data: bytes)
    requires st.truncated == 0 && !st.trailerSeen
    ensures var (final, last) := (FinalStats(cfg, st, data), LastStep(cfg, data));
            && final.truncated == (if (last.Finish? || last.Fail?) && last.truncated then 1 else 0)
            && final.trailerSeen == (last.Finish? && last.trailer)
    decreases |data|
  {
    hide Next;
    var s := Next(cfg, data);
    if s.Yield? {
      EndReported(cfg, AfterStep(st, s), data[s.used..]);
    }
  }

  /** Reading to the last byte: nothing is lost and nothing is left, unless a block or the trailer is cut short. */
  lemma {:induction false} CleanEndCountsAll(cfg: Config, data: bytes)
    requires LastStep(cfg, data) == Finish(0, false, false)
    ensures FinalStats(cfg, InitialStats(cfg.channels), data).dataSectionSize == |data| - |Tail(cfg, data)|
    ensures |Tail(cfg, data)| <= 1
  {
    hide FinalStats, LastStep, Tail, Deliver;
    BytesConserved(cfg, InitialStats(cfg.channels), data);
  }

  /** A block whose payload does not parse is an error item, but reading goes on at the next frame. */
  lemma {:induction false} PayloadErrorResumes(cfg: Config, ci: u16, payload: bytes, rest: bytes, e: Error)
    requires ci in cfg.channels && ci != TRAILER_CHANNEL_INDEX && !IsSignature(cfg, ci)
    requires Frame.IsSov(cfg.channels[ci].sov) && !cfg.channels[ci].dataType.Unsupported?
    requires 0 < |payload| < Frame.FieldLimit(cfg.channels[ci].sov)
    requires Deliver(cfg, ci, cfg.channels[ci], payload) == Err(e)
    ensures Items(cfg, Frame.FrameOf(ci, cfg.channels[ci].sov, payload) + rest) == [Err(e)] + Items(cfg, rest)
  {
    hide Next, Deliver, Items, Frame.FrameOf;
    var f := Frame.FrameOf(ci, cfg.channels[ci].sov, payload);
    FrameStep(cfg, ci, payload, rest);
    ItemsOfYield(cfg, f + rest);
    assert (f + rest)[|f|..] == rest;
  }
}
