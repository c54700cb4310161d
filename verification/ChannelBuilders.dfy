/**
 The per-channel accumulators as they run (ChannelBuilder in manager.rs and
 manager.cpp), and the loop that drives the reader into them. Each method is
 proved against Builder, the loop against Loader.Load.
 */
module ChannelBuilders {
  import opened Bytes
  import opened OsfTypes
  import opened BlockStream
  import opened Codec
  import opened Builder
  import opened Loader
  import opened ReaderStats
  import Reader

  /** A transition from `before` to `after` with outcome `r` is what `c` says; an error changes nothing. */
  predicate Made(before: Channel, after: Channel, c: Result<Channel>, r: Result<()>) {
    match c
    case Err(e) => r == Err(e) && after == before
    case Ok(c') => r == Ok(()) && after == c'
  }

  class ChannelBuilder {
    const index: u16
    const dt: DataType
    var state: State
    var last: Option<i64>

    ghost function View(): Channel
      reads this
    {
      Channel(dt, state, last)
    }

    constructor (index: u16, dt: DataType)
      ensures View() == Fresh(dt) && this.index == index && this.dt == dt
    {
      this.index := index;
      this.dt := dt;
      state := InitialState(dt);
      last := None;
    }

    method UpdateLastFromSegment(off: Offset, start: i64, rate: u64, count: nat)
      modifies this`last
      ensures last == LastFromSegment(off, old(last), start, rate, count)
    {
      if count == 0 {
        return;
      }
      if PositiveRate(rate) {
        last := Some(SaturatingAdd(start, off(count - 1, rate)));
      } else {
        last := Some(start);
      }
    }

    method ApplyStartData(off: Offset, payloadDt: DataType, start: i64, rate: u64, samples: seq<bytes>)
      returns (r: Result<()>)
      modifies this
      ensures Made(old(View()), View(), ApplyStart(off, old(View()), payloadDt, start, rate, samples), r)
    {
      if payloadDt != dt {
        return Err(DataTypeMismatch);
      }
      match state {
        case Pending =>
          if !IsFixed(dt) {
            return Err(InvalidBlock);
          }
          state := Equidistant(samples, [Segment(start, rate, 0, |samples|)]);
          UpdateLastFromSegment(off, start, rate, |samples|);
        case Equidistant(before, segments) =>
          state := Equidistant(before + samples, segments + [Segment(start, rate, |before|, |samples|)]);
          UpdateLastFromSegment(off, start, rate, |samples|);
        case Timestamped(_, _) => return Err(ChannelMixedBlockTypes);
        case Variable(_, _) => return Err(ChannelMixedBlockTypes);
        case Dropped =>
      }
      r := Ok(());
    }

    method ApplyContinuedData(off: Offset, payloadDt: DataType, samples: seq<bytes>) returns (r: Result<()>)
      modifies this
      ensures Made(old(View()), View(), ApplyContinued(off, old(View()), payloadDt, samples), r)
    {
      if payloadDt != dt {
        return Err(DataTypeMismatch);
      }
      match state {
        case Pending => return Err(ContinuedDataWithoutStart);
        case Equidistant(before, segments) =>
          if segments == [] {
            return Err(ContinuedDataWithoutStart);
          }
          var l := segments[|segments| - 1];
          var grown := Segment(l.start, l.rate, l.startIndex, l.sampleCount + |samples|);
          state := Equidistant(before + samples, segments[|segments| - 1 := grown]);
          UpdateLastFromSegment(off, grown.start, grown.rate, grown.sampleCount);
        case Timestamped(_, _) => return Err(ChannelMixedBlockTypes);
        case Variable(_, _) => return Err(ChannelMixedBlockTypes);
        case Dropped =>
      }
      r := Ok(());
    }

    method ApplyAbsTimestamped(payloadDt: DataType, pairs: seq<Stamped>) returns (r: Result<()>)
      modifies this
      ensures Made(old(View()), View(), ApplyAbs(old(View()), payloadDt, pairs), r)
    {
      hide Times, Payloads, LastOf, IsFixed;
      if payloadDt != dt {
        return Err(DataTypeMismatch);
      }
      match state {
        case Pending =>
          if !IsFixed(dt) {
            return Err(InvalidBlock);
          }
          var ts, vs := ExtendPairs([], [], pairs);
          assert [] + Times(pairs) == Times(pairs) && [] + Payloads(pairs) == Payloads(pairs);
          state, last := Timestamped(ts, vs), LastOf(ts);
        case Timestamped(ts0, vs0) =>
          var ts, vs := ExtendPairs(ts0, vs0, pairs);
          state := Timestamped(ts, vs);
          if |pairs| > 0 {
            last := LastOf(ts);
          }
        case Variable(ts0, vs0) =>
          if !(payloadDt.String? || payloadDt.Binary?) {
            return Err(DataTypeMismatch);
          }
          var ts, vs := ExtendPairs(ts0, vs0, pairs);
          state := Variable(ts, vs);
          if |pairs| > 0 {
            last := LastOf(ts);
          }
        case Equidistant(_, _) => return Err(ChannelMixedBlockTypes);
        case Dropped =>
      }
      r := Ok(());
    }

    method ApplyRelTimestamped(payloadDt: DataType, deltas: seq<RelStamped>) returns (r: Result<()>)
      modifies this
      ensures Made(old(View()), View(), ApplyRel(old(View()), payloadDt, deltas), r)
    {
      if payloadDt != dt {
        return Err(DataTypeMismatch);
      }
      if last.None? {
        return Err(RelStampWithoutAnchor);
      }
      match state {
        case Timestamped(ts0, vs0) =>
          var ts, vs, anchor := ExtendRel(ts0, vs0, last.value, deltas);
          state, last := Timestamped(ts, vs), Some(anchor);
        case Pending => return Err(ChannelMixedBlockTypes);
        case Equidistant(_, _) => return Err(ChannelMixedBlockTypes);
        case Variable(_, _) => return Err(ChannelMixedBlockTypes);
        case Dropped =>
      }
      r := Ok(());
    }

    method ApplyBlock(off: Offset, kind: BlockKind) returns (r: Result<()>)
      modifies this
      ensures Made(old(View()), View(), Apply(off, old(View()), kind), r)
    {
      hide ApplyStart, ApplyContinued, ApplyAbs, ApplyRel;
      match kind {
        case Skipped(_, _, _) => r := Ok(());
        case StartData(payloadDt, start, rate, samples) => r := ApplyStartData(off, payloadDt, start, rate, samples);
        case ContinuedData(payloadDt, samples) => r := ApplyContinuedData(off, payloadDt, samples);
        case AbsTimestampData(payloadDt, pairs) => r := ApplyAbsTimestamped(payloadDt, pairs);
        case ContinuedRelStampData(payloadDt, deltas) => r := ApplyRelTimestamped(payloadDt, deltas);
      }
    }
  }

  /** Append timestamps and values pair by pair. */
  method ExtendPairs(ts0: seq<i64>, vs0: seq<bytes>, pairs: seq<Stamped>) returns (ts: seq<i64>, vs: seq<bytes>)
    ensures ts == ts0 + Times(pairs) && vs == vs0 + Payloads(pairs)
  {
    ts, vs := ts0, vs0;
    for i := 0 to |pairs|
      invariant ts == ts0 + Times(pairs)[..i] && vs == vs0 + Payloads(pairs)[..i]
    {
      ts := ts + [pairs[i].ts];
      vs := vs + [pairs[i].value];
    }
  }

  /** Append a run of deltas: each timestamp is the one before plus the delta, saturating. */
  method ExtendRel(ts0: seq<i64>, vs0: seq<bytes>, anchor0: i64, deltas: seq<RelStamped>)
    returns (ts: seq<i64>, vs: seq<bytes>, anchor: i64)
    ensures ts == ts0 + RelTimes(anchor0, deltas) && vs == vs0 + RelPayloads(deltas)
    ensures anchor == LastRel(anchor0, deltas)
  {
    ts, vs, anchor := ts0, vs0, anchor0;
    assert deltas[0..] == deltas;
    for i := 0 to |deltas|
      invariant ts + RelTimes(anchor, deltas[i..]) == ts0 + RelTimes(anchor0, deltas)
      invariant |ts| == |ts0| + i && vs == vs0 + RelPayloads(deltas)[..i]
      invariant anchor == if i == 0 then anchor0 else ts[|ts| - 1]
    {
      assert deltas[i..][1..] == deltas[i + 1..];
      anchor := SaturatingAdd(anchor, deltas[i].delta);
      ghost var more := RelTimes(anchor, deltas[i + 1..]);
      assert ts + ([anchor] + more) == (ts + [anchor]) + more;
      ts := ts + [anchor];
      vs := vs + [deltas[i].value];
    }
    assert ts == ts0 + RelTimes(anchor0, deltas);
    assert |deltas| > 0 ==> ts[|ts| - 1] == RelTimes(anchor0, deltas)[|deltas| - 1];
  }

  // ---------------------------------------------------------------------
  // All channels.
  // ---------------------------------------------------------------------

  /** Where the last channel of each index sits; of several channels with one index it takes all the blocks. */
  predicate Positions(meta: seq<MetaChannel>, at: map<u16, nat>) {
    && (forall k :: k in at ==> at[k] < |meta| && meta[at[k]].index == k)
    && forall i :: 0 <= i < |meta| ==> meta[i].index in at && i <= at[meta[i].index]
  }

  /** Every channel has an object of its own, made for it. */
  ghost predicate Arranged(meta: seq<MetaChannel>, all: seq<ChannelBuilder>) {
    && |all| == |meta|
    && (forall i, j :: 0 <= i < j < |all| ==> all[i] != all[j])
    && forall i :: 0 <= i < |all| ==> all[i].index == meta[i].index && all[i].dt == meta[i].dt
  }

  /** The objects hold the channels `cs`; the ones no block is fed to are fresh. */
  ghost predicate Hold(meta: seq<MetaChannel>, all: seq<ChannelBuilder>, at: map<u16, nat>, cs: Channels)
    requires Arranged(meta, all) && Positions(meta, at)
    reads all
  {
    && at.Keys == cs.Keys
    && forall i :: 0 <= i < |all| ==>
         all[i].View() == if at[meta[i].index] == i then cs[meta[i].index] else Fresh(meta[i].dt)
  }

  /** Where the last channel of each index of the first `n` sits. */
  function LastPositions(meta: seq<MetaChannel>, n: nat): map<u16, nat>
    requires n <= |meta|
  {
    if n == 0 then map[] else LastPositions(meta, n - 1)[meta[n - 1].index := n - 1]
  }

  lemma {:induction false} LastPositionsAre(meta: seq<MetaChannel>, n: nat)
    requires n <= |meta|
    ensures Positions(meta[..n], LastPositions(meta, n))
    ensures LastPositions(meta, n).Keys == Seed(meta[..n]).Keys
    ensures forall k :: k in Seed(meta[..n]) ==> Seed(meta[..n])[k] == Fresh(meta[LastPositions(meta, n)[k]].dt)
  {
    hide Fresh, Positions;
    if n == 0 {
      NothingPlaced(meta);
    } else {
      LastPositionsAre(meta, n - 1);
      OnePlaced(meta, n - 1, LastPositions(meta, n - 1));
      assert meta[..n][..n - 1] == meta[..n - 1];
    }
  }

  lemma NothingPlaced(meta: seq<MetaChannel>)
    ensures Positions(meta[..0], map[])
  {
  }

  lemma OnePlaced(meta: seq<MetaChannel>, n: nat, at: map<u16, nat>)
    requires n < |meta| && Positions(meta[..n], at)
    ensures Positions(meta[..n + 1], at[meta[n].index := n])
  {
    assert forall i :: 0 <= i < n ==> meta[..n + 1][i] == meta[..n][i];
  }

  method SeedBuilders(meta: seq<MetaChannel>) returns (all: seq<ChannelBuilder>, at: map<u16, nat>)
    ensures Arranged(meta, all) && Positions(meta, at) && Hold(meta, all, at, Seed(meta))
    ensures forall i :: 0 <= i < |all| ==> fresh(all[i])
  {
    hide Positions, Seed, LastPositions;
    all, at := [], map[];
    NoPositions(meta);
    for i := 0 to |meta|
      invariant |all| == i && at == LastPositions(meta, i)
      invariant forall j, k :: 0 <= j < k < i ==> all[j] != all[k]
      invariant forall j :: 0 <= j < i ==>
                  fresh(all[j]) && all[j].index == meta[j].index && all[j].dt == meta[j].dt
                    && all[j].View() == Fresh(meta[j].dt)
    {
      var b := new ChannelBuilder(meta[i].index, meta[i].dt);
      NextPosition(meta, i);
      all, at := all + [b], at[meta[i].index := i];
    }
    assert meta[..|meta|] == meta;
    LastPositionsAre(meta, |meta|);
    SeededHold(meta, all, at);
  }

  lemma NoPositions(meta: seq<MetaChannel>)
    ensures LastPositions(meta, 0) == map[]
  {
  }

  lemma NextPosition(meta: seq<MetaChannel>, i: nat)
    requires i < |meta|
    ensures LastPositions(meta, i + 1) == LastPositions(meta, i)[meta[i].index := i]
  {
  }

  lemma SeededHold(meta: seq<MetaChannel>, all: seq<ChannelBuilder>, at: map<u16, nat>)
    requires Arranged(meta, all) && Positions(meta, at) && at.Keys == Seed(meta).Keys
    requires forall k :: k in Seed(meta) ==> Seed(meta)[k] == Fresh(meta[at[k]].dt)
    requires forall i :: 0 <= i < |all| ==> all[i].View() == Fresh(meta[i].dt)
    ensures Hold(meta, all, at, Seed(meta))
  {
    hide Seed;
  }

  /** One block of the loop: signature blocks carry no channel data. */
  function Feed(off: Offset, cs: Channels, b: Block): Result<Channels> {
    if b.channelIndex == SIGNATURE_CHANNEL_INDEX then Ok(cs)
    else if b.channelIndex !in cs then Err(UnknownChannelIndex)
    else
      match Apply(off, cs[b.channelIndex], b.kind)
      case Err(e) => Err(e)
      case Ok(c) => Ok(cs[b.channelIndex := c])
  }

  function BuildFrom(off: Offset, fed: Result<Channels>, rest: seq<Result<Block>>): Result<Channels> {
    if fed.Err? then Err(fed.error) else Build(off, fed.value, rest)
  }

  lemma BuildStep(off: Offset, cs: Channels, r: Result<Block>, rest: seq<Result<Block>>)
    ensures Build(off, cs, [r] + rest) == if r.Err? then Err(r.error) else BuildFrom(off, Feed(off, cs, r.value), rest)
  {
    hide Apply;
    assert ([r] + rest)[1..] == rest;
  }

  method FeedBlock(off: Offset, meta: seq<MetaChannel>, all: seq<ChannelBuilder>, at: map<u16, nat>, ghost cs: Channels,
                   b: Block)
    returns (r: Result<()>, ghost out: Channels)
    requires Arranged(meta, all) && Positions(meta, at) && Hold(meta, all, at, cs)
    modifies all
    ensures match Feed(off, cs, b)
            case Err(e) => r == Err(e)
            case Ok(cs') => r == Ok(()) && out == cs' && Hold(meta, all, at, cs')
  {
    hide Apply;
    out := cs;
    if b.channelIndex == SIGNATURE_CHANNEL_INDEX {
      return Ok(()), out;
    }
    if b.channelIndex !in at {
      return Err(UnknownChannelIndex), out;
    }
    var builder := all[at[b.channelIndex]];
    r := builder.ApplyBlock(off, b.kind);
    if r.Ok? {
      out := cs[b.channelIndex := builder.View()];
    }
  }

  /** Drive the reader to its end; on success the builders hold what Build computes. */
  method DriveReader(off: Offset, meta: seq<MetaChannel>, all: seq<ChannelBuilder>, at: map<u16, nat>,
                     ghost cs0: Channels, reader: Reader.BlockReader)
    returns (r: Result<()>, ghost out: Channels)
    requires reader.Valid() && !reader.finished
    requires Arranged(meta, all) && Positions(meta, at) && Hold(meta, all, at, cs0)
    modifies reader, reader.stream`pos, all
    ensures match Build(off, cs0, Items(reader.cfg, old(reader.stream.Rest())))
            case Err(e) => r == Err(e)
            case Ok(cs) =>
              && r == Ok(()) && out == cs && Hold(meta, all, at, cs)
              && reader.stats == FinalStats(reader.cfg, old(reader.stats), old(reader.stream.Rest()))
  {
    hide Next, Build, AfterStep, Feed, Hold, Arranged, Positions, Items, FinalStats;
    ghost var cfg := reader.cfg;
    out := cs0;
    while true
      invariant reader.Valid() && !reader.finished && Hold(meta, all, at, out)
      invariant Build(off, out, Items(cfg, reader.stream.Rest()))
                == Build(off, cs0, Items(cfg, old(reader.stream.Rest())))
      invariant FinalStats(cfg, reader.stats, reader.stream.Rest())
             == FinalStats(cfg, old(reader.stats), old(reader.stream.Rest()))
      decreases |reader.stream.Rest()|
    {
      ghost var rest := reader.stream.Rest();
      RunStep(cfg, reader.stats, rest);
      var item := reader.Next();
      if item.None? {
        BuildNothing(off, out);
        return Ok(()), out;
      }
      BuildStep(off, out, item.value, if reader.finished then [] else Items(cfg, reader.stream.Rest()));
      if item.value.Err? {
        return Err(item.value.error), out;
      }
      r, out := FeedBlock(off, meta, all, at, out, item.value.value);
      if r.Err? {
        return;
      }
    }
  }

  /** One call unrolled. */
  lemma RunStep(cfg: Config, st: Stats, rest: bytes)
    ensures var s := Next(cfg, rest);
            && Items(cfg, rest) == (match s
                                    case Finish(_, _, _) => []
                                    case Fail(e, _, _) => [Err(e)] + []
                                    case Yield(r, used, _) => [r] + Items(cfg, rest[used..]))
            && FinalStats(cfg, st, rest) == if s.Yield? then FinalStats(cfg, AfterStep(st, s), rest[s.used..])
               else AfterStep(st, s)
  {
  }

  lemma BuildNothing(off: Offset, cs: Channels)
    ensures Build(off, cs, []) == Ok(cs)
  {
  }

  /** What is left of the table from `i` on starts with a shadowed channel exactly if another position is on record. */
  lemma ShadowedFrom(meta: seq<MetaChannel>, at: map<u16, nat>, i: nat)
    requires i < |meta| && Positions(meta, at)
    ensures Shadowed(meta[i..]) <==> at[meta[i].index] != i
  {
    var j := at[meta[i].index];
    if j != i {
      assert meta[i..][j - i].index == meta[i..][0].index;
    }
  }

  /** What one builder hands out: its channel, or nothing if its datatype is unsupported. */
  function HandedOut(index: u16, c: Channel): seq<DataChannel> {
    var d := Finalize(index, c);
    if d.Some? then [d.value] else []
  }

  lemma FinalizeHead(meta: seq<MetaChannel>, cs: Channels, i: nat, c: Channel)
    requires i < |meta| && BuilderOf(meta[i..], cs) == Some(c)
    ensures FinalizeAll(meta[i..], cs) == HandedOut(meta[i].index, c) + FinalizeAll(meta[i + 1..], cs)
  {
    hide Finalize, BuilderOf;
    assert meta[i..][1..] == meta[i + 1..] && meta[i..][0] == meta[i];
  }

  lemma FinalizeNothing(meta: seq<MetaChannel>, cs: Channels)
    ensures FinalizeAll(meta[|meta|..], cs) == [] && meta[0..] == meta
  {
  }

  /** The finished channels in metablock order; unsupported ones are dropped. */
  method FinalizeBuilders(meta: seq<MetaChannel>, all: seq<ChannelBuilder>, ghost at: map<u16, nat>, ghost cs: Channels)
    returns (out: seq<DataChannel>)
    requires Arranged(meta, all) && Positions(meta, at) && Hold(meta, all, at, cs)
    ensures out == FinalizeAll(meta, cs)
  {
    hide FinalizeAll, HandedOut, Shadowed;
    out := [];
    FinalizeNothing(meta, cs);
    for i := 0 to |all|
      invariant out + FinalizeAll(meta[i..], cs) == FinalizeAll(meta, cs)
    {
      var b := all[i];
      ShadowedFrom(meta, at, i);
      FinalizeHead(meta, cs, i, b.View());
      ghost var before := out;
      Associative(before, HandedOut(b.index, b.View()), FinalizeAll(meta[i + 1..], cs));
      out := out + HandedOut(b.index, Channel(b.dt, b.state, b.last));
    }
  }

  /** Reader, builders and finalisation together are Loader.Load. */
  method LoadSection(off: Offset, meta: seq<MetaChannel>, reader: Reader.BlockReader)
    returns (r: Result<seq<DataChannel>>)
    requires reader.Valid() && !reader.finished && reader.cfg.channels == ReaderChannels(meta)
    modifies reader, reader.stream`pos
    ensures r == Load(off, meta, reader.cfg, old(reader.stream.Rest()))
    ensures r.Ok? ==> reader.stats == FinalStats(reader.cfg, old(reader.stats), old(reader.stream.Rest()))
  {
    hide Build, Items, FinalizeAll, Seed, FinalStats, Hold, Arranged, Positions;
    var all, at := SeedBuilders(meta);
    var driven, cs := DriveReader(off, meta, all, at, Seed(meta), reader);
    if driven.Err? {
      return Err(driven.error);
    }
    var out := FinalizeBuilders(meta, all, at, cs);
    r := Ok(out);
  }
}
