/**
 Data sections as bytes: any frames on any channels, in either version of the format
 and with or without CRCs, load to exactly the channels their payloads are laid out
 to describe.
 */
module Sections {
  import opened Bytes
  import opened OsfTypes
  import opened Payload
  import opened Frame
  import opened BlockStream
  import opened Codec
  import opened Skips
  import opened Builder
  import opened Loader
  import opened BlockMeaning
  import opened Grammar

  /** One frame to be: its channel and its payload. */
  datatype Piece = Piece(ci: u16, payload: bytes)

  predicate Sendable(cfg: Config, p: Piece) {
    && p.ci in cfg.channels && p.ci != TRAILER_CHANNEL_INDEX && !IsSignature(cfg, p.ci)
    && IsSov(cfg.channels[p.ci].sov) && !cfg.channels[p.ci].dataType.Unsupported?
    && 0 < |p.payload| && |p.payload| + Reserve(cfg) < FieldLimit(cfg.channels[p.ci].sov)
  }

  predicate AllSendable(cfg: Config, ps: seq<Piece>) {
    forall p :: p in ps ==> Sendable(cfg, p)
  }

  /** The frames, one behind the other. */
  function SectionOf(cfg: Config, ps: seq<Piece>): bytes
    requires AllSendable(cfg, ps)
  {
    if ps == [] then []
    else
      assert ps[0] in ps;
      Framed(cfg, ps[0].ci, cfg.channels[ps[0].ci].sov, ps[0].payload) + SectionOf(cfg, ps[1..])
  }

  /** Piece by piece the payloads are laid out as the blocks. */
  ghost predicate Describes(cfg: Config, ps: seq<Piece>, bs: seq<Block>)
    requires AllSendable(cfg, ps)
  {
    && |ps| == |bs|
    && forall i :: 0 <= i < |ps| ==>
         && ps[i] in ps && bs[i].channelIndex == ps[i].ci
         && PayloadLayout(ps[i].payload, cfg.channels[ps[i].ci].dataType, cfg.osf4, bs[i].kind)
  }

  lemma PieceReads(cfg: Config, p: Piece, b: Block, rest: bytes)
    requires Sendable(cfg, p) && b.channelIndex == p.ci
    requires PayloadLayout(p.payload, cfg.channels[p.ci].dataType, cfg.osf4, b.kind)
    ensures Items(cfg, Framed(cfg, p.ci, cfg.channels[p.ci].sov, p.payload) + rest) == [Ok(b)] + Items(cfg, rest)
  {
    hide Items, Framed, PayloadLayout, Route;
    FramedRoutes(cfg, p.ci, p.payload, rest);
    RouteExactly(p.payload, cfg.channels[p.ci].dataType, cfg.osf4, b.kind);
  }

  /** A section reads back block for block. */
  lemma {:induction false} SectionReads(cfg: Config, ps: seq<Piece>, bs: seq<Block>)
    requires AllSendable(cfg, ps) && Describes(cfg, ps, bs)
    ensures Items(cfg, SectionOf(cfg, ps)) == Oks(bs)
    decreases |ps|
  {
    hide Items, Framed, PayloadLayout, Sendable, Next;
    if ps == [] {
      EmptyStep(cfg, []);
      NothingRead(cfg, []);
    } else {
      assert ps[0] in ps;
      PieceReads(cfg, ps[0], bs[0], SectionOf(cfg, ps[1..]));
      SectionReads(cfg, ps[1..], bs[1..]);
      assert Oks(bs) == [Ok(bs[0])] + Oks(bs[1..]);
    }
  }

  /**
   Any section, under either version and with or without CRCs: it loads if and only if
   each block fits behind the earlier ones of its channel, and then to the channels the
   blocks describe.
   */
  lemma {:induction false} SectionLoads(off: Offset, meta: seq<MetaChannel>, cfg: Config, ps: seq<Piece>,
                                        bs: seq<Block>)
    requires cfg.channels == ReaderChannels(meta) && AllSendable(cfg, ps) && Describes(cfg, ps, bs)
    ensures Load(off, meta, cfg, SectionOf(cfg, ps)).Ok? <==>
            forall i :: 0 <= i < |meta| && !Shadowed(meta[i..]) ==>
              FirstRefusal(meta[i].dt, BlocksOn(Oks(bs), meta[i].index)).None?
    ensures Load(off, meta, cfg, SectionOf(cfg, ps)).Ok? ==>
            Load(off, meta, cfg, SectionOf(cfg, ps)).value == ChannelsSaid(meta, Oks(bs))
  {
    hide Load, Items, PayloadLayout, FirstRefusal, BlocksOn, ChannelsSaid, SectionOf, ReaderChannels, Shadowed;
    SectionReads(cfg, ps, bs);
    LoadExactly(off, meta, cfg, SectionOf(cfg, ps));
    var items := Oks(bs);
    forall r | r in items
      ensures r.Ok? && exists m :: m in meta && m.index == r.value.channelIndex
    {
      var i :| 0 <= i < |items| && items[i] == r;
      assert ps[i] in ps;
      SeedKeys(meta, ps[i].ci);
      SeedDeclared(meta, ps[i].ci);
    }
  }

  // ---------------------------------------------------------------------
  // One channel.
  // ---------------------------------------------------------------------

  /** A fixed-width block that can be printed in either version. */
  predicate Printable(k: BlockKind) {
    if k.ContinuedRelStampData? then
      IsNumeric(k.dt) && 0 < |k.deltas| < TWO_TO_THE_32 && forall d :: d in k.deltas ==> IsValue(k.dt, d.value)
    else Writable(k) && IsFixed(k.dt)
  }

  /** A block as the writers print it, or, for deltas, as the format lays it out. */
  function Printed(k: BlockKind): bytes
    requires Printable(k)
  {
    if k.ContinuedRelStampData? then [Control(7, |k.deltas|)] + RelBody(k.deltas) else EncodePayload(k)
  }

  lemma PrintedLaid(k: BlockKind, osf4: bool)
    requires Printable(k)
    ensures |Printed(k)| > 0 && PayloadLayout(Printed(k), k.dt, osf4, k)
  {
    hide EncodePayload, RelBody, Route, PayloadLayout, Control, IsNumeric, IsValue, Writable;
    if k.ContinuedRelStampData? {
      RelReadsBack(k.dt, k.deltas, osf4);
    } else {
      assert !k.Skipped? by { WritableCarries(k); }
      PayloadRoundTrip(k, osf4);
    }
    RouteExactly(Printed(k), k.dt, osf4, k);
  }

  lemma WritableCarries(k: BlockKind)
    requires Writable(k)
    ensures !k.Skipped?
  {
  }

  /** Printable blocks of channel `ci` that fit their frames. */
  predicate OnOneChannel(cfg: Config, ci: u16, ks: seq<BlockKind>) {
    && ci in cfg.channels && ci != TRAILER_CHANNEL_INDEX && ci != SIGNATURE_CHANNEL_INDEX
    && IsSov(cfg.channels[ci].sov) && !cfg.channels[ci].dataType.Unsupported?
    && forall k :: k in ks ==> Printable(k) && !k.Skipped? && k.dt == cfg.channels[ci].dataType
                               && |Printed(k)| + Reserve(cfg) < FieldLimit(cfg.channels[ci].sov)
  }

  function PiecesOf(ci: u16, ks: seq<BlockKind>): (ps: seq<Piece>)
    requires forall k :: k in ks ==> Printable(k)
    ensures |ps| == |ks|
  {
    seq(|ks|, i requires 0 <= i < |ks| => assert ks[i] in ks; Piece(ci, Printed(ks[i])))
  }

  lemma PiecesSendable(cfg: Config, ci: u16, ks: seq<BlockKind>)
    requires OnOneChannel(cfg, ci, ks)
    ensures AllSendable(cfg, PiecesOf(ci, ks)) && Describes(cfg, PiecesOf(ci, ks), Blocks(ci, ks))
  {
    hide Printed, Printable, PayloadLayout;
    var ps := PiecesOf(ci, ks);
    forall i | 0 <= i < |ps|
      ensures Sendable(cfg, ps[i])
      ensures ps[i] in ps && PayloadLayout(ps[i].payload, cfg.channels[ci].dataType, cfg.osf4, ks[i])
    {
      assert ks[i] in ks;
      PrintedLaid(ks[i], cfg.osf4);
    }
  }

  lemma {:induction false} ProjectAll(ci: u16, ks: seq<BlockKind>)
    ensures Project(Oks(Blocks(ci, ks)), ci) == ks
    decreases |ks|
  {
    if ks != [] {
      assert Oks(Blocks(ci, ks))[1..] == Oks(Blocks(ci, ks[1..]));
      ProjectAll(ci, ks[1..]);
    }
  }

  /** The section of one channel's blocks. */
  function ChannelSection(cfg: Config, ci: u16, ks: seq<BlockKind>): bytes
    requires OnOneChannel(cfg, ci, ks)
  {
    PiecesSendable(cfg, ci, ks);
    SectionOf(cfg, PiecesOf(ci, ks))
  }

  /** It loads to the channel the blocks describe, if they fit behind each other. */
  lemma {:induction false} ChannelLoads(off: Offset, cfg: Config, m: MetaChannel, ks: seq<BlockKind>)
    requires cfg.channels == ReaderChannels([m]) && OnOneChannel(cfg, m.index, ks) && FirstRefusal(m.dt, ks).None?
    ensures ChannelSaid(m.index, m.dt, ks).Some?
    ensures Load(off, [m], cfg, ChannelSection(cfg, m.index, ks)) == Ok([ChannelSaid(m.index, m.dt, ks).value])
  {
    hide Load, Printable, Printed, FirstRefusal, SectionOf, Describes, AllSendable, HasAbsolute, ValuesSaid, TimesSaid,
         SegmentsSaid;
    var meta := [m];
    OneEntry(m);
    PiecesSendable(cfg, m.index, ks);
    SectionLoads(off, meta, cfg, PiecesOf(m.index, ks), Blocks(m.index, ks));
    ProjectAll(m.index, ks);
    assert meta[0..] == meta && meta[1..] == [];
    assert !Shadowed(meta);
    var items := Oks(Blocks(m.index, ks));
    assert BlocksOn(items, m.index) == ks;
    assert ChannelsSaid(meta[1..], items) == [];
    assert ChannelsSaid(meta, items) == [ChannelSaid(m.index, m.dt, ks).value];
  }

  lemma OneEntry(m: MetaChannel)
    ensures ReaderChannels([m]) == map[m.index := ChannelInfo(m.dt, m.sov)]
  {
    assert [m][..0] == [];
    assert ReaderChannels([]) == map[];
  }

  // ---------------------------------------------------------------------
  // An absolute block followed by deltas.
  // ---------------------------------------------------------------------

  function RelativeBlocks(dt: DataType, pairs: seq<Stamped>, runs: seq<seq<RelStamped>>): seq<BlockKind> {
    [AbsTimestampData(dt, pairs)]
    + seq(|runs|, i requires 0 <= i < |runs| => ContinuedRelStampData(dt, runs[i]))
  }

  function Flat<T>(parts: seq<seq<T>>): seq<T> {
    if parts == [] then [] else Flat(parts[..|parts| - 1]) + parts[|parts| - 1]
  }

  /** The timestamps `deltas` make from `t` on: the sum so far, capped at the largest i64. */
  function StampsFrom(t: i64, deltas: seq<RelStamped>): (ts: seq<i64>)
    ensures |ts| == |deltas|
  {
    seq(|deltas|, i requires 0 <= i < |deltas| => Capped(t + SumDeltas(deltas[..i + 1])))
  }

  function DeltaValues(deltas: seq<RelStamped>): seq<bytes> {
    seq(|deltas|, i requires 0 <= i < |deltas| => deltas[i].value)
  }

  lemma {:induction false} SumConcat(a: seq<RelStamped>, b: seq<RelStamped>)
    ensures SumDeltas(a + b) == SumDeltas(a) + SumDeltas(b)
    decreases |a|
  {
    if a == [] {
      assert a + b == b;
    } else {
      assert (a + b)[1..] == a[1..] + b;
      SumConcat(a[1..], b);
    }
  }

  /** Stamping a run from where another ended is stamping both. */
  lemma {:induction false} StampsConcat(t: i64, a: seq<RelStamped>, b: seq<RelStamped>)
    ensures var u := if a == [] then t else StampsFrom(t, a)[|a| - 1];
            StampsFrom(t, a + b) == StampsFrom(t, a) + StampsFrom(u, b)
  {
    hide SumDeltas;
    var u := if a == [] then t else StampsFrom(t, a)[|a| - 1];
    assert a[..|a|] == a;
    assert u == Capped(t + SumDeltas(a)) by { assert SumDeltas([]) == 0 by { NoDeltas(); } }
    forall i | 0 <= i < |a + b|
      ensures StampsFrom(t, a + b)[i] == (StampsFrom(t, a) + StampsFrom(u, b))[i]
    {
      if i < |a| {
        assert (a + b)[..i + 1] == a[..i + 1];
      } else {
        assert (a + b)[..i + 1] == a + b[..i - |a| + 1];
        SumConcat(a, b[..i - |a| + 1]);
      }
    }
  }

  lemma NoDeltas()
    ensures SumDeltas([]) == 0
  {
  }

  lemma RelativeStep(dt: DataType, pairs: seq<Stamped>, runs: seq<seq<RelStamped>>)
    requires runs != []
    ensures var n := |runs| - 1;
            RelativeBlocks(dt, pairs, runs)
            == RelativeBlocks(dt, pairs, runs[..n]) + [ContinuedRelStampData(dt, runs[n])]
  {
  }

  lemma AbsoluteAlone(dt: DataType, pairs: seq<Stamped>)
    requires IsFixed(dt)
    ensures var ks := [AbsTimestampData(dt, pairs)];
            && FirstRefusal(dt, ks).None? && HasAbsolute(ks) && !HasStart(ks)
            && TimesSaid(ks) == Times(pairs) && ValuesSaid(ks) == Payloads(pairs)
  {
    var k := AbsTimestampData(dt, pairs);
    var ks := [k];
    assert k in ks;
    assert ks[..0] == [];
    assert [] + BlockTimes([], k) == Times(pairs) && [] + BlockValues(k) == Payloads(pairs);
  }

  /** A block of deltas behind blocks that end in a sample at `u`. */
  lemma RelativeBehind(dt: DataType, front: seq<BlockKind>, run: seq<RelStamped>, u: i64)
    requires IsFixed(dt) && FirstRefusal(dt, front).None? && HasAbsolute(front) && !HasStart(front)
    requires ValuesSaid(front) != [] && TimesSaid(front) != [] && TimesSaid(front)[|TimesSaid(front)| - 1] == u
    ensures var ks := front + [ContinuedRelStampData(dt, run)];
            && FirstRefusal(dt, ks).None? && HasAbsolute(ks) && !HasStart(ks)
            && TimesSaid(ks) == TimesSaid(front) + StampsFrom(u, run)
            && ValuesSaid(ks) == ValuesSaid(front) + DeltaValues(run)
  {
    hide FirstRefusal, TimesSaid, ValuesSaid, SegmentsSaid, HasStart, HasAbsolute, SumDeltas;
    var k := ContinuedRelStampData(dt, run);
    HasSnoc(front, k);
    SaidSnoc(front, k);
    RefusalSnoc(dt, front, k);
    BlockStamps(TimesSaid(front), k);
    assert BlockValues(k) == DeltaValues(run);
  }

  /** The last of some timestamps and those the deltas make from there. */
  lemma StampsEnd(times: seq<i64>, deltas: seq<RelStamped>)
    requires times != []
    ensures var (t, all) := (times[|times| - 1], times + StampsFrom(times[|times| - 1], deltas));
            all != [] && all[|all| - 1] == if deltas == [] then t else StampsFrom(t, deltas)[|deltas| - 1]
  {
    hide SumDeltas;
  }

  lemma {:induction false} RelativeAll(dt: DataType, pairs: seq<Stamped>, runs: seq<seq<RelStamped>>)
    requires IsFixed(dt) && pairs != []
    ensures var (ks, deltas) := (RelativeBlocks(dt, pairs, runs), Flat(runs));
            && FirstRefusal(dt, ks).None? && HasAbsolute(ks) && !HasStart(ks)
            && TimesSaid(ks) == Times(pairs) + StampsFrom(Times(pairs)[|pairs| - 1], deltas)
            && ValuesSaid(ks) == Payloads(pairs) + DeltaValues(deltas)
    decreases |runs|
  {
    hide FirstRefusal, TimesSaid, ValuesSaid, HasStart, HasAbsolute, StampsFrom, Times, Payloads;
    var t := Times(pairs)[|pairs| - 1];
    if runs == [] {
      AbsoluteAlone(dt, pairs);
      assert RelativeBlocks(dt, pairs, runs) == [AbsTimestampData(dt, pairs)];
      NoStamps(t);
      assert Times(pairs) + [] == Times(pairs) && Payloads(pairs) + DeltaValues([]) == Payloads(pairs);
    } else {
      var n := |runs| - 1;
      var (front, run, d) := (RelativeBlocks(dt, pairs, runs[..n]), runs[n], Flat(runs[..n]));
      RelativeAll(dt, pairs, runs[..n]);
      RelativeStep(dt, pairs, runs);
      StampsEnd(Times(pairs), d);
      var u := if d == [] then t else StampsFrom(t, d)[|d| - 1];
      RelativeBehind(dt, front, run, u);
      StampsConcat(t, d, run);
      assert DeltaValues(d + run) == DeltaValues(d) + DeltaValues(run);
      Associative(Times(pairs), StampsFrom(t, d), StampsFrom(u, run));
      Associative(Payloads(pairs), DeltaValues(d), DeltaValues(run));
    }
  }

  lemma NoStamps(t: i64)
    ensures StampsFrom(t, []) == []
  {
  }

  lemma BlockStamps(times: seq<i64>, k: BlockKind)
    requires times != [] && k.ContinuedRelStampData?
    ensures BlockTimes(times, k) == StampsFrom(times[|times| - 1], k.deltas)
  {
  }

  /**
   An absolute block and any blocks of deltas behind it, under either version and with
   or without CRCs, load to the absolute samples followed by one sample per delta, each
   stamped with the last absolute timestamp plus the deltas up to it.
   */
  lemma {:induction false} RelativeSectionLoads(off: Offset, cfg: Config, m: MetaChannel, pairs: seq<Stamped>,
                                                runs: seq<seq<RelStamped>>)
    requires cfg.channels == ReaderChannels([m]) && IsNumeric(m.dt) && pairs != []
    requires OnOneChannel(cfg, m.index, RelativeBlocks(m.dt, pairs, runs))
    ensures Load(off, [m], cfg, ChannelSection(cfg, m.index, RelativeBlocks(m.dt, pairs, runs)))
         == Ok([TimestampedChannel(m.index, m.dt,
                  Times(pairs) + StampsFrom(Times(pairs)[|pairs| - 1], Flat(runs)),
                  Payloads(pairs) + DeltaValues(Flat(runs)))])
  {
    hide Load, OnOneChannel, ChannelSection, RelativeBlocks, FirstRefusal, TimesSaid, ValuesSaid, HasStart, HasAbsolute,
         StampsFrom, DeltaValues, Flat;
    RelativeAll(m.dt, pairs, runs);
    ChannelLoads(off, cfg, m, RelativeBlocks(m.dt, pairs, runs));
  }

  // ---------------------------------------------------------------------
  // Segments: start blocks with continued blocks behind them.
  // ---------------------------------------------------------------------

  /** A segment as written: its start block's samples and those of its continued blocks. */
  datatype Stretch = Stretch(start: i64, rate: u64, first: seq<bytes>, more: seq<seq<bytes>>)

  function StretchBlocks(dt: DataType, s: Stretch): seq<BlockKind> {
    [StartData(dt, s.start, s.rate, s.first)]
    + seq(|s.more|, i requires 0 <= i < |s.more| => ContinuedData(dt, s.more[i]))
  }

  function StretchValues(s: Stretch): seq<bytes> {
    s.first + Flat(s.more)
  }

  function StretchesBlocks(dt: DataType, ss: seq<Stretch>): seq<BlockKind> {
    if ss == [] then [] else StretchesBlocks(dt, ss[..|ss| - 1]) + StretchBlocks(dt, ss[|ss| - 1])
  }

  function AllStretchValues(ss: seq<Stretch>): seq<bytes> {
    if ss == [] then [] else AllStretchValues(ss[..|ss| - 1]) + StretchValues(ss[|ss| - 1])
  }

  /** One segment per stretch, laid where the values before it end. */
  function StretchSegments(ss: seq<Stretch>): seq<Segment> {
    if ss == [] then []
    else
      var (front, s) := (ss[..|ss| - 1], ss[|ss| - 1]);
      StretchSegments(front) + [Segment(s.start, s.rate, |AllStretchValues(front)|, |StretchValues(s)|)]
  }

  /** One stretch behind other blocks. */
  lemma {:induction false} StretchSaid(dt: DataType, before: seq<BlockKind>, s: Stretch)
    requires IsFixed(dt) && FirstRefusal(dt, before).None? && !HasAbsolute(before)
    ensures var ks := before + StretchBlocks(dt, s);
            && FirstRefusal(dt, ks).None? && !HasAbsolute(ks) && HasStart(ks)
            && ValuesSaid(ks) == ValuesSaid(before) + StretchValues(s)
            && SegmentsSaid(ks)
               == SegmentsSaid(before) + [Segment(s.start, s.rate, |ValuesSaid(before)|, |StretchValues(s)|)]
    decreases |s.more|
  {
    hide FirstRefusal, TimesSaid, ValuesSaid, SegmentsSaid, HasStart, HasAbsolute;
    var n := |s.more| - 1;
    if n < 0 {
      var k := StartData(dt, s.start, s.rate, s.first);
      HasSnoc(before, k);
      SaidSnoc(before, k);
      RefusalSnoc(dt, before, k);
      assert StretchBlocks(dt, s) == [k] && StretchValues(s) == s.first;
    } else {
      var t := Stretch(s.start, s.rate, s.first, s.more[..n]);
      var (front, k) := (before + StretchBlocks(dt, t), ContinuedData(dt, s.more[n]));
      StretchSaid(dt, before, t);
      HasSnoc(front, k);
      SaidSnoc(front, k);
      RefusalSnoc(dt, front, k);
      assert StretchBlocks(dt, s) == StretchBlocks(dt, t) + [k];
      assert before + StretchBlocks(dt, s) == front + [k];
      Associative(s.first, Flat(s.more[..n]), s.more[n]);
      Associative(ValuesSaid(before), StretchValues(t), s.more[n]);
    }
  }

  lemma {:induction false} StretchesSaid(dt: DataType, ss: seq<Stretch>)
    requires IsFixed(dt)
    ensures var ks := StretchesBlocks(dt, ss);
            && FirstRefusal(dt, ks).None? && !HasAbsolute(ks)
            && ValuesSaid(ks) == AllStretchValues(ss) && SegmentsSaid(ks) == StretchSegments(ss)
    decreases |ss|
  {
    hide StretchBlocks, StretchValues;
    if ss != [] {
      StretchesSaid(dt, ss[..|ss| - 1]);
      StretchSaid(dt, StretchesBlocks(dt, ss[..|ss| - 1]), ss[|ss| - 1]);
    }
  }

  /**
   Segments written as start and continued blocks, under either version and with or
   without CRCs, load to one channel with all their values in order and one segment
   for each start block.
   */
  lemma {:induction false} SegmentSectionLoads(off: Offset, cfg: Config, m: MetaChannel, ss: seq<Stretch>)
    requires cfg.channels == ReaderChannels([m]) && IsNumeric(m.dt)
    requires OnOneChannel(cfg, m.index, StretchesBlocks(m.dt, ss))
    ensures Load(off, [m], cfg, ChannelSection(cfg, m.index, StretchesBlocks(m.dt, ss)))
         == Ok([EquidistantChannel(m.index, m.dt, AllStretchValues(ss), StretchSegments(ss))])
  {
    hide Load, OnOneChannel, ChannelSection, StretchesBlocks, FirstRefusal, TimesSaid, ValuesSaid, SegmentsSaid,
         HasStart, HasAbsolute, AllStretchValues, StretchSegments;
    StretchesSaid(m.dt, ss);
    ChannelLoads(off, cfg, m, StretchesBlocks(m.dt, ss));
  }
}
