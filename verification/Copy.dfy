/**
 Copying a loaded file: `fromManager` fills a block writer from a data manager;
 writing and loading the copy gives back every channel that holds samples.
 */
module Copy {
  import opened Bytes
  import opened OsfTypes
  import opened Builder
  import opened Loader
  import opened StreamingSpec
  import opened BlockSpec
  import opened BlockRoundTrip

  /** A loaded channel with the metablock fields the copy needs. */
  datatype Loaded = Loaded(channel: DataChannel, sov: nat, shapeSupported: bool)

  function DefOf(l: Loaded): ChannelDef {
    ChannelDef(l.channel.dt, l.sov, l.shapeSupported)
  }

  /** One addEquidistantSegment per non-empty segment. */
  function CopySegments(data: seq<ChannelData>, ch: u16, dt: DataType, samples: seq<bytes>, segs: seq<Segment>,
                        from: nat): Result<seq<ChannelData>>
    requires Tiles(segs, from, |samples|)
    decreases |segs|
  {
    if segs == [] then Ok(data)
    else
      var s := segs[0];
      TilesOrdered(segs[1..], from + s.sampleCount, |samples|);
      if s.sampleCount == 0 then CopySegments(data, ch, dt, samples, segs[1..], from)
      else if !(dt.Float? || dt.Double?) then Err(InvalidBlock)
      else
        var r := Add(data, AddSegment(ch, dt, s.start, s.rate, samples[s.startIndex..s.startIndex + s.sampleCount]));
        if r.1.Err? then Err(r.1.error)
        else CopySegments(r.0, ch, dt, samples, segs[1..], from + s.sampleCount)
  }

  /** Shape every loaded channel has. */
  predicate WellLoaded(dc: DataChannel) {
    match dc
    case EquidistantChannel(_, dt, samples, segs) => IsFixed(dt) && Tiles(segs, 0, |samples|) && AllValues(dt, samples)
    case TimestampedChannel(_, dt, ts, vs) => IsFixed(dt) && |ts| == |vs| && AllValues(dt, vs)
    case VariableChannel(_, dt, ts, vs) => IsVariable(dt) && |ts| == |vs|
  }

  function CopyChannel(data: seq<ChannelData>, ch: u16, dc: DataChannel): Result<seq<ChannelData>>
    requires WellLoaded(dc)
  {
    match dc
    case EquidistantChannel(_, dt, samples, segs) => CopySegments(data, ch, dt, samples, segs, 0)
    case TimestampedChannel(_, dt, ts, vs) =>
      if ts == [] then Ok(data)
      else
        var r := Add(data, AddTimestamped(ch, dt, Zip(ts, vs)));
        if r.1.Err? then Err(r.1.error) else Ok(r.0)
    case VariableChannel(_, dt, ts, vs) =>
      if ts == [] then Ok(data)
      else
        var r := Add(data, AddMessages(ch, if dt.String? then String else Binary, Zip(ts, vs)));
        if r.1.Err? then Err(r.1.error) else Ok(r.0)
  }

  function FromManager(bw: BlockFile, mgr: seq<Loaded>): Result<BlockFile>
    requires forall l :: l in mgr ==> WellLoaded(l.channel)
    decreases |mgr|
  {
    if mgr == [] then Ok(bw)
    else
      match AddDef(bw, DefOf(mgr[0]))
      case Err(e) => Err(e)
      case Ok(bw1) =>
        match CopyChannel(bw1.data, |bw1.channels| - 1, mgr[0].channel)
        case Err(e) => Err(e)
        case Ok(data) => FromManager(bw1.(data := data), mgr[1..])
  }

  // ---------------------------------------------------------------------
  // What the copy of a channel accumulates.
  // ---------------------------------------------------------------------

  function NonEmpty(segs: seq<Segment>): seq<Segment> {
    if segs == [] then []
    else (if segs[0].sampleCount == 0 then [] else [segs[0]]) + NonEmpty(segs[1..])
  }

  /** The non-empty segments with their own samples. */
  function CutSegments(samples: seq<bytes>, segs: seq<Segment>, from: nat): seq<EqSegment>
    requires Tiles(segs, from, |samples|)
    decreases |segs|
  {
    if segs == [] then []
    else
      var s := segs[0];
      TilesOrdered(segs[1..], from + s.sampleCount, |samples|);
      (if s.sampleCount == 0 then [] else [EqSegment(s.start, s.rate, samples[from..from + s.sampleCount])])
      + CutSegments(samples, segs[1..], from + s.sampleCount)
  }

  lemma {:induction false} CutCoversAll(samples: seq<bytes>, segs: seq<Segment>, from: nat)
    requires Tiles(segs, from, |samples|)
    ensures from <= |samples|
    ensures FlatSamples(CutSegments(samples, segs, from)) == samples[from..]
    ensures Layout(CutSegments(samples, segs, from), from) == NonEmpty(segs)
    decreases |segs|
  {
    TilesOrdered(segs, from, |samples|);
    if segs != [] {
      var s := segs[0];
      var mid := from + s.sampleCount;
      CutCoversAll(samples, segs[1..], mid);
      var more := CutSegments(samples, segs[1..], mid);
      if s.sampleCount == 0 {
        assert [] + more == more;
        assert [] + NonEmpty(segs[1..]) == NonEmpty(segs[1..]);
      } else {
        var first := EqSegment(s.start, s.rate, samples[from..mid]);
        assert ([first] + more)[1..] == more;
        assert samples[from..] == samples[from..mid] + samples[mid..];
        assert NonEmpty(segs) == [s] + NonEmpty(segs[1..]);
        assert Layout([first] + more, from) == [Segment(s.start, s.rate, from, s.sampleCount)] + Layout(more, mid);
      }
    }
  }

  /** `cd` with more segments; a channel without any stays empty. */
  function Extend(cd: ChannelData, cut: seq<EqSegment>): ChannelData {
    cd.(kind := if cd.segments + cut == [] then EmptyKind else EquidistantKind, segments := cd.segments + cut)
  }

  /** An equidistant channel being filled. */
  predicate Filling(cd: ChannelData) {
    && cd.kind == (if cd.segments == [] then EmptyKind else EquidistantKind)
    && cd.times == [] && cd.values == []
    && (cd.segments != [] ==> cd.dt.Float? || cd.dt.Double?)
    && forall s :: s in cd.segments ==> s.values != [] && PositiveFiniteRate(s.rate) && AllValues(cd.dt, s.values)
  }

  lemma ExtendTwice(cd: ChannelData, x: EqSegment, more: seq<EqSegment>)
    ensures Extend(Extend(cd, [x]), more) == Extend(cd, [x] + more)
  {
    assert cd.segments + [x] + more == cd.segments + ([x] + more);
  }

  lemma AddExtends(data: seq<ChannelData>, ch: u16, dt: DataType, start: i64, rate: u64, values: seq<bytes>)
    requires ch < |data| && Filling(data[ch]) && (dt.Float? || dt.Double?) && AllValues(dt, values)
    requires Add(data, AddSegment(ch, dt, start, rate, values)).1.Ok?
    ensures var cd := Extend(data[ch], [EqSegment(start, rate, values)]);
            Add(data, AddSegment(ch, dt, start, rate, values)).0 == data[ch := cd] && Filling(cd)
  {
  }

  lemma UpdateTwice<T>(s: seq<T>, i: nat, a: T, b: T)
    requires i < |s|
    ensures s[i := a][i := b] == s[i := b]
  {
  }

  lemma SliceValues(dt: DataType, samples: seq<bytes>, from: nat, to: nat)
    requires AllValues(dt, samples) && from <= to <= |samples|
    ensures AllValues(dt, samples[from..to])
  {
  }

  lemma CopyNothing(data: seq<ChannelData>, ch: u16, dt: DataType, samples: seq<bytes>, from: nat)
    requires Tiles([], from, |samples|)
    ensures CopySegments(data, ch, dt, samples, [], from) == Ok(data) && CutSegments(samples, [], from) == []
  {
  }

  /** The first segment of a successful copy, and the rest. */
  lemma CopyHead(data: seq<ChannelData>, ch: u16, dt: DataType, samples: seq<bytes>, segs: seq<Segment>, from: nat)
    requires segs != [] && Tiles(segs, from, |samples|) && CopySegments(data, ch, dt, samples, segs, from).Ok?
    ensures var (s, mid) := (segs[0], from + segs[0].sampleCount);
            && mid <= |samples| && Tiles(segs[1..], mid, |samples|)
            && if s.sampleCount == 0 then
                 && CopySegments(data, ch, dt, samples, segs, from)
                    == CopySegments(data, ch, dt, samples, segs[1..], mid)
                 && CutSegments(samples, segs, from) == CutSegments(samples, segs[1..], mid)
               else
                 var r := Add(data, AddSegment(ch, dt, s.start, s.rate, samples[from..mid]));
                 && (dt.Float? || dt.Double?) && r.1.Ok?
                 && CopySegments(data, ch, dt, samples, segs, from)
                    == CopySegments(r.0, ch, dt, samples, segs[1..], mid)
                 && CutSegments(samples, segs, from)
                    == [EqSegment(s.start, s.rate, samples[from..mid])] + CutSegments(samples, segs[1..], mid)
  {
    hide Add;
    TilesOrdered(segs[1..], from + segs[0].sampleCount, |samples|);
  }

  lemma {:induction false} CopySegmentsAccumulates(data: seq<ChannelData>, ch: u16, dt: DataType, samples: seq<bytes>,
                                                   segs: seq<Segment>, from: nat)
    requires Tiles(segs, from, |samples|) && ch < |data| && CopySegments(data, ch, dt, samples, segs, from).Ok?
    requires Filling(data[ch]) && AllValues(dt, samples)
    ensures var cd := Extend(data[ch], CutSegments(samples, segs, from));
            CopySegments(data, ch, dt, samples, segs, from).value == data[ch := cd] && Filling(cd)
    decreases |segs|
  {
    hide CopySegments, CutSegments, Tiles, Add, Filling, Extend, AllValues;
    if segs == [] {
      CopyNothing(data, ch, dt, samples, from);
      ExtendNothing(data[ch]);
      assert data[ch := data[ch]] == data;
    } else {
      CopyHead(data, ch, dt, samples, segs, from);
      var s := segs[0];
      var mid := from + s.sampleCount;
      if s.sampleCount == 0 {
        CopySegmentsAccumulates(data, ch, dt, samples, segs[1..], mid);
      } else {
        var (values, more) := (samples[from..mid], CutSegments(samples, segs[1..], mid));
        SliceValues(dt, samples, from, mid);
        AddExtends(data, ch, dt, s.start, s.rate, values);
        var data' := Add(data, AddSegment(ch, dt, s.start, s.rate, values)).0;
        CopySegmentsAccumulates(data', ch, dt, samples, segs[1..], mid);
        ExtendTwice(data[ch], EqSegment(s.start, s.rate, values), more);
        UpdateTwice(data, ch, data'[ch], Extend(data'[ch], more));
      }
    }
  }

  lemma ExtendNothing(cd: ChannelData)
    requires Filling(cd)
    ensures Extend(cd, []) == cd
  {
    assert cd.segments + [] == cd.segments;
  }

  /** The data a copied channel holds. */
  function CopiedData(dc: DataChannel): ChannelData
    requires WellLoaded(dc)
  {
    match dc
    case EquidistantChannel(_, dt, samples, segs) =>
      var cut := CutSegments(samples, segs, 0);
      ChannelData(if cut == [] then EmptyKind else EquidistantKind, dt, cut, [], [])
    case TimestampedChannel(_, dt, ts, vs) =>
      if ts == [] then EmptyData(dt) else ChannelData(TimestampedKind, dt, [], ts, vs)
    case VariableChannel(_, dt, ts, vs) =>
      if ts == [] then EmptyData(dt) else ChannelData(VariableKind, dt, [], ts, vs)
  }

  lemma CopyChannelAccumulates(data: seq<ChannelData>, ch: u16, dc: DataChannel)
    requires WellLoaded(dc) && ch < |data| && data[ch] == EmptyData(dc.dt) && CopyChannel(data, ch, dc).Ok?
    ensures CopyChannel(data, ch, dc).value == data[ch := CopiedData(dc)] && ValidData(CopiedData(dc))
  {
    match dc
    case EquidistantChannel(_, dt, samples, segs) =>
      CopySegmentsAccumulates(data, ch, dt, samples, segs, 0);
      assert [] + CutSegments(samples, segs, 0) == CutSegments(samples, segs, 0);
    case TimestampedChannel(_, dt, ts, vs) =>
      ZipParts(ts, vs);
      assert [] + ts == ts && [] + vs == vs;
      assert data[ch := EmptyData(dt)] == data;
    case VariableChannel(_, dt, ts, vs) =>
      ZipParts(ts, vs);
      assert [] + ts == ts && [] + vs == vs;
      assert data[ch := EmptyData(dt)] == data;
  }

  function CopiedAll(mgr: seq<Loaded>): (r: seq<ChannelData>)
    requires forall l :: l in mgr ==> WellLoaded(l.channel)
    ensures |r| == |mgr|
  {
    seq(|mgr|, i requires 0 <= i < |mgr| => CopiedData(mgr[i].channel))
  }

  function DefsOf(mgr: seq<Loaded>): (r: seq<ChannelDef>)
    ensures |r| == |mgr|
  {
    seq(|mgr|, i requires 0 <= i < |mgr| => DefOf(mgr[i]))
  }

  lemma {:induction false} FromManagerAccumulates(bw: BlockFile, mgr: seq<Loaded>)
    requires (forall l :: l in mgr ==> WellLoaded(l.channel)) && ValidWriter(bw) && FromManager(bw, mgr).Ok?
    ensures var r := FromManager(bw, mgr).value;
            && r == BlockFile(bw.channels + DefsOf(mgr), bw.data + CopiedAll(mgr), bw.integrity)
            && ValidWriter(r)
    decreases |mgr|
  {
    hide CopyChannel, CopiedData, WellLoaded, ValidData;
    if mgr == [] {
      assert bw.channels + [] == bw.channels && bw.data + [] == bw.data;
    } else {
      var dc := mgr[0].channel;
      var bw1 := AddDef(bw, DefOf(mgr[0])).value;
      var ch := |bw.channels|;
      CopyChannelAccumulates(bw1.data, ch, dc);
      var data := CopyChannel(bw1.data, ch, dc).value;
      assert data == bw.data + [CopiedData(dc)];
      CopiedType(dc);
      var bw2 := bw1.(data := data);
      FromManagerAccumulates(bw2, mgr[1..]);
      assert bw2.channels + DefsOf(mgr[1..]) == bw.channels + DefsOf(mgr);
      assert bw2.data + CopiedAll(mgr[1..]) == bw.data + CopiedAll(mgr);
    }
  }

  lemma CopiedType(dc: DataChannel)
    requires WellLoaded(dc)
    ensures CopiedData(dc).dt == dc.dt
  {
  }

  /** What loading the copy gives for one channel: the same samples under a new index; empty segments are gone. */
  function CopiedChannel(i: u16, dc: DataChannel): DataChannel {
    match dc
    case EquidistantChannel(_, dt, samples, segs) => EquidistantChannel(i, dt, samples, NonEmpty(segs))
    case TimestampedChannel(_, dt, ts, vs) =>
      if ts == [] then EquidistantChannel(i, dt, [], []) else TimestampedChannel(i, dt, ts, vs)
    case VariableChannel(_, dt, ts, vs) => VariableChannel(i, dt, ts, vs)
  }

  lemma LoadedCopy(i: u16, dc: DataChannel)
    requires WellLoaded(dc)
    ensures LoadedChannel(i, CopiedData(dc)) == CopiedChannel(i, dc)
  {
    match dc
    case EquidistantChannel(_, dt, samples, segs) =>
      CutCoversAll(samples, segs, 0);
      assert samples[0..] == samples;
      var cut := CutSegments(samples, segs, 0);
      if cut == [] {
        assert Layout(cut, 0) == [] && FlatSamples(cut) == [];
      }
    case TimestampedChannel(_, _, _, _) =>
    case VariableChannel(_, _, _, _) =>
  }

  /** The channels of the copy, in order. */
  function CopiedChannels(mgr: seq<Loaded>): (r: seq<DataChannel>)
    requires |mgr| <= 0xFFFF
    ensures |r| == |mgr|
  {
    seq(|mgr|, i requires 0 <= i < |mgr| => CopiedChannel(i, mgr[i].channel))
  }

  lemma {:induction false} CutNotEmpty(samples: seq<bytes>, segs: seq<Segment>, from: nat)
    requires Tiles(segs, from, |samples|)
    ensures forall s :: s in CutSegments(samples, segs, from) ==> s.values != []
    decreases |segs|
  {
    if segs != [] {
      TilesOrdered(segs[1..], from + segs[0].sampleCount, |samples|);
      CutNotEmpty(samples, segs[1..], from + segs[0].sampleCount);
    }
  }

  /** Exactly the channels with samples leave something in the writer. */
  lemma CopiedIfStored(dc: DataChannel)
    requires WellLoaded(dc)
    ensures CopiedData(dc).kind.EmptyKind? <==> StoredValues(dc) == []
  {
    if dc.EquidistantChannel? {
      CutCoversAll(dc.samples, dc.segments, 0);
      CutNotEmpty(dc.samples, dc.segments, 0);
      assert dc.samples[0..] == dc.samples;
      var cut := CutSegments(dc.samples, dc.segments, 0);
      if cut != [] {
        assert cut[0] in cut;
      }
    }
  }

  lemma {:induction false} LoadedCopies(mgr: seq<Loaded>, bw: BlockFile)
    requires |mgr| <= 0xFFFF && forall l :: l in mgr ==> WellLoaded(l.channel)
    requires |bw.data| == |mgr| && bw.data == CopiedAll(mgr)
    ensures LoadedFrom(bw, 0) == CopiedChannels(mgr)
  {
    hide LoadedFrom, LoadedChannel, CopiedChannel, CopiedData, WellLoaded;
    if mgr == [] {
      NothingLoaded(bw);
    } else {
      LoadedAt(bw, 0, 0);
    }
    forall i | 0 <= i < |mgr|
      ensures LoadedFrom(bw, 0)[i] == CopiedChannel(i, mgr[i].channel)
    {
      LoadedAt(bw, 0, i);
      LoadedCopy(i, mgr[i].channel);
    }
  }

  /**
   Copy preserves meaning: whenever copying a loaded file and writing the copy
   succeed, loading it gives, channel by channel, the same samples, timestamps and
   non-empty segments, if and only if the copy puts no samples on channel 0xFFFE.
   */
  lemma {:induction false} CopyPreserves(off: Offset, mgr: seq<Loaded>, bw: BlockFile, capture: bool)
    requires forall l :: l in mgr ==> WellLoaded(l.channel)
    requires FromManager(NEW_WRITER, mgr) == Ok(bw)
    requires |bw.channels| == |bw.data| && WriteError(bw).None?
    ensures ValidWriter(bw) && |bw.channels| == |mgr| <= 0xFFFF
    ensures Load(off, MetaOf(BumpedDefs(bw)), ReaderOfFile(bw, capture), DataSection(bw)) == Ok(CopiedChannels(mgr))
       <==> |mgr| < 0xFFFF || StoredValues(mgr[0xFFFE].channel) == []
  {
    FromManagerAccumulates(NEW_WRITER, mgr);
    hide Load, DataSection, WriteError, ReaderOfFile, BumpedDefs, CopiedData, FromManager, WellLoaded, MetaOf,
         LoadedFrom, CopiedChannels, StoredValues;
    assert [] + CopiedAll(mgr) == CopiedAll(mgr);
    LoadedCopies(mgr, bw);
    WriteLoadRoundTrip(off, bw, capture);
    if |mgr| == 0xFFFF {
      CopiedIfStored(mgr[0xFFFE].channel);
      assert bw.data[0xFFFE] == CopiedData(mgr[0xFFFE].channel);
    }
  }

  lemma NothingLoaded(bw: BlockFile)
    requires |bw.data| == 0
    ensures LoadedFrom(bw, 0) == []
  {
  }

  // ---------------------------------------------------------------------
  // What can be copied.
  // ---------------------------------------------------------------------

  /** A segment the writer takes: it is empty, or of a float type with a positive finite rate. */
  predicate SegmentCopies(dt: DataType, s: Segment) {
    s.sampleCount == 0 || ((dt.Float? || dt.Double?) && 0 < s.rate < 0x7FF0_0000_0000_0000)
  }

  /** A channel the writer takes: a byte array channel only without samples. */
  predicate Copyable(l: Loaded) {
    && (l.sov == 2 || l.sov == 4) && l.shapeSupported && !l.channel.dt.Unsupported?
    && (l.channel.EquidistantChannel? ==> forall s :: s in l.channel.segments ==> SegmentCopies(l.channel.dt, s))
    && (l.channel.VariableChannel? && l.channel.dt.ByteArray? ==> l.channel.timestamps == [])
  }

  lemma SegmentAccepted(data: seq<ChannelData>, ch: u16, dt: DataType, s: Segment, values: seq<bytes>)
    requires ch < |data| && Filling(data[ch]) && data[ch].dt == dt && |values| == s.sampleCount > 0
    requires dt.Float? || dt.Double?
    ensures Add(data, AddSegment(ch, dt, s.start, s.rate, values)).1.Ok? <==> SegmentCopies(dt, s)
  {
  }

  lemma {:induction false} SegmentsCopyExactly(data: seq<ChannelData>, ch: u16, dt: DataType, samples: seq<bytes>,
                                               segs: seq<Segment>, from: nat)
    requires Tiles(segs, from, |samples|) && ch < |data| && Filling(data[ch]) && data[ch].dt == dt
    requires AllValues(dt, samples)
    ensures CopySegments(data, ch, dt, samples, segs, from).Ok? <==> forall s :: s in segs ==> SegmentCopies(dt, s)
    decreases |segs|
  {
    hide Add, Filling, AllValues;
    if segs != [] {
      var (s, mid) := (segs[0], from + segs[0].sampleCount);
      assert segs == [s] + segs[1..];
      TilesTail(segs, from, |samples|);
      if s.sampleCount == 0 {
        SegmentsCopyExactly(data, ch, dt, samples, segs[1..], mid);
      } else if dt.Float? || dt.Double? {
        var values := samples[from..mid];
        SliceValues(dt, samples, from, mid);
        SegmentAccepted(data, ch, dt, s, values);
        if SegmentCopies(dt, s) {
          AddExtends(data, ch, dt, s.start, s.rate, values);
          var data' := Add(data, AddSegment(ch, dt, s.start, s.rate, values)).0;
          SegmentsCopyExactly(data', ch, dt, samples, segs[1..], mid);
        }
      } else {
        assert !SegmentCopies(dt, s);
      }
    }
  }

  lemma ChannelCopiesExactly(data: seq<ChannelData>, ch: u16, l: Loaded)
    requires WellLoaded(l.channel) && ch < |data| && data[ch] == EmptyData(l.channel.dt)
    requires (l.sov == 2 || l.sov == 4) && l.shapeSupported && !l.channel.dt.Unsupported?
    ensures CopyChannel(data, ch, l.channel).Ok? <==> Copyable(l)
  {
    hide SegmentCopies;
    if l.channel.EquidistantChannel? {
      SegmentsCopyExactly(data, ch, l.channel.dt, l.channel.samples, l.channel.segments, 0);
    }
  }

  lemma {:induction false} CopiesExactly(bw: BlockFile, mgr: seq<Loaded>)
    requires (forall l :: l in mgr ==> WellLoaded(l.channel)) && ValidWriter(bw)
    ensures FromManager(bw, mgr).Ok? <==> |bw.channels| + |mgr| <= 0xFFFF && forall l :: l in mgr ==> Copyable(l)
    decreases |mgr|
  {
    hide CopyChannel, WellLoaded, ValidData, Copyable, CopiedData;
    if mgr != [] {
      var l := mgr[0];
      assert mgr == [l] + mgr[1..];
      if AddDef(bw, DefOf(l)).Ok? {
        var bw1 := AddDef(bw, DefOf(l)).value;
        ChannelCopiesExactly(bw1.data, |bw.channels|, l);
        if CopyChannel(bw1.data, |bw.channels|, l.channel).Ok? {
          CopyChannelAccumulates(bw1.data, |bw.channels|, l.channel);
          CopiedType(l.channel);
          CopiesExactly(bw1.(data := CopyChannel(bw1.data, |bw.channels|, l.channel).value), mgr[1..]);
        }
      } else {
        NotCopyable(bw, l);
      }
    }
  }

  lemma NotCopyable(bw: BlockFile, l: Loaded)
    requires AddDef(bw, DefOf(l)).Err?
    ensures |bw.channels| >= 0xFFFF || !Copyable(l)
  {
  }

  /** A copy is accepted if and only if there are at most 65535 channels and the writer takes each of them. */
  lemma {:induction false} CopyExactly(mgr: seq<Loaded>)
    requires forall l :: l in mgr ==> WellLoaded(l.channel)
    ensures FromManager(NEW_WRITER, mgr).Ok? <==> |mgr| <= 0xFFFF && forall l :: l in mgr ==> Copyable(l)
  {
    hide FromManager, Copyable, WellLoaded;
    CopiesExactly(NEW_WRITER, mgr);
  }
}
