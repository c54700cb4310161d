/**
 Whatever bytes are loaded, the channels that come out are well formed: segments
 tile the samples, timestamps and values pair up, every fixed-width value is one of
 its datatype. So a copy can be made of any loaded file.
 */
module LoadedTyped {
  import opened Bytes
  import opened OsfTypes
  import opened Payload
  import opened Frame
  import opened BlockStream
  import opened Builder
  import opened Loader
  import opened StreamingSpec
  import opened BlockRoundTrip
  import opened Copy

  /** The values of a block are values of its datatype. */
  predicate TypedKind(k: BlockKind) {
    match k
    case StartData(dt, _, _, samples) => AllValues(dt, samples)
    case ContinuedData(dt, samples) => AllValues(dt, samples)
    case AbsTimestampData(dt, pairs) => IsFixed(dt) ==> AllStampedValues(dt, pairs)
    case ContinuedRelStampData(dt, deltas) => forall d :: d in deltas ==> IsValue(dt, d.value)
    case Skipped(_, _, _) => true
  }

  lemma ReadValueTyped(dt: DataType, raw: bytes)
    requires IsFixed(dt) && |raw| == Width(dt)
    ensures IsValue(dt, ReadValue(dt, raw))
  {
  }

  lemma ReadValuesTyped(dt: DataType, raws: seq<bytes>)
    requires IsFixed(dt) && forall p :: p in raws ==> |p| == Width(dt)
    ensures AllValues(dt, ReadValues(dt, raws))
  {
    hide ReadValue, IsValue;
    forall v | v in ReadValues(dt, raws)
      ensures IsValue(dt, v)
    {
      var i :| 0 <= i < |raws| && ReadValues(dt, raws)[i] == v;
      assert raws[i] in raws;
      ReadValueTyped(dt, raws[i]);
    }
  }

  lemma ReadStampedTyped(dt: DataType, raws: seq<bytes>)
    requires IsFixed(dt) && forall p :: p in raws ==> |p| >= 8 && |p| == 8 + Width(dt)
    ensures AllStampedValues(dt, ReadStampedAll(dt, raws))
  {
    hide ReadValue, IsValue;
    forall p | p in ReadStampedAll(dt, raws)
      ensures IsValue(dt, p.value)
    {
      var i :| 0 <= i < |raws| && ReadStampedAll(dt, raws)[i] == p;
      assert raws[i] in raws;
      ReadValueTyped(dt, raws[i][8..]);
    }
  }

  lemma ReadRelStampedTyped(dt: DataType, raws: seq<bytes>)
    requires IsFixed(dt) && forall p :: p in raws ==> |p| >= 4 && |p| == 4 + Width(dt)
    ensures forall d :: d in ReadRelStampedAll(dt, raws) ==> IsValue(dt, d.value)
  {
    hide ReadValue, IsValue;
    forall d | d in ReadRelStampedAll(dt, raws)
      ensures IsValue(dt, d.value)
    {
      var i :| 0 <= i < |raws| && ReadRelStampedAll(dt, raws)[i] == d;
      assert raws[i] in raws;
      ReadValueTyped(dt, raws[i][4..]);
    }
  }

  lemma RunTyped(body: bytes, dt: DataType, n: nat)
    requires ParseNumericRun(body, dt, n).Ok?
    ensures AllValues(dt, ParseNumericRun(body, dt, n).value)
  {
    hide SplitRecords, ReadValues;
    ReadValuesTyped(dt, SplitRecords(body, n, Width(dt)).value);
  }

  lemma AbsTyped(body: bytes, dt: DataType, multi: bool, osf4: bool)
    requires ParseAbs(body, dt, multi, osf4).Ok?
    ensures TypedKind(ParseAbs(body, dt, multi, osf4).value) && ParseAbs(body, dt, multi, osf4).value.AbsTimestampData?
  {
    hide SplitRecords, ReadStampedAll, ReadMessages, ReadMessage, UnLe, IsValue, SampleCount, IsNumeric;
    if !IsVariable(dt) {
      var (n, run) := SampleCount(body, multi).value;
      ReadStampedTyped(dt, SplitRecords(run, n, 8 + Width(dt)).value);
    } else {
      VariableNotFixed(dt);
    }
  }

  lemma VariableNotFixed(dt: DataType)
    requires IsVariable(dt)
    ensures !IsFixed(dt) && !IsFixed(Normalised(dt))
  {
  }

  lemma RelTyped(body: bytes, dt: DataType, multi: bool)
    requires ParseRel(body, dt, multi).Ok?
    ensures TypedKind(ParseRel(body, dt, multi).value)
  {
    hide SplitRecords, ReadRelStampedAll, IsValue, SampleCount;
    var (n, run) := SampleCount(body, multi).value;
    ReadRelStampedTyped(dt, SplitRecords(run, n, 4 + Width(dt)).value);
  }

  lemma StartTyped(body: bytes, dt: DataType, multi: bool)
    requires ParseStart(body, dt, multi).Ok?
    ensures TypedKind(ParseStart(body, dt, multi).value)
  {
    hide ParseNumericRun, IsValue, SampleCount, UnLe, UnLeI64;
    var (n, run) := SampleCount(body[16..], multi).value;
    RunTyped(run, dt, n);
  }

  lemma ContinuedTyped(body: bytes, dt: DataType, multi: bool)
    requires ParseContinued(body, dt, multi).Ok?
    ensures TypedKind(ParseContinued(body, dt, multi).value)
  {
    hide ParseNumericRun, IsValue, SampleCount;
    var (n, run) := SampleCount(body, multi).value;
    RunTyped(run, dt, n);
  }

  lemma RouteTypedKind(payload: bytes, dt: DataType, osf4: bool)
    requires |payload| > 0 && Route(payload, dt, osf4).Parsed? && Route(payload, dt, osf4).result.Ok?
    ensures TypedKind(Route(payload, dt, osf4).result.value)
  {
    hide ParseStart, ParseContinued, ParseAbs, ParseRel, UnLe, UnLeI64, TypedKind, IsFixed;
    var cb := DecodeControlByte(payload[0]);
    var body := payload[1..];
    match cb.kind {
      case MessageEvent => MessageTyped(body, dt);
      case Start => StartTyped(body, dt, cb.multi);
      case Continued => ContinuedTyped(body, dt, cb.multi);
      case AbsTimeStamp => AbsTyped(body, dt, cb.multi, osf4);
      case ContinuedRel => RelTyped(body, dt, cb.multi);
      case _ =>
    }
  }

  lemma MessageTyped(body: bytes, dt: DataType)
    requires ParseMessageEvent(body, dt).Ok?
    ensures TypedKind(ParseMessageEvent(body, dt).value)
  {
    hide UnLe, UnLeI64;
    VariableNotFixed(dt);
  }

  lemma StepTyped(cfg: Config, rest: bytes)
    requires Next(cfg, rest).Yield? && Next(cfg, rest).result.Ok?
    ensures TypedKind(Next(cfg, rest).result.value.kind)
  {
    hide UnLe, Route, FrameCrcOk, TypedKind;
    var ci := ChannelIndex(rest);
    SkippedTyped();
    if !IsSignature(cfg, ci) {
      var info := cfg.channels[ci];
      var header := 2 + info.sov;
      var length := UnLe(rest[2..header]);
      if length > 0 && !info.dataType.Unsupported? {
        DeliverTyped(cfg, ci, info, rest[header..header + length]);
      }
    }
  }

  lemma SkippedTyped()
    ensures forall reason, n, p :: TypedKind(Skipped(reason, n, p))
  {
  }

  lemma DeliverTyped(cfg: Config, ci: u16, info: ChannelInfo, payload: bytes)
    requires |payload| > 0 && IsSov(info.sov) && Deliver(cfg, ci, info, payload).Ok?
    ensures TypedKind(Deliver(cfg, ci, info, payload).value.kind)
  {
    hide Route, FrameCrcOk, TypedKind;
    SkippedTyped();
    if cfg.integrity.NoIntegrity? {
      RoutedTyped(cfg, ci, info.dataType, |payload|, payload);
    } else if |payload| >= 5 && FrameCrcOk(ci, info.sov, |payload|, payload) {
      RoutedTyped(cfg, ci, info.dataType, |payload|, payload[..|payload| - 4]);
    }
  }

  lemma RoutedTyped(cfg: Config, ci: u16, dt: DataType, length: nat, payload: bytes)
    requires |payload| > 0 && RouteBlock(cfg, ci, dt, length, payload).Ok?
    ensures TypedKind(RouteBlock(cfg, ci, dt, length, payload).value.kind)
  {
    hide Route, TypedKind;
    SkippedTyped();
    if Route(payload, dt, cfg.osf4).Parsed? {
      RouteTypedKind(payload, dt, cfg.osf4);
    }
  }

  predicate TypedItems(items: seq<Result<Block>>) {
    forall r :: r in items && r.Ok? ==> TypedKind(r.value.kind)
  }

  lemma {:induction false} ItemsTyped(cfg: Config, data: bytes)
    ensures TypedItems(Items(cfg, data))
    decreases |data|
  {
    hide Next, TypedKind;
    var s := Next(cfg, data);
    if s.Yield? {
      ItemsTyped(cfg, data[s.used..]);
      if s.result.Ok? {
        StepTyped(cfg, data);
      }
    }
  }

  lemma {:induction false} ProjectTyped(items: seq<Result<Block>>, ci: u16)
    requires TypedItems(items)
    ensures forall k :: k in Project(items, ci) ==> TypedKind(k)
    decreases |items|
  {
    hide TypedKind;
    if items != [] {
      assert items[0] in items && forall r :: r in items[1..] ==> r in items;
      ProjectTyped(items[1..], ci);
    }
  }

  /** Fixed-width storage holds values of the channel's datatype only. */
  predicate Stored(c: Channel) {
    match c.state
    case Equidistant(samples, _) => AllValues(c.dt, samples)
    case Timestamped(_, values) => AllValues(c.dt, values)
    case _ => true
  }

  lemma PairValues(dt: DataType, pairs: seq<Stamped>)
    requires AllStampedValues(dt, pairs)
    ensures AllValues(dt, Payloads(pairs))
  {
    hide IsValue;
    forall v | v in Payloads(pairs)
      ensures IsValue(dt, v)
    {
      var i :| 0 <= i < |pairs| && Payloads(pairs)[i] == v;
      assert pairs[i] in pairs;
    }
  }

  lemma DeltaValues(dt: DataType, deltas: seq<RelStamped>)
    requires forall d :: d in deltas ==> IsValue(dt, d.value)
    ensures AllValues(dt, RelPayloads(deltas))
  {
    hide IsValue;
    forall v | v in RelPayloads(deltas)
      ensures IsValue(dt, v)
    {
      var i :| 0 <= i < |deltas| && RelPayloads(deltas)[i] == v;
      assert deltas[i] in deltas;
    }
  }

  lemma ApplyStored(off: Offset, c: Channel, k: BlockKind)
    requires OffsetLaw(off) && Invariant(off, c) && Stored(c) && TypedKind(k) && Apply(off, c, k).Ok?
    ensures Stored(Apply(off, c, k).value)
  {
    hide IsValue, Times, Payloads, RelTimes, RelPayloads, LastFromSegment, LastReconstructed, Tiles, LastOf, LastRel,
         IsNumeric;
    match k
    case AbsTimestampData(dt, pairs) =>
      if IsFixed(dt) {
        PairValues(dt, pairs);
      }
    case ContinuedRelStampData(dt, deltas) => DeltaValues(dt, deltas);
    case _ =>
  }

  lemma {:induction false} FoldStored(off: Offset, c: Channel, ks: seq<BlockKind>)
    requires OffsetLaw(off) && Invariant(off, c) && Stored(c) && Fold(off, c, ks).Ok?
    requires forall k :: k in ks ==> TypedKind(k)
    ensures Stored(Fold(off, c, ks).value)
    decreases |ks|
  {
    hide Apply, Invariant, TypedKind, Stored;
    if ks != [] {
      ApplyKeepsInvariant(off, c, ks[0]);
      ApplyStored(off, c, ks[0]);
      FoldStored(off, Apply(off, c, ks[0]).value, ks[1..]);
    }
  }

  lemma FinalizedWell(off: Offset, index: u16, c: Channel)
    requires Invariant(off, c) && Stored(c) && Finalize(index, c).Some?
    ensures WellLoaded(Finalize(index, c).value)
  {
    hide LastReconstructed, LastOf, IsValue;
  }

  ghost predicate WellBuilt(off: Offset, cs: Channels) {
    forall ci :: ci in cs ==> Invariant(off, cs[ci]) && Stored(cs[ci])
  }

  lemma {:induction false} SeedWell(off: Offset, meta: seq<MetaChannel>)
    ensures WellBuilt(off, Seed(meta))
    decreases |meta|
  {
    hide Invariant, Stored;
    if meta != [] {
      var l := meta[|meta| - 1];
      SeedWell(off, meta[..|meta| - 1]);
      FreshInvariant(off, l.dt);
      FreshStored(l.dt);
    }
  }

  lemma FreshStored(dt: DataType)
    ensures Stored(Fresh(dt))
  {
  }

  lemma BuildWell(off: Offset, cs: Channels, items: seq<Result<Block>>)
    requires OffsetLaw(off) && WellBuilt(off, cs) && TypedItems(items) && Build(off, cs, items).Ok?
    ensures WellBuilt(off, Build(off, cs, items).value)
  {
    hide Build, Invariant, Stored, Fold, Project, TypedItems, TypedKind;
    BuildIsPerChannel(off, cs, items);
    var out := Build(off, cs, items).value;
    forall ci | ci in out
      ensures Invariant(off, out[ci]) && Stored(out[ci])
    {
      if ci != SIGNATURE_CHANNEL_INDEX {
        ProjectTyped(items, ci);
        ReachableInvariant(off, cs[ci], Project(items, ci));
        FoldStored(off, cs[ci], Project(items, ci));
      }
    }
  }

  lemma {:induction false} FinalizeAllWell(off: Offset, meta: seq<MetaChannel>, cs: Channels)
    requires WellBuilt(off, cs)
    ensures forall d :: d in FinalizeAll(meta, cs) ==> WellLoaded(d)
    decreases |meta|
  {
    hide Invariant, Stored, Finalize, WellLoaded, Shadowed;
    if meta != [] {
      FinalizeAllWell(off, meta[1..], cs);
      FreshInvariant(off, meta[0].dt);
      FreshStored(meta[0].dt);
      var c := BuilderOf(meta, cs);
      if c.Some? && Finalize(meta[0].index, c.value).Some? {
        FinalizedWell(off, meta[0].index, c.value);
      }
    }
  }

  /** Every channel of every successful load is well formed, for OSF4 and OSF5, with or without CRCs. */
  lemma {:induction false} LoadedIsWell(off: Offset, meta: seq<MetaChannel>, cfg: Config, data: bytes)
    requires OffsetLaw(off) && Load(off, meta, cfg, data).Ok?
    ensures forall d :: d in Load(off, meta, cfg, data).value ==> WellLoaded(d)
  {
    hide Items, Build, Seed, FinalizeAll, WellLoaded, WellBuilt, TypedItems;
    ItemsTyped(cfg, data);
    SeedWell(off, meta);
    BuildWell(off, Seed(meta), Items(cfg, data));
    FinalizeAllWell(off, meta, Build(off, Seed(meta), Items(cfg, data)).value);
  }

  /**
   Load, copy, write, load: for any loaded file whose copy is accepted and written,
   the second load gives the first one's channels with their non-empty segments, if
   and only if the copy puts no samples on channel 0xFFFE.
   */
  lemma {:induction false} ReloadedCopy(off: Offset, meta: seq<MetaChannel>, cfg: Config, data: bytes, mgr: seq<Loaded>,
                                        bw: BlockFile, capture: bool)
    requires OffsetLaw(off) && Load(off, meta, cfg, data).Ok? && |mgr| == |Load(off, meta, cfg, data).value|
    requires forall i :: 0 <= i < |mgr| ==> mgr[i].channel == Load(off, meta, cfg, data).value[i]
    ensures forall l :: l in mgr ==> WellLoaded(l.channel)
    ensures FromManager(NEW_WRITER, mgr) == Ok(bw) && |bw.channels| == |bw.data| && WriteError(bw).None? ==>
      && ValidWriter(bw) && |bw.channels| == |mgr| <= 0xFFFF
      && (Load(off, MetaOf(BumpedDefs(bw)), ReaderOfFile(bw, capture), DataSection(bw)) == Ok(CopiedChannels(mgr))
          <==> |mgr| < 0xFFFF || StoredValues(mgr[0xFFFE].channel) == [])
  {
    hide Load, WellLoaded, FromManager, WriteError, ValidWriter, BumpedDefs, ReaderOfFile, DataSection, MetaOf,
         CopiedChannels, StoredValues;
    LoadedIsWell(off, meta, cfg, data);
    forall l | l in mgr
      ensures WellLoaded(l.channel)
    {
      var i :| 0 <= i < |mgr| && mgr[i] == l;
      assert Load(off, meta, cfg, data).value[i] in Load(off, meta, cfg, data).value;
    }
    if FromManager(NEW_WRITER, mgr) == Ok(bw) && |bw.channels| == |bw.data| && WriteError(bw).None? {
      CopyPreserves(off, mgr, bw, capture);
    }
  }
}
