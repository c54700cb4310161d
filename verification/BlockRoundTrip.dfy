/**
 What the block writer's files mean: write and load give back the accumulated
 channels, the length-field widening fails in one documented window only, and
 copying a loaded file preserves every channel that holds samples.
 */
module BlockRoundTrip {
  import opened Bytes
  import opened OsfTypes
  import opened Payload
  import opened Frame
  import opened BlockStream
  import opened Codec
  import opened Builder
  import opened Loader
  import opened Chunking
  import opened StreamingSpec
  import opened CrashSafety
  import opened BlockSpec

  datatype BlockFile = BlockFile(channels: seq<ChannelDef>, data: seq<ChannelData>, integrity: IntegrityProfile)

  function LargestSample(values: seq<bytes>): (m: nat)
    ensures forall v :: v in values ==> |v| <= m
    ensures values == [] ==> m == 0
    ensures values != [] ==> exists v :: v in values && |v| == m
  {
    if values == [] then 0
    else
      var m := LargestSample(values[1..]);
      assert values == [values[0]] + values[1..];
      if |values[0]| >= m then |values[0]| else m
  }

  /** Widen the length field of a string or binary channel whose largest sample would not fit two bytes. */
  function Bumped(def: ChannelDef, cd: ChannelData): ChannelDef {
    if def.sov == 4 || !cd.kind.VariableKind? then def
    else if VARIABLE_BLOCK_OVERHEAD_BYTES + LargestSample(cd.values) > MaxPayloadForSov(2) then def.(sov := 4)
    else def
  }

  function Autobump(defs: seq<ChannelDef>, data: seq<ChannelData>): (r: seq<ChannelDef>)
    requires |defs| == |data|
    ensures |r| == |defs|
  {
    seq(|defs|, i requires 0 <= i < |defs| => Bumped(defs[i], data[i]))
  }

  predicate ValidWriter(bw: BlockFile) {
    && |bw.data| == |bw.channels| <= 0xFFFF
    && forall i :: 0 <= i < |bw.channels| ==>
         && IsSov(bw.channels[i].sov) && !bw.channels[i].dataType.Unsupported?
         && bw.data[i].dt == bw.channels[i].dataType && ValidData(bw.data[i])
  }

  /** The blocks of channels `i..`, in channel order. */
  function EmitFrom(defs: seq<ChannelDef>, data: seq<ChannelData>, frameCrc: bool, i: nat): seq<Block>
    requires |defs| == |data| <= 0xFFFF && i <= |data|
    requires forall cd :: cd in data ==> ValidData(cd)
    decreases |data| - i
  {
    if i == |data| then []
    else Blocks(i, EmitKinds(data[i], defs[i].sov, frameCrc)) + EmitFrom(defs, data, frameCrc, i + 1)
  }

  function FrameCrc(bw: BlockFile): bool { bw.integrity.Crc32cLevel? }

  function BumpedDefs(bw: BlockFile): (r: seq<ChannelDef>)
    requires |bw.channels| == |bw.data|
    ensures |r| == |bw.channels|
  {
    Autobump(bw.channels, bw.data)
  }

  /** A reader of the file, by the metablock that is written. */
  function ReaderOfFile(bw: BlockFile, capture: bool): Config
    requires |bw.channels| == |bw.data| <= 0xFFFF
  {
    Config(ReaderChannels(MetaOf(BumpedDefs(bw))), false, if FrameCrc(bw) then Crc32cLevel else NoIntegrity, capture)
  }

  /** writeTo refuses: no channels, signing, or a sample beyond capacity. */
  function WriteError(bw: BlockFile): Option<Error>
    requires |bw.channels| == |bw.data|
  {
    if bw.channels == [] || bw.integrity.Ed25519Level? then Some(InvalidArgument)
    else if exists i :: 0 <= i < |bw.data| && OverCapacity(bw.data[i], BumpedDefs(bw)[i].sov, FrameCrc(bw))
         then Some(InvalidBlock)
    else None
  }

  function AllBlocks(bw: BlockFile): seq<Block>
    requires ValidWriter(bw)
  {
    EmitFrom(BumpedDefs(bw), bw.data, FrameCrc(bw), 0)
  }

  // ---------------------------------------------------------------------
  // Autobump.
  // ---------------------------------------------------------------------

  /**
   With CRCs off, a channel whose samples fit a four-byte length never fails the
   capacity check. With CRCs on it fails exactly when the declared width is two
   and the largest sample is 65523 to 65526 bytes: the test that widens the field
   forgets the four bytes of the CRC.
   */
  lemma {:induction false} AutobumpExact(def: ChannelDef, cd: ChannelData, frameCrc: bool)
    requires IsSov(def.sov) && ValidData(cd) && cd.kind.VariableKind?
    requires !OverCapacity(cd, 4, frameCrc)
    ensures OverCapacity(cd, Bumped(def, cd).sov, frameCrc)
       <==> frameCrc && def.sov == 2 && 65523 <= LargestSample(cd.values) <= 65526
  {
    var m := LargestSample(cd.values);
    var v :| v in cd.values && |v| == m;
    assert forall s :: OverCapacity(cd, s, frameCrc) <==> m > VariableSampleCapacity(s, frameCrc);
  }

  // ---------------------------------------------------------------------
  // Round trip.
  // ---------------------------------------------------------------------

  /** A channel as a load hands it out. */
  function LoadedChannel(i: u16, cd: ChannelData): DataChannel {
    match cd.kind
    case EmptyKind => if IsVariable(cd.dt) then VariableChannel(i, cd.dt, [], [])
      else EquidistantChannel(i, cd.dt, [], [])
    case EquidistantKind => EquidistantChannel(i, cd.dt, FlatSamples(cd.segments), Layout(cd.segments, 0))
    case TimestampedKind => TimestampedChannel(i, cd.dt, cd.times, cd.values)
    case VariableKind => VariableChannel(i, cd.dt, cd.times, cd.values)
  }

  lemma ExpectedFinalizes(i: u16, cd: ChannelData, c: Channel)
    requires ValidData(cd) && !cd.dt.Unsupported? && c.dt == cd.dt && c.state == ExpectedState(cd)
    ensures Finalize(i, c) == Some(LoadedChannel(i, cd))
  {
  }

  lemma {:induction false} ProjectBlocks(ci: u16, ks: seq<BlockKind>, k: u16)
    ensures Project(Oks(Blocks(ci, ks)), k) == if k == ci then ks else []
    decreases |ks|
  {
    var items := Oks(Blocks(ci, ks));
    if ks == [] {
      assert items == [];
    } else {
      assert items[0] == Ok(Block(ci, ks[0]));
      assert items[1..] == Oks(Blocks(ci, ks[1..]));
      ProjectBlocks(ci, ks[1..], k);
    }
  }

  lemma {:induction false} ProjectEmitted(defs: seq<ChannelDef>, data: seq<ChannelData>, frameCrc: bool, i: nat, k: u16)
    requires |defs| == |data| <= 0xFFFF && i <= |data|
    requires forall cd :: cd in data ==> ValidData(cd)
    ensures Project(Oks(EmitFrom(defs, data, frameCrc, i)), k)
         == if i <= k < |data| then EmitKinds(data[k], defs[k].sov, frameCrc) else []
    decreases |data| - i
  {
    hide EmitKinds, ValidData, Project;
    if i < |data| {
      var (a, b) := (Blocks(i, EmitKinds(data[i], defs[i].sov, frameCrc)), EmitFrom(defs, data, frameCrc, i + 1));
      OksConcat(a, b);
      ProjectConcat(Oks(a), Oks(b), k);
      ProjectBlocks(i, EmitKinds(data[i], defs[i].sov, frameCrc), k);
      ProjectEmitted(defs, data, frameCrc, i + 1, k);
    } else {
      assert Project([], k) == [] by { ProjectNone(k); }
      assert Oks(EmitFrom(defs, data, frameCrc, i)) == [];
    }
  }

  /** Every emitted block can be framed, and is of the channel's datatype. */
  lemma KindsFrameable(cd: ChannelData, sov: nat, frameCrc: bool)
    requires IsSov(sov) && ValidData(cd) && !OverCapacity(cd, sov, frameCrc)
    ensures AllFrameable(EmitKinds(cd, sov, frameCrc), sov, frameCrc)
    ensures forall k :: k in EmitKinds(cd, sov, frameCrc) ==> k.dt == cd.dt
  {
    hide EncodePayload, Writable, CallBlocks, PayloadBudget, Typed, FlattenCalls, VariableSampleCapacity, Frameable;
    ValidCalls(cd);
    forall c | c in EmitCalls(cd)
      ensures WithinCapacity(c, sov, frameCrc)
    {
      if cd.kind.VariableKind? {
        var pairs := Zip(cd.times, cd.values);
        var j :| 0 <= j < |pairs| && MessageCalls(cd.dt, pairs)[j] == c;
        assert cd.values[j] in cd.values;
      }
    }
    FlattenFrameable(EmitCalls(cd), cd.dt, sov, frameCrc);
  }

  lemma {:induction false} FlattenFrameable(calls: seq<Call>, dt: DataType, sov: nat, frameCrc: bool)
    requires IsSov(sov)
    requires forall c :: c in calls ==>
      Typed(c) && Count(c) > 0 && c.dt == dt && (Width(c.dt) > 0 || c.WriteVariable?)
        && WithinCapacity(c, sov, frameCrc)
    ensures AllFrameable(FlattenCalls(calls, sov, frameCrc), sov, frameCrc)
    ensures forall k :: k in FlattenCalls(calls, sov, frameCrc) ==> k.dt == dt
    decreases |calls|
  {
    hide EncodePayload, Writable, CallBlocks, PayloadBudget, Typed, WithinCapacity;
    if calls != [] {
      assert calls[0] in calls && forall c :: c in calls[1..] ==> c in calls;
      CallBlocksFit(calls[0], sov, frameCrc);
      FlattenFrameable(calls[1..], dt, sov, frameCrc);
    }
  }

  // ---------------------------------------------------------------------
  // The data section, as the writer lays it out.
  // ---------------------------------------------------------------------

  /** No sample of the channels from `i` on is beyond capacity. */
  predicate WithinFrom(bw: BlockFile, i: nat)
    requires |bw.channels| == |bw.data| && i <= |bw.data|
  {
    forall j :: i <= j < |bw.data| ==> !OverCapacity(bw.data[j], BumpedDefs(bw)[j].sov, FrameCrc(bw))
  }

  function ChannelKinds(bw: BlockFile, i: nat): seq<BlockKind>
    requires ValidWriter(bw) && i < |bw.data|
  {
    EmitKinds(bw.data[i], BumpedDefs(bw)[i].sov, FrameCrc(bw))
  }

  /** The blocks of channel `i`, as bytes. */
  function ChannelBytes(bw: BlockFile, i: nat): bytes
    requires ValidWriter(bw) && i < |bw.data| && !OverCapacity(bw.data[i], BumpedDefs(bw)[i].sov, FrameCrc(bw))
  {
    hide EmitKinds, OverCapacity;
    KindsFrameable(bw.data[i], BumpedDefs(bw)[i].sov, FrameCrc(bw));
    BytesOf(i, BumpedDefs(bw)[i].sov, FrameCrc(bw), ChannelKinds(bw, i))
  }

  /** The bytes of channels `i..`, in channel order. */
  function SectionFrom(bw: BlockFile, i: nat): bytes
    requires ValidWriter(bw) && i <= |bw.data| && WithinFrom(bw, i)
    decreases |bw.data| - i
  {
    hide ChannelBytes, OverCapacity;
    if i == |bw.data| then [] else ChannelBytes(bw, i) + SectionFrom(bw, i + 1)
  }

  /** The data section of the file. */
  function DataSection(bw: BlockFile): bytes
    requires ValidWriter(bw) && WriteError(bw).None?
  {
    SectionFrom(bw, 0)
  }

  // ---------------------------------------------------------------------
  // Reading it back.
  // ---------------------------------------------------------------------

  /** No sample sits on the index that readers take for signatures. */
  predicate AvoidsSignatureIndex(bw: BlockFile)
    requires |bw.data| == |bw.channels|
  {
    |bw.channels| <= 0xFFFE || bw.data[0xFFFE].kind.EmptyKind?
  }

  /** A channel's blocks, framed by the writer, are what the reader of the file decodes. */
  lemma {:induction false} BytesAgree(cfg: Config, ci: u16, sov: nat, frameCrc: bool, ks: seq<BlockKind>, dt: DataType)
    requires AllFrameable(ks, sov, frameCrc) && (forall k :: k in ks ==> k.dt == dt)
    requires ks != [] ==> ci < 0xFFFE
    requires ci in cfg.channels && cfg.channels[ci] == ChannelInfo(dt, sov) && cfg.integrity.NoIntegrity? == !frameCrc
    ensures AllFit(cfg, Blocks(ci, ks)) && EncodeAll(cfg, Blocks(ci, ks)) == BytesOf(ci, sov, frameCrc, ks)
    decreases |ks|
  {
    hide Frameable, FrameBytes, EncodeBlock, Fits, EncodeAll, BytesOf;
    if ks == [] {
      assert Blocks(ci, ks) == [];
      EncodeNothing(cfg);
      NoBytes(ci, sov, frameCrc);
    } else {
      assert ks[0] in ks && forall k :: k in ks[1..] ==> k in ks;
      FrameBytesAgree(cfg, ci, ks[0]);
      BytesAgree(cfg, ci, sov, frameCrc, ks[1..], dt);
      BlocksHead(cfg, ci, ks);
      BytesHead(ci, sov, frameCrc, ks);
    }
  }

  lemma NoBytes(ci: u16, sov: nat, frameCrc: bool)
    ensures BytesOf(ci, sov, frameCrc, []) == []
  {
  }

  lemma {:induction false} BytesHead(ci: u16, sov: nat, frameCrc: bool, ks: seq<BlockKind>)
    requires ks != [] && AllFrameable(ks, sov, frameCrc)
    ensures Frameable(ks[0], sov, frameCrc) && AllFrameable(ks[1..], sov, frameCrc)
    ensures BytesOf(ci, sov, frameCrc, ks) == FrameBytes(ci, sov, frameCrc, ks[0]) + BytesOf(ci, sov, frameCrc, ks[1..])
  {
    hide Frameable, FrameBytes;
    assert ks[0] in ks && forall k :: k in ks[1..] ==> k in ks;
  }

  lemma {:induction false} BlocksHead(cfg: Config, ci: u16, ks: seq<BlockKind>)
    requires ks != [] && Fits(cfg, Block(ci, ks[0])) && AllFit(cfg, Blocks(ci, ks[1..]))
    ensures AllFit(cfg, Blocks(ci, ks))
    ensures EncodeAll(cfg, Blocks(ci, ks)) == EncodeBlock(cfg, Block(ci, ks[0])) + EncodeAll(cfg, Blocks(ci, ks[1..]))
  {
    hide EncodeBlock, Fits, EncodeAll;
    var bs := Blocks(ci, ks);
    assert bs[0] == Block(ci, ks[0]) && bs[1..] == Blocks(ci, ks[1..]);
    assert forall j :: 0 < j < |bs| ==> bs[j] == Blocks(ci, ks[1..])[j - 1];
    EncodeAllHead(cfg, bs);
  }

  /** What the reader of the file knows of channel `i`. */
  lemma FileChannel(bw: BlockFile, capture: bool, i: nat)
    requires ValidWriter(bw) && i < |bw.data| && !bw.integrity.Ed25519Level?
    ensures var cfg := ReaderOfFile(bw, capture);
            && i in cfg.channels && cfg.channels[i] == ChannelInfo(bw.data[i].dt, BumpedDefs(bw)[i].sov)
            && cfg.integrity.NoIntegrity? == !FrameCrc(bw)
    ensures IsSov(BumpedDefs(bw)[i].sov) && ValidData(bw.data[i])
  {
    hide Seed, ReaderChannels, MetaOf, Bumped, ValidData;
    MetaAt(BumpedDefs(bw), i);
    BumpKeepsType(bw, i);
  }

  lemma ChannelAgrees(bw: BlockFile, capture: bool, i: nat)
    requires ValidWriter(bw) && i < |bw.data| && !bw.integrity.Ed25519Level? && AvoidsSignatureIndex(bw)
    requires !OverCapacity(bw.data[i], BumpedDefs(bw)[i].sov, FrameCrc(bw))
    ensures var bs := Blocks(i, ChannelKinds(bw, i));
            AllFit(ReaderOfFile(bw, capture), bs) && EncodeAll(ReaderOfFile(bw, capture), bs) == ChannelBytes(bw, i)
  {
    FileChannel(bw, capture, i);
    if i == 0xFFFE {
      assert ChannelKinds(bw, i) == [];
    }
    hide EmitKinds, OverCapacity, ReaderOfFile, Bumped, ValidData, AllFrameable, BytesOf, AllFit, EncodeAll, Blocks;
    KindsFrameable(bw.data[i], BumpedDefs(bw)[i].sov, FrameCrc(bw));
    BytesAgree(ReaderOfFile(bw, capture), i, BumpedDefs(bw)[i].sov, FrameCrc(bw), ChannelKinds(bw, i), bw.data[i].dt);
  }

  lemma {:induction false} SectionAgrees(bw: BlockFile, capture: bool, i: nat)
    requires ValidWriter(bw) && i <= |bw.data| && !bw.integrity.Ed25519Level? && AvoidsSignatureIndex(bw)
             && WithinFrom(bw, i)
    ensures var bs := EmitFrom(BumpedDefs(bw), bw.data, FrameCrc(bw), i);
            AllFit(ReaderOfFile(bw, capture), bs) && EncodeAll(ReaderOfFile(bw, capture), bs) == SectionFrom(bw, i)
    decreases |bw.data| - i
  {
    hide EmitKinds, OverCapacity, ReaderOfFile, Bumped, ValidData, ChannelBytes, AllFit, EncodeAll,
         AvoidsSignatureIndex;
    var cfg := ReaderOfFile(bw, capture);
    if i == |bw.data| {
      EncodeNothing(cfg);
      NothingFits(cfg);
    } else {
      ChannelAgrees(bw, capture, i);
      SectionAgrees(bw, capture, i + 1);
      EncodeAllConcat(cfg, Blocks(i, ChannelKinds(bw, i)), EmitFrom(BumpedDefs(bw), bw.data, FrameCrc(bw), i + 1));
    }
  }

  lemma NothingFits(cfg: Config)
    ensures AllFit(cfg, [])
  {
  }

  lemma MetaAt(defs: seq<ChannelDef>, j: nat)
    requires j < |defs| <= 0xFFFF
    ensures var meta := MetaOf(defs);
            && DistinctIndices(meta) && meta[j] == MetaChannel(j, defs[j].dataType, defs[j].sov)
            && j in Seed(meta) && Seed(meta)[j] == Fresh(defs[j].dataType)
            && j in ReaderChannels(meta) && ReaderChannels(meta)[j] == ChannelInfo(defs[j].dataType, defs[j].sov)
  {
    hide Seed, ReaderChannels;
    SeedAt(MetaOf(defs), j);
  }

  lemma SeedIndex(defs: seq<ChannelDef>, k: u16)
    requires |defs| <= 0xFFFF
    ensures k in Seed(MetaOf(defs)) <==> k < |defs|
  {
    hide Seed, ReaderChannels;
    SeedKeys(MetaOf(defs), k);
    if k < |defs| {
      assert MetaOf(defs)[k].index == k;
    }
  }

  /** What each channel's builder ends up with. */
  ghost function BuiltChannels(off: Offset, bw: BlockFile): (cs: Channels)
    requires ValidWriter(bw)
  {
    var defs := BumpedDefs(bw);
    map k | k in Seed(MetaOf(defs)) ::
      if k < |bw.data| then
        var r := Fold(off, Fresh(bw.data[k].dt), EmitKinds(bw.data[k], defs[k].sov, FrameCrc(bw)));
        if r.Ok? then r.value else Fresh(bw.data[k].dt)
      else Fresh(Unsupported)
  }

  lemma EmittedBuilds(off: Offset, bw: BlockFile)
    requires ValidWriter(bw) && AvoidsSignatureIndex(bw)
    ensures Build(off, Seed(MetaOf(BumpedDefs(bw))), Oks(AllBlocks(bw))) == Ok(BuiltChannels(off, bw))
    ensures forall k: u16 :: k < |bw.data| ==>
      && k in BuiltChannels(off, bw)
      && BuiltChannels(off, bw)[k].dt == bw.data[k].dt && BuiltChannels(off, bw)[k].state == ExpectedState(bw.data[k])
  {
    hide Build, Seed, EmitFrom, EmitKinds, ValidData, ExpectedState, Fold, Project, MetaOf, Autobump;
    var defs := BumpedDefs(bw);
    var seed := Seed(MetaOf(defs));
    var items := Oks(AllBlocks(bw));
    var out := BuiltChannels(off, bw);
    forall k: u16 | k < |bw.data|
      ensures k in seed && seed[k] == Fresh(bw.data[k].dt)
      ensures out[k].dt == bw.data[k].dt && out[k].state == ExpectedState(bw.data[k])
      ensures Fold(off, seed[k], Project(items, k)) == Ok(out[k])
      ensures k == SIGNATURE_CHANNEL_INDEX ==> out[k] == seed[k]
    {
      MetaAt(defs, k);
      assert defs[k].dataType == bw.data[k].dt by { BumpKeepsType(bw, k); }
      EmittedFolds(off, bw.data[k], defs[k].sov, FrameCrc(bw));
      ProjectEmitted(defs, bw.data, FrameCrc(bw), 0, k);
      if k == SIGNATURE_CHANNEL_INDEX {
        NothingEmitted(off, bw.data[k], defs[k].sov, FrameCrc(bw));
      }
    }
    forall k | k in seed
      ensures k < |bw.data|
    {
      SeedIndex(defs, k);
    }
    EmittedKnown(bw);
    PerChannelBuilds(off, seed, items, out);
  }

  lemma NothingEmitted(off: Offset, cd: ChannelData, sov: nat, frameCrc: bool)
    requires ValidData(cd) && cd.kind.EmptyKind?
    ensures EmitKinds(cd, sov, frameCrc) == []
            && Fold(off, Fresh(cd.dt), EmitKinds(cd, sov, frameCrc)) == Ok(Fresh(cd.dt))
  {
    assert FlattenCalls([], sov, frameCrc) == [];
  }

  lemma BumpKeepsType(bw: BlockFile, k: nat)
    requires ValidWriter(bw) && k < |bw.channels|
    ensures BumpedDefs(bw)[k].dataType == bw.data[k].dt && IsSov(BumpedDefs(bw)[k].sov)
  {
  }

  lemma {:induction false} EmittedIndices(defs: seq<ChannelDef>, data: seq<ChannelData>, frameCrc: bool, i: nat)
    requires |defs| == |data| <= 0xFFFF && i <= |data|
    requires forall cd :: cd in data ==> ValidData(cd)
    ensures forall b :: b in EmitFrom(defs, data, frameCrc, i) ==> b.channelIndex < |data|
    decreases |data| - i
  {
    hide EmitKinds, ValidData;
    if i < |data| {
      EmittedIndices(defs, data, frameCrc, i + 1);
    }
  }

  lemma EmittedKnown(bw: BlockFile)
    requires ValidWriter(bw)
    ensures Clean(Oks(AllBlocks(bw)), Seed(MetaOf(BumpedDefs(bw))).Keys)
  {
    hide EmitFrom, ValidData, Seed, MetaOf, Autobump;
    var defs := BumpedDefs(bw);
    EmittedIndices(defs, bw.data, FrameCrc(bw), 0);
    forall r | r in Oks(AllBlocks(bw))
      ensures r.Ok? && r.value.channelIndex in Seed(MetaOf(defs)).Keys
    {
      SeedIndex(defs, r.value.channelIndex);
    }
  }

  lemma {:induction false} FinalizeFrom(bw: BlockFile, cs: Channels, i: nat)
    requires ValidWriter(bw) && i <= |bw.data|
    requires forall k: u16 :: k < |bw.data| ==>
      k in cs && cs[k].dt == bw.data[k].dt && cs[k].state == ExpectedState(bw.data[k])
    ensures FinalizeAll(MetaOf(BumpedDefs(bw))[i..], cs) == LoadedFrom(bw, i)
    decreases |bw.data| - i
  {
    hide ValidData, ExpectedState, Finalize;
    var meta := MetaOf(BumpedDefs(bw));
    if i < |bw.data| {
      assert meta[i..][1..] == meta[i + 1..];
      assert meta[i].index == i;
      ExpectedFinalizes(i, bw.data[i], cs[i]);
      FinalizeFrom(bw, cs, i + 1);
    }
  }

  function LoadedFrom(bw: BlockFile, i: nat): seq<DataChannel>
    requires |bw.data| <= 0xFFFF && i <= |bw.data|
    decreases |bw.data| - i
  {
    if i == |bw.data| then [] else [LoadedChannel(i, bw.data[i])] + LoadedFrom(bw, i + 1)
  }

  /** The channels of the file, one per declared channel, in order. */
  lemma {:induction false} LoadedAt(bw: BlockFile, i: nat, k: nat)
    requires |bw.data| <= 0xFFFF && i <= k < |bw.data|
    ensures |LoadedFrom(bw, i)| == |bw.data| - i && LoadedFrom(bw, i)[k - i] == LoadedChannel(k, bw.data[k])
    decreases |bw.data| - i
  {
    if i < k {
      LoadedAt(bw, i + 1, k);
    } else if i + 1 < |bw.data| {
      LoadedAt(bw, i + 1, i + 1);
    }
  }

  lemma ReadsAsAccumulated(off: Offset, bw: BlockFile, capture: bool)
    requires ValidWriter(bw) && WriteError(bw).None? && AvoidsSignatureIndex(bw)
    ensures Load(off, MetaOf(BumpedDefs(bw)), ReaderOfFile(bw, capture), DataSection(bw)) == Ok(LoadedFrom(bw, 0))
  {
    hide Build, Items, Seed, ReaderChannels, EmitFrom, MetaOf, Autobump, EncodeAll, SectionFrom, FinalizeAll,
         BuiltChannels, ExpectedState, ValidData, LoadedFrom, OverCapacity;
    SectionAgrees(bw, capture, 0);
    AllReadBack(ReaderOfFile(bw, capture), AllBlocks(bw));
    EmittedBuilds(off, bw);
    FinalizeFrom(bw, BuiltChannels(off, bw), 0);
    var meta := MetaOf(BumpedDefs(bw));
    assert meta[0..] == meta;
  }

  /** Whatever a reader makes of the bytes, samples on the signature index do not come back. */
  lemma LosesSignatureIndex(off: Offset, bw: BlockFile, cfg: Config, data: bytes)
    requires ValidWriter(bw) && !AvoidsSignatureIndex(bw)
    ensures Load(off, MetaOf(BumpedDefs(bw)), cfg, data) != Ok(LoadedFrom(bw, 0))
  {
    hide Load, MetaOf, LoadedFrom, ValidData;
    if Load(off, MetaOf(BumpedDefs(bw)), cfg, data) == Ok(LoadedFrom(bw, 0)) {
      LoadedAt(bw, 0, 0xFFFE);
      var d := LoadedFrom(bw, 0)[0xFFFE];
      SignatureIndexIsEmpty(off, MetaOf(BumpedDefs(bw)), cfg, data, d);
      HoldsSamples(0xFFFE, bw.data[0xFFFE]);
      assert false;
    }
  }

  lemma HoldsSamples(i: u16, cd: ChannelData)
    requires ValidData(cd)
    ensures LoadedChannel(i, cd).index == i
    ensures !cd.kind.EmptyKind? ==> StoredValues(LoadedChannel(i, cd)) != []
  {
    if cd.kind.EquidistantKind? {
      assert cd.segments[0] in cd.segments;
    }
  }

  /**
   Write and load: whenever writeTo succeeds, the file loads without error into one
   channel per declared channel holding exactly what the accepted `add*` calls put
   there (segments with start, rate, samples and boundaries, timestamps and values,
   strings and binaries; with or without CRCs, for either length-field width), if
   and only if no sample was put on channel 0xFFFE, which takes 0xFFFF channels.
   */
  lemma {:induction false} WriteLoadRoundTrip(off: Offset, bw: BlockFile, capture: bool)
    requires ValidWriter(bw) && WriteError(bw).None?
    ensures Load(off, MetaOf(BumpedDefs(bw)), ReaderOfFile(bw, capture), DataSection(bw)) == Ok(LoadedFrom(bw, 0))
       <==> |bw.channels| < 0xFFFF || bw.data[0xFFFE].kind.EmptyKind?
  {
    hide Load, MetaOf, LoadedFrom, ValidData, ReaderOfFile, DataSection, WriteError;
    if AvoidsSignatureIndex(bw) {
      ReadsAsAccumulated(off, bw, capture);
    } else {
      LosesSignatureIndex(off, bw, ReaderOfFile(bw, capture), DataSection(bw));
    }
  }

  // ---------------------------------------------------------------------
  // Every run of public calls.
  // ---------------------------------------------------------------------

  /** addChannel of the block writer. */
  function AddDef(bw: BlockFile, def: ChannelDef): Result<BlockFile> {
    if !(def.sov == 2 || def.sov == 4) || def.dataType.Unsupported? || !def.shapeSupported || |bw.channels| >= 0xFFFF
    then Err(InvalidArgument)
    else Ok(bw.(channels := bw.channels + [def], data := bw.data + [EmptyData(def.dataType)]))
  }

  datatype WriterCall = DefineChannel(def: ChannelDef) | AddData(call: AddCall)

  predicate TypedWriterCall(c: WriterCall) {
    c.AddData? ==> TypedAdd(c.call)
  }

  /** The writer after one public call, accepted or refused. */
  function AfterCall(bw: BlockFile, c: WriterCall): BlockFile {
    match c
    case DefineChannel(def) => if AddDef(bw, def).Ok? then AddDef(bw, def).value else bw
    case AddData(call) => bw.(data := Add(bw.data, call).0)
  }

  function AfterCalls(bw: BlockFile, cs: seq<WriterCall>): BlockFile
    decreases |cs|
  {
    if cs == [] then bw else AfterCalls(AfterCall(bw, cs[0]), cs[1..])
  }

  lemma AfterCallValid(bw: BlockFile, c: WriterCall)
    requires ValidWriter(bw) && TypedWriterCall(c)
    ensures ValidWriter(AfterCall(bw, c))
  {
    match c
    case DefineChannel(def) =>
    case AddData(call) =>
      hide ValidData, TypedAdd, Add;
      AddKeepsValid(bw.data, call);
  }

  /** So everything proved of valid writers holds of every writer the API can build, whatever the order of its calls. */
  lemma {:induction false} ReachableWriterValid(bw: BlockFile, cs: seq<WriterCall>)
    requires ValidWriter(bw) && forall c :: c in cs ==> TypedWriterCall(c)
    ensures ValidWriter(AfterCalls(bw, cs))
    decreases |cs|
  {
    hide ValidWriter, AfterCall, TypedWriterCall;
    if cs != [] {
      AfterCallValid(bw, cs[0]);
      ReachableWriterValid(AfterCall(bw, cs[0]), cs[1..]);
    }
  }

  const NEW_WRITER := BlockFile([], [], NoIntegrity)

  lemma NewWriterValid()
    ensures ValidWriter(NEW_WRITER)
  {
  }

  // ---------------------------------------------------------------------
  // A file that loses a sample.
  // ---------------------------------------------------------------------

  const PLAIN: ChannelDef := ChannelDef(Int32, 2, true)

  /** Defining the same plain channel `n` times. */
  function Definitions(n: nat): seq<WriterCall> {
    if n == 0 then [] else Definitions(n - 1) + [DefineChannel(PLAIN)]
  }

  function PlainWriter(n: nat): BlockFile {
    BlockFile(seq(n, _ => PLAIN), seq(n, _ => EmptyData(Int32)), NoIntegrity)
  }

  lemma {:induction false} AfterOneMore(bw: BlockFile, cs: seq<WriterCall>, c: WriterCall)
    ensures AfterCalls(bw, cs + [c]) == AfterCall(AfterCalls(bw, cs), c)
    decreases |cs|
  {
    hide AfterCall;
    if cs == [] {
      assert cs + [c] == [c];
      assert AfterCalls(AfterCall(bw, c), [c][1..]) == AfterCall(bw, c);
    } else {
      assert (cs + [c])[1..] == cs[1..] + [c];
      AfterOneMore(AfterCall(bw, cs[0]), cs[1..], c);
    }
  }

  lemma {:induction false} DefinitionsAccepted(n: nat)
    requires n <= 0xFFFF
    ensures AfterCalls(NEW_WRITER, Definitions(n)) == PlainWriter(n)
    ensures n < 0xFFFF ==> AddDef(PlainWriter(n), PLAIN) == Ok(PlainWriter(n + 1))
  {
    assert n < 0xFFFF ==> PlainWriter(n).channels + [PLAIN] == PlainWriter(n + 1).channels;
    assert n < 0xFFFF ==> PlainWriter(n).data + [EmptyData(Int32)] == PlainWriter(n + 1).data;
    if n == 0 {
      assert NEW_WRITER.channels == PlainWriter(0).channels && NEW_WRITER.data == PlainWriter(0).data;
    } else {
      hide PlainWriter;
      DefinitionsAccepted(n - 1);
      AfterOneMore(NEW_WRITER, Definitions(n - 1), DefineChannel(PLAIN));
    }
  }

  /**
   65535 accepted channels and one accepted sample on the last of them: writing
   succeeds, and the sample is not in what loading returns.
   */
  lemma {:induction false} LastChannelLosesSample(off: Offset, capture: bool, p: Stamped)
    requires |p.value| == 4
    ensures var full := AfterCalls(NEW_WRITER, Definitions(0xFFFF));
            var call := AddTimestamped(0xFFFE, Int32, [p]);
            var bw := AfterCall(full, AddData(call));
            && Add(full.data, call).1 == Ok(())
            && ValidWriter(bw) && WriteError(bw).None?
            && Load(off, MetaOf(BumpedDefs(bw)), ReaderOfFile(bw, capture), DataSection(bw)) != Ok(LoadedFrom(bw, 0))
            && LoadedChannel(0xFFFE, bw.data[0xFFFE]) == TimestampedChannel(0xFFFE, Int32, [p.ts], [p.value])
  {
    hide Load, MetaOf, LoadedFrom, ReaderOfFile, DataSection, Definitions, AfterCalls, WriteError, ValidWriter,
         PlainWriter, Add;
    DefinitionsAccepted(0xFFFF);
    var full := PlainWriter(0xFFFF);
    var call := AddTimestamped(0xFFFE, Int32, [p]);
    LastSampleAccepted(full, p);
    PlainValid(full);
    AfterCallValid(full, AddData(call));
    WriteLoadRoundTrip(off, AfterCall(full, AddData(call)), capture);
  }

  lemma LastSampleAccepted(full: BlockFile, p: Stamped)
    requires full == PlainWriter(0xFFFF) && |p.value| == 4
    ensures var call := AddTimestamped(0xFFFE, Int32, [p]);
            var bw := AfterCall(full, AddData(call));
            && Add(full.data, call).1 == Ok(()) && TypedAdd(call)
            && |bw.data| == |bw.channels| == 0xFFFF
            && bw.data[0xFFFE] == ChannelData(TimestampedKind, Int32, [], [p.ts], [p.value])
            && WriteError(bw).None?
  {
    var call := AddTimestamped(0xFFFE, Int32, [p]);
    assert full.data[0xFFFE] == EmptyData(Int32);
    assert Times([p]) == [p.ts] && Payloads([p]) == [p.value];
    assert [] + [p.ts] == [p.ts] && [] + [p.value] == [p.value];
    var bw := AfterCall(full, AddData(call));
    assert forall i :: 0 <= i < 0xFFFE ==> bw.data[i] == EmptyData(Int32);
  }

  lemma PlainValid(bw: BlockFile)
    requires bw == PlainWriter(0xFFFF)
    ensures ValidWriter(bw)
  {
  }
}
