/**
 The block writer as it runs (blockwriter.cpp): `add*` calls grow per-channel
 vectors in place, and writing encodes them chunk by chunk. Proved against
 BlockSpec and BlockRoundTrip.
 */
module BlockWriters {
  import opened Bytes
  import opened OsfTypes
  import opened Payload
  import opened Frame
  import opened Crc32cModel
  import opened BlockStream
  import opened Codec
  import opened Chunking
  import opened StreamingSpec
  import opened BlockSpec
  import opened BlockRoundTrip
  import opened BlockEncode
  import opened StreamingWriters
  import opened ChannelBuilders
  import opened Metablock

  // ---------------------------------------------------------------------
  // Emission.
  // ---------------------------------------------------------------------

  /** Encode one block into the buffer, seal it, append it to the output. */
  method EmitBlock(tables: array2<word>, out: ByteVector, buf: ByteVector, ci: u16, sov: nat, frameCrc: bool,
                   k: BlockKind)
    requires TablesCorrect(tables) && out != buf
    requires Frameable(k, sov, frameCrc)
    modifies out, buf
    ensures out.data == old(out.data) + FrameBytes(ci, sov, frameCrc, k)
  {
    hide TablesCorrect, EncodePayload, FrameOf, Seal, AllValues, AllStampedValues;
    buf.Clear();
    var r: Result<()>;
    match k {
      case StartData(dt, start, rate, samples) => r := EncodeStartData(buf, ci, sov, dt, start, rate, samples);
      case ContinuedData(dt, samples) => r := EncodeContinuedData(buf, ci, sov, dt, samples);
      case AbsTimestampData(dt, pairs) =>
        if IsFixed(dt) {
          r := EncodeAbsTimestampData(buf, ci, sov, dt, pairs);
        } else {
          assert pairs == [pairs[0]];
          r := EncodeAbsTimestampVariable(buf, ci, sov, dt, pairs[0]);
        }
    }
    ghost var f := FrameOf(ci, sov, EncodePayload(k));
    assert buf.data == [] + f == f;
    if frameCrc {
      ApplyFrameCrc(tables, buf, sov);
    }
    out.Append(buf.data);
  }

  lemma {:induction false} BytesOfHead(ci: u16, sov: nat, frameCrc: bool, k: BlockKind, more: seq<BlockKind>)
    requires AllFrameable([k] + more, sov, frameCrc)
    ensures Frameable(k, sov, frameCrc) && AllFrameable(more, sov, frameCrc)
    ensures BytesOf(ci, sov, frameCrc, [k] + more)
            == FrameBytes(ci, sov, frameCrc, k) + BytesOf(ci, sov, frameCrc, more)
  {
    hide Frameable, FrameBytes;
    assert forall m :: m in more ==> m in [k] + more;
    assert k in [k] + more;
    assert ([k] + more)[1..] == more;
  }

  lemma BytesOfNone(ci: u16, sov: nat, frameCrc: bool)
    ensures AllFrameable([], sov, frameCrc) && BytesOf(ci, sov, frameCrc, []) == []
  {
  }

  lemma {:induction false} BytesOfConcat(ci: u16, sov: nat, frameCrc: bool, a: seq<BlockKind>, b: seq<BlockKind>)
    requires AllFrameable(a + b, sov, frameCrc)
    ensures AllFrameable(a, sov, frameCrc) && AllFrameable(b, sov, frameCrc)
    ensures BytesOf(ci, sov, frameCrc, a + b) == BytesOf(ci, sov, frameCrc, a) + BytesOf(ci, sov, frameCrc, b)
    decreases |a|
  {
    hide Frameable, FrameBytes;
    assert forall m :: m in a ==> m in a + b;
    assert forall m :: m in b ==> m in a + b;
    if a == [] {
      assert a + b == b;
    } else {
      assert (a + b)[1..] == a[1..] + b && (a + b)[0] == a[0];
      assert forall m :: m in a[1..] + b ==> m in a + b;
      BytesOfConcat(ci, sov, frameCrc, a[1..], b);
    }
  }

  /** The chunk loop of continued samples. */
  method EmitContinued(tables: array2<word>, out: ByteVector, buf: ByteVector, ci: u16, sov: nat, frameCrc: bool,
                       dt: DataType, samples: seq<bytes>, maxCont: nat)
    requires TablesCorrect(tables) && out != buf && maxCont > 0
    requires AllFrameable(ContinuedChunks(dt, samples, maxCont), sov, frameCrc)
    modifies out, buf
    ensures out.data == old(out.data) + BytesOf(ci, sov, frameCrc, ContinuedChunks(dt, samples, maxCont))
  {
    hide TablesCorrect, ContinuedChunks, BytesOf, FrameBytes, Frameable, AllFrameable;
    var written := 0;
    assert samples[0..] == samples;
    while written < |samples|
      invariant 0 <= written <= |samples|
      invariant AllFrameable(ContinuedChunks(dt, samples[written..], maxCont), sov, frameCrc)
      invariant out.data + BytesOf(ci, sov, frameCrc, ContinuedChunks(dt, samples[written..], maxCont))
             == old(out.data) + BytesOf(ci, sov, frameCrc, ContinuedChunks(dt, samples, maxCont))
    {
      var chunk := Min(|samples| - written, maxCont);
      var k := ContinuedData(dt, samples[written..written + chunk]);
      ghost var more := ContinuedChunks(dt, samples[written + chunk..], maxCont);
      ContinuedChunksStep(dt, samples, written, maxCont);
      BytesOfHead(ci, sov, frameCrc, k, more);
      Associative(out.data, FrameBytes(ci, sov, frameCrc, k), BytesOf(ci, sov, frameCrc, more));
      EmitBlock(tables, out, buf, ci, sov, frameCrc, k);
      written := written + chunk;
    }
    assert samples[written..] == [];
    NoChunks(dt, maxCont);
    BytesOfNone(ci, sov, frameCrc);
  }

  /** One segment: a start block, then continued blocks. */
  method EmitSegment(tables: array2<word>, out: ByteVector, buf: ByteVector, ci: u16, sov: nat, frameCrc: bool,
                     dt: DataType, seg: EqSegment)
    requires TablesCorrect(tables) && out != buf && Width(dt) > 0 && IsSov(sov)
    requires AllFrameable(CallBlocks(StartSegment(0, dt, seg.start, seg.rate, seg.values), sov, frameCrc),
                          sov, frameCrc)
    modifies out, buf
    ensures out.data == old(out.data)
            + BytesOf(ci, sov, frameCrc,
                      CallBlocks(StartSegment(0, dt, seg.start, seg.rate, seg.values), sov, frameCrc))
  {
    hide TablesCorrect, ContinuedChunks, BytesOf, FrameBytes, Frameable, AllFrameable, MaxSamplesPerStartBlock,
         MaxSamplesPerContinuedBlock;
    var maxFirst := MaxSamplesPerStartBlock(Width(dt), sov, frameCrc);
    var maxCont := MaxSamplesPerContinuedBlock(Width(dt), sov, frameCrc);
    var first := Min(|seg.values|, maxFirst);
    var k := StartData(dt, seg.start, seg.rate, seg.values[..first]);
    ghost var more := ContinuedChunks(dt, seg.values[first..], maxCont);
    BytesOfHead(ci, sov, frameCrc, k, more);
    Associative(out.data, FrameBytes(ci, sov, frameCrc, k), BytesOf(ci, sov, frameCrc, more));
    EmitBlock(tables, out, buf, ci, sov, frameCrc, k);
    EmitContinued(tables, out, buf, ci, sov, frameCrc, dt, seg.values[first..], maxCont);
  }

  /** The chunk loop of timestamped samples. */
  method EmitTimestamped(tables: array2<word>, out: ByteVector, buf: ByteVector, ci: u16, sov: nat, frameCrc: bool,
                         dt: DataType, pairs: seq<Stamped>)
    requires TablesCorrect(tables) && out != buf && Width(dt) > 0 && IsSov(sov)
    requires AllFrameable(CallBlocks(WriteTimestamped(0, dt, pairs), sov, frameCrc), sov, frameCrc)
    modifies out, buf
    ensures out.data == old(out.data)
            + BytesOf(ci, sov, frameCrc, CallBlocks(WriteTimestamped(0, dt, pairs), sov, frameCrc))
  {
    hide TablesCorrect, AbsChunks, BytesOf, FrameBytes, Frameable, AllFrameable, MaxSamplesPerTimestampedBlock;
    var maxPer := MaxSamplesPerTimestampedBlock(Width(dt), sov, frameCrc);
    var written := 0;
    assert pairs[0..] == pairs;
    while written < |pairs|
      invariant 0 <= written <= |pairs|
      invariant AllFrameable(AbsChunks(dt, pairs[written..], maxPer), sov, frameCrc)
      invariant out.data + BytesOf(ci, sov, frameCrc, AbsChunks(dt, pairs[written..], maxPer))
             == old(out.data) + BytesOf(ci, sov, frameCrc, AbsChunks(dt, pairs, maxPer))
    {
      var chunk := Min(|pairs| - written, maxPer);
      var k := AbsTimestampData(dt, pairs[written..written + chunk]);
      ghost var more := AbsChunks(dt, pairs[written + chunk..], maxPer);
      AbsChunksStep(dt, pairs, written, maxPer);
      BytesOfHead(ci, sov, frameCrc, k, more);
      Associative(out.data, FrameBytes(ci, sov, frameCrc, k), BytesOf(ci, sov, frameCrc, more));
      EmitBlock(tables, out, buf, ci, sov, frameCrc, k);
      written := written + chunk;
    }
    assert pairs[written..] == [];
    NoChunks(dt, maxPer);
    BytesOfNone(ci, sov, frameCrc);
  }

  /** Emitting the calls from `i` on: one call's frames, then the rest. */
  lemma FlattenFrom(ci: u16, calls: seq<Call>, i: nat, sov: nat, frameCrc: bool)
    requires i < |calls| && forall c :: c in calls ==> Width(c.dt) > 0 || c.WriteVariable?
    requires AllFrameable(FlattenCalls(calls[i..], sov, frameCrc), sov, frameCrc)
    ensures AllFrameable(CallBlocks(calls[i], sov, frameCrc), sov, frameCrc)
            && AllFrameable(FlattenCalls(calls[i + 1..], sov, frameCrc), sov, frameCrc)
    ensures BytesOf(ci, sov, frameCrc, FlattenCalls(calls[i..], sov, frameCrc))
         == BytesOf(ci, sov, frameCrc, CallBlocks(calls[i], sov, frameCrc))
           + BytesOf(ci, sov, frameCrc, FlattenCalls(calls[i + 1..], sov, frameCrc))
  {
    hide CallBlocks, BytesOf, AllFrameable;
    assert calls[i..][1..] == calls[i + 1..];
    BytesOfConcat(ci, sov, frameCrc, CallBlocks(calls[i], sov, frameCrc), FlattenCalls(calls[i + 1..], sov, frameCrc));
  }

  lemma FlattenNone(ci: u16, sov: nat, frameCrc: bool)
    ensures FlattenCalls([], sov, frameCrc) == [] && AllFrameable([], sov, frameCrc)
            && BytesOf(ci, sov, frameCrc, []) == []
  {
    BytesOfNone(ci, sov, frameCrc);
  }

  method EmitSegments(tables: array2<word>, out: ByteVector, buf: ByteVector, ci: u16, sov: nat, frameCrc: bool,
                      dt: DataType, segs: seq<EqSegment>)
    requires TablesCorrect(tables) && out != buf && Width(dt) > 0 && IsSov(sov)
    requires AllFrameable(FlattenCalls(SegmentCalls(dt, segs), sov, frameCrc), sov, frameCrc)
    modifies out, buf
    ensures out.data == old(out.data) + BytesOf(ci, sov, frameCrc, FlattenCalls(SegmentCalls(dt, segs), sov, frameCrc))
  {
    hide TablesCorrect, BytesOf, AllFrameable, CallBlocks, FlattenCalls;
    ghost var calls := SegmentCalls(dt, segs);
    assert calls[0..] == calls;
    for i := 0 to |segs|
      invariant AllFrameable(FlattenCalls(calls[i..], sov, frameCrc), sov, frameCrc)
      invariant out.data + BytesOf(ci, sov, frameCrc, FlattenCalls(calls[i..], sov, frameCrc))
             == old(out.data) + BytesOf(ci, sov, frameCrc, FlattenCalls(calls, sov, frameCrc))
    {
      FlattenFrom(ci, calls, i, sov, frameCrc);
      Associative(out.data, BytesOf(ci, sov, frameCrc, CallBlocks(calls[i], sov, frameCrc)),
                  BytesOf(ci, sov, frameCrc, FlattenCalls(calls[i + 1..], sov, frameCrc)));
      EmitSegment(tables, out, buf, ci, sov, frameCrc, dt, segs[i]);
    }
    assert calls[|segs|..] == [];
    FlattenNone(ci, sov, frameCrc);
  }

  /** A message within capacity is one block that fits. */
  lemma MessageFits(sov: nat, frameCrc: bool, dt: DataType, sample: Stamped)
    requires (dt.String? || dt.Binary?) && IsSov(sov)
    requires |sample.value| <= VariableSampleCapacity(sov, frameCrc)
    ensures Frameable(AbsTimestampData(dt, [sample]), sov, frameCrc)
  {
    hide EncodePayload, Writable, VariableSampleCapacity, PayloadBudget;
    var call := WriteVariable(0, dt, sample);
    CallBlocksFit(call, sov, frameCrc);
    assert CallBlocks(call, sov, frameCrc)[0] == AbsTimestampData(dt, [sample]);
  }

  /** One block per string or binary sample; the first one beyond capacity stops the emission. */
  method EmitMessages(tables: array2<word>, out: ByteVector, buf: ByteVector, ci: u16, sov: nat, frameCrc: bool,
                      cd: ChannelData) returns (r: Result<()>)
    requires TablesCorrect(tables) && out != buf && IsSov(sov) && ValidData(cd) && cd.kind.VariableKind?
    modifies out, buf
    ensures OverCapacity(cd, sov, frameCrc) ==> r == Err(InvalidBlock)
    ensures !OverCapacity(cd, sov, frameCrc) ==>
      && r == Ok(())
      && AllFrameable(EmitKinds(cd, sov, frameCrc), sov, frameCrc)
      && out.data == old(out.data) + BytesOf(ci, sov, frameCrc, EmitKinds(cd, sov, frameCrc))
  {
    hide TablesCorrect, BytesOf, AllFrameable, CallBlocks, FlattenCalls, VariableSampleCapacity, Frameable, FrameBytes,
         Progress, OverCapacity, EmitKinds, ValidData, MessageCalls, Zip, FieldLimit;
    MessageShape(cd);
    var capacity := VariableSampleCapacity(sov, frameCrc);
    ghost var over := OverCapacity(cd, sov, frameCrc);
    MessagesBegin(ci, cd, sov, frameCrc, out.data);
    for i := 0 to |cd.times|
      invariant forall j :: 0 <= j < i ==> |cd.values[j]| <= capacity
      invariant !over ==> Progress(ci, cd, i, sov, frameCrc, old(out.data), out.data)
    {
      if |cd.values[i]| > capacity {
        IsOver(cd, sov, frameCrc, i);
        return Err(InvalidBlock);
      }
      EmitMessage(tables, out, buf, ci, sov, frameCrc, cd, i, old(out.data));
    }
    NotOver(cd, sov, frameCrc);
    MessagesEnd(ci, cd, sov, frameCrc, old(out.data), out.data);
    r := Ok(());
  }

  /** The block of message `i`, which is within capacity. */
  method EmitMessage(tables: array2<word>, out: ByteVector, buf: ByteVector, ci: u16, sov: nat, frameCrc: bool,
                     cd: ChannelData, i: nat, ghost base: bytes)
    requires TablesCorrect(tables) && out != buf && IsSov(sov) && ValidData(cd) && cd.kind.VariableKind?
             && i < |cd.times|
    requires |cd.values[i]| <= VariableSampleCapacity(sov, frameCrc)
    modifies out, buf
    ensures !OverCapacity(cd, sov, frameCrc) && Progress(ci, cd, i, sov, frameCrc, base, old(out.data))
        ==> Progress(ci, cd, i + 1, sov, frameCrc, base, out.data)
  {
    hide TablesCorrect, VariableSampleCapacity, Frameable, FrameBytes, Progress, OverCapacity, AllValues;
    var sample := Stamped(cd.times[i], cd.values[i]);
    MessageFits(sov, frameCrc, cd.dt, sample);
    if Progress(ci, cd, i, sov, frameCrc, base, out.data) {
      MessagesStep(ci, cd, i, sov, frameCrc, base, out.data);
    }
    EmitBlock(tables, out, buf, ci, sov, frameCrc, AbsTimestampData(cd.dt, [sample]));
  }

  lemma MessageShape(cd: ChannelData)
    requires ValidData(cd) && cd.kind.VariableKind?
    ensures |cd.times| == |cd.values| && (cd.dt.String? || cd.dt.Binary?)
    ensures var calls := MessageCalls(cd.dt, Zip(cd.times, cd.values));
            && |calls| == |cd.times|
            && (forall c :: c in calls ==> c.WriteVariable?)
            && forall i :: 0 <= i < |calls| ==> calls[i] == WriteVariable(0, cd.dt, Stamped(cd.times[i], cd.values[i]))
  {
  }

  /** The frames of the first `i` messages have been appended to `base`. */
  ghost predicate Progress(ci: u16, cd: ChannelData, i: nat, sov: nat, frameCrc: bool, base: bytes, now: bytes)
    requires ValidData(cd) && cd.kind.VariableKind? && i <= |cd.times|
  {
    var calls := MessageCalls(cd.dt, Zip(cd.times, cd.values));
    && AllFrameable(FlattenCalls(calls, sov, frameCrc), sov, frameCrc)
    && AllFrameable(FlattenCalls(calls[i..], sov, frameCrc), sov, frameCrc)
    && now + BytesOf(ci, sov, frameCrc, FlattenCalls(calls[i..], sov, frameCrc))
       == base + BytesOf(ci, sov, frameCrc, FlattenCalls(calls, sov, frameCrc))
  }

  lemma MessagesBegin(ci: u16, cd: ChannelData, sov: nat, frameCrc: bool, base: bytes)
    requires IsSov(sov) && ValidData(cd) && cd.kind.VariableKind?
    ensures !OverCapacity(cd, sov, frameCrc) ==> Progress(ci, cd, 0, sov, frameCrc, base, base)
  {
    hide BytesOf, AllFrameable, FlattenCalls, OverCapacity;
    if !OverCapacity(cd, sov, frameCrc) {
      KindsFrameable(cd, sov, frameCrc);
    }
    var calls := MessageCalls(cd.dt, Zip(cd.times, cd.values));
    assert calls[0..] == calls;
  }

  lemma MessagesStep(ci: u16, cd: ChannelData, i: nat, sov: nat, frameCrc: bool, base: bytes, now: bytes)
    requires ValidData(cd) && cd.kind.VariableKind? && i < |cd.times|
    requires Progress(ci, cd, i, sov, frameCrc, base, now)
    ensures var k := AbsTimestampData(cd.dt, [Stamped(cd.times[i], cd.values[i])]);
            && Frameable(k, sov, frameCrc)
            && Progress(ci, cd, i + 1, sov, frameCrc, base, now + FrameBytes(ci, sov, frameCrc, k))
  {
    MessageShape(cd);
    hide BytesOf, AllFrameable, FlattenCalls, CallBlocks, Frameable, FrameBytes, MessageCalls, Zip;
    var calls := MessageCalls(cd.dt, Zip(cd.times, cd.values));
    var k := AbsTimestampData(cd.dt, [Stamped(cd.times[i], cd.values[i])]);
    FlattenFrom(ci, calls, i, sov, frameCrc);
    OneBlock(ci, calls[i], k, sov, frameCrc);
    Associative(now, FrameBytes(ci, sov, frameCrc, k),
      BytesOf(ci, sov, frameCrc, FlattenCalls(calls[i + 1..], sov, frameCrc)));
  }

  lemma MessagesEnd(ci: u16, cd: ChannelData, sov: nat, frameCrc: bool, base: bytes, now: bytes)
    requires ValidData(cd) && cd.kind.VariableKind?
    requires Progress(ci, cd, |cd.times|, sov, frameCrc, base, now)
    ensures AllFrameable(EmitKinds(cd, sov, frameCrc), sov, frameCrc)
    ensures now == base + BytesOf(ci, sov, frameCrc, EmitKinds(cd, sov, frameCrc))
  {
    hide BytesOf, AllFrameable, FlattenCalls, CallBlocks;
    assert MessageCalls(cd.dt, Zip(cd.times, cd.values))[|cd.times|..] == [];
    FlattenNone(ci, sov, frameCrc);
  }

  lemma IsOver(cd: ChannelData, sov: nat, frameCrc: bool, i: nat)
    requires cd.kind.VariableKind? && i < |cd.values| && |cd.values[i]| > VariableSampleCapacity(sov, frameCrc)
    ensures OverCapacity(cd, sov, frameCrc)
  {
    assert cd.values[i] in cd.values;
  }

  lemma OneBlock(ci: u16, call: Call, k: BlockKind, sov: nat, frameCrc: bool)
    requires call.WriteVariable? && k == AbsTimestampData(call.dt, [call.sample])
             && AllFrameable(CallBlocks(call, sov, frameCrc), sov, frameCrc)
    ensures Frameable(k, sov, frameCrc)
            && BytesOf(ci, sov, frameCrc, CallBlocks(call, sov, frameCrc)) == FrameBytes(ci, sov, frameCrc, k)
  {
    hide Frameable, FrameBytes, BytesOf, AllFrameable;
    assert CallBlocks(call, sov, frameCrc) == [k] + [];
    BytesOfHead(ci, sov, frameCrc, k, []);
    BytesOfNone(ci, sov, frameCrc);
  }

  lemma NotOver(cd: ChannelData, sov: nat, frameCrc: bool)
    requires |cd.times| == |cd.values|
    requires forall j :: 0 <= j < |cd.times| ==> |cd.values[j]| <= VariableSampleCapacity(sov, frameCrc)
    ensures !OverCapacity(cd, sov, frameCrc)
  {
  }

  /** All blocks of one channel; a channel without samples has none. */
  method EmitChannel(tables: array2<word>, out: ByteVector, buf: ByteVector, ci: u16, sov: nat, frameCrc: bool,
                     cd: ChannelData) returns (r: Result<()>)
    requires TablesCorrect(tables) && out != buf && IsSov(sov) && ValidData(cd)
    modifies out, buf
    ensures OverCapacity(cd, sov, frameCrc) ==> r == Err(InvalidBlock)
    ensures !OverCapacity(cd, sov, frameCrc) ==>
      && r == Ok(())
      && AllFrameable(EmitKinds(cd, sov, frameCrc), sov, frameCrc)
      && out.data == old(out.data) + BytesOf(ci, sov, frameCrc, EmitKinds(cd, sov, frameCrc))
  {
    hide TablesCorrect, BytesOf, AllFrameable, CallBlocks, FlattenCalls, VariableSampleCapacity;
    if cd.kind.VariableKind? {
      r := EmitMessages(tables, out, buf, ci, sov, frameCrc, cd);
      return;
    }
    assert !OverCapacity(cd, sov, frameCrc);
    KindsFrameable(cd, sov, frameCrc);
    match cd.kind {
      case EquidistantKind => EmitSegments(tables, out, buf, ci, sov, frameCrc, cd.dt, cd.segments);
      case TimestampedKind =>
        FlattenSingle(WriteTimestamped(0, cd.dt, Zip(cd.times, cd.values)), sov, frameCrc);
        EmitTimestamped(tables, out, buf, ci, sov, frameCrc, cd.dt, Zip(cd.times, cd.values));
      case EmptyKind => FlattenNone(ci, sov, frameCrc);
    }
    r := Ok(());
  }

  lemma FlattenSingle(call: Call, sov: nat, frameCrc: bool)
    requires Width(call.dt) > 0 || call.WriteVariable?
    ensures FlattenCalls([call], sov, frameCrc) == CallBlocks(call, sov, frameCrc)
  {
    hide CallBlocks;
    var none := [call][1..];
    assert FlattenCalls(none, sov, frameCrc) == [];
  }

  // ---------------------------------------------------------------------
  // The writer object.
  // ---------------------------------------------------------------------

  /** The metablock text of a channel table, left to the serializer. */
  type Serializer = seq<ChannelDef> -> bytes

  /** The largest of some sample sizes. */
  method LargestOf(values: seq<bytes>) returns (m: nat)
    ensures m == LargestSample(values)
  {
    m := 0;
    for i := 0 to |values|
      invariant forall j :: 0 <= j < i ==> |values[j]| <= m
      invariant m > 0 ==> exists j :: 0 <= j < i && |values[j]| == m
    {
      if |values[i]| > m {
        m := |values[i]|;
      }
    }
    LargestIs(values, m);
  }

  lemma LargestIs(values: seq<bytes>, m: nat)
    requires forall j :: 0 <= j < |values| ==> |values[j]| <= m
    requires m > 0 ==> exists j :: 0 <= j < |values| && |values[j]| == m
    ensures LargestSample(values) == m
  {
    if m > 0 {
      var j :| 0 <= j < |values| && |values[j]| == m;
      assert values[j] in values;
    }
  }

  class BlockWriter {
    var channels: seq<ChannelDef>
    var channelData: seq<ChannelData>
    var integrity: IntegrityProfile
    const tables: array2<word>

    ghost function View(): BlockFile
      reads this
    {
      BlockFile(channels, channelData, integrity)
    }

    ghost predicate Valid()
      reads this, tables
    {
      TablesCorrect(tables) && ValidWriter(View())
    }

    constructor (tables: array2<word>, integrity: IntegrityProfile)
      requires TablesCorrect(tables)
      ensures Valid() && View() == BlockFile([], [], integrity) && this.tables == tables
    {
      channels, channelData, this.integrity := [], [], integrity;
      this.tables := tables;
    }

    method AddChannelDef(def: ChannelDef) returns (r: Result<u16>)
      requires Valid()
      modifies this`channels, this`channelData
      ensures Valid()
      ensures match AddDef(old(View()), def)
              case Err(e) => r == Err(e) && View() == old(View())
              case Ok(bw) => r == Ok(|old(channels)|) && View() == bw
    {
      hide TablesCorrect;
      if (def.sov != 2 && def.sov != 4) || def.dataType.Unsupported? || !def.shapeSupported || |channels| >= 0xFFFF {
        return Err(InvalidArgument);
      }
      r := Ok(|channels|);
      channels := channels + [def];
      channelData := channelData + [EmptyData(def.dataType)];
    }

    /** The checks every `add*` makes once its arguments are sane. */
    method RequireData(ch: u16, kind: Kind, expected: DataType) returns (e: Option<Error>)
      requires Valid()
      ensures e == if ch >= |channelData| then Some(InvalidArgument)
                   else if !channelData[ch].kind.EmptyKind? && channelData[ch].kind != kind then Some(InvalidBlock)
                   else if channelData[ch].dt != expected then Some(DataTypeMismatch)
                   else None
    {
      if ch >= |channels| {
        return Some(InvalidArgument);
      }
      var cd := channelData[ch];
      if !cd.kind.EmptyKind? && cd.kind != kind {
        return Some(InvalidBlock);
      }
      if cd.dt != expected {
        return Some(DataTypeMismatch);
      }
      e := None;
    }

    method AddEquidistantSegment(ch: u16, dt: DataType, start: i64, rate: u64, samples: seq<bytes>)
      returns (r: Result<()>)
      requires Valid() && TypedAdd(AddSegment(ch, dt, start, rate, samples))
      modifies this`channelData
      ensures Valid() && (channelData, r) == Add(old(channelData), AddSegment(ch, dt, start, rate, samples))
    {
      hide TablesCorrect, AllValues;
      AddKeepsWriter(View(), AddSegment(ch, dt, start, rate, samples));
      hide ValidData;
      if |samples| == 0 || !PositiveFiniteRate(rate) {
        return Err(InvalidArgument);
      }
      var refused := RequireData(ch, EquidistantKind, dt);
      if refused.Some? {
        return Err(refused.value);
      }
      var cd := channelData[ch];
      channelData := channelData[
       ch := cd.(kind := EquidistantKind, segments := cd.segments + [EqSegment(start, rate, samples)])];
      r := Ok(());
    }

    /** Numeric and GPS samples. */
    method AddTimestampedSamples(ch: u16, dt: DataType, pairs: seq<Stamped>) returns (r: Result<()>)
      requires Valid() && TypedAdd(AddTimestamped(ch, dt, pairs))
      modifies this`channelData
      ensures Valid() && (channelData, r) == Add(old(channelData), AddTimestamped(ch, dt, pairs))
    {
      hide TablesCorrect, AllStampedValues;
      AddKeepsWriter(View(), AddTimestamped(ch, dt, pairs));
      hide ValidData;
      if |pairs| == 0 {
        return Err(InvalidArgument);
      }
      var refused := RequireData(ch, TimestampedKind, dt);
      if refused.Some? {
        return Err(refused.value);
      }
      var cd := channelData[ch];
      var times, values := ExtendPairs(cd.times, cd.values, pairs);
      channelData := channelData[ch := cd.(kind := TimestampedKind, times := times, values := values)];
      r := Ok(());
    }

    /** Strings or binaries. */
    method AddVariableSamples(ch: u16, dt: DataType, pairs: seq<Stamped>) returns (r: Result<()>)
      requires Valid() && TypedAdd(AddMessages(ch, dt, pairs))
      modifies this`channelData
      ensures Valid() && (channelData, r) == Add(old(channelData), AddMessages(ch, dt, pairs))
    {
      hide TablesCorrect;
      AddKeepsWriter(View(), AddMessages(ch, dt, pairs));
      hide ValidData;
      if |pairs| == 0 {
        return Err(InvalidArgument);
      }
      var refused := RequireData(ch, VariableKind, dt);
      if refused.Some? {
        return Err(refused.value);
      }
      var cd := channelData[ch];
      var times, values := ExtendPairs(cd.times, cd.values, pairs);
      channelData := channelData[ch := cd.(kind := VariableKind, times := times, values := values)];
      r := Ok(());
    }

    /** Widen the length fields that need it, in a copy of the definitions. */
    method AutobumpSizeOfLengthValue(defs0: seq<ChannelDef>) returns (defs: seq<ChannelDef>)
      requires Valid() && |defs0| == |channelData|
      ensures defs == Autobump(defs0, channelData)
    {
      hide TablesCorrect, LargestSample, ValidData;
      defs := defs0;
      for i := 0 to |defs0|
        invariant |defs| == |defs0|
        invariant forall j :: 0 <= j < i ==> defs[j] == Bumped(defs0[j], channelData[j])
        invariant forall j :: i <= j < |defs0| ==> defs[j] == defs0[j]
      {
        var cd := channelData[i];
        if defs[i].sov != 4 && cd.kind.VariableKind? {
          var largest := LargestOf(cd.values);
          if VARIABLE_BLOCK_OVERHEAD_BYTES + largest > MaxPayloadForSov(2) {
            defs := defs[i := defs[i].(sov := 4)];
          }
        }
      }
    }

    /** Header line, metablock, then every channel's blocks in channel order. */
    method WriteTo(out: ByteVector, serialize: Serializer) returns (r: Result<()>)
      requires Valid() && |serialize(BumpedDefs(View()))| < TWO_TO_THE_64
      modifies out
      ensures r.Ok? <==> WriteError(View()).None?
      ensures r.Err? ==> r == Err(WriteError(View()).value)
      ensures r.Ok? ==>
        var body := serialize(BumpedDefs(View()));
        out.data == old(out.data) + LineFor(body, FrameCrc(View())) + body + DataSection(View())
    {
      hide TablesCorrect, ValidData, OverCapacity, Bumped, LineFor, SectionFrom, ChannelBytes, EmitKinds, AllFrameable,
           BytesOf;
      if |channels| == 0 || integrity.Ed25519Level? {
        return Err(InvalidArgument);
      }
      var frameCrc := integrity.Crc32cLevel?;
      var defs := AutobumpSizeOfLengthValue(channels);
      var body := serialize(defs);
      out.Append(LineFor(body, frameCrc));
      out.Append(body);
      ghost var base := out.data;
      ghost var ok := WithinFrom(View(), 0);
      var buf := new ByteVector();
      for i := 0 to |channels|
        invariant fresh(buf)
        invariant forall j :: 0 <= j < i ==> !OverCapacity(channelData[j], defs[j].sov, frameCrc)
        invariant ok ==> WithinFrom(View(), i) && out.data + SectionFrom(View(), i) == base + SectionFrom(View(), 0)
      {
        ChannelReady(View(), i);
        ghost var before := out.data;
        var e := EmitChannel(tables, out, buf, i, defs[i].sov, frameCrc, channelData[i]);
        if e.Err? {
          return Err(InvalidBlock);
        }
        if ok {
          SectionStep(View(), i);
          Associative(before, ChannelBytes(View(), i), SectionFrom(View(), i + 1));
        }
      }
      SectionEnds(View());
      r := Ok(());
    }
  }

  lemma ChannelReady(bw: BlockFile, i: nat)
    requires ValidWriter(bw) && i < |bw.data|
    ensures IsSov(BumpedDefs(bw)[i].sov) && ValidData(bw.data[i])
  {
    hide ValidData, Bumped;
    BumpKeepsType(bw, i);
  }

  lemma SectionStep(bw: BlockFile, i: nat)
    requires ValidWriter(bw) && i < |bw.data| && WithinFrom(bw, i)
    ensures WithinFrom(bw, i + 1) && SectionFrom(bw, i) == ChannelBytes(bw, i) + SectionFrom(bw, i + 1)
    ensures AllFrameable(ChannelKinds(bw, i), BumpedDefs(bw)[i].sov, FrameCrc(bw))
    ensures ChannelBytes(bw, i) == BytesOf(i, BumpedDefs(bw)[i].sov, FrameCrc(bw), ChannelKinds(bw, i))
  {
    hide EmitKinds, OverCapacity, Bumped, ValidData, AllFrameable, BytesOf;
    ChannelReady(bw, i);
    KindsFrameable(bw.data[i], BumpedDefs(bw)[i].sov, FrameCrc(bw));
  }

  lemma SectionEnds(bw: BlockFile)
    requires ValidWriter(bw)
    ensures WithinFrom(bw, |bw.data|) && SectionFrom(bw, |bw.data|) == []
  {
    hide ChannelBytes;
  }

  lemma AddKeepsWriter(bw: BlockFile, call: AddCall)
    requires ValidWriter(bw) && TypedAdd(call)
    ensures ValidWriter(bw.(data := Add(bw.data, call).0))
  {
    hide ValidData, TypedAdd, Add;
    AddKeepsValid(bw.data, call);
  }
}
