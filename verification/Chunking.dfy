/**
 Write calls and the blocks they become: the chunking loops shared by
 streamingwriter.cpp and blockwriter.cpp.
 */
module Chunking {
  import opened Bytes
  import opened OsfTypes
  import opened Payload
  import opened Frame
  import opened Builder

  /** One call of the typed write API. */
  datatype Call =
    | StartSegment(ch: u16, dt: DataType, start: i64, rate: u64, samples: seq<bytes>)
    | AppendSamples(ch: u16, dt: DataType, samples: seq<bytes>)
    | WriteTimestamped(ch: u16, dt: DataType, pairs: seq<Stamped>)
    | WriteVariable(ch: u16, dt: DataType, sample: Stamped)

  /** What the C++ types of the arguments guarantee. */
  predicate Typed(call: Call) {
    match call
    case StartSegment(_, dt, _, _, samples) => (dt.Float? || dt.Double?) && AllValues(dt, samples)
    case AppendSamples(_, dt, samples) => (dt.Float? || dt.Double?) && AllValues(dt, samples)
    case WriteTimestamped(_, dt, pairs) => IsFixed(dt) && AllStampedValues(dt, pairs)
    case WriteVariable(_, dt, _) => dt.String? || dt.Binary?
  }

  /** Samples in a call. */
  function Count(call: Call): nat {
    match call
    case StartSegment(_, _, _, _, samples) => |samples|
    case AppendSamples(_, _, samples) => |samples|
    case WriteTimestamped(_, _, pairs) => |pairs|
    case WriteVariable(_, _, _) => 1
  }

  function ContinuedChunks(dt: DataType, samples: seq<bytes>, max: nat): seq<BlockKind>
    requires max > 0
    decreases |samples|
  {
    if samples == [] then []
    else
      var n := Min(|samples|, max);
      [ContinuedData(dt, samples[..n])] + ContinuedChunks(dt, samples[n..], max)
  }

  function AbsChunks(dt: DataType, pairs: seq<Stamped>, max: nat): seq<BlockKind>
    requires max > 0
    decreases |pairs|
  {
    if pairs == [] then []
    else
      var n := Min(|pairs|, max);
      [AbsTimestampData(dt, pairs[..n])] + AbsChunks(dt, pairs[n..], max)
  }

  function StartChunks(dt: DataType, start: i64, rate: u64, samples: seq<bytes>, maxFirst: nat,
                       maxCont: nat): seq<BlockKind>
    requires maxCont > 0
  {
    var first := Min(|samples|, maxFirst);
    [StartData(dt, start, rate, samples[..first])] + ContinuedChunks(dt, samples[first..], maxCont)
  }

  /** The blocks of a call on a channel with a given length-field width. */
  function CallBlocks(call: Call, sov: nat, frameCrc: bool): seq<BlockKind>
    requires Width(call.dt) > 0 || call.WriteVariable?
  {
    match call
    case StartSegment(_, dt, start, rate, samples) =>
      StartChunks(dt, start, rate, samples, MaxSamplesPerStartBlock(Width(dt), sov, frameCrc),
                  MaxSamplesPerContinuedBlock(Width(dt), sov, frameCrc))
    case AppendSamples(_, dt, samples) =>
      ContinuedChunks(dt, samples, MaxSamplesPerContinuedBlock(Width(dt), sov, frameCrc))
    case WriteTimestamped(_, dt, pairs) =>
      AbsChunks(dt, pairs, MaxSamplesPerTimestampedBlock(Width(dt), sov, frameCrc))
    case WriteVariable(_, dt, sample) => [AbsTimestampData(dt, [sample])]
  }

  /** The same call as one block of any size: what the call means. */
  function Meaning(call: Call): BlockKind {
    match call
    case StartSegment(_, dt, start, rate, samples) => StartData(dt, start, rate, samples)
    case AppendSamples(_, dt, samples) => ContinuedData(dt, samples)
    case WriteTimestamped(_, dt, pairs) => AbsTimestampData(dt, pairs)
    case WriteVariable(_, dt, sample) => AbsTimestampData(dt, [sample])
  }

  // ---------------------------------------------------------------------
  // Chunking is lossless: the builder cannot tell it happened.
  // ---------------------------------------------------------------------

  lemma FoldTwo(off: Offset, c: Channel, k: BlockKind, k': BlockKind)
    ensures Fold(off, c, [k, k']) == match Apply(off, c, k) case Err(e) => Err(e) case Ok(c') => Apply(off, c', k')
  {
    hide Apply;
    assert [k, k'][1..] == [k'];
    match Apply(off, c, k)
    case Err(_) =>
    case Ok(c') => FoldOne(off, c', k');
  }

  lemma GrowTwice(segs: seq<Segment>, m: nat, n: nat)
    requires segs != []
    ensures GrowLast(GrowLast(segs, m), n) == GrowLast(segs, m + n)
  {
  }

  lemma ContinuedSplit(off: Offset, c: Channel, dt: DataType, a: seq<bytes>, b: seq<bytes>)
    ensures Fold(off, c, [ContinuedData(dt, a), ContinuedData(dt, b)]) == Apply(off, c, ContinuedData(dt, a + b))
  {
    FoldTwo(off, c, ContinuedData(dt, a), ContinuedData(dt, b));
    hide Fold, LastFromSegment, GrowLast;
    if c.state.Equidistant? && c.state.segments != [] {
      var (samples, segs) := (c.state.samples, c.state.segments);
      GrowTwice(segs, |a|, |b|);
      assert samples + (a + b) == samples + a + b;
      GrownTwiceLast(off, c.last, segs, |a|, |b|);
    }
  }

  lemma GrownTwiceLast(off: Offset, before: Option<i64>, segs: seq<Segment>, m: nat, n: nat)
    requires segs != []
    ensures var l := GrowLast(segs, m)[|segs| - 1];
            var l' := GrowLast(segs, m + n)[|segs| - 1];
            LastFromSegment(off, LastFromSegment(off, before, l.start, l.rate, l.sampleCount), l'.start, l'.rate,
              l'.sampleCount)
            == LastFromSegment(off, before, l'.start, l'.rate, l'.sampleCount)
  {
    var l := segs[|segs| - 1];
    GrownLast(off, before, Segment(l.start, l.rate, l.startIndex, l.sampleCount + m), n);
  }

  lemma StartSplit(off: Offset, c: Channel, dt: DataType, start: i64, rate: u64, a: seq<bytes>, b: seq<bytes>)
    ensures Fold(off, c, [StartData(dt, start, rate, a), ContinuedData(dt, b)])
            == Apply(off, c, StartData(dt, start, rate, a + b))
  {
    FoldTwo(off, c, StartData(dt, start, rate, a), ContinuedData(dt, b));
    hide Fold, LastFromSegment;
    if c.state.Pending? || c.state.Equidistant? {
      hide GrowLast;
      var (samples, segs) := if c.state.Pending? then ([], []) else (c.state.samples, c.state.segments);
      var seg := Segment(start, rate, |samples|, |a|);
      var seg' := Segment(start, rate, |samples|, |a + b|);
      GrowLastForm(segs, seg, |b|);
      assert samples + (a + b) == samples + a + b;
      assert (segs + [seg'])[|segs|] == seg';
      assert c.state.Pending? ==> segs + [seg] == [seg] && segs + [seg'] == [seg'] && samples + a == a;
      GrownLast(off, c.last, seg, |b|);
    }
  }

  lemma AbsSplit(off: Offset, c: Channel, dt: DataType, a: seq<Stamped>, b: seq<Stamped>)
    ensures Fold(off, c, [AbsTimestampData(dt, a), AbsTimestampData(dt, b)])
            == Apply(off, c, AbsTimestampData(dt, a + b))
  {
    FoldTwo(off, c, AbsTimestampData(dt, a), AbsTimestampData(dt, b));
    PayloadsConcat(a, b);
    hide Fold, Times, Payloads;
    if c.state.Timestamped? || c.state.Variable? {
      var (ts, vs) := (c.state.timestamps, c.state.values);
      assert ts + Times(a + b) == ts + Times(a) + Times(b);
      assert vs + Payloads(a + b) == vs + Payloads(a) + Payloads(b);
      if b == [] {
        assert a + b == a;
      }
    } else if b == [] {
      assert a + b == a;
      assert Times(b) == [] && Payloads(b) == [];
    }
  }

  lemma {:induction false} ContinuedChunksFold(off: Offset, c: Channel, dt: DataType, samples: seq<bytes>, max: nat)
    requires max > 0 && samples != []
    ensures Fold(off, c, ContinuedChunks(dt, samples, max)) == Apply(off, c, ContinuedData(dt, samples))
    decreases |samples|
  {
    hide Apply;
    var n := Min(|samples|, max);
    var (a, b) := (samples[..n], samples[n..]);
    assert samples == a + b;
    if b == [] {
      assert a == samples;
      FoldOne(off, c, ContinuedData(dt, a));
    } else {
      ContinuedSplit(off, c, dt, a, b);
      FoldTwo(off, c, ContinuedData(dt, a), ContinuedData(dt, b));
      var chunks := ContinuedChunks(dt, samples, max);
      assert chunks[1..] == ContinuedChunks(dt, b, max);
      match Apply(off, c, ContinuedData(dt, a))
      case Err(_) =>
      case Ok(c') => ContinuedChunksFold(off, c', dt, b, max);
    }
  }

  lemma {:induction false} AbsChunksFold(off: Offset, c: Channel, dt: DataType, pairs: seq<Stamped>, max: nat)
    requires max > 0 && pairs != []
    ensures Fold(off, c, AbsChunks(dt, pairs, max)) == Apply(off, c, AbsTimestampData(dt, pairs))
    decreases |pairs|
  {
    hide Apply;
    var n := Min(|pairs|, max);
    var (a, b) := (pairs[..n], pairs[n..]);
    assert pairs == a + b;
    if b == [] {
      assert a == pairs;
      FoldOne(off, c, AbsTimestampData(dt, a));
    } else {
      AbsSplit(off, c, dt, a, b);
      FoldTwo(off, c, AbsTimestampData(dt, a), AbsTimestampData(dt, b));
      var chunks := AbsChunks(dt, pairs, max);
      assert chunks[1..] == AbsChunks(dt, b, max);
      match Apply(off, c, AbsTimestampData(dt, a))
      case Err(_) =>
      case Ok(c') => AbsChunksFold(off, c', dt, b, max);
    }
  }

  lemma StartChunksFold(off: Offset, c: Channel, dt: DataType, start: i64, rate: u64, samples: seq<bytes>,
                        maxFirst: nat, maxCont: nat)
    requires maxFirst > 0 && maxCont > 0 && samples != []
    ensures Fold(off, c, StartChunks(dt, start, rate, samples, maxFirst, maxCont))
         == Apply(off, c, StartData(dt, start, rate, samples))
  {
    hide Apply;
    var n := Min(|samples|, maxFirst);
    var (a, b) := (samples[..n], samples[n..]);
    assert samples == a + b;
    var chunks := StartChunks(dt, start, rate, samples, maxFirst, maxCont);
    assert chunks[1..] == ContinuedChunks(dt, b, maxCont);
    if b == [] {
      assert a == samples && chunks == [StartData(dt, start, rate, a)];
      FoldOne(off, c, StartData(dt, start, rate, a));
    } else {
      StartSplit(off, c, dt, start, rate, a, b);
      FoldTwo(off, c, StartData(dt, start, rate, a), ContinuedData(dt, b));
      match Apply(off, c, StartData(dt, start, rate, a))
      case Err(_) =>
      case Ok(c') => ContinuedChunksFold(off, c', dt, b, maxCont);
    }
  }

  /** Folding the chunks of a call is folding the call, whatever the widths and the CRC reserve. */
  lemma {:induction false} ChunkingInvisible(off: Offset, c: Channel, call: Call, sov: nat, frameCrc: bool)
    requires Typed(call) && Count(call) > 0
    ensures Fold(off, c, CallBlocks(call, sov, frameCrc)) == Apply(off, c, Meaning(call))
  {
    hide Apply, Fold;
    match call
    case StartSegment(_, dt, start, rate, samples) =>
      StartChunksFold(off, c, dt, start, rate, samples, MaxSamplesPerStartBlock(Width(dt), sov, frameCrc),
                      MaxSamplesPerContinuedBlock(Width(dt), sov, frameCrc));
    case AppendSamples(_, dt, samples) =>
      ContinuedChunksFold(off, c, dt, samples, MaxSamplesPerContinuedBlock(Width(dt), sov, frameCrc));
    case WriteTimestamped(_, dt, pairs) =>
      AbsChunksFold(off, c, dt, pairs, MaxSamplesPerTimestampedBlock(Width(dt), sov, frameCrc));
    case WriteVariable(_, dt, sample) =>
      FoldOne(off, c, AbsTimestampData(dt, [sample]));
  }

  // ---------------------------------------------------------------------
  // Chunking is bounded: every frame is writable and fits its length field.
  // ---------------------------------------------------------------------

  predicate FitsBudget(k: BlockKind, sov: nat, frameCrc: bool) {
    Writable(k) && |EncodePayload(k)| <= PayloadBudget(sov, frameCrc)
  }

  lemma {:induction false} SamplesLength(dt: DataType, samples: seq<bytes>)
    requires AllValues(dt, samples)
    ensures |Join(samples)| == |samples| * Width(dt)
  {
    JoinLength(samples, Width(dt));
  }

  lemma PairsLength(dt: DataType, pairs: seq<Stamped>)
    requires AllStampedValues(dt, pairs)
    ensures |Join(StampedBytesAll(pairs))| == |pairs| * (8 + Width(dt))
  {
    ReadStampedAllId(dt, pairs);
    JoinLength(StampedBytesAll(pairs), 8 + Width(dt));
  }

  /** Payload bytes of `n` samples of a fixed-width block: fixed part, count prefix if more than one, samples. */
  function FixedPayloadSize(fixed: nat, n: nat, perSample: nat): nat {
    fixed + (if n > 1 then 4 else 0) + n * perSample
  }

  lemma PayloadSizes(k: BlockKind)
    requires Writable(k)
    ensures k.StartData? ==> |EncodePayload(k)| == FixedPayloadSize(17, |k.samples|, Width(k.dt))
    ensures k.ContinuedData? ==> |EncodePayload(k)| == FixedPayloadSize(1, |k.samples|, Width(k.dt))
    ensures k.AbsTimestampData? && IsFixed(k.dt) ==>
            |EncodePayload(k)| == FixedPayloadSize(1, |k.pairs|, 8 + Width(k.dt))
  {
    hide Le, LeI64, Join, StampedBytesAll;
    match k
    case StartData(dt, _, _, samples) => SamplesLength(dt, samples);
    case ContinuedData(dt, samples) => SamplesLength(dt, samples);
    case AbsTimestampData(dt, pairs) =>
      if IsFixed(dt) {
        PairsLength(dt, pairs);
      }
  }

  /** A count fits the budget in a frame exactly when it is at most the computed maximum. */
  lemma CountFits(fixed: nat, n: nat, perSample: nat, sov: nat, frameCrc: bool)
    requires IsSov(sov) && n > 0 && 0 < perSample <= 32 && fixed <= 17
    ensures FixedPayloadSize(fixed, n, perSample) <= PayloadBudget(sov, frameCrc)
       <==> n <= MaxSamples(fixed + 4, perSample, sov, frameCrc)
  {
    hide PayloadBudget, MaxSamples;
    MaxSamplesExact(fixed + 4, perSample, sov, frameCrc, n);
    BudgetBounds(sov, frameCrc);
    if n == 1 {
      assert FixedPayloadSize(fixed, 1, perSample) == fixed + perSample;
    }
  }

  lemma MaxBelowCountField(overhead: nat, perSample: nat, sov: nat, frameCrc: bool)
    requires IsSov(sov) && 0 < perSample <= 32 && overhead <= 21
    ensures MaxSamples(overhead, perSample, sov, frameCrc) < TWO_TO_THE_32
  {
    hide MaxSamples;
    var n := MaxSamples(overhead, perSample, sov, frameCrc);
    MaxSamplesExact(overhead, perSample, sov, frameCrc, n);
    MulAtLeast(perSample, n);
    BudgetBounds(sov, frameCrc);
    assert n * perSample == perSample * n;
  }

  lemma {:induction false} ContinuedChunksFit(dt: DataType, samples: seq<bytes>, sov: nat, frameCrc: bool)
    requires IsSov(sov) && IsNumeric(dt) && AllValues(dt, samples)
    ensures forall k :: k in ContinuedChunks(dt, samples, MaxSamplesPerContinuedBlock(Width(dt), sov, frameCrc))
              ==> FitsBudget(k, sov, frameCrc) && k.dt == dt
    decreases |samples|
  {
    hide PayloadBudget, MaxSamples, EncodePayload;
    if samples != [] {
      var max := MaxSamplesPerContinuedBlock(Width(dt), sov, frameCrc);
      var n := Min(|samples|, max);
      var k := ContinuedData(dt, samples[..n]);
      MaxBelowCountField(5, Width(dt), sov, frameCrc);
      assert Writable(k);
      PayloadSizes(k);
      CountFits(1, n, Width(dt), sov, frameCrc);
      ContinuedChunksFit(dt, samples[n..], sov, frameCrc);
    }
  }

  lemma {:induction false} AbsChunksFit(dt: DataType, pairs: seq<Stamped>, sov: nat, frameCrc: bool)
    requires IsSov(sov) && IsFixed(dt) && AllStampedValues(dt, pairs)
    ensures forall k :: k in AbsChunks(dt, pairs, MaxSamplesPerTimestampedBlock(Width(dt), sov, frameCrc))
              ==> FitsBudget(k, sov, frameCrc) && k.dt == dt
    decreases |pairs|
  {
    hide PayloadBudget, MaxSamples, EncodePayload;
    if pairs != [] {
      var max := MaxSamplesPerTimestampedBlock(Width(dt), sov, frameCrc);
      var n := Min(|pairs|, max);
      var k := AbsTimestampData(dt, pairs[..n]);
      MaxBelowCountField(5, 8 + Width(dt), sov, frameCrc);
      assert Writable(k);
      PayloadSizes(k);
      CountFits(1, n, 8 + Width(dt), sov, frameCrc);
      AbsChunksFit(dt, pairs[n..], sov, frameCrc);
    }
  }

  /** The capacity check of string and binary samples. */
  predicate WithinCapacity(call: Call, sov: nat, frameCrc: bool) {
    call.WriteVariable? ==> |call.sample.value| <= VariableSampleCapacity(sov, frameCrc)
  }

  /** Every block of a call that passes the capacity check fits, with its CRC, into its length field. */
  lemma {:induction false} CallBlocksFit(call: Call, sov: nat, frameCrc: bool)
    requires IsSov(sov) && Typed(call) && Count(call) > 0 && WithinCapacity(call, sov, frameCrc)
    ensures forall k :: k in CallBlocks(call, sov, frameCrc) ==> FitsBudget(k, sov, frameCrc) && k.dt == call.dt
    ensures PayloadBudget(sov, frameCrc) + (if frameCrc then 4 else 0) < FieldLimit(sov)
  {
    BudgetBounds(sov, frameCrc);
    match call
    case StartSegment(_, dt, start, rate, samples) =>
      hide PayloadBudget, MaxSamples, EncodePayload;
      var n := Min(|samples|, MaxSamplesPerStartBlock(Width(dt), sov, frameCrc));
      var k := StartData(dt, start, rate, samples[..n]);
      MaxBelowCountField(21, Width(dt), sov, frameCrc);
      assert Writable(k);
      PayloadSizes(k);
      CountFits(17, n, Width(dt), sov, frameCrc);
      ContinuedChunksFit(dt, samples[n..], sov, frameCrc);
    case AppendSamples(_, dt, samples) =>
      ContinuedChunksFit(dt, samples, sov, frameCrc);
    case WriteTimestamped(_, dt, pairs) =>
      AbsChunksFit(dt, pairs, sov, frameCrc);
    case WriteVariable(_, dt, sample) =>
      VariablePayloadSize(dt, sample);
  }

  lemma VariablePayloadSize(dt: DataType, sample: Stamped)
    requires dt.String? || dt.Binary?
    ensures Writable(AbsTimestampData(dt, [sample]))
    ensures |EncodePayload(AbsTimestampData(dt, [sample]))| == VARIABLE_BLOCK_OVERHEAD_BYTES + |sample.value|
  {
    hide StampedBytes;
    AbsVariableReadsBack(dt, sample, false);
    StampedBytesLength(sample);
  }

  // ---------------------------------------------------------------------
  // Chunking is minimal.
  // ---------------------------------------------------------------------

  function SumCounts(counts: seq<nat>): nat {
    if counts == [] then 0 else counts[0] + SumCounts(counts[1..])
  }

  /** Every count of a frame list fits the budget beside `fixed` bytes. */
  predicate CountsFit(counts: seq<nat>, fixed: nat, perSample: nat, sov: nat, frameCrc: bool) {
    forall n :: n in counts ==> n > 0 && FixedPayloadSize(fixed, n, perSample) <= PayloadBudget(sov, frameCrc)
  }

  lemma {:induction false} CountsBounded(counts: seq<nat>, fixed: nat, perSample: nat, sov: nat, frameCrc: bool)
    requires IsSov(sov) && 0 < perSample <= 32 && fixed <= 17 && CountsFit(counts, fixed, perSample, sov, frameCrc)
    ensures SumCounts(counts) <= |counts| * MaxSamples(fixed + 4, perSample, sov, frameCrc)
    decreases |counts|
  {
    hide MaxSamples, PayloadBudget, FixedPayloadSize;
    if counts != [] {
      var max := MaxSamples(fixed + 4, perSample, sov, frameCrc);
      assert counts[0] in counts && forall n :: n in counts[1..] ==> n in counts;
      CountFits(fixed, counts[0], perSample, sov, frameCrc);
      CountsBounded(counts[1..], fixed, perSample, sov, frameCrc);
      assert |counts| * max == max + (|counts| - 1) * max;
    }
  }

  lemma OneMore(r: int, max: nat)
    ensures r * max == (r - 1) * max + max
  {
  }

  lemma {:induction false} ContinuedChunkCount(dt: DataType, samples: seq<bytes>, max: nat)
    requires max > 0
    ensures samples != [] ==> (|ContinuedChunks(dt, samples, max)| - 1) * max < |samples|
    ensures samples == [] ==> ContinuedChunks(dt, samples, max) == []
    decreases |samples|
  {
    if samples != [] {
      var n := Min(|samples|, max);
      ContinuedChunkCount(dt, samples[n..], max);
      if n < |samples| {
        OneMore(|ContinuedChunks(dt, samples[n..], max)|, max);
      }
    }
  }

  lemma {:induction false} AbsChunkCount(dt: DataType, pairs: seq<Stamped>, max: nat)
    requires max > 0
    ensures pairs != [] ==> (|AbsChunks(dt, pairs, max)| - 1) * max < |pairs|
    ensures pairs == [] ==> AbsChunks(dt, pairs, max) == []
    decreases |pairs|
  {
    if pairs != [] {
      var n := Min(|pairs|, max);
      AbsChunkCount(dt, pairs[n..], max);
      if n < |pairs| {
        OneMore(|AbsChunks(dt, pairs[n..], max)|, max);
      }
    }
  }

  lemma FewerImpossible(used: nat, other: nat, max: nat, total: nat)
    requires (used - 1) * max < total <= other * max
    ensures used <= other
  {
    if other < used {
      MulMono(other, used - 1, max);
      assert false;
    }
  }

  lemma MulMono(a: nat, b: nat, m: nat)
    requires a <= b
    ensures a * m <= b * m
  {
    assert b * m == a * m + (b - a) * m;
  }

  /** The frame counts of some way to write a call: `counts[0]` is the StartData frame of a new segment. */
  predicate IsFraming(call: Call, counts: seq<nat>, sov: nat, frameCrc: bool) {
    && counts != [] && SumCounts(counts) == Count(call)
    && match call
       case StartSegment(_, dt, _, _, _) =>
         && CountsFit(counts[..1], 17, Width(dt), sov, frameCrc)
         && CountsFit(counts[1..], 1, Width(dt), sov, frameCrc)
       case AppendSamples(_, dt, _) => CountsFit(counts, 1, Width(dt), sov, frameCrc)
       case WriteTimestamped(_, dt, _) => CountsFit(counts, 1, 8 + Width(dt), sov, frameCrc)
       case WriteVariable(_, _, _) => true
  }

  /** No way of writing a call within the same budget uses fewer frames. */
  lemma {:induction false} ChunkingMinimal(call: Call, counts: seq<nat>, sov: nat, frameCrc: bool)
    requires IsSov(sov) && Typed(call) && Count(call) > 0 && IsFraming(call, counts, sov, frameCrc)
    ensures |CallBlocks(call, sov, frameCrc)| <= |counts|
  {
    hide MaxSamples, PayloadBudget, FixedPayloadSize;
    match call
    case StartSegment(_, dt, start, rate, samples) =>
      var (w, first) := (Width(dt), counts[0]);
      var (maxFirst, maxCont) := (MaxSamples(21, w, sov, frameCrc), MaxSamples(5, w, sov, frameCrc));
      assert counts[..1][0] in counts[..1];
      CountFits(17, first, w, sov, frameCrc);
      CountsBounded(counts[1..], 1, w, sov, frameCrc);
      var n := Min(|samples|, maxFirst);
      ContinuedChunkCount(dt, samples[n..], maxCont);
      if n < |samples| {
        FewerImpossible(|ContinuedChunks(dt, samples[n..], maxCont)|, |counts| - 1, maxCont, |samples| - n);
      }
    case AppendSamples(_, dt, samples) =>
      var max := MaxSamples(5, Width(dt), sov, frameCrc);
      CountsBounded(counts, 1, Width(dt), sov, frameCrc);
      ContinuedChunkCount(dt, samples, max);
      FewerImpossible(|ContinuedChunks(dt, samples, max)|, |counts|, max, |samples|);
    case WriteTimestamped(_, dt, pairs) =>
      var max := MaxSamples(5, 8 + Width(dt), sov, frameCrc);
      CountsBounded(counts, 1, 8 + Width(dt), sov, frameCrc);
      AbsChunkCount(dt, pairs, max);
      FewerImpossible(|AbsChunks(dt, pairs, max)|, |counts|, max, |pairs|);
    case WriteVariable(_, _, _) =>
  }

  // ---------------------------------------------------------------------
  // The first chunks of a call are a shorter call.
  // ---------------------------------------------------------------------

  function BlockCount(k: BlockKind): nat {
    match k
    case StartData(_, _, _, samples) => |samples|
    case ContinuedData(_, samples) => |samples|
    case AbsTimestampData(_, pairs) => |pairs|
    case _ => 0
  }

  function TotalCount(ks: seq<BlockKind>): nat {
    if ks == [] then 0 else BlockCount(ks[0]) + TotalCount(ks[1..])
  }

  /** The call with only its first `n` samples. */
  function Shorten(call: Call, n: nat): Call
    requires n <= Count(call)
  {
    match call
    case StartSegment(ch, dt, start, rate, samples) => StartSegment(ch, dt, start, rate, samples[..n])
    case AppendSamples(ch, dt, samples) => AppendSamples(ch, dt, samples[..n])
    case WriteTimestamped(ch, dt, pairs) => WriteTimestamped(ch, dt, pairs[..n])
    case WriteVariable(_, _, _) => call
  }

  /** A full chunk, or a last chunk, comes off the front. */
  lemma ContinuedChunkFront(dt: DataType, x: seq<bytes>, y: seq<bytes>, max: nat)
    requires 0 < |x| <= max && (y == [] || |x| == max)
    ensures ContinuedChunks(dt, x + y, max) == [ContinuedData(dt, x)] + ContinuedChunks(dt, y, max)
  {
    assert (x + y)[..|x|] == x && (x + y)[|x|..] == y;
  }

  lemma AbsChunkFront(dt: DataType, x: seq<Stamped>, y: seq<Stamped>, max: nat)
    requires 0 < |x| <= max && (y == [] || |x| == max)
    ensures AbsChunks(dt, x + y, max) == [AbsTimestampData(dt, x)] + AbsChunks(dt, y, max)
  {
    assert (x + y)[..|x|] == x && (x + y)[|x|..] == y;
  }

  lemma TotalCountCons(k: BlockKind, ks: seq<BlockKind>)
    ensures TotalCount([k] + ks) == BlockCount(k) + TotalCount(ks)
  {
    assert ([k] + ks)[1..] == ks;
  }

  lemma TakeDrop<T>(s: seq<T>, m: nat)
    requires m <= |s|
    ensures s == s[..m] + s[m..]
  {
  }

  lemma TakeConcat<T>(a: seq<T>, b: seq<T>, n: nat)
    requires n <= |b|
    ensures (a + b)[..|a| + n] == a + b[..n]
  {
  }

  lemma {:induction false} ContinuedChunksPrefix(dt: DataType, samples: seq<bytes>, max: nat, j: nat)
    requires max > 0 && j <= |ContinuedChunks(dt, samples, max)|
    ensures var ks := ContinuedChunks(dt, samples, max);
            var n := TotalCount(ks[..j]);
            n <= |samples| && ks[..j] == ContinuedChunks(dt, samples[..n], max) && n >= j
    decreases |samples|
  {
    hide TotalCount;
    var ks := ContinuedChunks(dt, samples, max);
    if j == 0 {
      assert TotalCount([]) == 0 by { NoCount(); }
      assert ks[..0] == [] && samples[..0] == [];
    } else {
      var m := Min(|samples|, max);
      var (x, y) := (samples[..m], samples[m..]);
      TakeDrop(samples, m);
      ContinuedChunkFront(dt, x, y, max);
      hide ContinuedChunks;
      var more := ContinuedChunks(dt, y, max);
      ContinuedChunksPrefix(dt, y, max, j - 1);
      ContinuedPrefixStep(dt, x, y, more, max, j - 1);
    }
  }

  lemma ContinuedPrefixStep(dt: DataType, x: seq<bytes>, y: seq<bytes>, more: seq<BlockKind>, max: nat, j: nat)
    requires 0 < |x| <= max && (y == [] || |x| == max) && j <= |more|
    requires var n := TotalCount(more[..j]);
             n <= |y| && more[..j] == ContinuedChunks(dt, y[..n], max) && n >= j
    ensures var ks := [ContinuedData(dt, x)] + more;
            var n := TotalCount(ks[..1 + j]);
            n <= |x + y| && ks[..1 + j] == ContinuedChunks(dt, (x + y)[..n], max) && n >= 1 + j
  {
    hide TotalCount, ContinuedChunks;
    var n := TotalCount(more[..j]);
    TakeConcat([ContinuedData(dt, x)], more, j);
    TotalCountCons(ContinuedData(dt, x), more[..j]);
    TakeConcat(x, y, n);
    ContinuedChunkFront(dt, x, y[..n], max);
  }

  lemma NoCount()
    ensures TotalCount([]) == 0
  {
  }

  lemma {:induction false} AbsChunksPrefix(dt: DataType, pairs: seq<Stamped>, max: nat, j: nat)
    requires max > 0 && j <= |AbsChunks(dt, pairs, max)|
    ensures var ks := AbsChunks(dt, pairs, max);
            var n := TotalCount(ks[..j]);
            n <= |pairs| && ks[..j] == AbsChunks(dt, pairs[..n], max) && n >= j
    decreases |pairs|
  {
    hide TotalCount;
    var ks := AbsChunks(dt, pairs, max);
    if j == 0 {
      NoCount();
      assert ks[..0] == [] && pairs[..0] == [];
    } else {
      var m := Min(|pairs|, max);
      var (x, y) := (pairs[..m], pairs[m..]);
      var more := AbsChunks(dt, y, max);
      AbsChunksPrefix(dt, y, max, j - 1);
      var n' := TotalCount(more[..j - 1]);
      assert ks[..j] == [AbsTimestampData(dt, x)] + more[..j - 1];
      TotalCountCons(AbsTimestampData(dt, x), more[..j - 1]);
      assert pairs[..m + n'] == x + y[..n'];
      AbsChunkFront(dt, x, y[..n'], max);
    }
  }

  lemma StartChunksPrefix(dt: DataType, start: i64, rate: u64, samples: seq<bytes>, maxFirst: nat, maxCont: nat, j: nat)
    requires maxFirst > 0 && maxCont > 0 && samples != []
    requires 0 < j <= |StartChunks(dt, start, rate, samples, maxFirst, maxCont)|
    ensures var ks := StartChunks(dt, start, rate, samples, maxFirst, maxCont);
            var n := TotalCount(ks[..j]);
            n <= |samples| && ks[..j] == StartChunks(dt, start, rate, samples[..n], maxFirst, maxCont) && n >= j
  {
    hide TotalCount, ContinuedChunks;
    var ks := StartChunks(dt, start, rate, samples, maxFirst, maxCont);
    var m := Min(|samples|, maxFirst);
    var (x, y) := (samples[..m], samples[m..]);
    var more := ContinuedChunks(dt, y, maxCont);
    ContinuedChunksPrefix(dt, y, maxCont, j - 1);
    var n' := TotalCount(more[..j - 1]);
    var k := StartData(dt, start, rate, x);
    assert ks[..j] == [k] + more[..j - 1];
    TotalCountCons(k, more[..j - 1]);
    assert samples[..m + n'] == x + y[..n'];
    assert (x + y[..n'])[..m] == x && (x + y[..n'])[m..] == y[..n'];
  }

  /** The first `j` blocks of a call are all the blocks of a shorter call. */
  lemma {:induction false} CallPrefix(call: Call, sov: nat, frameCrc: bool, j: nat)
    requires Typed(call) && Count(call) > 0 && 0 < j <= |CallBlocks(call, sov, frameCrc)|
    ensures var n := TotalCount(CallBlocks(call, sov, frameCrc)[..j]);
            && 0 < n <= Count(call) && Typed(Shorten(call, n))
            && CallBlocks(call, sov, frameCrc)[..j] == CallBlocks(Shorten(call, n), sov, frameCrc)
  {
    hide MaxSamples, TotalCount, StartChunks, ContinuedChunks, AbsChunks;
    match call
    case StartSegment(_, dt, start, rate, samples) =>
      StartChunksPrefix(dt, start, rate, samples, MaxSamplesPerStartBlock(Width(dt), sov, frameCrc),
                        MaxSamplesPerContinuedBlock(Width(dt), sov, frameCrc), j);
    case AppendSamples(_, dt, samples) =>
      ContinuedChunksPrefix(dt, samples, MaxSamplesPerContinuedBlock(Width(dt), sov, frameCrc), j);
    case WriteTimestamped(_, dt, pairs) =>
      AbsChunksPrefix(dt, pairs, MaxSamplesPerTimestampedBlock(Width(dt), sov, frameCrc), j);
    case WriteVariable(_, dt, sample) =>
      var ks := CallBlocks(call, sov, frameCrc);
      assert ks[..j] == ks;
      TotalCountCons(ks[0], []);
      NoCount();
      assert [ks[0]] + [] == ks;
  }
}
