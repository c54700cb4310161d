/**
 From blocks to channels: the per-channel state machine of manager.rs
 (manager.cpp has the same one) and the loop that feeds it.

 Storage keeps the declared datatype by construction, so the second type check
 inside `extend_numeric` and its siblings has no counterpart here.
 */
module Builder {
  import opened Bytes
  import opened OsfTypes

  const I64_MAX: i64 := TWO_TO_THE_63 - 1

  /**
   Nanoseconds from a segment's start to its `i`-th sample at a given rate:
   `(i as f64 * 1.0e9 / rate) as i64`, left abstract.
   */
  type Offset = (nat, u64) -> i64

  /** The one thing known about rounding: sample 0 is at the start. */
  ghost predicate OffsetLaw(off: Offset) {
    forall rate :: PositiveRate(rate) ==> off(0, rate) == 0
  }

  function SaturatingAdd(a: i64, b: int): i64 {
    if a + b > I64_MAX then I64_MAX
    else if a + b < -TWO_TO_THE_63 then -TWO_TO_THE_63
    else a + b
  }

  datatype Segment = Segment(start: i64, rate: u64, startIndex: nat, sampleCount: nat)

  datatype State =
    | Pending
    | Equidistant(samples: seq<bytes>, segments: seq<Segment>)
    | Timestamped(timestamps: seq<i64>, values: seq<bytes>)
    | Variable(timestamps: seq<i64>, values: seq<bytes>)
    | Dropped

  datatype Channel = Channel(dt: DataType, state: State, last: Option<i64>)

  function InitialState(dt: DataType): State {
    if dt.Unsupported? then Dropped
    else if IsVariable(dt) then Variable([], [])
    else Pending
  }

  function Fresh(dt: DataType): Channel {
    Channel(dt, InitialState(dt), None)
  }

  // ---------------------------------------------------------------------
  // The transitions.
  // ---------------------------------------------------------------------

  function LastOf(ts: seq<i64>): Option<i64> {
    if ts == [] then None else Some(ts[|ts| - 1])
  }

  /** Timestamp of the last of `count` samples; an empty segment changes nothing. */
  function LastFromSegment(off: Offset, old_: Option<i64>, start: i64, rate: u64, count: nat): Option<i64> {
    if count == 0 then old_
    else if PositiveRate(rate) then Some(SaturatingAdd(start, off(count - 1, rate)))
    else Some(start)
  }

  function ApplyStart(off: Offset, c: Channel, dt: DataType, start: i64, rate: u64,
                      samples: seq<bytes>): Result<Channel> {
    if dt != c.dt then Err(DataTypeMismatch)
    else
      var n := |samples|;
      match c.state
      case Pending =>
        if !IsFixed(c.dt) then Err(InvalidBlock)
        else Ok(Channel(c.dt, Equidistant(samples, [Segment(start, rate, 0, n)]),
                        LastFromSegment(off, c.last, start, rate, n)))
      case Equidistant(old_, segs) =>
        Ok(Channel(c.dt, Equidistant(old_ + samples, segs + [Segment(start, rate, |old_|, n)]),
                   LastFromSegment(off, c.last, start, rate, n)))
      case Timestamped(_, _) => Err(ChannelMixedBlockTypes)
      case Variable(_, _) => Err(ChannelMixedBlockTypes)
      case Dropped => Ok(c)
  }

  /** The segment list with `n` more samples in its last segment. */
  function GrowLast(segs: seq<Segment>, n: nat): (r: seq<Segment>)
    requires segs != []
    ensures |r| == |segs|
  {
    var l := segs[|segs| - 1];
    segs[|segs| - 1 := Segment(l.start, l.rate, l.startIndex, l.sampleCount + n)]
  }

  function ApplyContinued(off: Offset, c: Channel, dt: DataType, samples: seq<bytes>): Result<Channel> {
    if dt != c.dt then Err(DataTypeMismatch)
    else
      match c.state
      case Pending => Err(ContinuedDataWithoutStart)
      case Equidistant(old_, segs) =>
        if segs == [] then Err(ContinuedDataWithoutStart)
        else
          var segs' := GrowLast(segs, |samples|);
          var l := segs'[|segs'| - 1];
          Ok(Channel(c.dt, Equidistant(old_ + samples, segs'),
            LastFromSegment(off, c.last, l.start, l.rate, l.sampleCount)))
      case Timestamped(_, _) => Err(ChannelMixedBlockTypes)
      case Variable(_, _) => Err(ChannelMixedBlockTypes)
      case Dropped => Ok(c)
  }

  function Times(pairs: seq<Stamped>): (r: seq<i64>)
    ensures |r| == |pairs|
  {
    seq(|pairs|, i requires 0 <= i < |pairs| => pairs[i].ts)
  }

  function Payloads(pairs: seq<Stamped>): (r: seq<bytes>)
    ensures |r| == |pairs|
  {
    seq(|pairs|, i requires 0 <= i < |pairs| => pairs[i].value)
  }

  function ApplyAbs(c: Channel, dt: DataType, pairs: seq<Stamped>): Result<Channel> {
    if dt != c.dt then Err(DataTypeMismatch)
    else
      match c.state
      case Pending =>
        if !IsFixed(c.dt) then Err(InvalidBlock)
        else Ok(Channel(c.dt, Timestamped(Times(pairs), Payloads(pairs)), LastOf(Times(pairs))))
      case Timestamped(ts, vs) =>
        var ts' := ts + Times(pairs);
        Ok(Channel(c.dt, Timestamped(ts', vs + Payloads(pairs)), if pairs == [] then c.last else LastOf(ts')))
      case Variable(ts, vs) =>
        if !(dt.String? || dt.Binary?) then Err(DataTypeMismatch)
        else
          var ts' := ts + Times(pairs);
          Ok(Channel(c.dt, Variable(ts', vs + Payloads(pairs)), if pairs == [] then c.last else LastOf(ts')))
      case Equidistant(_, _) => Err(ChannelMixedBlockTypes)
      case Dropped => Ok(c)
  }

  /** Absolute timestamps of a run of deltas, saturating at the top. */
  function RelTimes(anchor: i64, deltas: seq<RelStamped>): (r: seq<i64>)
    ensures |r| == |deltas|
    decreases |deltas|
  {
    if deltas == [] then []
    else
      var t := SaturatingAdd(anchor, deltas[0].delta);
      [t] + RelTimes(t, deltas[1..])
  }

  function RelPayloads(deltas: seq<RelStamped>): (r: seq<bytes>)
    ensures |r| == |deltas|
  {
    seq(|deltas|, i requires 0 <= i < |deltas| => deltas[i].value)
  }

  function LastRel(anchor: i64, deltas: seq<RelStamped>): i64 {
    if deltas == [] then anchor else RelTimes(anchor, deltas)[|deltas| - 1]
  }

  function ApplyRel(c: Channel, dt: DataType, deltas: seq<RelStamped>): Result<Channel> {
    if dt != c.dt then Err(DataTypeMismatch)
    else if c.last.None? then Err(RelStampWithoutAnchor)
    else
      match c.state
      case Timestamped(ts, vs) =>
        var anchor := c.last.value;
        Ok(Channel(c.dt, Timestamped(ts + RelTimes(anchor, deltas), vs + RelPayloads(deltas)),
          Some(LastRel(anchor, deltas))))
      case Pending => Err(ChannelMixedBlockTypes)
      case Equidistant(_, _) => Err(ChannelMixedBlockTypes)
      case Variable(_, _) => Err(ChannelMixedBlockTypes)
      case Dropped => Ok(c)
  }

  function Apply(off: Offset, c: Channel, k: BlockKind): Result<Channel> {
    match k
    case StartData(dt, start, rate, samples) => ApplyStart(off, c, dt, start, rate, samples)
    case ContinuedData(dt, samples) => ApplyContinued(off, c, dt, samples)
    case AbsTimestampData(dt, pairs) => ApplyAbs(c, dt, pairs)
    case ContinuedRelStampData(dt, deltas) => ApplyRel(c, dt, deltas)
    case Skipped(_, _, _) => Ok(c)
  }

  function Fold(off: Offset, c: Channel, ks: seq<BlockKind>): Result<Channel>
    decreases |ks|
  {
    if ks == [] then Ok(c)
    else
      match Apply(off, c, ks[0])
      case Err(e) => Err(e)
      case Ok(c') => Fold(off, c', ks[1..])
  }

  lemma FoldNone(off: Offset, c: Channel)
    ensures Fold(off, c, []) == Ok(c)
  {
  }

  lemma FoldOne(off: Offset, c: Channel, k: BlockKind)
    ensures Fold(off, c, [k]) == Apply(off, c, k)
  {
    hide Apply;
    match Apply(off, c, k)
    case Err(_) =>
    case Ok(c') => FoldNone(off, c');
  }

  lemma {:induction false} FoldConcat(off: Offset, c: Channel, a: seq<BlockKind>, b: seq<BlockKind>)
    ensures Fold(off, c, a + b) == match Fold(off, c, a) case Err(e) => Err(e) case Ok(c') => Fold(off, c', b)
    decreases |a|
  {
    hide Apply;
    if a == [] {
      assert a + b == b;
    } else {
      assert (a + b)[1..] == a[1..] + b && (a + b)[0] == a[0];
      match Apply(off, c, a[0])
      case Err(_) =>
      case Ok(c') => FoldConcat(off, c', a[1..], b);
    }
  }

  // ---------------------------------------------------------------------
  // The invariant of every reachable state.
  // ---------------------------------------------------------------------

  /** The segments cover `samples[from..to]` head to tail, without gap or overlap. */
  predicate Tiles(segs: seq<Segment>, from: nat, to: nat)
    decreases |segs|
  {
    if segs == [] then from == to
    else segs[0].startIndex == from && Tiles(segs[1..], from + segs[0].sampleCount, to)
  }

  /** Timestamp of sample `i` of a segment. */
  function SegmentTimestamp(off: Offset, seg: Segment, i: nat): i64 {
    if PositiveRate(seg.rate) && i > 0 then SaturatingAdd(seg.start, off(i, seg.rate)) else seg.start
  }

  /** The last timestamp a reader of the segments reconstructs. */
  function LastReconstructed(off: Offset, segs: seq<Segment>): Option<i64>
    decreases |segs|
  {
    if segs == [] then None
    else
      var l := segs[|segs| - 1];
      if l.sampleCount > 0 then Some(SegmentTimestamp(off, l, l.sampleCount - 1))
      else LastReconstructed(off, segs[..|segs| - 1])
  }

  ghost predicate Invariant(off: Offset, c: Channel) {
    match c.state
    case Pending => IsFixed(c.dt) && c.last.None?
    case Equidistant(samples, segs) =>
      IsFixed(c.dt) && segs != [] && Tiles(segs, 0, |samples|) && c.last == LastReconstructed(off, segs)
    case Timestamped(ts, vs) => IsFixed(c.dt) && |ts| == |vs| && c.last == LastOf(ts)
    case Variable(ts, vs) => IsVariable(c.dt) && |ts| == |vs| && c.last == LastOf(ts)
    case Dropped => c.dt.Unsupported? && c.last.None?
  }

  /** The transitions a state may make: a kind, once locked, is kept. */
  predicate KindKept(s: State, s': State) {
    && (s.Equidistant? ==> s'.Equidistant?)
    && (s.Timestamped? ==> s'.Timestamped?)
    && (s.Variable? ==> s'.Variable?)
    && (s.Dropped? ==> s'.Dropped?)
    && (s.Pending? ==> s'.Pending? || s'.Equidistant? || s'.Timestamped?)
  }

  lemma {:induction false} TilesAppend(segs: seq<Segment>, from: nat, to: nat, seg: Segment)
    requires Tiles(segs, from, to) && seg.startIndex == to
    ensures Tiles(segs + [seg], from, to + seg.sampleCount)
    decreases |segs|
  {
    if segs == [] {
      assert (segs + [seg])[1..] == [];
    } else {
      assert (segs + [seg])[1..] == segs[1..] + [seg];
      TilesAppend(segs[1..], from + segs[0].sampleCount, to, seg);
    }
  }

  lemma {:induction false} TilesGrow(segs: seq<Segment>, from: nat, to: nat, n: nat)
    requires segs != [] && Tiles(segs, from, to)
    ensures Tiles(GrowLast(segs, n), from, to + n)
    decreases |segs|
  {
    if |segs| == 1 {
      assert GrowLast(segs, n)[1..] == [];
    } else {
      assert GrowLast(segs, n)[1..] == GrowLast(segs[1..], n);
      TilesGrow(segs[1..], from + segs[0].sampleCount, to, n);
    }
  }

  lemma {:induction false} TilesOrdered(segs: seq<Segment>, from: nat, to: nat)
    requires Tiles(segs, from, to)
    ensures from <= to
    decreases |segs|
  {
    if segs != [] {
      TilesOrdered(segs[1..], from + segs[0].sampleCount, to);
    }
  }

  /** Where the remaining segments start, and that they stay within the samples. */
  lemma TilesTail(segs: seq<Segment>, from: nat, to: nat)
    requires segs != [] && Tiles(segs, from, to)
    ensures segs[0].startIndex == from && from + segs[0].sampleCount <= to
            && Tiles(segs[1..], from + segs[0].sampleCount, to)
  {
    TilesOrdered(segs[1..], from + segs[0].sampleCount, to);
  }

  lemma FreshInvariant(off: Offset, dt: DataType)
    ensures Invariant(off, Fresh(dt))
  {
  }

  lemma LastAfterSegment(off: Offset, segs: seq<Segment>, seg: Segment)
    requires OffsetLaw(off)
    ensures LastReconstructed(off, segs + [seg])
         == LastFromSegment(off, LastReconstructed(off, segs), seg.start, seg.rate, seg.sampleCount)
  {
    assert (segs + [seg])[..|segs|] == segs;
    if seg.sampleCount > 0 && PositiveRate(seg.rate) {
      assert off(0, seg.rate) == 0;
    }
  }

  /** Every transition keeps the invariant and the locked kind. */
  lemma {:induction false} ApplyKeepsInvariant(off: Offset, c: Channel, k: BlockKind)
    requires OffsetLaw(off) && Invariant(off, c) && Apply(off, c, k).Ok?
    ensures Invariant(off, Apply(off, c, k).value)
    ensures KindKept(c.state, Apply(off, c, k).value.state) && Apply(off, c, k).value.dt == c.dt
  {
    match k
    case StartData(dt, start, rate, samples) =>
      StartKeepsInvariant(off, c, dt, start, rate, samples);
    case ContinuedData(dt, samples) =>
      ContinuedKeepsInvariant(off, c, dt, samples);
    case AbsTimestampData(dt, pairs) =>
    case ContinuedRelStampData(dt, deltas) =>
      if c.state.Timestamped? && deltas != [] {
        var ts := c.state.timestamps + RelTimes(c.last.value, deltas);
        assert ts[|ts| - 1] == RelTimes(c.last.value, deltas)[|deltas| - 1];
      }
    case Skipped(_, _, _) =>
  }

  lemma StartKeepsInvariant(off: Offset, c: Channel, dt: DataType, start: i64, rate: u64, samples: seq<bytes>)
    requires OffsetLaw(off) && Invariant(off, c) && ApplyStart(off, c, dt, start, rate, samples).Ok?
    ensures var c' := ApplyStart(off, c, dt, start, rate, samples).value;
            Invariant(off, c') && KindKept(c.state, c'.state) && c'.dt == c.dt
  {
    hide LastReconstructed, LastFromSegment;
    match c.state
    case Pending =>
      var seg := Segment(start, rate, 0, |samples|);
      assert Tiles([], 0, 0);
      TilesAppend([], 0, 0, seg);
      LastAfterSegment(off, [], seg);
      assert [] + [seg] == [seg];
      assert LastReconstructed(off, []) == None by { NothingReconstructed(off); }
    case Equidistant(old_, segs) =>
      var seg := Segment(start, rate, |old_|, |samples|);
      TilesAppend(segs, 0, |old_|, seg);
      LastAfterSegment(off, segs, seg);
    case Timestamped(_, _) =>
    case Variable(_, _) =>
    case Dropped =>
  }

  lemma NothingReconstructed(off: Offset)
    ensures LastReconstructed(off, []) == None
  {
  }

  lemma ContinuedKeepsInvariant(off: Offset, c: Channel, dt: DataType, samples: seq<bytes>)
    requires OffsetLaw(off) && Invariant(off, c) && ApplyContinued(off, c, dt, samples).Ok?
    ensures var c' := ApplyContinued(off, c, dt, samples).value;
            Invariant(off, c') && KindKept(c.state, c'.state) && c'.dt == c.dt
  {
    hide LastReconstructed, LastFromSegment, GrowLast, Tiles;
    if c.state.Equidistant? {
      TilesGrow(c.state.segments, 0, |c.state.samples|, |samples|);
      GrownReconstructed(off, c.state.segments, |samples|);
    }
  }

  lemma GrownReconstructed(off: Offset, segs: seq<Segment>, n: nat)
    requires OffsetLaw(off) && segs != []
    ensures var segs' := GrowLast(segs, n);
            var l' := segs'[|segs'| - 1];
            LastReconstructed(off, segs') == LastFromSegment(off, LastReconstructed(off, segs), l'.start, l'.rate,
              l'.sampleCount)
  {
    hide LastReconstructed, LastFromSegment, GrowLast;
    var (front, l) := (segs[..|segs| - 1], segs[|segs| - 1]);
    var l' := Segment(l.start, l.rate, l.startIndex, l.sampleCount + n);
    GrowLastForm(front, l, n);
    assert segs == front + [l];
    LastAfterSegment(off, front, l);
    LastAfterSegment(off, front, l');
    GrownLast(off, LastReconstructed(off, front), l, n);
    assert (front + [l'])[|front|] == l';
  }

  lemma GrowLastForm(front: seq<Segment>, l: Segment, n: nat)
    ensures GrowLast(front + [l], n) == front + [Segment(l.start, l.rate, l.startIndex, l.sampleCount + n)]
  {
  }

  lemma GrownLast(off: Offset, before: Option<i64>, l: Segment, n: nat)
    ensures LastFromSegment(off, LastFromSegment(off, before, l.start, l.rate, l.sampleCount), l.start, l.rate,
            l.sampleCount + n)
         == LastFromSegment(off, before, l.start, l.rate, l.sampleCount + n)
  {
  }

  /** Every state a fold of blocks can reach from a fresh channel. */
  lemma {:induction false} ReachableInvariant(off: Offset, c: Channel, ks: seq<BlockKind>)
    requires OffsetLaw(off) && Invariant(off, c) && Fold(off, c, ks).Ok?
    ensures Invariant(off, Fold(off, c, ks).value)
    ensures KindKept(c.state, Fold(off, c, ks).value.state) && Fold(off, c, ks).value.dt == c.dt
    decreases |ks|
  {
    hide Apply, Invariant;
    if ks != [] {
      ApplyKeepsInvariant(off, c, ks[0]);
      ReachableInvariant(off, Apply(off, c, ks[0]).value, ks[1..]);
    }
  }

  // ---------------------------------------------------------------------
  // Reading a channel back out.
  // ---------------------------------------------------------------------

  /** Samples `i..` of one segment, each with its reconstructed timestamp. */
  function SegmentSamples(off: Offset, seg: Segment, samples: seq<bytes>, i: nat): (r: seq<Stamped>)
    requires i <= seg.sampleCount && seg.startIndex + seg.sampleCount <= |samples|
    ensures |r| == seg.sampleCount - i
    decreases seg.sampleCount - i
  {
    if i == seg.sampleCount then []
    else [Stamped(SegmentTimestamp(off, seg, i), samples[seg.startIndex + i])]
         + SegmentSamples(off, seg, samples, i + 1)
  }

  /** `samples_with_time` of an equidistant channel. */
  function SamplesWithTime(off: Offset, segs: seq<Segment>, samples: seq<bytes>, from: nat): seq<Stamped>
    requires Tiles(segs, from, |samples|)
    decreases |segs|
  {
    if segs == [] then []
    else
      TilesOrdered(segs[1..], from + segs[0].sampleCount, |samples|);
      SegmentSamples(off, segs[0], samples, 0) + SamplesWithTime(off, segs[1..], samples, from + segs[0].sampleCount)
  }

  lemma {:induction false} SegmentSamplesInOrder(off: Offset, seg: Segment, samples: seq<bytes>, i: nat)
    requires i <= seg.sampleCount && seg.startIndex + seg.sampleCount <= |samples|
    ensures Payloads(SegmentSamples(off, seg, samples, i))
            == samples[seg.startIndex + i..seg.startIndex + seg.sampleCount]
    decreases seg.sampleCount - i
  {
    if i < seg.sampleCount {
      SegmentSamplesInOrder(off, seg, samples, i + 1);
      var a := seg.startIndex + i;
      assert samples[a..seg.startIndex + seg.sampleCount]
             == [samples[a]] + samples[a + 1..seg.startIndex + seg.sampleCount];
    }
  }

  lemma PayloadsConcat(a: seq<Stamped>, b: seq<Stamped>)
    ensures Payloads(a + b) == Payloads(a) + Payloads(b)
    ensures Times(a + b) == Times(a) + Times(b)
  {
  }

  /** In every reachable equidistant state each stored value comes out exactly once, in storage order. */
  lemma {:induction false} SamplesWithTimeCoversAll(off: Offset, segs: seq<Segment>, samples: seq<bytes>, from: nat)
    requires Tiles(segs, from, |samples|)
    ensures from <= |samples|
    ensures Payloads(SamplesWithTime(off, segs, samples, from)) == samples[from..]
    decreases |segs|
  {
    hide SegmentSamples, Payloads;
    TilesOrdered(segs, from, |samples|);
    if segs == [] {
      assert Payloads([]) == [] by { PayloadsConcat([], []); }
    } else {
      var mid := from + segs[0].sampleCount;
      TilesOrdered(segs[1..], mid, |samples|);
      SegmentSamplesInOrder(off, segs[0], samples, 0);
      SamplesWithTimeCoversAll(off, segs[1..], samples, mid);
      PayloadsConcat(SegmentSamples(off, segs[0], samples, 0), SamplesWithTime(off, segs[1..], samples, mid));
      assert samples[from..] == samples[from..mid] + samples[mid..];
    }
  }

  lemma {:induction false} SegmentSamplesLast(off: Offset, seg: Segment, samples: seq<bytes>, i: nat)
    requires i < seg.sampleCount && seg.startIndex + seg.sampleCount <= |samples|
    ensures var r := SegmentSamples(off, seg, samples, i);
            r[|r| - 1].ts == SegmentTimestamp(off, seg, seg.sampleCount - 1)
    decreases seg.sampleCount - i
  {
    hide SegmentTimestamp;
    if i + 1 < seg.sampleCount {
      SegmentSamplesLast(off, seg, samples, i + 1);
    }
  }

  lemma {:induction false} LastReconstructedCons(off: Offset, segs: seq<Segment>)
    requires segs != []
    ensures LastReconstructed(off, segs)
         == if LastReconstructed(off, segs[1..]).Some? then LastReconstructed(off, segs[1..])
            else if segs[0].sampleCount > 0 then Some(SegmentTimestamp(off, segs[0], segs[0].sampleCount - 1))
            else None
    decreases |segs|
  {
    hide SegmentTimestamp;
    var front := segs[..|segs| - 1];
    if |segs| > 1 {
      LastReconstructedCons(off, front);
      assert front[1..] == segs[1..][..|segs| - 2];
    } else {
      assert front == [];
    }
  }

  /** The last timestamp of the reconstructed samples. */
  lemma {:induction false} LastOfSamplesWithTime(off: Offset, segs: seq<Segment>, samples: seq<bytes>, from: nat)
    requires Tiles(segs, from, |samples|)
    ensures var r := SamplesWithTime(off, segs, samples, from);
            LastReconstructed(off, segs) == if r == [] then None else Some(r[|r| - 1].ts)
    decreases |segs|
  {
    hide SegmentTimestamp, SegmentSamples, LastReconstructed;
    if segs == [] {
      NothingReconstructed(off);
    } else {
      var mid := from + segs[0].sampleCount;
      TilesOrdered(segs[1..], mid, |samples|);
      LastReconstructedCons(off, segs);
      LastOfSamplesWithTime(off, segs[1..], samples, mid);
      if segs[0].sampleCount > 0 {
        SegmentSamplesLast(off, segs[0], samples, 0);
      }
    }
  }

  /** In every reachable equidistant state the anchor for relative stamps is the last reconstructed timestamp. */
  lemma {:induction false} AnchorIsLastSample(off: Offset, c: Channel)
    requires Invariant(off, c) && c.state.Equidistant?
    ensures Tiles(c.state.segments, 0, |c.state.samples|)
    ensures var r := SamplesWithTime(off, c.state.segments, c.state.samples, 0);
            c.last == if r == [] then None else Some(r[|r| - 1].ts)
  {
    LastOfSamplesWithTime(off, c.state.segments, c.state.samples, 0);
  }

  // ---------------------------------------------------------------------
  // Relative stamps.
  // ---------------------------------------------------------------------

  function SumDeltas(deltas: seq<RelStamped>): nat {
    if deltas == [] then 0 else deltas[0].delta + SumDeltas(deltas[1..])
  }

  /** The `k`-th timestamp is the anchor plus the first `k` deltas, capped at the largest i64. */
  lemma {:induction false} RelTimesClosedForm(anchor: i64, deltas: seq<RelStamped>, k: nat)
    requires k < |deltas|
    ensures RelTimes(anchor, deltas)[k] == Min(anchor + SumDeltas(deltas[..k + 1]), I64_MAX)
    ensures RelTimes(anchor, deltas)[k] >= anchor
    ensures k > 0 ==> RelTimes(anchor, deltas)[k - 1] <= RelTimes(anchor, deltas)[k]
    decreases k
  {
    assert deltas[..k + 1][1..] == deltas[1..][..k];
    var t := SaturatingAdd(anchor, deltas[0].delta);
    if k == 0 {
      assert deltas[..k + 1][1..] == [];
    } else {
      RelTimesClosedForm(t, deltas[1..], k - 1);
    }
  }

  lemma {:induction false} RelTimesConcat(anchor: i64, a: seq<RelStamped>, b: seq<RelStamped>)
    ensures RelTimes(anchor, a + b) == RelTimes(anchor, a) + RelTimes(LastRel(anchor, a), b)
    decreases |a|
  {
    hide SaturatingAdd;
    if a == [] {
      assert a + b == b;
    } else {
      assert (a + b)[1..] == a[1..] + b;
      var t := SaturatingAdd(anchor, a[0].delta);
      RelTimesConcat(t, a[1..], b);
      LastRelCons(anchor, a);
    }
  }

  lemma LastRelCons(anchor: i64, a: seq<RelStamped>)
    requires a != []
    ensures LastRel(anchor, a) == LastRel(SaturatingAdd(anchor, a[0].delta), a[1..])
  {
    hide SaturatingAdd;
  }

  lemma LastRelConcat(anchor: i64, a: seq<RelStamped>, b: seq<RelStamped>)
    ensures LastRel(anchor, a + b) == LastRel(LastRel(anchor, a), b)
  {
    hide RelTimes;
    RelTimesConcat(anchor, a, b);
    if b == [] {
      assert a + b == a;
    } else {
      assert a + b != [];
    }
  }

  /** How a run of relative stamps is cut into blocks makes no difference. */
  lemma {:induction false} RelCutIndependent(off: Offset, c: Channel, dt: DataType, a: seq<RelStamped>,
                                             b: seq<RelStamped>)
    ensures Fold(off, c, [ContinuedRelStampData(dt, a), ContinuedRelStampData(dt, b)])
         == Fold(off, c, [ContinuedRelStampData(dt, a + b)])
  {
    var (ka, kb, kab) := (ContinuedRelStampData(dt, a), ContinuedRelStampData(dt, b), ContinuedRelStampData(dt, a + b));
    assert [ka, kb][1..] == [kb] && [kb][1..] == [] && [kab][1..] == [];
    RelTwice(c, dt, a, b);
    hide Apply;
    match Apply(off, c, ka)
    case Err(_) =>
    case Ok(c') =>
      assert Fold(off, c', [kb]) == Apply(off, c', kb);
  }

  lemma {:induction false} RelTwice(c: Channel, dt: DataType, a: seq<RelStamped>, b: seq<RelStamped>)
    ensures ApplyRel(c, dt, a + b) == match ApplyRel(c, dt, a) case Err(e) => Err(e) case Ok(c') => ApplyRel(c', dt, b)
  {
    hide RelTimes, LastRel, RelPayloads;
    if c.last.Some? && c.state.Timestamped? {
      var (t, ts, vs) := (c.last.value, c.state.timestamps, c.state.values);
      RelTimesConcat(t, a, b);
      LastRelConcat(t, a, b);
      RelPayloadsConcat(a, b);
      assert ts + RelTimes(t, a + b) == ts + RelTimes(t, a) + RelTimes(LastRel(t, a), b);
      assert vs + RelPayloads(a + b) == vs + RelPayloads(a) + RelPayloads(b);
    }
  }

  lemma RelPayloadsConcat(a: seq<RelStamped>, b: seq<RelStamped>)
    ensures RelPayloads(a + b) == RelPayloads(a) + RelPayloads(b)
  {
  }
}
