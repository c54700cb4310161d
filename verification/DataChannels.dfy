/**
 Reading a finished channel back as timestamped samples (datachannel.cpp,
 data_channel.rs): for every channel a load can produce, each stored value comes out
 once, in order, and no index is ever out of range.
 */
module DataChannels {
  import opened Bytes
  import opened OsfTypes
  import opened Codec
  import opened Builder
  import opened Loader
  import opened BlockSpec
  import opened Copy

  function AllSamples(off: Offset, dc: DataChannel): seq<Stamped>
    requires WellLoaded(dc)
  {
    match dc
    case EquidistantChannel(_, _, samples, segs) => SamplesWithTime(off, segs, samples, 0)
    case TimestampedChannel(_, _, ts, values) => Zip(ts, values)
    case VariableChannel(_, _, ts, values) => Zip(ts, values)
  }

  /** Every stored value once, in order; the count is the sum over the segments, or the number of timestamps. */
  lemma {:induction false} AllSamplesCoverValues(off: Offset, dc: DataChannel)
    requires WellLoaded(dc)
    ensures Payloads(AllSamples(off, dc)) == StoredValues(dc) && |AllSamples(off, dc)| == |StoredValues(dc)|
    ensures !dc.EquidistantChannel? ==> Times(AllSamples(off, dc)) == dc.timestamps
  {
    hide AllValues, SamplesWithTime, Tiles;
    if dc.EquidistantChannel? {
      SamplesWithTimeCoversAll(off, dc.segments, dc.samples, 0);
    }
  }

  lemma {:induction false} SegmentSampleAt(off: Offset, seg: Segment, samples: seq<bytes>, i: nat, k: nat)
    requires i + k < seg.sampleCount && seg.startIndex + seg.sampleCount <= |samples|
    ensures SegmentSamples(off, seg, samples, i)[k]
         == Stamped(SegmentTimestamp(off, seg, i + k), samples[seg.startIndex + i + k])
    decreases k
  {
    hide SegmentTimestamp;
    if k > 0 {
      SegmentSampleAt(off, seg, samples, i + 1, k - 1);
    }
  }

  lemma {:induction false} SampleAt(off: Offset, segs: seq<Segment>, samples: seq<bytes>, from: nat, j: nat, i: nat)
    requires Tiles(segs, from, |samples|) && j < |segs| && i < segs[j].sampleCount
    ensures var at := segs[j].startIndex + i;
            && from <= at < |samples| && |SamplesWithTime(off, segs, samples, from)| == |samples| - from
            && SamplesWithTime(off, segs, samples, from)[at - from]
               == Stamped(SegmentTimestamp(off, segs[j], i), samples[at])
    decreases j
  {
    hide SegmentTimestamp, SegmentSamples, SamplesWithTime, Payloads;
    SamplesWithTimeCoversAll(off, segs, samples, from);
    TilesTail(segs, from, |samples|);
    SamplesHead(off, segs, samples, from);
    if j == 0 {
      SegmentSampleAt(off, segs[0], samples, 0, i);
    } else {
      SampleAt(off, segs[1..], samples, from + segs[0].sampleCount, j - 1, i);
    }
  }

  /**
   Every sample of every segment of a loaded channel comes out with its own time: the
   segment's start for the first one or at a rate that is not positive, and else the
   start plus the offset of its number at that rate, kept within the range of an i64.
   */
  lemma {:induction false} SampleTimes(off: Offset, dc: DataChannel, j: nat, i: nat)
    requires WellLoaded(dc) && dc.EquidistantChannel? && j < |dc.segments| && i < dc.segments[j].sampleCount
    ensures var (s, at) := (dc.segments[j], dc.segments[j].startIndex + i);
            && at < |dc.samples| && at < |AllSamples(off, dc)| && AllSamples(off, dc)[at].value == dc.samples[at]
            && var sum := s.start + off(i, s.rate);
               AllSamples(off, dc)[at].ts
               == if i == 0 || s.rate == 0 || s.rate > 0x7FF0_0000_0000_0000 then s.start
                  else if sum >= 0x8000_0000_0000_0000 then 0x7FFF_FFFF_FFFF_FFFF
                  else if sum < -0x8000_0000_0000_0000 then -0x8000_0000_0000_0000
                  else sum
  {
    hide AllValues, SamplesWithTime, Tiles;
    SampleAt(off, dc.segments, dc.samples, 0, j, i);
  }

  /** Every sample belongs to some segment, so every time is fixed this way. */
  lemma {:induction false} SampleHasSegment(segs: seq<Segment>, from: nat, to: nat, at: nat) returns (j: nat, i: nat)
    requires Tiles(segs, from, to) && from <= at < to
    ensures j < |segs| && i < segs[j].sampleCount && at == segs[j].startIndex + i
    decreases |segs|
  {
    if at < from + segs[0].sampleCount {
      j, i := 0, at - from;
    } else {
      var k, n := SampleHasSegment(segs[1..], from + segs[0].sampleCount, to, at);
      j, i := k + 1, n;
    }
  }

  /** One sample more of a segment. */
  lemma SegmentStep(off: Offset, seg: Segment, samples: seq<bytes>, i: nat)
    requires i < seg.sampleCount && seg.startIndex + seg.sampleCount <= |samples|
    ensures SegmentSamples(off, seg, samples, i)
         == [Stamped(SegmentTimestamp(off, seg, i), samples[seg.startIndex + i])]
           + SegmentSamples(off, seg, samples, i + 1)
  {
  }

  /** The samples of one segment. */
  method SegmentLoop(off: Offset, seg: Segment, samples: seq<bytes>) returns (out: seq<Stamped>)
    requires seg.startIndex + seg.sampleCount <= |samples|
    ensures out == SegmentSamples(off, seg, samples, 0)
  {
    hide SegmentTimestamp, SegmentSamples;
    out := [];
    for i := 0 to seg.sampleCount
      invariant out + SegmentSamples(off, seg, samples, i) == SegmentSamples(off, seg, samples, 0)
    {
      SegmentStep(off, seg, samples, i);
      out := out + [Stamped(SegmentTimestamp(off, seg, i), samples[seg.startIndex + i])];
    }
    assert out == out + SegmentSamples(off, seg, samples, seg.sampleCount);
  }

  method EquidistantSamples(off: Offset, samples: seq<bytes>, segs: seq<Segment>) returns (out: seq<Stamped>)
    requires Tiles(segs, 0, |samples|)
    ensures out == SamplesWithTime(off, segs, samples, 0)
  {
    hide Tiles, SegmentTimestamp, SegmentSamples, SamplesWithTime;
    out := [];
    ghost var from := 0;
    assert segs[0..] == segs;
    for k := 0 to |segs|
      invariant 0 <= from <= |samples| && Tiles(segs[k..], from, |samples|)
      invariant out + SamplesWithTime(off, segs[k..], samples, from) == SamplesWithTime(off, segs, samples, 0)
    {
      assert segs[k..][1..] == segs[k + 1..];
      TilesTail(segs[k..], from, |samples|);
      SamplesHead(off, segs[k..], samples, from);
      var s := SegmentLoop(off, segs[k], samples);
      Associative(out, s, SamplesWithTime(off, segs[k + 1..], samples, from + segs[k].sampleCount));
      out := out + s;
      from := from + segs[k].sampleCount;
    }
    SamplesNone(off, samples, from);
  }

  lemma SamplesHead(off: Offset, segs: seq<Segment>, samples: seq<bytes>, from: nat)
    requires segs != [] && Tiles(segs, from, |samples|)
    ensures segs[0].startIndex + segs[0].sampleCount <= |samples|
            && Tiles(segs[1..], from + segs[0].sampleCount, |samples|)
    ensures SamplesWithTime(off, segs, samples, from)
         == SegmentSamples(off, segs[0], samples, 0)
           + SamplesWithTime(off, segs[1..], samples, from + segs[0].sampleCount)
  {
    hide SegmentSamples;
    TilesTail(segs, from, |samples|);
  }

  lemma SamplesNone(off: Offset, samples: seq<bytes>, from: nat)
    requires Tiles([], from, |samples|)
    ensures SamplesWithTime(off, [], samples, from) == []
  {
  }

  method PairedSamples(ts: seq<i64>, values: seq<bytes>) returns (out: seq<Stamped>)
    requires |ts| == |values|
    ensures out == Zip(ts, values)
  {
    out := [];
    for i := 0 to |ts|
      invariant out == Zip(ts, values)[..i]
    {
      out := out + [Stamped(ts[i], values[i])];
    }
  }

  method SamplesVector(off: Offset, dc: DataChannel) returns (out: seq<Stamped>)
    requires WellLoaded(dc)
    ensures out == AllSamples(off, dc)
  {
    hide AllValues, SamplesWithTime, Tiles, Zip;
    match dc {
      case EquidistantChannel(_, _, samples, segs) => out := EquidistantSamples(off, samples, segs);
      case TimestampedChannel(_, _, ts, values) => out := PairedSamples(ts, values);
      case VariableChannel(_, _, ts, values) => out := PairedSamples(ts, values);
    }
  }
}
