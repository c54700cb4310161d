/**
 `fromManager` as it runs (copyDcData and fromManager in blockwriter.cpp): the
 channels of a loaded file are replayed into a block writer object. Proved against Copy.
 */
module CopyManager {
  import opened Bytes
  import opened OsfTypes
  import opened Payload
  import opened Crc32cModel
  import opened BlockStream
  import opened Builder
  import opened Loader
  import opened StreamingSpec
  import opened BlockSpec
  import opened BlockRoundTrip
  import opened Copy
  import opened BlockWriters

  lemma ZipTyped(dt: DataType, ts: seq<i64>, vs: seq<bytes>)
    requires |ts| == |vs| && AllValues(dt, vs)
    ensures AllStampedValues(dt, Zip(ts, vs))
  {
    hide IsValue;
    forall p | p in Zip(ts, vs)
      ensures IsValue(dt, p.value)
    {
      var i :| 0 <= i < |ts| && Zip(ts, vs)[i] == p;
      assert vs[i] in vs;
    }
  }

  /** One addEquidistantSegment per non-empty segment. */
  method CopySegmentLoop(b: BlockWriter, ch: u16, dt: DataType, samples: seq<bytes>, segs: seq<Segment>)
    returns (r: Result<()>)
    requires b.Valid() && Tiles(segs, 0, |samples|) && AllValues(dt, samples)
    modifies b`channelData
    ensures b.Valid()
    ensures match CopySegments(old(b.channelData), ch, dt, samples, segs, 0)
            case Err(e) => r == Err(e)
            case Ok(data) => r == Ok(()) && b.channelData == data
  {
    hide TablesCorrect, Add, AllValues, Tiles, ValidWriter;
    assert segs[0..] == segs;
    ghost var from := 0;
    for i := 0 to |segs|
      invariant b.Valid() && 0 <= from && Tiles(segs[i..], from, |samples|)
      invariant CopySegments(b.channelData, ch, dt, samples, segs[i..], from)
             == CopySegments(old(b.channelData), ch, dt, samples, segs, 0)
    {
      assert segs[i..][1..] == segs[i + 1..];
      TilesTail(segs[i..], from, |samples|);
      var s := segs[i];
      ghost var start := from;
      from := from + s.sampleCount;
      if s.sampleCount == 0 {
        continue;
      }
      if !(dt.Float? || dt.Double?) {
        return Err(InvalidBlock);
      }
      SliceValues(dt, samples, s.startIndex, s.startIndex + s.sampleCount);
      r := b.AddEquidistantSegment(ch, dt, s.start, s.rate, samples[s.startIndex..s.startIndex + s.sampleCount]);
      if r.Err? {
        return;
      }
    }
    r := Ok(());
  }

  /** All samples of one loaded channel. */
  method CopyDcData(b: BlockWriter, ch: u16, dc: DataChannel) returns (r: Result<()>)
    requires b.Valid() && WellLoaded(dc)
    modifies b`channelData
    ensures b.Valid()
    ensures match CopyChannel(old(b.channelData), ch, dc)
            case Err(e) => r == Err(e)
            case Ok(data) => r == Ok(()) && b.channelData == data
  {
    hide TablesCorrect, Add, AllValues, Tiles, ValidWriter, CopySegments, Zip, AllStampedValues;
    match dc {
      case EquidistantChannel(_, dt, samples, segs) => r := CopySegmentLoop(b, ch, dt, samples, segs);
      case TimestampedChannel(_, dt, ts, vs) =>
        if |ts| == 0 {
          return Ok(());
        }
        ZipTyped(dt, ts, vs);
        r := b.AddTimestampedSamples(ch, dt, Zip(ts, vs));
        if r.Ok? {
          r := Ok(());
        }
      case VariableChannel(_, dt, ts, vs) =>
        if |ts| == 0 {
          return Ok(());
        }
        r := b.AddVariableSamples(ch, if dt.String? then DataType.String else Binary, Zip(ts, vs));
        if r.Ok? {
          r := Ok(());
        }
    }
  }

  /** A writer holding what the loaded channels hold, or the first error. */
  method FromDataManager(tables: array2<word>, mgr: seq<Loaded>) returns (r: Result<()>, b: BlockWriter)
    requires TablesCorrect(tables) && forall l :: l in mgr ==> WellLoaded(l.channel)
    ensures fresh(b) && b.Valid()
    ensures match FromManager(NEW_WRITER, mgr)
            case Err(e) => r == Err(e)
            case Ok(bw) => r == Ok(()) && b.View() == bw
  {
    hide TablesCorrect, AddDef, CopyChannel, WellLoaded, ValidWriter;
    b := new BlockWriter(tables, NoIntegrity);
    assert mgr[0..] == mgr;
    for i := 0 to |mgr|
      invariant fresh(b) && b.Valid()
      invariant FromManager(b.View(), mgr[i..]) == FromManager(NEW_WRITER, mgr)
    {
      assert mgr[i..][1..] == mgr[i + 1..];
      assert mgr[i] in mgr;
      AddDefIndex(b.View(), DefOf(mgr[i]));
      var idx := b.AddChannelDef(DefOf(mgr[i]));
      if idx.Err? {
        return Err(idx.error), b;
      }
      var copied := CopyDcData(b, idx.value, mgr[i].channel);
      if copied.Err? {
        return Err(copied.error), b;
      }
    }
    r := Ok(());
  }

  lemma AddDefIndex(bw: BlockFile, def: ChannelDef)
    ensures AddDef(bw, def).Ok? ==> |AddDef(bw, def).value.channels| - 1 == |bw.channels|
  {
  }
}
