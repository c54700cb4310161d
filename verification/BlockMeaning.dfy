/**
 What a list of blocks says of a channel, and which lists make sense: the values,
 timestamps and segments they describe, and the first block that does not fit behind
 the ones before it. Stated over the whole list, without the builder, and proved to
 be what the builder makes of it, errors included.
 */
module BlockMeaning {
  import opened Bytes
  import opened OsfTypes
  import opened BlockStream
  import opened Builder
  import opened Loader

  // ---------------------------------------------------------------------
  // What blocks say.
  // ---------------------------------------------------------------------

  function BlockValues(k: BlockKind): seq<bytes> {
    match k
    case StartData(_, _, _, samples) => samples
    case ContinuedData(_, samples) => samples
    case AbsTimestampData(_, pairs) => seq(|pairs|, i requires 0 <= i < |pairs| => pairs[i].value)
    case ContinuedRelStampData(_, deltas) => seq(|deltas|, i requires 0 <= i < |deltas| => deltas[i].value)
    case Skipped(_, _, _) => []
  }

  /**
   The timestamps a block adds behind `before`: its own, or, for deltas, the last one
   plus the deltas so far, capped at the largest i64.
   */
  function BlockTimes(before: seq<i64>, k: BlockKind): seq<i64> {
    match k
    case StartData(_, _, _, _) => []
    case ContinuedData(_, _) => []
    case AbsTimestampData(_, pairs) => seq(|pairs|, i requires 0 <= i < |pairs| => pairs[i].ts)
    case ContinuedRelStampData(_, deltas) =>
      if before == [] then []
      else
        var t := before[|before| - 1];
        seq(|deltas|, i requires 0 <= i < |deltas| => Capped(t + SumDeltas(deltas[..i + 1])))
    case Skipped(_, _, _) => []
  }

  function Capped(t: int): i64
    requires t >= -TWO_TO_THE_63
  {
    if t < TWO_TO_THE_63 then t else TWO_TO_THE_63 - 1
  }

  /** The segments after one more block on a channel that holds `n` values. */
  function BlockSegments(before: seq<Segment>, n: nat, k: BlockKind): seq<Segment> {
    match k
    case StartData(_, start, rate, samples) => before + [Segment(start, rate, n, |samples|)]
    case ContinuedData(_, samples) =>
      if before == [] then []
      else
        var l := before[|before| - 1];
        before[..|before| - 1] + [Segment(l.start, l.rate, l.startIndex, l.sampleCount + |samples|)]
    case AbsTimestampData(_, _) => before
    case ContinuedRelStampData(_, _) => before
    case Skipped(_, _, _) => before
  }

  function ValuesSaid(ks: seq<BlockKind>): seq<bytes> {
    if ks == [] then [] else ValuesSaid(ks[..|ks| - 1]) + BlockValues(ks[|ks| - 1])
  }

  function TimesSaid(ks: seq<BlockKind>): seq<i64> {
    if ks == [] then []
    else
      var before := TimesSaid(ks[..|ks| - 1]);
      before + BlockTimes(before, ks[|ks| - 1])
  }

  function SegmentsSaid(ks: seq<BlockKind>): seq<Segment> {
    if ks == [] then []
    else
      var front := ks[..|ks| - 1];
      BlockSegments(SegmentsSaid(front), |ValuesSaid(front)|, ks[|ks| - 1])
  }

  predicate HasStart(ks: seq<BlockKind>) {
    exists k :: k in ks && k.StartData?
  }

  predicate HasAbsolute(ks: seq<BlockKind>) {
    exists k :: k in ks && k.AbsTimestampData?
  }

  // ---------------------------------------------------------------------
  // Which blocks fit.
  // ---------------------------------------------------------------------

  /** Why block `k` does not fit behind `before` on a channel of type `dt`, if it does not. */
  function Refusal(dt: DataType, before: seq<BlockKind>, k: BlockKind): Option<Error> {
    if k.Skipped? then None
    else if k.dt != dt then Some(DataTypeMismatch)
    else if k.ContinuedRelStampData? then
      if dt.Unsupported? || ValuesSaid(before) == [] then Some(RelStampWithoutAnchor)
      else if IsVariable(dt) || !HasAbsolute(before) then Some(ChannelMixedBlockTypes)
      else None
    else if dt.Unsupported? then None
    else if k.AbsTimestampData? then
      if dt.ByteArray? then Some(DataTypeMismatch)
      else if HasStart(before) then Some(ChannelMixedBlockTypes)
      else None
    else if IsVariable(dt) || HasAbsolute(before) then Some(ChannelMixedBlockTypes)
    else if k.ContinuedData? && !HasStart(before) then Some(ContinuedDataWithoutStart)
    else None
  }

  /** The error of the first block that does not fit. */
  function FirstRefusal(dt: DataType, ks: seq<BlockKind>): Option<Error> {
    if ks == [] then None
    else
      var front := ks[..|ks| - 1];
      if FirstRefusal(dt, front).Some? then FirstRefusal(dt, front) else Refusal(dt, front, ks[|ks| - 1])
  }

  // ---------------------------------------------------------------------
  // The builder makes exactly that of them.
  // ---------------------------------------------------------------------

  /** The builder's state for a list of blocks that fit. */
  function StateSaid(dt: DataType, ks: seq<BlockKind>): State {
    if dt.Unsupported? then Dropped
    else if IsVariable(dt) then Variable(TimesSaid(ks), ValuesSaid(ks))
    else if HasStart(ks) then Equidistant(ValuesSaid(ks), SegmentsSaid(ks))
    else if HasAbsolute(ks) then Timestamped(TimesSaid(ks), ValuesSaid(ks))
    else Pending
  }

  /** The anchor for deltas: there is one as soon as there is a sample, and it is the last timestamp. */
  predicate AnchorSaid(dt: DataType, ks: seq<BlockKind>, last: Option<i64>) {
    if dt.Unsupported? then last == None
    else
      && (last.None? <==> ValuesSaid(ks) == [])
      && (!HasStart(ks) ==> |TimesSaid(ks)| == |ValuesSaid(ks)|
                            && last == if TimesSaid(ks) == [] then None else Some(TimesSaid(ks)[|TimesSaid(ks)| - 1]))
      && (HasStart(ks) ==> SegmentsSaid(ks) != []
                           && SegmentsSaid(ks)[|SegmentsSaid(ks)| - 1].sampleCount <= |ValuesSaid(ks)|)
  }

  /** Blocks of the two layouts never meet, and without either there are no values. */
  predicate OneLayout(dt: DataType, ks: seq<BlockKind>) {
    dt.Unsupported? ||
    (!(HasStart(ks) && HasAbsolute(ks)) && (IsVariable(dt) ==> !HasStart(ks))
     && (!HasStart(ks) ==> SegmentsSaid(ks) == [])
     && (!HasStart(ks) && !HasAbsolute(ks) ==> ValuesSaid(ks) == []))
  }

  predicate Says(dt: DataType, ks: seq<BlockKind>, c: Channel) {
    c.dt == dt && OneLayout(dt, ks) && c.state == StateSaid(dt, ks) && AnchorSaid(dt, ks, c.last)
  }

  lemma HasSnoc(ks: seq<BlockKind>, k: BlockKind)
    ensures HasStart(ks + [k]) <==> HasStart(ks) || k.StartData?
    ensures HasAbsolute(ks + [k]) <==> HasAbsolute(ks) || k.AbsTimestampData?
  {
    assert k in ks + [k];
    assert forall x :: x in ks ==> x in ks + [k];
  }

  lemma SaidSnoc(ks: seq<BlockKind>, k: BlockKind)
    ensures ValuesSaid(ks + [k]) == ValuesSaid(ks) + BlockValues(k)
    ensures TimesSaid(ks + [k]) == TimesSaid(ks) + BlockTimes(TimesSaid(ks), k)
    ensures SegmentsSaid(ks + [k]) == BlockSegments(SegmentsSaid(ks), |ValuesSaid(ks)|, k)
  {
    hide BlockValues, BlockTimes, BlockSegments;
    assert (ks + [k])[..|ks + [k]| - 1] == ks;
  }

  lemma RefusalSnoc(dt: DataType, ks: seq<BlockKind>, k: BlockKind)
    requires FirstRefusal(dt, ks).None?
    ensures FirstRefusal(dt, ks + [k]) == Refusal(dt, ks, k)
  {
    hide Refusal;
    assert (ks + [k])[..|ks + [k]| - 1] == ks;
  }

  /** A run of deltas in closed form is the run the builder computes step by step. */
  lemma {:induction false} DeltasCapped(anchor: i64, deltas: seq<RelStamped>)
    ensures RelTimes(anchor, deltas)
         == seq(|deltas|, i requires 0 <= i < |deltas| => Capped(anchor + SumDeltas(deltas[..i + 1])))
  {
    hide RelTimes, SumDeltas;
    forall i | 0 <= i < |deltas|
      ensures RelTimes(anchor, deltas)[i] == Capped(anchor + SumDeltas(deltas[..i + 1]))
    {
      RelTimesClosedForm(anchor, deltas, i);
    }
  }

  /** The builder's step on `k` is the step of the description. */
  ghost predicate StepAgrees(off: Offset, dt: DataType, ks: seq<BlockKind>, c: Channel, k: BlockKind) {
    match Refusal(dt, ks, k)
    case Some(e) => Apply(off, c, k) == Err(e)
    case None => Apply(off, c, k).Ok? && Says(dt, ks + [k], Apply(off, c, k).value)
  }

  lemma {:induction false} StartSaid(off: Offset, dt: DataType, ks: seq<BlockKind>, c: Channel, k: BlockKind)
    requires Says(dt, ks, c) && k.StartData?
    ensures StepAgrees(off, dt, ks, c, k)
  {
    hide ValuesSaid, TimesSaid, SegmentsSaid, HasStart, HasAbsolute;
    assert [] + k.samples == k.samples;
    assert TimesSaid(ks) + [] == TimesSaid(ks);
    HasSnoc(ks, k);
    SaidSnoc(ks, k);
  }

  lemma {:induction false} ContinuedSaid(off: Offset, dt: DataType, ks: seq<BlockKind>, c: Channel, k: BlockKind)
    requires Says(dt, ks, c) && k.ContinuedData?
    ensures StepAgrees(off, dt, ks, c, k)
  {
    hide ValuesSaid, TimesSaid, SegmentsSaid, HasStart, HasAbsolute;
    HasSnoc(ks, k);
    SaidSnoc(ks, k);
  }

  /** What an absolute block does to the two layouts that take one. */
  lemma AbsoluteApplied(c: Channel, k: BlockKind)
    requires k.AbsTimestampData? && k.dt == c.dt && (c.state.Pending? ==> IsFixed(c.dt) && c.last.None?)
    requires c.state.Variable? ==> IsVariable(c.dt) && !c.dt.ByteArray?
    requires c.state.Pending? || c.state.Timestamped? || c.state.Variable?
    ensures ApplyAbs(c, k.dt, k.pairs).Ok?
    ensures var c' := ApplyAbs(c, k.dt, k.pairs).value;
            var (ts, vs) := if c.state.Pending? then ([], []) else (c.state.timestamps, c.state.values);
            var ts' := ts + BlockTimes(ts, k);
            && c'.dt == c.dt
            && c'.state == (if c.state.Variable? then Variable(ts', vs + BlockValues(k))
                            else Timestamped(ts', vs + BlockValues(k)))
            && c'.last == if k.pairs == [] then c.last else Some(ts'[|ts'| - 1])
  {
    assert Times(k.pairs) == BlockTimes([], k) && Payloads(k.pairs) == BlockValues(k);
    assert [] + Times(k.pairs) == Times(k.pairs) && [] + Payloads(k.pairs) == Payloads(k.pairs);
  }

  /** An absolute block describes as many times as values, and no segments. */
  lemma AbsoluteAdds(before: seq<i64>, segs: seq<Segment>, n: nat, k: BlockKind)
    requires k.AbsTimestampData?
    ensures |BlockTimes(before, k)| == |k.pairs| == |BlockValues(k)| && BlockSegments(segs, n, k) == segs
    ensures before + [] == before && [] + BlockTimes(before, k) == BlockTimes(before, k)
    ensures [] + BlockValues(k) == BlockValues(k)
  {
  }

  /** Before a channel has a layout it has no samples. */
  lemma PendingIsEmpty(dt: DataType, ks: seq<BlockKind>, c: Channel)
    requires Says(dt, ks, c) && c.state.Pending?
    ensures ValuesSaid(ks) == [] && TimesSaid(ks) == [] && c.last.None?
  {
    hide ValuesSaid, TimesSaid, SegmentsSaid, HasStart, HasAbsolute;
  }

  lemma AbsoluteFits(off: Offset, dt: DataType, ks: seq<BlockKind>, c: Channel, k: BlockKind)
    requires Says(dt, ks, c) && k.AbsTimestampData? && k.dt == dt && !dt.Unsupported? && Refusal(dt, ks, k).None?
    ensures Apply(off, c, k).Ok? && Says(dt, ks + [k], Apply(off, c, k).value)
  {
    hide ValuesSaid, TimesSaid, SegmentsSaid, HasStart, HasAbsolute, ApplyAbs, BlockTimes, BlockValues, BlockSegments;
    HasSnoc(ks, k);
    SaidSnoc(ks, k);
    if c.state.Pending? {
      PendingIsEmpty(dt, ks, c);
    }
    AbsoluteApplied(c, k);
    AbsoluteAdds(TimesSaid(ks), SegmentsSaid(ks), |ValuesSaid(ks)|, k);
  }

  lemma AbsoluteRefused(off: Offset, dt: DataType, ks: seq<BlockKind>, c: Channel, k: BlockKind)
    requires Says(dt, ks, c) && k.AbsTimestampData? && Refusal(dt, ks, k).Some?
    ensures Apply(off, c, k) == Err(Refusal(dt, ks, k).value)
  {
    hide ValuesSaid, TimesSaid, SegmentsSaid, HasStart, HasAbsolute, AnchorSaid;
  }

  lemma AbsoluteDropped(off: Offset, dt: DataType, ks: seq<BlockKind>, c: Channel, k: BlockKind)
    requires Says(dt, ks, c) && k.AbsTimestampData? && k.dt == dt && dt.Unsupported?
    ensures Apply(off, c, k) == Ok(c) && Says(dt, ks + [k], c)
  {
    hide ValuesSaid, TimesSaid, SegmentsSaid, HasStart, HasAbsolute;
  }

  lemma {:induction false} AbsoluteSaid(off: Offset, dt: DataType, ks: seq<BlockKind>, c: Channel, k: BlockKind)
    requires Says(dt, ks, c) && k.AbsTimestampData?
    ensures StepAgrees(off, dt, ks, c, k)
  {
    hide Says, Apply, HasStart, HasAbsolute, ValuesSaid;
    if Refusal(dt, ks, k).Some? {
      AbsoluteRefused(off, dt, ks, c, k);
    } else if dt.Unsupported? {
      AbsoluteDropped(off, dt, ks, c, k);
    } else {
      AbsoluteFits(off, dt, ks, c, k);
    }
  }

  lemma {:induction false} RelativeSaid(off: Offset, dt: DataType, ks: seq<BlockKind>, c: Channel, k: BlockKind)
    requires Says(dt, ks, c) && k.ContinuedRelStampData?
    ensures StepAgrees(off, dt, ks, c, k)
  {
    hide ValuesSaid, TimesSaid, SegmentsSaid, HasStart, HasAbsolute, RelTimes, SumDeltas;
    HasSnoc(ks, k);
    SaidSnoc(ks, k);
    if c.last.Some? {
      DeltasCapped(c.last.value, k.deltas);
      assert RelPayloads(k.deltas) == BlockValues(k);
    }
  }

  /** One block more. */
  lemma {:induction false} StepSaid(off: Offset, dt: DataType, ks: seq<BlockKind>, c: Channel, k: BlockKind)
    requires Says(dt, ks, c)
    ensures StepAgrees(off, dt, ks, c, k)
  {
    hide Says, Refusal, Apply;
    match k
    case StartData(_, _, _, _) => StartSaid(off, dt, ks, c, k);
    case ContinuedData(_, _) => ContinuedSaid(off, dt, ks, c, k);
    case AbsTimestampData(_, _) => AbsoluteSaid(off, dt, ks, c, k);
    case ContinuedRelStampData(_, _) => RelativeSaid(off, dt, ks, c, k);
    case Skipped(_, _, _) => SkipSaid(off, dt, ks, c, k);
  }

  lemma {:induction false} SkipSaid(off: Offset, dt: DataType, ks: seq<BlockKind>, c: Channel, k: BlockKind)
    requires Says(dt, ks, c) && k.Skipped?
    ensures StepAgrees(off, dt, ks, c, k)
  {
    hide ValuesSaid, TimesSaid, SegmentsSaid, HasStart, HasAbsolute;
    HasSnoc(ks, k);
    SaidSnoc(ks, k);
  }

  /**
   The builder, exactly: over any list of blocks it ends in the state the list
   describes, or, if some block does not fit behind those before it, in that
   block's error.
   */
  lemma {:induction false} BuilderExactly(off: Offset, dt: DataType, ks: seq<BlockKind>)
    ensures match FirstRefusal(dt, ks)
            case Some(e) => Fold(off, Fresh(dt), ks) == Err(e)
            case None => Fold(off, Fresh(dt), ks).Ok? && Says(dt, ks, Fold(off, Fresh(dt), ks).value)
    decreases |ks|
  {
    hide Says, Refusal, Apply;
    if ks == [] {
      NothingSaid(dt);
    } else {
      var (front, k) := (ks[..|ks| - 1], ks[|ks| - 1]);
      BuilderExactly(off, dt, front);
      FoldConcat(off, Fresh(dt), front, [k]);
      assert ks == front + [k];
      if FirstRefusal(dt, front).None? {
        var c := Fold(off, Fresh(dt), front).value;
        FoldOne(off, c, k);
        StepSaid(off, dt, front, c, k);
      }
    }
  }

  lemma NothingSaid(dt: DataType)
    ensures Says(dt, [], Fresh(dt))
  {
  }

  /** A relative block on a channel that has an anchor, in closed form. */
  lemma {:induction false} RelativeApplied(off: Offset, c: Channel, deltas: seq<RelStamped>)
    requires c.state.Timestamped? && c.last.Some?
    ensures var (t, n, r) := (c.last.value, |deltas|, Apply(off, c, ContinuedRelStampData(c.dt, deltas)));
            && r.Ok? && r.value.dt == c.dt && r.value.state.Timestamped?
            && var (ts, vs) := (r.value.state.timestamps, r.value.state.values);
               var (m, l) := (|c.state.timestamps|, |c.state.values|);
               && c.state.timestamps <= ts && |ts| == m + n && c.state.values <= vs && |vs| == l + n
               && (forall k :: m <= k < m + n ==> ts[k] == Min(t + SumDeltas(deltas[..k - m + 1]), I64_MAX))
               && (forall k :: l <= k < l + n ==> vs[k] == deltas[k - l].value)
               && r.value.last == Some(if n == 0 then t else ts[|ts| - 1])
  {
    hide RelTimes, SumDeltas;
    DeltasCapped(c.last.value, deltas);
  }

  // ---------------------------------------------------------------------
  // Loading, exactly.
  // ---------------------------------------------------------------------

  /** The blocks that count for a channel: none on the index of signatures. */
  function BlocksOn(items: seq<Result<Block>>, ci: u16): seq<BlockKind> {
    if ci == SIGNATURE_CHANNEL_INDEX then [] else Project(items, ci)
  }

  /** Every item is a block of a declared channel or of the signature index, and fits behind those before it. */
  predicate Acceptable(meta: seq<MetaChannel>, items: seq<Result<Block>>) {
    && (forall r :: r in items ==> r.Ok? && (r.value.channelIndex == SIGNATURE_CHANNEL_INDEX
                                             || exists m :: m in meta && m.index == r.value.channelIndex))
    && forall i :: 0 <= i < |meta| && !Shadowed(meta[i..]) ==>
         FirstRefusal(meta[i].dt, BlocksOn(items, meta[i].index)).None?
  }

  /** The finished channel a list of blocks describes; a channel of unknown type is not handed out. */
  function ChannelSaid(index: u16, dt: DataType, ks: seq<BlockKind>): Option<DataChannel> {
    if dt.Unsupported? then None
    else if IsVariable(dt) then Some(VariableChannel(index, dt, TimesSaid(ks), ValuesSaid(ks)))
    else if HasAbsolute(ks) then Some(TimestampedChannel(index, dt, TimesSaid(ks), ValuesSaid(ks)))
    else Some(EquidistantChannel(index, dt, ValuesSaid(ks), SegmentsSaid(ks)))
  }

  /** The channels the items describe, in the order of the table; of an index declared twice the last entry counts. */
  function ChannelsSaid(meta: seq<MetaChannel>, items: seq<Result<Block>>): seq<DataChannel> {
    if meta == [] then []
    else
      var (m, rest) := (meta[0], ChannelsSaid(meta[1..], items));
      match ChannelSaid(m.index, m.dt, if Shadowed(meta) then [] else BlocksOn(items, m.index))
      case None => rest
      case Some(d) => [d] + rest
  }

  lemma {:induction false} SeedOf(meta: seq<MetaChannel>, i: nat)
    requires i < |meta| && !Shadowed(meta[i..])
    ensures meta[i].index in Seed(meta) && Seed(meta)[meta[i].index] == Fresh(meta[i].dt)
    decreases |meta|
  {
    hide Fresh;
    var n := |meta| - 1;
    if i < n {
      var front := meta[..n];
      assert meta[i..][n - i] == meta[n];
      forall j | 1 <= j < n - i
        ensures front[i..][j].index != front[i].index
      {
        assert front[i..][j] == meta[i..][j];
      }
      SeedOf(front, i);
    }
  }

  /** The last entry of a declared index. */
  lemma {:induction false} LastEntry(meta: seq<MetaChannel>, k: u16) returns (i: nat)
    requires exists m :: m in meta && m.index == k
    ensures i < |meta| && meta[i].index == k && !Shadowed(meta[i..])
    decreases |meta|
  {
    var n := |meta| - 1;
    if meta[n].index == k {
      i := n;
    } else {
      var front := meta[..n];
      i := LastEntry(front, k);
      forall j | 1 <= j < |meta| - i
        ensures meta[i..][j].index != k
      {
        if j < n - i {
          assert meta[i..][j] == front[i..][j];
        }
      }
    }
  }

  lemma {:induction false} SeedDeclared(meta: seq<MetaChannel>, k: u16)
    ensures k in Seed(meta) <==> exists m :: m in meta && m.index == k
  {
    hide Seed, ReaderChannels;
    SeedKeys(meta, k);
    if i :| 0 <= i < |meta| && meta[i].index == k {
      assert meta[i] in meta;
    }
  }

  lemma SaidFinalizes(index: u16, dt: DataType, ks: seq<BlockKind>, c: Channel)
    requires Says(dt, ks, c)
    ensures Finalize(index, c) == ChannelSaid(index, dt, ks)
  {
    hide ValuesSaid, TimesSaid, SegmentsSaid, HasStart, HasAbsolute;
  }

  /** `cs` is, channel by channel, what the blocks of the channel say. */
  ghost predicate AllSaid(meta: seq<MetaChannel>, items: seq<Result<Block>>, cs: Channels) {
    forall i :: 0 <= i < |meta| && !Shadowed(meta[i..]) ==>
      meta[i].index in cs && Says(meta[i].dt, BlocksOn(items, meta[i].index), cs[meta[i].index])
  }

  lemma {:induction false} AllFinalize(meta: seq<MetaChannel>, items: seq<Result<Block>>, cs: Channels)
    requires AllSaid(meta, items, cs)
    ensures FinalizeAll(meta, cs) == ChannelsSaid(meta, items)
    decreases |meta|
  {
    hide Says, Finalize, ChannelSaid, Fresh, BlocksOn;
    if meta != [] {
      assert meta[0..] == meta;
      assert forall i :: 0 <= i < |meta| - 1 ==> meta[1..][i..] == meta[i + 1..];
      AllFinalize(meta[1..], items, cs);
      NothingSaid(meta[0].dt);
      SaidFinalizes(meta[0].index, meta[0].dt, [], Fresh(meta[0].dt));
      if !Shadowed(meta) {
        SaidFinalizes(meta[0].index, meta[0].dt, BlocksOn(items, meta[0].index), cs[meta[0].index]);
      }
    }
  }

  lemma {:induction false} BuiltIsSaid(off: Offset, meta: seq<MetaChannel>, items: seq<Result<Block>>)
    requires Build(off, Seed(meta), items).Ok?
    ensures Acceptable(meta, items) && AllSaid(meta, items, Build(off, Seed(meta), items).value)
  {
    hide Build, Seed, Fold, Says, FirstRefusal, Fresh, Shadowed;
    var out := Build(off, Seed(meta), items).value;
    BuildIsPerChannel(off, Seed(meta), items);
    forall r | r in items
      ensures r.Ok? && (r.value.channelIndex == SIGNATURE_CHANNEL_INDEX
                        || exists m :: m in meta && m.index == r.value.channelIndex)
    {
      SeedDeclared(meta, r.value.channelIndex);
    }
    forall i | 0 <= i < |meta| && !Shadowed(meta[i..])
      ensures FirstRefusal(meta[i].dt, BlocksOn(items, meta[i].index)).None? && meta[i].index in out
      ensures Says(meta[i].dt, BlocksOn(items, meta[i].index), out[meta[i].index])
    {
      SeedOf(meta, i);
      BuilderExactly(off, meta[i].dt, BlocksOn(items, meta[i].index));
      FoldNone(off, Fresh(meta[i].dt));
    }
  }

  lemma {:induction false} AcceptableBuilds(off: Offset, meta: seq<MetaChannel>, items: seq<Result<Block>>)
    requires Acceptable(meta, items)
    ensures Build(off, Seed(meta), items).Ok?
  {
    hide Build, Seed, Fold, Says, FirstRefusal, Fresh, Shadowed;
    var seed := Seed(meta);
    var out := map k | k in seed ::
      if k != SIGNATURE_CHANNEL_INDEX && Fold(off, seed[k], Project(items, k)).Ok?
      then Fold(off, seed[k], Project(items, k)).value else seed[k];
    forall r | r in items
      ensures r.Ok? && (r.value.channelIndex in seed.Keys || r.value.channelIndex == SIGNATURE_CHANNEL_INDEX)
    {
      SeedDeclared(meta, r.value.channelIndex);
    }
    forall k | k in seed && k != SIGNATURE_CHANNEL_INDEX
      ensures Fold(off, seed[k], Project(items, k)) == Ok(out[k])
    {
      SeedDeclared(meta, k);
      var i := LastEntry(meta, k);
      SeedOf(meta, i);
      BuilderExactly(off, meta[i].dt, BlocksOn(items, k));
    }
    PerChannelBuilds(off, seed, items, out);
  }

  /**
   Loading, exactly: it succeeds if and only if every item the reader yields is a
   block of a declared channel, or of the signature index, that fits behind the
   earlier blocks of its channel; and then it hands out the channels the blocks
   describe, in the order of the table.
   */
  lemma {:induction false} LoadExactly(off: Offset, meta: seq<MetaChannel>, cfg: Config, data: bytes)
    ensures Load(off, meta, cfg, data).Ok? <==> Acceptable(meta, Items(cfg, data))
    ensures Load(off, meta, cfg, data).Ok? ==> Load(off, meta, cfg, data).value == ChannelsSaid(meta, Items(cfg, data))
  {
    hide Build, Seed, Items, Acceptable, AllSaid, FinalizeAll, ChannelsSaid;
    var items := Items(cfg, data);
    if Build(off, Seed(meta), items).Ok? {
      BuiltIsSaid(off, meta, items);
      AllFinalize(meta, items, Build(off, Seed(meta), items).value);
    } else if Acceptable(meta, items) {
      AcceptableBuilds(off, meta, items);
    }
  }
}
