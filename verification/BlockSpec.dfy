/**
 The block writer as functions: what the `add*` calls accumulate, which frames
 `emitChannel` produces, when a length field is widened (blockwriter.cpp).
 */
module BlockSpec {
  import opened Bytes
  import opened OsfTypes
  import opened Payload
  import opened Frame
  import opened Codec
  import opened Builder
  import opened Chunking

  datatype Kind = EmptyKind | EquidistantKind | TimestampedKind | VariableKind

  datatype EqSegment = EqSegment(start: i64, rate: u64, values: seq<bytes>)

  /** Samples accumulated for one channel; only the fields of its locked kind are in use. */
  datatype ChannelData = ChannelData(
    kind: Kind,
    dt: DataType,
    segments: seq<EqSegment>,
    times: seq<i64>,
    values: seq<bytes>)

  datatype AddCall =
    | AddSegment(ch: u16, dt: DataType, start: i64, rate: u64, samples: seq<bytes>)
    | AddTimestamped(ch: u16, dt: DataType, pairs: seq<Stamped>)
    | AddMessages(ch: u16, dt: DataType, pairs: seq<Stamped>)

  /** What the C++ types of the arguments guarantee. */
  predicate TypedAdd(call: AddCall) {
    match call
    case AddSegment(_, dt, _, _, samples) => (dt.Float? || dt.Double?) && AllValues(dt, samples)
    case AddTimestamped(_, dt, pairs) => IsFixed(dt) && AllStampedValues(dt, pairs)
    case AddMessages(_, dt, _) => dt.String? || dt.Binary?
  }

  function AddCount(call: AddCall): nat {
    match call
    case AddSegment(_, _, _, _, samples) => |samples|
    case AddTimestamped(_, _, pairs) => |pairs|
    case AddMessages(_, _, pairs) => |pairs|
  }

  function KindOf(call: AddCall): Kind {
    match call
    case AddSegment(_, _, _, _, _) => EquidistantKind
    case AddTimestamped(_, _, _) => TimestampedKind
    case AddMessages(_, _, _) => VariableKind
  }

  /** The checks of the `add*` methods, in their order. */
  function AddError(data: seq<ChannelData>, call: AddCall): Option<Error> {
    if AddCount(call) == 0 then Some(InvalidArgument)
    else if call.AddSegment? && !PositiveFiniteRate(call.rate) then Some(InvalidArgument)
    else if call.ch >= |data| then Some(InvalidArgument)
    else if !data[call.ch].kind.EmptyKind? && data[call.ch].kind != KindOf(call) then Some(InvalidBlock)
    else if data[call.ch].dt != call.dt then Some(DataTypeMismatch)
    else None
  }

  function Accumulate(cd: ChannelData, call: AddCall): ChannelData {
    match call
    case AddSegment(_, _, start, rate, samples) =>
      cd.(kind := EquidistantKind, segments := cd.segments + [EqSegment(start, rate, samples)])
    case AddTimestamped(_, _, pairs) =>
      cd.(kind := TimestampedKind, times := cd.times + Times(pairs), values := cd.values + Payloads(pairs))
    case AddMessages(_, _, pairs) =>
      cd.(kind := VariableKind, times := cd.times + Times(pairs), values := cd.values + Payloads(pairs))
  }

  function Add(data: seq<ChannelData>, call: AddCall): (seq<ChannelData>, Result<()>) {
    if AddError(data, call).Some? then (data, Err(AddError(data, call).value))
    else (data[call.ch := Accumulate(data[call.ch], call)], Ok(()))
  }

  /** What every accumulated channel satisfies. */
  predicate ValidData(cd: ChannelData) {
    match cd.kind
    case EmptyKind => cd.segments == [] && cd.times == [] && cd.values == []
    case EquidistantKind =>
      && (cd.dt.Float? || cd.dt.Double?) && cd.segments != [] && cd.times == [] && cd.values == []
      && forall s :: s in cd.segments ==> s.values != [] && PositiveFiniteRate(s.rate) && AllValues(cd.dt, s.values)
    case TimestampedKind =>
      IsFixed(cd.dt) && cd.segments == [] && |cd.times| == |cd.values| > 0 && AllValues(cd.dt, cd.values)
    case VariableKind =>
      (cd.dt.String? || cd.dt.Binary?) && cd.segments == [] && |cd.times| == |cd.values| > 0
  }

  function EmptyData(dt: DataType): ChannelData {
    ChannelData(EmptyKind, dt, [], [], [])
  }

  /** Accumulation keeps the channel valid and its kind and datatype locked. */
  lemma {:induction false} AddKeepsValid(data: seq<ChannelData>, call: AddCall)
    requires TypedAdd(call) && forall cd :: cd in data ==> ValidData(cd)
    ensures var r := Add(data, call);
            && |r.0| == |data|
            && (forall cd :: cd in r.0 ==> ValidData(cd))
            && forall i :: 0 <= i < |data| ==>
                 r.0[i].dt == data[i].dt && (!data[i].kind.EmptyKind? ==> r.0[i].kind == data[i].kind)
  {
    if AddError(data, call).None? {
      var cd := data[call.ch];
      assert cd in data;
      match call
      case AddSegment(_, _, _, _, _) =>
      case AddTimestamped(_, dt, pairs) =>
        forall v | v in Payloads(pairs)
          ensures IsValue(dt, v)
        {
          var i :| 0 <= i < |pairs| && Payloads(pairs)[i] == v;
          assert pairs[i] in pairs;
        }
      case AddMessages(_, _, _) =>
    }
  }

  // ---------------------------------------------------------------------
  // Emission.
  // ---------------------------------------------------------------------

  function Zip(times: seq<i64>, values: seq<bytes>): (r: seq<Stamped>)
    requires |times| == |values|
    ensures |r| == |times|
  {
    seq(|times|, i requires 0 <= i < |times| => Stamped(times[i], values[i]))
  }

  /** One write call per segment. */
  function SegmentCalls(dt: DataType, segs: seq<EqSegment>): (r: seq<Call>)
    ensures |r| == |segs|
  {
    seq(|segs|, i requires 0 <= i < |segs| => StartSegment(0, dt, segs[i].start, segs[i].rate, segs[i].values))
  }

  /** One write call per string or binary sample. */
  function MessageCalls(dt: DataType, pairs: seq<Stamped>): (r: seq<Call>)
    ensures |r| == |pairs|
  {
    seq(|pairs|, i requires 0 <= i < |pairs| => WriteVariable(0, dt, pairs[i]))
  }

  /** The calls whose frames `emitChannel` writes; the channel number plays no part in them. */
  function EmitCalls(cd: ChannelData): seq<Call>
    requires |cd.times| == |cd.values|
  {
    match cd.kind
    case EmptyKind => []
    case EquidistantKind => SegmentCalls(cd.dt, cd.segments)
    case TimestampedKind => [WriteTimestamped(0, cd.dt, Zip(cd.times, cd.values))]
    case VariableKind => MessageCalls(cd.dt, Zip(cd.times, cd.values))
  }

  function FlattenCalls(calls: seq<Call>, sov: nat, frameCrc: bool): seq<BlockKind>
    requires forall c :: c in calls ==> Width(c.dt) > 0 || c.WriteVariable?
    decreases |calls|
  {
    if calls == [] then [] else CallBlocks(calls[0], sov, frameCrc) + FlattenCalls(calls[1..], sov, frameCrc)
  }

  lemma ValidCalls(cd: ChannelData)
    requires ValidData(cd)
    ensures |cd.times| == |cd.values|
    ensures forall c :: c in EmitCalls(cd) ==>
            Typed(c) && Count(c) > 0 && c.dt == cd.dt && (Width(c.dt) > 0 || c.WriteVariable?)
  {
    if cd.kind.TimestampedKind? {
      var pairs := Zip(cd.times, cd.values);
      forall p | p in pairs
        ensures IsValue(cd.dt, p.value)
      {
        var i :| 0 <= i < |pairs| && pairs[i] == p;
        assert cd.values[i] in cd.values;
      }
    }
  }

  /** The blocks of one channel. */
  function EmitKinds(cd: ChannelData, sov: nat, frameCrc: bool): seq<BlockKind>
    requires ValidData(cd)
  {
    ValidCalls(cd);
    FlattenCalls(EmitCalls(cd), sov, frameCrc)
  }

  /** The capacity check of emitChannel: some sample is too large for one block. */
  predicate OverCapacity(cd: ChannelData, sov: nat, frameCrc: bool) {
    cd.kind.VariableKind? && exists v :: v in cd.values && |v| > VariableSampleCapacity(sov, frameCrc)
  }

  // ---------------------------------------------------------------------
  // What a loaded channel looks like.
  // ---------------------------------------------------------------------

  function FlatSamples(segs: seq<EqSegment>): seq<bytes> {
    if segs == [] then [] else segs[0].values + FlatSamples(segs[1..])
  }

  /** The segments laid head to tail from sample `from` on. */
  function Layout(segs: seq<EqSegment>, from: nat): seq<Segment>
    decreases |segs|
  {
    if segs == [] then []
    else [Segment(segs[0].start, segs[0].rate, from, |segs[0].values|)] + Layout(segs[1..], from + |segs[0].values|)
  }

  function ExpectedState(cd: ChannelData): State {
    match cd.kind
    case EmptyKind => InitialState(cd.dt)
    case EquidistantKind => Equidistant(FlatSamples(cd.segments), Layout(cd.segments, 0))
    case TimestampedKind => Timestamped(cd.times, cd.values)
    case VariableKind => Variable(cd.times, cd.values)
  }

  lemma {:induction false} FlattenFold(off: Offset, c: Channel, calls: seq<Call>, sov: nat, frameCrc: bool)
    requires forall x :: x in calls ==> Typed(x) && Count(x) > 0 && (Width(x.dt) > 0 || x.WriteVariable?)
    ensures Fold(off, c, FlattenCalls(calls, sov, frameCrc)) == Fold(off, c, Meanings(calls))
    decreases |calls|
  {
    hide Apply, CallBlocks, Meaning, Typed;
    if calls != [] {
      assert calls[0] in calls && forall x :: x in calls[1..] ==> x in calls;
      FoldConcat(off, c, CallBlocks(calls[0], sov, frameCrc), FlattenCalls(calls[1..], sov, frameCrc));
      ChunkingInvisible(off, c, calls[0], sov, frameCrc);
      assert Meanings(calls)[1..] == Meanings(calls[1..]);
      match Apply(off, c, Meaning(calls[0]))
      case Err(_) =>
      case Ok(c') => FlattenFold(off, c', calls[1..], sov, frameCrc);
    }
  }

  function Meanings(calls: seq<Call>): (r: seq<BlockKind>)
    ensures |r| == |calls|
  {
    seq(|calls|, i requires 0 <= i < |calls| => Meaning(calls[i]))
  }

  lemma SegmentMeanings(dt: DataType, segs: seq<EqSegment>)
    requires segs != []
    ensures Meanings(SegmentCalls(dt, segs))
         == [StartData(dt, segs[0].start, segs[0].rate, segs[0].values)] + Meanings(SegmentCalls(dt, segs[1..]))
  {
  }

  lemma SegmentApplied(off: Offset, c: Channel, seg: EqSegment)
    requires c.state.Equidistant? && IsFixed(c.dt)
    ensures var r := Apply(off, c, StartData(c.dt, seg.start, seg.rate, seg.values));
            && r.Ok? && r.value.dt == c.dt
            && r.value.state == Equidistant(c.state.samples + seg.values,
                                            c.state.segments
                                            + [Segment(seg.start, seg.rate, |c.state.samples|, |seg.values|)])
  {
    hide LastFromSegment;
  }

  lemma {:induction false} FoldHead(off: Offset, c: Channel, k: BlockKind, ks: seq<BlockKind>)
    ensures Fold(off, c, [k] + ks) == match Apply(off, c, k) case Err(e) => Err(e) case Ok(c') => Fold(off, c', ks)
  {
    hide Apply;
    assert ([k] + ks)[1..] == ks;
  }

  lemma NoMeanings(dt: DataType)
    ensures Meanings(SegmentCalls(dt, [])) == []
  {
  }

  lemma LayoutHead(segs: seq<EqSegment>, from: nat)
    requires segs != []
    ensures FlatSamples(segs) == segs[0].values + FlatSamples(segs[1..])
    ensures Layout(segs, from)
         == [Segment(segs[0].start, segs[0].rate, from, |segs[0].values|)] + Layout(segs[1..], from + |segs[0].values|)
  {
  }

  lemma NothingLaid(from: nat)
    ensures FlatSamples([]) == [] && Layout([], from) == []
  {
  }

  lemma {:induction false} SegmentsFold(off: Offset, c: Channel, segs: seq<EqSegment>)
    requires c.state.Equidistant? && IsFixed(c.dt)
    ensures var r := Fold(off, c, Meanings(SegmentCalls(c.dt, segs)));
            && r.Ok? && r.value.dt == c.dt
            && r.value.state
               == Equidistant(c.state.samples + FlatSamples(segs), c.state.segments + Layout(segs, |c.state.samples|))
    decreases |segs|
  {
    hide Apply, Fold, Meanings, SegmentCalls, IsFixed, FlatSamples, Layout;
    if segs == [] {
      NoMeanings(c.dt);
      FoldNone(off, c);
      NothingLaid(|c.state.samples|);
      assert c.state.samples + [] == c.state.samples && c.state.segments + [] == c.state.segments;
    } else {
      var k := StartData(c.dt, segs[0].start, segs[0].rate, segs[0].values);
      SegmentMeanings(c.dt, segs);
      SegmentApplied(off, c, segs[0]);
      FoldHead(off, c, k, Meanings(SegmentCalls(c.dt, segs[1..])));
      var c' := Apply(off, c, k).value;
      SegmentsFold(off, c', segs[1..]);
      LayoutHead(segs, |c.state.samples|);
      Associative(c.state.samples, segs[0].values, FlatSamples(segs[1..]));
      Associative(c.state.segments, c'.state.segments[|c.state.segments|..], Layout(segs[1..], |c'.state.samples|));
    }
  }

  lemma FirstSegmentFold(off: Offset, dt: DataType, segs: seq<EqSegment>)
    requires (dt.Float? || dt.Double?) && segs != []
    ensures var r := Fold(off, Fresh(dt), Meanings(SegmentCalls(dt, segs)));
            && r.Ok? && r.value.dt == dt
            && r.value.state == Equidistant(FlatSamples(segs), Layout(segs, 0))
  {
    hide LastFromSegment;
    var ks := Meanings(SegmentCalls(dt, segs));
    assert ks[0] == StartData(dt, segs[0].start, segs[0].rate, segs[0].values);
    assert ks[1..] == Meanings(SegmentCalls(dt, segs[1..]));
    var c' := Apply(off, Fresh(dt), ks[0]).value;
    SegmentsFold(off, c', segs[1..]);
  }

  lemma MessageMeanings(dt: DataType, pairs: seq<Stamped>)
    requires pairs != []
    ensures Meanings(MessageCalls(dt, pairs))
            == [AbsTimestampData(dt, [pairs[0]])] + Meanings(MessageCalls(dt, pairs[1..]))
    ensures Times(pairs) == [pairs[0].ts] + Times(pairs[1..])
            && Payloads(pairs) == [pairs[0].value] + Payloads(pairs[1..])
  {
  }

  lemma MessageApplied(off: Offset, c: Channel, p: Stamped)
    requires c.state.Variable? && (c.dt.String? || c.dt.Binary?)
    ensures var r := Apply(off, c, AbsTimestampData(c.dt, [p]));
            && r.Ok? && r.value.dt == c.dt
            && r.value.state == Variable(c.state.timestamps + [p.ts], c.state.values + [p.value])
  {
    assert Times([p]) == [p.ts] && Payloads([p]) == [p.value];
  }

  lemma {:induction false} MessagesFold(off: Offset, c: Channel, pairs: seq<Stamped>)
    requires c.state.Variable? && (c.dt.String? || c.dt.Binary?)
    ensures var r := Fold(off, c, Meanings(MessageCalls(c.dt, pairs)));
            && r.Ok? && r.value.dt == c.dt
            && r.value.state == Variable(c.state.timestamps + Times(pairs), c.state.values + Payloads(pairs))
    decreases |pairs|
  {
    hide Apply, Fold, Meanings, MessageCalls, Times, Payloads;
    if pairs == [] {
      assert Meanings(MessageCalls(c.dt, pairs)) == [];
      FoldNone(off, c);
    } else {
      var k := AbsTimestampData(c.dt, [pairs[0]]);
      MessageMeanings(c.dt, pairs);
      MessageApplied(off, c, pairs[0]);
      FoldHead(off, c, k, Meanings(MessageCalls(c.dt, pairs[1..])));
      var c' := Apply(off, c, k).value;
      MessagesFold(off, c', pairs[1..]);
      Associative(c.state.timestamps, [pairs[0].ts], Times(pairs[1..]));
      Associative(c.state.values, [pairs[0].value], Payloads(pairs[1..]));
    }
  }

  lemma ZipParts(times: seq<i64>, values: seq<bytes>)
    requires |times| == |values|
    ensures Times(Zip(times, values)) == times && Payloads(Zip(times, values)) == values
  {
  }

  /** Folding the emitted blocks of a channel gives back what was accumulated, whatever the chunking. */
  lemma {:induction false} EmittedFolds(off: Offset, cd: ChannelData, sov: nat, frameCrc: bool)
    requires ValidData(cd)
    ensures var r := Fold(off, Fresh(cd.dt), EmitKinds(cd, sov, frameCrc));
            r.Ok? && r.value.dt == cd.dt && r.value.state == ExpectedState(cd)
  {
    hide Fold, FlattenCalls, CallBlocks, Apply, Meanings, SegmentCalls, MessageCalls, Zip, FlatSamples, Layout,
         AllValues;
    ValidCalls(cd);
    FlattenFold(off, Fresh(cd.dt), EmitCalls(cd), sov, frameCrc);
    match cd.kind
    case EmptyKind =>
      assert Meanings([]) == [];
      FoldNone(off, Fresh(cd.dt));
    case EquidistantKind =>
      FirstSegmentFold(off, cd.dt, cd.segments);
    case TimestampedKind =>
      StampedFold(off, cd.dt, cd.times, cd.values);
    case VariableKind =>
      var pairs := Zip(cd.times, cd.values);
      ZipParts(cd.times, cd.values);
      MessagesFold(off, Fresh(cd.dt), pairs);
      assert [] + cd.times == cd.times && [] + cd.values == cd.values;
  }

  lemma StampedFold(off: Offset, dt: DataType, times: seq<i64>, values: seq<bytes>)
    requires IsFixed(dt) && |times| == |values|
    ensures var r := Fold(off, Fresh(dt), Meanings([WriteTimestamped(0, dt, Zip(times, values))]));
            r.Ok? && r.value.dt == dt && r.value.state == Timestamped(times, values)
  {
    hide Fold, Times, Payloads, Zip;
    var pairs := Zip(times, values);
    ZipParts(times, values);
    assert Meanings([WriteTimestamped(0, dt, pairs)]) == [AbsTimestampData(dt, pairs)];
    FoldOne(off, Fresh(dt), AbsTimestampData(dt, pairs));
  }
}
