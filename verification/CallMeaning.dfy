/**
 What a list of write calls amounts to, channel by channel: which values, which
 timestamps, which segments. Stated without the builder, and proved to be what the
 builder makes of the calls.
 */
module CallMeaning {
  import opened Bytes
  import opened OsfTypes
  import opened Builder
  import opened Loader
  import opened Chunking

  // ---------------------------------------------------------------------
  // The samples of a list of calls.
  // ---------------------------------------------------------------------

  function ValuesOf(call: Call): seq<bytes> {
    match call
    case StartSegment(_, _, _, _, samples) => samples
    case AppendSamples(_, _, samples) => samples
    case WriteTimestamped(_, _, pairs) => Payloads(pairs)
    case WriteVariable(_, _, sample) => [sample.value]
  }

  function TimesOf(call: Call): seq<i64> {
    match call
    case StartSegment(_, _, _, _, _) => []
    case AppendSamples(_, _, _) => []
    case WriteTimestamped(_, _, pairs) => Times(pairs)
    case WriteVariable(_, _, sample) => [sample.ts]
  }

  /** Every value written to channel `k`, in order. */
  function ValuesOn(calls: seq<Call>, k: u16): seq<bytes> {
    if calls == [] then [] else (if calls[0].ch == k then ValuesOf(calls[0]) else []) + ValuesOn(calls[1..], k)
  }

  /** Every timestamp written to channel `k`, in order. */
  function TimesOn(calls: seq<Call>, k: u16): seq<i64> {
    if calls == [] then [] else (if calls[0].ch == k then TimesOf(calls[0]) else []) + TimesOn(calls[1..], k)
  }

  /** The segments after one more call on a channel that holds `n` values. */
  function NextSegments(segs: seq<Segment>, n: nat, call: Call): seq<Segment> {
    match call
    case StartSegment(_, _, start, rate, samples) => segs + [Segment(start, rate, n, |samples|)]
    case AppendSamples(_, _, samples) => if segs == [] then [] else GrowLast(segs, |samples|)
    case WriteTimestamped(_, _, _) => segs
    case WriteVariable(_, _, _) => segs
  }

  /**
   The segments the calls lay on channel `k`, behind `segs` and `n` values: a start
   opens one where the values end, an append makes the last one longer.
   */
  function SegmentsOn(calls: seq<Call>, k: u16, segs: seq<Segment>, n: nat): seq<Segment>
    decreases |calls|
  {
    if calls == [] then segs
    else if calls[0].ch != k then SegmentsOn(calls[1..], k, segs, n)
    else SegmentsOn(calls[1..], k, NextSegments(segs, n, calls[0]), n + |ValuesOf(calls[0])|)
  }

  predicate TimestampedOn(calls: seq<Call>, k: u16) {
    calls != [] && ((calls[0].ch == k && calls[0].WriteTimestamped?) || TimestampedOn(calls[1..], k))
  }

  /** The channel that holds exactly what the calls wrote to it. */
  function ChannelOf(k: u16, dt: DataType, calls: seq<Call>): DataChannel {
    if IsVariable(dt) then VariableChannel(k, dt, TimesOn(calls, k), ValuesOn(calls, k))
    else if TimestampedOn(calls, k) then TimestampedChannel(k, dt, TimesOn(calls, k), ValuesOn(calls, k))
    else EquidistantChannel(k, dt, ValuesOn(calls, k), SegmentsOn(calls, k, [], 0))
  }

  // ---------------------------------------------------------------------
  // The builder.
  // ---------------------------------------------------------------------

  /** What a list of calls makes of the channels, each call taken whole. */
  function ApplyCalls(off: Offset, cs: Channels, calls: seq<Call>): Result<Channels>
    decreases |calls|
  {
    if calls == [] then Ok(cs)
    else if calls[0].ch !in cs then Err(UnknownChannelIndex)
    else
      match Apply(off, cs[calls[0].ch], Meaning(calls[0]))
      case Err(e) => Err(e)
      case Ok(c) => ApplyCalls(off, cs[calls[0].ch := c], calls[1..])
  }

  function ValuesIn(s: State): seq<bytes> {
    match s
    case Pending => []
    case Equidistant(samples, _) => samples
    case Timestamped(_, values) => values
    case Variable(_, values) => values
    case Dropped => []
  }

  function TimesIn(s: State): seq<i64> {
    match s
    case Pending => []
    case Equidistant(_, _) => []
    case Timestamped(ts, _) => ts
    case Variable(ts, _) => ts
    case Dropped => []
  }

  function SegmentsIn(s: State): seq<Segment> {
    if s.Equidistant? then s.segments else []
  }

  /** The layout suits the datatype, and the channel is not one that drops its blocks. */
  predicate Usable(c: Channel) {
    !c.state.Dropped? && (c.state.Variable? <==> IsVariable(c.dt))
  }

  /** `c'` is `c` with the samples of one call behind its own. */
  predicate Took(c: Channel, c': Channel, call: Call) {
    && Usable(c') && c'.dt == c.dt
    && ValuesIn(c'.state) == ValuesIn(c.state) + ValuesOf(call)
    && TimesIn(c'.state) == TimesIn(c.state) + TimesOf(call)
    && SegmentsIn(c'.state) == NextSegments(SegmentsIn(c.state), |ValuesIn(c.state)|, call)
    && !c'.state.Pending? && (c'.state.Timestamped? <==> c.state.Timestamped? || call.WriteTimestamped?)
  }

  lemma StartTaken(off: Offset, c: Channel, call: Call)
    requires Typed(call) && Usable(c) && call.StartSegment? && Apply(off, c, Meaning(call)).Ok?
    ensures Took(c, Apply(off, c, Meaning(call)).value, call)
  {
    hide LastFromSegment;
  }

  lemma AppendTaken(off: Offset, c: Channel, call: Call)
    requires Typed(call) && Usable(c) && call.AppendSamples? && Apply(off, c, Meaning(call)).Ok?
    ensures Took(c, Apply(off, c, Meaning(call)).value, call)
  {
    hide LastFromSegment, GrowLast;
  }

  lemma TimestampedTaken(off: Offset, c: Channel, call: Call)
    requires Typed(call) && Usable(c) && call.WriteTimestamped? && Apply(off, c, Meaning(call)).Ok?
    ensures Took(c, Apply(off, c, Meaning(call)).value, call)
  {
    hide Times, Payloads, LastOf;
    assert [] + Times(call.pairs) == Times(call.pairs) && [] + Payloads(call.pairs) == Payloads(call.pairs);
  }

  lemma VariableTaken(off: Offset, c: Channel, call: Call)
    requires Typed(call) && Usable(c) && call.WriteVariable? && Apply(off, c, Meaning(call)).Ok?
    ensures Took(c, Apply(off, c, Meaning(call)).value, call)
  {
    hide LastOf;
    assert Times([call.sample]) == [call.sample.ts] && Payloads([call.sample]) == [call.sample.value];
  }

  /** One accepted call: its samples go behind the others, and nothing else happens. */
  lemma {:induction false} CallTaken(off: Offset, c: Channel, call: Call)
    requires Typed(call) && Usable(c) && Apply(off, c, Meaning(call)).Ok?
    ensures Took(c, Apply(off, c, Meaning(call)).value, call)
  {
    hide Apply, Meaning, Took, Typed, Usable;
    match call
    case StartSegment(_, _, _, _, _) => StartTaken(off, c, call);
    case AppendSamples(_, _, _) => AppendTaken(off, c, call);
    case WriteTimestamped(_, _, _) => TimestampedTaken(off, c, call);
    case WriteVariable(_, _, _) => VariableTaken(off, c, call);
  }

  /**
   What the builder makes of accepted calls is what they say: channel `k` holds its
   old values and timestamps followed by those of the calls on `k`, in order, and
   the segments those calls lay.
   */
  lemma {:induction false} CallsTaken(off: Offset, cs: Channels, calls: seq<Call>, k: u16)
    requires ApplyCalls(off, cs, calls).Ok? && (forall c :: c in calls ==> Typed(c))
    requires k in cs && Usable(cs[k])
    ensures var out := ApplyCalls(off, cs, calls).value;
            && k in out && Usable(out[k]) && out[k].dt == cs[k].dt
            && ValuesIn(out[k].state) == ValuesIn(cs[k].state) + ValuesOn(calls, k)
            && TimesIn(out[k].state) == TimesIn(cs[k].state) + TimesOn(calls, k)
            && SegmentsIn(out[k].state) == SegmentsOn(calls, k, SegmentsIn(cs[k].state), |ValuesIn(cs[k].state)|)
            && (out[k].state.Timestamped? <==> cs[k].state.Timestamped? || TimestampedOn(calls, k))
    decreases |calls|
  {
    hide Apply, Meaning, Usable, ValuesIn, TimesIn, SegmentsIn, ValuesOf, TimesOf, NextSegments, Typed;
    if calls == [] {
      assert ValuesIn(cs[k].state) + [] == ValuesIn(cs[k].state) && TimesIn(cs[k].state) + [] == TimesIn(cs[k].state);
    } else {
      var call := calls[0];
      var c := Apply(off, cs[call.ch], Meaning(call)).value;
      var cs1 := cs[call.ch := c];
      if call.ch == k {
        CallTaken(off, cs[k], call);
      }
      CallsTaken(off, cs1, calls[1..], k);
      Regroup(ValuesIn(cs[k].state), ValuesOf(call), ValuesOn(calls[1..], k));
      Regroup(TimesIn(cs[k].state), TimesOf(call), TimesOn(calls[1..], k));
    }
  }

  lemma Regroup<T>(a: seq<T>, b: seq<T>, c: seq<T>)
    ensures a + b + c == a + (b + c) && a + ([] + c) == a + c
  {
  }

  lemma FreshUsable(dt: DataType)
    requires !dt.Unsupported?
    ensures Usable(Fresh(dt)) && ValuesIn(Fresh(dt).state) == [] && TimesIn(Fresh(dt).state) == []
            && SegmentsIn(Fresh(dt).state) == []
    ensures !Fresh(dt).state.Timestamped?
  {
  }

  lemma FinalizedIs(k: u16, c: Channel)
    requires Usable(c) && !c.dt.Unsupported?
    ensures Finalize(k, c)
         == Some(if c.state.Variable? then VariableChannel(k, c.dt, TimesIn(c.state), ValuesIn(c.state))
                 else if c.state.Timestamped? then TimestampedChannel(k, c.dt, TimesIn(c.state), ValuesIn(c.state))
                 else EquidistantChannel(k, c.dt, ValuesIn(c.state), SegmentsIn(c.state)))
  {
  }

  /** From a fresh channel the calls build exactly the channel that holds what they wrote. */
  lemma {:induction false} CallsBuildChannel(off: Offset, cs: Channels, calls: seq<Call>, k: u16, dt: DataType)
    requires ApplyCalls(off, cs, calls).Ok? && (forall c :: c in calls ==> Typed(c))
    requires k in cs && cs[k] == Fresh(dt) && !dt.Unsupported?
    ensures k in ApplyCalls(off, cs, calls).value
    ensures Finalize(k, ApplyCalls(off, cs, calls).value[k]) == Some(ChannelOf(k, dt, calls))
  {
    hide ApplyCalls, ValuesIn, TimesIn, SegmentsIn, Finalize, Fresh, ValuesOn, TimesOn, SegmentsOn, TimestampedOn;
    FreshUsable(dt);
    CallsTaken(off, cs, calls, k);
    FreshHasType(dt);
    FinalizedIs(k, ApplyCalls(off, cs, calls).value[k]);
    assert [] + ValuesOn(calls, k) == ValuesOn(calls, k) && [] + TimesOn(calls, k) == TimesOn(calls, k);
  }
}
