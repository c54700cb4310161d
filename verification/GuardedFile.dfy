/**
 What the stale-value guard promises of the file: the timestamps and values a loader
 finds on a guarded channel are those the guard put there, so the bound on their
 spacing is one on the stored samples.
 */
module GuardedFile {
  import opened Bytes
  import opened OsfTypes
  import opened Builder
  import opened Loader
  import opened Chunking
  import opened StreamingSpec
  import opened CallMeaning
  import opened WriterFacts
  import opened CrashSafety
  import opened GuardSpec

  // ---------------------------------------------------------------------
  // The guard as a sequence of writer calls.
  // ---------------------------------------------------------------------

  /** The calls a sweep makes on the writer, the failing one included. */
  function PollAttempts(g: Guard, now: i64, ch: nat): (calls: seq<Call>)
    requires TypedCache(g) && ch <= 0x1_0000
    ensures forall c :: c in calls ==> Typed(c) && c.WriteTimestamped?
    decreases 0x1_0000 - ch
  {
    hide Perform;
    if ch == 0x1_0000 then []
    else if ch !in g.tracked || !Stale(g, ch, now) then PollAttempts(g, now, ch + 1)
    else
      RepeatTyped(ch, g.tracked[ch], now);
      var call := Repeat(ch, g.tracked[ch], now);
      var o := Perform(g.w, call);
      [call]
      + if o.r.Err? then []
        else PollAttempts(g.(w := o.w, tracked := g.tracked[ch := g.tracked[ch].(last := now)]), now, ch + 1)
  }

  function StepAttempts(g: Guard, e: Event): (calls: seq<Call>)
    requires TypedCache(g) && TypedEvent(e)
    ensures forall c :: c in calls ==> Typed(c) && (c.WriteTimestamped? || e == Bypassed(c))
  {
    match e
    case Wrote(ch, dt, pairs) => [WriteTimestamped(ch, dt, pairs)]
    case Polled(now) => PollAttempts(g, now, 0)
    case Bypassed(call) => [call]
    case Forgot(_) => []
    case Cleared => []
  }

  /** Every call a run makes on the writer. */
  function Attempts(g: Guard, events: seq<Event>): (calls: seq<Call>)
    requires TypedCache(g) && forall e :: e in events ==> TypedEvent(e)
    ensures forall c :: c in calls ==> Typed(c) && (c.WriteTimestamped? || Bypassed(c) in events)
    decreases |events|
  {
    hide StepGuard, StepAttempts, TypedCache, Typed;
    if events == [] then []
    else
      StepKeepsTyped(g, events[0]);
      StepAttempts(g, events[0]) + Attempts(StepGuard(g, events[0]).g, events[1..])
  }

  /** The calls of a run that succeeded. */
  function Made(g: Guard, events: seq<Event>): seq<Call>
    requires TypedCache(g) && forall e :: e in events ==> TypedEvent(e)
    decreases |events|
  {
    hide StepGuard, TypedCache;
    if events == [] then []
    else
      StepKeepsTyped(g, events[0]);
      StepGuard(g, events[0]).calls + Made(StepGuard(g, events[0]).g, events[1..])
  }

  lemma RunOne(w: Writer, call: Call)
    requires WellFormed(w) && Typed(call)
    ensures Run(w, [call]) == Perform(w, call).w
    ensures Succeeded(w, [call]) == if Perform(w, call).r.Ok? then [call] else []
  {
    hide Perform;
    var none := [call][1..];
    assert Run(Perform(w, call).w, none) == Perform(w, call).w;
  }

  lemma {:induction false} PollRuns(g: Guard, now: i64, ch: nat)
    requires TypedCache(g) && ch <= 0x1_0000
    ensures Run(g.w, PollAttempts(g, now, ch)) == PollFrom(g, now, ch).g.w
    ensures Succeeded(g.w, PollAttempts(g, now, ch)) == PollFrom(g, now, ch).calls
    decreases 0x1_0000 - ch
  {
    hide Perform, Run, Succeeded;
    if ch == 0x1_0000 {
      RunNothing(g.w);
    } else if ch !in g.tracked || !Stale(g, ch, now) {
      PollRuns(g, now, ch + 1);
    } else {
      RepeatTyped(ch, g.tracked[ch], now);
      var call := Repeat(ch, g.tracked[ch], now);
      var o := Perform(g.w, call);
      RunOne(g.w, call);
      if o.r.Err? {
        assert [call] + [] == [call];
      } else {
        var g' := g.(w := o.w, tracked := g.tracked[ch := g.tracked[ch].(last := now)]);
        PollRuns(g', now, ch + 1);
        RunConcat(g.w, [call], PollAttempts(g', now, ch + 1));
      }
    }
  }

  lemma RunNothing(w: Writer)
    requires WellFormed(w)
    ensures Run(w, []) == w && Succeeded(w, []) == []
  {
  }

  lemma StepRuns(g: Guard, e: Event)
    requires TypedCache(g) && TypedEvent(e)
    ensures Run(g.w, StepAttempts(g, e)) == StepGuard(g, e).g.w
    ensures Succeeded(g.w, StepAttempts(g, e)) == StepGuard(g, e).calls
  {
    hide Perform, Run, Succeeded, PollFrom, PollAttempts;
    match e
    case Wrote(ch, dt, pairs) => RunOne(g.w, WriteTimestamped(ch, dt, pairs));
    case Polled(now) => PollRuns(g, now, 0);
    case Bypassed(call) => RunOne(g.w, call);
    case Forgot(_) => RunNothing(g.w);
    case Cleared => RunNothing(g.w);
  }

  /** A guarded run is a run of the writer, and its successful calls are the writer's. */
  lemma {:induction false} GuardRuns(g: Guard, events: seq<Event>)
    requires TypedCache(g) && forall e :: e in events ==> TypedEvent(e)
    ensures Run(g.w, Attempts(g, events)) == RunGuard(g, events).w
    ensures Succeeded(g.w, Attempts(g, events)) == Made(g, events)
    decreases |events|
  {
    hide StepGuard, StepAttempts, TypedCache, Run, Succeeded, Typed;
    if events == [] {
      CacheWellFormed(g);
      RunNothing(g.w);
    } else {
      var g' := StepGuard(g, events[0]).g;
      CacheWellFormed(g);
      StepKeepsTyped(g, events[0]);
      StepRuns(g, events[0]);
      GuardRuns(g', events[1..]);
      RunConcat(g.w, StepAttempts(g, events[0]), Attempts(g', events[1..]));
    }
  }

  lemma CacheWellFormed(g: Guard)
    requires TypedCache(g)
    ensures WellFormed(g.w)
  {
  }

  // ---------------------------------------------------------------------
  // The trace as samples.
  // ---------------------------------------------------------------------

  function Samples(marks: seq<Mark>): (r: seq<Stamped>)
    ensures |r| == |marks|
  {
    seq(|marks|, i requires 0 <= i < |marks| => marks[i].sample)
  }

  lemma {:induction false} WrittenConcat(a: seq<Call>, b: seq<Call>, k: u16)
    ensures Written(a + b, k) == Written(a, k) + Written(b, k)
    decreases |a|
  {
    if a == [] {
      assert a + b == b;
    } else {
      assert (a + b)[1..] == a[1..] + b && (a + b)[0] == a[0];
      WrittenConcat(a[1..], b, k);
    }
  }

  lemma {:induction false} TraceIsWritten(g: Guard, events: seq<Event>, k: u16)
    requires TypedCache(g) && forall e :: e in events ==> TypedEvent(e)
    ensures Samples(Trace(g, events, k)) == Written(Made(g, events), k)
    decreases |events|
  {
    hide StepGuard, TypedCache, Written;
    if events == [] {
      assert Written([], k) == [] by { NothingWritten(k); }
    } else {
      var o := StepGuard(g, events[0]);
      StepKeepsTyped(g, events[0]);
      TraceIsWritten(o.g, events[1..], k);
      WrittenConcat(o.calls, Made(o.g, events[1..]), k);
      var (a, b) := (Marks(Written(o.calls, k), events[0].Polled?), Trace(o.g, events[1..], k));
      assert Samples(a + b) == Samples(a) + Samples(b);
      assert Samples(a) == Written(o.calls, k);
    }
  }

  lemma NothingWritten(k: u16)
    ensures Written([], k) == []
  {
  }

  /** On a channel written with timestamped calls only, the samples are those of the calls. */
  lemma {:induction false} OnlyTimestamped(calls: seq<Call>, k: u16)
    requires forall c :: c in calls && c.ch == k ==> c.WriteTimestamped?
    ensures TimesOn(calls, k) == Times(Written(calls, k)) && ValuesOn(calls, k) == Payloads(Written(calls, k))
    ensures !TimestampedOn(calls, k) ==> Written(calls, k) == []
    decreases |calls|
  {
    hide Times, Payloads;
    if calls == [] {
      assert Times([]) == [] && Payloads([]) == [] by { PayloadsConcat([], []); }
    } else {
      assert calls[0] in calls && forall c :: c in calls[1..] ==> c in calls;
      OnlyTimestamped(calls[1..], k);
      if calls[0].ch == k {
        PayloadsConcat(calls[0].pairs, Written(calls[1..], k));
      }
    }
  }

  /** Timestamps a finished channel stores itself. */
  function TimesStored(dc: DataChannel): seq<i64> {
    match dc
    case EquidistantChannel(_, _, _, _) => []
    case TimestampedChannel(_, _, ts, _) => ts
    case VariableChannel(_, _, ts, _) => ts
  }

  lemma {:induction false} SucceededAmong(w: Writer, calls: seq<Call>)
    requires WellFormed(w) && forall c :: c in calls ==> Typed(c)
    ensures forall c :: c in Succeeded(w, calls) ==> c in calls
    ensures Breaking(w, calls).Some? ==> Breaking(w, calls).value in calls
    decreases |calls|
  {
    hide Perform, Typed;
    if calls != [] {
      SucceededAmong(Perform(w, calls[0]).w, calls[1..]);
    }
  }

  lemma GuardedCallsTimestamped(g: Guard, events: seq<Event>, k: u16, c: Call)
    requires TypedCache(g) && (forall e :: e in events ==> TypedEvent(e)) && StaysGuarded(events, k)
    requires c in Attempts(g, events) && c.ch == k
    ensures c.WriteTimestamped?
  {
    hide Attempts;
    assert Bypassed(c) in events ==> LeavesGuarded(Bypassed(c), k);
  }

  /** What `tail` adds on channel `k`: the first samples of the torn call, if it was on `k`. */
  lemma TailTimestamped(g: Guard, events: seq<Event>, k: u16, tail: seq<Call>)
    requires TypedCache(g) && (forall e :: e in events ==> TypedEvent(e)) && StaysGuarded(events, k)
    requires var b := Breaking(g.w, Attempts(g, events)); (b.Some? ==> Typed(b.value)) && TornTail(g.w, tail, b)
    ensures forall c :: c in tail && c.ch == k ==> c.WriteTimestamped?
    ensures Written(tail, k) == [] || exists b: Call, n :: b in Attempts(g, events) && b.WriteTimestamped? && b.ch == k
                                                           && 0 < n <= |b.pairs| && Written(tail, k) == b.pairs[..n]
  {
    hide Attempts, Breaking, Frames, TotalCount;
    SucceededAmong(g.w, Attempts(g, events));
    forall c: Call | c in tail && c.ch == k
      ensures c.WriteTimestamped?
    {
      var b := Breaking(g.w, Attempts(g, events)).value;
      assert c.ch == b.ch;
      GuardedCallsTimestamped(g, events, k, b);
    }
    if tail != [] {
      TornSamples(Breaking(g.w, Attempts(g, events)).value, tail, k);
    } else {
      NothingWritten(k);
    }
  }

  lemma TornSamples(b: Call, tail: seq<Call>, k: u16)
    requires exists m :: 0 < m <= Count(b) && tail == [Shorten(b, m)]
    ensures Written(tail, k) == []
            || (b.WriteTimestamped? && b.ch == k && exists n :: 0 < n <= |b.pairs| && Written(tail, k) == b.pairs[..n])
  {
    var m :| 0 < m <= Count(b) && tail == [Shorten(b, m)];
    WrittenCons(Shorten(b, m), [], k);
    assert tail == [Shorten(b, m)] + [];
    if b.WriteTimestamped? && b.ch == k {
      assert Written(tail, k) == b.pairs[..m];
    }
  }

  lemma ChannelSamples(k: u16, dt: DataType, calls: seq<Call>)
    requires forall c :: c in calls && c.ch == k ==> c.WriteTimestamped?
    ensures TimesStored(ChannelOf(k, dt, calls)) == Times(Written(calls, k))
    ensures StoredValues(ChannelOf(k, dt, calls)) == Payloads(Written(calls, k))
  {
    OnlyTimestamped(calls, k);
    if !TimestampedOn(calls, k) {
      assert Times([]) == [];
    }
  }

  // ---------------------------------------------------------------------
  // The file.
  // ---------------------------------------------------------------------

  /** The guard over a just started writer, with nothing cached. */
  function NewGuard(w: Writer, interval: i64): Guard {
    Guard(w, interval, map[])
  }

  /**
   For every run of a guard over a started writer, every disk failure and every
   crash: a loader of the surviving file finds on a channel that is written only
   through the guard exactly the samples of the guard's trace, repeats included, in
   order, and behind them at most the first samples of one write that failed.
   */
  lemma {:induction false} GuardedChannelOnDisk(off: Offset, w: Writer, h: bytes, interval: i64, events: seq<Event>,
                                                k: u16, file: bytes, capture: bool)
    returns (loaded: seq<DataChannel>, torn: seq<Stamped>)
    requires Started(w, h) && (forall e :: e in events ==> TypedEvent(e)) && k < |w.channels| && StaysGuarded(events, k)
    requires AvoidsSignatures(w, Attempts(NewGuard(w, interval), events))
    requires Survives(RunGuard(NewGuard(w, interval), events).w.disk, file)
    ensures h <= file && Load(off, MetaOf(w.channels), ReaderOf(w, capture), file[|h|..]) == Ok(loaded)
    ensures |loaded| == |w.channels|
    ensures TimesStored(loaded[k]) == Times(Samples(Trace(NewGuard(w, interval), events, k)) + torn)
    ensures StoredValues(loaded[k]) == Payloads(Samples(Trace(NewGuard(w, interval), events, k)) + torn)
    ensures torn == []
            || exists b: Call, n :: b in Attempts(NewGuard(w, interval), events) && b.WriteTimestamped? && b.ch == k
                                    && 0 < n <= |b.pairs| && torn == b.pairs[..n]
  {
    hide TypedCache, WellFormed, Run, Succeeded, Breaking, Load, TornTail, MetaOf, ReaderOf, Started, Attempts, Made,
         AvoidsSignatures, Trace, RunGuard, ChannelOf, Times, Payloads, Samples, Written, StaysGuarded, TypedEvent;
    NewGuardTyped(w, h, interval);
    var g := NewGuard(w, interval);
    var calls := Attempts(g, events);
    GuardRuns(g, events);
    CrashSafe(off, w, h, calls, file, capture);
    var done := Succeeded(w, calls);
    var tail :| && TornTail(w, tail, Breaking(w, calls))
                && Load(off, MetaOf(w.channels), ReaderOf(w, capture), file[|h|..])
                   == Ok(ChannelsOf(w.channels, done + tail));
    SucceededAmong(w, calls);
    TailTimestamped(g, events, k, tail);
    forall c: Call | c in done + tail && c.ch == k
      ensures c.WriteTimestamped?
    {
      if c in done {
        GuardedCallsTimestamped(g, events, k, c);
      }
    }
    ChannelSamples(k, w.channels[k].dataType, done + tail);
    WrittenConcat(done, tail, k);
    TraceIsWritten(g, events, k);
    loaded, torn := ChannelsOf(w.channels, done + tail), Written(tail, k);
  }

  lemma {:induction false} SpacedAt(prev: Option<Stamped>, marks: seq<Mark>, bound: int, i: nat)
    requires Spaced(prev, marks, bound) && i + 1 < |marks|
    ensures 0 <= marks[i + 1].sample.ts - marks[i].sample.ts < bound
    ensures marks[i + 1].synthetic ==> marks[i + 1].sample.value == marks[i].sample.value
    decreases i
  {
    if i > 0 {
      SpacedAt(Some(marks[0].sample), marks[1..], bound, i - 1);
    }
  }

  /** Consecutive stored samples are less than `bound` apart; an invented one repeats the value before it. */
  predicate StoredSpaced(marks: seq<Mark>, times: seq<i64>, values: seq<bytes>, bound: int)
    requires |marks| <= |times| == |values|
  {
    forall i :: 0 <= i && i + 1 < |marks| ==>
      && 0 <= times[i + 1] - times[i] < bound
      && (marks[i + 1].synthetic ==> values[i + 1] == values[i])
  }

  lemma NewGuardTyped(w: Writer, h: bytes, interval: i64)
    requires Started(w, h)
    ensures WellFormed(w) && TypedCache(NewGuard(w, interval))
  {
  }

  lemma TraceSpaced(w: Writer, interval: i64, events: seq<Event>, k: u16, start: i64, gap: nat)
    requires WellFormed(w) && (forall e :: e in events ==> TypedEvent(e)) && StaysGuarded(events, k)
    requires interval > 0 && Paced(events, start, start, gap) && PollsSucceed(NewGuard(w, interval), events)
    requires events != [] ==> events[|events| - 1].Polled?
    ensures Spaced(None, Trace(NewGuard(w, interval), events, k), interval + gap)
  {
    hide Paced, PollsSucceed, Trace, Spaced, StaysGuarded, TypedEvent, WellFormed;
    BoundedStaleness(NewGuard(w, interval), events, k, None, start, start, gap);
  }

  /**
   Bounded staleness of the file: with a positive interval, timestamps that follow the
   clock and successful polls at most `gap` apart, the stored samples of a guarded
   channel up to the last poll are consecutively less than interval + gap apart, and
   each one the guard invented repeats the value stored before it.
   */
  lemma {:induction false} StalenessOnDisk(off: Offset, w: Writer, h: bytes, interval: i64, events: seq<Event>, k: u16,
                                           start: i64, gap: nat, file: bytes, capture: bool)
    returns (loaded: seq<DataChannel>)
    requires Started(w, h) && (forall e :: e in events ==> TypedEvent(e)) && k < |w.channels| && StaysGuarded(events, k)
    requires AvoidsSignatures(w, Attempts(NewGuard(w, interval), events))
    requires Survives(RunGuard(NewGuard(w, interval), events).w.disk, file)
    requires interval > 0 && Paced(events, start, start, gap) && PollsSucceed(NewGuard(w, interval), events)
    requires events != [] ==> events[|events| - 1].Polled?
    ensures h <= file && Load(off, MetaOf(w.channels), ReaderOf(w, capture), file[|h|..]) == Ok(loaded)
    ensures |loaded| == |w.channels|
    ensures var (marks, times, values) :=
             (Trace(NewGuard(w, interval), events, k), TimesStored(loaded[k]), StoredValues(loaded[k]));
            |marks| <= |times| == |values| && StoredSpaced(marks, times, values, interval + gap)
  {
    hide WellFormed, Run, Load, MetaOf, ReaderOf, Started, Attempts, AvoidsSignatures, Trace, RunGuard, Spaced,
         StaysGuarded, TypedEvent, TimesStored, StoredValues, Paced, PollsSucceed, Survives, StoredSpaced, Times,
         Payloads, Samples, TypedCache;
    NewGuardTyped(w, h, interval);
    var torn;
    loaded, torn := GuardedChannelOnDisk(off, w, h, interval, events, k, file, capture);
    TraceSpaced(w, interval, events, k, start, gap);
    SpacedStored(Trace(NewGuard(w, interval), events, k), torn, TimesStored(loaded[k]), StoredValues(loaded[k]),
      interval + gap);
  }

  /** The spacing of a trace is that of the samples stored from it. */
  lemma SpacedStored(marks: seq<Mark>, torn: seq<Stamped>, times: seq<i64>, values: seq<bytes>, bound: int)
    requires Spaced(None, marks, bound)
    requires times == Times(Samples(marks) + torn) && values == Payloads(Samples(marks) + torn)
    ensures |marks| <= |times| == |values| && StoredSpaced(marks, times, values, bound)
  {
    hide Spaced;
    forall i | 0 <= i && i + 1 < |marks|
      ensures 0 <= times[i + 1] - times[i] < bound && (marks[i + 1].synthetic ==> values[i + 1] == values[i])
    {
      SpacedAt(None, marks, bound, i);
    }
  }
}
