/**
 The stale-value guard: a write-through cache over the streaming writer whose
 `poll` repeats the last value of idle channels (stalevalueguard.cpp and .h).
 Differences of timestamps are taken over unbounded integers.
 */
module GuardSpec {
  import opened Bytes
  import opened OsfTypes
  import opened Payload
  import opened Chunking
  import opened StreamingSpec
  import opened WriterFacts

  /** Last activity and cached value of a guarded channel; the value remembers its type. */
  datatype Entry = Entry(last: i64, dt: DataType, value: bytes)

  datatype Guard = Guard(w: Writer, interval: i64, tracked: map<u16, Entry>)

  /** A step's new state, what it returned, and the writer calls that succeeded in it. */
  datatype GuardOutcome = GuardOutcome(g: Guard, r: Result<nat>, calls: seq<Call>)

  function LastPair(pairs: seq<Stamped>): Stamped
    requires pairs != []
  {
    pairs[|pairs| - 1]
  }

  predicate TypedPairs(dt: DataType, pairs: seq<Stamped>) {
    IsFixed(dt) && AllStampedValues(dt, pairs)
  }

  /** writeTimestampedSample(s): forward; on success cache the last sample of the batch. */
  function GuardWrite(g: Guard, ch: u16, dt: DataType, pairs: seq<Stamped>): GuardOutcome
    requires WellFormed(g.w) && TypedPairs(dt, pairs)
  {
    var call := WriteTimestamped(ch, dt, pairs);
    var o := Perform(g.w, call);
    if o.r.Err? then GuardOutcome(g.(w := o.w), Err(o.r.error), [])
    else if pairs == [] then GuardOutcome(g.(w := o.w), Ok(0), [call])
    else
      var l := LastPair(pairs);
      GuardOutcome(g.(w := o.w, tracked := g.tracked[ch := Entry(l.ts, dt, l.value)]), Ok(0), [call])
  }

  function Repeat(ch: u16, e: Entry, now: i64): Call {
    WriteTimestamped(ch, e.dt, [Stamped(now, e.value)])
  }

  predicate Stale(g: Guard, ch: u16, now: i64)
    requires ch in g.tracked
  {
    now - g.tracked[ch].last >= g.interval
  }

  /** What the guard knows of its cache. */
  ghost predicate Sound(g: Guard) {
    && WellFormed(g.w)
    && forall ch :: ch in g.tracked ==>
         && IsFixed(g.tracked[ch].dt) && IsValue(g.tracked[ch].dt, g.tracked[ch].value)
         && ch < |g.w.channels|
         && g.w.states[ch].lock.TimestampedLock? && g.w.states[ch].dt == g.tracked[ch].dt
  }

  predicate TypedCache(g: Guard) {
    WellFormed(g.w) && forall ch :: ch in g.tracked ==>
      IsFixed(g.tracked[ch].dt) && IsValue(g.tracked[ch].dt, g.tracked[ch].value)
  }

  /** poll, from channel `ch` on in ascending order; stops at the first writer error. */
  function PollFrom(g: Guard, now: i64, ch: nat): GuardOutcome
    requires TypedCache(g) && ch <= 0x1_0000
    decreases 0x1_0000 - ch
  {
    if ch == 0x1_0000 then GuardOutcome(g, Ok(0), [])
    else if ch !in g.tracked || !Stale(g, ch, now) then PollFrom(g, now, ch + 1)
    else
      var call := Repeat(ch, g.tracked[ch], now);
      RepeatTyped(ch, g.tracked[ch], now);
      var o := Perform(g.w, call);
      if o.r.Err? then GuardOutcome(g.(w := o.w), Err(o.r.error), [])
      else
        var g' := g.(w := o.w, tracked := g.tracked[ch := g.tracked[ch].(last := now)]);
        var rest := PollFrom(g', now, ch + 1);
        GuardOutcome(rest.g, match rest.r case Err(e) => Err(e) case Ok(n) => Ok(n + 1), [call] + rest.calls)
  }

  lemma RepeatTyped(ch: u16, e: Entry, now: i64)
    requires IsFixed(e.dt) && IsValue(e.dt, e.value)
    ensures Typed(Repeat(ch, e, now)) && TypedPairs(e.dt, [Stamped(now, e.value)])
  {
  }

  function Poll(g: Guard, now: i64): GuardOutcome
    requires TypedCache(g)
  {
    PollFrom(g, now, 0)
  }

  function Forget(g: Guard, ch: u16): Guard {
    g.(tracked := g.tracked - {ch})
  }

  function Clear(g: Guard): Guard {
    g.(tracked := map[])
  }

  // ---------------------------------------------------------------------
  // A re-emit never fails for a type or kind reason.
  // ---------------------------------------------------------------------

  /** Any writer call, through the guard or past it, leaves the cache sound. */
  lemma PerformKeepsSound(g: Guard, call: Call)
    requires Sound(g) && Typed(call)
    ensures Sound(g.(w := Perform(g.w, call).w))
  {
    hide Perform;
    forall ch | ch in g.tracked
      ensures var w' := Perform(g.w, call).w;
              ch < |w'.channels| && w'.states[ch].lock.TimestampedLock? && w'.states[ch].dt == g.tracked[ch].dt
    {
      PerformKeepsLocks(g.w, call, ch);
    }
  }

  lemma {:induction false} GuardWriteKeepsSound(g: Guard, ch: u16, dt: DataType, pairs: seq<Stamped>)
    requires Sound(g) && TypedPairs(dt, pairs)
    ensures Sound(GuardWrite(g, ch, dt, pairs).g)
  {
    hide Perform;
    var call := WriteTimestamped(ch, dt, pairs);
    PerformKeepsSound(g, call);
    if Perform(g.w, call).r.Ok? && pairs != [] {
      SuccessLocks(g.w, call);
      PerformKeepsSetup(g.w, call);
      assert LastPair(pairs) in pairs;
    }
  }

  /** While the writer is streaming, repeating a cached value can only fail because the disk did. */
  lemma RepeatFailsOnlyOnDisk(g: Guard, ch: u16, now: i64)
    requires Sound(g) && ch in g.tracked && g.w.phase.Streaming?
    ensures var e := g.tracked[ch];
            && Typed(Repeat(ch, e, now))
            && ReachesDisk(g.w, Repeat(ch, e, now))
  {
    RepeatTyped(ch, g.tracked[ch], now);
  }

  lemma RefreshSound(g: Guard, ch: u16, now: i64)
    requires Sound(g) && ch in g.tracked
    ensures Sound(g.(tracked := g.tracked[ch := g.tracked[ch].(last := now)]))
  {
  }

  lemma SoundTyped(g: Guard)
    requires Sound(g)
    ensures TypedCache(g)
  {
  }

  lemma {:induction false} PollKeepsSound(g: Guard, now: i64, ch: nat)
    requires Sound(g) && TypedCache(g) && ch <= 0x1_0000
    ensures Sound(PollFrom(g, now, ch).g)
    decreases 0x1_0000 - ch
  {
    if ch < 0x1_0000 {
      if ch !in g.tracked || !Stale(g, ch, now) {
        hide Perform, Sound, TypedCache;
        PollKeepsSound(g, now, ch + 1);
      } else {
        var call := Repeat(ch, g.tracked[ch], now);
        RepeatTyped(ch, g.tracked[ch], now);
        hide Perform, Sound;
        PerformKeepsSound(g, call);
        var o := Perform(g.w, call);
        if o.r.Ok? {
          var g' := g.(w := o.w, tracked := g.tracked[ch := g.tracked[ch].(last := now)]);
          RefreshSound(g.(w := o.w), ch, now);
          SoundTyped(g');
          PollKeepsSound(g', now, ch + 1);
        }
      }
    }
  }

  /** A poll of a sound guard over a streaming writer fails only by breaking the writer. */
  lemma {:induction false} PollFailsOnlyOnDisk(g: Guard, now: i64, ch: nat)
    requires Sound(g) && TypedCache(g) && g.w.phase.Streaming? && ch <= 0x1_0000
    ensures PollFrom(g, now, ch).r.Err? ==> PollFrom(g, now, ch).g.w.phase.Broken?
    ensures PollFrom(g, now, ch).r.Ok? ==> PollFrom(g, now, ch).g.w.phase.Streaming?
    decreases 0x1_0000 - ch
  {
    if ch < 0x1_0000 {
      if ch !in g.tracked || !Stale(g, ch, now) {
        hide Perform, Sound, TypedCache;
        PollFailsOnlyOnDisk(g, now, ch + 1);
      } else {
        var call := Repeat(ch, g.tracked[ch], now);
        RepeatTyped(ch, g.tracked[ch], now);
        hide Perform, Sound, ReachesDisk;
        RepeatFailsOnlyOnDisk(g, ch, now);
        PerformKeepsSound(g, call);
        var o := Perform(g.w, call);
        if o.r.Ok? {
          SuccessStreams(g.w, call);
          var g' := g.(w := o.w, tracked := g.tracked[ch := g.tracked[ch].(last := now)]);
          RefreshSound(g.(w := o.w), ch, now);
          SoundTyped(g');
          PollFailsOnlyOnDisk(g', now, ch + 1);
        } else {
          ReachedFailureBreaks(g.w, call);
        }
      }
    }
  }

  // ---------------------------------------------------------------------
  // One poll, channel by channel.
  // ---------------------------------------------------------------------

  /** The samples a list of calls wrote to one channel. */
  function Written(calls: seq<Call>, ch: u16): seq<Stamped>
    decreases |calls|
  {
    if calls == [] then []
    else if calls[0].WriteTimestamped? && calls[0].ch == ch then calls[0].pairs + Written(calls[1..], ch)
    else Written(calls[1..], ch)
  }

  lemma WrittenCons(c: Call, calls: seq<Call>, ch: u16)
    ensures Written([c] + calls, ch) == (if c.WriteTimestamped? && c.ch == ch then c.pairs else []) + Written(calls, ch)
  {
    assert ([c] + calls)[1..] == calls;
  }

  /** A successful poll repeats exactly the stale channels, once each, and leaves the others alone. */
  lemma {:induction false} PollPerChannel(g: Guard, now: i64, ch: nat, k: u16)
    requires TypedCache(g) && ch <= 0x1_0000 && PollFrom(g, now, ch).r.Ok?
    ensures var o := PollFrom(g, now, ch);
            && o.g.interval == g.interval && o.g.tracked.Keys == g.tracked.Keys
            && if k in g.tracked && k >= ch && now - g.tracked[k].last >= g.interval then
                 Written(o.calls, k) == [Stamped(now, g.tracked[k].value)]
                   && o.g.tracked[k] == g.tracked[k].(last := now)
               else
                 Written(o.calls, k) == [] && (k in g.tracked ==> o.g.tracked[k] == g.tracked[k])
    decreases 0x1_0000 - ch
  {
    hide Perform;
    if ch < 0x1_0000 {
      if ch !in g.tracked || !Stale(g, ch, now) {
        PollPerChannel(g, now, ch + 1, k);
      } else {
        var call := Repeat(ch, g.tracked[ch], now);
        RepeatTyped(ch, g.tracked[ch], now);
        var o := Perform(g.w, call);
        var g' := g.(w := o.w, tracked := g.tracked[ch := g.tracked[ch].(last := now)]);
        PollPerChannel(g', now, ch + 1, k);
        WrittenCons(call, PollFrom(g', now, ch + 1).calls, k);
      }
    }
  }

  /** A successful poll reports how many samples it wrote. */
  lemma {:induction false} PollCounts(g: Guard, now: i64, ch: nat)
    requires TypedCache(g) && ch <= 0x1_0000 && PollFrom(g, now, ch).r.Ok?
    ensures PollFrom(g, now, ch).r.value == |PollFrom(g, now, ch).calls|
    decreases 0x1_0000 - ch
  {
    hide Perform;
    if ch < 0x1_0000 {
      if ch !in g.tracked || !Stale(g, ch, now) {
        PollCounts(g, now, ch + 1);
      } else {
        RepeatTyped(ch, g.tracked[ch], now);
        var o := Perform(g.w, Repeat(ch, g.tracked[ch], now));
        PollCounts(g.(w := o.w, tracked := g.tracked[ch := g.tracked[ch].(last := now)]), now, ch + 1);
      }
    }
  }

  // ---------------------------------------------------------------------
  // Whole runs.
  // ---------------------------------------------------------------------

  datatype Event =
    | Wrote(ch: u16, dt: DataType, pairs: seq<Stamped>)
    | Polled(now: i64)
    /** A call made on the writer directly, past the guard. */
    | Bypassed(call: Call)
    | Forgot(ch: u16)
    | Cleared

  predicate TypedEvent(e: Event) {
    (e.Wrote? ==> TypedPairs(e.dt, e.pairs)) && (e.Bypassed? ==> Typed(e.call))
  }

  function Bypass(g: Guard, call: Call): GuardOutcome
    requires WellFormed(g.w) && Typed(call)
  {
    var o := Perform(g.w, call);
    GuardOutcome(g.(w := o.w), if o.r.Ok? then Ok(0) else Err(o.r.error), if o.r.Ok? then [call] else [])
  }

  function StepGuard(g: Guard, e: Event): GuardOutcome
    requires TypedCache(g) && TypedEvent(e)
  {
    match e
    case Wrote(ch, dt, pairs) => GuardWrite(g, ch, dt, pairs)
    case Polled(now) => Poll(g, now)
    case Bypassed(call) => Bypass(g, call)
    case Forgot(ch) => GuardOutcome(Forget(g, ch), Ok(0), [])
    case Cleared => GuardOutcome(Clear(g), Ok(0), [])
  }

  lemma StepKeepsTyped(g: Guard, e: Event)
    requires TypedCache(g) && TypedEvent(e)
    ensures TypedCache(StepGuard(g, e).g)
  {
    hide Perform;
    match e
    case Wrote(_, _, pairs) =>
      if pairs != [] {
        assert LastPair(pairs) in pairs;
      }
    case Polled(now) => PollKeepsTyped(g, now, 0);
    case Bypassed(call) =>
    case Forgot(ch) =>
    case Cleared =>
  }

  lemma {:induction false} PollKeepsTyped(g: Guard, now: i64, ch: nat)
    requires TypedCache(g) && ch <= 0x1_0000
    ensures TypedCache(PollFrom(g, now, ch).g)
    decreases 0x1_0000 - ch
  {
    hide Perform;
    if ch < 0x1_0000 {
      if ch !in g.tracked || !Stale(g, ch, now) {
        PollKeepsTyped(g, now, ch + 1);
      } else {
        var call := Repeat(ch, g.tracked[ch], now);
        RepeatTyped(ch, g.tracked[ch], now);
        var o := Perform(g.w, call);
        if o.r.Ok? {
          PollKeepsTyped(g.(w := o.w, tracked := g.tracked[ch := g.tracked[ch].(last := now)]), now, ch + 1);
        }
      }
    }
  }

  /** A sample the guard put on a channel, and whether it invented it. */
  datatype Mark = Mark(sample: Stamped, synthetic: bool)

  function Marks(samples: seq<Stamped>, synthetic: bool): (r: seq<Mark>)
    ensures |r| == |samples|
  {
    seq(|samples|, i requires 0 <= i < |samples| => Mark(samples[i], synthetic))
  }

  /** Everything written to channel `k` through the guard, in order. */
  function Trace(g: Guard, events: seq<Event>, k: u16): seq<Mark>
    requires TypedCache(g) && forall e :: e in events ==> TypedEvent(e)
    decreases |events|
  {
    if events == [] then []
    else
      var o := StepGuard(g, events[0]);
      StepKeepsTyped(g, events[0]);
      Marks(Written(o.calls, k), events[0].Polled?) + Trace(o.g, events[1..], k)
  }

  /** Every poll of the run reports success. */
  predicate PollsSucceed(g: Guard, events: seq<Event>)
    requires TypedCache(g) && forall e :: e in events ==> TypedEvent(e)
    decreases |events|
  {
    events != [] ==>
      var o := StepGuard(g, events[0]);
      StepKeepsTyped(g, events[0]);
      (events[0].Polled? ==> o.r.Ok?) && PollsSucceed(o.g, events[1..])
  }

  predicate Ascending(from: i64, pairs: seq<Stamped>)
    decreases |pairs|
  {
    pairs == [] || (from <= pairs[0].ts && Ascending(pairs[0].ts, pairs[1..]))
  }

  /** The clock after an event. */
  function ClockAfter(clock: i64, e: Event): i64 {
    match e
    case Wrote(_, _, pairs) => if pairs == [] then clock else LastPair(pairs).ts
    case Polled(now) => now
    case Bypassed(_) => clock
    case Forgot(_) => clock
    case Cleared => clock
  }

  /** Timestamps follow the clock, and no poll comes more than `gap` after the one before. */
  predicate Paced(events: seq<Event>, clock: i64, lastPoll: i64, gap: nat)
    decreases |events|
  {
    events != [] ==>
      match events[0]
      case Wrote(_, _, pairs) => Ascending(clock, pairs)
        && Paced(events[1..], ClockAfter(clock, events[0]), lastPoll, gap)
      case Polled(now) => clock <= now <= lastPoll + gap && Paced(events[1..], now, now, gap)
      case Bypassed(_) => Paced(events[1..], clock, lastPoll, gap)
      case Forgot(_) => Paced(events[1..], clock, lastPoll, gap)
      case Cleared => Paced(events[1..], clock, lastPoll, gap)
  }

  /** Channel `k` is written only through the guard and stays guarded once it is. */
  predicate StaysGuarded(events: seq<Event>, k: u16) {
    forall e :: e in events ==> LeavesGuarded(e, k)
  }

  predicate LeavesGuarded(e: Event, k: u16) {
    (e.Bypassed? ==> e.call.ch != k) && (e.Forgot? ==> e.ch != k) && !e.Cleared?
  }

  /** Consecutive marks, starting from `prev`, are less than `bound` apart, never go back, and synthetic ones repeat. */
  predicate Spaced(prev: Option<Stamped>, marks: seq<Mark>, bound: int)
    decreases |marks|
  {
    marks != [] ==>
      && (prev.Some? ==> 0 <= marks[0].sample.ts - prev.value.ts < bound)
      && (marks[0].synthetic ==> prev.Some? && marks[0].sample.value == prev.value.value)
      && Spaced(Some(marks[0].sample), marks[1..], bound)
  }

  function LastMark(prev: Option<Stamped>, marks: seq<Mark>): Option<Stamped> {
    if marks == [] then prev else Some(marks[|marks| - 1].sample)
  }

  lemma {:induction false} SpacedConcat(prev: Option<Stamped>, a: seq<Mark>, b: seq<Mark>, bound: int)
    requires Spaced(prev, a, bound) && Spaced(LastMark(prev, a), b, bound)
    ensures Spaced(prev, a + b, bound)
    decreases |a|
  {
    if a == [] {
      assert a + b == b;
    } else {
      assert (a + b)[1..] == a[1..] + b && (a + b)[0] == a[0];
      SpacedConcat(Some(a[0].sample), a[1..], b, bound);
    }
  }

  /** Until its last poll, a paced run stays within `gap` of the poll before. */
  lemma {:induction false} ClockBeforePoll(events: seq<Event>, clock: i64, lastPoll: i64, gap: nat)
    requires Paced(events, clock, lastPoll, gap) && events != [] && events[|events| - 1].Polled?
    ensures clock <= lastPoll + gap
    decreases |events|
  {
    if !events[0].Polled? {
      if events[0].Wrote? {
        AscendingEnd(clock, events[0].pairs);
      }
      ClockBeforePoll(events[1..], ClockAfter(clock, events[0]), lastPoll, gap);
    }
  }

  lemma {:induction false} AscendingEnd(from: i64, pairs: seq<Stamped>)
    requires Ascending(from, pairs)
    ensures pairs != [] ==> from <= LastPair(pairs).ts
    decreases |pairs|
  {
    if |pairs| > 1 {
      AscendingEnd(pairs[0].ts, pairs[1..]);
      assert LastPair(pairs) == LastPair(pairs[1..]);
    }
  }

  /** A batch that stays within reach of the previous sample is spaced. */
  lemma {:induction false} BatchSpaced(prev: Option<Stamped>, from: i64, pairs: seq<Stamped>, bound: int)
    requires Ascending(from, pairs) && bound > 0
    requires prev.Some? ==> prev.value.ts <= from
    requires pairs != [] && prev.Some? ==> LastPair(pairs).ts < prev.value.ts + bound
    requires pairs != [] && prev.None? ==> LastPair(pairs).ts < from + bound
    ensures Spaced(prev, Marks(pairs, false), bound)
    decreases |pairs|
  {
    if pairs != [] {
      var marks := Marks(pairs, false);
      assert marks[1..] == Marks(pairs[1..], false);
      AscendingEnd(pairs[0].ts, pairs[1..]);
      if |pairs| > 1 {
        assert LastPair(pairs) == LastPair(pairs[1..]);
      }
      BatchSpaced(Some(pairs[0]), pairs[0].ts, pairs[1..], bound);
    }
  }

  /** The cache agrees with the trace so far, and no guarded channel was left stale by the last poll. */
  predicate Agrees(g: Guard, k: u16, prev: Option<Stamped>, clock: i64, lastPoll: i64) {
    && (k in g.tracked <==> prev.Some?)
    && (prev.Some? ==>
          && prev.value == Stamped(g.tracked[k].last, g.tracked[k].value)
          && prev.value.ts <= clock && lastPoll - prev.value.ts < g.interval)
    && lastPoll <= clock
  }

  lemma WriteStepSpaced(g: Guard, ch: u16, dt: DataType, pairs: seq<Stamped>, k: u16, prev: Option<Stamped>, clock: i64,
                        lastPoll: i64, gap: nat)
    requires TypedCache(g) && TypedPairs(dt, pairs) && g.interval > 0
    requires Agrees(g, k, prev, clock, lastPoll) && Ascending(clock, pairs)
    requires pairs != [] ==> LastPair(pairs).ts <= lastPoll + gap
    ensures var o := GuardWrite(g, ch, dt, pairs);
            var marks := Marks(Written(o.calls, k), false);
            && Spaced(prev, marks, g.interval + gap)
            && Agrees(o.g, k, LastMark(prev, marks), ClockAfter(clock, Wrote(ch, dt, pairs)), lastPoll)
            && o.g.interval == g.interval
  {
    hide Perform, Spaced, Ascending, TypedPairs;
    var o := GuardWrite(g, ch, dt, pairs);
    AscendingEnd(clock, pairs);
    GuardWritten(g, ch, dt, pairs, k);
    NothingSpaced(prev, g.interval + gap);
    if o.r.Ok? && ch == k {
      BatchSpaced(prev, clock, pairs, g.interval + gap);
    }
  }

  /** What a guarded write puts on channel `k`. */
  lemma GuardWritten(g: Guard, ch: u16, dt: DataType, pairs: seq<Stamped>, k: u16)
    requires WellFormed(g.w) && TypedPairs(dt, pairs)
    ensures Written(GuardWrite(g, ch, dt, pairs).calls, k)
         == if GuardWrite(g, ch, dt, pairs).r.Ok? && ch == k then pairs else []
  {
    hide Perform;
    WrittenCons(WriteTimestamped(ch, dt, pairs), [], k);
    assert [WriteTimestamped(ch, dt, pairs)] + [] == [WriteTimestamped(ch, dt, pairs)];
    assert Written([], k) == [];
  }

  lemma PollStepSpaced(g: Guard, now: i64, k: u16, prev: Option<Stamped>, clock: i64, lastPoll: i64, gap: nat)
    requires TypedCache(g) && g.interval > 0 && Poll(g, now).r.Ok?
    requires Agrees(g, k, prev, clock, lastPoll) && clock <= now <= lastPoll + gap
    ensures var o := Poll(g, now);
            var marks := Marks(Written(o.calls, k), true);
            && Spaced(prev, marks, g.interval + gap)
            && Agrees(o.g, k, LastMark(prev, marks), now, now)
            && o.g.interval == g.interval
  {
    PollPerChannel(g, now, 0, k);
    hide PollFrom;
    var marks := Marks(Written(Poll(g, now).calls, k), true);
    if k in g.tracked && Stale(g, k, now) {
      assert marks == [Mark(Stamped(now, g.tracked[k].value), true)];
      assert marks[1..] == [];
    } else {
      assert marks == [];
    }
  }

  /**
   Bounded staleness. With a positive interval, timestamps that follow the clock and
   successful polls at most `gap` apart, consecutive samples of a guarded channel up
   to the last poll are less than interval + gap apart, every synthetic sample repeats
   the value before it, and at the last poll the channel's newest sample is younger
   than the interval. Forgetting other channels and writing them past the guard does
   not matter.
   */
  lemma {:induction false} BoundedStaleness(g: Guard, events: seq<Event>, k: u16, prev: Option<Stamped>, clock: i64,
                                            lastPoll: i64, gap: nat)
    requires TypedCache(g) && (forall e :: e in events ==> TypedEvent(e)) && g.interval > 0
    requires Agrees(g, k, prev, clock, lastPoll) && Paced(events, clock, lastPoll, gap) && PollsSucceed(g, events)
    requires StaysGuarded(events, k) && (events != [] ==> events[|events| - 1].Polled?)
    ensures Spaced(prev, Trace(g, events, k), g.interval + gap)
    ensures events != [] ==>
      var newest := LastMark(prev, Trace(g, events, k));
      newest.Some? ==> events[|events| - 1].now - newest.value.ts < g.interval
    decreases |events|
  {
    hide StepGuard, TypedCache, TypedEvent, Agrees, Spaced, Trace, Paced, PollsSucceed, StaysGuarded, LastMark;
    if events == [] {
      NothingTraced(g, k);
      NothingSpaced(prev, g.interval + gap);
    } else {
      var (e, rest) := (events[0], events[1..]);
      var o := StepGuard(g, e);
      FirstEvent(g, events, k, clock, lastPoll, gap);
      var marks := Marks(Written(o.calls, k), e.Polled?);
      StepSpaced(g, events, k, prev, clock, lastPoll, gap);
      var lastPoll' := if e.Polled? then e.now else lastPoll;
      BoundedStaleness(o.g, rest, k, LastMark(prev, marks), ClockAfter(clock, e), lastPoll', gap);
      SpacedConcat(prev, marks, Trace(o.g, rest, k), g.interval + gap);
      LastMarkConcat(prev, marks, Trace(o.g, rest, k));
      if rest == [] {
        NothingTraced(o.g, k);
        LastMarkConcat(prev, marks, []);
        assert marks + [] == marks;
        AgreesFresh(o.g, k, LastMark(prev, marks), ClockAfter(clock, e), lastPoll');
      }
    }
  }

  lemma NothingTraced(g: Guard, k: u16)
    requires TypedCache(g)
    ensures Trace(g, [], k) == []
  {
  }

  /** A run taken apart behind its first event. */
  lemma FirstEvent(g: Guard, events: seq<Event>, k: u16, clock: i64, lastPoll: i64, gap: nat)
    requires events != [] && TypedCache(g) && (forall e :: e in events ==> TypedEvent(e))
    requires Paced(events, clock, lastPoll, gap) && PollsSucceed(g, events) && StaysGuarded(events, k)
    requires events[|events| - 1].Polled?
    ensures var (e, rest, o) := (events[0], events[1..], StepGuard(g, events[0]));
            && TypedCache(o.g) && (forall x :: x in rest ==> TypedEvent(x)) && LeavesGuarded(e, k)
            && Trace(g, events, k) == Marks(Written(o.calls, k), e.Polled?) + Trace(o.g, rest, k)
            && Paced(rest, ClockAfter(clock, e), if e.Polled? then e.now else lastPoll, gap)
            && PollsSucceed(o.g, rest) && StaysGuarded(rest, k)
            && (rest != [] ==> rest[|rest| - 1].Polled?)
  {
    hide StepGuard, TypedCache, TypedEvent, LeavesGuarded;
    StepKeepsTyped(g, events[0]);
    assert events[0] in events && forall x :: x in events[1..] ==> x in events;
  }

  lemma NothingSpaced(prev: Option<Stamped>, bound: int)
    ensures Spaced(prev, [], bound)
  {
  }

  lemma AgreesFresh(g: Guard, k: u16, prev: Option<Stamped>, clock: i64, lastPoll: i64)
    requires Agrees(g, k, prev, clock, lastPoll)
    ensures prev.Some? ==> lastPoll - prev.value.ts < g.interval
  {
  }

  lemma LastMarkConcat(prev: Option<Stamped>, a: seq<Mark>, b: seq<Mark>)
    ensures LastMark(prev, a + b) == LastMark(LastMark(prev, a), b)
  {
    if b == [] {
      assert a + b == a;
    }
  }

  /** The first event of a paced run. */
  lemma StepSpaced(g: Guard, events: seq<Event>, k: u16, prev: Option<Stamped>, clock: i64, lastPoll: i64, gap: nat)
    requires TypedCache(g) && (forall e :: e in events ==> TypedEvent(e)) && g.interval > 0
    requires Agrees(g, k, prev, clock, lastPoll) && Paced(events, clock, lastPoll, gap) && PollsSucceed(g, events)
    requires events != [] && events[|events| - 1].Polled? && LeavesGuarded(events[0], k)
    ensures var (e, o) := (events[0], StepGuard(g, events[0]));
            var marks := Marks(Written(o.calls, k), e.Polled?);
            && Spaced(prev, marks, g.interval + gap)
            && Agrees(o.g, k, LastMark(prev, marks), ClockAfter(clock, e), if e.Polled? then e.now else lastPoll)
            && o.g.interval == g.interval
  {
    hide GuardWrite, Poll, Spaced, Agrees, TypedCache;
    var e := events[0];
    assert e in events;
    if e.Wrote? {
      ClockBeforePoll(events[1..], ClockAfter(clock, e), lastPoll, gap);
      WriteStepSpaced(g, e.ch, e.dt, e.pairs, k, prev, clock, lastPoll, gap);
    } else if e.Polled? {
      PollStepSpaced(g, e.now, k, prev, clock, lastPoll, gap);
    } else {
      OtherStepSpaced(g, e, k, prev, clock, lastPoll, gap);
    }
  }

  lemma OtherStepSpaced(g: Guard, e: Event, k: u16, prev: Option<Stamped>, clock: i64, lastPoll: i64, gap: nat)
    requires TypedCache(g) && TypedEvent(e) && !e.Wrote? && !e.Polled? && LeavesGuarded(e, k)
    requires Agrees(g, k, prev, clock, lastPoll)
    ensures var o := StepGuard(g, e);
            && Written(o.calls, k) == [] && Spaced(prev, Marks(Written(o.calls, k), false), g.interval + gap)
            && Agrees(o.g, k, LastMark(prev, Marks(Written(o.calls, k), false)), clock, lastPoll)
            && o.g.interval == g.interval
  {
    hide Perform;
    assert Written([], k) == [];
    if e.Bypassed? {
      WrittenCons(e.call, [], k);
      assert [e.call] + [] == [e.call];
    }
  }

  // ---------------------------------------------------------------------
  // The cache over whole runs.
  // ---------------------------------------------------------------------

  function RunGuard(g: Guard, events: seq<Event>): (g': Guard)
    requires TypedCache(g) && forall e :: e in events ==> TypedEvent(e)
    ensures TypedCache(g')
    decreases |events|
  {
    hide StepGuard, TypedCache;
    if events == [] then g
    else
      StepKeepsTyped(g, events[0]);
      RunGuard(StepGuard(g, events[0]).g, events[1..])
  }

  lemma StepKeepsSound(g: Guard, e: Event)
    requires Sound(g) && TypedCache(g) && TypedEvent(e)
    ensures Sound(StepGuard(g, e).g)
  {
    hide Perform, PollFrom, Sound;
    match e
    case Wrote(ch, dt, pairs) => GuardWriteKeepsSound(g, ch, dt, pairs);
    case Polled(now) => PollKeepsSound(g, now, 0);
    case Bypassed(call) => PerformKeepsSound(g, call);
    case Forgot(ch) => DroppingKeepsSound(g, ch);
    case Cleared => DroppingKeepsSound(g, 0);
  }

  lemma DroppingKeepsSound(g: Guard, ch: u16)
    requires Sound(g)
    ensures Sound(Forget(g, ch)) && Sound(Clear(g))
  {
  }

  /**
   Over any run of writes through the guard and past it, polls, forgets and clears,
   the type of every cached value is the one the writer has locked its channel to.
   */
  lemma {:induction false} RunKeepsSound(g: Guard, events: seq<Event>)
    requires Sound(g) && TypedCache(g) && forall e :: e in events ==> TypedEvent(e)
    ensures Sound(RunGuard(g, events))
    decreases |events|
  {
    hide StepGuard, TypedCache, Sound, TypedEvent;
    if events != [] {
      StepKeepsTyped(g, events[0]);
      StepKeepsSound(g, events[0]);
      RunKeepsSound(StepGuard(g, events[0]).g, events[1..]);
    }
  }

  lemma {:induction false} PollSkipsUntracked(g: Guard, now: i64, ch: nat, k: u16)
    requires TypedCache(g) && ch <= 0x1_0000 && k !in g.tracked
    ensures k !in PollFrom(g, now, ch).g.tracked && Written(PollFrom(g, now, ch).calls, k) == []
    decreases 0x1_0000 - ch
  {
    hide Perform;
    if ch < 0x1_0000 {
      if ch !in g.tracked || !Stale(g, ch, now) {
        PollSkipsUntracked(g, now, ch + 1, k);
      } else {
        RepeatTyped(ch, g.tracked[ch], now);
        var o := Perform(g.w, Repeat(ch, g.tracked[ch], now));
        if o.r.Ok? {
          var g' := g.(w := o.w, tracked := g.tracked[ch := g.tracked[ch].(last := now)]);
          PollSkipsUntracked(g', now, ch + 1, k);
          WrittenCons(Repeat(ch, g.tracked[ch], now), PollFrom(g', now, ch + 1).calls, k);
        }
      }
    }
  }

  /** The guard invents nothing on a channel it does not track until that channel is written through it. */
  lemma {:induction false} UntrackedNotRepeated(g: Guard, events: seq<Event>, k: u16)
    requires TypedCache(g) && (forall e :: e in events ==> TypedEvent(e)) && k !in g.tracked
    requires forall e :: e in events ==> !(e.Wrote? && e.ch == k)
    ensures k !in RunGuard(g, events).tracked
    ensures forall m :: m in Trace(g, events, k) ==> !m.synthetic
    decreases |events|
  {
    hide StepGuard, TypedCache, TypedEvent, Written;
    if events != [] {
      var (e, o) := (events[0], StepGuard(g, events[0]));
      StepKeepsTyped(g, e);
      StepSkipsUntracked(g, e, k);
      UntrackedNotRepeated(o.g, events[1..], k);
    }
  }

  lemma StepSkipsUntracked(g: Guard, e: Event, k: u16)
    requires TypedCache(g) && TypedEvent(e) && k !in g.tracked && !(e.Wrote? && e.ch == k)
    ensures k !in StepGuard(g, e).g.tracked && (e.Polled? ==> Written(StepGuard(g, e).calls, k) == [])
  {
    hide Perform, PollFrom;
    if e.Polled? {
      PollSkipsUntracked(g, e.now, 0, k);
    }
  }

  /** Forgetting means that: whatever was cached, the channel is not repeated until it is written again. */
  lemma ForgottenNotRepeated(g: Guard, events: seq<Event>, k: u16, forget: Event)
    requires TypedCache(g) && (forall e :: e in events ==> TypedEvent(e)) && (forget == Forgot(k) || forget == Cleared)
    requires forall e :: e in events ==> !(e.Wrote? && e.ch == k)
    ensures TypedCache(StepGuard(g, forget).g)
    ensures forall m :: m in Trace(StepGuard(g, forget).g, events, k) ==> !m.synthetic
  {
    StepKeepsTyped(g, forget);
    UntrackedNotRepeated(StepGuard(g, forget).g, events, k);
  }

  /** So from an empty cache on, a poll of a streaming writer can fail only by the disk breaking it. */
  lemma {:induction false} PollsFailOnlyOnDisk(w: Writer, interval: i64, events: seq<Event>, now: i64)
    requires WellFormed(w) && forall e :: e in events ==> TypedEvent(e)
    requires RunGuard(Guard(w, interval, map[]), events).w.phase.Streaming?
    ensures var o := Poll(RunGuard(Guard(w, interval, map[]), events), now);
            if o.r.Ok? then o.g.w.phase.Streaming? else o.g.w.phase.Broken?
  {
    hide RunGuard, PollFrom;
    RunKeepsSound(Guard(w, interval, map[]), events);
    PollFailsOnlyOnDisk(RunGuard(Guard(w, interval, map[]), events), now, 0);
  }
}
