/**
 The stale-value guard as it runs: an object holding a map, forwarding to the
 writer object. Proved against GuardSpec.
 */
module StaleValueGuards {
  import opened Bytes
  import opened OsfTypes
  import opened Crc32cModel
  import opened Chunking
  import opened StreamingSpec
  import opened StreamingWriters
  import opened GuardSpec

  class StaleValueGuard {
    const writer: StreamingWriter
    const interval: i64
    var tracked: map<u16, Entry>

    ghost function View(): Guard
      reads this, writer, writer.file
    {
      Guard(writer.View(), interval, tracked)
    }

    /** The writer is usable and every cached value is one of its type. */
    ghost predicate Valid()
      reads this, writer, writer.file, writer.tables
    {
      writer.Valid() && TypedCache(View())
    }

    constructor (writer: StreamingWriter, interval: i64)
      requires writer.Valid()
      ensures Valid() && this.writer == writer && View() == Guard(writer.View(), interval, map[])
    {
      this.writer, this.interval := writer, interval;
      tracked := map[];
    }

    /** Forward; on success remember the last sample of the batch. */
    method WriteTimestampedSamples(ch: u16, dt: DataType, pairs: seq<Stamped>) returns (r: Result<()>)
      requires Valid() && TypedPairs(dt, pairs)
      modifies this, writer, writer.file, writer.scratch
      ensures Valid()
      ensures var o := GuardWrite(old(View()), ch, dt, pairs);
              View() == o.g && (r.Ok? <==> o.r.Ok?) && (r.Err? ==> r.error == o.r.error)
    {
      hide Perform, TablesCorrect, IsValue;
      r := writer.WriteTimestampedSamples(ch, dt, pairs);
      if r.Ok? && |pairs| > 0 {
        var l := pairs[|pairs| - 1];
        assert l in pairs;
        tracked := tracked[ch := Entry(l.ts, dt, l.value)];
      }
    }

    /** Repeat the cached value of every channel idle for at least the interval, in channel order. */
    method PollAt(now: i64) returns (r: Result<nat>, ghost calls: seq<Call>)
      requires Valid()
      modifies this, writer, writer.file, writer.scratch
      ensures Valid() && GuardOutcome(View(), r, calls) == Poll(old(View()), now)
    {
      hide Perform, TablesCorrect, IsValue, PollFrom;
      var reemitted := 0;
      calls := [];
      ghost var rest := PollFrom(View(), now, 0);
      assert calls + rest.calls == rest.calls;
      for ch := 0 to 0x1_0000
        invariant Valid()
        invariant Ahead(Poll(old(View()), now), reemitted, calls, PollFrom(View(), now, ch))
      {
        PollStep(View(), now, ch);
        if ch !in tracked || now - tracked[ch].last < interval {
          continue;
        }
        var e := tracked[ch];
        RepeatTyped(ch, e, now);
        var w := writer.WriteTimestampedSamples(ch, e.dt, [Stamped(now, e.value)]);
        if w.Err? {
          assert calls + [] == calls;
          return Err(w.error), calls;
        }
        tracked := tracked[ch := e.(last := now)];
        reemitted := reemitted + 1;
        ghost var more := PollFrom(View(), now, ch + 1).calls;
        assert calls + ([Repeat(ch, e, now)] + more) == calls + [Repeat(ch, e, now)] + more;
        calls := calls + [Repeat(ch, e, now)];
      }
      PollDone(View(), now);
      assert calls + [] == calls;
      r := Ok(reemitted);
    }

    /** Stop guarding one channel: its cache entry goes, the others and the writer stay. */
    method ForgetChannel(ch: u16)
      requires Valid()
      modifies this`tracked
      ensures Valid() && View() == StepGuard(old(View()), Forgot(ch)).g
      ensures ch !in tracked && writer.View() == old(writer.View())
      ensures forall k :: k != ch ==>
              (k in tracked <==> k in old(tracked)) && (k in tracked ==> tracked[k] == old(tracked)[k])
    {
      hide TablesCorrect;
      tracked := tracked - {ch};
    }

    /** Stop guarding all channels; the writer stays. */
    method ClearAll()
      requires Valid()
      modifies this`tracked
      ensures Valid() && View() == StepGuard(old(View()), Cleared).g
      ensures |tracked| == 0 && writer.View() == old(writer.View())
    {
      hide TablesCorrect;
      tracked := map[];
    }
  }

  /** `whole` is what is still ahead, plus `n` repeats already made by `calls`. */
  predicate Ahead(whole: GuardOutcome, n: nat, calls: seq<Call>, ahead: GuardOutcome) {
    && whole.g == ahead.g
    && whole.calls == calls + ahead.calls
    && whole.r == match ahead.r case Err(e) => Err(e) case Ok(m) => Ok(n + m)
  }

  /** The sweep from a tracked, stale channel on. */
  function Swept(g: Guard, now: i64, ch: u16): GuardOutcome
    requires TypedCache(g) && ch in g.tracked
  {
    hide Perform;
    RepeatTyped(ch, g.tracked[ch], now);
    var call := Repeat(ch, g.tracked[ch], now);
    var o := Perform(g.w, call);
    if o.r.Err? then GuardOutcome(g.(w := o.w), Err(o.r.error), [])
    else
      var rest := PollFrom(g.(w := o.w, tracked := g.tracked[ch := g.tracked[ch].(last := now)]), now, ch + 1);
      GuardOutcome(rest.g, match rest.r case Err(e) => Err(e) case Ok(n) => Ok(n + 1), [call] + rest.calls)
  }

  lemma PollStep(g: Guard, now: i64, ch: u16)
    requires TypedCache(g)
    ensures PollFrom(g, now, ch) == if ch !in g.tracked || !Stale(g, ch, now) then PollFrom(g, now, ch + 1)
            else Swept(g, now, ch)
  {
    hide Perform;
  }

  lemma PollDone(g: Guard, now: i64)
    requires TypedCache(g)
    ensures PollFrom(g, now, 0x1_0000) == GuardOutcome(g, Ok(0), [])
  {
  }
}
