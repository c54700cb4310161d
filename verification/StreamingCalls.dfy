/**
 Which calls a streaming writer accepts, told from the calls before alone, and what
 file a run leaves behind whose disk does not fail.
 */
module StreamingCalls {
  import opened Bytes
  import opened OsfTypes
  import opened Payload
  import opened Frame
  import opened Chunking
  import opened StreamingSpec
  import opened WriterFacts
  import opened CrashSafety

  // ---------------------------------------------------------------------
  // Acceptance.
  // ---------------------------------------------------------------------

  predicate HasSamples(c: Call) {
    match c
    case StartSegment(_, _, _, _, samples) => samples != []
    case AppendSamples(_, _, samples) => samples != []
    case WriteTimestamped(_, _, pairs) => pairs != []
    case WriteVariable(_, _, _) => true
  }

  /** The call is of a positive finite rate, if it has one. */
  predicate GoodRate(c: Call) {
    c.StartSegment? ==> 0 < c.rate < 0x7FF0_0000_0000_0000
  }

  /** Nothing is wrong with the call as such. */
  predicate Proper(defs: seq<ChannelDef>, c: Call) {
    HasSamples(c) && GoodRate(c) && c.ch < |defs| && defs[c.ch].dataType == c.dt
  }

  /** Both equidistant, both timestamped, or both of variable size. */
  predicate SameKind(a: Call, b: Call) {
    && (a.StartSegment? || a.AppendSamples? <==> b.StartSegment? || b.AppendSamples?)
    && (a.WriteTimestamped? <==> b.WriteTimestamped?)
  }

  /** The call that settled the kind of channel `k`: the first proper one, accepted or not. */
  function Settler(defs: seq<ChannelDef>, calls: seq<Call>, k: u16): (r: Option<Call>)
    ensures r.Some? ==> r.value in calls && r.value.ch == k && Proper(defs, r.value)
  {
    if calls == [] then None
    else
      var (front, c) := (calls[..|calls| - 1], calls[|calls| - 1]);
      if Settler(defs, front, k).Some? then Settler(defs, front, k)
      else if c.ch == k && Proper(defs, c) then Some(c)
      else None
  }

  /** The longest string or binary a frame of this channel holds. */
  function LongestMessage(sov: nat, frameCrc: bool): nat {
    (if sov == 2 then 65535 else 2147482623) - 9 - (if frameCrc then 4 else 0)
  }

  /** A start call on `k` was accepted. */
  predicate Opened(defs: seq<ChannelDef>, frameCrc: bool, calls: seq<Call>, k: u16)
    decreases |calls|, 1
  {
    calls != [] &&
    var (front, c) := (calls[..|calls| - 1], calls[|calls| - 1]);
    || Opened(defs, frameCrc, front, k)
    || (c.StartSegment? && c.ch == k && Objection(defs, frameCrc, front, c).None?)
  }

  /** Why call `c` is refused behind `before`, if it is. */
  function Objection(defs: seq<ChannelDef>, frameCrc: bool, before: seq<Call>, c: Call): Option<Error>
    decreases |before|, 2
  {
    if !HasSamples(c) || !GoodRate(c) || c.ch >= |defs| then Some(InvalidArgument)
    else if Settler(defs, before, c.ch).Some? && !SameKind(Settler(defs, before, c.ch).value, c) then Some(InvalidBlock)
    else if defs[c.ch].dataType != c.dt then Some(DataTypeMismatch)
    else if c.AppendSamples? && !Opened(defs, frameCrc, before, c.ch) then Some(InvalidBlock)
    else if c.WriteVariable? && |c.sample.value| > LongestMessage(defs[c.ch].sov, frameCrc) then Some(InvalidBlock)
    else None
  }

  /** The accepted calls, in order. */
  function AcceptedCalls(defs: seq<ChannelDef>, frameCrc: bool, calls: seq<Call>): (r: seq<Call>)
    ensures forall c :: c in r ==> c in calls && c.ch < |defs|
  {
    if calls == [] then []
    else
      var (front, c) := (calls[..|calls| - 1], calls[|calls| - 1]);
      AcceptedCalls(defs, frameCrc, front) + if Objection(defs, frameCrc, front, c).None? then [c] else []
  }

  // ---------------------------------------------------------------------
  // The writer's state says the same.
  // ---------------------------------------------------------------------

  function LockSaid(defs: seq<ChannelDef>, calls: seq<Call>, k: u16): KindLock {
    match Settler(defs, calls, k)
    case None => Unset
    case Some(c) => LockOf(c)
  }

  /** A streaming writer of channels `defs` after `calls`. */
  predicate InStep(defs: seq<ChannelDef>, frameCrc: bool, calls: seq<Call>, w: Writer) {
    && WellFormed(w) && w.phase.Streaming? && w.channels == defs && w.frameCrc == frameCrc
    && forall k :: 0 <= k < |defs| ==>
         w.states[k] == ChannelState(LockSaid(defs, calls, k), defs[k].dataType, Opened(defs, frameCrc, calls, k))
  }

  lemma SettlerSnoc(defs: seq<ChannelDef>, calls: seq<Call>, c: Call, k: u16)
    ensures Settler(defs, calls + [c], k)
         == if Settler(defs, calls, k).Some? then Settler(defs, calls, k)
            else if c.ch == k && Proper(defs, c) then Some(c) else None
  {
    hide Proper;
    assert (calls + [c])[..|calls + [c]| - 1] == calls;
  }

  lemma OpenedSnoc(defs: seq<ChannelDef>, frameCrc: bool, calls: seq<Call>, c: Call, k: u16)
    ensures Opened(defs, frameCrc, calls + [c], k)
       <==> Opened(defs, frameCrc, calls, k)
            || (c.StartSegment? && c.ch == k && Objection(defs, frameCrc, calls, c).None?)
  {
    hide Objection;
    assert (calls + [c])[..|calls + [c]| - 1] == calls;
  }

  lemma SameLock(a: Call, b: Call)
    ensures SameKind(a, b) <==> LockOf(a) == LockOf(b)
    ensures !LockOf(a).Unset?
  {
  }

  /** The writer's checks find what the calls before say. */
  lemma ChecksSay(defs: seq<ChannelDef>, frameCrc: bool, before: seq<Call>, w: Writer, c: Call)
    requires InStep(defs, frameCrc, before, w) && Typed(c)
    ensures ReachesDisk(w, c) <==> Objection(defs, frameCrc, before, c).None?
    ensures Objection(defs, frameCrc, before, c).Some? ==>
            Perform(w, c).r == Err(Objection(defs, frameCrc, before, c).value) && Perform(w, c).w.disk == w.disk
  {
    hide Settler, Opened, WriteCall, SameKind, LockOf;
    if c.ch < |defs| {
      var st := w.states[c.ch];
      if Settler(defs, before, c.ch).Some? {
        SameLock(Settler(defs, before, c.ch).value, c);
      }
      assert IsSov(defs[c.ch].sov);
    }
  }

  /** A refused call: it may still have settled its channel. */
  lemma RefusedInStep(defs: seq<ChannelDef>, frameCrc: bool, before: seq<Call>, w: Writer, c: Call)
    requires InStep(defs, frameCrc, before, w) && Typed(c) && Objection(defs, frameCrc, before, c).Some?
    ensures InStep(defs, frameCrc, before + [c], Perform(w, c).w)
  {
    hide Settler, Opened, WriteCall, SameKind, LockOf;
    ChecksSay(defs, frameCrc, before, w, c);
    forall k: u16 | k < |defs|
      ensures Perform(w, c).w.states[k]
           == ChannelState(LockSaid(defs, before + [c], k), defs[k].dataType, Opened(defs, frameCrc, before + [c], k))
    {
      SettlerSnoc(defs, before, c, k);
      OpenedSnoc(defs, frameCrc, before, c, k);
      if k == c.ch && Settler(defs, before, k).Some? {
        SameLock(Settler(defs, before, k).value, c);
      }
    }
  }

  lemma {:induction false} WrittenStates(w: Writer, ci: u16, ks: seq<BlockKind>)
    requires ci < |w.channels| && |w.states| == |w.channels| && w.phase.Streaming?
    requires forall k :: k in ks ==> Writable(k)
    ensures WriteBlocks(w, ci, ks).r.Ok? ==>
            StatesAfter(w.states, WriteBlocks(w, ci, ks).w.states, ci, Opens(ks))
    decreases |ks|
  {
    hide EncodeFrame, Writable;
    if ks != [] {
      match EncodeFrame(ci, w.channels[ci].sov, ks[0])
      case Err(_) =>
      case Ok(block) =>
        var o := DoWriteBlock(w, block, w.channels[ci].sov);
        if o.r.Ok? {
          WrittenStates(AfterBlock(o.w, ci, ks[0]), ci, ks[1..]);
        }
    }
  }

  /** An accepted call returns success, unless the disk fails and breaks the writer. */
  lemma AcceptedInStep(defs: seq<ChannelDef>, frameCrc: bool, before: seq<Call>, w: Writer, c: Call)
    requires InStep(defs, frameCrc, before, w) && Typed(c) && Objection(defs, frameCrc, before, c).None?
    ensures var o := Perform(w, c);
            if o.r.Ok? then InStep(defs, frameCrc, before + [c], o.w) else o.w.phase.Broken?
  {
    hide Settler, Opened, SameKind, LockOf, WriteBlocks, CallBlocks, Objection, ReachesDisk, Proper;
    ChecksSay(defs, frameCrc, before, w, c);
    var o := Perform(w, c);
    if o.r.Err? {
      ReachedFailureBreaks(w, c);
    } else {
      SuccessLocks(w, c);
      SuccessStreams(w, c);
      PerformKeepsSetup(w, c);
      FramesWritable(w, c);
      var w1 := Locked(w, c.ch, LockOf(c));
      WrittenStates(w1, c.ch, Frames(w, c));
      assert o.w.states[c.ch].segmentOpen == (w.states[c.ch].segmentOpen || c.StartSegment?) by {
        OnlyStartsOpen(c, w.channels[c.ch].sov, w.frameCrc);
        hide Opens;
      }
      forall k: u16 | k < |defs|
        ensures o.w.states[k]
             == ChannelState(LockSaid(defs, before + [c], k), defs[k].dataType, Opened(defs, frameCrc, before + [c], k))
      {
        AcceptedSettles(defs, frameCrc, before, c, k);
        OpenedSnoc(defs, frameCrc, before, c, k);
      }
    }
  }

  /** After an accepted call its channel is of its kind, and the others are as they were. */
  lemma AcceptedSettles(defs: seq<ChannelDef>, frameCrc: bool, before: seq<Call>, c: Call, k: u16)
    requires Objection(defs, frameCrc, before, c).None?
    ensures LockSaid(defs, before + [c], k) == if k == c.ch then LockOf(c) else LockSaid(defs, before, k)
  {
    hide Settler, Opened, SameKind, LockOf;
    SettlerSnoc(defs, before, c, k);
    if k == c.ch && Settler(defs, before, k).Some? {
      SameLock(Settler(defs, before, k).value, c);
    }
  }

  // ---------------------------------------------------------------------
  // Runs.
  // ---------------------------------------------------------------------

  lemma RunSnoc(w: Writer, calls: seq<Call>)
    requires WellFormed(w) && calls != [] && forall c :: c in calls ==> Typed(c)
    ensures var (front, c) := (calls[..|calls| - 1], calls[|calls| - 1]);
            && (forall x :: x in front ==> Typed(x)) && Typed(c) && WellFormed(Run(w, front))
            && Run(w, calls) == Perform(Run(w, front), c).w
            && Succeeded(w, calls)
               == Succeeded(w, front) + if Perform(Run(w, front), c).r.Ok? then [c] else []
  {
    hide Perform, Typed;
    var (front, c) := (calls[..|calls| - 1], calls[|calls| - 1]);
    assert calls == front + [c];
    assert c in calls;
    RunConcat(w, front, [c]);
    OneCall(Run(w, front), c);
  }

  lemma OneCall(w: Writer, c: Call)
    requires WellFormed(w) && Typed(c)
    ensures Run(w, [c]) == Perform(w, c).w
    ensures Succeeded(w, [c]) == if Perform(w, c).r.Ok? then [c] else []
  {
    hide Perform;
    assert [c][1..] == [];
    assert Run(Perform(w, c).w, []) == Perform(w, c).w;
    assert Succeeded(Perform(w, c).w, []) == [];
  }

  /** A run either breaks or leaves the writer in the state the calls say, the accepted ones having succeeded. */
  lemma {:induction false} RunInStep(w: Writer, h: bytes, calls: seq<Call>)
    requires Started(w, h) && forall c :: c in calls ==> Typed(c)
    ensures !Run(w, calls).phase.Broken? ==>
            InStep(w.channels, w.frameCrc, calls, Run(w, calls))
            && Succeeded(w, calls) == AcceptedCalls(w.channels, w.frameCrc, calls)
    decreases |calls|
  {
    hide Perform, Typed, Settler, Opened, Objection;
    var (defs, frameCrc) := (w.channels, w.frameCrc);
    if calls == [] {
      NothingSettled(defs, frameCrc);
      hide InStep;
      StartedInStep(w, h);
    } else {
      hide InStep;
      var (front, c) := (calls[..|calls| - 1], calls[|calls| - 1]);
      RunSnoc(w, calls);
      RunInStep(w, h, front);
      var w' := Run(w, front);
      if w'.phase.Broken? {
        BrokenStays(w', c);
      } else {
        assert calls == front + [c];
        if Objection(defs, frameCrc, front, c).None? {
          AcceptedInStep(defs, frameCrc, front, w', c);
        } else {
          ChecksSay(defs, frameCrc, front, w', c);
          RefusedInStep(defs, frameCrc, front, w', c);
        }
      }
    }
  }

  lemma NothingSettled(defs: seq<ChannelDef>, frameCrc: bool)
    ensures forall k :: Settler(defs, [], k) == None && !Opened(defs, frameCrc, [], k)
  {
  }

  lemma StartedInStep(w: Writer, h: bytes)
    requires Started(w, h)
    ensures InStep(w.channels, w.frameCrc, [], w)
  {
    NothingSettled(w.channels, w.frameCrc);
  }

  /**
   Acceptance, exactly. Behind any calls that have not broken the writer, a call
   returns success if and only if the calls before it raise no objection and the disk
   does not fail; an objection is the error returned, and the disk is left alone.
   */
  lemma {:induction false} AcceptanceExactly(w: Writer, h: bytes, before: seq<Call>, c: Call)
    requires Started(w, h) && (forall x :: x in before ==> Typed(x)) && Typed(c)
    requires !Run(w, before).phase.Broken?
    ensures var (o, objection) := (Perform(Run(w, before), c), Objection(w.channels, w.frameCrc, before, c));
            && (o.r.Ok? <==> objection.None? && o.w.phase.Streaming?)
            && (objection.Some? ==> o.r == Err(objection.value) && o.w.disk == Run(w, before).disk)
            && (objection.None? ==> o.w.phase.Streaming? || o.w.phase.Broken?)
  {
    hide Perform, Typed, LockSaid, Opened, Objection, Run;
    RunInStep(w, h, before);
    var w' := Run(w, before);
    if Objection(w.channels, w.frameCrc, before, c).None? {
      AcceptedInStep(w.channels, w.frameCrc, before, w', c);
    } else {
      ChecksSay(w.channels, w.frameCrc, before, w', c);
    }
  }

  // ---------------------------------------------------------------------
  // A disk that does not fail.
  // ---------------------------------------------------------------------

  predicate Healthy(script: seq<Fate>) {
    forall f :: f in script ==> f.Succeeds?
  }

  lemma {:induction false} HealthyWrites(w: Writer, ci: u16, ks: seq<BlockKind>)
    requires ci < |w.channels| && |w.states| == |w.channels| && w.phase.Streaming? && Healthy(w.disk.script)
    requires forall k :: k in ks ==> Writable(k)
    ensures WriteBlocks(w, ci, ks).w.phase.Streaming? && Healthy(WriteBlocks(w, ci, ks).w.disk.script)
    decreases |ks|
  {
    hide EncodeFrame, Writable;
    if ks != [] {
      match EncodeFrame(ci, w.channels[ci].sov, ks[0])
      case Err(_) =>
      case Ok(block) => HealthyWrites(AfterBlock(DoWriteBlock(w, block, w.channels[ci].sov).w, ci, ks[0]), ci, ks[1..]);
    }
  }

  lemma HealthyCall(w: Writer, c: Call)
    requires WellFormed(w) && Typed(c) && w.phase.Streaming? && Healthy(w.disk.script)
    ensures Perform(w, c).w.phase.Streaming? && Healthy(Perform(w, c).w.disk.script)
  {
    hide WriteBlocks, CallBlocks;
    if ReachesDisk(w, c) {
      FramesWritable(w, c);
      HealthyWrites(Locked(w, c.ch, LockOf(c)), c.ch, Frames(w, c));
    }
  }

  lemma {:induction false} HealthyRun(w: Writer, calls: seq<Call>)
    requires WellFormed(w) && w.phase.Streaming? && Healthy(w.disk.script) && forall c :: c in calls ==> Typed(c)
    ensures Run(w, calls).phase.Streaming? && Breaking(w, calls) == None
    decreases |calls|
  {
    hide Perform, Healthy, Typed;
    if calls != [] {
      HealthyCall(w, calls[0]);
      HealthyRun(Perform(w, calls[0]).w, calls[1..]);
    }
  }

  /** On a disk that does not fail every call gets the answer the calls before it say. */
  lemma {:induction false} HealthyAnswers(w: Writer, h: bytes, before: seq<Call>, c: Call)
    requires Started(w, h) && Healthy(w.disk.script) && (forall x :: x in before ==> Typed(x)) && Typed(c)
    ensures var (r, objection) := (Perform(Run(w, before), c).r, Objection(w.channels, w.frameCrc, before, c));
            if objection.Some? then r == Err(objection.value) else r.Ok?
    ensures Succeeded(w, before) == AcceptedCalls(w.channels, w.frameCrc, before)
  {
    hide Perform, Typed, Objection, Run, Healthy;
    HealthyRun(w, before);
    HealthyRun(w, before + [c]);
    RunConcat(w, before, [c]);
    OneCall(Run(w, before), c);
    RunInStep(w, h, before);
    AcceptanceExactly(w, h, before, c);
  }
}
