/**
 The promise of the streaming writer: whatever fails and whenever the power goes,
 the surviving file reads without error and holds every sample of every call
 that reported success, plus at most the first chunks of the one call that did not.
 */
module CrashSafety {
  import opened Bytes
  import opened OsfTypes
  import opened Payload
  import opened Frame
  import opened BlockStream
  import opened Codec
  import opened Builder
  import opened Loader
  import opened Chunking
  import opened StreamingSpec
  import opened CallMeaning
  import opened WriterFacts

  // ---------------------------------------------------------------------
  // Feeding a channel's blocks to the builders.
  // ---------------------------------------------------------------------

  lemma {:induction false} BuildConcat(off: Offset, cs: Channels, a: seq<Result<Block>>, b: seq<Result<Block>>)
    ensures Build(off, cs, a + b) == match Build(off, cs, a) case Err(e) => Err(e) case Ok(cs') => Build(off, cs', b)
    decreases |a|
  {
    hide Apply;
    if a == [] {
      assert a + b == b;
    } else {
      assert (a + b)[1..] == a[1..] + b && (a + b)[0] == a[0];
      match a[0]
      case Err(_) =>
      case Ok(blk) =>
        if blk.channelIndex == SIGNATURE_CHANNEL_INDEX {
          BuildConcat(off, cs, a[1..], b);
        } else if blk.channelIndex in cs && Apply(off, cs[blk.channelIndex], blk.kind).Ok? {
          BuildConcat(off, cs[blk.channelIndex := Apply(off, cs[blk.channelIndex], blk.kind).value], a[1..], b);
        }
    }
  }

  lemma OksConcat(a: seq<Block>, b: seq<Block>)
    ensures Oks(a + b) == Oks(a) + Oks(b)
  {
  }

  lemma {:induction false} BuildBlocks(off: Offset, cs: Channels, ci: u16, ks: seq<BlockKind>)
    requires ci in cs && ci != SIGNATURE_CHANNEL_INDEX
    ensures Build(off, cs, Oks(Blocks(ci, ks)))
         == match Fold(off, cs[ci], ks) case Err(e) => Err(e) case Ok(c) => Ok(cs[ci := c])
    decreases |ks|
  {
    hide Apply;
    var items := Oks(Blocks(ci, ks));
    if ks == [] {
      assert items == [];
      assert cs[ci := cs[ci]] == cs;
    } else {
      assert items[0] == Ok(Block(ci, ks[0]));
      assert items[1..] == Oks(Blocks(ci, ks[1..]));
      match Apply(off, cs[ci], ks[0])
      case Err(_) =>
      case Ok(c) =>
        BuildBlocks(off, cs[ci := c], ci, ks[1..]);
        match Fold(off, c, ks[1..])
        case Err(_) =>
        case Ok(c') => assert cs[ci := c][ci := c'] == cs[ci := c'];
    }
  }

  lemma {:induction false} ApplyCallsConcat(off: Offset, cs: Channels, a: seq<Call>, b: seq<Call>)
    ensures ApplyCalls(off, cs, a + b)
         == match ApplyCalls(off, cs, a) case Err(e) => Err(e) case Ok(cs') => ApplyCalls(off, cs', b)
    decreases |a|
  {
    hide Apply;
    if a == [] {
      assert a + b == b;
    } else {
      assert (a + b)[1..] == a[1..] + b && (a + b)[0] == a[0];
      if a[0].ch in cs && Apply(off, cs[a[0].ch], Meaning(a[0])).Ok? {
        ApplyCallsConcat(off, cs[a[0].ch := Apply(off, cs[a[0].ch], Meaning(a[0])).value], a[1..], b);
      }
    }
  }

  lemma ApplyOneCall(off: Offset, cs: Channels, call: Call)
    requires call.ch in cs
    ensures ApplyCalls(off, cs, [call])
         == match Apply(off, cs[call.ch], Meaning(call)) case Err(e) => Err(e) case Ok(c) => Ok(cs[call.ch := c])
  {
    hide Apply;
    assert [call][1..] == [];
    match Apply(off, cs[call.ch], Meaning(call))
    case Err(_) =>
    case Ok(c) => assert ApplyCalls(off, cs[call.ch := c], []) == Ok(cs[call.ch := c]);
  }

  /** Reading the frames of a call is applying the call. */
  lemma BuildCall(off: Offset, cs: Channels, call: Call, sov: nat, frameCrc: bool)
    requires Typed(call) && Count(call) > 0 && call.ch in cs && call.ch != SIGNATURE_CHANNEL_INDEX
    ensures Build(off, cs, Oks(Blocks(call.ch, CallBlocks(call, sov, frameCrc)))) == ApplyCalls(off, cs, [call])
  {
    hide Apply, Fold, Build, ApplyCalls, CallBlocks, Meaning;
    BuildBlocks(off, cs, call.ch, CallBlocks(call, sov, frameCrc));
    ChunkingInvisible(off, cs[call.ch], call, sov, frameCrc);
    ApplyOneCall(off, cs, call);
  }

  // ---------------------------------------------------------------------
  // The disk.
  // ---------------------------------------------------------------------

  ghost predicate AllFitOn(cfg: Config, ci: u16, ks: seq<BlockKind>) {
    forall k :: k in ks ==> Fits(cfg, Block(ci, k))
  }

  lemma BlocksFit(cfg: Config, ci: u16, ks: seq<BlockKind>, j: nat)
    requires AllFitOn(cfg, ci, ks) && j <= |ks|
    ensures AllFit(cfg, Blocks(ci, ks[..j])) && AllFitOn(cfg, ci, ks[..j])
  {
    hide Fits;
    assert forall k :: k in ks[..j] ==> k in ks;
  }

  /** `cfg` reads what `w` writes. */
  ghost predicate Reads(cfg: Config, w: Writer) {
    && !cfg.osf4
    && cfg.integrity.NoIntegrity? == !w.frameCrc
    && |w.channels| <= 0xFFFF
    && forall i :: 0 <= i < |w.channels| ==>
         i in cfg.channels && cfg.channels[i] == ChannelInfo(w.channels[i].dataType, w.channels[i].sov)
  }

  /** One block through the gate. */
  lemma GateBytes(w: Writer, ci: u16, k: BlockKind)
    requires WellFormed(w) && ci < |w.channels| && Frameable(k, w.channels[ci].sov, w.frameCrc)
    requires w.phase.Streaming? && w.disk.pending == []
    ensures var f := FrameBytes(ci, w.channels[ci].sov, w.frameCrc, k);
            var enc := EncodeFrame(ci, w.channels[ci].sov, k);
            && enc.Ok?
            && var o := DoWriteBlock(w, enc.value, w.channels[ci].sov);
               && o.w.(phase := w.phase, sticky := w.sticky, disk := w.disk) == w
               && if o.r.Ok? then o.w.phase.Streaming? && o.w.disk.durable == w.disk.durable + f
                  && o.w.disk.pending == []
                  else o.w.phase.Broken? && o.w.disk.durable == w.disk.durable && o.w.disk.pending <= f
  {
    hide EncodePayload, Seal, FrameOf, Writable;
    var f := FrameBytes(ci, w.channels[ci].sov, w.frameCrc, k);
    assert [] + f == f;
  }

  lemma GateStep(w: Writer, cfg: Config, ci: u16, k: BlockKind)
    requires WellFormed(w) && Reads(cfg, w) && ci < |w.channels| && Fits(cfg, Block(ci, k))
    requires w.phase.Streaming? && w.disk.pending == []
    ensures var f := EncodeBlock(cfg, Block(ci, k));
            var enc := EncodeFrame(ci, w.channels[ci].sov, k);
            && enc.Ok?
            && var o := DoWriteBlock(w, enc.value, w.channels[ci].sov);
               && o.w.(phase := w.phase, sticky := w.sticky, disk := w.disk) == w
               && if o.r.Ok? then o.w.phase.Streaming? && o.w.disk.durable == w.disk.durable + f
                  && o.w.disk.pending == []
                  else o.w.phase.Broken? && o.w.disk.durable == w.disk.durable && o.w.disk.pending <= f
  {
    hide EncodePayload, FrameBytes, EncodeBlock, EncodeFrame, DoWriteBlock, Writable;
    GateBytes(w, ci, k);
    FrameBytesAgree(cfg, ci, k);
  }

  /** Whether a list of blocks opens a segment. */
  predicate Opens(ks: seq<BlockKind>) {
    ks != [] && (ks[0].StartData? || Opens(ks[1..]))
  }

  /** The only change to the channel states. */
  ghost predicate StatesAfter(a: seq<ChannelState>, b: seq<ChannelState>, ci: u16, starts: bool) {
    && |a| == |b| && ci < |a|
    && b == a[ci := a[ci].(segmentOpen := a[ci].segmentOpen || starts)]
  }

  /** `o` is `w` with `whole` forced to disk and, on failure, a torn piece of `next` behind it. */
  ghost predicate Wrote(w: Writer, o: Outcome, whole: bytes, next: bytes) {
    && o.w.disk.durable == w.disk.durable + whole
    && o.w.channels == w.channels && o.w.frameCrc == w.frameCrc
    && (o.r.Ok? ==> o.w.phase.Streaming? && o.w.disk.pending == [])
    && (o.r.Err? ==> o.w.phase.Broken? && o.w.disk.pending <= next)
  }

  lemma WroteMore(w: Writer, w1: Writer, o: Outcome, a: bytes, b: bytes, next: bytes)
    requires w1.disk.durable == w.disk.durable + a && w1.channels == w.channels && w1.frameCrc == w.frameCrc
    requires Wrote(w1, o, b, next)
    ensures Wrote(w, o, a + b, next)
  {
    assert w.disk.durable + a + b == w.disk.durable + (a + b);
  }

  lemma WroteNothing(w: Writer, o: Outcome, next: bytes)
    requires o.w.disk.durable == w.disk.durable && o.w.channels == w.channels && o.w.frameCrc == w.frameCrc
    requires if o.r.Ok? then o.w.phase.Streaming? && o.w.disk.pending == []
             else o.w.phase.Broken? && o.w.disk.pending <= next
    ensures Wrote(w, o, [], next)
  {
    assert w.disk.durable + [] == w.disk.durable;
  }

  /** The frame after the first `j`, if there is one. */
  function FrameAfter(cfg: Config, ci: u16, ks: seq<BlockKind>, j: nat): bytes
    requires forall k :: k in ks ==> Fits(cfg, Block(ci, k))
  {
    if j < |ks| then EncodeBlock(cfg, Block(ci, ks[j])) else []
  }

  /** The first block of a run, and the rest. */
  lemma WriteBlocksHead(w: Writer, cfg: Config, ci: u16, ks: seq<BlockKind>)
    requires WellFormed(w) && Reads(cfg, w) && ci < |w.channels| && AllFitOn(cfg, ci, ks) && ks != []
    requires forall k :: k in ks ==> Writable(k)
    requires w.phase.Streaming? && w.disk.pending == []
    ensures var enc := EncodeFrame(ci, w.channels[ci].sov, ks[0]);
            && Fits(cfg, Block(ci, ks[0])) && enc.Ok?
            && var o := DoWriteBlock(w, enc.value, w.channels[ci].sov);
               WriteBlocks(w, ci, ks) == if o.r.Err? then o else WriteBlocks(AfterBlock(o.w, ci, ks[0]), ci, ks[1..])
    ensures FrameAfter(cfg, ci, ks, 0) == EncodeBlock(cfg, Block(ci, ks[0]))
  {
    hide Fits, EncodeFrame, DoWriteBlock, EncodeBlock, Writable;
    assert ks[0] in ks;
    GateStep(w, cfg, ci, ks[0]);
  }

  lemma FrameAfterTail(cfg: Config, ci: u16, ks: seq<BlockKind>, i: nat)
    requires AllFitOn(cfg, ci, ks) && ks != [] && forall k :: k in ks[1..] ==> Fits(cfg, Block(ci, k))
    ensures FrameAfter(cfg, ci, ks, i + 1) == FrameAfter(cfg, ci, ks[1..], i)
  {
    hide Fits, EncodeBlock;
  }

  /** A run of blocks: all of them, or the first `j` and a torn piece of the next. */
  lemma {:induction false} WriteBlocksDisk(w: Writer, cfg: Config, ci: u16, ks: seq<BlockKind>) returns (j: nat)
    requires WellFormed(w) && Reads(cfg, w) && ci < |w.channels| && AllFitOn(cfg, ci, ks)
    requires forall k :: k in ks ==> Writable(k)
    requires w.phase.Streaming? && w.disk.pending == []
    ensures j <= |ks| && AllFit(cfg, Blocks(ci, ks[..j]))
    ensures var o := WriteBlocks(w, ci, ks);
            && (o.r.Ok? <==> j == |ks|)
            && Wrote(w, o, EncodeAll(cfg, Blocks(ci, ks[..j])), FrameAfter(cfg, ci, ks, j))
            && (o.r.Ok? ==> StatesAfter(w.states, o.w.states, ci, Opens(ks)))
    decreases |ks|
  {
    hide Fits, EncodeFrame, DoWriteBlock, EncodeBlock, EncodeAll, Writable, Wrote, FrameAfter;
    var out := WriteBlocks(w, ci, ks);
    if ks == [] {
      j := 0;
      assert Blocks(ci, ks[..0]) == [];
      EncodeNothing(cfg);
      WroteNothing(w, out, FrameAfter(cfg, ci, ks, j));
    } else {
      WriteBlocksHead(w, cfg, ci, ks);
      hide WriteBlocks;
      GateStep(w, cfg, ci, ks[0]);
      var o := DoWriteBlock(w, EncodeFrame(ci, w.channels[ci].sov, ks[0]).value, w.channels[ci].sov);
      if o.r.Err? {
        j := 0;
        assert Blocks(ci, ks[..0]) == [];
        EncodeNothing(cfg);
        WroteNothing(w, out, FrameAfter(cfg, ci, ks, j));
      } else {
        var w1 := AfterBlock(o.w, ci, ks[0]);
        var i := WriteBlocksDisk(w1, cfg, ci, ks[1..]);
        j := i + 1;
        BlocksFit(cfg, ci, ks, j);
        BlocksCons(cfg, ci, ks, j);
        FrameAfterTail(cfg, ci, ks, i);
        WroteMore(w, w1, out, EncodeBlock(cfg, Block(ci, ks[0])), EncodeAll(cfg, Blocks(ci, ks[1..][..i])),
                  FrameAfter(cfg, ci, ks[1..], i));
      }
    }
  }

  lemma BlocksCons(cfg: Config, ci: u16, ks: seq<BlockKind>, j: nat)
    requires AllFitOn(cfg, ci, ks) && 0 < j <= |ks| && AllFit(cfg, Blocks(ci, ks[..j]))
    requires AllFit(cfg, Blocks(ci, ks[1..][..j - 1]))
    ensures Fits(cfg, Block(ci, ks[0]))
    ensures EncodeAll(cfg, Blocks(ci, ks[..j]))
            == EncodeBlock(cfg, Block(ci, ks[0])) + EncodeAll(cfg, Blocks(ci, ks[1..][..j - 1]))
  {
    hide Fits, EncodeBlock;
    assert Blocks(ci, ks[..j])[1..] == Blocks(ci, ks[1..][..j - 1]);
  }

  // ---------------------------------------------------------------------
  // The writer's locks agree with what a reader would have built.
  // ---------------------------------------------------------------------

  ghost predicate LockMatches(c: Channel, st: ChannelState) {
    && c.dt == st.dt
    && match c.state
       case Pending => IsFixed(c.dt) && !st.segmentOpen && !st.lock.VariableLock?
       case Equidistant(_, segs) => st.lock.EquidistantLock? && segs != []
       case Timestamped(_, _) => st.lock.TimestampedLock? && !st.segmentOpen
       case Variable(_, _) => IsVariable(c.dt) && (st.lock.Unset? || st.lock.VariableLock?) && !st.segmentOpen
       case Dropped => false
  }

  ghost predicate Coupled(w: Writer, cs: Channels) {
    && |w.states| == |w.channels|
    && forall i :: 0 <= i < |w.channels| ==>
         i in cs && LockMatches(cs[i], w.states[i]) && w.states[i].dt == w.channels[i].dataType
  }

  /** The checks a call has to pass on its channel. */
  predicate Admitted(st: ChannelState, call: Call) {
    && Count(call) > 0
    && (st.lock.Unset? || st.lock == LockOf(call))
    && st.dt == call.dt
    && (call.AppendSamples? ==> st.segmentOpen)
  }

  /** An admitted call, or any beginning of it, never upsets the builder, and the lock keeps matching. */
  lemma {:induction false} AdmittedCallApplies(off: Offset, c: Channel, st: ChannelState, call: Call)
    requires Typed(call) && LockMatches(c, st) && Admitted(st, call)
    ensures Apply(off, c, Meaning(call)).Ok?
    ensures LockMatches(Apply(off, c, Meaning(call)).value,
                        ChannelState(LockOf(call), st.dt, st.segmentOpen || call.StartSegment?))
  {
    hide LastFromSegment, GrowLast;
  }

  lemma ShortenedAdmitted(st: ChannelState, call: Call, n: nat)
    requires Typed(call) && Admitted(st, call) && 0 < n <= Count(call)
    ensures Typed(Shorten(call, n)) && Admitted(st, Shorten(call, n))
    ensures Shorten(call, n).ch == call.ch && Count(Shorten(call, n)) > 0
  {
  }

  lemma {:induction false} NothingOpens(ks: seq<BlockKind>)
    requires forall k :: k in ks ==> !k.StartData?
    ensures !Opens(ks)
    decreases |ks|
  {
    if ks != [] {
      assert ks[0] in ks;
      NothingOpens(ks[1..]);
    }
  }

  lemma {:induction false} ContinuedOnly(dt: DataType, samples: seq<bytes>, max: nat)
    requires max > 0
    ensures forall k :: k in ContinuedChunks(dt, samples, max) ==> k.ContinuedData?
    decreases |samples|
  {
    if samples != [] {
      ContinuedOnly(dt, samples[Min(|samples|, max)..], max);
    }
  }

  lemma {:induction false} AbsOnly(dt: DataType, pairs: seq<Stamped>, max: nat)
    requires max > 0
    ensures forall k :: k in AbsChunks(dt, pairs, max) ==> k.AbsTimestampData?
    decreases |pairs|
  {
    if pairs != [] {
      AbsOnly(dt, pairs[Min(|pairs|, max)..], max);
    }
  }

  lemma OnlyStartsOpen(call: Call, sov: nat, frameCrc: bool)
    requires Typed(call) && Count(call) > 0
    ensures Opens(CallBlocks(call, sov, frameCrc)) == call.StartSegment?
  {
    var ks := CallBlocks(call, sov, frameCrc);
    hide MaxSamples, Opens;
    match call
    case StartSegment(_, _, _, _, _) => assert Opens(ks) by { FirstOpens(ks); }
    case AppendSamples(_, dt, samples) =>
      ContinuedOnly(dt, samples, MaxSamplesPerContinuedBlock(Width(dt), sov, frameCrc));
      NothingOpens(ks);
    case WriteTimestamped(_, dt, pairs) =>
      AbsOnly(dt, pairs, MaxSamplesPerTimestampedBlock(Width(dt), sov, frameCrc));
      NothingOpens(ks);
    case WriteVariable(_, _, _) => NothingOpens(ks);
  }

  lemma FirstOpens(ks: seq<BlockKind>)
    requires ks != [] && ks[0].StartData?
    ensures Opens(ks)
  {
  }

  // ---------------------------------------------------------------------
  // One call.
  // ---------------------------------------------------------------------

  /**
   Everything on disk is durable, is header `h` and the frames of `log`, and a
   reader of those frames builds `cs`, which agrees with the writer's locks.
   */
  ghost predicate Synced(off: Offset, cfg: Config, h: bytes, seed: Channels, w: Writer, log: seq<Block>, cs: Channels) {
    && WellFormed(w) && Reads(cfg, w) && w.phase.Streaming? && Coupled(w, cs)
    && AllFit(cfg, log) && w.disk.durable == h + EncodeAll(cfg, log) && w.disk.pending == []
    && Build(off, seed, Oks(log)) == Ok(cs)
  }

  /** The writer broke while writing `next` behind the frames of `log`. */
  ghost predicate Torn(cfg: Config, h: bytes, w: Writer, log: seq<Block>, next: Block) {
    && w.phase.Broken? && AllFit(cfg, log) && Fits(cfg, next)
    && w.disk.durable == h + EncodeAll(cfg, log)
    && w.disk.pending <= EncodeBlock(cfg, next)
  }

  /** The frames of a call that reaches the disk fit the reader's view of its channel. */
  lemma CallFramesFit(cfg: Config, w: Writer, call: Call)
    requires WellFormed(w) && Reads(cfg, w) && Typed(call) && ReachesDisk(w, call) && w.phase.Streaming?
    requires w.states[call.ch].dt == w.channels[call.ch].dataType && !IsSignature(cfg, call.ch)
    ensures AllFitOn(cfg, call.ch, CallBlocks(call, w.channels[call.ch].sov, w.frameCrc))
  {
    hide EncodePayload, Writable, CallBlocks, PayloadBudget;
    var sov := w.channels[call.ch].sov;
    CallBlocksFit(call, sov, w.frameCrc);
    forall k | k in CallBlocks(call, sov, w.frameCrc)
      ensures Fits(cfg, Block(call.ch, k))
    {
    }
  }

  /** A call that is turned away leaves disk and coupling as they were. */
  lemma RefusedCall(off: Offset, cfg: Config, h: bytes, seed: Channels, w: Writer, log: seq<Block>, cs: Channels,
                    call: Call)
    requires Typed(call) && Synced(off, cfg, h, seed, w, log, cs) && !ReachesDisk(w, call)
    ensures Perform(w, call).r.Err?
    ensures Synced(off, cfg, h, seed, Perform(w, call).w, log, cs)
  {
    hide Build, EncodeAll, Fits, Coupled, Perform, AllFit, ReachesDisk;
    RefusedState(w, call);
    var w' := Perform(w, call).w;
    if w' != w {
      LockKeepsCoupled(w, cs, call.ch, LockOf(call), call.dt);
    }
  }

  /** A refused call leaves the writer alone, or has locked its channel and nothing else. */
  lemma RefusedState(w: Writer, call: Call)
    requires WellFormed(w) && Typed(call) && !ReachesDisk(w, call)
    ensures Perform(w, call).r.Err?
    ensures Perform(w, call).w == w ||
            (Require(w, call.ch, LockOf(call), call.dt).None? && Perform(w, call).w == Locked(w, call.ch, LockOf(call)))
  {
    hide WriteCall, Require, PayloadBudget;
  }

  /** Passing the channel checks on a coupled writer keeps it coupled. */
  lemma LockKeepsCoupled(w: Writer, cs: Channels, ch: u16, lock: KindLock, dt: DataType)
    requires WellFormed(w) && Coupled(w, cs) && Require(w, ch, lock, dt).None?
    requires lock.VariableLock? ==> IsVariable(dt)
    requires !lock.VariableLock? ==> IsFixed(dt)
    ensures Coupled(Locked(w, ch, lock), cs)
  {
    hide IsFixed, IsVariable;
    VariableOrFixed(dt);
    if lock == w.states[ch].lock {
      assert Locked(w, ch, lock).states == w.states;
    }
  }

  lemma VariableOrFixed(dt: DataType)
    ensures !(IsVariable(dt) && IsFixed(dt))
  {
  }

  lemma AdmittedByChecks(w: Writer, call: Call)
    requires WellFormed(w) && Typed(call) && w.phase.Streaming? && ReachesDisk(w, call)
    ensures call.ch < |w.channels| && Admitted(w.states[call.ch], call)
    ensures Perform(w, call) == WriteCall(w, call)
    ensures WithinCapacity(call, w.channels[call.ch].sov, w.frameCrc)
  {
    hide WriteCall, PayloadBudget;
  }

  /** A call whose frames all reached the disk extends log, channels and coupling together. */
  lemma DeliveredCall(off: Offset, cfg: Config, h: bytes, seed: Channels, w: Writer, log: seq<Block>, cs: Channels,
                      call: Call, o: Outcome)
    requires Typed(call) && Synced(off, cfg, h, seed, w, log, cs) && call.ch < |w.channels|
    requires Admitted(w.states[call.ch], call) && call.ch != SIGNATURE_CHANNEL_INDEX
    requires var blocks := Blocks(call.ch, Frames(w, call));
             AllFit(cfg, blocks) && Wrote(w, o, EncodeAll(cfg, blocks), [])
    requires o.r.Ok? && StatesAfter(Locked(w, call.ch, LockOf(call)).states, o.w.states, call.ch, call.StartSegment?)
    ensures ApplyCalls(off, cs, [call]).Ok?
    ensures Synced(off, cfg, h, seed, o.w, log + Blocks(call.ch, Frames(w, call)), ApplyCalls(off, cs, [call]).value)
  {
    hide Build, EncodeAll, EncodeBlock, Fits, Apply, Meaning, CallBlocks, LockMatches, Admitted, ApplyCalls;
    var (ci, blocks) := (call.ch, Blocks(call.ch, Frames(w, call)));
    assert Count(call) > 0 by { AdmittedCounts(w.states[ci], call); }
    AdmittedCallApplies(off, cs[ci], w.states[ci], call);
    ApplyOneCall(off, cs, call);
    var cs' := ApplyCalls(off, cs, [call]).value;
    BuildCall(off, cs, call, w.channels[ci].sov, w.frameCrc);
    OksConcat(log, blocks);
    BuildConcat(off, seed, Oks(log), Oks(blocks));
    EncodeAllConcat(cfg, log, blocks);
    assert h + EncodeAll(cfg, log) + EncodeAll(cfg, blocks) == h + (EncodeAll(cfg, log) + EncodeAll(cfg, blocks));
    CoupledAfter(off, w, cs, call, o.w, cs');
  }

  lemma AdmittedCounts(st: ChannelState, call: Call)
    requires Admitted(st, call)
    ensures Count(call) > 0 && st.dt == call.dt
  {
  }

  lemma CoupledAfter(off: Offset, w: Writer, cs: Channels, call: Call, w': Writer, cs': Channels)
    requires Typed(call) && Coupled(w, cs) && call.ch < |w.channels| && Admitted(w.states[call.ch], call)
    requires w'.channels == w.channels
    requires StatesAfter(Locked(w, call.ch, LockOf(call)).states, w'.states, call.ch, call.StartSegment?)
    requires Apply(off, cs[call.ch], Meaning(call)).Ok?
             && cs' == cs[call.ch := Apply(off, cs[call.ch], Meaning(call)).value]
    ensures Coupled(w', cs')
  {
    hide Apply, Meaning, LockMatches, Admitted;
    AdmittedCallApplies(off, cs[call.ch], w.states[call.ch], call);
  }

  /** The writer broke on `b`: the frames of `log` and the first `j` of `b` are durable, frame `j` is torn. */
  ghost predicate BrokeOn(off: Offset, cfg: Config, h: bytes, seed: Channels, w: Writer, log: seq<Block>, cs: Channels,
                          b: Call, j: nat)
  {
    && WellFormed(w) && Typed(b) && b.ch < |w.channels| && b.ch != SIGNATURE_CHANNEL_INDEX && b.ch in cs
    && (exists st :: LockMatches(cs[b.ch], st) && Admitted(st, b))
    && j < |Frames(w, b)| && AllFitOn(cfg, b.ch, Frames(w, b))
    && Torn(cfg, h, w, log + Blocks(b.ch, Frames(w, b)[..j]), Block(b.ch, Frames(w, b)[j]))
    && Build(off, seed, Oks(log)) == Ok(cs)
  }

  /** A call that reaches the disk is delivered or torn. */
  lemma WrittenCall(off: Offset, cfg: Config, h: bytes, seed: Channels, w: Writer, log: seq<Block>, cs: Channels,
                    call: Call)
    returns (j: nat)
    requires Typed(call) && Synced(off, cfg, h, seed, w, log, cs) && ReachesDisk(w, call)
    requires call.ch != SIGNATURE_CHANNEL_INDEX
    ensures call.ch < |w.channels|
    ensures var o := WriteCall(w, call);
            if o.r.Ok? then
              && ApplyCalls(off, cs, [call]).Ok?
              && Synced(off, cfg, h, seed, o.w, log + Blocks(call.ch, Frames(w, call)),
                        ApplyCalls(off, cs, [call]).value)
            else o.w.phase.Broken? && BrokeOn(off, cfg, h, seed, o.w, log, cs, call, j)
  {
    hide Build, EncodeAll, EncodeBlock, Fits, Apply, Meaning, CallBlocks, LockMatches, ApplyCalls, WriteBlocks,
         Writable, PayloadBudget, Admitted, ReachesDisk, Torn, EncodePayload, Reserve, AllFit;
    AdmittedByChecks(w, call);
    assert Count(call) > 0 by { AdmittedCounts(w.states[call.ch], call); }
    var (ci, ks) := (call.ch, Frames(w, call));
    CallFramesFit(cfg, w, call);
    CallBlocksFit(call, w.channels[ci].sov, w.frameCrc);
    var w1 := Locked(w, ci, LockOf(call));
    var o := WriteBlocks(w1, ci, ks);
    assert o == WriteCall(w, call);
    j := WriteBlocksDisk(w1, cfg, ci, ks);
    if o.r.Ok? {
      OnlyStartsOpen(call, w.channels[ci].sov, w.frameCrc);
      assert ks[..j] == ks;
      DeliveredCall(off, cfg, h, seed, w, log, cs, call, o);
    } else {
      TornCall(cfg, h, w, log, ci, ks, j, o);
    }
  }

  lemma TornCall(cfg: Config, h: bytes, w: Writer, log: seq<Block>, ci: u16, ks: seq<BlockKind>, j: nat, o: Outcome)
    requires AllFit(cfg, log) && AllFitOn(cfg, ci, ks) && j < |ks| && o.r.Err?
    requires w.disk.durable == h + EncodeAll(cfg, log)
    requires AllFit(cfg, Blocks(ci, ks[..j]))
    requires Wrote(w, o, EncodeAll(cfg, Blocks(ci, ks[..j])), FrameAfter(cfg, ci, ks, j))
    ensures Torn(cfg, h, o.w, log + Blocks(ci, ks[..j]), Block(ci, ks[j]))
  {
    hide EncodeAll, EncodeBlock, Fits, AllFit, Blocks;
    var b := Blocks(ci, ks[..j]);
    EncodeAllConcat(cfg, log, b);
    Associative(h, EncodeAll(cfg, log), EncodeAll(cfg, b));
    assert ks[j] in ks;
  }

  /** One call on a healthy writer: refused, delivered, or torn. */
  lemma CallOutcome(off: Offset, cfg: Config, h: bytes, seed: Channels, w: Writer, log: seq<Block>, cs: Channels,
                    call: Call)
    returns (log': seq<Block>, cs': Channels, j: nat)
    requires Typed(call) && Synced(off, cfg, h, seed, w, log, cs)
    requires ReachesDisk(w, call) ==> call.ch != SIGNATURE_CHANNEL_INDEX
    ensures var o := Perform(w, call);
            && (o.r.Ok? ==> o.w.phase.Streaming? && ApplyCalls(off, cs, [call]) == Ok(cs') && call.ch < |w.channels|)
            && (o.r.Ok? ==> log' == log + Blocks(call.ch, Frames(w, call)))
            && (o.r.Err? ==> cs' == cs && log' == log)
            && if o.w.phase.Broken? then o.r.Err? && BrokeOn(off, cfg, h, seed, o.w, log', cs', call, j)
               else Synced(off, cfg, h, seed, o.w, log', cs')
  {
    log', cs', j := log, cs, 0;
    if !ReachesDisk(w, call) {
      hide ReachesDisk, Perform, ApplyCalls, BrokeOn;
      RefusedCall(off, cfg, h, seed, w, log, cs, call);
    } else {
      hide ReachesDisk, Perform, ApplyCalls, BrokeOn, WriteCall;
      AdmittedByChecks(w, call);
      j := WrittenCall(off, cfg, h, seed, w, log, cs, call);
      if WriteCall(w, call).r.Ok? {
        log' := log + Blocks(call.ch, Frames(w, call));
        cs' := ApplyCalls(off, cs, [call]).value;
      }
    }
  }

  lemma BrokenStays(w: Writer, call: Call)
    requires WellFormed(w) && Typed(call) && w.phase.Broken?
    ensures Perform(w, call).w == w && Perform(w, call).r.Err?
  {
    hide CallBlocks, WriteBlocks;
  }

  lemma {:induction false} BrokenRun(w: Writer, calls: seq<Call>)
    requires WellFormed(w) && w.phase.Broken? && forall c :: c in calls ==> Typed(c)
    ensures Run(w, calls) == w && Succeeded(w, calls) == [] && Breaking(w, calls) == None
    decreases |calls|
  {
    hide Perform;
    if calls != [] {
      BrokenStays(w, calls[0]);
      BrokenRun(w, calls[1..]);
    }
  }

  // ---------------------------------------------------------------------
  // Whole runs.
  // ---------------------------------------------------------------------

  /** The frames of a list of calls, one call after the other. */
  function FramesOf(channels: seq<ChannelDef>, frameCrc: bool, calls: seq<Call>): seq<Block>
    requires forall c :: c in calls ==> Typed(c)
    decreases |calls|
  {
    if calls == [] then []
    else
      assert Typed(calls[0]);
      (if calls[0].ch < |channels| then Blocks(calls[0].ch, CallBlocks(calls[0], channels[calls[0].ch].sov, frameCrc))
        else [])
      + FramesOf(channels, frameCrc, calls[1..])
  }

  /** Nothing was written to the channel index that readers take for signatures. */
  predicate AvoidsSignatures(w: Writer, calls: seq<Call>)
    requires WellFormed(w) && forall c :: c in calls ==> Typed(c)
  {
    && (forall c :: c in Succeeded(w, calls) ==> c.ch != SIGNATURE_CHANNEL_INDEX)
    && (Breaking(w, calls).Some? ==> Breaking(w, calls).value.ch != SIGNATURE_CHANNEL_INDEX)
  }

  /** What the rest of a run inherits. */
  lemma AvoidsHead(w: Writer, calls: seq<Call>)
    requires WellFormed(w) && w.phase.Streaming? && calls != [] && forall c :: c in calls ==> Typed(c)
    requires AvoidsSignatures(w, calls)
    ensures ReachesDisk(w, calls[0]) ==> calls[0].ch != SIGNATURE_CHANNEL_INDEX
    ensures !Perform(w, calls[0]).w.phase.Broken? ==> AvoidsSignatures(Perform(w, calls[0]).w, calls[1..])
  {
    hide Perform, ReachesDisk;
    var o := Perform(w, calls[0]);
    if ReachesDisk(w, calls[0]) && o.r.Err? {
      ReachedFailureBreaks(w, calls[0]);
    }
    if o.r.Ok? {
      assert Succeeded(w, calls) == [calls[0]] + Succeeded(o.w, calls[1..]);
      assert calls[0] in Succeeded(w, calls);
    } else {
      assert Succeeded(w, calls) == Succeeded(o.w, calls[1..]);
    }
  }

  /** Where a run of calls ends: exactly the frames of the successful calls synced, and perhaps one more call torn. */
  lemma {:induction false} RunOutcome(off: Offset, cfg: Config, h: bytes, seed: Channels, w: Writer, log: seq<Block>,
                                      cs: Channels, calls: seq<Call>)
    returns (log': seq<Block>, cs': Channels, j: nat)
    requires (forall c :: c in calls ==> Typed(c)) && Synced(off, cfg, h, seed, w, log, cs)
    requires AvoidsSignatures(w, calls)
    ensures ApplyCalls(off, cs, Succeeded(w, calls)) == Ok(cs')
    ensures log' == log + FramesOf(w.channels, w.frameCrc, Succeeded(w, calls))
    ensures Run(w, calls).channels == w.channels && Run(w, calls).frameCrc == w.frameCrc
    ensures match Breaking(w, calls)
            case None => Synced(off, cfg, h, seed, Run(w, calls), log', cs')
            case Some(b) => b in calls && BrokeOn(off, cfg, h, seed, Run(w, calls), log', cs', b, j)
    decreases |calls|
  {
    hide Perform, Synced, BrokeOn, Apply, Meaning, AvoidsSignatures, CallBlocks, ReachesDisk, Blocks;
    if calls == [] {
      log', cs', j := log, cs, 0;
      assert log + [] == log;
    } else {
      assert w.phase.Streaming? && WellFormed(w) by { SyncedStreams(off, cfg, h, seed, w, log, cs); }
      var call := calls[0];
      var o := Perform(w, call);
      AvoidsHead(w, calls);
      PerformKeepsSetup(w, call);
      var log1, cs1, i := CallOutcome(off, cfg, h, seed, w, log, cs, call);
      if o.w.phase.Broken? {
        BrokenRun(o.w, calls[1..]);
        log', cs', j := log1, cs1, i;
        assert Succeeded(w, calls) == [];
        assert log + [] == log;
      } else {
        log', cs', j := RunOutcome(off, cfg, h, seed, o.w, log1, cs1, calls[1..]);
        var more := Succeeded(o.w, calls[1..]);
        if o.r.Ok? {
          ApplyCallsConcat(off, cs, [call], more);
          FramesHead(w.channels, w.frameCrc, call, more);
          Associative(log, Blocks(call.ch, Frames(w, call)), FramesOf(w.channels, w.frameCrc, more));
        } else {
          assert [] + more == more;
        }
      }
    }
  }

  lemma FramesHead(channels: seq<ChannelDef>, frameCrc: bool, call: Call, more: seq<Call>)
    requires Typed(call) && (forall c :: c in more ==> Typed(c)) && call.ch < |channels|
    ensures FramesOf(channels, frameCrc, [call] + more)
         == Blocks(call.ch, CallBlocks(call, channels[call.ch].sov, frameCrc)) + FramesOf(channels, frameCrc, more)
  {
    hide CallBlocks, Blocks;
    assert ([call] + more)[1..] == more;
  }

  lemma SyncedStreams(off: Offset, cfg: Config, h: bytes, seed: Channels, w: Writer, log: seq<Block>, cs: Channels)
    requires Synced(off, cfg, h, seed, w, log, cs)
    ensures w.phase.Streaming? && WellFormed(w)
  {
  }

  /** The writer as `start` leaves it: `h` is the header and metablock. */
  predicate Started(w: Writer, h: bytes) {
    && WellFormed(w) && w.phase.Streaming?
    && w.disk.durable == h && w.disk.pending == []
    && forall i :: 0 <= i < |w.channels| ==>
         !w.channels[i].dataType.Unsupported? && w.states[i] == ChannelState(Unset, w.channels[i].dataType, false)
  }

  lemma StartedSeeds(w: Writer, h: bytes, i: nat)
    requires Started(w, h) && i < |w.channels|
    ensures var meta := MetaOf(w.channels);
            && i in Seed(meta) && Seed(meta)[i] == Fresh(w.channels[i].dataType)
            && i in ReaderChannels(meta)
            && ReaderChannels(meta)[i] == ChannelInfo(w.channels[i].dataType, w.channels[i].sov)
  {
    hide Seed, ReaderChannels;
    SeedAt(MetaOf(w.channels), i);
  }

  lemma StartedIsSynced(off: Offset, w: Writer, h: bytes, capture: bool)
    requires Started(w, h)
    ensures Synced(off, ReaderOf(w, capture), h, Seed(MetaOf(w.channels)), w, [], Seed(MetaOf(w.channels)))
  {
    hide Seed, ReaderChannels, MetaOf, EncodeAll;
    var cs := Seed(MetaOf(w.channels));
    forall i | 0 <= i < |w.channels|
      ensures i in cs && LockMatches(cs[i], w.states[i])
      ensures i in ReaderChannels(MetaOf(w.channels))
      ensures ReaderChannels(MetaOf(w.channels))[i] == ChannelInfo(w.channels[i].dataType, w.channels[i].sov)
    {
      StartedSeeds(w, h, i);
    }
    EncodeNothing(ReaderOf(w, capture));
    assert h + [] == h;
    assert Oks([]) == [];
  }

  /** Reading a synced data section. */
  lemma ReadSynced(cfg: Config, h: bytes, log: seq<Block>, file: bytes)
    requires !cfg.osf4 && AllFit(cfg, log) && file == h + EncodeAll(cfg, log)
    ensures h <= file && Items(cfg, file[|h|..]) == Oks(log)
  {
    hide Items, EncodeAll, Fits;
    assert file[|h|..] == EncodeAll(cfg, log);
    AllReadBack(cfg, log);
  }

  /** Reading frames with anything behind them. */
  lemma {:induction false} ItemsAfter(cfg: Config, log: seq<Block>, x: bytes)
    requires !cfg.osf4 && AllFit(cfg, log)
    ensures Items(cfg, EncodeAll(cfg, log) + x) == Oks(log) + Items(cfg, x)
    decreases |log|
  {
    if log == [] {
      hide Items;
      assert EncodeAll(cfg, log) + x == x && Oks(log) + Items(cfg, x) == Items(cfg, x);
    } else {
      hide Items, EncodeBlock, Fits, EncodeAll, AllFit, Oks;
      EncodeAllHead(cfg, log);
      var (f, rest) := (EncodeBlock(cfg, log[0]), EncodeAll(cfg, log[1..]));
      Associative(f, rest, x);
      FrameInFront(cfg, log[0], rest + x);
      ItemsAfter(cfg, log[1..], x);
      Associative([Ok(log[0])], Oks(log[1..]), Items(cfg, x));
    }
  }

  /** A piece of a frame reads as the block or as nothing. */
  lemma PieceOfFrame(cfg: Config, next: Block, x: bytes)
    requires !cfg.osf4 && Fits(cfg, next) && x <= EncodeBlock(cfg, next)
    ensures Items(cfg, x) == [] || Items(cfg, x) == [Ok(next)]
  {
    hide Next, EncodeBlock, Fits, Items;
    var f := EncodeBlock(cfg, next);
    if |x| == |f| {
      FrameInFront(cfg, next, []);
      assert f + [] == x;
      assert Items(cfg, []) == [] by { EmptyStep(cfg, []); NothingRead(cfg, []); }
    } else {
      assert x == f[..|x|];
      PartialFrame(cfg, next, |x|);
      NothingRead(cfg, x);
    }
  }

  /** Reading a torn data section: the torn frame is there whole or not at all. */
  lemma SurvivorSplits(d: Disk, h: bytes, whole: bytes, file: bytes)
    requires d.durable == h + whole && Survives(d, file)
    ensures h <= file && |h| + |whole| <= |file|
    ensures file[|h|..] == whole + file[|h| + |whole|..]
    ensures file[|h| + |whole|..] <= d.pending
  {
    var x := file[|h| + |whole|..];
    assert file == h + whole + x;
    assert x == (d.durable + d.pending)[|d.durable|..|file|];
  }

  lemma ReadTorn(cfg: Config, h: bytes, w: Writer, log: seq<Block>, next: Block, file: bytes)
    requires !cfg.osf4 && Torn(cfg, h, w, log, next) && Survives(w.disk, file)
    ensures h <= file
    ensures Items(cfg, file[|h|..]) == Oks(log) || Items(cfg, file[|h|..]) == Oks(log + [next])
  {
    hide Items, EncodeBlock, EncodeAll, Fits, AllFit;
    var whole := EncodeAll(cfg, log);
    SurvivorSplits(w.disk, h, whole, file);
    var x := file[|h| + |whole|..];
    ItemsAfter(cfg, log, x);
    PieceOfFrame(cfg, next, x);
    assert Oks(log) + [] == Oks(log) && Oks(log) + [Ok(next)] == Oks(log + [next]);
  }

  /** What a torn call leaves readable is nothing, or the call cut short at a chunk boundary. */
  lemma TornMeaning(off: Offset, cfg: Config, h: bytes, seed: Channels, w: Writer, log: seq<Block>, cs: Channels,
                    b: Call, j: nat, n: nat)
    requires BrokeOn(off, cfg, h, seed, w, log, cs, b, j) && j <= n <= j + 1
    ensures n <= |Frames(w, b)|
    ensures n == 0 ==> Build(off, seed, Oks(log + Blocks(b.ch, Frames(w, b)[..n]))) == Ok(cs)
    ensures n > 0 ==>
      var m := TotalCount(Frames(w, b)[..n]);
      && 0 < m <= Count(b) && Typed(Shorten(b, m))
      && ApplyCalls(off, cs, [Shorten(b, m)]).Ok?
      && Build(off, seed, Oks(log + Blocks(b.ch, Frames(w, b)[..n]))) == ApplyCalls(off, cs, [Shorten(b, m)])
  {
    hide Build, CallBlocks, Apply, Meaning, ApplyCalls, LockMatches, Admitted, Shorten, TotalCount, Oks, Fold;
    var ks := Frames(w, b);
    var st :| LockMatches(cs[b.ch], st) && Admitted(st, b);
    AdmittedCounts(st, b);
    OksConcat(log, Blocks(b.ch, ks[..n]));
    BuildConcat(off, seed, Oks(log), Oks(Blocks(b.ch, ks[..n])));
    if n == 0 {
      assert ks[..0] == [];
      BuildBlocks(off, cs, b.ch, []);
      assert Fold(off, cs[b.ch], []) == Ok(cs[b.ch]) by { FoldNone(off, cs[b.ch]); }
      assert cs[b.ch := cs[b.ch]] == cs;
    } else {
      var m := TotalCount(ks[..n]);
      CallPrefix(b, w.channels[b.ch].sov, w.frameCrc, n);
      ShortenedAdmitted(st, b, m);
      AdmittedCallApplies(off, cs[b.ch], st, Shorten(b, m));
      ApplyOneCall(off, cs, Shorten(b, m));
      BuildCall(off, cs, Shorten(b, m), w.channels[b.ch].sov, w.frameCrc);
    }
  }

  /** `tail` is no call, or the first few frames of the call the disk failed on. */
  ghost predicate TornTail(w: Writer, tail: seq<Call>, breaking: Option<Call>)
    requires WellFormed(w) && (breaking.Some? ==> Typed(breaking.value))
  {
    tail == [] ||
    (breaking.Some? && breaking.value.ch < |w.channels| &&
     exists n ::
       && 0 < n <= |Frames(w, breaking.value)|
       && var m := TotalCount(Frames(w, breaking.value)[..n]);
          0 < m <= Count(breaking.value) && tail == [Shorten(breaking.value, m)])
  }

  lemma {:induction false} RunsTyped(w: Writer, calls: seq<Call>)
    requires WellFormed(w) && forall c :: c in calls ==> Typed(c)
    ensures Breaking(w, calls).Some? ==> Typed(Breaking(w, calls).value)
    decreases |calls|
  {
    hide Perform, Typed;
    if calls != [] {
      RunsTyped(Perform(w, calls[0]).w, calls[1..]);
    }
  }

  /** What the reader and its builders make of the surviving data section. */
  lemma CrashBuilds(off: Offset, w: Writer, h: bytes, calls: seq<Call>, file: bytes, capture: bool)
    returns (tail: seq<Call>)
    requires Started(w, h) && forall c :: c in calls ==> Typed(c)
    requires AvoidsSignatures(w, calls) && Survives(Run(w, calls).disk, file)
    ensures h <= file
    ensures forall c :: c in tail ==> Typed(c)
    ensures Breaking(w, calls).Some? ==> Typed(Breaking(w, calls).value)
    ensures TornTail(w, tail, Breaking(w, calls))
    ensures var seed := Seed(MetaOf(w.channels));
            var built := ApplyCalls(off, seed, Succeeded(w, calls) + tail);
            built.Ok? && Build(off, seed, Items(ReaderOf(w, capture), file[|h|..])) == built
  {
    hide Build, Items, EncodeAll, EncodeBlock, Fits, ApplyCalls, Perform, Seed, Oks, CallBlocks, Reads, Coupled, Apply,
         Shorten, Torn, AllFitOn, AvoidsSignatures, FramesOf, Admitted, LockMatches, TotalCount;
    var cfg, seed := ReaderOf(w, capture), Seed(MetaOf(w.channels));
    RunsTyped(w, calls);
    StartedIsSynced(off, w, h, capture);
    var log, cs, j := RunOutcome(off, cfg, h, seed, w, [], seed, calls);
    var w' := Run(w, calls);
    var done := Succeeded(w, calls);
    match Breaking(w, calls)
    case None =>
      assert file == h + EncodeAll(cfg, log) by { NothingPending(w'.disk, file); }
      ReadSynced(cfg, h, log, file);
      tail := [];
      assert done + tail == done;
    case Some(b) =>
      var ks := Frames(w, b);
      assert ks == Frames(w', b);
      ReadTorn(cfg, h, w', log + Blocks(b.ch, ks[..j]), Block(b.ch, ks[j]), file);
      BlocksSnoc(log, b.ch, ks, j);
      var n := if Items(cfg, file[|h|..]) == Oks(log + Blocks(b.ch, ks[..j])) then j else j + 1;
      TornMeaning(off, cfg, h, seed, w', log, cs, b, j, n);
      tail := if n == 0 then [] else [Shorten(b, TotalCount(ks[..n]))];
      ApplyCallsConcat(off, seed, done, tail);
      if n == 0 {
        assert done + tail == done;
      }
  }

  /** One channel per definition, holding exactly what the calls wrote to it. */
  function ChannelsOf(channels: seq<ChannelDef>, calls: seq<Call>): (r: seq<DataChannel>)
    requires |channels| <= 0xFFFF
    ensures |r| == |channels|
  {
    seq(|channels|, i requires 0 <= i < |channels| => ChannelOf(i, channels[i].dataType, calls))
  }

  lemma {:induction false} CallsFinalize(off: Offset, channels: seq<ChannelDef>, calls: seq<Call>, i: nat)
    requires i <= |channels| <= 0xFFFF && (forall c :: c in calls ==> Typed(c))
    requires forall k :: 0 <= k < |channels| ==> !channels[k].dataType.Unsupported?
    requires ApplyCalls(off, Seed(MetaOf(channels)), calls).Ok?
    ensures FinalizeAll(MetaOf(channels)[i..], ApplyCalls(off, Seed(MetaOf(channels)), calls).value)
            == ChannelsOf(channels, calls)[i..]
    decreases |channels| - i
  {
    hide ApplyCalls, Seed, ChannelOf, Finalize, Fresh, ReaderChannels;
    var meta := MetaOf(channels);
    if i < |channels| {
      assert meta[i..][1..] == meta[i + 1..];
      assert meta[i..][0] == MetaChannel(i, channels[i].dataType, channels[i].sov);
      SeedAt(meta, i);
      CallsBuildChannel(off, Seed(meta), calls, i, channels[i].dataType);
      CallsFinalize(off, channels, calls, i + 1);
    }
  }

  /** The file loads, each channel holding the samples of the successful calls and at most the start of the torn one. */
  ghost predicate Recovered(off: Offset, w: Writer, h: bytes, calls: seq<Call>, file: bytes, capture: bool)
    requires WellFormed(w) && h <= file && forall c :: c in calls ==> Typed(c)
  {
    && (Breaking(w, calls).Some? ==> Typed(Breaking(w, calls).value))
    && exists tail ::
         && TornTail(w, tail, Breaking(w, calls))
         && Load(off, MetaOf(w.channels), ReaderOf(w, capture), file[|h|..])
            == Ok(ChannelsOf(w.channels, Succeeded(w, calls) + tail))
  }

  /**
   Crash safety. From any started writer, over any calls, any disk failures and any
   crash, the surviving data section loads without error, and every channel holds
   exactly the samples of the successful calls, in order, followed by at most those
   of the first few frames of the one call the disk failed on.
   */
  lemma {:induction false} CrashSafe(off: Offset, w: Writer, h: bytes, calls: seq<Call>, file: bytes, capture: bool)
    requires Started(w, h) && forall c :: c in calls ==> Typed(c)
    requires AvoidsSignatures(w, calls) && Survives(Run(w, calls).disk, file)
    ensures h <= file && Recovered(off, w, h, calls, file, capture)
  {
    hide Build, Items, ApplyCalls, Perform, Seed, AvoidsSignatures, TornTail, ReaderOf, MetaOf, FinalizeAll, ChannelsOf,
         Run, Succeeded, Breaking;
    var tail := CrashBuilds(off, w, h, calls, file, capture);
    var done := Succeeded(w, calls);
    CallsFinalize(off, w.channels, done + tail, 0);
    assert MetaOf(w.channels)[0..] == MetaOf(w.channels);
    assert ChannelsOf(w.channels, done + tail)[0..] == ChannelsOf(w.channels, done + tail);
    assert TornTail(w, tail, Breaking(w, calls));
  }

  /** With fewer than 0xFFFF channels no call can be written to the signature index. */
  lemma {:induction false} FewChannelsAvoid(w: Writer, calls: seq<Call>)
    requires WellFormed(w) && |w.channels| < 0xFFFF && forall c :: c in calls ==> Typed(c)
    ensures AvoidsSignatures(w, calls)
    decreases |calls|
  {
    hide Perform;
    if calls != [] {
      var call := calls[0];
      var o := Perform(w, call);
      PerformKeepsSetup(w, call);
      FewChannelsAvoid(o.w, calls[1..]);
      if o.r.Ok? {
        SuccessLocks(w, call);
      }
      if w.phase.Streaming? && o.w.phase.Broken? {
        BreakingInRange(w, call);
      }
    }
  }

  lemma BreakingInRange(w: Writer, call: Call)
    requires WellFormed(w) && Typed(call) && w.phase.Streaming? && Perform(w, call).w.phase.Broken?
    ensures call.ch < |w.channels|
  {
    hide WriteCall, PayloadBudget;
  }

  lemma NothingPending(d: Disk, file: bytes)
    requires Survives(d, file) && d.pending == []
    ensures file == d.durable
  {
    assert d.durable + [] == d.durable;
  }

  lemma BlocksSnoc(log: seq<Block>, ci: u16, ks: seq<BlockKind>, j: nat)
    requires j < |ks|
    ensures log + Blocks(ci, ks[..j]) + [Block(ci, ks[j])] == log + Blocks(ci, ks[..j + 1])
  {
  }
}
