/**
 The writer's life over any sequence of public calls: phases only move forward,
 the first disk error sticks and stops all writing, durable bytes are never taken
 back, and a channel's kind and datatype, once locked, stay.
 */
module Lifecycle {
  import opened Bytes
  import opened OsfTypes
  import opened Payload
  import opened Frame
  import opened Chunking
  import opened StreamingSpec
  import opened WriterFacts

  datatype Operation =
    | AddOperation(def: ChannelDef)
    | StartOperation(header: bytes, body: bytes)
    | WriteOperation(call: Call)
    | CloseOperation

  predicate TypedOperation(op: Operation) {
    op.WriteOperation? ==> Typed(op.call)
  }

  function After(w: Writer, op: Operation): Writer
    requires WellFormed(w) && TypedOperation(op)
  {
    match op
    case AddOperation(def) => AddChannel(w, def).0
    case StartOperation(header, body) => StreamingSpec.Start(w, header, body).w
    case WriteOperation(call) => Perform(w, call).w
    case CloseOperation => Close(w).w
  }

  function AfterAll(w: Writer, ops: seq<Operation>): Writer
    requires WellFormed(w) && forall op :: op in ops ==> TypedOperation(op)
    decreases |ops|
  {
    if ops == [] then w
    else
      AfterWellFormed(w, ops[0]);
      AfterAll(After(w, ops[0]), ops[1..])
  }

  lemma AfterWellFormed(w: Writer, op: Operation)
    requires WellFormed(w) && TypedOperation(op)
    ensures WellFormed(After(w, op))
  {
    hide Perform;
  }

  function Rank(p: Phase): nat {
    match p
    case Configure => 0
    case Streaming => 1
    case Broken => 2
    case Closed => 3
  }

  /** A channel's declared type never changes, a lock stays, an open segment stays open. */
  predicate ChannelEvolves(a: ChannelState, b: ChannelState) {
    && b.dt == a.dt
    && (a.lock.Unset? || b.lock == a.lock)
    && (a.segmentOpen ==> b.segmentOpen)
  }

  predicate StatesEvolve(a: seq<ChannelState>, b: seq<ChannelState>) {
    |a| <= |b| && forall i :: 0 <= i < |a| ==> ChannelEvolves(a[i], b[i])
  }

  /** What may have happened between `w` and a later `w'`. */
  predicate Evolves(w: Writer, w': Writer) {
    && Rank(w.phase) <= Rank(w'.phase)
    && w.channels <= w'.channels
    && StatesEvolve(w.states, w'.states)
    && (!w.phase.Configure? ==>
         w'.channels == w.channels && w'.frameCrc == w.frameCrc && w.disk.durable <= w'.disk.durable)
    && (w.phase.Broken? ==> w'.sticky == w.sticky && w'.disk == w.disk && w'.states == w.states)
    && (w.phase.Closed? ==> w' == w)
  }

  lemma EvolvesTwice(a: Writer, b: Writer, c: Writer)
    requires Evolves(a, b) && Evolves(b, c)
    ensures Evolves(a, c)
  {
    assert forall i :: 0 <= i < |a.states| ==>
           ChannelEvolves(a.states[i], b.states[i]) && ChannelEvolves(b.states[i], c.states[i]);
  }

  /** The gate: nothing, everything, or a break. */
  lemma GateEvolves(w: Writer, block: bytes, sov: nat)
    requires IsSov(sov) && |block| >= 2 + sov
    ensures Evolves(w, DoWriteBlock(w, block, sov).w)
    ensures w.phase.Streaming? && DoWriteBlock(w, block, sov).r.Ok? ==> DoWriteBlock(w, block, sov).w.disk.pending == []
  {
    hide Seal;
  }

  lemma {:induction false} BlocksEvolve(w: Writer, ci: u16, ks: seq<BlockKind>)
    requires ci < |w.channels| && |w.states| == |w.channels| && IsSov(w.channels[ci].sov)
    requires w.phase.Streaming? && forall k :: k in ks ==> Writable(k)
    ensures Evolves(w, WriteBlocks(w, ci, ks).w)
    ensures w.disk.pending == [] && WriteBlocks(w, ci, ks).r.Ok? ==> WriteBlocks(w, ci, ks).w.disk.pending == []
    decreases |ks|
  {
    hide EncodeFrame, DoWriteBlock, Writable, Evolves;
    EvolvesSame(w);
    if ks != [] {
      match EncodeFrame(ci, w.channels[ci].sov, ks[0])
      case Err(_) =>
      case Ok(block) =>
        var o := DoWriteBlock(w, block, w.channels[ci].sov);
        GateEvolves(w, block, w.channels[ci].sov);
        if o.r.Ok? {
          GateKeepsPhase(w, block, w.channels[ci].sov);
          OpenEvolves(o.w, ci, ks[0]);
          var w1 := AfterBlock(o.w, ci, ks[0]);
          BlocksEvolve(w1, ci, ks[1..]);
          EvolvesTwice(w, o.w, w1);
          EvolvesTwice(w, w1, WriteBlocks(w1, ci, ks[1..]).w);
        }
    }
  }

  lemma EvolvesSame(w: Writer)
    ensures Evolves(w, w)
  {
  }

  lemma GateKeepsPhase(w: Writer, block: bytes, sov: nat)
    requires IsSov(sov) && |block| >= 2 + sov && DoWriteBlock(w, block, sov).r.Ok?
    ensures w.phase.Streaming? && DoWriteBlock(w, block, sov).w.phase.Streaming?
  {
    hide Seal;
  }

  lemma OpenEvolves(w: Writer, ci: u16, k: BlockKind)
    requires ci < |w.states| && w.phase.Streaming?
    ensures Evolves(w, AfterBlock(w, ci, k)) && AfterBlock(w, ci, k).phase == w.phase
            && AfterBlock(w, ci, k).disk == w.disk
  {
  }

  lemma LockEvolves(w: Writer, ch: u16, lock: KindLock, dt: DataType)
    requires WellFormed(w) && Require(w, ch, lock, dt).None?
    ensures w.phase.Streaming? && Evolves(w, Locked(w, ch, lock)) && Locked(w, ch, lock).disk == w.disk
  {
  }

  lemma {:induction false} PerformEvolves(w: Writer, call: Call)
    requires WellFormed(w) && Typed(call)
    ensures Evolves(w, Perform(w, call).w)
    ensures w.disk.pending == [] && Perform(w, call).r.Ok? ==> Perform(w, call).w.disk.pending == []
  {
    hide WriteBlocks, CallBlocks, Evolves, Require, CheckLocked, Typed, Writable;
    EvolvesSame(w);
    if CheckArguments(call).None? && Require(w, call.ch, LockOf(call), call.dt).None? {
      LockEvolves(w, call.ch, LockOf(call), call.dt);
      RequireInRange(w, call);
      var w1 := Locked(w, call.ch, LockOf(call));
      if CheckLocked(w1, call).None? {
        FramesWritable(w, call);
        BlocksEvolve(w1, call.ch, Frames(w, call));
        EvolvesTwice(w, w1, WriteBlocks(w1, call.ch, Frames(w, call)).w);
      }
    }
  }

  lemma RequireInRange(w: Writer, call: Call)
    requires WellFormed(w) && Require(w, call.ch, LockOf(call), call.dt).None?
    ensures call.ch < |w.channels| && w.phase.Streaming?
  {
  }

  lemma StepEvolves(w: Writer, op: Operation)
    requires WellFormed(w) && TypedOperation(op)
    ensures Evolves(w, After(w, op))
  {
    match op
    case WriteOperation(call) => hide Perform, Evolves; PerformEvolves(w, call);
    case _ =>
  }

  /** Over any sequence of public calls, with any failures of the disk. */
  lemma {:induction false} RunEvolves(w: Writer, ops: seq<Operation>)
    requires WellFormed(w) && forall op :: op in ops ==> TypedOperation(op)
    ensures Evolves(w, AfterAll(w, ops))
    decreases |ops|
  {
    hide Evolves, After;
    if ops == [] {
      EvolvesSame(w);
    } else {
      AfterWellFormed(w, ops[0]);
      StepEvolves(w, ops[0]);
      RunEvolves(After(w, ops[0]), ops[1..]);
      EvolvesTwice(w, After(w, ops[0]), AfterAll(w, ops));
    }
  }

  /**
   Once a disk operation has failed, no later call reaches the disk again: every
   write with acceptable arguments returns the first error, until close returns it
   once more.
   */
  lemma {:induction false} BrokenForGood(w: Writer, ops: seq<Operation>, call: Call)
    requires WellFormed(w) && w.phase.Broken? && Typed(call) && forall op :: op in ops ==> TypedOperation(op)
    ensures var w' := AfterAll(w, ops);
            && WellFormed(w') && w'.disk == w.disk && (w'.phase.Broken? || w'.phase.Closed?)
            && (w'.phase.Broken? && CheckArguments(call).None? ==> Perform(w', call).r == Err(w.sticky))
            && (w'.phase.Broken? ==> Close(w').r == Err(w.sticky))
            && (w'.phase.Closed? ==> Perform(w', call).r == Err(InvalidArgument) && Perform(w', call).w == w')
  {
    hide AfterAll, WriteCall;
    RunWellFormed(w, ops);
    RunEvolves(w, ops);
  }

  lemma {:induction false} RunWellFormed(w: Writer, ops: seq<Operation>)
    requires WellFormed(w) && forall op :: op in ops ==> TypedOperation(op)
    ensures WellFormed(AfterAll(w, ops))
    decreases |ops|
  {
    hide WellFormed, After;
    if ops != [] {
      AfterWellFormed(w, ops[0]);
      RunWellFormed(After(w, ops[0]), ops[1..]);
    }
  }
}
