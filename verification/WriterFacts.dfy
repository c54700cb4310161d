/**
 What single write calls do and do not change, whatever the disk does.
 */
module WriterFacts {
  import opened Bytes
  import opened OsfTypes
  import opened Payload
  import opened Frame
  import opened Chunking
  import opened StreamingSpec

  lemma WriteBlocksKeepsLocks(w: Writer, ci: u16, ks: seq<BlockKind>, k: u16)
    requires ci < |w.channels| && |w.states| == |w.channels| && k < |w.channels|
    requires forall x :: x in ks ==> Writable(x)
    ensures WriteBlocks(w, ci, ks).w.states[k].lock == w.states[k].lock
    ensures WriteBlocks(w, ci, ks).w.states[k].dt == w.states[k].dt
    decreases |ks|
  {
    hide EncodeFrame, DoWriteBlock, Writable;
    if ks != [] {
      match EncodeFrame(ci, w.channels[ci].sov, ks[0])
      case Err(_) =>
      case Ok(block) =>
        var o := DoWriteBlock(w, block, w.channels[ci].sov);
        if o.r.Ok? {
          WriteBlocksKeepsLocks(AfterBlock(o.w, ci, ks[0]), ci, ks[1..], k);
        }
    }
  }

  /** A locked channel stays locked, with its type, whatever is called. */
  lemma PerformKeepsLocks(w: Writer, call: Call, k: u16)
    requires WellFormed(w) && Typed(call) && k < |w.channels| && !w.states[k].lock.Unset?
    ensures Perform(w, call).w.channels == w.channels
    ensures Perform(w, call).w.states[k].lock == w.states[k].lock
    ensures Perform(w, call).w.states[k].dt == w.states[k].dt
  {
    hide WriteBlocks, CallBlocks, FitsBudget;
    if ReachesDisk(w, call) {
      CallBlocksFit(call, w.channels[call.ch].sov, w.frameCrc);
      assert forall x :: x in Frames(w, call) ==> Writable(x) by { FramesWritable(w, call); }
      WriteBlocksKeepsLocks(Locked(w, call.ch, LockOf(call)), call.ch, Frames(w, call), k);
    }
  }

  lemma FramesWritable(w: Writer, call: Call)
    requires WellFormed(w) && Typed(call) && ReachesDisk(w, call)
    ensures forall x :: x in Frames(w, call) ==> Writable(x)
  {
    hide CallBlocks;
    CallBlocksFit(call, w.channels[call.ch].sov, w.frameCrc);
  }

  lemma {:induction false} WriteBlocksKeepsSetup(w: Writer, ci: u16, ks: seq<BlockKind>)
    requires ci < |w.channels| && |w.states| == |w.channels|
    requires forall x :: x in ks ==> Writable(x)
    ensures WriteBlocks(w, ci, ks).w.channels == w.channels
    ensures WriteBlocks(w, ci, ks).w.frameCrc == w.frameCrc
    decreases |ks|
  {
    hide EncodeFrame, Seal, Writable;
    if ks != [] {
      match EncodeFrame(ci, w.channels[ci].sov, ks[0])
      case Err(_) =>
      case Ok(block) =>
        var o := DoWriteBlock(w, block, w.channels[ci].sov);
        if o.r.Ok? {
          WriteBlocksKeepsSetup(AfterBlock(o.w, ci, ks[0]), ci, ks[1..]);
        }
    }
  }

  /** A successful call has locked its channel for its kind and type. */
  lemma SuccessLocks(w: Writer, call: Call)
    requires WellFormed(w) && Typed(call) && Perform(w, call).r.Ok?
    ensures call.ch < |w.channels| && Count(call) > 0
    ensures Perform(w, call).w.states[call.ch].lock == LockOf(call)
    ensures Perform(w, call).w.states[call.ch].dt == call.dt
  {
    hide WriteBlocks, CallBlocks;
    assert ReachesDisk(w, call);
    FramesWritable(w, call);
    WriteBlocksKeepsLocks(Locked(w, call.ch, LockOf(call)), call.ch, Frames(w, call), call.ch);
  }

  lemma PerformKeepsSetup(w: Writer, call: Call)
    requires WellFormed(w) && Typed(call)
    ensures Perform(w, call).w.channels == w.channels && Perform(w, call).w.frameCrc == w.frameCrc
  {
    hide WriteBlocks, CallBlocks;
    if ReachesDisk(w, call) {
      FramesWritable(w, call);
      WriteBlocksKeepsSetup(Locked(w, call.ch, LockOf(call)), call.ch, Frames(w, call));
    }
  }

  lemma {:induction false} WriteFailureBreaks(w: Writer, ci: u16, ks: seq<BlockKind>)
    requires ci < |w.channels| && |w.states| == |w.channels| && IsSov(w.channels[ci].sov) && w.phase.Streaming?
    requires forall k :: k in ks ==> Writable(k) && |EncodePayload(k)| < FieldLimit(w.channels[ci].sov)
    ensures WriteBlocks(w, ci, ks).r.Err? ==> WriteBlocks(w, ci, ks).w.phase.Broken?
    decreases |ks|
  {
    hide EncodePayload, Writable, FrameOf, Seal;
    if ks != [] {
      assert ks[0] in ks;
      var block := EncodeFrame(ci, w.channels[ci].sov, ks[0]).value;
      var o := DoWriteBlock(w, block, w.channels[ci].sov);
      if o.r.Ok? {
        WriteFailureBreaks(AfterBlock(o.w, ci, ks[0]), ci, ks[1..]);
      }
    }
  }

  /** A call past its checks fails only by breaking the writer, that is, by a disk failure. */
  lemma ReachedFailureBreaks(w: Writer, call: Call)
    requires WellFormed(w) && Typed(call) && w.phase.Streaming? && ReachesDisk(w, call) && Perform(w, call).r.Err?
    ensures Perform(w, call).w.phase.Broken?
  {
    hide WriteBlocks, CallBlocks, EncodePayload, PayloadBudget;
    CallBlocksFit(call, w.channels[call.ch].sov, w.frameCrc);
    WriteFailureBreaks(Locked(w, call.ch, LockOf(call)), call.ch, Frames(w, call));
  }

  lemma {:induction false} WriteSuccessStreams(w: Writer, ci: u16, ks: seq<BlockKind>)
    requires ci < |w.channels| && |w.states| == |w.channels| && w.phase.Streaming?
    requires forall k :: k in ks ==> Writable(k)
    ensures WriteBlocks(w, ci, ks).r.Ok? ==> WriteBlocks(w, ci, ks).w.phase.Streaming?
    decreases |ks|
  {
    hide EncodeFrame, Writable;
    if ks != [] {
      match EncodeFrame(ci, w.channels[ci].sov, ks[0])
      case Err(_) =>
      case Ok(block) =>
        var o := DoWriteBlock(w, block, w.channels[ci].sov);
        if o.r.Ok? {
          WriteSuccessStreams(AfterBlock(o.w, ci, ks[0]), ci, ks[1..]);
        }
    }
  }

  lemma SuccessStreams(w: Writer, call: Call)
    requires WellFormed(w) && Typed(call) && w.phase.Streaming? && Perform(w, call).r.Ok?
    ensures Perform(w, call).w.phase.Streaming?
  {
    hide WriteBlocks, CallBlocks;
    FramesWritable(w, call);
    WriteSuccessStreams(Locked(w, call.ch, LockOf(call)), call.ch, Frames(w, call));
  }

  lemma {:induction false} RunConcat(w: Writer, a: seq<Call>, b: seq<Call>)
    requires WellFormed(w) && (forall c :: c in a ==> Typed(c)) && forall c :: c in b ==> Typed(c)
    ensures Run(w, a + b) == Run(Run(w, a), b)
    ensures Succeeded(w, a + b) == Succeeded(w, a) + Succeeded(Run(w, a), b)
    decreases |a|
  {
    hide Perform, Typed;
    if a == [] {
      assert a + b == b;
    } else {
      assert (a + b)[1..] == a[1..] + b && (a + b)[0] == a[0];
      RunConcat(Perform(w, a[0]).w, a[1..], b);
    }
  }
}
