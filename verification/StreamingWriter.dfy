/**
 The streaming writer as it runs (streamingwriter.cpp): an object whose methods
 encode into a scratch buffer, write it and force it to disk. Every public method
 is proved to be the transition of StreamingSpec it stands for.
 */
module StreamingWriters {
  import opened Bytes
  import opened OsfTypes
  import opened Payload
  import opened Frame
  import opened Crc32cModel
  import opened BlockStream
  import opened Chunking
  import opened StreamingSpec
  import opened BlockEncode

  /** An append-only file whose operations may fail as its script says. */
  class DurableFile {
    var durable: bytes
    var pending: bytes
    var script: seq<Fate>

    ghost function View(): Disk
      reads this
    {
      Disk(durable, pending, script)
    }

    constructor (script: seq<Fate>)
      ensures View() == Disk([], [], script)
    {
      durable, pending, this.script := [], [], script;
    }

    method TakeFate() returns (f: Fate)
      modifies this`script
      ensures f == NextFate(old(View())) && script == Consumed(old(View()))
    {
      if script == [] {
        return Succeeds;
      }
      f, script := script[0], script[1..];
    }

    method Write(data: bytes) returns (ok: bool)
      modifies this
      ensures View() == DiskWrite(old(View()), data) && ok == NextFate(old(View())).Succeeds?
    {
      var f := TakeFate();
      match f {
        case Succeeds =>
          pending := pending + data;
          ok := true;
        case Fails(kept) =>
          pending := pending + data[..Min(kept, |data|)];
          ok := false;
      }
    }

    method Force() returns (ok: bool)
      modifies this
      ensures View() == DiskForce(old(View())) && ok == NextFate(old(View())).Succeeds?
    {
      var f := TakeFate();
      ok := f.Succeeds?;
      if ok {
        durable, pending := durable + pending, [];
      }
    }

    /** Remove the file. */
    method Unlink()
      modifies this
      ensures View() == Disk([], [], old(script))
    {
      durable, pending := [], [];
    }
  }

  class StreamingWriter {
    var phase: Phase
    var stickyError: Error
    var channels: seq<ChannelDef>
    var channelStates: seq<ChannelState>
    var integrity: IntegrityProfile
    var frameCrc: bool
    const file: DurableFile
    const scratch: ByteVector
    const tables: array2<word>

    ghost function View(): Writer
      reads this, file
    {
      Writer(phase, stickyError, channels, channelStates, integrity, frameCrc, file.View())
    }

    ghost predicate Valid()
      reads this, tables
    {
      TablesCorrect(tables) && |channelStates| == |channels| <= 0xFFFF
     && forall i :: 0 <= i < |channels| ==> IsSov(channels[i].sov)
    }

    constructor (tables: array2<word>, file: DurableFile, integrity: IntegrityProfile)
      requires TablesCorrect(tables)
      ensures Valid() && this.file == file && this.tables == tables && fresh(scratch)
      ensures View() == Writer(Configure, IoError, [], [], integrity, false, file.View())
    {
      phase, stickyError := Configure, IoError;
      channels, channelStates := [], [];
      this.integrity, frameCrc := integrity, false;
      this.file, this.tables := file, tables;
      scratch := new ByteVector();
    }

    method AddChannelDef(def: ChannelDef) returns (r: Result<u16>)
      requires Valid()
      modifies this
      ensures Valid() && (View(), r) == AddChannel(old(View()), def)
    {
      if !phase.Configure? || (def.sov != 2 && def.sov != 4) || def.dataType.Unsupported? || !def.shapeSupported
         || |channels| >= 0xFFFF {
        return Err(InvalidArgument);
      }
      r := Ok(|channels|);
      channels := channels + [def];
      channelStates := channelStates + [ChannelState(Unset, def.dataType, false)];
    }

    /** Header line and metablock, then a force; a file that cannot be started is removed. */
    method StartFile(header: bytes, body: bytes) returns (r: Result<()>)
      requires Valid()
      modifies this, file
      ensures Valid() && Outcome(View(), r) == StreamingSpec.Start(old(View()), header, body)
    {
      if phase.Broken? {
        return Err(stickyError);
      }
      if !phase.Configure? || |channels| == 0 || integrity.Ed25519Level? {
        return Err(InvalidArgument);
      }
      frameCrc := integrity.Crc32cLevel?;
      var ok := file.Write(header);
      if ok {
        ok := file.Write(body);
        if ok {
          ok := file.Force();
        }
      }
      if !ok {
        file.Unlink();
        return Err(IoError);
      }
      phase := Streaming;
      r := Ok(());
    }

    method CloseFile() returns (r: Result<()>)
      requires Valid()
      modifies this
      ensures Valid() && Outcome(View(), r) == Close(old(View()))
    {
      if phase.Closed? {
        return Err(InvalidArgument);
      }
      r := if phase.Broken? then Err(stickyError) else Ok(());
      phase := Closed;
    }

    /** The I/O gate: seal the scratch buffer, write it, force it. A failure is remembered for good. */
    method WriteScratch(sov: nat) returns (r: Result<()>)
      requires Valid() && IsSov(sov) && |scratch.data| >= 2 + sov
      modifies this`phase, this`stickyError, file, scratch
      ensures Valid() && Outcome(View(), r) == DoWriteBlock(old(View()), old(scratch.data), sov)
    {
      hide Seal, TablesCorrect;
      if phase.Broken? {
        return Err(stickyError);
      }
      if !phase.Streaming? {
        return Err(InvalidArgument);
      }
      if frameCrc {
        ApplyFrameCrc(tables, scratch, sov);
      }
      var ok := file.Write(scratch.data);
      if ok {
        ok := file.Force();
      }
      if !ok {
        phase, stickyError := Broken, IoError;
        return Err(stickyError);
      }
      r := Ok(());
    }

    /** One block: clear the scratch buffer, encode, pass the gate. */
    method WriteBlock(ch: u16, k: BlockKind) returns (r: Result<()>)
      requires Valid() && ch < |channels| && Writable(k)
      modifies this`phase, this`stickyError, file, scratch
      ensures Valid()
      ensures match EncodeFrame(ch, channels[ch].sov, k)
              case Err(e) => Outcome(View(), r) == Outcome(old(View()), Err(e))
              case Ok(block) => Outcome(View(), r) == DoWriteBlock(old(View()), block, channels[ch].sov)
    {
      hide EncodeFrame, TablesCorrect, DoWriteBlock, AllValues, AllStampedValues;
      var sov := channels[ch].sov;
      scratch.Clear();
      match k {
        case StartData(dt, start, rate, samples) => r := EncodeStartData(scratch, ch, sov, dt, start, rate, samples);
        case ContinuedData(dt, samples) => r := EncodeContinuedData(scratch, ch, sov, dt, samples);
        case AbsTimestampData(dt, pairs) =>
          if IsFixed(dt) {
            r := EncodeAbsTimestampData(scratch, ch, sov, dt, pairs);
          } else {
            assert pairs == [pairs[0]];
            r := EncodeAbsTimestampVariable(scratch, ch, sov, dt, pairs[0]);
          }
      }
      if r.Err? {
        return;
      }
      ghost var block := EncodeFrame(ch, sov, k).value;
      assert [] + block == block;
      r := WriteScratch(sov);
    }

    /** Checks shared by all write calls; passing them locks the channel's kind. */
    method RequireChannel(ch: u16, lock: KindLock, expected: DataType) returns (e: Option<Error>)
      requires Valid()
      modifies this`channelStates
      ensures Valid() && e == Require(old(View()), ch, lock, expected)
      ensures e.None? ==> ch < |channels|
      ensures View() == if e.None? then Locked(old(View()), ch, lock) else old(View())
    {
      match phase {
        case Broken => return Some(stickyError);
        case Closed => return Some(InvalidArgument);
        case Configure => return Some(InvalidArgument);
        case Streaming =>
      }
      if ch >= |channels| {
        return Some(InvalidArgument);
      }
      var st := channelStates[ch];
      if !st.lock.Unset? && st.lock != lock {
        return Some(InvalidBlock);
      }
      if st.dt != expected {
        return Some(DataTypeMismatch);
      }
      channelStates := channelStates[ch := st.(lock := lock)];
      e := None;
    }

    /** Open a segment with its first chunk, then append the others. */
    method StartEquidistantSegment(ch: u16, dt: DataType, start: i64, rate: u64, samples: seq<bytes>)
      returns (r: Result<()>)
      requires Valid() && Typed(StartSegment(ch, dt, start, rate, samples))
      modifies this, file, scratch
      ensures Valid() && Outcome(View(), r) == Perform(old(View()), StartSegment(ch, dt, start, rate, samples))
    {
      hide Require, WriteBlocks, EncodeFrame, TablesCorrect, Writable, IsValue, DoWriteBlock, Perform,
           MaxSamplesPerStartBlock, MaxSamplesPerContinuedBlock, MaxSamplesPerTimestampedBlock, WriteCall,
           ContinuedChunks, AbsChunks;
      PerformParts(View(), StartSegment(ch, dt, start, rate, samples));
      if |samples| == 0 {
        return Err(InvalidArgument);
      }
      if !PositiveFiniteRate(rate) {
        return Err(InvalidArgument);
      }
      var refused := RequireChannel(ch, EquidistantLock, dt);
      if refused.Some? {
        return Err(refused.value);
      }
      var sov := channels[ch].sov;
      var maxFirst := MaxSamplesPerStartBlock(Width(dt), sov, frameCrc);
      var maxCont := MaxSamplesPerContinuedBlock(Width(dt), sov, frameCrc);
      var first := Min(|samples|, maxFirst);
      var k := StartData(dt, start, rate, samples[..first]);
      ghost var more := ContinuedChunks(dt, samples[first..], maxCont);
      WriteBlocksStep(View(), ch, k, more);
      r := WriteBlock(ch, k);
      if r.Err? {
        return;
      }
      channelStates := channelStates[ch := channelStates[ch].(segmentOpen := true)];
      r := AppendChunks(ch, dt, samples[first..], maxCont);
    }

    method AppendEquidistantSamples(ch: u16, dt: DataType, samples: seq<bytes>) returns (r: Result<()>)
      requires Valid() && Typed(AppendSamples(ch, dt, samples))
      modifies this, file, scratch
      ensures Valid() && Outcome(View(), r) == Perform(old(View()), AppendSamples(ch, dt, samples))
    {
      hide Require, WriteBlocks, EncodeFrame, TablesCorrect, Writable, IsValue, DoWriteBlock, Perform,
           MaxSamplesPerStartBlock, MaxSamplesPerContinuedBlock, MaxSamplesPerTimestampedBlock, WriteCall,
           ContinuedChunks, AbsChunks;
      PerformParts(View(), AppendSamples(ch, dt, samples));
      if |samples| == 0 {
        return Err(InvalidArgument);
      }
      var refused := RequireChannel(ch, EquidistantLock, dt);
      if refused.Some? {
        return Err(refused.value);
      }
      if !channelStates[ch].segmentOpen {
        return Err(InvalidBlock);
      }
      var sov := channels[ch].sov;
      r := AppendChunks(ch, dt, samples, MaxSamplesPerContinuedBlock(Width(dt), sov, frameCrc));
    }

    /** The chunk loop of continued samples. */
    method AppendChunks(ch: u16, dt: DataType, samples: seq<bytes>, maxCont: nat) returns (r: Result<()>)
      requires Valid() && ch < |channels| && maxCont > 0
      requires forall k :: k in ContinuedChunks(dt, samples, maxCont) ==> Writable(k)
      modifies this`phase, this`stickyError, file, scratch
      ensures Valid() && Outcome(View(), r) == WriteBlocks(old(View()), ch, ContinuedChunks(dt, samples, maxCont))
    {
      hide WriteBlocks, EncodeFrame, TablesCorrect, Writable, DoWriteBlock, ContinuedChunks;
      var written := 0;
      assert samples[0..] == samples;
      while written < |samples|
        invariant 0 <= written <= |samples| && Valid()
        invariant forall k :: k in ContinuedChunks(dt, samples[written..], maxCont) ==> Writable(k)
        invariant WriteBlocks(View(), ch, ContinuedChunks(dt, samples[written..], maxCont))
               == WriteBlocks(old(View()), ch, ContinuedChunks(dt, samples, maxCont))
      {
        var chunk := Min(|samples| - written, maxCont);
        var k := ContinuedData(dt, samples[written..written + chunk]);
        ghost var more := ContinuedChunks(dt, samples[written + chunk..], maxCont);
        ContinuedChunksStep(dt, samples, written, maxCont);
        WriteBlocksStep(View(), ch, k, more);
        r := WriteBlock(ch, k);
        if r.Err? {
          return;
        }
        written := written + chunk;
      }
      assert samples[written..] == [];
      NoChunks(dt, maxCont);
      WriteNothing(View(), ch);
      r := Ok(());
    }

    /** Numeric and GPS samples with a timestamp each. */
    method WriteTimestampedSamples(ch: u16, dt: DataType, pairs: seq<Stamped>) returns (r: Result<()>)
      requires Valid() && Typed(WriteTimestamped(ch, dt, pairs))
      modifies this, file, scratch
      ensures Valid() && Outcome(View(), r) == Perform(old(View()), WriteTimestamped(ch, dt, pairs))
    {
      hide Require, WriteBlocks, EncodeFrame, TablesCorrect, Writable, IsValue, DoWriteBlock, Perform,
           MaxSamplesPerStartBlock, MaxSamplesPerContinuedBlock, MaxSamplesPerTimestampedBlock, WriteCall,
           ContinuedChunks, AbsChunks;
      PerformParts(View(), WriteTimestamped(ch, dt, pairs));
      if |pairs| == 0 {
        return Err(InvalidArgument);
      }
      var refused := RequireChannel(ch, TimestampedLock, dt);
      if refused.Some? {
        return Err(refused.value);
      }
      var sov := channels[ch].sov;
      var maxPerBlock := MaxSamplesPerTimestampedBlock(Width(dt), sov, frameCrc);
      r := WriteChunks(ch, dt, pairs, maxPerBlock);
    }

    /** The chunk loop of timestamped samples. */
    method WriteChunks(ch: u16, dt: DataType, pairs: seq<Stamped>, maxPerBlock: nat) returns (r: Result<()>)
      requires Valid() && ch < |channels| && maxPerBlock > 0
      requires forall k :: k in AbsChunks(dt, pairs, maxPerBlock) ==> Writable(k)
      modifies this`phase, this`stickyError, file, scratch
      ensures Valid() && Outcome(View(), r) == WriteBlocks(old(View()), ch, AbsChunks(dt, pairs, maxPerBlock))
    {
      hide WriteBlocks, EncodeFrame, TablesCorrect, Writable, DoWriteBlock, AbsChunks;
      var written := 0;
      assert pairs[0..] == pairs;
      while written < |pairs|
        invariant 0 <= written <= |pairs| && Valid()
        invariant forall k :: k in AbsChunks(dt, pairs[written..], maxPerBlock) ==> Writable(k)
        invariant WriteBlocks(View(), ch, AbsChunks(dt, pairs[written..], maxPerBlock))
               == WriteBlocks(old(View()), ch, AbsChunks(dt, pairs, maxPerBlock))
      {
        var chunk := Min(|pairs| - written, maxPerBlock);
        var k := AbsTimestampData(dt, pairs[written..written + chunk]);
        AbsChunksStep(dt, pairs, written, maxPerBlock);
        WriteBlocksStep(View(), ch, k, AbsChunks(dt, pairs[written + chunk..], maxPerBlock));
        r := WriteBlock(ch, k);
        if r.Err? {
          return;
        }
        written := written + chunk;
      }
      assert pairs[written..] == [];
      NoChunks(dt, maxPerBlock);
      WriteNothing(View(), ch);
      r := Ok(());
    }

    /** One string or binary sample in a block of its own. */
    method WriteTimestampedVariable(ch: u16, dt: DataType, sample: Stamped) returns (r: Result<()>)
      requires Valid() && Typed(WriteVariable(ch, dt, sample))
      modifies this, file, scratch
      ensures Valid() && Outcome(View(), r) == Perform(old(View()), WriteVariable(ch, dt, sample))
    {
      hide Require, WriteBlocks, EncodeFrame, TablesCorrect, DoWriteBlock, Perform, WriteCall, VariableSampleCapacity;
      PerformParts(View(), WriteVariable(ch, dt, sample));
      var refused := RequireChannel(ch, VariableLock, dt);
      if refused.Some? {
        return Err(refused.value);
      }
      var sov := channels[ch].sov;
      var capacity := VariableSampleCapacity(sov, frameCrc);
      if |sample.value| > capacity {
        return Err(InvalidBlock);
      }
      var k := AbsTimestampData(dt, [sample]);
      WriteBlocksStep(View(), ch, k, []);
      assert [k] + [] == [k];
      r := WriteBlock(ch, k);
      if r.Ok? {
        WriteNothing(View(), ch);
        r := Ok(());
      }
    }
  }

  // ---------------------------------------------------------------------
  // Loops unrolled.
  // ---------------------------------------------------------------------

  lemma WriteNothing(w: Writer, ch: u16)
    requires ch < |w.channels| && |w.states| == |w.channels|
    ensures WriteBlocks(w, ch, []) == Outcome(w, Ok(()))
  {
  }

  /** How far a call gets. */
  lemma PerformParts(w: Writer, call: Call)
    requires WellFormed(w) && Typed(call)
    ensures var refused := Require(w, call.ch, LockOf(call), call.dt);
            if CheckArguments(call).Some? then Perform(w, call) == Outcome(w, Err(CheckArguments(call).value))
            else if refused.Some? then Perform(w, call) == Outcome(w, Err(refused.value))
            else
              && call.ch < |w.channels|
              && var w1 := Locked(w, call.ch, LockOf(call));
                 if CheckLocked(w1, call).Some? then Perform(w, call) == Outcome(w1, Err(CheckLocked(w1, call).value))
                 else
                   && (forall k :: k in Frames(w, call) ==> Writable(k))
                   && Perform(w, call) == WriteBlocks(w1, call.ch, Frames(w, call))
  {
    hide WriteBlocks, CallBlocks, Writable;
    var refused := Require(w, call.ch, LockOf(call), call.dt);
    if CheckArguments(call).None? && refused.None? && CheckLocked(Locked(w, call.ch, LockOf(call)), call).None? {
      CallBlocksFit(call, w.channels[call.ch].sov, w.frameCrc);
    }
  }

  lemma WriteBlocksStep(w: Writer, ch: u16, k: BlockKind, more: seq<BlockKind>)
    requires ch < |w.channels| && |w.states| == |w.channels|
    requires Writable(k) && forall m :: m in more ==> Writable(m)
    ensures WriteBlocks(w, ch, [k] + more)
         == match EncodeFrame(ch, w.channels[ch].sov, k)
            case Err(e) => Outcome(w, Err(e))
            case Ok(block) =>
              var o := DoWriteBlock(w, block, w.channels[ch].sov);
              if o.r.Err? then o else WriteBlocks(AfterBlock(o.w, ch, k), ch, more)
  {
    hide EncodeFrame, DoWriteBlock, Writable, AfterBlock;
    assert ([k] + more)[1..] == more;
  }

  lemma NoChunks(dt: DataType, max: nat)
    requires max > 0
    ensures ContinuedChunks(dt, [], max) == [] && AbsChunks(dt, [], max) == []
  {
  }

  lemma ContinuedChunksStep(dt: DataType, samples: seq<bytes>, written: nat, max: nat)
    requires written < |samples| && max > 0
    ensures var chunk := Min(|samples| - written, max);
            ContinuedChunks(dt, samples[written..], max)
            == [ContinuedData(dt, samples[written..written + chunk])]
              + ContinuedChunks(dt, samples[written + chunk..], max)
  {
    var chunk := Min(|samples| - written, max);
    assert samples[written..][..chunk] == samples[written..written + chunk];
    assert samples[written..][chunk..] == samples[written + chunk..];
  }

  lemma AbsChunksStep(dt: DataType, pairs: seq<Stamped>, written: nat, max: nat)
    requires written < |pairs| && max > 0
    ensures var chunk := Min(|pairs| - written, max);
            AbsChunks(dt, pairs[written..], max)
            == [AbsTimestampData(dt, pairs[written..written + chunk])] + AbsChunks(dt, pairs[written + chunk..], max)
  {
    var chunk := Min(|pairs| - written, max);
    assert pairs[written..][..chunk] == pairs[written..written + chunk];
    assert pairs[written..][chunk..] == pairs[written + chunk..];
  }
}
