/**
 The streaming writer as a transition function over its state and its disk
 (streamingwriter.cpp). The disk is append-only: a write may fail after any
 prefix, a force makes everything written so far durable or fails. Which
 operations fail is a script fixed in advance and consumed one entry per
 operation, so every statement over all scripts is one over all failures.
 */
module StreamingSpec {
  import opened Bytes
  import opened OsfTypes
  import opened Payload
  import opened Frame
  import opened BlockStream
  import opened Loader
  import opened Chunking

  datatype Phase = Configure | Streaming | Broken | Closed

  datatype KindLock = Unset | EquidistantLock | TimestampedLock | VariableLock

  datatype ChannelState = ChannelState(lock: KindLock, dt: DataType, segmentOpen: bool)

  datatype ChannelDef = ChannelDef(dataType: DataType, sov: nat, shapeSupported: bool)

  /** How one disk operation ends; a failing write leaves `kept` bytes behind. */
  datatype Fate = Succeeds | Fails(kept: nat)

  datatype Disk = Disk(durable: bytes, pending: bytes, script: seq<Fate>)

  datatype Writer = Writer(
    phase: Phase,
    sticky: Error,
    channels: seq<ChannelDef>,
    states: seq<ChannelState>,
    integrity: IntegrityProfile,
    frameCrc: bool,
    disk: Disk)

  datatype Outcome = Outcome(w: Writer, r: Result<()>)

  // ---------------------------------------------------------------------
  // Disk operations.
  // ---------------------------------------------------------------------

  function NextFate(d: Disk): Fate {
    if d.script == [] then Succeeds else d.script[0]
  }

  function Consumed(d: Disk): seq<Fate> {
    if d.script == [] then [] else d.script[1..]
  }

  function DiskWrite(d: Disk, data: bytes): Disk {
    match NextFate(d)
    case Succeeds => Disk(d.durable, d.pending + data, Consumed(d))
    case Fails(kept) => Disk(d.durable, d.pending + data[..Min(kept, |data|)], Consumed(d))
  }

  function DiskForce(d: Disk): Disk {
    match NextFate(d)
    case Succeeds => Disk(d.durable + d.pending, [], Consumed(d))
    case Fails(_) => Disk(d.durable, d.pending, Consumed(d))
  }

  /** What a crash may leave: everything durable and some prefix of the rest. */
  ghost predicate Survives(d: Disk, file: bytes) {
    d.durable <= file <= d.durable + d.pending
  }

  // ---------------------------------------------------------------------
  // Writing blocks.
  // ---------------------------------------------------------------------

  /** The encoders: one frame appended to the scratch buffer. */
  function EncodeFrame(ci: u16, sov: nat, k: BlockKind): (r: Result<bytes>)
    requires Writable(k)
    ensures r.Ok? ==> IsSov(sov) && |r.value| >= 2 + sov
  {
    if !IsSov(sov) then Err(InvalidArgument)
    else if |EncodePayload(k)| >= FieldLimit(sov) then Err(InvalidBlock)
    else Ok(FrameOf(ci, sov, EncodePayload(k)))
  }

  /** The I/O gate: seal, write, force; any failure breaks the writer for good. */
  function DoWriteBlock(w: Writer, block: bytes, sov: nat): (o: Outcome)
    requires IsSov(sov) && |block| >= 2 + sov
    ensures o.w.channels == w.channels && o.w.states == w.states
  {
    if w.phase.Broken? then Outcome(w, Err(w.sticky))
    else if !w.phase.Streaming? then Outcome(w, Err(InvalidArgument))
    else
      var bytes_ := if w.frameCrc then Seal(block, sov) else block;
      var d := DiskWrite(w.disk, bytes_);
      if NextFate(w.disk).Fails? then Outcome(w.(phase := Broken, sticky := IoError, disk := d), Err(IoError))
      else
        var d' := DiskForce(d);
        if NextFate(d).Fails? then Outcome(w.(phase := Broken, sticky := IoError, disk := d'), Err(IoError))
        else Outcome(w.(disk := d'), Ok(()))
  }

  /** A successful StartData frame opens the channel's segment. */
  function AfterBlock(w: Writer, ci: u16, k: BlockKind): Writer
    requires ci < |w.states|
  {
    if k.StartData? then w.(states := w.states[ci := w.states[ci].(segmentOpen := true)]) else w
  }

  function WriteBlocks(w: Writer, ci: u16, ks: seq<BlockKind>): (o: Outcome)
    requires ci < |w.channels| && |w.states| == |w.channels|
    requires forall k :: k in ks ==> Writable(k)
    ensures o.w.channels == w.channels && |o.w.states| == |w.states|
    decreases |ks|
  {
    hide DoWriteBlock, EncodeFrame, Writable;
    if ks == [] then Outcome(w, Ok(()))
    else
      var sov := w.channels[ci].sov;
      match EncodeFrame(ci, sov, ks[0])
      case Err(e) => Outcome(w, Err(e))
      case Ok(block) =>
        var o := DoWriteBlock(w, block, sov);
        if o.r.Err? then o else WriteBlocks(AfterBlock(o.w, ci, ks[0]), ci, ks[1..])
  }

  // ---------------------------------------------------------------------
  // Calls.
  // ---------------------------------------------------------------------

  function RequireStreaming(w: Writer): Option<Error> {
    match w.phase
    case Broken => Some(w.sticky)
    case Closed => Some(InvalidArgument)
    case Configure => Some(InvalidArgument)
    case Streaming => None
  }

  /** The `require*Channel` helpers: state, index, kind lock, datatype lock. */
  function Require(w: Writer, ch: u16, lock: KindLock, dt: DataType): Option<Error>
    requires |w.states| == |w.channels|
  {
    if RequireStreaming(w).Some? then RequireStreaming(w)
    else if ch >= |w.channels| then Some(InvalidArgument)
    else if !w.states[ch].lock.Unset? && w.states[ch].lock != lock then Some(InvalidBlock)
    else if w.states[ch].dt != dt then Some(DataTypeMismatch)
    else None
  }

  /** On success they lock the channel's kind. */
  function Locked(w: Writer, ch: u16, lock: KindLock): Writer
    requires ch < |w.states|
  {
    w.(states := w.states[ch := w.states[ch].(lock := lock)])
  }

  function LockOf(call: Call): KindLock {
    match call
    case StartSegment(_, _, _, _, _) => EquidistantLock
    case AppendSamples(_, _, _) => EquidistantLock
    case WriteTimestamped(_, _, _) => TimestampedLock
    case WriteVariable(_, _, _) => VariableLock
  }

  /** Argument checks that come before the channel checks. */
  function CheckArguments(call: Call): Option<Error> {
    if Count(call) == 0 then Some(InvalidArgument)
    else if call.StartSegment? && !PositiveFiniteRate(call.rate) then Some(InvalidArgument)
    else None
  }

  /** Checks that come after the channel is locked. */
  function CheckLocked(w: Writer, call: Call): Option<Error>
    requires call.ch < |w.channels| && |w.states| == |w.channels|
  {
    if call.AppendSamples? && !w.states[call.ch].segmentOpen then Some(InvalidBlock)
    else if call.WriteVariable? && |call.sample.value| > VariableSampleCapacity(w.channels[call.ch].sov, w.frameCrc)
         then Some(InvalidBlock)
    else None
  }

  /** The call gets past every check and reaches the disk. */
  predicate ReachesDisk(w: Writer, call: Call)
    requires WellFormed(w)
  {
    && CheckArguments(call).None?
    && Require(w, call.ch, LockOf(call), call.dt).None?
    && CheckLocked(Locked(w, call.ch, LockOf(call)), call).None?
  }

  /** The frames of `call` on this writer's channel. */
  function Frames(w: Writer, call: Call): seq<BlockKind>
    requires WellFormed(w) && Typed(call) && call.ch < |w.channels|
  {
    CallBlocks(call, w.channels[call.ch].sov, w.frameCrc)
  }

  /** The chunk loop of an accepted call. */
  function WriteCall(w: Writer, call: Call): (o: Outcome)
    requires WellFormed(w) && Typed(call) && ReachesDisk(w, call)
    ensures WellFormed(o.w)
  {
    CallBlocksFit(call, w.channels[call.ch].sov, w.frameCrc);
    WriteBlocks(Locked(w, call.ch, LockOf(call)), call.ch, Frames(w, call))
  }

  /** One public write call. */
  function Perform(w: Writer, call: Call): (o: Outcome)
    requires WellFormed(w) && Typed(call)
    ensures WellFormed(o.w)
  {
    if CheckArguments(call).Some? then Outcome(w, Err(CheckArguments(call).value))
    else if Require(w, call.ch, LockOf(call), call.dt).Some?
         then Outcome(w, Err(Require(w, call.ch, LockOf(call), call.dt).value))
    else
      var w' := Locked(w, call.ch, LockOf(call));
      if CheckLocked(w', call).Some? then Outcome(w', Err(CheckLocked(w', call).value))
      else WriteCall(w, call)
  }

  /** What addChannel and start establish about the channel table. */
  predicate WellFormed(w: Writer) {
    && |w.states| == |w.channels| <= 0xFFFF
    && forall i :: 0 <= i < |w.channels| ==> IsSov(w.channels[i].sov)
  }

  function Run(w: Writer, calls: seq<Call>): (w': Writer)
    requires WellFormed(w) && forall c :: c in calls ==> Typed(c)
    ensures WellFormed(w')
    decreases |calls|
  {
    if calls == [] then w else Run(Perform(w, calls[0]).w, calls[1..])
  }

  /** The calls that returned success, in order. */
  function Succeeded(w: Writer, calls: seq<Call>): (r: seq<Call>)
    requires WellFormed(w) && forall c :: c in calls ==> Typed(c)
    ensures forall c :: c in r ==> Typed(c)
    decreases |calls|
  {
    if calls == [] then []
    else
      var o := Perform(w, calls[0]);
      (if o.r.Ok? then [calls[0]] else []) + Succeeded(o.w, calls[1..])
  }

  /** The call that hit the disk failure, if any. */
  function Breaking(w: Writer, calls: seq<Call>): Option<Call>
    requires WellFormed(w) && forall c :: c in calls ==> Typed(c)
    decreases |calls|
  {
    if calls == [] then None
    else
      var o := Perform(w, calls[0]);
      if w.phase.Streaming? && o.w.phase.Broken? then Some(calls[0]) else Breaking(o.w, calls[1..])
  }

  // ---------------------------------------------------------------------
  // addChannel and start.
  // ---------------------------------------------------------------------

  function AddChannel(w: Writer, def: ChannelDef): (Writer, Result<u16>) {
    if !w.phase.Configure? then (w, Err(InvalidArgument))
    else if !IsSov(def.sov) then (w, Err(InvalidArgument))
    else if def.dataType.Unsupported? then (w, Err(InvalidArgument))
    else if !def.shapeSupported then (w, Err(InvalidArgument))
    else if |w.channels| >= 0xFFFF then (w, Err(InvalidArgument))
    else
      (w.(channels := w.channels + [def], states := w.states + [ChannelState(Unset, def.dataType, false)]),
       Ok(|w.channels|))
  }

  /** start(): header and metablock bytes, then a force. On failure the file is removed. */
  function Start(w: Writer, header: bytes, body: bytes): Outcome {
    if w.phase.Broken? then Outcome(w, Err(w.sticky))
    else if !w.phase.Configure? || w.channels == [] || w.integrity.Ed25519Level? then Outcome(w, Err(InvalidArgument))
    else
      var w1 := w.(frameCrc := w.integrity.Crc32cLevel?);
      var d1 := DiskWrite(w.disk, header);
      if NextFate(w.disk).Fails? then Outcome(w1.(disk := Disk([], [], d1.script)), Err(IoError))
      else
        var d2 := DiskWrite(d1, body);
        if NextFate(d1).Fails? then Outcome(w1.(disk := Disk([], [], d2.script)), Err(IoError))
        else
          var d3 := DiskForce(d2);
          if NextFate(d2).Fails? then Outcome(w1.(disk := Disk([], [], d3.script)), Err(IoError))
          else Outcome(w1.(phase := Streaming, disk := d3), Ok(()))
  }

  function Close(w: Writer): Outcome {
    if w.phase.Closed? then Outcome(w, Err(InvalidArgument))
    else Outcome(w.(phase := Closed), if w.phase.Broken? then Err(w.sticky) else Ok(()))
  }

  /** The metablock a writer emits: channel `i` has index `i`. */
  function MetaOf(channels: seq<ChannelDef>): (m: seq<MetaChannel>)
    requires |channels| <= 0xFFFF
    ensures |m| == |channels|
  {
    seq(|channels|, i requires 0 <= i < |channels| => MetaChannel(i, channels[i].dataType, channels[i].sov))
  }

  /** A reader of the file this writer produces. */
  function ReaderOf(w: Writer, capture: bool): Config
    requires |w.channels| <= 0xFFFF
  {
    Config(ReaderChannels(MetaOf(w.channels)), false, if w.frameCrc then Crc32cLevel else NoIntegrity, capture)
  }
}
