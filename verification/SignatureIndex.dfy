/**
 Channel index 0xFFFE, which the 65535th channel of a streaming writer gets and which
 readers take for signatures: exactly when a crashed file is recovered all the same.
 */
module SignatureIndex {
  import opened Bytes
  import opened OsfTypes
  import opened Crc32cModel
  import opened Payload
  import opened Frame
  import opened BlockStream
  import opened Codec
  import opened Builder
  import opened Loader
  import opened Chunking
  import opened StreamingSpec
  import opened CallMeaning
  import opened WriterFacts
  import opened Lifecycle
  import opened Skips
  import opened CrashSafety

  // ---------------------------------------------------------------------
  // Samples that succeeded on the index are lost.
  // ---------------------------------------------------------------------

  /** Once started, durable bytes stay. */
  lemma {:induction false} RunKeepsDurable(w: Writer, calls: seq<Call>)
    requires WellFormed(w) && !w.phase.Configure? && forall c :: c in calls ==> Typed(c)
    ensures w.disk.durable <= Run(w, calls).disk.durable
    decreases |calls|
  {
    hide Perform;
    if calls != [] {
      PerformEvolves(w, calls[0]);
      RunKeepsDurable(Perform(w, calls[0]).w, calls[1..]);
    }
  }

  lemma SurvivorHasHead(w: Writer, h: bytes, calls: seq<Call>, file: bytes)
    requires Started(w, h) && (forall c :: c in calls ==> Typed(c)) && Survives(Run(w, calls).disk, file)
    ensures h <= file
  {
    hide Run;
    RunKeepsDurable(w, calls);
  }

  lemma {:induction false} SucceededFacts(w: Writer, calls: seq<Call>)
    requires WellFormed(w) && forall c :: c in calls ==> Typed(c)
    ensures forall c :: c in Succeeded(w, calls) ==> c.ch < |w.channels| && Count(c) > 0
    decreases |calls|
  {
    hide Perform;
    if calls != [] {
      PerformKeepsSetup(w, calls[0]);
      SucceededFacts(Perform(w, calls[0]).w, calls[1..]);
      if Perform(w, calls[0]).r.Ok? {
        SuccessLocks(w, calls[0]);
      }
    }
  }

  lemma {:induction false} WrittenSomething(calls: seq<Call>, c: Call)
    requires c in calls && Count(c) > 0
    ensures ValuesOn(calls, c.ch) != []
    decreases |calls|
  {
    if c != calls[0] {
      WrittenSomething(calls[1..], c);
    }
  }

  /** Whatever a reader makes of a file, samples on the signature index do not come back. */
  lemma SignatureCallsLost(off: Offset, channels: seq<ChannelDef>, cfg: Config, data: bytes, calls: seq<Call>, c: Call)
    requires |channels| <= 0xFFFF && c in calls && Count(c) > 0 && c.ch == SIGNATURE_CHANNEL_INDEX && c.ch < |channels|
    ensures Load(off, MetaOf(channels), cfg, data) != Ok(ChannelsOf(channels, calls))
  {
    hide Load, MetaOf, ChannelOf;
    if Load(off, MetaOf(channels), cfg, data) == Ok(ChannelsOf(channels, calls)) {
      var d := ChannelsOf(channels, calls)[c.ch];
      ChannelHolds(c.ch, channels[c.ch].dataType, calls);
      SignatureIndexIsEmpty(off, MetaOf(channels), cfg, data, d);
      WrittenSomething(calls, c);
      assert false;
    }
  }

  lemma ChannelHolds(k: u16, dt: DataType, calls: seq<Call>)
    ensures ChannelOf(k, dt, calls).index == k && StoredValues(ChannelOf(k, dt, calls)) == ValuesOn(calls, k)
  {
  }

  // ---------------------------------------------------------------------
  // Samples that did not succeed on the index do no harm.
  // ---------------------------------------------------------------------

  /** What the failing call was about to put on disk. */
  function CallBytes(w: Writer, b: Call): bytes
    requires WellFormed(w) && Typed(b) && b.ch < |w.channels|
    requires AllFrameable(Frames(w, b), w.channels[b.ch].sov, w.frameCrc)
  {
    BytesOf(b.ch, w.channels[b.ch].sov, w.frameCrc, Frames(w, b))
  }

  /**
   A reader gets over these bytes of the index: it takes them for blocks, or for
   signatures with their own length, or for a signature that never ends.
   */
  predicate PassedOver(frameCrc: bool, sov: nat, whole: bytes) {
    !frameCrc || sov == 4 || (|whole| >= 6 && |whole| < 6 + UnLe(whole[2..6]))
  }

  predicate AllOnIndex(items: seq<Result<Block>>) {
    forall r :: r in items ==> r.Ok? && r.value.channelIndex == SIGNATURE_CHANNEL_INDEX
  }

  lemma {:induction false} IndexBuildsNothing(off: Offset, cs: Channels, items: seq<Result<Block>>)
    requires AllOnIndex(items)
    ensures Build(off, cs, items) == Ok(cs)
    decreases |items|
  {
    if items != [] {
      assert items[0] in items;
      IndexBuildsNothing(off, cs, items[1..]);
    }
  }

  /** A signature block that is cut, or longer than all there is, ends the stream. */
  lemma SignatureUnfinished(cfg: Config, whole: bytes, x: bytes)
    requires !cfg.integrity.NoIntegrity? && |whole| >= 6 && whole[..2] == Le(SIGNATURE_CHANNEL_INDEX, 2)
    requires x <= whole && |x| < 6 + UnLe(whole[2..6])
    ensures AllOnIndex(Items(cfg, x))
  {
    hide Items, UnLe, Le, ChannelStep;
    LeRoundTrip(SIGNATURE_CHANNEL_INDEX, 2) by { Pow256Values(); }
    assert |x| >= 2 ==> x[..2] == whole[..2];
    assert |x| >= 6 ==> x[2..6] == whole[2..6];
    NothingRead(cfg, x);
  }

  /** With a four-byte length the frames of the index are signature blocks. */
  lemma {:induction false} SignaturesPassed(cfg: Config, ks: seq<BlockKind>, x: bytes)
    requires !cfg.integrity.NoIntegrity? && AllFrameable(ks, 4, true)
    requires x <= BytesOf(SIGNATURE_CHANNEL_INDEX, 4, true, ks)
    ensures AllOnIndex(Items(cfg, x))
    decreases |ks|
  {
    hide Items, UnLe, Le, FrameOf, Seal, EncodePayload, Writable, FrameBytes, Frameable;
    if ks == [] {
      EmptyStep(cfg, x);
      NothingRead(cfg, x);
    } else {
      var payload := SealedPayload(ks[0]);
      var f := FrameOf(SIGNATURE_CHANNEL_INDEX, 4, payload);
      FrameParts(SIGNATURE_CHANNEL_INDEX, 4, payload, []);
      assert f + [] == f;
      if |x| < |f| {
        assert x <= f;
        SignatureUnfinished(cfg, f, x);
      } else {
        var more := x[|f|..];
        assert x == f + more && more <= BytesOf(SIGNATURE_CHANNEL_INDEX, 4, true, ks[1..]);
        SignaturePassed(cfg, payload, more);
        SignaturesPassed(cfg, ks[1..], more);
      }
    }
  }

  /** A sealed frame is an ordinary frame with the CRC in its payload. */
  lemma SealedPayload(k: BlockKind) returns (payload: bytes)
    requires Frameable(k, 4, true)
    ensures |payload| < TWO_TO_THE_32
    ensures FrameBytes(SIGNATURE_CHANNEL_INDEX, 4, true, k) == FrameOf(SIGNATURE_CHANNEL_INDEX, 4, payload)
  {
    hide EncodePayload, Writable, FrameOf, Seal, Trailer;
    var p := EncodePayload(k);
    SealIsFrame(SIGNATURE_CHANNEL_INDEX, 4, p);
    payload := p + Trailer(Le(SIGNATURE_CHANNEL_INDEX, 2) + Le(|p| + 4, 4) + p);
  }

  /** Without CRCs the frames of the index are blocks. */
  lemma {:induction false} BlocksPassed(cfg: Config, ks: seq<BlockKind>, x: bytes)
    requires cfg.integrity.NoIntegrity? && !cfg.osf4 && SIGNATURE_CHANNEL_INDEX in cfg.channels
    requires var info := cfg.channels[SIGNATURE_CHANNEL_INDEX];
             && AllFrameable(ks, info.sov, false) && (forall k :: k in ks ==> k.dt == info.dataType)
             && x <= BytesOf(SIGNATURE_CHANNEL_INDEX, info.sov, false, ks)
    ensures AllOnIndex(Items(cfg, x))
    decreases |ks|
  {
    hide Items, EncodePayload, Writable, FrameBytes, EncodeBlock, Frameable, Fits;
    if ks == [] {
      EmptyStep(cfg, x);
      NothingRead(cfg, x);
    } else {
      var b := Block(SIGNATURE_CHANNEL_INDEX, ks[0]);
      assert ks[0] in ks;
      FrameBytesAgree(cfg, SIGNATURE_CHANNEL_INDEX, ks[0]);
      var f := EncodeBlock(cfg, b);
      if |x| < |f| {
        assert x == f[..|x|];
        PartialFrame(cfg, b, |x|);
        NothingRead(cfg, x);
      } else {
        var more := x[|f|..];
        assert x == f + more;
        assert more <= BytesOf(SIGNATURE_CHANNEL_INDEX, cfg.channels[b.channelIndex].sov, false, ks[1..]);
        FrameInFront(cfg, b, more);
        BlocksPassed(cfg, ks[1..], more);
      }
    }
  }

  /** Whatever survives of a call on the index reads as nothing but skipped or ignored blocks. */
  lemma {:induction false} SurvivorPassed(cfg: Config, ks: seq<BlockKind>, x: bytes)
    requires !cfg.osf4 && SIGNATURE_CHANNEL_INDEX in cfg.channels
    requires var info := cfg.channels[SIGNATURE_CHANNEL_INDEX];
             var frameCrc := !cfg.integrity.NoIntegrity?;
             && AllFrameable(ks, info.sov, frameCrc) && (forall k :: k in ks ==> k.dt == info.dataType)
             && x <= BytesOf(SIGNATURE_CHANNEL_INDEX, info.sov, frameCrc, ks)
             && PassedOver(frameCrc, info.sov, BytesOf(SIGNATURE_CHANNEL_INDEX, info.sov, frameCrc, ks))
    ensures AllOnIndex(Items(cfg, x))
  {
    hide Items, EncodePayload, Writable, FrameBytes, Frameable, BytesOf, UnLe, AllOnIndex, Le;
    var info := cfg.channels[SIGNATURE_CHANNEL_INDEX];
    if cfg.integrity.NoIntegrity? {
      BlocksPassed(cfg, ks, x);
    } else if info.sov == 4 {
      SignaturesPassed(cfg, ks, x);
    } else {
      var whole := BytesOf(SIGNATURE_CHANNEL_INDEX, info.sov, true, ks);
      StartsWithIndex(info.sov, true, ks);
      SignatureUnfinished(cfg, whole, x);
    }
  }

  lemma StartsWithIndex(sov: nat, frameCrc: bool, ks: seq<BlockKind>)
    requires AllFrameable(ks, sov, frameCrc) && BytesOf(SIGNATURE_CHANNEL_INDEX, sov, frameCrc, ks) != []
    ensures |BytesOf(SIGNATURE_CHANNEL_INDEX, sov, frameCrc, ks)| >= 2
    ensures BytesOf(SIGNATURE_CHANNEL_INDEX, sov, frameCrc, ks)[..2] == Le(SIGNATURE_CHANNEL_INDEX, 2)
  {
    hide EncodePayload, Writable, Le, UnLe, Trailer;
    assert ks[0] in ks;
  }

  // ---------------------------------------------------------------------
  // The disk.
  // ---------------------------------------------------------------------

  /** Whatever fails, the disk has gained some beginning of the frames. */
  lemma {:induction false} WriteBlocksBytes(w: Writer, ci: u16, ks: seq<BlockKind>)
    requires WellFormed(w) && ci < |w.channels| && AllFrameable(ks, w.channels[ci].sov, w.frameCrc)
    requires forall k :: k in ks ==> Writable(k)
    requires w.phase.Streaming? && w.disk.pending == []
    ensures var d := WriteBlocks(w, ci, ks).w.disk;
            && w.disk.durable <= d.durable
            && d.durable + d.pending <= w.disk.durable + BytesOf(ci, w.channels[ci].sov, w.frameCrc, ks)
    decreases |ks|
  {
    hide Frameable, FrameBytes, EncodeFrame, DoWriteBlock, Writable;
    if ks == [] {
      assert w.disk.durable + [] == w.disk.durable;
    } else {
      assert ks[0] in ks;
      GateBytes(w, ci, ks[0]);
      var sov := w.channels[ci].sov;
      var o := DoWriteBlock(w, EncodeFrame(ci, sov, ks[0]).value, sov);
      var f := FrameBytes(ci, sov, w.frameCrc, ks[0]);
      if o.r.Ok? {
        WriteBlocksBytes(AfterBlock(o.w, ci, ks[0]), ci, ks[1..]);
        Associative(w.disk.durable, f, BytesOf(ci, sov, w.frameCrc, ks[1..]));
      }
    }
  }

  lemma PerformStreams(w: Writer, call: Call)
    requires WellFormed(w) && Typed(call) && w.phase.Streaming?
    ensures !Perform(w, call).w.phase.Broken? ==> Perform(w, call).w.phase.Streaming?
    ensures Perform(w, call).w.phase.Broken? ==> ReachesDisk(w, call) && Perform(w, call).r.Err?
  {
    hide Perform, ReachesDisk;
    if !ReachesDisk(w, call) {
      RefusedState(w, call);
    } else if Perform(w, call).r.Ok? {
      SuccessStreams(w, call);
    } else {
      ReachedFailureBreaks(w, call);
    }
  }

  /** A run that breaks is a run that does not, the breaking call, and calls that change nothing. */
  lemma {:induction false} BreakingSplits(w: Writer, calls: seq<Call>) returns (i: nat)
    requires WellFormed(w) && w.phase.Streaming? && (forall c :: c in calls ==> Typed(c)) && Breaking(w, calls).Some?
    ensures i < |calls| && Breaking(w, calls) == Some(calls[i]) && Breaking(w, calls[..i]) == None
    ensures Run(w, calls[..i]).phase.Streaming? && Succeeded(w, calls) == Succeeded(w, calls[..i])
    ensures Run(w, calls) == Perform(Run(w, calls[..i]), calls[i]).w && Run(w, calls).phase.Broken?
    decreases |calls|
  {
    hide Perform, Typed;
    var o := Perform(w, calls[0]);
    PerformStreams(w, calls[0]);
    if o.w.phase.Broken? {
      BrokenRun(o.w, calls[1..]);
      i := 0;
      assert calls[..0] == [];
    } else {
      var j := BreakingSplits(o.w, calls[1..]);
      i := j + 1;
      assert calls[..i][1..] == calls[1..][..j] && calls[..i][0] == calls[0];
    }
  }

  /** The failing call leaves some beginning of its frames behind the others. */
  lemma BrokenCallBytes(w: Writer, b: Call)
    requires WellFormed(w) && Typed(b) && w.phase.Streaming? && w.disk.pending == [] && ReachesDisk(w, b)
    ensures b.ch < |w.channels| && AllFrameable(Frames(w, b), w.channels[b.ch].sov, w.frameCrc)
    ensures forall k :: k in Frames(w, b) ==> k.dt == b.dt
    ensures var d := Perform(w, b).w.disk;
            w.disk.durable <= d.durable && d.durable + d.pending <= w.disk.durable + CallBytes(w, b)
  {
    hide ReachesDisk, CallBlocks, Perform, EncodePayload, Writable, BytesOf, PayloadBudget;
    AdmittedByChecks(w, b);
    AdmittedCounts(w.states[b.ch], b);
    var sov := w.channels[b.ch].sov;
    CallBlocksFit(b, sov, w.frameCrc);
    forall k | k in Frames(w, b)
      ensures Frameable(k, sov, w.frameCrc)
    {
    }
    WriteBlocksBytes(Locked(w, b.ch, LockOf(b)), b.ch, Frames(w, b));
  }

  // ---------------------------------------------------------------------
  // The exact statement.
  // ---------------------------------------------------------------------

  /** If the disk failed on a call to the index, a reader gets over the frames of that call. */
  predicate HarmlessBreak(w: Writer, b: Option<Call>)
    requires WellFormed(w)
  {
    b.Some? && Typed(b.value) && b.value.ch == SIGNATURE_CHANNEL_INDEX ==>
      && b.value.ch < |w.channels| && AllFrameable(Frames(w, b.value), w.channels[b.value.ch].sov, w.frameCrc)
      && PassedOver(w.frameCrc, w.channels[b.value.ch].sov, CallBytes(w, b.value))
  }

  lemma SyncedReads(off: Offset, cfg: Config, h: bytes, seed: Channels, w: Writer, log: seq<Block>, cs: Channels,
                    b: Call)
    requires Synced(off, cfg, h, seed, w, log, cs) && Typed(b) && ReachesDisk(w, b)
    ensures b.ch < |w.channels| && b.ch in cfg.channels
    ensures cfg.channels[b.ch] == ChannelInfo(b.dt, w.channels[b.ch].sov)
    ensures !cfg.osf4 && cfg.integrity.NoIntegrity? == !w.frameCrc
    ensures AllFit(cfg, log) && w.disk.durable == h + EncodeAll(cfg, log) && w.disk.pending == []
    ensures Build(off, seed, Oks(log)) == Ok(cs)
  {
    hide ReachesDisk, EncodeAll, AllFit, Build, LockMatches, Admitted;
    AdmittedByChecks(w, b);
    AdmittedCounts(w.states[b.ch], b);
  }

  lemma NoTail(w: Writer, b: Option<Call>)
    requires WellFormed(w) && (b.Some? ==> Typed(b.value))
    ensures TornTail(w, [], b)
  {
  }

  lemma Behind(h: bytes, log: bytes, d: Disk, next: bytes, file: bytes)
    requires h + log <= d.durable && d.durable + d.pending <= h + log + next && Survives(d, file)
    ensures h <= file && |h| + |log| <= |file|
    ensures file[|h|..] == log + file[|h| + |log|..] && file[|h| + |log|..] <= next
  {
    var x := file[|h| + |log|..];
    assert file == h + log + x;
    assert x == (h + log + next)[|h| + |log|..|file|];
  }

  /** The file behind a run that broke on the index: the frames of the successful calls and some bytes passed over. */
  lemma BrokenOnIndex(off: Offset, w: Writer, h: bytes, calls: seq<Call>, file: bytes, capture: bool)
    requires Started(w, h) && (forall c :: c in calls ==> Typed(c)) && Survives(Run(w, calls).disk, file)
    requires Breaking(w, calls).Some? && Breaking(w, calls).value.ch == SIGNATURE_CHANNEL_INDEX
    requires HarmlessBreak(w, Breaking(w, calls))
    requires forall c :: c in Succeeded(w, calls) ==> c.ch != SIGNATURE_CHANNEL_INDEX
    ensures h <= file && Recovered(off, w, h, calls, file, capture)
  {
    hide Build, Items, EncodeAll, ApplyCalls, Perform, Seed, Oks, Reads, Coupled, FramesOf, CallBlocks, BytesOf, Synced,
         PassedOver, AllOnIndex, ChannelsOf, TornTail, FinalizeAll, MetaOf, ReachesDisk, UnLe, Typed, AllFrameable, Run,
         Breaking, Succeeded, ReaderOf;
    var cfg, seed := ReaderOf(w, capture), Seed(MetaOf(w.channels));
    StartedIsSynced(off, w, h, capture);
    var i := BreakingSplits(w, calls);
    RunsTyped(w, calls);
    var (done, b, w1) := (calls[..i], calls[i], Run(w, calls[..i]));
    var log, cs, _ := RunOutcome(off, cfg, h, seed, w, [], seed, done);
    PerformStreams(w1, b);
    SyncedReads(off, cfg, h, seed, w1, log, cs, b);
    BrokenCallBytes(w1, b);
    Behind(h, EncodeAll(cfg, log), Run(w, calls).disk, CallBytes(w1, b), file);
    var x := file[|h| + |EncodeAll(cfg, log)|..];
    SurvivorPassed(cfg, Frames(w1, b), x);
    ItemsAfter(cfg, log, x);
    BuildConcat(off, seed, Oks(log), Items(cfg, x));
    IndexBuildsNothing(off, cs, Items(cfg, x));
    CallsFinalize(off, w.channels, Succeeded(w, calls), 0);
    assert Succeeded(w, calls) + [] == Succeeded(w, calls);
    assert MetaOf(w.channels)[0..] == MetaOf(w.channels);
    assert ChannelsOf(w.channels, Succeeded(w, calls))[0..] == ChannelsOf(w.channels, Succeeded(w, calls));
    NoTail(w, Breaking(w, calls));
  }

  /**
   Index 0xFFFE, which only a table of 0xFFFF channels has, is the exact exception to
   crash safety: a run is recovered if and only if no call to it succeeded. If the
   disk failed on a call to it, readers must be able to get over what that call was
   about to write; only with CRCs and a two-byte length field can they go astray.
   */
  lemma {:induction false} CrashSafeExactly(off: Offset, w: Writer, h: bytes, calls: seq<Call>, file: bytes,
                                            capture: bool)
    requires Started(w, h) && (forall c :: c in calls ==> Typed(c)) && Survives(Run(w, calls).disk, file)
    requires HarmlessBreak(w, Breaking(w, calls))
    ensures h <= file
    ensures Recovered(off, w, h, calls, file, capture) <==>
            forall c :: c in Succeeded(w, calls) ==> c.ch != SIGNATURE_CHANNEL_INDEX
  {
    hide Run, Succeeded, Breaking, Load, TornTail, MetaOf, ReaderOf, ChannelsOf, HarmlessBreak, Survives, Typed;
    SurvivorHasHead(w, h, calls, file);
    var done := Succeeded(w, calls);
    if forall c :: c in done ==> c.ch != SIGNATURE_CHANNEL_INDEX {
      if Breaking(w, calls).Some? && Breaking(w, calls).value.ch == SIGNATURE_CHANNEL_INDEX {
        BrokenOnIndex(off, w, h, calls, file, capture);
      } else {
        CrashSafe(off, w, h, calls, file, capture);
      }
    } else {
      var c :| c in done && c.ch == SIGNATURE_CHANNEL_INDEX;
      SucceededFacts(w, calls);
      forall tail: seq<Call>
        ensures Load(off, MetaOf(w.channels), ReaderOf(w, capture), file[|h|..])
               != Ok(ChannelsOf(w.channels, done + tail))
      {
        assert c in done + tail;
        SignatureCallsLost(off, w.channels, ReaderOf(w, capture), file[|h|..], done + tail, c);
      }
    }
  }
}
