/**
 The streaming writer from the first definition to the file: what the definitions and
 calls say, with no writer state in it, is what is found in the file.
 */
module StreamedFile {
  import opened Bytes
  import opened OsfTypes
  import opened BlockStream
  import opened Builder
  import opened Chunking
  import opened StreamingSpec
  import opened CrashSafety
  import opened SignatureIndex
  import opened Definitions
  import opened StreamingCalls
  import opened Metablock
  import opened WholeFile

  /** While the writer is being configured, a definition is taken or refused, and nothing else changes. */
  lemma DefinitionTaken(w: Writer, def: ChannelDef)
    requires w.phase.Configure?
    ensures var (w', r) := AddChannel(w, def);
            && r == (if Takes(|w.channels|, def) then Ok(|w.channels|) else Err(InvalidArgument))
            && w'.channels == (if Takes(|w.channels|, def) then w.channels + [def] else w.channels)
            && w' == w.(channels := w'.channels, states := w'.states)
  {
  }

  lemma {:induction false} AddChannelsSnoc(w: Writer, defs: seq<ChannelDef>, def: ChannelDef)
    ensures AddChannels(w, defs + [def]) == AddChannel(AddChannels(w, defs), def).0
    decreases |defs|
  {
    hide AddChannel;
    if defs == [] {
      assert defs + [def] == [def];
      assert AddChannels(AddChannel(w, def).0, [def][1..]) == AddChannel(w, def).0;
    } else {
      assert (defs + [def])[1..] == defs[1..] + [def];
      AddChannelsSnoc(AddChannel(w, defs[0]).0, defs[1..], def);
    }
  }

  /** A new writer has the channels that were taken. */
  lemma {:induction false} ChannelsTaken(integrity: IntegrityProfile, script: seq<Fate>, defs: seq<ChannelDef>)
    ensures var w := AddChannels(NewStreamingWriter(integrity, script), defs);
            && w.phase.Configure? && w.channels == Taken(defs) && w.integrity == integrity
            && w.disk == Disk([], [], script)
    decreases |defs|
  {
    hide Takes, AddChannel;
    var w0 := NewStreamingWriter(integrity, script);
    if defs != [] {
      var (front, def) := (defs[..|defs| - 1], defs[|defs| - 1]);
      assert defs == front + [def];
      ChannelsTaken(integrity, script, front);
      AddChannelsSnoc(w0, front, def);
      DefinitionTaken(AddChannels(w0, front), def);
    }
  }

  /** Out of its phase an operation is refused and changes nothing; after a disk failure with the first error. */
  lemma OutOfPhase(w: Writer, def: ChannelDef, header: bytes, body: bytes, c: Call)
    requires WellFormed(w) && Typed(c)
    ensures !w.phase.Configure? ==> AddChannel(w, def) == (w, Err(InvalidArgument))
    ensures w.phase.Streaming? || w.phase.Closed? ==> Start(w, header, body) == Outcome(w, Err(InvalidArgument))
    ensures w.phase.Configure? || w.phase.Closed? ==> Perform(w, c) == Outcome(w, Err(InvalidArgument))
    ensures w.phase.Closed? ==> Close(w) == Outcome(w, Err(InvalidArgument))
    ensures w.phase.Broken? ==> Start(w, header, body) == Outcome(w, Err(w.sticky)) && Close(w).r == Err(w.sticky)
    ensures w.phase.Configure? || w.phase.Streaming? ==> Close(w).r.Ok? && Close(w).w.disk == w.disk
  {
    hide CallBlocks;
  }

  /** The disk does what it is told to for the first `n` operations. */
  predicate FirstSucceed(script: seq<Fate>, n: nat) {
    forall i :: 0 <= i < n && i < |script| ==> script[i].Succeeds?
  }

  /**
   Starting, exactly: it succeeds if and only if a definition was taken, no signature is
   asked for, and writing the header, writing the metablock and forcing both succeed.
   */
  lemma {:induction false} StartExactly(integrity: IntegrityProfile, script: seq<Fate>, defs: seq<ChannelDef>,
                                        body: bytes)
    requires |body| < TWO_TO_THE_64
    ensures var o := Begun(integrity, script, defs, body);
            && (o.r.Ok? <==> Taken(defs) != [] && !integrity.Ed25519Level? && FirstSucceed(script, 3))
            && (o.r.Err? ==> o.r.error == if Taken(defs) == [] || integrity.Ed25519Level? then InvalidArgument
                                          else IoError)
            && (o.r.Err? ==> !o.w.phase.Streaming? && o.w.disk.durable == [] && o.w.disk.pending == [])
            && (o.r.Ok? ==> o.w.channels == Taken(defs) && o.w.disk.script == script[Min(3, |script|)..])
  {
    hide AddChannels, LineFor, Taken;
    ChannelsTaken(integrity, script, defs);
  }

  /**
   On a disk that does not fail, any definitions and any calls leave a file that opens
   to one channel per definition taken, each with exactly the samples of the calls that
   the calls before them raise no objection to, if and only if none of these is on
   index 0xFFFE.
   */
  lemma {:induction false} StreamedFileOpens(off: Offset, parse: MetaParser, integrity: IntegrityProfile,
                                             script: seq<Fate>, defs: seq<ChannelDef>, body: bytes, calls: seq<Call>)
    requires |body| < TWO_TO_THE_64 && Healthy(script) && Taken(defs) != [] && !integrity.Ed25519Level?
    requires ReadsBack(parse, body, Taken(defs)) && forall c :: c in calls ==> Typed(c)
    ensures var o := Begun(integrity, script, defs, body);
            var accepted := AcceptedCalls(Taken(defs), integrity.Crc32cLevel?, calls);
            && o.r.Ok?
            && (OpenFile(off, parse, Run(o.w, calls).disk.durable) == Ok(ChannelsOf(Taken(defs), accepted))
                <==> forall c :: c in accepted ==> c.ch != SIGNATURE_CHANNEL_INDEX)
  {
    hide Taken, Begun, Run, OpenFile, ChannelsOf, AcceptedCalls, Objection, Typed, ReadsBack;
    StartExactly(integrity, script, defs, body);
    BegunIsStarted(integrity, script, defs, body);
    var w := Begun(integrity, script, defs, body).w;
    var h := LineFor(body, w.frameCrc) + body;
    assert forall f :: f in w.disk.script ==> f in script;
    HealthyRun(w, calls);
    RunInStep(w, h, calls);
    CrashedFileOpens(off, parse, integrity, script, defs, body, calls, Run(w, calls).disk.durable);
    NoTail(w, None);
    var accepted := AcceptedCalls(Taken(defs), integrity.Crc32cLevel?, calls);
    assert accepted + [] == accepted;
    assert forall tail :: TornTail(w, tail, None) ==> tail == [];
  }
}
