/**
 Whole files: header line, metablock, data section (buildFromStreamImpl in
 manager.cpp). The metablock's text is left to a parser given as a parameter, and
 what is asked of it is that it gives back the channel table it was printed from.
 */
module WholeFile {
  import opened Bytes
  import opened OsfTypes
  import opened Crc32cModel
  import opened BlockStream
  import opened Codec
  import opened Builder
  import opened Loader
  import opened Chunking
  import opened StreamingSpec
  import opened CrashSafety
  import opened SignatureIndex
  import opened BlockRoundTrip
  import opened Header
  import opened Metablock
  import opened Stream
  import opened Reader
  import opened ChannelBuilders
  import opened BlockWriters

  /** What a metablock says: the terminator rule and the channels. */
  datatype ParsedMetablock = ParsedMetablock(osf4: bool, channels: seq<MetaChannel>)

  type MetaParser = (Version, bytes) -> Result<ParsedMetablock>

  /** Header and metablock of a file, and the data section behind them. */
  datatype Opened = Opened(header: MagicHeader, meta: ParsedMetablock, section: bytes)

  function OpenMetablock(parse: MetaParser, file: bytes): Result<Opened> {
    match ParseHeader(file)
    case Err(e) => Err(e)
    case Ok((h, rest)) =>
      if |rest| < h.metablockLen then Err(IoError)
      else
        var body := rest[..h.metablockLen];
        if !BodyChecks(h.metablockCrc, body) then Err(MetablockCrcMismatch)
        else
          match parse(h.version, body)
          case Err(e) => Err(e)
          case Ok(m) => Ok(Opened(h, m, rest[h.metablockLen..]))
  }

  function ConfigOf(o: Opened): Config {
    Config(ReaderChannels(o.meta.channels), o.meta.osf4, o.header.integrity, false)
  }

  /** Load a file from its bytes. */
  function OpenFile(off: Offset, parse: MetaParser, file: bytes): Result<seq<DataChannel>> {
    match OpenMetablock(parse, file)
    case Err(e) => Err(e)
    case Ok(o) => Load(off, o.meta.channels, ConfigOf(o), o.section)
  }

  method LoadFromStream(off: Offset, parse: MetaParser, tables: array2<word>, input: ByteStream)
    returns (r: Result<seq<DataChannel>>)
    requires input.Valid() && TablesCorrect(tables)
    modifies input`pos
    ensures r == OpenFile(off, parse, old(input.Rest()))
  {
    hide ParseHeader, Load, BodyCrc, ReaderChannels, TablesCorrect;
    var header := ParseMagicHeader(input);
    if header.Err? {
      return Err(header.error);
    }
    var h := header.value;
    var body, full := input.ReadN(h.metablockLen);
    if !full {
      return Err(IoError);
    }
    if h.metablockCrc.Some? {
      var actual := ComputeBodyCrc(tables, body);
      if actual != h.metablockCrc.value {
        return Err(MetablockCrcMismatch);
      }
    }
    var meta := parse(h.version, body);
    if meta.Err? {
      return Err(meta.error);
    }
    var reader := new BlockReader(input,
      Config(ReaderChannels(meta.value.channels), meta.value.osf4, h.integrity, false), tables);
    r := LoadSection(off, meta.value.channels, reader);
  }

  /** The parser reads back what the serializer printed for the channel table `defs`. */
  predicate ReadsBack(parse: MetaParser, body: bytes, defs: seq<ChannelDef>)
    requires |defs| <= 0xFFFF
  {
    parse(Osf5, body) == Ok(ParsedMetablock(false, MetaOf(defs)))
  }

  /** Header line and metablock of a writer open again, and the section starts right behind them. */
  lemma FrontReadsBack(parse: MetaParser, body: bytes, defs: seq<ChannelDef>, frameCrc: bool, section: bytes)
    requires |body| < TWO_TO_THE_64 && |defs| <= 0xFFFF && ReadsBack(parse, body, defs)
    ensures OpenMetablock(parse, LineFor(body, frameCrc) + body + section)
         == Ok(Opened(ExpectedHeader(|body|, if frameCrc then Some(BodyCrc(body)) else None),
           ParsedMetablock(false, MetaOf(defs)), section))
  {
    hide MagicLine, BodyCrc, ParseHeader, MetaOf;
    var crc := if frameCrc then Some(BodyCrc(body)) else None;
    MagicRoundTrip(|body|, crc, body + section);
    Associative(MagicLine(|body|, crc), body, section);
    assert (body + section)[..|body|] == body && (body + section)[|body|..] == section;
  }

  /** The file a block writer produces. */
  function FileBytes(bw: BlockFile, serialize: Serializer): bytes
    requires ValidWriter(bw) && WriteError(bw).None? && |serialize(BumpedDefs(bw))| < TWO_TO_THE_64
  {
    LineFor(serialize(BumpedDefs(bw)), FrameCrc(bw)) + serialize(BumpedDefs(bw)) + DataSection(bw)
  }

  /** A block writer's file opens to the accumulated channels, if and only if no sample sits on channel 0xFFFE. */
  lemma {:induction false} BlockFileOpens(off: Offset, parse: MetaParser, serialize: Serializer, bw: BlockFile)
    requires ValidWriter(bw) && WriteError(bw).None? && |serialize(BumpedDefs(bw))| < TWO_TO_THE_64
    requires ReadsBack(parse, serialize(BumpedDefs(bw)), BumpedDefs(bw))
    ensures OpenFile(off, parse, FileBytes(bw, serialize)) == Ok(LoadedFrom(bw, 0))
       <==> |bw.channels| < 0xFFFF || bw.data[0xFFFE].kind.EmptyKind?
  {
    hide OpenMetablock, Load, LoadedFrom, DataSection, LineFor, MetaOf, BumpedDefs, ReaderChannels, BodyCrc, WriteError;
    FrontReadsBack(parse, serialize(BumpedDefs(bw)), BumpedDefs(bw), FrameCrc(bw), DataSection(bw));
    WriteLoadRoundTrip(off, bw, false);
  }

  /** With CRCs on, damage to at most four consecutive bytes of the metablock is always refused. */
  lemma {:induction false} MetablockDamageRefused(off: Offset, parse: MetaParser, body: bytes, damaged: bytes, p: nat,
                                                  section: bytes)
    requires |body| < TWO_TO_THE_64 && Burst(body, damaged, p)
    ensures OpenFile(off, parse, LineFor(body, true) + damaged + section) == Err(MetablockCrcMismatch)
  {
    hide MagicLine, BodyCrc, ParseHeader, Load, BodyChecks;
    MagicRoundTrip(|body|, Some(BodyCrc(body)), damaged + section);
    Associative(MagicLine(|body|, Some(BodyCrc(body))), damaged, section);
    assert (damaged + section)[..|body|] == damaged;
    BodyBurstDetected(body, damaged, p);
  }

  // ---------------------------------------------------------------------
  // The streaming writer's file after a crash.
  // ---------------------------------------------------------------------

  /** A new writer over an empty file whose operations fail as the script says. */
  function NewStreamingWriter(integrity: IntegrityProfile, script: seq<Fate>): Writer {
    Writer(Configure, IoError, [], [], integrity, false, Disk([], [], script))
  }

  /** addChannel for each definition, accepted or refused. */
  function AddChannels(w: Writer, defs: seq<ChannelDef>): Writer
    decreases |defs|
  {
    if defs == [] then w else AddChannels(AddChannel(w, defs[0]).0, defs[1..])
  }

  /** A writer to which only addChannel has been applied, over an empty file. */
  predicate Configured(w: Writer) {
    && WellFormed(w) && w.phase.Configure? && w.disk.durable == [] && w.disk.pending == []
    && forall i :: 0 <= i < |w.channels| ==>
         !w.channels[i].dataType.Unsupported? && w.states[i] == ChannelState(Unset, w.channels[i].dataType, false)
  }

  lemma {:induction false} AddChannelsConfigure(w: Writer, defs: seq<ChannelDef>)
    requires Configured(w)
    ensures Configured(AddChannels(w, defs)) && AddChannels(w, defs).integrity == w.integrity
    decreases |defs|
  {
    if defs != [] {
      OneChannelConfigures(w, defs[0]);
      hide Configured, AddChannel;
      AddChannelsConfigure(AddChannel(w, defs[0]).0, defs[1..]);
    }
  }

  lemma OneChannelConfigures(w: Writer, def: ChannelDef)
    requires Configured(w)
    ensures Configured(AddChannel(w, def).0) && AddChannel(w, def).0.integrity == w.integrity
  {
  }

  /** A successful start leaves header and metablock durable and nothing pending. */
  lemma {:induction false} StartSucceeds(w: Writer, header: bytes, body: bytes)
    requires Configured(w) && StreamingSpec.Start(w, header, body).r.Ok?
    ensures Started(StreamingSpec.Start(w, header, body).w, header + body)
    ensures StreamingSpec.Start(w, header, body).w.channels == w.channels
    ensures StreamingSpec.Start(w, header, body).w.frameCrc == w.integrity.Crc32cLevel?
  {
    assert [] + header + body == header + body;
  }

  lemma StartKeepsTable(w: Writer, defs: seq<ChannelDef>, header: bytes, body: bytes)
    requires Configured(w)
    ensures WellFormed(StreamingSpec.Start(AddChannels(w, defs), header, body).w)
  {
    hide AddChannels;
    AddChannelsConfigure(w, defs);
  }

  /** The writer once the channels are defined and start has been called. */
  function Begun(integrity: IntegrityProfile, script: seq<Fate>, defs: seq<ChannelDef>, body: bytes): (o: Outcome)
    requires |body| < TWO_TO_THE_64
    ensures WellFormed(o.w)
  {
    hide AddChannels, StreamingSpec.Start, LineFor;
    StartKeepsTable(NewStreamingWriter(integrity, script), defs, LineFor(body, integrity.Crc32cLevel?), body);
    StreamingSpec.Start(AddChannels(NewStreamingWriter(integrity, script), defs),
      LineFor(body, integrity.Crc32cLevel?), body)
  }

  lemma {:induction false} BegunIsStarted(integrity: IntegrityProfile, script: seq<Fate>, defs: seq<ChannelDef>,
                                          body: bytes)
    requires |body| < TWO_TO_THE_64 && Begun(integrity, script, defs, body).r.Ok?
    ensures var w := Begun(integrity, script, defs, body).w;
            Started(w, LineFor(body, w.frameCrc) + body) && w.frameCrc == integrity.Crc32cLevel?
  {
    hide AddChannels, StreamingSpec.Start, Started, LineFor;
    var w0 := NewStreamingWriter(integrity, script);
    AddChannelsConfigure(w0, defs);
    StartSucceeds(AddChannels(w0, defs), LineFor(body, integrity.Crc32cLevel?), body);
  }

  /** The file opens, each channel holding the samples of the successful calls and at most the start of the torn one. */
  ghost predicate FileRecovered(off: Offset, parse: MetaParser, w: Writer, calls: seq<Call>, file: bytes)
    requires WellFormed(w) && forall c :: c in calls ==> Typed(c)
  {
    && (Breaking(w, calls).Some? ==> Typed(Breaking(w, calls).value))
    && exists tail ::
         && TornTail(w, tail, Breaking(w, calls))
         && OpenFile(off, parse, file) == Ok(ChannelsOf(w.channels, Succeeded(w, calls) + tail))
  }

  /**
   The file as a reader meets it after any definitions, any run and any crash: it
   opens without error, and every channel holds exactly the samples of the successful
   calls, in order, plus at most those of the first few frames of the one call the
   disk failed on; if and only if none of the successful calls was one on index 0xFFFE.
   */
  lemma {:induction false} CrashedFileOpens(off: Offset, parse: MetaParser, integrity: IntegrityProfile,
                                            script: seq<Fate>, defs: seq<ChannelDef>, body: bytes, calls: seq<Call>,
                                            file: bytes)
    requires |body| < TWO_TO_THE_64 && Begun(integrity, script, defs, body).r.Ok?
    requires ReadsBack(parse, body, Begun(integrity, script, defs, body).w.channels)
    requires forall c :: c in calls ==> Typed(c)
    requires var w := Begun(integrity, script, defs, body).w; HarmlessBreak(w, Breaking(w, calls))
    requires Survives(Run(Begun(integrity, script, defs, body).w, calls).disk, file)
    ensures var w := Begun(integrity, script, defs, body).w;
            FileRecovered(off, parse, w, calls, file) <==>
            forall c :: c in Succeeded(w, calls) ==> c.ch != SIGNATURE_CHANNEL_INDEX
  {
    hide Begun, Run, Succeeded, Breaking, Load, LineFor, MetaOf, ReaderChannels, OpenMetablock, TornTail, ChannelsOf,
         HarmlessBreak, Survives;
    var w := Begun(integrity, script, defs, body).w;
    BegunIsStarted(integrity, script, defs, body);
    var h := LineFor(body, w.frameCrc) + body;
    CrashSafeExactly(off, w, h, calls, file, false);
    var section := file[|h|..];
    assert file == h + section;
    FrontReadsBack(parse, body, w.channels, w.frameCrc, section);
    assert OpenFile(off, parse, file) == Load(off, MetaOf(w.channels), ReaderOf(w, false), section);
  }
}
