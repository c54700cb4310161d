/**
 Two encodings of one meaning: the OSF4 reference files of
 gen_message_event_refs.rs store the same counters and texts once channel by
 channel with length-prefixed message events, and once sample by sample with
 zero-terminated strings. Both are read by the same reader.
 */
module MessageEvent {
  import opened Bytes
  import opened OsfTypes
  import opened Payload
  import opened Frame
  import opened BlockStream
  import opened Codec
  import opened Builder
  import opened Loader

  const COUNTER_CHANNEL_INDEX: u16 := 0
  const MESSAGE_CHANNEL_INDEX: u16 := 1

  const META: seq<MetaChannel> :=
    [MetaChannel(COUNTER_CHANNEL_INDEX, UInt32, 2), MetaChannel(MESSAGE_CHANNEL_INDEX, DataType.String, 4)]

  function Osf4Config(capture: bool): Config {
    Config(map[COUNTER_CHANNEL_INDEX := ChannelInfo(UInt32, 2),
      MESSAGE_CHANNEL_INDEX := ChannelInfo(DataType.String, 4)],
           true, NoIntegrity, capture)
  }

  /** One row of the reference files. */
  datatype Entry = Entry(ts: i64, counter: u32, text: bytes)

  /** The generator computes both message lengths in 32 bits. */
  predicate LengthsFit(es: seq<Entry>) {
    forall e :: e in es ==> |e.text| + 13 < TWO_TO_THE_32
  }

  // ---------------------------------------------------------------------
  // The generator.
  // ---------------------------------------------------------------------

  function CounterBlock(ts: i64, value: u32): bytes {
    Le(COUNTER_CHANNEL_INDEX, 2) + Le(1 + 8 + 4, 2) + [0x08] + LeI64(ts) + Le(value, 4)
  }

  function MessageEventBlock(ts: i64, text: bytes): bytes {
    Le(MESSAGE_CHANNEL_INDEX, 2) + Le(1 + 8 + 4 + |text|, 4) + [0x04] + LeI64(ts) + Le(|text|, 4) + text
  }

  function LegacyStringBlock(ts: i64, text: bytes): bytes {
    Le(MESSAGE_CHANNEL_INDEX, 2) + Le(1 + 8 + |text| + 1, 4) + [0x08] + LeI64(ts) + text + [0x00]
  }

  function Counters(es: seq<Entry>): bytes {
    if es == [] then [] else CounterBlock(es[0].ts, es[0].counter) + Counters(es[1..])
  }

  function Messages(es: seq<Entry>): bytes {
    if es == [] then [] else MessageEventBlock(es[0].ts, es[0].text) + Messages(es[1..])
  }

  /** All counters, then all messages. */
  function ChannelMajor(es: seq<Entry>): bytes {
    Counters(es) + Messages(es)
  }

  /** Counter and legacy string in turn. */
  function RoundRobin(es: seq<Entry>): bytes {
    if es == [] then []
    else CounterBlock(es[0].ts, es[0].counter) + LegacyStringBlock(es[0].ts, es[0].text) + RoundRobin(es[1..])
  }

  method BuildMessageEventSection(es: seq<Entry>) returns (blocks: bytes)
    ensures blocks == ChannelMajor(es)
  {
    hide CounterBlock, MessageEventBlock;
    blocks := [];
    assert es[0..] == es;
    for i := 0 to |es|
      invariant blocks + Counters(es[i..]) == Counters(es)
    {
      assert es[i..][1..] == es[i + 1..];
      Associative(blocks, CounterBlock(es[i].ts, es[i].counter), Counters(es[i + 1..]));
      blocks := blocks + CounterBlock(es[i].ts, es[i].counter);
    }
    for i := 0 to |es|
      invariant blocks + Messages(es[i..]) == ChannelMajor(es)
    {
      assert es[i..][1..] == es[i + 1..];
      Associative(blocks, MessageEventBlock(es[i].ts, es[i].text), Messages(es[i + 1..]));
      blocks := blocks + MessageEventBlock(es[i].ts, es[i].text);
    }
  }

  method BuildEquivalentSection(es: seq<Entry>) returns (blocks: bytes)
    ensures blocks == RoundRobin(es)
  {
    hide CounterBlock, LegacyStringBlock;
    blocks := [];
    assert es[0..] == es;
    for i := 0 to |es|
      invariant blocks + RoundRobin(es[i..]) == RoundRobin(es)
    {
      assert es[i..][1..] == es[i + 1..];
      var (c, l) := (CounterBlock(es[i].ts, es[i].counter), LegacyStringBlock(es[i].ts, es[i].text));
      Associative(blocks, c + l, RoundRobin(es[i + 1..]));
      Associative(blocks, c, l);
      blocks := blocks + c;
      blocks := blocks + l;
    }
  }

  // ---------------------------------------------------------------------
  // What the reader makes of one block.
  // ---------------------------------------------------------------------

  function CounterKind(e: Entry): BlockKind {
    AbsTimestampData(UInt32, [Stamped(e.ts, Le(e.counter, 4))])
  }

  function TextKind(e: Entry): BlockKind {
    AbsTimestampData(DataType.String, [Stamped(e.ts, e.text)])
  }

  function CounterItem(e: Entry): Result<Block> {
    Ok(Block(COUNTER_CHANNEL_INDEX, CounterKind(e)))
  }

  function TextItem(e: Entry): Result<Block> {
    Ok(Block(MESSAGE_CHANNEL_INDEX, TextKind(e)))
  }

  /** A frame in an OSF4 file adds the item its payload routes to. */
  lemma FrameItem(capture: bool, ci: u16, payload: bytes, k: BlockKind, rest: bytes)
    requires ci in Osf4Config(capture).channels
    requires 0 < |payload| < FieldLimit(Osf4Config(capture).channels[ci].sov)
    requires Route(payload, Osf4Config(capture).channels[ci].dataType, true) == Parsed(Ok(k))
    ensures var cfg := Osf4Config(capture);
            Items(cfg, FrameOf(ci, cfg.channels[ci].sov, payload) + rest) == [Ok(Block(ci, k))] + Items(cfg, rest)
  {
    hide Next, Items, Route, FrameOf;
    var cfg := Osf4Config(capture);
    var f := FrameOf(ci, cfg.channels[ci].sov, payload);
    FrameStep(cfg, ci, payload, rest);
    ItemsOfYield(cfg, f + rest);
    assert (f + rest)[|f|..] == rest;
  }

  lemma CounterRoutes(e: Entry)
    ensures Route([0x08] + (LeI64(e.ts) + Le(e.counter, 4)), UInt32, true) == Parsed(Ok(CounterKind(e)))
  {
    hide Le, LeI64, AbsBody, ParseAbsVariable;
    var k := CounterKind(e);
    var s := Stamped(e.ts, Le(e.counter, 4));
    AbsVariableReadsBack(DataType.String, s, false);
    PayloadRoundTrip(k, true);
    assert EncodePayload(k) == [0x08] + (LeI64(e.ts) + Le(e.counter, 4));
  }

  lemma CounterReads(capture: bool, e: Entry, rest: bytes)
    ensures Items(Osf4Config(capture), CounterBlock(e.ts, e.counter) + rest)
         == [CounterItem(e)] + Items(Osf4Config(capture), rest)
  {
    hide Le, LeI64, Items, Route;
    var p := [0x08] + (LeI64(e.ts) + Le(e.counter, 4));
    CounterRoutes(e);
    FrameItem(capture, COUNTER_CHANNEL_INDEX, p, CounterKind(e), rest);
    assert CounterBlock(e.ts, e.counter) == FrameOf(COUNTER_CHANNEL_INDEX, 2, p);
  }

  lemma MessageRoutes(e: Entry)
    requires |e.text| + 13 < TWO_TO_THE_32
    ensures Route([0x04] + (LeI64(e.ts) + Le(|e.text|, 4) + e.text), DataType.String, true) == Parsed(Ok(TextKind(e)))
  {
    hide Le, LeI64, UnLe, UnLeI64;
    var body := LeI64(e.ts) + Le(|e.text|, 4) + e.text;
    assert ([0x04] + body)[1..] == body;
    assert body[..8] == LeI64(e.ts);
    assert body[8..12] == Le(|e.text|, 4);
    assert body[12..12 + |e.text|] == e.text;
    I64RoundTrip(e.ts);
    Pow256Values();
    LeRoundTrip(|e.text|, 4);
  }

  lemma MessageReads(capture: bool, e: Entry, rest: bytes)
    requires |e.text| + 13 < TWO_TO_THE_32
    ensures Items(Osf4Config(capture), MessageEventBlock(e.ts, e.text) + rest)
         == [TextItem(e)] + Items(Osf4Config(capture), rest)
  {
    hide Le, LeI64, Items, Route;
    var p := [0x04] + (LeI64(e.ts) + Le(|e.text|, 4) + e.text);
    MessageRoutes(e);
    FrameItem(capture, MESSAGE_CHANNEL_INDEX, p, TextKind(e), rest);
    assert MessageEventBlock(e.ts, e.text) == FrameOf(MESSAGE_CHANNEL_INDEX, 4, p);
  }

  /** The terminator is stripped and nothing else, even if the text ends in zero bytes or is empty. */
  lemma LegacyRoutes(e: Entry)
    ensures Route([0x08] + (LeI64(e.ts) + (e.text + [0x00])), DataType.String, true) == Parsed(Ok(TextKind(e)))
  {
    hide Le, LeI64, ReadMessage;
    var s := Stamped(e.ts, e.text + [0x00]);
    var body := LeI64(e.ts) + (e.text + [0x00]);
    assert body == StampedBytes(s);
    assert ([0x08] + body)[1..] == body;
    OneMessageReadsBack(s, true);
    assert StripTerminator(s.value, true) == e.text;
  }

  lemma LegacyReads(capture: bool, e: Entry, rest: bytes)
    requires |e.text| + 13 < TWO_TO_THE_32
    ensures Items(Osf4Config(capture), LegacyStringBlock(e.ts, e.text) + rest)
         == [TextItem(e)] + Items(Osf4Config(capture), rest)
  {
    hide Le, LeI64, Items, Route;
    var p := [0x08] + (LeI64(e.ts) + (e.text + [0x00]));
    LegacyRoutes(e);
    FrameItem(capture, MESSAGE_CHANNEL_INDEX, p, TextKind(e), rest);
    assert LegacyStringBlock(e.ts, e.text) == FrameOf(MESSAGE_CHANNEL_INDEX, 4, p);
  }

  // ---------------------------------------------------------------------
  // Whole sections.
  // ---------------------------------------------------------------------

  function CounterItems(es: seq<Entry>): (r: seq<Result<Block>>)
    ensures forall x :: x in r ==> x.Ok?
  {
    if es == [] then [] else [CounterItem(es[0])] + CounterItems(es[1..])
  }

  function TextItems(es: seq<Entry>): (r: seq<Result<Block>>)
    ensures forall x :: x in r ==> x.Ok?
  {
    if es == [] then [] else [TextItem(es[0])] + TextItems(es[1..])
  }

  function MixedItems(es: seq<Entry>): (r: seq<Result<Block>>)
    ensures forall x :: x in r ==> x.Ok?
  {
    if es == [] then [] else [CounterItem(es[0]), TextItem(es[0])] + MixedItems(es[1..])
  }

  lemma EndOfSection(capture: bool)
    ensures Items(Osf4Config(capture), []) == []
  {
  }

  lemma {:induction false} CountersRead(capture: bool, es: seq<Entry>, rest: bytes)
    ensures Items(Osf4Config(capture), Counters(es) + rest) == CounterItems(es) + Items(Osf4Config(capture), rest)
    decreases |es|
  {
    hide Items, CounterBlock, CounterItem;
    if es == [] {
      assert Counters(es) + rest == rest;
    } else {
      var c := CounterBlock(es[0].ts, es[0].counter);
      Associative(c, Counters(es[1..]), rest);
      CounterReads(capture, es[0], Counters(es[1..]) + rest);
      CountersRead(capture, es[1..], rest);
      Associative([CounterItem(es[0])], CounterItems(es[1..]), Items(Osf4Config(capture), rest));
    }
  }

  lemma {:induction false} MessagesRead(capture: bool, es: seq<Entry>)
    requires LengthsFit(es)
    ensures Items(Osf4Config(capture), Messages(es)) == TextItems(es)
    decreases |es|
  {
    hide Items, MessageEventBlock, TextItem;
    if es == [] {
      EndOfSection(capture);
    } else {
      assert es[0] in es;
      MessageReads(capture, es[0], Messages(es[1..]));
      MessagesRead(capture, es[1..]);
    }
  }

  lemma {:induction false} RoundRobinReads(capture: bool, es: seq<Entry>)
    requires LengthsFit(es)
    ensures Items(Osf4Config(capture), RoundRobin(es)) == MixedItems(es)
    decreases |es|
  {
    hide Items, CounterBlock, LegacyStringBlock, CounterItem, TextItem;
    if es == [] {
      EndOfSection(capture);
    } else {
      assert es[0] in es;
      var (c, l) := (CounterBlock(es[0].ts, es[0].counter), LegacyStringBlock(es[0].ts, es[0].text));
      Associative(c, l, RoundRobin(es[1..]));
      LegacyReads(capture, es[0], RoundRobin(es[1..]));
      CounterReads(capture, es[0], l + RoundRobin(es[1..]));
      RoundRobinReads(capture, es[1..]);
      Associative([CounterItem(es[0])], [TextItem(es[0])], MixedItems(es[1..]));
    }
  }

  lemma ProjectHead(r: Result<Block>, rest: seq<Result<Block>>, ci: u16)
    requires r.Ok?
    ensures Project([r] + rest, ci) == if r.value.channelIndex == ci then [r.value.kind] + Project(rest, ci)
            else Project(rest, ci)
  {
    assert ([r] + rest)[1..] == rest;
  }

  lemma ItemsHead(es: seq<Entry>)
    requires es != []
    ensures CounterItems(es) == [CounterItem(es[0])] + CounterItems(es[1..])
    ensures TextItems(es) == [TextItem(es[0])] + TextItems(es[1..])
    ensures MixedItems(es) == [CounterItem(es[0])] + ([TextItem(es[0])] + MixedItems(es[1..]))
  {
    hide CounterItem, TextItem;
    Associative([CounterItem(es[0])], [TextItem(es[0])], MixedItems(es[1..]));
  }

  lemma NoItems(ci: u16)
    ensures Project(CounterItems([]), ci) == [] && Project(TextItems([]), ci) == [] && Project(MixedItems([]), ci) == []
  {
  }

  /** Both orders give each channel the same blocks. */
  lemma {:induction false} SameProjections(es: seq<Entry>, ci: u16)
    ensures Project(MixedItems(es), ci) == Project(CounterItems(es), ci) + Project(TextItems(es), ci)
    ensures ci == COUNTER_CHANNEL_INDEX ==> Project(TextItems(es), ci) == []
    ensures ci != COUNTER_CHANNEL_INDEX ==> Project(CounterItems(es), ci) == []
    decreases |es|
  {
    hide Project, CounterKind, TextKind, CounterItems, TextItems, MixedItems;
    if es == [] {
      NoItems(ci);
    } else {
      ItemsHead(es);
      var (c, t) := (CounterItem(es[0]), TextItem(es[0]));
      SameProjections(es[1..], ci);
      ProjectHead(c, CounterItems(es[1..]), ci);
      ProjectHead(t, TextItems(es[1..]), ci);
      ProjectHead(t, MixedItems(es[1..]), ci);
      ProjectHead(c, [t] + MixedItems(es[1..]), ci);
      Associative([CounterKind(es[0])], Project(CounterItems(es[1..]), ci), Project(TextItems(es[1..]), ci));
    }
  }

  // ---------------------------------------------------------------------
  // The channels.
  // ---------------------------------------------------------------------

  function EntryTimes(es: seq<Entry>): seq<i64> {
    if es == [] then [] else [es[0].ts] + EntryTimes(es[1..])
  }

  function CounterValues(es: seq<Entry>): seq<bytes> {
    if es == [] then [] else [Le(es[0].counter, 4)] + CounterValues(es[1..])
  }

  function Texts(es: seq<Entry>): seq<bytes> {
    if es == [] then [] else [es[0].text] + Texts(es[1..])
  }

  /** What a loader makes of either file. */
  function Expected(es: seq<Entry>): seq<DataChannel> {
    [ if es == [] then EquidistantChannel(COUNTER_CHANNEL_INDEX, UInt32, [], [])
      else TimestampedChannel(COUNTER_CHANNEL_INDEX, UInt32, EntryTimes(es), CounterValues(es)),
      VariableChannel(MESSAGE_CHANNEL_INDEX, DataType.String, EntryTimes(es), Texts(es)) ]
  }

  lemma {:induction false} FoldCounters(off: Offset, es: seq<Entry>, ts: seq<i64>, vs: seq<bytes>, last: Option<i64>)
    ensures var r := Fold(off, Channel(UInt32, Timestamped(ts, vs), last),
            Project(CounterItems(es), COUNTER_CHANNEL_INDEX));
            r.Ok? && r.value.dt == UInt32 && r.value.state == Timestamped(ts + EntryTimes(es), vs + CounterValues(es))
    decreases |es|
  {
    hide Le;
    if es == [] {
      assert ts + EntryTimes(es) == ts && vs + CounterValues(es) == vs;
    } else {
      var (t, v) := ([es[0].ts], [Le(es[0].counter, 4)]);
      ProjectHead(CounterItem(es[0]), CounterItems(es[1..]), COUNTER_CHANNEL_INDEX);
      var ks := Project(CounterItems(es), COUNTER_CHANNEL_INDEX);
      assert ks[1..] == Project(CounterItems(es[1..]), COUNTER_CHANNEL_INDEX);
      OnePair(Stamped(es[0].ts, v[0]));
      FoldCounters(off, es[1..], ts + t, vs + v, Some(es[0].ts));
      Associative(ts, t, EntryTimes(es[1..]));
      Associative(vs, v, CounterValues(es[1..]));
    }
  }

  lemma OnePair(s: Stamped)
    ensures Times([s]) == [s.ts] && Payloads([s]) == [s.value]
  {
  }

  lemma {:induction false} FoldTexts(off: Offset, es: seq<Entry>, ts: seq<i64>, vs: seq<bytes>, last: Option<i64>)
    ensures var r := Fold(off, Channel(DataType.String, Variable(ts, vs), last),
            Project(TextItems(es), MESSAGE_CHANNEL_INDEX));
            r.Ok? && r.value.dt == DataType.String && r.value.state == Variable(ts + EntryTimes(es), vs + Texts(es))
    decreases |es|
  {
    if es == [] {
      assert ts + EntryTimes(es) == ts && vs + Texts(es) == vs;
    } else {
      var (t, v) := ([es[0].ts], [es[0].text]);
      ProjectHead(TextItem(es[0]), TextItems(es[1..]), MESSAGE_CHANNEL_INDEX);
      var ks := Project(TextItems(es), MESSAGE_CHANNEL_INDEX);
      assert ks[1..] == Project(TextItems(es[1..]), MESSAGE_CHANNEL_INDEX);
      OnePair(Stamped(es[0].ts, es[0].text));
      FoldTexts(off, es[1..], ts + t, vs + v, Some(es[0].ts));
      Associative(ts, t, EntryTimes(es[1..]));
      Associative(vs, v, Texts(es[1..]));
    }
  }

  /** The counter channel from scratch: untouched if there are no rows. */
  lemma FoldFreshCounters(off: Offset, es: seq<Entry>)
    ensures var r := Fold(off, Fresh(UInt32), Project(CounterItems(es), COUNTER_CHANNEL_INDEX));
            && r.Ok?
            && r.value.dt == UInt32
            && r.value.state == if es == [] then Pending else Timestamped(EntryTimes(es), CounterValues(es))
  {
    hide Le;
    if es != [] {
      var (t, v) := ([es[0].ts], [Le(es[0].counter, 4)]);
      ProjectHead(CounterItem(es[0]), CounterItems(es[1..]), COUNTER_CHANNEL_INDEX);
      var ks := Project(CounterItems(es), COUNTER_CHANNEL_INDEX);
      assert ks[1..] == Project(CounterItems(es[1..]), COUNTER_CHANNEL_INDEX);
      OnePair(Stamped(es[0].ts, v[0]));
      FoldCounters(off, es[1..], t, v, Some(es[0].ts));
    }
  }

  lemma MajorProjections(es: seq<Entry>)
    ensures Project(CounterItems(es) + TextItems(es), COUNTER_CHANNEL_INDEX)
            == Project(CounterItems(es), COUNTER_CHANNEL_INDEX)
    ensures Project(CounterItems(es) + TextItems(es), MESSAGE_CHANNEL_INDEX)
            == Project(TextItems(es), MESSAGE_CHANNEL_INDEX)
  {
    hide Project, CounterItems, TextItems;
    ProjectConcat(CounterItems(es), TextItems(es), COUNTER_CHANNEL_INDEX);
    ProjectConcat(CounterItems(es), TextItems(es), MESSAGE_CHANNEL_INDEX);
    SameProjections(es, COUNTER_CHANNEL_INDEX);
    SameProjections(es, MESSAGE_CHANNEL_INDEX);
  }

  lemma FinalizeExpected(es: seq<Entry>, c: Channel, t: Channel)
    requires c.dt == UInt32 && c.state == if es == [] then Pending else Timestamped(EntryTimes(es), CounterValues(es))
    requires t.dt == DataType.String && t.state == Variable(EntryTimes(es), Texts(es))
    ensures FinalizeAll(META, map[COUNTER_CHANNEL_INDEX := c, MESSAGE_CHANNEL_INDEX := t]) == Expected(es)
  {
    hide FinalizeAll, EntryTimes, CounterValues, Texts;
    FinalizeTwo(c, t);
  }

  /** Channel-major order builds the expected channels. */
  lemma ChannelMajorBuilds(off: Offset, es: seq<Entry>)
    ensures var r := Build(off, Seed(META), CounterItems(es) + TextItems(es));
            r.Ok? && FinalizeAll(META, r.value) == Expected(es)
  {
    hide Fold, Build, CounterItems, TextItems, Project, Seed, Expected, FinalizeAll, EntryTimes, CounterValues, Texts;
    SeedTwo();
    MajorProjections(es);
    FoldFreshCounters(off, es);
    FoldTexts(off, es, [], [], None);
    var c := Fold(off, Fresh(UInt32), Project(CounterItems(es), COUNTER_CHANNEL_INDEX)).value;
    var t := Fold(off, Fresh(DataType.String), Project(TextItems(es), MESSAGE_CHANNEL_INDEX)).value;
    assert [] + EntryTimes(es) == EntryTimes(es) && [] + Texts(es) == Texts(es);
    ItemsClean(es, Seed(META).Keys);
    PerChannelBuilds(off, Seed(META), CounterItems(es) + TextItems(es),
                      map[COUNTER_CHANNEL_INDEX := c, MESSAGE_CHANNEL_INDEX := t]);
    FinalizeExpected(es, c, t);
  }

  lemma SeedTwo()
    ensures Seed(META) == map[COUNTER_CHANNEL_INDEX := Fresh(UInt32), MESSAGE_CHANNEL_INDEX := Fresh(DataType.String)]
  {
    assert META[..1] == [META[0]];
    assert META[..1][..0] == [];
    assert Seed(META[..1]) == map[COUNTER_CHANNEL_INDEX := Fresh(UInt32)];
  }

  lemma FinalizeTwo(c: Channel, t: Channel)
    requires !c.state.Dropped? && !t.state.Dropped?
    ensures FinalizeAll(META, map[COUNTER_CHANNEL_INDEX := c, MESSAGE_CHANNEL_INDEX := t])
         == [Finalize(COUNTER_CHANNEL_INDEX, c).value, Finalize(MESSAGE_CHANNEL_INDEX, t).value]
  {
    hide Finalize;
    var cs := map[COUNTER_CHANNEL_INDEX := c, MESSAGE_CHANNEL_INDEX := t];
    assert META[1..] == [META[1]];
    assert META[1..][1..] == [];
    FinalizeKept(COUNTER_CHANNEL_INDEX, c);
    FinalizeKept(MESSAGE_CHANNEL_INDEX, t);
    assert FinalizeAll(META[1..], cs) == [Finalize(MESSAGE_CHANNEL_INDEX, t).value];
  }

  lemma FinalizeKept(index: u16, c: Channel)
    requires !c.state.Dropped?
    ensures Finalize(index, c).Some?
  {
  }

  lemma {:induction false} ItemsClean(es: seq<Entry>, keys: set<u16>)
    requires COUNTER_CHANNEL_INDEX in keys && MESSAGE_CHANNEL_INDEX in keys
    ensures Clean(CounterItems(es) + TextItems(es), keys)
    decreases |es|
  {
    if es != [] {
      ItemsClean(es[1..], keys);
      assert forall r :: r in CounterItems(es[1..]) ==> r in CounterItems(es[1..]) + TextItems(es[1..]);
      assert forall r :: r in TextItems(es[1..]) ==> r in CounterItems(es[1..]) + TextItems(es[1..]);
    }
  }

  /**
   For every list of rows both files load, to the same channels: every counter
   and every text with its timestamp, in order.
   */
  lemma {:induction false} TwoEncodingsOneMeaning(off: Offset, capture: bool, es: seq<Entry>)
    requires LengthsFit(es)
    ensures Load(off, META, Osf4Config(capture), ChannelMajor(es)) == Ok(Expected(es))
    ensures Load(off, META, Osf4Config(capture), RoundRobin(es)) == Ok(Expected(es))
  {
    hide Items, Build, FinalizeAll, Expected, Project, Osf4Config;
    var (a, b) := (CounterItems(es) + TextItems(es), MixedItems(es));
    CountersRead(capture, es, Messages(es));
    MessagesRead(capture, es);
    RoundRobinReads(capture, es);
    ChannelMajorBuilds(off, es);
    forall ci: u16
      ensures Project(b, ci) == Project(a, ci)
    {
      ProjectConcat(CounterItems(es), TextItems(es), ci);
      SameProjections(es, ci);
    }
    InterleavingIndependent(off, Seed(META), a, b);
  }
}
