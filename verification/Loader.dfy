/**
 Driving the builders over a block stream (buildFromStreamImpl in manager.cpp,
 build_channels in manager.rs) and why interleaving does not matter.
 */
module Loader {
  import opened Bytes
  import opened OsfTypes
  import opened BlockStream
  import opened Builder

  /** What the metablock says of one channel, as far as the data section is concerned. */
  datatype MetaChannel = MetaChannel(index: u16, dt: DataType, sov: nat)

  type Channels = map<u16, Channel>

  predicate DistinctIndices(meta: seq<MetaChannel>) {
    forall i, j :: 0 <= i < j < |meta| ==> meta[i].index != meta[j].index
  }

  /** One fresh builder per declared index; of several channels with one index the last one counts. */
  function Seed(meta: seq<MetaChannel>): Channels {
    if meta == [] then map[]
    else
      var l := meta[|meta| - 1];
      Seed(meta[..|meta| - 1])[l.index := Fresh(l.dt)]
  }

  /** What the reader knows per index; of several channels with one index the first one counts. */
  function ReaderChannels(meta: seq<MetaChannel>): map<u16, ChannelInfo> {
    if meta == [] then map[]
    else
      var l := meta[|meta| - 1];
      var before := ReaderChannels(meta[..|meta| - 1]);
      if l.index in before then before else before[l.index := ChannelInfo(l.dt, l.sov)]
  }

  /** Feed the items in order; signature blocks carry no channel data. */
  function Build(off: Offset, cs: Channels, items: seq<Result<Block>>): Result<Channels>
    decreases |items|
  {
    if items == [] then Ok(cs)
    else
      match items[0]
      case Err(e) => Err(e)
      case Ok(b) =>
        if b.channelIndex == SIGNATURE_CHANNEL_INDEX then Build(off, cs, items[1..])
        else if b.channelIndex !in cs then Err(UnknownChannelIndex)
        else
          match Apply(off, cs[b.channelIndex], b.kind)
          case Err(e) => Err(e)
          case Ok(c) => Build(off, cs[b.channelIndex := c], items[1..])
  }

  /** A finished channel, as the data manager hands it out. */
  datatype DataChannel =
    | EquidistantChannel(index: u16, dt: DataType, samples: seq<bytes>, segments: seq<Segment>)
    | TimestampedChannel(index: u16, dt: DataType, timestamps: seq<i64>, values: seq<bytes>)
    | VariableChannel(index: u16, dt: DataType, timestamps: seq<i64>, values: seq<bytes>)

  /** The stored values, whatever the layout. */
  function StoredValues(dc: DataChannel): seq<bytes> {
    match dc
    case EquidistantChannel(_, _, samples, _) => samples
    case TimestampedChannel(_, _, _, values) => values
    case VariableChannel(_, _, _, values) => values
  }

  /** Channels with an unsupported datatype are dropped; an untouched numeric channel is an empty equidistant one. */
  function Finalize(index: u16, c: Channel): Option<DataChannel> {
    match c.state
    case Dropped => None
    case Pending => if IsFixed(c.dt) then Some(EquidistantChannel(index, c.dt, [], []))
      else Some(VariableChannel(index, c.dt, [], []))
    case Equidistant(samples, segs) => Some(EquidistantChannel(index, c.dt, samples, segs))
    case Timestamped(ts, vs) => Some(TimestampedChannel(index, c.dt, ts, vs))
    case Variable(ts, vs) => Some(VariableChannel(index, c.dt, ts, vs))
  }

  /** A later channel has the same index as the first one, and takes all its blocks. */
  predicate Shadowed(meta: seq<MetaChannel>)
    requires meta != []
  {
    exists j :: 1 <= j < |meta| && meta[j].index == meta[0].index
  }

  /** The builder of the first channel: untouched if a later one shadows it. */
  function BuilderOf(meta: seq<MetaChannel>, cs: Channels): Option<Channel>
    requires meta != []
  {
    if Shadowed(meta) then Some(Fresh(meta[0].dt))
    else if meta[0].index in cs then Some(cs[meta[0].index])
    else None
  }

  /** The channel list, in metablock order. */
  function FinalizeAll(meta: seq<MetaChannel>, cs: Channels): seq<DataChannel> {
    if meta == [] then []
    else
      var rest := FinalizeAll(meta[1..], cs);
      match BuilderOf(meta, cs)
      case None => rest
      case Some(c) => if Finalize(meta[0].index, c).None? then rest else [Finalize(meta[0].index, c).value] + rest
  }

  /** Load a data section: read it to the end, feed the builders, finalize. */
  function Load(off: Offset, meta: seq<MetaChannel>, cfg: Config, data: bytes): Result<seq<DataChannel>> {
    match Build(off, Seed(meta), Items(cfg, data))
    case Err(e) => Err(e)
    case Ok(cs) => Ok(FinalizeAll(meta, cs))
  }

  // ---------------------------------------------------------------------
  // One channel at a time.
  // ---------------------------------------------------------------------

  /** The blocks of one channel, in stream order. */
  function Project(items: seq<Result<Block>>, ci: u16): seq<BlockKind>
    decreases |items|
  {
    if items == [] then []
    else if items[0].Ok? && items[0].value.channelIndex == ci then [items[0].value.kind] + Project(items[1..], ci)
    else Project(items[1..], ci)
  }

  lemma ProjectNone(ci: u16)
    ensures Project([], ci) == []
  {
  }

  /** No errors, and every block belongs to a known channel or to the signature channel. */
  predicate Clean(items: seq<Result<Block>>, keys: set<u16>) {
    forall r :: r in items ==>
      r.Ok? && (r.value.channelIndex in keys || r.value.channelIndex == SIGNATURE_CHANNEL_INDEX)
  }

  /** `out` is what each channel's own blocks make of it. */
  ghost predicate FoldsTo(off: Offset, cs: Channels, items: seq<Result<Block>>, out: Channels) {
    && out.Keys == cs.Keys
    && forall ci :: ci in cs ==>
         if ci == SIGNATURE_CHANNEL_INDEX then out[ci] == cs[ci]
         else Fold(off, cs[ci], Project(items, ci)) == Ok(out[ci])
  }

  lemma {:induction false} BuildIsPerChannel(off: Offset, cs: Channels, items: seq<Result<Block>>)
    requires Build(off, cs, items).Ok?
    ensures Clean(items, cs.Keys)
    ensures FoldsTo(off, cs, items, Build(off, cs, items).value)
    decreases |items|
  {
    hide Apply;
    if items != [] {
      var b := items[0].value;
      var ci := b.channelIndex;
      var rest := items[1..];
      assert items == [items[0]] + rest;
      if ci == SIGNATURE_CHANNEL_INDEX {
        BuildIsPerChannel(off, cs, rest);
      } else {
        var c := Apply(off, cs[ci], b.kind).value;
        var cs' := cs[ci := c];
        assert cs'.Keys == cs.Keys;
        BuildIsPerChannel(off, cs', rest);
        var out := Build(off, cs', rest).value;
        forall k | k in cs && k != SIGNATURE_CHANNEL_INDEX
          ensures Fold(off, cs[k], Project(items, k)) == Ok(out[k])
        {
          if k == ci {
            assert Project(items, k)[1..] == Project(rest, k);
          }
        }
      }
    }
  }

  lemma {:induction false} PerChannelBuilds(off: Offset, cs: Channels, items: seq<Result<Block>>, out: Channels)
    requires Clean(items, cs.Keys) && FoldsTo(off, cs, items, out)
    ensures Build(off, cs, items) == Ok(out)
    decreases |items|
  {
    hide Apply;
    if items == [] {
      assert out == cs;
    } else {
      assert items[0] in items;
      var b := items[0].value;
      var ci := b.channelIndex;
      var rest := items[1..];
      assert Clean(rest, cs.Keys);
      if ci == SIGNATURE_CHANNEL_INDEX {
        assert forall k :: k in cs && k != ci ==> Project(items, k) == Project(rest, k);
        PerChannelBuilds(off, cs, rest, out);
      } else {
        assert Project(items, ci)[0] == b.kind && Project(items, ci)[1..] == Project(rest, ci);
        assert Fold(off, cs[ci], Project(items, ci)) == Ok(out[ci]);
        var c := Apply(off, cs[ci], b.kind).value;
        var cs' := cs[ci := c];
        assert cs'.Keys == cs.Keys;
        forall k | k in cs' && k != SIGNATURE_CHANNEL_INDEX
          ensures Fold(off, cs'[k], Project(rest, k)) == Ok(out[k])
        {
          if k != ci {
            assert Project(items, k) == Project(rest, k);
          }
        }
        PerChannelBuilds(off, cs', rest, out);
      }
    }
  }

  lemma {:induction false} ProjectFinds(items: seq<Result<Block>>, b: Block)
    requires Ok(b) in items
    ensures b.kind in Project(items, b.channelIndex)
    decreases |items|
  {
    if items[0] != Ok(b) {
      ProjectFinds(items[1..], b);
    }
  }

  lemma {:induction false} ProjectOrigin(items: seq<Result<Block>>, ci: u16)
    requires Project(items, ci) != []
    ensures exists k :: Ok(Block(ci, k)) in items
    decreases |items|
  {
    if items[0].Ok? && items[0].value.channelIndex == ci {
      assert Ok(Block(ci, items[0].value.kind)) in items;
    } else {
      ProjectOrigin(items[1..], ci);
      var k :| Ok(Block(ci, k)) in items[1..];
      assert Ok(Block(ci, k)) in items;
    }
  }

  /** If one stream builds, every stream with the same blocks per channel builds the same channels. */
  lemma {:induction false} InterleavingIndependent(off: Offset, cs: Channels, items: seq<Result<Block>>,
                                                   items': seq<Result<Block>>)
    requires Build(off, cs, items).Ok?
    requires forall r :: r in items' ==> r.Ok?
    requires forall ci :: Project(items', ci) == Project(items, ci)
    ensures Build(off, cs, items') == Build(off, cs, items)
  {
    hide Build, Project, Fold;
    BuildIsPerChannel(off, cs, items);
    forall r | r in items'
      ensures r.value.channelIndex in cs.Keys || r.value.channelIndex == SIGNATURE_CHANNEL_INDEX
    {
      ProjectFinds(items', r.value);
      var ci := r.value.channelIndex;
      assert Project(items, ci) != [];
      ProjectOrigin(items, ci);
      var k :| Ok(Block(ci, k)) in items;
      assert Ok(Block(ci, k)).value.channelIndex == ci;
    }
    PerChannelBuilds(off, cs, items', Build(off, cs, items).value);
  }

  lemma {:induction false} ProjectConcat(a: seq<Result<Block>>, b: seq<Result<Block>>, ci: u16)
    ensures Project(a + b, ci) == Project(a, ci) + Project(b, ci)
    decreases |a|
  {
    if a == [] {
      assert a + b == b;
    } else {
      assert (a + b)[1..] == a[1..] + b;
      ProjectConcat(a[1..], b, ci);
    }
  }

  lemma {:induction false} SeedAt(meta: seq<MetaChannel>, i: nat)
    requires DistinctIndices(meta) && i < |meta|
    ensures meta[i].index in Seed(meta) && Seed(meta)[meta[i].index] == Fresh(meta[i].dt)
    ensures meta[i].index in ReaderChannels(meta)
    ensures ReaderChannels(meta)[meta[i].index] == ChannelInfo(meta[i].dt, meta[i].sov)
    decreases |meta|
  {
    var front := meta[..|meta| - 1];
    if i < |meta| - 1 {
      SeedAt(front, i);
    } else {
      SeedKeys(front, meta[i].index);
    }
  }

  lemma {:induction false} SeedKeys(meta: seq<MetaChannel>, ci: u16)
    ensures ci in Seed(meta) <==> exists i :: 0 <= i < |meta| && meta[i].index == ci
    ensures ci in ReaderChannels(meta) <==> ci in Seed(meta)
    decreases |meta|
  {
    if meta != [] {
      SeedKeys(meta[..|meta| - 1], ci);
    }
  }

  /**
   Channel index 0xFFFE can be declared, but the loop passes its blocks by: the
   channel comes out untouched, whatever was stored for it. Every other channel
   comes out as its blocks make it.
   */
  lemma {:induction false} SignatureIndexIgnored(off: Offset, cs: Channels, items: seq<Result<Block>>, ci: u16)
    requires Build(off, cs, items).Ok? && ci in cs
    ensures ci in Build(off, cs, items).value
    ensures ci == SIGNATURE_CHANNEL_INDEX ==> Build(off, cs, items).value[ci] == cs[ci]
    ensures ci != SIGNATURE_CHANNEL_INDEX ==>
            Fold(off, cs[ci], Project(items, ci)) == Ok(Build(off, cs, items).value[ci])
  {
    hide Build, Fold, Project;
    BuildIsPerChannel(off, cs, items);
  }

  /** A channel whose builder was never fed is handed out without samples. */
  lemma {:induction false} UnfedIsEmpty(meta: seq<MetaChannel>, cs: Channels, d: DataChannel)
    requires d in FinalizeAll(meta, cs)
    requires d.index in cs ==> cs[d.index] == Fresh(cs[d.index].dt)
    ensures StoredValues(d) == []
    decreases |meta|
  {
    hide Shadowed;
    if d in FinalizeAll(meta[1..], cs) {
      UnfedIsEmpty(meta[1..], cs, d);
    }
  }

  /** So whatever a load hands out under index 0xFFFE is without samples. */
  lemma {:induction false} SignatureIndexIsEmpty(off: Offset, meta: seq<MetaChannel>, cfg: Config, data: bytes,
                                                 d: DataChannel)
    requires Load(off, meta, cfg, data).Ok? && d in Load(off, meta, cfg, data).value
             && d.index == SIGNATURE_CHANNEL_INDEX
    ensures StoredValues(d) == []
  {
    hide Build, Items, FinalizeAll, StoredValues, Seed, Fresh;
    var cs := Build(off, Seed(meta), Items(cfg, data)).value;
    SeedIsFresh(meta);
    if d.index in cs {
      BuildIsPerChannel(off, Seed(meta), Items(cfg, data));
      SignatureIndexIgnored(off, Seed(meta), Items(cfg, data), d.index);
      FreshHasType(Seed(meta)[d.index].dt);
    }
    UnfedIsEmpty(meta, cs, d);
  }

  lemma {:induction false} SeedIsFresh(meta: seq<MetaChannel>)
    ensures forall k :: k in Seed(meta) ==> Seed(meta)[k] == Fresh(Seed(meta)[k].dt)
    decreases |meta|
  {
    if meta != [] {
      SeedIsFresh(meta[..|meta| - 1]);
    }
  }

  lemma FreshHasType(dt: DataType)
    ensures Fresh(dt).dt == dt
  {
  }
}
