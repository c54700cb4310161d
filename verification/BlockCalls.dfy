/**
 The block writer told from its calls alone: which definitions and additions it takes,
 what each channel then holds, whether the file can be written, and what it loads to.
 Stated over the list of calls, without the accumulator, and proved of it.
 */
module BlockCalls {
  import opened Bytes
  import opened OsfTypes
  import opened BlockStream
  import opened Builder
  import opened Loader
  import opened StreamingSpec
  import opened Definitions
  import opened BlockSpec
  import opened BlockRoundTrip
  import opened BlockWriters
  import opened WholeFile

  // ---------------------------------------------------------------------
  // What is taken.
  // ---------------------------------------------------------------------

  /** The definitions taken, in order. */
  function DefsTaken(cs: seq<WriterCall>): (r: seq<ChannelDef>)
    ensures |r| <= 0xFFFF
  {
    if cs == [] then []
    else
      var (front, c) := (DefsTaken(cs[..|cs| - 1]), cs[|cs| - 1]);
      if c.DefineChannel? && Takes(|front|, c.def) then front + [c.def] else front
  }

  predicate HasData(c: AddCall) {
    match c
    case AddSegment(_, _, _, _, samples) => samples != []
    case AddTimestamped(_, _, pairs) => pairs != []
    case AddMessages(_, _, pairs) => pairs != []
  }

  predicate SameSort(a: AddCall, b: AddCall) {
    (a.AddSegment? <==> b.AddSegment?) && (a.AddTimestamped? <==> b.AddTimestamped?)
  }

  /** Why an addition is refused behind the additions taken so far, if it is. */
  function Objection(defs: seq<ChannelDef>, adds: seq<AddCall>, c: AddCall): Option<Error> {
    if !HasData(c) || (c.AddSegment? && !(0 < c.rate < 0x7FF0_0000_0000_0000)) || c.ch >= |defs|
    then Some(InvalidArgument)
    else if exists a :: a in adds && a.ch == c.ch && !SameSort(a, c) then Some(InvalidBlock)
    else if defs[c.ch].dataType != c.dt then Some(DataTypeMismatch)
    else None
  }

  /** The additions taken, in order. */
  function AddsTaken(cs: seq<WriterCall>): seq<AddCall> {
    if cs == [] then []
    else
      var (front, c) := (cs[..|cs| - 1], cs[|cs| - 1]);
      AddsTaken(front)
      + if c.AddData? && Objection(DefsTaken(front), AddsTaken(front), c.call).None? then [c.call] else []
  }

  // ---------------------------------------------------------------------
  // What the additions say of a channel.
  // ---------------------------------------------------------------------

  function AddedValues(c: AddCall): seq<bytes> {
    match c
    case AddSegment(_, _, _, _, samples) => samples
    case AddTimestamped(_, _, pairs) => seq(|pairs|, i requires 0 <= i < |pairs| => pairs[i].value)
    case AddMessages(_, _, pairs) => seq(|pairs|, i requires 0 <= i < |pairs| => pairs[i].value)
  }

  function AddedTimes(c: AddCall): seq<i64> {
    match c
    case AddSegment(_, _, _, _, _) => []
    case AddTimestamped(_, _, pairs) => seq(|pairs|, i requires 0 <= i < |pairs| => pairs[i].ts)
    case AddMessages(_, _, pairs) => seq(|pairs|, i requires 0 <= i < |pairs| => pairs[i].ts)
  }

  function ValuesAdded(adds: seq<AddCall>, k: u16): seq<bytes> {
    if adds == [] then []
    else
      ValuesAdded(adds[..|adds| - 1], k)
      + if adds[|adds| - 1].ch == k then AddedValues(adds[|adds| - 1]) else []
  }

  function TimesAdded(adds: seq<AddCall>, k: u16): seq<i64> {
    if adds == [] then []
    else
      TimesAdded(adds[..|adds| - 1], k)
      + if adds[|adds| - 1].ch == k then AddedTimes(adds[|adds| - 1]) else []
  }

  /** The segments added to channel `k`, each laid where the values before it end. */
  function SegmentsAdded(adds: seq<AddCall>, k: u16): seq<Segment> {
    if adds == [] then []
    else
      var (front, a) := (adds[..|adds| - 1], adds[|adds| - 1]);
      SegmentsAdded(front, k)
      + if a.ch == k && a.AddSegment? then [Segment(a.start, a.rate, |ValuesAdded(front, k)|, |a.samples|)] else []
  }

  predicate TimestampedIn(adds: seq<AddCall>, k: u16) {
    exists a :: a in adds && a.ch == k && a.AddTimestamped?
  }

  /** The channel the additions describe. */
  function ChannelAdded(k: u16, dt: DataType, adds: seq<AddCall>): DataChannel {
    if IsVariable(dt) then VariableChannel(k, dt, TimesAdded(adds, k), ValuesAdded(adds, k))
    else if TimestampedIn(adds, k) then TimestampedChannel(k, dt, TimesAdded(adds, k), ValuesAdded(adds, k))
    else EquidistantChannel(k, dt, ValuesAdded(adds, k), SegmentsAdded(adds, k))
  }

  function ChannelsAdded(defs: seq<ChannelDef>, adds: seq<AddCall>): (r: seq<DataChannel>)
    requires |defs| <= 0xFFFF
    ensures |r| == |defs|
  {
    seq(|defs|, k requires 0 <= k < |defs| => ChannelAdded(k, defs[k].dataType, adds))
  }

  // ---------------------------------------------------------------------
  // The accumulator holds exactly that.
  // ---------------------------------------------------------------------

  function RawSegments(adds: seq<AddCall>, k: u16): seq<EqSegment> {
    if adds == [] then []
    else
      var (front, a) := (adds[..|adds| - 1], adds[|adds| - 1]);
      RawSegments(front, k) + if a.ch == k && a.AddSegment? then [EqSegment(a.start, a.rate, a.samples)] else []
  }

  predicate OnlyOf(adds: seq<AddCall>, k: u16, kind: Kind) {
    forall a :: a in adds && a.ch == k ==>
      match a
      case AddSegment(_, _, _, _, _) => kind.EquidistantKind?
      case AddTimestamped(_, _, _) => kind.TimestampedKind?
      case AddMessages(_, _, _) => kind.VariableKind?
  }

  predicate TouchedBy(adds: seq<AddCall>, k: u16) {
    exists a :: a in adds && a.ch == k
  }

  /** `cd` is channel `k` after the additions. */
  predicate Holds(adds: seq<AddCall>, k: u16, dt: DataType, cd: ChannelData) {
    && cd.dt == dt && (cd.kind.EmptyKind? <==> !TouchedBy(adds, k)) && OnlyOf(adds, k, cd.kind)
    && cd.segments == RawSegments(adds, k)
    && cd.times == TimesAdded(adds, k)
    && cd.values == if cd.kind.EquidistantKind? then [] else ValuesAdded(adds, k)
  }

  predicate InStep(integrity: IntegrityProfile, cs: seq<WriterCall>, bw: BlockFile) {
    && bw.integrity == integrity && bw.channels == DefsTaken(cs) && |bw.data| == |bw.channels|
    && forall k :: 0 <= k < |bw.data| ==> Holds(AddsTaken(cs), k, bw.channels[k].dataType, bw.data[k])
  }

  lemma TakenSnoc(cs: seq<WriterCall>, c: WriterCall)
    ensures DefsTaken(cs + [c])
         == if c.DefineChannel? && Takes(|DefsTaken(cs)|, c.def) then DefsTaken(cs) + [c.def] else DefsTaken(cs)
    ensures AddsTaken(cs + [c])
         == if c.AddData? && Objection(DefsTaken(cs), AddsTaken(cs), c.call).None? then AddsTaken(cs) + [c.call]
            else AddsTaken(cs)
  {
    hide Objection, Takes;
    assert (cs + [c])[..|cs + [c]| - 1] == cs;
  }

  lemma AddedSnoc(adds: seq<AddCall>, a: AddCall, k: u16)
    ensures ValuesAdded(adds + [a], k) == ValuesAdded(adds, k) + if a.ch == k then AddedValues(a) else []
    ensures TimesAdded(adds + [a], k) == TimesAdded(adds, k) + if a.ch == k then AddedTimes(a) else []
    ensures RawSegments(adds + [a], k)
         == RawSegments(adds, k) + if a.ch == k && a.AddSegment? then [EqSegment(a.start, a.rate, a.samples)] else []
    ensures SegmentsAdded(adds + [a], k)
         == SegmentsAdded(adds, k)
            + if a.ch == k && a.AddSegment? then [Segment(a.start, a.rate, |ValuesAdded(adds, k)|, |a.samples|)] else []
  {
    hide AddedValues, AddedTimes;
    assert (adds + [a])[..|adds + [a]| - 1] == adds;
  }

  /** Channels without additions, as those that were just defined. */
  lemma {:induction false} AddedWithin(cs: seq<WriterCall>, a: AddCall)
    requires a in AddsTaken(cs)
    ensures a.ch < |DefsTaken(cs)|
    decreases |cs|
  {
    var (front, c) := (cs[..|cs| - 1], cs[|cs| - 1]);
    if a in AddsTaken(front) {
      AddedWithin(front, a);
    }
  }

  lemma {:induction false} Untouched(adds: seq<AddCall>, k: u16, dt: DataType)
    requires !TouchedBy(adds, k)
    ensures Holds(adds, k, dt, EmptyData(dt))
    decreases |adds|
  {
    if adds != [] {
      var (front, a) := (adds[..|adds| - 1], adds[|adds| - 1]);
      assert a in adds && forall x :: x in front ==> x in adds;
      Untouched(front, k, dt);
    }
  }

  lemma DefinitionInStep(integrity: IntegrityProfile, cs: seq<WriterCall>, bw: BlockFile, def: ChannelDef)
    requires InStep(integrity, cs, bw)
    ensures AddDef(bw, def).Ok? <==> Takes(|DefsTaken(cs)|, def)
    ensures AddDef(bw, def).Err? ==> AddDef(bw, def) == Err(InvalidArgument)
    ensures InStep(integrity, cs + [DefineChannel(def)], AfterCall(bw, DefineChannel(def)))
  {
    hide Holds;
    TakenSnoc(cs, DefineChannel(def));
    if AddDef(bw, def).Ok? {
      var n := |bw.channels|;
      assert !TouchedBy(AddsTaken(cs), n) by {
        if a :| a in AddsTaken(cs) && a.ch == n {
          AddedWithin(cs, a);
        }
      }
      Untouched(AddsTaken(cs), n, def.dataType);
    }
  }

  /** The accumulator's checks find what the additions before say. */
  lemma ChecksSay(integrity: IntegrityProfile, cs: seq<WriterCall>, bw: BlockFile, c: AddCall)
    requires InStep(integrity, cs, bw)
    ensures AddError(bw.data, c) == Objection(DefsTaken(cs), AddsTaken(cs), c)
  {
    hide RawSegments, TimesAdded, ValuesAdded, AddsTaken, DefsTaken;
    if c.ch < |bw.data| {
      var (adds, cd) := (AddsTaken(cs), bw.data[c.ch]);
      if cd.kind.EmptyKind? {
        assert !TouchedBy(adds, c.ch);
      } else {
        var a :| a in adds && a.ch == c.ch;
        assert cd.kind != KindOf(c) <==> !SameSort(a, c);
      }
    }
  }

  /** A channel an addition does not concern stays as it is. */
  lemma OthersHold(adds: seq<AddCall>, a: AddCall, k: u16, dt: DataType, cd: ChannelData)
    requires Holds(adds, k, dt, cd) && a.ch != k
    ensures Holds(adds + [a], k, dt, cd)
  {
    hide ValuesAdded, TimesAdded, RawSegments, AddedValues, AddedTimes;
    AddedSnoc(adds, a, k);
    assert forall x :: x in adds + [a] && x.ch == k ==> x in adds;
    assert forall x :: x in adds ==> x in adds + [a];
    assert ValuesAdded(adds, k) + [] == ValuesAdded(adds, k) && TimesAdded(adds, k) + [] == TimesAdded(adds, k);
  }

  /** A channel's kind is that of all its additions. */
  lemma KindHolds(adds: seq<AddCall>, a: AddCall, dt: DataType, cd: ChannelData)
    requires Holds(adds, a.ch, dt, cd) && forall x :: x in adds && x.ch == a.ch ==> SameSort(x, a)
    ensures TouchedBy(adds + [a], a.ch) && OnlyOf(adds + [a], a.ch, KindOf(a))
    ensures cd.kind.EmptyKind? || cd.kind == KindOf(a)
  {
    hide ValuesAdded, TimesAdded, RawSegments;
    assert a in adds + [a];
    forall x | x in adds + [a] && x.ch == a.ch
      ensures SameSort(x, a)
    {
    }
    if !cd.kind.EmptyKind? {
      var x :| x in adds && x.ch == a.ch;
      assert SameSort(x, a);
    }
  }

  lemma SegmentHolds(adds: seq<AddCall>, a: AddCall, dt: DataType, cd: ChannelData)
    requires Holds(adds, a.ch, dt, cd) && a.AddSegment?
    requires forall x :: x in adds && x.ch == a.ch ==> SameSort(x, a)
    ensures Holds(adds + [a], a.ch, dt, Accumulate(cd, a))
  {
    hide ValuesAdded, TimesAdded, RawSegments, TouchedBy, OnlyOf, SameSort;
    KindHolds(adds, a, dt, cd);
    AddedSnoc(adds, a, a.ch);
    assert TimesAdded(adds, a.ch) + [] == TimesAdded(adds, a.ch);
    if cd.kind.EmptyKind? {
      EmptyUntouched(adds, a.ch);
    }
  }

  lemma PairsAdded(a: AddCall)
    requires !a.AddSegment?
    ensures Times(a.pairs) == AddedTimes(a) && Payloads(a.pairs) == AddedValues(a)
  {
  }

  lemma PairsHold(adds: seq<AddCall>, a: AddCall, dt: DataType, cd: ChannelData)
    requires Holds(adds, a.ch, dt, cd) && !a.AddSegment?
    requires forall x :: x in adds && x.ch == a.ch ==> SameSort(x, a)
    ensures Holds(adds + [a], a.ch, dt, Accumulate(cd, a))
  {
    hide ValuesAdded, TimesAdded, RawSegments, TouchedBy, OnlyOf, AddedTimes, AddedValues, Times, Payloads, SameSort;
    KindHolds(adds, a, dt, cd);
    AddedSnoc(adds, a, a.ch);
    PairsAdded(a);
    assert RawSegments(adds, a.ch) + [] == RawSegments(adds, a.ch);
  }

  lemma EmptyUntouched(adds: seq<AddCall>, k: u16)
    requires !TouchedBy(adds, k)
    ensures ValuesAdded(adds, k) == []
  {
    Untouched(adds, k, Bool);
  }

  lemma NoObjection(defs: seq<ChannelDef>, adds: seq<AddCall>, c: AddCall)
    requires Objection(defs, adds, c).None?
    ensures c.ch < |defs| && defs[c.ch].dataType == c.dt
    ensures forall x :: x in adds && x.ch == c.ch ==> SameSort(x, c)
  {
    hide SameSort;
  }

  /** An addition that is taken leaves every channel as the additions say. */
  lemma TakenHolds(defs: seq<ChannelDef>, adds: seq<AddCall>, data: seq<ChannelData>, c: AddCall)
    requires Objection(defs, adds, c).None? && |data| == |defs| <= 0xFFFF
    requires forall k :: 0 <= k < |data| ==> Holds(adds, k, defs[k].dataType, data[k])
    ensures c.ch < |data|
    ensures forall k :: 0 <= k < |data| ==>
              Holds(adds + [c], k, defs[k].dataType, data[c.ch := Accumulate(data[c.ch], c)][k])
  {
    hide Holds, Objection, Accumulate, SameSort;
    NoObjection(defs, adds, c);
    forall k: u16 | k < |data|
      ensures Holds(adds + [c], k, defs[k].dataType, data[c.ch := Accumulate(data[c.ch], c)][k])
    {
      if k != c.ch {
        OthersHold(adds, c, k, defs[k].dataType, data[k]);
      } else if c.AddSegment? {
        SegmentHolds(adds, c, c.dt, data[k]);
      } else {
        PairsHold(adds, c, c.dt, data[k]);
      }
    }
  }

  lemma AdditionInStep(integrity: IntegrityProfile, cs: seq<WriterCall>, bw: BlockFile, c: AddCall)
    requires InStep(integrity, cs, bw)
    ensures AddError(bw.data, c) == Objection(DefsTaken(cs), AddsTaken(cs), c)
    ensures InStep(integrity, cs + [AddData(c)], AfterCall(bw, AddData(c)))
  {
    hide Holds, Objection, Accumulate, AddsTaken, DefsTaken, AddError;
    ChecksSay(integrity, cs, bw, c);
    TakenSnoc(cs, AddData(c));
    if AddError(bw.data, c).None? {
      TakenHolds(DefsTaken(cs), AddsTaken(cs), bw.data, c);
    }
  }

  /** A new writer. */
  function NewBlockWriter(integrity: IntegrityProfile): BlockFile {
    BlockFile([], [], integrity)
  }

  lemma {:induction false} AfterSnoc(bw: BlockFile, cs: seq<WriterCall>, c: WriterCall)
    ensures AfterCalls(bw, cs + [c]) == AfterCall(AfterCalls(bw, cs), c)
  {
    hide AfterCall;
    AfterOneMore(bw, cs, c);
  }

  /**
   The block writer, exactly: after any calls it has the channels that were taken, and
   each holds, in order, exactly the segments, or the timestamps and values, of the
   additions that were taken on it.
   */
  lemma {:induction false} WriterExactly(integrity: IntegrityProfile, cs: seq<WriterCall>)
    ensures InStep(integrity, cs, AfterCalls(NewBlockWriter(integrity), cs))
    decreases |cs|
  {
    hide AfterCall, DefsTaken, AddsTaken, Holds;
    if cs == [] {
      NothingTaken();
    } else {
      hide InStep;
      var (front, c) := (cs[..|cs| - 1], cs[|cs| - 1]);
      assert cs == front + [c];
      WriterExactly(integrity, front);
      AfterSnoc(NewBlockWriter(integrity), front, c);
      match c
      case DefineChannel(def) => DefinitionInStep(integrity, front, AfterCalls(NewBlockWriter(integrity), front), def);
      case AddData(call) => AdditionInStep(integrity, front, AfterCalls(NewBlockWriter(integrity), front), call);
    }
  }

  lemma NothingTaken()
    ensures DefsTaken([]) == [] && AddsTaken([]) == []
  {
  }

  /** Acceptance, exactly: what a call returns is told by the calls before it. */
  lemma {:induction false} AnswersExactly(integrity: IntegrityProfile, before: seq<WriterCall>, def: ChannelDef,
                                          c: AddCall)
    ensures var (bw, defs) := (AfterCalls(NewBlockWriter(integrity), before), DefsTaken(before));
            && (AddDef(bw, def).Ok? <==> Takes(|defs|, def))
            && (AddDef(bw, def).Err? ==> AddDef(bw, def).error == InvalidArgument)
            && match Objection(defs, AddsTaken(before), c)
               case Some(e) => Add(bw.data, c) == (bw.data, Err(e))
               case None => Add(bw.data, c).1.Ok?
  {
    hide InStep, Objection, Takes, AddDef;
    var bw := AfterCalls(NewBlockWriter(integrity), before);
    WriterExactly(integrity, before);
    DefinitionInStep(integrity, before, bw, def);
    AdditionInStep(integrity, before, bw, c);
  }

  // ---------------------------------------------------------------------
  // The file.
  // ---------------------------------------------------------------------

  lemma {:induction false} LayoutSnoc(segs: seq<EqSegment>, s: EqSegment, from: nat)
    ensures FlatSamples(segs + [s]) == FlatSamples(segs) + s.values
    ensures Layout(segs + [s], from)
         == Layout(segs, from) + [Segment(s.start, s.rate, from + |FlatSamples(segs)|, |s.values|)]
    decreases |segs|
  {
    hide FlatSamples, Layout;
    LayoutHead(segs + [s], from);
    NothingLaid(from);
    if segs == [] {
      assert segs + [s] == [s] && [s][1..] == [];
      NothingLaid(from + |s.values|);
    } else {
      assert (segs + [s])[1..] == segs[1..] + [s];
      LayoutHead(segs, from);
      LayoutSnoc(segs[1..], s, from + |segs[0].values|);
    }
  }

  lemma {:induction false} SegmentsLaid(adds: seq<AddCall>, k: u16)
    requires OnlyOf(adds, k, EquidistantKind)
    ensures FlatSamples(RawSegments(adds, k)) == ValuesAdded(adds, k)
    ensures Layout(RawSegments(adds, k), 0) == SegmentsAdded(adds, k)
    decreases |adds|
  {
    hide FlatSamples, Layout;
    if adds == [] {
      NothingLaid(0);
    } else {
      var (front, a) := (adds[..|adds| - 1], adds[|adds| - 1]);
      assert a in adds && forall x :: x in front ==> x in adds;
      SegmentsLaid(front, k);
      AddedSnoc(front, a, k);
      assert adds == front + [a];
      if a.ch == k {
        LayoutSnoc(RawSegments(front, k), EqSegment(a.start, a.rate, a.samples), 0);
      } else {
        assert RawSegments(front, k) + [] == RawSegments(front, k);
      }
    }
  }

  lemma TimestampedSaid(adds: seq<AddCall>, k: u16, kind: Kind)
    requires OnlyOf(adds, k, kind) && (kind.EmptyKind? <==> !TouchedBy(adds, k))
    ensures TimestampedIn(adds, k) <==> kind.TimestampedKind?
  {
  }

  lemma ChannelLoaded(adds: seq<AddCall>, k: u16, dt: DataType, cd: ChannelData)
    requires Holds(adds, k, dt, cd) && ValidData(cd) && !dt.Unsupported?
    ensures LoadedChannel(k, cd) == ChannelAdded(k, dt, adds)
  {
    TimestampedSaid(adds, k, cd.kind);
    hide TimestampedIn, TouchedBy, RawSegments, TimesAdded, ValuesAdded, SegmentsAdded, FlatSamples, Layout;
    if cd.kind.EquidistantKind? {
      SegmentsLaid(adds, k);
    } else if cd.kind.EmptyKind? {
      SegmentsLaid(adds, k);
      NothingLaid(0);
    }
  }

  lemma ChannelsLoaded(integrity: IntegrityProfile, cs: seq<WriterCall>, bw: BlockFile)
    requires InStep(integrity, cs, bw) && ValidWriter(bw)
    ensures LoadedFrom(bw, 0) == ChannelsAdded(DefsTaken(cs), AddsTaken(cs))
  {
    hide Holds, AddsTaken, DefsTaken, ValidData, LoadedChannel, ChannelAdded;
    var (l, r) := (LoadedFrom(bw, 0), ChannelsAdded(DefsTaken(cs), AddsTaken(cs)));
    if bw.data != [] {
      LoadedAt(bw, 0, 0);
    }
    forall k: u16 | k < |bw.data|
      ensures k < |l| && l[k] == r[k]
    {
      LoadedAt(bw, 0, k);
      ChannelLoaded(AddsTaken(cs), k, bw.channels[k].dataType, bw.data[k]);
    }
  }

  lemma IndexTouched(integrity: IntegrityProfile, cs: seq<WriterCall>, bw: BlockFile)
    requires InStep(integrity, cs, bw)
    ensures (|bw.channels| < 0xFFFF || bw.data[0xFFFE].kind.EmptyKind?)
       <==> forall a :: a in AddsTaken(cs) ==> a.ch != SIGNATURE_CHANNEL_INDEX
  {
    hide AddsTaken, DefsTaken, RawSegments, TimesAdded, ValuesAdded, OnlyOf;
    if a :| a in AddsTaken(cs) && a.ch == SIGNATURE_CHANNEL_INDEX {
      AddedWithin(cs, a);
    }
  }

  /** The writer after some calls. */
  function After(integrity: IntegrityProfile, cs: seq<WriterCall>): (bw: BlockFile)
    ensures |bw.data| == |bw.channels| <= 0xFFFF
  {
    hide AfterCalls, DefsTaken, AddsTaken, Holds;
    WriterExactly(integrity, cs);
    AfterCalls(NewBlockWriter(integrity), cs)
  }

  /** The length field of channel `k` has four bytes in the file. */
  predicate Wide(defs: seq<ChannelDef>, adds: seq<AddCall>, k: u16)
    requires k < |defs|
  {
    defs[k].sov == 4 || (IsVariable(defs[k].dataType) && exists v :: v in ValuesAdded(adds, k) && |v| > 65526)
  }

  /** The longest string or binary the channel's frames hold. */
  function Longest(defs: seq<ChannelDef>, adds: seq<AddCall>, frameCrc: bool, k: u16): nat
    requires k < |defs|
  {
    (if Wide(defs, adds, k) then 2147482614 else 65526) - (if frameCrc then 4 else 0)
  }

  /** Every string and binary fits a frame of its channel. */
  predicate AllFitFrames(defs: seq<ChannelDef>, adds: seq<AddCall>, frameCrc: bool)
    requires |defs| <= 0xFFFF
  {
    forall k :: 0 <= k < |defs| && IsVariable(defs[k].dataType) ==>
      forall v :: v in ValuesAdded(adds, k) ==> |v| <= Longest(defs, adds, frameCrc, k)
  }

  lemma {:induction false} LargestAbove(values: seq<bytes>, n: nat)
    ensures LargestSample(values) > n <==> exists v :: v in values && |v| > n
  {
  }

  /** A channel's width in the file, and whether it can be written. */
  lemma ChannelFits(adds: seq<AddCall>, k: u16, defs: seq<ChannelDef>, cd: ChannelData, frameCrc: bool)
    requires k < |defs| && (defs[k].sov == 2 || defs[k].sov == 4) && !defs[k].dataType.Unsupported?
    requires Holds(adds, k, defs[k].dataType, cd) && ValidData(cd)
    ensures Bumped(defs[k], cd) == defs[k].(sov := if Wide(defs, adds, k) then 4 else 2)
    ensures OverCapacity(cd, Bumped(defs[k], cd).sov, frameCrc)
       <==> IsVariable(defs[k].dataType)
            && exists v :: v in ValuesAdded(adds, k) && |v| > Longest(defs, adds, frameCrc, k)
  {
    hide RawSegments, TimesAdded, ValuesAdded, LargestSample;
    LargestAbove(cd.values, 65526);
    if cd.kind.EmptyKind? {
      EmptyUntouched(adds, k);
    }
  }

  /**
   Writing, exactly: it is refused without channels or when a signature is asked for,
   then if some string or binary does not fit its channel's frames, and else it
   succeeds; a length field is widened exactly for a sample beyond 65526 bytes.
   */
  lemma {:induction false} WriteExactly(integrity: IntegrityProfile, cs: seq<WriterCall>)
    requires forall c :: c in cs ==> TypedWriterCall(c)
    ensures var (bw, defs, adds) := (After(integrity, cs), DefsTaken(cs), AddsTaken(cs));
            && bw.channels == defs && bw.integrity == integrity
            && WriteError(bw)
               == (if defs == [] || integrity.Ed25519Level? then Some(InvalidArgument)
                   else if !AllFitFrames(defs, adds, integrity.Crc32cLevel?) then Some(InvalidBlock)
                   else None)
            && forall k :: 0 <= k < |defs| ==>
                 BumpedDefs(bw)[k] == defs[k].(sov := if Wide(defs, adds, k) then 4 else 2)
  {
    hide AfterCalls, DefsTaken, AddsTaken, Holds, ValidData, Wide, Longest, ValuesAdded, OverCapacity, Bumped;
    WriterExactly(integrity, cs);
    ReachableWriterValid(NewBlockWriter(integrity), cs);
    var (bw, defs, adds) := (After(integrity, cs), DefsTaken(cs), AddsTaken(cs));
    forall k: u16 | k < |defs|
      ensures BumpedDefs(bw)[k] == defs[k].(sov := if Wide(defs, adds, k) then 4 else 2)
      ensures OverCapacity(bw.data[k], BumpedDefs(bw)[k].sov, integrity.Crc32cLevel?)
         <==> IsVariable(defs[k].dataType)
              && exists v :: v in ValuesAdded(adds, k) && |v| > Longest(defs, adds, integrity.Crc32cLevel?, k)
    {
      ChannelFits(adds, k, defs, bw.data[k], integrity.Crc32cLevel?);
    }
  }

  /**
   From calls to channels: whatever calls are made, if they leave something to write
   and it fits, the data section loads to one channel per definition taken, each with
   exactly the samples of the additions taken on it, if and only if none of these is on
   index 0xFFFE.
   */
  lemma {:induction false} BlockCallsLoad(off: Offset, integrity: IntegrityProfile, cs: seq<WriterCall>, capture: bool)
    requires (forall c :: c in cs ==> TypedWriterCall(c)) && DefsTaken(cs) != [] && !integrity.Ed25519Level?
    requires AllFitFrames(DefsTaken(cs), AddsTaken(cs), integrity.Crc32cLevel?)
    ensures var bw := After(integrity, cs);
            && ValidWriter(bw) && WriteError(bw).None?
            && (Load(off, MetaOf(BumpedDefs(bw)), ReaderOfFile(bw, capture), DataSection(bw))
                == Ok(ChannelsAdded(DefsTaken(cs), AddsTaken(cs)))
                <==> forall a :: a in AddsTaken(cs) ==> a.ch != SIGNATURE_CHANNEL_INDEX)
  {
    hide InStep, ValidWriter, Load, MetaOf, BumpedDefs, ReaderOfFile, DataSection, WriteError, AfterCalls, AddsTaken,
         DefsTaken, ChannelsAdded, LoadedFrom, AllFitFrames, Wide;
    var bw := After(integrity, cs);
    WriterExactly(integrity, cs);
    NewValid(integrity);
    ReachableWriterValid(NewBlockWriter(integrity), cs);
    WriteExactly(integrity, cs);
    ChannelsLoaded(integrity, cs, bw);
    IndexTouched(integrity, cs, bw);
    WriteLoadRoundTrip(off, bw, capture);
  }

  lemma NewValid(integrity: IntegrityProfile)
    ensures ValidWriter(NewBlockWriter(integrity))
  {
  }

  /** The channel table as the file declares it. */
  function FileDefs(defs: seq<ChannelDef>, adds: seq<AddCall>): (r: seq<ChannelDef>)
    requires |defs| <= 0xFFFF
    ensures |r| == |defs|
  {
    seq(|defs|, k requires 0 <= k < |defs| => defs[k].(sov := if Wide(defs, adds, k) then 4 else 2))
  }

  /** The same of whole files: what the calls say is what the file opens to. */
  lemma {:induction false} BlockCallsFileOpens(off: Offset, parse: MetaParser, serialize: Serializer,
                                               integrity: IntegrityProfile, cs: seq<WriterCall>)
    requires (forall c :: c in cs ==> TypedWriterCall(c)) && DefsTaken(cs) != [] && !integrity.Ed25519Level?
    requires AllFitFrames(DefsTaken(cs), AddsTaken(cs), integrity.Crc32cLevel?)
    requires var defs := FileDefs(DefsTaken(cs), AddsTaken(cs));
             |serialize(defs)| < TWO_TO_THE_64 && ReadsBack(parse, serialize(defs), defs)
    ensures var bw := After(integrity, cs);
            && ValidWriter(bw) && WriteError(bw).None?
            && BumpedDefs(bw) == FileDefs(DefsTaken(cs), AddsTaken(cs))
            && (OpenFile(off, parse, FileBytes(bw, serialize)) == Ok(ChannelsAdded(DefsTaken(cs), AddsTaken(cs)))
                <==> forall a :: a in AddsTaken(cs) ==> a.ch != SIGNATURE_CHANNEL_INDEX)
  {
    hide InStep, ValidWriter, OpenFile, FileBytes, WriteError, AfterCalls, AddsTaken, DefsTaken, ChannelsAdded,
         LoadedFrom, AllFitFrames, Wide, Bumped, ReadsBack;
    var bw := After(integrity, cs);
    WriterExactly(integrity, cs);
    NewValid(integrity);
    ReachableWriterValid(NewBlockWriter(integrity), cs);
    WriteExactly(integrity, cs);
    assert BumpedDefs(bw) == FileDefs(DefsTaken(cs), AddsTaken(cs));
    ChannelsLoaded(integrity, cs, bw);
    IndexTouched(integrity, cs, bw);
    BlockFileOpens(off, parse, serialize, bw);
  }
}
