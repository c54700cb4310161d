/**
 The payload grammar: which byte strings are which blocks. Layouts are stated byte by
 byte and without the parsers; the parsers are proved to accept exactly these strings,
 to read exactly this from them, and to skip or refuse everything else.
 */
module Grammar {
  import opened Bytes
  import opened OsfTypes
  import opened Payload
  import opened Skips

  // ---------------------------------------------------------------------
  // Layouts.
  // ---------------------------------------------------------------------

  /** The records of a run, after a u32 count if there may be several; what follows is ignored. */
  predicate RunLayout(body: bytes, multi: bool, size: nat, raws: seq<bytes>, tail: bytes) {
    && (forall r :: r in raws ==> |r| == size)
    && (if multi then |raws| < TWO_TO_THE_32 else |raws| == 1)
    && body == (if multi then Le(|raws|, 4) else []) + Join(raws) + tail
  }

  ghost predicate HasRun(body: bytes, multi: bool, size: nat, raws: seq<bytes>) {
    exists tail :: RunLayout(body, multi, size, raws, tail)
  }

  /** `v` is what is read from `raw`: the same bytes, but a bool is 0 or 1. */
  predicate Holds(dt: DataType, raw: bytes, v: bytes) {
    if dt.Bool? then |raw| == 1 && v == [if raw[0] == 0 then 0 else 1] else v == raw
  }

  predicate HoldsAll(dt: DataType, raws: seq<bytes>, vs: seq<bytes>) {
    |raws| == |vs| && forall i :: 0 <= i < |raws| ==> Holds(dt, raws[i], vs[i])
  }

  predicate HoldsStamp(dt: DataType, raw: bytes, s: Stamped) {
    |raw| >= 8 && raw[..8] == LeI64(s.ts) && Holds(dt, raw[8..], s.value)
  }

  predicate HoldsStamped(dt: DataType, raws: seq<bytes>, pairs: seq<Stamped>) {
    |raws| == |pairs| && forall i :: 0 <= i < |raws| ==> HoldsStamp(dt, raws[i], pairs[i])
  }

  predicate HoldsDelta(dt: DataType, raw: bytes, d: RelStamped) {
    |raw| >= 4 && raw[..4] == Le(d.delta, 4) && Holds(dt, raw[4..], d.value)
  }

  predicate HoldsDeltas(dt: DataType, raws: seq<bytes>, deltas: seq<RelStamped>) {
    |raws| == |deltas| && forall i :: 0 <= i < |raws| ==> HoldsDelta(dt, raws[i], deltas[i])
  }

  /** A string or binary behind its timestamp; OSF4 stores one byte more, if any. */
  predicate HoldsMessage(raw: bytes, osf4: bool, s: Stamped) {
    && |raw| >= 8 && raw[..8] == LeI64(s.ts)
    && s.value == if osf4 && |raw| > 8 then raw[8..|raw| - 1] else raw[8..]
  }

  ghost predicate NumericRun(body: bytes, multi: bool, dt: DataType, vs: seq<bytes>) {
    exists raws :: HasRun(body, multi, Width(dt), raws) && HoldsAll(dt, raws, vs)
  }

  ghost predicate StampedRun(body: bytes, multi: bool, dt: DataType, pairs: seq<Stamped>) {
    exists raws :: HasRun(body, multi, 8 + Width(dt), raws) && HoldsStamped(dt, raws, pairs)
  }

  ghost predicate DeltaRun(body: bytes, multi: bool, dt: DataType, deltas: seq<RelStamped>) {
    exists raws :: HasRun(body, multi, 4 + Width(dt), raws) && HoldsDeltas(dt, raws, deltas)
  }

  ghost predicate StartLayout(p: bytes, dt: DataType, start: i64, rate: u64, samples: seq<bytes>) {
    && |p| >= 17 && p[0] % 128 == 6 && IsNumeric(dt) && p[1..9] == LeI64(start) && p[9..17] == Le(rate, 8)
    && NumericRun(p[17..], p[0] >= 128, dt, samples)
  }

  ghost predicate ContinuedLayout(p: bytes, dt: DataType, samples: seq<bytes>) {
    && |p| >= 1 && p[0] % 128 == 5 && IsNumeric(dt)
    && NumericRun(p[1..], p[0] >= 128, dt, samples)
  }

  ghost predicate AbsoluteLayout(p: bytes, dt: DataType, pairs: seq<Stamped>) {
    && |p| >= 1 && p[0] % 128 == 8 && IsFixed(dt)
    && StampedRun(p[1..], p[0] >= 128, dt, pairs)
  }

  ghost predicate RelativeLayout(p: bytes, dt: DataType, deltas: seq<RelStamped>) {
    && |p| >= 1 && p[0] % 128 == 7 && IsNumeric(dt)
    && DeltaRun(p[1..], p[0] >= 128, dt, deltas)
  }

  /** `n` messages of one size fill the rest. */
  ghost predicate EvenLayout(rest: bytes, n: nat, osf4: bool, pairs: seq<Stamped>) {
    exists raws: seq<bytes> ::
      && |raws| == n == |pairs| && Join(raws) == rest
      && (forall r :: r in raws ==> |r| == |rest| / n && |r| >= if osf4 then 9 else 8)
      && forall i :: 0 <= i < n ==> HoldsMessage(raws[i], osf4, pairs[i])
  }

  /**
   Strings or binaries: one that fills the rest, or, after a u32 count, as many of
   one size as it says; a count that does not divide the rest counts for one.
   */
  ghost predicate MessagesLayout(p: bytes, osf4: bool, pairs: seq<Stamped>) {
    && |p| >= 1 && p[0] % 128 == 8
    && (p[0] < 128 ==> |pairs| == 1 && HoldsMessage(p[1..], osf4, pairs[0]))
    && (p[0] >= 128 ==>
          && |p| >= 5
          && var (n, rest) := (UnLe(p[1..5]), p[5..]);
             if n == 0 then pairs == []
             else if n == 1 || |rest| % n != 0 then |pairs| == 1 && HoldsMessage(rest, osf4, pairs[0])
             else EvenLayout(rest, n, osf4, pairs))
  }

  /** A message event: timestamp, u32 length, that many bytes; what follows is ignored. */
  predicate EventLayout(p: bytes, pairs: seq<Stamped>) {
    && |p| >= 13 && p[0] == 4 && |pairs| == 1 && p[1..9] == LeI64(pairs[0].ts)
    && |pairs[0].value| < TWO_TO_THE_32 && p[9..13] == Le(|pairs[0].value|, 4)
    && pairs[0].value <= p[13..]
  }

  /** Payload `p` on a channel of type `dt` is block `k`. */
  ghost predicate PayloadLayout(p: bytes, dt: DataType, osf4: bool, k: BlockKind) {
    match k
    case StartData(kdt, start, rate, samples) => kdt == dt && StartLayout(p, dt, start, rate, samples)
    case ContinuedData(kdt, samples) => kdt == dt && ContinuedLayout(p, dt, samples)
    case ContinuedRelStampData(kdt, deltas) => kdt == dt && RelativeLayout(p, dt, deltas)
    case AbsTimestampData(kdt, pairs) =>
      if IsVariable(dt) then
        kdt == (if dt.ByteArray? then Binary else dt) && (MessagesLayout(p, osf4, pairs) || EventLayout(p, pairs))
      else kdt == dt && AbsoluteLayout(p, dt, pairs)
    case Skipped(_, _, _) => false
  }

  // ---------------------------------------------------------------------
  // Runs of records.
  // ---------------------------------------------------------------------

  lemma {:induction false} SplitGives(body: bytes, n: nat, size: nat) returns (tail: bytes)
    requires SplitRecords(body, n, size).Some?
    ensures body == Join(SplitRecords(body, n, size).value) + tail
    decreases n
  {
    if n == 0 {
      tail := body;
    } else {
      tail := SplitGives(body[size..], n - 1, size);
      var raws := SplitRecords(body, n, size).value;
      assert raws[1..] == SplitRecords(body[size..], n - 1, size).value;
      assert body == raws[0] + body[size..];
      assert Join(raws) + tail == raws[0] + (Join(raws[1..]) + tail);
    }
  }

  /** The reader of counted runs finds the records exactly when the layout has them. */
  lemma {:induction false} RunExactly(body: bytes, multi: bool, size: nat, raws: seq<bytes>)
    ensures (SampleCount(body, multi).Some? &&
             SplitRecords(SampleCount(body, multi).value.1, SampleCount(body, multi).value.0, size) == Some(raws))
       <==> HasRun(body, multi, size, raws)
  {
    hide Le, UnLe, Join, SplitRecords;
    Pow256Values();
    if SampleCount(body, multi).Some? {
      var (n, run) := SampleCount(body, multi).value;
      if SplitRecords(run, n, size) == Some(raws) {
        var tail := SplitGives(run, n, size);
        if multi {
          LeOfUnLe(body[..4]);
          assert body == Le(n, 4) + run;
          assert body == Le(|raws|, 4) + Join(raws) + tail;
        }
        assert RunLayout(body, multi, size, raws, tail);
      }
    }
    if tail :| RunLayout(body, multi, size, raws, tail) {
      SplitJoined(raws, size, tail);
      if multi {
        LeRoundTrip(|raws|, 4);
        assert body[..4] == Le(|raws|, 4) && body[4..] == Join(raws) + tail;
      } else {
        assert body == Join(raws) + tail;
      }
    }
  }

  // ---------------------------------------------------------------------
  // Records.
  // ---------------------------------------------------------------------

  lemma ValuesHold(dt: DataType, raws: seq<bytes>, vs: seq<bytes>)
    requires forall r :: r in raws ==> |r| == Width(dt)
    ensures ReadValues(dt, raws) == vs <==> HoldsAll(dt, raws, vs)
  {
    assert forall i :: 0 <= i < |raws| ==> raws[i] in raws;
    if HoldsAll(dt, raws, vs) {
      assert forall i :: 0 <= i < |raws| ==> ReadValues(dt, raws)[i] == vs[i];
    }
  }

  lemma StampIs(raw: bytes, t: i64)
    requires |raw| >= 8
    ensures UnLeI64(raw[..8]) == t <==> raw[..8] == LeI64(t)
  {
    hide UnLeI64, LeI64;
    I64Canonical(raw[..8]);
    I64RoundTrip(t);
  }

  lemma WordIs(s: bytes, n: nat)
    requires n < Pow256(|s|)
    ensures UnLe(s) == n <==> s == Le(n, |s|)
  {
    hide UnLe, Le, Pow256;
    LeOfUnLe(s);
    LeRoundTrip(n, |s|);
  }

  lemma StampHolds(dt: DataType, raw: bytes, pair: Stamped)
    requires |raw| == 8 + Width(dt)
    ensures ReadStamped(dt, raw) == pair <==> HoldsStamp(dt, raw, pair)
  {
    hide UnLeI64, LeI64, UnLe, Le;
    Pow256Values();
    StampIs(raw, pair.ts);
  }

  lemma StampsHold(dt: DataType, raws: seq<bytes>, pairs: seq<Stamped>)
    requires forall r :: r in raws ==> |r| >= 8 && |r| == 8 + Width(dt)
    ensures ReadStampedAll(dt, raws) == pairs <==> HoldsStamped(dt, raws, pairs)
  {
    hide ReadStamped, HoldsStamp, Width;
    forall i | 0 <= i < |raws| && |pairs| == |raws|
      ensures ReadStampedAll(dt, raws)[i] == pairs[i] <==> HoldsStamp(dt, raws[i], pairs[i])
    {
      assert raws[i] in raws;
      StampHolds(dt, raws[i], pairs[i]);
    }
    if HoldsStamped(dt, raws, pairs) {
      assert forall i :: 0 <= i < |raws| ==> ReadStampedAll(dt, raws)[i] == pairs[i];
    }
  }

  lemma DeltaHolds(dt: DataType, raw: bytes, delta: RelStamped)
    requires |raw| == 4 + Width(dt)
    ensures ReadRelStamped(dt, raw) == delta <==> HoldsDelta(dt, raw, delta)
  {
    hide UnLeI64, LeI64, UnLe, Le;
    Pow256Values();
    WordIs(raw[..4], delta.delta);
  }

  lemma DeltasHold(dt: DataType, raws: seq<bytes>, deltas: seq<RelStamped>)
    requires forall r :: r in raws ==> |r| >= 4 && |r| == 4 + Width(dt)
    ensures ReadRelStampedAll(dt, raws) == deltas <==> HoldsDeltas(dt, raws, deltas)
  {
    hide ReadRelStamped, HoldsDelta, Width;
    forall i | 0 <= i < |raws| && |deltas| == |raws|
      ensures ReadRelStampedAll(dt, raws)[i] == deltas[i] <==> HoldsDelta(dt, raws[i], deltas[i])
    {
      assert raws[i] in raws;
      DeltaHolds(dt, raws[i], deltas[i]);
    }
    if HoldsDeltas(dt, raws, deltas) {
      assert forall i :: 0 <= i < |raws| ==> ReadRelStampedAll(dt, raws)[i] == deltas[i];
    }
  }

  lemma MessageHolds(raw: bytes, osf4: bool, s: Stamped)
    requires |raw| >= 8
    ensures ReadMessage(raw, osf4) == s <==> HoldsMessage(raw, osf4, s)
  {
    hide UnLeI64, LeI64;
    StampIs(raw, s.ts);
    assert osf4 && |raw| > 8 ==> raw[8..][..|raw| - 9] == raw[8..|raw| - 1];
  }

  // ---------------------------------------------------------------------
  // Blocks.
  // ---------------------------------------------------------------------

  /** What a counted run reads as, if it is there. */
  function RunOf(body: bytes, multi: bool, size: nat): (r: Option<seq<bytes>>)
    ensures r.Some? ==> forall raw :: raw in r.value ==> |raw| == size
  {
    match SampleCount(body, multi)
    case None => None
    case Some((n, run)) => SplitRecords(run, n, size)
  }

  lemma RunOfExactly(body: bytes, multi: bool, size: nat, raws: seq<bytes>)
    ensures RunOf(body, multi, size) == Some(raws) <==> HasRun(body, multi, size, raws)
  {
    hide HasRun, SampleCount, SplitRecords;
    RunExactly(body, multi, size, raws);
  }

  lemma NumericRunExactly(body: bytes, multi: bool, dt: DataType, vs: seq<bytes>)
    ensures var r := RunOf(body, multi, Width(dt));
            (r.Some? && ReadValues(dt, r.value) == vs) <==> NumericRun(body, multi, dt, vs)
  {
    hide RunOf, HasRun, ReadValues, HoldsAll, Width;
    var r := RunOf(body, multi, Width(dt));
    if r.Some? && ReadValues(dt, r.value) == vs {
      RunOfExactly(body, multi, Width(dt), r.value);
      ValuesHold(dt, r.value, vs);
    }
    if NumericRun(body, multi, dt, vs) {
      var raws :| HasRun(body, multi, Width(dt), raws) && HoldsAll(dt, raws, vs);
      RunOfExactly(body, multi, Width(dt), raws);
      ValuesHold(dt, raws, vs);
    }
  }

  lemma StampedRunExactly(body: bytes, multi: bool, dt: DataType, pairs: seq<Stamped>)
    ensures var r := RunOf(body, multi, 8 + Width(dt));
            (r.Some? && ReadStampedAll(dt, r.value) == pairs) <==> StampedRun(body, multi, dt, pairs)
  {
    hide RunOf, HasRun, ReadStampedAll, HoldsStamped, Width;
    var r := RunOf(body, multi, 8 + Width(dt));
    if r.Some? && ReadStampedAll(dt, r.value) == pairs {
      RunOfExactly(body, multi, 8 + Width(dt), r.value);
      StampsHold(dt, r.value, pairs);
    }
    if StampedRun(body, multi, dt, pairs) {
      var raws :| HasRun(body, multi, 8 + Width(dt), raws) && HoldsStamped(dt, raws, pairs);
      RunOfExactly(body, multi, 8 + Width(dt), raws);
      StampsHold(dt, raws, pairs);
    }
  }

  lemma DeltaRunExactly(body: bytes, multi: bool, dt: DataType, deltas: seq<RelStamped>)
    ensures var r := RunOf(body, multi, 4 + Width(dt));
            (r.Some? && ReadRelStampedAll(dt, r.value) == deltas) <==> DeltaRun(body, multi, dt, deltas)
  {
    hide RunOf, HasRun, ReadRelStampedAll, HoldsDeltas, Width;
    var r := RunOf(body, multi, 4 + Width(dt));
    if r.Some? && ReadRelStampedAll(dt, r.value) == deltas {
      RunOfExactly(body, multi, 4 + Width(dt), r.value);
      DeltasHold(dt, r.value, deltas);
    }
    if DeltaRun(body, multi, dt, deltas) {
      var raws :| HasRun(body, multi, 4 + Width(dt), raws) && HoldsDeltas(dt, raws, deltas);
      RunOfExactly(body, multi, 4 + Width(dt), raws);
      DeltasHold(dt, raws, deltas);
    }
  }

  lemma StartParts(p: bytes, dt: DataType)
    requires |p| >= 17
    ensures ParseStart(p[1..], dt, p[0] >= 128).Ok?
       <==> IsNumeric(dt) && RunOf(p[17..], p[0] >= 128, Width(dt)).Some?
    ensures UnLe(p[9..17]) < Pow256(8) == TWO_TO_THE_64
    ensures ParseStart(p[1..], dt, p[0] >= 128).Ok? ==>
      ParseStart(p[1..], dt, p[0] >= 128).value
      == StartData(dt, UnLeI64(p[1..9]), UnLe(p[9..17]), ReadValues(dt, RunOf(p[17..], p[0] >= 128, Width(dt)).value))
  {
    hide UnLeI64, UnLe, SampleCount, SplitRecords, ReadValues, IsNumeric, Width;
    Pow256Values();
    var body := p[1..];
    assert body[..8] == p[1..9];
    assert body[8..16] == p[9..17];
    assert body[16..] == p[17..];
  }

  lemma StartExactly(p: bytes, dt: DataType, k: BlockKind)
    requires |p| >= 1 && p[0] % 128 == 6
    ensures ParseStart(p[1..], dt, p[0] >= 128) == Ok(k)
       <==> k.StartData? && k.dt == dt && StartLayout(p, dt, k.start, k.rate, k.samples)
  {
    hide UnLeI64, LeI64, UnLe, Le, NumericRun, RunOf, ReadValues, IsNumeric, Width;
    if |p| >= 17 {
      StartParts(p, dt);
      if k.StartData? {
        hide ParseStart;
        StampIs(p[1..], k.start);
        assert p[1..][..8] == p[1..9];
        WordIs(p[9..17], k.rate);
        NumericRunExactly(p[17..], p[0] >= 128, dt, k.samples);
      }
    }
  }

  lemma ContinuedExactly(p: bytes, dt: DataType, k: BlockKind)
    requires |p| >= 1 && p[0] % 128 == 5
    ensures ParseContinued(p[1..], dt, p[0] >= 128) == Ok(k)
       <==> k.ContinuedData? && k.dt == dt && ContinuedLayout(p, dt, k.samples)
  {
    hide NumericRun, SampleCount, SplitRecords, ReadValues, IsNumeric, Width;
    if k.ContinuedData? {
      NumericRunExactly(p[1..], p[0] >= 128, dt, k.samples);
    }
  }

  lemma AbsoluteExactly(p: bytes, dt: DataType, osf4: bool, k: BlockKind)
    requires |p| >= 1 && p[0] % 128 == 8 && !IsVariable(dt)
    ensures ParseAbs(p[1..], dt, p[0] >= 128, osf4) == Ok(k)
       <==> k.AbsTimestampData? && k.dt == dt && AbsoluteLayout(p, dt, k.pairs)
  {
    hide StampedRun, SampleCount, SplitRecords, ReadStampedAll, IsFixed, Width, ParseAbsVariable;
    if k.AbsTimestampData? {
      StampedRunExactly(p[1..], p[0] >= 128, dt, k.pairs);
    }
  }

  lemma RelativeExactly(p: bytes, dt: DataType, k: BlockKind)
    requires |p| >= 1 && p[0] % 128 == 7
    ensures ParseRel(p[1..], dt, p[0] >= 128) == Ok(k)
       <==> k.ContinuedRelStampData? && k.dt == dt && RelativeLayout(p, dt, k.deltas)
  {
    hide DeltaRun, SampleCount, SplitRecords, ReadRelStampedAll, IsNumeric, Width;
    if k.ContinuedRelStampData? {
      DeltaRunExactly(p[1..], p[0] >= 128, dt, k.deltas);
    }
  }

  /** The records of a message block of `n` messages, if it has the shape. */
  function EvenRecords(rest: bytes, n: nat, osf4: bool): (r: Option<seq<bytes>>)
    requires n > 0
    ensures r.Some? ==> |r.value| == n && forall raw :: raw in r.value ==> |raw| >= 8
  {
    if |rest| / n < (if osf4 then 9 else 8) then None else SplitRecords(rest, n, |rest| / n)
  }

  lemma EvenReads(rest: bytes, n: nat, osf4: bool, pairs: seq<Stamped>)
    requires n > 0 && |rest| % n == 0 && EvenRecords(rest, n, osf4).Some?
    requires ReadMessages(EvenRecords(rest, n, osf4).value, osf4) == pairs
    ensures EvenLayout(rest, n, osf4, pairs)
  {
    hide Join, SplitRecords, ReadMessage, HoldsMessage;
    var size := |rest| / n;
    var raws := EvenRecords(rest, n, osf4).value;
    var tail := SplitGives(rest, n, size);
    JoinLength(raws, size);
    assert |rest| == n * size;
    assert tail == [];
    assert Join(raws) + [] == Join(raws);
    forall i | 0 <= i < n
      ensures HoldsMessage(raws[i], osf4, pairs[i])
    {
      assert raws[i] in raws;
      MessageHolds(raws[i], osf4, pairs[i]);
    }
  }

  lemma EvenLaid(rest: bytes, n: nat, osf4: bool, pairs: seq<Stamped>)
    requires n > 0 && |rest| % n == 0 && EvenLayout(rest, n, osf4, pairs)
    ensures EvenRecords(rest, n, osf4).Some? && ReadMessages(EvenRecords(rest, n, osf4).value, osf4) == pairs
  {
    hide Join, SplitRecords, ReadMessage, HoldsMessage;
    var size := |rest| / n;
    var raws: seq<bytes> :| && |raws| == n == |pairs| && Join(raws) == rest
                            && (forall r :: r in raws ==> |r| == size && |r| >= if osf4 then 9 else 8)
                            && forall i :: 0 <= i < n ==> HoldsMessage(raws[i], osf4, pairs[i]);
    SplitJoined(raws, size, []);
    assert Join(raws) + [] == rest;
    assert raws[0] in raws;
    forall i | 0 <= i < n
      ensures ReadMessage(raws[i], osf4) == pairs[i]
    {
      assert raws[i] in raws;
      MessageHolds(raws[i], osf4, pairs[i]);
    }
    assert ReadMessages(raws, osf4) == pairs;
  }

  /** Messages of one size. */
  lemma EvenExactly(rest: bytes, n: nat, osf4: bool, pairs: seq<Stamped>)
    requires n > 0 && |rest| % n == 0
    ensures (EvenRecords(rest, n, osf4).Some? && ReadMessages(EvenRecords(rest, n, osf4).value, osf4) == pairs)
       <==> EvenLayout(rest, n, osf4, pairs)
  {
    hide EvenRecords, ReadMessages, EvenLayout;
    if EvenLayout(rest, n, osf4, pairs) {
      EvenLaid(rest, n, osf4, pairs);
    } else if EvenRecords(rest, n, osf4).Some? && ReadMessages(EvenRecords(rest, n, osf4).value, osf4) == pairs {
      EvenReads(rest, n, osf4, pairs);
    }
  }

  lemma OneExactly(rest: bytes, dt: DataType, osf4: bool, k: BlockKind)
    ensures ParseOneMessage(rest, dt, osf4) == Ok(k)
       <==> k.AbsTimestampData? && k.dt == Normalised(dt) && |k.pairs| == 1 && HoldsMessage(rest, osf4, k.pairs[0])
  {
    hide ReadMessage, Normalised;
    if |rest| >= 8 {
      if k.AbsTimestampData? && |k.pairs| == 1 {
        assert k.pairs == [k.pairs[0]];
        MessageHolds(rest, osf4, k.pairs[0]);
      }
    }
  }

  lemma MessagesExactly(p: bytes, dt: DataType, osf4: bool, k: BlockKind)
    requires |p| >= 1 && p[0] % 128 == 8
    ensures ParseAbsVariable(p[1..], dt, p[0] >= 128, osf4) == Ok(k)
       <==> k.AbsTimestampData? && k.dt == Normalised(dt) && MessagesLayout(p, osf4, k.pairs)
  {
    hide UnLe, SplitRecords, ReadMessage, HoldsMessage, EvenLayout, Normalised, ParseOneMessage;
    if p[0] < 128 {
      OneExactly(p[1..], dt, osf4, k);
    } else if |p| >= 5 {
      assert p[1..][..4] == p[1..5] && p[1..][4..] == p[5..];
      var (n, rest) := (UnLe(p[1..5]), p[5..]);
      OneExactly(rest, dt, osf4, k);
      if n > 1 && |rest| % n == 0 && k.AbsTimestampData? {
        EvenExactly(rest, n, osf4, k.pairs);
      }
    }
  }

  lemma EventParts(p: bytes, dt: DataType)
    requires |p| >= 13 && IsVariable(dt)
    ensures UnLe(p[9..13]) < Pow256(4) == TWO_TO_THE_32
    ensures ParseMessageEvent(p[1..], dt).Ok? <==> UnLe(p[9..13]) <= |p| - 13
    ensures ParseMessageEvent(p[1..], dt).Ok? ==>
      ParseMessageEvent(p[1..], dt).value
      == AbsTimestampData(Normalised(dt), [Stamped(UnLeI64(p[1..9]), p[13..][..UnLe(p[9..13])])])
  {
    hide UnLeI64, UnLe, Normalised;
    Pow256Values();
    var body := p[1..];
    assert body[..8] == p[1..9];
    assert body[8..12] == p[9..13];
    var n := UnLe(body[8..12]);
    assert n <= |body| - 12 ==> body[12..12 + n] == p[13..][..n];
  }

  lemma EventExactly(p: bytes, dt: DataType, k: BlockKind)
    requires |p| >= 1 && p[0] == 4 && IsVariable(dt)
    ensures ParseMessageEvent(p[1..], dt) == Ok(k)
       <==> k.AbsTimestampData? && k.dt == Normalised(dt) && EventLayout(p, k.pairs)
  {
    hide UnLe, Le, UnLeI64, LeI64, Normalised;
    if |p| >= 13 {
      EventParts(p, dt);
      if k.AbsTimestampData? && |k.pairs| == 1 {
        hide ParseMessageEvent;
        var s := k.pairs[0];
        assert k.pairs == [s];
        StampIs(p[1..], s.ts);
        assert p[1..][..8] == p[1..9];
        if |s.value| < TWO_TO_THE_32 {
          WordIs(p[9..13], |s.value|);
        }
        assert s.value <= p[13..] ==> s.value == p[13..][..|s.value|];
      }
    }
  }

  // ---------------------------------------------------------------------
  // The route, exactly.
  // ---------------------------------------------------------------------

  /** The only error the parsers know. */
  predicate OnlyInvalid(r: Result<BlockKind>) {
    r.Ok? || r == Err(InvalidBlock)
  }

  lemma RunErrors(body: bytes, dt: DataType, multi: bool)
    ensures OnlyInvalid(ParseStart(body, dt, multi)) && OnlyInvalid(ParseContinued(body, dt, multi))
    ensures OnlyInvalid(ParseRel(body, dt, multi))
  {
    hide UnLe, UnLeI64, SplitRecords, IsNumeric, Width, ReadValues, ReadRelStampedAll;
  }

  lemma AbsoluteErrors(body: bytes, dt: DataType, multi: bool, osf4: bool)
    ensures OnlyInvalid(ParseAbs(body, dt, multi, osf4)) && OnlyInvalid(ParseMessageEvent(body, dt))
  {
    hide UnLe, UnLeI64, SplitRecords, IsFixed, IsVariable, Width, ReadStampedAll, ReadMessages, ReadMessage, Normalised;
  }

  /** Where each control byte goes. */
  lemma RouteGoes(p: bytes, dt: DataType, osf4: bool)
    requires |p| >= 1
    ensures var (skip, code, multi) := (SkipOf(p[0] % 128, p[0] >= 128, dt), p[0] % 128, p[0] >= 128);
            Route(p, dt, osf4)
            == if skip.Some? then Skip(skip.value, code)
               else if code == 6 then Parsed(ParseStart(p[1..], dt, multi))
               else if code == 5 then Parsed(ParseContinued(p[1..], dt, multi))
               else if code == 7 then Parsed(ParseRel(p[1..], dt, multi))
               else if code == 8 then Parsed(ParseAbs(p[1..], dt, multi, osf4))
               else Parsed(ParseMessageEvent(p[1..], dt))
    ensures SkipOf(p[0] % 128, p[0] >= 128, dt).None? ==>
            5 <= p[0] % 128 <= 8 || (p[0] == 4 && IsVariable(dt))
  {
    hide ParseStart, ParseContinued, ParseAbs, ParseRel, ParseMessageEvent, IsVariable;
  }

  /** The one layout that can match a control byte. */
  ghost predicate LayoutOfCode(p: bytes, dt: DataType, osf4: bool, k: BlockKind, code: nat) {
    if code == 6 then k.StartData? && k.dt == dt && StartLayout(p, dt, k.start, k.rate, k.samples)
    else if code == 5 then k.ContinuedData? && k.dt == dt && ContinuedLayout(p, dt, k.samples)
    else if code == 7 then k.ContinuedRelStampData? && k.dt == dt && RelativeLayout(p, dt, k.deltas)
    else if code == 8 && IsVariable(dt) then
      k.AbsTimestampData? && k.dt == Normalised(dt) && MessagesLayout(p, osf4, k.pairs)
    else if code == 8 then k.AbsTimestampData? && k.dt == dt && AbsoluteLayout(p, dt, k.pairs)
    else IsVariable(dt) && k.AbsTimestampData? && k.dt == Normalised(dt) && EventLayout(p, k.pairs)
  }

  lemma LayoutByCode(p: bytes, dt: DataType, osf4: bool, k: BlockKind)
    requires |p| >= 1
    ensures PayloadLayout(p, dt, osf4, k) <==> LayoutOfCode(p, dt, osf4, k, p[0] % 128)
  {
    hide NumericRun, StampedRun, DeltaRun, HoldsMessage, EvenLayout, LeI64, Le, UnLe, Width, IsNumeric;
  }

  /**
   Every payload, exactly: it is skipped if and only if its control byte says so, it
   is read as a block if and only if it is laid out as that block, whatever the file's
   version where the layout does not depend on it, and everything else is an error.
   */
  lemma {:induction false} RouteExactly(p: bytes, dt: DataType, osf4: bool, k: BlockKind)
    requires |p| >= 1
    ensures Route(p, dt, osf4) == Parsed(Ok(k)) <==> PayloadLayout(p, dt, osf4, k)
    ensures var skip := SkipOf(p[0] % 128, p[0] >= 128, dt);
            if skip.Some? then Route(p, dt, osf4) == Skip(skip.value, p[0] % 128) else Route(p, dt, osf4).Parsed?
    ensures Route(p, dt, osf4).Parsed? ==> OnlyInvalid(Route(p, dt, osf4).result)
  {
    hide Route, PayloadLayout, ParseStart, ParseContinued, ParseAbsVariable, ParseRel, ParseMessageEvent, StartLayout,
         ContinuedLayout, RelativeLayout, AbsoluteLayout, MessagesLayout, EventLayout, IsVariable, Normalised,
         OnlyInvalid, SampleCount, ParseStampedRun;
    RouteGoes(p, dt, osf4);
    LayoutByCode(p, dt, osf4, k);
    RunErrors(p[1..], dt, p[0] >= 128);
    AbsoluteErrors(p[1..], dt, p[0] >= 128, osf4);
    var code := p[0] % 128;
    if code == 6 {
      StartExactly(p, dt, k);
    } else if code == 5 {
      ContinuedExactly(p, dt, k);
    } else if code == 7 {
      RelativeExactly(p, dt, k);
    } else if code == 8 && IsVariable(dt) {
      MessagesExactly(p, dt, osf4, k);
    } else if code == 8 {
      AbsoluteExactly(p, dt, osf4, k);
    } else if p[0] == 4 && IsVariable(dt) {
      EventExactly(p, dt, k);
    } else if p[0] != 4 {
      NoLayout(p, dt, k);
    }
  }

  lemma NoLayout(p: bytes, dt: DataType, k: BlockKind)
    requires |p| >= 1 && p[0] != 4
    ensures k.AbsTimestampData? ==> !EventLayout(p, k.pairs)
  {
    hide LeI64, Le;
  }
}
