/**
 The typed payload parsers of reader.cpp as they run: a cursor moves over the
 payload and loops collect the samples. Each is proved against Payload.
 */
module PayloadReader {
  import opened Bytes
  import opened OsfTypes
  import opened Payload

  /** Position in an in-memory payload; every read either advances or reports that too little is left. */
  class PayloadCursor {
    const data: bytes
    var pos: nat

    ghost predicate Valid()
      reads this`pos
    {
      pos <= |data|
    }

    ghost function Rest(): bytes
      requires Valid()
      reads this`pos
    {
      data[pos..]
    }

    constructor (data: bytes)
      ensures Valid() && this.data == data && Rest() == data
    {
      this.data := data;
      pos := 0;
    }

    method Remaining() returns (n: nat)
      requires Valid()
      ensures n == |Rest()|
    {
      n := |data| - pos;
    }

    /** The next `size` bytes. */
    method Read(size: nat) returns (r: Option<bytes>)
      requires Valid()
      modifies this`pos
      ensures Valid()
      ensures if |old(Rest())| < size then r == None && pos == old(pos)
              else r == Some(old(Rest())[..size]) && Rest() == old(Rest())[size..]
    {
      if |data| - pos < size {
        return None;
      }
      assert data[pos..][..size] == data[pos..pos + size] && data[pos..][size..] == data[pos + size..];
      r := Some(data[pos..pos + size]);
      pos := pos + size;
    }

    method ReadU32() returns (r: Option<u32>)
      requires Valid()
      modifies this`pos
      ensures Valid()
      ensures if |old(Rest())| < 4 then r == None && pos == old(pos)
              else r == Some(UnLe(old(Rest())[..4])) && Rest() == old(Rest())[4..]
    {
      hide UnLe;
      Pow256Values();
      var b := Read(4);
      r := if b.Some? then Some(UnLe(b.value)) else None;
    }

    method ReadU64() returns (r: Option<u64>)
      requires Valid()
      modifies this`pos
      ensures Valid()
      ensures if |old(Rest())| < 8 then r == None && pos == old(pos)
              else r == Some(UnLe(old(Rest())[..8])) && Rest() == old(Rest())[8..]
    {
      hide UnLe;
      Pow256Values();
      var b := Read(8);
      r := if b.Some? then Some(UnLe(b.value)) else None;
    }

    method ReadI64() returns (r: Option<i64>)
      requires Valid()
      modifies this`pos
      ensures Valid()
      ensures if |old(Rest())| < 8 then r == None && pos == old(pos)
              else r == Some(UnLeI64(old(Rest())[..8])) && Rest() == old(Rest())[8..]
    {
      hide UnLeI64;
      var b := Read(8);
      r := if b.Some? then Some(UnLeI64(b.value)) else None;
    }

    /** One sample of a fixed-width datatype. */
    method ReadSample(dt: DataType) returns (r: Option<bytes>)
      requires Valid()
      modifies this`pos
      ensures Valid()
      ensures if |old(Rest())| < Width(dt) then r == None && pos == old(pos)
              else r == Some(ReadValue(dt, old(Rest())[..Width(dt)])) && Rest() == old(Rest())[Width(dt)..]
    {
      hide ReadValue;
      var b := Read(Width(dt));
      r := if b.Some? then Some(ReadValue(dt, b.value)) else None;
    }

    /** Implicitly one sample, or a u32 prefix. */
    method ReadSampleCount(multi: bool) returns (r: Result<nat>)
      requires Valid()
      modifies this`pos
      ensures Valid()
      ensures match SampleCount(old(Rest()), multi)
              case None => r == Err(InvalidBlock)
              case Some((n, run)) => r == Ok(n) && Rest() == run
    {
      hide UnLe;
      if !multi {
        return Ok(1);
      }
      var n := ReadU32();
      r := if n.Some? then Ok(n.value) else Err(InvalidBlock);
    }
  }

  // ---------------------------------------------------------------------
  // Runs of records.
  // ---------------------------------------------------------------------

  /** `done` records read, the outcome of the others still open. */
  function Prepend(done: seq<bytes>, rest: Option<seq<bytes>>): Option<seq<bytes>> {
    if rest.Some? then Some(done + rest.value) else None
  }

  lemma RecordsBegin(body: bytes, n: nat, size: nat)
    ensures SplitRecords(body, n, size) == Prepend([], SplitRecords(body, n, size))
  {
    var r := SplitRecords(body, n, size);
    assert r.Some? ==> [] + r.value == r.value;
  }

  /** Reading one more record keeps the outcome of the whole run. */
  lemma RecordsStep(done: seq<bytes>, body: bytes, n: nat, size: nat)
    requires n > 0
    ensures Prepend(done, SplitRecords(body, n, size))
         == if |body| < size then None else Prepend(done + [body[..size]], SplitRecords(body[size..], n - 1, size))
  {
    if |body| >= size {
      var more := SplitRecords(body[size..], n - 1, size);
      if more.Some? {
        assert done + ([body[..size]] + more.value) == (done + [body[..size]]) + more.value;
      }
    }
  }

  lemma RecordsEnd(done: seq<bytes>, body: bytes, size: nat)
    ensures Prepend(done, SplitRecords(body, 0, size)) == Some(done)
  {
    assert done + [] == done;
  }

  lemma ReadValuesAppend(dt: DataType, raws: seq<bytes>, raw: bytes)
    ensures ReadValues(dt, raws + [raw]) == ReadValues(dt, raws) + [ReadValue(dt, raw)]
  {
  }

  predicate LongerThan(raws: seq<bytes>, size: nat) {
    forall p :: p in raws ==> |p| >= size
  }

  lemma NoRecords(dt: DataType)
    ensures LongerThan([], 8) && ReadStampedAll(dt, []) == []
    ensures LongerThan([], 4) && ReadRelStampedAll(dt, []) == []
  {
  }

  lemma ReadStampedAppend(dt: DataType, raws: seq<bytes>, raw: bytes)
    requires LongerThan(raws, 8) && |raw| >= 8
    ensures LongerThan(raws + [raw], 8)
    ensures ReadStampedAll(dt, raws + [raw]) == ReadStampedAll(dt, raws) + [ReadStamped(dt, raw)]
  {
  }

  lemma ReadRelStampedAppend(dt: DataType, raws: seq<bytes>, raw: bytes)
    requires LongerThan(raws, 4) && |raw| >= 4
    ensures LongerThan(raws + [raw], 4)
    ensures ReadRelStampedAll(dt, raws + [raw]) == ReadRelStampedAll(dt, raws) + [ReadRelStamped(dt, raw)]
  {
  }

  /** A record of a stamp and a sample, read in two parts. */
  lemma StampedParts(body: bytes, dt: DataType, w: nat)
    requires |body| >= 8 + w
    ensures body[8..][w..] == body[8 + w..]
    ensures ReadStamped(dt, body[..8 + w]) == Stamped(UnLeI64(body[..8]), ReadValue(dt, body[8..][..w]))
  {
    hide UnLeI64, ReadValue;
    assert body[..8 + w][..8] == body[..8] && body[..8 + w][8..] == body[8..][..w];
  }

  lemma RelStampedParts(body: bytes, dt: DataType, w: nat)
    requires |body| >= 4 + w
    ensures body[4..][w..] == body[4 + w..]
    ensures ReadRelStamped(dt, body[..4 + w]).delta == UnLe(body[..4])
    ensures ReadRelStamped(dt, body[..4 + w]).value == ReadValue(dt, body[4..][..w])
  {
    hide UnLe, ReadValue;
    assert body[..4 + w][..4] == body[..4] && body[..4 + w][4..] == body[4..][..w];
  }

  method ReadNumericN(cur: PayloadCursor, dt: DataType, n: nat) returns (r: Result<seq<bytes>>)
    requires cur.Valid()
    modifies cur`pos
    ensures cur.Valid()
    ensures r == ParseNumericRun(old(cur.Rest()), dt, n)
  {
    hide SplitRecords, ReadValue, ReadValues, Prepend, Width, IsNumeric;
    if !IsNumeric(dt) {
      return Err(InvalidBlock);
    }
    var w := Width(dt);
    var v: seq<bytes> := [];
    ghost var raws: seq<bytes> := [];
    RecordsBegin(cur.Rest(), n, w);
    for i := 0 to n
      invariant cur.Valid() && |raws| == i && v == ReadValues(dt, raws)
      invariant Prepend(raws, SplitRecords(cur.Rest(), n - i, w)) == SplitRecords(old(cur.Rest()), n, w)
    {
      RecordsStep(raws, cur.Rest(), n - i, w);
      ghost var body := cur.Rest();
      var x := cur.ReadSample(dt);
      if x.None? {
        return Err(InvalidBlock);
      }
      ReadValuesAppend(dt, raws, body[..w]);
      v := v + [x.value];
      raws := raws + [body[..w]];
    }
    RecordsEnd(raws, cur.Rest(), w);
    r := Ok(v);
  }

  /** How a run of stamped records ends. */
  lemma StampedRunEnds(body: bytes, dt: DataType, n: nat)
    ensures !IsFixed(dt) || SplitRecords(body, n, 8 + Width(dt)).None? ==>
            ParseStampedRun(body, dt, n) == Err(InvalidBlock)
    ensures forall raws :: IsFixed(dt) && SplitRecords(body, n, 8 + Width(dt)) == Some(raws) && LongerThan(raws, 8) ==>
              ParseStampedRun(body, dt, n) == Ok(AbsTimestampData(dt, ReadStampedAll(dt, raws)))
  {
    hide SplitRecords, ReadStampedAll, IsFixed, Width;
  }

  lemma RelRunEnds(body: bytes, dt: DataType, n: nat)
    ensures !IsNumeric(dt) || SplitRecords(body, n, 4 + Width(dt)).None? ==>
            ParseRelRun(body, dt, n) == Err(InvalidBlock)
    ensures forall raws ::
              IsNumeric(dt) && SplitRecords(body, n, 4 + Width(dt)) == Some(raws) && LongerThan(raws, 4) ==>
              ParseRelRun(body, dt, n) == Ok(ContinuedRelStampData(dt, ReadRelStampedAll(dt, raws)))
  {
    hide SplitRecords, ReadRelStampedAll, IsNumeric, Width;
  }

  method ReadStampedN(cur: PayloadCursor, dt: DataType, n: nat) returns (r: Result<BlockKind>)
    requires cur.Valid()
    modifies cur`pos
    ensures cur.Valid()
    ensures r == ParseStampedRun(old(cur.Rest()), dt, n)
  {
    hide SplitRecords, ReadValue, ReadStamped, ReadStampedAll, Prepend, UnLeI64, Width, IsFixed, Pow256,
         ParseStampedRun;
    StampedRunEnds(cur.Rest(), dt, n);
    NoRecords(dt);
    if !IsFixed(dt) {
      return Err(InvalidBlock);
    }
    var w := Width(dt);
    var v: seq<Stamped> := [];
    ghost var raws: seq<bytes> := [];
    RecordsBegin(cur.Rest(), n, 8 + w);
    for i := 0 to n
      invariant cur.Valid() && |raws| == i
      invariant LongerThan(raws, 8) && v == ReadStampedAll(dt, raws)
      invariant Prepend(raws, SplitRecords(cur.Rest(), n - i, 8 + w)) == SplitRecords(old(cur.Rest()), n, 8 + w)
    {
      ghost var body := cur.Rest();
      RecordsStep(raws, body, n - i, 8 + w);
      var ts := cur.ReadI64();
      if ts.None? {
        return Err(InvalidBlock);
      }
      var x := cur.ReadSample(dt);
      if x.None? {
        return Err(InvalidBlock);
      }
      StampedParts(body, dt, w);
      ReadStampedAppend(dt, raws, body[..8 + w]);
      v := v + [Stamped(ts.value, x.value)];
      raws := raws + [body[..8 + w]];
    }
    RecordsEnd(raws, cur.Rest(), 8 + w);
    r := Ok(AbsTimestampData(dt, v));
  }

  method ReadRelStampedN(cur: PayloadCursor, dt: DataType, n: nat) returns (r: Result<BlockKind>)
    requires cur.Valid()
    modifies cur`pos
    ensures cur.Valid()
    ensures r == ParseRelRun(old(cur.Rest()), dt, n)
  {
    hide SplitRecords, ReadValue, ReadRelStamped, ReadRelStampedAll, Prepend, UnLe, Width, IsNumeric, Pow256,
         ParseRelRun;
    RelRunEnds(cur.Rest(), dt, n);
    NoRecords(dt);
    if !IsNumeric(dt) {
      return Err(InvalidBlock);
    }
    var w := Width(dt);
    var v: seq<RelStamped> := [];
    ghost var raws: seq<bytes> := [];
    RecordsBegin(cur.Rest(), n, 4 + w);
    for i := 0 to n
      invariant cur.Valid() && |raws| == i
      invariant LongerThan(raws, 4) && v == ReadRelStampedAll(dt, raws)
      invariant Prepend(raws, SplitRecords(cur.Rest(), n - i, 4 + w)) == SplitRecords(old(cur.Rest()), n, 4 + w)
    {
      ghost var body := cur.Rest();
      RecordsStep(raws, body, n - i, 4 + w);
      var delta := cur.ReadU32();
      if delta.None? {
        return Err(InvalidBlock);
      }
      var x := cur.ReadSample(dt);
      if x.None? {
        return Err(InvalidBlock);
      }
      RelStampedParts(body, dt, w);
      ReadRelStampedAppend(dt, raws, body[..4 + w]);
      v := v + [RelStamped(delta.value, x.value)];
      raws := raws + [body[..4 + w]];
    }
    RecordsEnd(raws, cur.Rest(), 4 + w);
    r := Ok(ContinuedRelStampData(dt, v));
  }

  // ---------------------------------------------------------------------
  // One parser per block type.
  // ---------------------------------------------------------------------

  /** The block's fields in the order the cursor reads them. */
  lemma StartFields(body: bytes, dt: DataType, multi: bool)
    requires |body| >= 16
    ensures |body[8..]| >= 8 && body[8..][8..] == body[16..]
    ensures UnLe(body[8..][..8]) < TWO_TO_THE_64
    ensures ParseStart(body, dt, multi)
         == if SampleCount(body[16..], multi).None? then Err(InvalidBlock)
            else StartResult(dt, UnLeI64(body[..8]), UnLe(body[8..][..8]),
                             ParseNumericRun(SampleCount(body[16..], multi).value.1, dt,
                               SampleCount(body[16..], multi).value.0))
  {
    hide UnLe, UnLeI64, ParseNumericRun, SampleCount, Pow256;
    Pow256Values();
    assert body[8..][..8] == body[8..16] && body[8..][8..] == body[16..];
  }

  function StartResult(dt: DataType, start: i64, rate: u64, samples: Result<seq<bytes>>): Result<BlockKind> {
    if samples.Err? then Err(samples.error) else Ok(StartData(dt, start, rate, samples.value))
  }

  lemma StartTooShort(body: bytes, dt: DataType, multi: bool)
    requires |body| < 16
    ensures ParseStart(body, dt, multi) == Err(InvalidBlock)
  {
  }

  method ParseStartData(body: bytes, dt: DataType, multi: bool) returns (r: Result<BlockKind>)
    ensures r == ParseStart(body, dt, multi)
  {
    hide UnLe, UnLeI64, ParseNumericRun, SampleCount, Pow256, ParseStart;
    if |body| >= 16 {
      StartFields(body, dt, multi);
    } else {
      StartTooShort(body, dt, multi);
    }
    var cur := new PayloadCursor(body);
    var ts := cur.ReadI64();
    if ts.None? {
      return Err(InvalidBlock);
    }
    var rate := cur.ReadU64();
    if rate.None? {
      return Err(InvalidBlock);
    }
    var n := cur.ReadSampleCount(multi);
    if n.Err? {
      return Err(n.error);
    }
    var samples := ReadNumericN(cur, dt, n.value);
    r := StartResult(dt, ts.value, rate.value, samples);
  }

  method ParseContinuedData(body: bytes, dt: DataType, multi: bool) returns (r: Result<BlockKind>)
    ensures r == ParseContinued(body, dt, multi)
  {
    hide ParseNumericRun, SampleCount;
    var cur := new PayloadCursor(body);
    var n := cur.ReadSampleCount(multi);
    if n.Err? {
      return Err(n.error);
    }
    var samples := ReadNumericN(cur, dt, n.value);
    r := if samples.Err? then Err(samples.error) else Ok(ContinuedData(dt, samples.value));
  }

  method ParseContinuedRelStampData(body: bytes, dt: DataType, multi: bool) returns (r: Result<BlockKind>)
    ensures r == ParseRel(body, dt, multi)
  {
    hide ParseRelRun, SampleCount;
    var cur := new PayloadCursor(body);
    var n := cur.ReadSampleCount(multi);
    if n.Err? {
      return Err(n.error);
    }
    r := ReadRelStampedN(cur, dt, n.value);
  }

  lemma SliceShift(body: bytes, shift: nat, at: nat, n: nat)
    requires shift + at + n <= |body|
    ensures body[shift..][at..at + n] == body[shift + at..shift + at + n]
  {
  }

  /** Where record `i` starts. */
  function At(i: nat, size: nat): nat {
    if i == 0 then 0 else size + At(i - 1, size)
  }

  lemma {:induction false} AtIsProduct(i: nat, size: nat)
    ensures At(i, size) == i * size
  {
    if i > 0 {
      AtIsProduct(i - 1, size);
      assert i * size == size + (i - 1) * size;
    }
  }

  lemma {:induction false} SplitHead(body: bytes, n: nat, size: nat)
    requires n > 0 && |body| >= size && SplitRecords(body[size..], n - 1, size).Some?
    ensures SplitRecords(body, n, size) == Some([body[..size]] + SplitRecords(body[size..], n - 1, size).value)
  {
  }

  lemma NoSplit(body: bytes, size: nat)
    ensures SplitRecords(body, 0, size) == Some([])
  {
  }

  lemma {:induction false} RecordAt(body: bytes, n: nat, size: nat, i: nat)
    requires |body| == At(n, size) && i < n
    ensures SplitRecords(body, n, size).Some?
    ensures At(i, size) + size <= |body|
    ensures SplitRecords(body, n, size).value[i] == body[At(i, size)..At(i, size) + size]
    decreases n
  {
    hide SplitRecords;
    if i > 0 {
      RecordAt(body[size..], n - 1, size, i - 1);
      SliceShift(body, size, At(i - 1, size), size);
    } else if n > 1 {
      RecordAt(body[size..], n - 1, size, 0);
    } else {
      NoSplit(body[size..], size);
    }
    SplitHead(body, n, size);
  }

  method ParseAbsTsStringOrBinary(body: bytes, dt: DataType, multi: bool, osf4: bool) returns (r: Result<BlockKind>)
    ensures r == ParseAbsVariable(body, dt, multi, osf4)
  {
    hide SplitRecords, ReadMessage, ReadMessages, UnLe, Normalised, Pow256;
    var n: nat, restOff: nat := 1, 0;
    if multi {
      if |body| < 4 {
        return Err(InvalidBlock);
      }
      var raw := UnLe(body[..4]);
      if raw == 0 {
        return Ok(AbsTimestampData(Normalised(dt), []));
      }
      n, restOff := raw, 4;
    }
    var rest := body[restOff..];
    assert !multi ==> rest == body;
    if n == 1 || |rest| % n != 0 {
      if |rest| < 8 {
        return Err(InvalidBlock);
      }
      return Ok(AbsTimestampData(Normalised(dt), [ReadMessage(rest, osf4)]));
    }
    var perSample := |rest| / n;
    if perSample < (if osf4 then 9 else 8) {
      return Err(InvalidBlock);
    }
    DivModUnique(|rest|, n, perSample, 0);
    assert |rest| == n * perSample;
    var v := ReadMessageLoop(rest, n, perSample, osf4);
    r := Ok(AbsTimestampData(Normalised(dt), v));
  }

  method ReadMessageLoop(rest: bytes, n: nat, perSample: nat, osf4: bool) returns (v: seq<Stamped>)
    requires n > 0 && perSample >= 8 && |rest| == n * perSample
    ensures SplitRecords(rest, n, perSample).Some?
    ensures v == ReadMessages(SplitRecords(rest, n, perSample).value, osf4)
  {
    hide SplitRecords, ReadMessage, At;
    AtIsProduct(n, perSample);
    RecordAt(rest, n, perSample, 0);
    ghost var raws := SplitRecords(rest, n, perSample).value;
    v := [];
    for i := 0 to n
      invariant |v| == i && forall j :: 0 <= j < i ==> v[j] == ReadMessage(raws[j], osf4)
    {
      AtIsProduct(i, perSample);
      RecordAt(rest, n, perSample, i);
      v := v + [ReadMessage(rest[i * perSample..i * perSample + perSample], osf4)];
    }
  }

  method ParseAbsTimestampData(body: bytes, dt: DataType, multi: bool, osf4: bool) returns (r: Result<BlockKind>)
    ensures r == ParseAbs(body, dt, multi, osf4)
  {
    hide ParseStampedRun, SampleCount, ParseAbsVariable, IsVariable;
    if IsVariable(dt) {
      r := ParseAbsTsStringOrBinary(body, dt, multi, osf4);
    } else {
      r := ParseAbsFixed(body, dt, multi, osf4);
    }
  }

  method ParseAbsFixed(body: bytes, dt: DataType, multi: bool, osf4: bool) returns (r: Result<BlockKind>)
    requires !IsVariable(dt)
    ensures r == ParseAbs(body, dt, multi, osf4)
  {
    hide ParseStampedRun, SampleCount, ParseAbsVariable, IsVariable;
    var cur := new PayloadCursor(body);
    var n := cur.ReadSampleCount(multi);
    if n.Err? {
      return Err(n.error);
    }
    r := ReadStampedN(cur, dt, n.value);
  }

  /** The event's fields in the order the cursor reads them. */
  lemma MessageFields(body: bytes, dt: DataType)
    requires IsVariable(dt) && |body| >= 12
    ensures |body[8..]| >= 4
    ensures body[8..][4..] == body[12..]
    ensures var n := UnLe(body[8..][..4]);
            ParseMessageEvent(body, dt)
            == if |body[12..]| < n then Err(InvalidBlock)
               else Ok(AbsTimestampData(Normalised(dt), [Stamped(UnLeI64(body[..8]), body[12..][..n])]))
  {
    hide UnLe, UnLeI64, IsVariable, Normalised, Pow256;
    assert body[8..][..4] == body[8..12] && body[8..][4..] == body[12..];
    var n := UnLe(body[8..12]);
    if |body| - 12 >= n {
      assert body[12..][..n] == body[12..12 + n];
    }
  }

  lemma MessageTooShort(body: bytes, dt: DataType)
    requires !IsVariable(dt) || |body| < 12
    ensures ParseMessageEvent(body, dt) == Err(InvalidBlock)
  {
  }

  method ParseMessageEventData(body: bytes, dt: DataType) returns (r: Result<BlockKind>)
    ensures r == ParseMessageEvent(body, dt)
  {
    hide UnLe, UnLeI64, IsVariable, Normalised, Pow256, ParseMessageEvent;
    if IsVariable(dt) && |body| >= 12 {
      MessageFields(body, dt);
    } else {
      MessageTooShort(body, dt);
    }
    if !IsVariable(dt) {
      return Err(InvalidBlock);
    }
    var cur := new PayloadCursor(body);
    var ts := cur.ReadI64();
    if ts.None? {
      return Err(InvalidBlock);
    }
    var n := cur.ReadU32();
    if n.None? {
      return Err(InvalidBlock);
    }
    var left := cur.Remaining();
    if left < n.value {
      return Err(InvalidBlock);
    }
    var text := cur.Read(n.value);
    r := Ok(AbsTimestampData(Normalised(dt), [Stamped(ts.value, text.value)]));
  }

  /** Decode the control byte and dispatch. */
  method RoutePayload(payload: bytes, dt: DataType, osf4: bool) returns (r: Routed)
    requires |payload| > 0
    ensures r == Route(payload, dt, osf4)
  {
    hide ParseStart, ParseContinued, ParseAbs, ParseRel, ParseMessageEvent;
    var cb := DecodeControlByte(payload[0]);
    var body := payload[1..];
    var k: Result<BlockKind>;
    match cb.kind {
      case Reserved | TimebaseRealign | Unknown => return Skip(ReservedBlockType, cb.raw);
      case TrustedTimestamp => return Skip(DeprecatedBlockType, cb.raw);
      case StatusEvent => return Skip(StatusEventBlock, cb.raw);
      case MessageEvent =>
        if cb.multi || !IsVariable(dt) {
          return Skip(ReservedBlockType, cb.raw);
        }
        k := ParseMessageEventData(body, dt);
      case Start => k := ParseStartData(body, dt, cb.multi);
      case Continued => k := ParseContinuedData(body, dt, cb.multi);
      case AbsTimeStamp => k := ParseAbsTimestampData(body, dt, cb.multi, osf4);
      case ContinuedRel => k := ParseContinuedRelStampData(body, dt, cb.multi);
    }
    r := Parsed(k);
  }
}
