/**
 Block payloads: what each control byte's body means (the typed parsers of
 reader.cpp) and how the writers lay it out (blockencode.cpp).
 */
module Payload {
  import opened Bytes
  import opened OsfTypes

  // ---------------------------------------------------------------------
  // Parsing.
  // ---------------------------------------------------------------------

  datatype ControlKind =
    | Reserved | TrustedTimestamp | TimebaseRealign | StatusEvent | MessageEvent
    | Continued | Start | ContinuedRel | AbsTimeStamp | Unknown

  datatype ControlByte = ControlByte(kind: ControlKind, multi: bool, raw: nat)

  function DecodeControlByte(b: byte): ControlByte {
    var raw := b % 128;
    var kind :=
      match raw
      case 0 => Reserved
      case 1 => TrustedTimestamp
      case 2 => TimebaseRealign
      case 3 => StatusEvent
      case 4 => MessageEvent
      case 5 => Continued
      case 6 => Start
      case 7 => ContinuedRel
      case 8 => AbsTimeStamp
      case _ => Unknown;
    ControlByte(kind, b >= 128, raw)
  }

  /** The first `n` records of `size` bytes each, if there are that many. */
  function SplitRecords(body: bytes, n: nat, size: nat): (r: Option<seq<bytes>>)
    ensures r.Some? ==> |r.value| == n && forall p :: p in r.value ==> |p| == size
    decreases n
  {
    if n == 0 then Some([])
    else if |body| < size then None
    else
      var rest := SplitRecords(body[size..], n - 1, size);
      if rest.None? then None else Some([body[..size]] + rest.value)
  }

  /** A stored sample as the typed readers return it: any nonzero bool is true. */
  function ReadValue(dt: DataType, raw: bytes): bytes {
    if dt.Bool? && |raw| == 1 then [if raw[0] != 0 then 1 else 0] else raw
  }

  function ReadStamped(dt: DataType, raw: bytes): Stamped
    requires |raw| >= 8
  {
    Stamped(UnLeI64(raw[..8]), ReadValue(dt, raw[8..]))
  }

  function ReadRelStamped(dt: DataType, raw: bytes): RelStamped
    requires |raw| >= 4
  {
    Pow256Values();
    RelStamped(UnLe(raw[..4]), ReadValue(dt, raw[4..]))
  }

  function ReadValues(dt: DataType, raws: seq<bytes>): (vs: seq<bytes>)
    ensures |vs| == |raws|
  {
    seq(|raws|, i requires 0 <= i < |raws| => ReadValue(dt, raws[i]))
  }

  function ReadStampedAll(dt: DataType, raws: seq<bytes>): (vs: seq<Stamped>)
    requires forall p :: p in raws ==> |p| >= 8
    ensures |vs| == |raws|
  {
    seq(|raws|, i requires 0 <= i < |raws| => ReadStamped(dt, raws[i]))
  }

  function ReadRelStampedAll(dt: DataType, raws: seq<bytes>): (vs: seq<RelStamped>)
    requires forall p :: p in raws ==> |p| >= 4
    ensures |vs| == |raws|
  {
    seq(|raws|, i requires 0 <= i < |raws| => ReadRelStamped(dt, raws[i]))
  }

  /** The sample count and what follows it: implicitly one, or a u32 prefix. */
  function SampleCount(body: bytes, multi: bool): Option<(nat, bytes)> {
    if !multi then Some((1, body))
    else if |body| < 4 then None
    else Some((UnLe(body[..4]), body[4..]))
  }

  function ParseNumericRun(body: bytes, dt: DataType, n: nat): Result<seq<bytes>> {
    if !IsNumeric(dt) then Err(InvalidBlock)
    else
      match SplitRecords(body, n, Width(dt))
      case None => Err(InvalidBlock)
      case Some(raws) => Ok(ReadValues(dt, raws))
  }

  /** `n` samples with an absolute timestamp each. */
  function ParseStampedRun(body: bytes, dt: DataType, n: nat): Result<BlockKind> {
    if !IsFixed(dt) then Err(InvalidBlock)
    else
      match SplitRecords(body, n, 8 + Width(dt))
      case None => Err(InvalidBlock)
      case Some(raws) => Ok(AbsTimestampData(dt, ReadStampedAll(dt, raws)))
  }

  /** `n` samples with a delta to the timestamp before. */
  function ParseRelRun(body: bytes, dt: DataType, n: nat): Result<BlockKind> {
    if !IsNumeric(dt) then Err(InvalidBlock)
    else
      match SplitRecords(body, n, 4 + Width(dt))
      case None => Err(InvalidBlock)
      case Some(raws) => Ok(ContinuedRelStampData(dt, ReadRelStampedAll(dt, raws)))
  }

  function ParseStart(body: bytes, dt: DataType, multi: bool): Result<BlockKind> {
    if |body| < 16 then Err(InvalidBlock)
    else
      Pow256Values();
      var start := UnLeI64(body[..8]);
      var rate: u64 := UnLe(body[8..16]);
      match SampleCount(body[16..], multi)
      case None => Err(InvalidBlock)
      case Some((n, run)) =>
        match ParseNumericRun(run, dt, n)
        case Err(e) => Err(e)
        case Ok(samples) => Ok(StartData(dt, start, rate, samples))
  }

  function ParseContinued(body: bytes, dt: DataType, multi: bool): Result<BlockKind> {
    match SampleCount(body, multi)
    case None => Err(InvalidBlock)
    case Some((n, run)) =>
      match ParseNumericRun(run, dt, n)
      case Err(e) => Err(e)
      case Ok(samples) => Ok(ContinuedData(dt, samples))
  }

  function ParseRel(body: bytes, dt: DataType, multi: bool): Result<BlockKind> {
    match SampleCount(body, multi)
    case None => Err(InvalidBlock)
    case Some((n, run)) => ParseRelRun(run, dt, n)
  }

  /** The payload datatype a channel's declared datatype decodes to. */
  function Normalised(dt: DataType): DataType {
    if dt.ByteArray? then Binary else dt
  }

  /** OSF4 drops the last byte of every string or binary payload, whatever it is; OSF5 keeps all. */
  function StripTerminator(s: bytes, osf4: bool): bytes {
    if osf4 && |s| > 0 then s[..|s| - 1] else s
  }

  function ReadMessage(raw: bytes, osf4: bool): Stamped
    requires |raw| >= 8
  {
    Stamped(UnLeI64(raw[..8]), StripTerminator(raw[8..], osf4))
  }

  function ReadMessages(raws: seq<bytes>, osf4: bool): (vs: seq<Stamped>)
    requires forall p :: p in raws ==> |p| >= 8
    ensures |vs| == |raws|
  {
    seq(|raws|, i requires 0 <= i < |raws| => ReadMessage(raws[i], osf4))
  }

  /** A single time-stamped string or binary that fills the rest of the body. */
  function ParseOneMessage(rest: bytes, dt: DataType, osf4: bool): Result<BlockKind> {
    if |rest| < 8 then Err(InvalidBlock)
    else Ok(AbsTimestampData(Normalised(dt), [ReadMessage(rest, osf4)]))
  }

  function ParseAbsVariable(body: bytes, dt: DataType, multi: bool, osf4: bool): Result<BlockKind> {
    if multi && |body| < 4 then Err(InvalidBlock)
    else
      var n := if multi then UnLe(body[..4]) else 1;
      var rest := if multi then body[4..] else body;
      if n == 0 then Ok(AbsTimestampData(Normalised(dt), []))
      else if n == 1 || |rest| % n != 0 then ParseOneMessage(rest, dt, osf4)
      else
        var perSample := |rest| / n;
        if perSample < (if osf4 then 9 else 8) then Err(InvalidBlock)
        else
          match SplitRecords(rest, n, perSample)
          case None => Err(InvalidBlock)
          case Some(raws) => Ok(AbsTimestampData(Normalised(dt), ReadMessages(raws, osf4)))
  }

  function ParseAbs(body: bytes, dt: DataType, multi: bool, osf4: bool): Result<BlockKind> {
    if IsVariable(dt) then ParseAbsVariable(body, dt, multi, osf4)
    else
      match SampleCount(body, multi)
      case None => Err(InvalidBlock)
      case Some((n, run)) => ParseStampedRun(run, dt, n)
  }

  /** bcMessageEvent: length-prefixed, no terminator, surplus bytes ignored. */
  function ParseMessageEvent(body: bytes, dt: DataType): Result<BlockKind> {
    if !IsVariable(dt) || |body| < 12 then Err(InvalidBlock)
    else
      var n := UnLe(body[8..12]);
      if |body| - 12 < n then Err(InvalidBlock)
      else Ok(AbsTimestampData(Normalised(dt), [Stamped(UnLeI64(body[..8]), body[12..12 + n])]))
  }

  datatype Routed = Skip(kind: SkipKind, raw: nat) | Parsed(result: Result<BlockKind>)

  /** Route a non-empty payload by its control byte. */
  function Route(payload: bytes, dt: DataType, osf4: bool): Routed
    requires |payload| > 0
  {
    var cb := DecodeControlByte(payload[0]);
    var body := payload[1..];
    match cb.kind
    case Reserved | TimebaseRealign | Unknown => Skip(ReservedBlockType, cb.raw)
    case TrustedTimestamp => Skip(DeprecatedBlockType, cb.raw)
    case StatusEvent => Skip(StatusEventBlock, cb.raw)
    case MessageEvent =>
      if cb.multi || !IsVariable(dt) then Skip(ReservedBlockType, cb.raw)
      else Parsed(ParseMessageEvent(body, dt))
    case Start => Parsed(ParseStart(body, dt, cb.multi))
    case Continued => Parsed(ParseContinued(body, dt, cb.multi))
    case AbsTimeStamp => Parsed(ParseAbs(body, dt, cb.multi, osf4))
    case ContinuedRel => Parsed(ParseRel(body, dt, cb.multi))
  }

  // ---------------------------------------------------------------------
  // Printing.
  // ---------------------------------------------------------------------

  function StampedBytes(s: Stamped): bytes {
    LeI64(s.ts) + s.value
  }

  function StampedBytesAll(pairs: seq<Stamped>): (r: seq<bytes>)
    ensures |r| == |pairs|
  {
    seq(|pairs|, i requires 0 <= i < |pairs| => StampedBytes(pairs[i]))
  }

  /** The u32 sample-count prefix, present only for more than one sample. */
  function CountPrefix(n: nat): bytes {
    if n > 1 then Le(n, 4) else []
  }

  /** Control byte with bit 7 set for more than one sample. */
  function Control(code: nat, n: nat): byte
    requires code < 128
  {
    if n > 1 then code + 128 else code
  }

  function StartBody(start: i64, rate: u64, samples: seq<bytes>): bytes {
    LeI64(start) + Le(rate, 8) + CountPrefix(|samples|) + Join(samples)
  }

  function ContinuedBody(samples: seq<bytes>): bytes {
    CountPrefix(|samples|) + Join(samples)
  }

  function AbsBody(pairs: seq<Stamped>): bytes {
    CountPrefix(|pairs|) + Join(StampedBytesAll(pairs))
  }

  /** What the encoders write after the length field. */
  function EncodePayload(k: BlockKind): bytes
    requires Writable(k)
  {
    match k
    case StartData(_, start, rate, samples) => [Control(6, |samples|)] + StartBody(start, rate, samples)
    case ContinuedData(_, samples) => [Control(5, |samples|)] + ContinuedBody(samples)
    case AbsTimestampData(_, pairs) => [Control(8, |pairs|)] + AbsBody(pairs)
  }

  predicate AllStampedValues(dt: DataType, pairs: seq<Stamped>) {
    forall p :: p in pairs ==> IsValue(dt, p.value)
  }

  /** The blocks the encoders can produce from typed arguments. */
  predicate Writable(k: BlockKind) {
    match k
    case StartData(dt, _, _, samples) =>
      IsNumeric(dt) && 0 < |samples| < TWO_TO_THE_32 && AllValues(dt, samples)
    case ContinuedData(dt, samples) =>
      IsNumeric(dt) && 0 < |samples| < TWO_TO_THE_32 && AllValues(dt, samples)
    case AbsTimestampData(dt, pairs) =>
      && 0 < |pairs| < TWO_TO_THE_32
      && if IsFixed(dt) then AllStampedValues(dt, pairs)
         else (dt.String? || dt.Binary?) && |pairs| == 1
    case _ => false
  }

  // ---------------------------------------------------------------------
  // Parsing undoes printing.
  // ---------------------------------------------------------------------

  lemma SplitFirst(first: bytes, more: bytes, n: nat)
    requires n > 0
    ensures SplitRecords(first + more, n, |first|)
         == match SplitRecords(more, n - 1, |first|) case None => None case Some(r) => Some([first] + r)
  {
    assert (first + more)[|first|..] == more && (first + more)[..|first|] == first;
  }

  lemma NothingSplit(rest: bytes, size: nat)
    ensures SplitRecords(Join([]) + rest, 0, size) == Some([])
  {
  }

  lemma JoinHead(parts: seq<bytes>, rest: bytes)
    requires parts != []
    ensures Join(parts) + rest == parts[0] + (Join(parts[1..]) + rest)
  {
  }

  lemma {:induction false} SplitJoined(parts: seq<bytes>, size: nat, rest: bytes)
    requires forall p :: p in parts ==> |p| == size
    ensures SplitRecords(Join(parts) + rest, |parts|, size) == Some(parts)
    decreases |parts|
  {
    hide SplitRecords, Join;
    if parts == [] {
      NothingSplit(rest, size);
    } else {
      JoinHead(parts, rest);
      var more := Join(parts[1..]) + rest;
      assert |parts[0]| == size;
      SplitFirst(parts[0], more, |parts|);
      SplitJoined(parts[1..], size, rest);
      assert parts == [parts[0]] + parts[1..];
    }
  }

  lemma ReadValuesId(dt: DataType, vs: seq<bytes>)
    requires AllValues(dt, vs)
    ensures ReadValues(dt, vs) == vs
  {
    forall i | 0 <= i < |vs|
      ensures ReadValue(dt, vs[i]) == vs[i]
    {
      assert vs[i] in vs;
    }
  }

  lemma ReadStampedBytes(dt: DataType, s: Stamped)
    requires IsValue(dt, s.value)
    ensures |StampedBytes(s)| == 8 + Width(dt)
    ensures ReadStamped(dt, StampedBytes(s)) == s
  {
    var raw := StampedBytes(s);
    assert raw[..8] == LeI64(s.ts) && raw[8..] == s.value;
    I64RoundTrip(s.ts);
  }

  lemma ReadStampedAllId(dt: DataType, pairs: seq<Stamped>)
    requires AllStampedValues(dt, pairs)
    ensures forall p :: p in StampedBytesAll(pairs) ==> |p| == 8 + Width(dt)
    ensures ReadStampedAll(dt, StampedBytesAll(pairs)) == pairs
  {
    var raws := StampedBytesAll(pairs);
    forall i | 0 <= i < |pairs|
      ensures |raws[i]| == 8 + Width(dt) && ReadStamped(dt, raws[i]) == pairs[i]
    {
      assert pairs[i] in pairs;
      ReadStampedBytes(dt, pairs[i]);
    }
  }

  lemma CountReadsBack(n: nat, run: bytes)
    requires 0 < n < TWO_TO_THE_32
    ensures SampleCount(CountPrefix(n) + run, n > 1) == Some((n, run))
  {
    if n > 1 {
      var body := CountPrefix(n) + run;
      assert body[..4] == Le(n, 4) && body[4..] == run;
      Pow256Values();
      LeRoundTrip(n, 4);
    } else {
      assert CountPrefix(n) + run == run;
    }
  }

  lemma ControlReadsBack(code: nat, n: nat)
    requires code < 128
    ensures DecodeControlByte(Control(code, n)).multi == (n > 1)
    ensures DecodeControlByte(Control(code, n)).raw == code
  {
  }

  lemma NumericRunReadsBack(dt: DataType, samples: seq<bytes>)
    requires IsNumeric(dt) && AllValues(dt, samples)
    ensures ParseNumericRun(Join(samples), dt, |samples|) == Ok(samples)
  {
    SplitJoined(samples, Width(dt), []);
    assert Join(samples) + [] == Join(samples);
    ReadValuesId(dt, samples);
  }

  lemma StartHeaderReadsBack(start: i64, rate: u64, tail: bytes)
    ensures var body := LeI64(start) + Le(rate, 8) + tail;
            UnLeI64(body[..8]) == start && UnLe(body[8..16]) == rate && body[16..] == tail
  {
    hide Le, UnLe, LeI64, UnLeI64;
    var body := LeI64(start) + Le(rate, 8) + tail;
    assert body[..8] == LeI64(start);
    assert body[8..16] == Le(rate, 8);
    assert body[16..] == tail;
    I64RoundTrip(start);
    Pow256Values();
    LeRoundTrip(rate, 8);
  }

  lemma StartReadsBack(dt: DataType, start: i64, rate: u64, samples: seq<bytes>)
    requires Writable(StartData(dt, start, rate, samples))
    ensures ParseStart(StartBody(start, rate, samples), dt, |samples| > 1) == Ok(StartData(dt, start, rate, samples))
  {
    hide Le, UnLe, LeI64, UnLeI64, ParseNumericRun, Join, CountPrefix;
    var tail := CountPrefix(|samples|) + Join(samples);
    assert StartBody(start, rate, samples) == LeI64(start) + Le(rate, 8) + tail;
    StartHeaderReadsBack(start, rate, tail);
    CountReadsBack(|samples|, Join(samples));
    NumericRunReadsBack(dt, samples);
  }

  lemma ContinuedReadsBack(dt: DataType, samples: seq<bytes>)
    requires Writable(ContinuedData(dt, samples))
    ensures ParseContinued(ContinuedBody(samples), dt, |samples| > 1) == Ok(ContinuedData(dt, samples))
  {
    CountReadsBack(|samples|, Join(samples));
    NumericRunReadsBack(dt, samples);
  }

  lemma AbsFixedReadsBack(dt: DataType, pairs: seq<Stamped>, osf4: bool)
    requires IsFixed(dt) && Writable(AbsTimestampData(dt, pairs))
    ensures ParseAbs(AbsBody(pairs), dt, |pairs| > 1, osf4) == Ok(AbsTimestampData(dt, pairs))
  {
    hide Le, UnLe, LeI64, UnLeI64, Join, CountPrefix, StampedBytesAll, ReadStampedAll, SampleCount;
    var raws := StampedBytesAll(pairs);
    CountReadsBack(|pairs|, Join(raws));
    ReadStampedAllId(dt, pairs);
    SplitJoined(raws, 8 + Width(dt), []);
    assert Join(raws) + [] == Join(raws);
  }

  lemma {:induction false} OneMessageReadsBack(s: Stamped, osf4: bool)
    ensures ReadMessage(StampedBytes(s), osf4) == Stamped(s.ts, StripTerminator(s.value, osf4))
  {
    hide Le, UnLe, LeI64, UnLeI64;
    var raw := StampedBytes(s);
    assert raw[..8] == LeI64(s.ts) && raw[8..] == s.value;
    I64RoundTrip(s.ts);
  }

  lemma AbsVariableReadsBack(dt: DataType, s: Stamped, osf4: bool)
    requires dt.String? || dt.Binary?
    ensures AbsBody([s]) == StampedBytes(s)
    ensures ParseAbs(AbsBody([s]), dt, false, osf4)
         == Ok(AbsTimestampData(dt, [Stamped(s.ts, StripTerminator(s.value, osf4))]))
  {
    hide StampedBytes, ReadMessage, StripTerminator;
    var raws := StampedBytesAll([s]);
    assert raws == [StampedBytes(s)];
    assert Join(raws[1..]) == [];
    assert AbsBody([s]) == StampedBytes(s);
    assert |StampedBytes(s)| >= 8 by { StampedBytesLength(s); }
    OneMessageReadsBack(s, osf4);
  }

  lemma StampedBytesLength(s: Stamped)
    ensures |StampedBytes(s)| == 8 + |s.value|
  {
  }

  /** What the other side of a written block reads: OSF4 takes the last byte off a string or binary. */
  function AsRead(k: BlockKind, osf4: bool): BlockKind
    requires Writable(k)
  {
    if osf4 && IsVariable(k.dt) && k.pairs[0].value != []
    then AbsTimestampData(k.dt, [Stamped(k.pairs[0].ts, k.pairs[0].value[..|k.pairs[0].value| - 1])])
    else k
  }

  lemma AbsReadsBack(dt: DataType, pairs: seq<Stamped>, osf4: bool)
    requires Writable(AbsTimestampData(dt, pairs))
    ensures ParseAbs(AbsBody(pairs), dt, |pairs| > 1, osf4) == Ok(AsRead(AbsTimestampData(dt, pairs), osf4))
  {
    hide AbsBody, ParseAbs;
    if IsFixed(dt) {
      AbsFixedReadsBack(dt, pairs, osf4);
    } else {
      assert pairs == [pairs[0]];
      AbsVariableReadsBack(dt, pairs[0], osf4);
    }
  }

  /**
   Every block the encoders can write decodes to itself under OSF5, and under OSF4 too
   if its datatype has a fixed width; a string or binary loses its last byte there.
   */
  lemma {:induction false} PayloadRoundTrip(k: BlockKind, osf4: bool)
    requires Writable(k)
    ensures |EncodePayload(k)| > 0
    ensures Route(EncodePayload(k), k.dt, osf4) == Parsed(Ok(AsRead(k, osf4)))
    ensures !osf4 || IsFixed(k.dt) ==> AsRead(k, osf4) == k
  {
    hide StartBody, ContinuedBody, AbsBody, ParseStart, ParseContinued, ParseAbs, Control;
    match k
    case StartData(dt, start, rate, samples) =>
      RouteTyped(6, |samples|, StartBody(start, rate, samples), dt, osf4);
      StartReadsBack(dt, start, rate, samples);
    case ContinuedData(dt, samples) =>
      RouteTyped(5, |samples|, ContinuedBody(samples), dt, osf4);
      ContinuedReadsBack(dt, samples);
    case AbsTimestampData(dt, pairs) =>
      RouteTyped(8, |pairs|, AbsBody(pairs), dt, osf4);
      AbsReadsBack(dt, pairs, osf4);
  }

  /** So a string or binary written with a terminating zero comes back under OSF4. */
  lemma {:induction false} TerminatedReadsBack(dt: DataType, s: Stamped)
    requires dt.String? || dt.Binary?
    ensures Route(EncodePayload(AbsTimestampData(dt, [Stamped(s.ts, s.value + [0])])), dt, true)
         == Parsed(Ok(AbsTimestampData(dt, [s])))
  {
    hide EncodePayload, Route;
    PayloadRoundTrip(AbsTimestampData(dt, [Stamped(s.ts, s.value + [0])]), true);
  }

  lemma {:induction false} RouteTyped(code: nat, n: nat, body: bytes, dt: DataType, osf4: bool)
    requires code in {5, 6, 8}
    ensures var p := [Control(code, n)] + body;
            Route(p, dt, osf4) == Parsed(if code == 6 then ParseStart(body, dt, n > 1)
                                         else if code == 5 then ParseContinued(body, dt, n > 1)
                                         else ParseAbs(body, dt, n > 1, osf4))
  {
    hide ParseStart, ParseContinued, ParseAbs;
    ControlReadsBack(code, n);
    assert ([Control(code, n)] + body)[1..] == body;
  }

  lemma PayloadNotEmpty(k: BlockKind)
    requires Writable(k)
    ensures |EncodePayload(k)| > 0
  {
  }

  // ---------------------------------------------------------------------
  // Layouts the writers do not use but every reader accepts.
  // ---------------------------------------------------------------------

  function RelStampedBytes(d: RelStamped): bytes {
    Le(d.delta, 4) + d.value
  }

  function RelStampedBytesAll(deltas: seq<RelStamped>): (r: seq<bytes>)
    ensures |r| == |deltas|
  {
    seq(|deltas|, i requires 0 <= i < |deltas| => RelStampedBytes(deltas[i]))
  }

  function RelBody(deltas: seq<RelStamped>): bytes {
    CountPrefix(|deltas|) + Join(RelStampedBytesAll(deltas))
  }

  lemma {:induction false} ReadRelStampedBytes(dt: DataType, d: RelStamped)
    requires IsValue(dt, d.value)
    ensures |RelStampedBytes(d)| == 4 + Width(dt) && ReadRelStamped(dt, RelStampedBytes(d)) == d
  {
    var raw := RelStampedBytes(d);
    assert raw[..4] == Le(d.delta, 4) && raw[4..] == d.value;
    Pow256Values();
    LeRoundTrip(d.delta, 4);
  }

  lemma {:induction false} ReadRelStampedAllId(dt: DataType, deltas: seq<RelStamped>)
    requires forall d :: d in deltas ==> IsValue(dt, d.value)
    ensures forall p :: p in RelStampedBytesAll(deltas) ==> |p| >= 4 && |p| == 4 + Width(dt)
    ensures ReadRelStampedAll(dt, RelStampedBytesAll(deltas)) == deltas
  {
    hide RelStampedBytes, ReadRelStamped, IsValue;
    var raws := RelStampedBytesAll(deltas);
    forall i | 0 <= i < |deltas|
      ensures |raws[i]| == 4 + Width(dt) && ReadRelStamped(dt, raws[i]) == deltas[i]
    {
      assert deltas[i] in deltas;
      ReadRelStampedBytes(dt, deltas[i]);
    }
  }

  /** A run of deltas and values parses back, with or without the count prefix. */
  lemma {:induction false} RelReadsBack(dt: DataType, deltas: seq<RelStamped>, osf4: bool)
    requires IsNumeric(dt) && 0 < |deltas| < TWO_TO_THE_32 && forall d :: d in deltas ==> IsValue(dt, d.value)
    ensures Route([Control(7, |deltas|)] + RelBody(deltas), dt, osf4) == Parsed(Ok(ContinuedRelStampData(dt, deltas)))
  {
    hide Le, UnLe, Join, CountPrefix, RelStampedBytesAll, ReadRelStampedAll, SampleCount, SplitRecords, IsNumeric,
         IsValue, Control;
    ControlReadsBack(7, |deltas|);
    assert ([Control(7, |deltas|)] + RelBody(deltas))[1..] == RelBody(deltas);
    var raws := RelStampedBytesAll(deltas);
    CountReadsBack(|deltas|, Join(raws));
    ReadRelStampedAllId(dt, deltas);
    SplitJoined(raws, 4 + Width(dt), []);
    assert Join(raws) + [] == Join(raws);
  }

  /** One message of a multi-sample block: OSF4 adds a terminator. */
  function MessageBytes(s: Stamped, osf4: bool): bytes {
    StampedBytes(Stamped(s.ts, if osf4 then s.value + [0] else s.value))
  }

  function MessageBytesAll(pairs: seq<Stamped>, osf4: bool): (r: seq<bytes>)
    ensures |r| == |pairs|
  {
    seq(|pairs|, i requires 0 <= i < |pairs| => MessageBytes(pairs[i], osf4))
  }

  lemma {:induction false} ReadMessagesBack(pairs: seq<Stamped>, size: nat, osf4: bool)
    requires forall p :: p in pairs ==> |p.value| == size
    ensures forall p :: p in MessageBytesAll(pairs, osf4) ==> |p| >= 8 && |p| == 8 + size + if osf4 then 1 else 0
    ensures ReadMessages(MessageBytesAll(pairs, osf4), osf4) == pairs
  {
    hide ReadMessage, StampedBytes;
    var raws := MessageBytesAll(pairs, osf4);
    forall i | 0 <= i < |pairs|
      ensures |raws[i]| == 8 + size + (if osf4 then 1 else 0) && ReadMessage(raws[i], osf4) == pairs[i]
    {
      assert pairs[i] in pairs;
      var stored := Stamped(pairs[i].ts, if osf4 then pairs[i].value + [0] else pairs[i].value);
      StampedBytesLength(stored);
      OneMessageReadsBack(stored, osf4);
      assert StripTerminator(stored.value, osf4) == pairs[i].value;
    }
  }

  /**
   Several strings or binaries of one size in one block are split evenly and come
   back, zero bytes and all, under either terminator rule.
   */
  lemma {:induction false} MultiMessagesReadBack(dt: DataType, pairs: seq<Stamped>, size: nat, osf4: bool)
    requires IsVariable(dt) && 1 < |pairs| < TWO_TO_THE_32 && forall p :: p in pairs ==> |p.value| == size
    ensures Route([Control(8, |pairs|)] + (Le(|pairs|, 4) + Join(MessageBytesAll(pairs, osf4))), dt, osf4)
         == Parsed(Ok(AbsTimestampData(Normalised(dt), pairs)))
  {
    hide Le, UnLe, Join, MessageBytesAll, ReadMessages, SplitRecords, Normalised, Control;
    var (n, raws) := (|pairs|, MessageBytesAll(pairs, osf4));
    var per := 8 + size + if osf4 then 1 else 0;
    ControlReadsBack(8, n);
    var body := Le(n, 4) + Join(raws);
    assert ([Control(8, n)] + body)[1..] == body;
    assert body[..4] == Le(n, 4) && body[4..] == Join(raws);
    Pow256Values();
    LeRoundTrip(n, 4);
    ReadMessagesBack(pairs, size, osf4);
    JoinLength(raws, per);
    DivModUnique(|Join(raws)|, n, per, 0);
    SplitJoined(raws, per, []);
    assert Join(raws) + [] == Join(raws);
  }
}
