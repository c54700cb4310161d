/**
 The encoders and the frame seal as they run (blockencode.cpp and applyFrameCrc in
 writercommon.cpp): each appends to, or patches, a byte vector.
 */
module BlockEncode {
  import opened Bytes
  import opened OsfTypes
  import opened Payload
  import opened Frame
  import opened Crc32cModel
  import opened Codec
  import opened Chunking
  import opened StreamingSpec

  /** The vector went from `before` to `after` with outcome `r`: a frame appended, or an error and no change. */
  predicate Encoded(before: bytes, after: bytes, r: Result<()>, frame: Result<bytes>) {
    match frame
    case Err(e) => r == Err(e) && after == before
    case Ok(f) => r == Ok(()) && after == before + f
  }

  /** What encoding `n` samples gives: none are refused, more than a count field holds never fit a length field. */
  function CountedFrame(ci: u16, sov: nat, n: nat, k: BlockKind): Result<bytes>
    requires 0 < n < TWO_TO_THE_32 ==> Writable(k)
  {
    if n == 0 then Err(InvalidArgument)
    else if n >= TWO_TO_THE_32 then Err(if IsSov(sov) then InvalidBlock else InvalidArgument)
    else EncodeFrame(ci, sov, k)
  }

  /** Channel index and length field; the payload has to fit the field. */
  method BeginFrame(out: ByteVector, ci: u16, sov: nat, payloadLength: nat) returns (r: Result<()>)
    modifies out
    ensures Encoded(old(out.data), out.data, r,
                    if !IsSov(sov) then Err(InvalidArgument)
                    else if payloadLength >= FieldLimit(sov) then Err(InvalidBlock)
                    else Ok(Le(ci, 2) + Le(payloadLength, sov)))
  {
    hide Le;
    if sov != 2 && sov != 4 {
      return Err(InvalidArgument);
    }
    if payloadLength > FieldLimit(sov) - 1 {
      return Err(InvalidBlock);
    }
    Associative(out.data, Le(ci, 2), Le(payloadLength, sov));
    out.Append(Le(ci, 2));
    out.Append(Le(payloadLength, sov));
    r := Ok(());
  }

  lemma JoinNext(parts: seq<bytes>, i: nat)
    requires i < |parts|
    ensures Join(parts[..i + 1]) == Join(parts[..i]) + parts[i]
  {
    assert parts[..i + 1] == parts[..i] + [parts[i]];
    JoinConcat(parts[..i], [parts[i]]);
    assert Join([parts[i]]) == parts[i] + Join([parts[i]][1..]);
  }

  method AppendSamples(out: ByteVector, samples: seq<bytes>)
    modifies out
    ensures out.data == old(out.data) + Join(samples)
  {
    hide Join;
    assert Join(samples[..0]) == [] by { JoinNone(); }
    for i := 0 to |samples|
      invariant out.data == old(out.data) + Join(samples[..i])
    {
      JoinNext(samples, i);
      Associative(old(out.data), Join(samples[..i]), samples[i]);
      out.Append(samples[i]);
    }
    assert samples[..|samples|] == samples;
  }

  lemma JoinNone()
    ensures Join([]) == []
  {
  }

  method AppendPairs(out: ByteVector, pairs: seq<Stamped>)
    modifies out
    ensures out.data == old(out.data) + Join(StampedBytesAll(pairs))
  {
    hide Join, LeI64;
    ghost var parts := StampedBytesAll(pairs);
    assert Join(parts[..0]) == [] by { JoinNone(); }
    for i := 0 to |pairs|
      invariant out.data == old(out.data) + Join(parts[..i])
    {
      JoinNext(parts, i);
      Associative(old(out.data), Join(parts[..i]), parts[i]);
      Associative(out.data, LeI64(pairs[i].ts), pairs[i].value);
      out.Append(LeI64(pairs[i].ts));
      out.Append(pairs[i].value);
    }
    assert parts[..|parts|] == parts;
  }

  /** The u32 count, if there is more than one sample. */
  method AppendCount(out: ByteVector, count: nat)
    requires count < TWO_TO_THE_32
    modifies out
    ensures out.data == old(out.data) + CountPrefix(count)
  {
    hide Le;
    if count > 1 {
      out.Append(Le(count, 4));
    }
  }

  /** A frame is its head and its payload. */
  lemma FrameGrows(before: bytes, ci: u16, sov: nat, payload: bytes)
    ensures before + (Le(ci, 2) + Le(|payload|, sov)) + payload == before + FrameOf(ci, sov, payload)
  {
    hide Le;
    Associative(before, Le(ci, 2) + Le(|payload|, sov), payload);
  }

  lemma StartPayload(dt: DataType, start: i64, rate: u64, samples: seq<bytes>)
    requires Writable(StartData(dt, start, rate, samples))
    ensures forall head: bytes ::
              head + [Control(6, |samples|)] + LeI64(start) + Le(rate, 8) + CountPrefix(|samples|) + Join(samples)
              == head + EncodePayload(StartData(dt, start, rate, samples))
  {
    hide Le, LeI64, Join, CountPrefix;
  }

  lemma ContinuedPayload(dt: DataType, samples: seq<bytes>)
    requires Writable(ContinuedData(dt, samples))
    ensures forall head: bytes ::
              head + [Control(5, |samples|)] + CountPrefix(|samples|) + Join(samples)
              == head + EncodePayload(ContinuedData(dt, samples))
  {
    hide Join, CountPrefix;
  }

  lemma AbsPayload(dt: DataType, pairs: seq<Stamped>)
    requires Writable(AbsTimestampData(dt, pairs))
    ensures forall head: bytes ::
              head + [Control(8, |pairs|)] + CountPrefix(|pairs|) + Join(StampedBytesAll(pairs))
              == head + EncodePayload(AbsTimestampData(dt, pairs))
  {
    hide Join, CountPrefix, StampedBytesAll;
  }

  lemma WidthPositive(dt: DataType)
    requires IsNumeric(dt)
    ensures Width(dt) >= 1
  {
  }

  method EncodeStartData(out: ByteVector, ci: u16, sov: nat, dt: DataType, start: i64, rate: u64, samples: seq<bytes>)
    returns (r: Result<()>)
    requires IsNumeric(dt) && AllValues(dt, samples)
    modifies out
    ensures Encoded(old(out.data), out.data, r, CountedFrame(ci, sov, |samples|, StartData(dt, start, rate, samples)))
  {
    hide Le, LeI64, Join, CountPrefix, EncodePayload, FrameOf, Control, IsNumeric, IsValue;
    if |samples| == 0 {
      return Err(InvalidArgument);
    }
    var multi := |samples| > 1;
    var payloadLen := 1 + 8 + 8 + (if multi then 4 else 0) + |samples| * Width(dt);
    WidthPositive(dt);
    if |samples| < TWO_TO_THE_32 {
      PayloadSizes(StartData(dt, start, rate, samples));
      StartPayload(dt, start, rate, samples);
      FrameGrows(out.data, ci, sov, EncodePayload(StartData(dt, start, rate, samples)));
    } else {
      MulAtLeast(Width(dt), |samples|);
    }
    r := BeginFrame(out, ci, sov, payloadLen);
    if r.Err? {
      return;
    }
    out.Append([Control(6, |samples|)]);
    out.Append(LeI64(start));
    out.Append(Le(rate, 8));
    AppendCount(out, |samples|);
    AppendSamples(out, samples);
  }

  method EncodeContinuedData(out: ByteVector, ci: u16, sov: nat, dt: DataType, samples: seq<bytes>)
    returns (r: Result<()>)
    requires IsNumeric(dt) && AllValues(dt, samples)
    modifies out
    ensures Encoded(old(out.data), out.data, r, CountedFrame(ci, sov, |samples|, ContinuedData(dt, samples)))
  {
    hide Le, Join, CountPrefix, EncodePayload, FrameOf, Control, IsNumeric, IsValue;
    if |samples| == 0 {
      return Err(InvalidArgument);
    }
    var multi := |samples| > 1;
    var payloadLen := 1 + (if multi then 4 else 0) + |samples| * Width(dt);
    WidthPositive(dt);
    if |samples| < TWO_TO_THE_32 {
      PayloadSizes(ContinuedData(dt, samples));
      ContinuedPayload(dt, samples);
      FrameGrows(out.data, ci, sov, EncodePayload(ContinuedData(dt, samples)));
    } else {
      MulAtLeast(Width(dt), |samples|);
    }
    r := BeginFrame(out, ci, sov, payloadLen);
    if r.Err? {
      return;
    }
    out.Append([Control(5, |samples|)]);
    AppendCount(out, |samples|);
    AppendSamples(out, samples);
  }

  /** Numeric datatypes and GPS, whose sample is 24 bytes. */
  method EncodeAbsTimestampData(out: ByteVector, ci: u16, sov: nat, dt: DataType, pairs: seq<Stamped>)
    returns (r: Result<()>)
    requires IsFixed(dt) && AllStampedValues(dt, pairs)
    modifies out
    ensures Encoded(old(out.data), out.data, r, CountedFrame(ci, sov, |pairs|, AbsTimestampData(dt, pairs)))
  {
    hide Le, Join, CountPrefix, EncodePayload, FrameOf, Control, IsFixed, IsValue, StampedBytesAll;
    if |pairs| == 0 {
      return Err(InvalidArgument);
    }
    var multi := |pairs| > 1;
    var pairBytes := 8 + Width(dt);
    var payloadLen := 1 + (if multi then 4 else 0) + |pairs| * pairBytes;
    if |pairs| < TWO_TO_THE_32 {
      PayloadSizes(AbsTimestampData(dt, pairs));
      AbsPayload(dt, pairs);
      FrameGrows(out.data, ci, sov, EncodePayload(AbsTimestampData(dt, pairs)));
    } else {
      MulAtLeast(pairBytes, |pairs|);
    }
    r := BeginFrame(out, ci, sov, payloadLen);
    if r.Err? {
      return;
    }
    out.Append([Control(8, |pairs|)]);
    AppendCount(out, |pairs|);
    AppendPairs(out, pairs);
  }

  lemma VariablePayload(dt: DataType, sample: Stamped)
    requires dt.String? || dt.Binary?
    ensures Writable(AbsTimestampData(dt, [sample]))
    ensures EncodePayload(AbsTimestampData(dt, [sample])) == [0x08] + LeI64(sample.ts) + sample.value
  {
    hide LeI64, Join, StampedBytesAll;
    AbsVariableReadsBack(dt, sample, false);
    assert CountPrefix(1) == [];
  }

  /** One string or binary: no count, no terminator. */
  method EncodeAbsTimestampVariable(out: ByteVector, ci: u16, sov: nat, dt: DataType, sample: Stamped)
    returns (r: Result<()>)
    requires dt.String? || dt.Binary?
    modifies out
    ensures Writable(AbsTimestampData(dt, [sample]))
    ensures Encoded(old(out.data), out.data, r, EncodeFrame(ci, sov, AbsTimestampData(dt, [sample])))
  {
    hide Le, LeI64, EncodePayload, FrameOf, Writable;
    VariablePayload(dt, sample);
    var payloadLen := 1 + 8 + |sample.value|;
    FrameGrows(out.data, ci, sov, EncodePayload(AbsTimestampData(dt, [sample])));
    r := BeginFrame(out, ci, sov, payloadLen);
    if r.Err? {
      return;
    }
    out.Append([0x08]);
    out.Append(LeI64(sample.ts));
    out.Append(sample.value);
  }

  /** Patch the length field to count the CRC, then append the CRC of the whole block. */
  method ApplyFrameCrc(tables: array2<word>, block: ByteVector, sov: nat)
    requires TablesCorrect(tables) && IsSov(sov) && |block.data| >= 2 + sov
    modifies block
    ensures block.data == Seal(old(block.data), sov)
  {
    hide Le, UnLe, TablesCorrect, Crc, StoredWord;
    var oldLen := UnLe(block.data[2..2 + sov]);
    block.data := block.data[..2] + Le(oldLen + 4, sov) + block.data[2 + sov..];
    var crc := OneShot(tables, block.data);
    block.Append(StoredWord(crc));
  }
}
