/**
 The typed block model of block.h and types.h.

 Sample values are byte strings of the datatype's width: integers, floats and
 GPS triples are carried bit for bit, so one definition covers every fixed-width
 datatype. Sample rates are the 64-bit patterns of IEEE-754 doubles.
 */
module OsfTypes {
  import opened Bytes

  datatype Option<+T> = None | Some(value: T)

  datatype Error =
    | InvalidArgument
    | InvalidBlock
    | InvalidMetablock
    | IoError
    | UnknownChannelIndex
    | DataTypeMismatch
    | ChannelMixedBlockTypes
    | ContinuedDataWithoutStart
    | RelStampWithoutAnchor
    | InvalidMagicHeader
    | MagicHeaderTooLong
    | UnsupportedVersion
    | UnknownHeaderToken
    | MetablockCrcMismatch

  datatype Result<+T> = Ok(value: T) | Err(error: Error)

  datatype DataType =
    | Bool | Int8 | Int16 | Int32 | Int64
    | UInt8 | UInt16 | UInt32 | UInt64
    | Float | Double
    | String | Binary | ByteArray
    | GpsLocation
    | Unsupported

  /** Bytes per sample of a fixed-width datatype; 0 for the others. */
  function Width(dt: DataType): (w: nat)
    ensures w <= 24
  {
    match dt
    case Bool | Int8 | UInt8 => 1
    case Int16 | UInt16 => 2
    case Int32 | UInt32 | Float => 4
    case Int64 | UInt64 | Double => 8
    case GpsLocation => 24
    case String | Binary | ByteArray | Unsupported => 0
  }

  predicate IsVariable(dt: DataType) {
    dt.String? || dt.Binary? || dt.ByteArray?
  }

  /** The eleven datatypes an equidistant block may carry. */
  predicate IsNumeric(dt: DataType) {
    !IsVariable(dt) && !dt.GpsLocation? && !dt.Unsupported?
  }

  /** Fixed-width datatypes: numeric or GPS. */
  predicate IsFixed(dt: DataType) {
    IsNumeric(dt) || dt.GpsLocation?
  }

  /** `v` is a sample of `dt` as the typed API can hold it: a bool is 0 or 1. */
  predicate IsValue(dt: DataType, v: bytes) {
    |v| == Width(dt) && (dt.Bool? ==> v[0] <= 1)
  }

  predicate AllValues(dt: DataType, vs: seq<bytes>) {
    forall v :: v in vs ==> IsValue(dt, v)
  }

  /** `rate > 0.0` for the double with bit pattern `rate`. */
  predicate PositiveRate(rate: u64) {
    0 < rate <= 0x7FF0_0000_0000_0000
  }

  /** `rate > 0.0 && isfinite(rate)`. */
  predicate PositiveFiniteRate(rate: u64) {
    0 < rate < 0x7FF0_0000_0000_0000
  }

  datatype Stamped = Stamped(ts: i64, value: bytes)
  datatype RelStamped = RelStamped(delta: u32, value: bytes)

  datatype SkipKind =
    | UnsupportedDataType
    | DeprecatedBlockType
    | StatusEventBlock
    | ReservedBlockType
    | CrcFailed
    | SignatureBlock
    | ZeroLengthBlock

  datatype SkipReason = SkipReason(kind: SkipKind, rawByte: nat)

  datatype BlockKind =
    | StartData(dt: DataType, start: i64, rate: u64, samples: seq<bytes>)
    | ContinuedData(dt: DataType, samples: seq<bytes>)
    | AbsTimestampData(dt: DataType, pairs: seq<Stamped>)
    | ContinuedRelStampData(dt: DataType, deltas: seq<RelStamped>)
    | Skipped(reason: SkipReason, bytesSkipped: nat, payload: bytes)

  datatype Block = Block(channelIndex: u16, kind: BlockKind)

  const TRAILER_CHANNEL_INDEX: u16 := 0xFFFF
  const SIGNATURE_CHANNEL_INDEX: u16 := 0xFFFE
  const MAGIC_TRAILER_LEN: nat := 40

  function Min(a: int, b: int): int {
    if a <= b then a else b
  }

  /** Concatenation of a list of byte strings. */
  function Join(parts: seq<bytes>): bytes
  {
    if parts == [] then [] else parts[0] + Join(parts[1..])
  }

  lemma {:induction false} JoinConcat(a: seq<bytes>, b: seq<bytes>)
    ensures Join(a + b) == Join(a) + Join(b)
    decreases |a|
  {
    if a == [] {
      assert a + b == b;
    } else {
      assert (a + b)[1..] == a[1..] + b;
      JoinConcat(a[1..], b);
    }
  }

  lemma {:induction false} JoinLength(parts: seq<bytes>, size: nat)
    requires forall p :: p in parts ==> |p| == size
    ensures |Join(parts)| == |parts| * size
    decreases |parts|
  {
    if parts != [] {
      JoinLength(parts[1..], size);
      assert |parts| * size == size + (|parts| - 1) * size;
    }
  }
}
