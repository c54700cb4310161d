/**
 Frames: channel index, length field and payload, the optional CRC trailer, and
 the arithmetic of how much fits (writercommon.cpp, beginFrame in blockencode.cpp).
 */
module Frame {
  import opened Bytes
  import opened Crc32cModel

  predicate IsSov(sov: nat) { sov == 2 || sov == 4 }

  /** One past the largest value of a length field. */
  function FieldLimit(sov: nat): nat
    requires IsSov(sov)
  {
    if sov == 2 then TWO_TO_THE_16 else TWO_TO_THE_32
  }

  /** Channel index, length field, payload. */
  function FrameOf(ci: u16, sov: nat, payload: bytes): (f: bytes)
    ensures |f| == 2 + sov + |payload|
  {
    Le(ci, 2) + Le(|payload|, sov) + payload
  }

  /** Patch the length field to count four more bytes, then append the CRC of the whole frame. */
  function Seal(block: bytes, sov: nat): (f: bytes)
    requires IsSov(sov) && |block| >= 2 + sov
    ensures |f| == |block| + 4
  {
    var patched := block[..2] + Le(UnLe(block[2..2 + sov]) + 4, sov) + block[2 + sov..];
    patched + Trailer(patched)
  }

  /** What the reader verifies: `payload` still carries its last four bytes. */
  predicate FrameCrcOk(ci: u16, sov: nat, length: nat, payload: bytes)
    requires IsSov(sov) && |payload| >= 4
  {
    var split := |payload| - 4;
    Checks(Le(ci, 2) + Le(length, 4)[..sov] + payload[..split], payload[split..])
  }

  lemma LePrefix(n: nat, j: nat, k: nat)
    requires j <= k
    ensures Le(n, k)[..j] == Le(n, j)
    decreases j
  {
    if j > 0 {
      LePrefix(n / 256, j - 1, k - 1);
      assert Le(n, k)[..j] == [n % 256] + Le(n / 256, k - 1)[..j - 1];
    }
  }

  lemma FieldReadsBack(n: nat, sov: nat)
    requires IsSov(sov)
    ensures UnLe(Le(n, sov)) == n % FieldLimit(sov)
  {
    hide Le, UnLe;
    Pow256Values();
    UnLeOfLe(n, sov);
  }

  /** Where the three parts of a frame sit. */
  lemma FrameParts(ci: u16, sov: nat, payload: bytes, rest: bytes)
    requires IsSov(sov) && |payload| < FieldLimit(sov)
    ensures var s := FrameOf(ci, sov, payload) + rest;
            && |s| >= 2 + sov + |payload|
            && s[..2] == Le(ci, 2) && UnLe(s[..2]) == ci
            && s[2..2 + sov] == Le(|payload|, sov) && UnLe(s[2..2 + sov]) == |payload|
            && s[2 + sov..2 + sov + |payload|] == payload
            && s[2 + sov + |payload|..] == rest
  {
    hide Le, UnLe;
    var s := FrameOf(ci, sov, payload) + rest;
    assert s[..2] == Le(ci, 2);
    assert s[2..2 + sov] == Le(|payload|, sov);
    assert s[2 + sov..2 + sov + |payload|] == payload;
    assert s[2 + sov + |payload|..] == rest;
    FieldReadsBack(ci, 2);
    FieldReadsBack(|payload|, sov);
  }

  /** Sealing is framing the payload together with its trailer, as long as the length field does not wrap. */
  lemma {:induction false} SealIsFrame(ci: u16, sov: nat, payload: bytes)
    requires IsSov(sov) && |payload| + 4 < FieldLimit(sov)
    ensures var t := Trailer(Le(ci, 2) + Le(|payload| + 4, sov) + payload);
            Seal(FrameOf(ci, sov, payload), sov) == FrameOf(ci, sov, payload + t)
  {
    hide Le, UnLe, Trailer, FrameOf;
    var block := FrameOf(ci, sov, payload);
    FrameParts(ci, sov, payload, []);
    assert block + [] == block;
    assert block[2 + sov..] == block[2 + sov..2 + sov + |payload|] == payload;
    var patched := Le(ci, 2) + Le(|payload| + 4, sov) + payload;
    FrameTail(ci, sov, payload, Trailer(patched));
  }

  lemma FrameTail(ci: u16, sov: nat, payload: bytes, t: bytes)
    ensures FrameOf(ci, sov, payload + t) == Le(ci, 2) + Le(|payload| + |t|, sov) + payload + t
  {
    hide Le;
    assert |payload + t| == |payload| + |t|;
  }

  /** The reader's three-part check accepts every frame the writer sealed in one pass. */
  lemma {:induction false} SealedFrameChecks(ci: u16, sov: nat, payload: bytes)
    requires IsSov(sov) && |payload| + 4 < FieldLimit(sov)
    ensures var t := Trailer(Le(ci, 2) + Le(|payload| + 4, sov) + payload);
            FrameCrcOk(ci, sov, |payload| + 4, payload + t)
  {
    hide Le, UnLe, Trailer, Checks;
    var msg := Le(ci, 2) + Le(|payload| + 4, sov) + payload;
    var t := Trailer(msg);
    LePrefix(|payload| + 4, sov, 4);
    assert (payload + t)[..|payload|] == payload && (payload + t)[|payload|..] == t;
    SealedChecks(msg);
  }

  // ---------------------------------------------------------------------
  // Budgets.
  // ---------------------------------------------------------------------

  const GPS_WIRE_SIZE: nat := 24
  const VARIABLE_BLOCK_OVERHEAD_BYTES: nat := 9

  function MaxPayloadForSov(sov: nat): nat {
    if sov == 2 then 0xFFFF else 0x7FFF_FFFF - 1024
  }

  function PayloadBudget(sov: nat, frameCrc: bool): nat {
    var budget := MaxPayloadForSov(sov);
    var reserve := if frameCrc then 4 else 0;
    if budget > reserve then budget - reserve else 0
  }

  /** Samples of `perSample` bytes that fit beside `overhead` bytes; never less than one. */
  function MaxSamples(overhead: nat, perSample: nat, sov: nat, frameCrc: bool): (n: nat)
    requires perSample > 0
    ensures n > 0
  {
    var maxPayload := PayloadBudget(sov, frameCrc);
    if maxPayload <= overhead then 1
    else
      var samples := (maxPayload - overhead) / perSample;
      if samples == 0 then 1 else samples
  }

  function MaxSamplesPerStartBlock(valueSize: nat, sov: nat, frameCrc: bool): (n: nat)
    requires valueSize > 0
    ensures n > 0
  {
    MaxSamples(1 + 8 + 8 + 4, valueSize, sov, frameCrc)
  }

  function MaxSamplesPerContinuedBlock(valueSize: nat, sov: nat, frameCrc: bool): (n: nat)
    requires valueSize > 0
    ensures n > 0
  {
    MaxSamples(1 + 4, valueSize, sov, frameCrc)
  }

  function MaxSamplesPerTimestampedBlock(valueSize: nat, sov: nat, frameCrc: bool): (n: nat)
    requires valueSize > 0
    ensures n > 0
  {
    MaxSamples(1 + 4, 8 + valueSize, sov, frameCrc)
  }

  function VariableSampleCapacity(sov: nat, frameCrc: bool): nat {
    var maxPayload := PayloadBudget(sov, frameCrc);
    if maxPayload <= VARIABLE_BLOCK_OVERHEAD_BYTES then 0 else maxPayload - VARIABLE_BLOCK_OVERHEAD_BYTES
  }

  lemma {:induction false} BudgetBounds(sov: nat, frameCrc: bool)
    requires IsSov(sov)
    ensures 60000 < PayloadBudget(sov, frameCrc)
    ensures PayloadBudget(sov, frameCrc) + (if frameCrc then 4 else 0) < FieldLimit(sov)
  {
  }

  /** `MaxSamples` is exact: `n` samples and the overhead fit the budget iff `n` is at most it. */
  lemma {:induction false} MaxSamplesExact(overhead: nat, perSample: nat, sov: nat, frameCrc: bool, n: nat)
    requires IsSov(sov) && 0 < perSample <= 32 && overhead <= 21
    ensures overhead + n * perSample <= PayloadBudget(sov, frameCrc) <==>
            n <= MaxSamples(overhead, perSample, sov, frameCrc)
    ensures MaxSamples(overhead, perSample, sov, frameCrc) > 1000
  {
    BudgetBounds(sov, frameCrc);
    var room := PayloadBudget(sov, frameCrc) - overhead;
    DivGe(room, perSample, n);
    DivGe(room, perSample, 1001);
  }

  lemma DivGe(room: nat, d: nat, n: nat)
    requires d > 0
    ensures n * d <= room <==> n <= room / d
  {
    var q, r := room / d, room % d;
    assert room == q * d + r && 0 <= r < d;
    if n <= q {
      assert (q - n) * d >= 0;
      assert q * d == n * d + (q - n) * d;
    } else {
      MulAtLeast(n - q, d);
      assert n * d == q * d + (n - q) * d;
    }
  }
}
