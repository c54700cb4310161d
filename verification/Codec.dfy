/**
 Writer frames against the reader: every frame the encoders emit reads back, any
 cut of a written data section reads back as its complete frames, and a sealed
 frame never survives a short burst of damage.
 */
module Codec {
  import opened Bytes
  import opened OsfTypes
  import opened Payload
  import opened Frame
  import opened BlockStream
  import opened Crc32cModel

  /** Bytes the frame CRC adds to a payload. */
  function Reserve(cfg: Config): nat {
    if cfg.integrity.NoIntegrity? then 0 else 4
  }

  /** `b` belongs to a declared channel of its own datatype and its length field does not wrap. */
  predicate Fits(cfg: Config, b: Block) {
    && Writable(b.kind)
    && b.channelIndex in cfg.channels
    && b.channelIndex != TRAILER_CHANNEL_INDEX
    && !IsSignature(cfg, b.channelIndex)
    && var info := cfg.channels[b.channelIndex];
       && IsSov(info.sov)
       && info.dataType == b.kind.dt
       && |EncodePayload(b.kind)| + Reserve(cfg) < FieldLimit(info.sov)
  }

  /** The block can be framed at this width, with its CRC if there is one; no reader is involved. */
  predicate Frameable(k: BlockKind, sov: nat, frameCrc: bool) {
    IsSov(sov) && Writable(k) && |EncodePayload(k)| + (if frameCrc then 4 else 0) < FieldLimit(sov)
  }

  /** The bytes a writer puts on disk for one block of channel `ci`. */
  function FrameBytes(ci: u16, sov: nat, frameCrc: bool, k: BlockKind): bytes
    requires Frameable(k, sov, frameCrc)
  {
    var f := FrameOf(ci, sov, EncodePayload(k));
    if frameCrc then Seal(f, sov) else f
  }

  predicate AllFrameable(ks: seq<BlockKind>, sov: nat, frameCrc: bool) {
    forall k :: k in ks ==> Frameable(k, sov, frameCrc)
  }

  /** Blocks of one channel, as bytes. */
  function BytesOf(ci: u16, sov: nat, frameCrc: bool, ks: seq<BlockKind>): bytes
    requires AllFrameable(ks, sov, frameCrc)
    decreases |ks|
  {
    if ks == [] then [] else FrameBytes(ci, sov, frameCrc, ks[0]) + BytesOf(ci, sov, frameCrc, ks[1..])
  }

  predicate AllFit(cfg: Config, bs: seq<Block>) {
    forall i :: 0 <= i < |bs| ==> Fits(cfg, bs[i])
  }

  /** The bytes a writer puts on disk for one block. */
  function EncodeBlock(cfg: Config, b: Block): (f: bytes)
    requires Fits(cfg, b)
    ensures |f| == 2 + cfg.channels[b.channelIndex].sov + |EncodePayload(b.kind)| + Reserve(cfg)
  {
    var sov := cfg.channels[b.channelIndex].sov;
    var f := FrameOf(b.channelIndex, sov, EncodePayload(b.kind));
    if cfg.integrity.NoIntegrity? then f else Seal(f, sov)
  }

  /** A reader's view of a frame and the writer's are the same bytes. */
  lemma {:induction false} FrameBytesAgree(cfg: Config, ci: u16, k: BlockKind)
    requires ci in cfg.channels && ci != TRAILER_CHANNEL_INDEX && !IsSignature(cfg, ci)
    requires Frameable(k, cfg.channels[ci].sov, !cfg.integrity.NoIntegrity?) && k.dt == cfg.channels[ci].dataType
    ensures Fits(cfg, Block(ci, k))
    ensures EncodeBlock(cfg, Block(ci, k)) == FrameBytes(ci, cfg.channels[ci].sov, !cfg.integrity.NoIntegrity?, k)
  {
    hide EncodePayload, Writable, FrameOf, Seal;
  }

  function EncodeAll(cfg: Config, bs: seq<Block>): bytes
    requires AllFit(cfg, bs)
  {
    if bs == [] then [] else EncodeBlock(cfg, bs[0]) + EncodeAll(cfg, bs[1..])
  }

  /** The blocks of one channel. */
  function Blocks(ci: u16, ks: seq<BlockKind>): (r: seq<Block>)
    ensures |r| == |ks|
  {
    seq(|ks|, i requires 0 <= i < |ks| => Block(ci, ks[i]))
  }

  function Oks(bs: seq<Block>): (r: seq<Result<Block>>)
    ensures |r| == |bs|
  {
    seq(|bs|, i requires 0 <= i < |bs| => Ok(bs[i]))
  }

  /** The payload as framed: with its trailer when the file carries CRCs. */
  function FramedPayload(cfg: Config, b: Block): (p: bytes)
    requires Fits(cfg, b)
    ensures |p| == |EncodePayload(b.kind)| + Reserve(cfg)
  {
    var p := EncodePayload(b.kind);
    if cfg.integrity.NoIntegrity? then p
    else p + Trailer(Le(b.channelIndex, 2) + Le(|p| + 4, cfg.channels[b.channelIndex].sov) + p)
  }

  lemma EncodeBlockIsFrame(cfg: Config, b: Block)
    requires Fits(cfg, b)
    ensures EncodeBlock(cfg, b) == FrameOf(b.channelIndex, cfg.channels[b.channelIndex].sov, FramedPayload(cfg, b))
  {
    hide EncodePayload, Writable, Seal, FrameOf, Trailer, Le;
    if !cfg.integrity.NoIntegrity? {
      SealIsFrame(b.channelIndex, cfg.channels[b.channelIndex].sov, EncodePayload(b.kind));
    }
  }

  lemma DeliverReadsBack(cfg: Config, b: Block)
    requires !cfg.osf4 && Fits(cfg, b)
    ensures |FramedPayload(cfg, b)| > 0
    ensures Deliver(cfg, b.channelIndex, cfg.channels[b.channelIndex], FramedPayload(cfg, b)) == Ok(b)
  {
    hide EncodePayload, Writable, Route, FrameCrcOk, Trailer, Le;
    var p := EncodePayload(b.kind);
    PayloadRoundTrip(b.kind, false);
    if !cfg.integrity.NoIntegrity? {
      SealedFrameChecks(b.channelIndex, cfg.channels[b.channelIndex].sov, p);
      assert FramedPayload(cfg, b)[..|p|] == p;
    }
  }

  /** A complete frame of a declared channel is delivered whole, whatever its payload says. */
  lemma {:induction false} FrameStep(cfg: Config, ci: u16, payload: bytes, rest: bytes)
    requires ci in cfg.channels && ci != TRAILER_CHANNEL_INDEX && !IsSignature(cfg, ci)
    requires IsSov(cfg.channels[ci].sov) && !cfg.channels[ci].dataType.Unsupported?
    requires 0 < |payload| < FieldLimit(cfg.channels[ci].sov)
    ensures var sov := cfg.channels[ci].sov;
            Next(cfg, FrameOf(ci, sov, payload) + rest)
            == Yield(Deliver(cfg, ci, cfg.channels[ci], payload), 2 + sov + |payload|, |payload|)
  {
    hide Deliver, UnLe, FrameOf, Le;
    FrameParts(ci, cfg.channels[ci].sov, payload, rest);
  }

  /** What a block that fits asks of its frame. */
  lemma FramedFits(cfg: Config, b: Block)
    requires Fits(cfg, b)
    ensures var ci := b.channelIndex;
            && ci in cfg.channels && ci != TRAILER_CHANNEL_INDEX && !IsSignature(cfg, ci)
            && IsSov(cfg.channels[ci].sov) && !cfg.channels[ci].dataType.Unsupported?
            && |FramedPayload(cfg, b)| < FieldLimit(cfg.channels[ci].sov)
  {
    hide EncodePayload, FramedPayload, IsSignature;
  }

  /** A written frame reads back as its block, and the reader stands right behind it. */
  lemma {:induction false} BlockReadsBack(cfg: Config, b: Block, rest: bytes)
    requires !cfg.osf4 && Fits(cfg, b)
    ensures var f := EncodeBlock(cfg, b);
            Next(cfg, f + rest) == Yield(Ok(b), |f|, |f| - 2 - cfg.channels[b.channelIndex].sov)
  {
    hide Deliver, FramedPayload, FrameOf, EncodePayload, Next, Writable, EncodeBlock, IsSignature, Fits, Reserve;
    FramedFits(cfg, b);
    EncodeBlockIsFrame(cfg, b);
    DeliverReadsBack(cfg, b);
    FrameStep(cfg, b.channelIndex, FramedPayload(cfg, b), rest);
  }

  lemma {:induction false} EncodeAllConcat(cfg: Config, a: seq<Block>, b: seq<Block>)
    requires AllFit(cfg, a) && AllFit(cfg, b)
    ensures AllFit(cfg, a + b)
    ensures EncodeAll(cfg, a + b) == EncodeAll(cfg, a) + EncodeAll(cfg, b)
    decreases |a|
  {
    hide EncodeBlock, Fits, EncodeAll;
    if a == [] {
      assert a + b == b;
      EncodeNothing(cfg);
      assert EncodeAll(cfg, a) + EncodeAll(cfg, b) == EncodeAll(cfg, b);
    } else {
      assert (a + b)[1..] == a[1..] + b && (a + b)[0] == a[0];
      EncodeAllHead(cfg, a);
      EncodeAllConcat(cfg, a[1..], b);
      EncodeAllHead(cfg, a + b);
      Associative(EncodeBlock(cfg, a[0]), EncodeAll(cfg, a[1..]), EncodeAll(cfg, b));
    }
  }

  lemma EncodeNothing(cfg: Config)
    ensures EncodeAll(cfg, []) == []
  {
  }

  /** How many complete frames the first `m` bytes hold. */
  function WholeFrames(cfg: Config, bs: seq<Block>, m: nat): (k: nat)
    requires AllFit(cfg, bs)
    ensures k <= |bs|
    decreases |bs|
  {
    if bs == [] || m < |EncodeBlock(cfg, bs[0])| then 0
    else 1 + WholeFrames(cfg, bs[1..], m - |EncodeBlock(cfg, bs[0])|)
  }

  /** The step on which a reader of `rest` finishes. */
  function LastStep(cfg: Config, rest: bytes): Step
    decreases |rest|
  {
    var s := Next(cfg, rest);
    if s.Yield? then LastStep(cfg, rest[s.used..]) else s
  }

  /** A prefix of a frame yields nothing; it counts as truncated once its channel index is there. */
  lemma PartialFrameBytes(cfg: Config, ci: u16, payload: bytes, j: nat)
    requires ci in cfg.channels && ci != TRAILER_CHANNEL_INDEX && !IsSignature(cfg, ci)
    requires IsSov(cfg.channels[ci].sov) && !cfg.channels[ci].dataType.Unsupported?
    requires 0 < |payload| < FieldLimit(cfg.channels[ci].sov)
    requires j < 2 + cfg.channels[ci].sov + |payload|
    ensures var s := Next(cfg, FrameOf(ci, cfg.channels[ci].sov, payload)[..j]);
            s.Finish? && s.truncated == (j >= 2) && !s.trailer
  {
    hide Deliver, UnLe, Le, FrameOf;
    var sov := cfg.channels[ci].sov;
    var f := FrameOf(ci, sov, payload);
    FrameParts(ci, sov, payload, []);
    assert f + [] == f;
    var a := f[..j];
    if j >= 2 {
      assert a[..2] == f[..2];
      if j >= 2 + sov {
        assert a[2..2 + sov] == f[2..2 + sov];
      }
    }
  }

  lemma PartialFrame(cfg: Config, b: Block, j: nat)
    requires Fits(cfg, b) && j < |EncodeBlock(cfg, b)|
    ensures var s := Next(cfg, EncodeBlock(cfg, b)[..j]);
            s.Finish? && s.truncated == (j >= 2) && !s.trailer
  {
    assert !b.kind.dt.Unsupported?;
    hide Next, EncodePayload, FramedPayload, FrameOf, Writable, EncodeBlock;
    PayloadNotEmpty(b.kind);
    EncodeBlockIsFrame(cfg, b);
    PartialFrameBytes(cfg, b.channelIndex, FramedPayload(cfg, b), j);
  }

  /** One written frame in front adds one item and leaves the rest of the run alone. */
  lemma FrameInFront(cfg: Config, b: Block, more: bytes)
    requires !cfg.osf4 && Fits(cfg, b)
    ensures var data := EncodeBlock(cfg, b) + more;
            Items(cfg, data) == [Ok(b)] + Items(cfg, more) && LastStep(cfg, data) == LastStep(cfg, more)
  {
    hide Next, EncodeBlock, Fits;
    var f := EncodeBlock(cfg, b);
    BlockReadsBack(cfg, b, more);
    assert (f + more)[|f|..] == more;
  }

  lemma NothingRead(cfg: Config, data: bytes)
    requires Next(cfg, data).Finish?
    ensures Items(cfg, data) == [] && LastStep(cfg, data) == Next(cfg, data)
  {
  }

  lemma EncodeAllHead(cfg: Config, a: seq<Block>)
    requires a != [] && AllFit(cfg, a)
    ensures Fits(cfg, a[0]) && AllFit(cfg, a[1..])
    ensures EncodeAll(cfg, a) == EncodeBlock(cfg, a[0]) + EncodeAll(cfg, a[1..])
    ensures Oks(a) == [Ok(a[0])] + Oks(a[1..])
  {
    hide EncodeBlock, Fits;
  }

  lemma Associative<T>(a: seq<T>, b: seq<T>, c: seq<T>)
    ensures (a + b) + c == a + (b + c)
  {
  }

  /** How a cut behind the first frame splits. */
  lemma CutBehindFirst(cfg: Config, bs: seq<Block>, m: nat)
    requires bs != [] && AllFit(cfg, bs) && |EncodeBlock(cfg, bs[0])| <= m <= |EncodeAll(cfg, bs)|
    ensures AllFit(cfg, bs[1..])
    ensures var f := EncodeBlock(cfg, bs[0]);
            var k := WholeFrames(cfg, bs[1..], m - |f|);
            && m - |f| <= |EncodeAll(cfg, bs[1..])|
            && EncodeAll(cfg, bs)[..m] == f + EncodeAll(cfg, bs[1..])[..m - |f|]
            && WholeFrames(cfg, bs, m) == 1 + k
            && EncodeAll(cfg, bs[..1 + k]) == f + EncodeAll(cfg, bs[1..][..k])
            && Oks(bs[..1 + k]) == [Ok(bs[0])] + Oks(bs[1..][..k])
  {
    hide EncodeBlock, Fits, EncodeAll, Oks, EncodePayload, Writable, Reserve;
    var f := EncodeBlock(cfg, bs[0]);
    EncodeAllHead(cfg, bs);
    WholeFramesHead(cfg, bs, m);
    hide WholeFrames;
    var k := WholeFrames(cfg, bs[1..], m - |f|);
    CutConcat(f, EncodeAll(cfg, bs[1..]), m);
    EncodeAllHead(cfg, bs[..1 + k]);
    assert bs[..1 + k][1..] == bs[1..][..k];
  }

  lemma {:induction false} WholeFramesHead(cfg: Config, bs: seq<Block>, m: nat)
    requires bs != [] && AllFit(cfg, bs) && m >= |EncodeBlock(cfg, bs[0])|
    ensures AllFit(cfg, bs[1..]) && WholeFrames(cfg, bs, m)
            == 1 + WholeFrames(cfg, bs[1..], m - |EncodeBlock(cfg, bs[0])|)
  {
    hide EncodeBlock, Fits, AllFit, EncodeAll, Oks, EncodePayload, Writable, Reserve;
    EncodeAllHead(cfg, bs);
  }

  lemma CutConcat(a: bytes, b: bytes, m: nat)
    requires |a| <= m <= |a| + |b|
    ensures (a + b)[..m] == a + b[..m - |a|]
  {
  }

  lemma CutBeforeFirst(cfg: Config, bs: seq<Block>, m: nat)
    requires AllFit(cfg, bs) && m <= |EncodeAll(cfg, bs)|
    requires bs != [] ==> m < |EncodeBlock(cfg, bs[0])|
    ensures WholeFrames(cfg, bs, m) == 0 && EncodeAll(cfg, bs[..0]) == [] && Oks(bs[..0]) == []
    ensures bs != [] ==> EncodeAll(cfg, bs)[..m] == EncodeBlock(cfg, bs[0])[..m]
    ensures bs == [] ==> m == 0
  {
    hide EncodeBlock, Fits;
    assert bs[..0] == [];
  }

  /** Cutting a written data section anywhere leaves exactly its complete frames. */
  lemma {:induction false} CutReadsBack(cfg: Config, bs: seq<Block>, m: nat)
    requires !cfg.osf4 && AllFit(cfg, bs) && m <= |EncodeAll(cfg, bs)|
    ensures var k := WholeFrames(cfg, bs, m);
            && |EncodeAll(cfg, bs[..k])| <= m
            && Items(cfg, EncodeAll(cfg, bs)[..m]) == Oks(bs[..k])
            && LastStep(cfg, EncodeAll(cfg, bs)[..m]).Finish?
            && LastStep(cfg, EncodeAll(cfg, bs)[..m]).truncated == (m - |EncodeAll(cfg, bs[..k])| >= 2)
    decreases |bs|
  {
    hide Next, EncodeBlock, Fits, Items, LastStep, Oks, EncodeAll, WholeFrames;
    if bs == [] {
      CutBeforeFirst(cfg, bs, m);
      EmptyStep(cfg, []);
      NothingRead(cfg, []);
      assert EncodeAll(cfg, bs)[..m] == [];
    } else if m < |EncodeBlock(cfg, bs[0])| {
      CutBeforeFirst(cfg, bs, m);
      PartialFrame(cfg, bs[0], m);
      NothingRead(cfg, EncodeAll(cfg, bs)[..m]);
    } else {
      CutBehindFirst(cfg, bs, m);
      var f := EncodeBlock(cfg, bs[0]);
      FrameInFront(cfg, bs[0], EncodeAll(cfg, bs[1..])[..m - |f|]);
      CutReadsBack(cfg, bs[1..], m - |f|);
    }
  }

  lemma EmptyStep(cfg: Config, data: bytes)
    requires |data| < 2
    ensures Next(cfg, data) == Finish(0, false, false)
  {
  }

  lemma {:induction false} AllFramesWhole(cfg: Config, bs: seq<Block>, m: nat)
    requires AllFit(cfg, bs) && m >= |EncodeAll(cfg, bs)|
    ensures WholeFrames(cfg, bs, m) == |bs|
    decreases |bs|
  {
    hide EncodeBlock, Fits, AllFit, EncodeAll, Oks, EncodePayload, Writable, Reserve;
    if bs != [] {
      EncodeAllHead(cfg, bs);
      WholeFramesHead(cfg, bs, m);
      AllFramesWhole(cfg, bs[1..], m - |EncodeBlock(cfg, bs[0])|);
    }
  }

  /** A written data section reads back block for block. */
  lemma {:induction false} AllReadBack(cfg: Config, bs: seq<Block>)
    requires !cfg.osf4 && AllFit(cfg, bs)
    ensures Items(cfg, EncodeAll(cfg, bs)) == Oks(bs)
  {
    hide Items, EncodeAll;
    var data := EncodeAll(cfg, bs);
    CutReadsBack(cfg, bs, |data|);
    AllFramesWhole(cfg, bs, |data|);
    assert data[..|data|] == data && bs[..|bs|] == bs;
  }

  // ---------------------------------------------------------------------
  // Damage.
  // ---------------------------------------------------------------------

  /** `g` differs from `f`, but only inside the four bytes from `p` on. */
  predicate Burst(f: bytes, g: bytes, p: nat) {
    && |g| == |f| && g != f
    && forall i :: 0 <= i < |f| && f[i] != g[i] ==> p <= i < p + 4
  }

  lemma BurstUndetectedNever(f: bytes, g: bytes, p: nat, floor: nat)
    requires Burst(f, g, p) && floor <= p && floor + 5 <= |f|
    ensures Serial(ALL_ONES, f) != Serial(ALL_ONES, g)
  {
    hide Serial;
    var q := if p + 4 <= |f| then p else |f| - 4;
    var (pre, w, w', post) := (f[..q], f[q..q + 4], g[q..q + 4], f[q + 4..]);
    assert f == pre + w + post;
    assert g == pre + w' + post;
    assert w != w';
    BurstChangesRegister(ALL_ONES, pre, w, w', post);
  }

  /** The residue form of the reader's frame check: it looks at the frame as one byte string. */
  lemma {:induction false} FrameCheckIsResidue(ci: u16, sov: nat, payload: bytes)
    requires IsSov(sov) && 4 <= |payload| < FieldLimit(sov)
    ensures FrameCrcOk(ci, sov, |payload|, payload) <==>
            Serial(ALL_ONES, FrameOf(ci, sov, payload)) == Zeros(ALL_ONES, 4)
  {
    hide Serial, Zeros, Le, Checks;
    var n := |payload| - 4;
    LePrefix(|payload|, sov, 4);
    var msg := Le(ci, 2) + Le(|payload|, sov) + payload[..n];
    assert msg + payload[n..] == FrameOf(ci, sov, payload);
    ChecksIsResidue(msg, payload[n..]);
  }

  /** A frame whose header survived is a frame with another payload. */
  lemma DamagedFrame(ci: u16, sov: nat, payload: bytes, g: bytes, p: nat)
    requires IsSov(sov) && Burst(FrameOf(ci, sov, payload), g, p) && p >= 2 + sov
    ensures g == FrameOf(ci, sov, g[2 + sov..])
  {
    hide Le;
    var f := FrameOf(ci, sov, payload);
    assert forall i :: 0 <= i < 2 + sov ==> g[i] == f[i];
    assert g[..2 + sov] == Le(ci, 2) + Le(|payload|, sov);
    assert g == g[..2 + sov] + g[2 + sov..];
  }

  /** A frame whose check fails is skipped, whatever its payload is. */
  lemma FailedCheckIsSkipped(cfg: Config, ci: u16, payload: bytes, rest: bytes)
    requires ci in cfg.channels && ci != TRAILER_CHANNEL_INDEX && !cfg.integrity.NoIntegrity? && !IsSignature(cfg, ci)
    requires IsSov(cfg.channels[ci].sov) && !cfg.channels[ci].dataType.Unsupported?
    requires 4 < |payload| < FieldLimit(cfg.channels[ci].sov)
    requires !FrameCrcOk(ci, cfg.channels[ci].sov, |payload|, payload)
    ensures var g := FrameOf(ci, cfg.channels[ci].sov, payload);
            var skip := Ok(SkippedBlock(cfg, ci, SkipReason(CrcFailed, 0), |payload|, payload));
            && Next(cfg, g + rest) == Yield(skip, |g|, |payload|)
            && Items(cfg, g + rest) == [skip] + Items(cfg, rest)
  {
    hide Next, FrameOf, FrameCrcOk, Items;
    var g := FrameOf(ci, cfg.channels[ci].sov, payload);
    FrameStep(cfg, ci, payload, rest);
    assert (g + rest)[|g|..] == rest;
    ItemsOfYield(cfg, g + rest);
  }

  /**
   Damage to at most four consecutive bytes behind the length field of a sealed
   frame is always noticed: the block comes out as a CRC skip and reading goes on
   at the following frame.
   */
  lemma {:induction false} BurstIsSkipped(cfg: Config, b: Block, g: bytes, p: nat, rest: bytes)
    requires !cfg.integrity.NoIntegrity? && Fits(cfg, b)
    requires Burst(EncodeBlock(cfg, b), g, p) && p >= 2 + cfg.channels[b.channelIndex].sov
    ensures var header := 2 + cfg.channels[b.channelIndex].sov;
            && |g| >= header
            && var skip := Ok(SkippedBlock(cfg, b.channelIndex, SkipReason(CrcFailed, 0), |g| - header, g[header..]));
            && Next(cfg, g + rest) == Yield(skip, |g|, |g| - header)
            && Items(cfg, g + rest) == [skip] + Items(cfg, rest)
  {
    hide Next, FrameOf, FramedPayload, EncodePayload, EncodeBlock, FrameCrcOk, Fits, Items, Burst, SkippedBlock;
    FitFacts(cfg, b);
    var (ci, sov) := (b.channelIndex, cfg.channels[b.channelIndex].sov);
    DamagedFrame(ci, sov, FramedPayload(cfg, b), g, p);
    BurstLength(EncodeBlock(cfg, b), g, p);
    DamagedCheckFails(cfg, b, g, p);
    FailedCheckIsSkipped(cfg, ci, g[2 + sov..], rest);
  }

  /** What later steps need to know of a fitting block. */
  lemma FitFacts(cfg: Config, b: Block)
    requires Fits(cfg, b)
    ensures var (ci, sov) := (b.channelIndex, cfg.channels[b.channelIndex].sov);
            && ci in cfg.channels && ci != TRAILER_CHANNEL_INDEX && !IsSignature(cfg, ci)
            && IsSov(sov) && !cfg.channels[ci].dataType.Unsupported?
            && 0 < |FramedPayload(cfg, b)| < FieldLimit(sov)
            && EncodeBlock(cfg, b) == FrameOf(ci, sov, FramedPayload(cfg, b))
  {
    assert !b.kind.dt.Unsupported?;
    hide FrameOf, FramedPayload, EncodePayload, EncodeBlock, Writable;
    PayloadNotEmpty(b.kind);
    EncodeBlockIsFrame(cfg, b);
  }

  lemma ItemsOfYield(cfg: Config, data: bytes)
    requires Next(cfg, data).Yield?
    ensures Items(cfg, data) == [Next(cfg, data).result] + Items(cfg, data[Next(cfg, data).used..])
  {
  }

  /** No payload within a burst of a passing one passes. */
  lemma BurstFailsCheck(ci: u16, sov: nat, payload: bytes, g: bytes, p: nat)
    requires IsSov(sov) && 5 <= |payload| < FieldLimit(sov)
    requires FrameCrcOk(ci, sov, |payload|, payload)
    requires Burst(FrameOf(ci, sov, payload), g, p) && p >= 2 + sov
    ensures !FrameCrcOk(ci, sov, |g| - 2 - sov, g[2 + sov..])
  {
    hide Serial, FrameOf, FrameCrcOk, Zeros;
    DamagedFrame(ci, sov, payload, g, p);
    FrameCheckIsResidue(ci, sov, payload);
    FrameCheckIsResidue(ci, sov, g[2 + sov..]);
    BurstUndetectedNever(FrameOf(ci, sov, payload), g, p, 2 + sov);
  }

  lemma DamagedCheckFails(cfg: Config, b: Block, g: bytes, p: nat)
    requires !cfg.integrity.NoIntegrity? && Fits(cfg, b)
    requires Burst(EncodeBlock(cfg, b), g, p) && p >= 2 + cfg.channels[b.channelIndex].sov
    ensures var (ci, sov) := (b.channelIndex, cfg.channels[b.channelIndex].sov);
            |g| >= 2 + sov + 5 && !FrameCrcOk(ci, sov, |g| - 2 - sov, g[2 + sov..])
  {
    hide FrameOf, FramedPayload, EncodePayload, EncodeBlock, FrameCrcOk, Writable, Burst;
    PayloadNotEmpty(b.kind);
    EncodeBlockIsFrame(cfg, b);
    FramedChecks(cfg, b);
    BurstFailsCheck(b.channelIndex, cfg.channels[b.channelIndex].sov, FramedPayload(cfg, b), g, p);
    assert |g| == |EncodeBlock(cfg, b)| by { BurstLength(EncodeBlock(cfg, b), g, p); }
  }

  lemma BurstLength(f: bytes, g: bytes, p: nat)
    requires Burst(f, g, p)
    ensures |g| == |f|
  {
  }

  lemma FramedChecks(cfg: Config, b: Block)
    requires !cfg.integrity.NoIntegrity? && Fits(cfg, b)
    ensures FrameCrcOk(b.channelIndex, cfg.channels[b.channelIndex].sov, |FramedPayload(cfg, b)|, FramedPayload(cfg, b))
  {
    hide EncodePayload, FrameCrcOk, Trailer, Le, Writable;
    SealedFrameChecks(b.channelIndex, cfg.channels[b.channelIndex].sov, EncodePayload(b.kind));
  }
}
