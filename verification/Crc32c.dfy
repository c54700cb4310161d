/**
 CRC-32C (Castagnoli). The reference is the bit-serial shift register of
 section 12.1 of RFC 3720 in its reflected form; the code under study is the
 slicing-by-8 table algorithm of crc32c.cpp.

 The word operations have names so that proofs can `hide` them: all reasoning
 above the first section is algebra over `Xor` and the register step.
 */
module Crc32cModel {
  import opened Bytes

  type word = bv32

  const ALL_ONES: word := 0xFFFF_FFFF

  function Xor(a: word, b: word): word { a ^ b }

  function Half(x: word): word { x >> 1 }

  function Odd(x: word): bool { x & 1 == 1 }

  function Low8(x: word): word { x & 0xFF }

  function Shift8(x: word): word { x >> 8 }

  /** `x` moved up by `k` bytes. */
  function Up(x: word, k: nat): word
    requires k <= 3
  {
    if k == 0 then x else if k == 1 then x << 8 else if k == 2 then x << 16 else x << 24
  }

  lemma XorAssociates(a: word, b: word, c: word)
    ensures Xor(Xor(a, b), c) == Xor(a, Xor(b, c))
  {
  }

  lemma XorCommutes(a: word, b: word)
    ensures Xor(a, b) == Xor(b, a)
  {
  }

  lemma XorIdentity(a: word)
    ensures Xor(a, a) == 0 && Xor(a, 0) == a
  {
  }

  lemma XorLaws(a: word, b: word, c: word)
    ensures Xor(Xor(a, b), c) == Xor(a, Xor(b, c))
    ensures Xor(a, b) == Xor(b, a)
    ensures Xor(a, a) == 0 && Xor(a, 0) == a
  {
    hide Xor;
    XorAssociates(a, b, c);
    XorCommutes(a, b);
    XorIdentity(a);
  }

  lemma XorCancel(a: word, b: word, c: word)
    ensures Xor(Xor(a, c), c) == a
    ensures Xor(a, c) == Xor(b, c) ==> a == b
  {
  }

  lemma XorSwap(a: word, b: word, c: word, d: word)
    ensures Xor(Xor(a, b), Xor(c, d)) == Xor(Xor(a, c), Xor(b, d))
  {
    hide Xor;
    XorLaws(a, b, Xor(c, d));
    XorLaws(b, c, d);
    XorLaws(c, b, d);
    XorLaws(a, c, Xor(b, d));
  }

  /** How a constant `p` moves through a sum. */
  lemma XorMove(p: word, x: word, y: word)
    ensures Xor(p, Xor(x, y)) == Xor(x, Xor(p, y))
    ensures Xor(p, Xor(x, y)) == Xor(Xor(p, x), y)
    ensures Xor(x, y) == Xor(Xor(p, x), Xor(p, y))
  {
    hide Xor;
    XorLaws(p, x, y);
    XorLaws(x, p, y);
    XorSwap(p, x, p, y);
    XorLaws(p, p, 0);
    XorLaws(Xor(x, y), 0, 0);
    XorLaws(0, Xor(x, y), 0);
  }

  // ---------------------------------------------------------------------
  // Bits of numbers. Bytes are integers elsewhere in the project; these
  // functions are the only bridge to words.
  // ---------------------------------------------------------------------

  function Push(o: bool, t: word): word { (if o then 1 else 0) | (t << 1) }

  function ToBits(n: nat, k: nat): word
    decreases k
  {
    if k == 0 then 0 else Push(n % 2 == 1, ToBits(n / 2, k - 1))
  }

  function ToNat(x: word, k: nat): nat
    decreases k
  {
    if k == 0 then 0 else (if Odd(x) then 1 else 0) + 2 * ToNat(Half(x), k - 1)
  }

  /** `x` needs at most `k` bits. */
  predicate Narrow(x: word, k: nat) {
    k < 8 ==> x < [1, 2, 4, 8, 0x10, 0x20, 0x40, 0x80][k]
  }

  predicate IsByte(x: word) { x < 0x100 }

  function Pow2(k: nat): (p: nat) {
    if k == 0 then 1 else 2 * Pow2(k - 1)
  }

  lemma PushNarrow(k: nat, o: bool, t: word)
    requires k < 8 && Narrow(t, k)
    ensures Narrow(Push(o, t), k + 1) && (k == 7 ==> IsByte(Push(o, t)))
    ensures Half(Push(o, t)) == t && Odd(Push(o, t)) == o
  {
  }

  lemma HalfNarrow(k: nat, x: word)
    requires k < 8 && Narrow(x, k + 1) && IsByte(x)
    ensures Narrow(Half(x), k) && IsByte(Half(x))
    ensures x == Push(Odd(x), Half(x))
  {
  }

  lemma ZeroNarrow()
    ensures Narrow(0, 0)
  {
  }

  lemma {:induction false} BitsNarrow(n: nat, k: nat)
    requires k <= 8
    ensures Narrow(ToBits(n, k), k) && (k == 8 ==> IsByte(ToBits(n, k)))
    decreases k
  {
    hide Push, Narrow, IsByte, Half, Odd;
    if k == 0 {
      ZeroNarrow();
    } else {
      BitsNarrow(n / 2, k - 1);
      PushNarrow(k - 1, n % 2 == 1, ToBits(n / 2, k - 1));
    }
  }

  lemma {:induction false} NatOfBits(n: nat, k: nat)
    requires k <= 8 && n < Pow2(k)
    ensures ToNat(ToBits(n, k), k) == n
    decreases k
  {
    hide Push, Narrow, IsByte, Half, Odd;
    if k > 0 {
      BitsNarrow(n / 2, k - 1);
      PushNarrow(k - 1, n % 2 == 1, ToBits(n / 2, k - 1));
      NatOfBits(n / 2, k - 1);
    }
  }

  lemma {:induction false} BitsOfNat(x: word, k: nat)
    requires k <= 8 && Narrow(x, k) && IsByte(x)
    ensures ToBits(ToNat(x, k), k) == x
    decreases k
  {
    if k > 0 {
      hide Push, Narrow, IsByte, Half, Odd;
      HalfNarrow(k - 1, x);
      BitsOfNat(Half(x), k - 1);
      assert ToNat(x, k) / 2 == ToNat(Half(x), k - 1);
    }
  }

  lemma {:induction false} NatBelow(x: word, k: nat)
    ensures ToNat(x, k) < Pow2(k)
    decreases k
  {
    hide Half, Odd;
    if k > 0 {
      NatBelow(Half(x), k - 1);
    }
  }

  lemma Pow2Of8()
    ensures Pow2(8) == 256
  {
    assert Pow2(4) == 2 * Pow2(3);
    assert Pow2(6) == 2 * Pow2(5);
  }

  /** A byte as it sits in the low end of a register. */
  function Wide(b: byte): word {
    ToBits(b, 8)
  }

  /** The low byte of a register, as a table index or a stored byte. */
  function LowByte(x: word): byte {
    NatBelow(Low8(x), 8);
    Pow2Of8();
    ToNat(Low8(x), 8)
  }

  lemma Low8IsByte(x: word)
    ensures IsByte(Low8(x))
    ensures IsByte(x) ==> Low8(x) == x
    ensures Narrow(x, 8)
  {
  }

  lemma WideOfLow(x: word)
    ensures Wide(LowByte(x)) == Low8(x)
  {
    hide Low8, IsByte, Narrow, Push, Half, Odd, ToBits, ToNat;
    Low8IsByte(x);
    Low8IsByte(Low8(x));
    BitsOfNat(Low8(x), 8);
  }

  lemma LowOfWide(b: byte)
    ensures IsByte(Wide(b)) && LowByte(Wide(b)) == b
  {
    hide Low8, IsByte, Narrow, Push, Half, Odd, ToBits, ToNat;
    BitsNarrow(b, 8);
    Low8IsByte(ToBits(b, 8));
    Pow2Of8();
    NatOfBits(b, 8);
  }

  // ---------------------------------------------------------------------
  // The reference: a serial register that takes one message bit at a time.
  // ---------------------------------------------------------------------

  /** One clock of the free-running register. */
  function Step(c: word): word {
    if Odd(c) then Xor(0x82F6_3B78, Half(c)) else Half(c)
  }

  /** One clock with a message bit: the feedback is the bit leaving the register xor the bit coming in. */
  function Clock(c: word, bit: bool): word {
    if Odd(c) != bit then Xor(0x82F6_3B78, Half(c)) else Half(c)
  }

  /** Clock in the low `k` bits of `n`, least significant first. */
  function ClockBits(c: word, n: nat, k: nat): word
    decreases k
  {
    if k == 0 then c else ClockBits(Clock(c, n % 2 == 1), n / 2, k - 1)
  }

  /** Clock in one byte. */
  function ClockByte(c: word, b: byte): word {
    ClockBits(c, b, 8)
  }

  /** Clock in a whole message. */
  function Serial(c: word, msg: bytes): word
    decreases |msg|
  {
    hide ClockByte;
    if msg == [] then c else Serial(ClockByte(c, msg[0]), msg[1..])
  }

  /** CRC-32C of a message: all-ones start, complemented at the end. */
  function Crc(msg: bytes): word {
    Xor(Serial(ALL_ONES, msg), ALL_ONES)
  }

  lemma {:induction false} SerialConcat(c: word, a: bytes, b: bytes)
    ensures Serial(c, a + b) == Serial(Serial(c, a), b)
    decreases |a|
  {
    hide ClockByte;
    if a == [] {
      assert a + b == b;
    } else {
      assert (a + b)[1..] == a[1..] + b;
      SerialConcat(ClockByte(c, a[0]), a[1..], b);
    }
  }

  /** Four clocks, one after the other, with the low bits of `n`. */
  lemma {:induction false} FourClocks(n: nat, k: nat, c0: word, c1: word, c2: word, c3: word, c4: word)
    requires c1 == Clock(c0, n % 2 == 1) && c2 == Clock(c1, n / 2 % 2 == 1)
    requires c3 == Clock(c2, n / 4 % 2 == 1) && c4 == Clock(c3, n / 8 % 2 == 1)
    ensures ClockBits(c0, n, k + 4) == ClockBits(c4, n / 16, k)
  {
    hide Clock;
    assert n / 2 / 2 == n / 4 && n / 4 / 2 == n / 8 && n / 8 / 2 == n / 16;
    assert ClockBits(c0, n, k + 4) == ClockBits(c1, n / 2, k + 3);
    assert ClockBits(c1, n / 2, k + 3) == ClockBits(c2, n / 4, k + 2);
    assert ClockBits(c2, n / 4, k + 2) == ClockBits(c3, n / 8, k + 1);
  }

  lemma ByteClocked(b: byte, c0: word, c4: word, c8: word)
    requires ClockBits(c0, b, 8) == ClockBits(c4, b / 16, 4)
             && ClockBits(c4, b / 16, 4) == ClockBits(c8, b / 16 / 16, 0)
    ensures ClockByte(c0, b) == c8
  {
  }

  lemma CheckByte1()
    ensures ClockByte(0xFFFF_FFFF, 49) == 0x6F0A_661C
  {
    hide ClockByte, ClockBits;
    FourClocks(49, 4, 0xFFFF_FFFF, 0x7FFF_FFFF, 0xBD09_C487, 0xDC72_D93B, 0xECCF_57E5);
    FourClocks(3, 0, 0xECCF_57E5, 0x7667_ABF2, 0xB9C5_EE81, 0xDE14_CC38, 0x6F0A_661C);
    ByteClocked(49, 0xFFFF_FFFF, 0xECCF_57E5, 0x6F0A_661C);
  }

  lemma CheckByte2()
    ensures ClockByte(0x6F0A_661C, 50) == 0x8CAA_3B9F
  {
    hide ClockByte, ClockBits;
    FourClocks(50, 4, 0x6F0A_661C, 0x3785_330E, 0x9934_A2FF, 0xCE6C_6A07, 0xE5C0_0E7B);
    FourClocks(3, 0, 0xE5C0_0E7B, 0x72E0_073D, 0x3970_039E, 0x1CB8_01CF, 0x8CAA_3B9F);
    ByteClocked(50, 0x6F0A_661C, 0xE5C0_0E7B, 0x8CAA_3B9F);
  }

  lemma CheckByte3()
    ensures ClockByte(0x8CAA_3B9F, 51) == 0xEF84_D04D
  {
    hide ClockByte, ClockBits;
    FourClocks(51, 4, 0x8CAA_3B9F, 0x4655_1DCF, 0x232A_8EE7, 0x9363_7C0B, 0xCB47_857D);
    FourClocks(3, 0, 0xCB47_857D, 0x65A3_C2BE, 0xB027_DA27, 0xDAE5_D66B, 0xEF84_D04D);
    ByteClocked(51, 0x8CAA_3B9F, 0xCB47_857D, 0xEF84_D04D);
  }

  lemma CheckByte4()
    ensures ClockByte(0xEF84_D04D, 52) == 0x09C5_0B11
  {
    hide ClockByte, ClockBits;
    FourClocks(52, 4, 0xEF84_D04D, 0xF534_535E, 0x7A9A_29AF, 0x3D4D_14D7, 0x9C50_B113);
    FourClocks(3, 0, 0x9C50_B113, 0x4E28_5889, 0x2714_2C44, 0x138A_1622, 0x09C5_0B11);
    ByteClocked(52, 0xEF84_D04D, 0x9C50_B113, 0x09C5_0B11);
  }

  lemma CheckByte5()
    ensures ClockByte(0x09C5_0B11, 53) == 0xE72E_DCCA
  {
    hide ClockByte, ClockBits;
    FourClocks(53, 4, 0x09C5_0B11, 0x04E2_8588, 0x0271_42C4, 0x83CE_9A1A, 0x41E7_4D0D);
    FourClocks(3, 0, 0x41E7_4D0D, 0x20F3_A686, 0x928F_E83B, 0xCBB1_CF65, 0xE72E_DCCA);
    ByteClocked(53, 0x09C5_0B11, 0x41E7_4D0D, 0xE72E_DCCA);
  }

  lemma CheckByte6()
    ensures ClockByte(0xE72E_DCCA, 54) == 0xBECA_8E79
  {
    hide ClockByte, ClockBits;
    FourClocks(54, 4, 0xE72E_DCCA, 0x7397_6E65, 0x39CB_B732, 0x9E13_E0E1, 0xCDFF_CB08);
    FourClocks(3, 0, 0xCDFF_CB08, 0xE409_DEFC, 0xF0F2_D406, 0x7879_6A03, 0xBECA_8E79);
    ByteClocked(54, 0xE72E_DCCA, 0xCDFF_CB08, 0xBECA_8E79);
  }

  lemma CheckByte7()
    ensures ClockByte(0xBECA_8E79, 55) == 0xEDBD_6815
  {
    hide ClockByte, ClockBits;
    FourClocks(55, 4, 0xBECA_8E79, 0x5F65_473C, 0xAD44_98E6, 0xD454_770B, 0xE8DC_00FD);
    FourClocks(3, 0, 0xE8DC_00FD, 0x746E_007E, 0xB8C1_3B47, 0xDE96_A6DB, 0xEDBD_6815);
    ByteClocked(55, 0xBECA_8E79, 0xE8DC_00FD, 0xEDBD_6815);
  }

  lemma CheckByte8()
    ensures ClockByte(0xEDBD_6815, 56) == 0x9F78_7F65
  {
    hide ClockByte, ClockBits;
    FourClocks(56, 4, 0xEDBD_6815, 0xF428_8F72, 0x7A14_47B9, 0xBFFC_18A4, 0xDD08_372A);
    FourClocks(3, 0, 0xDD08_372A, 0xEC72_20ED, 0x7639_1076, 0x3B1C_883B, 0x9F78_7F65);
    ByteClocked(56, 0xEDBD_6815, 0xDD08_372A, 0x9F78_7F65);
  }

  lemma CheckByte9()
    ensures ClockByte(0x9F78_7F65, 57) == 0x1CF9_6D7C
  {
    hide ClockByte, ClockBits;
    FourClocks(57, 4, 0x9F78_7F65, 0x4FBC_3FB2, 0x27DE_1FD9, 0x9119_3494, 0xCA7A_A132);
    FourClocks(3, 0, 0xCA7A_A132, 0xE7CB_6BE1, 0x73E5_B5F0, 0x39F2_DAF8, 0x1CF9_6D7C);
    ByteClocked(57, 0x9F78_7F65, 0xCA7A_A132, 0x1CF9_6D7C);
  }

  /** The algorithm's published check value: the CRC of the ASCII string 123456789. */
  lemma {:induction false} CheckValue()
    ensures Crc([49, 50, 51, 52, 53, 54, 55, 56, 57]) == 0xE306_9283
  {
    hide ClockByte, Serial;
    var msg: bytes := [49, 50, 51, 52, 53, 54, 55, 56, 57];
    assert msg[0..] == msg;
    CheckByte1();
    OneByte(0xFFFF_FFFF, msg, 0);
    CheckByte2();
    OneByte(0x6F0A_661C, msg, 1);
    CheckByte3();
    OneByte(0x8CAA_3B9F, msg, 2);
    CheckByte4();
    OneByte(0xEF84_D04D, msg, 3);
    CheckByte5();
    OneByte(0x09C5_0B11, msg, 4);
    CheckByte6();
    OneByte(0xE72E_DCCA, msg, 5);
    CheckByte7();
    OneByte(0xBECA_8E79, msg, 6);
    CheckByte8();
    OneByte(0xEDBD_6815, msg, 7);
    CheckByte9();
    OneByte(0x9F78_7F65, msg, 8);
    NothingFed(0x1CF9_6D7C, msg);
  }

  lemma NothingFed(c: word, msg: bytes)
    ensures Serial(c, msg[|msg|..]) == c
  {
  }

  // ---------------------------------------------------------------------
  // GF(2) linearity of the register.
  // ---------------------------------------------------------------------

  function Steps(c: word, k: nat): word
    decreases k
  {
    if k == 0 then c else Steps(Step(c), k - 1)
  }

  /** Clock `n` zero bytes through the register. */
  function Zeros(c: word, n: nat): word {
    Steps(c, 8 * n)
  }

  lemma ParityXor(a: word, b: word)
    ensures Odd(Xor(a, b)) == (Odd(a) != Odd(b))
    ensures Half(Xor(a, b)) == Xor(Half(a), Half(b))
  {
  }

  lemma StepXor(a: word, b: word)
    ensures Step(Xor(a, b)) == Xor(Step(a), Step(b))
  {
    hide Xor, Odd, Half;
    ParityXor(a, b);
    XorMove(0x82F6_3B78, Half(a), Half(b));
  }

  lemma {:induction false} StepsXor(a: word, b: word, k: nat)
    ensures Steps(Xor(a, b), k) == Xor(Steps(a, k), Steps(b, k))
    decreases k
  {
    hide Xor, Step;
    if k > 0 {
      StepXor(a, b);
      StepsXor(Step(a), Step(b), k - 1);
    }
  }

  lemma {:induction false} StepsAdd(c: word, j: nat, k: nat)
    ensures Steps(Steps(c, j), k) == Steps(c, j + k)
    decreases j
  {
    hide Step;
    if j > 0 {
      StepsAdd(Step(c), j - 1, k);
    }
  }

  lemma StepInjective(a: word, b: word)
    requires Step(a) == Step(b)
    ensures a == b
  {
  }

  lemma {:induction false} StepsInjective(a: word, b: word, k: nat)
    requires Steps(a, k) == Steps(b, k)
    ensures a == b
    decreases k
  {
    hide Step;
    if k > 0 {
      StepsInjective(Step(a), Step(b), k - 1);
      StepInjective(a, b);
    }
  }

  /** Clocking in a bit is a free clock of the register xor that bit. */
  lemma ClockIsStep(c: word, o: bool, t: word, k: nat)
    requires k < 8 && Narrow(t, k)
    ensures Step(Xor(c, Push(o, t))) == Xor(Clock(c, o), t)
  {
    hide Xor, Odd, Half, Push, Narrow;
    PushNarrow(k, o, t);
    ParityXor(c, Push(o, t));
    XorMove(0x82F6_3B78, Half(c), t);
  }

  lemma {:induction false} ClockBitsIsSteps(c: word, n: nat, k: nat)
    requires k <= 8
    ensures ClockBits(c, n, k) == Steps(Xor(c, ToBits(n, k)), k)
    decreases k
  {
    hide Xor, Step, Clock, Push, Narrow;
    if k == 0 {
      XorLaws(c, 0, 0);
    } else {
      BitsNarrow(n / 2, k - 1);
      ClockIsStep(c, n % 2 == 1, ToBits(n / 2, k - 1), k - 1);
      ClockBitsIsSteps(Clock(c, n % 2 == 1), n / 2, k - 1);
    }
  }

  /** One message byte: xor it into the low end, then clock eight times. */
  lemma ClockByteIsZeros(c: word, b: byte)
    ensures ClockByte(c, b) == Zeros(Xor(c, Wide(b)), 1)
  {
    hide Xor, Steps, ToBits, ClockBits;
    ClockBitsIsSteps(c, b, 8);
  }

  lemma ZerosXor(a: word, b: word, n: nat)
    ensures Zeros(Xor(a, b), n) == Xor(Zeros(a, n), Zeros(b, n))
  {
    hide Xor, Steps;
    StepsXor(a, b, 8 * n);
  }

  lemma ZerosAdd(c: word, m: nat, n: nat)
    ensures Zeros(Zeros(c, m), n) == Zeros(c, m + n)
  {
    hide Steps;
    StepsAdd(c, 8 * m, 8 * n);
  }

  lemma EvenStep(c: word)
    ensures !Odd(c) ==> Step(c) == Half(c)
  {
  }

  /** `x` has its low `k` bits clear. */
  predicate Clear(x: word, k: nat) {
    k <= 8 ==> x & [0, 1, 3, 7, 0xF, 0x1F, 0x3F, 0x7F, 0xFF][k] == 0
  }

  /** `x` shifted down `k` bits. */
  function Down(x: word, k: nat): word
  {
    if k == 0 then x
    else if k == 1 then x >> 1 else if k == 2 then x >> 2 else if k == 3 then x >> 3
    else if k == 4 then x >> 4 else if k == 5 then x >> 5 else if k == 6 then x >> 6
    else if k == 7 then x >> 7 else x >> 8
  }

  lemma ClearDown(x: word, k: nat)
    requires 0 < k <= 8 && Clear(x, k)
    ensures !Odd(x) && Clear(Half(x), k - 1) && Down(Half(x), k - 1) == Down(x, k)
  {
  }

  /** With nothing to feed back, the register simply moves down. */
  lemma {:induction false} ClearSteps(c: word, k: nat)
    requires k <= 8 && Clear(c, k)
    ensures Steps(c, k) == Down(c, k)
    decreases k
  {
    if k > 0 {
      hide Step, Odd, Half, Clear, Down;
      ClearDown(c, k);
      EvenStep(c);
      ClearSteps(Half(c), k - 1);
    }
  }

  // ---------------------------------------------------------------------
  // Registers as four bytes.
  // ---------------------------------------------------------------------

  lemma SplitLowByte(c: word)
    ensures c == Xor(Low8(c), Up(Shift8(c), 1))
    ensures Clear(Up(Shift8(c), 1), 8) && Down(Up(Shift8(c), 1), 8) == Shift8(c)
  {
  }

  /** The byte-table recurrence: one table lookup and one shift clock in a zero byte. */
  lemma ZeroByte(c: word)
    ensures Zeros(c, 1) == Xor(Zeros(Low8(c), 1), Shift8(c))
  {
    hide Xor, Steps, Low8, Shift8, Up, Clear, Down;
    SplitLowByte(c);
    ClearSteps(Up(Shift8(c), 1), 8);
    ZerosXor(Low8(c), Up(Shift8(c), 1), 1);
  }

  lemma UpDown(x: word, j: nat)
    requires IsByte(x) && j < 3
    ensures Up(x, 0) == x
    ensures Clear(Up(x, j + 1), 8) && Down(Up(x, j + 1), 8) == Up(x, j)
  {
  }

  /** Clocking `j` zero bytes undoes moving a byte up by `j`. */
  lemma {:induction false} ZerosUp(x: word, j: nat)
    requires IsByte(x) && j <= 3
    ensures Zeros(Up(x, j), j) == x
    decreases j
  {
    hide Steps, IsByte, Up, Clear, Down;
    if j == 0 {
      UpDown(x, 0);
      assert Zeros(x, 0) == x by { StepsNone(x); }
    } else {
      UpDown(x, j - 1);
      ClearSteps(Up(x, j), 8);
      ZerosUp(x, j - 1);
      ZerosAdd(Up(x, j), 1, j - 1);
    }
  }

  lemma StepsNone(x: word)
    ensures Steps(x, 0) == x
  {
  }

  /** Clocking a byte into an advanced register is the same as planting it higher up beforehand. */
  lemma Plant(x: word, b: byte, j: nat)
    requires j <= 3
    ensures ClockByte(Zeros(x, j), b) == Zeros(Xor(x, Up(Wide(b), j)), j + 1)
  {
    hide Xor, Steps, IsByte, Up, Wide, ClockByte, Zeros;
    LowOfWide(b);
    ClockByteIsZeros(Zeros(x, j), b);
    ZerosUp(Wide(b), j);
    ZerosXor(x, Up(Wide(b), j), j);
    ZerosAdd(Xor(x, Up(Wide(b), j)), j, 1);
  }

  /** Four bytes as a little-endian word, as `rd32` assembles them. */
  function Rd32(p: bytes): word
    requires |p| == 4
  {
    Wide(p[0]) | Up(Wide(p[1]), 1) | Up(Wide(p[2]), 2) | Up(Wide(p[3]), 3)
  }

  function Sum4(a: word, b: word, c: word, d: word): word {
    Xor(Xor(Xor(a, b), c), d)
  }

  lemma OrIsXor(a: word, b: word, c: word, d: word)
    requires IsByte(a) && IsByte(b) && IsByte(c) && IsByte(d)
    ensures a | Up(b, 1) | Up(c, 2) | Up(d, 3) == Sum4(a, Up(b, 1), Up(c, 2), Up(d, 3))
  {
  }

  lemma Rd32IsSum(p: bytes)
    requires |p| == 4
    ensures Rd32(p) == Sum4(Wide(p[0]), Up(Wide(p[1]), 1), Up(Wide(p[2]), 2), Up(Wide(p[3]), 3))
  {
    hide Wide, Up, IsByte, Sum4;
    LowOfWide(p[0]);
    LowOfWide(p[1]);
    LowOfWide(p[2]);
    LowOfWide(p[3]);
    OrIsXor(Wide(p[0]), Wide(p[1]), Wide(p[2]), Wide(p[3]));
  }

  lemma Serial4(c: word, p: bytes)
    requires |p| == 4
    ensures Serial(c, p) == ClockByte(ClockByte(ClockByte(ClockByte(c, p[0]), p[1]), p[2]), p[3])
  {
    hide ClockByte;
    assert p[1..][1..] == p[2..] && p[2..][1..] == p[3..] && p[3..][1..] == [];
    var c1 := ClockByte(c, p[0]);
    var c2 := ClockByte(c1, p[1]);
    var c3 := ClockByte(c2, p[2]);
    assert Serial(c, p) == Serial(c1, p[1..]);
    assert Serial(c1, p[1..]) == Serial(c2, p[2..]);
    assert Serial(c2, p[2..]) == Serial(c3, p[3..]);
    assert Serial(c3, p[3..]) == Serial(ClockByte(c3, p[3]), []);
  }

  /** Four message bytes: xor the word in, then clock four zero bytes. */
  lemma FeedWord(c: word, p: bytes)
    requires |p| == 4
    ensures Serial(c, p) == Zeros(Xor(c, Rd32(p)), 4)
  {
    hide Xor, Steps, Up, Wide, ClockByte, Zeros, Rd32;
    Serial4(c, p);
    Rd32IsSum(p);
    var (w0, w1, w2, w3) := (Wide(p[0]), Up(Wide(p[1]), 1), Up(Wide(p[2]), 2), Up(Wide(p[3]), 3));
    ClockByteIsZeros(c, p[0]);
    var x1 := Xor(c, w0);
    Plant(x1, p[1], 1);
    var x2 := Xor(x1, w1);
    Plant(x2, p[2], 2);
    var x3 := Xor(x2, w2);
    Plant(x3, p[3], 3);
    XorLaws(c, w0, w1);
    XorLaws(c, Xor(w0, w1), w2);
    XorLaws(c, Xor(Xor(w0, w1), w2), w3);
  }

  /** The `i`-th byte of a word, at the low end. */
  function ByteAt(x: word, i: nat): word
    requires i <= 3
  {
    Low8(if i == 0 then x else if i == 1 then x >> 8 else if i == 2 then x >> 16 else x >> 24)
  }

  lemma ByteAtIsByte(x: word, i: nat)
    requires i <= 3
    ensures IsByte(ByteAt(x, i))
  {
  }

  lemma SplitWord(x: word)
    ensures x == Sum4(ByteAt(x, 0), Up(ByteAt(x, 1), 1), Up(ByteAt(x, 2), 2), Up(ByteAt(x, 3), 3))
  {
  }

  lemma ZerosOfUp(x: word, j: nat, n: nat)
    requires IsByte(x) && j <= 3 && j <= n
    ensures Zeros(Up(x, j), n) == Zeros(x, n - j)
  {
    hide Steps, IsByte, Up, Zeros;
    ZerosUp(x, j);
    ZerosAdd(Up(x, j), j, n - j);
  }

  /** Advancing a word is the sum of advancing its four bytes, each a position later. */
  lemma {:induction false} ZerosBySlices(x: word, n: nat)
    requires n >= 4
    ensures Zeros(x, n) == Sum4(Zeros(ByteAt(x, 0), n), Zeros(ByteAt(x, 1), n - 1),
                                Zeros(ByteAt(x, 2), n - 2), Zeros(ByteAt(x, 3), n - 3))
  {
    hide Xor, Steps, Up, Zeros, ByteAt, IsByte;
    var (b0, b1, b2, b3) := (ByteAt(x, 0), Up(ByteAt(x, 1), 1), Up(ByteAt(x, 2), 2), Up(ByteAt(x, 3), 3));
    SplitWord(x);
    ByteAtIsByte(x, 1);
    ByteAtIsByte(x, 2);
    ByteAtIsByte(x, 3);
    ZerosXor(b0, b1, n);
    ZerosXor(Xor(b0, b1), b2, n);
    ZerosXor(Xor(Xor(b0, b1), b2), b3, n);
    ZerosOfUp(ByteAt(x, 1), 1, n);
    ZerosOfUp(ByteAt(x, 2), 2, n);
    ZerosOfUp(ByteAt(x, 3), 3, n);
  }

  /** Eight message bytes by slices. */
  lemma FeedTwoWords(c: word, p: bytes)
    requires |p| == 8
    ensures Serial(c, p) == Xor(Zeros(Xor(c, Rd32(p[..4])), 8), Zeros(Rd32(p[4..]), 4))
  {
    hide Xor, Steps, Zeros, Rd32, ClockByte;
    var lo, hi := p[..4], p[4..];
    assert p == lo + hi;
    SerialConcat(c, lo, hi);
    FeedWord(c, lo);
    var x := Xor(c, Rd32(lo));
    FeedWord(Zeros(x, 4), hi);
    ZerosXor(Zeros(x, 4), Rd32(hi), 4);
    ZerosAdd(x, 4, 4);
  }

  lemma LowByteOf(x: word, i: nat)
    requires i <= 3
    ensures Wide(LowByte(ByteAt(x, i))) == ByteAt(x, i)
  {
    hide Low8, Wide, LowByte, IsByte, Narrow;
    var y := if i == 0 then x else if i == 1 then x >> 8 else if i == 2 then x >> 16 else x >> 24;
    WideOfLow(ByteAt(x, i));
    Low8IsByte(y);
    Low8IsByte(Low8(y));
  }

  // ---------------------------------------------------------------------
  // The tables and the accumulator.
  // ---------------------------------------------------------------------

  /** Table `k` advances a byte by `k + 1` zero bytes. */
  ghost predicate TablesCorrect(t: array2<word>)
    reads t
  {
    && t.Length0 == 8 && t.Length1 == 256
    && forall k, n: byte :: 0 <= k < 8 ==> t[k, n] == Zeros(Wide(n), k + 1)
  }

  method MakeTables() returns (t: array2<word>)
    ensures fresh(t) && TablesCorrect(t)
  {
    hide Xor, Step, Steps, Wide, Low8, LowByte, Shift8;
    t := new word[8, 256];
    for n: int := 0 to 256
      invariant forall m: byte :: m < n ==> t[0, m] == Zeros(Wide(m), 1)
    {
      var c := Wide(n);
      for k := 0 to 8
        invariant Steps(c, 8 - k) == Steps(Wide(n), 8)
        invariant forall m: byte :: m < n ==> t[0, m] == Zeros(Wide(m), 1)
      {
        OneStep(c, 8 - k);
        c := Step(c);
      }
      StepsNone(c);
      assert c == Zeros(Wide(n), 1);
      t[0, n] := c;
    }
    for n: int := 0 to 256
      invariant forall m: byte :: t[0, m] == Zeros(Wide(m), 1)
      invariant forall k, m: byte :: 0 <= k < 8 && m < n ==> t[k, m] == Zeros(Wide(m), k + 1)
    {
      var c := t[0, n];
      for k := 1 to 8
        invariant c == Zeros(Wide(n), k)
        invariant forall m: byte :: t[0, m] == Zeros(Wide(m), 1)
        invariant forall j, m: byte :: 0 <= j < 8 && m < n ==> t[j, m] == Zeros(Wide(m), j + 1)
        invariant forall j :: 0 <= j < k ==> t[j, n] == Zeros(Wide(n), j + 1)
      {
        WideOfLow(c);
        ZeroByte(c);
        ZerosAdd(Wide(n), k, 1);
        c := Xor(t[0, LowByte(c)], Shift8(c));
        t[k, n] := c;
      }
    }
  }

  lemma OneStep(c: word, k: nat)
    requires k > 0
    ensures Steps(c, k) == Steps(Step(c), k - 1)
  {
  }

  lemma OneByte(c: word, msg: bytes, i: nat)
    requires i < |msg|
    ensures Serial(c, msg[i..]) == Serial(ClockByte(c, msg[i]), msg[i + 1..])
  {
    hide ClockByte;
    assert msg[i..][1..] == msg[i + 1..];
  }

  lemma EightBytes(c: word, msg: bytes, i: nat)
    requires i + 8 <= |msg|
    ensures Serial(c, msg[i..]) == Serial(Serial(c, msg[i..i + 8]), msg[i + 8..])
  {
    hide ClockByte;
    assert msg[i..] == msg[i..i + 8] + msg[i + 8..];
    SerialConcat(c, msg[i..i + 8], msg[i + 8..]);
  }

  /** Eight lookups are eight message bytes. */
  lemma {:induction false} SliceStep(t: array2<word>, crc: word, p: bytes)
    requires TablesCorrect(t) && |p| == 8
    ensures var c := Xor(crc, Rd32(p[..4]));
            var hi := Rd32(p[4..]);
            Sliced(t, c, hi) == Serial(crc, p)
  {
    hide Xor, Steps, Wide, LowByte, Rd32, Zeros, ByteAt, ClockByte;
    var c := Xor(crc, Rd32(p[..4]));
    var hi := Rd32(p[4..]);
    FeedTwoWords(crc, p);
    ZerosBySlices(c, 8);
    ZerosBySlices(hi, 4);
    LowByteOf(c, 0); LowByteOf(c, 1); LowByteOf(c, 2); LowByteOf(c, 3);
    LowByteOf(hi, 0); LowByteOf(hi, 1); LowByteOf(hi, 2); LowByteOf(hi, 3);
    var s := Sum4(Zeros(ByteAt(c, 0), 8), Zeros(ByteAt(c, 1), 7), Zeros(ByteAt(c, 2), 6), Zeros(ByteAt(c, 3), 5));
    var (h0, h1, h2, h3) := (Zeros(ByteAt(hi, 0), 4), Zeros(ByteAt(hi, 1), 3),
                             Zeros(ByteAt(hi, 2), 2), Zeros(ByteAt(hi, 3), 1));
    XorLaws(s, Xor(Xor(h0, h1), h2), h3);
    XorLaws(s, Xor(h0, h1), h2);
    XorLaws(s, h0, h1);
  }

  /** The eight-way xor of table entries in the main loop. */
  function Sliced(t: array2<word>, c: word, hi: word): word
    requires t.Length0 == 8 && t.Length1 == 256
    reads t
  {
    Xor(Xor(Xor(Xor(Xor(Xor(Xor(
      t[7, LowByte(ByteAt(c, 0))], t[6, LowByte(ByteAt(c, 1))]), t[5, LowByte(ByteAt(c, 2))]),
      t[4, LowByte(ByteAt(c, 3))]), t[3, LowByte(ByteAt(hi, 0))]), t[2, LowByte(ByteAt(hi, 1))]),
      t[1, LowByte(ByteAt(hi, 2))]), t[0, LowByte(ByteAt(hi, 3))])
  }

  /** One lookup is one message byte. */
  lemma {:induction false} TableStep(t: array2<word>, crc: word, b: byte)
    requires TablesCorrect(t)
    ensures Xor(t[0, LowByte(Xor(crc, Wide(b)))], Shift8(crc)) == ClockByte(crc, b)
  {
    hide Xor, Steps, Wide, LowByte, Zeros, ClockByte, Low8, Shift8;
    var x := Xor(crc, Wide(b));
    ClockByteIsZeros(crc, b);
    ZeroByte(x);
    WideOfLow(x);
    LowOfWide(b);
    ShiftOfXor(crc, Wide(b));
  }

  lemma ShiftOfXor(c: word, x: word)
    requires IsByte(x)
    ensures Shift8(Xor(c, x)) == Shift8(c)
  {
  }

  /** The incremental accumulator of crc32c.cpp. */
  class Crc32c {
    const t: array2<word>
    var crc: word
    /** Everything fed in since construction. */
    ghost var message: bytes

    ghost predicate Valid()
      reads this, t
    {
      TablesCorrect(t)
    }

    /** The accumulator is the register after the message. */
    ghost predicate Tracks()
      reads this
    {
      crc == Serial(ALL_ONES, message)
    }

    constructor (tables: array2<word>)
      requires TablesCorrect(tables)
      ensures Valid() && Tracks() && t == tables && crc == ALL_ONES && message == []
    {
      t := tables;
      crc := ALL_ONES;
      message := [];
    }

    /** Fold `data` into the running CRC: eight bytes a round, then byte by byte. */
    method Update(data: bytes)
      requires Valid()
      modifies this
      ensures Valid() && crc == Serial(old(crc), data)
      ensures message == old(message) + data && (old(Tracks()) ==> Tracks())
    {
      hide Xor, Steps, Wide, LowByte, Zeros, ClockByte, Shift8, Rd32, Sliced;
      var c := crc;
      var i := 0;
      while |data| - i >= 8
        invariant 0 <= i <= |data|
        invariant Serial(c, data[i..]) == Serial(old(crc), data) && message == old(message)
      {
        EightBytes(c, data, i);
        SliceStep(t, c, data[i..i + 8]);
        assert data[i..i + 8][..4] == data[i..i + 4] && data[i..i + 8][4..] == data[i + 4..i + 8];
        c := Xor(c, Rd32(data[i..i + 4]));
        var hi := Rd32(data[i + 4..i + 8]);
        c := Sliced(t, c, hi);
        i := i + 8;
      }
      while i < |data|
        invariant 0 <= i <= |data|
        invariant Serial(c, data[i..]) == Serial(old(crc), data) && message == old(message)
      {
        OneByte(c, data, i);
        TableStep(t, c, data[i]);
        c := Xor(t[0, LowByte(Xor(c, Wide(data[i])))], Shift8(c));
        i := i + 1;
      }
      assert data[i..] == [];
      crc := c;
      SerialConcat(ALL_ONES, message, data);
      message := message + data;
    }

    /** The CRC of everything fed in so far; feeding may go on. */
    method Value() returns (v: word)
      requires Tracks()
      ensures v == Crc(message)
    {
      v := Xor(crc, ALL_ONES);
    }
  }

  /** One-shot CRC of a buffer. */
  method OneShot(tables: array2<word>, data: bytes) returns (v: word)
    requires TablesCorrect(tables)
    ensures v == Crc(data)
  {
    var c := new Crc32c(tables);
    c.Update(data);
    v := c.Value();
  }

  // ---------------------------------------------------------------------
  // Stored form and burst detection.
  // ---------------------------------------------------------------------

  /** A word as `writeLeU32` stores it. */
  function StoredWord(x: word): (s: bytes)
    ensures |s| == 4
  {
    [LowByte(ByteAt(x, 0)), LowByte(ByteAt(x, 1)), LowByte(ByteAt(x, 2)), LowByte(ByteAt(x, 3))]
  }

  lemma StoredWordReadsBack(x: word)
    ensures Rd32(StoredWord(x)) == x
  {
    hide Xor, Wide, LowByte, Rd32, ByteAt, Up;
    LowByteOf(x, 0); LowByteOf(x, 1); LowByteOf(x, 2); LowByteOf(x, 3);
    Rd32IsSum(StoredWord(x));
    SplitWord(x);
  }

  /** The trailer both writers append: the stored CRC of everything before it. */
  function Trailer(msg: bytes): (s: bytes)
    ensures |s| == 4
  {
    StoredWord(Crc(msg))
  }

  /** What the reader checks of `msg + stored`. */
  predicate Checks(msg: bytes, stored: bytes)
    requires |stored| == 4
  {
    Crc(msg) == Rd32(stored)
  }

  lemma {:induction false} SealedChecks(msg: bytes)
    ensures Checks(msg, Trailer(msg))
  {
    hide Crc, Rd32, StoredWord;
    StoredWordReadsBack(Crc(msg));
  }

  /** The check succeeds exactly when the register ends on a fixed residue. */
  lemma {:induction false} ChecksIsResidue(msg: bytes, stored: bytes)
    requires |stored| == 4
    ensures Checks(msg, stored) <==> Serial(ALL_ONES, msg + stored) == Zeros(ALL_ONES, 4)
  {
    hide Xor, Zeros, Rd32, ClockByte, Steps;
    var r := Serial(ALL_ONES, msg);
    SerialConcat(ALL_ONES, msg, stored);
    FeedWord(r, stored);
    var w := Rd32(stored);
    if Xor(r, ALL_ONES) == w {
      XorLaws(r, r, ALL_ONES);
      XorLaws(ALL_ONES, 0, 0);
      XorLaws(0, ALL_ONES, 0);
    }
    if Zeros(Xor(r, w), 4) == Zeros(ALL_ONES, 4) {
      assert Xor(r, w) == ALL_ONES by { ZerosInjective(Xor(r, w), ALL_ONES, 4); }
      XorLaws(r, r, w);
      XorLaws(w, 0, 0);
      XorLaws(0, w, 0);
    }
  }

  lemma ZerosInjective(a: word, b: word, n: nat)
    requires Zeros(a, n) == Zeros(b, n)
    ensures a == b
  {
    hide Step;
    StepsInjective(a, b, 8 * n);
  }

  /** Equal messages keep distinct registers distinct. */
  lemma {:induction false} SerialInjective(c: word, d: word, msg: bytes)
    requires Serial(c, msg) == Serial(d, msg)
    ensures c == d
    decreases |msg|
  {
    hide ClockByte, Zeros, Xor, Wide;
    if msg != [] {
      SerialInjective(ClockByte(c, msg[0]), ClockByte(d, msg[0]), msg[1..]);
      ClockByteIsZeros(c, msg[0]);
      ClockByteIsZeros(d, msg[0]);
      ZerosInjective(Xor(c, Wide(msg[0])), Xor(d, Wide(msg[0])), 1);
      XorCancel(c, d, Wide(msg[0]));
    }
  }

  lemma Rd32Injective(p: bytes, q: bytes)
    requires |p| == 4 && |q| == 4 && Rd32(p) == Rd32(q)
    ensures p == q
  {
    hide Wide, LowByte, IsByte;
    LowOfWide(p[0]); LowOfWide(p[1]); LowOfWide(p[2]); LowOfWide(p[3]);
    LowOfWide(q[0]); LowOfWide(q[1]); LowOfWide(q[2]); LowOfWide(q[3]);
    OrInjective(Wide(p[0]), Wide(p[1]), Wide(p[2]), Wide(p[3]), Wide(q[0]), Wide(q[1]), Wide(q[2]), Wide(q[3]));
  }

  lemma OrInjective(a: word, b: word, c: word, d: word, a': word, b': word, c': word, d': word)
    requires IsByte(a) && IsByte(b) && IsByte(c) && IsByte(d)
    requires IsByte(a') && IsByte(b') && IsByte(c') && IsByte(d')
    requires a | Up(b, 1) | Up(c, 2) | Up(d, 3) == a' | Up(b', 1) | Up(c', 2) | Up(d', 3)
    ensures a == a' && b == b' && c == c' && d == d'
  {
  }

  /**
   A burst of up to four bytes never goes unnoticed: two byte strings that
   differ only inside one four-byte window leave the register different.
   */
  lemma {:induction false} BurstChangesRegister(c: word, pre: bytes, w: bytes, w': bytes, post: bytes)
    requires |w| == 4 && |w'| == 4 && w != w'
    ensures Serial(c, pre + w + post) != Serial(c, pre + w' + post)
  {
    hide ClockByte, Zeros, Xor, Rd32;
    var r := Serial(c, pre);
    SerialConcat(c, pre + w, post);
    SerialConcat(c, pre, w);
    SerialConcat(c, pre + w', post);
    SerialConcat(c, pre, w');
    FeedWord(r, w);
    FeedWord(r, w');
    if Serial(c, pre + w + post) == Serial(c, pre + w' + post) {
      SerialInjective(Serial(r, w), Serial(r, w'), post);
      ZerosInjective(Xor(r, Rd32(w)), Xor(r, Rd32(w')), 4);
      XorLaws(r, Rd32(w), 0);
      XorLaws(r, Rd32(w'), 0);
      XorCancel(Rd32(w), Rd32(w'), r);
      Rd32Injective(w, w');
    }
  }
}
