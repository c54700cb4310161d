/**
 Byte strings and the little-endian integer helpers of binaryio_p.h.
 */
module Bytes {

  type byte = x: int | 0 <= x < 256
  type bytes = seq<byte>

  const TWO_TO_THE_16 := 0x1_0000
  const TWO_TO_THE_32 := 0x1_0000_0000
  const TWO_TO_THE_63 := 0x8000_0000_0000_0000
  const TWO_TO_THE_64 := 0x1_0000_0000_0000_0000

  type u16 = x: int | 0 <= x < TWO_TO_THE_16
  type u32 = x: int | 0 <= x < TWO_TO_THE_32
  type u64 = x: int | 0 <= x < TWO_TO_THE_64
  type i64 = x: int | -TWO_TO_THE_63 <= x < TWO_TO_THE_63

  /** 256 to the power `k`: how many values `k` bytes can hold. */
  function Pow256(k: nat): (p: nat)
    ensures p >= 1
  {
    if k == 0 then 1 else 256 * Pow256(k - 1)
  }

  lemma Pow256Values()
    ensures Pow256(1) == 256 && Pow256(2) == TWO_TO_THE_16
    ensures Pow256(4) == TWO_TO_THE_32 && Pow256(8) == TWO_TO_THE_64
  {
    assert Pow256(2) == 256 * Pow256(1);
    assert Pow256(3) == 256 * Pow256(2);
    assert Pow256(4) == 256 * Pow256(3);
    assert Pow256(5) == 256 * Pow256(4);
    assert Pow256(6) == 256 * Pow256(5);
    assert Pow256(7) == 256 * Pow256(6);
  }

  /** The low `k` bytes of `n`, least significant byte first. */
  function Le(n: nat, k: nat): (s: bytes)
    ensures |s| == k
    decreases k
  {
    if k == 0 then [] else [n % 256] + Le(n / 256, k - 1)
  }

  /** The number whose little-endian form is `s`. */
  function UnLe(s: bytes): (n: nat)
    ensures n < Pow256(|s|)
  {
    if s == [] then 0 else s[0] + 256 * UnLe(s[1..])
  }

  /** Reading back what was written truncates to the field's width. */
  lemma {:induction false} UnLeOfLe(n: nat, k: nat)
    ensures UnLe(Le(n, k)) == n % Pow256(k)
    decreases k
  {
    if k == 0 {
    } else {
      UnLeOfLe(n / 256, k - 1);
      var p := Pow256(k - 1);
      assert Le(n, k)[1..] == Le(n / 256, k - 1);
      ModSplit(n, p);
    }
  }

  lemma ModSplit(n: nat, p: nat)
    requires p >= 1
    ensures n % (256 * p) == n % 256 + 256 * ((n / 256) % p)
  {
    var q := (n / 256) / p;
    var r := (n / 256) % p;
    assert n / 256 == q * p + r;
    var m := n % 256 + 256 * r;
    assert n == q * (256 * p) + m;
    assert 0 <= m < 256 * p;
    DivModUnique(n, 256 * p, q, m);
  }

  lemma MulAtLeast(a: nat, d: nat)
    ensures a >= 1 ==> a * d >= d
  {
    if a >= 1 {
      assert a * d == (a - 1) * d + d;
    }
  }

  lemma MultipleInRange(x: int, d: int)
    requires d > 0 && -d < x * d < d
    ensures x == 0
  {
    MulAtLeast(if x >= 0 then x else -x, d);
    assert (-x) * d == -(x * d);
  }

  lemma DivModUnique(n: int, d: int, q: int, r: int)
    requires d > 0 && n == q * d + r && 0 <= r < d
    ensures n / d == q && n % d == r
  {
    var x, y := n / d, n % d;
    assert n == x * d + y;
    assert (x - q) * d == r - y;
    MultipleInRange(x - q, d);
  }

  lemma {:induction false} LeOfUnLe(s: bytes)
    ensures Le(UnLe(s), |s|) == s
  {
    if s != [] {
      LeOfUnLe(s[1..]);
      DivModUnique(UnLe(s), 256, UnLe(s[1..]), s[0]);
      assert s == [s[0]] + s[1..];
    }
  }

  /** Field widths the format uses: a value that fits comes back unchanged. */
  lemma LeRoundTrip(n: nat, k: nat)
    requires n < Pow256(k)
    ensures UnLe(Le(n, k)) == n
  {
    UnLeOfLe(n, k);
  }

  /** Two's-complement 64-bit form of a signed timestamp. */
  function LeI64(t: i64): (s: bytes)
    ensures |s| == 8
  {
    Le(if t >= 0 then t else t + TWO_TO_THE_64, 8)
  }

  function UnLeI64(s: bytes): i64
    requires |s| == 8
  {
    Pow256Values();
    var u := UnLe(s);
    if u >= TWO_TO_THE_63 then u - TWO_TO_THE_64 else u
  }

  lemma {:induction false} I64RoundTrip(t: i64)
    ensures UnLeI64(LeI64(t)) == t
  {
    Pow256Values();
    LeRoundTrip(if t >= 0 then t else t + TWO_TO_THE_64, 8);
  }

  lemma {:induction false} I64Canonical(s: bytes)
    requires |s| == 8
    ensures LeI64(UnLeI64(s)) == s
  {
    Pow256Values();
    LeOfUnLe(s);
  }

  /** A growable byte vector, the `std::vector<uint8_t>& out` of the encoders. */
  class ByteVector {
    var data: bytes

    constructor ()
      ensures data == []
    {
      data := [];
    }

    method Clear()
      modifies this
      ensures data == []
    {
      data := [];
    }

    method Append(more: bytes)
      modifies this
      ensures data == old(data) + more
    {
      data := data + more;
    }
  }
}
