/** Bytes, fixed-width unsigned integers and the little-endian helpers of the session store. */
module Bytes {
  type u8 = x: int | 0 <= x < 0x100
  type u32 = x: int | 0 <= x < 0x1_0000_0000
  type u64 = x: int | 0 <= x < 0x1_0000_0000_0000_0000
  type i32 = x: int | -0x8000_0000 <= x < 0x8000_0000
  type bytes = seq<u8>

  /** 256 to the power n: the number of values that n bytes can hold. */
  function Pow256(n: nat): nat {
    if n == 0 then 1 else 256 * Pow256(n - 1)
  }

  /** The n low-order bytes of v, least significant first. */
  function Le(v: nat, n: nat): (r: bytes)
    ensures |r| == n
  {
    if n == 0 then [] else [v % 256] + Le(v / 256, n - 1)
  }

  /** The value of a little-endian byte string. */
  function FromLe(b: bytes): nat {
    if b == [] then 0 else b[0] + 256 * FromLe(b[1..])
  }

  /** A field that fits its width survives being written and read back. */
  lemma {:induction false} LeRoundTrip(v: nat, n: nat)
    requires v < Pow256(n)
    ensures FromLe(Le(v, n)) == v
  {
    if n > 0 {
      LeRoundTrip(v / 256, n - 1);
      assert Le(v, n)[1..] == Le(v / 256, n - 1);
    }
  }

  lemma {:induction false} LeOfFromLe(b: bytes)
    ensures Le(FromLe(b), |b|) == b && FromLe(b) < Pow256(|b|)
  {
    if b != [] {
      LeOfFromLe(b[1..]);
      DigitSplit(b[0], FromLe(b[1..]));
      assert b == [b[0]] + b[1..];
    }
  }

  lemma DigitSplit(d: u8, rest: nat)
    ensures (d + 256 * rest) % 256 == d && (d + 256 * rest) / 256 == rest
  {}

  lemma Pow256Values()
    ensures Pow256(4) == 0x1_0000_0000
    ensures Pow256(8) == 0x1_0000_0000_0000_0000
  {
    assert Pow256(1) == 256 && Pow256(2) == 0x1_0000 && Pow256(3) == 0x100_0000;
    assert Pow256(5) == 0x100_0000_0000 && Pow256(6) == 0x1_0000_0000_0000 && Pow256(7) == 0x100_0000_0000_0000;
  }

  function U32Of(b: bytes): (v: u32)
    requires |b| == 4
    ensures Le(v, 4) == b
  {
    Pow256Values();
    LeOfFromLe(b);
    FromLe(b)
  }

  function U64Of(b: bytes): (v: u64)
    requires |b| == 8
    ensures Le(v, 8) == b
  {
    Pow256Values();
    LeOfFromLe(b);
    FromLe(b)
  }

  lemma U32RoundTrip(v: u32)
    ensures U32Of(Le(v, 4)) == v
  {
    Pow256Values();
    LeRoundTrip(v, 4);
  }

  lemma U64RoundTrip(v: u64)
    ensures U64Of(Le(v, 8)) == v
  {
    Pow256Values();
    LeRoundTrip(v, 8);
  }

  /** PutU32: four shifts and masks. */
  method PutU32(out: bytes, v: u32) returns (r: bytes)
    ensures r == out + Le(v, 4)
  {
    r := out + [v % 256];
    r := r + [v / 0x100 % 256];
    r := r + [v / 0x1_0000 % 256];
    r := r + [v / 0x100_0000 % 256];
    assert v / 0x100 / 0x100 == v / 0x1_0000 && v / 0x1_0000 / 0x100 == v / 0x100_0000;
    assert Le(v, 4) == [v % 256] + Le(v / 0x100, 3);
    assert Le(v / 0x100, 3) == [v / 0x100 % 256] + Le(v / 0x1_0000, 2);
    assert Le(v / 0x1_0000, 2) == [v / 0x1_0000 % 256] + Le(v / 0x100_0000, 1);
    assert Le(v / 0x100_0000, 1) == [v / 0x100_0000 % 256] + [];
  }

  /** PutU64: one byte per iteration. */
  method PutU64(out: bytes, v: u64) returns (r: bytes)
    ensures r == out + Le(v, 8)
  {
    r := out;
    var shifted := v;
    for i := 0 to 8
      invariant shifted >= 0
      invariant r + Le(shifted, 8 - i) == out + Le(v, 8)
    {
      assert Le(shifted, 8 - i) == [shifted % 256] + Le(shifted / 256, 8 - i - 1);
      assert (r + [shifted % 256]) + Le(shifted / 256, 8 - i - 1) == r + Le(shifted, 8 - i);
      r := r + [shifted % 256];
      shifted := shifted / 256;
    }
    assert r + [] == r;
  }
}
