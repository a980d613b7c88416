/**
 The checksum of the session store: CRC-32 with the reflected polynomial 0xEDB88320, driven by a
 256-entry table. The bit-at-a-time register (section 8 of RFC 1952) is the reference.
 */
module Crc32 {
  import opened Bits
  import opened Bytes

  const POLY: nat := 0xEDB8_8320
  const MASK: nat := 0xFFFF_FFFF

  /** One bit of the shift register. */
  function BitStep(c: nat): nat {
    if c % 2 == 1 then Xor(POLY, c / 2) else c / 2
  }

  function BitSteps(c: nat, k: nat): nat
    decreases k
  {
    if k == 0 then c else BitSteps(BitStep(c), k - 1)
  }

  /** The reference update: exclusive-or the byte in, then shift eight bits out. */
  function Update(crc: nat, data: bytes): nat
    decreases |data|
  {
    if data == [] then crc else Update(BitSteps(Xor(crc, data[0]), 8), data[1..])
  }

  function Final(crc: nat): nat {
    Xor(crc, MASK)
  }

  /** The checksum of a whole byte string. */
  function Of(data: bytes): nat {
    Final(Update(MASK, data))
  }

  // --- the register is linear over exclusive or ---

  lemma FeedbackXor(p: nat, x: nat, y: nat)
    ensures Xor(Xor(p, x), y) == Xor(p, Xor(x, y))
    ensures Xor(x, Xor(p, y)) == Xor(p, Xor(x, y))
    ensures Xor(Xor(p, x), Xor(p, y)) == Xor(x, y)
  {
    hide Xor;
    XorAssoc(p, x, y);
    XorAssoc(x, p, y);
    XorComm(x, p);
    XorSwap(p, x, p, y);
    XorZero(p);
    XorZero(Xor(x, y));
  }

  lemma BitStepXor(a: nat, b: nat)
    ensures BitStep(Xor(a, b)) == Xor(BitStep(a), BitStep(b))
  {
    hide Xor;
    XorDigit(a, b);
    FeedbackXor(POLY, a / 2, b / 2);
    assert (a + b) % 2 == (a % 2 + b % 2) % 2;
  }

  lemma {:induction false} BitStepsXor(a: nat, b: nat, k: nat)
    ensures BitSteps(Xor(a, b), k) == Xor(BitSteps(a, k), BitSteps(b, k))
    decreases k
  {
    if k > 0 {
      BitStepXor(a, b);
      BitStepsXor(BitStep(a), BitStep(b), k - 1);
    }
  }

  /** Zero low bits are shifted out untouched. */
  lemma {:induction false} BitStepsShift(h: nat, k: nat)
    ensures BitSteps(Pow2(k) * h, k) == h
    decreases k
  {
    if k > 0 {
      Doubled(Pow2(k - 1), h);
      BitStepsShift(h, k - 1);
    }
  }

  // --- the table-driven update equals the reference ---

  /** What one table entry has to be. */
  predicate IsTable(t: seq<nat>) {
    |t| == 256 && forall i | 0 <= i < 256 :: t[i] == BitSteps(i, 8)
  }

  /** The register after one byte, as the table computes it. */
  lemma TableStep(crc: nat, b: u8)
    ensures Xor(BitSteps(Xor(crc, b) % 256, 8), crc / 256) == BitSteps(Xor(crc, b), 8)
  {
    hide Xor, BitSteps;
    assert Pow2(8) == 256 by { assert Pow2(4) == 16; }
    var lo, hi := crc % 256, crc / 256;
    XorSplit(lo, hi, b, 0, 8);
    XorZero(hi);
    XorBound(lo, b, 8);
    var y := Xor(lo, b);
    assert Xor(crc, b) == y + 256 * hi;
    XorSplit(y, 0, 0, hi, 8);
    XorZero(y);
    assert Xor(y, 256 * hi) == y + 256 * hi;
    BitStepsXor(y, 256 * hi, 8);
    BitStepsShift(hi, 8);
  }

  /** EnsureCrcTable: eight bit steps for every byte value. */
  method BuildTable() returns (t: array<nat>)
    ensures fresh(t) && IsTable(t[..])
  {
    t := new nat[256];
    for i := 0 to 256
      invariant forall j | 0 <= j < i :: t[j] == BitSteps(j, 8)
    {
      t[i] := TableEntry(i);
    }
  }

  method TableEntry(i: nat) returns (c: nat)
    ensures c == BitSteps(i, 8)
  {
    c := i;
    for k := 0 to 8
      invariant BitSteps(c, 8 - k) == BitSteps(i, 8)
    {
      c := if c % 2 == 1 then Xor(POLY, c / 2) else c / 2;
    }
  }

  /** Crc32Update: one table lookup per byte. */
  method UpdateByTable(table: array<nat>, crc: nat, data: bytes) returns (r: nat)
    requires IsTable(table[..])
    ensures r == Update(crc, data)
  {
    r := crc;
    for i := 0 to |data|
      invariant Update(r, data[i..]) == Update(crc, data)
    {
      TableStep(r, data[i]);
      assert data[i..][1..] == data[i + 1..];
      var low := Xor(r, data[i]) % 256;
      assert table[..][low] == BitSteps(low, 8);
      r := Xor(table[low], r / 256);
    }
  }

  // --- continuing a stored checksum ---

  lemma {:induction false} UpdateConcat(crc: nat, a: bytes, b: bytes)
    ensures Update(crc, a + b) == Update(Update(crc, a), b)
    decreases |a|
  {
    if a == [] {
      assert a + b == b;
    } else {
      assert (a + b)[1..] == a[1..] + b;
      UpdateConcat(BitSteps(Xor(crc, a[0]), 8), a[1..], b);
    }
  }

  /** Undoing the final inversion restores the register: the checksum of a longer string follows from
      the stored checksum of its prefix without the prefix. */
  lemma Continue(a: bytes, b: bytes)
    ensures Final(Update(Xor(Of(a), MASK), b)) == Of(a + b)
  {
    XorAssoc(Update(MASK, a), MASK, MASK);
    XorZero(MASK);
    XorZero(Update(MASK, a));
    UpdateConcat(MASK, a, b);
  }

  lemma {:induction false} BitStepsBound(c: nat, k: nat)
    requires c < Pow2(32)
    ensures BitSteps(c, k) < Pow2(32)
    decreases k
  {
    if k > 0 {
      Pow2Of32();
      if c % 2 == 1 { XorBound(POLY, c / 2, 32); }
      BitStepsBound(BitStep(c), k - 1);
    }
  }

  lemma Pow2Of32()
    ensures Pow2(32) == 0x1_0000_0000 && Pow2(31) == 0x8000_0000
  {
    assert Pow2(8) == 256 by { assert Pow2(4) == 16; }
    assert Pow2(16) == 0x1_0000 by { assert Pow2(12) == 0x1000; }
    assert Pow2(24) == 0x100_0000 by { assert Pow2(20) == 0x10_0000; }
    assert Pow2(28) == 0x1000_0000;
  }

  lemma {:induction false} UpdateBound(crc: nat, data: bytes)
    requires crc < Pow2(32)
    ensures Update(crc, data) < Pow2(32)
    decreases |data|
  {
    if data != [] {
      Pow2Of32();
      XorBound(crc, data[0], 32);
      BitStepsBound(Xor(crc, data[0]), 8);
      UpdateBound(BitSteps(Xor(crc, data[0]), 8), data[1..]);
    }
  }

  lemma FinalBound(c: nat)
    requires c < Pow2(32)
    ensures Final(c) < 0x1_0000_0000
  {
    Pow2Of32();
    XorBound(c, MASK, 32);
  }

  /** A checksum always fits the 32-bit header field. */
  lemma OfBound(data: bytes)
    ensures Of(data) < 0x1_0000_0000
  {
    Pow2Of32();
    UpdateBound(MASK, data);
    XorBound(Update(MASK, data), MASK, 32);
  }

  // --- strength: the register loses no information ---

  /** The polynomial sets the top bit and the shift clears it, so a step can be undone; a small result
      means that no feedback happened at all. */
  lemma {:induction false} BitStepsInjective(a: nat, b: nat, k: nat)
    requires a < Pow2(32) && b < Pow2(32) && BitSteps(a, k) == BitSteps(b, k)
    ensures a == b
    decreases k
  {
    if k > 0 {
      BitStepsBound(a, 1);
      BitStepsBound(b, 1);
      BitStepsInjective(BitStep(a), BitStep(b), k - 1);
      TopBit(a);
      TopBit(b);
      XorCancel(POLY, a / 2, if b % 2 == 1 then b / 2 else a / 2);
    }
  }

  lemma TopBit(c: nat)
    requires c < Pow2(32)
    ensures c % 2 == 1 <==> BitStep(c) >= Pow2(31)
  {
    Pow2Of32();
    if c % 2 == 1 {
      var low := POLY - Pow2(31);
      XorSplit(low, 1, c / 2, 0, 31);
      XorZero(1);
      assert POLY == low + Pow2(31) * 1;
    }
  }

  /** Undoing k steps from a register whose top k bits are clear is a plain left shift. */
  lemma {:induction false} BitStepsUndo(y: nat, k: nat, z: nat)
    requires k <= 32 && y < Pow2(32) && BitSteps(y, k) == z && z < Pow2(32 - k)
    ensures y == Pow2(k) * z
    decreases k
  {
    if k > 0 {
      BitStepsBound(y, 1);
      assert Pow2(32 - k + 1) == 2 * Pow2(32 - k);
      BitStepsUndo(BitStep(y), k - 1, z);
      BelowTopBit(k, z);
      EvenUndo(y, Pow2(k - 1), z);
    }
  }

  lemma EvenUndo(y: nat, p: nat, z: nat)
    requires y < Pow2(32) && BitStep(y) == p * z < Pow2(31)
    ensures y == (2 * p) * z
  {
    TopBit(y);
    assert (2 * p) * z == 2 * (p * z);
  }

  lemma BelowTopBit(k: nat, z: nat)
    requires 0 < k <= 32 && z < Pow2(32 - k)
    ensures Pow2(k - 1) * z < Pow2(31)
  {
    hide Pow2;
    Pow2Product(k - 1, 32 - k);
    LessProduct(Pow2(k - 1), z, Pow2(32 - k));
  }

  lemma LessProduct(p: nat, a: nat, b: nat)
    requires p > 0 && a < b
    ensures p * a < p * b
  {}

  lemma {:induction false} Pow2Product(a: nat, b: nat)
    ensures Pow2(a) * Pow2(b) == Pow2(a + b)
  {
    if a > 0 { Pow2Product(a - 1, b); }
  }

  lemma {:induction false} UpdateInjective(a: nat, b: nat, data: bytes)
    requires a < Pow2(32) && b < Pow2(32) && Update(a, data) == Update(b, data)
    ensures a == b
    decreases |data|
  {
    if data != [] {
      ByteStepBound(a, data[0]);
      ByteStepBound(b, data[0]);
      UpdateInjective(BitSteps(Xor(a, data[0]), 8), BitSteps(Xor(b, data[0]), 8), data[1..]);
      BitStepsInjective(Xor(a, data[0]), Xor(b, data[0]), 8);
      XorComm(a, data[0]);
      XorComm(b, data[0]);
      XorCancel(data[0], a, b);
    }
  }

  lemma ByteStepBound(a: nat, b: u8)
    requires a < Pow2(32)
    ensures Xor(a, b) < Pow2(32) && BitSteps(Xor(a, b), 8) < Pow2(32)
  {
    Pow2Of32();
    XorBound(a, b, 32);
    BitStepsBound(Xor(a, b), 8);
  }

  lemma {:induction false} FromLeBound(b: bytes)
    ensures FromLe(b) < Pow2(8 * |b|)
  {
    if b != [] {
      FromLeBound(b[1..]);
      Pow2Of8();
      Pow2Product(8, 8 * |b[1..]|);
    }
  }

  lemma Pow2Of8()
    ensures Pow2(8) == 256
  {
    assert Pow2(4) == 16;
  }

  /** Over at most four bytes, equal registers at the end mean that the data differ exactly by the
      difference of the registers at the start. */
  lemma {:induction false} BurstDifference(s: nat, s': nat, w: bytes, w': bytes)
    requires s < Pow2(32) && s' < Pow2(32) && |w| == |w'| <= 4
    requires Update(s, w) == Update(s', w')
    ensures Xor(s, s') == Xor(FromLe(w), FromLe(w'))
    decreases |w|
  {
    hide *;
    if w == [] {
      assert w' == [];
      UpdateNil(s);
      UpdateNil(s');
    } else {
      var b, b', r, r' := w[0], w'[0], w[1..], w'[1..];
      UpdateCons(s, w);
      UpdateCons(s', w');
      ByteStepBound(s, b);
      ByteStepBound(s', b');
      BurstDifference(BitSteps(Xor(s, b), 8), BitSteps(Xor(s', b'), 8), r, r');
      FromLeBound(r);
      FromLeBound(r');
      BurstStep(s, s', b, b', FromLe(r), FromLe(r'), |r|);
    }
  }

  lemma UpdateNil(s: nat)
    ensures Update(s, []) == s && Xor(s, s) == Xor(FromLe([]), FromLe([]))
  {
    XorZero(s);
  }

  lemma UpdateCons(s: nat, w: bytes)
    requires w != []
    ensures Update(s, w) == Update(BitSteps(Xor(s, w[0]), 8), w[1..])
    ensures FromLe(w) == w[0] + 256 * FromLe(w[1..])
  {}

  lemma BurstStep(s: nat, s': nat, b: u8, b': u8, h: nat, h': nat, n: nat)
    requires s < Pow2(32) && s' < Pow2(32) && n <= 3 && h < Pow2(8 * n) && h' < Pow2(8 * n)
    requires Xor(BitSteps(Xor(s, b), 8), BitSteps(Xor(s', b'), 8)) == Xor(h, h')
    ensures Xor(s, s') == Xor(b + 256 * h, b' + 256 * h')
  {
    hide *;
    var d := Xor(h, h');
    Pow2Of8();
    XorBound(h, h', 8 * n);
    WidenBound(d, n);
    BitStepsXor(Xor(s, b), Xor(s', b'), 8);
    ByteStepBound(s, b);
    ByteStepBound(s', b');
    XorBound(Xor(s, b), Xor(s', b'), 32);
    BitStepsUndo(Xor(Xor(s, b), Xor(s', b')), 8, d);
    XorSwap(s, b, s', b');
    XorSplit(b, h, b', h', 8);
    XorBound(b, b', 8);
    UndoLow(Xor(s, s'), Xor(b, b'), d);
  }

  lemma WidenBound(d: nat, n: nat)
    requires n <= 3 && d < Pow2(8 * n)
    ensures d < Pow2(24)
  {
    Pow2Product(8 * n, 24 - 8 * n);
    assert Pow2(8 * n) * Pow2(24 - 8 * n) >= Pow2(8 * n);
  }

  lemma UndoLow(x: nat, low: nat, d: nat)
    requires low < 256 && Xor(x, low) == 256 * d
    ensures x == low + 256 * d
  {
    hide Xor;
    Pow2Of8();
    XorAssoc(x, low, low);
    XorZero(low);
    XorZero(x);
    XorSplit(0, d, low, 0, 8);
    XorZero(d);
  }

  /** Any corruption confined to at most four consecutive bytes changes the checksum, whatever the length
      of the data around it. */
  lemma BurstDetected(pre: bytes, w: bytes, w': bytes, post: bytes)
    requires |w| == |w'| <= 4 && w != w'
    ensures Of(pre + w + post) != Of(pre + w' + post)
  {
    if Of(pre + w + post) == Of(pre + w' + post) {
      XorComm(Update(MASK, pre + w + post), MASK);
      XorComm(Update(MASK, pre + w' + post), MASK);
      XorCancel(MASK, Update(MASK, pre + w + post), Update(MASK, pre + w' + post));
      UpdateConcat(MASK, pre + w, post);
      UpdateConcat(MASK, pre + w', post);
      UpdateConcat(MASK, pre, w);
      UpdateConcat(MASK, pre, w');
      Pow2Of32();
      UpdateBound(MASK, pre);
      var s := Update(MASK, pre);
      UpdateBound(s, w);
      UpdateBound(s, w');
      UpdateInjective(Update(s, w), Update(s, w'), post);
      BurstDifference(s, s, w, w');
      XorZero(s);
      XorZero(FromLe(w));
      XorCancel(FromLe(w), FromLe(w), FromLe(w'));
      LeOfFromLe(w);
      LeOfFromLe(w');
    }
  }
}
