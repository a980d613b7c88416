/** Exclusive or on unbounded naturals, digit by digit, with the algebra the checksum needs. */
module Bits {
  function Pow2(n: nat): (p: nat)
    ensures p > 0
  {
    if n == 0 then 1 else 2 * Pow2(n - 1)
  }

  function Xor(a: nat, b: nat): nat {
    if a == 0 && b == 0 then 0 else (a + b) % 2 + 2 * Xor(a / 2, b / 2)
  }

  lemma {:induction false} XorBound(a: nat, b: nat, n: nat)
    requires a < Pow2(n) && b < Pow2(n)
    ensures Xor(a, b) < Pow2(n)
  {
    if n > 0 { XorBound(a / 2, b / 2, n - 1); }
  }

  lemma {:induction false} XorComm(a: nat, b: nat)
    ensures Xor(a, b) == Xor(b, a)
  {
    if a != 0 || b != 0 { XorComm(a / 2, b / 2); }
  }

  lemma {:induction false} XorZero(a: nat)
    ensures Xor(a, 0) == a && Xor(0, a) == a && Xor(a, a) == 0
  {
    if a != 0 { XorZero(a / 2); }
  }

  lemma {:induction false} XorAssoc(a: nat, b: nat, c: nat)
    ensures Xor(Xor(a, b), c) == Xor(a, Xor(b, c))
    decreases a + b + c
  {
    if a != 0 || b != 0 || c != 0 {
      hide Xor;
      XorAssoc(a / 2, b / 2, c / 2);
      XorDigit(a, b);
      XorDigit(b, c);
      XorDigit(Xor(a, b), c);
      XorDigit(a, Xor(b, c));
      ParityOfSum(c, Xor(a, b), a + b);
      ParityOfSum(a, Xor(b, c), b + c);
      SameDigits(Xor(Xor(a, b), c), Xor(a, Xor(b, c)));
    }
  }

  lemma XorDigit(a: nat, b: nat)
    ensures Xor(a, b) % 2 == (a + b) % 2 && Xor(a, b) / 2 == Xor(a / 2, b / 2)
  {
    if a != 0 || b != 0 { Digit((a + b) % 2, Xor(a / 2, b / 2)); }
  }

  lemma Digit(d: nat, r: nat)
    requires d < 2
    ensures (d + 2 * r) % 2 == d && (d + 2 * r) / 2 == r
  {}

  /** A number is its low bit and its half. */
  lemma SameDigits(x: nat, y: nat)
    requires x % 2 == y % 2 && x / 2 == y / 2
    ensures x == y
  {}

  lemma ParityOfSum(x: nat, y: nat, z: nat)
    requires y % 2 == z % 2
    ensures (x + y) % 2 == (x + z) % 2 && (y + x) % 2 == (z + x) % 2
  {}

  lemma XorCancel(a: nat, b: nat, c: nat)
    requires Xor(a, b) == Xor(a, c)
    ensures b == c
  {
    XorAssoc(a, a, b);
    XorAssoc(a, a, c);
    XorZero(a);
    XorZero(b);
    XorZero(c);
  }

  /** (a ^ b) ^ (c ^ d) == (a ^ c) ^ (b ^ d) */
  lemma XorSwap(a: nat, b: nat, c: nat, d: nat)
    ensures Xor(Xor(a, b), Xor(c, d)) == Xor(Xor(a, c), Xor(b, d))
  {
    calc {
      Xor(Xor(a, b), Xor(c, d));
      { XorAssoc(a, b, Xor(c, d)); XorAssoc(b, c, d); }
      Xor(a, Xor(Xor(b, c), d));
      { XorComm(b, c); XorAssoc(c, b, d); XorAssoc(a, c, Xor(b, d)); }
      Xor(Xor(a, c), Xor(b, d));
    }
  }

  /** Exclusive or acts on the low k bits and on the rest independently. */
  lemma {:induction false} XorSplit(x: nat, y: nat, x': nat, y': nat, k: nat)
    requires x < Pow2(k) && x' < Pow2(k)
    ensures Xor(x + Pow2(k) * y, x' + Pow2(k) * y') == Xor(x, x') + Pow2(k) * Xor(y, y')
  {
    if k == 0 {
      XorZero(0);
    } else {
      var p := Pow2(k - 1);
      XorSplit(x / 2, y, x' / 2, y', k - 1);
      hide Xor, Pow2;
      Doubled(p, y);
      Doubled(p, y');
      Doubled(p, Xor(y, y'));
      XorSplitStep(x, p * y, x', p * y', p * Xor(y, y'));
    }
  }

  lemma Doubled(p: nat, y: nat)
    ensures (2 * p) * y == 2 * (p * y) && p * y >= 0
  {}

  /** One more low digit. */
  lemma XorSplitStep(x: nat, h: nat, x': nat, h': nat, g: nat)
    requires Xor(x / 2 + h, x' / 2 + h') == Xor(x / 2, x' / 2) + g
    ensures Xor(x + 2 * h, x' + 2 * h') == Xor(x, x') + 2 * g
  {
    hide Xor;
    var a, b := x + 2 * h, x' + 2 * h';
    XorDigit(a, b);
    XorDigit(x, x');
    ParityOfSum(a, b, x');
    ParityOfSum(x', a, x);
    SameDigits(Xor(a, b), Xor(x, x') + 2 * g);
  }
}
