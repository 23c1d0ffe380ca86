/** The bit operations the codec uses, written on binary digits, lowest digit first. */
module Bits {
  type byte = x: int | 0 <= x < 0x100

  // ----- Exclusive or -----

  function Differ(x: nat, y: nat): (d: nat)
    ensures d < 2
  {
    if x == y then 0 else 1
  }

  /** The exclusive or of two numbers, digit by digit. */
  function XorDigits(a: nat, b: nat): nat {
    if a == 0 && b == 0 then 0 else 2 * XorDigits(a / 2, b / 2) + Differ(a % 2, b % 2)
  }

  lemma XorHalves(a: nat, b: nat)
    ensures XorDigits(a, b) / 2 == XorDigits(a / 2, b / 2)
    ensures XorDigits(a, b) % 2 == Differ(a % 2, b % 2)
  {
    assert XorDigits(0, 0) == 0;
  }

  lemma {:induction false} SameDigits(a: nat, b: nat)
    requires a / 2 == b / 2 && a % 2 == b % 2
    ensures a == b
  {
  }

  lemma {:induction false} XorDigitsCommute(a: nat, b: nat)
    ensures XorDigits(a, b) == XorDigits(b, a)
  {
    if a != 0 || b != 0 {
      XorDigitsCommute(a / 2, b / 2);
    }
  }

  lemma {:induction false} XorDigitsRotate(a: nat, b: nat, c: nat)
    ensures XorDigits(XorDigits(a, b), c) == XorDigits(XorDigits(a, c), b)
    decreases a + b + c
  {
    if a + b + c > 0 {
      XorHalves(a, b);
      XorHalves(a, c);
      XorHalves(XorDigits(a, b), c);
      XorHalves(XorDigits(a, c), b);
      XorDigitsRotate(a / 2, b / 2, c / 2);
      SameDigits(XorDigits(XorDigits(a, b), c), XorDigits(XorDigits(a, c), b));
    }
  }

  lemma {:induction false} XorDigitsInjective(a: nat, b: nat, c: nat)
    requires XorDigits(a, c) == XorDigits(b, c)
    ensures a == b
    decreases a + b
  {
    if a + b > 0 {
      XorHalves(a, c);
      XorHalves(b, c);
      XorDigitsInjective(a / 2, b / 2, c / 2);
      SameDigits(a, b);
    }
  }

  lemma {:induction false} XorDigitsBound(a: nat, b: nat, n: nat)
    requires a < Power2(n) && b < Power2(n)
    ensures XorDigits(a, b) < Power2(n)
    decreases n
  {
    if n > 0 {
      XorDigitsBound(a / 2, b / 2, n - 1);
    }
  }

  function Power2(n: nat): nat {
    if n == 0 then 1 else 2 * Power2(n - 1)
  }

  lemma Power2Of8()
    ensures Power2(8) == 0x100
  {
    assert Power2(4) == 16;
    assert Power2(6) == 64;
  }

  function Xor(a: byte, b: byte): byte {
    Power2Of8();
    XorDigitsBound(a, b, 8);
    XorDigits(a, b)
  }

  lemma XorRotates(a: byte, b: byte, c: byte)
    ensures Xor(Xor(a, b), c) == Xor(Xor(a, c), b)
    ensures Xor(a, b) == Xor(b, a)
  {
    XorDigitsRotate(a, b, c);
    XorDigitsCommute(a, b);
  }

  lemma {:induction false} XorDigitsCancel(a: nat)
    ensures XorDigits(a, a) == 0
  {
    if a > 0 {
      XorDigitsCancel(a / 2);
    }
  }

  lemma XorCancels(a: byte)
    ensures Xor(a, a) == 0
  {
    XorDigitsCancel(a);
  }

  lemma XorInjective(a: byte, b: byte, c: byte)
    requires Xor(a, c) == Xor(b, c)
    ensures a == b
  {
    XorDigitsInjective(a, b, c);
  }

  // ----- Single bits -----

  predicate Bit(b: nat, k: nat) {
    if k == 0 then b % 2 == 1 else Bit(b / 2, k - 1)
  }

  /** b | (1 << k) */
  function SetDigit(b: nat, k: nat): nat {
    if k == 0 then b - b % 2 + 1 else 2 * SetDigit(b / 2, k - 1) + b % 2
  }

  /** b & !(1 << k) */
  function ClearDigit(b: nat, k: nat): nat {
    if k == 0 then b - b % 2 else 2 * ClearDigit(b / 2, k - 1) + b % 2
  }

  /** An even number below an even bound leaves room for one more. */
  lemma EvenBound(b: nat, half: nat)
    requires b < 2 * half
    ensures b - b % 2 + 1 < 2 * half && b / 2 < half
  {
  }

  lemma DoubledBound(d: nat, half: nat, digit: nat)
    requires d < half && digit < 2
    ensures 2 * d + digit < 2 * half
  {
  }

  lemma {:induction false} DigitBounds(b: nat, k: nat, n: nat)
    requires b < Power2(n) && k < n
    ensures SetDigit(b, k) < Power2(n) && ClearDigit(b, k) < Power2(n)
  {
    var half := Power2(n - 1);
    EvenBound(b, half);
    if k > 0 {
      DigitBounds(b / 2, k - 1, n - 1);
      DoubledBound(SetDigit(b / 2, k - 1), half, b % 2);
      DoubledBound(ClearDigit(b / 2, k - 1), half, b % 2);
    }
  }

  function SetBit(b: byte, k: nat): byte
    requires k < 8
  {
    Power2Of8();
    DigitBounds(b, k, 8);
    SetDigit(b, k)
  }

  function ClearBit(b: byte, k: nat): byte
    requires k < 8
  {
    Power2Of8();
    DigitBounds(b, k, 8);
    ClearDigit(b, k)
  }

  lemma {:induction false} SetDigitSets(b: nat, k: nat, j: nat)
    ensures Bit(SetDigit(b, k), j) <==> j == k || Bit(b, j)
  {
    if k > 0 && j > 0 {
      SetDigitSets(b / 2, k - 1, j - 1);
    }
  }

  lemma {:induction false} ClearDigitClears(b: nat, k: nat, j: nat)
    ensures Bit(ClearDigit(b, k), j) <==> j != k && Bit(b, j)
  {
    if k > 0 && j > 0 {
      ClearDigitClears(b / 2, k - 1, j - 1);
    }
  }

  /** A number below 2^n is determined by its lowest n digits. */
  lemma {:induction false} BitsDetermine(a: nat, b: nat, n: nat)
    requires a < Power2(n) && b < Power2(n)
    requires forall k :: 0 <= k < n ==> (Bit(a, k) <==> Bit(b, k))
    ensures a == b
  {
    if n > 0 {
      assert Bit(a, 0) <==> Bit(b, 0);
      forall k | 0 <= k < n - 1
        ensures Bit(a / 2, k) <==> Bit(b / 2, k)
      {
        assert Bit(a, k + 1) <==> Bit(b, k + 1);
      }
      BitsDetermine(a / 2, b / 2, n - 1);
    }
  }
}
