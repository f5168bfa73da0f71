/** The bitwise operators of C on unsigned numbers, digit by digit.

    A number is its sequence of binary digits: Bit reads one, and Xor, And and Or combine two
    numbers digit by digit.  The lemmas come in two groups: what each operator does to a digit,
    and the arithmetic that an operator comes down to for the masks the memory code uses (a
    shift, the low k digits, the digits from k on, numbers that share no digit). */
module Bitwise {
  import opened Widths

  function Pow2(k: nat): (p: nat)
    ensures p >= 1
  {
    if k == 0 then 1 else 2 * Pow2(k - 1)
  }

  predicate Bit(a: nat, k: nat)
    decreases k
  {
    if k == 0 then a % 2 == 1 else Bit(a / 2, k - 1)
  }

  function Xor(a: nat, b: nat): nat {
    if a == 0 && b == 0 then 0 else (if a % 2 != b % 2 then 1 else 0) + 2 * Xor(a / 2, b / 2)
  }

  function And(a: nat, b: nat): nat {
    if a == 0 && b == 0 then 0 else a % 2 * (b % 2) + 2 * And(a / 2, b / 2)
  }

  function Or(a: nat, b: nat): nat {
    if a == 0 && b == 0 then 0 else (if a % 2 + b % 2 > 0 then 1 else 0) + 2 * Or(a / 2, b / 2)
  }

  /** a >> k. */
  function ShiftRight(a: nat, k: nat): nat
    decreases k
  {
    if k == 0 then a else ShiftRight(a / 2, k - 1)
  }

  // ---------------------------------------------------------------- digits

  lemma {:induction false} ZeroHasNoBits(k: nat)
    ensures !Bit(0, k)
  {
    if k > 0 {
      ZeroHasNoBits(k - 1);
    }
  }

  lemma XorDigits(a: nat, b: nat)
    ensures (Xor(a, b) % 2 == 1 <==> a % 2 != b % 2) && Xor(a, b) / 2 == Xor(a / 2, b / 2)
  {
  }

  lemma {:induction false} XorBit(a: nat, b: nat, k: nat)
    ensures Bit(Xor(a, b), k) == (Bit(a, k) != Bit(b, k))
    decreases k
  {
    if a == 0 && b == 0 {
      ZeroHasNoBits(k);
    } else if k > 0 {
      XorDigits(a, b);
      XorBit(a / 2, b / 2, k - 1);
    }
  }

  lemma {:induction false} XorBound(a: nat, b: nat, k: nat)
    requires a < Pow2(k) && b < Pow2(k)
    ensures Xor(a, b) < Pow2(k)
    decreases k
  {
    if k > 0 {
      XorBound(a / 2, b / 2, k - 1);
    }
  }

  /** Toggling the same digits again restores the number. */
  lemma {:induction false} XorTwice(a: nat, b: nat)
    ensures Xor(Xor(a, b), b) == a
    decreases a + b
  {
    if a != 0 || b != 0 {
      var x := Xor(a, b);
      XorDigits(a, b);
      XorDigits(x, b);
      XorTwice(a / 2, b / 2);
      assert Xor(x, b) / 2 == a / 2 && Xor(x, b) % 2 == a % 2;
    }
  }

  lemma {:induction false} Pow2Bit(j: nat, k: nat)
    ensures Bit(Pow2(j), k) <==> j == k
    decreases k
  {
    if j == 0 && k > 0 {
      ZeroHasNoBits(k - 1);
    } else if j > 0 && k > 0 {
      Pow2Bit(j - 1, k - 1);
    }
  }

  lemma {:induction false} OnesBit(n: nat, k: nat)
    requires k < n
    ensures Bit(Pow2(n) - 1, k)
    decreases k
  {
    assert (Pow2(n) - 1) / 2 == Pow2(n - 1) - 1;
    if k > 0 {
      OnesBit(n - 1, k - 1);
    }
  }

  /** Any smaller number has a zero among its n digits. */
  lemma {:induction false} ZeroDigit(a: nat, n: nat) returns (k: nat)
    requires a < Pow2(n) - 1
    ensures k < n && !Bit(a, k)
    decreases n
  {
    if a % 2 == 0 {
      k := 0;
    } else {
      var j := ZeroDigit(a / 2, n - 1);
      k := j + 1;
    }
  }

  // ---------------------------------------------------------------- shifts and masks

  lemma {:induction false} ShiftBit(a: nat, k: nat)
    ensures Bit(a, k) <==> ShiftRight(a, k) % 2 == 1
    decreases k
  {
    if k > 0 {
      ShiftBit(a / 2, k - 1);
    }
  }

  lemma DivUnique(a: nat, p: nat, q: nat, r: nat)
    requires p >= 1 && r < p && a == q * p + r
    ensures a / p == q && a % p == r
  {
    var k := a / p - q;
    assert k * p == r - a % p;
  }

  lemma {:induction false} AndZero(a: nat)
    ensures And(a, 0) == 0
  {
    if a > 0 {
      AndZero(a / 2);
    }
  }

  lemma {:induction false} OrZero(a: nat)
    ensures Or(a, 0) == a
  {
    if a > 0 {
      OrZero(a / 2);
    }
  }

  /** Masking the low k digits. */
  lemma {:induction false} AndLow(a: nat, k: nat)
    ensures And(a, Pow2(k) - 1) == a % Pow2(k)
    decreases k
  {
    if k == 0 {
      AndZero(a);
    } else {
      AndLow(a / 2, k - 1);
      assert (Pow2(k) - 1) / 2 == Pow2(k - 1) - 1;
      ModHalf(a, Pow2(k - 1));
    }
  }

  lemma ModHalf(a: nat, p: nat)
    requires p >= 1
    ensures a % (2 * p) == a % 2 + 2 * (a / 2 % p)
    ensures a / (2 * p) == a / 2 / p
  {
    var q, r := a / 2 / p, a / 2 % p;
    assert a / 2 == q * p + r;
    assert a == q * (2 * p) + (a % 2 + 2 * r);
    DivUnique(a, 2 * p, q, a % 2 + 2 * r);
  }

  /** Combining numbers that share no digit. */
  lemma {:induction false} OrDisjoint(a: nat, b: nat, k: nat)
    requires a % Pow2(k) == 0 && b < Pow2(k)
    ensures Or(a, b) == a + b
    decreases k
  {
    if k == 0 {
      OrZero(a);
    } else {
      ModHalf(a, Pow2(k - 1));
      OrDisjoint(a / 2, b / 2, k - 1);
    }
  }

  /** Masking off the low k of n digits. */
  lemma {:induction false} AndHigh(a: nat, k: nat, n: nat)
    requires k <= n && a < Pow2(n)
    ensures Pow2(k) <= Pow2(n) && And(a, Pow2(n) - Pow2(k)) == a - a % Pow2(k)
    decreases n
  {
    if k == 0 {
      AndLow(a, n);
      Pow2Monotone(0, n);
      DivUnique(a, Pow2(n), 0, a);
    } else {
      AndHigh(a / 2, k - 1, n - 1);
      assert (Pow2(n) - Pow2(k)) / 2 == Pow2(n - 1) - Pow2(k - 1);
      ModHalf(a, Pow2(k - 1));
    }
  }

  lemma {:induction false} Pow2Monotone(k: nat, n: nat)
    requires k <= n
    ensures Pow2(k) <= Pow2(n)
  {
    if k < n {
      Pow2Monotone(k, n - 1);
    }
  }

  /** Testing, setting and clearing digit 0 and digit 1. */
  lemma LowDigits(a: nat)
    ensures And(a, 1) == a % 2
    ensures And(a, 2) == a / 2 % 2 * 2
    ensures Or(a, 1) == a - a % 2 + 1
    ensures Or(a, 2) == a + (1 - a / 2 % 2) * 2
  {
    AndZero(a / 2);
    AndZero(a / 2 / 2);
    OrZero(a / 2);
    OrZero(a / 2 / 2);
  }

  /** Shifting digit k down and testing it. */
  lemma ShiftedDigit(a: nat, k: nat)
    ensures And(ShiftRight(a, k), 1) == if Bit(a, k) then 1 else 0
  {
    ShiftBit(a, k);
    LowDigits(ShiftRight(a, k));
  }

  lemma Powers()
    ensures Pow2(10) == 1024 && Pow2(12) == 4096 && Pow2(22) == 0x40_0000 && Pow2(32) == UINT32
  {
  }
}
