/** Remainders along a counter.

    Mod is C's unsigned % by repeated subtraction.  Stated this way, what the invariants of a
    circular buffer need (the next slot, the k-th slot from here, slots that differ) follows by
    induction on the counter; that it is the remainder of the usual division is one lemma,
    ModIsRemainder. */
module Modular {

  function Mod(a: nat, n: nat): (r: nat)
    requires n >= 1
    ensures r < n
  {
    if a < n then a else Mod(a - n, n)
  }

  lemma {:induction false} ModIsRemainder(a: nat, n: nat)
    requires n >= 1
    ensures Mod(a, n) == a % n
  {
    if a >= n {
      ModIsRemainder(a - n, n);
      var q := (a - n) / n;
      assert a == (q + 1) * n + (a - n) % n;
      Remainder(a, q + 1, (a - n) % n, n);
    }
  }

  lemma Remainder(a: nat, q: nat, r: nat, n: nat)
    requires n >= 1 && r < n && a == q * n + r
    ensures a % n == r
  {
    var k := a / n - q;
    assert k * n == r - a % n;
  }

  lemma {:induction false} ModStep(a: nat, n: nat)
    requires n >= 1
    ensures Mod(Mod(a, n) + 1, n) == Mod(a + 1, n)
  {
    if a >= n {
      ModStep(a - n, n);
    }
  }

  /** Fewer than n steps never come back to the same slot. */
  lemma {:induction false} ModDistinct(a: nat, b: nat, n: nat)
    requires a < b < a + n
    ensures Mod(a, n) != Mod(b, n)
  {
    if a >= n {
      ModDistinct(a - n, b - n, n);
    }
  }

  lemma {:induction false} ModAdd(a: nat, k: nat, n: nat)
    requires n >= 1
    ensures Mod(Mod(a, n) + k, n) == Mod(a + k, n)
  {
    if a >= n {
      ModAdd(a - n, k, n);
    }
  }
}
