/** Bit masks of natural numbers, as recursion over the bits. */
module Bits {

  /** 1 << n */
  function Pow2(n: nat): (r: nat)
    ensures r >= 1
  {
    if n == 0 then 1 else 2 * Pow2(n - 1)
  }

  /** x & ((1 << d) - 1) */
  function Low(x: nat, d: nat): nat {
    if d == 0 then 0 else x % 2 + 2 * Low(x / 2, d - 1)
  }

  /** x & (1 << d), as a truth value */
  predicate Bit(x: nat, d: nat) {
    if d == 0 then x % 2 == 1 else Bit(x / 2, d - 1)
  }

  /** x >> d */
  function Shr(x: nat, d: nat): nat {
    if d == 0 then x else Shr(x / 2, d - 1)
  }

  /** x ^ (1 << d) */
  function Toggle(x: nat, d: nat): nat {
    if d == 0 then if x % 2 == 1 then x - 1 else x + 1
    else x % 2 + 2 * Toggle(x / 2, d - 1)
  }

  lemma {:induction false} LowBound(x: nat, d: nat)
    ensures Low(x, d) < Pow2(d)
  {
    if d > 0 { LowBound(x / 2, d - 1); }
  }

  lemma {:induction false} LowOfSmall(x: nat, d: nat)
    requires x < Pow2(d)
    ensures Low(x, d) == x
  {
    if d > 0 { LowOfSmall(x / 2, d - 1); }
  }

  /** The low d + 1 bits agree exactly when the low d bits and bit d do. */
  lemma {:induction false} LowStep(x: nat, y: nat, d: nat)
    ensures Low(x, d + 1) == Low(y, d + 1) <==> Low(x, d) == Low(y, d) && Bit(x, d) == Bit(y, d)
  {
    if d > 0 { LowStep(x / 2, y / 2, d - 1); }
  }

  lemma {:induction false} LowMono(x: nat, y: nat, d: nat, e: nat)
    requires d <= e && Low(x, e) == Low(y, e)
    ensures Low(x, d) == Low(y, d)
  {
    if d > 0 { LowMono(x / 2, y / 2, d - 1, e - 1); }
  }

  lemma {:induction false} LowLow(x: nat, d: nat, e: nat)
    requires d <= e
    ensures Low(Low(x, e), d) == Low(x, d)
  {
    if d > 0 { LowLow(x / 2, d - 1, e - 1); }
  }

  lemma {:induction false} LowShift(x: nat, d: nat, e: nat)
    requires d <= e
    ensures Low(Pow2(e) + x, d) == Low(x, d)
  {
    if d > 0 {
      LowShift(x / 2, d - 1, e - 1);
      assert (Pow2(e) + x) / 2 == Pow2(e - 1) + x / 2;
    }
  }

  lemma {:induction false} ToggleOnly(x: nat, d: nat, e: nat)
    requires d < e && x < Pow2(e)
    ensures Toggle(x, d) < Pow2(e) && Low(Toggle(x, d), d) == Low(x, d) && Bit(Toggle(x, d), d) != Bit(x, d)
  {
    if d > 0 { ToggleOnly(x / 2, d - 1, e - 1); }
  }

  lemma {:induction false} TopBit(x: nat, d: nat)
    ensures Low(x, d + 1) == Low(x, d) + (if Bit(x, d) then Pow2(d) else 0)
  {
    if d > 0 { TopBit(x / 2, d - 1); }
  }

  lemma {:induction false} BitOfLow(x: nat, d: nat, e: nat)
    requires d < e
    ensures Bit(Low(x, e), d) == Bit(x, d)
  {
    if d > 0 { BitOfLow(x / 2, d - 1, e - 1); }
  }

  /** The low d bits and the rest make up the number. */
  lemma {:induction false} LowAndShr(x: nat, d: nat)
    ensures x == Low(x, d) + Shr(x, d) * Pow2(d) && Low(x, d) < Pow2(d)
  {
    if d > 0 {
      LowAndShr(x / 2, d - 1);
      assert Shr(x, d) * Pow2(d) == 2 * (Shr(x / 2, d - 1) * Pow2(d - 1));
    }
  }

  /** No other pair does. */
  lemma {:induction false} LowAndShrUnique(low: nat, high: nat, d: nat)
    requires low < Pow2(d)
    ensures Low(low + high * Pow2(d), d) == low && Shr(low + high * Pow2(d), d) == high
  {
    if d > 0 {
      LowAndShrUnique(low / 2, high, d - 1);
      assert high * Pow2(d) == 2 * (high * Pow2(d - 1));
    }
  }
}
