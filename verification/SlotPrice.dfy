/** The ascending price of an organisation slot. */
module SlotPrice {
  import opened Numbers

  /** base * (1 + slot * percent / 100), rounded down, on the signed readings of the parameters. */
  function Scaled(base: uint64, percent: uint64, slot: nat): int {
    ToInt64(base) * (100 + slot * ToInt64(percent)) / 100
  }

  predicate Fits(base: uint64, percent: uint64, slot: nat) {
    0 < Scaled(base, percent, slot) < TWO64
  }

  /** Outside the positive 64-bit range the price falls back to the base. */
  function Price(base: uint64, percent: uint64, slot: nat): uint64 {
    if Fits(base, percent, slot) then Scaled(base, percent, slot) else base
  }

  lemma FloorOfHundredths(x: int)
    ensures (x as real / 100.0).Floor == x / 100
  {
    var q, r := x / 100, x % 100;
    assert x == 100 * q + r;
    assert x as real / 100.0 == q as real + r as real / 100.0;
    assert 0.0 <= r as real / 100.0 < 1.0;
  }

  lemma Hundredths(k: int, percent: int)
    ensures 1.0 + k as real * (percent as real / 100.0) == (100 + k * percent) as real / 100.0
  {
    assert (100 + k * percent) as real == 100.0 + k as real * percent as real;
  }

  /** Exact rational accumulation, one slot at a time; a rational is a Dafny real. */
  method ComputeAscendingPrice(base: uint64, percent: uint64, slot: uint64) returns (price: uint64)
    ensures price == Price(base, percent, slot)
  {
    var increase: int := ToInt64(percent);
    var multiplier := 100.0 / 100.0;
    var inc := increase as real / 100.0;
    for i := 0 to slot
      invariant multiplier == 1.0 + i as real * inc
    {
      multiplier := multiplier + inc;
    }
    var b: int := ToInt64(base);
    var result := (b as real * multiplier).Floor;
    Hundredths(slot, increase);
    ScaleHundredths(b, 100 + slot * increase, multiplier);
    if result <= 0 || result >= TWO64 {
      return base;
    }
    return result;
  }

  lemma ScaleHundredths(b: int, n: int, multiplier: real)
    requires multiplier == n as real / 100.0
    ensures (b as real * multiplier).Floor == b * n / 100
  {
    assert (b * n) as real == b as real * n as real;
    assert b as real * multiplier == (b * n) as real / 100.0;
    FloorOfHundredths(b * n);
  }

  /** One more slot adds the same amount before rounding. */
  lemma ScaledStep(base: uint64, percent: uint64, slot: nat)
    ensures var b, p := ToInt64(base), ToInt64(percent);
            && Scaled(base, percent, slot) == b * (100 + slot * p) / 100
            && Scaled(base, percent, slot + 1) == (b * (100 + slot * p) + b * p) / 100
  {
    var b, p := ToInt64(base), ToInt64(percent);
    assert (slot + 1) * p == slot * p + p;
    assert b * (100 + slot * p + p) == b * (100 + slot * p) + b * p;
  }

  /** Adding d to n lowers n / 100 exactly when the remainder does not cover it. */
  lemma FloorFallsIff(n: int, d: int)
    ensures (n + d) / 100 < n / 100 <==> n % 100 + d < 0
    ensures d >= 0 ==> n / 100 <= (n + d) / 100
    ensures d <= -100 ==> (n + d) / 100 < n / 100
    ensures d <= 0 ==> (n + d) / 100 <= n / 100
  {
  }

  lemma SignOfProduct(b: int, p: int)
    ensures (b >= 0 && p >= 0) || (b <= 0 && p <= 0) ==> b * p >= 0
    ensures (b >= 0 && p <= 0) || (b <= 0 && p >= 0) ==> b * p <= 0
    ensures b >= 100 && p <= -1 ==> b * p <= -100
  {
    if b >= 100 && p <= -1 {
      assert b * p <= b * -1;
    }
  }

  /** The scaled price moves in one direction: up when both readings have the same sign, down otherwise. */
  lemma {:induction false} ScaledMonotone(base: uint64, percent: uint64, m: nat, n: nat)
    requires m <= n
    ensures ToInt64(base) * ToInt64(percent) >= 0 ==> Scaled(base, percent, m) <= Scaled(base, percent, n)
    ensures ToInt64(base) * ToInt64(percent) <= 0 ==> Scaled(base, percent, m) >= Scaled(base, percent, n)
    ensures Scaled(base, percent, 0) == ToInt64(base)
    decreases n - m
  {
    hide Scaled;
    var b, p := ToInt64(base), ToInt64(percent);
    ScaledStart(base, percent);
    if m < n {
      ScaledMonotone(base, percent, m + 1, n);
      ScaledStep(base, percent, m);
      FloorFallsIff(b * (100 + m * p), b * p);
    }
  }

  lemma ScaledStart(base: uint64, percent: uint64)
    ensures Scaled(base, percent, 0) == ToInt64(base)
  {
    var p := ToInt64(percent);
    assert 0 * p == 0;
  }

  /**
   * When the price of the next slot is not lower, by the signs of the two parameters:
   *  - neither reads as negative: it still fits 64 bits, or this one does not, or has not risen by a whole unit;
   *  - only the percentage does: it no longer fits, or the discount disappears in the rounding;
   *  - only the base does: always, every slot costs the base price;
   *  - both do: where the scaled price enters the 64-bit range it is at least the base, where it leaves at most.
   */
  predicate NotCheaper(base: uint64, percent: uint64, slot: nat) {
    var b, p := ToInt64(base), ToInt64(percent);
    if b >= 0 && p >= 0 then Fits(base, percent, slot + 1) || !Fits(base, percent, slot) || b * (slot * p) < 100
    else if b >= 0 then !Fits(base, percent, slot + 1) || b * (100 + slot * p) % 100 >= -(b * p)
    else if p >= 0 then true
    else
      && (Fits(base, percent, slot + 1) && !Fits(base, percent, slot) ==> base <= Scaled(base, percent, slot + 1))
      && (Fits(base, percent, slot) && !Fits(base, percent, slot + 1) ==> Scaled(base, percent, slot) <= base)
  }

  /** For all parameters the source accepts, exactly these slots are not cheaper than the one before. */
  lemma NextSlotNotCheaperIff(base: uint64, percent: uint64, slot: nat)
    ensures Price(base, percent, slot) <= Price(base, percent, slot + 1) <==> NotCheaper(base, percent, slot)
  {
    hide Scaled, ToInt64;
    var b, p := ToInt64(base), ToInt64(percent);
    SignedReading(base);
    SignOfProduct(b, p);
    ScaledMonotone(base, percent, 0, slot);
    ScaledMonotone(base, percent, slot, slot + 1);
    ScaledStep(base, percent, slot);
    FloorFallsIff(b * (100 + slot * p), b * p);
    AtBaseIff(base, percent, slot);
  }

  /** The scaled price is still the base price exactly while it has risen by less than one unit. */
  lemma AtBaseIff(base: uint64, percent: uint64, slot: nat)
    ensures var b, p := ToInt64(base), ToInt64(percent);
            b >= 0 && p >= 0 ==> (Scaled(base, percent, slot) <= b <==> b * (slot * p) < 100)
  {
    var b, p := ToInt64(base), ToInt64(percent);
    var rise := b * (slot * p);
    assert b * (100 + slot * p) == 100 * b + rise;
    assert (100 * b + rise) / 100 == b + rise / 100;
  }

  lemma SignedReading(base: uint64)
    ensures ToInt64(base) >= 0 ==> ToInt64(base) == base
  {
  }

  /** A percentage from 2^63 up reads as negative: every slot whose scaled price fits is cheaper than the one before. */
  lemma NegativePercentFalls(base: uint64, percent: uint64, slot: nat)
    requires 100 <= base < TWO63 <= percent && Fits(base, percent, slot + 1)
    ensures Price(base, percent, slot + 1) < Price(base, percent, slot)
  {
    hide Scaled;
    var b, p := ToInt64(base), ToInt64(percent);
    SignOfProduct(b, p);
    ScaledMonotone(base, percent, 0, slot);
    ScaledMonotone(base, percent, slot, slot + 1);
    ScaledStep(base, percent, slot);
    FloorFallsIff(b * (100 + slot * p), b * p);
  }

  /** The default base price with a percentage of 2^64 - 10: a tenth cheaper at the second slot. */
  lemma PriceFalls()
    ensures Price(10_000_000, TWO64 - 10, 0) == 10_000_000 && Price(10_000_000, TWO64 - 10, 1) == 9_000_000
  {
  }

  /** Both parameters read as negative: where the scaled price becomes positive it may be far below the base. */
  lemma PriceEntersLow()
    ensures Price(TWO64 - 100, TWO64 - 200, 0) == TWO64 - 100 && Price(TWO64 - 100, TWO64 - 200, 1) == 100
  {
  }

  /** With the default parameters every slot up to the default cap of 32 costs more than the one before. */
  lemma DefaultPricesAscend(slot: nat)
    requires slot < 32
    ensures Price(10_000_000, 20, slot) == 10_000_000 + 2_000_000 * slot
  {
  }

  /** A large base price collapses back to itself at the fourth slot. */
  lemma PriceCollapses()
    ensures Price(0x4000_0000_0000_0000, 100, 2) == 0xC000_0000_0000_0000
    ensures Price(0x4000_0000_0000_0000, 100, 3) == 0x4000_0000_0000_0000
  {
  }
}
