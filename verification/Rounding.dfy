/** Math.Round(value, places, MidpointRounding.ToEven) and truncation, over exact numbers. */
module Rounding {
  import opened Numerals

  /** The nearest integer; a tie goes to the even one. */
  function HalfEven(x: real): int {
    var f := x.Floor;
    var d := x - f as real;
    if d < 0.5 then f else if d > 0.5 then f + 1 else if f % 2 == 0 then f else f + 1
  }

  /** A whole number of units, each `1 / perUnit`. */
  function Units(n: int, perUnit: real): real
    requires perUnit > 0.0
  {
    n as real / perUnit
  }

  function RoundToUnit(x: real, perUnit: real): real
    requires perUnit > 0.0
  {
    Units(HalfEven(x * perUnit), perUnit)
  }

  function Round(x: real, places: nat): real { RoundToUnit(x, Pow10(places) as real) }

  /** Rounding lands within half a unit, and on an even neighbour when the two are equally near. */
  lemma HalfEvenNearest(x: real)
    ensures -0.5 <= HalfEven(x) as real - x <= 0.5
    ensures (x - HalfEven(x) as real == 0.5 || x - HalfEven(x) as real == -0.5) ==> HalfEven(x) % 2 == 0
  {
  }

  lemma HalfEvenMonotone(x: real, y: real)
    requires x <= y
    ensures HalfEven(x) <= HalfEven(y)
  {
    HalfEvenNearest(x);
    HalfEvenNearest(y);
    assert x.Floor <= y.Floor;
  }

  lemma ScaleMonotone(x: real, y: real, k: real)
    requires x <= y && k >= 0.0
    ensures x * k <= y * k
  {
    assert (y - x) * k >= 0.0;
  }

  lemma DivideMonotone(x: real, y: real, k: real)
    requires x <= y && k > 0.0
    ensures x / k <= y / k
  {
    assert x / k == x * (1.0 / k) && y / k == y * (1.0 / k);
    ScaleMonotone(x, y, 1.0 / k);
  }

  lemma UnitsMonotone(m: int, n: int, perUnit: real)
    requires m <= n && perUnit > 0.0
    ensures Units(m, perUnit) <= Units(n, perUnit)
  {
    DivideMonotone(m as real, n as real, perUnit);
  }

  lemma RoundToUnitMonotone(x: real, y: real, perUnit: real)
    requires x <= y && perUnit > 0.0
    ensures RoundToUnit(x, perUnit) <= RoundToUnit(y, perUnit)
  {
    ScaleMonotone(x, y, perUnit);
    HalfEvenMonotone(x * perUnit, y * perUnit);
    UnitsMonotone(HalfEven(x * perUnit), HalfEven(y * perUnit), perUnit);
  }

  /** Half-even rounding never reverses an order. */
  lemma RoundMonotone(x: real, y: real, places: nat)
    requires x <= y
    ensures Round(x, places) <= Round(y, places)
  {
    RoundToUnitMonotone(x, y, Pow10(places) as real);
  }

  lemma NearInUnits(h: real, x: real, perUnit: real)
    requires perUnit > 0.0 && -0.5 <= h - x * perUnit <= 0.5
    ensures -0.5 <= (h / perUnit - x) * perUnit <= 0.5
  {
    var q := h / perUnit;
    assert q * perUnit == h;
    assert (q - x) * perUnit == q * perUnit - x * perUnit;
  }

  lemma RoundToUnitNear(x: real, perUnit: real)
    requires perUnit > 0.0
    ensures -0.5 <= (RoundToUnit(x, perUnit) - x) * perUnit <= 0.5
  {
    HalfEvenNearest(x * perUnit);
    NearInUnits(HalfEven(x * perUnit) as real, x, perUnit);
  }

  /** Rounding to a number of places moves a value by at most half a unit in the last place. */
  lemma RoundNear(x: real, places: nat)
    ensures -0.5 <= (Round(x, places) - x) * Pow10(places) as real <= 0.5
  {
    RoundToUnitNear(x, Pow10(places) as real);
  }

  lemma RoundNearPlaces(x: real)
    ensures x - 0.005 <= Round(x, 2) <= x + 0.005
    ensures x - 0.00005 <= Round(x, 4) <= x + 0.00005
    ensures x - 0.0000005 <= Round(x, 6) <= x + 0.0000005
  {
    RoundNear(x, 2);
    RoundNear(x, 4);
    RoundNear(x, 6);
    assert Pow10(2) == 100 && Pow10(4) == 10_000 && Pow10(6) == 1_000_000;
  }

  function RoundedProduct(k: real, x: real, places: nat): real { Round(k * x, places) }

  lemma RoundedProductMonotone(k: real, x: real, y: real, places: nat)
    requires k >= 0.0 && x <= y
    ensures RoundedProduct(k, x, places) <= RoundedProduct(k, y, places)
  {
    ScaleMonotone(x, y, k);
    RoundMonotone(k * x, k * y, places);
  }

  /** Math.Round(value, 1, MidpointRounding.ToZero) for a non-negative value. */
  function Truncate1(x: real): real
    requires x >= 0.0
  {
    (x * 10.0).Floor as real / 10.0
  }

  lemma TruncateBounds(x: real)
    requires x >= 0.0
    ensures Truncate1(x) <= x < Truncate1(x) + 0.1
  {
  }

  lemma TruncateMonotone(x: real, y: real)
    requires 0.0 <= x <= y
    ensures Truncate1(x) <= Truncate1(y)
  {
    var a, b := (x * 10.0).Floor, (y * 10.0).Floor;
    assert a <= b;
    DivideMonotone(a as real, b as real, 10.0);
  }

  /** A share of a whole in percent, before truncation. */
  function Share(part: nat, whole: nat): real
    requires whole > 0
  {
    part as real * 100.0 / whole as real
  }

  lemma ShareNonNegative(part: nat, whole: nat)
    requires whole > 0
    ensures Share(part, whole) >= 0.0
  {
    DivideMonotone(0.0, part as real * 100.0, whole as real);
  }

  lemma DivideMultiple(k: real, w: real)
    requires w > 0.0
    ensures (w * k) / w == k
  {
  }

  lemma DivideBack(x: real, w: real)
    requires w > 0.0
    ensures (x / w) * w == x
  {
  }

  lemma ShareBounds(part: nat, whole: nat)
    requires 0 < whole && part <= whole
    ensures 0.0 <= Share(part, whole) <= 100.0
    ensures Share(part, whole) == 100.0 <==> part == whole
  {
    var p, w := part as real, whole as real;
    DivideMonotone(0.0, p * 100.0, w);
    DivideMonotone(p * 100.0, w * 100.0, w);
    DivideMultiple(100.0, w);
    DivideMultiple(0.0, w);
    DivideBack(p * 100.0, w);
  }

  function TruncatedShare(part: nat, whole: nat): real
    requires whole > 0
  {
    ShareNonNegative(part, whole);
    Truncate1(Share(part, whole))
  }

  /** A reported percentage stays within bounds, never overstates by a tenth, and shows 100 only for the whole. */
  lemma TruncatedShareHonest(part: nat, whole: nat)
    requires 0 < whole && part <= whole
    ensures 0.0 <= TruncatedShare(part, whole) <= 100.0
    ensures TruncatedShare(part, whole) <= Share(part, whole) < TruncatedShare(part, whole) + 0.1
    ensures TruncatedShare(part, whole) == 100.0 <==> part == whole
  {
    ShareBounds(part, whole);
    TruncateBounds(Share(part, whole));
  }

  lemma TruncatedShareMonotone(part: nat, more: nat, whole: nat)
    requires 0 < whole && part <= more
    ensures TruncatedShare(part, whole) <= TruncatedShare(more, whole)
  {
    ShareNonNegative(part, whole);
    DivideMonotone(part as real * 100.0, more as real * 100.0, whole as real);
    TruncateMonotone(Share(part, whole), Share(more, whole));
  }
}
