/** THORChain's base units, eight decimal places whatever the token has, over exact rationals. */
module ThorUnits {
  import opened Text
  import opened Decimal
  import opened Units
  import opened Fixed

  function ToThorBaseUnits(amount: string): Option<string> {
    var num := ParseFloat(amount);
    if num.None? || num.value <= 0.0 then None else Some(Digits((num.value * 100_000_000.0).Floor))
  }

  lemma EightPlaces(x: real)
    ensures Lift(x, 8) == x * 100_000_000.0
  {
    assert Lift(x, 1) == 10.0 * Lift(x, 0) == 10.0 * x;
    assert Lift(x, 2) == 10.0 * Lift(x, 1);
    assert Lift(x, 3) == 10.0 * Lift(x, 2);
    assert Lift(x, 4) == 10.0 * Lift(x, 3);
    assert Lift(x, 5) == 10.0 * Lift(x, 4);
    assert Lift(x, 6) == 10.0 * Lift(x, 5);
    assert Lift(x, 7) == 10.0 * Lift(x, 6);
    assert Lift(x, 8) == 10.0 * Lift(x, 7);
  }

  /** `q` is the integer part of `raw` units of `d` decimals, counted in units of eight. */
  predicate IsThorAmount(q: nat, raw: nat, d: Decimals) {
    Shift(q, d) <= Shift(raw, 8) < Shift(q + 1, d)
  }

  lemma {:induction false} NothingShifted(k: nat)
    ensures Shift(0, k) == 0 && Lift(0.0, k) == 0.0
  {
    if k > 0 {
      NothingShifted(k - 1);
    }
  }

  lemma PointSign(raw: nat, d: Decimals)
    ensures Point(raw as real, d) > 0.0 <==> raw > 0
    ensures Point(raw as real, d) >= 0.0
  {
    var x := Point(raw as real, d);
    LiftPoint(raw as real, d);
    LiftOrder(x, 0.0, d);
    LiftOrder(0.0, x, d);
    NothingShifted(d);
  }

  lemma FloorIsThorAmount(q: nat, x: real, raw: nat, d: Decimals)
    requires x == Point(raw as real, d) && q == (x * 100_000_000.0).Floor
    ensures IsThorAmount(q, raw, d)
  {
    EightPlaces(x);
    var y := Lift(x, 8);
    LiftOrder(q as real, y, d);
    LiftOrder((q + 1) as real, y, d);
    LiftLift(x, 8, d);
    LiftLift(x, d, 8);
    LiftPoint(raw as real, d);
    LiftInt(q, d);
    LiftInt(q + 1, d);
    LiftInt(raw, 8);
  }

  /** A rendered balance converts to raw * 10^8 div 10^d, and nothing is refused but zero. */
  lemma RenderedToThor(raw: nat, d: Decimals)
    ensures var units := ToThorBaseUnits(FormatUnits(raw, d));
      if raw == 0 then units == None
      else exists q: nat :: IsThorAmount(q, raw, d) && units == Some(Digits(q))
  {
    ReadUnits(raw, d);
    PointSign(raw, d);
    hide ParseFloat, FormatUnits, Point, Shift, Digits;
    if raw > 0 {
      var x := Point(raw as real, d);
      var q := (x * 100_000_000.0).Floor;
      FloorIsThorAmount(q, x, raw, d);
      hide IsThorAmount;
      assert ToThorBaseUnits(FormatUnits(raw, d)) == Some(Digits(q));
    }
  }
}
