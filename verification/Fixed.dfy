/**
 * `strconv.FormatFloat(x, 'f', prec, 64)` and `strconv.ParseFloat` over exact rationals:
 * printing rounds to the nearest numeral, ties to even; reading is exact.
 */
module Fixed {
  import opened Text
  import opened Decimal
  import opened Units

  /** `x` with the point moved `k` places to the right: x * 10^k. */
  function Lift(x: real, k: nat): (r: real)
    ensures x >= 0.0 ==> r >= 0.0
  {
    if k == 0 then x else 10.0 * Lift(x, k - 1)
  }

  /** The nearest integer; of two equally near, the even one. */
  function RoundHalfEven(x: real): (n: int)
    requires x >= 0.0
    ensures n >= 0
    ensures -0.5 <= n as real - x <= 0.5
    ensures n > 0 <==> x > 0.5
  {
    var floor := x.Floor;
    var rest := x - floor as real;
    if rest < 0.5 || (rest == 0.5 && floor % 2 == 0) then floor else floor + 1
  }

  lemma RoundMonotone(x: real, y: real)
    requires 0.0 <= x <= y
    ensures RoundHalfEven(x) <= RoundHalfEven(y)
  {}

  lemma RoundExact(n: nat)
    ensures RoundHalfEven(n as real) == n
  {}

  /** The digits after the point, zeros included. */
  function Places(n: nat, prec: nat): (f: string)
    ensures AllDigits(f) && |f| == prec
  {
    Padded(n, prec)[|Padded(n, prec)| - prec..]
  }

  /** `n` units of the `prec`-th decimal place, written with exactly `prec` fractional digits. */
  function FixedPoint(n: nat, prec: nat): string {
    Join(Whole(n, prec), Places(n, prec))
  }

  lemma FixedDigits(n: nat, prec: nat)
    ensures AllDigits(Whole(n, prec) + Places(n, prec))
    ensures Value(Whole(n, prec) + Places(n, prec)) == n
  {
    assert Whole(n, prec) + Places(n, prec) == Padded(n, prec);
    PaddedIsRaw(n, prec);
  }

  function FormatFixed(x: real, prec: nat): string {
    if x < 0.0 then "-" + FixedPoint(RoundHalfEven(Lift(-x, prec)), prec)
    else FixedPoint(RoundHalfEven(Lift(x, prec)), prec)
  }

  /** Plain decimals only: an optional minus, digits, and an optional point with digits. */
  function ParseFloat(s: string): Option<real> {
    var n := Split(s);
    if n.IsPlain() && n.whole + n.frac != "" then Some(n.Number()) else None
  }

  lemma {:induction false} LiftOrder(x: real, y: real, k: nat)
    ensures x <= y <==> Lift(x, k) <= Lift(y, k)
  {
    if k > 0 {
      LiftOrder(x, y, k - 1);
    }
  }

  lemma {:induction false} LiftSubtract(x: real, y: real, k: nat)
    ensures Lift(x - y, k) == Lift(x, k) - Lift(y, k)
  {
    if k > 0 {
      LiftSubtract(x, y, k - 1);
    }
  }

  lemma {:induction false} LiftScale(x: real, c: real, k: nat)
    ensures Lift(x * c, k) == Lift(x, k) * c
  {
    if k > 0 {
      LiftScale(x, c, k - 1);
      var y := Lift(x, k - 1);
      assert 10.0 * (y * c) == (10.0 * y) * c;
    }
  }

  lemma {:induction false} LiftLift(x: real, j: nat, k: nat)
    ensures Lift(Lift(x, j), k) == Lift(x, j + k)
  {
    if k > 0 {
      LiftLift(x, j, k - 1);
    }
  }

  lemma {:induction false} LiftInt(v: int, k: nat)
    ensures Lift(v as real, k) == Shift(v, k) as real
  {
    if k > 0 {
      LiftInt(v, k - 1);
    }
  }

  lemma {:induction false} LiftPoint(x: real, k: nat)
    ensures Lift(Point(x, k), k) == x
  {
    if k > 0 {
      LiftPoint(x, k - 1);
      LiftTenth(Point(x, k - 1), k);
    }
  }

  lemma {:induction false} LiftTenth(x: real, k: nat)
    requires k > 0
    ensures Lift(x / 10.0, k) == Lift(x, k - 1)
  {
    if k > 1 {
      LiftTenth(x, k - 1);
    }
  }

  /** Reading a fixed-point numeral back: as raw units, it gains zeros; as a number, it is exact. */
  lemma FixedParsed(neg: bool, n: nat, prec: nat, d: Decimals)
    requires prec <= d
    ensures ParsedUnits(Signed(neg, FixedPoint(n, prec)), d) ==
      Ok(if neg then 0 - Shift(n, d - prec) else Shift(n, d - prec))
  {
    hide ParsedUnits, Places, Whole, Value, Shift, Signed, Join;
    FixedDigits(n, prec);
    ParsedJoin(neg, Whole(n, prec), Places(n, prec), d);
  }

  /** With fewer decimals than were printed it is refused. */
  lemma FixedRefused(neg: bool, n: nat, prec: nat, d: Decimals)
    requires prec > d
    ensures ParsedUnits(Signed(neg, FixedPoint(n, prec)), d) == Err(TooManyFractionalDigits)
  {
    hide ParsedUnits, Places, Whole, Value, Shift, Signed, Join;
    FixedDigits(n, prec);
    ParsedJoin(neg, Whole(n, prec), Places(n, prec), d);
  }

  lemma PlainRead(neg: bool, whole: string, frac: string)
    requires AllDigits(whole) && AllDigits(frac) && whole != ""
    ensures ParseFloat(Signed(neg, Join(whole, frac))) == Some(Numeral(neg, whole, frac).Number())
  {
    SplitJoin(neg, whole, frac);
    hide Split, Value, Point, Signed, Join;
    assert |whole + frac| >= |whole|;
  }

  lemma FixedRead(neg: bool, n: nat, prec: nat)
    ensures ParseFloat(Signed(neg, FixedPoint(n, prec))) ==
      Some(if neg then -Point(n as real, prec) else Point(n as real, prec))
  {
    var num := Numeral(neg, Whole(n, prec), Places(n, prec));
    hide ParseFloat, Places, Whole, Value, Signed, Join, Point;
    FixedDigits(n, prec);
    PlainRead(neg, num.whole, num.frac);
    assert Shift(n, 0) == n;
    hide Shift;
    assert num.Scaled(prec) == if neg then 0 - n else n;
    ScaledIsNumber(num, prec);
    PointNegate(n as real, prec);
    assert (0 - n) as real == -(n as real);
  }

  /** `ParseFloat` reads a rendered raw amount exactly. */
  lemma ReadUnits(raw: nat, d: Decimals)
    ensures ParseFloat(FormatUnits(raw, d)) == Some(Point(raw as real, d))
  {
    var whole, frac := Whole(raw, d), Frac(raw, d);
    assert Signed(false, Join(whole, frac)) == Join(whole, frac);
    hide *;
    FormatIsJoin(raw, d);
    PlainRead(false, whole, frac);
    PrintedNumeral(raw, d);
    ScaledIsNumber(Numeral(false, whole, frac), d);
  }

  lemma PrintedNumeral(raw: nat, d: Decimals)
    ensures var n := Numeral(false, Whole(raw, d), Frac(raw, d));
      n.IsPlain() && |n.frac| <= d && n.Scaled(d) == raw
  {
    hide Value, Shift, Whole, Frac, Printed;
    PrintedIsRaw(raw, d);
    PrintedIsValue(raw, d);
  }
}
