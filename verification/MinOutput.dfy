/** The slippage guard: the least output a swap may return, in the output token's own precision. */
module MinOutput {
  import opened Text
  import opened Decimal
  import opened Units
  import opened Fixed

  const MAX_PRECISION := 8

  datatype MinError = BadEstimate | BadMinimum(error: ParseError) | NoProtection

  function Precision(d: Decimals): nat {
    if d > MAX_PRECISION then MAX_PRECISION else d
  }

  /** What a slippage percentage leaves of `x`. */
  function Kept(x: real, slippage: real): (y: real)
    ensures x >= 0.0 && slippage <= 100.0 ==> y >= 0.0
    ensures x >= 0.0 && slippage > 100.0 ==> y <= 0.0
  {
    var share := 1.0 - slippage / 100.0;
    x * share
  }

  function MinOutputFor(estimatedOutput: string, slippage: real, decimals: Decimals): Result<string, MinError> {
    match ParseFloat(estimatedOutput)
    case None => Err(BadEstimate)
    case Some(est) =>
      var s := FormatFixed(Kept(est, slippage), Precision(decimals));
      match ParsedUnits(s, decimals)
      case Err(e) => Err(BadMinimum(e))
      case Ok(v) => if v <= 0 then Err(NoProtection) else Ok(s)
  }

  /** One unit of the last decimal place that is printed, in raw units of the token. */
  function LastPlace(d: Decimals): (u: nat)
    ensures u >= 1
  {
    Shift(1, d - Precision(d))
  }

  /** The raw minimum: what the slippage leaves of `quoted` raw units, rounded to the last place printed. */
  function RawMinimum(quoted: nat, slippage: real, d: Decimals): nat
    requires slippage <= 100.0
  {
    Shift(RoundHalfEven(Lift(Kept(Point(quoted as real, d), slippage), Precision(d))), d - Precision(d))
  }

  /** Moving the point commutes with the slippage. */
  lemma KeptLift(x: real, slippage: real, k: nat)
    ensures Lift(Kept(x, slippage), k) == Kept(Lift(x, k), slippage)
  {
    LiftScale(x, 1.0 - slippage / 100.0, k);
    hide Lift;
  }

  lemma LiftedTarget(quoted: nat, slippage: real, d: Decimals)
    ensures var x := Lift(Kept(Point(quoted as real, d), slippage), Precision(d));
      Lift(x, d - Precision(d)) == Kept(quoted as real, slippage)
  {
    hide Lift, Kept, Point;
    KeptLift(Point(quoted as real, d), slippage, d);
    LiftLift(Kept(Point(quoted as real, d), slippage), Precision(d), d - Precision(d));
    LiftPoint(quoted as real, d);
  }

  /**
   * The raw minimum is within half a last place of what the slippage leaves; the last place is the eighth, or the last
   * of a token that has fewer.
   */
  lemma RawMinimumNear(quoted: nat, slippage: real, d: Decimals)
    requires slippage <= 100.0
    ensures var v, u := RawMinimum(quoted, slippage, d) as real, LastPlace(d) as real;
      -0.5 * u <= v - Kept(quoted as real, slippage) <= 0.5 * u
    ensures Kept(quoted as real, slippage) == quoted as real - quoted as real * slippage / 100.0
    ensures LastPlace(d) == if d <= 8 then 1 else Shift(1, d - 8)
  {
    KeptRest(quoted as real, slippage);
    assert Shift(1, 0) == 1;
    hide Lift, Kept, Point, Shift;
    var k := d - Precision(d);
    var y := Lift(Kept(Point(quoted as real, d), slippage), Precision(d));
    LiftedTarget(quoted, slippage, d);
    RoundedLift(y, k);
  }

  lemma RoundedLift(y: real, k: nat)
    requires y >= 0.0
    ensures var v, u := Shift(RoundHalfEven(y), k) as real, Shift(1, k) as real;
      -0.5 * u <= v - Lift(y, k) <= 0.5 * u
  {
    var n := RoundHalfEven(y);
    LiftInt(n, k);
    LiftInt(1, k);
    LiftSubtract(n as real, y, k);
    LiftOrder(n as real - y, 0.5, k);
    LiftOrder(-0.5, n as real - y, k);
    LiftScale(1.0, 0.5, k);
    LiftScale(1.0, -0.5, k);
    hide Lift, Shift;
  }

  /**
   * The whole contract of the guard on a quote of `quoted` raw units. It answers exactly when more than
   * half a last place is left, its text reads back as the raw minimum, and it never fails on the number of digits.
   */
  lemma MinOutputExact(quoted: nat, slippage: real, d: Decimals)
    ensures var r := MinOutputFor(FormatUnits(quoted, d), slippage, d);
      && (r.Ok? <==> Kept(quoted as real, slippage) > 0.5 * LastPlace(d) as real)
      && (r.Ok? ==> slippage <= 100.0 && ParsedUnits(r.value, d) == Ok(RawMinimum(quoted, slippage, d)))
      && (r.Ok? ==> RawMinimum(quoted, slippage, d) > 0)
      && (r.Err? ==> r == Err(NoProtection))
  {
    hide Lift, Kept, Point, Shift, ParsedUnits, ParseFloat, FormatUnits, FixedPoint;
    var p, k, x := Precision(d), d - Precision(d), Kept(Point(quoted as real, d), slippage);
    ReadUnits(quoted, d);
    LiftedTarget(quoted, slippage, d);
    LiftInt(1, k);
    AboveHalf(Lift(x, p), k);
    if x < 0.0 {
      FixedParsed(true, RoundHalfEven(Lift(-x, p)), p, d);
    } else {
      FixedParsed(false, RoundHalfEven(Lift(x, p)), p, d);
      if slippage > 100.0 {
        LiftZero(p);
        assert x == 0.0;
      }
    }
  }

  /**
   * What the slippage leaves of a quote rendered at `q` decimals, in units of the last place printed for `t`
   * decimals.
   */
  function PlacesKept(quoted: nat, slippage: real, q: Decimals, t: Decimals): nat
    requires slippage <= 100.0
  {
    RoundHalfEven(Lift(Kept(Point(quoted as real, q), slippage), Precision(t)))
  }

  /** What is read of `n` last places printed to `p` places. */
  function ReadAt(n: nat, p: nat, e: Decimals): Result<int, ParseError> {
    if p <= e then Ok(Shift(n, e - p)) else Err(TooManyFractionalDigits)
  }

  lemma FixedAnywhere(x: real, p: nat, e: Decimals)
    requires x >= 0.0
    ensures ParsedUnits(FormatFixed(x, p), e) == ReadAt(RoundHalfEven(Lift(x, p)), p, e)
  {
    hide Lift, Shift, ParsedUnits, FixedPoint;
    if p <= e {
      FixedParsed(false, RoundHalfEven(Lift(x, p)), p, e);
    } else {
      FixedRefused(false, RoundHalfEven(Lift(x, p)), p, e);
    }
  }

  lemma FixedNotPositive(x: real, p: nat, t: Decimals)
    requires x <= 0.0 && p <= t
    ensures ParsedUnits(FormatFixed(x, p), t).Ok? && ParsedUnits(FormatFixed(x, p), t).value <= 0
  {
    hide Lift, Shift, ParsedUnits, FixedPoint;
    if x < 0.0 {
      FixedParsed(true, RoundHalfEven(Lift(-x, p)), p, t);
    } else {
      LiftZero(p);
      FixedParsed(false, 0, p, t);
    }
  }

  /**
   * The guard whatever the decimals: a quote rendered at `q`, guarded for a token of `t`, its minimum read at `e`.
   * It answers exactly when something is left in the places printed for `t`, and those places are what is read.
   */
  lemma MinOutputAnywhere(quoted: nat, slippage: real, q: Decimals, t: Decimals, e: Decimals)
    ensures var r := MinOutputFor(FormatUnits(quoted, q), slippage, t);
      && (r.Ok? <==> slippage <= 100.0 && PlacesKept(quoted, slippage, q, t) > 0)
      && (r.Err? ==> r == Err(NoProtection))
      && (r.Ok? ==> ParsedUnits(r.value, e) == ReadAt(PlacesKept(quoted, slippage, q, t), Precision(t), e))
  {
    var p, x := Precision(t), Kept(Point(quoted as real, q), slippage);
    ReadUnits(quoted, q);
    hide Lift, Kept, Point, Shift, ParsedUnits, ParseFloat, FormatUnits, FormatFixed, RoundHalfEven;
    if slippage > 100.0 {
      FixedNotPositive(x, p, t);
    } else {
      FixedAnywhere(x, p, t);
      FixedAnywhere(x, p, e);
    }
  }

  /** Rendered, guarded and read at one number of decimals it is the raw minimum. */
  lemma PlacesKeptAreMinimum(quoted: nat, slippage: real, d: Decimals)
    requires slippage <= 100.0
    ensures RawMinimum(quoted, slippage, d) == Shift(PlacesKept(quoted, slippage, d, d), d - Precision(d))
  {}

  /** Something is left exactly when more than half of the last place is, in raw units of the rendered quote. */
  lemma PlacesKeptWhen(quoted: nat, slippage: real, q: Decimals, t: Decimals)
    requires slippage <= 100.0 && Precision(t) <= q
    ensures PlacesKept(quoted, slippage, q, t) > 0 <==>
      Kept(quoted as real, slippage) > 0.5 * Shift(1, q - Precision(t)) as real
  {
    var p, x := Precision(t), Kept(Point(quoted as real, q), slippage);
    KeptLift(Point(quoted as real, q), slippage, q);
    LiftPoint(quoted as real, q);
    hide Lift, Kept, Point, Shift;
    LiftLift(x, p, q - p);
    AboveHalf(Lift(x, p), q - p);
    LiftInt(1, q - p);
  }

  lemma LiftZero(k: nat)
    ensures Lift(0.0, k) == 0.0
  {
    LiftSubtract(0.0, 0.0, k);
  }

  lemma AboveHalf(y: real, k: nat)
    ensures y > 0.5 <==> Lift(y, k) > 0.5 * Lift(1.0, k)
  {
    LiftOrder(y, 0.5, k);
    LiftScale(1.0, 0.5, k);
  }

  /** A larger quote or a smaller slippage never lowers the minimum. */
  lemma RawMinimumMonotone(quoted: nat, slippage: real, quoted': nat, slippage': real, d: Decimals)
    requires quoted <= quoted' && slippage' <= slippage <= 100.0
    ensures RawMinimum(quoted, slippage, d) <= RawMinimum(quoted', slippage', d)
  {
    hide Lift, Kept, Point, Shift;
    var p, k := Precision(d), d - Precision(d);
    PointOrder(quoted as real, quoted' as real, d);
    KeptOrder(Point(quoted as real, d), slippage, Point(quoted' as real, d), slippage');
    var x, x' := Kept(Point(quoted as real, d), slippage), Kept(Point(quoted' as real, d), slippage');
    LiftOrder(x, x', p);
    RoundMonotone(Lift(x, p), Lift(x', p));
    ShiftOrder(RoundHalfEven(Lift(x, p)), RoundHalfEven(Lift(x', p)), k);
  }

  lemma KeptOrder(x: real, s: real, x': real, s': real)
    requires 0.0 <= x <= x' && s' <= s <= 100.0
    ensures Kept(x, s) <= Kept(x', s')
  {
    ProductOrder(x, 1.0 - s / 100.0, x', 1.0 - s' / 100.0);
  }

  lemma ProductOrder(a: real, b: real, a': real, b': real)
    requires 0.0 <= a <= a' && 0.0 <= b <= b'
    ensures 0.0 <= a * b <= a' * b'
  {
    assert a * b >= 0.0;
    assert a * (b' - b) >= 0.0;
    assert (a' - a) * b' >= 0.0;
  }

  /**
   * Exactly when the minimum does not ask for more than was quoted: a quote of `q` whole last places and a rest is
   * not exceeded if and only if what the slippage leaves of it is not rounded past those `q`.
   */
  lemma MinimumWithinQuoteExactly(quoted: nat, slippage: real, d: Decimals, q: nat)
    requires slippage <= 100.0
    requires var k := d - Precision(d);
      Shift(q, k) <= quoted < Shift(q + 1, k)
    ensures var kept := Kept(quoted as real, slippage);
      var middle := Shift(q, d - Precision(d)) as real + 0.5 * LastPlace(d) as real;
      RawMinimum(quoted, slippage, d) <= quoted <==> kept < middle || (kept == middle && q % 2 == 0)
  {
    var k := d - Precision(d);
    var y := Lift(Kept(Point(quoted as real, d), slippage), Precision(d));
    var n := RoundHalfEven(y);
    LiftedTarget(quoted, slippage, d);
    ShiftOrder(n, q, k);
    ShiftOrder(q + 1, n, k);
    assert RawMinimum(quoted, slippage, d) <= quoted <==> n <= q by {
      hide Lift, Kept, Point, Shift;
    }
    MiddleLift(q, k);
    LiftOrder(y, q as real + 0.5, k);
    LiftOrder(q as real + 0.5, y, k);
    hide Lift, Kept, Point, Shift, RawMinimum;
    assert n <= q <==> y < q as real + 0.5 || (y == q as real + 0.5 && q % 2 == 0) by {
      RoundsTo(y, q);
    }
  }

  lemma MiddleLift(q: nat, k: nat)
    ensures Lift(q as real + 0.5, k) == Shift(q, k) as real + 0.5 * Shift(1, k) as real
  {
    LiftInt(q, k);
    LiftInt(1, k);
    LiftScale(1.0, 0.5, k);
    LiftSubtract(q as real + 0.5, 0.5, k);
    hide Lift, Shift;
  }

  lemma RoundsTo(y: real, q: nat)
    requires y >= 0.0
    ensures RoundHalfEven(y) <= q <==> y < q as real + 0.5 || (y == q as real + 0.5 && q % 2 == 0)
  {}

  /** Up to eight decimals nothing is lost in print, so the minimum never asks for more than was quoted. */
  lemma MinimumWithinQuote(quoted: nat, slippage: real, d: Decimals)
    requires 0.0 <= slippage <= 100.0
    requires d <= MAX_PRECISION || quoted as real * slippage / 100.0 >= 0.5 * LastPlace(d) as real
    ensures RawMinimum(quoted, slippage, d) <= quoted
  {
    if d <= MAX_PRECISION {
      RawMinimumMonotone(quoted, slippage, quoted, 0.0, d);
      LiftPoint(quoted as real, d);
      KeptAll(Point(quoted as real, d));
      RoundExact(quoted);
      hide Lift, Kept, Point;
    } else {
      RawMinimumNear(quoted, slippage, d);
      KeptRest(quoted as real, slippage);
      hide Kept, RawMinimum;
    }
  }

  lemma KeptAll(x: real)
    ensures Kept(x, 0.0) == x
  {}

  lemma KeptRest(x: real, slippage: real)
    ensures Kept(x, slippage) == x - x * slippage / 100.0
  {
    assert x * (slippage / 100.0) == x * slippage / 100.0;
  }

  /** Beyond eight decimals rounding up can ask for more than was quoted: here one last place, of just over half. */
  lemma MinimumAboveQuote()
    ensures RawMinimum(5_000_000_001, 0.0, 18) > 5_000_000_001
    ensures MinOutputFor(FormatUnits(5_000_000_001, 18), 0.0, 18).Ok?
  {
    hide *;
    LastPlaceOf18();
    KeptAll(5_000_000_001.0);
    MinOutputExact(5_000_000_001, 0.0, 18);
    WholePlaces(5_000_000_001, 0.0, 18);
  }

  lemma LastPlaceOf18()
    ensures LastPlace(18) == 10_000_000_000
  {
    assert Shift(1, 2) == 100;
    assert Shift(100, 2) == 10_000;
    assert Shift(10_000, 2) == 1_000_000;
    assert Shift(1_000_000, 2) == 100_000_000;
    assert Shift(100_000_000, 2) == 10_000_000_000;
    ShiftShift(1, 2, 2);
    ShiftShift(1, 4, 2);
    ShiftShift(1, 6, 2);
    ShiftShift(1, 8, 2);
  }

  /** The minimum is a whole number of last places. */
  lemma WholePlaces(quoted: nat, slippage: real, d: Decimals)
    requires slippage <= 100.0 && RawMinimum(quoted, slippage, d) > 0
    ensures RawMinimum(quoted, slippage, d) >= LastPlace(d)
  {
    var n, k := RoundHalfEven(Lift(Kept(Point(quoted as real, d), slippage), Precision(d))), d - Precision(d);
    ShiftOrder(1, n, k);
    ShiftOrder(n, 0, k);
    ShiftOrder(0, n, k);
    hide Shift, Lift, Kept, Point;
  }
}
