/**
 * Taxes in basis points: a decimal fraction is read as a double, multiplied by ten thousand and converted to a 64-bit
 * integer. Beyond that range the language leaves the result of the conversion to the machine.
 */
module Taxes {
  import opened Text
  import opened Decimal
  import opened Units
  import opened Fixed
  import opened Doubles

  const MIN_INT64 := -0x8000_0000_0000_0000

  const MAX_INT64 := 0x7FFF_FFFF_FFFF_FFFF

  type Int64 = i: int | MIN_INT64 <= i <= MAX_INT64

  /** Cut off towards zero. */
  function Trunc(x: real): int {
    if x < 0.0 then -(-x).Floor else x.Floor
  }

  predicate Fits(d: Double) {
    d.Finite? && MIN_INT64 <= Trunc(d.value) <= MAX_INT64
  }

  /** A conversion to integers as the language defines it: exact where the result fits, anything where it does not. */
  ghost predicate Conversion(c: Double -> Int64) {
    forall d :: Fits(d) ==> c(d) == Trunc(d.value)
  }

  /** The machine instruction of amd64: the most negative integer for all that does not fit. */
  function Amd64(d: Double): Int64 {
    if Fits(d) then Trunc(d.value) else MIN_INT64
  }

  /** That of arm64: the nearest end of the range. */
  function Arm64(d: Double): Int64 {
    match d
    case Finite(x) => if Fits(d) then Trunc(x) else if x < 0.0 then MIN_INT64 else MAX_INT64
    case Infinite(negative) => if negative then MIN_INT64 else MAX_INT64
    case NaN => 0
  }

  /** Cutting off leaves less than one; what fits is between -2^63 and 2^63; arm64 stops at the ends. */
  lemma ConversionsMeaning(x: real)
    ensures x >= 0.0 ==> Trunc(x) as real <= x < Trunc(x) as real + 1.0
    ensures x <= 0.0 ==> Trunc(x) as real - 1.0 < x <= Trunc(x) as real
    ensures Fits(Finite(x)) <==> -9_223_372_036_854_775_809.0 < x < 9_223_372_036_854_775_808.0
    ensures x >= 9_223_372_036_854_775_808.0 ==>
      Arm64(Finite(x)) == 9_223_372_036_854_775_807 && Amd64(Finite(x)) == -9_223_372_036_854_775_808
    ensures x <= -9_223_372_036_854_775_809.0 ==>
      Arm64(Finite(x)) == -9_223_372_036_854_775_808 == Amd64(Finite(x))
    ensures Arm64(Infinite(true)) == -9_223_372_036_854_775_808 && Arm64(Infinite(false)) == 9_223_372_036_854_775_807
  {}

  /** A fraction read as a double and multiplied by ten thousand; None when it is too large to be read. */
  function Basis(x: real): Option<Double> {
    var f := Nearest(x);
    if f.None? then None else Some(AsDouble(f.value * 10000.0))
  }

  /** The number written; None when it is missing or unreadable. */
  function Written(p: Option<string>): Option<real> {
    if p.None? || p.value == "" then None else ParseFloat(p.value)
  }

  function TaxFloat(p: Option<string>): Option<Double> {
    if Written(p).None? then None else Basis(Written(p).value)
  }

  /** A tax in basis points; -1 when missing or unreadable. */
  function TaxBps(c: Double -> Int64, p: Option<string>): Int64 {
    match TaxFloat(p)
    case None => -1
    case Some(d) => c(d)
  }

  // ---------------------------------------------------------------- the largest fraction that fits

  /** Half a last place above the largest double whose basis points are below 2^63. */
  const LARGEST_TAX := 922_337_203_685_477.5625

  const ABOVE := 922_337_203_685_477.625

  lemma ThreePlaces(w: real)
    ensures Halved(w, 3) == w / 8.0
  {
    assert Halved(w, 1) == w / 2.0;
    assert Halved(w, 2) == w / 4.0;
  }

  lemma TenTwos(w: real)
    ensures Twice(w, 10) == 1024.0 * w && Twice(w, 11) == 2048.0 * w
  {
    FourTimes(w);
    FourTimes(16.0 * w);
    assert Twice(256.0 * w, 1) == 512.0 * w;
    assert Twice(256.0 * w, 2) == 1024.0 * w;
    assert Twice(256.0 * w, 3) == 2048.0 * w;
    hide Twice;
    TwiceTwice(w, 4, 4);
    TwiceTwice(w, 8, 2);
    TwiceTwice(w, 8, 3);
  }

  lemma LargestRead()
    ensures Nearest(LARGEST_TAX) == Some(922_337_203_685_477.5)
    ensures Nearest(9_223_372_036_854_775_000.0) == Some(9_223_372_036_854_774_784.0)
  {
    var (w, v) := (7_378_697_629_483_820.5, 9_007_199_254_740_991.2109375);
    assert RoundHalfEven(w) == 7_378_697_629_483_820;
    assert RoundHalfEven(v) == 9_007_199_254_740_991;
    hide Nearest, RoundHalfEven;
    NearestFraction(w, 3);
    ThreePlaces(w);
    ThreePlaces(7_378_697_629_483_820.0);
    NearestMultiple(v, 10);
    TenTwos(v);
    TenTwos(9_007_199_254_740_991.0);
  }

  lemma AboveRead(x: real)
    requires LARGEST_TAX < x <= ABOVE
    ensures Nearest(x) == Some(ABOVE)
    ensures Nearest(9_223_372_036_854_776_250.0) == Some(9_223_372_036_854_775_808.0)
  {
    var (w, v) := (8.0 * x, 4_503_599_627_370_496.2158203125);
    assert RoundHalfEven(w) == 7_378_697_629_483_821;
    assert RoundHalfEven(v) == 4_503_599_627_370_496;
    hide Nearest, RoundHalfEven;
    NearestFraction(w, 3);
    ThreePlaces(w);
    ThreePlaces(7_378_697_629_483_821.0);
    NearestMultiple(v, 11);
    TenTwos(v);
    TenTwos(4_503_599_627_370_496.0);
  }

  lemma NearestZero()
    ensures Nearest(0.0) == Some(0.0)
  {
    ZeroTwice(SMALLEST);
    HalvedZero(SMALLEST);
    hide Twice, Halved;
    assert RoundHalfEven(0.0) == 0;
  }

  lemma {:induction false} ZeroTwice(k: nat)
    ensures Twice(0.0, k) == 0.0
  {
    if k > 0 {
      ZeroTwice(k - 1);
    }
  }

  /** Rounding does not look at the sign. */
  lemma NearestNegated(x: real)
    requires x >= 0.0 && Nearest(x).Some?
    ensures Nearest(x).value >= 0.0 && Nearest(-x) == Some(-Nearest(x).value)
  {
    NearestZero();
    NearestOrder(0.0, x);
    if x > 0.0 {
      hide NearestAbove;
      assert -(-x) == x;
    } else {
      hide Nearest;
      assert -x == 0.0 && x == 0.0;
    }
  }

  lemma UpToLargest(x: real)
    requires 0.0 <= x <= LARGEST_TAX
    ensures Basis(x).Some? && Basis(x).value.Finite? && 0.0 <= Basis(x).value.value <= 9_223_372_036_854_774_784.0
    ensures Basis(-x) == Some(Finite(-Basis(x).value.value))
  {
    hide Nearest;
    LargestRead();
    WordsRead(x);
    NearestOrder(x, LARGEST_TAX);
    NearestNegated(x);
    var f := Nearest(x).value;
    WordsRead(f * 10000.0);
    NearestOrder(f * 10000.0, 9_223_372_036_854_775_000.0);
    NearestNegated(f * 10000.0);
    assert -f * 10000.0 == -(f * 10000.0);
  }

  lemma BeyondLargest(x: real)
    requires x > LARGEST_TAX && Basis(x).Some?
    ensures Basis(x).value == Infinite(false) ||
      (Basis(x).value.Finite? && Basis(x).value.value >= 9_223_372_036_854_775_808.0)
  {
    hide Nearest;
    AboveRead(ABOVE);
    if x <= ABOVE {
      AboveRead(x);
    } else {
      NearestOrder(ABOVE, x);
    }
    var y := Nearest(x).value * 10000.0;
    if Nearest(y).Some? {
      NearestOrder(9_223_372_036_854_776_250.0, y);
    }
  }

  /** Up to that fraction of either sign the conversion is exact; of the positive ones, only up to there. */
  lemma FitsUpToLargest(x: real)
    ensures -LARGEST_TAX <= x <= LARGEST_TAX ==> Basis(x).Some? && Fits(Basis(x).value)
    ensures x > LARGEST_TAX && Basis(x).Some? ==> !Fits(Basis(x).value)
  {
    hide Basis;
    if -LARGEST_TAX <= x <= LARGEST_TAX {
      UpToLargest(if x < 0.0 then -x else x);
      assert x < 0.0 ==> -(-x) == x;
    } else if x > LARGEST_TAX && Basis(x).Some? {
      BeyondLargest(x);
    }
  }

  // ---------------------------------------------------------------- when an order survives the conversion

  /** Larger fractions never have fewer basis points, before the conversion. */
  lemma BasisOrder(x: real, y: real)
    requires x <= y && Basis(x).Some? && Basis(y).Some?
    requires Basis(x).value.Finite? && Basis(y).value.Finite?
    ensures Basis(x).value.value <= Basis(y).value.value
  {
    hide Nearest;
    NearestOrder(x, y);
    var (f, g) := (Nearest(x).value, Nearest(y).value);
    NearestOrder(f * 10000.0, g * 10000.0);
  }

  lemma TruncOrder(x: real, y: real)
    requires x <= y
    ensures Trunc(x) <= Trunc(y)
  {}

  /** Where the one tax is known, the other is and is no lower. */
  predicate TaxedNoLess(q: Option<string>, p: Option<string>) {
    Written(p).Some? ==> Written(q).Some? && Written(p).value <= Written(q).value
  }

  predicate TaxInRange(p: Option<string>) {
    Written(p).Some? ==> -LARGEST_TAX <= Written(p).value <= LARGEST_TAX
  }

  /**
   * A larger tax is never fewer basis points, under every conversion, as long as both fractions are within range; an
   * unknown one is below every threshold.
   */
  lemma TaxMonotone(c: Double -> Int64, p: Option<string>, q: Option<string>, threshold: nat)
    requires Conversion(c) && TaxedNoLess(q, p) && TaxInRange(p) && TaxInRange(q)
    ensures Written(p).Some? ==> TaxBps(c, p) <= TaxBps(c, q)
    ensures TaxBps(c, p) >= threshold ==> TaxBps(c, q) >= threshold
  {
    hide Basis, Written, Trunc;
    if Written(p).Some? {
      var (x, y) := (Written(p).value, Written(q).value);
      FitsUpToLargest(x);
      FitsUpToLargest(y);
      BasisOrder(x, y);
      TruncOrder(Basis(x).value.value, Basis(y).value.value);
    }
  }

  /**
   * And no further: of two known taxes, neither of them negative, the larger is no fewer basis points under every
   * conversion if and only if it is within range, or the same double times ten thousand as the smaller.
   */
  lemma TaxOrderSurvivesExactlyWhen(p: Option<string>, q: Option<string>)
    requires Written(p).Some? && Written(q).Some? && 0.0 <= Written(p).value <= Written(q).value
    ensures (forall c: Double -> Int64 :: Conversion(c) ==> TaxBps(c, p) <= TaxBps(c, q)) <==>
      TaxFloat(p) == TaxFloat(q) || Written(q).value <= LARGEST_TAX
  {
    hide Basis, Written, Conversion;
    var (x, y) := (Written(p).value, Written(q).value);
    if y <= LARGEST_TAX {
      forall c: Double -> Int64 | Conversion(c)
        ensures TaxBps(c, p) <= TaxBps(c, q)
      {
        TaxMonotone(c, p, q, 0);
      }
    } else if TaxFloat(p) != TaxFloat(q) {
      SwappedByFavouring(p, q);
    }
  }

  /** A conversion that treats the one number as the largest there is, and all others that do not fit as the least. */
  function Favouring(x: Double): Double -> Int64 {
    d => if Fits(d) then Trunc(d.value) else if d == x then MAX_INT64 else MIN_INT64
  }

  lemma SwappedByFavouring(p: Option<string>, q: Option<string>)
    requires Written(p).Some? && Written(q).Some? && 0.0 <= Written(p).value <= Written(q).value
    requires Written(q).value > LARGEST_TAX && TaxFloat(p) != TaxFloat(q)
    ensures exists c: Double -> Int64 :: Conversion(c) && TaxBps(c, p) > TaxBps(c, q)
  {
    var (x, y) := (Written(p).value, Written(q).value);
    FitsUpToLargest(x);
    FitsUpToLargest(y);
    KnownBefore(x, y);
    hide Basis, Written;
    var c := Favouring(TaxFloat(p).value);
    assert Conversion(c);
    assert Fits(TaxFloat(p).value) ==> c(TaxFloat(p).value) >= 0;
  }

  /** A fraction below a readable one is readable; and it is no fewer than zero basis points. */
  lemma KnownBefore(x: real, y: real)
    requires 0.0 <= x <= y
    ensures Basis(x).None? ==> Basis(y).None?
    ensures Basis(x).Some? && Fits(Basis(x).value) ==> Basis(x).value.value >= 0.0
  {
    hide Nearest;
    if Nearest(x).None? {
      NearestOutOfRange(x, y);
    } else {
      NearestNegated(x);
      var z := Nearest(x).value * 10000.0;
      if Nearest(z).Some? {
        NearestNegated(z);
      }
    }
  }

  // ---------------------------------------------------------------- a pair that swaps

  const HALF := Some("0.5")

  const ENORMOUS := Some("1000000000000000")

  lemma WrittenIs(s: string)
    requires s != ""
    ensures Written(Some(s)) == ParseFloat(s)
  {}

  lemma HalfWritten()
    ensures Written(HALF) == Some(0.5)
  {
    var s := HALF.value;
    assert s == "0.5" == Signed(false, Join("0", "5"));
    HalfNumber();
    hide *;
    PlainRead(false, "0", "5");
    WrittenIs(s);
  }

  lemma HalfNumber()
    ensures AllDigits("0") && AllDigits("5") && Numeral(false, "0", "5").Number() == 0.5
  {
    assert "5"[..0] == "" && Value("5") == 5 && Value("0") == 0;
    hide Value;
    assert Point(5.0, 1) == 0.5;
  }

  lemma HalfRead()
    ensures Written(HALF) == Some(0.5) && TaxFloat(HALF) == Some(Finite(5000.0))
  {
    hide Written, Nearest;
    HalfWritten();
    HalfRounds();
    FiveThousandRounds();
  }

  lemma HalfRounds()
    ensures Nearest(0.5) == Some(0.5)
  {
    FiftyTwoTimes(0.5);
    assert Twice(0.5, 53) == 2.0 * Twice(0.5, 52);
    assert RoundHalfEven(LEAST as real) == LEAST;
    hide Nearest, Twice, RoundHalfEven, Halved;
    HalvedTwice(0.5, 53, 0);
    NoHalf(0.5);
    NearestFraction(LEAST as real, 53);
  }

  lemma FiveThousandRounds()
    ensures Nearest(5000.0) == Some(5000.0)
  {
    assert RoundHalfEven(5_497_558_138_880_000.0) == 5_497_558_138_880_000;
    hide Nearest, Twice, RoundHalfEven, Halved;
    TwelveTimes(1.220703125);
    FiftyTwoTimes(1.220703125);
    TwiceTwice(1.220703125, 12, 40);
    HalvedTwice(5000.0, 40, 0);
    NoHalf(5000.0);
    NearestFraction(5_497_558_138_880_000.0, 40);
  }

  lemma DigitsRead(s: string)
    requires AllDigits(s) && s != ""
    ensures ParseFloat(s) == Some(Value(s) as real)
  {
    PlainRead(false, s, "");
    assert Point(0.0, 0) == 0.0 && Value("") == 0;
    hide ParseFloat, Value, Point;
  }

  lemma EnormousRead()
    ensures Written(ENORMOUS) == Some(1_000_000_000_000_000.0)
  {
    var s := ENORMOUS.value;
    hide *;
    assert s == "1" + Zeros(15);
    EnormousValue();
    DigitsRead(s);
    WrittenIs(s);
  }

  lemma EnormousValue()
    ensures AllDigits("1" + Zeros(15)) && Value("1" + Zeros(15)) == 1_000_000_000_000_000
  {
    assert "1"[..0] == "" && Value("1") == 1;
    hide Value, Shift;
    ValueZerosSuffix("1", 15);
    ShiftShift(1, 5, 5);
    ShiftShift(1, 10, 5);
    FiveZeros(1);
    FiveZeros(100_000);
    FiveZeros(10_000_000_000);
  }

  lemma FiveZeros(v: int)
    ensures Shift(v, 5) == 100_000 * v
  {
    assert Shift(v, 1) == 10 * v;
    assert Shift(v, 2) == 100 * v;
    assert Shift(v, 3) == 1000 * v;
    assert Shift(v, 4) == 10_000 * v;
  }

  /** The larger tax is the smaller one on amd64, and the largest there is on arm64. */
  lemma EnormousIsNegative()
    ensures TaxedNoLess(ENORMOUS, HALF)
    ensures TaxBps(Amd64, ENORMOUS) == MIN_INT64 && TaxBps(Arm64, ENORMOUS) == MAX_INT64
    ensures forall c: Double -> Int64 :: Conversion(c) ==> TaxBps(c, HALF) == 5000
  {
    HalfRead();
    EnormousRead();
    hide Written, Nearest;
    var x := 1_000_000_000_000_000.0;
    WordsRead(x);
    BeyondLargest(x);
    hide Basis;
    assert Trunc(5000.0) == 5000;
    assert Fits(Finite(5000.0));
  }

  // ---------------------------------------------------------------- where ten and five per cent begin

  /** Half a last place below the double nearest to a tenth, which is a little more than a tenth. */
  const TENTH := 7_205_759_403_792_793.5 / 72_057_594_037_927_936.0

  const TWENTIETH := 7_205_759_403_792_793.5 / 144_115_188_075_855_872.0

  lemma {:induction false} HalvedScale(x: real, c: real, k: nat)
    ensures Halved(x * c, k) == Halved(x, k) * c
  {
    if k > 0 {
      HalvedScale(x, c, k - 1);
      var y := Halved(x, k - 1);
      assert (y * c) / 2.0 == (y / 2.0) * c;
    }
  }

  lemma {:induction false} HalvedHalved(x: real, j: nat, k: nat)
    ensures Halved(Halved(x, j), k) == Halved(x, j + k)
  {
    if k > 0 {
      HalvedHalved(x, j, k - 1);
    }
  }

  lemma ThirteenHalves(x: real)
    ensures Halved(x, 13) == x / 8192.0
  {
    HalvedTwice(x / 8192.0, 13, 0);
    TwelveTimes(x / 8192.0);
    assert Twice(x / 8192.0, 13) == 2.0 * Twice(x / 8192.0, 12);
    NoHalf(x / 8192.0);
  }

  /** A significand with 56 binary places or more, and what ten thousand times it is rounded to. */
  lemma TimesTenThousand(m: real, n: real, j: nat)
    requires LEAST as real <= m < 2.0 * LEAST as real && j <= 1
    requires LEAST as real <= m * 10000.0 / 8192.0 < 2.0 * LEAST as real
    requires n == RoundHalfEven(m * 10000.0 / 8192.0) as real
    ensures Nearest(Halved(m, 56 + j) * 10000.0) == Some(Halved(n, 43 + j))
  {
    hide Nearest, Halved, RoundHalfEven;
    HalvedScale(m, 10000.0, 56 + j);
    HalvedHalved(m * 10000.0, 13, 43 + j);
    ThirteenHalves(m * 10000.0);
    NearestFraction(m * 10000.0 / 8192.0, 43 + j);
  }

  /** From the boundary on at least 1000, or 500, basis points; below it at most just less. */
  lemma AroundBoundary(j: nat)
    requires j <= 1
    ensures Nearest(Halved(7_205_759_403_792_793.5, 56 + j)) == Some(Halved(7_205_759_403_792_794.0, 56 + j))
    ensures Nearest(Halved(7_205_759_403_792_794.0, 56 + j) * 10000.0) == Some(Halved(8_796_093_022_208_000.0, 43 + j))
    ensures Nearest(Halved(7_205_759_403_792_793.0, 56 + j) * 10000.0) == Some(Halved(8_796_093_022_207_999.0, 43 + j))
  {
    assert RoundHalfEven(7_205_759_403_792_793.5) == 7_205_759_403_792_794;
    assert RoundHalfEven(8_796_093_022_208_000.48828125) == 8_796_093_022_208_000;
    assert RoundHalfEven(8_796_093_022_207_999.267578125) == 8_796_093_022_207_999;
    hide Nearest, Halved, RoundHalfEven;
    NearestFraction(7_205_759_403_792_793.5, 56 + j);
    TimesTenThousand(7_205_759_403_792_794.0, 8_796_093_022_208_000.0, j);
    TimesTenThousand(7_205_759_403_792_793.0, 8_796_093_022_207_999.0, j);
  }

  /** The nearest double to a fraction below the boundary is at most the one before it. */
  lemma BelowBoundary(x: real, j: nat)
    requires j <= 1 && x < Halved(7_205_759_403_792_793.5, 56 + j) && Nearest(x).Some?
    ensures Nearest(x).value <= Halved(7_205_759_403_792_793.0, 56 + j)
  {
    var b := Halved(7_205_759_403_792_793.0, 56 + j);
    assert RoundHalfEven(7_205_759_403_792_793.0) == 7_205_759_403_792_793;
    if x <= b {
      hide Nearest, Halved, RoundHalfEven;
      NearestFraction(7_205_759_403_792_793.0, 56 + j);
      NearestOrder(x, b);
    } else {
      var w := Twice(x, 56 + j);
      HalvedTwice(x, 56 + j, 0);
      NoHalf(x);
      hide Nearest, Halved, Twice;
      HalvedOrder(w, 7_205_759_403_792_793.5, 56 + j);
      HalvedOrder(7_205_759_403_792_793.5, w, 56 + j);
      HalvedOrder(7_205_759_403_792_793.0, w, 56 + j);
      assert RoundHalfEven(w) == 7_205_759_403_792_793;
      hide RoundHalfEven;
      NearestFraction(w, 56 + j);
    }
  }

  /** The numbers these are. */
  lemma BoundaryNumbers()
    ensures Halved(7_205_759_403_792_793.5, 56) == TENTH && Halved(7_205_759_403_792_793.5, 57) == TWENTIETH
    ensures Halved(8_796_093_022_208_000.0, 43) == 1000.0 && Halved(8_796_093_022_208_000.0, 44) == 500.0
  {
    var (m, x) := (7_205_759_403_792_793.5, 1.953125);
    FourTimes(x);
    assert Twice(x, 5) == 2.0 * Twice(x, 4) && Twice(x, 6) == 2.0 * Twice(x, 5) && Twice(x, 7) == 2.0 * Twice(x, 6);
    assert Twice(x, 8) == 2.0 * Twice(x, 7) && Twice(x, 9) == 2.0 * Twice(x, 8);
    FourHalves(m / LEAST as real);
    hide Twice, Halved;
    FiftyTwoTimes(x);
    TwiceTwice(x, 9, 43);
    TwiceTwice(x, 8, 44);
    HalvedTwice(1000.0, 43, 0);
    HalvedTwice(500.0, 44, 0);
    NoHalf(1000.0);
    NoHalf(500.0);
    FiftyTwoTimes(m / LEAST as real);
    HalvedTwice(m / LEAST as real, 52, 4);
    HalvedTwice(m / LEAST as real, 52, 5);
  }

  lemma FourHalves(x: real)
    ensures Halved(x, 4) == x / 16.0 && Halved(x, 5) == x / 32.0
  {
    assert Halved(x, 1) == x / 2.0;
    assert Halved(x, 2) == x / 4.0;
    assert Halved(x, 3) == x / 8.0;
  }

  lemma BasisAtBoundary(x: real, j: nat)
    requires j <= 1 && Basis(x).Some? && Basis(x).value.Finite?
    ensures Basis(x).value.value >= Halved(8_796_093_022_208_000.0, 43 + j) <==>
      x >= Halved(7_205_759_403_792_793.5, 56 + j)
  {
    hide Nearest, Halved;
    AroundBoundary(j);
    var f := Nearest(x).value;
    if x >= Halved(7_205_759_403_792_793.5, 56 + j) {
      NearestOrder(Halved(7_205_759_403_792_793.5, 56 + j), x);
      NearestOrder(Halved(7_205_759_403_792_794.0, 56 + j) * 10000.0, f * 10000.0);
    } else {
      BelowBoundary(x, j);
      NearestOrder(f * 10000.0, Halved(7_205_759_403_792_793.0, 56 + j) * 10000.0);
      HalvedOrder(8_796_093_022_208_000.0, 8_796_093_022_207_999.0, 43 + j);
    }
  }

  /** A known tax is at least 1000, or 500, basis points if and only if it is written as at least these fractions. */
  lemma TaxThresholds(c: Double -> Int64, p: Option<string>)
    requires Conversion(c) && Written(p).Some? && TaxInRange(p)
    ensures TaxBps(c, p) >= 1000 <==> Written(p).value >= TENTH
    ensures TaxBps(c, p) >= 500 <==> Written(p).value >= TWENTIETH
  {
    hide Basis, Written;
    var x := Written(p).value;
    FitsUpToLargest(x);
    BoundaryNumbers();
    BasisAtBoundary(x, 0);
    BasisAtBoundary(x, 1);
    hide Halved;
  }

  /** A missing tax, or one that cannot be read, is -1. */
  lemma TaxUnknown(c: Double -> Int64, p: Option<string>)
    requires Written(p).None?
    ensures TaxBps(c, p) == -1
  {}
}
