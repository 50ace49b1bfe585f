/** Reading a plain decimal as an IEEE 754 double: the nearest one, ties to even, or none when it is out of range. */
module Doubles {
  import opened Text
  import opened Fixed

  /** x * 2^k */
  function Twice(x: real, k: nat): (r: real)
    ensures x >= 0.0 ==> r >= x
  {
    if k == 0 then x else 2.0 * Twice(x, k - 1)
  }

  /** x / 2^k */
  function Halved(x: real, k: nat): real {
    if k == 0 then x else Halved(x, k - 1) / 2.0
  }

  /** 2^52, the least significand of a normal double. */
  const LEAST := 4_503_599_627_370_496

  /** The exponent of the smallest positive double, and the number of exponents above it. */
  const SMALLEST := 1074

  const STEPS := 2045

  /** `y` rounded to 53 binary digits, none of them below one, with `n` exponents left to go up. */
  function Rounded(y: real, n: nat): (r: Option<real>)
    requires y >= 0.0
    ensures r.Some? ==> r.value >= 0.0
  {
    if y < 2.0 * LEAST as real then
      var v := RoundHalfEven(y);
      if n == 0 && v == 2 * LEAST then None else Some(v as real)
    else if n == 0 then None
    else
      var r := Rounded(y / 2.0, n - 1);
      if r.None? then None else Some(2.0 * r.value)
  }

  function NearestAbove(x: real): (r: Option<real>)
    requires x >= 0.0
  {
    var r := Rounded(Twice(x, SMALLEST), STEPS);
    if r.None? then None else Some(Halved(r.value, SMALLEST))
  }

  function Nearest(x: real): Option<real> {
    if x >= 0.0 then NearestAbove(x)
    else
      var r := NearestAbove(-x);
      if r.None? then None else Some(-r.value)
  }

  /** `strconv.ParseFloat(s, 64)` on plain decimals; everything else is refused. */
  function ReadDouble(s: string): Option<real> {
    var x := ParseFloat(s);
    if x.None? then None else Nearest(x.value)
  }

  // ---------------------------------------------------------------- doubles and their comparisons

  datatype Double = Finite(value: real) | Infinite(negative: bool) | NaN

  /** What an operation on doubles makes of its exact result. */
  function AsDouble(x: real): Double {
    var r := Nearest(x);
    if r.Some? then Finite(r.value) else Infinite(x < 0.0)
  }

  /** `x < y`; false whenever one of them is NaN. */
  predicate Less(x: Double, y: Double) {
    match (x, y)
    case (Finite(a), Finite(b)) => a < b
    case (Finite(_), Infinite(n)) => !n
    case (Infinite(m), Finite(_)) => m
    case (Infinite(m), Infinite(n)) => m && !n
    case _ => false
  }

  /** `x <= y`, likewise. */
  predicate AtMost(x: Double, y: Double) {
    Less(x, y) || (x == y && !x.NaN?)
  }

  /** Comparing is a strict total order on everything but NaN, which compares to nothing. */
  lemma LessIsOrder(x: Double, y: Double, z: Double)
    ensures x.NaN? || y.NaN? ==> !Less(x, y) && !AtMost(x, y)
    ensures !x.NaN? && !y.NaN? ==> (AtMost(x, y) <==> !Less(y, x)) && (x == y <==> !Less(x, y) && !Less(y, x))
    ensures Less(x, y) && Less(y, z) ==> Less(x, z)
    ensures x.Finite? && y.Finite? ==> (Less(x, y) <==> x.value < y.value)
    ensures x.Finite? ==> Less(Infinite(true), x) && Less(x, Infinite(false))
    ensures Less(Infinite(true), Infinite(false))
  {}

  // ---------------------------------------------------------------- order

  lemma {:induction false} TwiceOrder(x: real, y: real, k: nat)
    ensures x <= y <==> Twice(x, k) <= Twice(y, k)
  {
    if k > 0 {
      TwiceOrder(x, y, k - 1);
    }
  }

  lemma {:induction false} HalvedOrder(x: real, y: real, k: nat)
    ensures x <= y <==> Halved(x, k) <= Halved(y, k)
  {
    if k > 0 {
      HalvedOrder(x, y, k - 1);
    }
  }

  lemma {:induction false} TwiceTwice(x: real, j: nat, k: nat)
    ensures Twice(Twice(x, j), k) == Twice(x, j + k)
  {
    if k > 0 {
      TwiceTwice(x, j, k - 1);
    }
  }

  lemma {:induction false} NeverBelowLeast(y: real, n: nat)
    requires y >= LEAST as real
    ensures Rounded(y, n).Some? ==> Rounded(y, n).value >= LEAST as real
    ensures Rounded(y, n).Some? && y >= 2.0 * LEAST as real ==> Rounded(y, n).value >= 2.0 * LEAST as real
  {
    if y < 2.0 * LEAST as real {
      RoundMonotone(LEAST as real, y);
      RoundExact(LEAST);
    } else if n > 0 {
      NeverBelowLeast(y / 2.0, n - 1);
    }
  }

  lemma SmallRounds(y: real)
    requires 0.0 <= y < 2.0 * LEAST as real
    ensures RoundHalfEven(y) <= 2 * LEAST
  {
    RoundMonotone(y, (2 * LEAST) as real);
    RoundExact(2 * LEAST);
  }

  lemma {:induction false} RoundedOrder(y: real, z: real, n: nat)
    requires 0.0 <= y <= z && Rounded(y, n).Some? && Rounded(z, n).Some?
    ensures Rounded(y, n).value <= Rounded(z, n).value
  {
    if z < 2.0 * LEAST as real {
      RoundMonotone(y, z);
    } else if y < 2.0 * LEAST as real {
      SmallRounds(y);
      NeverBelowLeast(z, n);
    } else {
      RoundedOrder(y / 2.0, z / 2.0, n - 1);
    }
  }

  lemma NearestAboveOrder(x: real, y: real)
    requires 0.0 <= x <= y && NearestAbove(x).Some? && NearestAbove(y).Some?
    ensures 0.0 <= NearestAbove(x).value <= NearestAbove(y).value
  {
    hide Rounded, Twice, Halved;
    TwiceOrder(x, y, SMALLEST);
    var (p, q) := (Rounded(Twice(x, SMALLEST), STEPS), Rounded(Twice(y, SMALLEST), STEPS));
    RoundedOrder(Twice(x, SMALLEST), Twice(y, SMALLEST), STEPS);
    HalvedOrder(p.value, q.value, SMALLEST);
    HalvedOrder(0.0, p.value, SMALLEST);
    HalvedZero(SMALLEST);
  }

  lemma {:induction false} HalvedZero(k: nat)
    ensures Halved(0.0, k) == 0.0
  {
    if k > 0 {
      HalvedZero(k - 1);
    }
  }

  /** Rounding to doubles never swaps an order. */
  lemma NearestOrder(x: real, y: real)
    requires x <= y && Nearest(x).Some? && Nearest(y).Some?
    ensures Nearest(x).value <= Nearest(y).value
  {
    hide NearestAbove;
    if x >= 0.0 {
      NearestAboveOrder(x, y);
    } else if y < 0.0 {
      NearestAboveOrder(-y, -x);
    } else {
      NearestAboveOrder(-x, -x);
      NearestAboveOrder(y, y);
    }
  }

  lemma {:induction false} RoundedRange(y: real, n: nat)
    requires y >= 0.0
    ensures Rounded(y, n).None? <==> y >= Twice(9_007_199_254_740_991.5, n)
  {
    if y < 2.0 * LEAST as real {
      if n == 0 {
        OddRounds(y);
      } else {
        GrowsByTwos(9_007_199_254_740_991.5, n - 1);
      }
    } else if n > 0 {
      RoundedRange(y / 2.0, n - 1);
    }
  }

  lemma OddRounds(y: real)
    requires 0.0 <= y < 2.0 * LEAST as real
    ensures RoundHalfEven(y) == 2 * LEAST <==> y >= 9_007_199_254_740_991.5
  {}

  lemma GrowsByTwos(x: real, k: nat)
    requires x >= 0.0
    ensures Twice(x, k) >= x
  {}

  /**
   * The range, exactly: above 2^1024 - 2^970 of either sign nothing is read, and what is at most 2^-1075 is read as
   * zero.
   */
  lemma NearestRange(x: real)
    requires x >= 0.0
    ensures Nearest(x).None? <==> x >= Twice(9_007_199_254_740_991.5, 971)
    ensures Nearest(x) == Some(0.0) <==> x <= Halved(1.0, 1075)
  {
    var y := Twice(x, SMALLEST);
    hide *;
    SmallestRounds(x, y);
    LargestRounds(x, 9_007_199_254_740_991.5);
  }

  lemma LargestRounds(x: real, top: real)
    requires x >= 0.0 && top == 9_007_199_254_740_991.5
    ensures Nearest(x).None? <==> x >= Twice(top, 971)
  {
    var y := Twice(x, SMALLEST);
    assert Nearest(x).None? <==> Rounded(y, STEPS).None?;
    hide Nearest, Rounded, Twice;
    RoundedRange(y, STEPS);
    TwiceTwice(top, 971, SMALLEST);
    TwiceOrder(Twice(top, 971), x, SMALLEST);
  }

  lemma SmallestRounds(x: real, y: real)
    requires x >= 0.0 && y == Twice(x, SMALLEST)
    ensures Nearest(x) == Some(0.0) <==> x <= Halved(1.0, 1075)
  {
    var h := Halved(1.0, 1075);
    assert h == Halved(1.0, 1074) / 2.0;
    RoundsToZero(y, STEPS);
    hide Rounded, Twice, Halved;
    HalvedTwice(1.0, 0, 1074);
    NoTwice(1.0);
    TwoHalvesOf(Halved(1.0, 1074), h);
    TwiceOrder(x, h, SMALLEST);
    HalvedZero(SMALLEST);
    if Rounded(y, STEPS).Some? {
      HalvedOrder(Rounded(y, STEPS).value, 0.0, SMALLEST);
      HalvedOrder(0.0, Rounded(y, STEPS).value, SMALLEST);
    }
  }

  lemma TwoHalvesOf(a: real, h: real)
    requires h == a / 2.0 && Twice(a, SMALLEST) == 1.0
    ensures Twice(h, SMALLEST) == 0.5
  {
    TwiceOffset(0.0, a, 0.5, SMALLEST);
    TwiceOffset(0.0, 0.0, 1.0, SMALLEST);
    hide Twice;
    assert 0.5 * (a - 0.0) == h;
  }

  lemma {:induction false} RoundsToZero(y: real, n: nat)
    requires y >= 0.0
    ensures Rounded(y, n) == Some(0.0) <==> y <= 0.5
  {
    if y >= 2.0 * LEAST as real {
      NeverBelowLeast(y, n);
    }
  }

  // ---------------------------------------------------------------- nearness

  /** From the least significand on, rounding is off by at most one part in 2^53. */
  lemma {:induction false} RoundedNear(y: real, n: nat)
    requires y >= LEAST as real && Rounded(y, n).Some?
    ensures -y <= 2.0 * LEAST as real * (Rounded(y, n).value - y) <= y
  {
    if y >= 2.0 * LEAST as real {
      RoundedNear(y / 2.0, n - 1);
    }
  }

  lemma {:induction false} TwiceOffset(x: real, y: real, c: real, k: nat)
    ensures Twice(c * (y - x), k) == c * (Twice(y, k) - Twice(x, k))
  {
    if k > 0 {
      TwiceOffset(x, y, c, k - 1);
      TwoTimes(c, Twice(y, k - 1), Twice(x, k - 1));
    }
  }

  lemma TwoTimes(c: real, a: real, b: real)
    ensures 2.0 * (c * (a - b)) == c * (2.0 * a - 2.0 * b)
  {}

  /** So the nearest double to a number that is not too small is off by at most one part in 2^53 of it. */
  lemma NearestNear(x: real)
    requires x >= 0.0 && Twice(x, SMALLEST) >= LEAST as real && Nearest(x).Some?
    ensures -x <= 2.0 * LEAST as real * (Nearest(x).value - x) <= x
  {
    hide Rounded, Twice, Halved;
    var r := Rounded(Twice(x, SMALLEST), STEPS).value;
    RoundedNear(Twice(x, SMALLEST), STEPS);
    HalvedTwice(r, 0, SMALLEST);
    NoTwice(r);
    StillNear(x, Nearest(x).value, 2.0 * LEAST as real, SMALLEST);
  }

  lemma StillNear(x: real, v: real, c: real, k: nat)
    requires -Twice(x, k) <= c * (Twice(v, k) - Twice(x, k)) <= Twice(x, k)
    ensures -x <= c * (v - x) <= x
  {
    hide Twice;
    TwiceOffset(x, v, c, k);
    TwiceNegated(x, k);
    TwiceOrder(c * (v - x), x, k);
    TwiceOrder(-x, c * (v - x), k);
  }

  lemma {:induction false} TwiceNegated(x: real, k: nat)
    ensures Twice(-x, k) == -Twice(x, k)
  {
    if k > 0 {
      TwiceNegated(x, k - 1);
    }
  }

  lemma NoTwice(x: real)
    ensures Twice(x, 0) == x
  {}

  // ---------------------------------------------------------------- range

  lemma {:induction false} InRangeRounds(y: real, n: nat)
    requires 0.0 <= y <= Twice(LEAST as real, n)
    ensures Rounded(y, n).Some?
  {
    if y < 2.0 * LEAST as real {
      if n == 0 {
        RoundMonotone(y, LEAST as real);
        RoundExact(LEAST);
      }
    } else {
      InRangeRounds(y / 2.0, n - 1);
    }
  }

  /** Up to 2^1023 everything is in range; 2^256 is far below that. */
  lemma InRangeReads(x: real)
    requires 0.0 <= x <= Twice(LEAST as real, STEPS - SMALLEST)
    ensures Nearest(x).Some? && Nearest(-x).Some?
  {
    hide Rounded, Twice, Halved;
    TwiceOrder(x, Twice(LEAST as real, STEPS - SMALLEST), SMALLEST);
    TwiceTwice(LEAST as real, STEPS - SMALLEST, SMALLEST);
    InRangeRounds(Twice(x, SMALLEST), STEPS);
    assert x == 0.0 ==> -x == x;
  }

  /** 2^256: what a word of the chain holds stays below. */
  const TWO_TO_256 := 0x1_0000000000000000_0000000000000000_0000000000000000_0000000000000000

  /** No word is too large to be read. */
  lemma WordsRead(x: real)
    requires 0.0 <= x <= TWO_TO_256 as real
    ensures Nearest(x).Some? && Nearest(-x).Some?
  {
    var u := LEAST as real;
    FiftyTwoTimes(u);
    FiftyTwoTimes(u * u);
    FiftyTwoTimes(u * u * u);
    FiftyTwoTimes(u * u * u * u);
    hide Twice, Nearest;
    TwiceTwice(u, 52, 52);
    TwiceTwice(u, 104, 52);
    TwiceTwice(u, 156, 52);
    TwiceTwice(u, 208, STEPS - SMALLEST - 208);
    InRangeReads(x);
  }

  /** What is out of range stays so further out. */
  lemma {:induction false} OutOfRangeStays(y: real, z: real, n: nat)
    requires 0.0 <= y <= z && Rounded(y, n).None?
    ensures Rounded(z, n).None?
  {
    if y < 2.0 * LEAST as real {
      if z < 2.0 * LEAST as real {
        RoundMonotone(y, z);
        SmallRounds(z);
      }
    } else if n > 0 {
      OutOfRangeStays(y / 2.0, z / 2.0, n - 1);
    }
  }

  lemma NearestOutOfRange(x: real, y: real)
    requires 0.0 <= x <= y && Nearest(x).None?
    ensures Nearest(y).None?
  {
    hide Rounded, Twice, Halved;
    TwiceOrder(x, y, SMALLEST);
    OutOfRangeStays(Twice(x, SMALLEST), Twice(y, SMALLEST), STEPS);
  }

  // ---------------------------------------------------------------- the last binary place

  lemma {:induction false} HalvedTwice(x: real, j: nat, k: nat)
    ensures Halved(Twice(x, j), j + k) == Halved(x, k)
    ensures Twice(Halved(x, k), j + k) == Twice(x, j)
  {
    if j > 0 {
      TwoHalves(Twice(x, j - 1), j + k);
      HalvedTwice(x, j - 1, k);
    } else if k > 0 {
      HalvedTwice(x, 0, k - 1);
      TwiceHalf(Halved(x, k - 1), k);
    }
  }

  lemma {:induction false} TwoHalves(x: real, k: nat)
    requires k > 0
    ensures Halved(2.0 * x, k) == Halved(x, k - 1)
  {
    if k > 1 {
      TwoHalves(x, k - 1);
    }
  }

  lemma {:induction false} TwiceHalf(x: real, k: nat)
    requires k > 0
    ensures Twice(x / 2.0, k) == Twice(x, k - 1)
  {
    if k > 1 {
      TwiceHalf(x, k - 1);
    }
  }

  /** A number with 2^`k` places to the whole is rounded at its last binary place. */
  lemma NearestFraction(w: real, k: nat)
    requires LEAST as real <= w < 2.0 * LEAST as real && k <= SMALLEST
    ensures Nearest(Halved(w, k)) == Some(Halved(RoundHalfEven(w) as real, k))
  {
    hide Rounded, Twice, Halved;
    HalvedTwice(w, SMALLEST - k, k);
    RoundedAt(w, SMALLEST - k);
    HalvedTwice(RoundHalfEven(w) as real, SMALLEST - k, k);
    HalvedOrder(0.0, w, k);
    HalvedZero(k);
  }

  lemma NearestMultiple(w: real, k: nat)
    requires LEAST as real <= w < 2.0 * LEAST as real && k < STEPS - SMALLEST
    ensures Nearest(Twice(w, k)) == Some(Twice(RoundHalfEven(w) as real, k))
  {
    hide Rounded, Twice, Halved;
    TwiceTwice(w, k, SMALLEST);
    RoundedAt(w, k + SMALLEST);
    var r := RoundHalfEven(w) as real;
    TwiceTwice(r, k, SMALLEST);
    HalvedTwice(Twice(r, k), SMALLEST, 0);
    NoHalf(Twice(r, k));
  }

  lemma NoHalf(x: real)
    ensures Halved(x, 0) == x
  {}

  lemma RoundedAt(w: real, j: nat)
    requires LEAST as real <= w < 2.0 * LEAST as real && j < STEPS
    ensures Rounded(Twice(w, j), STEPS) == Some(Twice(RoundHalfEven(w) as real, j))
  {
    RoundedTwice(w, j, STEPS);
  }

  // ---------------------------------------------------------------- around one

  lemma {:induction false} RoundedTwice(w: real, j: nat, n: nat)
    requires w >= LEAST as real && j <= n
    ensures Rounded(Twice(w, j), n) ==
      match Rounded(w, n - j) case None => None case Some(r) => Some(Twice(r, j))
  {
    if j > 0 {
      RoundedTwice(w, j - 1, n - 1);
      assert Twice(w, j) / 2.0 == Twice(w, j - 1);
      assert Twice(w, j) >= 2.0 * LEAST as real;
    }
  }

  lemma FourTimes(x: real)
    ensures Twice(x, 4) == 16.0 * x
  {
    assert Twice(x, 1) == 2.0 * Twice(x, 0) == 2.0 * x;
    assert Twice(x, 2) == 2.0 * Twice(x, 1);
    assert Twice(x, 3) == 2.0 * Twice(x, 2);
    assert Twice(x, 4) == 2.0 * Twice(x, 3);
  }

  lemma FiftyTwoTimes(x: real)
    ensures Twice(x, 52) == LEAST as real * x
  {
    TwelveTimes(x);
    TwelveTimes(4096.0 * x);
    TwelveTimes(16_777_216.0 * x);
    TwelveTimes(68_719_476_736.0 * x);
    FourTimes(281_474_976_710_656.0 * x);
    hide Twice;
    TwiceTwice(x, 12, 12);
    TwiceTwice(x, 24, 12);
    TwiceTwice(x, 36, 12);
    TwiceTwice(x, 48, 4);
  }

  lemma TwelveTimes(x: real)
    ensures Twice(x, 12) == 4096.0 * x
  {
    FourTimes(x);
    FourTimes(16.0 * x);
    FourTimes(256.0 * x);
    hide Twice;
    TwiceTwice(x, 4, 4);
    TwiceTwice(x, 8, 4);
  }

  /** Everything from one up to half a last place above it is read as one. */
  lemma NearOneIsOne(x: real)
    requires 1.0 <= x && LEAST as real * (x - 1.0) < 0.5
    ensures Nearest(x) == Nearest(1.0) && Nearest(x).Some?
  {
    hide Rounded, Twice, Halved;
    FiftyTwoTimes(x);
    FiftyTwoTimes(1.0);
    ScaledNearOne(x);
    ScaledNearOne(1.0);
  }

  lemma ScaledNearOne(x: real)
    requires 1.0 <= x && LEAST as real * (x - 1.0) < 0.5 && Twice(x, 52) == LEAST as real * x
    ensures Rounded(Twice(x, SMALLEST), STEPS) == Some(Twice(LEAST as real, SMALLEST - 52))
  {
    var w := LEAST as real * x;
    TwiceTwice(x, 52, SMALLEST - 52);
    RoundedTwice(w, SMALLEST - 52, STEPS);
    assert LEAST as real <= w < LEAST as real + 0.5;
    assert RoundHalfEven(w) == LEAST;
  }
}
