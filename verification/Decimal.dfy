/** Decimal numerals: digit strings, the numbers they denote, and shifts by powers of ten. */
module Decimal {

  /** `v` followed by `k` zeros: v * 10^k. */
  function Shift(v: int, k: nat): (r: int)
    ensures v >= 0 ==> r >= v
    ensures v > 0 && k > 0 ==> r > v
    ensures v == 0 ==> r == 0
    ensures v < 0 ==> r <= v
  {
    if k == 0 then v else 10 * Shift(v, k - 1)
  }

  /** `x` with the point moved `k` places to the left: x / 10^k. */
  function Point(x: real, k: nat): (r: real)
    ensures x >= 0.0 ==> r >= 0.0
  {
    if k == 0 then x else Point(x, k - 1) / 10.0
  }

  lemma {:induction false} ShiftShift(v: int, j: nat, k: nat)
    ensures Shift(Shift(v, j), k) == Shift(v, j + k)
  {
    if k > 0 {
      ShiftShift(v, j, k - 1);
    }
  }

  lemma {:induction false} ShiftOrder(v: int, w: int, k: nat)
    ensures v <= w <==> Shift(v, k) <= Shift(w, k)
  {
    if k > 0 {
      ShiftOrder(v, w, k - 1);
    }
  }

  lemma {:induction false} PointOrder(x: real, y: real, k: nat)
    ensures x <= y <==> Point(x, k) <= Point(y, k)
  {
    if k > 0 {
      PointOrder(x, y, k - 1);
    }
  }

  lemma {:induction false} PointAdd(x: real, y: real, k: nat)
    ensures Point(x + y, k) == Point(x, k) + Point(y, k)
  {
    if k > 0 {
      PointAdd(x, y, k - 1);
    }
  }

  lemma {:induction false} PointShift(v: int, j: nat, k: nat)
    ensures Point(Shift(v, k) as real, j + k) == Point(v as real, j)
  {
    if k > 0 {
      PointTen(Shift(v, k - 1), j + k);
      PointShift(v, j, k - 1);
    }
  }

  lemma {:induction false} PointTen(v: int, k: nat)
    requires k > 0
    ensures Point((10 * v) as real, k) == Point(v as real, k - 1)
  {
    if k > 1 {
      PointTen(v, k - 1);
    }
  }

  predicate IsDigit(c: char) {
    '0' <= c <= '9'
  }

  predicate AllDigits(s: string) {
    forall i :: 0 <= i < |s| ==> IsDigit(s[i])
  }

  function DigitValue(c: char): nat
    requires IsDigit(c)
  {
    c as int - '0' as int
  }

  function DigitChar(d: nat): (c: char)
    requires d < 10
    ensures IsDigit(c) && DigitValue(c) == d
  {
    ('0' as int + d) as char
  }

  /** The number a digit string denotes; the empty string denotes 0. */
  function Value(s: string): nat
    requires AllDigits(s)
  {
    if s == "" then 0 else 10 * Value(s[..|s| - 1]) + DigitValue(s[|s| - 1])
  }

  /** The decimal numeral of `n` without leading zeros, as `big.Int.String` prints it. */
  function Digits(n: nat): (s: string)
    ensures AllDigits(s) && s != ""
    ensures Value(s) == n
    ensures s[0] == '0' ==> n == 0 && s == "0"
  {
    if n < 10 then
      [DigitChar(n)]
    else
      var front := Digits(n / 10);
      var s := front + [DigitChar(n % 10)];
      assert s[..|s| - 1] == front;
      s
  }

  function Zeros(n: nat): (s: string)
    ensures |s| == n && forall i :: 0 <= i < n ==> s[i] == '0'
  {
    seq(n, _ => '0')
  }

  lemma {:induction false} ValueConcat(a: string, b: string)
    requires AllDigits(a) && AllDigits(b)
    ensures AllDigits(a + b)
    ensures Value(a + b) == Shift(Value(a), |b|) + Value(b)
  {
    if b == "" {
      assert a + b == a;
    } else {
      var front := b[..|b| - 1];
      ValueConcat(a, front);
      assert (a + b)[..|a + b| - 1] == a + front;
    }
  }

  lemma {:induction false} ValueZeros(n: nat)
    ensures Value(Zeros(n)) == 0
  {
    if n > 0 {
      ValueZeros(n - 1);
      assert Zeros(n)[..n - 1] == Zeros(n - 1);
    }
  }

  lemma {:induction false} ValueBound(s: string)
    requires AllDigits(s)
    ensures Value(s) < Shift(1, |s|)
    ensures s != "" && s[0] != '0' ==> Value(s) >= Shift(1, |s| - 1)
  {
    if s == "" {
    } else if |s| == 1 {
      assert s[..0] == "";
      assert Shift(1, 1) == 10 * Shift(1, 0);
    } else {
      ValueBound(s[..|s| - 1]);
      assert Shift(1, |s|) == 10 * Shift(1, |s| - 1);
      assert Shift(1, |s| - 1) == 10 * Shift(1, |s| - 2);
    }
  }

  lemma LastDigit(s: string)
    requires AllDigits(s) && s != ""
    ensures Value(s) % 10 == DigitValue(s[|s| - 1])
  {}

  /** Two numerals of the same length denote the same number only when they are equal. */
  lemma {:induction false} ValueInjective(a: string, b: string)
    requires AllDigits(a) && AllDigits(b) && |a| == |b| && Value(a) == Value(b)
    ensures a == b
  {
    if a != "" {
      var n := |a| - 1;
      LastDigit(a);
      LastDigit(b);
      ValueInjective(a[..n], b[..n]);
      assert a == a[..n] + [a[n]] && b == b[..n] + [b[n]];
    }
  }

  /** Leading zeros never change the value. */
  lemma ValueZerosPrefix(n: nat, s: string)
    requires AllDigits(s)
    ensures AllDigits(Zeros(n) + s) && Value(Zeros(n) + s) == Value(s)
  {
    ValueConcat(Zeros(n), s);
    ValueZeros(n);
  }

  lemma ValueZerosSuffix(s: string, n: nat)
    requires AllDigits(s)
    ensures AllDigits(s + Zeros(n)) && Value(s + Zeros(n)) == Shift(Value(s), n)
  {
    ValueConcat(s, Zeros(n));
    ValueZeros(n);
  }
}
