/**
 * Raw token units and their decimal rendering: `FormatUnits` and `ParseUnits`.
 * A raw amount is an integer; `decimals` says how many of its digits stand after the point.
 */
module Units {
  import opened Text
  import opened Decimal

  type Decimals = d: int | 0 <= d < 256

  datatype ParseError = Empty | BadInteger | BadFraction | TooManyFractionalDigits

  // ---------------------------------------------------------------- rendering

  function TrimTrailingZeros(s: string): string {
    if '.' !in s then s else CutPoint(TrimRight(s, '0'))
  }

  function CutPoint(t: string): string {
    var u := if t != "" && t[|t| - 1] == '.' then t[..|t| - 1] else t;
    if u == "" || u == "-" then "0" else u
  }

  function FormatUnits(raw: nat, decimals: Decimals): string {
    if raw == 0 then
      "0"
    else
      var str := Digits(raw);
      if |str| <= decimals then
        TrimTrailingZeros("0." + Zeros(decimals - |str|) + str)
      else
        var whole, frac := str[..|str| - decimals], str[|str| - decimals..];
        if frac == "" then whole else TrimTrailingZeros(whole + "." + frac)
  }

  // ---------------------------------------------------------------- reading

  /** A numeral taken apart at its sign and its first point. */
  datatype Numeral = Numeral(neg: bool, whole: string, frac: string) {
    predicate IsPlain() {
      AllDigits(whole) && AllDigits(frac)
    }

    /** The rational number the numeral denotes. */
    function Number(): real
      requires IsPlain()
    {
      var magnitude := Value(whole) as real + Point(Value(frac) as real, |frac|);
      if neg then -magnitude else magnitude
    }

    /** The number times ten to the `d`, an integer as soon as `d` covers the fraction. */
    function Scaled(d: nat): int
      requires IsPlain() && |frac| <= d
    {
      var magnitude := Shift(Value(whole + frac), d - |frac|);
      if neg then -magnitude else magnitude
    }
  }

  function Split(s: string): (n: Numeral)
  {
    var neg := s != "" && s[0] == '-';
    var body := if neg then s[1..] else s;
    var dot := IndexOf(body, '.');
    if dot < |body| then Numeral(neg, body[..dot], body[dot + 1..]) else Numeral(neg, body, "")
  }

  /** What `ParseUnits` promises: the number times ten to the `decimals`, or the first fault found. */
  function ParsedUnits(s: string, decimals: Decimals): Result<int, ParseError> {
    var t := TrimSpace(s);
    if t == "" then Err(Empty) else Judged(Split(t), decimals)
  }

  function Judged(n: Numeral, decimals: Decimals): Result<int, ParseError> {
    if !AllDigits(n.whole) then Err(BadInteger)
    else if !AllDigits(n.frac) then Err(BadFraction)
    else if |n.frac| > decimals then Err(TooManyFractionalDigits)
    else Ok(n.Scaled(decimals))
  }

  /** Whether `ParseUnits` reads `s` at some number of decimals, and the number it reads. */
  predicate Accepted(s: string) {
    TrimSpace(s) != "" && Split(TrimSpace(s)).IsPlain()
  }

  function Numeric(s: string): real
    requires Accepted(s)
  {
    Split(TrimSpace(s)).Number()
  }

  method CheckDigits(s: string) returns (ok: bool)
    ensures ok == AllDigits(s)
  {
    for i := 0 to |s|
      invariant forall j :: 0 <= j < i ==> IsDigit(s[j])
    {
      if !IsDigit(s[i]) {
        return false;
      }
    }
    return true;
  }

  /** The reader as written: validate rune by rune, pad the fraction, drop leading zeros, convert. */
  method ParseUnits(input: string, decimals: Decimals) returns (r: Result<int, ParseError>)
    ensures r == ParsedUnits(input, decimals)
  {
    var s := TrimSpace(input);
    if s == "" {
      return Err(Empty);
    }
    ghost var n := Split(s);
    var neg := s[0] == '-';
    if neg {
      s := s[1..];
    }
    var whole, frac := s, "";
    var dot := IndexOf(s, '.');
    if dot < |s| {
      whole, frac := s[..dot], s[dot + 1..];
    }
    assert n == Numeral(neg, whole, frac) && ParsedUnits(input, decimals) == Judged(n, decimals);
    hide *;
    r := ReadParts(neg, whole, frac, decimals);
  }

  method ReadParts(neg: bool, whole: string, frac: string, decimals: Decimals) returns (r: Result<int, ParseError>)
    ensures r == Judged(Numeral(neg, whole, frac), decimals)
  {
    hide Value, TrimLeft, Shift;
    var intStr := if whole == "" then "0" else whole;
    var ok := CheckDigits(intStr);
    if !ok {
      return Err(BadInteger);
    }
    ok := CheckDigits(frac);
    if !ok {
      return Err(BadFraction);
    }
    if |frac| > decimals {
      return Err(TooManyFractionalDigits);
    }
    var combined := TrimLeft(intStr + (frac + Zeros(decimals - |frac|)), '0');
    PaddedValue(Numeral(neg, whole, frac), intStr, decimals, combined);
    var v := if combined == "" then 0 else Value(combined);
    r := Ok(if neg then -v else v);
  }

  lemma PaddedValue(n: Numeral, whole: string, d: nat, combined: string)
    requires n.IsPlain() && |n.frac| <= d
    requires whole == if n.whole == "" then "0" else n.whole
    requires combined == TrimLeft(whole + (n.frac + Zeros(d - |n.frac|)), '0')
    ensures AllDigits(combined)
    ensures (if combined == "" then 0 else Value(combined)) == Shift(Value(n.whole + n.frac), d - |n.frac|)
  {
    assert Value("") == 0;
    hide Shift, TrimLeft, Value, Zeros;
    var zeros := Zeros(d - |n.frac|);
    assert whole + (n.frac + zeros) == whole + n.frac + zeros;
    WholeOrZero(n.whole, n.frac);
    ValueZerosSuffix(whole + n.frac, d - |n.frac|);
    TrimLeftValue(whole + n.frac + zeros);
  }

  lemma WholeOrZero(whole: string, frac: string)
    requires AllDigits(whole) && AllDigits(frac)
    ensures var w := if whole == "" then "0" else whole;
      AllDigits(w + frac) && Value(w + frac) == Value(whole + frac)
  {
    hide Value;
    if whole == "" {
      assert "0" + frac == Zeros(1) + (whole + frac);
      ValueZerosPrefix(1, whole + frac);
    }
  }

  lemma {:induction false} TrimLeftValue(s: string)
    requires AllDigits(s)
    ensures AllDigits(TrimLeft(s, '0')) && Value(TrimLeft(s, '0')) == Value(s)
  {
    if s != "" && s[0] == '0' {
      TrimLeftValue(s[1..]);
      assert s == Zeros(1) + s[1..];
      ValueZerosPrefix(1, s[1..]);
    }
  }

  // ---------------------------------------------------------------- the shape of a rendered amount

  function Signed(neg: bool, s: string): string {
    if neg then "-" + s else s
  }

  function Join(whole: string, frac: string): string {
    if frac == "" then whole else whole + "." + frac
  }

  lemma TrimSpaceNoop(s: string)
    requires s != "" && !IsSpace(s[0]) && !IsSpace(s[|s| - 1])
    ensures TrimSpace(s) == s
  {}

  lemma JoinDot(whole: string, frac: string)
    requires AllDigits(whole)
    ensures IndexOf(Join(whole, frac), '.') == |whole|
  {
    var s := Join(whole, frac);
    assert forall i :: 0 <= i < |whole| ==> s[i] == whole[i] != '.';
    assert frac != "" ==> s[|whole|] == '.';
  }

  lemma SplitJoin(neg: bool, whole: string, frac: string)
    requires AllDigits(whole) && AllDigits(frac) && whole != ""
    ensures Split(Signed(neg, Join(whole, frac))) == Numeral(neg, whole, frac)
  {
    var s := Join(whole, frac);
    JoinDot(whole, frac);
    hide IndexOf;
    assert neg ==> Signed(neg, s)[1..] == s;
    assert s[0] == whole[0];
    assert s[..|whole|] == whole;
    assert frac != "" ==> s[|whole| + 1..] == frac;
  }

  lemma TrimJoin(neg: bool, whole: string, frac: string)
    requires AllDigits(whole) && AllDigits(frac) && whole != ""
    ensures TrimSpace(Signed(neg, Join(whole, frac))) == Signed(neg, Join(whole, frac))
  {
    hide TrimSpace;
    var s := Join(whole, frac);
    assert IsDigit(s[0]) && IsDigit(s[|s| - 1]);
    TrimSpaceNoop(Signed(neg, s));
  }

  /** The digits of `raw`, with zeros in front so that at least one digit stands before the point. */
  function Padded(raw: nat, d: nat): (p: string)
    ensures AllDigits(p) && |p| > d
    ensures p[0] == '0' ==> |p| == d + 1
    ensures |Digits(raw)| > d ==> p == Digits(raw)
  {
    var str := Digits(raw);
    if |str| <= d then Zeros(d + 1 - |str|) + str else str
  }

  lemma PaddedIsRaw(raw: nat, d: nat)
    ensures Value(Padded(raw, d)) == raw
  {
    if |Digits(raw)| <= d {
      ValueZerosPrefix(d + 1 - |Digits(raw)|, Digits(raw));
    }
  }

  /** The whole and fractional digits that `FormatUnits` prints. */
  function Whole(raw: nat, d: nat): (w: string)
    ensures AllDigits(w) && w != ""
    ensures w[0] == '0' ==> |w| == 1
  {
    Padded(raw, d)[..|Padded(raw, d)| - d]
  }

  function Frac(raw: nat, d: nat): (f: string)
    ensures AllDigits(f) && |f| <= d
    ensures f != "" ==> f[|f| - 1] != '0'
  {
    TrimRight(Padded(raw, d)[|Padded(raw, d)| - d..], '0')
  }

  lemma FormatIsJoin(raw: nat, d: Decimals)
    ensures FormatUnits(raw, d) == Join(Whole(raw, d), Frac(raw, d))
  {
    hide *;
    if raw == 0 {
      FormatZero(d);
    } else if |Digits(raw)| <= d {
      FormatSmall(raw, d);
    } else {
      FormatLarge(raw, d);
    }
  }

  lemma FormatLarge(raw: nat, d: Decimals)
    requires 0 < raw && |Digits(raw)| > d
    ensures FormatUnits(raw, d) == Join(Whole(raw, d), Frac(raw, d))
  {
    hide TrimTrailingZeros, TrimRight, Digits, Join;
    var str := Digits(raw);
    var whole, frac := str[..|str| - d], str[|str| - d..];
    assert Padded(raw, d) == str;
    if d > 0 {
      TrimJoined(whole, frac);
    } else {
      assert frac == "" && Frac(raw, d) == "";
      JoinNone(whole);
    }
  }

  lemma JoinNone(whole: string)
    ensures Join(whole, "") == whole
  {}

  lemma FormatZero(d: Decimals)
    ensures FormatUnits(0, d) == Join(Whole(0, d), Frac(0, d))
  {
    assert Digits(0) == "0";
    assert Padded(0, d) == "0" + Zeros(d);
    hide Digits;
    assert Padded(0, d)[1..] == Zeros(d);
  }

  lemma FormatSmall(raw: nat, d: Decimals)
    requires 0 < raw && |Digits(raw)| <= d
    ensures FormatUnits(raw, d) == Join(Whole(raw, d), Frac(raw, d))
  {
    hide TrimTrailingZeros, TrimRight, Digits, Join;
    var f0 := Zeros(d - |Digits(raw)|) + Digits(raw);
    assert Padded(raw, d) == "0" + f0;
    assert Whole(raw, d) == "0" && Padded(raw, d)[1..] == f0;
    assert "0." + Zeros(d - |Digits(raw)|) + Digits(raw) == "0" + "." + f0;
    TrimJoined("0", f0);
  }

  lemma TrimJoined(whole: string, f: string)
    requires AllDigits(whole) && AllDigits(f) && whole != ""
    ensures TrimTrailingZeros(whole + "." + f) == Join(whole, TrimRight(f, '0'))
  {
    hide TrimRight, CutPoint, Join;
    var s := whole + "." + f;
    assert s[|whole|] == '.';
    TrimRightConcat(whole + ".", f);
    CutJoined(whole, TrimRight(f, '0'));
  }

  lemma CutJoined(whole: string, g: string)
    requires AllDigits(whole) && AllDigits(g) && whole != ""
    ensures CutPoint(whole + "." + g) == Join(whole, g)
  {
    var t := whole + "." + g;
    assert whole[0] != '-';
    if g == "" {
      assert t[..|t| - 1] == whole;
    } else {
      assert t[|t| - 1] == g[|g| - 1];
    }
  }

  lemma {:induction false} TrimRightConcat(a: string, b: string)
    requires a != "" && a[|a| - 1] != '0'
    ensures TrimRight(a + b, '0') == a + TrimRight(b, '0')
  {
    if b == "" {
      assert a + b == a;
    } else {
      assert (a + b)[..|a + b| - 1] == a + b[..|b| - 1];
      TrimRightConcat(a, b[..|b| - 1]);
    }
  }

  /** The number that the printed digits denote when the point is left out. */
  function Printed(raw: nat, d: nat): (v: nat)
    ensures Frac(raw, d) != "" ==> v % 10 != 0
  {
    var s := Whole(raw, d) + Frac(raw, d);
    assert Frac(raw, d) != "" ==> s[|s| - 1] == Frac(raw, d)[|Frac(raw, d)| - 1];
    LastDigit(s);
    Value(s)
  }

  /** It is the raw amount without its trailing zeros. */
  lemma PrintedIsRaw(raw: nat, d: nat)
    ensures Shift(Printed(raw, d), d - |Frac(raw, d)|) == raw
  {
    PaddedIsRaw(raw, d);
    PaddedSplit(raw, d);
    ValueZerosSuffix(Whole(raw, d) + Frac(raw, d), d - |Frac(raw, d)|);
  }

  lemma PaddedSplit(raw: nat, d: nat)
    ensures Padded(raw, d) == Whole(raw, d) + Frac(raw, d) + Zeros(d - |Frac(raw, d)|)
  {
    hide Padded, TrimRight;
    var p := Padded(raw, d);
    Unpadded(p[|p| - d..]);
  }

  lemma Unpadded(s: string)
    ensures s == TrimRight(s, '0') + Zeros(|s| - |TrimRight(s, '0')|)
  {
    hide TrimRight;
  }

  /** No redundant leading zero, no bare point, no trailing fractional zero, no sign, no space. */
  predicate Canonical(s: string) {
    var dot := IndexOf(s, '.');
    && dot > 0 && AllDigits(s[..dot])
    && (s[0] == '0' ==> dot == 1)
    && (dot < |s| ==> dot + 1 < |s| && AllDigits(s[dot + 1..]) && s[|s| - 1] != '0')
  }

  lemma FormatCanonical(raw: nat, d: Decimals)
    ensures Canonical(FormatUnits(raw, d))
  {
    hide *;
    FormatIsJoin(raw, d);
    JoinCanonical(Whole(raw, d), Frac(raw, d));
  }

  lemma JoinCanonical(whole: string, frac: string)
    requires AllDigits(whole) && AllDigits(frac) && whole != "" && (whole[0] == '0' ==> |whole| == 1)
    requires frac != "" ==> frac[|frac| - 1] != '0'
    ensures Canonical(Join(whole, frac))
  {
    JoinDot(whole, frac);
    hide IndexOf;
    var s := Join(whole, frac);
    assert s[..|whole|] == whole;
    assert frac != "" ==> s[|whole| + 1..] == frac;
  }

  lemma ParsedJoin(neg: bool, whole: string, frac: string, e: Decimals)
    requires AllDigits(whole) && AllDigits(frac) && whole != ""
    ensures var s := Signed(neg, Join(whole, frac));
      && ParsedUnits(s, e) ==
         (if |frac| <= e then Ok(Numeral(neg, whole, frac).Scaled(e)) else Err(TooManyFractionalDigits))
      && Accepted(s) && Split(TrimSpace(s)) == Numeral(neg, whole, frac)
  {
    TrimJoin(neg, whole, frac);
    SplitJoin(neg, whole, frac);
    hide TrimSpace, Split, Value, Shift;
  }

  // ---------------------------------------------------------------- round trips

  /**
   * Printing at `d` decimals and reading at `e` appends `e - d` zeros, or drops `d - e` of them.
   * It is refused exactly when there are not that many to drop.
   */
  lemma Rescale(raw: nat, d: Decimals, e: Decimals)
    ensures e >= d ==> ParsedUnits(FormatUnits(raw, d), e) == Ok(Shift(raw, e - d))
    ensures e < d ==> forall q :: ParsedUnits(FormatUnits(raw, d), e) == Ok(q) <==> Shift(q, d - e) == raw
    ensures ParsedUnits(FormatUnits(raw, d), e).Ok? ||
      ParsedUnits(FormatUnits(raw, d), e) == Err(TooManyFractionalDigits)
  {
    hide *;
    var r := ParsedUnits(FormatUnits(raw, d), e);
    FormatParsed(raw, d, e);
    PrintedIsRaw(raw, d);
    RescaleCases(r, Printed(raw, d), |Frac(raw, d)|, raw, d, e);
  }

  lemma FormatParsed(raw: nat, d: Decimals, e: Decimals)
    ensures ParsedUnits(FormatUnits(raw, d), e) ==
      if |Frac(raw, d)| <= e then Ok(Shift(Printed(raw, d), e - |Frac(raw, d)|)) else Err(TooManyFractionalDigits)
  {
    FormatIsJoin(raw, d);
    ParsedJoin(false, Whole(raw, d), Frac(raw, d), e);
  }

  lemma RescaleCases(r: Result<int, ParseError>, v: nat, f: nat, raw: nat, d: nat, e: nat)
    requires f <= d && Shift(v, d - f) == raw && (f > 0 ==> v % 10 != 0)
    requires r == if f <= e then Ok(Shift(v, e - f)) else Err(TooManyFractionalDigits)
    ensures e >= d ==> r == Ok(Shift(raw, e - d))
    ensures e < d ==> forall q :: r == Ok(q) <==> Shift(q, d - e) == raw
  {
    hide Shift;
    if e >= d {
      ShiftShift(v, d - f, e - d);
    } else {
      forall q
        ensures r == Ok(q) <==> Shift(q, d - e) == raw
      {
        if f <= e {
          RescaleFits(v, f, q, d, e);
        } else {
          RescaleCuts(v, f, q, d, e);
        }
      }
    }
  }

  lemma RescaleFits(v: nat, f: nat, q: int, d: nat, e: nat)
    requires f <= e < d
    ensures q == Shift(v, e - f) <==> Shift(q, d - e) == Shift(v, d - f)
  {
    hide Shift;
    ShiftShift(v, e - f, d - e);
    ShiftInjective(q, Shift(v, e - f), d - e);
  }

  lemma RescaleCuts(v: nat, f: nat, q: int, d: nat, e: nat)
    requires e < f <= d && v % 10 != 0
    ensures Shift(q, d - e) != Shift(v, d - f)
  {
    hide Shift;
    ShiftShift(q, f - e, d - f);
    ShiftInjective(Shift(q, f - e), v, d - f);
    var tenth := ShiftIsTenfold(q, f - e);
    TenfoldIsNot(tenth, v);
  }

  lemma ShiftIsTenfold(q: int, k: nat) returns (tenth: int)
    requires k > 0
    ensures Shift(q, k) == 10 * tenth
  {
    tenth := Shift(q, k - 1);
  }

  lemma TenfoldIsNot(t: int, v: nat)
    requires v % 10 != 0
    ensures 10 * t != v
  {}

  lemma ShiftInjective(v: int, w: int, k: nat)
    ensures Shift(v, k) == Shift(w, k) <==> v == w
  {
    hide Shift;
    ShiftOrder(v, w, k);
    ShiftOrder(w, v, k);
  }

  /** `ParseUnits` undoes `FormatUnits` at the same number of decimals. */
  lemma RoundTrip(raw: nat, d: Decimals)
    ensures ParsedUnits(FormatUnits(raw, d), d) == Ok(raw)
  {
    Rescale(raw, d, d);
  }

  /** At different numbers of decimals a positive amount never survives. */
  lemma RoundTripOnlyAtSameDecimals(raw: nat, d: Decimals, e: Decimals)
    requires raw > 0
    ensures ParsedUnits(FormatUnits(raw, d), e) == Ok(raw) <==> d == e
  {
    Rescale(raw, d, e);
  }

  /** Different raw amounts are never printed alike. */
  lemma FormatInjective(a: nat, b: nat, d: Decimals)
    requires FormatUnits(a, d) == FormatUnits(b, d)
    ensures a == b
  {
    RoundTrip(a, d);
    RoundTrip(b, d);
  }

  /** What `ParseUnits` returns is the number written, with the point moved `d` places to the right. */
  lemma ParsedIsNumber(s: string, d: Decimals)
    requires ParsedUnits(s, d).Ok?
    ensures Accepted(s)
    ensures Point(ParsedUnits(s, d).value as real, d) == Numeric(s)
  {
    ScaledIsNumber(Split(TrimSpace(s)), d);
  }

  lemma ScaledIsNumber(n: Numeral, d: nat)
    requires n.IsPlain() && |n.frac| <= d
    ensures Point(n.Scaled(d) as real, d) == n.Number()
  {
    var f, w, v := |n.frac|, Value(n.whole), Value(n.frac);
    var all := Value(n.whole + n.frac);
    assert Point(w as real, 0) == w as real;
    hide Value, Point, Shift;
    ValueConcat(n.whole, n.frac);
    PointShift(all, f, d - f);
    PointAdd(Shift(w, f) as real, v as real, f);
    assert Shift(w, f) as real + v as real == all as real;
    PointShift(w, 0, f);
    PointNegate(Shift(all, d - f) as real, d);
  }

  lemma {:induction false} PointNegate(x: real, k: nat)
    ensures Point(-x, k) == -Point(x, k)
  {
    if k > 0 {
      PointNegate(x, k - 1);
    }
  }

  /** `ParseUnits` keeps the order of the numbers written, and tells equal numbers from different ones. */
  lemma ParseKeepsOrder(s: string, t: string, d: Decimals)
    requires ParsedUnits(s, d).Ok? && ParsedUnits(t, d).Ok?
    ensures Accepted(s) && Accepted(t)
    ensures Numeric(s) <= Numeric(t) <==> ParsedUnits(s, d).value <= ParsedUnits(t, d).value
  {
    ParsedIsNumber(s, d);
    ParsedIsNumber(t, d);
    PointOrder(ParsedUnits(s, d).value as real, ParsedUnits(t, d).value as real, d);
  }

  /**
   * Reading a non-negative amount and printing it again is a normaliser: the result denotes the same
   * number, has one shape, and normalising it again changes nothing.
   */
  lemma Normalises(s: string, d: Decimals)
    requires ParsedUnits(s, d).Ok? && ParsedUnits(s, d).value >= 0
    ensures var t := FormatUnits(ParsedUnits(s, d).value, d);
      && Canonical(t)
      && Accepted(s) && Accepted(t) && Numeric(t) == Numeric(s)
      && ParsedUnits(t, d) == ParsedUnits(s, d)
  {
    var v := ParsedUnits(s, d).value;
    var t := FormatUnits(v, d);
    RoundTrip(v, d);
    FormatCanonical(v, d);
    ParseKeepsOrder(s, t, d);
    ParseKeepsOrder(t, s, d);
  }

  /** The normal form is unique: a canonical numeral that is accepted is its own normal form. */
  lemma CanonicalIsFixed(s: string, d: Decimals)
    requires Canonical(s) && ParsedUnits(s, d).Ok?
    ensures ParsedUnits(s, d).value >= 0
    ensures FormatUnits(ParsedUnits(s, d).value, d) == s
  {
    hide *;
    var whole, frac := CanonicalParts(s);
    var v := JoinedValue(whole, frac, d);
    FormatIsJoin(v, d);
    PrintedIsRaw(v, d);
    PrintedIsValue(v, d);
    SameNumberSameParts(whole, frac, Whole(v, d), Frac(v, d), d);
  }

  lemma JoinedValue(whole: string, frac: string, d: Decimals) returns (v: nat)
    requires AllDigits(whole) && AllDigits(frac) && whole != ""
    requires ParsedUnits(Join(whole, frac), d).Ok?
    ensures |frac| <= d && AllDigits(whole + frac) && v == Shift(Value(whole + frac), d - |frac|)
    ensures ParsedUnits(Join(whole, frac), d) == Ok(v)
  {
    ParsedJoin(false, whole, frac, d);
    hide ParsedUnits, Value, Shift;
    v := Shift(Value(whole + frac), d - |frac|);
  }

  lemma PrintedIsValue(raw: nat, d: nat)
    ensures AllDigits(Whole(raw, d) + Frac(raw, d))
    ensures Printed(raw, d) == Value(Whole(raw, d) + Frac(raw, d))
  {}

  lemma CanonicalParts(s: string) returns (whole: string, frac: string)
    requires Canonical(s)
    ensures AllDigits(whole) && AllDigits(frac) && s == Join(whole, frac)
    ensures whole != "" && (whole[0] == '0' ==> |whole| == 1)
    ensures frac != "" ==> frac[|frac| - 1] != '0'
  {
    hide IndexOf;
    var dot := IndexOf(s, '.');
    whole, frac := s[..dot], if dot < |s| then s[dot + 1..] else "";
  }

  lemma SameNumberSameParts(w: string, f: string, w': string, f': string, d: nat)
    requires AllDigits(w) && AllDigits(f) && w != "" && (w[0] == '0' ==> |w| == 1)
    requires AllDigits(w') && AllDigits(f') && w' != "" && (w'[0] == '0' ==> |w'| == 1)
    requires f != "" ==> f[|f| - 1] != '0'
    requires f' != "" ==> f'[|f'| - 1] != '0'
    requires |f| <= d && |f'| <= d
    requires Shift(Value(w + f), d - |f|) == Shift(Value(w' + f'), d - |f'|)
    ensures w == w' && f == f'
  {
    hide Value, Shift, Pad;
    PadValue(w, f, d);
    PadValue(w', f', d);
    var z, z' := Pad(f, d), Pad(f', d);
    SameLength(w + z, w' + z', d);
    ValueInjective(w + z, w' + z');
    SplitEqual(w, z, w', z');
    PadInjective(f, f', d);
  }

  function Pad(f: string, d: nat): (z: string)
    requires |f| <= d && AllDigits(f)
    ensures |z| == d && z[..|f|] == f && AllDigits(z)
    ensures forall i :: |f| <= i < d ==> z[i] == '0'
  {
    f + Zeros(d - |f|)
  }

  lemma PadValue(w: string, f: string, d: nat)
    requires AllDigits(w) && AllDigits(f) && |f| <= d
    ensures Value(w + Pad(f, d)) == Shift(Value(w + f), d - |f|)
  {
    assert w + Pad(f, d) == w + f + Zeros(d - |f|);
    ValueZerosSuffix(w + f, d - |f|);
  }

  lemma SplitEqual(w: string, z: string, w': string, z': string)
    requires w + z == w' + z' && |z| == |z'|
    ensures w == w' && z == z'
  {
    assert w == (w + z)[..|w|] && w' == (w' + z')[..|w|];
    assert z == (w + z)[|w|..] && z' == (w' + z')[|w|..];
  }

  lemma PadInjective(f: string, f': string, d: nat)
    requires |f| <= |f'| <= d || |f'| <= |f| <= d
    requires AllDigits(f) && AllDigits(f')
    requires f != "" ==> f[|f| - 1] != '0'
    requires f' != "" ==> f'[|f'| - 1] != '0'
    requires Pad(f, d) == Pad(f', d)
    ensures f == f'
  {
    var z := Pad(f, d);
    assert |f'| > 0 ==> z[..|f'|][|f'| - 1] == f'[|f'| - 1];
    assert |f| > 0 ==> z[..|f|][|f| - 1] == f[|f| - 1];
  }

  lemma SameLength(a: string, b: string, d: nat)
    requires AllDigits(a) && AllDigits(b) && |a| > d && |b| > d
    requires a[0] == '0' ==> |a| == d + 1
    requires b[0] == '0' ==> |b| == d + 1
    requires Value(a) == Value(b)
    ensures |a| == |b|
  {
    ValueBound(a);
    ValueBound(b);
    if |a| < |b| {
      ShiftShift(1, |a|, |b| - 1 - |a|);
    } else if |b| < |a| {
      ShiftShift(1, |b|, |a| - 1 - |b|);
    }
  }
}
