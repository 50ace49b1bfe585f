/** Thousands separators, written by two different loops, and dollar amounts printed, read and totalled. */
module Money {
  import opened Text
  import opened Decimal
  import opened Units
  import opened Fixed

  // ---------------------------------------------------------------- thousands separators

  /** What both loops promise: a comma before every further group of three, counted from the right. */
  function Grouped(s: string): (r: string)
    ensures |r| >= |s|
  {
    if |s| <= 3 then s else Grouped(s[..|s| - 3]) + ("," + s[|s| - 3..])
  }

  /** The balance package's loop: a short first group, then groups of three. */
  method InsertCommas(s: string) returns (r: string)
    ensures r == Grouped(s)
  {
    var n := |s|;
    if n <= 3 {
      return s;
    }
    var pre := n % 3;
    r := "";
    if pre > 0 {
      r := r + s[..pre];
      if n > pre {
        r := r + ",";
      }
    }
    assert Grouped(s[..pre]) == s[..pre];
    var i := pre;
    ghost var left := WholeGroups(n, pre);
    hide Grouped;
    while i < n
      invariant i + 3 * left == n
      invariant r == Grouped(s[..i]) + (if 0 < i < n then "," else "")
    {
      NextGroup(s, i, r);
      r := r + s[i..i + 3];
      if i + 3 < n {
        r := r + ",";
      }
      i, left := i + 3, left - 1;
    }
    assert s[..n] == s;
  }

  lemma GroupedStep(s: string, i: nat)
    requires i + 3 <= |s|
    ensures Grouped(s[..i + 3]) == Grouped(s[..i]) + (if 0 < i then "," else "") + s[i..i + 3]
  {
    var t := s[..i + 3];
    assert t[..i] == s[..i] && t[i..] == s[i..i + 3];
  }

  /** How many whole groups follow the short one. */
  lemma WholeGroups(n: nat, pre: nat) returns (left: nat)
    requires pre == n % 3
    ensures pre + 3 * left == n
  {
    left := n / 3;
  }

  lemma NextGroup(s: string, i: nat, r: string)
    requires i + 3 <= |s| && r == Grouped(s[..i]) + (if 0 < i then "," else "")
    ensures r + s[i..i + 3] == Grouped(s[..i + 3])
  {
    GroupedStep(s, i);
  }

  /** The Swap-BTC panel's loop: byte by byte, a comma wherever a multiple of three bytes is left. */
  method FormatSats(n: int) returns (r: string)
    ensures r == if n < 0 then "-" + Grouped(Digits(-n)) else Grouped(Digits(n))
  {
    hide *;
    var s := FormatInt(n);
    var neg := s[0] == '-';
    if neg {
      s := s[1..];
    }
    var b := "";
    for i := 0 to |s|
      invariant b + Rest(s, i) == Rest(s, 0)
    {
      ghost var before, head := b, (if i > 0 && (|s| - i) % 3 == 0 then "," else "") + [s[i]];
      RestHead(s, i, head);
      if i > 0 && (|s| - i) % 3 == 0 {
        b := b + ",";
      }
      b := b + [s[i]];
      assert b == before + head;
      assert b + Rest(s, i + 1) == before + (head + Rest(s, i + 1));
    }
    RestIsGrouped(s);
    RestEnd(s);
    return if neg then "-" + b else b;
  }

  /** `strconv.FormatInt(n, 10)` */
  function FormatInt(n: int): (s: string)
    ensures s != ""
    ensures n < 0 ==> s[0] == '-' && s[1..] == Digits(-n)
    ensures n >= 0 ==> s[0] != '-' && s == Digits(n)
  {
    if n < 0 then "-" + Digits(-n) else Digits(n)
  }

  /** What the byte loop still writes from index `i` on. */
  ghost function Rest(s: string, i: nat): string
    requires i <= |s|
    decreases |s| - i
  {
    if i == |s| then ""
    else (if i > 0 && (|s| - i) % 3 == 0 then "," else "") + ([s[i]] + Rest(s, i + 1))
  }

  lemma {:induction false} RestIsGrouped(s: string)
    ensures Rest(s, 0) == Grouped(s)
  {
    if |s| > 3 {
      RestOfFront(s, 0);
      RestIsGrouped(s[..|s| - 3]);
    } else if |s| > 0 {
      RestShort(s, 0);
    }
  }

  lemma {:induction false} RestShort(s: string, i: nat)
    requires i <= |s| <= 3
    ensures Rest(s, i) == s[i..]
    decreases |s| - i
  {
    if i < |s| {
      RestShort(s, i + 1);
    }
  }

  lemma {:induction false} RestOfFront(s: string, i: nat)
    requires |s| > 3 && i <= |s| - 3
    ensures Rest(s, i) == Rest(s[..|s| - 3], i) + ("," + s[|s| - 3..])
    decreases |s| - i
  {
    if i < |s| - 3 {
      RestOfFront(s, i + 1);
      RestStep(s, s[..|s| - 3], "," + s[|s| - 3..], i);
    } else {
      RestEnd(s[..i]);
      LastGroup(s, i);
    }
  }

  lemma RestStep(s: string, front: string, tail: string, i: nat)
    requires i < |front| == |s| - 3 && front[i] == s[i]
    requires Rest(s, i + 1) == Rest(front, i + 1) + tail
    ensures Rest(s, i) == Rest(front, i) + tail
  {
    var head := (if i > 0 && (|s| - i) % 3 == 0 then "," else "") + [s[i]];
    SameGroup(|s| - i);
    RestHead(s, i, head);
    RestHead(front, i, head);
    hide Rest;
    assert head + (Rest(front, i + 1) + tail) == head + Rest(front, i + 1) + tail;
  }

  lemma LastGroup(s: string, i: nat)
    requires 0 < i == |s| - 3
    ensures Rest(s, i) == "," + s[i..]
  {
    hide Rest;
    RestHead(s, i, "," + [s[i]]);
    PlainHead(s, i + 1);
    PlainHead(s, i + 2);
    RestEnd(s);
    var (a, b, c) := (s[i], s[i + 1], s[i + 2]);
    assert Rest(s, i + 2) == [c] + "" == [c];
    assert Rest(s, i + 1) == [b] + [c] == [b, c];
    assert s[i..] == [a, b, c];
    assert "," + [a] + [b, c] == "," + [a, b, c];
  }

  lemma RestHead(s: string, i: nat, head: string)
    requires i < |s|
    requires head == (if i > 0 && (|s| - i) % 3 == 0 then "," else "") + [s[i]]
    ensures Rest(s, i) == head + Rest(s, i + 1)
  {}

  lemma PlainHead(s: string, i: nat)
    requires i < |s| && |s| - i < 3
    ensures Rest(s, i) == [s[i]] + Rest(s, i + 1)
  {
    assert "" + [s[i]] == [s[i]];
    RestHead(s, i, [s[i]]);
  }

  lemma RestEnd(s: string)
    ensures Rest(s, |s|) == ""
  {}

  lemma SameGroup(n: nat)
    requires n > 3
    ensures (n - 3) % 3 == n % 3
  {}

  /** Deleting the commas gives the digits back. */
  lemma {:induction false} CommasUndone(s: string)
    requires AllDigits(s)
    ensures Without(Grouped(s), ',') == s
  {
    if |s| <= 3 {
      WithoutNone(s, ',');
    } else {
      var front, last := s[..|s| - 3], s[|s| - 3..];
      assert Grouped(s) == Grouped(front) + ("," + last);
      hide Without, Grouped;
      CommasUndone(front);
      DropComma(last);
      WithoutConcat(Grouped(front), "," + last, ',');
      assert s == front + last;
    }
  }

  lemma DropComma(s: string)
    requires AllDigits(s)
    ensures Without("," + s, ',') == s
  {
    WithoutNone(s, ',');
    assert ("," + s)[1..] == s;
  }

  /**
   * Counted from the right, the commas stand exactly at every fourth place: all groups but the first have three
   * digits.
   */
  lemma {:induction false} CommaPlaces(s: string, k: nat)
    requires AllDigits(s) && k < |Grouped(s)|
    ensures Grouped(s)[|Grouped(s)| - 1 - k] == ',' <==> k % 4 == 3
  {
    if |s| > 3 {
      var front, last := s[..|s| - 3], s[|s| - 3..];
      assert Grouped(s) == Grouped(front) + ("," + last);
      if k >= 4 {
        CommaPlaces(front, k - 4);
        hide Grouped;
        assert Grouped(s)[|Grouped(s)| - 1 - k] == Grouped(front)[|Grouped(front)| - 1 - (k - 4)];
      } else {
        hide Grouped;
        assert Grouped(s)[|Grouped(s)| - 1 - k] == ("," + last)[3 - k];
      }
    }
  }

  /** Grouping keeps the first digit first, so there is never a leading comma. */
  lemma {:induction false} NoLeadingComma(s: string)
    requires AllDigits(s) && s != ""
    ensures Grouped(s)[0] == s[0] != ','
  {
    if |s| > 3 {
      NoLeadingComma(s[..|s| - 3]);
    }
  }

  // ---------------------------------------------------------------- amounts

  /** Drops trailing zeros as long as more than `keep` digits are left. */
  function StripZeros(f: string, keep: nat): string {
    if |f| > keep && f[|f| - 1] == '0' then StripZeros(f[..|f| - 1], keep) else f
  }

  /** It takes off nothing but zeros, as many as it may. */
  lemma {:induction false} StripMeaning(f: string, keep: nat)
    ensures var r := StripZeros(f, keep);
      && |r| <= |f| && r == f[..|r|] && (forall i :: |r| <= i < |f| ==> f[i] == '0')
      && (if |f| <= keep then r == f else |r| >= keep)
      && (|r| > keep ==> r[|r| - 1] != '0')
  {
    if |f| > keep && f[|f| - 1] == '0' {
      StripMeaning(f[..|f| - 1], keep);
    }
  }

  function FormatAmount(amount: real, minFrac: nat, maxFrac: nat): string {
    var n := RoundHalfEven(Lift(if amount < 0.0 then -amount else amount, maxFrac));
    Signed(amount < 0.0, Join(Grouped(Whole(n, maxFrac)), StripZeros(Places(n, maxFrac), minFrac)))
  }

  /** `formatFloat`: print, cut at the point, strip, group. */
  method FormatFloat(amount: real, minFrac: nat, maxFrac: nat) returns (r: string)
    ensures r == FormatAmount(amount, minFrac, maxFrac)
  {
    hide IndexOf, Whole, Places, RoundHalfEven, Lift, Grouped, Join;
    var neg := amount < 0.0;
    var x := if neg then -amount else amount;
    var s := FormatFixed(x, maxFrac);
    ghost var n := RoundHalfEven(Lift(x, maxFrac));
    var intStr, fracStr := CutAtPoint(s, Whole(n, maxFrac), Places(n, maxFrac));
    var stripped := StripDown(fracStr, minFrac);
    var withCommas := InsertCommas(intStr);
    r := Signed(neg, Join(withCommas, stripped));
  }

  method StripDown(f: string, keep: nat) returns (r: string)
    ensures r == StripZeros(f, keep)
  {
    r := f;
    while |r| > keep && r[|r| - 1] == '0'
      invariant StripZeros(r, keep) == StripZeros(f, keep)
      decreases |r|
    {
      r := r[..|r| - 1];
    }
  }

  /** `strings.SplitN(s, ".", 2)` */
  method CutAtPoint(s: string, ghost whole: string, ghost frac: string) returns (w: string, f: string)
    requires AllDigits(whole) && s == Join(whole, frac)
    ensures w == whole && f == frac
  {
    JoinDot(whole, frac);
    hide IndexOf;
    var dot := IndexOf(s, '.');
    w, f := s[..dot], if dot < |s| then s[dot + 1..] else "";
  }

  function FormatUSD(amount: real): string {
    "$" + FormatAmount(amount, 2, 2)
  }

  function ParseUSD(s: string): Option<real> {
    var t := Without(Without(s, '$'), ',');
    if t == "" then None else ParseFloat(t)
  }

  /** The sum of the amounts that can be read, or None when there is none. */
  function SumUSD(values: seq<string>): Option<real> {
    if values == [] then None
    else
      var front, last := SumUSD(values[..|values| - 1]), ParseUSD(values[|values| - 1]);
      if last.None? then front
      else Some(last.value + if front.Some? then front.value else 0.0)
  }

  /** Empty when nothing could be read (the source's comment promises "$0.00"; its code returns ""). */
  method TotalUSD(values: seq<string>) returns (r: string)
    ensures r == match SumUSD(values) case None => "" case Some(total) => FormatUSD(total)
  {
    hide ParseUSD;
    var total, some := 0.0, false;
    for i := 0 to |values|
      invariant SumUSD(values[..i]) == if some then Some(total) else None
      invariant !some ==> total == 0.0
    {
      assert values[..i + 1][..i] == values[..i];
      EmptyIsUnreadable();
      var v := values[i];
      if v != "" {
        var f := ParseUSD(v);
        if f.Some? {
          total := total + f.value;
          some := true;
        }
      }
    }
    assert values[..|values|] == values;
    hide FormatUSD;
    return if some then FormatUSD(total) else "";
  }

  lemma EmptyIsUnreadable()
    ensures ParseUSD("") == None
  {}

  // ---------------------------------------------------------------- cents

  function Dollars(cents: int): real {
    cents as real / 100.0
  }

  /** The text of a whole number of cents, spelled out. */
  lemma CentsText(cents: int)
    ensures var n := if cents < 0 then -cents else cents;
      FormatUSD(Dollars(cents)) == "$" + Signed(cents < 0, Grouped(Whole(n, 2)) + "." + Places(n, 2))
  {
    var n: nat := if cents < 0 then -cents else cents;
    CentsLift(n);
    assert Dollars(cents) < 0.0 <==> cents < 0;
    assert Dollars(n) == if cents < 0 then -Dollars(cents) else Dollars(cents);
    RoundExact(n);
    hide Lift, Dollars, Grouped, Places, Whole, RoundHalfEven;
    assert StripZeros(Places(n, 2), 2) == Places(n, 2);
  }

  lemma CentsLift(n: nat)
    ensures Lift(Dollars(n), 2) == n as real
    ensures Point(n as real, 2) == Dollars(n)
  {
    var x := Dollars(n);
    assert Lift(x, 1) == 10.0 * x;
    assert Point(n as real, 1) == n as real / 10.0;
  }

  /** At cent precision `ParseUSD` undoes `FormatUSD`, commas, dollar sign, minus and all. */
  lemma DollarsRoundTrip(cents: int)
    ensures ParseUSD(FormatUSD(Dollars(cents))) == Some(Dollars(cents))
  {
    hide FormatUSD, ParseUSD, Signed, Grouped, Places, Whole;
    var n: nat := if cents < 0 then -cents else cents;
    CentsText(cents);
    ReadCents(cents < 0, n);
  }

  lemma ReadCents(neg: bool, n: nat)
    ensures ParseUSD("$" + Signed(neg, Grouped(Whole(n, 2)) + "." + Places(n, 2))) ==
      Some(if neg then -Dollars(n) else Dollars(n))
  {
    hide Point, ParseFloat, Without, Places, Whole, Grouped, Dollars, Join, Signed;
    Ungrouped(neg, Whole(n, 2), Places(n, 2));
    JoinNonEmpty(neg, Whole(n, 2), Places(n, 2));
    FixedRead(neg, n, 2);
    CentsLift(n);
  }

  lemma JoinNonEmpty(neg: bool, whole: string, frac: string)
    requires whole != ""
    ensures Signed(neg, Join(whole, frac)) != ""
  {}

  lemma Ungrouped(neg: bool, whole: string, frac: string)
    requires AllDigits(whole) && AllDigits(frac) && whole != "" && |frac| == 2
    ensures Without(Without("$" + Signed(neg, Grouped(whole) + "." + frac), '$'), ',') == Signed(neg, Join(whole, frac))
  {
    hide Without, Signed, Join;
    GroupedChars(whole);
    CommasUndone(whole);
    UngroupedText(neg, Grouped(whole), whole, frac);
  }

  lemma UngroupedText(neg: bool, grouped: string, whole: string, frac: string)
    requires '$' !in grouped && Without(grouped, ',') == whole && AllDigits(frac) && |frac| == 2
    ensures Without(Without("$" + Signed(neg, grouped + "." + frac), '$'), ',') == Signed(neg, Join(whole, frac))
  {
    var (sign, rest) := (if neg then "-" else "", "." + frac);
    SignedParts(neg, grouped, frac);
    SignedParts(neg, whole, frac);
    assert Join(whole, frac) == whole + "." + frac;
    assert '$' !in sign && ',' !in sign && '$' !in rest && ',' !in rest;
    hide Without, Signed, Join, AllDigits;
    DropDollar(sign + (grouped + rest));
    WithoutConcat(sign, grouped + rest, ',');
    WithoutConcat(grouped, rest, ',');
    WithoutNone(sign, ',');
    WithoutNone(rest, ',');
  }

  lemma SignedParts(neg: bool, whole: string, frac: string)
    ensures Signed(neg, whole + "." + frac) == (if neg then "-" else "") + (whole + ("." + frac))
  {}

  lemma DropDollar(s: string)
    requires '$' !in s
    ensures Without("$" + s, '$') == s
  {
    WithoutNone(s, '$');
    assert ("$" + s)[1..] == s;
  }

  lemma {:induction false} GroupedChars(s: string)
    requires AllDigits(s)
    ensures forall i :: 0 <= i < |Grouped(s)| ==> IsDigit(Grouped(s)[i]) || Grouped(s)[i] == ','
  {
    if |s| > 3 {
      GroupedChars(s[..|s| - 3]);
    }
  }

  function SumCents(cents: seq<int>): int {
    if cents == [] then 0 else SumCents(cents[..|cents| - 1]) + cents[|cents| - 1]
  }

  function FormattedAll(cents: seq<int>): seq<string> {
    seq(|cents|, i requires 0 <= i < |cents| => FormatUSD(Dollars(cents[i])))
  }

  /** Totalling formatted amounts is formatting the total. */
  lemma {:induction false} TotalOfFormatted(cents: seq<int>)
    requires cents != []
    ensures SumUSD(FormattedAll(cents)) == Some(Dollars(SumCents(cents)))
  {
    hide FormatUSD, ParseUSD;
    var n := |cents| - 1;
    var front, texts := cents[..n], FormattedAll(cents);
    assert texts[..n] == FormattedAll(front);
    assert texts[n] == FormatUSD(Dollars(cents[n]));
    DollarsRoundTrip(cents[n]);
    assert Dollars(SumCents(cents)) == Dollars(SumCents(front)) + Dollars(cents[n]);
    hide Dollars, FormattedAll;
    if front != [] {
      TotalOfFormatted(front);
    }
  }
}
