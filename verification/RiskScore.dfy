/** Scoring a token: which findings are flagged, how they are sorted, weighed and summed up. */
module RiskScore {
  import opened Text
  import opened Fixed
  import opened Doubles
  import opened Taxes

  datatype Level = Low | Medium | High

  datatype Flag = Flag(key: string, desc: string, severity: Level)

  datatype Report = Report(
    score: int, level: Level, honeypot: bool, buyTaxBps: int, sellTaxBps: int,
    flags: seq<Flag>, source: string, unknown: bool, reason: string)

  /** The fields read from the token security answer; None is a missing field. */
  datatype TokenFacts = TokenFacts(
    isHoneypot: Option<string>, cannotSellAll: Option<string>, buyTax: Option<string>, sellTax: Option<string>,
    isMintable: Option<string>, isOpenSource: Option<string>, ownerChangeBalance: Option<string>,
    hiddenOwner: Option<string>, selfDestruct: Option<string>, canTakeBackOwnership: Option<string>,
    transferPausable: Option<string>, isBlacklisted: Option<string>, tradingCooldown: Option<string>,
    isProxy: Option<string>)

  // ---------------------------------------------------------------- sorting

  function Rank(l: Level): nat {
    match l case Low => 0 case Medium => 1 case High => 2
  }

  /** Where a flag of severity `l` goes: behind everything at least as severe. */
  function Slot(s: seq<Flag>, l: Level): (j: nat)
    ensures j <= |s|
    ensures j > 0 ==> Rank(s[j - 1].severity) >= Rank(l)
    ensures forall i :: j <= i < |s| ==> Rank(s[i].severity) < Rank(l)
  {
    if s == [] || Rank(s[|s| - 1].severity) >= Rank(l) then |s| else Slot(s[..|s| - 1], l)
  }

  function Insert(s: seq<Flag>, f: Flag): seq<Flag> {
    var j := Slot(s, f.severity);
    s[..j] + [f] + s[j..]
  }

  function StableSorted(s: seq<Flag>): seq<Flag> {
    if s == [] then [] else Insert(StableSorted(s[..|s| - 1]), s[|s| - 1])
  }

  predicate MostSevereFirst(s: seq<Flag>) {
    forall i, j :: 0 <= i < j < |s| ==> Rank(s[i].severity) >= Rank(s[j].severity)
  }

  function OfSeverity(s: seq<Flag>, l: Level): seq<Flag> {
    if s == [] then []
    else OfSeverity(s[..|s| - 1], l) + if s[|s| - 1].severity == l then [s[|s| - 1]] else []
  }

  /** `sort.SliceStable` on a slice this short: insertion by swapping neighbours. */
  method SortFlags(a: array<Flag>)
    modifies a
    ensures a[..] == StableSorted(old(a[..]))
  {
    ghost var was := a[..];
    assert StableSorted(was[..0]) == [];
    hide StableSorted, Insert;
    for i := 0 to a.Length
      invariant a[..i] == StableSorted(was[..i])
      invariant forall k :: i <= k < a.Length ==> a[k] == was[k]
    {
      Sink(a, i);
      SortedStep(was, i);
    }
    assert a[..a.Length] == a[..] && was[..a.Length] == was;
  }

  lemma SortedStep(s: seq<Flag>, i: nat)
    requires i < |s|
    ensures StableSorted(s[..i + 1]) == Insert(StableSorted(s[..i]), s[i])
  {
    hide Insert;
    assert s[..i + 1][..i] == s[..i];
  }

  /** Swaps the flag at `i` down to its slot in the sorted part before it. */
  method Sink(a: array<Flag>, i: nat)
    requires i < a.Length
    modifies a
    ensures a[..i + 1] == Insert(old(a[..i]), old(a[i]))
    ensures forall k :: i < k < a.Length ==> a[k] == old(a[k])
  {
    var j := i;
    ghost var sorted, x := a[..i], a[i];
    while j > 0 && Rank(a[j - 1].severity) < Rank(a[j].severity)
      invariant 0 <= j <= i
      invariant a[j] == x
      invariant forall k :: 0 <= k < j ==> a[k] == sorted[k]
      invariant forall k :: j < k <= i ==> a[k] == sorted[k - 1]
      invariant forall k :: j <= k < i ==> Rank(sorted[k].severity) < Rank(x.severity)
      invariant forall k :: i < k < a.Length ==> a[k] == old(a[k])
    {
      a[j], a[j - 1] := a[j - 1], a[j];
      j := j - 1;
    }
    hide Insert;
    Shifted(a[..i + 1], sorted, x, j);
  }

  lemma Shifted(r: seq<Flag>, s: seq<Flag>, x: Flag, j: nat)
    requires j <= |s| && |r| == |s| + 1 && r[j] == x
    requires forall k :: 0 <= k < j ==> r[k] == s[k]
    requires forall k :: j < k <= |s| ==> r[k] == s[k - 1]
    requires j > 0 ==> Rank(s[j - 1].severity) >= Rank(x.severity)
    requires forall k :: j <= k < |s| ==> Rank(s[k].severity) < Rank(x.severity)
    ensures r == Insert(s, x)
  {
    SlotUnique(s, x.severity, j);
    hide Slot;
    assert r == s[..j] + [x] + s[j..];
  }

  lemma SlotUnique(s: seq<Flag>, l: Level, j: nat)
    requires j <= |s|
    requires j > 0 ==> Rank(s[j - 1].severity) >= Rank(l)
    requires forall i :: j <= i < |s| ==> Rank(s[i].severity) < Rank(l)
    ensures Slot(s, l) == j
  {
    var k := Slot(s, l);
    hide Slot;
  }

  /** Sorting keeps every flag, puts the most severe first, and keeps the source order among equals. */
  lemma {:induction false} SortedIsStablePermutation(s: seq<Flag>)
    ensures multiset(StableSorted(s)) == multiset(s)
    ensures MostSevereFirst(StableSorted(s))
    ensures forall l :: OfSeverity(StableSorted(s), l) == OfSeverity(s, l)
  {
    if s != [] {
      var front, x := s[..|s| - 1], s[|s| - 1];
      SortedIsStablePermutation(front);
      assert s == front + [x];
      var sorted := StableSorted(front);
      assert StableSorted(s) == Insert(sorted, x);
      hide StableSorted, Insert, MostSevereFirst, OfSeverity;
      InsertKeeps(sorted, x);
      assert multiset(sorted + [x]) == multiset(front + [x]);
      forall l
        ensures OfSeverity(StableSorted(s), l) == OfSeverity(s, l)
      {
        InsertStable(sorted, x, l);
        OfSeverityConcat(sorted, [x], l);
        OfSeverityConcat(front, [x], l);
      }
    }
  }

  lemma InsertKeeps(s: seq<Flag>, f: Flag)
    requires MostSevereFirst(s)
    ensures multiset(Insert(s, f)) == multiset(s + [f])
    ensures MostSevereFirst(Insert(s, f))
  {
    var j := Slot(s, f.severity);
    var before, after := s[..j], s[j..];
    assert s == before + after && Insert(s, f) == before + [f] + after;
    InsertBag(s, Insert(s, f), before, f, after);
    InsertOrder(s, Insert(s, f), before, f, after);
  }

  lemma InsertBag(s: seq<Flag>, t: seq<Flag>, before: seq<Flag>, f: Flag, after: seq<Flag>)
    requires s == before + after && t == before + [f] + after
    ensures multiset(t) == multiset(s + [f])
  {}

  lemma InsertOrder(s: seq<Flag>, t: seq<Flag>, before: seq<Flag>, f: Flag, after: seq<Flag>)
    requires s == before + after && t == before + [f] + after && MostSevereFirst(s)
    requires before != [] ==> Rank(before[|before| - 1].severity) >= Rank(f.severity)
    requires forall i :: 0 <= i < |after| ==> Rank(after[i].severity) < Rank(f.severity)
    ensures MostSevereFirst(t)
  {
    forall i, k | 0 <= i < k < |t|
      ensures Rank(t[i].severity) >= Rank(t[k].severity)
    {
      var i', k' := if i > |before| then i - 1 else i, if k > |before| then k - 1 else k;
      if i < |before| && k == |before| {
        assert s[i] == before[i] && s[|before| - 1] == before[|before| - 1];
      } else if i == |before| {
        assert t[k] == after[k - |before| - 1];
      } else {
        assert t[i] == s[i'] && t[k] == s[k'];
      }
    }
  }

  lemma {:induction false} OfSeverityConcat(s: seq<Flag>, t: seq<Flag>, l: Level)
    ensures OfSeverity(s + t, l) == OfSeverity(s, l) + OfSeverity(t, l)
  {
    if t == [] {
      assert s + t == s;
    } else {
      OfSeverityConcat(s, t[..|t| - 1], l);
      assert (s + t)[..|s + t| - 1] == s + t[..|t| - 1];
    }
  }

  lemma {:induction false} OfSeverityNone(s: seq<Flag>, l: Level)
    requires forall i :: 0 <= i < |s| ==> s[i].severity != l
    ensures OfSeverity(s, l) == []
  {
    if s != [] {
      OfSeverityNone(s[..|s| - 1], l);
    }
  }

  lemma InsertStable(s: seq<Flag>, f: Flag, l: Level)
    ensures OfSeverity(Insert(s, f), l) == OfSeverity(s + [f], l)
  {
    var j := Slot(s, f.severity);
    hide Slot;
    assert s == s[..j] + s[j..];
    if l == f.severity {
      OfSeverityNone(s[j..], l);
    } else {
      OfSeverityNone([f], l);
    }
    MoveAcross(s[..j], f, s[j..], l);
  }

  lemma MoveAcross(before: seq<Flag>, f: Flag, after: seq<Flag>, l: Level)
    requires OfSeverity(after, l) == [] || OfSeverity([f], l) == []
    ensures OfSeverity(before + [f] + after, l) == OfSeverity(before + after + [f], l)
  {
    OfSeverityConcat(before, after, l);
    OfSeverityConcat(before + after, [f], l);
    OfSeverityConcat(before, [f], l);
    OfSeverityConcat(before + [f], after, l);
    hide OfSeverity;
  }

  // ---------------------------------------------------------------- weighing

  const WEIGHT_HIGH := 40
  const WEIGHT_MEDIUM := 15
  const WEIGHT_LOW := 5

  function Weight(l: Level): nat {
    match l case High => WEIGHT_HIGH case Medium => WEIGHT_MEDIUM case Low => WEIGHT_LOW
  }

  function Weights(s: seq<Flag>): nat {
    if s == [] then 0 else Weights(s[..|s| - 1]) + Weight(s[|s| - 1].severity)
  }

  function Capped(score: nat): nat {
    if score > 100 then 100 else score
  }

  function LevelOf(score: nat): Level {
    if score >= WEIGHT_HIGH then High else if score >= WEIGHT_MEDIUM then Medium else Low
  }

  /** `finalize`: add the weights up flag by flag, cap, and read the level off. */
  method Finalize(flags: seq<Flag>) returns (score: nat, level: Level)
    ensures score == Capped(Weights(flags)) && level == LevelOf(score)
  {
    score := 0;
    for i := 0 to |flags|
      invariant score == Weights(flags[..i])
    {
      assert flags[..i + 1][..i] == flags[..i];
      match flags[i].severity {
        case High => score := score + WEIGHT_HIGH;
        case Medium => score := score + WEIGHT_MEDIUM;
        case Low => score := score + WEIGHT_LOW;
      }
    }
    assert flags[..|flags|] == flags;
    if score > 100 {
      score := 100;
    }
    level := LevelOf(score);
  }

  lemma {:induction false} WeightsConcat(s: seq<Flag>, t: seq<Flag>)
    ensures Weights(s + t) == Weights(s) + Weights(t)
  {
    if t == [] {
      assert s + t == s;
    } else {
      WeightsConcat(s, t[..|t| - 1]);
      assert (s + t)[..|s + t| - 1] == s + t[..|t| - 1];
    }
  }

  /** The score does not see the order of the flags. */
  lemma {:induction false} WeightsOfPermutation(s: seq<Flag>, t: seq<Flag>)
    requires multiset(s) == multiset(t)
    ensures Weights(s) == Weights(t)
  {
    if s == [] {
      assert multiset(t) == multiset{};
      assert t == [];
    } else {
      var x := s[|s| - 1];
      assert x in multiset(t);
      var i :| 0 <= i < |t| && t[i] == x;
      var rest := t[..i] + t[i + 1..];
      RemovedOne(s, t, i);
      WeightsOfPermutation(s[..|s| - 1], rest);
      assert t == t[..i] + [x] + t[i + 1..];
      WeightsAround(t[..i], x, t[i + 1..]);
    }
  }

  lemma RemovedOne(s: seq<Flag>, t: seq<Flag>, i: nat)
    requires s != [] && i < |t| && t[i] == s[|s| - 1] && multiset(s) == multiset(t)
    ensures multiset(s[..|s| - 1]) == multiset(t[..i] + t[i + 1..])
  {
    var x := t[i];
    assert s == s[..|s| - 1] + [x];
    assert t == t[..i] + [x] + t[i + 1..];
    BagAround(s[..|s| - 1], x, []);
    assert s[..|s| - 1] + [] == s[..|s| - 1] && s[..|s| - 1] + [x] + [] == s;
    BagAround(t[..i], x, t[i + 1..]);
  }

  lemma BagAround(before: seq<Flag>, x: Flag, after: seq<Flag>)
    ensures multiset(before + after) == multiset(before + [x] + after) - multiset{x}
  {}

  lemma WeightsAround(before: seq<Flag>, x: Flag, after: seq<Flag>)
    ensures Weights(before + [x] + after) == Weights(before + after) + Weight(x.severity)
  {
    WeightsConcat(before + [x], after);
    WeightsConcat(before, [x]);
    WeightsConcat(before, after);
    assert [x][..0] == [];
    assert Weights([x]) == Weight(x.severity);
    hide Weights;
  }

  // ---------------------------------------------------------------- what the score means

  ghost predicate OnlyHighAndMedium(s: seq<Flag>) {
    forall i :: 0 <= i < |s| ==> s[i].severity != Low
  }

  /** Forty for each high finding, fifteen for each medium one and five for each low one. */
  lemma {:induction false} WeightsByCount(s: seq<Flag>)
    ensures Weights(s) == 40 * |OfSeverity(s, High)| + 15 * |OfSeverity(s, Medium)| + 5 * |OfSeverity(s, Low)|
    ensures |s| == |OfSeverity(s, High)| + |OfSeverity(s, Medium)| + |OfSeverity(s, Low)|
    ensures OnlyHighAndMedium(s) ==> OfSeverity(s, Low) == []
  {
    if s != [] {
      WeightsByCount(s[..|s| - 1]);
    }
  }

  /** HIGH means one high finding or three medium ones; LOW means no finding at all. */
  lemma LevelMeaning(s: seq<Flag>)
    requires OnlyHighAndMedium(s)
    ensures LevelOf(Capped(Weights(s))) == High <==> |OfSeverity(s, High)| >= 1 || |OfSeverity(s, Medium)| >= 3
    ensures LevelOf(Capped(Weights(s))) == Low <==> s == []
  {
    WeightsByCount(s);
    hide Weights, OfSeverity;
  }

  // ---------------------------------------------------------------- the findings

  predicate IsSet(p: Option<string>) {
    p == Some("1")
  }

  function When(c: bool, key: string, desc: string, l: Level): seq<Flag> {
    if c then [Flag(key, desc, l)] else []
  }

  /** With one decimal, as `%.1f` prints it. */
  function OneDecimal(d: Double): string {
    match d
    case Finite(x) => FormatFixed(x, 1)
    case Infinite(negative) => if negative then "-Inf" else "+Inf"
    case NaN => "NaN"
  }

  function TaxDesc(name: string, bps: Int64): string {
    var x := AsDouble(bps as real);
    name + " tax " + OneDecimal(if x.Finite? then AsDouble(x.value / 100.0) else x) + "%"
  }

  /**
   * Up to 10^9 basis points that is the number of tenths of a per cent nearest to the tax, printed with one decimal;
   * only between two tenths the rounding of the doubles decides.
   */
  lemma TaxPrinted(name: string, bps: Int64)
    requires 500 <= bps <= 1_000_000_000 && bps % 10 != 5
    ensures TaxDesc(name, bps) == name + " tax " + FixedPoint((bps + 5) / 10, 1) + "%"
  {
    hide Nearest, FixedPoint, RoundHalfEven;
    var x := bps as real;
    CloseDouble(x);
    var f := Nearest(x).value;
    CloseDouble(f / 100.0);
    var y := Nearest(f / 100.0).value;
    assert Lift(y, 1) == 10.0 * y;
    NearestTenth(bps, 10.0 * y);
  }

  lemma NearestTenth(bps: nat, z: real)
    requires bps % 10 != 5 && bps as real - 0.5 < 10.0 * z < bps as real + 0.5
    ensures z >= 0.0 ==> RoundHalfEven(z) == (bps + 5) / 10
  {
    var k := (bps + 5) / 10;
    assert 10 * k - 4 <= bps <= 10 * k + 4;
    assert 10.0 * (k as real) == (10 * k) as real;
    RoundWithin(z, k);
  }

  lemma RoundWithin(z: real, k: int)
    ensures z >= 0.0 && k as real - 0.5 < z < k as real + 0.5 ==> RoundHalfEven(z) == k
  {}

  lemma CloseDouble(x: real)
    requires 4.0 <= x <= 2_000_000_000.0
    ensures Nearest(x).Some? && x - 0.000_001 <= Nearest(x).value <= x + 0.000_001
  {
    hide Nearest, Twice;
    WordsRead(x);
    TwiceOrder(1.0, x, SMALLEST);
    FiftyTwoTimes(1.0);
    TwiceTwice(1.0, 52, SMALLEST - 52);
    GrowsByTwos(LEAST as real, SMALLEST - 52);
    NearestNear(x);
  }

  function Found0(c: Double -> Int64, t: TokenFacts): seq<Flag> {
    var sell, buy := TaxBps(c, t.sellTax), TaxBps(c, t.buyTax);
    When(IsSet(t.isHoneypot), "honeypot", "honeypot: selling is blocked", High)
    + When(IsSet(t.cannotSellAll), "cannot_sell_all", "cannot sell the full balance", High)
    + When(sell >= 500, "sell_tax", TaxDesc("sell", sell), if sell >= 1000 then High else Medium)
    + When(buy >= 500, "buy_tax", TaxDesc("buy", buy), Medium)
  }

  /** An entry of a map of owner powers: the field it looks at, and the finding when the field is set. */
  datatype Power = Power(field: Option<string>, key: string, desc: string)

  function HighPowers(t: TokenFacts): seq<Power> {
    [Power(t.ownerChangeBalance, "owner_change_balance", "owner can edit holder balances"),
     Power(t.hiddenOwner, "hidden_owner", "hidden owner"),
     Power(t.selfDestruct, "selfdestruct", "contract can self-destruct")]
  }

  function MediumPowers(t: TokenFacts): seq<Power> {
    [Power(t.isMintable, "mintable", "owner can mint new supply"),
     Power(t.canTakeBackOwnership, "take_back_ownership", "ownership can be reclaimed"),
     Power(t.transferPausable, "transfer_pausable", "transfers can be paused"),
     Power(t.isBlacklisted, "blacklist", "has a blacklist function"),
     Power(t.tradingCooldown, "trading_cooldown", "trading cooldown mechanism"),
     Power(t.isProxy, "proxy", "proxy contract: logic can change")]
  }

  function Raised(p: Power, l: Level): seq<Flag> {
    When(IsSet(p.field), p.key, p.desc, l)
  }

  function RaisedAll(ps: seq<Power>, l: Level): seq<Flag> {
    if ps == [] then [] else RaisedAll(ps[..|ps| - 1], l) + Raised(ps[|ps| - 1], l)
  }

  function Closed(t: TokenFacts): seq<Flag> {
    When(t.isOpenSource == Some("0"), "closed_source", "contract source not verified", Medium)
  }

  /** All the findings, in one fixed order. */
  function Found(c: Double -> Int64, t: TokenFacts): seq<Flag> {
    Found0(c, t) + RaisedAll(HighPowers(t), High) + RaisedAll(MediumPowers(t), Medium) + Closed(t)
  }

  // ---------------------------------------------------------------- the conditions, field by field

  function One(b: bool): nat {
    if b then 1 else 0
  }

  /** How many of the severe conditions hold. */
  function Severe(t: TokenFacts, sell: int): nat {
    One(t.isHoneypot == Some("1")) + One(t.cannotSellAll == Some("1")) + One(t.ownerChangeBalance == Some("1"))
    + One(t.hiddenOwner == Some("1")) + One(t.selfDestruct == Some("1")) + One(sell >= 1000)
  }

  /** How many of the lesser ones. */
  function Lesser(t: TokenFacts, sell: int, buy: int): nat {
    One(500 <= sell < 1000) + One(buy >= 500) + One(t.isMintable == Some("1"))
    + One(t.canTakeBackOwnership == Some("1")) + One(t.transferPausable == Some("1"))
    + One(t.isBlacklisted == Some("1")) + One(t.tradingCooldown == Some("1")) + One(t.isProxy == Some("1"))
    + One(t.isOpenSource == Some("0"))
  }

  /** Under which key and at what severity each condition is reported. */
  predicate Reported(t: TokenFacts, sell: int, buy: int, key: string, l: Level) {
    || (l == High && (
         || (key == "honeypot" && t.isHoneypot == Some("1"))
         || (key == "cannot_sell_all" && t.cannotSellAll == Some("1"))
         || (key == "sell_tax" && sell >= 1000)
         || (key == "owner_change_balance" && t.ownerChangeBalance == Some("1"))
         || (key == "hidden_owner" && t.hiddenOwner == Some("1"))
         || (key == "selfdestruct" && t.selfDestruct == Some("1"))))
    || (l == Medium && (
         || (key == "sell_tax" && 500 <= sell < 1000)
         || (key == "buy_tax" && buy >= 500)
         || (key == "mintable" && t.isMintable == Some("1"))
         || (key == "take_back_ownership" && t.canTakeBackOwnership == Some("1"))
         || (key == "transfer_pausable" && t.transferPausable == Some("1"))
         || (key == "blacklist" && t.isBlacklisted == Some("1"))
         || (key == "trading_cooldown" && t.tradingCooldown == Some("1"))
         || (key == "proxy" && t.isProxy == Some("1"))
         || (key == "closed_source" && t.isOpenSource == Some("0"))))
  }

  ghost predicate HasFlag(flags: seq<Flag>, key: string, l: Level) {
    exists f :: f in flags && f.key == key && f.severity == l
  }

  // ---------------------------------------------------------------- scoring

  /** Scoring as written; the two maps of owner powers are walked in any order whatever. */
  method ScoreGoplus(c: Double -> Int64, t: TokenFacts) returns (r: Report)
    ensures multiset(r.flags) == multiset(Found(c, t)) && MostSevereFirst(r.flags)
    ensures r.score == Capped(Weights(Found(c, t))) && r.level == LevelOf(r.score)
    ensures r.honeypot == IsSet(t.isHoneypot)
    ensures r.unknown <==> t.isHoneypot.None?
    ensures r.buyTaxBps == TaxBps(c, t.buyTax) && r.sellTaxBps == TaxBps(c, t.sellTax)
    ensures forall key, l :: HasFlag(r.flags, key, l) <==> Reported(t, r.sellTaxBps, r.buyTaxBps, key, l)
    ensures var sum := 40 * Severe(t, r.sellTaxBps) + 15 * Lesser(t, r.sellTaxBps, r.buyTaxBps);
      r.score == if sum > 100 then 100 else sum
  {
    hide Found, Found0, HighPowers, MediumPowers, RaisedAll, Closed, TaxBps, StableSorted, Weights;
    var highs := Walk(HighPowers(t), High);
    var mediums := Walk(MediumPowers(t), Medium);
    var flags := Found0(c, t) + highs + mediums + Closed(t);
    SameBag(c, t, highs, mediums);
    var sorted := Sorted(flags);
    SortedIsStablePermutation(flags);
    var score, level := Finalize(sorted);
    WeightsOfPermutation(sorted, Found(c, t));
    ScoreOnFields(c, t);
    forall key, l
      ensures HasFlag(sorted, key, l) <==> Reported(t, TaxBps(c, t.sellTax), TaxBps(c, t.buyTax), key, l)
    {
      FlagsOnFields(c, t, key, l);
      SameFlags(sorted, Found(c, t), key, l);
      hide HasFlag, Reported;
    }
    hide HasFlag, Reported, Severe, Lesser;
    r := Report(score, level, IsSet(t.isHoneypot), TaxBps(c, t.buyTax), TaxBps(c, t.sellTax), sorted, "goplus",
                t.isHoneypot.None?, if t.isHoneypot.None? then "GoPlus could not determine honeypot status" else "");
  }

  lemma SameFlags(s: seq<Flag>, u: seq<Flag>, key: string, l: Level)
    requires multiset(s) == multiset(u)
    ensures HasFlag(s, key, l) <==> HasFlag(u, key, l)
  {
    assert forall f :: f in s <==> f in multiset(s);
    assert forall f :: f in u <==> f in multiset(u);
  }

  method Sorted(flags: seq<Flag>) returns (r: seq<Flag>)
    ensures r == StableSorted(flags)
  {
    var a := new Flag[|flags|](i requires 0 <= i < |flags| => flags[i]);
    assert a[..] == flags;
    SortFlags(a);
    r := a[..];
  }

  lemma SameBag(c: Double -> Int64, t: TokenFacts, highs: seq<Flag>, mediums: seq<Flag>)
    requires multiset(highs) == multiset(RaisedAll(HighPowers(t), High))
    requires multiset(mediums) == multiset(RaisedAll(MediumPowers(t), Medium))
    ensures multiset(Found0(c, t) + highs + mediums + Closed(t)) == multiset(Found(c, t))
  {
    hide Found0, HighPowers, MediumPowers, RaisedAll, Closed;
  }

  /** Walks a map of owner powers in whatever order it comes. */
  method Walk(powers: seq<Power>, l: Level) returns (flags: seq<Flag>)
    ensures multiset(flags) == multiset(RaisedAll(powers, l))
  {
    hide RaisedAll, Bag;
    flags := [];
    var left := Indices(|powers|);
    BagFull(powers, l, left);
    while left != {}
      invariant forall i :: i in left ==> i < |powers|
      invariant multiset(flags) == Bag(powers, l, left)
    {
      var i :| i in left;
      BagStep(powers, l, left, i);
      if IsSet(powers[i].field) {
        flags := flags + [Flag(powers[i].key, powers[i].desc, l)];
      }
      left := left - {i};
    }
    BagEmpty(powers, l);
  }

  function Indices(n: nat): (r: set<nat>)
    ensures forall i: nat :: i in r <==> i < n
  {
    if n == 0 then {} else Indices(n - 1) + {n - 1}
  }

  /** What a walk has collected when the keys in `left` are still to come. */
  ghost function Bag(ps: seq<Power>, l: Level, left: set<nat>): multiset<Flag> {
    if ps == [] then multiset{}
    else
      var n := |ps| - 1;
      Bag(ps[..n], l, left) + if n in left then multiset{} else multiset(Raised(ps[n], l))
  }

  lemma {:induction false} BagFull(ps: seq<Power>, l: Level, left: set<nat>)
    requires forall i: nat :: i < |ps| ==> i in left
    ensures Bag(ps, l, left) == multiset{}
  {
    if ps != [] {
      BagFull(ps[..|ps| - 1], l, left);
    }
  }

  lemma {:induction false} BagEmpty(ps: seq<Power>, l: Level)
    ensures Bag(ps, l, {}) == multiset(RaisedAll(ps, l))
  {
    if ps != [] {
      BagEmpty(ps[..|ps| - 1], l);
      hide Raised;
    }
  }

  lemma {:induction false} BagStep(ps: seq<Power>, l: Level, left: set<nat>, i: nat)
    requires i in left
    ensures Bag(ps, l, left - {i}) ==
      Bag(ps, l, left) + if i < |ps| then multiset(Raised(ps[i], l)) else multiset{}
  {
    hide Raised;
    if ps != [] {
      BagStep(ps[..|ps| - 1], l, left, i);
    }
  }

  // ---------------------------------------------------------------- more risk never scores lower

  /** `u` has every risk field on that `t` has, and no lower tax. */
  predicate AtLeastAsRisky(u: TokenFacts, t: TokenFacts) {
    && (IsSet(t.isHoneypot) ==> IsSet(u.isHoneypot)) && (IsSet(t.cannotSellAll) ==> IsSet(u.cannotSellAll))
    && (IsSet(t.ownerChangeBalance) ==> IsSet(u.ownerChangeBalance)) && (IsSet(t.hiddenOwner) ==> IsSet(u.hiddenOwner))
    && (IsSet(t.selfDestruct) ==> IsSet(u.selfDestruct)) && (IsSet(t.isMintable) ==> IsSet(u.isMintable))
    && (IsSet(t.canTakeBackOwnership) ==> IsSet(u.canTakeBackOwnership))
    && (IsSet(t.transferPausable) ==> IsSet(u.transferPausable)) && (IsSet(t.isBlacklisted) ==> IsSet(u.isBlacklisted))
    && (IsSet(t.tradingCooldown) ==> IsSet(u.tradingCooldown)) && (IsSet(t.isProxy) ==> IsSet(u.isProxy))
    && (t.isOpenSource == Some("0") ==> u.isOpenSource == Some("0"))
    && TaxedNoLess(u.sellTax, t.sellTax) && TaxedNoLess(u.buyTax, t.buyTax)
  }

  lemma WhenWeight(c: bool, key: string, desc: string, l: Level)
    ensures Weights(When(c, key, desc, l)) == if c then Weight(l) else 0
  {
    if c {
      assert When(c, key, desc, l)[..0] == [];
    }
  }

  lemma WeightsOfFound0(c: Double -> Int64, t: TokenFacts)
    ensures Weights(Found0(c, t)) ==
      (if IsSet(t.isHoneypot) then 40 else 0) + (if IsSet(t.cannotSellAll) then 40 else 0)
      + (if TaxBps(c, t.sellTax) >= 1000 then 40 else if TaxBps(c, t.sellTax) >= 500 then 15 else 0)
      + (if TaxBps(c, t.buyTax) >= 500 then 15 else 0)
  {
    var sell, buy := TaxBps(c, t.sellTax), TaxBps(c, t.buyTax);
    hide TaxBps, When, Weights;
    var a := When(IsSet(t.isHoneypot), "honeypot", "honeypot: selling is blocked", High);
    var b := When(IsSet(t.cannotSellAll), "cannot_sell_all", "cannot sell the full balance", High);
    var c := When(sell >= 500, "sell_tax", TaxDesc("sell", sell), if sell >= 1000 then High else Medium);
    var d := When(buy >= 500, "buy_tax", TaxDesc("buy", buy), Medium);
    WhenWeight(IsSet(t.isHoneypot), "honeypot", "honeypot: selling is blocked", High);
    WhenWeight(IsSet(t.cannotSellAll), "cannot_sell_all", "cannot sell the full balance", High);
    WhenWeight(sell >= 500, "sell_tax", TaxDesc("sell", sell), if sell >= 1000 then High else Medium);
    WhenWeight(buy >= 500, "buy_tax", TaxDesc("buy", buy), Medium);
    WeightsConcat(a, b);
    WeightsConcat(a + b, c);
    WeightsConcat(a + b + c, d);
  }

  lemma {:induction false} RaisedGrows(ps: seq<Power>, qs: seq<Power>, l: Level)
    requires |ps| == |qs| && forall i :: 0 <= i < |ps| && IsSet(ps[i].field) ==> IsSet(qs[i].field)
    ensures Weights(RaisedAll(ps, l)) <= Weights(RaisedAll(qs, l))
  {
    if ps != [] {
      var n := |ps| - 1;
      RaisedGrows(ps[..n], qs[..n], l);
      WeightsConcat(RaisedAll(ps[..n], l), Raised(ps[n], l));
      WeightsConcat(RaisedAll(qs[..n], l), Raised(qs[n], l));
      WhenWeight(IsSet(ps[n].field), ps[n].key, ps[n].desc, l);
      WhenWeight(IsSet(qs[n].field), qs[n].key, qs[n].desc, l);
      hide Weights, When, IsSet;
    }
  }

  lemma WeightsOfFound(c: Double -> Int64, t: TokenFacts)
    ensures Weights(Found(c, t)) ==
      Weights(Found0(c, t)) + Weights(RaisedAll(HighPowers(t), High)) + Weights(RaisedAll(MediumPowers(t), Medium))
      + Weights(Closed(t))
  {
    hide Found0, HighPowers, MediumPowers, RaisedAll, Closed, Weights;
    var (h, m) := (RaisedAll(HighPowers(t), High), RaisedAll(MediumPowers(t), Medium));
    WeightsConcat(Found0(c, t), h);
    WeightsConcat(Found0(c, t) + h, m);
    WeightsConcat(Found0(c, t) + h + m, Closed(t));
  }

  predicate TaxesInRange(t: TokenFacts) {
    TaxInRange(t.sellTax) && TaxInRange(t.buyTax)
  }

  /**
   * Turning any risk field on, or raising a tax, never lowers the score or the level, under every conversion, as long
   * as the taxes are within range.
   */
  lemma MoreRiskNeverScoresLower(c: Double -> Int64, t: TokenFacts, u: TokenFacts)
    requires Conversion(c) && AtLeastAsRisky(u, t) && TaxesInRange(t) && TaxesInRange(u)
    ensures Capped(Weights(Found(c, t))) <= Capped(Weights(Found(c, u)))
    ensures Rank(LevelOf(Capped(Weights(Found(c, t))))) <= Rank(LevelOf(Capped(Weights(Found(c, u)))))
  {
    hide Weights, Found, Found0, RaisedAll, Closed, Conversion, TaxesInRange, TaxedNoLess, IsSet;
    WeightsOfFound(c, t);
    WeightsOfFound(c, u);
    RaisedGrows(HighPowers(t), HighPowers(u), High);
    RaisedGrows(MediumPowers(t), MediumPowers(u), Medium);
    hide AtLeastAsRisky, HighPowers, MediumPowers;
    Found0Grows(c, t, u);
    ClosedGrows(t, u);
  }

  lemma Found0Grows(c: Double -> Int64, t: TokenFacts, u: TokenFacts)
    requires Conversion(c) && AtLeastAsRisky(u, t) && TaxesInRange(t) && TaxesInRange(u)
    ensures Weights(Found0(c, t)) <= Weights(Found0(c, u))
  {
    hide Weights, Found0, TaxBps, TaxedNoLess, TaxInRange, IsSet, Conversion;
    WeightsOfFound0(c, t);
    WeightsOfFound0(c, u);
    TaxMonotone(c, t.sellTax, u.sellTax, 500);
    TaxMonotone(c, t.sellTax, u.sellTax, 1000);
    TaxMonotone(c, t.buyTax, u.buyTax, 500);
  }

  lemma ClosedGrows(t: TokenFacts, u: TokenFacts)
    requires AtLeastAsRisky(u, t)
    ensures Weights(Closed(t)) <= Weights(Closed(u))
  {
    hide Weights, When, TaxBps, TaxedNoLess, IsSet;
    WhenWeight(t.isOpenSource == Some("0"), "closed_source", "contract source not verified", Medium);
    WhenWeight(u.isOpenSource == Some("0"), "closed_source", "contract source not verified", Medium);
  }

  /** A token without any finding but perhaps for its sell tax. */
  function Taxed(tax: Option<string>): TokenFacts {
    TokenFacts(Some("0"), None, None, tax, None, None, None, None, None, None, None, None, None, None)
  }

  lemma {:induction false} RaisedNone(ps: seq<Power>, l: Level)
    requires forall p :: p in ps ==> !IsSet(p.field)
    ensures RaisedAll(ps, l) == []
  {
    if ps != [] {
      RaisedNone(ps[..|ps| - 1], l);
    }
  }

  lemma TaxedWeights(c: Double -> Int64, tax: Option<string>)
    ensures Weights(Found(c, Taxed(tax))) ==
      if TaxBps(c, tax) >= 1000 then 40 else if TaxBps(c, tax) >= 500 then 15 else 0
  {
    var t := Taxed(tax);
    assert Closed(t) == [] && TaxBps(c, None) == -1 && Weights([]) == 0;
    RaisedNone(HighPowers(t), High);
    RaisedNone(MediumPowers(t), Medium);
    hide Weights, Found, Found0, TaxBps, Closed, HighPowers, MediumPowers, RaisedAll;
    WeightsOfFound(c, t);
    WeightsOfFound0(c, t);
  }

  /**
   * Beyond that range it can: raising the sell tax from a half to ten to the fifteenth takes the verdict from HIGH to
   * LOW on amd64, and leaves it HIGH on arm64.
   */
  lemma LargerTaxScoresLower()
    ensures AtLeastAsRisky(Taxed(ENORMOUS), Taxed(HALF))
    ensures forall c: Double -> Int64 :: Conversion(c) ==> LevelOf(Capped(Weights(Found(c, Taxed(HALF))))) == High
    ensures Conversion(Amd64) && LevelOf(Capped(Weights(Found(Amd64, Taxed(ENORMOUS))))) == Low
    ensures Conversion(Arm64) && LevelOf(Capped(Weights(Found(Arm64, Taxed(ENORMOUS))))) == High
  {
    assert Conversion(Amd64) && Conversion(Arm64);
    hide Weights, Found, TaxBps, Conversion, Amd64, Arm64, TaxedNoLess;
    EnormousIsNegative();
    TaxedWeights(Amd64, ENORMOUS);
    TaxedWeights(Arm64, ENORMOUS);
    forall c: Double -> Int64 | Conversion(c)
      ensures Weights(Found(c, Taxed(HALF))) == 40
    {
      TaxedWeights(c, HALF);
    }
  }

  lemma FoundSeverities(c: Double -> Int64, t: TokenFacts)
    ensures OnlyHighAndMedium(Found(c, t))
  {
    Found0Severities(c, t);
    RaisedSeverities(HighPowers(t), High);
    RaisedSeverities(MediumPowers(t), Medium);
    assert OnlyHighAndMedium(Closed(t));
    hide Found0, HighPowers, MediumPowers, RaisedAll, Closed, OnlyHighAndMedium;
    var (h, m) := (RaisedAll(HighPowers(t), High), RaisedAll(MediumPowers(t), Medium));
    FoundParts(Found0(c, t), h);
    FoundParts(Found0(c, t) + h, m);
    FoundParts(Found0(c, t) + h + m, Closed(t));
  }

  lemma Found0Severities(c: Double -> Int64, t: TokenFacts)
    ensures OnlyHighAndMedium(Found0(c, t))
  {
    hide TaxBps, TaxDesc, IsSet;
  }

  lemma {:induction false} RaisedSeverities(ps: seq<Power>, l: Level)
    requires l != Low
    ensures OnlyHighAndMedium(RaisedAll(ps, l))
  {
    if ps != [] {
      RaisedSeverities(ps[..|ps| - 1], l);
      hide IsSet;
    }
  }

  lemma FoundParts(s: seq<Flag>, u: seq<Flag>)
    ensures OnlyHighAndMedium(s) && OnlyHighAndMedium(u) ==> OnlyHighAndMedium(s + u)
  {}

  /** The verdict on a token, whatever order the maps were walked in. */
  lemma VerdictMeaning(c: Double -> Int64, t: TokenFacts)
    ensures var level := LevelOf(Capped(Weights(Found(c, t))));
      && (level == High <==> |OfSeverity(Found(c, t), High)| >= 1 || |OfSeverity(Found(c, t), Medium)| >= 3)
      && (level == Low <==> Found(c, t) == [])
  {
    FoundSeverities(c, t);
    LevelMeaning(Found(c, t));
  }

  // ---------------------------------------------------------------- the verdict, field by field

  lemma RaisedOneMore(ps: seq<Power>, p: Power, l: Level)
    ensures Weights(RaisedAll(ps + [p], l)) == Weights(RaisedAll(ps, l)) + Weight(l) * One(p.field == Some("1"))
    ensures forall key, m :: HasFlag(RaisedAll(ps + [p], l), key, m) <==>
      HasFlag(RaisedAll(ps, l), key, m) || (p.field == Some("1") && p.key == key && l == m)
  {
    assert (ps + [p])[..|ps|] == ps;
    WeightsConcat(RaisedAll(ps, l), Raised(p, l));
    WhenWeight(IsSet(p.field), p.key, p.desc, l);
    hide Weights, HasFlag;
    forall key, m
      ensures HasFlag(RaisedAll(ps + [p], l), key, m) <==>
        HasFlag(RaisedAll(ps, l), key, m) || (p.field == Some("1") && p.key == key && l == m)
    {
      HasFlagWhen(IsSet(p.field), p.key, p.desc, l, key, m);
      HasFlagConcat(RaisedAll(ps, l), Raised(p, l), key, m);
      hide When, RaisedAll;
    }
  }

  lemma HasFlagWhen(c: bool, k: string, desc: string, l: Level, key: string, m: Level)
    ensures HasFlag(When(c, k, desc, l), key, m) <==> c && k == key && l == m
  {
    if c && k == key && l == m {
      assert Flag(k, desc, l) in When(c, k, desc, l);
    }
  }

  lemma HasFlagConcat(s: seq<Flag>, t: seq<Flag>, key: string, m: Level)
    ensures HasFlag(s + t, key, m) <==> HasFlag(s, key, m) || HasFlag(t, key, m)
  {
    if f :| f in s && f.key == key && f.severity == m {
      assert f in s + t;
    }
    if f :| f in t && f.key == key && f.severity == m {
      assert f in s + t;
    }
  }

  lemma NothingRaised(l: Level)
    ensures Weights(RaisedAll([], l)) == 0 && forall key, m :: !HasFlag(RaisedAll([], l), key, m)
  {}

  lemma HighRaised(t: TokenFacts)
    ensures Weights(RaisedAll(HighPowers(t), High)) ==
      40 * (One(t.ownerChangeBalance == Some("1")) + One(t.hiddenOwner == Some("1")) + One(t.selfDestruct == Some("1")))
    ensures forall key, m :: HasFlag(RaisedAll(HighPowers(t), High), key, m) <==>
      m == High && (
        || (key == "owner_change_balance" && t.ownerChangeBalance == Some("1"))
        || (key == "hidden_owner" && t.hiddenOwner == Some("1"))
        || (key == "selfdestruct" && t.selfDestruct == Some("1")))
  {
    var ps := HighPowers(t);
    NothingRaised(High);
    hide RaisedAll, Weights, HasFlag;
    RaisedOneMore([], ps[0], High);
    RaisedOneMore([ps[0]], ps[1], High);
    RaisedOneMore([ps[0], ps[1]], ps[2], High);
    assert [] + [ps[0]] == [ps[0]] && [ps[0]] + [ps[1]] == [ps[0], ps[1]] && [ps[0], ps[1]] + [ps[2]] == ps;
  }

  lemma MediumRaised(t: TokenFacts)
    ensures Weights(RaisedAll(MediumPowers(t), Medium)) ==
      15 * (One(t.isMintable == Some("1")) + One(t.canTakeBackOwnership == Some("1"))
            + One(t.transferPausable == Some("1")) + One(t.isBlacklisted == Some("1"))
            + One(t.tradingCooldown == Some("1")) + One(t.isProxy == Some("1")))
    ensures forall key, m :: HasFlag(RaisedAll(MediumPowers(t), Medium), key, m) <==>
      m == Medium && (
        || (key == "mintable" && t.isMintable == Some("1"))
        || (key == "take_back_ownership" && t.canTakeBackOwnership == Some("1"))
        || (key == "transfer_pausable" && t.transferPausable == Some("1"))
        || (key == "blacklist" && t.isBlacklisted == Some("1"))
        || (key == "trading_cooldown" && t.tradingCooldown == Some("1"))
        || (key == "proxy" && t.isProxy == Some("1")))
  {
    var ps := MediumPowers(t);
    NothingRaised(Medium);
    hide RaisedAll, Weights, HasFlag;
    RaisedOneMore([], ps[0], Medium);
    RaisedOneMore([ps[0]], ps[1], Medium);
    RaisedOneMore([ps[0], ps[1]], ps[2], Medium);
    assert [] + [ps[0]] == [ps[0]] && [ps[0]] + [ps[1]] == [ps[0], ps[1]];
    assert [ps[0], ps[1]] + [ps[2]] == ps[..3];
    RaisedOneMore(ps[..3], ps[3], Medium);
    RaisedOneMore(ps[..4], ps[4], Medium);
    RaisedOneMore(ps[..5], ps[5], Medium);
    assert ps[..3] + [ps[3]] == ps[..4] && ps[..4] + [ps[4]] == ps[..5] && ps[..5] + [ps[5]] == ps;
  }

  /** The score, from the fields of the answer and the two taxes in basis points. */
  lemma ScoreOnFields(c: Double -> Int64, t: TokenFacts)
    ensures var (sell, buy) := (TaxBps(c, t.sellTax), TaxBps(c, t.buyTax));
      Weights(Found(c, t)) == 40 * Severe(t, sell) + 15 * Lesser(t, sell, buy)
  {
    hide Found, Found0, RaisedAll, Weights, HasFlag, TaxBps, HighPowers, MediumPowers;
    WeightsOfFound(c, t);
    WeightsOfFound0(c, t);
    HighRaised(t);
    MediumRaised(t);
    WhenWeight(t.isOpenSource == Some("0"), "closed_source", "contract source not verified", Medium);
  }

  lemma Reported0(c: Double -> Int64, t: TokenFacts, key: string, m: Level)
    ensures var (sell, buy) := (TaxBps(c, t.sellTax), TaxBps(c, t.buyTax));
      HasFlag(Found0(c, t), key, m) <==>
        || (m == High && key == "honeypot" && t.isHoneypot == Some("1"))
        || (m == High && key == "cannot_sell_all" && t.cannotSellAll == Some("1"))
        || (key == "sell_tax" && ((m == High && sell >= 1000) || (m == Medium && 500 <= sell < 1000)))
        || (m == Medium && key == "buy_tax" && buy >= 500)
  {
    var (sell, buy) := (TaxBps(c, t.sellTax), TaxBps(c, t.buyTax));
    hide TaxBps, When, HasFlag, TaxDesc;
    var h := When(IsSet(t.isHoneypot), "honeypot", "honeypot: selling is blocked", High);
    var n := When(IsSet(t.cannotSellAll), "cannot_sell_all", "cannot sell the full balance", High);
    var s := When(sell >= 500, "sell_tax", TaxDesc("sell", sell), if sell >= 1000 then High else Medium);
    var b := When(buy >= 500, "buy_tax", TaxDesc("buy", buy), Medium);
    HasFlagWhen(IsSet(t.isHoneypot), "honeypot", "honeypot: selling is blocked", High, key, m);
    HasFlagWhen(IsSet(t.cannotSellAll), "cannot_sell_all", "cannot sell the full balance", High, key, m);
    HasFlagWhen(sell >= 500, "sell_tax", TaxDesc("sell", sell), if sell >= 1000 then High else Medium, key, m);
    HasFlagWhen(buy >= 500, "buy_tax", TaxDesc("buy", buy), Medium, key, m);
    HasFlagConcat(h, n, key, m);
    HasFlagConcat(h + n, s, key, m);
    HasFlagConcat(h + n + s, b, key, m);
  }

  /** Every condition is reported under its key, and nothing else is. */
  lemma FlagsOnFields(c: Double -> Int64, t: TokenFacts, key: string, m: Level)
    ensures HasFlag(Found(c, t), key, m) <==> Reported(t, TaxBps(c, t.sellTax), TaxBps(c, t.buyTax), key, m)
  {
    hide Found0, RaisedAll, HasFlag, TaxBps, HighPowers, MediumPowers;
    var (h, n) := (RaisedAll(HighPowers(t), High), RaisedAll(MediumPowers(t), Medium));
    Reported0(c, t, key, m);
    HighRaised(t);
    MediumRaised(t);
    HasFlagWhen(t.isOpenSource == Some("0"), "closed_source", "contract source not verified", Medium, key, m);
    HasFlagConcat(Found0(c, t), h, key, m);
    HasFlagConcat(Found0(c, t) + h, n, key, m);
    HasFlagConcat(Found0(c, t) + h + n, Closed(t), key, m);
  }

  /**
   * The verdict from the fields alone. HIGH if and only if the token is a honeypot, cannot be sold in full, has an
   * owner who edits balances, a hidden owner or a self-destruct, or taxes sales at ten per cent, or if three of the
   * lesser conditions hold; LOW if and only if none holds.
   */
  lemma VerdictOnFields(c: Double -> Int64, t: TokenFacts)
    ensures var (sell, buy) := (TaxBps(c, t.sellTax), TaxBps(c, t.buyTax));
      var level := LevelOf(Capped(Weights(Found(c, t))));
      && (level == High <==>
           || t.isHoneypot == Some("1") || t.cannotSellAll == Some("1") || t.ownerChangeBalance == Some("1")
           || t.hiddenOwner == Some("1") || t.selfDestruct == Some("1") || sell >= 1000
           || Lesser(t, sell, buy) >= 3)
      && (level == Low <==> Severe(t, sell) == 0 && Lesser(t, sell, buy) == 0)
  {
    ScoreOnFields(c, t);
    hide Weights, Found, TaxBps;
  }
}
