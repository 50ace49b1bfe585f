/** The trading gate of the MCP server: the checks before a swap, and every interleaving of concurrent swap calls. */
module McpGate {
  import opened Text
  import opened Tokens
  import opened Doubles
  import RiskScore
  import RiskCache

  /** The cap and the budget are read from the command line, which takes "NaN" and "Inf" for numbers too. */
  datatype Options = Options(
    allowTrading: bool, maxUSD: Double, maxUSDTotal: Double, chains: seq<string>, allowRisky: bool)

  /** The configured chains, and the one an unknown key stands for. */
  datatype Setup = Setup(opts: Options, configured: map<string, Config>, fallback: Config)

  datatype Input = Input(usd: real, fromSymbol: string, toSymbol: string, chain: string)

  const ZERO := Finite(0.0)

  /** `usd > limit`; never so when the limit is NaN. */
  predicate Exceeds(usd: real, limit: Double) {
    Less(limit, Finite(usd))
  }

  function Minus(x: Double, y: real): Double {
    if x.Finite? then Finite(x.value - y) else x
  }

  function Budget(o: Options): Double {
    if Less(ZERO, o.maxUSDTotal) then o.maxUSDTotal else o.maxUSD
  }

  /** No total is set: zero, negative or NaN. */
  predicate NoTotal(total: Double) {
    total.NaN? || (total.Finite? && total.value <= 0.0) || (total.Infinite? && total.negative)
  }

  /** Whether an amount fits, on the options themselves. */
  predicate Fits(o: Options, spent: real, usd: real) {
    && (o.maxUSD.Finite? ==> usd <= o.maxUSD.value)
    && (o.maxUSDTotal.Finite? && o.maxUSDTotal.value > 0.0 ==> spent + usd <= o.maxUSDTotal.value)
    && (NoTotal(o.maxUSDTotal) && o.maxUSD.Finite? ==> spent + usd <= o.maxUSD.value)
  }

  predicate OptionsOk(o: Options, configured: map<string, Config>) {
    && (o.allowTrading ==> !AtMost(o.maxUSD, ZERO))
    && !(Less(ZERO, o.maxUSDTotal) && Less(o.maxUSDTotal, o.maxUSD))
    && forall k :: k in o.chains ==> k in configured
  }

  /** What the server checks before it starts. */
  method CheckOptions(o: Options, configured: map<string, Config>) returns (error: Option<string>)
    ensures error.None? <==> OptionsOk(o, configured)
    // on the numbers: a positive cap or NaN, and no positive total below it
    ensures error.None? <==>
      && (o.allowTrading ==>
           o.maxUSD.NaN? || o.maxUSD == Infinite(false) || (o.maxUSD.Finite? && o.maxUSD.value > 0.0))
      && (o.maxUSDTotal.Finite? && o.maxUSDTotal.value > 0.0 ==>
           && o.maxUSD != Infinite(false)
           && (o.maxUSD.Finite? ==> o.maxUSD.value <= o.maxUSDTotal.value))
      && forall k :: k in o.chains ==> k in configured
    ensures error.None? && o.allowTrading ==>
      o.maxUSD.NaN? || (Less(ZERO, o.maxUSD) && AtMost(o.maxUSD, Budget(o)))
  {
    if o.allowTrading && AtMost(o.maxUSD, ZERO) {
      return Some("--allow-trading requires --max-usd > 0");
    }
    if Less(ZERO, o.maxUSDTotal) && Less(o.maxUSDTotal, o.maxUSD) {
      return Some("--max-usd-total cannot be below --max-usd");
    }
    for i := 0 to |o.chains|
      invariant forall j :: 0 <= j < i ==> o.chains[j] in configured
    {
      if o.chains[i] !in configured {
        return Some("unknown chain");
      }
    }
    error := None;
  }

  function ConfigOf(s: Setup, key: string): Config {
    if key in s.configured then s.configured[key] else s.fallback
  }

  /** The chain and the token to buy; None when anything about the call is refused. */
  function Resolved(s: Setup, call: Input, chosen: Option<string>, slippageKnown: bool): Option<(string, TokenInfo)> {
    var key := if call.chain != "" then (if call.chain in s.configured then Some(call.chain) else None) else chosen;
    if call.usd <= 0.0 || key.None? then None
    else
      var c := ConfigOf(s, key.value);
      var (from, to) := (ResolveToken(c, call.fromSymbol), ResolveToken(c, call.toSymbol));
      if from.None? || to.None? || !slippageKnown then None else Some((key.value, to.value))
  }

  /**
   * A call resolves if and only if its amount is positive, it names a configured chain or none and one is chosen,
   * both symbols are known there, and the slippage is; then to the token its symbol stands for.
   */
  lemma ResolvesExactlyWhen(s: Setup, call: Input, chosen: Option<string>, slippageKnown: bool, key: string,
      to: TokenInfo)
    ensures Resolved(s, call, chosen, slippageKnown) == Some((key, to)) <==>
      && call.usd > 0.0 && slippageKnown
      && (if call.chain == "" then chosen == Some(key) else key == call.chain && key in s.configured)
      && var c := if key in s.configured then s.configured[key] else s.fallback;
        && ResolveToken(c, call.fromSymbol).Some? && ResolveToken(c, call.toSymbol) == Some(to)
  {
    hide ResolveToken;
  }

  predicate ChainAllowed(o: Options, key: string) {
    o.chains == [] || key in o.chains
  }

  predicate RiskAccepted(o: Options, r: RiskScore.Report) {
    r.level != RiskScore.High || o.allowRisky
  }

  datatype Reply = Refused | SwapFailed | Swapped

  class Server {
    const setup: Setup
    const safety: RiskCache.Service
    var spentUSD: real

    constructor (setup: Setup, safety: RiskCache.Service)
      ensures this.setup == setup && this.safety == safety && spentUSD == 0.0
    {
      this.setup := setup;
      this.safety := safety;
      spentUSD := 0.0;
    }

    /** Books an amount if it fits in what is left. */
    method Reserve(amountUSD: real) returns (remaining: Double, ok: bool)
      modifies this`spentUSD
      ensures ok <==> !Exceeds(old(spentUSD) + amountUSD, Budget(setup.opts))
      ensures spentUSD == old(spentUSD) + if ok then amountUSD else 0.0
      ensures remaining == Minus(Budget(setup.opts), spentUSD)
      // on the options themselves
      ensures var (cap, total) := (setup.opts.maxUSD, setup.opts.maxUSDTotal);
        && (total.Finite? && total.value > 0.0 ==>
             && (ok <==> old(spentUSD) + amountUSD <= total.value)
             && remaining == Finite(total.value - spentUSD))
        && (NoTotal(total) && cap.Finite? ==>
             && (ok <==> old(spentUSD) + amountUSD <= cap.value)
             && remaining == Finite(cap.value - spentUSD))
    {
      var left := Minus(Budget(setup.opts), spentUSD);
      if Exceeds(amountUSD, left) {
        return left, false;
      }
      spentUSD := spentUSD + amountUSD;
      return Minus(Budget(setup.opts), spentUSD), true;
    }

    /**
     * One swap call nobody interferes with. Settings, clock readings, the checker's answer, the wallet, the flow
     * and the swap itself are what the outside makes of them. The swap is tried exactly when every gate is passed;
     * the amount is booked as soon as it resolves and fits, whatever happens next.
     */
    method SwapExecute(call: Input, chosen: Option<string>, slippageKnown: bool, now: int,
        answer: Result<RiskScore.Report, string>, later: int, walletAndFlow: bool, works: bool) returns (reply: Reply)
      modifies this`spentUSD, safety`cache
      ensures var resolved := Resolved(setup, call, chosen, slippageKnown);
        var fits := resolved.Some? && !Exceeds(call.usd, setup.opts.maxUSD)
                    && !Exceeds(old(spentUSD) + call.usd, Budget(setup.opts));
        && spentUSD == old(spentUSD) + (if fits then call.usd else 0.0)
        && (reply != Refused <==>
             && fits && (setup.opts.chains == [] || resolved.value.0 in setup.opts.chains) && walletAndFlow
             && (RiskCache.ShouldCheck(ConfigOf(setup, resolved.value.0), resolved.value.1) ==>
                  || setup.opts.allowRisky
                  || RiskCache.Checked(old(safety.cache), RiskCache.Key(resolved.value.0, resolved.value.1.address),
                       now, answer, later).0.level != RiskScore.High))
        && (reply != Refused ==> (reply == Swapped <==> works))
      ensures var resolved := Resolved(setup, call, chosen, slippageKnown);
        OptionsOk(setup.opts, setup.configured) && setup.opts.allowTrading && resolved.Some? ==>
          spentUSD == old(spentUSD) + if Fits(setup.opts, old(spentUSD), call.usd) then call.usd else 0.0
    {
      var resolved := Resolved(setup, call, chosen, slippageKnown);
      if resolved.None? || Exceeds(call.usd, setup.opts.maxUSD) {
        return Refused;
      }
      var (key, to) := resolved.value;
      var _, ok := Reserve(call.usd);
      if !ok || !ChainAllowed(setup.opts, key) {
        return Refused;
      }
      if RiskCache.ShouldCheck(ConfigOf(setup, key), to) {
        var report := safety.Check(key, to.address, now, answer, later);
        if report.level == RiskScore.High && !setup.opts.allowRisky {
          return Refused;
        }
      }
      if !walletAndFlow {
        return Refused;
      }
      reply := if works then Swapped else SwapFailed;
    }
  }

  // ---------------------------------------------------------------- concurrent calls

  /** Where a call stands. `check` is the risk check it asked for. */
  datatype Phase =
    | Called
    | Resolving(key: string, to: TokenInfo)                      // resolved, about to be capped and booked
    | Booked(key: string, to: TokenInfo)
    | Assessing(key: string, to: TokenInfo, check: nat)
    | Cleared(key: string, to: TokenInfo, passed: Option<nat>)   // every gate passed, unlocking the wallet
    | Executing(key: string, to: TokenInfo, passed: Option<nat>)
    | Done(key: string, to: TokenInfo, passed: Option<nat>, works: bool)
    | TurnedDown(afterBooking: bool)

  datatype Job = Job(call: Input, phase: Phase)

  /** `chosen` is the chain in the settings, None when they cannot be read; `safety` the cache and its checks. */
  datatype World = World(spent: real, jobs: seq<Job>, chosen: Option<string>, safety: RiskCache.World)

  datatype Event =
    | Call(call: Input)
    | Choose(chosen: Option<string>)
    | Safety(event: RiskCache.Event)
    | Advance(job: nat, ok: bool)  // `ok` is what the outside makes of the step

  function Init(chosen: Option<string>, now: int): World {
    World(0.0, [], chosen, RiskCache.Init(now))
  }

  /** The next phase of a job, what that does to the money spent, and the check it asks for. */
  function Next(s: Setup, w: World, j: Job, ok: bool): (Phase, real, Option<RiskCache.Event>) {
    match j.phase
    case Called =>
      var r := Resolved(s, j.call, w.chosen, ok);
      (if r.Some? then Resolving(r.value.0, r.value.1) else TurnedDown(false), w.spent, None)
    case Resolving(key, to) =>
      if Exceeds(j.call.usd, s.opts.maxUSD) || Exceeds(j.call.usd, Minus(Budget(s.opts), w.spent))
      then (TurnedDown(false), w.spent, None)
      else (Booked(key, to), w.spent + j.call.usd, None)
    case Booked(key, to) =>
      if !ChainAllowed(s.opts, key) then (TurnedDown(true), w.spent, None)
      else if !RiskCache.ShouldCheck(ConfigOf(s, key), to) then (Cleared(key, to, None), w.spent, None)
      else (Assessing(key, to, |w.safety.calls|), w.spent, Some(RiskCache.Begin(key, to.address)))
    case Assessing(key, to, check) =>
      // without its report the job waits
      if check >= |w.safety.calls| || !w.safety.calls[check].phase.Returned? then (j.phase, w.spent, None)
      else if RiskAccepted(s.opts, w.safety.calls[check].phase.report)
      then (Cleared(key, to, Some(check)), w.spent, None)
      else (TurnedDown(true), w.spent, None)
    case Cleared(key, to, passed) =>
      (if ok then Executing(key, to, passed) else TurnedDown(true), w.spent, None)
    case Executing(key, to, passed) =>
      (Done(key, to, passed, ok), w.spent, None)
    case _ => (j.phase, w.spent, None)
  }

  /** One step. An event that is not possible changes nothing. */
  function Step(s: Setup, w: World, e: Event): World {
    match e
    case Call(call) => w.(jobs := w.jobs + [Job(call, Called)])
    case Choose(chosen) =>
      if chosen.Some? && chosen.value !in s.configured then w else w.(chosen := chosen)
    case Safety(x) =>
      if x.Begin? && x.chain !in s.configured then w else w.(safety := RiskCache.Step(w.safety, x))
    case Advance(i, ok) =>
      if i >= |w.jobs| then w
      else
        var (phase, spent, asks) := Next(s, w, w.jobs[i], ok);
        w.(jobs := w.jobs[i := w.jobs[i].(phase := phase)], spent := spent,
           safety := if asks.Some? then RiskCache.Step(w.safety, asks.value) else w.safety)
  }

  function Run(s: Setup, w: World, events: seq<Event>): World {
    if events == [] then w else Step(s, Run(s, w, events[..|events| - 1]), events[|events| - 1])
  }

  /** What a job has booked. */
  function BookedBy(j: Job): real {
    if IsBooked(j) then j.call.usd else 0.0
  }

  predicate IsBooked(j: Job) {
    !j.phase.Called? && !j.phase.Resolving? && j.phase != TurnedDown(false)
  }

  /** Its swap was handed to the exchange. */
  predicate IsTraded(j: Job) {
    j.phase.Executing? || j.phase.Done?
  }

  function BookedUSD(jobs: seq<Job>): real {
    if jobs == [] then 0.0
    else BookedUSD(jobs[..|jobs| - 1]) + BookedBy(jobs[|jobs| - 1])
  }

  function TradedUSD(jobs: seq<Job>): real {
    if jobs == [] then 0.0
    else TradedUSD(jobs[..|jobs| - 1]) + if IsTraded(jobs[|jobs| - 1]) then jobs[|jobs| - 1].call.usd else 0.0
  }

  // ---------------------------------------------------------------- what every run keeps

  /** The check is one for this chain and token. */
  predicate AsksFor(w: World, check: nat, key: string, to: TokenInfo) {
    check < |w.safety.calls| && w.safety.calls[check].chain == key && w.safety.calls[check].addr == to.address
  }

  predicate Resolvable(s: Setup, call: Input, key: string, to: TokenInfo) {
    && call.usd > 0.0 && key in s.configured
    && (call.chain != "" ==> key == call.chain)
    && ResolveToken(ConfigOf(s, key), call.toSymbol) == Some(to)
  }

  /** Every gate between the booking and the swap was passed. */
  predicate Passed(s: Setup, w: World, key: string, to: TokenInfo, passed: Option<nat>) {
    && ChainAllowed(s.opts, key)
    && (passed.Some? <==> RiskCache.ShouldCheck(ConfigOf(s, key), to))
    && (passed.Some? ==>
         && AsksFor(w, passed.value, key, to) && w.safety.calls[passed.value].phase.Returned?
         && RiskAccepted(s.opts, w.safety.calls[passed.value].phase.report))
  }

  predicate JobHolds(s: Setup, w: World, j: Job) {
    match j.phase
    case Called => true
    case Resolving(key, to) => Resolvable(s, j.call, key, to)
    case Booked(key, to) => Resolvable(s, j.call, key, to) && !Exceeds(j.call.usd, s.opts.maxUSD)
    case Assessing(key, to, check) =>
      && Resolvable(s, j.call, key, to) && !Exceeds(j.call.usd, s.opts.maxUSD)
      && ChainAllowed(s.opts, key) && RiskCache.ShouldCheck(ConfigOf(s, key), to) && AsksFor(w, check, key, to)
    case Cleared(key, to, passed) =>
      Resolvable(s, j.call, key, to) && !Exceeds(j.call.usd, s.opts.maxUSD) && Passed(s, w, key, to, passed)
    case Executing(key, to, passed) =>
      Resolvable(s, j.call, key, to) && !Exceeds(j.call.usd, s.opts.maxUSD) && Passed(s, w, key, to, passed)
    case Done(key, to, passed, _) =>
      Resolvable(s, j.call, key, to) && !Exceeds(j.call.usd, s.opts.maxUSD) && Passed(s, w, key, to, passed)
    case TurnedDown(booked) => booked ==> 0.0 < j.call.usd && !Exceeds(j.call.usd, s.opts.maxUSD)
  }

  predicate SafetyHolds(s: Setup, safety: RiskCache.World) {
    forall c :: c in safety.calls ==> c.chain in s.configured
  }

  ghost predicate Inv(s: Setup, w: World) {
    && w.spent == BookedUSD(w.jobs) && !Exceeds(w.spent, Budget(s.opts))
    && (forall j :: j in w.jobs ==> JobHolds(s, w, j))
    && (w.chosen.Some? ==> w.chosen.value in s.configured)
    && RiskCache.Inv(w.safety) && SafetyHolds(s, w.safety)
  }

  lemma {:induction false} BookedOne(jobs: seq<Job>, i: nat, j: Job)
    requires i < |jobs|
    ensures BookedUSD(jobs[i := j]) ==
      BookedUSD(jobs) - BookedBy(jobs[i]) + BookedBy(j)
  {
    var n := |jobs| - 1;
    if i == n {
      assert jobs[i := j][..n] == jobs[..n];
    } else {
      assert jobs[i := j][..n] == jobs[..n][i := j];
      BookedOne(jobs[..n], i, j);
    }
  }

  lemma {:induction false} TradedWithinBooked(s: Setup, w: World, jobs: seq<Job>)
    requires forall j :: j in jobs ==> JobHolds(s, w, j)
    ensures TradedUSD(jobs) <= BookedUSD(jobs)
  {
    if jobs != [] {
      TradedWithinBooked(s, w, jobs[..|jobs| - 1]);
      assert JobHolds(s, w, jobs[|jobs| - 1]);
    }
  }

  /** A risk check in flight keeps its question, and its report once it has one. */
  predicate ChecksStay(x: RiskCache.World, y: RiskCache.World) {
    && |x.calls| <= |y.calls|
    && forall i :: 0 <= i < |x.calls| ==>
         && y.calls[i].chain == x.calls[i].chain && y.calls[i].addr == x.calls[i].addr
         && (x.calls[i].phase.Returned? ==> y.calls[i] == x.calls[i])
  }

  lemma SafetyStep(s: Setup, x: RiskCache.World, e: RiskCache.Event)
    requires RiskCache.Inv(x) && SafetyHolds(s, x) && (e.Begin? ==> e.chain in s.configured)
    ensures var y := RiskCache.Step(x, e);
      RiskCache.Inv(y) && SafetyHolds(s, y) && ChecksStay(x, y)
  {
    RiskCache.StepHolds(x, e);
    hide RiskCache.Inv, RiskCache.Key;
    var y := RiskCache.Step(x, e);
    RiskCache.StepIsLater(x, e);
    forall c | c in y.calls
      ensures c.chain in s.configured
    {
      var i :| 0 <= i < |y.calls| && y.calls[i] == c;
      assert i < |x.calls| ==> x.calls[i] in x.calls;
    }
  }

  lemma JobStays(s: Setup, w: World, v: World, j: Job)
    requires JobHolds(s, w, j) && ChecksStay(w.safety, v.safety)
    ensures JobHolds(s, v, j)
  {
    hide ResolveToken, RiskCache.ShouldCheck, ChainAllowed, RiskAccepted, Resolvable, ConfigOf;
  }

  /** A job's own step: what it books and what it asks for. */
  lemma NextHolds(s: Setup, w: World, j: Job, ok: bool)
    requires Inv(s, w) && JobHolds(s, w, j)
    ensures var (phase, spent, asks) := Next(s, w, j, ok);
      var safety := if asks.Some? then RiskCache.Step(w.safety, asks.value) else w.safety;
      && JobHolds(s, w.(safety := safety), j.(phase := phase))
      && (asks.Some? ==> asks.value.Begin? && asks.value.chain in s.configured)
      && !Exceeds(spent, Budget(s.opts))
      && spent == w.spent - BookedBy(j) + BookedBy(j.(phase := phase))
  {
    hide RiskCache.Inv, BookedUSD, RiskCache.ShouldCheck, RiskCache.Key, ResolveToken;
  }

  lemma AdvanceHolds(s: Setup, w: World, i: nat, ok: bool)
    requires Inv(s, w) && i < |w.jobs|
    ensures Inv(s, Step(s, w, Advance(i, ok)))
  {
    var v := Step(s, w, Advance(i, ok));
    var asks := Next(s, w, w.jobs[i], ok).2;
    assert w.jobs[i] in w.jobs;
    NextHolds(s, w, w.jobs[i], ok);
    BookedOne(w.jobs, i, v.jobs[i]);
    if asks.Some? {
      SafetyStep(s, w.safety, asks.value);
    }
    hide RiskCache.Inv, RiskCache.Step, SafetyHolds, JobHolds, Next, BookedUSD;
    forall j | j in v.jobs
      ensures JobHolds(s, v, j)
    {
      if j in w.jobs {
        JobStays(s, w, v, j);
      } else {
        JobStays(s, w.(safety := v.safety), v, j);
      }
    }
  }

  lemma StepHolds(s: Setup, w: World, e: Event)
    requires Inv(s, w)
    ensures Inv(s, Step(s, w, e))
  {
    var v := Step(s, w, e);
    match e {
      case Advance(i, ok) =>
        if i < |w.jobs| {
          AdvanceHolds(s, w, i, ok);
        }
      case Safety(x) =>
        if v != w {
          SafetyStep(s, w.safety, x);
          OthersHold(s, w, v);
        }
      case Call(call) =>
        assert v.jobs[..|w.jobs|] == w.jobs;
        OthersHold(s, w, v);
      case Choose(_) =>
        OthersHold(s, w, v);
    }
  }

  lemma OthersHold(s: Setup, w: World, v: World)
    requires Inv(s, w) && ChecksStay(w.safety, v.safety) && RiskCache.Inv(v.safety) && SafetyHolds(s, v.safety)
    requires v.spent == w.spent == BookedUSD(v.jobs) && (v.chosen.Some? ==> v.chosen.value in s.configured)
    requires forall j :: j in v.jobs ==> j in w.jobs || j.phase.Called?
    ensures Inv(s, v)
  {
    forall j | j in v.jobs
      ensures JobHolds(s, v, j)
    {
      if j in w.jobs {
        JobStays(s, w, v, j);
      }
    }
  }

  /** The server was started with trading allowed and options that passed its checks. */
  predicate Started(s: Setup, chosen: Option<string>) {
    OptionsOk(s.opts, s.configured) && s.opts.allowTrading && (chosen.Some? ==> chosen.value in s.configured)
  }

  lemma {:induction false} RunHolds(s: Setup, chosen: Option<string>, now: int, events: seq<Event>)
    requires Started(s, chosen)
    ensures Inv(s, Run(s, Init(chosen, now), events))
  {
    if events == [] {
      RiskCache.InitHolds(now);
    } else {
      RunHolds(s, chosen, now, events[..|events| - 1]);
      hide Inv, Step;
      StepHolds(s, Run(s, Init(chosen, now), events[..|events| - 1]), events[|events| - 1]);
    }
  }

  /**
   * Over every interleaving: what is traded is within what is booked, which is what is spent, which is within the
   * budget unless the budget is NaN.
   */
  lemma SpendingIsBounded(s: Setup, chosen: Option<string>, now: int, events: seq<Event>)
    requires Started(s, chosen)
    ensures var w := Run(s, Init(chosen, now), events);
      && TradedUSD(w.jobs) <= BookedUSD(w.jobs) == w.spent
      && (Budget(s.opts).NaN? || AtMost(Finite(w.spent), Budget(s.opts)))
  {
    RunHolds(s, chosen, now, events);
    var w := Run(s, Init(chosen, now), events);
    TradedWithinBooked(s, w, w.jobs);
  }

  /**
   * On the options themselves: with a positive total no more than the total is spent, and without one no more than the
   * cap.
   */
  lemma SpentWithinLimits(s: Setup, chosen: Option<string>, now: int, events: seq<Event>)
    requires Started(s, chosen)
    ensures var (spent, cap, total) := (Run(s, Init(chosen, now), events).spent, s.opts.maxUSD, s.opts.maxUSDTotal);
      && (total.Finite? && total.value > 0.0 ==> spent <= total.value)
      && (NoTotal(total) && cap.Finite? ==> spent <= cap.value)
  {
    SpendingIsBounded(s, chosen, now, events);
    hide Run;
  }

  /** Between the booking and the swap: the chain is allowed, and the token is checked and not of high risk. */
  lemma GatesOpenExactlyWhen(s: Setup, w: World, i: nat, ok: bool)
    requires i < |w.jobs|
    ensures var (j, v) := (w.jobs[i], Step(s, w, Advance(i, ok)).jobs[i]);
      && (j.phase.Booked? ==>
           var allowed := s.opts.chains == [] || j.phase.key in s.opts.chains;
           var c := if j.phase.key in s.configured then s.configured[j.phase.key] else s.fallback;
           && (v.phase.TurnedDown? <==> !allowed)
           && (v.phase.Assessing? <==> allowed && RiskCache.ShouldCheck(c, j.phase.to))
           && (v.phase.Cleared? <==> allowed && !RiskCache.ShouldCheck(c, j.phase.to)))
      && (j.phase.Assessing? && j.phase.check < |w.safety.calls| && w.safety.calls[j.phase.check].phase.Returned? ==>
           var refused := w.safety.calls[j.phase.check].phase.report.level == RiskScore.High && !s.opts.allowRisky;
           v.phase == if refused then TurnedDown(true) else Cleared(j.phase.key, j.phase.to, Some(j.phase.check)))
      && (j.phase.Cleared? ==>
           v.phase == if ok then Executing(j.phase.key, j.phase.to, j.phase.passed) else TurnedDown(true))
      && (j.phase.Executing? ==> v.phase == Done(j.phase.key, j.phase.to, j.phase.passed, ok))
  {
    hide RiskCache.ShouldCheck, RiskCache.Step, RiskCache.Key;
  }

  /** A call that has resolved is booked if and only if it is within the cap and fits in what is left. */
  lemma BookedExactlyWhenFits(s: Setup, w: World, i: nat, ok: bool)
    requires OptionsOk(s.opts, s.configured) && s.opts.allowTrading
    requires i < |w.jobs| && w.jobs[i].phase.Resolving?
    ensures var v := Step(s, w, Advance(i, ok));
      var (usd, fits) := (w.jobs[i].call.usd, Fits(s.opts, w.spent, w.jobs[i].call.usd));
      && (IsBooked(v.jobs[i]) <==> fits)
      && v.spent == w.spent + (if fits then usd else 0.0)
      && v.jobs[i].phase == if fits then Booked(w.jobs[i].phase.key, w.jobs[i].phase.to) else TurnedDown(false)
  {}

  /**
   * Over every interleaving: a call that reaches the exchange is for a positive amount within the cap, unless that is
   * NaN, on a configured and allowed chain, for the token its symbol stands for there; and when that token is worth a
   * check, the call's own check came back with an answer of the checker for that chain and token, which is not of high
   * risk unless that is allowed.
   */
  lemma TradesPassEveryGate(s: Setup, chosen: Option<string>, now: int, events: seq<Event>, i: nat)
    requires Started(s, chosen) && forall k :: k in s.configured ==> ':' !in k
    requires var w := Run(s, Init(chosen, now), events);
      i < |w.jobs| && IsTraded(w.jobs[i])
    ensures var w := Run(s, Init(chosen, now), events);
      var (j, key, to) := (w.jobs[i], w.jobs[i].phase.key, w.jobs[i].phase.to);
      && 0.0 < j.call.usd && (s.opts.maxUSD.NaN? || AtMost(Finite(j.call.usd), s.opts.maxUSD))
      && key in s.configured && (j.call.chain != "" ==> key == j.call.chain)
      && (s.opts.chains != [] ==> key in s.opts.chains)
      && ResolveToken(s.configured[key], j.call.toSymbol) == Some(to)
      && (RiskCache.ShouldCheck(s.configured[key], to) ==>
           && j.phase.passed.Some? && AsksFor(w, j.phase.passed.value, key, to)
           && var (c, p) := (j.phase.passed.value, w.safety.calls[j.phase.passed.value].phase);
             && p.Returned?
             && RiskCache.AnswerFor(w.safety.log, c, key, to.address, p.report, p.at)
             && (p.report.level == RiskScore.High ==> s.opts.allowRisky))
  {
    RunHolds(s, chosen, now, events);
    var w := Run(s, Init(chosen, now), events);
    var j := w.jobs[i];
    assert JobHolds(s, w, j);
    hide RiskCache.ShouldCheck, RiskCache.AnswerFor, RiskCache.Inv, ResolveToken, Run;
    if j.phase.passed.Some? {
      RiskCache.ReturnedIsAnswer(w.safety, j.phase.passed.value);
    }
  }

  // ---------------------------------------------------------------- exactly when nothing bounds an amount

  ghost predicate SomeBooked(w: World, usd: real) {
    exists i :: 0 <= i < |w.jobs| && IsBooked(w.jobs[i]) && w.jobs[i].call.usd == usd
  }

  /** Some run books this amount in one call. */
  ghost predicate CanBook(s: Setup, chosen: Option<string>, now: int, usd: real) {
    exists events :: SomeBooked(Run(s, Init(chosen, now), events), usd)
  }

  lemma {:induction false} OneWithinAll(s: Setup, w: World, jobs: seq<Job>, i: nat)
    requires i < |jobs| && forall j :: j in jobs ==> JobHolds(s, w, j)
    ensures 0.0 <= BookedBy(jobs[i]) <= BookedUSD(jobs)
  {
    var n := |jobs| - 1;
    assert JobHolds(s, w, jobs[n]);
    hide RiskCache.ShouldCheck, ResolveToken;
    if i < n {
      OneWithinAll(s, w, jobs[..n], i);
    } else if n > 0 {
      OneWithinAll(s, w, jobs[..n], 0);
    }
  }

  lemma BookedIsBounded(s: Setup, chosen: Option<string>, now: int, events: seq<Event>, usd: real)
    requires Started(s, chosen) && SomeBooked(Run(s, Init(chosen, now), events), usd)
    ensures !Exceeds(usd, s.opts.maxUSD) && !Exceeds(usd, Budget(s.opts))
  {
    RunHolds(s, chosen, now, events);
    var w := Run(s, Init(chosen, now), events);
    var i :| 0 <= i < |w.jobs| && IsBooked(w.jobs[i]) && w.jobs[i].call.usd == usd;
    assert JobHolds(s, w, w.jobs[i]);
    hide Run, RiskCache.Inv, RiskCache.ShouldCheck, ResolveToken;
    OneWithinAll(s, w, w.jobs, i);
  }

  lemma BooksAnything(s: Setup, chosen: Option<string>, now: int, call: Input) returns (events: seq<Event>)
    requires Resolved(s, call, chosen, true).Some?
    requires !Exceeds(call.usd, s.opts.maxUSD) && !Exceeds(call.usd, Budget(s.opts))
    ensures SomeBooked(Run(s, Init(chosen, now), events), call.usd)
  {
    var r := Resolved(s, call, chosen, true).value;
    hide Resolved, RiskCache.Init;
    var w0 := Init(chosen, now);
    var (e0, e1) := (Call(call), Advance(0, true));
    var w1 := Step(s, w0, e0);
    assert w1.jobs[0] == Job(call, Called);
    var w2 := Step(s, w1, e1);
    assert w2.jobs[0] == Job(call, Resolving(r.0, r.1)) && w2.spent == 0.0;
    var w3 := Step(s, w2, e1);
    assert w3.jobs[0] == Job(call, Booked(r.0, r.1));
    hide Step;
    events := [e0, e1, e1];
    assert events[..2] == [e0, e1] && [e0, e1][..1] == [e0] && [e0][..0] == [];
    assert Run(s, w0, []) == w0 && Run(s, w0, [e0]) == w1 && Run(s, w0, [e0, e1]) == w2;
  }

  /** As soon as some call resolves at all: every amount can be booked if and only if neither limit is finite. */
  lemma AnyAmountBookedExactlyWhen(s: Setup, chosen: Option<string>, now: int, call: Input)
    requires Started(s, chosen) && Resolved(s, call, chosen, true).Some?
    ensures (forall usd: real :: usd > 0.0 ==> CanBook(s, chosen, now, usd)) <==>
      !s.opts.maxUSD.Finite? && !Budget(s.opts).Finite?
  {
    if !s.opts.maxUSD.Finite? && !Budget(s.opts).Finite? {
      forall usd: real | usd > 0.0
        ensures CanBook(s, chosen, now, usd)
      {
        hide SomeBooked, Run, ResolveToken;
        var events := BooksAnything(s, chosen, now, call.(usd := usd));
      }
    } else {
      var limit := if s.opts.maxUSD.Finite? then s.opts.maxUSD.value else Budget(s.opts).value;
      if CanBook(s, chosen, now, limit + 1.0) {
        var events :| SomeBooked(Run(s, Init(chosen, now), events), limit + 1.0);
        BookedIsBounded(s, chosen, now, events, limit + 1.0);
      }
      hide CanBook;
      assert limit > 0.0 && !CanBook(s, chosen, now, limit + 1.0);
    }
  }

  /** And a server can be started so: with a cap of NaN. */
  lemma CapOfNaNBooksAnything(s: Setup, chosen: Option<string>, now: int, call: Input, usd: real)
    requires s.opts == Options(true, NaN, ZERO, [], false) && (chosen.Some? ==> chosen.value in s.configured)
    requires Resolved(s, call, chosen, true).Some? && usd > 0.0
    ensures Started(s, chosen) && CanBook(s, chosen, now, usd)
  {
    AnyAmountBookedExactlyWhen(s, chosen, now, call);
  }

  // ---------------------------------------------------------------- a call that goes through

  lemma OneMore(s: Setup, w: World, es: seq<Event>, e: Event)
    ensures Run(s, w, es + [e]) == Step(s, Run(s, w, es), e)
  {
    assert (es + [e])[..|es|] == es;
    hide Step;
  }

  lemma GetsBooked(s: Setup, chosen: Option<string>, now: int, call: Input, key: string, to: TokenInfo)
    returns (es: seq<Event>, w: World)
    requires OptionsOk(s.opts, s.configured) && s.opts.allowTrading
    requires Resolved(s, call, chosen, true) == Some((key, to)) && Fits(s.opts, 0.0, call.usd)
    ensures w == Run(s, Init(chosen, now), es)
    ensures w == World(call.usd, [Job(call, Booked(key, to))], chosen, RiskCache.Init(now))
  {
    var (w0, e0, e1) := (Init(chosen, now), Call(call), Advance(0, true));
    var w2 := GetsResolved(s, w0, call, key, to);
    w := GetsOn(s, w2, call, key, to);
    es := [e0] + [e1] + [e1];
    assert Run(s, w0, []) == w0 && [] + [e0] == [e0];
    hide *;
    OneMore(s, w0, [], e0);
    OneMore(s, w0, [e0], e1);
    OneMore(s, w0, [e0] + [e1], e1);
  }

  lemma GetsResolved(s: Setup, w: World, call: Input, key: string, to: TokenInfo) returns (v: World)
    requires w.jobs == [] && Resolved(s, call, w.chosen, true) == Some((key, to))
    ensures v == Step(s, Step(s, w, Call(call)), Advance(0, true))
    ensures v == w.(jobs := [Job(call, Resolving(key, to))])
  {
    hide Resolved, RiskCache.Step;
    var u := Step(s, w, Call(call));
    assert u == w.(jobs := [Job(call, Called)]);
    v := Step(s, u, Advance(0, true));
    assert v.jobs == [Job(call, Resolving(key, to))];
  }

  lemma GetsOn(s: Setup, w: World, call: Input, key: string, to: TokenInfo) returns (v: World)
    requires OptionsOk(s.opts, s.configured) && s.opts.allowTrading
    requires w.jobs == [Job(call, Resolving(key, to))] && Fits(s.opts, w.spent, call.usd)
    ensures v == Step(s, w, Advance(0, true))
    ensures v == w.(jobs := [Job(call, Booked(key, to))], spent := w.spent + call.usd)
  {
    BookedExactlyWhenFits(s, w, 0, true);
    hide Fits, OptionsOk, RiskCache.Step;
    v := Step(s, w, Advance(0, true));
    assert v.jobs == [Job(call, Booked(key, to))];
  }

  lemma FourMore(s: Setup, w: World, es: seq<Event>, e: Event, f: Event, g: Event, h: Event)
    ensures Run(s, w, es + [e] + [f] + [g]) == Step(s, Step(s, Step(s, Run(s, w, es), e), f), g)
    ensures Run(s, w, es + [e] + [f] + [g] + [h]) ==
      Step(s, Step(s, Step(s, Step(s, Run(s, w, es), e), f), g), h)
  {
    hide Step, Run;
    OneMore(s, w, es, e);
    OneMore(s, w, es + [e], f);
    OneMore(s, w, es + [e] + [f], g);
    OneMore(s, w, es + [e] + [f] + [g], h);
  }

  /** A booked call of a token that is worth a check gets its report, when the checker answers. */
  lemma GetsChecked(s: Setup, w: World, key: string, to: TokenInfo, now: int, report: RiskScore.Report)
    returns (v: World)
    requires |w.jobs| == 1 && w.jobs[0].phase == Booked(key, to) && w.safety == RiskCache.Init(now)
    requires ChainAllowed(s.opts, key) && RiskCache.ShouldCheck(ConfigOf(s, key), to)
    ensures v == Step(s, Step(s, Step(s, Step(s, w, Advance(0, true)), Safety(RiskCache.Look(0))),
      Safety(RiskCache.Answer(0, Ok(report)))), Safety(RiskCache.Store(0)))
    ensures v.jobs == [w.jobs[0].(phase := Assessing(key, to, 0))] && v.spent == w.spent
    ensures |v.safety.calls| == 1 && v.safety.calls[0].phase == RiskCache.Returned(report, now)
  {
    hide RiskCache.ShouldCheck, ChainAllowed, RiskCache.Key;
    var w1 := Step(s, w, Advance(0, true));
    assert w1.safety.calls == [RiskCache.Call(key, to.address, RiskCache.Looking)] && w1.safety.cache == map[];
    var w2 := Step(s, w1, Safety(RiskCache.Look(0)));
    assert w2.safety.calls == [RiskCache.Call(key, to.address, RiskCache.Fetching)] && w2.jobs == w1.jobs;
    var w3 := Step(s, w2, Safety(RiskCache.Answer(0, Ok(report))));
    assert w3.safety.calls == [RiskCache.Call(key, to.address, RiskCache.Storing(report))] && w3.jobs == w1.jobs;
    v := Step(s, w3, Safety(RiskCache.Store(0)));
  }

  lemma GetsTraded(s: Setup, w: World, key: string, to: TokenInfo, now: int, report: RiskScore.Report)
    returns (v: World)
    requires |w.jobs| == 1 && w.jobs[0].phase == Assessing(key, to, 0) && RiskAccepted(s.opts, report)
    requires |w.safety.calls| == 1 && w.safety.calls[0].phase == RiskCache.Returned(report, now)
    ensures v == Step(s, Step(s, Step(s, w, Advance(0, true)), Advance(0, true)), Advance(0, true))
    ensures v.jobs == [w.jobs[0].(phase := Done(key, to, Some(0), true))] && v.spent == w.spent
  {
    var w1 := Step(s, w, Advance(0, true));
    assert w1.jobs == [w.jobs[0].(phase := Cleared(key, to, Some(0)))] && w1.spent == w.spent;
    var w2 := Step(s, w1, Advance(0, true));
    assert w2.jobs == [w.jobs[0].(phase := Executing(key, to, Some(0)))] && w2.spent == w.spent;
    v := Step(s, w2, Advance(0, true));
  }

  /**
   * A call that resolves, fits, and is on an allowed chain is traded in some run, for any report of the checker that
   * is not of high risk or when that is allowed.
   */
  lemma SomeRunTrades(s: Setup, chosen: Option<string>, now: int, call: Input, key: string, to: TokenInfo,
      report: RiskScore.Report)
    requires OptionsOk(s.opts, s.configured) && s.opts.allowTrading
    requires Resolved(s, call, chosen, true) == Some((key, to)) && Fits(s.opts, 0.0, call.usd)
    requires (s.opts.chains == [] || key in s.opts.chains) && RiskCache.ShouldCheck(ConfigOf(s, key), to)
    requires report.level == RiskScore.High ==> s.opts.allowRisky
    ensures exists events ::
      var w := Run(s, Init(chosen, now), events);
      w.jobs == [Job(call, Done(key, to, Some(0), true))] && w.spent == call.usd
  {
    assert ChainAllowed(s.opts, key) && RiskAccepted(s.opts, report);
    hide *;
    var es, w := GetsBooked(s, chosen, now, call, key, to);
    var u := GetsChecked(s, w, key, to, now, report);
    var v := GetsTraded(s, u, key, to, now, report);
    var es' := InARow(s, Init(chosen, now), es, report, w, u, v);
  }

  lemma InARow(s: Setup, w0: World, es: seq<Event>, report: RiskScore.Report, w: World, u: World, v: World)
    returns (es': seq<Event>)
    requires w == Run(s, w0, es)
    requires u == Step(s, Step(s, Step(s, Step(s, w, Advance(0, true)), Safety(RiskCache.Look(0))),
      Safety(RiskCache.Answer(0, Ok(report)))), Safety(RiskCache.Store(0)))
    requires v == Step(s, Step(s, Step(s, u, Advance(0, true)), Advance(0, true)), Advance(0, true))
    ensures v == Run(s, w0, es')
  {
    var a := Advance(0, true);
    var (e, f, g) := (Safety(RiskCache.Look(0)), Safety(RiskCache.Answer(0, Ok(report))), Safety(RiskCache.Store(0)));
    hide *;
    FourMore(s, w0, es, a, e, f, g);
    es' := es + [a] + [e] + [f] + [g];
    FourMore(s, w0, es', a, a, a, a);
    es' := es' + [a] + [a] + [a];
  }

  /** The settings can be changed to any configured chain meanwhile, or become unreadable, and to no other. */
  lemma ChoosesConfigured(s: Setup, w: World, chosen: Option<string>)
    ensures Step(s, w, Choose(chosen)) ==
      if chosen.Some? ==> chosen.value in s.configured then World(w.spent, w.jobs, chosen, w.safety) else w
  {}

  // ---------------------------------------------------------------- bookings

  lemma BookingStays(s: Setup, w: World, e: Event, i: nat)
    requires i < |w.jobs| && IsBooked(w.jobs[i])
    ensures var v := Step(s, w, e);
      i < |v.jobs| && IsBooked(v.jobs[i]) && v.jobs[i].call == w.jobs[i].call
  {
    hide RiskCache.Step, RiskCache.ShouldCheck, Resolved, ChainAllowed, RiskAccepted, Budget;
  }

  /** Nothing is ever given back: what was booked stays booked, whether the swap failed or was refused later. */
  lemma {:induction false} BookingsStay(s: Setup, w: World, events: seq<Event>, i: nat)
    requires i < |w.jobs| && IsBooked(w.jobs[i])
    ensures var v := Run(s, w, events);
      i < |v.jobs| && IsBooked(v.jobs[i]) && v.jobs[i].call == w.jobs[i].call
  {
    if events != [] {
      BookingsStay(s, w, events[..|events| - 1], i);
      hide Step;
      BookingStays(s, Run(s, w, events[..|events| - 1]), events[|events| - 1], i);
    }
  }

  /** So a call on a chain that is not allowed never trades, and its amount is gone all the same. */
  lemma {:induction false} RefusalStillSpends(s: Setup, w: World, events: seq<Event>, i: nat)
    requires i < |w.jobs| && w.jobs[i].phase.Booked? && !ChainAllowed(s.opts, w.jobs[i].phase.key)
    ensures var v := Run(s, w, events);
      i < |v.jobs| && v.jobs[i].call == w.jobs[i].call && v.jobs[i].phase in {w.jobs[i].phase, TurnedDown(true)}
  {
    if events != [] {
      RefusalStillSpends(s, w, events[..|events| - 1], i);
      hide RiskCache.Step, RiskCache.ShouldCheck, Resolved, RiskAccepted, Budget;
    }
  }
}
