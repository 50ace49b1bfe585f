/**
 * The countdowns of the Swap-BTC panel. Every answered quote starts one, nothing stops one but its tick arriving
 * outside a preview, and every tick that arrives in a preview counts.
 */
module SwapBtcCountdowns {
  import opened Text
  import opened Tokens
  import opened SwapBtc
  import opened SwapBtcRuns

  /** An answered quote arrives. */
  predicate Answers(w: World, e: Event) {
    e.Deliver? && e.msg in w.bag && e.msg.QuoteResult? && e.msg.quote.Ok?
  }

  // ---------------------------------------------------------------- ticks in flight

  /** Only an answered quote adds to the ticks in flight, and it always adds one. */
  lemma OnlyAnswersStartCountdowns(w: World, e: Event)
    ensures Answers(w, e) ==> Step(w, e).bag[Tick] == w.bag[Tick] + 1 && Step(w, e).panel.state == Preview
    ensures !Answers(w, e) ==> Step(w, e).bag[Tick] <= w.bag[Tick]
  {
    hide TrimSpace, Put;
    match e
    case Press(k) =>
      KeyEffect(w.panel, k);
      PutTicks(w.bag, KeyPressed(w.panel, k).1);
    case Deliver(m) =>
      if m in w.bag {
        DeliveredTicks(w, m);
      }
    case Complete(m, ok, low) =>
      PutTicks(w.bag - multiset{m}, ResultOf(m, ok, low));
    case _ =>
  }

  lemma PutTicks(bag: multiset<Msg>, cmd: Option<Msg>)
    ensures Put(bag, cmd)[Tick] == bag[Tick] + if cmd == Some(Tick) then 1 else 0
  {}

  lemma DeliveredTicks(w: World, m: Msg)
    requires m in w.bag
    ensures var started := m.QuoteResult? && m.quote.Ok?;
      && (started ==> Step(w, Deliver(m)).bag[Tick] == w.bag[Tick] + 1 && Step(w, Deliver(m)).panel.state == Preview)
      && (!started ==> Step(w, Deliver(m)).bag[Tick] <= w.bag[Tick])
  {
    hide TrimSpace, Put;
    var cmd := match m
      case EstimateRequest(f, u) => if w.wallet then Some(EstimateCall(f, u)) else None
      case QuoteRequest(_) => Started(w, m)
      case ExecuteRequest(_) => Started(w, m)
      case EstimateResult(_) => None
      case QuoteResult(_) => Updated(w.panel, m).1
      case ExecuteResult(_) => None
      case Tick => Updated(w.panel, m).1
      case _ => Some(m);
    PutNone(w.bag - multiset{m});
    PutTicks(w.bag - multiset{m}, cmd);
    assert Step(w, Deliver(m)).bag == Put(w.bag - multiset{m}, cmd);
  }

  // ---------------------------------------------------------------- exactly when two countdowns run at once

  /** At some moment of the run more than one tick is in flight. */
  ghost predicate TwoAtOnce(w: World, events: seq<Event>) {
    exists k :: 0 <= k <= |events| && Run(w, events[..k]).bag[Tick] > 1
  }

  /** Some event of the run is an answered quote arriving while the tick of an earlier one is still in flight. */
  ghost predicate AnsweredOverTick(w: World, events: seq<Event>) {
    exists k :: 0 <= k < |events| && OverTick(Run(w, events[..k]), events[k])
  }

  predicate OverTick(w: World, e: Event) {
    Answers(w, e) && w.bag[Tick] >= 1
  }

  lemma StepOfRun(w: World, events: seq<Event>, k: nat)
    requires k < |events|
    ensures Run(w, events[..k + 1]) == Step(Run(w, events[..k]), events[k])
  {
    assert events[..k + 1] == events[..k] + [events[k]];
    RunLast(w, events[..k], events[k]);
  }

  lemma {:induction false} OneAtATime(w: World, events: seq<Event>, k: nat)
    requires w.bag[Tick] <= 1 && k <= |events| && !AnsweredOverTick(w, events)
    ensures Run(w, events[..k]).bag[Tick] <= 1
  {
    if k > 0 {
      OneAtATime(w, events, k - 1);
      StepOfRun(w, events, k - 1);
      assert !OverTick(Run(w, events[..k - 1]), events[k - 1]);
      hide Step, Run, AnsweredOverTick;
      var v := Run(w, events[..k - 1]);
      OnlyAnswersStartCountdowns(v, events[k - 1]);
    }
  }

  /**
   * Over every run: two countdowns run at once at some moment if and only if at some moment an answered quote
   * arrives while a tick is in flight.
   */
  lemma TwoCountdownsExactlyWhen(parse: string -> Option<real>, events: seq<Event>)
    ensures TwoAtOnce(Init(parse), events) <==> AnsweredOverTick(Init(parse), events)
  {
    var w := Init(parse);
    if AnsweredOverTick(w, events) {
      var k :| 0 <= k < |events| && OverTick(Run(w, events[..k]), events[k]);
      StepOfRun(w, events, k);
      hide Run, Step;
      OnlyAnswersStartCountdowns(Run(w, events[..k]), events[k]);
      assert Run(w, events[..k + 1]).bag[Tick] > 1;
    } else {
      forall k | 0 <= k <= |events|
        ensures Run(w, events[..k]).bag[Tick] <= 1
      {
        OneAtATime(w, events, k);
      }
    }
  }

  // ---------------------------------------------------------------- what that does to the countdown

  /** A tick that arrives in a preview takes one off the countdown, and is in flight again unless that was the last. */
  lemma TickCounts(w: World)
    requires w.panel.state == Preview && Tick in w.bag
    ensures var v := Step(w, Deliver(Tick));
      if w.panel.countdown > 1
      then v == w.(panel := w.panel.(countdown := w.panel.countdown - 1))
      else v.panel.state == Quoting && v.bag[Tick] == w.bag[Tick] - 1
  {
    hide TrimSpace;
    var (p, cmd) := Updated(w.panel, Tick);
    var bag := w.bag - multiset{Tick};
    assert Step(w, Deliver(Tick)) == w.(panel := p, bag := Put(bag, cmd), log := Noted(w.log, cmd));
    hide Step;
    if w.panel.countdown > 1 {
      assert bag + multiset{Tick} == w.bag;
    } else {
      assert cmd != Some(Tick);
      hide Updated;
      PutTicks(bag, cmd);
    }
  }

  function Ticks(n: nat): seq<Event> {
    seq(n, _ => Deliver(Tick))
  }

  /**
   * Each of `n` ticks in flight arrives once, as in every second: the countdown falls by `n`, not by one, and they
   * are all in flight again; or it runs out on the way.
   */
  lemma {:induction false} EveryTickCounts(w: World, n: nat)
    requires w.panel.state == Preview && w.bag[Tick] >= n && Tick in w.bag && n <= w.panel.countdown
    ensures var v := Run(w, Ticks(n));
      if n < w.panel.countdown
      then v == w.(panel := w.panel.(countdown := w.panel.countdown - n))
      else n > 0 ==> v.panel.state == Quoting && v.bag[Tick] == w.bag[Tick] - 1
  {
    if n > 0 {
      EveryTickCounts(w, n - 1);
      var v := w.(panel := w.panel.(countdown := w.panel.countdown - (n - 1)));
      assert Run(w, Ticks(n - 1)) == v && v.panel.countdown == w.panel.countdown - n + 1;
      assert Ticks(n) == Ticks(n - 1) + [Deliver(Tick)];
      RunLast(w, Ticks(n - 1), Deliver(Tick));
      hide Step, Run, Ticks;
      TickCounts(v);
    }
  }

  // ---------------------------------------------------------------- any number of countdowns at once

  const NO := Key(OtherKey, "n", None, "")

  /** A ready form is sent and answered: one more countdown. */
  lemma AskedAndAnswered(w: World) returns (more: seq<Event>, v: World)
    requires Ready(w) && w.wallet
    ensures v == Run(w, more) && v.panel.state == Preview && v.panel.countdown == REFRESH_SECONDS
    ensures v.bag == w.bag + multiset{Tick} && v.wallet
    ensures v.panel.(state := Form, field := AddrField) ==
      w.panel.(from := v.panel.from, quote := v.panel.quote, quoteErr := "", countdown := REFRESH_SECONDS)
  {
    var r := Asking(w.panel);
    var q := FlowQuote(r, false);
    var w1 := Asks(w);
    var w2 := Started1(w1, w.bag, r);
    var w3 := Completed(w2, w.bag, r);
    v := Shown(w3, w.bag, q);
    hide *;
    var e1, e2 := Press(ENTER), Deliver(QuoteRequest(r));
    var e3, e4 := Complete(QuoteCall(r), true, false), Deliver(QuoteResult(Ok(q)));
    RunNothing(w);
    RunLast(w, [], e1);
    RunLast(w, [] + [e1], e2);
    RunLast(w, [] + [e1] + [e2], e3);
    RunLast(w, [] + [e1] + [e2] + [e3], e4);
    more := [] + [e1] + [e2] + [e3] + [e4];
  }

  lemma RunNothing(w: World)
    ensures Run(w, []) == w
  {}

  lemma Started1(w: World, bag: multiset<Msg>, r: Request) returns (v: World)
    requires w.wallet && w.bag == bag + multiset{QuoteRequest(r)}
    ensures v == Step(w, Deliver(QuoteRequest(r))) && v == w.(bag := bag + multiset{QuoteCall(r)})
  {
    v := Step(w, Deliver(QuoteRequest(r)));
    assert w.bag - multiset{QuoteRequest(r)} == bag;
  }

  lemma Completed(w: World, bag: multiset<Msg>, r: Request) returns (v: World)
    requires w.bag == bag + multiset{QuoteCall(r)}
    ensures v == Step(w, Complete(QuoteCall(r), true, false))
    ensures v == w.(bag := bag + multiset{QuoteResult(Ok(FlowQuote(r, false)))})
  {
    hide Handle, Route;
    var call := QuoteCall(r);
    var answer := QuoteResult(Ok(FlowQuote(r, false)));
    assert ResultOf(call, true, false) == Some(answer);
    assert w.bag - multiset{call} == bag;
    v := Step(w, Complete(call, true, false));
    assert v == w.(bag := Put(w.bag - multiset{call}, Some(answer)));
  }

  lemma Shown(w: World, bag: multiset<Msg>, q: FlowQuote) returns (v: World)
    requires w.bag == bag + multiset{QuoteResult(Ok(q))}
    ensures v == Step(w, Deliver(QuoteResult(Ok(q))))
    ensures v.panel == w.panel.(quote := Some(q), quoteErr := "", state := Preview, countdown := REFRESH_SECONDS)
    ensures v.bag == bag + multiset{Tick} && v.wallet == w.wallet
  {
    v := Step(w, Deliver(QuoteResult(Ok(q))));
    assert w.bag - multiset{QuoteResult(Ok(q))} == bag;
  }

  /** "n" goes back to the form; the tick stays in flight. */
  lemma BackToForm(w: World) returns (v: World)
    requires w.panel.state == Preview
    ensures v == Step(w, Press(NO)) && v == w.(panel := w.panel.(state := Form, field := AddrField))
  {
    v := Step(w, Press(NO));
    assert v.bag == w.bag && v.log == w.log;
  }

  /** Going back and sending the form again before the tick arrives: any number of countdowns can run at once. */
  lemma {:induction false} AnyNumberOfCountdowns(parse: string -> Option<real>, token: TokenInfo, usd: string,
      addr: string, n: nat)
    returns (run: seq<Event>)
    requires Fillable(parse, usd, addr) && n > 0
    ensures var w := Run(Init(parse), run);
      w.panel.state == Preview && w.panel.countdown == REFRESH_SECONDS && w.bag[Tick] == n
  {
    var w;
    run, w := Countdowns(parse, token, usd, addr, n);
  }

  lemma {:induction false} Countdowns(parse: string -> Option<real>, token: TokenInfo, usd: string, addr: string,
      n: nat)
    returns (run: seq<Event>, w: World)
    requires Fillable(parse, usd, addr) && n > 0
    ensures w == Run(Init(parse), run) && w.panel.state == Preview && w.panel.countdown == REFRESH_SECONDS
    ensures w.bag[Tick] == n && w.wallet && Ready(w.(panel := w.panel.(state := Form, field := AddrField)))
  {
    var es, v;
    if n == 1 {
      es, v := FormFilled(parse, token, usd, addr);
    } else {
      var es0, w0 := Countdowns(parse, token, usd, addr, n - 1);
      v := BackToForm(w0);
      RunLast(Init(parse), es0, Press(NO));
      es := es0 + [Press(NO)];
    }
    var more;
    more, w := AskedAndAnswered(v);
    StillReady(v, w);
    hide *;
    run := es + more;
    RunConcat(Init(parse), es, more);
  }

  lemma StillReady(v: World, w: World)
    requires Ready(v) && w.bag == v.bag + multiset{Tick}
    requires w.panel.(state := Form, field := AddrField) ==
      v.panel.(from := w.panel.from, quote := w.panel.quote, quoteErr := "", countdown := REFRESH_SECONDS)
    ensures Ready(w.(panel := w.panel.(state := Form, field := AddrField)))
  {
    hide TrimSpace;
  }

  lemma {:induction false} RunConcat(w: World, es: seq<Event>, more: seq<Event>)
    ensures Run(w, es + more) == Run(Run(w, es), more)
  {
    if more == [] {
      assert es + more == es;
    } else {
      var n := |more| - 1;
      RunConcat(w, es, more[..n]);
      assert (es + more)[..|es + more| - 1] == es + more[..n];
      hide Step;
    }
  }
}
