/**
 * Every run of the Swap-BTC panel inside its parent: keys, ticks, estimates, balance reloads, wallet
 * changes, and requests that are routed, answered or lost, in any order. The bag holds whatever is in flight.
 */
module SwapBtcRuns {
  import opened Text
  import opened Tokens
  import opened SwapBtc

  /** What the trading partner at the other end sees, in order. */
  datatype Entry = Asked(request: Request) | Answered(request: Request) | Failed | Sent(request: Request) | Settled

  datatype World = World(panel: Panel, wallet: bool, bag: multiset<Msg>, log: seq<Entry>)

  datatype Event =
    | Press(key: Key)
    | Reload(highlighted: Option<TokenInfo>)
    | SelectWallet(present: bool)
    | Deliver(msg: Msg)                    // a pending message reaches the parent, or through it the panel
    | Complete(call: Msg, ok: bool, belowMin: bool)  // a started call returns
    | Lose(msg: Msg)                       // a pending message never arrives

  function Init(parse: string -> Option<real>): World {
    World(NewPanel(parse), false, multiset{}, [])
  }

  function Put(bag: multiset<Msg>, cmd: Option<Msg>): multiset<Msg> {
    if cmd.Some? then bag + multiset{cmd.value} else bag
  }

  function Noted(log: seq<Entry>, cmd: Option<Msg>): seq<Entry> {
    match cmd
    case Some(QuoteRequest(r)) => log + [Asked(r)]
    case Some(ExecuteRequest(r)) => log + [Sent(r)]
    case _ => log
  }

  /** The panel handles a message; what it emits goes into the bag. */
  function Handle(w: World, msg: Msg): World {
    var (p, cmd) := Updated(w.panel, msg);
    w.(panel := p, bag := Put(w.bag, cmd), log := Noted(w.log, cmd))
  }

  /** The parent: requests start a call when a wallet is selected and vanish otherwise; results go to the panel. */
  function Route(w: World, msg: Msg): World {
    match msg
    case EstimateRequest(f, u) => if w.wallet then w.(bag := Put(w.bag, Some(EstimateCall(f, u)))) else w
    case QuoteRequest(r) => if w.wallet then w.(bag := Put(w.bag, Some(QuoteCall(r)))) else w
    case ExecuteRequest(r) => if w.wallet then w.(bag := Put(w.bag, Some(ExecuteCall(r)))) else w
    case QuoteResult(Ok(q)) => Handle(w.(log := w.log + [Answered(q.request)]), msg)
    case QuoteResult(Err(_)) => Handle(w.(log := w.log + [Failed]), msg)
    case ExecuteResult(_) => Handle(w.(log := w.log + [Settled]), msg)
    case EstimateResult(_) => Handle(w, msg)
    case Tick => Handle(w, msg)
    case _ => w.(bag := Put(w.bag, Some(msg))) // keys are not in the bag and calls complete on their own
  }

  function ResultOf(call: Msg, ok: bool, belowMin: bool): Option<Msg> {
    match call
    case QuoteCall(r) => Some(QuoteResult(if ok then Ok(FlowQuote(r, belowMin)) else Err("quote failed")))
    case EstimateCall(f, u) =>
      Some(EstimateResult(if ok then Ok(FlowQuote(Request(f, u, ""), belowMin)) else Err("estimate failed")))
    case ExecuteCall(_) => Some(ExecuteResult(ok))
    case _ => None
  }

  /** A call that was started can return either way. */
  lemma CallsReturn(r: Request, f: TokenInfo, u: string, low: bool)
    ensures ResultOf(QuoteCall(r), true, low) == Some(QuoteResult(Ok(FlowQuote(r, low))))
    ensures ResultOf(QuoteCall(r), false, low).Some? && ResultOf(QuoteCall(r), false, low).value.quote.Err?
    ensures ResultOf(EstimateCall(f, u), true, low) == Some(EstimateResult(Ok(FlowQuote(Request(f, u, ""), low))))
    ensures var failed := ResultOf(EstimateCall(f, u), false, low);
      failed.Some? && failed.value.estimate.Err?
    ensures ResultOf(ExecuteCall(r), low, low) == Some(ExecuteResult(low))
  {}

  /** One step. An event that is not possible changes nothing. */
  function Step(w: World, e: Event): World {
    match e
    case Press(k) => Handle(w, KeyPress(k))
    case Reload(t) => w.(panel := w.panel.(selected := t))
    case SelectWallet(b) => w.(wallet := b)
    case Deliver(m) => if m in w.bag then Route(w.(bag := w.bag - multiset{m}), m) else w
    case Complete(m, ok, low) =>
      if m in w.bag && ResultOf(m, ok, low).Some? then w.(bag := Put(w.bag - multiset{m}, ResultOf(m, ok, low))) else w
    case Lose(m) => w.(bag := w.bag - multiset{m})
  }

  function Run(w: World, events: seq<Event>): World {
    if events == [] then w else Step(Run(w, events[..|events| - 1]), events[|events| - 1])
  }

  // ---------------------------------------------------------------- what every run keeps

  predicate IsQuoteMsg(m: Msg) {
    m.QuoteRequest? || m.QuoteCall? || m.QuoteResult?
  }

  predicate IsExecuteMsg(m: Msg) {
    m.ExecuteRequest? || m.ExecuteCall? || m.ExecuteResult?
  }

  /** The request a quote message carries; a failed quote carries none. */
  predicate Carries(m: Msg, r: Request) {
    match m
    case QuoteRequest(q) => q == r
    case QuoteCall(q) => q == r
    case QuoteResult(Ok(q)) => q.request == r
    case _ => true
  }

  ghost predicate AtMostOne(bag: multiset<Msg>, isOne: Msg -> bool) {
    forall m :: m in bag && isOne(m) ==> bag[m] == 1 && forall n :: n in bag && isOne(n) ==> n == m
  }

  ghost predicate EndsWith(log: seq<Entry>, end: seq<Entry>) {
    |end| <= |log| && log[|log| - |end|..] == end
  }

  /** At most one quote and one execution are in flight, and only in the state that waits for them. */
  ghost predicate OneInFlight(w: World) {
    && AtMostOne(w.bag, IsQuoteMsg)
    && AtMostOne(w.bag, IsExecuteMsg)
    && (forall m :: m in w.bag && IsQuoteMsg(m) ==> w.panel.state == Quoting)
    && (forall m :: m in w.bag && IsExecuteMsg(m) ==> w.panel.state == Executing)
  }

  /** A preview shows a quote, no error, and a running countdown; the quote is for what the fields stand for. */
  ghost predicate PreviewShowsQuote(w: World) {
    w.panel.state == Preview ==>
      && w.panel.quote.Some? && w.panel.quoteErr == "" && 1 <= w.panel.countdown <= REFRESH_SECONDS
      && w.panel.quote.value.request == w.panel.Current()
  }

  /** Every execution was sent right after the answer to a quote of the very same request. */
  ghost predicate ExecutesWhatWasQuoted(log: seq<Entry>) {
    forall i :: 0 <= i < |log| && log[i].Sent? ==>
      i >= 2 && log[i - 1] == Answered(log[i].request) && log[i - 2] == Asked(log[i].request)
  }

  /** Nothing in flight that the panel waits for: only ticks and estimates. */
  ghost predicate Idle(bag: multiset<Msg>) {
    forall m :: m in bag ==> !IsQuoteMsg(m) && !IsExecuteMsg(m)
  }

  ghost predicate Waits(w: World, m: Msg) {
    if IsQuoteMsg(m) then
      w.panel.state == Quoting && Carries(m, w.panel.Current()) && EndsWith(w.log, [Asked(w.panel.Current())])
    else
      IsExecuteMsg(m) && w.panel.state == Executing
  }

  ghost predicate Rests(w: World) {
    w.panel.state == Preview ==>
      PreviewShowsQuote(w) && EndsWith(w.log, [Asked(w.panel.Current()), Answered(w.panel.Current())])
  }

  /** The invariant, with the one message the panel may be waiting for. */
  ghost predicate InvWith(w: World, pending: Option<Msg>) {
    && ExecutesWhatWasQuoted(w.log)
    && match pending
       case None => Idle(w.bag) && Rests(w)
       case Some(m) => m in w.bag && Idle(w.bag - multiset{m}) && Waits(w, m)
  }

  ghost predicate Inv(w: World) {
    exists pending :: InvWith(w, pending)
  }

  lemma {:induction false} InvAlways(w: World, events: seq<Event>)
    requires Inv(w)
    ensures Inv(Run(w, events))
  {
    if events != [] {
      var v, e := Run(w, events[..|events| - 1]), events[|events| - 1];
      InvAlways(w, events[..|events| - 1]);
      var pending :| InvWith(v, pending);
      var pending' := StepKeeps(v, pending, e);
      hide *;
      assert Step(v, e) == Run(w, events);
    }
  }

  lemma StepKeeps(w: World, pending: Option<Msg>, e: Event) returns (pending': Option<Msg>)
    requires InvWith(w, pending)
    ensures InvWith(Step(w, e), pending')
  {
    match e
    case Press(k) =>
      hide InvWith, Step;
      pending' := PressKeeps(w, pending, k);
    case Deliver(m) =>
      if m in w.bag {
        hide InvWith, Step;
        pending' := DeliverKeeps(w, pending, m);
      } else {
        assert Step(w, e) == w;
        hide InvWith, Step;
        pending' := pending;
      }
    case Complete(m, ok, low) =>
      hide InvWith, Step;
      pending' := CompleteKeeps(w, pending, m, ok, low);
    case Lose(m) =>
      hide InvWith, Step;
      pending' := LoseKeeps(w, pending, m);
    case _ =>
      hide TrimSpace, EndsWith, ExecutesWhatWasQuoted, Idle;
      pending' := pending;
  }

  // ---------------------------------------------------------------- one step at a time

  lemma IdlePut(bag: multiset<Msg>, cmd: Option<Msg>)
    requires Idle(bag)
    requires cmd.Some? ==> !IsQuoteMsg(cmd.value) && !IsExecuteMsg(cmd.value)
    ensures Idle(Put(bag, cmd))
  {}

  lemma PutTaken(bag: multiset<Msg>, m: Msg)
    ensures m in Put(bag, Some(m)) && Put(bag, Some(m)) - multiset{m} == bag
  {}

  lemma PutNone(bag: multiset<Msg>)
    ensures Put(bag, None) == bag
  {}

  lemma NoteOther(log: seq<Entry>, e: Entry)
    requires ExecutesWhatWasQuoted(log) && !e.Sent?
    ensures ExecutesWhatWasQuoted(log + [e])
    ensures EndsWith(log + [e], [e])
  {
    assert (log + [e])[|log|..] == [e];
  }

  lemma NoteSent(log: seq<Entry>, r: Request)
    requires ExecutesWhatWasQuoted(log) && EndsWith(log, [Asked(r), Answered(r)])
    ensures ExecutesWhatWasQuoted(log + [Sent(r)])
  {
    var tail := log[|log| - 2..];
    assert tail[0] == log[|log| - 2] && tail[1] == log[|log| - 1];
  }

  lemma NoteAnswered(log: seq<Entry>, r: Request)
    requires ExecutesWhatWasQuoted(log) && EndsWith(log, [Asked(r)])
    ensures ExecutesWhatWasQuoted(log + [Answered(r)])
    ensures EndsWith(log + [Answered(r)], [Asked(r), Answered(r)])
  {
    NoteOther(log, Answered(r));
    assert log[|log| - 1..][0] == log[|log| - 1];
    assert (log + [Answered(r)])[|log| - 1..] == [Asked(r), Answered(r)];
  }

  /** What a key can do: nothing while the panel waits, and never bring a preview up. */
  lemma KeyEffect(p: Panel, k: Key)
    ensures var (q, cmd) := KeyPressed(p, k);
      && (p.state in {Quoting, Executing} ==> q == p && cmd == None)
      && (q.state == Preview ==> q == p && cmd == None)
      && match cmd
         case None => true
         case Some(EstimateRequest(_, _)) => q.state == Form
         case Some(QuoteRequest(r)) => q.state == Quoting && r == q.Current()
         case Some(ExecuteRequest(r)) => p.state == Preview && q.state == Executing && r == p.Current()
         case _ => false
  {
    if p.state == Form && k.kind != EscKey {
      FormKeyEffect(p, k);
      hide FormKeyPressed;
    }
  }

  lemma FormKeyEffect(p: Panel, k: Key)
    ensures var (q, cmd) := FormKeyPressed(p, k);
      && (p.state == Form ==> q.state in {Form, Quoting})
      && match cmd
         case None => true
         case Some(EstimateRequest(_, _)) => q.state == p.state
         case Some(QuoteRequest(r)) => q.state == Quoting && r == q.Current()
         case _ => false
  {
    hide TrimSpace;
  }

  lemma PressKeeps(w: World, pending: Option<Msg>, k: Key) returns (pending': Option<Msg>)
    requires InvWith(w, pending)
    ensures InvWith(Step(w, Press(k)), pending')
  {
    KeyEffect(w.panel, k);
    var (q, cmd) := KeyPressed(w.panel, k);
    var w' := Step(w, Press(k));
    assert w' == w.(panel := q, bag := Put(w.bag, cmd), log := Noted(w.log, cmd));
    hide KeyPressed, Step;
    if pending.Some? {
      return pending;
    }
    match cmd {
      case Some(QuoteRequest(r)) =>
        pending' := QuoteIsAsked(w, q);
      case Some(ExecuteRequest(r)) =>
        NoteSent(w.log, r);
        PutTaken(w.bag, cmd.value);
        pending' := cmd;
      case _ =>
        IdlePut(w.bag, cmd);
        pending' := None;
    }
  }

  lemma LoseKeeps(w: World, pending: Option<Msg>, m: Msg) returns (pending': Option<Msg>)
    requires InvWith(w, pending)
    ensures InvWith(Step(w, Lose(m)), pending')
  {
    var w' := w.(bag := w.bag - multiset{m});
    if pending == Some(m) {
      pending' := None;
    } else {
      pending' := pending;
      if pending.Some? {
        assert w'.bag - multiset{pending.value} <= w.bag - multiset{pending.value};
      }
    }
  }

  /** Taking a message that the panel does not wait for out of the bag, and putting another such one in. */
  lemma SwapIdle(w: World, pending: Option<Msg>, m: Msg, cmd: Option<Msg>, p: Panel)
    requires InvWith(w, pending) && m in w.bag && !IsQuoteMsg(m) && !IsExecuteMsg(m)
    requires cmd.Some? ==> !IsQuoteMsg(cmd.value) && !IsExecuteMsg(cmd.value)
    requires p.state == w.panel.state && p.Current() == w.panel.Current()
    requires p.state == Preview ==> p.quote == w.panel.quote && p.quoteErr == w.panel.quoteErr
    requires p.state == Preview && 1 <= w.panel.countdown <= REFRESH_SECONDS ==> 1 <= p.countdown <= REFRESH_SECONDS
    ensures InvWith(w.(bag := Put(w.bag - multiset{m}, cmd), panel := p), pending)
  {
    hide EndsWith, ExecutesWhatWasQuoted, TrimSpace;
    match pending
    case Some(a) =>
      IdlePut(w.bag - multiset{a} - multiset{m}, cmd);
      PutAround(w.bag, a, m, cmd);
    case None =>
      IdlePut(w.bag - multiset{m}, cmd);
  }

  lemma PutAround(bag: multiset<Msg>, a: Msg, m: Msg, cmd: Option<Msg>)
    requires a in bag && m in bag && a != m
    ensures a in Put(bag - multiset{m}, cmd)
    ensures Put(bag - multiset{m}, cmd) - multiset{a} == Put(bag - multiset{a} - multiset{m}, cmd)
  {
    var rest := bag - multiset{m};
    assert a in rest && rest - multiset{a} == bag - multiset{a} - multiset{m};
    if cmd.Some? {
      assert rest + multiset{cmd.value} - multiset{a} == rest - multiset{a} + multiset{cmd.value};
    }
  }

  lemma CompleteKeeps(w: World, pending: Option<Msg>, m: Msg, ok: bool, low: bool) returns (pending': Option<Msg>)
    requires InvWith(w, pending)
    ensures InvWith(Step(w, Complete(m, ok, low)), pending')
  {
    var out := ResultOf(m, ok, low);
    if m !in w.bag || out.None? {
      pending' := pending;
    } else if pending == Some(m) {
      AwaitedCompletes(w, m, out.value, ok, low);
      pending' := out;
    } else {
      IsIdleMsg(w, pending, m);
      hide InvWith;
      SwapIdle(w, pending, m, out, w.panel);
      pending' := pending;
    }
  }

  lemma AwaitedCompletes(w: World, m: Msg, r: Msg, ok: bool, low: bool)
    requires InvWith(w, Some(m)) && ResultOf(m, ok, low) == Some(r)
    ensures InvWith(w.(bag := Put(w.bag - multiset{m}, Some(r))), Some(r))
  {
    PutTaken(w.bag - multiset{m}, r);
    hide Put, EndsWith, ExecutesWhatWasQuoted, TrimSpace, Idle;
  }

  lemma IsIdleMsg(w: World, pending: Option<Msg>, m: Msg)
    requires InvWith(w, pending) && m in w.bag && pending != Some(m)
    ensures !IsQuoteMsg(m) && !IsExecuteMsg(m)
  {
    if pending.Some? {
      assert m in w.bag - multiset{pending.value};
    }
  }

  lemma DeliverKeeps(w: World, pending: Option<Msg>, m: Msg) returns (pending': Option<Msg>)
    requires InvWith(w, pending) && m in w.bag
    ensures InvWith(Step(w, Deliver(m)), pending')
  {
    if pending == Some(m) {
      pending' := AwaitedArrives(w, m);
    } else {
      IsIdleMsg(w, pending, m);
      if m == Tick {
        pending' := TickKeeps(w, pending);
      } else {
        pending' := pending;
        OtherArrives(w, pending, m);
      }
    }
  }

  lemma OtherArrives(w: World, pending: Option<Msg>, m: Msg)
    requires InvWith(w, pending) && m in w.bag && !IsQuoteMsg(m) && !IsExecuteMsg(m) && m != Tick
    ensures InvWith(Step(w, Deliver(m)), pending)
  {
    hide InvWith, TrimSpace;
    var bag := w.bag - multiset{m};
    match m {
      case EstimateRequest(f, u) =>
        SwapIdle(w, pending, m, if w.wallet then Some(EstimateCall(f, u)) else None, w.panel);
      case EstimateResult(_) =>
        SwapShown(w, pending, m, Updated(w.panel, m).0);
      case _ =>
        SwapIdle(w, pending, m, Some(m), w.panel);
    }
  }

  /** An estimate changes nothing but what is shown under the amount. */
  lemma SwapShown(w: World, pending: Option<Msg>, m: Msg, p: Panel)
    requires InvWith(w, pending) && m in w.bag && m.EstimateResult?
    requires p == Updated(w.panel, m).0
    ensures InvWith(w.(bag := w.bag - multiset{m}, panel := p), pending)
  {
    hide EndsWith, ExecutesWhatWasQuoted, TrimSpace, Idle;
    SwapIdle(w, pending, m, None, p);
  }

  lemma TickKeeps(w: World, pending: Option<Msg>) returns (pending': Option<Msg>)
    requires InvWith(w, pending) && Tick in w.bag
    ensures InvWith(Step(w, Deliver(Tick)), pending')
  {
    var (q, cmd) := Updated(w.panel, Tick);
    assert Step(w, Deliver(Tick)) == w.(panel := q, bag := Put(w.bag - multiset{Tick}, cmd), log := Noted(w.log, cmd));
    if w.panel.state == Preview && w.panel.countdown <= 1 {
      pending' := LastTick(w, pending, q, cmd);
    } else {
      hide Step, InvWith, TrimSpace;
      SwapIdle(w, pending, Tick, cmd, q);
      pending' := pending;
    }
  }

  lemma LastTick(w: World, pending: Option<Msg>, q: Panel, cmd: Option<Msg>) returns (pending': Option<Msg>)
    requires InvWith(w, pending) && Tick in w.bag && w.panel.state == Preview && w.panel.countdown <= 1
    requires (q, cmd) == Updated(w.panel, Tick)
    ensures InvWith(w.(panel := q, bag := Put(w.bag - multiset{Tick}, cmd), log := Noted(w.log, cmd)), pending')
  {
    var bag := w.bag - multiset{Tick};
    assert pending == None && Idle(bag);
    assert q.state == Quoting && (cmd.Some? ==> cmd.value == QuoteRequest(q.Current()));
    hide Updated, TrimSpace;
    if cmd.Some? {
      pending' := QuoteIsAsked(w.(bag := bag), q);
    } else {
      PutNone(bag);
      pending' := None;
    }
  }

  lemma QuoteIsAsked(w: World, q: Panel) returns (pending: Option<Msg>)
    requires ExecutesWhatWasQuoted(w.log) && Idle(w.bag) && q.state == Quoting
    ensures var cmd := Some(QuoteRequest(q.Current()));
      InvWith(w.(panel := q, bag := Put(w.bag, cmd), log := Noted(w.log, cmd)), pending)
  {
    hide TrimSpace;
    NoteOther(w.log, Asked(q.Current()));
    PutTaken(w.bag, QuoteRequest(q.Current()));
    hide Put, EndsWith, ExecutesWhatWasQuoted, Idle;
    pending := Some(QuoteRequest(q.Current()));
  }

  lemma AwaitedArrives(w: World, m: Msg) returns (pending': Option<Msg>)
    requires InvWith(w, Some(m))
    ensures InvWith(Step(w, Deliver(m)), pending')
  {
    if m.QuoteResult? || m.ExecuteResult? {
      ResultArrives(w, m);
      pending' := None;
    } else {
      pending' := RequestArrives(w, m);
    }
  }

  function Started(w: World, m: Msg): Option<Msg> {
    match m
    case QuoteRequest(r) => if w.wallet then Some(QuoteCall(r)) else None
    case ExecuteRequest(r) => if w.wallet then Some(ExecuteCall(r)) else None
    case _ => Some(m)
  }

  lemma RequestStep(w: World, m: Msg)
    requires m in w.bag && (IsQuoteMsg(m) || IsExecuteMsg(m)) && !m.QuoteResult? && !m.ExecuteResult?
    ensures Step(w, Deliver(m)) == w.(bag := Put(w.bag - multiset{m}, Started(w, m)))
  {}

  lemma RequestArrives(w: World, m: Msg) returns (pending': Option<Msg>)
    requires InvWith(w, Some(m)) && !m.QuoteResult? && !m.ExecuteResult?
    ensures InvWith(Step(w, Deliver(m)), pending') && pending' == Started(w, m)
  {
    hide Step, EndsWith, ExecutesWhatWasQuoted, TrimSpace, Idle, Put;
    RequestStep(w, m);
    pending' := Started(w, m);
    if pending'.Some? {
      PutTaken(w.bag - multiset{m}, pending'.value);
    } else {
      PutNone(w.bag - multiset{m});
    }
  }

  lemma ResultArrives(w: World, m: Msg)
    requires InvWith(w, Some(m)) && (m.QuoteResult? || m.ExecuteResult?)
    ensures InvWith(Step(w, Deliver(m)), None)
  {
    var bag := w.bag - multiset{m};
    var (q, cmd) := Updated(w.panel, m);
    var e := match m
      case QuoteResult(Ok(a)) => Answered(a.request)
      case QuoteResult(Err(_)) => Failed
      case _ => Settled;
    assert Step(w, Deliver(m)) == w.(panel := q, bag := Put(bag, cmd), log := w.log + [e]);
    hide Step, TrimSpace;
    NoteOther(w.log, e);
    IdlePut(bag, cmd);
    if e.Answered? {
      NoteAnswered(w.log, e.request);
    }
  }

  // ---------------------------------------------------------------- safety of every run

  lemma InvIsSafe(w: World, pending: Option<Msg>)
    requires InvWith(w, pending)
    ensures OneInFlight(w) && PreviewShowsQuote(w)
  {
    hide EndsWith, ExecutesWhatWasQuoted, TrimSpace;
    if pending.Some? {
      forall m | m in w.bag && (IsQuoteMsg(m) || IsExecuteMsg(m))
        ensures m == pending.value && w.bag[m] == 1
      {
        OnlyOne(w.bag, pending.value, m);
      }
    }
  }

  lemma OnlyOne(bag: multiset<Msg>, a: Msg, m: Msg)
    requires a in bag && Idle(bag - multiset{a}) && m in bag && (IsQuoteMsg(m) || IsExecuteMsg(m))
    ensures m == a && bag[m] == 1
  {
    assert m !in bag - multiset{a};
    assert (bag - multiset{a})[m] == if m == a then bag[m] - 1 else bag[m];
  }

  /** From the start, whatever happens in whatever order. */
  lemma RunIsSafe(parse: string -> Option<real>, events: seq<Event>)
    ensures var w := Run(Init(parse), events);
      OneInFlight(w) && PreviewShowsQuote(w) && ExecutesWhatWasQuoted(w.log)
  {
    assert InvWith(Init(parse), None);
    InvAlways(Init(parse), events);
    var pending :| InvWith(Run(Init(parse), events), pending);
    hide Run;
    InvIsSafe(Run(Init(parse), events), pending);
  }

  // ---------------------------------------------------------------- waiting for an answer that cannot come

  /** The panel waits, but what it waits for is not in flight. */
  ghost predicate Marooned(w: World) {
    w.panel.state in {Quoting, Executing} && Idle(w.bag)
  }

  /** Then it waits for ever: no key, reload or wallet change ends it. */
  lemma {:induction false} MaroonedForEver(w: World, events: seq<Event>)
    requires Marooned(w)
    ensures Marooned(Run(w, events)) && Run(w, events).panel.state == w.panel.state
  {
    if events != [] {
      var v, e := Run(w, events[..|events| - 1]), events[|events| - 1];
      MaroonedForEver(w, events[..|events| - 1]);
      MaroonedStep(v, e);
      hide *;
      assert Step(v, e) == Run(w, events);
    }
  }

  lemma MaroonedStep(w: World, e: Event)
    requires Marooned(w)
    ensures Marooned(Step(w, e)) && Step(w, e).panel.state == w.panel.state
  {
    match e
    case Press(k) => KeyEffect(w.panel, k);
    case Deliver(m) => if m in w.bag { MaroonedDeliver(w, m); }
    case Complete(m, ok, low) =>
      if m in w.bag && ResultOf(m, ok, low).Some? {
        IdlePut(w.bag - multiset{m}, ResultOf(m, ok, low));
      }
    case _ =>
  }

  lemma MaroonedDeliver(w: World, m: Msg)
    requires Marooned(w) && m in w.bag
    ensures Marooned(Step(w, Deliver(m))) && Step(w, Deliver(m)).panel.state == w.panel.state
  {
    var bag := w.bag - multiset{m};
    assert Idle(bag);
    hide TrimSpace, Put, KeyPressed, QuoteAsked;
    match m {
      case EstimateRequest(f, u) => IdlePut(bag, Some(EstimateCall(f, u)));
      case KeyPress(_) => IdlePut(bag, Some(m));
      case EstimateCall(_, _) => IdlePut(bag, Some(m));
      case _ =>
    }
  }

  /** Exactly when a waiting panel can go on: the message it waits for is still in flight. */
  lemma WaitingEndsOnlyByAnswer(w: World)
    requires Inv(w) && w.panel.state in {Quoting, Executing}
    ensures (exists events :: Run(w, events).panel.state != w.panel.state) <==> !Idle(w.bag)
  {
    if Idle(w.bag) {
      forall events
        ensures Run(w, events).panel.state == w.panel.state
      {
        MaroonedForEver(w, events);
      }
    } else {
      var pending :| InvWith(w, pending);
      hide TrimSpace;
      assert pending.Some?;
      var events := WayOut(w, pending.value);
    }
  }

  /** Select a wallet, hand the request over, let the call return, deliver the result. */
  lemma WayOut(w: World, m: Msg) returns (events: seq<Event>)
    requires InvWith(w, Some(m))
    ensures Run(w, events).panel.state != w.panel.state
  {
    if m.QuoteResult? || m.ExecuteResult? {
      events := WayOutOfResult(w, m);
    } else if m.QuoteCall? || m.ExecuteCall? {
      events := WayOutOfCall(w, m);
    } else {
      events := WayOutOfRequest(w, m);
    }
  }

  lemma WayOutOfRequest(w: World, m: Msg) returns (events: seq<Event>)
    requires InvWith(w, Some(m)) && (m.QuoteRequest? || m.ExecuteRequest?)
    ensures Run(w, events).panel.state != w.panel.state
  {
    hide EndsWith, ExecutesWhatWasQuoted, TrimSpace, Idle;
    var v := Step(w, SelectWallet(true));
    assert v == w.(wallet := true);
    assert InvWith(v, Some(m));
    hide Run, InvWith, TrimSpace;
    var call := RequestArrives(v, m);
    RequestStep(v, m);
    assert call.Some? && (call.value.QuoteCall? || call.value.ExecuteCall?);
    hide Step;
    var rest := WayOutOfCall(Step(v, Deliver(m)), call.value);
    RunCons(v, Deliver(m), rest);
    RunCons(w, SelectWallet(true), [Deliver(m)] + rest);
    events := [SelectWallet(true)] + ([Deliver(m)] + rest);
  }

  lemma WayOutOfCall(w: World, m: Msg) returns (events: seq<Event>)
    requires InvWith(w, Some(m)) && (m.QuoteCall? || m.ExecuteCall?)
    ensures Run(w, events).panel.state != w.panel.state
  {
    var r := ResultOf(m, false, false).value;
    AwaitedCompletes(w, m, r, false, false);
    var v := Step(w, Complete(m, false, false));
    assert v == w.(bag := Put(w.bag - multiset{m}, Some(r)));
    var rest := WayOutOfResult(v, r);
    hide Run, Step, InvWith;
    RunCons(w, Complete(m, false, false), rest);
    events := [Complete(m, false, false)] + rest;
  }

  lemma WayOutOfResult(w: World, m: Msg) returns (events: seq<Event>)
    requires InvWith(w, Some(m)) && (m.QuoteResult? || m.ExecuteResult?)
    ensures Run(w, events).panel.state != w.panel.state
  {
    hide TrimSpace, EndsWith, ExecutesWhatWasQuoted, Idle;
    events := [Deliver(m)];
    RunOne(w, Deliver(m));
  }

  lemma RunOne(w: World, e: Event)
    ensures Run(w, [e]) == Step(w, e)
  {
    assert [e][..0] == [];
    assert Run(w, []) == w;
    hide Step;
  }

  lemma {:induction false} RunCons(w: World, e: Event, rest: seq<Event>)
    ensures Run(w, [e] + rest) == Run(Step(w, e), rest)
  {
    hide Step;
    if rest == [] {
      RunOne(w, e);
      assert [e] + rest == [e];
    } else {
      var n := |rest| - 1;
      RunCons(w, e, rest[..n]);
      assert ([e] + rest)[..n + 1] == [e] + rest[..n];
    }
  }

  /** A quote is asked for without a request exactly when no token is highlighted at that moment. */
  lemma MaroonedWhenNothingSelected(w: World, e: Event)
    requires Inv(w) && w.panel.state != Quoting && Step(w, e).panel.state == Quoting
    ensures Marooned(Step(w, e)) <==> w.panel.selected.None?
  {
    var pending :| InvWith(w, pending);
    hide TrimSpace, EndsWith, ExecutesWhatWasQuoted;
    var v := Step(w, e);
    match e
    case Press(k) =>
      AskEffect(w.panel, KeyPress(k));
      EntryBag(w.bag, Updated(w.panel, KeyPress(k)).1, v.bag);
    case Deliver(m) =>
      DeliveredEntry(w, pending, m);
    case _ =>
  }

  lemma DeliveredEntry(w: World, pending: Option<Msg>, m: Msg)
    requires InvWith(w, pending) && w.panel.state != Quoting && Step(w, Deliver(m)).panel.state == Quoting
    ensures Idle(Step(w, Deliver(m)).bag) <==> w.panel.selected.None?
  {
    hide TrimSpace, EndsWith, ExecutesWhatWasQuoted;
    assert m == Tick && w.panel.state == Preview;
    assert pending == None;
    AskEffect(w.panel, Tick);
    EntryBag(w.bag - multiset{m}, Updated(w.panel, m).1, Step(w, Deliver(m)).bag);
  }

  lemma AskEffect(p: Panel, msg: Msg)
    requires msg.KeyPress? || msg == Tick
    requires p.state != Quoting && Updated(p, msg).0.state == Quoting
    ensures p.state in {Form, Preview}
    ensures Updated(p, msg).1.None? <==> p.selected.None?
    ensures Updated(p, msg).1.Some? ==> IsQuoteMsg(Updated(p, msg).1.value)
  {}

  lemma EntryBag(bag: multiset<Msg>, cmd: Option<Msg>, after: multiset<Msg>)
    requires Idle(bag) && after == Put(bag, cmd) && (cmd.Some? ==> IsQuoteMsg(cmd.value))
    ensures Idle(after) <==> cmd.None?
  {
    if cmd.Some? {
      assert cmd.value in after;
    }
  }

  /** A request that reaches the parent while no wallet is selected is dropped, and the panel is marooned. */
  lemma MaroonedWithoutWallet(w: World, m: Msg)
    requires InvWith(w, Some(m)) && (m.QuoteRequest? || m.ExecuteRequest?)
    ensures Marooned(Step(w, Deliver(m))) <==> !w.wallet
  {
    hide TrimSpace, EndsWith, ExecutesWhatWasQuoted;
    RequestStep(w, m);
    if w.wallet {
      PutTaken(w.bag - multiset{m}, Started(w, m).value);
    }
  }

  // ---------------------------------------------------------------- runs that do happen

  const ENTER := Key(EnterKey, "enter", None, "")

  function Typed(text: string): Event {
    Press(Key(OtherKey, "", None, text))
  }

  /** The form is filled in and enter asks for a quote; nothing awaited is in flight. */
  ghost predicate Ready(w: World) {
    && w.panel.state == Form && w.panel.field == AddrField && w.panel.selected.Some?
    && w.panel.InputsValid() && !w.panel.BelowMinimum() && Idle(w.bag)
  }

  /** The request a ready form asks with. */
  function Asking(p: Panel): Request
    requires p.selected.Some?
  {
    Request(p.selected.value, TrimSpace(p.amount), TrimSpace(p.addr))
  }

  lemma RunLast(w: World, es: seq<Event>, e: Event)
    ensures Run(w, es + [e]) == Step(Run(w, es), e)
  {
    hide Step;
    assert (es + [e])[..|es|] == es;
  }

  predicate Fillable(parse: string -> Option<real>, usd: string, addr: string) {
    parse(TrimSpace(usd)).Some? && parse(TrimSpace(usd)).value > 0.0 && |TrimSpace(addr)| >= MIN_BTC_ADDR_LEN
  }

  /** A wallet is selected and a token is chosen: the amount is next. */
  lemma TokenChosen(parse: string -> Option<real>, token: TokenInfo) returns (es: seq<Event>, w: World)
    ensures w == Run(Init(parse), es) && Reload(None) !in es
    ensures w == World(NewPanel(parse).(selected := Some(token), field := AmountField), true, multiset{}, [])
  {
    var w2 := TokenLoaded(parse, token);
    w := LeavesToken(w2);
    var (e0, e1) := (SelectWallet(true), Reload(Some(token)));
    es := [e0, e1] + [Press(ENTER)];
    hide *;
    RunLast(Init(parse), [e0, e1], Press(ENTER));
  }

  lemma TokenLoaded(parse: string -> Option<real>, token: TokenInfo) returns (w: World)
    ensures w == Run(Init(parse), [SelectWallet(true), Reload(Some(token))])
    ensures w == World(NewPanel(parse).(selected := Some(token)), true, multiset{}, [])
  {
    var (e0, e1) := (SelectWallet(true), Reload(Some(token)));
    w := Step(Step(Init(parse), e0), e1);
    assert Run(Init(parse), []) == Init(parse);
    hide Step, Run, Init;
    RunLast(Init(parse), [], e0);
    RunLast(Init(parse), [e0], e1);
    assert [] + [e0] == [e0] && [e0] + [e1] == [e0, e1];
  }

  lemma LeavesToken(w: World) returns (v: World)
    requires w.panel.state == Form && w.panel.field == TokenField && w.panel.selected.Some?
    ensures v == Step(w, Press(ENTER)) && v == w.(panel := w.panel.(field := AmountField))
  {
    hide TrimSpace;
    v := Step(w, Press(ENTER));
    assert v.bag == w.bag && v.log == w.log;
  }

  lemma TypesAmount(w: World, usd: string) returns (v: World)
    requires w.panel.state == Form && w.panel.field == AmountField
    ensures v == Step(w, Typed(usd))
    ensures v == w.(panel := w.panel.(amount := usd, estimate := None, estimateErr := ""))
  {
    hide TrimSpace;
    v := Step(w, Typed(usd));
    assert v.bag == w.bag && v.log == w.log;
  }

  lemma LeavesAmount(w: World) returns (v: World)
    requires w.panel.state == Form && w.panel.field == AmountField && w.panel.selected.Some? && w.bag == multiset{}
    requires w.panel.PositiveAmount() && w.panel.estimate.None?
    ensures v == Step(w, Press(ENTER)) && Idle(v.bag) && Tick !in v.bag && v.wallet == w.wallet
    ensures v.panel.state == Form && v.panel.field == AddrField && v.panel.selected == w.panel.selected
    ensures v.panel.PositiveAmount() && v.panel.estimate.None?
  {
    hide TrimSpace;
    v := Step(w, Press(ENTER));
  }

  /** And an amount is typed: the address is next. */
  lemma AmountTyped(parse: string -> Option<real>, token: TokenInfo, usd: string) returns (es: seq<Event>, w: World)
    requires parse(TrimSpace(usd)).Some? && parse(TrimSpace(usd)).value > 0.0
    ensures w == Run(Init(parse), es) && Reload(None) !in es
    ensures w.panel.state == Form && w.panel.field == AddrField && w.panel.selected == Some(token)
    ensures w.panel.PositiveAmount() && w.panel.estimate.None? && w.wallet && Idle(w.bag) && Tick !in w.bag
  {
    hide TrimSpace, Step, Run, Init;
    var es0, w0 := TokenChosen(parse, token);
    var w1 := TypesAmount(w0, usd);
    w := LeavesAmount(w1);
    RunLast(Init(parse), es0, Typed(usd));
    RunLast(Init(parse), es0 + [Typed(usd)], Press(ENTER));
    es := es0 + [Typed(usd)] + [Press(ENTER)];
  }

  lemma FormFilled(parse: string -> Option<real>, token: TokenInfo, usd: string, addr: string)
    returns (es: seq<Event>, w: World)
    requires Fillable(parse, usd, addr)
    ensures w == Run(Init(parse), es) && Reload(None) !in es
    ensures Ready(w) && w.wallet && Tick !in w.bag
  {
    var es0, w0 := AmountTyped(parse, token, usd);
    w := AddressTyped(w0, addr);
    es := es0 + [Typed(addr)];
    hide *;
    RunLast(Init(parse), es0, Typed(addr));
  }

  lemma AddressTyped(w: World, addr: string) returns (v: World)
    requires w.panel.state == Form && w.panel.field == AddrField && w.panel.selected.Some?
    requires w.panel.PositiveAmount() && w.panel.estimate.None? && Idle(w.bag) && |TrimSpace(addr)| >= MIN_BTC_ADDR_LEN
    ensures v == Step(w, Typed(addr)) && v == w.(panel := w.panel.(addr := addr)) && Ready(v)
  {
    hide TrimSpace, Idle;
    v := Step(w, Typed(addr));
    assert v.bag == w.bag && v.log == w.log;
  }

  /** Enter on a ready form sends its request. */
  lemma Asks(w: World) returns (v: World)
    requires Ready(w)
    ensures var r := Asking(w.panel);
      && v == Step(w, Press(ENTER)) && v.panel == w.panel.(state := Quoting, quoteErr := "", from := r.from)
      && v.bag == w.bag + multiset{QuoteRequest(r)} && v.wallet == w.wallet && v.log == w.log + [Asked(r)]
      && v.panel.Current() == r
  {
    hide TrimSpace, Idle;
    v := Step(w, Press(ENTER));
  }

  /**
   * The last wallet goes away while the panel keeps its list, and the form is sent: the request is dropped, and the
   * panel waits for ever.
   */
  lemma MaroonedIsReachable(parse: string -> Option<real>, token: TokenInfo, usd: string, addr: string,
      events: seq<Event>)
    returns (run: seq<Event>)
    requires Fillable(parse, usd, addr)
    ensures var w := Run(Init(parse), run);
      && Reload(None) !in run && w.panel.selected.Some? && !w.wallet
      && Marooned(w) && w.panel.state == Quoting && Run(w, events).panel.state == Quoting
  {
    var es, w0 := FormFilled(parse, token, usd, addr);
    var w1 := WalletGoes(w0);
    hide *;
    var w2 := Asks(w1);
    var r := Asking(w1.panel);
    var w3 := Dropped(w2, w1.bag, r);
    var es1 := es + [SelectWallet(false)];
    var es2 := es1 + [Press(ENTER)];
    RunLast(Init(parse), es, SelectWallet(false));
    RunLast(Init(parse), es1, Press(ENTER));
    RunLast(Init(parse), es2, Deliver(QuoteRequest(r)));
    run := es2 + [Deliver(QuoteRequest(r))];
    MaroonedForEver(w3, events);
  }

  lemma WalletGoes(w: World) returns (v: World)
    requires Ready(w)
    ensures v == Step(w, SelectWallet(false)) && v == w.(wallet := false)
    ensures Ready(v) && Idle(v.bag) && v.panel.selected.Some?
  {
    v := Step(w, SelectWallet(false));
  }

  lemma Dropped(w: World, bag: multiset<Msg>, r: Request) returns (v: World)
    requires w.bag == bag + multiset{QuoteRequest(r)} && Idle(bag) && !w.wallet && w.panel.state == Quoting
    ensures v == Step(w, Deliver(QuoteRequest(r))) && v == w.(bag := bag) && Marooned(v)
  {
    hide Idle;
    v := Step(w, Deliver(QuoteRequest(r)));
    assert w.bag - multiset{QuoteRequest(r)} == bag;
  }
}
