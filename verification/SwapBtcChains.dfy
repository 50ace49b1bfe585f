/**
 * The chain the panel's calls go to. The parent starts every call on its current connection, and switching the
 * network replaces the connection whatever the panel is doing.
 */
module SwapBtcChains {
  import opened Text
  import opened Tokens
  import opened SwapBtc
  import opened SwapBtcRuns
  import SwapBtcCountdowns

  /** Connections are numbered as they come; the log says which one a call was started on. */
  datatype Start = QuoteStarted(request: Request, on: nat) | ExecuteStarted(request: Request, on: nat) | Switched

  datatype Scene = Scene(world: World, current: nat, starts: seq<Start>)

  datatype Happening = Inner(event: Event) | Switch

  function Open(parse: string -> Option<real>): Scene {
    Scene(Init(parse), 0, [])
  }

  /** The call the parent starts. */
  function Starts(w: World, e: Event, on: nat): seq<Start> {
    if !e.Deliver? || e.msg !in w.bag || !w.wallet then []
    else match e.msg
      case QuoteRequest(r) => [QuoteStarted(r, on)]
      case ExecuteRequest(r) => [ExecuteStarted(r, on)]
      case _ => []
  }

  function Next(s: Scene, h: Happening): Scene {
    match h
    case Switch => s.(current := s.current + 1, starts := s.starts + [Switched])
    case Inner(e) => s.(world := Step(s.world, e), starts := s.starts + Starts(s.world, e, s.current))
  }

  function Play(s: Scene, hs: seq<Happening>): Scene {
    if hs == [] then s else Next(Play(s, hs[..|hs| - 1]), hs[|hs| - 1])
  }

  // ---------------------------------------------------------------- what every run keeps

  function Switches(starts: seq<Start>): nat {
    if starts == [] then 0
    else Switches(starts[..|starts| - 1]) + if starts[|starts| - 1].Switched? then 1 else 0
  }

  /** The position of the last call started; the length when there is none. */
  function LastCall(starts: seq<Start>): (j: nat)
    ensures j <= |starts|
    ensures j < |starts| ==> !starts[j].Switched? && forall k :: j < k < |starts| ==> starts[k].Switched?
  {
    if starts == [] then 0
    else
      var n := |starts| - 1;
      if !starts[n].Switched? then n
      else
        var j := LastCall(starts[..n]);
        if j == n then n + 1 else j
  }

  /** The last call started was a quote of this request. */
  predicate Quoted(starts: seq<Start>, r: Request) {
    var j := LastCall(starts);
    j < |starts| && starts[j].QuoteStarted? && starts[j].request == r
  }

  predicate MsgHolds(starts: seq<Start>, m: Msg) {
    match m
    case QuoteCall(r) => Quoted(starts, r)
    case QuoteResult(Ok(q)) => Quoted(starts, q.request)
    case ExecuteRequest(r) => Quoted(starts, r)
    case _ => true
  }

  ghost predicate BagHolds(starts: seq<Start>, bag: multiset<Msg>) {
    forall m :: m in bag ==> MsgHolds(starts, m)
  }

  predicate PanelHolds(starts: seq<Start>, p: Panel) {
    p.state == Preview ==> p.quote.Some? && Quoted(starts, p.quote.value.request)
  }

  /** An execution was started right after a quote of the same request, but for switches in between. */
  ghost predicate FollowsQuote(starts: seq<Start>, i: nat)
    requires i < |starts| && starts[i].ExecuteStarted?
  {
    Quoted(starts[..i], starts[i].request)
  }

  ghost predicate StartsHold(starts: seq<Start>) {
    && (forall i :: 0 <= i < |starts| && !starts[i].Switched? ==> starts[i].on == Switches(starts[..i]))
    && (forall i :: 0 <= i < |starts| && starts[i].ExecuteStarted? ==> FollowsQuote(starts, i))
  }

  ghost predicate SceneHolds(s: Scene) {
    && BagHolds(s.starts, s.world.bag) && PanelHolds(s.starts, s.world.panel)
    && StartsHold(s.starts) && s.current == Switches(s.starts)
  }

  lemma AddStart(starts: seq<Start>, x: Start)
    requires StartsHold(starts)
    requires !x.Switched? ==> x.on == Switches(starts)
    requires x.ExecuteStarted? ==> Quoted(starts, x.request)
    ensures StartsHold(starts + [x])
    ensures Switches(starts + [x]) == Switches(starts) + if x.Switched? then 1 else 0
  {
    hide Quoted, Switches;
    var more := starts + [x];
    forall i | 0 <= i < |more|
      ensures !more[i].Switched? ==> more[i].on == Switches(more[..i])
      ensures more[i].ExecuteStarted? ==> FollowsQuote(more, i)
    {
      if i < |starts| {
        assert more[..i] == starts[..i];
      } else {
        assert more[..i] == starts;
      }
    }
    SwitchesOne(starts, x);
  }

  lemma SwitchesOne(starts: seq<Start>, x: Start)
    ensures Switches(starts + [x]) == Switches(starts) + if x.Switched? then 1 else 0
  {
    assert (starts + [x])[..|starts|] == starts;
  }

  lemma QuotedOverSwitch(starts: seq<Start>, r: Request)
    ensures Quoted(starts + [Switched], r) == Quoted(starts, r)
  {
    assert (starts + [Switched])[..|starts|] == starts;
  }

  lemma QuotedNow(starts: seq<Start>, r: Request, on: nat)
    ensures Quoted(starts + [QuoteStarted(r, on)], r)
  {}

  lemma SwitchHolds(s: Scene)
    requires SceneHolds(s)
    ensures SceneHolds(Next(s, Switch))
  {
    AddStart(s.starts, Switched);
    var more := s.starts + [Switched];
    forall r: Request
      ensures Quoted(more, r) == Quoted(s.starts, r)
    {
      QuotedOverSwitch(s.starts, r);
    }
    hide Quoted, StartsHold, Switches;
    forall m | m in s.world.bag
      ensures MsgHolds(more, m)
    {
      assert MsgHolds(s.starts, m);
    }
  }

  /** A key may send an execution, of the quote that is shown. */
  lemma PressHolds(s: Scene, pending: Option<Msg>, k: Key)
    requires SceneHolds(s) && InvWith(s.world, pending)
    ensures SceneHolds(Next(s, Inner(Press(k))))
  {
    InvIsSafe(s.world, pending);
    KeyEffect(s.world.panel, k);
    var (q, cmd) := KeyPressed(s.world.panel, k);
    assert Step(s.world, Press(k)) == s.world.(panel := q, bag := Put(s.world.bag, cmd),
      log := Noted(s.world.log, cmd));
    assert s.starts + [] == s.starts;
    assert cmd.Some? ==> MsgHolds(s.starts, cmd.value);
    hide Quoted, StartsHold, Switches, Step, KeyPressed, InvWith;
  }

  lemma BagTaken(starts: seq<Start>, bag: multiset<Msg>, m: Msg, cmd: Option<Msg>)
    requires BagHolds(starts, bag) && (cmd.Some? ==> MsgHolds(starts, cmd.value))
    ensures BagHolds(starts, Put(bag - multiset{m}, cmd))
  {
    hide MsgHolds;
  }

  /** Messages the panel does not wait for speak of no call. */
  lemma IdleBagHolds(starts: seq<Start>, bag: multiset<Msg>)
    requires forall m :: m in bag ==> !IsQuoteMsg(m) && !IsExecuteMsg(m)
    ensures BagHolds(starts, bag)
  {
    hide Quoted;
  }

  lemma CallBagHolds(starts: seq<Start>, bag: multiset<Msg>, call: Msg)
    requires BagHolds(starts, bag) && MsgHolds(starts, call)
    ensures BagHolds(starts, bag + multiset{call})
  {
    hide MsgHolds;
  }

  lemma CallStarts(s: Scene, m: Msg, call: Msg, x: Start)
    requires SceneHolds(s) && s.world.panel.state != Preview
    requires forall n :: n in s.world.bag - multiset{m} ==> !IsQuoteMsg(n) && !IsExecuteMsg(n)
    requires !x.Switched? && x.on == s.current && (x.ExecuteStarted? ==> Quoted(s.starts, x.request))
    requires MsgHolds(s.starts + [x], call)
    ensures SceneHolds(s.(world := s.world.(bag := s.world.bag - multiset{m} + multiset{call}),
      starts := s.starts + [x]))
  {
    AddStart(s.starts, x);
    IdleBagHolds(s.starts + [x], s.world.bag - multiset{m});
    CallBagHolds(s.starts + [x], s.world.bag - multiset{m}, call);
    hide Quoted, StartsHold, Switches, MsgHolds, BagHolds;
  }

  /** A quote is handed over: it is the only message of its kind, so nothing else speaks of an earlier one. */
  lemma QuoteStarts(s: Scene, pending: Option<Msg>, r: Request)
    requires SceneHolds(s) && InvWith(s.world, pending) && QuoteRequest(r) in s.world.bag && s.world.wallet
    ensures SceneHolds(Next(s, Inner(Deliver(QuoteRequest(r)))))
  {
    var (w, m, x) := (s.world, QuoteRequest(r), QuoteStarted(r, s.current));
    assert Next(s, Inner(Deliver(m))) ==
      s.(world := w.(bag := w.bag - multiset{m} + multiset{QuoteCall(r)}), starts := s.starts + [x]);
    hide Next, Step, SceneHolds, InvWith;
    InvIsSafe(w, pending);
    OthersSaySo(w, m);
    assert w.panel.state == Quoting;
    hide OneInFlight, Quoted;
    QuotedNow(s.starts, r, s.current);
    CallStarts(s, m, QuoteCall(r), x);
  }

  lemma ExecuteStarts(s: Scene, pending: Option<Msg>, r: Request)
    requires SceneHolds(s) && InvWith(s.world, pending) && ExecuteRequest(r) in s.world.bag && s.world.wallet
    ensures SceneHolds(Next(s, Inner(Deliver(ExecuteRequest(r)))))
  {
    var (w, m, x) := (s.world, ExecuteRequest(r), ExecuteStarted(r, s.current));
    assert MsgHolds(s.starts, m);
    assert Next(s, Inner(Deliver(m))) ==
      s.(world := w.(bag := w.bag - multiset{m} + multiset{ExecuteCall(r)}), starts := s.starts + [x]);
    hide Next, Step, SceneHolds, InvWith;
    InvIsSafe(w, pending);
    OthersSaySo(w, m);
    assert w.panel.state == Executing;
    hide OneInFlight, Quoted;
    CallStarts(s, m, ExecuteCall(r), x);
  }

  /** Besides an awaited message nothing else is awaited. */
  lemma OthersSaySo(w: World, m: Msg)
    requires OneInFlight(w) && m in w.bag && (IsQuoteMsg(m) || IsExecuteMsg(m))
    ensures forall n :: n in w.bag - multiset{m} ==> !IsQuoteMsg(n) && !IsExecuteMsg(n)
  {
    forall n | n in w.bag - multiset{m}
      ensures !IsQuoteMsg(n) && !IsExecuteMsg(n)
    {
      assert n in w.bag && w.bag[m] == 1;
      assert (w.bag - multiset{m})[m] == 0;
    }
  }

  /** What the arrival of a message puts into the bag, and the panel it leaves. */
  function Emitted(w: World, m: Msg): Option<Msg> {
    match m
    case EstimateRequest(f, u) => if w.wallet then Some(EstimateCall(f, u)) else None
    case QuoteRequest(r) => if w.wallet then Some(QuoteCall(r)) else None
    case ExecuteRequest(r) => if w.wallet then Some(ExecuteCall(r)) else None
    case QuoteResult(_) => Updated(w.panel, m).1
    case ExecuteResult(_) => Updated(w.panel, m).1
    case EstimateResult(_) => Updated(w.panel, m).1
    case Tick => Updated(w.panel, m).1
    case _ => Some(m)
  }

  lemma EmittedIs(w: World, m: Msg)
    requires m in w.bag && !m.KeyPress?
    ensures var v := Step(w, Deliver(m));
      v.bag == Put(w.bag - multiset{m}, Emitted(w, m)) && v.panel == Updated(w.panel, m).0
  {
    hide TrimSpace, KeyPressed, QuoteAsked;
  }

  /** Ticks and results send no execution, and bring a preview up only with the quote that arrives. */
  lemma EmittedHolds(starts: seq<Start>, w: World, m: Msg)
    requires MsgHolds(starts, m) && PanelHolds(starts, w.panel) && !m.KeyPress?
    requires w.wallet ==> !m.QuoteRequest? && !m.ExecuteRequest?
    ensures Emitted(w, m).Some? ==> MsgHolds(starts, Emitted(w, m).value)
    ensures PanelHolds(starts, Updated(w.panel, m).0)
  {
    hide TrimSpace, Quoted, KeyPressed;
  }

  /** Anything else that arrives: nothing starts. */
  lemma DeliverHolds(s: Scene, m: Msg)
    requires SceneHolds(s) && m in s.world.bag && !m.KeyPress?
    requires s.world.wallet ==> !m.QuoteRequest? && !m.ExecuteRequest?
    ensures SceneHolds(Next(s, Inner(Deliver(m))))
  {
    var w := s.world;
    assert MsgHolds(s.starts, m);
    assert Starts(w, Deliver(m), s.current) == [] && s.starts + [] == s.starts;
    hide MsgHolds, StartsHold, Switches, PanelHolds;
    EmittedIs(w, m);
    EmittedHolds(s.starts, w, m);
    hide Step, Emitted, Updated;
    BagTaken(s.starts, w.bag, m, Emitted(w, m));
  }

  /** A key in the bag would stay there: keys reach the panel otherwise. */
  lemma KeyStays(s: Scene, m: Msg)
    requires SceneHolds(s) && m in s.world.bag && m.KeyPress?
    ensures Next(s, Inner(Deliver(m))) == s
  {
    var w := s.world;
    assert w.bag - multiset{m} + multiset{m} == w.bag;
    assert s.starts + [] == s.starts;
  }

  lemma NextHolds(s: Scene, pending: Option<Msg>, h: Happening)
    requires SceneHolds(s) && InvWith(s.world, pending)
    ensures SceneHolds(Next(s, h))
  {
    match h
    case Switch => SwitchHolds(s);
    case Inner(Press(k)) => PressHolds(s, pending, k);
    case Inner(Deliver(m)) =>
      if m !in s.world.bag {
        assert s.starts + [] == s.starts;
      } else if m.QuoteRequest? && s.world.wallet {
        QuoteStarts(s, pending, m.request);
      } else if m.ExecuteRequest? && s.world.wallet {
        ExecuteStarts(s, pending, m.request);
      } else if m.KeyPress? {
        KeyStays(s, m);
      } else {
        DeliverHolds(s, m);
      }
    case Inner(e) => OtherHolds(s, e);
  }

  lemma OtherHolds(s: Scene, e: Event)
    requires SceneHolds(s) && !e.Press? && !e.Deliver?
    ensures SceneHolds(Next(s, Inner(e)))
  {
    var w := s.world;
    assert s.starts + [] == s.starts;
    hide Quoted, StartsHold, Switches;
    if e.Complete? && e.call in w.bag {
      assert MsgHolds(s.starts, e.call);
      var result := ResultOf(e.call, e.ok, e.belowMin);
      if result.Some? {
        assert MsgHolds(s.starts, result.value);
        BagTaken(s.starts, w.bag, e.call, result);
        hide MsgHolds, ResultOf;
      }
    }
  }

  lemma {:induction false} PlayHolds(parse: string -> Option<real>, hs: seq<Happening>) returns (pending: Option<Msg>)
    ensures SceneHolds(Play(Open(parse), hs)) && InvWith(Play(Open(parse), hs).world, pending)
  {
    if hs == [] {
      pending := None;
    } else {
      var s, h := Play(Open(parse), hs[..|hs| - 1]), hs[|hs| - 1];
      pending := PlayHolds(parse, hs[..|hs| - 1]);
      hide SceneHolds, InvWith, Step;
      NextHolds(s, pending, h);
      if h.Inner? {
        pending := StepKeeps(s.world, pending, h.event);
      }
    }
  }

  // ---------------------------------------------------------------- the chain of a quote and of its execution

  lemma {:induction false} OnlySwitches(starts: seq<Start>, j: nat)
    requires j < |starts| && !starts[j].Switched? && forall k :: j < k < |starts| ==> starts[k].Switched?
    ensures Switches(starts) == Switches(starts[..j]) + (|starts| - 1 - j)
  {
    var n := |starts| - 1;
    if j < n {
      assert starts[..n][..j] == starts[..j];
      OnlySwitches(starts[..n], j);
    }
  }

  /**
   * Over every run: between the quote of a request and its execution there are nothing but switches, and the two go
   * to the same connection if and only if there is none.
   */
  lemma ExecutedWhereQuoted(parse: string -> Option<real>, hs: seq<Happening>, i: nat) returns (j: nat)
    requires var starts := Play(Open(parse), hs).starts;
      i < |starts| && starts[i].ExecuteStarted?
    ensures var starts := Play(Open(parse), hs).starts;
      && j < i && starts[j].QuoteStarted? && starts[j].request == starts[i].request
      && (forall k :: j < k < i ==> starts[k].Switched?)
      && (starts[j].on == starts[i].on <==> j + 1 == i)
  {
    var pending := PlayHolds(parse, hs);
    var starts := Play(Open(parse), hs).starts;
    assert FollowsQuote(starts, i);
    var before := starts[..i];
    j := LastCall(before);
    assert forall k :: j <= k < i ==> before[k] == starts[k];
    OnlySwitches(before, j);
    assert before[..j] == starts[..j];
  }

  // ---------------------------------------------------------------- executed elsewhere

  function Inners(es: seq<Event>): seq<Happening> {
    seq(|es|, i requires 0 <= i < |es| => Inner(es[i]))
  }

  lemma PlayOne(s: Scene, hs: seq<Happening>, h: Happening)
    ensures Play(s, hs + [h]) == Next(Play(s, hs), h)
  {
    hide Next;
    assert (hs + [h])[..|hs|] == hs;
  }

  lemma {:induction false} PlayInners(s: Scene, es: seq<Event>)
    ensures Play(s, Inners(es)).world == Run(s.world, es) && Play(s, Inners(es)).current == s.current
  {
    if es == [] {
      assert Inners(es) == [];
    } else {
      var n := |es| - 1;
      PlayInners(s, es[..n]);
      assert Run(s.world, es) == Step(Run(s.world, es[..n]), es[n]);
      hide Run, Play, Starts, Step;
      InnersLast(es);
      PlayOne(s, Inners(es[..n]), Inner(es[n]));
    }
  }

  lemma InnersLast(es: seq<Event>)
    requires es != []
    ensures Inners(es) == Inners(es[..|es| - 1]) + [Inner(es[|es| - 1])]
  {}

  const YES := Key(OtherKey, "y", None, "")

  lemma Confirmed(s: Scene) returns (r: Request, t: Scene)
    requires s.world.panel.state == Preview && PreviewShowsQuote(s.world)
    ensures r == s.world.panel.Current()
    ensures t == Next(s, Inner(Press(YES))) && t == s.(world := t.world)
    ensures ExecuteRequest(r) in t.world.bag && t.world.wallet == s.world.wallet
  {
    hide TrimSpace;
    r := s.world.panel.Current();
    t := Next(s, Inner(Press(YES)));
    assert s.starts + [] == s.starts;
  }

  lemma Handed(s: Scene, r: Request)
    requires ExecuteRequest(r) in s.world.bag && s.world.wallet
    ensures Next(s, Inner(Deliver(ExecuteRequest(r)))).starts == s.starts + [ExecuteStarted(r, s.current)]
  {
    hide Step;
  }

  /** A switch while the quote is on screen: it is executed on a connection it was not quoted on. */
  lemma ExecutedElsewhere(parse: string -> Option<real>, token: TokenInfo, usd: string, addr: string)
    returns (hs: seq<Happening>, i: nat)
    requires Fillable(parse, usd, addr)
    ensures var starts := Play(Open(parse), hs).starts;
      0 < i < |starts| && starts[i].ExecuteStarted? && starts[i].on == 1 && starts[i - 1] == Switched
  {
    var es, w := SwapBtcCountdowns.Countdowns(parse, token, usd, addr, 1);
    PlayInners(Open(parse), es);
    RunIsSafe(parse, es);
    var s0 := Play(Open(parse), Inners(es));
    var s1 := Next(s0, Switch);
    assert s1.current == 1 && s1.starts == s0.starts + [Switched] && s1.world == w;
    hide Run, PreviewShowsQuote, Ready, Next, Play, Step;
    var r, s2 := Confirmed(s1);
    var m := Deliver(ExecuteRequest(r));
    Handed(s2, r);
    i := |s1.starts|;
    assert 0 < i && s1.starts[i - 1] == Switched;
    var s3 := Next(s2, Inner(m));
    assert s3.starts[i - 1] == Switched && s3.starts[i] == ExecuteStarted(r, 1);
    hide *;
    PlayOne(Open(parse), Inners(es), Switch);
    PlayOne(Open(parse), Inners(es) + [Switch], Inner(Press(YES)));
    PlayOne(Open(parse), Inners(es) + [Switch] + [Inner(Press(YES))], Inner(m));
    hs := Inners(es) + [Switch] + [Inner(Press(YES))] + [Inner(m)];
  }
}
