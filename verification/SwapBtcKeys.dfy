/**
 * Which key does what in the Swap-BTC panel, told from the fields: what is executed takes consent, and what is quoted
 * takes a positive amount, an address that is long enough and no word of being below the minimum.
 */
module SwapBtcKeys {
  import opened Text
  import opened Tokens
  import opened SwapBtc
  import opened SwapBtcRuns

  // ---------------------------------------------------------------- one message

  /** "y" or enter, on a quote that is shown without an error. */
  ghost predicate Consents(p: Panel, k: Key) {
    && k.kind != EscKey && (k.name == "y" || k.name == "enter")
    && p.state == Preview && p.quote.Some? && p.quoteErr == ""
  }

  /** Enter at the end of a form that is complete: a token, a positive amount, 25 characters, not below the minimum. */
  ghost predicate Completes(p: Panel, k: Key) {
    && k.kind == EnterKey && p.state == Form && p.field == AddrField && p.selected.Some?
    && p.parse(TrimSpace(p.amount)).Some? && p.parse(TrimSpace(p.amount)).value > 0.0
    && |TrimSpace(p.addr)| >= 25
    && (p.estimate.Some? ==> !p.estimate.value.belowMin)
  }

  /** A swap is sent off by consent and by nothing else, and it is the one in the fields. */
  lemma ExecutesExactlyOnConsent(p: Panel, msg: Msg)
    ensures var (q, cmd) := Updated(p, msg);
      && (cmd.Some? && cmd.value.ExecuteRequest? <==> msg.KeyPress? && Consents(p, msg.key))
      && (cmd.Some? && cmd.value.ExecuteRequest? ==>
           && cmd.value.request == Request(p.from, TrimSpace(p.amount), TrimSpace(p.addr))
           && q == p.(state := Executing))
      && (q.state == Executing && p.state != Executing ==> msg.KeyPress? && Consents(p, msg.key))
  {
    hide TrimSpace;
  }

  /** A quote is asked for by completing the form, and again when the countdown of a preview runs out. */
  lemma QuotesExactlyWhen(p: Panel, msg: Msg)
    ensures var (q, cmd) := Updated(p, msg);
      && (cmd.Some? && cmd.value.QuoteRequest? <==>
           || (msg.KeyPress? && Completes(p, msg.key))
           || (msg.Tick? && p.state == Preview && p.countdown <= 1 && p.selected.Some?))
      && (cmd.Some? && cmd.value.QuoteRequest? ==>
           && cmd.value.request == Request(p.selected.value, TrimSpace(p.amount), TrimSpace(p.addr))
           && q.state == Quoting && q.from == p.selected.value && q.amount == p.amount && q.addr == p.addr)
  {
    hide TrimSpace;
  }

  /** An estimate is asked for by leaving a positive amount with enter. */
  lemma EstimatesExactlyWhen(p: Panel, msg: Msg)
    ensures var (q, cmd) := Updated(p, msg);
      && (cmd.Some? && cmd.value.EstimateRequest? <==>
           && msg.KeyPress? && msg.key.kind == EnterKey && p.state == Form && p.field == AmountField
           && p.selected.Some?
           && p.parse(TrimSpace(p.amount)).Some? && p.parse(TrimSpace(p.amount)).value > 0.0)
      && (cmd.Some? && cmd.value.EstimateRequest? ==>
           && cmd.value == EstimateRequest(p.selected.value, TrimSpace(p.amount))
           && q == p.(field := AddrField, from := p.selected.value, estimating := true, estimateErr := ""))
  {
    hide TrimSpace;
  }

  /** In a preview "n" goes back to the form, escape clears it, and no key but these and consent does anything. */
  lemma PreviewKeys(p: Panel, k: Key)
    requires p.state == Preview && !Consents(p, k)
    ensures var (q, cmd) := KeyPressed(p, k);
      && cmd == None
      && (q.state == Form <==> k.kind == EscKey || k.name == "n")
      && (k.kind != EscKey && k.name == "n" ==> q == p.(state := Form, field := AddrField))
      && (k.kind == EscKey ==> q == Cleared(p))
      && (q.state != Form ==> q == p)
  {}

  /** Back to the start of the form: what was shown is gone, what was typed and chosen stays. */
  function Cleared(p: Panel): Panel {
    Panel(p.parse, p.selected, p.amount, p.addr, Form, TokenField, p.from, None, "", 0, None, None, "", false)
  }

  /** Elsewhere: after a swap any key clears the form, while one waits none does anything, and escape starts over. */
  lemma OtherKeys(p: Panel, k: Key)
    ensures var (q, cmd) := KeyPressed(p, k);
      && (p.state == Finished ==> q == Cleared(p) && cmd == None)
      && (p.state == Quoting || p.state == Executing ==> q == p && cmd == None)
      && (p.state == Form && k.kind == EscKey ==> q == p.(field := TokenField) && cmd == None)
      && (p.state == Form && k.kind == EnterKey && p.field == TokenField ==>
           q == (if p.selected.Some? then p.(field := AmountField) else p) && cmd == None)
      && (p.state == Form && k.kind == EnterKey && p.field == AmountField ==> q.field == AddrField)
      && (p.state == Form && k.kind == EnterKey && p.field == AddrField && !Completes(p, k) && p.selected.Some? ==>
           q == p.(quoteErr := q.quoteErr) && q.quoteErr != "" && cmd == None)
  {
    hide TrimSpace;
  }

  /** How the answers show: a quote as a preview with ten seconds to go, a failure back at the address. */
  lemma AnswersShow(p: Panel, msg: Msg)
    ensures var (q, cmd) := Updated(p, msg);
      match msg
      case QuoteResult(Ok(x)) =>
        q == p.(quote := Some(x), quoteErr := "", state := Preview, countdown := 10) && cmd == Some(Tick)
      case QuoteResult(Err(e)) =>
        q == p.(quote := None, quoteErr := e, state := Form, field := AddrField) && cmd == None
      case ExecuteResult(ok) => q == p.(result := Some(ok), state := Finished) && cmd == None
      case EstimateResult(Ok(x)) => q == p.(estimate := Some(x), estimateErr := "", estimating := false) && cmd == None
      case EstimateResult(Err(e)) => q == p.(estimate := None, estimateErr := e, estimating := false) && cmd == None
      case Tick =>
        && (p.state != Preview ==> q == p && cmd == None)
        && (p.state == Preview && p.countdown > 1 ==> q == p.(countdown := p.countdown - 1) && cmd == Some(Tick))
      case _ => true
  {
    hide TrimSpace;
  }

  /** Typing an amount drops the estimate of the one before; the fields change in the form and only there. */
  lemma FieldsChangeInForm(p: Panel, msg: Msg)
    ensures var q := Updated(p, msg).0;
      && q.parse == p.parse
      && (q.amount != p.amount ==>
           && msg.KeyPress? && p.state == Form && p.field == AmountField && msg.key.kind == OtherKey
           && q.amount == msg.key.typed && q.estimate.None?)
      && (q.addr != p.addr ==>
           && msg.KeyPress? && p.state == Form && p.field == AddrField && msg.key.kind == OtherKey
           && q.addr == msg.key.typed)
      && (msg.KeyPress? && p.state == Form && p.field == AmountField && msg.key.kind == OtherKey ==>
           q.estimate.None? && q.amount == msg.key.typed)
      && (msg.KeyPress? && p.state == Form && p.field == AddrField && msg.key.kind == OtherKey ==>
           q.addr == msg.key.typed)
      && (msg.KeyPress? && p.state == Form && p.field == TokenField && msg.key.kind == OtherKey ==>
           q.selected == msg.key.highlighted)
      && (q.selected != p.selected ==>
           && msg.KeyPress? && p.state == Form && p.field == TokenField && msg.key.kind == OtherKey
           && q.selected == msg.key.highlighted)
  {
    hide TrimSpace;
  }

  // ---------------------------------------------------------------- what every run notes

  ghost predicate ValidRequest(parse: string -> Option<real>, r: Request) {
    parse(r.usd).Some? && parse(r.usd).value > 0.0 && |r.btc| >= 25
  }

  /** What the fields ask for. */
  function InFields(p: Panel, from: TokenInfo): Request {
    Request(from, TrimSpace(p.amount), TrimSpace(p.addr))
  }

  /** Past the form the fields hold a valid request. */
  ghost predicate ValidPastForm(parse: string -> Option<real>, p: Panel) {
    p.parse == parse && (p.state in {Quoting, Preview, Executing} ==> ValidRequest(parse, InFields(p, p.from)))
  }

  /** This event is what makes the panel note a request: consent, a completed form, or a countdown that runs out. */
  ghost predicate Causes(p: Panel, e: Event, x: Entry) {
    match x
    case Sent(r) => e.Press? && Consents(p, e.key) && r == InFields(p, p.from)
    case Asked(r) =>
      && p.selected.Some? && r == InFields(p, p.selected.value)
      && ((e.Press? && Completes(p, e.key)) || (e == Deliver(Tick) && p.state == Preview && p.countdown <= 1))
    case _ => true
  }

  /** What a step does to the panel: it handles a message, perhaps after noting an answer, or at most reloads. */
  lemma StepHandles(w: World, e: Event) returns (msg: Option<Msg>, x: seq<Entry>)
    ensures forall y :: y in x ==> !y.Sent? && !y.Asked?
    ensures var v := Step(w, e);
      match msg
      case None => v.log == w.log && x == [] && v.panel == w.panel.(selected := v.panel.selected)
      case Some(m) =>
        && v.panel == Updated(w.panel, m).0 && v.log == Noted(w.log + x, Updated(w.panel, m).1)
        && (e == (if m.KeyPress? then Press(m.key) else Deliver(m))) && (e.Deliver? ==> m in w.bag)
  {
    hide Updated, Noted, Put;
    msg, x := None, [];
    if e.Press? {
      msg := Some(KeyPress(e.key));
      assert w.log + [] == w.log;
    } else if e.Deliver? && e.msg in w.bag {
      match e.msg {
        case QuoteResult(Ok(q)) => msg, x := Some(e.msg), [Answered(q.request)];
        case QuoteResult(Err(_)) => msg, x := Some(e.msg), [Failed];
        case ExecuteResult(_) => msg, x := Some(e.msg), [Settled];
        case EstimateResult(_) => msg := Some(e.msg);
        case Tick => msg := Some(e.msg);
        case _ =>
      }
      assert w.log + [] == w.log;
    }
  }

  /** Every step only adds to the log, and what it adds has its cause in that step. */
  lemma StepCauses(w: World, e: Event)
    ensures var v := Step(w, e);
      w.log <= v.log && forall k :: |w.log| <= k < |v.log| ==> Causes(w.panel, e, v.log[k])
  {
    var msg, x := StepHandles(w, e);
    var v := Step(w, e);
    hide Step;
    if msg.Some? {
      ExecutesExactlyOnConsent(w.panel, msg.value);
      QuotesExactlyWhen(w.panel, msg.value);
      hide Updated, TrimSpace, Consents, Completes;
      forall k | |w.log| <= k < |v.log|
        ensures Causes(w.panel, e, v.log[k])
      {
        assert k < |w.log + x| ==> v.log[k] in x;
      }
    }
  }

  /** Whatever a run has noted since it began has its cause in some event of it. */
  lemma {:induction false} EveryNoteHasCause(w: World, events: seq<Event>, k: nat) returns (i: nat)
    requires |w.log| <= k < |Run(w, events).log|
    ensures i < |events| && Causes(Run(w, events[..i]).panel, events[i], Run(w, events).log[k])
  {
    var n := |events| - 1;
    var v := Run(w, events[..n]);
    StepCauses(v, events[n]);
    hide Causes, Step;
    if k < |v.log| {
      i := EveryNoteHasCause(w, events[..n], k);
      assert events[..n][..i] == events[..i];
    } else {
      i := n;
    }
  }

  /**
   * Over every run: a swap in the log was sent because "y" or enter was pressed on a preview that showed a quote for
   * exactly that request and no error.
   */
  lemma SentOnlyByConsent(parse: string -> Option<real>, events: seq<Event>, k: nat)
    requires k < |Run(Init(parse), events).log| && Run(Init(parse), events).log[k].Sent?
    ensures exists i, key ::
      && 0 <= i < |events| && events[i] == Press(key) && key.kind != EscKey && (key.name == "y" || key.name == "enter")
      && var p := Run(Init(parse), events[..i]).panel;
        && p.state == Preview && p.quoteErr == "" && p.quote.Some?
        && p.quote.value.request == Run(Init(parse), events).log[k].request
  {
    var i := EveryNoteHasCause(Init(parse), events, k);
    RunIsSafe(parse, events[..i]);
    hide Run, TrimSpace;
    var key := events[i].key;
    assert events[i] == Press(key);
  }

  lemma ValidStep(parse: string -> Option<real>, w: World, e: Event)
    requires ValidPastForm(parse, w.panel) && OneInFlight(w)
    ensures ValidPastForm(parse, Step(w, e).panel)
  {
    var msg, x := StepHandles(w, e);
    hide Step, TrimSpace, ValidRequest;
    if msg.Some? {
      assert msg.value.QuoteResult? ==> IsQuoteMsg(msg.value) && w.panel.state == Quoting;
      ValidUpdated(parse, w.panel, msg.value);
      hide OneInFlight, Updated;
    }
  }

  lemma ValidUpdated(parse: string -> Option<real>, p: Panel, msg: Msg)
    requires ValidPastForm(parse, p) && (msg.QuoteResult? ==> p.state == Quoting)
    ensures ValidPastForm(parse, Updated(p, msg).0)
  {
    hide TrimSpace;
  }

  lemma {:induction false} ValidAlways(parse: string -> Option<real>, events: seq<Event>)
    ensures ValidPastForm(parse, Run(Init(parse), events).panel)
  {
    if events != [] {
      var n := |events| - 1;
      ValidAlways(parse, events[..n]);
      RunIsSafe(parse, events[..n]);
      hide Step, ValidPastForm, OneInFlight;
      ValidStep(parse, Run(Init(parse), events[..n]), events[n]);
    }
  }

  /** A form asks by enter while no estimate says it is below the minimum; a preview asks again by itself. */
  ghost predicate AsksRightly(p: Panel, e: Event) {
    || (e == Deliver(Tick) && p.state == Preview && p.countdown <= 1)
    || (e.Press? && e.key.kind == EnterKey && p.state == Form && (p.estimate.Some? ==> !p.estimate.value.belowMin))
  }

  /**
   * Over every run: each request that is quoted or executed has a positive amount and an address of at least 25
   * characters, and no form asks while its estimate is below the minimum.
   */
  lemma RequestsAreValid(parse: string -> Option<real>, events: seq<Event>, k: nat)
    requires var log := Run(Init(parse), events).log;
      k < |log| && (log[k].Asked? || log[k].Sent?)
    ensures var r := Run(Init(parse), events).log[k].request;
      parse(r.usd).Some? && parse(r.usd).value > 0.0 && |r.btc| >= 25
    ensures Run(Init(parse), events).log[k].Asked? ==>
      exists i :: 0 <= i < |events| && AsksRightly(Run(Init(parse), events[..i]).panel, events[i])
  {
    var i := EveryNoteHasCause(Init(parse), events, k);
    ValidAlways(parse, events[..i]);
    hide Run, TrimSpace;
  }
}
