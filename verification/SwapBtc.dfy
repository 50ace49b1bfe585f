/**
 * The Swap-BTC panel: a form, a quote in flight, a preview with a countdown, an execution in flight.
 * `Updated` says how the panel answers a message; `Model` is the panel as written, field by field.
 */
module SwapBtc {
  import opened Text
  import opened Tokens

  const REFRESH_SECONDS := 10
  const MIN_BTC_ADDR_LEN := 25

  datatype State = Form | Quoting | Preview | Executing | Finished

  datatype Field = TokenField | AmountField | AddrField

  datatype Request = Request(from: TokenInfo, usd: string, btc: string)

  /** A quote echoes the request it answers. */
  datatype FlowQuote = FlowQuote(request: Request, belowMin: bool)

  datatype KeyKind = EscKey | EnterKey | OtherKey

  /** A key, its lower-cased name, and what the focused list or text field holds once it has handled it. */
  datatype Key = Key(kind: KeyKind, name: string, highlighted: Option<TokenInfo>, typed: string)

  datatype Msg =
    | KeyPress(key: Key)
    | Tick
    | EstimateResult(estimate: Result<FlowQuote, string>)
    | QuoteResult(quote: Result<FlowQuote, string>)
    | ExecuteResult(success: bool)
    | EstimateRequest(from: TokenInfo, usd: string)
    | QuoteRequest(request: Request)
    | ExecuteRequest(request: Request)
    | EstimateCall(from: TokenInfo, usd: string) // the parent has started the call
    | QuoteCall(request: Request)
    | ExecuteCall(request: Request)

  /** The panel as a value. `parse` is `strconv.ParseFloat`. */
  datatype Panel = Panel(
    parse: string -> Option<real>,
    selected: Option<TokenInfo>, amount: string, addr: string,
    state: State, field: Field,
    from: TokenInfo, quote: Option<FlowQuote>, quoteErr: string, countdown: int, result: Option<bool>,
    estimate: Option<FlowQuote>, estimateErr: string, estimating: bool)
  {
    /** The request that the fields stand for at this moment. */
    function Current(): Request {
      Request(from, TrimSpace(amount), TrimSpace(addr))
    }

    predicate PositiveAmount() {
      parse(TrimSpace(amount)).Some? && parse(TrimSpace(amount)).value > 0.0
    }

    predicate InputsValid() {
      PositiveAmount() && |TrimSpace(addr)| >= MIN_BTC_ADDR_LEN
    }

    predicate BelowMinimum() {
      estimate.Some? && estimate.value.belowMin
    }
  }

  const NO_TOKEN := TokenInfo("", "", 0)

  function NewPanel(parse: string -> Option<real>): Panel {
    Panel(parse, None, "", "", Form, TokenField, NO_TOKEN, None, "", 0, None, None, "", false)
  }

  // ---------------------------------------------------------------- the answers of the panel

  type Answer = (Panel, Option<Msg>)

  function ResetPanel(p: Panel): Panel {
    p.(state := Form, field := TokenField, quote := None, quoteErr := "", result := None,
       countdown := 0, estimate := None, estimateErr := "", estimating := false)
  }

  function QuoteAsked(p: Panel): Answer {
    match p.selected
    case None => (p, None)
    case Some(token) => var q := p.(from := token); (q, Some(QuoteRequest(q.Current())))
  }

  function EstimateAsked(p: Panel): Answer {
    if p.selected.None? || !p.PositiveAmount() then (p, None)
    else
      var q := p.(from := p.selected.value, estimating := true, estimateErr := "");
      (q, Some(EstimateRequest(q.from, TrimSpace(q.amount))))
  }

  function EscPressed(p: Panel): Panel {
    match p.state
    case Form => p.(field := TokenField)
    case Preview => ResetPanel(p)
    case Finished => ResetPanel(p)
    case _ => p
  }

  function FormKeyPressed(p: Panel, k: Key): Answer {
    match p.field
    case TokenField =>
      if k.kind == EnterKey then (if p.selected.Some? then p.(field := AmountField) else p, None)
      else (p.(selected := k.highlighted), None)
    case AmountField =>
      if k.kind == EnterKey then EstimateAsked(p.(field := AddrField))
      else (p.(estimate := None, estimateErr := "", amount := k.typed), None)
    case AddrField =>
      if k.kind != EnterKey then (p.(addr := k.typed), None)
      else if p.BelowMinimum() then (p.(quoteErr := "below minimum"), None)
      else if !p.InputsValid() then (p.(quoteErr := "invalid inputs"), None)
      else QuoteAsked(p.(state := Quoting, quoteErr := ""))
  }

  function KeyPressed(p: Panel, k: Key): Answer {
    if k.kind == EscKey then (EscPressed(p), None)
    else match p.state
      case Form => FormKeyPressed(p, k)
      case Preview =>
        if k.name == "y" || k.name == "enter" then
          if p.quoteErr != "" || p.quote.None? then (p, None)
          else (p.(state := Executing), Some(ExecuteRequest(p.Current())))
        else if k.name == "n" then (p.(state := Form, field := AddrField), None)
        else (p, None)
      case Finished => (ResetPanel(p), None)
      case _ => (p, None)
  }

  function Updated(p: Panel, msg: Msg): Answer {
    match msg
    case EstimateResult(Err(e)) => (p.(estimating := false, estimate := None, estimateErr := e), None)
    case EstimateResult(Ok(q)) => (p.(estimating := false, estimate := Some(q), estimateErr := ""), None)
    case QuoteResult(Err(e)) => (p.(quote := None, quoteErr := e, state := Form, field := AddrField), None)
    case QuoteResult(Ok(q)) =>
      (p.(quote := Some(q), quoteErr := "", state := Preview, countdown := REFRESH_SECONDS), Some(Tick))
    case ExecuteResult(ok) => (p.(result := Some(ok), state := Finished), None)
    case Tick =>
      if p.state != Preview then (p, None)
      else
        var q := p.(countdown := p.countdown - 1);
        if q.countdown <= 0 then QuoteAsked(q.(state := Quoting)) else (q, Some(Tick))
    case KeyPress(k) => KeyPressed(p, k)
    case _ => (p, None)
  }

  // ---------------------------------------------------------------- the panel as written

  class Model {
    const parse: string -> Option<real>
    var selected: Option<TokenInfo>
    var amount: string
    var addr: string
    var state: State
    var field: Field
    var from: TokenInfo
    var quote: Option<FlowQuote>
    var quoteErr: string
    var countdown: int
    var result: Option<bool>
    var estimate: Option<FlowQuote>
    var estimateErr: string
    var estimating: bool

    ghost function Now(): Panel
      reads this
    {
      Panel(parse, selected, amount, addr, state, field, from, quote, quoteErr, countdown, result, estimate,
        estimateErr, estimating)
    }

    constructor (parse: string -> Option<real>)
      ensures Now() == NewPanel(parse)
    {
      this.parse := parse;
      selected, amount, addr, state, field, from := None, "", "", Form, TokenField, NO_TOKEN;
      quote, quoteErr, countdown, result := None, "", 0, None;
      estimate, estimateErr, estimating := None, "", false;
    }

    /** A reload of the balances replaces the token list, and with it the highlighted row. */
    method SetBalances(highlighted: Option<TokenInfo>)
      modifies this
      ensures Now() == old(Now()).(selected := highlighted)
    {
      selected := highlighted;
    }

    method Update(msg: Msg) returns (cmd: Option<Msg>)
      modifies this
      ensures (Now(), cmd) == Updated(old(Now()), msg)
    {
      hide KeyPressed, QuoteAsked;
      cmd := None;
      match msg {
        case EstimateResult(r) =>
          estimating := false;
          if r.Err? {
            estimate := None;
            estimateErr := r.error;
          } else {
            estimate := Some(r.value);
            estimateErr := "";
          }
        case QuoteResult(r) =>
          cmd := HandleQuote(r);
        case ExecuteResult(success) =>
          result := Some(success);
          state := Finished;
        case Tick =>
          if state == Preview {
            countdown := countdown - 1;
            if countdown <= 0 {
              state := Quoting;
              cmd := RequestQuote();
            } else {
              cmd := Some(Tick);
            }
          }
        case KeyPress(k) =>
          cmd := HandleKey(k);
        case _ =>
      }
    }

    method HandleQuote(r: Result<FlowQuote, string>) returns (cmd: Option<Msg>)
      modifies this`quote, this`quoteErr, this`state, this`field, this`countdown
      ensures (Now(), cmd) == Updated(old(Now()), QuoteResult(r))
    {
      if r.Err? {
        quote, quoteErr, state, field := None, r.error, Form, AddrField;
        return None;
      }
      quote, quoteErr, state, countdown := Some(r.value), "", Preview, REFRESH_SECONDS;
      cmd := Some(Tick);
    }

    method HandleKey(k: Key) returns (cmd: Option<Msg>)
      modifies this
      ensures (Now(), cmd) == KeyPressed(old(Now()), k)
    {
      cmd := None;
      if k.kind == EscKey {
        HandleEsc();
        return;
      }
      match state {
        case Form =>
          cmd := HandleFormKey(k);
        case Preview =>
          if k.name == "y" || k.name == "enter" {
            if quoteErr == "" && quote.Some? {
              state := Executing;
              cmd := Some(ExecuteRequest(Request(from, TrimSpace(amount), TrimSpace(addr))));
            }
          } else if k.name == "n" {
            state := Form;
            field := AddrField;
          }
        case Finished =>
          Reset();
        case _ =>
      }
    }

    method HandleEsc()
      modifies this
      ensures Now() == EscPressed(old(Now()))
    {
      match state {
        case Form =>
          if field != TokenField {
            field := TokenField;
          }
        case Preview =>
          Reset();
        case Finished =>
          Reset();
        case _ =>
      }
    }

    method HandleFormKey(k: Key) returns (cmd: Option<Msg>)
      modifies this
      ensures (Now(), cmd) == FormKeyPressed(old(Now()), k)
    {
      cmd := None;
      match field {
        case TokenField =>
          if k.kind == EnterKey {
            if selected.Some? {
              field := AmountField;
            }
          } else {
            selected := k.highlighted;
          }
        case AmountField =>
          if k.kind == EnterKey {
            field := AddrField;
            cmd := RequestEstimate();
          } else {
            estimate := None;
            estimateErr := "";
            amount := k.typed;
          }
        case AddrField =>
          if k.kind == EnterKey {
            if estimate.Some? && estimate.value.belowMin {
              quoteErr := "below minimum";
              return;
            }
            var usd := parse(TrimSpace(amount));
            if usd.None? || usd.value <= 0.0 || |TrimSpace(addr)| < MIN_BTC_ADDR_LEN {
              quoteErr := "invalid inputs";
              return;
            }
            state := Quoting;
            quoteErr := "";
            cmd := RequestQuote();
          } else {
            addr := k.typed;
          }
      }
    }

    method RequestQuote() returns (cmd: Option<Msg>)
      modifies this`from
      ensures (Now(), cmd) == QuoteAsked(old(Now()))
    {
      if selected.None? {
        return None;
      }
      from := selected.value;
      cmd := Some(QuoteRequest(Request(from, TrimSpace(amount), TrimSpace(addr))));
    }

    method RequestEstimate() returns (cmd: Option<Msg>)
      modifies this`from, this`estimating, this`estimateErr
      ensures (Now(), cmd) == EstimateAsked(old(Now()))
    {
      if selected.None? {
        return None;
      }
      var usd := parse(TrimSpace(amount));
      if usd.None? || usd.value <= 0.0 {
        return None;
      }
      from := selected.value;
      estimating := true;
      estimateErr := "";
      cmd := Some(EstimateRequest(from, TrimSpace(amount)));
    }

    method Reset()
      modifies this
      ensures Now() == ResetPanel(old(Now()))
    {
      state, field, quote, quoteErr, result, countdown := Form, TokenField, None, "", None, 0;
      ClearEstimate();
    }

    method ClearEstimate()
      modifies this`estimate, this`estimateErr, this`estimating
      ensures Now() == old(Now()).(estimate := None, estimateErr := "", estimating := false)
    {
      estimate, estimateErr, estimating := None, "", false;
    }
  }
}
