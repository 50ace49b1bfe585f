/**
 * Signing and sending: approvals and the three shapes of router swap. The chain keeps the allowances,
 * the answered price queries and the transactions sent; every call to it may fail.
 */
module Execution {
  import opened Text
  import opened Decimal
  import opened Units
  import opened Fixed
  import opened Doubles
  import opened Tokens

  datatype Query = AmountsOut(amountIn: int, path: seq<string>, out: nat)

  datatype SwapKind = ExactTokensForTokens | ExactEthForTokens | ExactTokensForEth

  /** `effective`: the approve was mined and set the allowance, as EIP-20 has it. */
  datatype Tx =
    | Approve(token: string, raw: int, effective: bool)
    | Swap(kind: SwapKind, amountIn: int, amountOutMin: int, path: seq<string>)

  datatype Outcome = Sent | InvalidInput | BadAmount | InsufficientAllowance | ChainError

  /** A word of the chain. */
  type Word = x: int | 0 <= x < TWO_TO_256

  class Chain {
    var allowances: map<string, Word>
    var queries: seq<Query>
    var txs: seq<Tx>
    ghost var asked: seq<(int, seq<string>)> // every amount and path, answered or not
    ghost var failures: nat                  // how many calls have failed

    function Allowed(token: string): Word
      reads this
    {
      if token in allowances then allowances[token] else 0
    }

    /** `getAmountsOut`: any answer, or none. */
    method GetAmountsOut(amountIn: int, path: seq<string>) returns (out: Option<nat>)
      modifies this`queries, this`asked, this`failures
      ensures asked == old(asked) + [(amountIn, path)]
      ensures failures == old(failures) + if out.Some? then 0 else 1
      ensures out.None? ==> queries == old(queries)
      ensures out.Some? ==> queries == old(queries) + [AmountsOut(amountIn, path, out.value)]
    {
      asked := asked + [(amountIn, path)];
      out := *;
      if out.Some? {
        queries := queries + [AmountsOut(amountIn, path, out.value)];
      } else {
        failures := failures + 1;
      }
    }

    method Allowance(token: string) returns (raw: Option<Word>)
      modifies this`failures
      ensures raw.Some? ==> raw.value == Allowed(token)
      ensures failures == old(failures) + if raw.None? then 1 else 0
    {
      var answered: bool := *;
      if !answered {
        failures := failures + 1;
        return None;
      }
      raw := Some(Allowed(token));
    }

    /**
     * Sending an approve: it may not get out, not be mined, or not be waited for to the end. It is effective when
     * the allowance becomes the amount; of an amount that is no word only the last 256 bits are approved.
     */
    method SendApprove(token: string, raw: int) returns (ok: bool, ghost sent: seq<Tx>)
      modifies this`txs, this`allowances, this`failures
      ensures txs == old(txs) + sent
      ensures failures == old(failures) + if ok then 0 else 1
      ensures sent == [] || exists effective :: sent == [Approve(token, raw, effective)]
      ensures ok ==> sent != []
      ensures sent == [Approve(token, raw, true)] ==> Allowed(token) == raw
      ensures sent == [] ==> allowances == old(allowances)
      ensures forall t :: t != token && t in allowances ==> t in old(allowances) && allowances[t] == old(allowances)[t]
    {
      var out: bool := *;
      if !out {
        failures := failures + 1;
        return false, [];
      }
      var mined: bool := *;
      if mined {
        allowances := allowances[token := raw % TWO_TO_256];
      }
      var effective := mined && 0 <= raw < TWO_TO_256;
      txs := txs + [Approve(token, raw, effective)];
      sent := [Approve(token, raw, effective)];
      ok := *;
      failures := failures + if ok then 0 else 1;
    }

    method SendSwap(tx: Tx) returns (ok: bool, ghost sent: seq<Tx>)
      requires tx.Swap?
      modifies this`txs, this`failures
      ensures txs == old(txs) + sent
      ensures failures == old(failures) + if ok then 0 else 1
      ensures sent == [] || sent == [tx]
      ensures ok ==> sent == [tx]
    {
      var out: bool := *;
      if !out {
        failures := failures + 1;
        return false, [];
      }
      txs := txs + [tx];
      sent := [tx];
      ok := *;
      failures := failures + if ok then 0 else 1;
    }
  }

  // ---------------------------------------------------------------- comparing amounts as floats

  /**
   * A float reader agrees with the exact one up to a monotone rounding: it reads every plain decimal that is not
   * out of range, reads no other numeral that `ParseUnits` accepts, and never swaps an order.
   */
  ghost predicate MonotoneReader(parse: string -> Option<real>) {
    && (forall s :: InRange(ParseFloat(s)) ==> parse(s).Some?)
    && (forall s :: Accepted(s) && parse(s).Some? ==> ParseFloat(s).Some?)
    && (forall s, t :: InOrder(ParseFloat(s), ParseFloat(t)) && parse(s).Some? && parse(t).Some? ==>
                         InOrder(parse(s), parse(t)))
  }

  /** A number no word is beyond. */
  predicate InRange(x: Option<real>) {
    x.Some? && -(TWO_TO_256 as real) <= x.value <= TWO_TO_256 as real
  }

  predicate InOrder(x: Option<real>, y: Option<real>) {
    x.Some? && y.Some? && x.value <= y.value
  }

  lemma OrderIsKept(parse: string -> Option<real>, s: string, t: string)
    requires MonotoneReader(parse) && InOrder(ParseFloat(s), ParseFloat(t)) && parse(s).Some? && parse(t).Some?
    ensures parse(s).value <= parse(t).value
  {
    hide ParseFloat, Accepted;
    assert InOrder(parse(s), parse(t));
  }

  /**
   * What is read and what `ParseUnits` accepts at `d` decimals is read as that many raw units, but for the
   * rounding.
   */
  lemma AmountIsRead(parse: string -> Option<real>, input: string, raw: int, d: Decimals)
    requires MonotoneReader(parse) && parse(input).Some? && ParsedUnits(input, d) == Ok(raw)
    ensures ParseFloat(input) == Some(Point(raw as real, d))
  {
    ParsedIsNumber(input, d);
    hide ParsedUnits, Point, ParseFloat, Accepted;
    ReadIsNumber(input, d);
  }

  /** The reader the executor really has is one. */
  lemma DoublesAreMonotone()
    ensures MonotoneReader(ReadDouble)
  {
    hide ParseFloat, Nearest, Accepted;
    forall s | InRange(ParseFloat(s))
      ensures ReadDouble(s).Some?
    {
      var x := ParseFloat(s).value;
      WordsRead(if x >= 0.0 then x else -x);
      assert x < 0.0 ==> -(-x) == x;
    }
    forall s, t | InOrder(ParseFloat(s), ParseFloat(t)) && ReadDouble(s).Some? && ReadDouble(t).Some?
      ensures InOrder(ReadDouble(s), ReadDouble(t))
    {
      NearestOrder(ParseFloat(s).value, ParseFloat(t).value);
    }
  }

  lemma PlainHasNoSpace(s: string)
    requires ParseFloat(s).Some?
    ensures s != "" && TrimSpace(s) == s
  {
    hide IndexOf, TrimSpace, Value, Point;
    var n := Split(s);
    var body := if n.neg then s[1..] else s;
    var dot := IndexOf(body, '.');
    assert body != "" && s[|s| - 1] == body[|body| - 1];
    if dot < |body| {
      assert n.frac != "" ==> n.frac[|n.frac| - 1] == body[|body| - 1];
      assert dot > 0 ==> n.whole[0] == body[0];
    }
    TrimSpaceNoop(s);
  }

  lemma ReadIsNumber(s: string, d: Decimals)
    requires ParseFloat(s).Some? && ParsedUnits(s, d).Ok?
    ensures ParseFloat(s).value == Point(ParsedUnits(s, d).value as real, d)
  {
    PlainHasNoSpace(s);
    ParsedIsNumber(s, d);
    hide TrimSpace, Split, Point;
  }

  lemma {:induction false} PointShrinks(x: real, k: nat)
    requires x >= 0.0
    ensures 0.0 <= Point(x, k) <= x
  {
    if k > 0 {
      PointShrinks(x, k - 1);
    }
  }

  /** Every allowance is read, and exactly but for the rounding. */
  lemma AllowanceIsRead(parse: string -> Option<real>, allowance: Word, d: Decimals)
    requires MonotoneReader(parse)
    ensures ParseFloat(FormatUnits(allowance, d)) == Some(Point(allowance as real, d))
    ensures parse(FormatUnits(allowance, d)).Some?
  {
    hide FormatUnits, ParseFloat, Point;
    ReadUnits(allowance, d);
    PointShrinks(allowance as real, d);
  }

  /** An allowance that covers the amount is never seen as smaller, whatever the rounding. */
  lemma CoveredIsSeen(parse: string -> Option<real>, allowance: Word, input: string, raw: int, d: Decimals)
    requires MonotoneReader(parse) && parse(input).Some?
    requires ParsedUnits(input, d) == Ok(raw) && raw <= allowance
    ensures parse(FormatUnits(allowance, d)).Some?
    ensures parse(input).value <= parse(FormatUnits(allowance, d)).value
  {
    hide ParsedUnits, Point, FormatUnits, ParseFloat, MonotoneReader;
    AmountIsRead(parse, input, raw, d);
    AllowanceIsRead(parse, allowance, d);
    PointOrder(raw as real, allowance as real, d);
    OrderIsKept(parse, input, FormatUnits(allowance, d));
  }

  /**
   * Whether the allowance looks smaller than the amount when both are read as floats; an unreadable one counts as
   * 0.
   */
  function LooksShort(parse: string -> Option<real>, current: string, input: string): bool {
    var cur := match parse(current) case Some(x) => x case None => 0.0;
    var want := match parse(input) case Some(x) => x case None => 0.0;
    cur < want
  }

  /**
   * The converse holds up to rounding only: an allowance that is short of the amount does not look so exactly when
   * the two are read as the same float.
   */
  lemma ShortfallHiddenExactlyWhen(parse: string -> Option<real>, allowance: Word, input: string, raw: int, d: Decimals)
    requires MonotoneReader(parse) && parse(input).Some?
    requires ParsedUnits(input, d) == Ok(raw) && allowance < raw
    ensures !LooksShort(parse, FormatUnits(allowance, d), input) <==> parse(FormatUnits(allowance, d)) == parse(input)
  {
    hide ParsedUnits, Point, FormatUnits, ParseFloat, MonotoneReader;
    AmountIsRead(parse, input, raw, d);
    AllowanceIsRead(parse, allowance, d);
    PointOrder(allowance as real, raw as real, d);
    OrderIsKept(parse, FormatUnits(allowance, d), input);
  }

  /** One token of 18 decimals, in raw units. */
  const ONE: nat := 1_000_000_000_000_000_000

  /** With doubles it happens: an allowance of one token does not look short of one token and one raw unit. */
  lemma ShortfallMayBeHidden()
    ensures MonotoneReader(ReadDouble)
    ensures ParsedUnits(FormatUnits(ONE + 1, 18), 18) == Ok(ONE + 1)
    ensures !LooksShort(ReadDouble, FormatUnits(ONE, 18), FormatUnits(ONE + 1, 18))
  {
    hide *;
    DoublesAreMonotone();
    RoundTrip(ONE + 1, 18);
    OneIsReadAsOne();
    SameIsNotShort(ReadDouble, FormatUnits(ONE, 18), FormatUnits(ONE + 1, 18));
  }

  lemma SameIsNotShort(parse: string -> Option<real>, s: string, t: string)
    requires parse(s) == parse(t)
    ensures !LooksShort(parse, s, t)
  {}

  lemma OneIsReadAsOne()
    ensures ReadDouble(FormatUnits(ONE, 18)) == ReadDouble(FormatUnits(ONE + 1, 18))
  {
    hide ParseFloat, FormatUnits, Point, Nearest;
    ReadUnits(ONE, 18);
    ReadUnits(ONE + 1, 18);
    OneInUnits();
    PointAdd(ONE as real, 1.0, 18);
    assert ONE as real + 1.0 == (ONE + 1) as real;
    NearOneIsOne(1.0 + Point(1.0, 18));
  }

  lemma OneInUnits()
    ensures Point(ONE as real, 18) == 1.0
    ensures 0.0 <= Point(1.0, 18) && LEAST as real * Point(1.0, 18) < 0.5
  {
    PointBySix(1.0, 12);
    PointBySix(0.000001, 6);
    PointBySix(0.000000000001, 0);
    PointBySix(ONE as real, 12);
    PointBySix(1_000_000_000_000.0, 6);
    PointBySix(1_000_000.0, 0);
    hide Point;
    NoPoint(1.0);
    NoPoint(0.000000000000000001);
  }

  lemma NoPoint(x: real)
    ensures Point(x, 0) == x
  {}

  lemma {:induction false} PointBySix(x: real, k: nat)
    ensures Point(x, k + 6) == Point(x / 1_000_000.0, k)
  {
    if k > 0 {
      PointBySix(x, k - 1);
    } else {
      assert Point(x, 2) == Point(x, 1) / 10.0 == x / 100.0;
      assert Point(x, 4) == Point(x, 3) / 10.0 == x / 10_000.0;
      assert Point(x, 6) == Point(x, 5) / 10.0 == x / 1_000_000.0;
    }
  }

  // ---------------------------------------------------------------- the executor

  /** The decimals the minimum output is read at. */
  function OutputDecimals(c: Config, fromToken: string, toToken: string): Decimals {
    if fromToken == NATIVE then ResolveDecimals(c.tokens, toToken) else TradedDecimals(c, toToken)
  }

  /** The one swap transaction that a request stands for. */
  function SwapCall(c: Config, fromToken: string, toToken: string, input: string,
      minOut: string): Result<Tx, ParseError>
  {
    var amountIn := ParsedUnits(input, TradedDecimals(c, fromToken));
    var amountOutMin := ParsedUnits(minOut, OutputDecimals(c, fromToken, toToken));
    if amountIn.Err? then Err(amountIn.error)
    else if amountOutMin.Err? then Err(amountOutMin.error)
    else if fromToken == NATIVE then Ok(Swap(ExactEthForTokens, amountIn.value, amountOutMin.value,
      [c.wrappedNative, toToken]))
    else if toToken == NATIVE then Ok(Swap(ExactTokensForEth, amountIn.value, amountOutMin.value,
      [fromToken, c.wrappedNative]))
    else Ok(Swap(ExactTokensForTokens, amountIn.value, amountOutMin.value, [fromToken, toToken]))
  }

  /**
   * Native coin in goes through the wrapped one as ETH for tokens, native coin out as tokens for ETH, and anything
   * else straight; the amounts are those written, at 18 decimals for native coin and at the listed ones for the rest.
   */
  lemma SwapCallMeaning(c: Config, fromToken: string, toToken: string, input: string, minOut: string)
    ensures var call := SwapCall(c, fromToken, toToken, input, minOut);
      var amountIn := ParsedUnits(input, if fromToken == "native" then 18 else ResolveDecimals(c.tokens, fromToken));
      var least := ParsedUnits(minOut,
        if toToken == "native" && fromToken != "native" then 18 else ResolveDecimals(c.tokens, toToken));
      && (call.Ok? <==> amountIn.Ok? && least.Ok?)
      && (call.Ok? ==>
           call == Ok(
             if fromToken == "native" then
               Swap(ExactEthForTokens, amountIn.value, least.value, [c.wrappedNative, toToken])
             else if toToken == "native" then
               Swap(ExactTokensForEth, amountIn.value, least.value, [fromToken, c.wrappedNative])
             else Swap(ExactTokensForTokens, amountIn.value, least.value, [fromToken, toToken])))
  {
    hide ParsedUnits, ResolveDecimals;
  }

  /** An approve of exactly the amount asked for. */
  predicate IsApproval(c: Config, tx: Tx, token: string, amount: string)
  {
    tx.Approve? && tx.token == token && ParsedUnits(amount, ResolveDecimals(c.tokens, token)) == Ok(tx.raw)
  }

  /** An approve that was needed, and is for the whole amount. */
  predicate IsNeededApproval(c: Config, tx: Tx, token: string, amount: string, allowance: nat)
  {
    IsApproval(c, tx, token, amount) && allowance < tx.raw
  }

  /** At most one approve, then at most one swap: the one the request stands for. */
  ghost predicate FullSwapSent(c: Config, sent: seq<Tx>, fromToken: string, toToken: string, input: string,
      minOutput: string, allowance: nat) {
    var approved := sent != [] && sent[0].Approve?;
    var swaps := if approved then sent[1..] else sent;
    && (approved ==> fromToken != NATIVE && IsNeededApproval(c, sent[0], fromToken, input, allowance))
    && (swaps == [] || Ok(swaps) == Only(SwapCall(c, fromToken, toToken, input, minOutput)))
  }

  class Executor {
    const c: Config
    const chain: Chain
    const parse: string -> Option<real>

    constructor (c: Config, chain: Chain, parse: string -> Option<real>)
      ensures this.c == c && this.chain == chain && this.parse == parse
    {
      this.c, this.chain, this.parse := c, chain, parse;
    }

    method CheckAllowance(token: string) returns (r: Option<string>)
      modifies chain`failures
      ensures chain.failures == old(chain.failures) + if r.None? then 1 else 0
      ensures r.Some? ==> r.value == FormatUnits(chain.Allowed(token), ResolveDecimals(c.tokens, token))
    {
      var raw := chain.Allowance(token);
      return if raw.Some? then Some(FormatUnits(raw.value, ResolveDecimals(c.tokens, token))) else None;
    }

    method ApproveToken(token: string, amount: string) returns (r: Outcome, ghost sent: seq<Tx>)
      modifies chain`txs, chain`allowances, chain`failures
      ensures chain.failures == old(chain.failures) + if r == ChainError then 1 else 0
      ensures chain.txs == old(chain.txs) + sent
      ensures sent == [] || (|sent| == 1 && IsApproval(c, sent[0], token, amount))
      ensures r == Sent ==> sent != []
      ensures sent != [] ==> sent[0].token == token
      ensures r in {Sent, ChainError, BadAmount}
      ensures r == BadAmount <==> ParsedUnits(amount, ResolveDecimals(c.tokens, token)).Err?
      ensures sent != [] && sent[0].effective ==> chain.Allowed(token) == sent[0].raw
    {
      var raw := ParseUnits(amount, ResolveDecimals(c.tokens, token));
      if raw.Err? {
        return BadAmount, [];
      }
      var ok;
      ok, sent := chain.SendApprove(token, raw.value);
      r := if ok then Sent else ChainError;
    }

    predicate InputsValid(fromToken: string, toToken: string, input: string, slippage: real) {
      && TrimSpace(fromToken) != "" && TrimSpace(toToken) != ""
      && parse(input).Some? && parse(input).value > 0.0
      && 0.0 <= slippage <= 100.0
    }

    method ExecuteBuyWithNative(toToken: string, nativeAmount: string, minOutput: string, slippage: real)
      returns (r: Outcome, ghost sent: seq<Tx>)
      modifies chain`txs, chain`failures
      ensures chain.failures == old(chain.failures) + if r == ChainError then 1 else 0
      ensures chain.txs == old(chain.txs) + sent
      ensures sent == [] || Ok(sent) == Only(SwapCall(c, NATIVE, toToken, nativeAmount, minOutput))
      ensures r == Sent ==> sent != []
      ensures r == InvalidInput ==> !InputsValid(NATIVE, toToken, nativeAmount, slippage)
      ensures r == BadAmount ==> SwapCall(c, NATIVE, toToken, nativeAmount, minOutput).Err?
      ensures r != InsufficientAllowance
    {
      if !InputsValid(NATIVE, toToken, nativeAmount, slippage) {
        return InvalidInput, [];
      }
      var amountOutMin := ParseUnits(minOutput, ResolveDecimals(c.tokens, toToken));
      if amountOutMin.Err? {
        return BadAmount, [];
      }
      var amountIn := ParseUnits(nativeAmount, 18);
      if amountIn.Err? {
        return BadAmount, [];
      }
      var ok;
      ok, sent := chain.SendSwap(Swap(ExactEthForTokens, amountIn.value, amountOutMin.value,
        [c.wrappedNative, toToken]));
      r := if ok then Sent else ChainError;
    }

    method ExecuteSellForNative(fromToken: string, input: string, minOutput: string, slippage: real)
      returns (r: Outcome, ghost sent: seq<Tx>)
      requires fromToken != NATIVE
      modifies chain`txs, chain`failures
      ensures chain.failures == old(chain.failures) + if r == ChainError then 1 else 0
      ensures chain.txs == old(chain.txs) + sent
      ensures sent == [] || Ok(sent) == Only(SwapCall(c, fromToken, NATIVE, input, minOutput))
      ensures r == Sent ==> sent != []
      ensures r == InvalidInput ==> !InputsValid(fromToken, NATIVE, input, slippage)
      ensures r == BadAmount ==> SwapCall(c, fromToken, NATIVE, input, minOutput).Err?
      ensures r != InsufficientAllowance
    {
      if !InputsValid(fromToken, NATIVE, input, slippage) {
        return InvalidInput, [];
      }
      var amountIn := ParseUnits(input, ResolveDecimals(c.tokens, fromToken));
      if amountIn.Err? {
        return BadAmount, [];
      }
      var amountOutMin := ParseUnits(minOutput, 18);
      if amountOutMin.Err? {
        return BadAmount, [];
      }
      var ok;
      ok, sent := chain.SendSwap(Swap(ExactTokensForEth, amountIn.value, amountOutMin.value,
        [fromToken, c.wrappedNative]));
      r := if ok then Sent else ChainError;
    }

    /** What the code sees when it compares the allowance with the amount. */
    predicate SeenShort(token: string, input: string)
      reads chain
    {
      LooksShort(parse, FormatUnits(chain.Allowed(token), ResolveDecimals(c.tokens, token)), input)
    }

    /** Token to token; checks the allowance again and refuses when it looks short. */
    method ExecuteSwap(fromToken: string, toToken: string, input: string, minOutput: string, slippage: real)
      returns (r: Outcome, ghost sent: seq<Tx>)
      requires fromToken != NATIVE && toToken != NATIVE
      modifies chain`txs, chain`failures
      ensures chain.failures == old(chain.failures) + if r == ChainError then 1 else 0
      ensures chain.txs == old(chain.txs) + sent
      ensures sent == [] || Ok(sent) == Only(SwapCall(c, fromToken, toToken, input, minOutput))
      ensures r == Sent ==> sent != []
      ensures r == InvalidInput ==> !InputsValid(fromToken, toToken, input, slippage)
      ensures r == BadAmount ==> SwapCall(c, fromToken, toToken, input, minOutput).Err?
      ensures r == InsufficientAllowance ==> sent == [] && SeenShort(fromToken, input)
    {
      if !InputsValid(fromToken, toToken, input, slippage) {
        return InvalidInput, [];
      }
      var current := CheckAllowance(fromToken);
      if current.None? {
        return ChainError, [];
      }
      if LooksShort(parse, current.value, input) {
        return InsufficientAllowance, [];
      }
      var amountIn := ParseUnits(input, ResolveDecimals(c.tokens, fromToken));
      if amountIn.Err? {
        return BadAmount, [];
      }
      var amountOutMin := ParseUnits(minOutput, ResolveDecimals(c.tokens, toToken));
      if amountOutMin.Err? {
        return BadAmount, [];
      }
      var ok;
      ok, sent := chain.SendSwap(Swap(ExactTokensForTokens, amountIn.value, amountOutMin.value, [fromToken, toToken]));
      r := if ok then Sent else ChainError;
    }

    /** Approves when the allowance looks short, and only then. */
    method EnsureAllowance(token: string, input: string) returns (r: Outcome, ghost sent: seq<Tx>)
      requires MonotoneReader(parse) && parse(input).Some?
      modifies chain`txs, chain`allowances, chain`failures
      ensures chain.failures == old(chain.failures) + if r == ChainError then 1 else 0
      ensures chain.txs == old(chain.txs) + sent
      ensures sent == [] || (|sent| == 1 && IsNeededApproval(c, sent[0], token, input, old(chain.Allowed(token))))
      ensures r in {Sent, ChainError, BadAmount}
      ensures r == BadAmount ==> ParsedUnits(input, ResolveDecimals(c.tokens, token)).Err?
      ensures !old(SeenShort(token, input)) ==> sent == [] && r in {Sent, ChainError}
      ensures r == Sent && old(SeenShort(token, input)) ==> sent != []
      ensures r == Sent && (sent == [] || sent[0].effective) ==> !SeenShort(token, input)
    {
      hide FormatUnits, ParsedUnits, ResolveDecimals, LooksShort, MonotoneReader;
      sent := [];
      var current := CheckAllowance(token);
      if current.None? {
        return ChainError, [];
      }
      if !LooksShort(parse, current.value, input) {
        return Sent, [];
      }
      r, sent := ApproveToken(token, input);
      if sent != [] {
        ShortIsReal(old(chain.Allowed(token)), token, input, sent[0].raw);
        if sent[0].effective {
          NotShort(chain.Allowed(token), token, input, sent[0].raw);
        }
      }
    }

    /** Routes to one of the three shapes, approving first when the allowance looks short. */
    method ExecuteFullSwap(fromToken: string, toToken: string, input: string, minOutput: string, slippage: real)
      returns (r: Outcome, ghost sent: seq<Tx>)
      requires MonotoneReader(parse)
      modifies chain`txs, chain`allowances, chain`failures
      ensures chain.failures == old(chain.failures) + if r == ChainError then 1 else 0
      ensures chain.txs == old(chain.txs) + sent
      // an approve is for exactly the amount, and only when the allowance is really below it
      ensures FullSwapSent(c, sent, fromToken, toToken, input, minOutput, old(chain.Allowed(fromToken)))
      ensures r == Sent ==> sent != [] && sent[|sent| - 1].Swap?
      // an approve goes out only when the allowance looks short, and then the swap does not go out without one
      ensures sent != [] && fromToken != NATIVE ==> (sent[0].Approve? <==> old(SeenShort(fromToken, input)))
      // and when it does not look short a sound request is swapped at once, unless the chain fails
      ensures var call := SwapCall(c, fromToken, toToken, input, minOutput);
        var sound := InputsValid(fromToken, toToken, input, slippage) && call.Ok? && r != ChainError;
        sound && (fromToken == NATIVE || !old(SeenShort(fromToken, input))) ==> r == Sent && Ok(sent) == Only(call)
      // every other refusal has its own cause
      ensures r == InvalidInput <==>
        || TrimSpace(fromToken) == "" || TrimSpace(toToken) == "" || parse(input).None? || parse(input).value <= 0.0
        || slippage < 0.0 || slippage > 100.0
      ensures r == BadAmount ==> SwapCall(c, fromToken, toToken, input, minOutput).Err?
      // the second look at the allowance never refuses, unless an approve was mined without effect
      ensures r == InsufficientAllowance ==> |sent| == 1 && sent[0].Approve? && !sent[0].effective
    {
      hide FormatUnits, ParsedUnits, ResolveDecimals, LooksShort, MonotoneReader;
      assert fromToken != NATIVE && ParsedUnits(input, ResolveDecimals(c.tokens, fromToken)).Err? ==>
        SwapCall(c, fromToken, toToken, input, minOutput).Err?;
      hide TradedDecimals;
      ghost var allowance := chain.Allowed(fromToken);
      ApprovedFirst([], [], fromToken, toToken, input, minOutput, allowance);
      sent := [];
      if !InputsValid(fromToken, toToken, input, slippage) {
        return InvalidInput, [];
      }
      assert parse(input).Some?;
      hide FullSwapSent, SwapCall, InputsValid, IsNeededApproval;
      if fromToken == NATIVE {
        r, sent := ExecuteBuyWithNative(toToken, input, minOutput, slippage);
        ApprovedFirst([], sent, fromToken, toToken, input, minOutput, allowance);
        return;
      }
      ghost var approval;
      r, approval := EnsureAllowance(fromToken, input);
      if r != Sent {
        ApprovedFirst(approval, [], fromToken, toToken, input, minOutput, allowance);
        assert approval + [] == approval;
        return r, approval;
      }
      ghost var swaps;
      if toToken == NATIVE {
        r, swaps := ExecuteSellForNative(fromToken, input, minOutput, slippage);
      } else {
        r, swaps := ExecuteSwap(fromToken, toToken, input, minOutput, slippage);
      }
      sent := approval + swaps;
      ApprovedFirst(approval, swaps, fromToken, toToken, input, minOutput, allowance);
    }

    /** At most one needed approve followed by at most the one swap is a full swap. */
    lemma ApprovedFirst(approval: seq<Tx>, swaps: seq<Tx>, fromToken: string, toToken: string, input: string,
        minOutput: string, allowance: nat)
      requires approval == [] || fromToken != NATIVE
      requires approval == [] || (|approval| == 1 && IsNeededApproval(c, approval[0], fromToken, input, allowance))
      requires swaps == [] || Ok(swaps) == Only(SwapCall(c, fromToken, toToken, input, minOutput))
      ensures FullSwapSent(c, approval + swaps, fromToken, toToken, input, minOutput, allowance)
      ensures |approval + swaps| == |approval| + |swaps| && (approval == [] ==> approval + swaps == swaps)
      ensures approval != [] ==> (approval + swaps)[0] == approval[0]
      ensures swaps != [] ==> (approval + swaps)[|approval + swaps| - 1] == swaps[|swaps| - 1]
      ensures swaps != [] ==> swaps[|swaps| - 1].Swap?
    {
      hide ParsedUnits, ResolveDecimals, TradedDecimals;
      assert approval == [] ==> approval + swaps == swaps;
      assert approval != [] ==> (approval + swaps)[1..] == swaps;
    }

    lemma NotShort(allowance: Word, token: string, input: string, raw: int)
      requires MonotoneReader(parse) && parse(input).Some?
      requires ParsedUnits(input, ResolveDecimals(c.tokens, token)) == Ok(raw) && raw <= allowance
      ensures !LooksShort(parse, FormatUnits(allowance, ResolveDecimals(c.tokens, token)), input)
    {
      hide FormatUnits, ParsedUnits, ResolveDecimals, ParseFloat, Accepted;
      CoveredIsSeen(parse, allowance, input, raw, ResolveDecimals(c.tokens, token));
    }

    lemma ShortIsReal(allowance: Word, token: string, input: string, raw: int)
      requires MonotoneReader(parse) && parse(input).Some?
      requires ParsedUnits(input, ResolveDecimals(c.tokens, token)) == Ok(raw)
      requires LooksShort(parse, FormatUnits(allowance, ResolveDecimals(c.tokens, token)), input)
      ensures allowance < raw
    {
      hide *;
      if raw <= allowance {
        NotShort(allowance, token, input, raw);
      }
    }
  }

  function Only(call: Result<Tx, ParseError>): Result<seq<Tx>, ParseError> {
    match call
    case Ok(tx) => Ok([tx])
    case Err(e) => Err(e)
  }
}
