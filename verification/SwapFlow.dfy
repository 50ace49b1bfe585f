/** The whole swap: dollars to tokens at a fresh price, quote, minimum output, execution. */
module SwapFlow {
  import opened Text
  import opened Decimal
  import opened Units
  import opened Fixed
  import opened MinOutput
  import opened Tokens
  import opened Chains
  import opened Execution

  datatype FlowOutcome = Done | Refused | Failed(outcome: Outcome)

  /** An answered price query along a route from `source` to `target`. */
  predicate IsRoute(q: Query, source: string, target: string) {
    |q.path| >= 2 && q.path[0] == source && q.path[|q.path| - 1] == target
  }

  /** Some dollars in raw units of the stablecoin, to the nearest. */
  function Stable(c: Config, usd: real): nat
    requires usd >= 0.0
  {
    RoundHalfEven(Lift(usd, ResolveDecimals(c.tokens, c.stablecoin)))
  }

  lemma UsdParsed(usd: real, d: Decimals)
    requires usd >= 0.0
    ensures ParsedUnits(FormatFixed(usd, d), d) == Ok(RoundHalfEven(Lift(usd, d)))
  {
    hide ParsedUnits, FixedPoint, Lift;
    FixedParsed(false, RoundHalfEven(Lift(usd, d)), d, d);
    assert Shift(RoundHalfEven(Lift(usd, d)), 0) == RoundHalfEven(Lift(usd, d));
  }

  /**
   * What a completed conversion and quote have asked of the chain: how much of a token the dollars buy, and what
   * that much of it is worth.
   */
  ghost predicate Priced(usd: real, sell: Query, worth: Query, c: Config, fromToken: TokenInfo, toToken: TokenInfo) {
    && usd > 0.0 && sell.amountIn == Stable(c, usd)
    && IsRoute(sell, c.stablecoin, ResolveAddress(c, fromToken.address)) && sell.out > 0
    && worth.path == [ResolveAddress(c, fromToken.address), ResolveAddress(c, toToken.address)]
    && var amount := FormatUnits(sell.out, fromToken.decimals);
       ParsedUnits(amount, ResolveDecimals(c.tokens, worth.path[0])) == Ok(worth.amountIn)
  }

  /** The routes from the stablecoin: straight, through the wrapped native coin, and straight as a last resort. */
  function Ladder(c: Config, tokenAddr: string): (routes: seq<seq<string>>)
    ensures forall k :: 0 <= k < |routes| ==>
      routes[k] in {[c.stablecoin, tokenAddr], [c.stablecoin, c.wrappedNative, tokenAddr]}
  {
    (if EqualFold(tokenAddr, c.stablecoin) then [] else [[c.stablecoin, tokenAddr]])
    + (if EqualFold(tokenAddr, c.wrappedNative) then [] else [[c.stablecoin, c.wrappedNative, tokenAddr]])
    + [[c.stablecoin, tokenAddr]]
  }

  /** The straight route is asked first, unless the token is the stablecoin itself, and last in any case. */
  lemma LadderOrder(c: Config, tokenAddr: string)
    ensures var (straight, through) := ([c.stablecoin, tokenAddr], [c.stablecoin, c.wrappedNative, tokenAddr]);
      var (stable, wrapped) := (Lower(tokenAddr) == Lower(c.stablecoin), Lower(tokenAddr) == Lower(c.wrappedNative));
      Ladder(c, tokenAddr) ==
        if stable && wrapped then [straight]
        else if stable then [through, straight]
        else if wrapped then [straight, straight]
        else [straight, through, straight]
  {
    hide Lower;
  }

  /** There is no address on one side, or the amount is not a positive number with no more decimals than are read. */
  ghost predicate Unquotable(parse: string -> Option<real>, c: Config, fromAddr: string, toAddr: string,
      amount: string) {
    || TrimSpace(fromAddr) == "" || TrimSpace(toAddr) == ""
    || parse(amount).None? || parse(amount).value <= 0.0
    || ParsedUnits(amount, ResolveDecimals(c.tokens, fromAddr)).Err?
  }

  /**
   * Why there is no price although every call was answered: the dollars are not a positive number, they buy nothing,
   * what they buy cannot be quoted, or the guard refuses the quote.
   */
  ghost predicate Unpriceable(parse: string -> Option<real>, c: Config, fromToken: TokenInfo, toToken: TokenInfo,
      usdAmount: string, slippage: real, sell: Query, worth: Query) {
    || parse(usdAmount).None? || parse(usdAmount).value <= 0.0
    || sell.out == 0
    || Unquotable(parse, c, ResolveAddress(c, fromToken.address), ResolveAddress(c, toToken.address),
         FormatUnits(sell.out, fromToken.decimals))
    || GuardedMinimum(c, toToken, worth.out, slippage).Err?
  }

  function Rungs(amountIn: int, routes: seq<seq<string>>): seq<(int, seq<string>)> {
    seq(|routes|, i requires 0 <= i < |routes| => (amountIn, routes[i]))
  }

  lemma RungsStep(amountIn: int, routes: seq<seq<string>>, n: nat)
    requires n < |routes|
    ensures Rungs(amountIn, routes[..n + 1]) == Rungs(amountIn, routes[..n]) + [(amountIn, routes[n])]
  {}

  class Flow {
    const c: Config
    const chain: Chain
    const parse: string -> Option<real>

    constructor (c: Config, chain: Chain, parse: string -> Option<real>)
      ensures this.c == c && this.chain == chain && this.parse == parse
    {
      this.c, this.chain, this.parse := c, chain, parse;
    }

    /** The routes of the ladder are asked one after the other, each once, until one has an answer. */
    method AskLadder(amountIn: int, tokenAddr: string) returns (raw: Option<nat>, ghost sell: Query, ghost rungs: nat)
      modifies chain`queries, chain`asked, chain`failures
      ensures 0 < rungs <= |Ladder(c, tokenAddr)|
      ensures chain.asked == old(chain.asked) + Rungs(amountIn, Ladder(c, tokenAddr)[..rungs])
      ensures raw.Some? ==> chain.queries == old(chain.queries) + [sell]
      ensures raw.Some? ==> sell == AmountsOut(amountIn, Ladder(c, tokenAddr)[rungs - 1], raw.value)
      ensures raw.None? ==> chain.queries == old(chain.queries) && rungs == |Ladder(c, tokenAddr)|
      ensures chain.failures == old(chain.failures) + if raw.Some? then rungs - 1 else rungs
    {
      hide EqualFold;
      ghost var ladder := Ladder(c, tokenAddr);
      ghost var before := chain.asked;
      raw, sell, rungs := None, AmountsOut(0, [], 0), 0;
      assert Rungs(amountIn, ladder[..0]) == [];
      hide Rungs;
      if !EqualFold(tokenAddr, c.stablecoin) {
        raw, sell := Ask(amountIn, [c.stablecoin, tokenAddr]);
        RungsStep(amountIn, ladder, rungs);
        rungs := rungs + 1;
      }
      assert chain.asked == before + Rungs(amountIn, ladder[..rungs]);
      if raw.None? && !EqualFold(tokenAddr, c.wrappedNative) {
        raw, sell := Ask(amountIn, [c.stablecoin, c.wrappedNative, tokenAddr]);
        RungsStep(amountIn, ladder, rungs);
        rungs := rungs + 1;
      }
      assert chain.asked == before + Rungs(amountIn, ladder[..rungs]);
      if raw.None? {
        raw, sell := Ask(amountIn, [c.stablecoin, tokenAddr]);
        RungsStep(amountIn, ladder, rungs);
        rungs := rungs + 1;
      }
    }

    method ConvertUsdToTokenAmount(token: TokenInfo, usd: real) returns (r: Option<string>, ghost sell: Query)
      modifies chain`queries, chain`asked, chain`failures
      ensures old(chain.queries) <= chain.queries
      ensures r.Some? ==>
        && |chain.queries| > |old(chain.queries)| && chain.queries[|chain.queries| - 1] == sell
        && IsRoute(sell, c.stablecoin, ResolveAddress(c, token.address)) && sell.out > 0
        && r.value == FormatUnits(sell.out, token.decimals)
        && (usd >= 0.0 ==> sell.amountIn == Stable(c, usd))
      ensures old(chain.failures) <= chain.failures
      ensures r.None? && usd >= 0.0 ==>
        chain.failures > old(chain.failures) || (chain.queries == old(chain.queries) + [sell] && sell.out == 0)
    {
      hide FormatUnits, ResolveDecimals, FormatFixed, ParsedUnits, RoundHalfEven, Lift;
      sell := AmountsOut(0, [], 0);
      var stableDecimals := ResolveDecimals(c.tokens, c.stablecoin);
      if usd >= 0.0 {
        UsdParsed(usd, stableDecimals);
      }
      var amountIn := ParseUnits(FormatFixed(usd, stableDecimals), stableDecimals);
      if amountIn.Err? {
        return None, sell;
      }
      var raw;
      ghost var rungs;
      raw, sell, rungs := AskLadder(amountIn.value, ResolveAddress(c, token.address));
      if raw.None? || raw.value == 0 {
        return None, sell;
      }
      r := Some(FormatUnits(raw.value, token.decimals));
    }

    method Ask(amountIn: int, path: seq<string>) returns (raw: Option<nat>, ghost q: Query)
      modifies chain`queries, chain`asked, chain`failures
      ensures chain.asked == old(chain.asked) + [(amountIn, path)]
      ensures raw.None? ==> chain.queries == old(chain.queries)
      ensures raw.Some? ==> chain.queries == old(chain.queries) + [q] && q == AmountsOut(amountIn, path, raw.value)
      ensures chain.failures == old(chain.failures) + if raw.Some? then 0 else 1
    {
      raw := chain.GetAmountsOut(amountIn, path);
      q := AmountsOut(amountIn, path, if raw.Some? then raw.value else 0);
    }

    /** The DEX quote for an amount given as text. */
    method GetQuote(fromAddr: string, toAddr: string, amount: string) returns (r: Option<string>, ghost worth: Query)
      modifies chain`queries, chain`asked, chain`failures
      ensures old(chain.queries) <= chain.queries
      ensures r.Some? ==>
        && |chain.queries| > |old(chain.queries)| && chain.queries[|chain.queries| - 1] == worth
        && worth.path == [fromAddr, toAddr]
        && ParsedUnits(amount, ResolveDecimals(c.tokens, fromAddr)) == Ok(worth.amountIn)
        && r.value == FormatUnits(worth.out, ResolveDecimals(c.tokens, toAddr))
      ensures old(chain.failures) <= chain.failures
      ensures r.None? ==> chain.failures > old(chain.failures) || Unquotable(parse, c, fromAddr, toAddr, amount)
    {
      worth := AmountsOut(0, [], 0);
      if TrimSpace(fromAddr) == "" || TrimSpace(toAddr) == "" || parse(amount).None? || parse(amount).value <= 0.0 {
        return None, worth;
      }
      var amountIn := ParseUnits(amount, ResolveDecimals(c.tokens, fromAddr));
      hide FormatUnits, ResolveDecimals, ParsedUnits;
      if amountIn.Err? {
        return None, worth;
      }
      var out;
      out, worth := Ask(amountIn.value, [fromAddr, toAddr]);
      r := if out.Some? then Some(FormatUnits(out.value, ResolveDecimals(c.tokens, toAddr))) else None;
    }

    /** Everything before signing: the amount to sell and the least to accept, both as text. */
    method Price(fromToken: TokenInfo, toToken: TokenInfo, usdAmount: string, slippage: real, keyParses: bool)
      returns (r: Option<(string, string)>, ghost sell: Query, ghost worth: Query)
      modifies chain`queries, chain`asked, chain`failures
      ensures r.Some? ==>
        && AskedSince(old(chain.queries), chain.queries, sell)
        && AskedSince(old(chain.queries), chain.queries, worth)
        && parse(usdAmount).Some? && Priced(parse(usdAmount).value, sell, worth, c, fromToken, toToken)
        && r.value.0 == FormatUnits(sell.out, fromToken.decimals)
        && Ok(r.value.1) == GuardedMinimum(c, toToken, worth.out, slippage)
      ensures old(chain.failures) <= chain.failures
      ensures r.None? ==>
        || chain.failures > old(chain.failures)
        || !keyParses || Unpriceable(parse, c, fromToken, toToken, usdAmount, slippage, sell, worth)
    {
      hide FormatUnits, ResolveDecimals, ParsedUnits, MinOutputFor, Stable;
      sell, worth := AmountsOut(0, [], 0), AmountsOut(0, [], 0);
      var usd := parse(usdAmount);
      if usd.None? || usd.value <= 0.0 {
        return None, sell, worth;
      }
      if !keyParses {
        return None, sell, worth;
      }
      var amount, estimate;
      amount, sell := ConvertUsdToTokenAmount(fromToken, usd.value);
      if amount.None? {
        return None, sell, worth;
      }
      ghost var k := |chain.queries| - 1;
      estimate, worth := GetQuote(ResolveAddress(c, fromToken.address), ResolveAddress(c, toToken.address),
        amount.value);
      if estimate.None? {
        return None, sell, worth;
      }
      assert chain.queries[k] == sell;
      var minOutput := MinOutputFor(estimate.value, slippage, toToken.decimals);
      if minOutput.Err? {
        return None, sell, worth;
      }
      r := Some((amount.value, minOutput.value));
    }

    /** A swap of some dollars' worth. Everything sent is read off the two price answers. */
    method Execute(fromToken: TokenInfo, toToken: TokenInfo, usdAmount: string, slippage: real, keyParses: bool)
      returns (r: FlowOutcome, ghost sent: seq<Tx>, ghost sell: Query, ghost worth: Query)
      requires MonotoneReader(parse)
      modifies chain
      ensures chain.txs == old(chain.txs) + sent
      ensures sent != [] ==>
        && AskedSince(old(chain.queries), chain.queries, sell)
        && AskedSince(old(chain.queries), chain.queries, worth)
        && parse(usdAmount).Some? && Priced(parse(usdAmount).value, sell, worth, c, fromToken, toToken)
        && TradesQuoted(sent, c, fromToken, toToken, sell.out, worth.out, slippage,
          old(chain.Allowed(fromToken.address)))
      ensures r == Done ==> sent != [] && sent[|sent| - 1].Swap?
      // nothing is refused without a cause
      ensures r == Refused ==>
        || chain.failures > old(chain.failures)
        || !keyParses || Unpriceable(parse, c, fromToken, toToken, usdAmount, slippage, sell, worth)
      ensures r == Failed(ChainError) ==> chain.failures > old(chain.failures)
    {
      hide FormatUnits, GuardedMinimum, MonotoneReader, FullSwapSent, Priced, AskedSince, Unpriceable, SwapCall;
      hide ResolveDecimals, ParsedUnits, LooksShort, TrimSpace;
      var texts;
      texts, sell, worth := Price(fromToken, toToken, usdAmount, slippage, keyParses);
      if texts.None? {
        return Refused, [], sell, worth;
      }
      var e := new Executor(c, chain, parse);
      var outcome;
      outcome, sent := e.ExecuteFullSwap(fromToken.address, toToken.address, texts.value.0, texts.value.1, slippage);
      r := if outcome == Sent then Done else Failed(outcome);
    }
  }

  ghost predicate AskedSince(before: seq<Query>, now: seq<Query>, q: Query) {
    exists k :: |before| <= k < |now| && now[k] == q
  }

  /** The minimum guarded for a quote of `bought` raw units of a token. */
  function GuardedMinimum(c: Config, toToken: TokenInfo, bought: nat, slippage: real): Result<string, MinError> {
    var quoted := FormatUnits(bought, ResolveDecimals(c.tokens, ResolveAddress(c, toToken.address)));
    MinOutputFor(quoted, slippage, toToken.decimals)
  }

  /**
   * The transactions sent are a full swap of the text of `sold` raw units for at least the guarded part of
   * `bought`.
   */
  ghost predicate TradesQuoted(sent: seq<Tx>, c: Config, fromToken: TokenInfo, toToken: TokenInfo, sold: nat,
      bought: nat, slippage: real, allowance: nat) {
    var amount := FormatUnits(sold, fromToken.decimals);
    var minOutput := GuardedMinimum(c, toToken, bought, slippage);
    minOutput.Ok? && FullSwapSent(c, sent, fromToken.address, toToken.address, amount, minOutput.value, allowance)
  }

  // ---------------------------------------------------------------- no fee, and a guarded minimum

  /**
   * With consistent decimals nothing is lost on the way through text: an approve is for exactly the raw
   * amount the price answer gave, the router is asked to sell exactly that amount, and it must return at
   * least the guarded part of what the quote answer promised.
   */
  lemma QuotedIsTraded(sent: seq<Tx>, c: Config, fromToken: TokenInfo, toToken: TokenInfo, sold: nat, bought: nat,
      slippage: real, allowance: nat, tx: Tx)
    requires TradesQuoted(sent, c, fromToken, toToken, sold, bought, slippage, allowance)
    requires Consistent(c, fromToken) && Consistent(c, toToken)
    requires toToken.address == NATIVE ==> ResolveDecimals(c.tokens, NATIVE) == 18
    requires tx in sent
    ensures tx.Approve? ==> tx.token == fromToken.address && tx.raw == sold && allowance < sold
    ensures tx.Swap? ==> tx.amountIn == sold
    ensures tx.Swap? ==> slippage <= 100.0
    ensures tx.Swap? ==> tx.amountOutMin == RawMinimum(bought, slippage, toToken.decimals) > 0
  {
    hide FormatUnits, ResolveDecimals, ParsedUnits, MinOutputFor, RawMinimum;
    RoundTrip(sold, fromToken.decimals);
    MinOutputExact(bought, slippage, toToken.decimals);
    if sent[0].Approve? {
      assert tx == sent[0] || tx in sent[1..];
    }
  }

  /** The same for any two tokens found by their symbols in a well-formed configuration. */
  lemma NoFee(sent: seq<Tx>, c: Config, fromSymbol: string, toSymbol: string, sold: nat, bought: nat, slippage: real,
      allowance: nat, tx: Tx)
    requires WellFormed(c) && ResolveToken(c, fromSymbol).Some? && ResolveToken(c, toSymbol).Some?
    requires var (f, t) := (ResolveToken(c, fromSymbol).value, ResolveToken(c, toSymbol).value);
      TradesQuoted(sent, c, f, t, sold, bought, slippage, allowance)
    requires tx in sent
    ensures tx.Approve? ==>
      tx.token == ResolveToken(c, fromSymbol).value.address && tx.raw == sold && allowance < sold
    ensures tx.Swap? ==> tx.amountIn == sold && slippage <= 100.0
    ensures tx.Swap? ==> tx.amountOutMin == RawMinimum(bought, slippage, ResolveToken(c, toSymbol).value.decimals) > 0
  {
    hide TradesQuoted, ResolveDecimals, ResolveToken, RawMinimum;
    ResolvedTokenConsistent(c, fromSymbol);
    ResolvedTokenConsistent(c, toSymbol);
    UnlistedDecimals(c.tokens, NATIVE);
    var (f, t) := (ResolveToken(c, fromSymbol).value, ResolveToken(c, toSymbol).value);
    QuotedIsTraded(sent, c, f, t, sold, bought, slippage, allowance, tx);
  }

  /** Exactly when: the router is asked to sell the amount converted if and only if the decimals agree. */
  lemma SoldExactlyWhenConsistent(sent: seq<Tx>, c: Config, fromToken: TokenInfo, toToken: TokenInfo, sold: nat,
      bought: nat, slippage: real, allowance: nat, tx: Tx)
    requires TradesQuoted(sent, c, fromToken, toToken, sold, bought, slippage, allowance)
    requires tx in sent && tx.Swap? && sold > 0
    ensures tx.amountIn == sold <==> fromToken.decimals == TradedDecimals(c, fromToken.address)
  {
    hide FormatUnits, ResolveDecimals, ParsedUnits, MinOutputFor, RawMinimum;
    RoundTripOnlyAtSameDecimals(sold, fromToken.decimals, TradedDecimals(c, fromToken.address));
    if sent[0].Approve? {
      assert tx in sent[1..];
    }
  }

  /** The decimals a token's quote is rendered at. */
  function QuotedDecimals(c: Config, token: TokenInfo): Decimals {
    ResolveDecimals(c.tokens, ResolveAddress(c, token.address))
  }

  /**
   * The output side for any token, configured or not: nothing is bought unless something is left of the quote in the
   * places printed for the token's own decimals, and the router's minimum is exactly those places.
   */
  lemma MinimumSentExactly(sent: seq<Tx>, c: Config, fromToken: TokenInfo, toToken: TokenInfo, sold: nat, bought: nat,
      slippage: real, allowance: nat, tx: Tx)
    requires TradesQuoted(sent, c, fromToken, toToken, sold, bought, slippage, allowance)
    requires tx in sent && tx.Swap?
    ensures var e := OutputDecimals(c, fromToken.address, toToken.address);
      && slippage <= 100.0 && Precision(toToken.decimals) <= e
      && var n := PlacesKept(bought, slippage, QuotedDecimals(c, toToken), toToken.decimals);
         n > 0 && tx.amountOutMin == Shift(n, e - Precision(toToken.decimals))
  {
    MinOutputAnywhere(bought, slippage, QuotedDecimals(c, toToken), toToken.decimals,
      OutputDecimals(c, fromToken.address, toToken.address));
    hide FormatUnits, ResolveDecimals, TradedDecimals, ParsedUnits, MinOutputFor, PlacesKept, Shift;
    if sent[0].Approve? {
      assert tx in sent[1..];
    }
  }

  /**
   * Exactly when, for a token quoted at its own decimals: the router's minimum is the guarded one if and only if it
   * is read at those decimals too.
   */
  lemma MinimumExactlyWhenConsistent(sent: seq<Tx>, c: Config, fromToken: TokenInfo, toToken: TokenInfo, sold: nat,
      bought: nat, slippage: real, allowance: nat, tx: Tx)
    requires TradesQuoted(sent, c, fromToken, toToken, sold, bought, slippage, allowance)
    requires tx in sent && tx.Swap? && QuotedDecimals(c, toToken) == toToken.decimals
    ensures slippage <= 100.0
    ensures tx.amountOutMin == RawMinimum(bought, slippage, toToken.decimals) <==>
      OutputDecimals(c, fromToken.address, toToken.address) == toToken.decimals
  {
    hide TradesQuoted, OutputDecimals, QuotedDecimals, PlacesKept, RawMinimum, Shift;
    MinimumSentExactly(sent, c, fromToken, toToken, sold, bought, slippage, allowance, tx);
    PlacesKeptAreMinimum(bought, slippage, toToken.decimals);
    var p, n := Precision(toToken.decimals), PlacesKept(bought, slippage, toToken.decimals, toToken.decimals);
    var e := OutputDecimals(c, fromToken.address, toToken.address);
    ShiftGrows(n, e - p, toToken.decimals - p);
  }

  lemma ShiftGrows(n: nat, j: nat, k: nat)
    requires n > 0
    ensures Shift(n, j) == Shift(n, k) <==> j == k
  {
    if j < k {
      ShiftShift(n, j, k - j);
    } else if k < j {
      ShiftShift(n, k, j - k);
    }
  }

  // ---------------------------------------------------------------- on configured chains

  /**
   * A swap out of a recommended token that is not configured is not of the amount converted: it is read with ten
   * more decimals.
   */
  lemma RecommendedTokenMisread(sold: nat)
    requires sold > 0
    ensures TradedDecimals(Ethereum(), WBTC.address) == 18
    ensures ParsedUnits(FormatUnits(sold, WBTC.decimals), TradedDecimals(Ethereum(), WBTC.address)) ==
      Ok(Shift(sold, 10))
    ensures Shift(sold, 10) > sold
  {
    hide EqualFold, StartsWith, EthereumUsdc, EthereumWeth, EthereumDai, EthereumUsdt, Wbtc;
    hide FormatUnits, ParsedUnits, ResolveDecimals;
    DifferentStart(EthereumUsdc(), Wbtc(), 'a', '2');
    DifferentStart(EthereumWeth(), Wbtc(), 'c', '2');
    DifferentStart(EthereumDai(), Wbtc(), '6', '2');
    DifferentStart(EthereumUsdt(), Wbtc(), 'd', '2');
    NotNative(Wbtc(), '2');
    assert WBTC.address != NATIVE by {
      SelfEqualFold(NATIVE);
    }
    UnlistedDecimals(Ethereum().tokens, WBTC.address);
    Rescale(sold, 8, 18);
  }

  /**
   * And a swap into it is refused unless more than 50 of it are left by the slippage: the quote is rendered with ten
   * decimals too many, and hardly anything of it remains in the eight that are printed.
   */
  lemma RecommendedTokenRefused(bought: nat, slippage: real)
    ensures GuardedMinimum(Ethereum(), WBTC, bought, slippage).Ok? <==>
      slippage <= 100.0 && Kept(bought as real, slippage) > 5_000_000_000.0
  {
    RecommendedTokenQuoted();
    hide *;
    MinOutputAnywhere(bought, slippage, 18, 8, 18);
    GuardOfWbtc(bought, slippage);
    if slippage <= 100.0 {
      PlacesOfWbtc(bought, slippage);
    }
  }

  lemma RecommendedTokenQuoted()
    ensures QuotedDecimals(Ethereum(), WBTC) == 18
  {
    RecommendedTokenMisread(1);
    hide ResolveDecimals, Wbtc, EthereumUsdc, EthereumWeth, EthereumDai, EthereumUsdt;
    NotNative(Wbtc(), '2');
    SelfEqualFold(NATIVE);
  }

  lemma GuardOfWbtc(bought: nat, slippage: real)
    requires QuotedDecimals(Ethereum(), WBTC) == 18
    ensures GuardedMinimum(Ethereum(), WBTC, bought, slippage) == MinOutputFor(FormatUnits(bought, 18), slippage, 8)
  {
    hide FormatUnits, MinOutputFor, ResolveDecimals, Wbtc, Ethereum;
  }

  lemma PlacesOfWbtc(bought: nat, slippage: real)
    requires slippage <= 100.0
    ensures PlacesKept(bought, slippage, 18, 8) > 0 <==> Kept(bought as real, slippage) > 5_000_000_000.0
  {
    PlacesKeptWhen(bought, slippage, 18, 8);
    LastPlaceOf18();
    hide Kept, PlacesKept, Shift;
  }
}
