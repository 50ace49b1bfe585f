/** Chain configuration, token lookup by symbol, and the lookup of a token's decimals by address. */
module Tokens {
  import opened Text
  import opened Units

  const NATIVE := "native"

  datatype TokenInfo = TokenInfo(symbol: string, address: string, decimals: Decimals)

  /** `tokens` are the configured tokens in the order the map happens to be walked. */
  datatype Config = Config(
    wrappedNative: string, nativeSymbol: string, nativeDecimals: Decimals,
    stablecoin: string, tokens: seq<TokenInfo>)

  predicate EqualFold(a: string, b: string) {
    Lower(a) == Lower(b)
  }

  // ---------------------------------------------------------------- tokens and their decimals

  /** The symbol lookup behind the CLI and the MCP server. */
  function ResolveToken(c: Config, symbol: string): Option<TokenInfo> {
    if EqualFold(symbol, c.nativeSymbol) then Some(TokenInfo(c.nativeSymbol, NATIVE, c.nativeDecimals))
    else FindSymbol(c.tokens, symbol)
  }

  function FindSymbol(tokens: seq<TokenInfo>, symbol: string): (t: Option<TokenInfo>)
    ensures t.Some? ==> t.value in tokens && EqualFold(t.value.symbol, symbol)
    ensures t.None? ==> forall u :: u in tokens ==> !EqualFold(u.symbol, symbol)
  {
    if tokens == [] then None
    else if EqualFold(tokens[0].symbol, symbol) then Some(tokens[0])
    else FindSymbol(tokens[1..], symbol)
  }

  /**
   * A token is found if and only if the native symbol or that of a configured token is the one asked for, ignoring
   * case; and what is found has that symbol, the native coin before all others.
   */
  lemma FoundBySymbol(c: Config, symbol: string)
    ensures var r := ResolveToken(c, symbol);
      && (r.Some? <==>
           Lower(symbol) == Lower(c.nativeSymbol) || exists t :: t in c.tokens && Lower(t.symbol) == Lower(symbol))
      && (r.Some? ==> Lower(r.value.symbol) == Lower(symbol))
      && (Lower(symbol) == Lower(c.nativeSymbol) ==>
           r == Some(TokenInfo(c.nativeSymbol, "native", c.nativeDecimals)))
      && (r.Some? && Lower(symbol) != Lower(c.nativeSymbol) ==> r.value in c.tokens)
  {
    hide Lower;
  }

  /** Ignoring case, no two configured tokens have one symbol, and none has the native one. */
  ghost predicate SymbolsApart(c: Config) {
    && (forall t, u :: t in c.tokens && u in c.tokens && Lower(t.symbol) == Lower(u.symbol) ==> t == u)
    && forall t :: t in c.tokens ==> Lower(t.symbol) != Lower(c.nativeSymbol)
  }

  /** Then every configured token is found by its symbol, in any case and in any walk of the map. */
  lemma EverySymbolFindsItsToken(c: Config, symbol: string, t: TokenInfo)
    requires SymbolsApart(c) && t in c.tokens && Lower(t.symbol) == Lower(symbol)
    ensures ResolveToken(c, symbol) == Some(t)
  {
    hide Lower;
    FoundBySymbol(c, symbol);
  }

  /** Case is that of the ASCII letters. */
  lemma EqualFoldMeaning(a: string, b: string)
    ensures EqualFold(a, b) <==> |a| == |b| && forall i :: 0 <= i < |a| ==>
      || a[i] == b[i]
      || ('A' <= a[i] <= 'Z' && b[i] as int == a[i] as int + 32)
      || ('A' <= b[i] <= 'Z' && a[i] as int == b[i] as int + 32)
  {
    if EqualFold(a, b) {
      forall i | 0 <= i < |a|
        ensures LowerChar(a[i]) == LowerChar(b[i])
      {
        assert Lower(a)[i] == Lower(b)[i];
      }
    }
  }

  /** The decimals an address is traded at: those of the first configured token it matches, else 18. */
  function ResolveDecimals(tokens: seq<TokenInfo>, addr: string): Decimals {
    if tokens == [] then 18
    else if EqualFold(tokens[0].address, addr) then tokens[0].decimals
    else ResolveDecimals(tokens[1..], addr)
  }

  function ResolveAddress(c: Config, addr: string): string {
    if addr == NATIVE then c.wrappedNative else addr
  }

  /** The decimals the executor reads an amount of `addr` at. */
  function TradedDecimals(c: Config, addr: string): Decimals {
    if addr == NATIVE then 18 else ResolveDecimals(c.tokens, addr)
  }

  /** Configured addresses are distinct ignoring case, and the native coin has 18 decimals, wrapped or not. */
  ghost predicate WellFormed(c: Config) {
    && (forall t :: t in c.tokens ==> !EqualFold(t.address, NATIVE))
    && (forall i, j :: 0 <= i < j < |c.tokens| ==> !EqualFold(c.tokens[i].address, c.tokens[j].address))
    && c.nativeDecimals == 18
    && ResolveDecimals(c.tokens, c.wrappedNative) == 18
  }

  /** The token's own decimals are those it is traded at and those it is quoted at. */
  predicate Consistent(c: Config, t: TokenInfo) {
    t.decimals == TradedDecimals(c, t.address) == ResolveDecimals(c.tokens, ResolveAddress(c, t.address))
  }

  lemma {:induction false} DecimalsOfListed(tokens: seq<TokenInfo>, t: TokenInfo)
    requires t in tokens
    requires forall i, j :: 0 <= i < j < |tokens| ==> !EqualFold(tokens[i].address, tokens[j].address)
    ensures ResolveDecimals(tokens, t.address) == t.decimals
  {
    hide EqualFold;
    if tokens[0] != t {
      var i :| 0 < i < |tokens| && tokens[i] == t;
      assert t in tokens[1..] by {
        assert tokens[1..][i - 1] == t;
      }
      DecimalsOfListed(tokens[1..], t);
    } else {
      SelfEqualFold(t.address);
    }
  }

  lemma SelfEqualFold(s: string)
    ensures EqualFold(s, s)
  {}

  /** With distinct addresses the order in which the map is walked does not matter. */
  lemma WalkOrderIrrelevant(walk: seq<TokenInfo>, other: seq<TokenInfo>, addr: string)
    requires forall t :: t in walk <==> t in other
    requires forall i, j :: 0 <= i < j < |walk| ==> !EqualFold(walk[i].address, walk[j].address)
    requires forall i, j :: 0 <= i < j < |other| ==> !EqualFold(other[i].address, other[j].address)
    ensures ResolveDecimals(walk, addr) == ResolveDecimals(other, addr)
  {
    if t :| t in walk && EqualFold(t.address, addr) {
      FoldedAddress(walk, t.address, addr);
      FoldedAddress(other, t.address, addr);
      DecimalsOfListed(walk, t);
      DecimalsOfListed(other, t);
    } else {
      UnlistedDecimals(walk, addr);
      UnlistedDecimals(other, addr);
    }
  }

  lemma {:induction false} FoldedAddress(tokens: seq<TokenInfo>, a: string, b: string)
    requires EqualFold(a, b)
    ensures ResolveDecimals(tokens, a) == ResolveDecimals(tokens, b)
  {
    if tokens != [] {
      FoldedAddress(tokens[1..], a, b);
    }
  }

  lemma {:induction false} UnlistedDecimals(tokens: seq<TokenInfo>, addr: string)
    requires forall t :: t in tokens ==> !EqualFold(t.address, addr)
    ensures ResolveDecimals(tokens, addr) == 18
  {
    if tokens != [] {
      UnlistedDecimals(tokens[1..], addr);
    }
  }

  /** Every token found by its symbol is traded, and quoted, at its own decimals. */
  lemma ResolvedTokenConsistent(c: Config, symbol: string)
    requires WellFormed(c) && ResolveToken(c, symbol).Some?
    ensures var t := ResolveToken(c, symbol).value;
      Consistent(c, t)
  {
    var t := ResolveToken(c, symbol).value;
    if t in c.tokens {
      SelfEqualFold(NATIVE);
      DecimalsOfListed(c.tokens, t);
    }
  }
}
