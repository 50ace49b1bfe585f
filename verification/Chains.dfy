/** The chains as configured. */
module Chains {
  import opened Text
  import opened Tokens

  /** An address with this first hexadecimal digit. */
  predicate StartsWith(address: string, digit: char) {
    |address| > 2 && address[0] == '0' && LowerChar(address[2]) == digit
  }

  lemma DifferentStart(a: string, b: string, c: char, d: char)
    requires StartsWith(a, c) && StartsWith(b, d) && c != d
    ensures !EqualFold(a, b)
  {
    assert Lower(a)[2] != Lower(b)[2];
  }

  lemma NotNative(a: string, c: char)
    requires StartsWith(a, c)
    ensures !EqualFold(a, NATIVE)
  {
    assert Lower(a)[0] != Lower(NATIVE)[0];
  }

  /** Distinct first digits tell the addresses apart; the wrapped native coin is the token at `k`. */
  lemma ToldApart(c: Config, digits: string, k: nat)
    requires |digits| == |c.tokens| && k < |c.tokens|
    requires forall i :: 0 <= i < |digits| ==> StartsWith(c.tokens[i].address, digits[i])
    requires forall i, j :: 0 <= i < j < |digits| ==> digits[i] != digits[j]
    requires c.nativeDecimals == 18 && c.wrappedNative == c.tokens[k].address && c.tokens[k].decimals == 18
    ensures WellFormed(c)
  {
    hide EqualFold, ResolveDecimals, StartsWith;
    var ts := c.tokens;
    forall i, j | 0 <= i < j < |ts|
      ensures !EqualFold(ts[i].address, ts[j].address)
    {
      DifferentStart(ts[i].address, ts[j].address, digits[i], digits[j]);
    }
    forall i | 0 <= i < |ts|
      ensures !EqualFold(ts[i].address, NATIVE)
    {
      NotNative(ts[i].address, digits[i]);
    }
    DecimalsOfListed(ts, ts[k]);
  }

  // ---------------------------------------------------------------- ethereum

  function EthereumUsdc(): (a: string)
    ensures StartsWith(a, 'a')
  {
    "0xA0b86991c6218b36c1d19D4a2e9Eb0cE3606eB48"
  }

  function EthereumWeth(): (a: string)
    ensures StartsWith(a, 'c')
  {
    "0xC02aaA39b223FE8D0A0e5C4F27eAD9083C756Cc2"
  }

  function EthereumDai(): (a: string)
    ensures StartsWith(a, '6')
  {
    "0x6B175474E89094C44Da98b954EedeAC495271d0F"
  }

  function EthereumUsdt(): (a: string)
    ensures StartsWith(a, 'd')
  {
    "0xdAC17F958D2ee523a2206206994597C13D831ec7"
  }

  function Ethereum(): Config {
    Config(EthereumWeth(), "ETH", 18, EthereumUsdc(), [
      TokenInfo("USDC", EthereumUsdc(), 6),
      TokenInfo("WETH", EthereumWeth(), 18),
      TokenInfo("DAI", EthereumDai(), 18),
      TokenInfo("USDT", EthereumUsdt(), 6) ])
  }

  lemma EthereumWellFormed()
    ensures WellFormed(Ethereum())
  {
    hide WellFormed, StartsWith, EthereumUsdc, EthereumWeth, EthereumDai, EthereumUsdt;
    ToldApart(Ethereum(), ['a', 'c', '6', 'd'], 1);
  }

  // ---------------------------------------------------------------- bsc

  function BscUsdc(): (a: string)
    ensures StartsWith(a, '8')
  {
    "0x8AC76a51cc950d9822D68b83fE1Ad97B32Cd580d"
  }

  function BscWbnb(): (a: string)
    ensures StartsWith(a, 'b')
  {
    "0xbb4CdB9CBd36B01bD1cBaEBF2De08d9173bc095c"
  }

  function BscBusd(): (a: string)
    ensures StartsWith(a, 'e')
  {
    "0xe9e7CEA3DedcA5984780Bafc599bD69ADd087D56"
  }

  function BscUsdt(): (a: string)
    ensures StartsWith(a, '5')
  {
    "0x55d398326f99059fF775485246999027B3197955"
  }

  function BscCake(): (a: string)
    ensures StartsWith(a, '0')
  {
    "0x0E09FaBB73Bd3Ade0a17ECC321fD13a19e81cE82"
  }

  function Bsc(): Config {
    Config(BscWbnb(), "BNB", 18, BscUsdt(), [
      TokenInfo("USDC", BscUsdc(), 18),
      TokenInfo("WBNB", BscWbnb(), 18),
      TokenInfo("BUSD", BscBusd(), 18),
      TokenInfo("USDT", BscUsdt(), 18),
      TokenInfo("CAKE", BscCake(), 18) ])
  }

  lemma BscWellFormed()
    ensures WellFormed(Bsc())
  {
    hide WellFormed, StartsWith, BscUsdc, BscWbnb, BscBusd, BscUsdt, BscCake;
    ToldApart(Bsc(), ['8', 'b', 'e', '5', '0'], 1);
  }

  // ---------------------------------------------------------------- bsc_testnet

  function TestnetUsdc(): (a: string)
    ensures StartsWith(a, '6')
  {
    "0x64544969ed7EBf5f083679233325356EbE738930"
  }

  function TestnetWbnb(): (a: string)
    ensures StartsWith(a, 'a')
  {
    "0xae13d989daC2f0dEbFf460aC112a837C89BAa7cd"
  }

  function TestnetUsdt(): (a: string)
    ensures StartsWith(a, '3')
  {
    "0x337610d27c682E347C9cD60BD4b3b107C9d34dD1"
  }

  function BscTestnet(): Config {
    Config(TestnetWbnb(), "tBNB", 18, TestnetUsdt(), [
      TokenInfo("USDC", TestnetUsdc(), 18),
      TokenInfo("WBNB", TestnetWbnb(), 18),
      TokenInfo("USDT", TestnetUsdt(), 18) ])
  }

  lemma BscTestnetWellFormed()
    ensures WellFormed(BscTestnet())
  {
    hide WellFormed, StartsWith, TestnetUsdc, TestnetWbnb, TestnetUsdt;
    ToldApart(BscTestnet(), ['6', 'a', '3'], 1);
  }

  // ---------------------------------------------------------------- sepolia

  function SepoliaUsdc(): (a: string)
    ensures StartsWith(a, '1')
  {
    "0x1c7D4B196Cb0C7B01d743Fbc6116a902379C7238"
  }

  function SepoliaWeth(): (a: string)
    ensures StartsWith(a, 'f')
  {
    "0xfFf9976782d46CC05630D1f6eBAb18b2324d6B14"
  }

  function Sepolia(): Config {
    Config(SepoliaWeth(), "ETH", 18, SepoliaUsdc(), [
      TokenInfo("USDC", SepoliaUsdc(), 6),
      TokenInfo("WETH", SepoliaWeth(), 18) ])
  }

  lemma SepoliaWellFormed()
    ensures WellFormed(Sepolia())
  {
    hide WellFormed, StartsWith, SepoliaUsdc, SepoliaWeth;
    ToldApart(Sepolia(), ['1', 'f'], 1);
  }

  // ---------------------------------------------------------------- symbols

  /** What a symbol is told apart by, ignoring case: its length and its ends. */
  function Mark(symbol: string): (nat, char, char)
    requires symbol != ""
  {
    (|symbol|, LowerChar(symbol[0]), LowerChar(symbol[|symbol| - 1]))
  }

  lemma SameMark(a: string, b: string)
    requires a != "" && b != "" && Lower(a) == Lower(b)
    ensures Mark(a) == Mark(b)
  {
    assert Lower(a)[0] == Lower(b)[0] && Lower(a)[|a| - 1] == Lower(b)[|b| - 1];
  }

  lemma Marked(c: Config, marks: seq<(nat, char, char)>)
    requires |marks| == |c.tokens| && c.nativeSymbol != "" && Mark(c.nativeSymbol) !in marks
    requires forall i :: 0 <= i < |marks| ==> c.tokens[i].symbol != "" && Mark(c.tokens[i].symbol) == marks[i]
    requires forall i, j :: 0 <= i < j < |marks| ==> marks[i] != marks[j]
    ensures SymbolsApart(c)
  {
    hide Mark, Lower;
    forall t, u | t in c.tokens && u in c.tokens && Lower(t.symbol) == Lower(u.symbol)
      ensures t == u
    {
      SameMark(t.symbol, u.symbol);
    }
    forall t | t in c.tokens
      ensures Lower(t.symbol) != Lower(c.nativeSymbol)
    {
      if Lower(t.symbol) == Lower(c.nativeSymbol) {
        SameMark(t.symbol, c.nativeSymbol);
      }
    }
  }

  /** On every chain the symbols are told apart too, so each finds its token. */
  lemma EthereumSymbols()
    ensures SymbolsApart(Ethereum())
  {
    hide EthereumUsdc, EthereumWeth, EthereumDai, EthereumUsdt, SymbolsApart;
    Marked(Ethereum(), [(4, 'u', 'c'), (4, 'w', 'h'), (3, 'd', 'i'), (4, 'u', 't')]);
  }

  lemma BscSymbols()
    ensures SymbolsApart(Bsc())
  {
    hide BscUsdc, BscWbnb, BscBusd, BscUsdt, BscCake, SymbolsApart;
    Marked(Bsc(), [(4, 'u', 'c'), (4, 'w', 'b'), (4, 'b', 'd'), (4, 'u', 't'), (4, 'c', 'e')]);
  }

  lemma BscTestnetSymbols()
    ensures SymbolsApart(BscTestnet())
  {
    hide TestnetUsdc, TestnetWbnb, TestnetUsdt, SymbolsApart;
    Marked(BscTestnet(), [(4, 'u', 'c'), (4, 'w', 'b'), (4, 'u', 't')]);
  }

  lemma SepoliaSymbols()
    ensures SymbolsApart(Sepolia())
  {
    hide SepoliaUsdc, SepoliaWeth, SymbolsApart;
    Marked(Sepolia(), [(4, 'u', 'c'), (4, 'w', 'h')]);
  }

  // ---------------------------------------------------------------- recommended, but not configured

  function Wbtc(): (a: string)
    ensures StartsWith(a, '2')
  {
    "0x2260FAC5E5542a773Aa44fBCfeDf7C193bc2C599"
  }

  /** A recommended token of Ethereum that is not among the configured ones. */
  const WBTC := TokenInfo("WBTC", Wbtc(), 8)
}
