# lazyswap: verified models of its hard parts

lazyswap is a self-custody wallet. Its network calls are thin; what can go wrong quietly is in the asynchronous
panels, the gates that guard funds, the exact decimal arithmetic on strings, and a few printers that something else
must undo exactly. This Dafny project models those parts with the source's own branches, constants and error paths,
and proves what they keep over every input, every interleaving and every run. `dafny verify dfyconfig.toml` checks it
all.

## The modules

| file | what it models |
|---|---|
| `Text`, `Decimal` | Go string helpers; digits, values and powers of ten by moving a decimal point |
| `Units` | `FormatUnits` and `ParseUnits`: round trip, normal form, order, change of decimals |
| `Fixed`, `MinOutput` | `FormatFloat`/`ParseFloat` over exact rationals; the slippage guard |
| `Doubles`, `Taxes` | reading a plain decimal as the nearest IEEE 754 double; taxes as doubles, converted to 64-bit integers |
| `Money` | the two comma writers, dollar amounts and their total |
| `Tokens`, `Chains`, `Execution`, `SwapFlow` | token lookup, the configured chains, the executor and the chain it talks to, the whole swap pipeline |
| `SwapBtc`, `SwapBtcRuns`, `SwapBtcKeys` | the Swap-BTC panel as written, every run of it with messages in flight, and which key does what |
| `SwapBtcCountdowns`, `SwapBtcChains` | its countdowns running side by side; the connection its calls go to |
| `RiskScore`, `RiskCache`, `McpGate` | scoring a token, the report cache under concurrent checks, the trading gate under concurrent calls |
| `SelfUpdate` | installing a release, file system step by file system step, killed anywhere |
| `Envelope`, `Login`, `LoginRuns` | the encrypted envelope; setting a password and logging in, with failures and restarts |
| `SeedOverlay`, `SeedBackup` | the recovery phrase overlay and its quiz; the main screen that hosts it |
| `TokenItems`, `ShellQuote`, `ThorUnits` | the ordered union of tokens; quoting for the shell; THORChain base units |

Code that changes things step by step is a class or a method here, proved equal to a function of the old state; the
theorems are about that function and about sequences of events. A run is any sequence of events: an event that is not
possible at its moment changes nothing, so statements over all sequences are statements over all interleavings.

## How the outside is modelled

- Floats are exact rationals. `FormatFloat` rounds to nearest, ties to even; `ParseFloat` reads plain decimals. Where
  rounding could decide something (the allowance comparison) the reader is any function that is monotone, agrees on
  what is readable and reads at least everything up to 2^256; rounding to the nearest double is proved to be one, its
  range error included (`DoublesAreMonotone`).
- Taxes are doubles throughout. Converting one to an integer that it does not fit is left to the machine by the Go
  specification, so the conversion is any function that is exact where the result fits 64 bits; those of amd64 and
  arm64, which the releases are built for, are two of them.
- The cap and the budget of the trading gate are doubles, NaN and infinities included, as the command line reads them.
  The amounts of calls are reals: JSON has no other numbers.
- Case folding is that of ASCII letters, which is all that addresses, symbols, chain keys and hexadecimal digits have.
  The Unicode classes that passwords are judged by are any classification of characters; lengths are in UTF-8 bytes.
- RPC answers, clocks, randomness, the risk checker, THORChain, the file system's failures and key derivation are
  arbitrary: nondeterministic choices, events, or parameters with the usual laws (an opened ciphertext is one that
  was sealed so; a derived key has 32 bytes).
- A failing store operation changes nothing, and one process at a time uses the store.

## What the models found

- The Swap-BTC panel can wait for ever. When no wallet is selected as a request reaches the main screen, as after the
  last one is deleted while the panel keeps its list, nothing is in flight and no key, reload or wallet change ends the
  wait (`MaroonedWithoutWallet`, `MaroonedForEver`, `MaroonedIsReachable`). The same holds if a quote is asked for with
  no token highlighted (`MaroonedWhenNothingSelected`); whether the list can get there is the list's own affair.
- A tick of an earlier preview still counts down the next one. Any number of countdowns can run at once, and each takes
  its own second off the preview (`TwoCountdownsExactlyWhen`, `EveryTickCounts`, `AnyNumberOfCountdowns`).
- Switching the network leaves a quote on screen, and it is then executed on the new connection
  (`ExecutedWhereQuoted`, `ExecutedElsewhere`).
- A token picked from the recommended list but not configured is converted at its own decimals and traded at 18: the
  router is asked to sell a different amount (`SoldExactlyWhenConsistent`, `RecommendedTokenMisread`). Bought, its
  quote is rendered at 18 and guarded at its own: WBTC is refused up to 50 (`MinimumSentExactly`,
  `RecommendedTokenRefused`). Tokens found by symbol, as in the CLI and the MCP server, are always consistent (`NoFee`),
  on all four configured chains.
- With more than eight decimals the minimum output can exceed the quote (`MinimumWithinQuoteExactly`,
  `MinimumAboveQuote`).
- A shortfall of the allowance goes unseen exactly when it and the amount are read as the same float; then no approve is
  sent and the swap goes out all the same. With doubles one token and one raw unit looks like one token
  (`ShortfallHiddenExactlyWhen`, `ShortfallMayBeHidden`).
- Raising a token's tax can lower its risk score. Above 922337203685477.5625, which is what 2^63 / 10^4 comes to after
  the reading and the product are rounded, the conversion to basis points does not fit and on amd64 turns negative: a
  sell tax of "0.5" scores HIGH on every machine, "1000000000000000" LOW on amd64 and HIGH on arm64. Up to there more
  risk never scores lower (`TaxOrderSurvivesExactlyWhen`, `MoreRiskNeverScoresLower`, `LargerTaxScoresLower`).
- `--max-usd NaN`, without a total, passes the checks at the start and every comparison after: the gate books any amount
  (`AnyAmountBookedExactlyWhen`, `CapOfNaNBooksAnything`).
- An archive entry above 200 MiB is installed cut short, without an error (`KilledAnywhere`).
- Closing a reveal overlay does not cancel its password check; its answer then replaces the phrase of a backup opened
  meanwhile, and in the quiz or after it can make the program panic (`ReplaceableExactlyWhenCheckPending`,
  `CheckOutlivesOverlay`, `PanicsAtWordExactlyWhen`, `PanicsExactlyWhenCheckPending`, `PassedQuizPanics`).
- Two chain names can share cache keys only if one continues the other after a colon (`SharedKeys`); configured ones
  have none.

Where comments and code disagree the code is modelled: `TotalUSD` returns the empty string, not "$0.00"
(`internal/balance/format.go:184`); `spentUSD` grows for failed and later-refused calls too, not only for executed
ones (`internal/mcp/server.go:51`); `Execute` applies no fee, whatever its comment says
(`internal/swap/flow_execute.go:12`), in agreement with `docs/FEES.md`.

## Model

| member | source | states |
|---|---|---|
| `Units.ParseUnits` | internal/balance/format.go:51-96 | the loop and the branches accept and refuse exactly as the specification function does, error by error |
| `Units.RoundTrip` | internal/balance/format.go:12-96 | for every raw amount and every decimals 0..255, reading the printed amount gives the amount back |
| `Units.RoundTripOnlyAtSameDecimals` | internal/balance/format.go:12-96 | a positive amount survives printing at d and reading at e if and only if d = e |
| `Units.Rescale` | internal/balance/format.go:12-96 | printing at d and reading at e appends or drops exactly the difference in zeros, and is refused exactly when there are not enough to drop |
| `Units.FormatInjective` | internal/balance/format.go:12-34 | different amounts are never printed alike at the same decimals |
| `Units.ParsedIsNumber` | internal/balance/format.go:51-96 | an accepted text is read as the number it writes, with the point moved |
| `Text.TrimMeaning` | internal/balance/format.go:52 | trimming takes white space off both ends, all of it and nothing else |
| `Text.SpaceMeaning` | internal/balance/format.go:52 | white space, code point by code point, is that of the Unicode property |
| `Units.ParseKeepsOrder` | internal/balance/format.go:51-96 | between accepted texts, numeric order and order of raw amounts agree in both directions |
| `Units.Normalises` | internal/balance/format.go:12-96 | print after read keeps the number, yields the one canonical shape and changes nothing the second time |
| `Units.FormatCanonical` | internal/balance/format.go:12-46 | no trailing fractional zero, no bare dot, no redundant leading zero |
| `Units.CanonicalIsFixed` | internal/balance/format.go:12-96 | a canonical text that is accepted is printed back unchanged |
| `MinOutput.MinOutputExact` | internal/swap/minoutput.go:28-51 | on a rendered quote the guard answers exactly when more than half a last place is left, its text reads back as the raw minimum, which is positive, and it never fails on the number of digits |
| `MinOutput.RawMinimumNear` | internal/swap/minoutput.go:28-51 | the minimum is within half a unit of the min(d, 8)-th place of what the slippage leaves |
| `MinOutput.RawMinimumMonotone` | internal/swap/minoutput.go:28-51 | it grows with the quote and falls with the slippage |
| `MinOutput.MinimumWithinQuote` | internal/swap/minoutput.go:28-51 | up to eight decimals, or when the slippage takes at least half a last place, it never asks for more than was quoted |
| `MinOutput.MinimumWithinQuoteExactly` | internal/swap/minoutput.go:28-51 | in general it stays within the quote if and only if what the slippage leaves is not rounded past the whole last places of the quote |
| `MinOutput.MinimumAboveQuote` | internal/swap/minoutput.go:13-51 | a quote at 18 decimals whose accepted minimum is larger than the quote |
| `MinOutput.MinOutputAnywhere` | internal/swap/minoutput.go:28-51 | for a quote rendered at any decimals, guarded at any others and read at any third: answered exactly when something is left in the printed places, and what is read of them, or the refusal |
| `Money.InsertCommas` | internal/balance/format.go:147-167 | the prefix-and-triples loop writes the digits in groups of three counted from the right |
| `Money.FormatSats` | internal/tui/panels/swapbtc/view.go:154-171 | the byte-by-byte loop writes the same grouped digits as the other loop, for every integer |
| `Money.StripMeaning` | internal/balance/format.go:133-137 | of the fraction nothing but trailing zeros is taken off, and as many as the least number of digits allows |
| `Money.CommasUndone` | internal/balance/format.go:147-167 | deleting the commas gives the digits back |
| `Money.CommaPlaces` | internal/balance/format.go:147-167 | counted from the right there is a comma at exactly every fourth place |
| `Money.NoLeadingComma` | internal/balance/format.go:147-167 | the first digit stays first, so no text starts with a comma |
| `Money.DollarsRoundTrip` | internal/balance/format.go:110-182 | at cent precision `ParseUSD` undoes `FormatUSD`, negative amounts and grouping included |
| `Money.TotalUSD` | internal/balance/format.go:185-201 | the total is the printed sum of the amounts that can be read, or the empty string when none can |
| `Money.TotalOfFormatted` | internal/balance/format.go:110-201 | totalling printed amounts gives the total of the amounts |
| `Tokens.WalkOrderIrrelevant` | internal/dex/uniswap_v2.go:68-76 | with distinct addresses the order in which the token map is walked does not matter |
| `Tokens.ResolvedTokenConsistent` | internal/swap/resolve.go:13-22 | a token found by symbol in a well-formed configuration is quoted and traded at its own decimals |
| `Tokens.FoundBySymbol` | internal/swap/resolve.go:13-22 | a token is found if and only if the native symbol or that of a configured token is the one asked for, ignoring case, and what is found has that symbol; the native symbol gives the sentinel |
| `Tokens.EqualFoldMeaning` | internal/swap/resolve.go:13-22 | two texts are equal ignoring case if and only if they are, character by character, but for the case of ASCII letters |
| `Tokens.EverySymbolFindsItsToken` | internal/swap/resolve.go:13-22 | with symbols distinct up to case, each finds its own token, in any case and in any walk of the map |
| `Doubles.NearestOrder` | internal/swap/executor.go:317-324 | rounding to the nearest double never swaps an order |
| `Doubles.NearestNear` | internal/swap/executor.go:317-324 | and it is off by at most one part in 2^53 of a number that is not below the normal range |
| `Doubles.NearestRange` | internal/swap/executor.go:317-324 | nothing is read from 2^1024 - 2^970 on, and what is at most 2^-1075 is read as zero |
| `Execution.DoublesAreMonotone` | internal/swap/executor.go:317-324 | the executor's own reader meets what the next statements ask of a reader |
| `Execution.CoveredIsSeen` | internal/swap/executor.go:125-136 | under any monotone float rounding an allowance that covers the amount never looks short |
| `Execution.ShortfallHiddenExactlyWhen` | internal/swap/executor.go:317-324 | an allowance short of the amount does not look short if and only if both are read as the same float |
| `Execution.ShortfallMayBeHidden` | internal/swap/executor.go:317-324 | with doubles, an allowance of one token of 18 decimals does not look short of one token and one raw unit |
| `Execution.Executor.ApproveToken` | internal/swap/executor.go:90-112 | at most one approve, for exactly the amount written; if effective, the allowance becomes that amount |
| `Execution.Executor.ExecuteSwap` | internal/swap/executor.go:116-174 | sends nothing but the one swap the request stands for, and refuses for the allowance only when it looks short |
| `Execution.SwapCallMeaning` | internal/swap/executor.go:169-334 | the one swap of a request: native coin in goes through the wrapped one as ETH for tokens, native coin out as tokens for ETH, anything else straight, with the amounts as written at their own decimals |
| `Execution.Executor.EnsureAllowance` | internal/swap/executor.go:317-328 | approves exactly when the allowance looks short, only when it really is, and afterwards it does not look short unless the approve had no effect |
| `Execution.Executor.ExecuteFullSwap` | internal/swap/executor.go:294-334 | at most one approve, only when the allowance looks and really is below the raw amount, then at most the one swap; when it does not look short, and for native input, a sound request is swapped at once without an approve unless the chain fails; the second look at the allowance refuses only after an approve that was mined without effect; an error of the chain is reported if and only if a call failed, and every other refusal has its cause in the request |
| `SwapFlow.Flow.AskLadder` | internal/swap/flow.go:137-170 | the routes are asked in the order of the ladder, each once, until the first that answers, whose answer is used |
| `SwapFlow.LadderOrder` | internal/swap/flow.go:137-170 | the straight route is asked first unless the token is the stablecoin, then the one through the wrapped native coin unless it is that, and the straight one last |
| `SwapFlow.Flow.ConvertUsdToTokenAmount` | internal/swap/flow.go:124-183 | the answer to a query for exactly the dollars, to the nearest stablecoin unit, rendered at the token's decimals |
| `SwapFlow.Flow.GetQuote` | internal/dex/uniswap_v2.go:35-66 | the query asks for exactly the amount written and the answer is rendered at the output's decimals |
| `SwapFlow.Flow.Execute` | internal/swap/flow_execute.go:14-73 | whatever is sent is the full swap of the text of the converted amount for at least the guarded part of the quoted one; nothing is refused unless a call failed, the key or the dollars cannot be read, nothing is bought, the amount cannot be quoted, or the guard refuses |
| `SwapFlow.QuotedIsTraded` | internal/swap/flow_execute.go:34-55 | with consistent decimals the approve and the router see exactly the integer the conversion returned, and a positive minimum read exactly |
| `SwapFlow.NoFee` | internal/swap/flow_execute.go:34-55 | so it is for any two tokens found by symbol in a well-formed configuration: no fee anywhere |
| `SwapFlow.SoldExactlyWhenConsistent` | internal/swap/executor.go:351-359 | the router sells the converted amount if and only if the token's decimals are those it is traded at |
| `SwapFlow.MinimumSentExactly` | internal/swap/flow_execute.go:46-55 | for any token bought, configured or not, the router's minimum is exactly what is left of the quote in the places printed for the token's own decimals, and is positive |
| `SwapFlow.MinimumExactlyWhenConsistent` | internal/swap/executor.go:236-262 | for a token quoted at its own decimals the router's minimum is the guarded one if and only if it is read at them too |
| `Chains.EthereumWellFormed` | internal/chain/config.go:42-58 | the Ethereum configuration meets what the previous statements ask for |
| `Chains.EthereumSymbols` | internal/chain/config.go:42-58 | its symbols are distinct up to case, from each other and from the native one |
| `Chains.BscWellFormed` | internal/chain/config.go:75-92 | so does the default chain, BSC |
| `Chains.BscSymbols` | internal/chain/config.go:75-92 | its symbols are distinct up to case, from each other and from the native one |
| `Chains.BscTestnetWellFormed` | internal/chain/config.go:107-122 | so does the BSC testnet |
| `Chains.BscTestnetSymbols` | internal/chain/config.go:107-122 | its symbols are distinct up to case, from each other and from the native one |
| `Chains.SepoliaWellFormed` | internal/chain/config.go:130-144 | so does Sepolia |
| `Chains.SepoliaSymbols` | internal/chain/config.go:130-144 | its symbols are distinct up to case, from each other and from the native one |
| `SwapFlow.RecommendedTokenMisread` | internal/chain/config.go:59-73 | out of a recommended token of Ethereum that is not configured the amount sold has ten zeros too many |
| `SwapFlow.RecommendedTokenRefused` | internal/chain/config.go:59-73 | a swap into it passes the guard if and only if the slippage leaves more than 50 whole tokens |
| `SwapBtc.Model.Update` | internal/tui/panels/swapbtc/update.go:14-66 | every message changes the panel's fields and emits a command exactly as the specification function says |
| `SwapBtc.Model.HandleKey` | internal/tui/panels/swapbtc/update.go:68-101 | keys, state by state |
| `SwapBtc.Model.HandleFormKey` | internal/tui/panels/swapbtc/update.go:117-169 | keys in the form, field by field, with its two refusals |
| `SwapBtcKeys.ExecutesExactlyOnConsent` | internal/tui/panels/swapbtc/update.go:68-101 | a swap is sent off if and only if "y" or enter, and not escape, is pressed on a quote shown without an error, and it is the one in the fields |
| `SwapBtcKeys.PreviewKeys` | internal/tui/panels/swapbtc/update.go:77-115 | any other key sends nothing: "n" goes back to the address, escape clears the form, and every further key changes nothing |
| `SwapBtcKeys.OtherKeys` | internal/tui/panels/swapbtc/update.go:68-169 | in the other states: after a swap any key clears the form, while a request waits none does anything, and an incomplete form answers enter with an error and nothing else |
| `SwapBtcKeys.AnswersShow` | internal/tui/panels/swapbtc/update.go:14-62 | a quote opens a preview of ten seconds, a failed one goes back to the address, a result ends the swap, and an estimate replaces the one before |
| `SwapBtcKeys.QuotesExactlyWhen` | internal/tui/panels/swapbtc/update.go:51-169 | a quote is asked for if and only if enter completes a form with a token, a positive amount, 25 characters of address and no estimate below the minimum, or the countdown of a preview runs out with a token highlighted; it is the one in the fields |
| `SwapBtcKeys.EstimatesExactlyWhen` | internal/tui/panels/swapbtc/update.go:132-145 | an estimate is asked for if and only if enter leaves a positive amount with a token highlighted |
| `SwapBtcKeys.FieldsChangeInForm` | internal/tui/panels/swapbtc/update.go:117-169 | amount, address and highlighted token change by typing in their own field of the form and by no other message; a new amount drops the estimate |
| `SwapBtcKeys.SentOnlyByConsent` | internal/tui/panels/swapbtc/update.go:68-101 | over every run: each swap sent was consented to by such a key on a preview that showed a quote for exactly that request |
| `SwapBtcKeys.RequestsAreValid` | internal/tui/panels/swapbtc/update.go:147-166 | over every run: each request quoted or executed has a positive amount and at least 25 characters of address, and no form asks while its estimate is below the minimum |
| `SwapBtcRuns.RunIsSafe` | internal/tui/panels/swapbtc/update.go:14-115 | over every run: at most one quote and one execution in flight, each only in the state that waits for it; a preview shows a quote for what the fields stand for, no error, and a countdown in 1..10; every execution is of exactly the request whose answer is on screen |
| `SwapBtcRuns.CallsReturn` | internal/tui/screens/mainscreen/update_panels.go:15-52 | in these runs every started call can come back either way |
| `SwapBtcRuns.MaroonedForEver` | internal/tui/panels/swapbtc/update.go:68-115 | a panel that waits with nothing in flight waits for ever |
| `SwapBtcRuns.WaitingEndsOnlyByAnswer` | internal/tui/screens/mainscreen/update_panels.go:15-52 | a waiting panel can go on if and only if the message it waits for is still in flight |
| `SwapBtcRuns.MaroonedWhenNothingSelected` | internal/tui/panels/swapbtc/update.go:173-185 | entering the quoting state leaves it waiting for nothing if and only if no token is highlighted |
| `SwapBtcRuns.MaroonedWithoutWallet` | internal/tui/screens/mainscreen/update_panels.go:22-33 | handing a request to the main screen leaves it waiting for nothing if and only if no wallet is selected |
| `SwapBtcRuns.MaroonedIsReachable` | internal/tui/screens/mainscreen/update_wallet.go:44-62 | for any valid form, sending it after the last wallet is gone leads there, with a token still highlighted |
| `SwapBtcCountdowns.OnlyAnswersStartCountdowns` | internal/tui/panels/swapbtc/update.go:14-66 | ticks in flight grow by one exactly when an answered quote arrives, whatever ticks there already are |
| `SwapBtcCountdowns.TwoCountdownsExactlyWhen` | internal/tui/panels/swapbtc/update.go:14-66 | over every run: two ticks are in flight at some moment if and only if at some moment an answered quote arrives while a tick is |
| `SwapBtcCountdowns.EveryTickCounts` | internal/tui/panels/swapbtc/update.go:14-66 | when each of n ticks in flight arrives once the countdown falls by n and all n are in flight again, or it runs out on the way |
| `SwapBtcCountdowns.AnyNumberOfCountdowns` | internal/tui/panels/swapbtc/update.go:68-101 | for every n a run to a full preview with n ticks in flight: going back and sending the form again |
| `SwapBtcChains.ExecutedWhereQuoted` | internal/tui/screens/mainscreen/update_panels.go:15-113 | over every run: between the quote of a request and its execution there are nothing but network switches, and both go to the same connection if and only if there is none |
| `SwapBtcChains.ExecutedElsewhere` | internal/tui/screens/mainscreen/update_panels.go:93-113 | a run in which a quote from one connection is executed on the next |
| `RiskScore.SortFlags` | internal/safety/report.go:92-94 | sorting in place gives the stable sort of what was there |
| `RiskScore.SortedIsStablePermutation` | internal/safety/report.go:92-94 | a permutation, most severe first, source order kept among equals |
| `RiskScore.WeightsOfPermutation` | internal/safety/report.go:64-89 | the score does not depend on the order of the findings |
| `RiskScore.WeightsByCount` | internal/safety/report.go:57-76 | it is forty for each high finding, fifteen for each medium one and five for each low one, before the cap |
| `RiskScore.LevelMeaning` | internal/safety/report.go:64-89 | HIGH if and only if one high finding or three medium ones; LOW if and only if none |
| `RiskScore.ScoreGoplus` | internal/safety/goplus.go:116-174 | whatever order the maps are walked in, and whatever the conversion of taxes: the same findings, sorted, the same score and level; field by field, which flags there are and what they sum up to |
| `RiskScore.VerdictMeaning` | internal/safety/goplus.go:116-174 | the verdict on the findings of a token, by their number and severity |
| `RiskScore.VerdictOnFields` | internal/safety/goplus.go:118-173 | HIGH if and only if the token is a honeypot, cannot be sold in full, has an owner who edits balances, a hidden owner or a self-destruct, or taxes sales at 1000 basis points, or at least three of the nine lesser conditions hold; LOW if and only if none holds |
| `RiskScore.ScoreOnFields` | internal/safety/report.go:64-89 | 40 for each severe condition that holds and 15 for each lesser one, before the cap |
| `RiskScore.FlagsOnFields` | internal/safety/goplus.go:118-169 | a flag of a key and a severity is there if and only if the condition behind that key holds |
| `RiskScore.TaxPrinted` | internal/safety/goplus.go:134-141 | a flagged tax up to 10^9 basis points is printed as the nearest tenth of a per cent, unless it lies midway between two |
| `Taxes.FitsUpToLargest` | internal/safety/goplus.go:105-114 | read as a double, times ten thousand and rounded again, a fraction fits a 64-bit integer if it is at most 922337203685477.5625 in magnitude, and a positive one only then |
| `Taxes.ConversionsMeaning` | internal/safety/goplus.go:113 | cutting off towards zero leaves less than one; what fits is above -2^63 - 1 and below 2^63; beyond, amd64 gives the least integer and arm64 the nearer end |
| `Taxes.TaxThresholds` | internal/safety/goplus.go:105-141 | a known tax within range is at least 1000 basis points if and only if it is written as at least half a last place below the double nearest to 0.1, and at least 500 likewise for 0.05 |
| `Taxes.TaxUnknown` | internal/safety/goplus.go:105-112 | a missing tax, or one that cannot be read, is -1 |
| `Taxes.TaxMonotone` | internal/safety/goplus.go:105-114 | under every conversion to integers the language allows, a larger tax is no fewer basis points and passes every threshold the smaller one does, as long as both are at most 922337203685477.5625 in magnitude |
| `Taxes.TaxOrderSurvivesExactlyWhen` | internal/safety/goplus.go:105-114 | of two known taxes, neither negative, the larger is no fewer basis points under every such conversion if and only if it is at most 922337203685477.5625, or the same double times ten thousand as the smaller |
| `RiskScore.MoreRiskNeverScoresLower` | internal/safety/goplus.go:105-174 | under every such conversion, turning any risk field on or raising a tax never lowers the score or the level, as long as the taxes are at most 922337203685477.5625 in magnitude |
| `RiskScore.LargerTaxScoresLower` | internal/safety/goplus.go:105-174 | raising a sell tax of "0.5" to "1000000000000000" takes the verdict from HIGH, under every conversion, to LOW under that of amd64, and leaves it HIGH under that of arm64 |
| `RiskCache.Service.Check` | internal/safety/checker.go:67-89 | a fresh entry is returned untouched; otherwise the answer is returned and stored with the later clock reading; a failure is reported as unknown and not stored |
| `RiskCache.BoughtUnchecked` | internal/safety/checker.go:54-63 | a token is bought without a check if and only if it is the native coin, has no address, is the configured stablecoin, or is called USDT, USDC, DAI or BUSD in any case |
| `RiskCache.StepsAreCheck` | internal/safety/checker.go:67-89 | the steps of the concurrent model taken in a row are that check |
| `RiskCache.RunIsStepwise` | internal/safety/checker.go:67-89 | the runs of these statements are their events one after the other |
| `RiskCache.ReportsAreAnswers` | internal/safety/checker.go:67-89 | over every interleaving: every report is the checker's own answer to this call, or to one for the same chain and folded address stored less than five minutes before, or the failure report |
| `RiskCache.LooksSeeLastStored` | internal/safety/checker.go:70-73 | a look hits if and only if the last store under its key is fresh, and returns that one |
| `RiskCache.FailuresAreNotStored` | internal/safety/checker.go:78-87 | everything cached is an answer of the checker to some call under that key |
| `RiskCache.KeysKeepChainsApart` | internal/safety/checker.go:68 | without colons in chain names equal keys mean equal chains and equal folded addresses |
| `RiskCache.SharedKeys` | internal/safety/checker.go:68 | two chain names can share a key if and only if the longer continues the shorter after a colon, without capitals |
| `McpGate.CheckOptions` | internal/mcp/server.go:83-94 | the server starts if and only if the options are sound, and then the cap is positive and within the budget, or NaN |
| `Doubles.LessIsOrder` | internal/mcp/server.go:59-94 | comparing options is a strict total order on everything but NaN, which compares to nothing |
| `McpGate.Server.Reserve` | internal/mcp/server.go:70-79 | books the amount if and only if it fits in what is left of the total, or of the cap when there is none, and reports what is left |
| `McpGate.Server.SwapExecute` | internal/mcp/tools.go:280-331 | the swap is tried if and only if every gate is passed; the amount is booked as soon as it resolves and fits, whatever happens next |
| `McpGate.SpendingIsBounded` | internal/mcp/server.go:59-79 | over every interleaving of calls: traded ≤ booked = spent, and spent ≤ budget unless the budget is NaN |
| `McpGate.SpentWithinLimits` | internal/mcp/server.go:58-79 | over every interleaving, on the options: with a positive total at most the total is spent, and without one at most the cap |
| `McpGate.BookedExactlyWhenFits` | internal/mcp/server.go:58-79 | a resolved call is booked if and only if it is within the cap and fits in what is left of the total, or of the cap when there is none |
| `McpGate.ResolvesExactlyWhen` | internal/mcp/tools.go:216-240 | a call resolves if and only if its amount is positive, it names a configured chain or none and one is chosen, both symbols are known there and the slippage is; to the token its symbol stands for |
| `McpGate.GatesOpenExactlyWhen` | internal/mcp/tools.go:301-309 | after the booking a call is turned down if and only if its chain is not allowed, or its own report is HIGH and that is not allowed; unchecked tokens pass at once |
| `McpGate.SomeRunTrades` | internal/mcp/tools.go:280-331 | a call that resolves and fits, on an allowed chain, is traded in some run, for any report that is not HIGH or when that is allowed |
| `McpGate.ChoosesConfigured` | internal/mcp/tools.go:358-365 | the chain in the settings may change meanwhile to any configured one, or become unreadable, and nothing else |
| `McpGate.TradesPassEveryGate` | internal/mcp/tools.go:216-331 | over every interleaving: a call that reaches the exchange is positive, within the cap unless that is NaN, on an allowed chain, and its own risk check came back with an answer for that chain and token that is not HIGH unless allowed |
| `McpGate.AnyAmountBookedExactlyWhen` | internal/mcp/server.go:58-94 | on a started server on which some call resolves, every positive amount is booked in some run if and only if neither the cap nor the budget is finite |
| `McpGate.CapOfNaNBooksAnything` | internal/cli/mcp.go:21-22 | a cap of NaN passes the checks at the start, and any positive amount can be booked |
| `McpGate.BookingsStay` | internal/mcp/server.go:66-79 | what was booked stays booked, through failures and refusals |
| `McpGate.RefusalStillSpends` | internal/mcp/tools.go:293-303 | a call on a chain that is not allowed never trades, and its amount is gone all the same |
| `SelfUpdate.Updater.Install` | internal/selfupdate/install.go:37-75 | every state on the way is sane; unless a removal fails, a refusal leaves the directory as it was and a success changes only the binary; unless a step fails by itself, it succeeds if and only if the download is published, whole and a release |
| `SelfUpdate.Updater.PayloadExactly` | internal/selfupdate/install.go:95-198 | what may be installed: downloaded bytes that did not break off before 200 MiB, whose digest is the first field of the checksum text but for case, unpacking to exactly one whole regular file "lazyswap" and nothing after it |
| `SelfUpdate.Updater.ExtractBinary` | internal/selfupdate/install.go:161-198 | stages the only entry of a release and refuses every other archive, leaving nothing behind |
| `SelfUpdate.Updater.DownloadTemp` | internal/selfupdate/install.go:95-119 | one new temporary file holding what was delivered, up to the limit, or none |
| `SelfUpdate.KilledAnywhere` | internal/selfupdate/install.go:51-75 | in a sane state the binary is the old one or the payload, whole if and only if it fits the limit; without matching digests it is the old one and nothing new is staged |
| `SelfUpdate.ChecksumLine` | internal/selfupdate/install.go:123-142 | a line of `sha256sum`, in either case and for a file name of any length, publishes its digest |
| `Envelope.DecryptUndoesEncrypt` | internal/crypto/crypto.go:63-137 | decrypting what was encrypted under the same key gives the text back |
| `Envelope.EncryptedText` | internal/crypto/crypto.go:63-90 | the text is initialisation vector, tag and ciphertext in that order, in hexadecimal with colons between them |
| `Envelope.OpensExactlyEncryptions` | internal/crypto/crypto.go:93-137 | a text decrypts if and only if it is, but for the case of its digits, an encryption of the result |
| `Envelope.EncodeUndoesDecode` | internal/crypto/crypto.go:99-116 | what decodes as hexadecimal is the encoding of its bytes, but for case |
| `Login.ValidatePassword` | internal/tui/screens/login/validate.go:13-38 | no complaint if and only if there are eight bytes of UTF-8 with a small letter, a capital and a digit among the characters, under any classification of characters |
| `Login.BytesOfText` | internal/tui/screens/login/validate.go:13-16 | the length judged is the sum over the characters of the fewest bytes of UTF-8 with room for each |
| `Login.Store.DeriveAndInit` | internal/tui/screens/login/login.go:228-250 | on success the store opens with the password; on failure at most the salt has changed |
| `Login.Model.Update` | internal/tui/screens/login/login.go:86-126 | the screen's fields and commands, message by message |
| `Login.Model.Submit` | internal/tui/screens/login/login.go:197-226 | validation, confirmation, and the two derivations |
| `Login.SubmitMeaning` | internal/tui/screens/login/login.go:197-226 | enter keeps a first acceptable password to be confirmed, sets it when it is entered again, starts over when another is, and on a store with a password only verifies |
| `Login.ScreenAnswers` | internal/tui/screens/login/login.go:86-126 | every other message, field by field; while a derivation is under way nothing the user does matters |
| `Login.SealedOpens` | internal/wallet/unlock.go:21-53 | a store with this salt and a sentinel sealed under this password unlocks with it, to the same key |
| `Login.UnlocksExactlyWhen` | internal/wallet/unlock.go:21-53 | a store unlocks with a password if and only if its salt decodes and its sentinel is, but for case, an encryption of "lazyswap-v1-ok" under the key of that password and salt, which is the key returned; every refusal has its own cause |
| `LoginRuns.InitialisedOpens` | internal/tui/screens/login/login.go:197-263 | over every run with failures and restarts: an initialised store opens with a validated password entered twice in a row; whoever was let in has the key of an entered password that still opens it; at most one derivation is under way |
| `LoginRuns.LetInOpensSentinel` | internal/tui/screens/login/login.go:197-263 | over every run, from an initialised store or one without a sentinel: whoever was let in has a key derived from an entered password and the stored salt that opens the stored sentinel; an initialised store stays as it is |
| `LoginRuns.SetsUp` | internal/tui/screens/login/login.go:197-263 | on an empty store some run with an acceptable password entered twice initialises it, with a salt of 32 bytes, and lets the user in |
| `LoginRuns.LogsIn` | internal/tui/screens/login/login.go:253-263 | on an initialised store a password that unlocks it lets the user in at the first attempt, and one that does not never does, however often it is tried alone |
| `LoginRuns.InitialisedForGood` | internal/wallet/dao.go:186-217 | once initialised, nothing this screen does changes the store |
| `SeedOverlay.RandomPicks` | internal/tui/overlays/seedoverlay/seed.go:88-104 | two increasing positions in range, or a failure exactly when a draw fails |
| `SeedOverlay.PicksAreUniform` | internal/tui/overlays/seedoverlay/seed.go:88-104 | each pair of positions is hit by exactly two of the n(n-1) raw draws |
| `SeedOverlay.Model.Update` | internal/tui/overlays/seedoverlay/seed.go:135-158 | the overlay's fields and commands, message by message, wherever no index is out of range |
| `SeedOverlay.EnterMeaning` | internal/tui/overlays/seedoverlay/seed.go:162-215 | enter, step by step: a password asks for a check once, a shown phrase leads to the quiz or closes, a right word advances and the second one confirms |
| `SeedOverlay.OverlayAnswers` | internal/tui/overlays/seedoverlay/seed.go:135-158 | every other message; once the quiz is passed no key does anything |
| `SeedOverlay.PlayIsStepwise` | internal/tui/overlays/seedoverlay/seed.go:135-158 | the courses these statements speak of are the messages one after the other, and an index out of range is noted in them |
| `SeedOverlay.BackupConfirmsOnce` | internal/tui/overlays/seedoverlay/seed.go:135-215 | fed by its own commands a backup never panics and asks for no check; it confirms its own phrase, once, if and only if both picked words were answered in order |
| `SeedOverlay.RevealNeverQuizzes` | internal/tui/overlays/seedoverlay/seed.go:135-197 | a reveal overlay, whatever reaches it, never quizzes, confirms or panics |
| `SeedBackup.SavedWasQuizzed` | internal/tui/screens/mainscreen/update_wallet.go:32-130 | over every run in which no backup is opened while a password check is pending: a phrase is saved only after both its picked words were answered in order in a backup of that very phrase, and nothing panics |
| `SeedBackup.QuizLeadsToSave` | internal/tui/screens/mainscreen/update_wallet.go:32-130 | for any phrase whose picked words can be typed some run passes its quiz and saves it |
| `SeedBackup.DeletionLeavesBackup` | internal/tui/screens/mainscreen/update_wallet.go:82-89 | for any phrase a run that opens its backup while a deletion begun before is pending, whose answer takes the backup off the screen |
| `SeedBackup.ArrivalMeaning` | internal/tui/screens/mainscreen/update_wallet.go:32-86 | a close, a finished creation or a finished deletion sends the screen back to normal whatever it shows; a confirmation starts saving; an answer reaches the overlay only while one is open |
| `SeedBackup.MainScreenKeys` | internal/tui/screens/mainscreen/update.go:67-107 | what asking, declining, deleting and opening do in each mode; keys reach the overlay only while it is open, and after a panic nothing happens |
| `SeedBackup.ReplaceableExactlyWhenCheckPending` | internal/tui/overlays/seedoverlay/seed.go:188-197 | while a backup stays open its phrase can be replaced if and only if an earlier overlay's check, or its answer with another phrase, is pending |
| `SeedBackup.CheckOutlivesOverlay` | internal/tui/screens/mainscreen/update.go:71-74 | a run that opens a backup of any phrase while such a check is pending |
| `SeedBackup.PanicsAtWordExactlyWhen` | internal/tui/overlays/seedoverlay/seed.go:188-215 | an open backup can run an index out of range at the word it asks for if and only if an earlier overlay's check is pending, or its answer with a phrase of too few words |
| `SeedBackup.PassedQuizPanics` | internal/tui/screens/mainscreen/update.go:71-74 | for any phrase whose picked words can be typed: a run that passes its quiz while such a check is pending, and goes on to an index out of range |
| `SeedBackup.PanicsExactlyWhenCheckPending` | internal/tui/overlays/seedoverlay/seed.go:188-215 | once its quiz is passed, an open backup can still run an index out of range if and only if an earlier overlay's check, or its answer with a phrase, is pending |
| `TokenItems.BuildToItems` | internal/tui/overlays/swapoverlay/items.go:64-119 | the map and the loops keep, of all candidates in order of precedence, the first of each folded address |
| `TokenItems.ListIsOrderedUnion` | internal/tui/overlays/swapoverlay/items.go:64-131 | native first, then recommended, then owned, in source order; no folded address twice; exactly the addresses of the three sources; owned if and only if among the balances |
| `TokenItems.ListedMeaning` | internal/tui/overlays/swapoverlay/items.go:85-126 | a listed token shows the last of its balances, and "0.00" if and only if there is none or it is empty |
| `ShellQuote.QuotedIsOneWord` | internal/cli/setpassword.go:47-49 | a POSIX shell reads the quoted text as exactly one word, the text itself, outside quotes again, if and only if it has no NUL |
| `ShellQuote.ReadsQuoted` | internal/cli/setpassword.go:47-49 | so it does in the middle of a word and of a line |
| `ShellQuote.ExportLineSetsPassword` | internal/cli/setpassword.go:41 | the printed line is an export of exactly the password, with or without its final newline |
| `ThorUnits.RenderedToThor` | internal/thorchain/provider.go:231-237 | a rendered balance converts to raw · 10^8 div 10^d, and only zero is refused |

## Left out

- Negative raw amounts in `FormatUnits`, and nil: balances and amounts are unsigned on chain.
- IEEE 754 rounding outside the allowance comparison and the taxes: prices, percentages and USD sums are exact here; `ToThorBaseUnits` beyond 2^63 and the 97 % memo minimum are not modelled.
- `ParseFloat` on exponents, underscores, hexadecimal and special values: none is printed by the code that feeds it, and the risk API answers in plain decimals. NaN and infinities as options of the trading gate are modelled as values.
- Execution.Executor.ExecuteFullSwap: says what is sent, not that it is mined well; the code does not look at receipts' status either.
- SwapBtcRuns.RunIsSafe: claims nothing about price estimates beyond leaving the form, the token and the quote alone, because the code does not pair them with the amount they answer.
- McpGate.SpendingIsBounded: amounts are reals, so the rounding of float additions to `spentUSD` is not modelled.
- McpGate.TradesPassEveryGate: the per-chain caches of flows and balance services, and slippage and wallet lookup, appear only as succeeding or failing.
- LoginRuns.InitialisedOpens: starts from a store without a sentinel and assumes failing writes change nothing. That no two passwords derive keys that open the same sentinel is a matter of the key derivation and the cipher.
- SeedBackup.SavedWasQuizzed: modes of the main screen that never touch the overlay are left out. The answer of a deletion, which sends the screen back to normal whatever it shows, is modelled; that of an import, which does the same, is not told apart from it.
- SelfUpdate.Updater.Install: one updater at a time in the directory; tar, gzip and SHA-256 are functions; symlinks are resolved before.
- Unicode case folding, and input that is not valid UTF-8.
- The approval hint on quotes (`checkNeedsApproval`): the same comparison again, for display only.
- The swap overlay's own steps, where requests do not change the step, and the main screen's balance cache, whose results carry no chain.
- RPC, HTTP, JSON, SQLite, signing, ABI encoding, BIP-39 and BIP-32, views, layout and themes.
- Settings, chain cycling, CLI dispatch, address and asset strings: single branches that would only add easy members.
