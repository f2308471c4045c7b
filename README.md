# bean: the trading core, modelled in Dafny

bean is a Go backtester for crypto-currency trading strategies. A
strategy is run tick by tick against simulated exchanges. Each simulator
replays recorded order books and a trade tape, fills the strategy's limit
orders against them and keeps a portfolio of balances. The trades that
come out are then evaluated as portfolio snapshots, marks to market,
profit and loss, drawdown and win/loss counts.

This project models that deterministic, single-threaded core. Prices and
amounts are `real`. Times are `int` nanoseconds since the Unix epoch, in
UTC. Where float64 arithmetic can give NaN (a missing side, a division by
zero, a rate never seen), the value is `Num.Fl`: either `NaN` or a real
number.

Modules, by Go source file:

- `Books` (orderbook.go):
  - best bid and ask with their sentinels, mid, spread, validity, copy and equality;
  - `Denoise`, which carries dust forward in place;
  - in-place `Sort`;
  - the depth walk `priceInAmount` and its `PriceIn`/`BidIn`/`AskIn` callers;
  - `Match` against a marketable order;
  - the last-snapshot lookup over a time series of books.
- `Ladders` (orderbook1.go): the mutable `OrderBook1` class, whose insert, cancel and edit report whether the top of the book changed.
- `PlainBooks` (OrderBook.go): the second copy of the book helpers, with validity, emptiness, mid, `Denoise` and `Sort`.
- `Contracts` (contract.go):
  - the parser for `COIN-PERPETUAL`, `COIN-DATE` and `COIN-DATE-STRIKE-C|P`, with its name cache held as a class;
  - the `D/DDMMMYY` date parser and `Name` rendering, proved to round-trip;
  - `Equal`, `UnderFuture`, `CallPutMirror`, `DayDiff` and `ExpiryDays`;
  - `PositionsFromNames` and `Positions.Sort`.
- `Portfolios` (portfolio.go): the `Portfolio` class over maps of total and locked balances and all its methods.
- `Sim` (exchange/sim.go): the `Simulator` class, with its resting orders, id counter, actions, fill tape and portfolio; `SetTime`, `PlaceLimitOrder`, `CancelOrder` and the queries.
- `Strat` (strat.go): operation codes, `BaseStrat` and the action constructors.
- `Perform` and `Backtest` (brew/perform.go, brew/backtest.go): dispatching a strategy's actions to the simulators, and the tick loop of `Simulate`.
- Strategies (strats/\*.go): `OrderScans` (orderscan.go), `StackBias` (stackbiasmm.go) and `SimpleMarketMaker` (simplemm.go). The shared cancel-every-live-order loop is in `Cancels`.
- Evaluation modules:
  - `Evaluate` (evaluate.go): snapshots, rate lookup, PnL and `MaxDD`;
  - `TradeLogs` (tradelog.go): trade-log summaries, `Net`, `Minus`, `ToTransactions`, `Since`, `Pairs` and `Sort`;
  - `TradeStats` (trstat.go): coin lists, PnL, drawdowns and win/loss counts;
  - `Eval` (eval.go) and `StratsEval` (strats/eval.go): interval performance.
- `Pairs` and `Coins` (pair.go, coin.go): the pair and coin tables.
- `Rpc` (rpc/risk.go, rpc/options.go): first-at-or-after book selection and the future-name rule.
- `Utils` (utils/\*.go): `Contains`, `AverageSlice`, `MinOf`, `MaxOf`, `Sign` and `FormatDuration`.
- `MdsRead` (db/mds/read.go): `convertToOrders`.
- Support modules for what the Go standard library gives the source:
  - `Wrappers`: `Option` and `Result`;
  - `Num`: float64 with NaN;
  - `Chrono`: time, the calendar and `Truncate`;
  - `Text`: `strings.Split`/`Join`, `strconv.Atoi` and decimal rendering;
  - `Sorting`: `sort.Slice` as an in-place sort proved against a strict weak order;
  - `Txns`: the transaction record.

Modelling conventions:

- Go maps are Dafny maps.
- Where Go iterates a map, its unspecified order is an explicit parameter: a duplicate-free list of the keys.
- Slices sorted or mutated in place are arrays.
- A Go panic on an index is a precondition.
- A panic the source reaches on ordinary input, such as `EvaluateSnapshot` on a zero rate, is a `None` result.
- Helpers the source calls but does not define are function-typed parameters: `Transactions.Between`/`Fill`, `Portfolio.Age`, the market-data service and the price renderer.

## Model

| member | source | states |
|---|---|---|
| Utils.Contains | utils/slice.go:5-13 | the scan reports true exactly when the element occurs in the slice |
| Utils.AverageSlice | utils/slice.go:15-23 | the mean of a non-empty slice (result times length equals the sum) and 0 for an empty one; the private copy at strats/stackbiasmm.go:56-64 is the same loop |
| Utils.MinOf | utils/slice.go:25-33 | the result is one of the arguments and no argument is smaller; an empty list is excluded, since indexing it panics |
| Utils.MaxOf | utils/slice.go:35-43 | the result is one of the arguments and no argument is larger; an empty list is excluded, since indexing it panics |
| Utils.Sign | utils/math.go:4-12 | 1 exactly for positive values, -1 exactly for negative ones, 0 exactly for zero |
| Utils.SignLaws | utils/math.go:4-12 | v times its sign is its absolute value, the sign is odd and idempotent |
| Utils.RoundToMinute | utils/Format.go:8-9 | the duration rounded to a minute is a multiple of a minute (unless clamped at the int64 end), within half a minute of the input, and keeps the input's sign |
| Utils.DurationPartsSpec | utils/Format.go:8-15 | for a non-negative duration the minutes printed lie in 0..59 and hours and minutes add up to the rounded duration; a negative duration prints no positive part |
| Utils.FormatZero | utils/Format.go:8-15 | a zero duration prints as "0h0m" |
| Pairs.PairString | pair.go:16-18 | the name is the coin's name followed by the base's name, nothing in between |
| Pairs.MinimumTradingAmount | pair.go:24-89 | the table's amount for a pair, 1.0 for an unlisted one, so it is always positive |
| Pairs.OrderPricePrec | pair.go:121-180 | the listed pairs get 2 to 8 decimals; a pair whose base is not USDT, BTC, ETH or FT has none (the source panics) |
| Pairs.RoundToPrecBound | pair.go:183-186 | a price rounded to the pair's decimals moves by at most half a unit of the last kept decimal |
| Pairs.MinimumTick | pair.go:188-191 | a tick exists exactly when the pair has a precision, and it is 10^-prec |
| Pairs.TickOfPrecUnit | pair.go:188-191 | the tick is positive and is exactly one unit of the last price decimal |
| Pairs.AllCoins | pair.go:193-203 | the loop's result is the specified first-appearance list, each pair's base before its coin |
| Pairs.AllCoinsSpecDistinct | pair.go:193-203 | that list has no duplicates, keeps what was already listed, and holds exactly the bases and coins of the pairs |
| Pairs.RightPair | pair.go:205-228 | a pair is found exactly when one coin is USDT, BTC or ETH or the two are IOTX and APOT, and it is made of the two inputs |
| Pairs.RightPairSymmetric | pair.go:205-228 | the argument order does not matter, and the quote is USDT when present, else BTC |
| Coins.Format | coin.go:53-66 | the fixed pattern of IOTX, ETH and USDT, and "#,###.####" for every other coin |
| Coins.AmountDecimals | coin.go:84-114 | exactly the twelve listed coins have a rule, keeping 0, 2, 3 or 6 decimals |
| Coins.RoundCoinAmount | coin.go:84-114 | the result is a number exactly when the coin has a rule, NaN otherwise |
| Coins.FloorToBelow | coin.go:84-114 | flooring to a scale never goes above the amount |
| Coins.FloorToNear | coin.go:84-114 | flooring to a scale loses less than one unit of that scale |
| Coins.FloorToIdempotent | coin.go:84-114 | flooring twice is flooring once |
| Coins.RoundCoinAmountBounds | coin.go:84-114 | for a listed coin the rounded amount is at most the amount, within 10^-k of it, and rounding again changes nothing |
| Coins.RenderPrefix | coin.go:116-169 | the symbol put before the digits is at least two characters |
| Coins.RenderCoinAmount | coin.go:116-169 | the text is empty exactly below the coin's threshold (USDT, BNB and BTC below 1, 0.1 and 1e-4 in magnitude, IOTX, ZRX and ONT at 0, FT under 10, others under 1e-2, ETH never), otherwise the symbol then the formatted digits |
| Coins.LessIrreflexive | coin.go:49-51 | no coin name is less than itself |
| Coins.LessTransitive | coin.go:49-51 | the name order is transitive |
| Coins.LessTotal | coin.go:49-51 | two different names are ordered one way or the other |
| Coins.Len | coin.go:43-45 | the length of the list |
| Coins.Swap | coin.go:46-48 | the two entries are exchanged in place, everything else stays, and the multiset is kept |
| Strat.OpCode | strat.go:11-15 | the operation codes are 0, 1 and 2 |
| Strat.OpCodesDistinct | strat.go:11-15 | two operations share a code exactly when they are the same operation |
| Strat.CancelOrderAction | strat.go:63-72 | a cancel on the given exchange and pair whose only parameter is the order id |
| Strat.PlaceLimitOrderAction | strat.go:74-84 | a limit order on the given exchange and pair whose parameters are exactly the price and the amount |
| Strat.WaitAction | strat.go:86-93 | a wait with empty exchange and pair whose only parameter is the time |
| Strat.ConstructorsPerformable | strat.go:63-93 | each constructed action carries the parameters its dispatch reads, with codes 1, 0 and 2 |
| Strat.GetTick | strat.go:22-24 | the strategy's tick |
| Strat.Name | strat.go:26-28 | the name "bean" |
| Strat.FormatParams | strat.go:30-32 | the empty parameter text |
| PlainBooks.Mid | OrderBook.go:20-26 | no value exactly on an invalid book |
| PlainBooks.Predicates | OrderBook.go:30-37 | invalid is the negation of orderbook.go's validity, an empty book is invalid, and a book is invalid but not empty exactly when one side alone is empty |
| PlainBooks.MidAgrees | OrderBook.go:20-26 | the mid agrees with orderbook.go's mid and lies between the best prices of an uncrossed book |
| Cancels.CancelAlive | strats/stackbiasmm.go:89-95 | at most one action per order, each a cancel on the strategy's exchange and pair |
| Cancels.CancelAliveExact | strats/orderscan.go:128-134 | every alive order gets a cancel with its id, and every cancel comes from an alive order |
| Cancels.CancelAliveOrders | strats/orderscan.go:128-134 | the loop over the orders builds exactly those cancels, in order |
| PlainBooks.Denoise | OrderBook.go:41-64 | each side keeps, in order, the carried entries that reach the pair's minimum trading amount, all of them at least that minimum; on separate slices each side total is kept but for a last carry below the minimum, and the input slices are left carried |
| PlainBooks.Sort | OrderBook.go:66-72 | the asks are permuted into ascending and the bids into descending price order, in place; OrderBook.go's `Denoise` and `Sort` behave exactly as orderbook.go's, so both run the single definitions of module Books |
| Books.AmountToSide | orderbook.go:311-317 | the side is SELL exactly for a negative amount |
| Books.BidAskMid | orderbook.go:54-76 | a missing book gives the error flag; each side's price is present exactly when that side is; a one-sided book reports the present side's price as the mid |
| Books.TopOfBook | orderbook.go:46-52 | a book is valid exactly when its mid and spread have values; then the mid is the average and the spread the difference of the best prices, and otherwise both are NaN |
| Books.Sentinels | orderbook.go:30-44 | an empty bid side gives the sentinel bid of price 0 and amount 99, an empty ask side the ask of no price and amount 0, and a missing book NaN everywhere with the error flag |
| Books.EqualLaws | orderbook.go:112-119 | two books are equal exactly when both are valid with the same best bid and ask prices, so the relation is symmetric and transitive and reflexive only on valid books |
| Books.Copy | orderbook.go:90-102 | the copy's two sides are fresh, distinct arrays with the original contents |
| Books.SortLadder | orderbook.go:148-154 | one side is permuted in place into ascending or descending price order |
| Books.SortedLadder | orderbook.go:148-154 | the sorted value of a side is a permutation, ascending or descending |
| Books.SortedUnique | orderbook.go:148-154 | on distinct prices, the sorted order of a side is unique, whatever the sort algorithm does with ties |
| Books.Sort | orderbook.go:148-154 | both sides are permuted, bids non-increasing and asks non-decreasing by price |
| Books.BestIsExtreme | orderbook.go:30-44 | on a sorted book the best bid is the highest bid price and the best ask the lowest ask price |
| Books.Carried | orderbook.go:127-135 | carrying dust forward changes amounts only, never prices or length |
| Books.CarryStep | orderbook.go:127-135 | an entry's amount after the carry is its own plus the previous entry's carried amount when that was below the minimum |
| Books.KeptStep | orderbook.go:127-135 | an entry is kept, with its carried amount, exactly when that amount reaches the minimum |
| Books.DenoiseLadder | orderbook.go:127-135 | the loop over one side returns the kept entries and leaves the side's array holding the carried amounts |
| Books.Denoise | orderbook.go:123-146 | the result's sides are the denoised bids and asks, and the input arrays are left holding the carried amounts, as the source mutates them |
| Books.KeptIsAtLeast | orderbook.go:127-135 | the kept entries are the carried entries at or above the minimum, in order |
| Books.KeptTotal | orderbook.go:127-135 | kept amounts plus the pending carry add up to the input's total |
| Books.DenoiseSpec | orderbook.go:123-146 | kept entries reach the minimum, keep their order and prices from the input, and their total is the input's total minus a trailing carry below the minimum |
| Books.DenoiseClean | orderbook.go:123-146 | a side without dust is kept unchanged |
| Books.SortSeries | orderbook.go:181-184 | the series is permuted into chronological order |
| Books.LeadingBefore | orderbook.go:187-197 | the count of leading snapshots strictly before t, the next one being at or after t |
| Books.GetOrderBook | orderbook.go:187-197 | the book of the last snapshot strictly before t, or the first snapshot when none is before t; an empty series is excluded (it panics) |
| Books.GetOrderBookLast | orderbook.go:187-197 | on a chronological series the chosen snapshot is the last one before t |
| Books.InAmount | orderbook.go:218-235 | the walk has a price exactly when the side is non-empty |
| Books.PriceInAmount | orderbook.go:218-235 | an empty side gives NaN and 0; otherwise the first level whose cumulative amount strictly exceeds the size, with that cumulative amount, or else the last level and the whole depth |
| Books.BidIn | orderbook.go:208-211 | exactly `priceInAmount` on the bids: NaN and 0 on an empty side, else the price of the first bid level whose cumulative amount strictly exceeds the size with that cumulative amount, or the last bid and the whole depth |
| Books.AskIn | orderbook.go:213-216 | exactly `priceInAmount` on the asks: NaN and 0 on an empty side, else the price of the first ask level whose cumulative amount strictly exceeds the size with that cumulative amount, or the last ask and the whole depth |
| Books.PriceIn | orderbook.go:202-206 | both walks at once, each exactly `priceInAmount` on its side (the first level whose cumulative amount strictly exceeds the size); each price is NaN exactly for an empty side |
| Books.Sweep | orderbook.go:269-286 | the loop's filled amount and notional are those of the level-by-level specification |
| Books.Match | orderbook.go:266-294 | the result is the specified match of the order against the side it crosses |
| Books.FilledIsMin | orderbook.go:269-286 | the filled amount is the smaller of the wanted amount and the eligible depth |
| Books.FilledRange | orderbook.go:269-286 | the filled amount lies between 0 and the wanted amount |
| Books.NotionalUpper | orderbook.go:269-286 | the notional is at most the highest eligible price times the fill |
| Books.NotionalLower | orderbook.go:269-286 | the notional is at least the lowest eligible price times the fill |
| Books.MatchBounds | orderbook.go:266-294 | a buy fills between 0 and its amount at no more than its limit, a sell fills between its amount and 0 at no less than its limit, and no fill is the order of price and amount 0 |
| Books.MatchPriceRange | orderbook.go:266-294 | a fill's average price lies between any lower and upper bound of the prices of the levels the sweep actually takes from: eligible levels holding an amount, reached while the eligible depth before them is still short of the wanted amount |
| Ladders.LevelIndex | orderbook1.go:56-69 | the index of the first level with exactly that price, or the length when there is none |
| Ladders.OrderBook1.Empty | orderbook1.go:27-29 | both sides are empty, hence sorted |
| Ladders.OrderBook1.New | orderbook1.go:32-35 | the sides hold the given levels, asks ascending and bids descending |
| Ladders.OrderBook1.Sort | orderbook1.go:128-134 | both sides are permuted into order, and a side already strictly sorted is left as it is |
| Ladders.OrderBook1.InsertBid | orderbook1.go:38-44 | the bids gain the order and are re-sorted, the asks keep their levels; the top-of-book flag holds exactly when the new price is the best bid, that is, no earlier bid was higher |
| Ladders.OrderBook1.InsertAsk | orderbook1.go:47-53 | the asks gain the order and are re-sorted, the bids keep their levels; the flag holds exactly when no earlier ask was lower |
| Ladders.OrderBook1.CancelBid | orderbook1.go:56-69 | the first bid with exactly that price is removed, the asks are untouched, and the flag holds exactly when that bid was at index 0 |
| Ladders.OrderBook1.CancelAsk | orderbook1.go:72-85 | the first ask with exactly that price is removed, the bids are untouched, and the flag holds exactly when that ask was at index 0 |
| Ladders.OrderBook1.EditBid | orderbook1.go:88-98 | only the amount of the first bid with exactly that price is overwritten, the asks are untouched, and the flag is always false |
| Ladders.OrderBook1.EditAsk | orderbook1.go:101-111 | only the amount of the first ask with exactly that price is overwritten, the bids are untouched, and the flag is always false |
| Ladders.BestBid | orderbook1.go:113-119 | the top bid, or no price and amount 0 for an empty side (unlike orderbook.go's 0/99 sentinel) |
| Ladders.BestAsk | orderbook1.go:121-127 | the top ask, or no price and amount 0 for an empty side |
| Ladders.BestIsExtreme | orderbook1.go:113-127 | on sorted sides the top levels are the highest bid and the lowest ask |
| Ladders.BidOnTop | orderbook1.go:38-44 | after a sorted insert the new price is at the top exactly when no earlier bid is above it |
| Ladders.AskOnTop | orderbook1.go:47-53 | after a sorted insert the new price is at the top exactly when no earlier ask is below it |
| Ladders.LevelFound | orderbook1.go:56-69 | the search finds a level exactly when some level has that price |
| Ladders.RemovedSpec | orderbook1.go:56-69 | a cancel shortens the side by one exactly when the price is present, removing that one level, and otherwise changes nothing |
| Ladders.RemovedKeepsOrder | orderbook1.go:56-85 | a cancel keeps a side sorted |
| Ladders.EditedSpec | orderbook1.go:88-111 | an edit keeps the length and every price, changes only the matched level's amount, and keeps a side sorted |
| Contracts.MonthCode | contract.go:176-203 | each month number has a three-letter code |
| Contracts.MonthOf | contract.go:176-203 | only the twelve upper-case codes are months, each read back as the month it codes |
| Contracts.StrToExpiry | contract.go:148-207 | only 6- and 7-character texts parse, and every parsed expiry is at 08:00 UTC |
| Contracts.DateFields | contract.go:148-207 | a day, a month code and a two-digit year read back as that date of year 2000 + YY at 08:00 UTC |
| Contracts.DateTextRoundTrip | contract.go:148-207 | the rendered text of a valid date in 2000-2099 reads back as that date, and holds no dash |
| Contracts.ExpiryRoundTrip | contract.go:379-398 | the date text of an 08:00 UTC expiry in 2000-2099 reads back as that expiry |
| Contracts.StrikeRoundTrip | contract.go:379-398 | a non-negative integral strike printed with no decimals reads back as the same integer, with no dash |
| Contracts.NameParts | contract.go:379-398 | a canonical name has at least two dash-separated parts |
| Contracts.Name | contract.go:379-398 | with a coherent memo, the memoised name is the rendering: COIN-PERPETUAL, COIN-DATE, or COIN-DATE-STRIKE-C/P |
| Contracts.PerpContract | contract.go:291-298 | a perpetual, not an option, on the pair, expiring at the given clock reading; any reading is accepted, where Go always uses the current day at 08:00 UTC |
| Contracts.Parse | contract.go:59-144 | a parsed contract is a BTC or ETH contract against USD with an unset memo; an option is a call or a put; a dated contract is delivered at expiry; a perpetual expires now |
| Contracts.ParseToday | contract.go:59-144 | only a perpetual's parse depends on the clock, and parsing again at the result's expiry gives the same result |
| Contracts.ParseShape | contract.go:74-139 | fewer than two parts is a formation error, an unknown coin is its own error, three or five and more parts never parse; two parts give a non-option, four an option, and a perpetual exactly for COIN-PERPETUAL |
| Contracts.NameRoundTrip | contract.go:59-144 | the canonical name of a well-formed contract parses back to the contract itself |
| Contracts.PerpRoundTrip | contract.go:291-298 | a perpetual's name parses back to a perpetual on the same market, expiring at the new clock reading |
| Contracts.EqualFuturesCollide | contract.go:428-441 | as written, two futures on one market with different expiries are Equal |
| Contracts.SameContractLaws | contract.go:428-441 | the intended relation is an equivalence, implies the source's Equal, and tells two futures apart by expiry |
| Contracts.ParseNameSame | contract.go:59-144 | the round trip holds up to the intended equality for every well-formed contract and every perpetual |
| Contracts.UnderFuture | contract.go:365-377 | an option's future keeps its market, expiry and delivery, with strike 0, NA and an unset memo; a non-option is returned unchanged |
| Contracts.UnderFutureName | contract.go:365-377 | a well-formed option's future is well formed and idempotent, and its name is the option's first two name parts |
| Contracts.CallPutMirror | contract.go:444-453 | Call becomes Put and anything else Call; the memo is cleared and every other field is kept |
| Contracts.MirrorLaws | contract.go:444-453 | mirroring a call or put twice gives it back, keeps a well-formed option well formed, and changes an option's name |
| Contracts.MirrorRenames | contract.go:444-453 | a mirrored option renders to a different name, so the memo has to be cleared |
| Contracts.SpanDays | contract.go:542-546 | a whole number of days, truncated to the hour and divided by 24 hours, rounds back to that number |
| Contracts.DayDiffSpec | contract.go:542-546 | the day difference is the difference of the calendar day numbers, time of day dropped, and is antisymmetric |
| Contracts.ExpiryDays | contract.go:548-550 | the days from now to the expiry's calendar day |
| Contracts.ContractCache.constructor | contract.go:49 | the cache starts empty |
| Contracts.ContractCache.ContractFromName | contract.go:59-144 | a cached name returns the cached contract and leaves the cache alone; otherwise the result is the parse, and only a success is added; the cache stays coherent |
| Contracts.PositionAt | contract.go:305-314 | one name's position: its parsed contract, with the quantity and price at its index, or 0 when a list is missing |
| Contracts.PositionsFromNames | contract.go:300-317 | one position per name until the first name that does not parse, whose error is returned along with the positions so far |
| Contracts.PositionBeforeReflexive | contract.go:319-340 | as written, the comparator calls a future less than itself, and two futures of one delivery less than each other |
| Contracts.ComparatorsAgree | contract.go:319-340 | the written and the intended comparator agree except between two futures of one delivery |
| Contracts.FixedStrictWeak | contract.go:319-340 | the intended comparator is a strict weak order |
| Contracts.OptionsStrictWeak | contract.go:319-340 | on options alone the written comparator is a strict weak order |
| Contracts.OptionsSorted | contract.go:319-340 | options ordered by the written comparator are ordered by the intended one |
| Contracts.SortPositions | contract.go:319-340 | as written the positions are permuted in place, and ordered when every position is an option |
| Contracts.SortPositionsFixed | contract.go:319-340 | with the intended comparator the positions are permuted into order by delivery, futures first, then strike |
| Contracts.DayDiffOf | contract.go:542-546 | when the span fits a duration, the day difference is exactly the difference of the calendar day numbers |
| Portfolios.CreditSpec | portfolio.go:62-72 | crediting a coin creates it when absent and changes its balance by exactly the amount and no other coin's; removing what was added restores it |
| Portfolios.CombineSpec | portfolio.go:110-134 | every coin of a combination is the receiver's balance plus the scaled balance of the other portfolio, over the union of coins |
| Portfolios.CombineLaws | portfolio.go:110-125 | adding is commutative on balances, subtracting undoes adding coin by coin, and a portfolio minus itself is zero everywhere |
| Portfolios.Portfolio.Empty | portfolio.go:31-36 | no balances, no locks and no contracts |
| Portfolios.Portfolio.FromMaps | portfolio.go:37-48 | the given balance and locked maps, no contracts |
| Portfolios.Portfolio.Balances | portfolio.go:54-56 | the balance map, entry for entry |
| Portfolios.Portfolio.Balance | portfolio.go:58-60 | a coin's balance, 0 when it has no entry |
| Portfolios.Portfolio.AvailableBalance | portfolio.go:82-89 | the balance minus the locked amount, or the balance when nothing is locked |
| Portfolios.Portfolio.AddBalance | portfolio.go:62-68 | the balances become the credit of that one coin; locks and contracts are unchanged |
| Portfolios.Portfolio.RemoveBalance | portfolio.go:70-72 | the credit of the negated amount; locks and contracts are unchanged |
| Portfolios.Portfolio.SetBalance | portfolio.go:74-76 | exactly one balance entry is overwritten |
| Portfolios.Portfolio.SetLockedBalance | portfolio.go:78-80 | exactly one locked entry is overwritten |
| Portfolios.Portfolio.Coins | portfolio.go:91-96 | each coin with a balance entry, once, and nothing else |
| Portfolios.Portfolio.Clone | portfolio.go:98-107 | a fresh portfolio with equal balance and locked maps and no contracts |
| Portfolios.Portfolio.SetBalances | portfolio.go:100-102 | the first loop of the clone copies every balance entry |
| Portfolios.Portfolio.SetLockedBalances | portfolio.go:103-105 | the second loop of the clone copies every locked entry |
| Portfolios.Portfolio.Add | portfolio.go:110-116 | a fresh portfolio with the pointwise sum of balances and the receiver's locks; the receiver is unchanged |
| Portfolios.Portfolio.Minus | portfolio.go:119-125 | a fresh portfolio with the pointwise difference of balances and the receiver's locks; the receiver is unchanged |
| Portfolios.Portfolio.Subtract | portfolio.go:128-134 | the same as Minus |
| Portfolios.Portfolio.Credits | portfolio.go:112-114 | the loop crediting every entry of the other portfolio, scaled by plus or minus one |
| Portfolios.Portfolio.Filter | portfolio.go:136-146 | a fresh portfolio whose balances are exactly the listed coins (0 when absent) and whose locks are copied only where the receiver has one |
| Portfolios.Portfolio.AddContract | portfolio.go:148-150 | the receiver's contracts are unchanged, since the append lands in a copy |
| Portfolios.Portfolio.ContractList | portfolio.go:152-154 | the contract list |
| Sim.RunOrders | exchange/sim.go:77-124 | processing one pair's resting orders keeps their number |
| Sim.RunPairs | exchange/sim.go:76-125 | processing the pairs in an enumeration of the order map's keys keeps that map's keys |
| Sim.StepOrderSpec | exchange/sim.go:77-124 | only ALIVE orders are processed and id, price and time never change; a zero fill changes nothing; a whole fill marks the order FILLED; a partial fill lowers the rest and keeps it ALIVE; a fill records one trade whose id is the count of earlier trades and whose maker is the buyer exactly for a buy |
| Sim.SettleSpec | exchange/sim.go:100-119 | a fill credits the coin with its amount and charges the quote its value, touches no other coin, releases the quote lock of a buy by the value and the coin lock of a sell by the size, and appends one trade |
| Sim.FillBounded | exchange/sim.go:80-90 | with a sane tape fill, the fill of a buy lies between 0 and its amount and the fill of a sell between its amount and 0 |
| Sim.RunOrdersCounted | exchange/sim.go:112-119 | trade ids stay the count of earlier trades, and the trade list only grows |
| Sim.RunPairsCounted | exchange/sim.go:112-119 | over all pairs, trade ids stay the count of earlier trades, and the trade list only grows |
| Sim.TickKeeps | exchange/sim.go:74-128 | one tick keeps ids counted, extends the trade list, changes orders only as a fill may, and keeps order ids below the counter |
| Sim.RunOrdersKeeps | exchange/sim.go:77-124 | each order after a tick is the same order, or a fill of an ALIVE one |
| Sim.RunPairsKeeps | exchange/sim.go:76-125 | the same holds for every pair |
| Sim.NumberedDistinct | exchange/sim.go:150-159 | order ids are the decimal counter values, so no two orders share one |
| Sim.AppendNumbered | exchange/sim.go:150-159 | appending the order with the current counter keeps ids numbered below the incremented counter |
| Sim.LockReleased | exchange/sim.go:159-165 | an order filled whole at its own limit price releases exactly the lock it placed |
| Sim.AliveStatusesSpec | exchange/sim.go:196-214 | every ALIVE order is listed and only those, each with its id, the side from its sign and a non-negative left amount |
| Sim.KeepsNoNewAlive | exchange/sim.go:74-128 | a tick makes no pair gain a live order |
| Sim.CancelAddsNoAlive | exchange/sim.go:170-186 | a cancel makes no order live |
| Sim.CancelHitsOne | exchange/sim.go:170-186 | with numbered ids a cancel changes at most one order, and ids stay numbered |
| Sim.RunPairsElsewhere | exchange/sim.go:76-125 | a pair not in the enumeration keeps its orders |
| Sim.Simulator.NewSimulator | exchange/sim.go:31-60 | the simulator starts at the start time with the given books, tape and portfolio, one empty order list per pair, counter 0 and no actions or trades |
| Sim.Simulator.GetOrderBook | exchange/sim.go:66-68 | the book of the last snapshot before now, by the rule of orderbook.go |
| Sim.Simulator.GetTransactionHistory | exchange/sim.go:70-72 | with a window query that answers only trades of its tape inside the window, only trades of the pair's tape stamped from ten minutes before now up to now |
| Sim.Simulator.GetTrades | exchange/sim.go:192-194 | the trades, whose ids are their positions |
| Sim.Simulator.GetPortfolioByCoins | exchange/sim.go:217-220 | a fresh portfolio of exactly the listed coins at their balances, with their locks |
| Sim.Simulator.GetMyOrders | exchange/sim.go:196-214 | the status records of the pair's ALIVE orders, in order |
| Sim.Simulator.LockedOf | exchange/sim.go:102-107 | the locked amount is the balance minus the available balance |
| Sim.Simulator.PlaceLimitOrder | exchange/sim.go:138-168 | the price is rounded to the pair's decimals; the action is recorded at now; an ALIVE order with the counter's decimal id is appended and the counter incremented; a buy locks its value in the quote and a sell its size in the coin; balances are unchanged |
| Sim.Simulator.CancelOrder | exchange/sim.go:170-186 | the action is recorded; every order of the pair with that id becomes CANCELLED, whatever its state, and nothing else changes, the portfolio and its locks included |
| Sim.Simulator.FillAt | exchange/sim.go:80-90 | the fill of one order against the book at now and the tape between now and t |
| Sim.Simulator.Book | exchange/sim.go:100-119 | the portfolio and trade list become the settlement of the fill |
| Sim.Simulator.ProcessOrder | exchange/sim.go:78-123 | one order and the ledger become that order's step |
| Sim.Simulator.ProcessPair | exchange/sim.go:77-124 | one pair's orders and the ledger become that pair's run |
| Sim.Simulator.ProcessPairs | exchange/sim.go:76-125 | the orders and the ledger become the run over the pairs in the given enumeration |
| Sim.Simulator.SetTime | exchange/sim.go:74-128 | the orders and ledger are the run over all pairs against the books at the old now; then last is the old now and now is t; the trade list only grows |
| Perform.ForIn | brew/perform.go:17-41 | every action handed to one simulator is a non-wait action of the list addressed to that simulator |
| Perform.Records | brew/perform.go:21-40 | a simulator records one entry per action handed to it, in order |
| Perform.Placements | brew/perform.go:22-31 | the number of placements is at most the number of actions |
| Perform.Placed | brew/perform.go:22-31 | one placement record per placement action |
| Perform.Cancelled | brew/perform.go:32-39 | at most one cancellation record per action |
| Perform.PlacedStep | brew/perform.go:22-31 | the placement records grow by one exactly at a placement action |
| Perform.Dispatch | brew/perform.go:21-40 | a placement or cancel moves its simulator's state one action on: one record, one counter value per placement, and the orders `Apply` gives (a new ALIVE order at the rounded price, or the pair's orders with that id CANCELLED); its portfolio's locks take the placement's value or size; the records are the action's, the placement's id the old counter; a wait changes nothing |
| Perform.PerformOne | brew/perform.go:17-41 | from simulators and portfolios that have carried out the actions before `i`, one action further on: each simulator's records, counter and orders and each portfolio's locks are those after the actions up to `i`; the records are the action's |
| Perform.PerformAddressed | brew/perform.go:21-40 | a placement or cancel carries its addressed simulator's records, counter and orders and its portfolio's locks one action on, while every other simulator and portfolio stays at the actions so far, which is the same as at the actions up to `i` |
| Perform.DispatchOthersKept | brew/perform.go:21-40 | the dispatch of an addressed action moves its simulator and portfolio one action on and leaves every other simulator and portfolio where the earlier actions left them |
| Perform.TrackedSplit | brew/perform.go:17-41 | before an addressed action, the simulators and portfolios it does not reach are already at the actions including it |
| Perform.TrackedJoin | brew/perform.go:17-41 | with the addressed simulator and portfolio one action on, every simulator and portfolio is at the actions including this one |
| Perform.TrackedStart | brew/perform.go:15-17 | before the first action every simulator and portfolio is where it started |
| Perform.TrackedWait | brew/perform.go:21-40 | a wait hands nothing to any simulator or portfolio |
| Perform.PerformActions | brew/perform.go:15-43 | the actions run strictly in order: the cancellation list is one record per cancel action and the placement list one per placement action, in order; each simulator records exactly the actions addressed to it, takes one counter value per placement and holds the orders `OrdersAfter` gives, keeping its clock and trades; each portfolio's locks follow the placements addressed to simulators booking into it, its balances and contracts kept |
| Perform.PerformFrom | brew/perform.go:17-41 | the loop: the records and every simulator's and portfolio's state follow the actions so far, at every iteration |
| Perform.OrdersAfterCount | brew/perform.go:21-39 | after the actions each pair holds its earlier orders, each the same or CANCELLED, and one more per placement on it |
| Perform.AfterSnoc | brew/perform.go:17-41 | the state after one more action is `Next` of the state before it |
| Perform.HoldingAfterSnoc | brew/perform.go:22-31 | the locks after one more action take that action's lock |
| Perform.ForPortIn | brew/perform.go:17-41 | a portfolio is handed only non-wait actions of the list addressed to a simulator booking into it |
| Perform.ForPortNone | brew/perform.go:17-41 | a portfolio no simulator books into is handed no action |
| Perform.ForPortStepOne | brew/perform.go:17-41 | a portfolio's share grows by the next action exactly when it is addressed to a simulator booking into it |
| Perform.CancelledStep | brew/perform.go:32-39 | the cancellation list grows by one record exactly at a cancel action |
| Perform.ForStepOne | brew/perform.go:17-41 | a simulator's share grows by the next action exactly when it is addressed to it and is not a wait |
| Perform.RecordsSnoc | brew/perform.go:21-40 | records and counter grow by one action's worth |
| Backtest.NextTick | brew/backtest.go:49 | each step is one tick after the last |
| Backtest.TicksSpec | brew/backtest.go:49 | the steps run from start by ticks and stop at the first time not before the end; an end at or before the start gives no step |
| Backtest.ViewsOf | brew/backtest.go:54 | the strategy is handed every simulator by exchange name |
| Backtest.Keys | exchange/sim.go:76 | an enumeration of the order map's keys, each once, as Go's map iteration supplies |
| Backtest.Build | brew/backtest.go:37-44 | one fresh simulator per exchange name, in order, over the strategy's pairs, all holding the same initial portfolio and no trades |
| Backtest.Advance | brew/backtest.go:51-53 | every simulator in turn runs `SetTime` to the step's time, going through its pairs in an order that lists each once: the simulators and the portfolio end in the world `Advanced` gives, with the fills of every live order against its book and tape; or the step stops at the first simulator with a live order on a pair without books, those before it advanced |
| Backtest.AdvanceStep | brew/backtest.go:51-53 | one more simulator advanced: the loop state holds for one more order list |
| Backtest.AdvanceSim | brew/backtest.go:52 | one simulator's `SetTime`, its pairs enumerated once each: the simulators and portfolio are in the world `AdvanceOne` gives |
| Backtest.AdvanceOneWorld | exchange/sim.go:74-128 | one simulator run through `RunPairs` and moved to `t`, the rest as they were, is the world `AdvanceOne` gives |
| Backtest.AdvanceOne | exchange/sim.go:74-128 | advancing one simulator moves its clock to `t`, keeps its actions and counter and the contracts, and changes no other simulator |
| Backtest.Advanced | brew/backtest.go:51-53 | advancing keeps the set of simulators |
| Backtest.AdvancedKeeps | brew/backtest.go:51-53 | advancing records no action, numbers no order and keeps the contracts |
| Backtest.AdvancedUnreached | brew/backtest.go:51-53 | a simulator not yet reached keeps its state |
| Backtest.AdvancedReached | brew/backtest.go:51-53 | every simulator reached is at the step's time |
| Backtest.AdvancedSnoc | brew/backtest.go:51-53 | advancing one simulator more is `AdvanceOne` after the advance so far |
| Backtest.AdvancedToSnoc | brew/backtest.go:51-53 | the loop state of the advance one simulator further on |
| Backtest.EnumeratedSnoc | exchange/sim.go:76 | the enumeration record one simulator further on |
| Backtest.Performed | brew/backtest.go:56 | performing keeps the simulators, the balances and the contracts |
| Backtest.Carry | brew/perform.go:17-41 | performing keeps a simulator's clock and trades and only adds records |
| Backtest.Rounds | brew/backtest.go:49-57 | the steps keep the set of simulators |
| Backtest.Simulate | brew/backtest.go:35-65 | one fresh simulator per name, all sharing the initial portfolio; the run is `Played` from that fresh world, so at each step of start, start+tick, ... before the end the strategy sees the view of the world after that step's advance, and the simulators and portfolio end in the world `Ended` gives; the result is `TradesIn` of that world, every simulator's trades in exchange-name order; a run that reaches the `SetTime` panic stops with no result |
| Backtest.Run | brew/backtest.go:49-57 | the steps are taken in order from `W0`: the run is `Played` and the simulators and portfolio are in the world `Ended` gives, orders, locks, fills and records included; every step's view is at its time |
| Backtest.RunStep | brew/backtest.go:50-56 | one step of the loop: the run invariant one step further on, or the early stop |
| Backtest.RanFrom | brew/backtest.go:49 | before the first step nothing has been played and the world is `W0` |
| Backtest.RanDone | brew/backtest.go:49 | after the last step every step has been played |
| Backtest.RanAfter | brew/backtest.go:50-56 | what `Round` gives extends the run record by one step, or ends it at the panic |
| Backtest.RanSnoc | brew/backtest.go:50-56 | the run invariant one full step further on |
| Backtest.RanStuck | brew/backtest.go:50-53 | a step that panics gives the early-stop state |
| Backtest.PlayedSnoc | brew/backtest.go:50-56 | the run record one full step further on |
| Backtest.StepsSnoc | brew/backtest.go:50-56 | the full steps one step further on |
| Backtest.EndedSnoc | brew/backtest.go:50-56 | the world after one more step is the advance, then the actions for what the strategy saw |
| Backtest.PlayedStuck | brew/backtest.go:50-53 | the run record of a last step that panics |
| Backtest.EndedStuck | brew/backtest.go:50-53 | a run that panics ends after the advance it got through |
| Backtest.SeenSnoc | brew/backtest.go:54 | the views one step further on |
| Backtest.Round | brew/backtest.go:50-56 | `Rounded`: a step advances every simulator through its pairs into the world `Advanced` gives, hands the strategy `ViewsOf` of that world, and leaves the simulators and portfolio in the world its actions are `Performed` into; or it stops at a stuck simulator, those before it advanced |
| Backtest.ViewsOfWorld | brew/backtest.go:54 | what the strategy is handed is the view of the world the simulators are in |
| Backtest.Step | brew/backtest.go:54-56 | the strategy's actions performed: every simulator has carried out the actions addressed to it from its state before (records, counter, orders), the shared portfolio's locks follow every placement, clocks and data are kept, and the simulators and portfolio are in the world `Performed` gives |
| Backtest.StepActions | brew/backtest.go:56 | `PerformActions` on the simulators: each simulator by name carries out its actions, the others are untouched, and the portfolio's locks follow every placement |
| Backtest.PerformedWorld | brew/backtest.go:56 | simulators and portfolio that carried out the actions are the world `Performed` gives |
| Backtest.TradesOfWorld | brew/backtest.go:60-63 | the simulators' trades are the trades of the world they are in |
| Backtest.Collect | brew/backtest.go:59-63 | the trades of the simulators, one after another |
| Evaluate.Peak | evaluate.go:11-21 | the running maximum bounds every value seen so far |
| Evaluate.PeakAttained | evaluate.go:11-21 | the running maximum is one of the values seen |
| Evaluate.Largest | evaluate.go:20 | the largest entry of a non-empty slice, attained by some entry |
| Evaluate.MaxDD | evaluate.go:11-21 | the largest fall from an earlier or the same point to a later one: it bounds every such fall and is attained by one, is never negative, and is 0 for a non-decreasing series |
| Evaluate.EffectAppend | evaluate.go:165-182 | the booking effect of two runs of trades is the sum of their effects |
| Evaluate.EffectPermutation | evaluate.go:142-162 | the effect of a set of trades does not depend on their order |
| Evaluate.BookedAllEffect | evaluate.go:165-182 | booking trades changes each coin by exactly their net effect on it |
| Evaluate.GenerateSnapshot | evaluate.go:165-182 | the coin gains the amount and the base loses price times amount, locks and contracts are unchanged, and the snapshot has the trade's time |
| Evaluate.Snapshots | evaluate.go:142-162 | a non-empty trade list gives at least the opening snapshot and one more |
| Evaluate.AddTrade | evaluate.go:154-158 | a trade at the last snapshot's time replaces it, any other trade follows it |
| Evaluate.UpToAll | evaluate.go:142-162 | when every trade is at or before a time, all of them count up to it |
| Evaluate.SnapshotsSpec | evaluate.go:142-162 | no trades give no snapshots; otherwise the initial portfolio one second before the first trade, then one snapshot per distinct trade time, strictly increasing, each holding the initial balances plus every trade up to its time, the last holding them all |
| Evaluate.SnapshotsOne | evaluate.go:142-162 | a single trade gives the opening snapshot and that trade booked |
| Evaluate.Keep | evaluate.go:154-158 | a new trade keeps the series or all but its last snapshot |
| Evaluate.SnapshotsSnoc | evaluate.go:146-160 | one more trade adds or replaces one snapshot |
| Evaluate.SeriesSnoc | evaluate.go:146-160 | a trade no earlier than the others extends the series and its cumulative balances |
| Evaluate.SortTransactions | evaluate.go:143 | the trades are permuted in place into time order |
| Evaluate.GenerateSnapshotTS | evaluate.go:142-162 | the caller's trades are left sorted by time, and the result is the specified series from the initial portfolio, which itself is not changed |
| Evaluate.BookNext | evaluate.go:147-159 | one loop pass books the trade into a fresh clone, after an opening snapshot for the first trade |
| Evaluate.MinusTS | evaluate.go:46-52 | one snapshot per snapshot, at the same time and with the same locks, each balance less the initial one over the union of coins |
| Evaluate.RefRatesFromTxn | evaluate.go:109-119 | one rate per trade, at its time and price, in order |
| Evaluate.SortRates | evaluate.go:125-128 | the rates are permuted in place into time order |
| Evaluate.NonZero | evaluate.go:232-238 | exactly the rates with a non-zero price |
| Evaluate.NonZeroOrdered | evaluate.go:232-238 | dropping zero prices keeps the time order |
| Evaluate.FirstAtOrAfter | evaluate.go:245-261 | the index of the first rate at or after the time, every earlier one being before it |
| Evaluate.NearestSpec | evaluate.go:240-273 | on rates sorted by time: none gives 0, a time at or before the first rate gives the first, a time after the last gives the last, an exact time gives the first rate at it, and a time strictly between two rates gives the nearer, ties going to the later |
| Evaluate.LookupRate | evaluate.go:228-274 | the series is sorted, zero prices dropped and the nearest rate picked; the answer is 0 exactly when the pair has no non-zero rate, and otherwise one of its rates |
| Evaluate.Filter | evaluate.go:233-238 | the filter loop keeps exactly the non-zero rates in order |
| Evaluate.Scan | evaluate.go:240-273 | the scan with previous and current variables and its early exit computes the nearest rate |
| Evaluate.MapOrder | evaluate.go:194 | an enumeration of the balance map's keys, as Go's map iteration supplies |
| Evaluate.OrdersOf | evaluate.go:217 | an enumeration for every snapshot |
| Evaluate.RateFor | evaluate.go:195-200 | the mark-to-market base has rate 1 and every other coin its looked-up rate |
| Evaluate.MarkNext | evaluate.go:194-206 | one loop pass adds the next coin's balance times its rate |
| Evaluate.EvaluateSnapshot | evaluate.go:185-211 | the portfolio value is the sum of each balance times its rate (1 for the base itself, else the looked-up rate); the panic on a zero rate is the None result, which comes exactly when the rates found end at a zero one |
| Evaluate.Telescoping | evaluate.go:214-225 | the changes of a chained series add up to the last value less the first |
| Evaluate.EvaluateSnapshotTS | evaluate.go:214-225 | one performance per snapshot at its time and base, valued at that snapshot's balances marked at the rates found for it; the first change 0 and each later one the difference from the previous value; None exactly when some snapshot meets a zero rate, every earlier snapshot being fully priced |
| Evaluate.FirstNearestUnique | evaluate.go:81-98 | there is only one first entry nearest to the time |
| Evaluate.PnLSince | evaluate.go:81-98 | 0 for no entries, else the last value less the value of the first entry nearest to the time |
| TradeLogs.Summary | tradelog.go:159-184 | only trades of the pair count; buy and sell quantities and quantity-times-price values are summed separately, and commissions are summed per commission asset, with an entry exactly for the assets that occur |
| TradeLogs.FeeAssetsSnoc | tradelog.go:174 | a trade of the pair adds its commission asset to the fee assets |
| TradeLogs.AvgBuyPrice | tradelog.go:35-37 | a value exactly when something was bought, and then times the bought amount it gives the bought value |
| TradeLogs.AvgSellPrice | tradelog.go:39-41 | a value exactly when something was sold, and then times the sold amount it gives the sold value |
| TradeLogs.RealizedPL | tradelog.go:47-49 | a value exactly when both sides traded |
| TradeLogs.UnrealizedPL | tradelog.go:51-58 | a value exactly when the average price it uses exists: the sell average for a short exposure, the buy average otherwise |
| TradeLogs.PnLDecomposition | tradelog.go:47-58 | realized plus unrealized profit is the cash taken in plus the exposure marked at the mid |
| TradeLogs.AvgCost | tradelog.go:60-62 | as written, a value exactly for a non-zero exposure, and then times the exposure it gives sold value minus bought value |
| TradeLogs.BreakEven | tradelog.go:60-62 | the intended average cost exists exactly for a non-zero exposure |
| TradeLogs.BreakEvenSpec | tradelog.go:60-62 | marking the exposure at the break-even price makes the profit zero; one unit bought for 100 breaks even at 100 |
| TradeLogs.AvgCostSignFlip | tradelog.go:60-62 | as written the average cost is the negated break-even price; one unit bought for 100 gives -100 |
| TradeLogs.Signed | tradelog.go:189-192 | a buy counts its quantity and a sell the negated quantity |
| TradeLogs.Net | tradelog.go:186-198 | a fresh portfolio holding the net of all trades and nothing locked |
| TradeLogs.NetStepAt | tradelog.go:189-196 | one trade moves its coin by the signed quantity, its base by minus the signed value, and its commission asset by minus the commission |
| TradeLogs.NetMatchesSummary | tradelog.go:159-198 | on one pair the net is bought minus sold in the coin, sold value minus bought value in the base, less the fees, and minus the fees in any other coin |
| TradeLogs.ToTxn | tradelog.go:219-233 | the transaction keeps pair, price, time and order id, has the quantity's magnitude, negated for a sell, and the seller as maker exactly for a sell |
| TradeLogs.ToTransactions | tradelog.go:217-236 | one transaction per trade, in order |
| TradeLogs.EffectOfTrades | tradelog.go:186-236 | for non-negative quantities, booking the converted trades has the effect of the net before commissions |
| TradeLogs.PartsTimes | tradelog.go:238-252 | every trade kept before is strictly before the time, every trade kept after is at or after it |
| TradeLogs.Partition | tradelog.go:238-246 | the loop parts the trades into those before the time and those at or after it, each in order |
| TradeLogs.PartitionSpec | tradelog.go:238-252 | the two parts together are the trades |
| TradeLogs.BeforeEmpty | tradelog.go:238-252 | nothing is before exactly when every trade is at or after the time |
| TradeLogs.Since | tradelog.go:238-252 | the later trades in order, and a position exactly when some trade is earlier, holding on every coin the booking effect of the earlier trades |
| TradeLogs.LastSnapshot | tradelog.go:247-250 | the last snapshot of trades booked from an empty portfolio holds their net effect, and there is one exactly when there are trades |
| TradeLogs.Align | tradelog.go:203-205 | a time is moved down to its whole second, and nothing else changes |
| TradeLogs.AlignAll | tradelog.go:203-205 | every trade is aligned |
| TradeLogs.Unmatched | tradelog.go:206-213 | exactly the trades equal to no trade of the other list |
| TradeLogs.Minus | tradelog.go:201-215 | the argument's times are truncated to seconds in place, and the result is the receiver's trades, aligned, that equal none of them, in order |
| TradeLogs.PairsOf | tradelog.go:254-262 | each pair of the trades once, in order of first appearance |
| TradeLogs.Sort | tradelog.go:66-69 | the trades are permuted into time order |
| TradeLogs.PositionOf | tradelog.go:247-250 | no position when there is no earlier trade; otherwise the last snapshot, holding on every coin the booking effect of the earlier trades |
| TradeStats.Tradestat | trstat.go:114-124 | the caller's trades are left sorted by time; the statistics hold the trades, base and rates, and one chained performance per generated snapshot, at its time and valued at that snapshot's balances marked at the rates found for it; None exactly when some snapshot meets a zero rate |
| TradeStats.Legs | trstat.go:87-112 | two coins per transaction, its coin then its base |
| TradeStats.DedupSpec | trstat.go:87-112 | the distinct entries, each once, and no other |
| TradeStats.AllCoinSpec | trstat.go:87-112 | the collected coins are exactly those of the transactions, and with coin and base distinct in every transaction they are the first-appearance list, coin before base |
| TradeStats.CountIn | trstat.go:92-103 | the two counters are 0 exactly when the coin, or the base, is not yet listed |
| TradeStats.AllCoin | trstat.go:87-112 | the loop collects the specified coin list |
| TradeStats.NetPnL | trstat.go:142-148 | the sum of the changes, which for a chained series is the last value less the first |
| TradeStats.SumAbs | trstat.go:150-156 | the sum of absolute amounts is non-negative, and 0 exactly when every amount is 0 |
| TradeStats.TotalTransactionAmount | trstat.go:150-156 | the sum of the absolute amounts, never negative |
| TradeStats.AveragePnL | trstat.go:159-162 | a value exactly for a non-empty series, and then times its length it gives the sum of changes |
| TradeStats.PVs | trstat.go:210-221 | the portfolio values of the series, in order |
| TradeStats.Entry | trstat.go:215-220 | an entry is at most the fall from the running maximum, and equals it unless the value is a new high, where it is negative |
| TradeStats.Drawdown | trstat.go:207-221 | one more entry than values, a leading 0, then one entry per value |
| TradeStats.DrawdownMax | trstat.go:207-226 | the largest entry bounds every fall from an earlier point to a later one and is attained by one |
| TradeStats.SortReals | trstat.go:223 | the entries are permuted in place into ascending order |
| TradeStats.DrawdownSeries | trstat.go:207-221 | the loop builds the drawdown series |
| TradeStats.MaxDrawdown | trstat.go:207-226 | as written, the series returned is the drawdown series sorted ascending, because the sort works on the same slice; the maximum is its last entry, the largest earlier-to-later fall, and is non-negative |
| TradeStats.MaxDrawdownInOrder | trstat.go:207-226 | the series in time order, and the same maximum |
| TradeStats.DrawdownOrderLost | trstat.go:207-226 | values 2, 1, 2 have drawdown series 0, 0, 1, 0, which is not sorted, so sorting it loses the time order |
| TradeStats.TalliedSpec | trstat.go:244-259 | wins and losses count the strictly positive and strictly negative changes, at most one per step; the win amount is positive exactly with a win, the loss amount negative exactly with a loss, and together they are the last value less the first |
| TradeStats.CountChanges | trstat.go:244-259 | the loop computes that tally |
| TradeStats.WLRatio | trstat.go:238-262 | the ratios of the tally over the series length: rates exist exactly for a non-empty series, are non-negative and add up to less than 1, and the average win over average loss is never positive |
| TradeStats.RatiosSpec | trstat.go:260 | the same bounds for the ratios of any series |
| TradeStats.Involving | trstat.go:267-275 | at most the number of transactions, and 0 exactly when none has the coin as coin or base |
| TradeStats.GetTrNumber | trstat.go:267-275 | the count of transactions with the coin as coin or base |
| TradeStats.Held | trstat.go:287-294 | only snapshots holding a non-zero balance of the coin are kept |
| TradeStats.ValueSeries | trstat.go:284-294 | the coin's value series: one point per snapshot holding the coin, its balance times its looked-up rate |
| TradeStats.NetChange | trstat.go:295 | the last value less the first; None for an empty series, where the source panics |
| TradeStats.GetNetPnL | trstat.go:283-296 | the caller's trades are left sorted; the coin's value series and its net change |
| TradeStats.PerTrade | trstat.go:299-303 | a value exactly when the count is positive, and then times the count it gives the net |
| TradeStats.GetAvgPnL | trstat.go:299-303 | the net change per transaction involving the coin |
| TradeStats.Values | trstat.go:324-335 | the values of the coin series, in order |
| TradeStats.RelEntry | trstat.go:329-334 | a relative entry has a value exactly when the running maximum it divides by is not 0 |
| TradeStats.RelDrawdown | trstat.go:322-335 | a leading 0, then one relative entry per value |
| TradeStats.FlLessStrictWeak | trstat.go:337 | the float order, NaN first, is a strict weak order |
| TradeStats.SortFl | trstat.go:337 | the entries are permuted in place into that order |
| TradeStats.RelativeDrawdown | trstat.go:322-339 | the returned series is the relative drawdown series sorted, and the maximum its last entry, a value of at least 0 and no smaller than any entry |
| TradeStats.GetMaxDrawdown | trstat.go:319-340 | a result exactly when the coin series is not empty: the sorted relative drawdowns and their maximum |
| TradeStats.InnerPass | trstat.go:360-369 | one pass of the inner loop leaves its index unchanged |
| TradeStats.InnerPasses | trstat.go:360-369 | any number of passes leaves the index unchanged |
| TradeStats.InnerLoopDiverges | trstat.go:359-370 | as written, once the index is positive the inner loop's guard stays true after any number of passes, each counting the same change again |
| TradeStats.GetWLRatio | trstat.go:352-373 | corrected to one tally per change: a result exactly for a non-empty coin series, the ratios of its tally over the number of transactions involving the coin |
| TradeStats.SortedDrawdown | trstat.go:223-226 | any ascending rearrangement of the drawdown series has one entry more than the values, and its last entry is the largest earlier-to-later fall and at least 0 |
| Eval.Quotes | eval.go:101-108 | the trade log read as quotes: one per trade, its pair, price and time |
| Eval.Read | eval.go:101-111 | the quotes read are a prefix of the list, every one but the last at or before the cut, and either all of them or ending at the first quote after the cut |
| Eval.LastSaid | eval.go:100-107 | NaN when no quote read gives a rate for the coin |
| Eval.LastSaidIsLast | eval.go:100-107 | otherwise the rate given by the last quote that gives one, later quotes overwriting earlier ones |
| Eval.LastSaidSnoc | eval.go:101-107 | one more quote replaces the rate exactly when it gives one for the coin |
| Eval.ReadSorted | eval.go:108-110 | on quotes in time order, every quote at or before the cut is read |
| Eval.ReadStops | eval.go:108-110 | the scan stops just after the first quote later than the cut |
| Eval.ReadAll | eval.go:101-111 | when no quote is later than the cut, all of them are read |
| Eval.InBTC | eval.go:96-114 | the loop gives the specified rate: 1 for BTC, else the last rate the quotes read give, NaN when none does |
| Eval.MarkOf | eval.go:74-78 | the BTC mark is a number exactly when every coin summed has a rate at the cut |
| Eval.MarkAppend | eval.go:75-78 | the mark of two lists of coins one after the other is the sum of their marks |
| Eval.MarkPermutation | eval.go:75-78 | the mark is the same for any order of the same coins |
| Eval.EnumerationsAgree | eval.go:75 | two enumerations of one map list the same coins |
| Eval.MarkOrderFree | eval.go:74-78 | so the mark does not depend on the map's iteration order |
| Eval.MarkBTC | eval.go:74-78 | the loop over the balances enumerates them in some order and sums the specified mark |
| Eval.InUSD | eval.go:85-89 | 0 for a zero BTC mark; otherwise a number exactly when the BTC mark and the USDT rate are numbers and the rate is not 0, and then the USDT mark times the rate is the BTC mark |
| Eval.CutNext | eval.go:77 | consecutive cuts are one interval apart |
| Eval.MarkOne | eval.go:74-89 | one snapshot's BTC mark in some map order, and its USDT mark from it |
| Eval.MarkAll | eval.go:73-90 | every snapshot marked at its cut, inception plus index times interval |
| Eval.Taken | eval.go:63-69 | at most one snapshot taken per trade |
| Eval.Snapshots | eval.go:59-70 | at least two snapshots and at most two more than trades; the first is the initial holding and the last holds every trade |
| Eval.NextCount | eval.go:60-67 | the boundary is always one interval past the cut of the last snapshot taken |
| Eval.TakenAt | eval.go:63-69 | each snapshot taken is the holding just before a trade at or after the current boundary, at increasing trade positions |
| Eval.Buckets | eval.go:59-70 | as written, the loop builds those snapshots: one per trade that reaches the boundary, however many intervals it passes |
| Eval.AlignedBuckets | eval.go:59-70 | corrected to close every interval a trade passes: snapshot k holds exactly the trades before cut k, every trade is before the last cut and the last trade is not before the one preceding it |
| Eval.Evaluated | eval.go:52-92 | the zero performance for no trades; otherwise inception is the first trade's time truncated to the interval, the snapshots are bucketed and each is marked |
| Eval.SnapshotEnds | eval.go:59-70 | the first snapshot is the initial portfolio and the last holds every trade |
| Eval.GenPerf | eval.go:52-92 | the caller's trade log is left a sorted permutation of itself, and the performance is that of the sorted log from a copy of the initial portfolio, marked by the log's own prices |
| Eval.GenPerf0 | eval.go:45-48 | the same from an empty portfolio |
| Eval.MaxDrawdown | eval.go:31-41 | the largest fall of the USDT mark from a snapshot to the same or a later one: at least 0 and attained |
| Eval.GapMislabels | eval.go:63-67 | as written, trades at 0 and 25 with interval 10 give three snapshots, the last marked at 20 though it holds the trade at 25 |
| StratsEval.TxnQuotes | strats/eval.go:118-125 | the tape read as quotes: one per transaction, its pair, price and time stamp |
| StratsEval.InBTC | strats/eval.go:113-131 | 1 for BTC, else the last rate the tape gives up to the first transaction after the cut, NaN when none does |
| StratsEval.GenPerf | strats/eval.go:71-109 | the caller's trade log is left a sorted permutation of itself, and the performance is that of the sorted log from a copy of the initial portfolio, marked by the tape |
| StratsEval.Span | strats/eval.go:47-56 | the earliest and the latest trade time, both attained |
| StratsEval.GatheredHolds | strats/eval.go:58-64 | the tape holds every BTC/USDT transaction fetched and every fetched transaction of each coin other than BTC and USDT against BTC |
| StratsEval.CoinsOfPairs | strats/eval.go:41-59 | the coins listed for the trade log's pairs are exactly those traded, as coin or as base |
| StratsEval.GenPerf0 | strats/eval.go:39-67 | the zero performance for no trades; otherwise the tape is the fetched transactions over the trades' span, sorted by time, and the performance is that of the sorted log from an empty portfolio |
| StratsEval.MaxDrawdown | strats/eval.go:33-35 | the largest fall of the USDT mark from a snapshot to the same or a later one: at least 0 and attained |
| StratsEval.Gather | strats/eval.go:58-64 | the loop builds exactly the gathered tape: the BTC/USDT transactions, then those of each traded coin other than BTC and USDT against BTC, in the coins' order |
| OrderScans.Advance | strats/orderscan.go:83-98 | the scan moves past exactly the static orders ahead of the price, below it when ascending and above it when descending, and stops at the first that is not |
| OrderScans.Start | strats/orderscan.go:80-89 | the first scan position, past the static orders ahead of the first new order, within the static list |
| OrderScans.ScanTo | strats/orderscan.go:91-108 | after some new orders the kept orders are no more than them, and the scan position is not ahead of the last one's price |
| OrderScans.SkipPrice | strats/orderscan.go:102-113 | moves past exactly the static orders at the matched price |
| OrderScans.Kept | strats/orderscan.go:101-107 | no more orders are kept than there are new ones |
| OrderScans.KeptFrom | strats/orderscan.go:101-107 | every kept order is one of the new orders and larger than the threshold |
| OrderScans.Strip | strats/orderscan.go:103-105 | the kept orders without their ages are book orders at the same prices and amounts |
| OrderScans.Scan | strats/orderscan.go:78-108 | the two loops compute the specified kept orders and final scan position |
| OrderScans.ScanKeeps | strats/orderscan.go:91-108 | the kept orders are exactly the new orders above the threshold, in their order |
| OrderScans.ScanAges | strats/orderscan.go:100-106 | each kept order has age 1 or one more than a static order at its price |
| OrderScans.ScanPosition | strats/orderscan.go:91-99 | on new orders in ladder order, the scan position is that of a single scan from the start to the last new price |
| OrderScans.FoundAt | strats/orderscan.go:102 | on an ordered static list the scan stops at the order with the price |
| OrderScans.ScanAgesExact | strats/orderscan.go:100-106 | on ordered lists, a kept order at a static order's price is one tick older than it, and any other kept order has age 1 |
| OrderScans.TailBeyond | strats/orderscan.go:110-113 | the static orders retained at the end are exactly those not ahead of the last new order |
| OrderScans.MergeOrders | strats/orderscan.go:74-116 | as written: the kept orders, then every static order from the scan position on |
| OrderScans.MatchedKeptTwice | strats/orderscan.go:102-113 | as written, a static order of 20 at 100 matched by a new one of 20 at 100 comes out twice, aged 2 and again aged 1 |
| OrderScans.MergeOrdersFixed | strats/orderscan.go:74-116 | corrected: the retained tail skips the static orders at the last matched price |
| OrderScans.MergedLength | strats/orderscan.go:74-116 | the merge is no longer than both lists together, and the corrected one no longer than as written |
| OrderScans.MergedFixedOrdered | strats/orderscan.go:74-116 | the corrected merge of an ordered static list with strictly ordered new orders is ordered |
| OrderScans.KeptStrict | strats/orderscan.go:101-107 | keeping part of a strictly ordered list keeps it strictly ordered |
| OrderScans.NearOldStaticOrder | strats/orderscan.go:219-226 | the first static order older than the minimum age and closer than the distance to the price, or none when no order is |
| OrderScans.Chosen | strats/orderscan.go:169-181 | with near orders on both sides, both are dropped when both are within distance, else only the nearer is kept; one side alone is kept as it is |
| OrderScans.Place | strats/orderscan.go:183-210 | at most one order, a limit order on the strategy's exchange and pair |
| OrderScans.DecideAsWritten | strats/orderscan.go:183-210 | as written, with the sell sized as the source does, at most one order |
| OrderScans.SellOfNothing | strats/orderscan.go:193-195 | as written, long 1 of a trading amount of 1 beside an old static ask, the sell placed has size 0 |
| OrderScans.Decide | strats/orderscan.go:183-210 | corrected: at most one limit order, which takes the position to plus or minus the trading amount or to 0; a buy is at most the trading ask and a sell at least the trading bid; with no near order it exists exactly when there is a position to close |
| OrderScans.OrderScan.constructor | strats/orderscan.go:35-58 | the settings given, threshold 10, distance 2, too-far 10, minimum age 2, and no static orders |
| OrderScans.OrderScan.GetExchangeNames | strats/orderscan.go:60-62 | the single exchange name |
| OrderScans.OrderScan.GetPairs | strats/orderscan.go:64-66 | the single pair |
| OrderScans.OrderScan.GetTick | strats/orderscan.go:68-70 | the tick |
| OrderScans.OrderScan.Grind | strats/orderscan.go:118-216 | nothing and no change on an invalid book; otherwise the static asks and bids are merged with the book's sides, and the actions are a cancel of every live order followed by the decision from the trading prices and the nearest old static orders |
| StackBias.Max | strats/stackbiasmm.go:66-71 | the larger of the two, at least each and equal to one |
| StackBias.Window | strats/stackbiasmm.go:129 | the last ten spreads, or all of them when fewer, as a suffix of the history |
| StackBias.LargePrice | strats/stackbiasmm.go:125 | the large-size price weighted by the opposite side's available amounts, the plain mid when they are equal |
| StackBias.LargePriceBetween | strats/stackbiasmm.go:125 | with non-negative amounts and the large bid at most the large ask, it lies between the large bid and the large ask |
| StackBias.PositionBias | strats/stackbiasmm.go:131-136 | 0 when the large spread is wide or the position flat; otherwise proportional to minus the position over the maximum position, times the average spread and the factor |
| StackBias.Quote | strats/stackbiasmm.go:138-145 | the quote is the average spread times the widener wide, its mid lies between the trading bid and ask when they are not crossed, and is the biased mid whenever that lies between them |
| StackBias.WideIgnoresPosition | strats/stackbiasmm.go:132-136 | when the large spread is wide, the quote does not depend on the position |
| StackBias.LeansAgainstPosition | strats/stackbiasmm.go:131-145 | with a narrow large spread, a long position lowers both prices and a short one raises them, relative to the flat quote |
| StackBias.WalkLadder | strats/stackbiasmm.go:112-118 | walking a non-empty ladder gives the price in the amount and the amount available |
| StackBias.QuoteBook | strats/stackbiasmm.go:112-145 | the bid and ask quoted from the book, the position and the average spread |
| StackBias.MovingAverage | strats/stackbiasmm.go:129 | the mean of the last ten spreads |
| StackBias.MeanOf | strats/stackbiasmm.go:56-64 | a value whose product with the length is the sum is the mean |
| StackBias.StackBiasMM.constructor | strats/stackbiasmm.go:29-54 | the settings given, large amount 10, widener 1.5, wide spread 10, and no spread history |
| StackBias.StackBiasMM.GetExchangeNames | strats/stackbiasmm.go:73-75 | the single exchange name |
| StackBias.StackBiasMM.GetPairs | strats/stackbiasmm.go:77-79 | the single pair |
| StackBias.StackBiasMM.GetTick | strats/stackbiasmm.go:81-83 | the tick |
| StackBias.StackBiasMM.Grind | strats/stackbiasmm.go:85-157 | a cancel of every live order; on an invalid book nothing more and no new spread; otherwise the trading spread is appended to the history, then a sell of the trading amount at the quoted ask and a buy at the quoted bid |
| SimpleMarketMaker.NewSimpleMM | strats/simplemm.go:15-22 | a strategy with the exchange, pair, spread and tick given |
| SimpleMarketMaker.GetExchangeNames | strats/simplemm.go:24-26 | the single exchange name |
| SimpleMarketMaker.GetPairs | strats/simplemm.go:28-30 | the single pair |
| SimpleMarketMaker.Grind | strats/simplemm.go:32-58 | no actions exactly on an invalid book; otherwise a buy of 1000 at the spread below the mid of the best prices, then a sell of 1000 at the spread above it |
| SimpleMarketMaker.GrindSymmetric | strats/simplemm.go:32-58 | the two prices average to the mid, are twice the spread of the mid apart, the buy below the sell for a positive mid and spread, and the amounts cancel |
| Rpc.FirstAtOrAfter | rpc/risk.go:235-240 | a book exactly when some snapshot is not before the fixing time, and then that of the first such snapshot |
| Rpc.Top | rpc/risk.go:234-244 | the bid is a number exactly when the ask is, and both are exactly when some snapshot is not before the fixing time; NaN for both otherwise |
| Rpc.HalfSum | rpc/risk.go:214 | a number exactly when both prices are, and then equidistant from them |
| Rpc.Seek | rpc/risk.go:235-237 | the index of the first snapshot not before the fixing time, the length when there is none |
| Rpc.PriceAt | rpc/risk.go:234-244 | the top bid and ask of the first snapshot not before the fixing time, NaN for both when there is none |
| Rpc.MidPriceAt | rpc/options.go:181-189 | the mid of that snapshot's top prices, NaN when there is none |
| Rpc.MidOfTop | rpc/options.go:181-189 | that mid is the half sum of the prices picked by the bid-and-ask lookup |
| Rpc.NeighbouringRules | rpc/risk.go:234-244 | inside the series, this lookup and the simulator's book lookup pick neighbouring snapshots on either side of the fixing time |
| Rpc.Window | rpc/risk.go:208-209 | the fetch window runs from one minute before the time to one minute after |
| Rpc.SpotPrice | rpc/risk.go:207-216 | the top prices of the pair's series over the window at the time, and their half sum |
| Rpc.ContractPrice | rpc/risk.go:218-231 | the same over the option series for an option, the future series otherwise, fetched by the contract's name |
| Rpc.SpotMid | rpc/options.go:159-166 | the mid at the time of the pair's series over the window |
| Rpc.DateTextLength | rpc/options.go:172 | a date in the century is written in 6 characters for a one-digit day and 7 otherwise |
| Rpc.FutureNameText | rpc/options.go:172 | the name of a BTC or ETH future is the coin, a dash and the expiry text |
| Rpc.FutureNameAsWritten | rpc/options.go:172 | as written, the first 11 characters of the option's name |
| Rpc.PrefixMisnamesShortDays | rpc/options.go:172 | as written, the prefix is the future's name for an expiry day of 10 or more but carries a trailing dash for a one-digit day |
| Rpc.FutureNameLength | rpc/options.go:172 | the corrected future name has 10 characters for a one-digit day and 11 otherwise |
| Rpc.FutureNameParses | rpc/options.go:172 | corrected: the future name parses to the option's underlying future, and the option's name is it followed by the strike and the kind |
| Rpc.FutureOptionPrice | rpc/options.go:168-180 | the mid of the underlying future's series and the option's top prices, each over the window at the time |
| MdsRead.StoredLast | db/mds/read.go:136-144 | the keys are exactly the times of points with a positive amount, and each holds the price and amount of the last such point at its time |
| MdsRead.ConvertToOrders | db/mds/read.go:136-144 | the loop builds that map, empty for no points, each entry taken from a live point at its time |

## Left out

### Outside the model

- Option pricing, implied volatility and the Greeks are not modelled. This covers `forwardOptionPrice`, `cumNormDist`, `optionImpliedVol`, `optionVega`, `OptPrice`, `ImpVol`, `SimpleDelta` and the Position risk measures in contract.go, position.go's PV, and the rpc report builders that call them. They are transcendental floating-point numerics.
- `AnnReturn`, `Sharpe`, `GetAnnReturn` and `GetSharpe` (trstat.go), `Perf.Sharpe` (eval.go and strats/eval.go) and `SBRatio` (orderbook.go) are not modelled. They need logarithms, powers and standard deviations.
- `ContractFromPartialName` and the `PerpContract` expiry read the wall clock. `Contracts.PerpContract` takes the expiry as a parameter, and `ContractFromPartialName` is not modelled. `Contract.Hash` has no callers and is not modelled.
- Mutexes and goroutines are not modelled. This covers the contract cache lock, the `OrderBook1` lock, the database sink and stream, and the notifiers. The cache and the ladder are plain class state.
- Database, RPC and network I/O are not modelled, and neither are the chart server and `NewSimulator`'s loading of books and tape (exchange/sim.go:31-60).
  - The simulator's constructor takes the books and the tape as values.
  - The market-data service used by `Rpc` and `StratsEval` is a function parameter.
- File output and printing are not modelled: `Print`, `ShowBrief`, `ToCSV`, `PrintStats`, timeseries.go, `TradeAction.Show`, and the dump files of the OrderScan and StackBias strategies.
- Float rendering is left out: `Pair.FormatPrice`, `FormatAvgPrice`, the `OrderPricePrec` formatting, `FormatProfit`, `utils.RenderFloat`, and the ParseFloatSafe/ParseIntSafe wrappers.
  - The simulator rounds the order price with `Pairs.RoundToPrec`, which rounds to a given number of decimals and is proved to land within half a tick.
  - `RenderCoinAmount` takes the renderer as a parameter. Its empty-render thresholds are modelled.
- Helpers the files call without defining are function-typed parameters: `Transactions.Between`, `Transactions.Fill` and `Portfolio.Age`.
  - The model assumes only the minimal sanity of `Fill`: the sign of the amount asked for, and no more than that.
  - `Transactions.Sort` is modelled as a sort by time stamp.
- float64 NaN and infinities are not modelled beyond the `Num.Fl` cases. A positive or negative infinity from a division by zero is `NaN`.
- 64-bit integer overflow of times and counters is not modelled. The exception is the saturating duration arithmetic that `FormatDuration` depends on.
- The type-only files (ticker.go, exchange.go, transaction.go) are single records and appear only as datatypes. The vendored code and the examples directory are not part of this model.
- position.go repeats contract.go's `Position` and `PositionsFromNames`, which are modelled once in `Contracts`.
- The `priceAt` of rpc/options.go is line for line that of rpc/risk.go and is modelled once, by `Rpc.PriceAt`.

### Preconditions standing for panics

These Go panics (an index into an empty slice or a missing map entry) are preconditions:

- `Utils.MinOf`, `Utils.MaxOf` and `Evaluate.MaxDD` on an empty input;
- `Books.GetOrderBook` on an empty series;
- `OrderScans.MergeOrders` with static orders and no new orders;
- `Rpc.PriceAt` and `Rpc.MidPriceAt` on a snapshot with an empty side;
- `Sim.Simulator.SetTime` for a pair with a live order and no books;
- `Sim.Simulator.PlaceLimitOrder`, and `Perform.Dispatch`, `Perform.PerformOne` and `Perform.PerformActions` through it, on a pair without a listed price precision (`OrderPricePrec(pair).Some?`), where `OrderPricePrec` panics;
- `Perform.PerformActions` on a non-wait action whose exchange is not a simulator (a nil interface call) or whose parameters are missing (a failed type assertion); wait actions are never looked up and need neither;
- `TradeStats.MaxDrawdown` and `TradeStats.MaxDrawdownInOrder` on an empty series (`|permTS| > 0`), where `cloneDD[len(cloneDD)-1]` indexes an empty slice;
- `Eval.MaxDrawdown` and `StratsEval.MaxDrawdown` on an empty mark series (`|mtmUSD| > 0`), where `floats.Max` panics;
- `Contracts.PositionsFromNames` unless the quantities and prices are at least as long as the names, which Go indexes by the names' positions.

### Weaker contracts and other gaps

- Backtest.Simulate: the strategy is a pure function from the simulators' views to actions. The stateful strategies (OrderScan, StackBias) are modelled as classes but are not driven by the tick loop. The loop requires a positive tick, which the Go loop needs in order to end.
- Perform.PerformActions: the wall-clock time of each record is the parameter `wall`. `TrackOrderID` is a no-op in the simulator and is not modelled. The optional sleep `sep` before each action is dropped.
- Sim.Simulator.GetTransactionHistory: `Transactions.Between` is a parameter, so its result is stated only for a window query that keeps to its window (`Txns.BetweenSane`).
- Evaluate.LookupRate: the result is stated relative to a ghost sorted order of the rates. `sort.Slice` leaves the order of equal times open, so the rate chosen among equal-time entries is not fixed.
- Evaluate.LookupRate: Go sorts the caller's ratesbook series in place; the model sorts a copy and leaves the ratesbook as it was. Later lookups sort again, so no result changes.
- Evaluate.EvaluateSnapshot, Eval.MarkBTC: the coins are summed in an explicit map order. `Eval.MarkOrderFree` shows the BTC mark does not depend on that order.
- TradeStats.GetNetPnL, TradeStats.GetMaxDrawdown: the coin series is stated through the ghost rates and sort orders the lookups used, for the same reason as `LookupRate`.
- TradeStats.GetWLRatio: it models the corrected loop. As written, the inner loop never ends (see Findings).
- Eval.GenPerf, StratsEval.GenPerf, Eval.GenPerf0, StratsEval.GenPerf0, Eval.Evaluated: they use the corrected bucketing, one snapshot per interval boundary crossed (see Findings). They require a positive interval, without which the corrected loop would not end.
- Eval.MaxDrawdown, StratsEval.MaxDrawdown: they require every USDT mark to be a number. A NaN mark (no USDT quote read, or a coin without a BTC rate) is excluded, although Go runs on it: `v > maxsofar` is false for NaN, and `floats.Max` (gonum, not part of this model) skips NaN entries.
- Rpc.FutureOptionPrice: it fetches the underlying future by its full name, `Contracts.Name(UnderFuture(c))`, where Go fetches `c.Name()[0:11]` (see Findings).
- Coins.RoundCoinAmount: the floor is taken on exact reals, so the float64 error of Go's `math.Floor(x*10^k)/10^k` is not modelled.
- Pairs.RoundToPrec: it rounds the exact real to the pair's decimals, halves to even. Go's `strconv.FormatFloat(price, 'f', prec, 64)` rounds the float64's binary value instead, so a decimal tie that binary cannot hold exactly can round the other way: 2.675 at 2 decimals is "2.67" in Go, but 2.68 in the model.
- OrderScans.OrderScan.Grind: it uses the corrected merge and the corrected sell size (see Findings).
- StackBias.StackBiasMM.Grind: on a valid book it requires two things where Go divides: that the amounts available at the large size are not both 0, and that the maximum position is not 0 when the large spread is narrow.
- Contracts.PerpContract: the expiry is any clock reading passed in; Go always takes the current day at 08:00 UTC, and the model does not require that time of day.
- Contracts.ContractCache.ContractFromName: `strToExpiry`'s default month case is the error result, as in the source.
- Contracts.Name: Go writes the rendered name back into the contract's `name` field (contract.go:388-394), so later calls return the stored text; the model's `Name` is a function of the contract value and does not write the memo back. Since the stored text is the rendering, every later result is the same.
- Backtest.Run, Backtest.Simulate, Backtest.Round: the world a run is stated in holds each simulator's actions, counter, clock, trades and orders, and the portfolio's balances, locks and contracts. A simulator's `last` (the clock before its latest `SetTime`) is not part of it.
- Backtest.Advance, Backtest.Run, Backtest.Simulate: the order in which `SetTime` visits a simulator's pairs is Go's map iteration order. The model lets `Keys` choose it and records the choices as ghost enumerations (`ords`, `ordss`), one per simulator per step; the results are stated for the orders actually taken.
- Ladders.OrderBook1.New: Go's `NewOrderBook` sorts the caller's `bids` and `asks` slices in place and keeps them, so the caller's slices come back sorted and shared with the book. The model builds fresh arrays from the given sequences; that aliasing and the in-place effect on the caller are not modelled.
- Portfolios.Portfolio.FromMaps: a Go portfolio built from maps keeps the caller's maps, so a later change through either is seen by both. The model's maps are values, so that aliasing is not modelled.
- Evaluate.Snapshots: Go's opening snapshot holds the initial portfolio itself (evaluate.go:151), not a copy, so it would see later changes to that portfolio. The model stores its balances as values; nothing in `GenerateSnapshotTS` changes that portfolio afterwards, so the snapshots are the same.

## Findings

| source | as written | input that shows it | evidently intended | confidence | as-written member | corrected member |
|---|---|---|---|---|---|---|
| contract.go:437-439 | two non-options are `Equal` when their perpetual flags agree or their expiries agree | two dated BTC/USD futures with different expiries: both flags are false, so they are `Equal` | two perpetuals on one market are equal, and two dated futures on it only when they have the same expiry | not executed; high | Contracts.EqualFuturesCollide | Contracts.SameContractLaws, Contracts.ParseNameSame |
| contract.go:329-335 | the `Positions.Sort` comparator answers true whenever the left position is a future of the same delivery | two futures of one delivery: each is less than the other, and each is less than itself, which `sort.Slice` does not allow | futures before options of the same delivery, with no order among those futures | not executed; high | Contracts.PositionBeforeReflexive, Contracts.SortPositions | Contracts.FixedStrictWeak, Contracts.SortPositionsFixed |
| trstat.go:222-225 | `cloneDD := drawdown` copies the slice header only, so sorting it sorts the drawdown series the method returns | values 2, 1, 2 have the drawdown series 0, 0, 1, 0, which comes back as 0, 0, 0, 1 | the series returned in time order, sorted only in the copy that gives the maximum | not executed; high | TradeStats.MaxDrawdown, TradeStats.DrawdownOrderLost | TradeStats.MaxDrawdownInOrder |
| trstat.go:359-369 | the inner `for i > 0` never changes `i`, so once `i` is 1 it counts the same change forever | any coin series of two or more points | one tally of each change between consecutive points | not executed; high | TradeStats.InnerLoopDiverges | TradeStats.GetWLRatio |
| tradelog.go:60-62 | `AvgCost` is the cash spent per unit held with the sign reversed | one unit bought at 100 gives -100 | the break-even price, 100 here | not executed; medium | TradeLogs.AvgCostSignFlip | TradeLogs.BreakEvenSpec |
| eval.go:63-67 | a trade past several interval boundaries closes one snapshot and moves `next` on by one interval only, while snapshot `i` is marked at inception plus `i` intervals | trades at 0 and 25 with interval 10: the last snapshot is marked at 20 but holds the trade at 25 | one snapshot per boundary crossed, so that snapshot `i` holds exactly the trades before its cut (strats/eval.go:82-86 repeats the loop) | not executed; medium | Eval.Buckets, Eval.GapMislabels | Eval.AlignedBuckets |
| strats/orderscan.go:102-113 | a new order matched at the scan position does not move the position past the matched static order, so that order is also kept among the retained static orders | a static 20 at 100 and a new 20 at 100 with threshold 10 merge into 100 aged 2 and 100 aged 1 | each matched static order replaced by its aged copy | not executed; high | OrderScans.MergeOrders, OrderScans.MatchedKeptTwice | OrderScans.MergeOrdersFixed, OrderScans.MergedFixedOrdered |
| strats/orderscan.go:195 | the sell ahead of a static ask has size `-tradingAmount + position` | long 1 with trading amount 1 beside an old static ask: a sell of size 0 | a sell to `-tradingAmount`, `-tradingAmount - position`, mirroring the buy to `tradingAmount` | not executed; high | OrderScans.DecideAsWritten, OrderScans.SellOfNothing | OrderScans.Decide |
| rpc/options.go:172 | the underlying future's name is the first 11 characters of the option's name | an option expiring on the 5th, `BTC-5JAN24-40000-C`, gives `BTC-5JAN24-` | the name of the option's underlying future, `BTC-5JAN24` here, 10 characters for a one-digit day | not executed; high | Rpc.FutureNameAsWritten, Rpc.PrefixMisnamesShortDays | Rpc.FutureNameLength, Rpc.FutureNameParses |
