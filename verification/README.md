# algodetrading core, modelled in Dafny

A model of the core of a small Python trading platform. It runs technical
strategies over daily OHLCV bars, simulates a long-only backtest, stores
broker credentials behind an HTTP API and imports market data from CSV
files. The model covers these parts:

- **Strategies.** The six single-symbol strategies (moving-average
  crossover, RSI, MACD, Bollinger bands, z-score mean reversion,
  multi-indicator) are modelled as rules from indicator columns to a
  signal column. The model includes their default parameters and
  `validate_params`. The pair-trading strategy and its multi-symbol base
  class are modelled as a stateful scan over the spread's z-score.
- **Simulator.** The single-symbol simulator (`Backtester.run`) is a
  left fold over the bars, followed by a forced close and the metrics. An
  imperative copy of the loop is proved equal to the fold.
- **Data handling.** The model covers the OHLCV quality report,
  alignment of several symbols on shared timestamps (pair data fetcher and
  backtest service), and the risk-management formulas.
- **Strategy registry.** Registration, lookup, listing, and the seven
  strategies registered at start-up.
- **Backtest service.** Merging parameters, refusing requests without
  data, and turning the simulator's flat trade log into entry/exit records
  per symbol.
- **HTTP API.** The request and credential schemas, the broker
  configuration and credential CRUD, and the credential validator's
  dispatch and answer classification.
- **CSV import.** File-name parsing into symbols, and the
  duplicate-skipping import of rows.

Outside calls are parameters of the model: the database read, the strategy
indicators, the exchange, the Yahoo ticker, the Alpha Vantage reply and the
encryption function. A `Result`/`Option` models each exception or `None`
return of the source. Integers and reals are unbounded and exact. Python's
`int()` truncation is written out (`Numeric.Trunc`).

Where the configuration defaults registered for a strategy differ from the
strategy's own defaults, the model keeps both and proves how they relate
(`StrategyRegistry.MacdDefaultsDiverge`,
`StrategyRegistry.MeanReversionDefaultsDiverge`).

## Model

| member | source | states |
|---|---|---|
| Numeric.Trunc | backtesting/backtester.py:82 | `int(x)` truncates toward zero: the result is the largest integer not above x for x ≥ 0, the smallest not below it for x < 0 |
| Params.Get | strategies/ma_crossover.py:85-86 | a key present in the parameters is read as stored; a missing key reads the given default |
| Params.Merge | api/services/backtest_service.py:41 | merged parameters hold every key of either side, the user's value winning on shared keys |
| Params.MergeEmpty | api/services/backtest_service.py:41 | merging no user parameters leaves the registered defaults unchanged |
| Params.MergeDisjoint | api/services/backtest_service.py:41 | user keys the defaults lack leave every default value in place |
| Series.Assign | strategies/ma_crossover.py:63-74 | a masked `loc` assignment overwrites exactly the masked rows and keeps the others |
| Series.BuyThenSell | strategies/ma_crossover.py:60-74 | zero, then +1 under the buy mask, then -1 under the sell mask: a row is -1 iff sold, +1 iff bought and not sold, else 0 |
| Series.CrossingsExclusive | strategies/ma_crossover.py:63-74 | an upward and a downward crossing cannot happen on the same bar |
| Series.NoCrossingWithoutHistory | strategies/ma_crossover.py:63-74 | bar 0, or a bar where either series is NaN, has no crossing |
| Series.CrossingsIgnoreFuture | strategies/ma_crossover.py:63-74 | whether a crossing happened at t depends only on bars up to t |
| MaCrossover.Configure | strategies/ma_crossover.py:23-30 | the caller's parameters win and every default key is present |
| MaCrossover.GenerateSignals | strategies/ma_crossover.py:60-76 | signal is +1 exactly at an upward crossing of fast over slow, -1 exactly at a downward one, 0 elsewhere |
| MaCrossover.QuietWithoutHistory | strategies/ma_crossover.py:63-74 | bar 0 and bars with an undefined average hold |
| MaCrossover.NoLookAhead | strategies/ma_crossover.py:60-76 | truncating the data after bar t does not change bar t's signal |
| MaCrossover.ValidateParams | strategies/ma_crossover.py:85-94 | valid iff 0 < fast_period < slow_period, missing keys reading 0 |
| MaCrossover.DefaultsValid | strategies/ma_crossover.py:23-30 | the default windows pass validation whatever other keys the caller adds |
| RsiStrategy.Configure | strategies/rsi_strategy.py:23-31 | the caller's parameters win and every default key is present |
| RsiStrategy.GenerateSignals | strategies/rsi_strategy.py:72-91 | +1 exactly when RSI crosses up through oversold, -1 exactly when it crosses down through overbought |
| RsiStrategy.FirstBarHolds | strategies/rsi_strategy.py:75-89 | bar 0 has no previous RSI and holds |
| RsiStrategy.RulesNeverTie | strategies/rsi_strategy.py:75-89 | the buy and sell crossings never fire on the same bar, whatever the two levels |
| RsiStrategy.ValidateParams | strategies/rsi_strategy.py:100-116 | valid iff period > 0, 0 < oversold < 50 and 50 < overbought < 100; the final order check is implied |
| RsiStrategy.DefaultsValid | strategies/rsi_strategy.py:23-31 | the defaults pass validation |
| MacdStrategy.Configure | strategies/macd_strategy.py:23-31 | the caller's parameters win and every default key is present |
| MacdStrategy.GenerateSignals | strategies/macd_strategy.py:72-88 | +1 exactly when MACD crosses above its signal line, -1 exactly when it crosses below |
| MacdStrategy.FirstBarHolds | strategies/macd_strategy.py:72-86 | bar 0 holds |
| MacdStrategy.ValidateParams | strategies/macd_strategy.py:97-107 | valid iff 0 < fast < slow and signal > 0 |
| MacdStrategy.DefaultsValid | strategies/macd_strategy.py:23-31 | the defaults pass validation |
| BollingerBands.Configure | strategies/bollinger_bands.py:27-34 | the caller's parameters win and every default key is present |
| BollingerBands.GenerateSignals | strategies/bollinger_bands.py:58-74 | -1 exactly when the close reaches the upper band from below; +1 when it reaches the lower band from above and does not also touch the upper one |
| BollingerBands.QuietWithoutBands | strategies/bollinger_bands.py:58-72 | bar 0 and bars without bands hold |
| BollingerBands.SeparatedBandsNeverTie | strategies/bollinger_bands.py:58-72 | with the lower band under the upper, a buy is exactly a touch of the lower band |
| BollingerBands.ValidateParams | strategies/bollinger_bands.py:78-86 | valid iff period > 0 and std_dev > 0 |
| BollingerBands.DefaultsValid | strategies/bollinger_bands.py:27-34 | the defaults pass validation |
| MeanReversion.Configure | strategies/mean_reversion.py:24-33 | the caller's parameters win and every default key is present |
| MeanReversion.GenerateSignals | strategies/mean_reversion.py:52-78 | +1 exactly on a fall below -entry; -1 exactly on a rise above +entry or back above -exit |
| MeanReversion.FirstBarHolds | strategies/mean_reversion.py:52-76 | bar 0 holds |
| MeanReversion.BuyNeverMeetsSell | strategies/mean_reversion.py:58-76 | the buy crossing never coincides with either sell crossing |
| MeanReversion.ValidateParams | strategies/mean_reversion.py:80-82 | valid iff lookback_period > 0 |
| MeanReversion.DefaultsValid | strategies/mean_reversion.py:24-33 | the defaults pass validation |
| MultiIndicator.Configure | strategies/multi_indicator.py:26-39 | the caller's parameters win and every default key is present |
| MultiIndicator.GenerateSignals | strategies/multi_indicator.py:70-103 | -1 exactly when RSI is overbought or MACD crosses down; +1 exactly when all four buy conditions hold and no sell condition does |
| MultiIndicator.FirstBarNeverBuys | strategies/multi_indicator.py:78-88 | bar 0 cannot buy, since the MACD crossing needs a previous bar |
| MultiIndicator.OrderedLevelsNeverTie | strategies/multi_indicator.py:78-101 | with oversold ≤ overbought, a buy is exactly the buy rule |
| MultiIndicator.ReversedLevelsSellOverBuy | strategies/multi_indicator.py:78-101 | with the levels reversed, a bar meeting both rules sells |
| MultiIndicator.ValidateParams | strategies/multi_indicator.py:105-107 | valid iff rsi_period > 0 |
| MultiIndicator.DefaultsValid | strategies/multi_indicator.py:26-39 | the defaults pass validation |
| MultiSymbol.InitialPositions | strategies/base_multi_symbol_strategy.py:36 | one entry per given symbol, each flat |
| MultiSymbol.PositionSummary | strategies/base_multi_symbol_strategy.py:113-124 | the count is the number of symbols with a non-zero position: at most the number of symbols, and 0 iff all are flat |
| MultiSymbol.OpenWithin | strategies/base_multi_symbol_strategy.py:123 | the open symbols are a subset of the positions; none open iff all positions are 0 |
| MultiSymbol.FreshSummary | strategies/base_multi_symbol_strategy.py:36 | a freshly built strategy reports no open positions |
| MultiSymbol.OpenOneMore | strategies/base_multi_symbol_strategy.py:123 | opening a flat symbol raises the open count by exactly one |
| MultiSymbol.ValidateSymbols | strategies/base_multi_symbol_strategy.py:126-136 | accepted iff at least two symbols; otherwise the source's message |
| MultiSymbol.SingleSymbolIndicators | strategies/base_multi_symbol_strategy.py:101-105 | always refused, with the source's message |
| MultiSymbol.SingleSymbolSignals | strategies/base_multi_symbol_strategy.py:107-111 | always refused, with the source's message |
| PairTrading.New | strategies/pair_trading.py:47-61 | built iff exactly two symbols; the five defaults are filled in without overriding the caller's values |
| PairTrading.ValidateParams | strategies/pair_trading.py:202-226 | a success is always `true`; each check, reached with the earlier ones passed, fails with its own message: the symbol count, window below 5, entry not positive, exit negative, exit not below entry, hedge not positive |
| PairTrading.ValidateParamsIff | strategies/pair_trading.py:202-226 | accepted iff ≥2 symbols, window ≥ 5, entry > 0, 0 ≤ exit < entry and hedge > 0 |
| PairTrading.TooFewSymbolsFirst | strategies/pair_trading.py:204-205 | the symbol count is checked before any parameter |
| PairTrading.ExitNotInsideEntry | strategies/pair_trading.py:219-220 | an exit band as wide as the entry threshold is refused |
| PairTrading.DefaultsAreValid | strategies/pair_trading.py:53-57 | a strategy built from defaults passes its own validation |
| PairTrading.Spread | strategies/pair_trading.py:111 | for frames on one index, spread plus hedge times close B gives back close A, bar by bar |
| PairTrading.CloseAt | strategies/pair_trading.py:111 | a label no row carries reads nothing; otherwise the close of a row with that label |
| PairTrading.CloseAtOwnRow | strategies/pair_trading.py:111 | with unique labels, row i's label reads row i's close |
| PairTrading.SpreadAt | strategies/pair_trading.py:111 | the label-aligned difference: defined iff both frames have the label, then it gives back A's close with B's close times the ratio |
| PairTrading.Reindex | strategies/pair_trading.py:121-125 | a series assigned as a column: one entry per row, the series value at the row's label, NaN where it has none |
| PairTrading.WithColumns | strategies/pair_trading.py:111-126 | the frame carries the spread at exactly the labels both frames share, the z-score at its labels, and the hedge ratio |
| PairTrading.CalculateIndicators | strategies/pair_trading.py:97-128 | a KeyError iff a symbol's frame is missing; otherwise rows and other frames are kept, and each of the two frames carries the label-aligned spread (NaN at a label the other frame lacks), the z-score at its own labels, and the configured or computed ratio |
| PairTrading.FixedHedgeUsed | strategies/pair_trading.py:100-126 | on two frames with one index and no dynamic hedge, both frames carry the same columns and the spread is close A minus the configured ratio times close B, bar by bar |
| PairTrading.SameDatesSameColumns | strategies/pair_trading.py:121-126 | frames with the same labels receive the same columns |
| PairTrading.AlignedSpread | strategies/pair_trading.py:111 | on one index with unique labels, the label-aligned spread is the positional one |
| PairTrading.UnmatchedLabelIsNaN | strategies/pair_trading.py:111 | a row of A whose label B lacks gets a NaN spread |
| PairTrading.PairStep | strategies/pair_trading.py:161-195 | B's signal is always minus A's; a signal is emitted iff the bar enters or exits; entries only from flat, exits only from a position |
| PairTrading.NaNHolds | strategies/pair_trading.py:165-166 | a NaN z-score emits nothing and keeps the state |
| PairTrading.EntryRule | strategies/pair_trading.py:169-180 | from flat, long spread iff z < -entry, short spread iff z > entry, else nothing |
| PairTrading.ExitRule | strategies/pair_trading.py:183-195 | in a position, exit iff abs(z) < exit, with the signals reversing the entry |
| PairTrading.Signals | strategies/pair_trading.py:155-200 | both columns as long as the z-scores; B mirrors A; NaN bars hold |
| PairTrading.Count | strategies/pair_trading.py:161-195 | an event count never exceeds the number of bars |
| PairTrading.EntriesAndExitsAlternate | strategies/pair_trading.py:161-195 | entries equal exits, plus one exactly when the final state is an open position |
| PairTrading.EntryExitBounds | strategies/pair_trading.py:161-195 | exits never outnumber entries, and entries lead by at most one |
| PairTrading.GenerateSignals | strategies/pair_trading.py:130-200 | a KeyError without both frames, or without A's z-score when A has rows; an IndexError iff a signal falls at a position B's frame lacks; otherwise A's column is the scan of A's z-scores, B's has B's length, mirrors A where both have rows and is 0 beyond A |
| PairTrading.EmptyFrameHolds | strategies/pair_trading.py:148-162 | an A frame without rows needs no z-score column and both frames come back with all-zero signals |
| PairTrading.EqualLengthsMirror | strategies/pair_trading.py:161-195 | on frames of equal length the signals always go through and B's column is minus A's |
| Backtester.SizingFits | backtesting/backtester.py:82-84 | the bought shares are the floor of cash over the fee-inclusive price, and never cost more than the cash |
| Backtester.ProceedsSign | backtesting/backtester.py:98 | sale proceeds are non-negative, positive for a real sale at a positive price |
| Backtester.Execute | backtesting/backtester.py:81-108 | at most one trade per bar, and the equity curve untouched |
| Backtester.BuyRule | backtesting/backtester.py:81-94 | a buy happens iff signal 1, flat, and one share affordable; it logs BUY with price, shares and remaining cash |
| Backtester.SellRule | backtesting/backtester.py:97-108 | a sell happens iff signal -1 and a position is held; it closes the whole position and credits the fee-reduced proceeds |
| Backtester.NoOrderRule | backtesting/backtester.py:81-108 | a buy while long, a sell while flat, or a hold changes nothing |
| Backtester.Step | backtesting/backtester.py:75-112 | one bar appends exactly one equity point: cash plus position at the close |
| Backtester.Simulate | backtesting/backtester.py:69-112 | one equity point per bar, at most one trade per bar, a position implies a trade |
| Backtester.LoopBody | backtesting/backtester.py:76-112 | the imperative loop body equals one step of the fold |
| Backtester.RunLoop | backtesting/backtester.py:69-125 | the imperative loop and forced close equal the functional run |
| Backtester.SizingExample | backtesting/backtester.py:82-94 | 1000 cash at price 100 with 0.1% commission buys 9 shares, leaving 99.1 |
| Backtester.BuyKeepsLedger | backtesting/backtester.py:81-94 | a buy keeps the trade log alternating and consistent with the position |
| Backtester.SellKeepsLedger | backtesting/backtester.py:97-108 | a sell keeps the log alternating, selling exactly the shares bought |
| Backtester.ExecuteKeepsLedger | backtesting/backtester.py:81-108 | any bar's order keeps the ledger invariant |
| Backtester.SimulateLedger | backtesting/backtester.py:75-112 | after any run the log alternates BUY/SELL starting with BUY, each SELL closing the shares of its BUY |
| Backtester.ValuationPositive | backtesting/backtester.py:111 | non-negative cash, positive when flat, values positively at a positive price |
| Backtester.ExecuteKeepsFlatCash | backtesting/backtester.py:81-108 | with sane fees, an order keeps cash positive whenever the position is flat |
| Backtester.SimulatePositive | backtesting/backtester.py:75-112 | positive starting cash and sane fees keep every equity point positive |
| Backtester.SimulatePrefix | backtesting/backtester.py:75-112 | running on a prefix of the bars yields the prefix of the equity curve |
| Backtester.LastEquityPoint | backtesting/backtester.py:111-112 | the last equity point values the final position at the last close |
| Backtester.EquityPoint | backtesting/backtester.py:111-112 | every equity point is the cash plus the position marked at its bar's close |
| Backtester.IdleSimulation | backtesting/backtester.py:75-112 | without a buy signal nothing trades and the curve stays at the starting cash |
| Backtester.RunClosesEverything | backtesting/backtester.py:114-125 | after the forced close no position remains and the log has even length |
| Backtester.CloseFee | backtesting/backtester.py:114-125 | the forced close leaves the equity curve alone and pays out the marked value minus the exit fee |
| Backtester.FinalCapitalIgnoresCloseFee | backtesting/backtester.py:111-125 | the reported final capital is the last equity point, which values an open position before the closing fee |
| Backtester.FinalCapital | backtesting/backtester.py:154 | the last equity point, or the starting capital for an empty curve |
| Backtester.TotalReturnPct | backtesting/backtester.py:155 | final = initial × (1 + r/100); positive iff the capital grew, zero iff unchanged |
| Backtester.Returns | backtesting/backtester.py:158 | one return per step, each relating consecutive equity points |
| Backtester.SharpeRatio | backtesting/backtester.py:161-163 | 0 with at most one return or constant returns, the annualised ratio otherwise |
| Backtester.PairWins | backtesting/backtester.py:172-175 | the winning pairs are at most the completed pairs |
| Backtester.WinRatePct | backtesting/backtester.py:172-176 | between 0 and 100; 0 without a pair; otherwise wins/pairs × 100 |
| Backtester.AllPairsWin | backtesting/backtester.py:172-175 | if every pair's closing capital exceeds its opening capital, the wins equal the pairs |
| Backtester.RunPairsAllWin | backtesting/backtester.py:84-125 | under sane fees every completed pair counts as a win, since the BUY logs cash after paying |
| Backtester.WinRateOfAllWins | backtesting/backtester.py:176 | all pairs winning gives a 100% win rate |
| Backtester.CalculateMetrics | backtesting/backtester.py:137-228 | the report's final capital, trades and curve; total return, Sharpe ratio, max drawdown and win rate are the values of their own metric functions; max drawdown ≤ 0, and 0 iff the curve never falls; win rate in [0, 100] |
| Backtester.Backtest | backtesting/backtester.py:52-135 | the report carries the simulated curve (one positive point per bar) and the force-closed run's log (even and alternating); total return is positive iff the final capital beats the start; Sharpe ratio and drawdown are those of the curve, the drawdown ≤ 0 and 0 iff the curve never falls; 100% win rate whenever anything traded |
| Backtester.IdleBacktest | backtesting/backtester.py:52-176 | with no buy signal: no trades, final capital equal to the start, and zero return, drawdown, Sharpe ratio and win rate |
| EquityCurve.RunningMax | backtesting/backtester.py:167 | the expanding maximum is an upper bound of the prefix and attained in it |
| EquityCurve.Drawdowns | backtesting/backtester.py:168 | one drawdown per equity point, each relative to the running maximum |
| EquityCurve.MinDefined | backtesting/backtester.py:169 | `min()` skipping NaN: none iff all are NaN, otherwise the least defined value |
| EquityCurve.DrawdownAtNonPositive | backtesting/backtester.py:168 | no drawdown of a non-negative curve is positive |
| EquityCurve.MaxDrawdownNonPositive | backtesting/backtester.py:166-169 | the maximum drawdown is never positive |
| EquityCurve.RunningMaxOfNonDecreasing | backtesting/backtester.py:167 | on a non-decreasing curve the running max is the current value |
| EquityCurve.MaxDrawdownOfNonDecreasing | backtesting/backtester.py:166-169 | a non-decreasing curve has zero max drawdown |
| EquityCurve.NoDrawdownWhenNonDecreasing | backtesting/backtester.py:168 | every defined drawdown of a non-decreasing curve is zero |
| EquityCurve.MaxDrawdownOfFall | backtesting/backtester.py:166-169 | any fall from an earlier point makes the max drawdown negative |
| EquityCurve.MaxDrawdownZeroIff | backtesting/backtester.py:166-169 | the max drawdown is zero iff the curve never falls |
| RiskManager.PositionSize | utils/risk_manager.py:50-60 | a zero price raises; otherwise at least one unit: the budget's units without a stop, and with a stop below entry the smaller of the budget's and the risk budget's units, or 1 when either is below 1 |
| RiskManager.WithinPositionBudget | utils/risk_manager.py:50-51 | a size above one never costs more than the position budget |
| RiskManager.WithinRiskBudget | utils/risk_manager.py:54-58 | a size above one never risks more than the risk budget at the stop |
| RiskManager.StopLoss | utils/risk_manager.py:81-88 | ATR times multiplier below entry when ATR is given and non-zero, else the percentage below entry |
| RiskManager.StopBelowEntry | utils/risk_manager.py:81-88 | with positive distances the stop lies below the entry |
| RiskManager.TakeProfit | utils/risk_manager.py:107-111 | the reward is the risk times the ratio |
| RiskManager.TargetAboveEntry | utils/risk_manager.py:107-111 | with the stop below entry, the target is above it and reward/risk equals the ratio |
| RiskManager.CheckDrawdown | utils/risk_manager.py:123-131 | an empty curve passes; a zero peak (NaN drawdown) fails |
| RiskManager.CheckDrawdownIff | utils/risk_manager.py:123-131 | for a positive curve: passes iff the last value is above peak × (1 - max_drawdown) |
| RiskManager.AtPeakPasses | utils/risk_manager.py:123-131 | a curve at its running peak passes whenever the limit is positive |
| RiskManager.Kelly | utils/risk_manager.py:150-159 | 0 for a zero average loss; raises on a zero average win; otherwise half of the edge over the average win, clamped to [0, max_position_size] |
| RiskManager.KellyForm | utils/risk_manager.py:153-154 | the Kelly fraction over the win/loss ratio equals the edge `w·avg_win − (1−w)·avg_loss` over the average win |
| RiskManager.KellyEdge | utils/risk_manager.py:150-159 | with positive averages, the fraction is 0 exactly when there is no edge |
| DataQuality.Missing | utils/data_fetcher.py:225-226 | the missing required columns are exactly those not in the frame |
| DataQuality.NegativeIssues | utils/data_fetcher.py:238-242 | one issue per column with a negative value, none iff no value is negative |
| DataQuality.ErrorIssues | utils/data_fetcher.py:237-280 | the error list is empty iff no negative value, inverted OHLC range or duplicate timestamp exists |
| DataQuality.Validate | utils/data_fetcher.py:212-297 | valid iff no error; a missing frame or one with no rows or no columns (`df.empty`) gives exactly the empty-frame error; missing columns give exactly that error; a complete frame is valid iff it has no error-level row issue |
| DataQuality.CompleteHasNoMissing | utils/data_fetcher.py:219-230 | a frame reaches the row checks iff it is non-empty with every required column |
| DataQuality.WarningsDoNotInvalidate | utils/data_fetcher.py:232-274 | nulls, extreme moves and gaps alone keep a frame valid |
| DataQuality.NegativeInvalidates | utils/data_fetcher.py:238-242 | any negative value invalidates |
| DataQuality.InvertedRangeInvalidates | utils/data_fetcher.py:245-255 | high below low invalidates |
| DataQuality.DuplicateInvalidates | utils/data_fetcher.py:277-280 | a repeated timestamp invalidates |
| Frames.Restrict | utils/pair_data_fetcher.py:156-157 | `df.loc[index]` keeps the rows in both the frame and the index, unchanged |
| Frames.CommonIndex | utils/pair_data_fetcher.py:179-185 | the timestamps present in every frame |
| Frames.AlignAll | utils/pair_data_fetcher.py:187-192 | every frame cut to the common index, keys unchanged |
| Frames.AlignAllSharesIndex | utils/pair_data_fetcher.py:179-192 | after alignment all frames have the same index |
| Frames.AlignPair | utils/pair_data_fetcher.py:152-159 | both frames cut to the intersection of their indexes |
| Frames.AlignPairIsAlignAll | utils/pair_data_fetcher.py:129-192 | the two-frame alignment agrees with the many-frame one |
| Frames.AlignPairSameLength | utils/pair_data_fetcher.py:152-159 | the two aligned frames have the same length |
| PairDataFetcher.FetchPairOutcome | utils/pair_data_fetcher.py:53-87 | succeeds iff the symbols differ and share a timestamp; identical symbols, an empty first fetch, an empty second fetch and no shared timestamp each give the source's message |
| PairDataFetcher.FetchPairAligned | utils/pair_data_fetcher.py:77-87 | the two returned frames share one index drawn from both fetches |
| PairDataFetcher.FirstEmpty | utils/pair_data_fetcher.py:113-121 | the first symbol whose fetch is empty, none iff all have data |
| PairDataFetcher.FetchMultiple | utils/pair_data_fetcher.py:108-127 | refuses fewer than two symbols and names the first symbol without data; succeeds iff every symbol has data, keyed by the given symbols, every row the fetched row, and every timestamp all fetches share kept |
| PairDataFetcher.AlignedFetch | utils/pair_data_fetcher.py:124-127 | the joined frames keep the fetched rows and every timestamp all fetches share |
| PairDataFetcher.FetchMultipleShareIndex | utils/pair_data_fetcher.py:124-127 | all returned frames share one index |
| StrategyRegistry.Register | api/services/strategy_registry.py:19-51 | refused iff the class is not a strategy; otherwise stores the entry under the id and keeps every other entry |
| StrategyRegistry.GetInfo | api/services/strategy_registry.py:53-57 | found iff registered, with the stored entry; otherwise the not-found message |
| StrategyRegistry.GetClass | api/services/strategy_registry.py:59-61 | found iff registered, with the stored class |
| StrategyRegistry.ListAll | api/services/strategy_registry.py:63-68 | every registered id, with its entry minus the class |
| StrategyRegistry.RegisterThenGet | api/services/strategy_registry.py:19-57 | looking up a just-registered id returns what was registered |
| StrategyRegistry.RegisterOverwrites | api/services/strategy_registry.py:44-51 | registering an id twice keeps only the second registration |
| StrategyRegistry.RefusedLeavesUnknown | api/services/strategy_registry.py:41-42 | a refused registration leaves the id unknown |
| StrategyRegistry.RegisterAll | api/services/strategy_registry.py:79-159 | a series of registrations succeeds iff every class is a strategy, adding exactly their ids |
| StrategyRegistry.RegisterAllStores | api/services/strategy_registry.py:89-159 | with distinct ids each registration's entry is stored |
| StrategyRegistry.RegisterAllKeeps | api/services/strategy_registry.py:89-159 | ids not re-registered keep their entries |
| StrategyRegistry.RegisterDefaults | api/services/strategy_registry.py:79-159 | start-up registration adds exactly the seven default ids |
| StrategyRegistry.DefaultIdsDistinct | api/services/strategy_registry.py:89-159 | the seven default ids are pairwise distinct strategies, pair_trading being the last |
| StrategyRegistry.DefaultIdCount | api/services/strategy_registry.py:89-159 | there are exactly seven default ids |
| StrategyRegistry.DefaultKinds | api/services/strategy_registry.py:145-159 | only the pair-trading registration is multi-symbol or carries default symbols |
| StrategyRegistry.DefaultEntries | api/services/strategy_registry.py:89-159 | each default registration is stored as registered |
| StrategyRegistry.DefaultRegistry | api/services/strategy_registry.py:89-159 | seven entries; an entry is multi-symbol, with default symbols, iff it is pair_trading |
| StrategyRegistry.PairDefaultSymbols | api/services/strategy_registry.py:158 | pair trading defaults to BTC/USDT and ETH/USDT |
| StrategyRegistry.StoredParams | api/services/strategy_registry.py:89-159 | each default id stores the parameters written at its registration |
| StrategyRegistry.RegisteredDefaultsAgree | api/services/strategy_registry.py:89-159 | for ma_crossover, rsi, bollinger_bands, multi_indicator and pair_trading the registered parameters equal the strategy's own defaults |
| StrategyRegistry.MacdDefaultsDiverge | api/services/strategy_registry.py:105-111 | the registered MACD keys are not the ones the strategy reads, so the strategy runs on its own defaults |
| StrategyRegistry.MacdKeysDisjoint | strategies/macd_strategy.py:23-29 | the registered MACD keys and the strategy's keys are disjoint |
| StrategyRegistry.MeanReversionDefaultsDiverge | api/services/strategy_registry.py:121-127 | the registered exit_threshold 0 replaces the strategy's 0.5, and the lookback stays at its default |
| StrategyRegistry.MeanReversionKeys | strategies/mean_reversion.py:25-31 | configuring with the registered parameters gives the values the divergence lemma states |
| BacktestService.ReturnPct | api/services/backtest_service.py:150-158 | the price move in the trade's favour relative to the entry price, 0 for a non-positive entry price |
| BacktestService.ReturnSign | api/services/backtest_service.py:153-158 | a long gains iff the exit is higher, is zero iff the prices are equal, and is the negation of the short reading |
| BacktestService.PairUp | api/services/backtest_service.py:143-171 | one record per consecutive pair (0,1), (2,3)...; a trailing trade is dropped |
| BacktestService.PairLoop | api/services/backtest_service.py:144-171 | the `while` loop produces the same records as the pairing |
| BacktestService.Group | api/services/backtest_service.py:135-140 | a symbol's group holds exactly its trades, and every trade of the symbol |
| BacktestService.GroupAppend | api/services/backtest_service.py:135-140 | grouping a concatenated log groups each part, in order: with GroupSingle, the group is the log's subsequence of that symbol |
| BacktestService.GroupSingle | api/services/backtest_service.py:135-140 | a one-trade log groups to that trade iff it carries the symbol |
| BacktestService.GroupIsFilter | api/services/backtest_service.py:135-140 | each trade sits in its group between the group of the trades before it and of those after it |
| BacktestService.GroupOfUniform | api/services/backtest_service.py:135-140 | trades of one symbol form one group, unchanged |
| BacktestService.GroupOfAbsent | api/services/backtest_service.py:135-140 | a symbol no trade carries has an empty group |
| BacktestService.SymbolOrder | api/services/backtest_service.py:135-143 | each symbol of the log exactly once |
| BacktestService.SymbolOrderFirstAppearance | api/services/backtest_service.py:135-143 | the symbols are ordered by first appearance in the log |
| BacktestService.SymbolOrderUniform | api/services/backtest_service.py:135-143 | a one-symbol log names only that symbol |
| BacktestService.PairAll | api/services/backtest_service.py:143-171 | every record is for one of the given symbols, and there are as many as each symbol's group yields pairs |
| BacktestService.PairAllAppend | api/services/backtest_service.py:143-171 | the records of a concatenated symbol list are each part's, one part after the other |
| BacktestService.PairAllSingle | api/services/backtest_service.py:143-171 | one symbol contributes its own group, paired |
| BacktestService.TransformTrades | api/services/backtest_service.py:126-173 | an empty log gives no records; every record's symbol appears in the log |
| BacktestService.TransformPerSymbol | api/services/backtest_service.py:126-173 | seen per symbol, the output is that symbol's trades paired in log order |
| BacktestService.UnlabelledTrades | api/services/backtest_service.py:137 | a log without symbols is one UNKNOWN group, paired in order |
| BacktestService.LoggedAll | backtesting/backtester.py:87-125 | the simulator's trades as dictionaries, one per trade |
| BacktestService.BuyRecord | api/services/backtest_service.py:146-169 | a simulator BUY and the trade after it make a LONG record with the BUY's shares |
| BacktestService.PairOpensWithBuy | api/services/backtest_service.py:153-155 | in an alternating ledger, every pair opens with a BUY |
| BacktestService.LoggedLedgerIsLong | api/services/backtest_service.py:126-173 | an alternating BUY/SELL log becomes LONG records, one per pair |
| BacktestService.SimulatorTradesAreLong | api/services/backtest_service.py:59-68 | a single-symbol run transforms into one LONG record per BUY/SELL pair |
| BacktestService.AlignDataframes | api/services/backtest_service.py:175-192 | empty for an empty input; otherwise the same symbols, all cut to one shared index, rows unchanged |
| BacktestService.AlignKeepsShared | api/services/backtest_service.py:180-192 | a timestamp every frame has survives alignment |
| BacktestService.WithSignals | backtesting/backtester.py:75-78 | each bar keeps its row's date and close and takes the strategy's signal |
| BacktestService.ExecuteSingle | api/services/backtest_service.py:25-70 | an unknown strategy id fails with the registry's KeyError, an empty fetch with the source's message, and nothing else fails; otherwise the registered params merged with the caller's, one equity point per row, LONG records |
| BacktestService.Fetched | api/services/backtest_service.py:94-102 | exactly the requested symbols with data, with their frames |
| BacktestService.ExecuteMulti | api/services/backtest_service.py:72-111 | an unknown strategy id fails with the registry's KeyError; then refused iff some symbol lacks data or repeats; otherwise the registered params merged with the caller's and aligned frames |
| BacktestService.MultiAcceptsExactly | api/services/backtest_service.py:84-105 | accepted iff the strategy is registered and the symbols are distinct and each has data |
| ApiModels.OrDefault | api/models.py:268-275 | an omitted field takes its default; a given one keeps its value |
| ApiModels.ParseStatus | api/models.py:27-32 | a parsed status has the given value |
| ApiModels.StatusRoundTrip | api/models.py:27-32 | every status parses back from its value; exactly the four values parse |
| ApiModels.StatusNamesDistinct | api/models.py:27-32 | two statuses have the same value iff they are the same |
| ApiModels.ResolveStrategyId | api/models.py:277-281 | a given strategy_id wins; without it a given strategy_type (even null) takes its place |
| ApiModels.ParseRequest | api/models.py:266-281 | an accepted request meets every bound, keeps every given field and defaults every omitted one; a refused one lists exactly the violated fields |
| ApiModels.OnlyIdTakesDefaults | api/models.py:268-275 | a body naming only the id gets BTC/USDT, 365 days, 10000 capital, 0.001 commission, real data |
| ApiModels.AliasOnlyWhenAbsent | api/models.py:277-281 | with both given the id wins; with only the alias, the alias becomes the id |
| ApiModels.AcceptedIff | api/models.py:266-281 | accepted iff an id resolves and every bound holds |
| ApiModels.NewCredentialCreate | api/models.py:387-394 | omitted fields default to no secret, no passphrase, not testnet, active; given fields are kept |
| ApiModels.CredentialCreateRoundTrip | api/models.py:387-394 | a fully given object parses to itself, and omitting the optional fields equals giving their defaults |
| CrudBrokers.ListConfigs | api/crud_brokers.py:34-42 | exactly the configs of the given type (if truthy) and active (if asked) |
| CrudBrokers.ListConfigsAppend | api/crud_brokers.py:34-42 | listing a concatenated table lists each part, in table order: with ListConfigsSingle, the listing is the table's subsequence of passing rows |
| CrudBrokers.ListConfigsSingle | api/crud_brokers.py:34-42 | a one-row table lists its row iff it passes the filters |
| CrudBrokers.ListConfigsUnfiltered | api/crud_brokers.py:34-42 | no truthy type and no active filter lists everything |
| CrudBrokers.ListConfigsIdempotent | api/crud_brokers.py:34-42 | filtering twice is filtering once |
| CrudBrokers.First | api/crud_brokers.py:62-68 | `.first()`: none iff no match, otherwise the earliest matching config |
| CrudBrokers.GetConfig | api/crud_brokers.py:61-69 | a non-zero id looks up by id, else a truthy name by name, else nothing |
| CrudBrokers.Seal | api/crud_brokers.py:251-253 | a secret is stored encrypted iff it is given and non-empty |
| CrudBrokers.GetCredential | api/crud_brokers.py:204-223 | found iff the id exists and belongs to the user |
| CrudBrokers.CreateCredential | api/crud_brokers.py:243-265 | refused iff the config is missing (id 0 counts as missing); otherwise stored under a fresh id as pending, secrets encrypted |
| CrudBrokers.CreateThenGet | api/crud_brokers.py:243-265 | the owner reads back the new credential, another user does not, and every other record reads as before |
| CrudBrokers.Reseal | api/crud_brokers.py:295-302 | a given non-empty secret is re-encrypted; otherwise the stored one stays |
| CrudBrokers.UpdateCredential | api/crud_brokers.py:286-318 | none iff not the user's; otherwise given flags are set, secrets re-encrypted, status pending iff a secret was named, updated_at stamped |
| CrudBrokers.EmptySecretKeepsKey | api/crud_brokers.py:295-310 | an empty api_key keeps the stored key but still resets the status to pending |
| CrudBrokers.UpdateWithoutSecrets | api/crud_brokers.py:286-318 | an update naming no secret keeps the secrets and the status |
| CrudBrokers.DeleteCredential | api/crud_brokers.py:337-346 | deleted iff the user's; only that id is removed |
| CrudBrokers.DeleteThenGet | api/crud_brokers.py:337-346 | after a deletion nobody reads the credential back; a refused deletion changes nothing |
| CrudBrokers.UpdateValidationStatus | api/crud_brokers.py:367-382 | none iff the id is unknown; otherwise the status, the validation time and `updated_at` are set and nothing else changes |
| CrudBrokers.StatusUpdateIgnoresOwner | api/crud_brokers.py:367-372 | the status update finds a credential whoever owns it |
| BrokerValidator.ValidateExchange | api/broker_validator.py:35-105 | success iff the exchange is known and the balance call succeeds; auth and permission failures are invalid, network and others errors |
| BrokerValidator.ValidateYahoo | api/broker_validator.py:115-142 | valid iff the ticker info has a symbol; every failure is an error |
| BrokerValidator.ValidateAlphaVantage | api/broker_validator.py:157-206 | an error message gives invalid; else a note or metadata gives valid; anything else is an error |
| BrokerValidator.RouteOf | api/broker_validator.py:233-272 | Yahoo and Alpha Vantage by name first, then crypto with both keys, then argentina and unknown types, with the source's messages |
| BrokerValidator.ValidateCredentials | api/broker_validator.py:209-272 | never pending; a success only when a broker answered positively; yahoo_finance by name goes to the Yahoo check; alpha_vantage without a key and crypto without key and secret are refused with the source's messages; argentina and unknown types get their errors |
| BrokerValidator.SuccessIffValid | api/broker_validator.py:35-272 | every verdict the dispatcher returns is a success exactly when its status is valid |
| BrokerValidator.YahooByName | api/broker_validator.py:234-235 | yahoo_finance goes to the Yahoo check whatever type and keys |
| BrokerValidator.CryptoNeedsBothKeys | api/broker_validator.py:248-254 | a crypto broker without key or secret is refused without contacting anything |
| CsvImport.RemoveAll | utils/import_csv_to_db.py:141 | `replace('.csv', '')` never lengthens the name |
| CsvImport.RemoveAllNoDot | utils/import_csv_to_db.py:141 | a name without a dot is unchanged |
| CsvImport.RemoveExtension | utils/import_csv_to_db.py:141 | a dotless stem plus `.csv` gives back the stem |
| CsvImport.Split | utils/import_csv_to_db.py:141 | at least one part, none containing the separator |
| CsvImport.JoinSplit | utils/import_csv_to_db.py:141 | joining the parts gives back the string |
| CsvImport.SplitJoin | utils/import_csv_to_db.py:141 | splitting a join of separator-free parts gives back the parts |
| CsvImport.SymbolOf | utils/import_csv_to_db.py:141-156 | crypto needs three parts and gives parts[1]/parts[2]; other types need two and give parts[1] |
| CsvImport.CryptoFileSymbol | utils/import_csv_to_db.py:143-149 | `exchange_BASE_QUOTE_tf.csv` gives BASE/QUOTE |
| CsvImport.StockFileSymbol | utils/import_csv_to_db.py:150-156 | `source_SYMBOL_rest.csv` gives SYMBOL |
| CsvImport.Jobs | utils/import_csv_to_db.py:126-159 | exactly the `.csv` files whose symbol can be read, each with its symbol |
| CsvImport.InsertKeys | utils/import_csv_to_db.py:58-87 | the table gains exactly the row keys and keeps every existing record |
| CsvImport.InsertFirstWins | utils/import_csv_to_db.py:62-86 | a new key's stored record is its first row's |
| CsvImport.ImportCsv | utils/import_csv_to_db.py:37-94 | a missing file or column imports nothing; otherwise the rows are inserted and the count is the number of new keys |
| CsvImport.ImportCount | utils/import_csv_to_db.py:58-94 | the keys an import adds are exactly the file's timestamps not already stored for the symbol |

## Left out

- Indicator arithmetic (moving averages, RSI, EWM-based MACD, rolling
  standard deviations, z-scores, volume averages) is taken as input
  columns, because it is floating-point numerics. NaN is modelled as
  `None`.
- MultiSymbolBacktester is not part of this model. The multi-symbol service
  path is modelled up to the aligned frames it hands over.
- `chart_data` and the debug prints of `_calculate_metrics` are left out,
  because they format output.
- The unreachable `save_results` block after the `return` is left out.
- Logging is left out.
- Backtester.SharpeRatio: the mean/standard-deviation ratio is an input
  (`annualized`), because square roots and standard deviations are
  floating point. The model keeps only when the ratio is 0.
- Backtester.Backtest: assumes positive closes, positive starting capital
  and fees below 100%. This is what the API's request bounds give the
  simulator; a zero close would raise in the source.
- Backtester.CalculateMetrics: the drawdown is stated for non-negative
  curves only. A negative running maximum flips the sign of the source's
  ratio.
- BacktestService.ExecuteSingle: requires the request's commission and
  capital bounds and positive closes, which the simulator model needs. The
  current-time date window is a parameter of the fetch, and the strategy
  class's signal generation is a parameter.
- BacktestService.ExecuteMulti: stops before the multi-symbol simulator,
  which is not part of this model.
- Frames index order and duplicate index entries are not modelled: a frame
  is a map from timestamp to row.
- `calculate_hedge_ratio` and `calculate_correlation` are left out, because
  they are linear regression and correlation on floats. The dynamic hedge
  ratio is an input of PairTrading.CalculateIndicators.
- PairTrading.CalculateIndicators: the rolling mean, standard deviation and
  z-score of the spread are inputs, each a series keyed by timestamp. A
  timestamp repeated within one frame is read at its first row; pandas
  would instead refuse to reindex on duplicate labels.
- The validation report's `stats` block is left out, because it is
  descriptive floats and ISO dates.
- The gap and extreme-move checks are reduced to warnings whose detail
  counts are not modelled. `pct_change` forward-fill of NaN closes is not
  modelled.
- Encryption and decryption are an opaque function parameter.
  `get_broker_credential(decrypt=True)` only adds decrypted copies, so it is
  modelled as the plain lookup.
- `get_broker_credentials` (the joined listing), `create_broker_config` and
  `update_broker_config` are left out. They are thin ORM queries and
  setattr loops with no decision logic beyond the filters already modelled
  in ListConfigs.
- CrudBrokers.CreateCredential: the database's NOT NULL constraint on
  `api_key_encrypted` is not modelled. An empty api_key yields a credential
  without a key, where the database would refuse the insert.
- CrudBrokers.UpdateValidationStatus: the error text is not stored.
  `validation_error` is not a mapped column (the column is
  `last_validation_error`), so the assignment never reaches the database.
  The database clock that stamps `updated_at` and the Python clock of
  `last_validated_at` are one parameter `now`.
- BrokerValidator.ValidateExchange: outcomes are named by the `except`
  clause that catches them. ccxt's exception hierarchy is not modelled;
  in ccxt, PermissionDenied derives from AuthenticationError, so that
  branch may never be reached.
- Verdict details dictionaries are left out.
- StrategyRegistry.Register: the error names the class by its name rather
  than Python's class repr.
- `exists` is the map membership test and has no separate contract.
- CsvImport.ImportCsv: chunked commits, rollback on a database exception
  and CSV parse failures are not modelled. An unreadable file is `None`,
  which imports nothing as in the source. Rows are assumed parseable as
  floats. Rows added earlier in the same import are visible to the
  duplicate check, as with SQLAlchemy's default autoflush. api/database.py,
  which configures the session, is not part of this model. With autoflush
  off, as the test fixtures configure their sessions, a timestamp repeated
  within one 1000-row chunk would be added and counted twice.
- Directory listing order and missing directories are inputs to
  CsvImport.Jobs.
- All I/O, database sessions, HTTP calls, clocks and the FastAPI routers
  are left out or made parameters.
