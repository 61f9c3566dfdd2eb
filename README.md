# AlgoTester core in Dafny

AlgoTester backtests a trading strategy on a series of OHLCV bars. A
strategy is two rules, an entry rule and an exit rule. Each is a tree of
comparisons (`close > sma_50`, `rsi < 30`) joined by AND and OR. The
system simulates trading one position at a time and reports the trades,
the final balance, the net profit, the win rate, the maximum drawdown and
the equity curve. Indicator series (SMA, EMA, RSI) supply fields that
rules compare against.

This project models the three core modules:

- `rule_engine.dfy` (module `RuleEngine`) models `src/utils/ruleEngine.ts`.
  - A rule is a datatype with three cases: `Comparison`, `Logical`, and `UnknownRule` for any other tag.
  - A bar is seen as a `Snapshot`, a map from field name to number.
  - `EvaluateRule` is total. A missing field, an unknown operator or an unknown node type makes the node false, as in the source.
  - One exception: the source also reads names that every JavaScript object inherits, such as `constructor` (see "## Left out").
- `indicators.dfy` (module `Indicators`) models `src/utils/indicators.ts`.
  - `CalculateSMA`, `CalculateEMA` and `CalculateRSI` are methods. Each loops over the prices and pushes one entry per index, as the source does.
  - Each method is proved equal, index by index, to a specification function: `SmaAt`, `EmaAt` or `RsiAt`. Lemmas state what those functions mean.
  - `None` stands for the source's `null` during warm-up.
- `simulator.dfy` (module `Simulator`) models `src/utils/simulator.ts`.
  - `RunBacktest` is the source's loop: flat or holding one trade, a signal read on bar `i` filled at bar `i + 1`'s open, one equity value per bar, a running peak and maximum drawdown, and an open trade marked to the last close at the end.
  - It is proved equal to `Backtest`, a bar-by-bar specification built from `Signal`, `Mark`, `Step`, `Run` and `Finalize`.
  - Invariants of that specification are proved as lemmas: the trade log, the reinvestment accounting, and the peak and drawdown bookkeeping.
  - The repository's own test cases are restated as lemmas on their concrete data.
- `wrappers.dfy` holds the `Option` type.

Numbers are mathematical reals.

## Model

| member | source | states |
|---|---|---|
| RuleEngine.Every | src/utils/ruleEngine.ts:39-40 | an AND over a list of children is true exactly when every child is true |
| RuleEngine.Any | src/utils/ruleEngine.ts:41-42 | an OR over a list of children is true exactly when some child is true |
| RuleEngine.MissingFieldIsFalse | src/utils/ruleEngine.ts:13-18 | a comparison whose left field is absent, or whose right side names an absent field, is false whatever the operator |
| RuleEngine.RightOperandResolution | src/utils/ruleEngine.ts:14 | a string right side is looked up as a field (present exactly when the field is); a numeric right side stands for itself |
| RuleEngine.ComparisonRelations | src/utils/ruleEngine.ts:20-32 | with both operands present, each of `>`, `<`, `>=`, `<=`, `==`, `!=` holds exactly when its relation holds between the two values |
| RuleEngine.OperatorAlgebra | src/utils/ruleEngine.ts:20-32 | with both operands present, `==` and `!=` disagree, exactly one of `>`, `<`, `==` holds, and `>=` / `<=` are `>` / `<` or `==` |
| RuleEngine.SwappedFieldComparison | src/utils/ruleEngine.ts:20-28 | comparing field a to field b with `>` (`>=`) gives the same verdict as comparing b to a with `<` (`<=`), also when a field is missing |
| RuleEngine.UnknownComparisonOperatorIsFalse | src/utils/ruleEngine.ts:33-34 | a comparison with any operator text outside the six is false |
| RuleEngine.LogicalSemantics | src/utils/ruleEngine.ts:38-42 | an AND node is true iff all its children are; an OR node is true iff some child is |
| RuleEngine.EmptyLogical | src/utils/ruleEngine.ts:39-42 | an AND with no children is true and an OR with no children is false |
| RuleEngine.UnknownLogicalOperatorIsFalse | src/utils/ruleEngine.ts:38-45 | a logical node whose operator is neither AND nor OR is false, whatever its children |
| RuleEngine.UnknownRuleTypeIsFalse | src/utils/ruleEngine.ts:3-10 | a node tagged neither 'comparison' nor 'operator' is false |
| RuleEngine.OnlyReferencedFieldsMatter | src/utils/ruleEngine.ts:3-45 | two snapshots that agree on the fields a rule names give the rule the same verdict |
| RuleEngine.OnlyReferencedFieldsMatterAll | src/utils/ruleEngine.ts:38-45 | the same for every child of a logical node |
| RuleEngine.TestComparisons | src/__tests__/ruleEngine.test.ts:13-81 | on the test snapshot: Close > SMA_50, RSI < 40, not RSI > 40, Close >= 50000, RSI != 40, an unknown operator and a missing key both false |
| RuleEngine.TestLogicalRules | src/__tests__/ruleEngine.test.ts:85-116 | on the test snapshot the AND and OR examples are true and an unknown logical operator is false |
| RuleEngine.TestNestedRule | src/__tests__/ruleEngine.test.ts:129-146 | AND of [OR(Close > 60000, RSI < 40), Close > Prev_Close] is true on the test snapshot |
| Indicators.CalculateSMA | src/utils/indicators.ts:1-12 | returns one entry per price, each equal to the mean of the trailing `period` prices, or `None` before index `period - 1` |
| Indicators.SmaWarmUp | src/utils/indicators.ts:4-5 | an SMA entry is absent exactly when `i < period - 1` |
| Indicators.SmaBounded | src/utils/indicators.ts:7-8 | every SMA value lies between the lowest and the highest price |
| Indicators.SmaSlide | src/utils/indicators.ts:7-8 | `period` times the next SMA is `period` times this one plus the new price minus the one leaving the window |
| Indicators.EmaAt | src/utils/indicators.ts:18-27 | an EMA entry is present exactly when `i >= period - 1` |
| Indicators.CalculateEMA | src/utils/indicators.ts:14-30 | returns one entry per price, each equal to `EmaAt`: the seed mean of the first `period` prices, then `(price - prev) * 2 / (period + 1) + prev` on the previous entry it pushed |
| Indicators.EmaSeedIsSma | src/utils/indicators.ts:21-23 | the first EMA value is the SMA at the same index |
| Indicators.EmaBounded | src/utils/indicators.ts:24-26 | every EMA value lies between the lowest and the highest price |
| Indicators.LinearSeriesSma | src/utils/indicators.ts:7-8 | on a linear series `a + d * j` the SMA is the price `(period - 1) / 2` steps back |
| Indicators.LinearSeriesEma | src/utils/indicators.ts:21-26 | on a linear series the EMA coincides with the SMA at every defined index |
| Indicators.TestMovingAverages | src/__tests__/indicators.test.ts:7-30 | period 3 over 10, 20, ..., 100: SMA and EMA are absent at 0 and 1 and equal 20, 30, 40 at 2, 3, 4 |
| Indicators.GainLoss | src/utils/indicators.ts:38-40 | gain and loss of a change are non-negative, at most one is nonzero, and gain minus loss is the change |
| Indicators.PriceChanges | src/utils/indicators.ts:37-41 | the first pass yields the gain and the loss of every step, one entry fewer than the prices |
| Indicators.RsiValue | src/utils/indicators.ts:58-63 | the RSI of two averages lies in [0, 100], is 100 exactly when the average loss is 0, and otherwise is the gain's share of gain plus loss, in percent |
| Indicators.CalculateRSI | src/utils/indicators.ts:32-77 | returns one entry per price, each equal to `RsiAt` on the two accumulators |
| Indicators.AccumulatedAdvance | src/utils/indicators.ts:46-66 | how each iteration of the second pass moves an accumulator: a running sum, then a division by `period`, then Wilder's update |
| Indicators.RsiWarmUp | src/utils/indicators.ts:47-48 | an RSI entry is absent exactly when `i < period` |
| Indicators.RsiBounded | src/utils/indicators.ts:57-73 | every defined RSI value lies in [0, 100] and is 100 exactly when the average loss there is 0 |
| Indicators.WilderAverageNonNegative | src/utils/indicators.ts:43-66 | averages of non-negative gains or losses stay non-negative through the seed and every update |
| Indicators.WilderAverageOfZeros | src/utils/indicators.ts:43-66 | a series of zero losses averages to zero at every index |
| Indicators.NeverFallingRsiIs100 | src/utils/indicators.ts:57-73 | on prices that never fall, the RSI is absent before `period` and 100 at every later index |
| Indicators.TestRsiZeroLoss | src/__tests__/indicators.test.ts:44-50 | period 3 over 10, 20, ..., 60: RSI is 100 at indices 3, 4 and 5 |
| Indicators.SeedIgnoresLastStep | src/utils/indicators.ts:46-56 | as written, over 10, 20, 30, 20 with period 3 the last step falls yet RSI[3] is 100 |
| Indicators.IntendedWilderAverageNonNegative | src/utils/indicators.ts:64-66 | with the corrected seed, averages of non-negative entries stay non-negative |
| Indicators.IntendedFirstRsi | src/utils/indicators.ts:46-63 | with the corrected seed, the first RSI is 100 exactly when none of the first `period` steps is a fall |
| Indicators.IntendedSeedSeesLastStep | src/utils/indicators.ts:46-63 | with the corrected seed, RSI[3] over 10, 20, 30, 20 with period 3 is 200/3 |
| Simulator.RunBacktest | src/utils/simulator.ts:5-90 | the loop's result equals `Backtest`: one equity value per bar, only closed trades logged, a win rate in [0, 1] that is 0 with no trades, a non-negative maximum drawdown, and net profit = final balance - initial balance |
| Simulator.BacktestSummary | src/utils/simulator.ts:58-89 | the same summary facts for the specification `Backtest` |
| Simulator.CountWins | src/utils/simulator.ts:78 | the winners counted are at most all trades, none exactly when no trade has positive profit, all exactly when every trade does |
| Simulator.WinRate | src/utils/simulator.ts:78-79 | the win rate lies in [0, 1]; it is 0 with no trades and exactly when no trade wins, and 1 on a non-empty log exactly when every trade wins |
| Simulator.ExitShape | src/utils/simulator.ts:39-53 | closing sets the balance to the sale's cash less commission, fills the exit timestamp and price at the next open, records the profit on the cost basis charged commission, marks it closed, logs it and drops the open trade |
| Simulator.RunLog | src/utils/simulator.ts:16-72 | after every bar each logged trade is closed, was entered at the open after a bar where the entry rule held and left at the open after a bar where the exit rule held, trades do not overlap, and an open trade started after the last closed one |
| Simulator.OneOpenTrade | src/utils/simulator.ts:19-56 | at the end every logged trade is closed and an open trade, if any, is open and not in the log |
| Simulator.TradesFilledAtNextOpen | src/utils/simulator.ts:19-53 | every reported trade was bought at bar e's open and sold at bar x's open with 1 <= e < x, after its entry and exit signals on bars e - 1 and x - 1 |
| Simulator.ExitAfterEntry | src/utils/simulator.ts:21-53 | with increasing timestamps, every trade exits after it enters and the next trade enters after the previous one exits |
| Simulator.RunReinvests | src/utils/simulator.ts:23-53 | after every bar: each trade was bought with all the cash there was less commission, its profit is what it returned less its cost basis charged commission, the balance is the cash when flat and 0 when holding |
| Simulator.TradeAccounting | src/utils/simulator.ts:23-49 | the k-th trade cost the cash before it less commission, returned the cash after it, and its profit is that cash less the cost basis charged commission again, which `ChargedNet` equates with the cash before it times `1 - c^2` |
| Simulator.ChargedNet | src/utils/simulator.ts:24-48 | commission taken off an amount and then charged again on what is left leaves `amount * (1 - c^2)` |
| Simulator.FinalBalance | src/utils/simulator.ts:74-80 | flat, the final balance is the cash after the last trade; holding, it is the open quantity at the last close with no commission; net profit is that less the initial balance |
| Simulator.MarkKeeps | src/utils/simulator.ts:58-71 | the equity bookkeeping of a bar appends the bar's equity and leaves the cash, the open trade and the log alone |
| Simulator.RunDrawdown | src/utils/simulator.ts:58-71 | after every bar the peak is the running maximum of the initial balance and all equities, and the maximum drawdown is the largest drawdown at any bar (or 0) |
| Simulator.PeakIsMaximum | src/utils/simulator.ts:64-66 | the running peak bounds the initial balance and every equity and is one of them |
| Simulator.PeakNonDecreasing | src/utils/simulator.ts:64-66 | the peak never falls from one bar to a later one |
| Simulator.EquityNonNegative | src/utils/simulator.ts:58-60 | with non-negative closes every equity value is non-negative |
| Simulator.MaxDrawdownBounded | src/utils/simulator.ts:68-71 | with non-negative closes the maximum drawdown lies in [0, 1] |
| Simulator.DrawdownAtBounded | src/utils/simulator.ts:64-71 | the drawdown at a bar whose equity is not negative, measured from the peak up to that bar, lies in [0, 1] |
| Simulator.FlatRun | src/utils/simulator.ts:16-72 | while the entry rule never holds, nothing is bought and every equity value is the initial balance |
| Simulator.HoldStep | src/utils/simulator.ts:37-56 | a bar on which the exit rule does not hold keeps the open trade, the cash and the log |
| Simulator.OpenStep | src/utils/simulator.ts:19-36 | a flat bar on which the entry rule holds, with a bar after it, buys all the cash less commission at the next open and sets the balance to 0 |
| Simulator.CloseStep | src/utils/simulator.ts:37-56 | a holding bar on which the exit rule holds, with a bar after it, sells at the next open and logs the closed trade |
| Simulator.FlatStep | src/utils/simulator.ts:19-36 | a flat bar with no entry signal, or the last bar, keeps the cash and the log |
| Simulator.NoEntryNoTrades | src/__tests__/simulator.test.ts:43-51 | a strategy whose entry rule never holds logs no trade, reports win rate 0 and maximum drawdown 0, and ends with the initial balance |
| Simulator.SampleRun | src/__tests__/simulator.test.ts:22-26 | on the six test bars, with any commission c in [0, 1), exactly one trade is made, the equity curve has 6 values and the final balance is `1000 (1 - c) 95 / 105 (1 - c)` |
| Simulator.CommissionLowersFinalBalance | src/__tests__/simulator.test.ts:28-36 | on the six test bars a higher commission always gives a lower final balance |
| Simulator.OpenAtEnd | src/__tests__/simulator.test.ts:53-58 | on the first two test bars nothing is logged and the final balance is `110 * (1000 / 105)` |
| Simulator.LosingTrade | src/__tests__/simulator.test.ts:60-71 | on the losing data one trade is logged with profit -200, the win rate is 0 and the final balance is 800 |
| Simulator.ThresholdRun | src/utils/simulator.ts:16-80 | five rising bars, entry `close > 100`, exit `close > 112`, starting capital b: one trade with profit `b * 10 / 105`, win rate 1, and a final balance of the re-bought position at the last close |
| Simulator.ThresholdScenario | src/utils/simulator.ts:16-80 | the same with 10500: the logged trade makes exactly 1000, but the net profit exceeds 1000 because of the second, still open position |

## Left out

- The HTTP API, the controllers, the CSV parser, storage, the frontend and the compiled `dist/` copies are not part of this model.
- How indicator series are merged into bars is not part of this model. `src/controllers/backtestController.ts` calls a `calculateIndicators` that `src/utils/indicators.ts` does not define. The model takes each bar's indicator fields as given, with a warm-up field absent from the snapshot.
- Floating point is not modelled: numbers are reals, with no rounding, NaN or Infinity. The RSI test over 16 prices expects about 70.46 (`src/__tests__/indicators.test.ts:34-42`) and is not restated. Only its length and its null at index 13 follow from `CalculateRSI` and `RsiWarmUp`.
- `frontend/src/components/RuleBuilder.tsx:91-96` offers fields that `src/utils/indicators.ts` never computes: MACD, Bollinger bands, ATR and the stochastic oscillator. There is no code for them to model.
- CalculateSMA, CalculateEMA and CalculateRSI: the model takes the period as a whole number of at least 1 (`period: nat`, `requires period >= 1`). The only callers in the repository (`dist/utils/simulator.js:9-13` and the tests) pass 3, 9, 14, 21, 50 and 200.
  - The source accepts any number. With period 0, `calculateSMA` and `calculateRSI` divide by zero, and `calculateEMA` reads `ema[-1]` (`src/utils/indicators.ts:25`). Both give NaN, which reals cannot represent.
  - Negative and fractional periods are left out as well, although the source returns finite values for some of them. For example, `calculateSMA(prices, -1)` sums an empty slice and gives `0 / -1` at every index.
- Lookup, EvaluateComparison: a field name that every JavaScript object inherits from its prototype (`constructor`, `toString`, `__proto__`, ...) is treated as absent, so a comparison on it is false.
  - The source reads bars as plain objects (`src/utils/csvParser.ts:13-20`). `data['constructor']` is then a function, not `undefined`, so the missing-field guard at `src/utils/ruleEngine.ts:16` does not fire.
  - For example, `constructor != 40` is true on every bar in the source and false in the model.
- RunBacktest: requires a positive initial balance, a commission in [0, 1) and positive opens (`ValidInput`).
  - Outside these the source divides by a zero or negative entry price, or buys a non-positive quantity.
  - The drawdown bounds also assume non-negative closes.
- RunBacktest: the trade is updated in place and then pushed as a spread copy. The model updates a value instead. The source drops its reference right after the push, so no aliasing is observable.
- `State` carries two fields the source does not keep: the bar an open trade was filled at, and the fill bars of each logged trade. They exist only to state `RunLog`. `RunBacktest` keeps them as ghost variables.

Points where the code is easy to misread:

- A trade's profit is `balance - entryPrice * quantity * (1 + commission)` (`src/utils/simulator.ts:48`). The commission is charged on the cost basis a second time, and not only on the way in.
- There is no guard against a non-positive quantity at entry (`src/utils/simulator.ts:23-34`).
- The logical node is dispatched on the tag 'operator' (`src/utils/ruleEngine.ts:6`). `src/types/rules.ts:11` names it 'logical', and a node tagged 'logical' is false.
- The result reports `netProfit`, `winRate`, `maxDrawdown` and a plain `equityCurve` of numbers (`src/utils/simulator.ts:82-89`).
- Equity on the bar where an entry signal fires is the new position at that bar's close, although the fill is at the next bar's open (`src/utils/simulator.ts:58-60`).
- A strategy that has just sold buys again as soon as its entry rule holds, and a position still open at the end counts in the net profit. `ThresholdScenario` shows this on five rising bars, with entry `close > 100`, exit `close > 112` and 10500 to start:
  - it buys at 105 and sells at 115, a logged trade with a profit of exactly 1000;
  - the entry rule holds again on bar four, so it buys again at 120;
  - that position is marked to the last close of 125, so the net profit is `11500 / 120 * 125 - 10500`, not 1000.

## Findings

| source | as written | input that shows it | evidently intended | confidence | as-written member | corrected member |
|---|---|---|---|---|---|---|
| src/utils/indicators.ts:46-56 | the RSI seed sums the gains and losses of the first `period - 1` steps (`gains[0..period-2]`) but divides by `period`; the step into index `period` is never counted | prices 10, 20, 30, 20 with period 3: the last step falls by 10, yet RSI[3] is 100 | Wilder's seed: the mean of the first `period` steps, giving RSI[3] = 200/3 | not executed | Indicators.SeedIgnoresLastStep | Indicators.IntendedSeedSeesLastStep |
