/**
  The trade simulator: a two-state machine (flat, or holding one open trade)
  driven bar by bar. A signal read on bar `i` is filled at bar `i + 1`'s open;
  every bar appends one equity value; the running peak and the largest
  drawdown are tracked; at the end an open trade is marked to the last close.

  `RunBacktest` is the source's loop. `Run` / `Step` / `Finalize` specify it;
  the lemmas below state what the specification guarantees.
 */
module Simulator {
  import opened Wrappers
  import opened RuleEngine
  import opened Arithmetic

  /** One OHLCV bar, with the indicator fields merged into the same record. */
  datatype Bar = Bar(timestamp: real, open: real, high: real, low: real, close: real, volume: real,
                     indicators: map<string, real>)

  datatype Status = Open | Closed

  /** A trade; the exit fields are absent (the source's `undefined`) while it is open. */
  datatype Trade = Trade(entryTimestamp: real, entryPrice: real, quantity: real,
                         exitTimestamp: Option<real>, exitPrice: Option<real>,
                         profit: Option<real>, profitPercentage: Option<real>, status: Status)

  datatype Config = Config(initialBalance: real, commission: real, entryRule: Rule, exitRule: Rule)

  datatype BacktestResult = BacktestResult(trades: seq<Trade>, finalBalance: real, netProfit: real,
                                           winRate: real, maxDrawdown: real, equityCurve: seq<real>)

  /** The bar entry and exit fills of a closed trade (bookkeeping for the proofs). */
  datatype Fill = Fill(entryBar: nat, exitBar: nat)

  /**
    The loop's variables after some bars, plus two bookkeeping fields the
    source does not keep: the bar the open trade was filled at, and the fill
    bars of every closed trade.
   */
  datatype State = State(balance: real, current: Option<Trade>, trades: seq<Trade>,
                         equityCurve: seq<real>, peak: real, maxDrawdown: real,
                         openedAt: nat, fills: seq<Fill>)

  /** The record a rule is evaluated against: the indicator fields and the six OHLCV fields. */
  function BarFields(bar: Bar): RuleEngine.Snapshot
  {
    bar.indicators + map["timestamp" := bar.timestamp, "open" := bar.open, "high" := bar.high,
                         "low" := bar.low, "close" := bar.close, "volume" := bar.volume]
  }

  /**
    What the model assumes of its input: positive starting capital, a
    commission in [0, 1) and positive opens, so that no fill divides by zero.
   */
  ghost predicate ValidInput(data: seq<Bar>, config: Config)
  {
    && config.initialBalance > 0.0
    && 0.0 <= config.commission < 1.0
    && forall i :: 0 <= i < |data| ==> data[i].open > 0.0
  }

  /** Flat means cash on hand; holding means a trade with a positive price and quantity. */
  ghost predicate Funded(s: State)
  {
    match s.current
    case None => s.balance > 0.0
    case Some(t) => t.entryPrice > 0.0 && t.quantity > 0.0
  }

  // ===========================================================================
  // The specification of one run

  ghost function Initial(config: Config): State
  {
    State(config.initialBalance, None, [], [], config.initialBalance, 0.0, 0, [])
  }

  /**
    The trade opened at `next`'s open: all of `balance` less the commission
    on it buys `quantity`; the exit fields stay empty.
   */
  function OpenTrade(next: Bar, balance: real, commission: real): Trade
    requires next.open > 0.0
  {
    var entryPrice := next.open;
    var netBalance := Net(balance, commission);
    var quantity := netBalance / entryPrice;
    Trade(next.timestamp, entryPrice, quantity, None, None, None, None, Open)
  }

  /** The cash from selling `quantity` at `exitPrice`: the gross value less the commission on it. */
  function SaleProceeds(quantity: real, exitPrice: real, commission: real): real
  {
    var grossValue := quantity * exitPrice;
    Net(grossValue, commission)
  }

  /** `amount` less the commission charged on it. */
  function Net(amount: real, commission: real): real
  {
    var commissionCost := amount * commission;
    amount - commissionCost
  }

  /** A cost basis with the commission charged on it added. */
  function Charged(cost: real, commission: real): real
  {
    cost * (1.0 + commission)
  }

  /**
    The trade closed at `next`'s open once `balance` is the sale's cash: the
    profit charges the commission on the cost basis as well, and the
    percentage is taken on the cost basis.
   */
  function CloseTrade(t: Trade, next: Bar, balance: real, commission: real): Trade
    requires t.entryPrice > 0.0 && t.quantity > 0.0
  {
    var profit := balance - Charged(CostBasis(t.entryPrice, t.quantity), commission);
    t.(exitTimestamp := Some(next.timestamp), exitPrice := Some(next.open), profit := Some(profit),
       profitPercentage := Some(profit / CostBasis(t.entryPrice, t.quantity) * 100.0), status := Closed)
  }

  /** What the position cost before commission: entry price times quantity. */
  function CostBasis(entryPrice: real, quantity: real): real
  {
    entryPrice * quantity
  }

  /** Opening at `next`'s open; the balance becomes 0. */
  ghost function Enter(next: Bar, at: nat, config: Config, s: State): (r: State)
    requires s.current.None? && s.balance > 0.0 && next.open > 0.0 && 0.0 <= config.commission < 1.0
    ensures Funded(r)
  {
    var c := config.commission;
    assert Net(s.balance, c) == s.balance * (1.0 - c) > 0.0;
    QuotientPositive(Net(s.balance, c), next.open);
    s.(current := Some(OpenTrade(next, s.balance, c)), balance := 0.0, openedAt := at)
  }

  /** Closing at `next`'s open; the sale's cash becomes the balance and the closed trade is logged. */
  ghost function Exit(next: Bar, at: nat, config: Config, s: State): (r: State)
    requires s.current.Some? && Funded(s) && next.open > 0.0 && 0.0 <= config.commission < 1.0
    ensures Funded(r)
  {
    var t := s.current.value;
    var c := config.commission;
    var balance := SaleProceeds(t.quantity, next.open, c);
    assert t.quantity * next.open > 0.0;
    assert CostBasis(t.entryPrice, t.quantity) > 0.0;
    assert balance == t.quantity * next.open * (1.0 - c) > 0.0;
    s.(balance := balance, current := None, trades := s.trades + [CloseTrade(t, next, balance, c)],
       fills := s.fills + [Fill(s.openedAt, at)])
  }

  /** The signal half of a bar: entry is considered only when flat, exit only when holding. */
  ghost function Signal(data: seq<Bar>, config: Config, i: nat, s: State): (r: State)
    requires ValidInput(data, config) && i < |data| && Funded(s)
    ensures Funded(r)
  {
    if s.current.None? then
      if EvaluateRule(config.entryRule, BarFields(data[i])) && i + 1 < |data| then Enter(data[i + 1], i + 1, config, s)
      else s
    else
      if EvaluateRule(config.exitRule, BarFields(data[i])) && i + 1 < |data| then Exit(data[i + 1], i + 1, config, s)
      else s
  }

  /** The equity on a bar: the open position at the bar's close, or the cash balance. */
  function Equity(current: Option<Trade>, balance: real, bar: Bar): real
  {
    if current.Some? then MarketValue(current.value.quantity, bar.close) else balance
  }

  /** A position valued at a price, with no commission charged. */
  function MarketValue(quantity: real, price: real): real
  {
    quantity * price
  }

  /** `(peak - equity) / peak`, or 0 when the peak is not positive. */
  function Drawdown(peak: real, equity: real): real
  {
    if peak > 0.0 then (peak - equity) / peak else 0.0
  }

  /** The bookkeeping half of a bar: append the equity, raise the peak, keep the largest drawdown. */
  ghost function Mark(s: State, bar: Bar): State
  {
    var equity := Equity(s.current, s.balance, bar);
    var peak := if equity > s.peak then equity else s.peak;
    var drawdown := Drawdown(peak, equity);
    s.(equityCurve := s.equityCurve + [equity], peak := peak,
       maxDrawdown := if drawdown > s.maxDrawdown then drawdown else s.maxDrawdown)
  }

  ghost function Step(data: seq<Bar>, config: Config, i: nat, s: State): State
    requires ValidInput(data, config) && i < |data| && Funded(s)
  {
    Mark(Signal(data, config, i, s), data[i])
  }

  /** The state after the first `n` bars. */
  ghost function Run(data: seq<Bar>, config: Config, n: nat): (s: State)
    requires ValidInput(data, config) && n <= |data|
    ensures Funded(s) && |s.equityCurve| == n && (s.current.Some? ==> n > 0)
    decreases n
  {
    if n == 0 then Initial(config)
    else Step(data, config, n - 1, Run(data, config, n - 1))
  }

  /** `(t.profit || 0) > 0` */
  predicate IsWin(t: Trade)
  {
    t.profit.Some? && t.profit.value > 0.0
  }

  /** The length of `trades.filter(t => (t.profit || 0) > 0)`. */
  function CountWins(trades: seq<Trade>): (r: nat)
    ensures r <= |trades|
    ensures r == 0 <==> forall k :: 0 <= k < |trades| ==> !IsWin(trades[k])
    ensures r == |trades| <==> forall k :: 0 <= k < |trades| ==> IsWin(trades[k])
  {
    if trades == [] then 0
    else
      var rest := CountWins(trades[..|trades| - 1]);
      assert forall k :: 0 <= k < |trades| - 1 ==> trades[..|trades| - 1][k] == trades[k];
      rest + (if IsWin(trades[|trades| - 1]) then 1 else 0)
  }

  /** The share of winning trades; 0 when no trade has closed. */
  function WinRate(trades: seq<Trade>): (r: real)
    ensures 0.0 <= r <= 1.0
    ensures |trades| == 0 ==> r == 0.0
    ensures r == 0.0 <==> forall k :: 0 <= k < |trades| ==> !IsWin(trades[k])
    ensures |trades| > 0 ==> (r == 1.0 <==> forall k :: 0 <= k < |trades| ==> IsWin(trades[k]))
  {
    if |trades| > 0 then
      FractionBounds(CountWins(trades) as real, |trades| as real);
      CountWins(trades) as real / |trades| as real
    else 0.0
  }

  /** The final tally: an open trade is valued at the last close, without commission, and not logged. */
  ghost function Finalize(data: seq<Bar>, config: Config, s: State): BacktestResult
    requires s.current.Some? ==> |data| > 0
  {
    var finalBalance := if s.current.Some? then Equity(s.current, s.balance, data[|data| - 1]) else s.balance;
    BacktestResult(s.trades, finalBalance, finalBalance - config.initialBalance, WinRate(s.trades),
                   s.maxDrawdown, s.equityCurve)
  }

  ghost function Backtest(data: seq<Bar>, config: Config): BacktestResult
    requires ValidInput(data, config)
  {
    Finalize(data, config, Run(data, config, |data|))
  }

  // ===========================================================================
  // The source's loop

  /** `runBacktest` */
  method RunBacktest(data: seq<Bar>, config: Config) returns (result: BacktestResult)
    requires ValidInput(data, config)
    ensures result == Backtest(data, config)
    ensures |result.equityCurve| == |data|
    ensures forall k :: 0 <= k < |result.trades| ==> result.trades[k].status == Closed
    ensures 0.0 <= result.winRate <= 1.0 && (|result.trades| == 0 ==> result.winRate == 0.0)
    ensures result.maxDrawdown >= 0.0
    ensures result.netProfit == result.finalBalance - config.initialBalance
  {
    var balance := config.initialBalance;
    var currentTrade: Option<Trade> := None;
    var trades: seq<Trade> := [];
    var equityCurve: seq<real> := [];
    var peakBalance := balance;
    var maxDrawdown := 0.0;
    ghost var openedAt: nat := 0;
    ghost var fills: seq<Fill> := [];

    for i := 0 to |data|
      invariant currentTrade.Some? ==> i > 0
      invariant forall n: nat :: n == i ==>
        Run(data, config, n) == State(balance, currentTrade, trades, equityCurve, peakBalance, maxDrawdown, openedAt, fills)
    {
      ghost var before := State(balance, currentTrade, trades, equityCurve, peakBalance, maxDrawdown, openedAt, fills);
      assert before == Run(data, config, i);
      var bar := data[i];

      if currentTrade.None? {
        if EvaluateRule(config.entryRule, BarFields(bar)) {
          if i + 1 < |data| {
            var nextBar := data[i + 1];
            currentTrade := Some(OpenTrade(nextBar, balance, config.commission));
            balance := 0.0;
            openedAt := i + 1;
          }
        }
      } else {
        if EvaluateRule(config.exitRule, BarFields(bar)) {
          if i + 1 < |data| {
            var nextBar := data[i + 1];
            var trade := currentTrade.value;
            balance := SaleProceeds(trade.quantity, nextBar.open, config.commission);
            trades := trades + [CloseTrade(trade, nextBar, balance, config.commission)];
            currentTrade := None;
            fills := fills + [Fill(openedAt, i + 1)];
          }
        }
      }
      assert Signal(data, config, i, before) == State(balance, currentTrade, trades, equityCurve, peakBalance, maxDrawdown, openedAt, fills);

      var currentEquity := Equity(currentTrade, balance, bar);
      equityCurve := equityCurve + [currentEquity];
      if currentEquity > peakBalance {
        peakBalance := currentEquity;
      }
      var drawdown := Drawdown(peakBalance, currentEquity);
      if drawdown > maxDrawdown {
        maxDrawdown := drawdown;
      }
    }

    var finalBalance := if currentTrade.Some? then Equity(currentTrade, balance, data[|data| - 1]) else balance;
    var winRate := WinRate(trades);
    var netProfit := finalBalance - config.initialBalance;
    result := BacktestResult(trades, finalBalance, netProfit, winRate, maxDrawdown, equityCurve);
    ghost var final := State(balance, currentTrade, trades, equityCurve, peakBalance, maxDrawdown, openedAt, fills);
    assert Run(data, config, |data|) == final;
    assert result == Finalize(data, config, final);
    BacktestSummary(data, config);
  }

  /**
    What every run reports: one equity value per bar, only closed trades, a
    win rate in [0, 1] that is 0 with no trades, a non-negative maximum
    drawdown, and the net profit as the final balance less the starting one.
   */
  lemma BacktestSummary(data: seq<Bar>, config: Config)
    requires ValidInput(data, config)
    ensures var r := Backtest(data, config);
      && |r.equityCurve| == |data|
      && (forall k :: 0 <= k < |r.trades| ==> r.trades[k].status == Closed)
      && 0.0 <= r.winRate <= 1.0 && (|r.trades| == 0 ==> r.winRate == 0.0)
      && r.maxDrawdown >= 0.0
      && r.netProfit == r.finalBalance - config.initialBalance
  {
    RunLog(data, config, |data|);
    RunDrawdown(data, config, |data|);
    BacktestKeeps(data, config);
  }

  // ===========================================================================
  // The fill log: when and at what price trades open and close

  /**
    A closed trade was entered at bar `f.entryBar`'s open after the entry rule
    held on the bar before, and left at bar `f.exitBar`'s open after the exit
    rule held on the bar before; its exit fields are filled in.
   */
  ghost predicate FilledAt(data: seq<Bar>, config: Config, t: Trade, f: Fill)
  {
    && 1 <= f.entryBar < f.exitBar < |data|
    && t.status == Closed
    && t.entryTimestamp == data[f.entryBar].timestamp && t.entryPrice == data[f.entryBar].open
    && t.exitTimestamp == Some(data[f.exitBar].timestamp) && t.exitPrice == Some(data[f.exitBar].open)
    && t.profit.Some? && t.profitPercentage.Some?
    && EvaluateRule(config.entryRule, BarFields(data[f.entryBar - 1]))
    && EvaluateRule(config.exitRule, BarFields(data[f.exitBar - 1]))
  }

  /** The open trade was entered at bar `e`'s open after the entry rule held on the bar before. */
  ghost predicate OpenedAt(data: seq<Bar>, config: Config, t: Trade, e: nat)
  {
    && 1 <= e < |data|
    && t.status == Open
    && t.exitTimestamp.None? && t.exitPrice.None? && t.profit.None? && t.profitPercentage.None?
    && t.entryTimestamp == data[e].timestamp && t.entryPrice == data[e].open
    && EvaluateRule(config.entryRule, BarFields(data[e - 1]))
  }

  /**
    After `n` bars: every logged trade is closed and was filled at next-bar
    opens no later than bar `n`, the trades follow one another without
    overlapping, and an open trade started after the last closed one.
   */
  ghost predicate Log(data: seq<Bar>, config: Config, s: State, n: nat)
  {
    && |s.fills| == |s.trades|
    && (forall k :: 0 <= k < |s.trades| ==> FilledAt(data, config, s.trades[k], s.fills[k]) && s.fills[k].exitBar <= n)
    && (forall j, k :: 0 <= j < k < |s.fills| ==> s.fills[j].exitBar < s.fills[k].entryBar)
    && (s.current.Some? ==>
          && OpenedAt(data, config, s.current.value, s.openedAt) && s.openedAt <= n
          && (forall k :: 0 <= k < |s.fills| ==> s.fills[k].exitBar < s.openedAt))
  }

  lemma SignalLog(data: seq<Bar>, config: Config, i: nat, s: State)
    requires ValidInput(data, config) && i < |data| && Funded(s) && Log(data, config, s, i)
    ensures Log(data, config, Signal(data, config, i, s), i + 1)
  {
    if s.current.None? && EvaluateRule(config.entryRule, BarFields(data[i])) && i + 1 < |data| {
      EnterLog(data, config, i, s);
    } else if s.current.Some? && EvaluateRule(config.exitRule, BarFields(data[i])) && i + 1 < |data| {
      ExitLog(data, config, i, s);
    } else {
      assert Signal(data, config, i, s) == s;
    }
  }

  lemma EnterLog(data: seq<Bar>, config: Config, i: nat, s: State)
    requires ValidInput(data, config) && i + 1 < |data| && Log(data, config, s, i)
    requires s.current.None? && s.balance > 0.0 && EvaluateRule(config.entryRule, BarFields(data[i]))
    ensures Log(data, config, Enter(data[i + 1], i + 1, config, s), i + 1)
  {
  }

  lemma ExitLog(data: seq<Bar>, config: Config, i: nat, s: State)
    requires ValidInput(data, config) && i + 1 < |data| && Funded(s) && Log(data, config, s, i)
    requires s.current.Some? && EvaluateRule(config.exitRule, BarFields(data[i]))
    ensures Log(data, config, Exit(data[i + 1], i + 1, config, s), i + 1)
  {
    var r := Exit(data[i + 1], i + 1, config, s);
    ExitShape(data[i + 1], i + 1, config, s);
    CloseLog(data, config, i, s, r);
  }

  /** What closing the open trade at `next`'s open changes, field by field. */
  lemma ExitShape(next: Bar, at: nat, config: Config, s: State)
    requires s.current.Some? && Funded(s) && next.open > 0.0 && 0.0 <= config.commission < 1.0
    ensures var r, t, c := Exit(next, at, config, s), s.current.value, config.commission;
      && r.current.None? && r.openedAt == s.openedAt
      && r.balance == SaleProceeds(t.quantity, next.open, c)
      && r.fills == s.fills + [Fill(s.openedAt, at)]
      && |r.trades| == |s.trades| + 1 && r.trades == s.trades + [r.trades[|s.trades|]]
      && var closed := r.trades[|s.trades|];
      && closed.entryTimestamp == t.entryTimestamp && closed.entryPrice == t.entryPrice
      && closed.quantity == t.quantity && closed.status == Closed
      && closed.exitTimestamp == Some(next.timestamp) && closed.exitPrice == Some(next.open)
      && closed.profit == Some(r.balance - Charged(CostBasis(t.entryPrice, t.quantity), c))
      && closed.profitPercentage.Some?
  {
  }

  /** Logging a trade that closed at bar `i + 1` after the exit rule held on bar `i` keeps the log. */
  lemma CloseLog(data: seq<Bar>, config: Config, i: nat, s: State, r: State)
    requires i + 1 < |data| && Log(data, config, s, i) && s.current.Some?
    requires EvaluateRule(config.exitRule, BarFields(data[i]))
    requires r.current.None? && r.fills == s.fills + [Fill(s.openedAt, i + 1)]
    requires |r.trades| == |s.trades| + 1 && r.trades == s.trades + [r.trades[|s.trades|]]
    requires var closed, t := r.trades[|s.trades|], s.current.value;
      && closed.entryTimestamp == t.entryTimestamp && closed.entryPrice == t.entryPrice && closed.status == Closed
      && closed.exitTimestamp == Some(data[i + 1].timestamp) && closed.exitPrice == Some(data[i + 1].open)
      && closed.profit.Some? && closed.profitPercentage.Some?
    ensures Log(data, config, r, i + 1)
  {
    assert FilledAt(data, config, r.trades[|s.trades|], Fill(s.openedAt, i + 1));
    FilledAppend(data, config, s.trades, s.fills, r.trades[|s.trades|], Fill(s.openedAt, i + 1), i + 1);
    forall j, k | 0 <= j < k < |r.fills|
      ensures r.fills[j].exitBar < r.fills[k].entryBar
    {
      assert r.fills[j] == s.fills[j];
    }
  }

  /** Appending a filled trade to a log of filled trades keeps every entry filled. */
  lemma FilledAppend(data: seq<Bar>, config: Config, trades: seq<Trade>, fills: seq<Fill>, t: Trade, f: Fill, n: nat)
    requires |fills| == |trades| && FilledAt(data, config, t, f) && f.exitBar <= n
    requires forall k :: 0 <= k < |trades| ==> FilledAt(data, config, trades[k], fills[k]) && fills[k].exitBar <= n
    ensures forall k :: 0 <= k < |trades| + 1 ==>
      FilledAt(data, config, (trades + [t])[k], (fills + [f])[k]) && (fills + [f])[k].exitBar <= n
  {
    forall k | 0 <= k < |trades| + 1
      ensures FilledAt(data, config, (trades + [t])[k], (fills + [f])[k]) && (fills + [f])[k].exitBar <= n
    {
      if k < |trades| {
        assert (trades + [t])[k] == trades[k] && (fills + [f])[k] == fills[k];
      }
    }
  }

  /** Every closed trade, and the open one, was filled at a next-bar open after its signal. */
  lemma {:induction false} RunLog(data: seq<Bar>, config: Config, n: nat)
    requires ValidInput(data, config) && n <= |data|
    ensures Log(data, config, Run(data, config, n), n)
    decreases n
  {
    if n > 0 {
      RunLog(data, config, n - 1);
      StepLog(data, config, n);
    }
  }

  lemma StepLog(data: seq<Bar>, config: Config, n: nat)
    requires ValidInput(data, config) && 0 < n <= |data| && Log(data, config, Run(data, config, n - 1), n - 1)
    ensures Log(data, config, Run(data, config, n), n)
  {
    var s := Signal(data, config, n - 1, Run(data, config, n - 1));
    SignalLog(data, config, n - 1, Run(data, config, n - 1));
    MarkKeeps(s, data[n - 1]);
    LogFrame(data, config, s, Run(data, config, n), n);
  }

  /** The log speaks only of the open trade, the logged trades and their fills. */
  lemma LogFrame(data: seq<Bar>, config: Config, s: State, r: State, n: nat)
    requires Log(data, config, s, n)
    requires r.current == s.current && r.trades == s.trades && r.fills == s.fills && r.openedAt == s.openedAt
    ensures Log(data, config, r, n)
  {
  }

  /**
    At most one trade is open at a time: the log holds only closed trades, and
    an open trade, if any, is held apart from it.
   */
  lemma OneOpenTrade(data: seq<Bar>, config: Config)
    requires ValidInput(data, config)
    ensures var s := Run(data, config, |data|);
      && (forall k :: 0 <= k < |s.trades| ==> s.trades[k].status == Closed)
      && (s.current.Some? ==> s.current.value.status == Open && s.current.value !in s.trades)
  {
    RunLog(data, config, |data|);
  }

  /**
    With strictly increasing timestamps, every closed trade exits after it
    enters, and the next trade enters after the previous one exits.
   */
  lemma ExitAfterEntry(data: seq<Bar>, config: Config)
    requires ValidInput(data, config)
    requires forall i, j :: 0 <= i < j < |data| ==> data[i].timestamp < data[j].timestamp
    ensures var trades := Backtest(data, config).trades;
      forall k :: 0 <= k < |trades| ==>
        && trades[k].exitTimestamp.Some? && trades[k].entryTimestamp < trades[k].exitTimestamp.value
        && (k > 0 ==> trades[k - 1].exitTimestamp.Some? && trades[k - 1].exitTimestamp.value < trades[k].entryTimestamp)
  {
    RunLog(data, config, |data|);
    BacktestKeeps(data, config);
    LogOrdersTimestamps(data, config, Run(data, config, |data|), |data|);
  }

  /**
    Every reported trade was bought at the open of the bar after one on which
    the entry rule held and sold at the open of a later bar, the one after a
    bar on which the exit rule held; neither signal was read on the last bar.
   */
  lemma TradesFilledAtNextOpen(data: seq<Bar>, config: Config, k: nat)
    requires ValidInput(data, config) && k < |Backtest(data, config).trades|
    ensures var t := Backtest(data, config).trades[k];
      exists e, x :: 1 <= e < x < |data| && FilledAt(data, config, t, Fill(e, x))
  {
    RunLog(data, config, |data|);
    BacktestKeeps(data, config);
    var s := Run(data, config, |data|);
    assert FilledAt(data, config, s.trades[k], s.fills[k]);
    assert s.fills[k] == Fill(s.fills[k].entryBar, s.fills[k].exitBar);
  }

  lemma LogOrdersTimestamps(data: seq<Bar>, config: Config, s: State, n: nat)
    requires Log(data, config, s, n)
    requires forall i, j :: 0 <= i < j < |data| ==> data[i].timestamp < data[j].timestamp
    ensures forall k :: 0 <= k < |s.trades| ==>
        && s.trades[k].exitTimestamp.Some? && s.trades[k].entryTimestamp < s.trades[k].exitTimestamp.value
        && (k > 0 ==> s.trades[k - 1].exitTimestamp.Some? && s.trades[k - 1].exitTimestamp.value < s.trades[k].entryTimestamp)
  {
    forall k | 0 <= k < |s.trades|
      ensures s.trades[k].exitTimestamp.Some? && s.trades[k].entryTimestamp < s.trades[k].exitTimestamp.value
      ensures k > 0 ==> s.trades[k - 1].exitTimestamp.Some? && s.trades[k - 1].exitTimestamp.value < s.trades[k].entryTimestamp
    {
      assert FilledAt(data, config, s.trades[k], s.fills[k]);
      if k > 0 {
        assert FilledAt(data, config, s.trades[k - 1], s.fills[k - 1]);
      }
    }
  }

  // ===========================================================================
  // Capital: every fill moves all the money, less commission

  /** What a closed trade returned: its quantity sold at the exit price, less commission; nothing while open. */
  function Proceeds(t: Trade, commission: real): real
  {
    match t.exitPrice
    case Some(price) => SaleProceeds(t.quantity, price, commission)
    case None => 0.0
  }

  /**
    The cash on hand before each trade and after the last one: the starting
    balance, then what each closed trade returned.
   */
  function Capitals(config: Config, trades: seq<Trade>): (caps: seq<real>)
    ensures |caps| == |trades| + 1 && caps[0] == config.initialBalance
  {
    if trades == [] then [config.initialBalance]
    else Capitals(config, trades[..|trades| - 1]) + [Proceeds(trades[|trades| - 1], config.commission)]
  }

  /**
    The accounting invariant: each trade was bought with all the cash there
    was, less commission, and its profit is what it returned less its cost
    basis charged commission once more; flat, the balance is the cash;
    holding, the balance is 0.
   */
  ghost predicate Reinvested(config: Config, s: State)
  {
    var c, caps := config.commission, Capitals(config, s.trades);
    && TradesReinvested(config, s.trades)
    && (s.current.None? ==> s.balance == caps[|s.trades|])
    && (s.current.Some? ==>
          s.balance == 0.0 && CostBasis(s.current.value.entryPrice, s.current.value.quantity) == Net(caps[|s.trades|], c))
  }

  /** The part of the invariant about the logged trades alone. */
  ghost predicate TradesReinvested(config: Config, trades: seq<Trade>)
  {
    var c, caps := config.commission, Capitals(config, trades);
    forall k {:trigger trades[k]} :: 0 <= k < |trades| ==>
      && trades[k].exitPrice.Some? && trades[k].profit.Some?
      && CostBasis(trades[k].entryPrice, trades[k].quantity) == Net(caps[k], c)
      && trades[k].profit.value == Proceeds(trades[k], c) - Charged(CostBasis(trades[k].entryPrice, trades[k].quantity), c)
  }

  /** Logging one more trade appends what it returned. */
  lemma CapitalsAppend(config: Config, trades: seq<Trade>, t: Trade)
    ensures Capitals(config, trades + [t]) == Capitals(config, trades) + [Proceeds(t, config.commission)]
  {
    assert (trades + [t])[..|trades|] == trades;
  }

  lemma MulDivCancel(x: real, y: real)
    requires y != 0.0
    ensures y * (x / y) == x
  {
  }

  lemma EnterReinvests(next: Bar, at: nat, config: Config, s: State)
    requires s.current.None? && s.balance > 0.0 && next.open > 0.0 && 0.0 <= config.commission < 1.0
    requires Reinvested(config, s)
    ensures Reinvested(config, Enter(next, at, config, s))
  {
    var c := config.commission;
    var r := Enter(next, at, config, s);
    assert r.trades == s.trades;
    MulDivCancel(Net(s.balance, c), next.open);
    var t := r.current.value;
    assert CostBasis(t.entryPrice, t.quantity) == Net(s.balance, c);
  }

  lemma ExitReinvests(next: Bar, at: nat, config: Config, s: State)
    requires s.current.Some? && Funded(s) && next.open > 0.0 && 0.0 <= config.commission < 1.0
    requires Reinvested(config, s)
    ensures Reinvested(config, Exit(next, at, config, s))
  {
    ExitShape(next, at, config, s);
    CloseReinvests(config, s, Exit(next, at, config, s));
  }

  /** Logging a trade that returned the whole balance and was charged on its cost basis keeps the invariant. */
  lemma CloseReinvests(config: Config, s: State, r: State)
    requires Reinvested(config, s) && s.current.Some?
    requires r.current.None? && |r.trades| == |s.trades| + 1 && r.trades == s.trades + [r.trades[|s.trades|]]
    requires var closed, t, c := r.trades[|s.trades|], s.current.value, config.commission;
      && closed.exitPrice.Some? && closed.profit.Some?
      && closed.entryPrice == t.entryPrice && closed.quantity == t.quantity
      && r.balance == Proceeds(closed, c)
      && closed.profit.value == r.balance - Charged(CostBasis(t.entryPrice, t.quantity), c)
    ensures Reinvested(config, r)
  {
    var caps := Capitals(config, s.trades);
    CapitalsAppend(config, s.trades, r.trades[|s.trades|]);
    var caps' := Capitals(config, r.trades);
    assert caps' == caps + [r.balance];
    forall k | 0 <= k < |s.trades|
      ensures r.trades[k] == s.trades[k] && caps'[k] == caps[k]
    {
    }
  }

  /**
    Commission taken off an amount and then charged on what is left costs
    `c^2` of it: `x * (1 - c) * (1 + c) == x * (1 - c^2)`.
   */
  lemma ChargedNet(amount: real, c: real)
    ensures Charged(Net(amount, c), c) == amount * (1.0 - c * c)
  {
    assert Net(amount, c) == amount * (1.0 - c);
  }

  lemma SignalReinvests(data: seq<Bar>, config: Config, i: nat, s: State)
    requires ValidInput(data, config) && i < |data| && Funded(s) && Reinvested(config, s)
    ensures Reinvested(config, Signal(data, config, i, s))
  {
    if s.current.None? && EvaluateRule(config.entryRule, BarFields(data[i])) && i + 1 < |data| {
      EnterReinvests(data[i + 1], i + 1, config, s);
    } else if s.current.Some? && EvaluateRule(config.exitRule, BarFields(data[i])) && i + 1 < |data| {
      ExitReinvests(data[i + 1], i + 1, config, s);
    } else {
      assert Signal(data, config, i, s) == s;
    }
  }

  /** The accounting identities hold after every bar. */
  lemma {:induction false} RunReinvests(data: seq<Bar>, config: Config, n: nat)
    requires ValidInput(data, config) && n <= |data|
    ensures Reinvested(config, Run(data, config, n))
    decreases n
  {
    if n > 0 {
      RunReinvests(data, config, n - 1);
      var s := Signal(data, config, n - 1, Run(data, config, n - 1));
      SignalReinvests(data, config, n - 1, Run(data, config, n - 1));
      MarkReinvests(config, s, data[n - 1]);
    }
  }

  lemma MarkReinvests(config: Config, s: State, bar: Bar)
    requires Reinvested(config, s)
    ensures Reinvested(config, Mark(s, bar))
  {
    MarkKeeps(s, bar);
    ReinvestedFrame(config, s, Mark(s, bar));
  }

  /** The bookkeeping half of a bar leaves the position, the cash and the logs alone. */
  lemma MarkKeeps(s: State, bar: Bar)
    ensures var r := Mark(s, bar);
      && r.balance == s.balance && r.current == s.current && r.trades == s.trades
      && r.openedAt == s.openedAt && r.fills == s.fills
      && r.equityCurve == s.equityCurve + [Equity(s.current, s.balance, bar)]
  {
  }

  /** The identities speak only of the cash, the open trade and the logged trades. */
  lemma ReinvestedFrame(config: Config, s: State, r: State)
    requires Reinvested(config, s)
    requires r.balance == s.balance && r.current == s.current && r.trades == s.trades
    ensures Reinvested(config, r)
  {
  }

  /**
    The final balance: flat, what the last closed trade returned (or the
    starting balance); holding, the open quantity at the last close with no
    commission charged, where the quantity is all the cash less commission
    over the entry price.
   */
  lemma FinalBalance(data: seq<Bar>, config: Config)
    requires ValidInput(data, config)
    ensures var s := Run(data, config, |data|);
      var r := Finalize(data, config, s);
      && r.netProfit == r.finalBalance - config.initialBalance
      && (s.current.None? ==> r.finalBalance == Capitals(config, s.trades)[|s.trades|])
      && (s.current.Some? ==>
            && |data| > 0
            && r.finalBalance == MarketValue(s.current.value.quantity, data[|data| - 1].close)
            && s.current.value.quantity == Net(Capitals(config, s.trades)[|s.trades|], config.commission) / s.current.value.entryPrice)
  {
    RunReinvests(data, config, |data|);
    FinalizeBalance(data, config, Run(data, config, |data|));
  }

  lemma FinalizeBalance(data: seq<Bar>, config: Config, s: State)
    requires Reinvested(config, s) && Funded(s) && (s.current.Some? ==> |data| > 0)
    ensures var r := Finalize(data, config, s);
      && r.netProfit == r.finalBalance - config.initialBalance
      && (s.current.None? ==> r.finalBalance == Capitals(config, s.trades)[|s.trades|])
      && (s.current.Some? ==>
            && r.finalBalance == MarketValue(s.current.value.quantity, data[|data| - 1].close)
            && s.current.value.quantity == Net(Capitals(config, s.trades)[|s.trades|], config.commission) / s.current.value.entryPrice)
  {
    if s.current.Some? {
      QuantityFromCost(s.current.value.entryPrice, s.current.value.quantity,
                       Net(Capitals(config, s.trades)[|s.trades|], config.commission));
    }
  }

  /**
    The `k`-th closed trade cost all the cash there was before it, less
    commission; the sale of its quantity at the exit price, less commission,
    is the cash after it; and its profit is that cash less the cost basis
    charged commission once more (by `ChargedNet`, the cash before it times
    `1 - c^2`).
   */
  lemma TradeAccounting(data: seq<Bar>, config: Config, k: nat)
    requires ValidInput(data, config) && k < |Backtest(data, config).trades|
    ensures var t, c := Backtest(data, config).trades[k], config.commission;
      var caps := Capitals(config, Backtest(data, config).trades);
      && CostBasis(t.entryPrice, t.quantity) == Net(caps[k], c)
      && t.exitPrice.Some? && caps[k + 1] == SaleProceeds(t.quantity, t.exitPrice.value, c)
      && t.profit.Some? && t.profit.value == caps[k + 1] - Charged(Net(caps[k], c), c)
  {
    RunReinvests(data, config, |data|);
    BacktestKeeps(data, config);
    ClosedTradeAccounting(config, Backtest(data, config).trades, k);
  }

  /** The result reports the run's logged trades, equity curve and maximum drawdown unchanged. */
  lemma BacktestKeeps(data: seq<Bar>, config: Config)
    requires ValidInput(data, config)
    ensures var s, r := Run(data, config, |data|), Backtest(data, config);
      r.trades == s.trades && r.equityCurve == s.equityCurve && r.maxDrawdown == s.maxDrawdown
  {
  }

  lemma ClosedTradeAccounting(config: Config, trades: seq<Trade>, k: nat)
    requires TradesReinvested(config, trades) && k < |trades|
    ensures var t, c := trades[k], config.commission;
      var caps := Capitals(config, trades);
      && CostBasis(t.entryPrice, t.quantity) == Net(caps[k], c)
      && t.exitPrice.Some? && caps[k + 1] == SaleProceeds(t.quantity, t.exitPrice.value, c)
      && t.profit.Some? && t.profit.value == caps[k + 1] - Charged(Net(caps[k], c), c)
  {
    CapitalsAt(config, trades, k);
    assert Proceeds(trades[k], config.commission)
        == SaleProceeds(trades[k].quantity, trades[k].exitPrice.value, config.commission);
  }

  /** The cash after the `k`-th trade is what that trade returned. */
  lemma {:induction false} CapitalsAt(config: Config, trades: seq<Trade>, k: nat)
    requires k < |trades|
    ensures Capitals(config, trades)[k + 1] == Proceeds(trades[k], config.commission)
    decreases |trades|
  {
    var front := trades[..|trades| - 1];
    if k < |front| {
      CapitalsAt(config, front, k);
      assert front[k] == trades[k];
    }
  }

  lemma QuantityFromCost(price: real, quantity: real, cost: real)
    requires price > 0.0 && CostBasis(price, quantity) == cost
    ensures quantity == cost / price
  {
  }

  // ===========================================================================
  // Peak and drawdown

  /** The running maximum of the starting balance and the equities so far. */
  ghost function PeakOf(init: real, curve: seq<real>): real
  {
    if curve == [] then init
    else
      var p := PeakOf(init, curve[..|curve| - 1]);
      if curve[|curve| - 1] > p then curve[|curve| - 1] else p
  }

  /** The peak bounds the starting balance and every equity, and is one of them. */
  lemma {:induction false} PeakIsMaximum(init: real, curve: seq<real>)
    ensures PeakOf(init, curve) >= init
    ensures forall j :: 0 <= j < |curve| ==> curve[j] <= PeakOf(init, curve)
    ensures PeakOf(init, curve) == init || exists j :: 0 <= j < |curve| && curve[j] == PeakOf(init, curve)
  {
    if curve != [] {
      var front := curve[..|curve| - 1];
      PeakIsMaximum(init, front);
      forall j | 0 <= j < |curve| - 1
        ensures curve[j] == front[j]
      {
      }
    }
  }

  /** The drawdown at bar `j`: how far equity stands below the peak reached up to and including bar `j`. */
  ghost function DrawdownAt(init: real, curve: seq<real>, j: nat): real
    requires j < |curve|
  {
    Drawdown(PeakOf(init, curve[..j + 1]), curve[j])
  }

  /** The peak is the running maximum and the maximum drawdown is the largest drawdown at any bar (or 0). */
  ghost predicate DrawdownTracked(init: real, s: State)
  {
    && s.peak == PeakOf(init, s.equityCurve)
    && s.maxDrawdown >= 0.0
    && (forall j :: 0 <= j < |s.equityCurve| ==> DrawdownAt(init, s.equityCurve, j) <= s.maxDrawdown)
    && (s.maxDrawdown == 0.0 || exists j :: 0 <= j < |s.equityCurve| && DrawdownAt(init, s.equityCurve, j) == s.maxDrawdown)
  }

  lemma MarkTracksDrawdown(init: real, s: State, bar: Bar)
    requires DrawdownTracked(init, s)
    ensures DrawdownTracked(init, Mark(s, bar))
  {
    var r := Mark(s, bar);
    var n := |s.equityCurve|;
    assert r.equityCurve[..n] == s.equityCurve;
    assert r.equityCurve[..n + 1] == r.equityCurve;
    assert PeakOf(init, r.equityCurve) == r.peak;
    assert DrawdownAt(init, r.equityCurve, n) == Drawdown(r.peak, r.equityCurve[n]);
    forall j | 0 <= j < n
      ensures DrawdownAt(init, r.equityCurve, j) == DrawdownAt(init, s.equityCurve, j)
    {
      assert r.equityCurve[..j + 1] == s.equityCurve[..j + 1];
    }
    if r.maxDrawdown != 0.0 {
      if r.maxDrawdown == s.maxDrawdown {
        var j :| 0 <= j < n && DrawdownAt(init, s.equityCurve, j) == s.maxDrawdown;
        assert DrawdownAt(init, r.equityCurve, j) == r.maxDrawdown;
      } else {
        assert DrawdownAt(init, r.equityCurve, n) == r.maxDrawdown;
      }
    }
  }

  /** After every bar the peak and the maximum drawdown are what their definitions say. */
  lemma {:induction false} RunDrawdown(data: seq<Bar>, config: Config, n: nat)
    requires ValidInput(data, config) && n <= |data|
    ensures DrawdownTracked(config.initialBalance, Run(data, config, n))
    decreases n
  {
    if n > 0 {
      RunDrawdown(data, config, n - 1);
      var s := Signal(data, config, n - 1, Run(data, config, n - 1));
      MarkTracksDrawdown(config.initialBalance, s, data[n - 1]);
    }
  }

  /** The peak never falls from one bar to a later one. */
  lemma {:induction false} PeakNonDecreasing(data: seq<Bar>, config: Config, m: nat, n: nat)
    requires ValidInput(data, config) && m <= n <= |data|
    ensures Run(data, config, m).peak <= Run(data, config, n).peak
    decreases n
  {
    if m < n {
      PeakNonDecreasing(data, config, m, n - 1);
      var s := Signal(data, config, n - 1, Run(data, config, n - 1));
      MarkKeeps(s, data[n - 1]);
    }
  }

  /** With non-negative closes every equity is non-negative. */
  lemma {:induction false} EquityNonNegative(data: seq<Bar>, config: Config, n: nat)
    requires ValidInput(data, config) && n <= |data|
    requires forall i :: 0 <= i < |data| ==> data[i].close >= 0.0
    ensures forall j :: 0 <= j < n ==> Run(data, config, n).equityCurve[j] >= 0.0
    decreases n
  {
    if n > 0 {
      EquityNonNegative(data, config, n - 1);
      var s := Signal(data, config, n - 1, Run(data, config, n - 1));
      MarkKeeps(s, data[n - 1]);
      MarkEquity(s, data[n - 1]);
    }
  }

  lemma MarkEquity(s: State, bar: Bar)
    requires Funded(s) && bar.close >= 0.0
    ensures Equity(s.current, s.balance, bar) >= 0.0
  {
    if s.current.Some? {
      MulNonNegative(s.current.value.quantity, bar.close);
    }
  }

  /**
    The maximum drawdown is a fraction of the peak: between 0 and 1 when
    equity cannot go negative.
   */
  lemma MaxDrawdownBounded(data: seq<Bar>, config: Config)
    requires ValidInput(data, config)
    requires forall i :: 0 <= i < |data| ==> data[i].close >= 0.0
    ensures 0.0 <= Backtest(data, config).maxDrawdown <= 1.0
  {
    var s := Run(data, config, |data|);
    RunDrawdown(data, config, |data|);
    EquityNonNegative(data, config, |data|);
    if s.maxDrawdown != 0.0 {
      var j :| 0 <= j < |s.equityCurve| && DrawdownAt(config.initialBalance, s.equityCurve, j) == s.maxDrawdown;
      DrawdownAtBounded(config.initialBalance, s.equityCurve, j);
    }
  }

  /** The drawdown at a bar whose equity is not negative is a fraction of the peak so far. */
  lemma DrawdownAtBounded(init: real, curve: seq<real>, j: nat)
    requires j < |curve| && curve[j] >= 0.0
    ensures 0.0 <= DrawdownAt(init, curve, j) <= 1.0
  {
    var prefix := curve[..j + 1];
    PeakIsMaximum(init, prefix);
    assert prefix[j] == curve[j];
    var peak := PeakOf(init, prefix);
    if peak > 0.0 {
      FractionBounds(peak - curve[j], peak);
    }
  }

  // ===========================================================================
  // Runs that never enter

  /** While the entry rule never holds, nothing is bought: cash, peak and every equity stay at the start. */
  lemma {:induction false} FlatRun(data: seq<Bar>, config: Config, n: nat)
    requires ValidInput(data, config) && n <= |data|
    requires forall i :: 0 <= i < |data| ==> !EvaluateRule(config.entryRule, BarFields(data[i]))
    ensures var s := Run(data, config, n);
      && s.current.None? && s.trades == [] && s.balance == config.initialBalance
      && s.peak == config.initialBalance && s.maxDrawdown == 0.0
      && forall j :: 0 <= j < n ==> s.equityCurve[j] == config.initialBalance
    decreases n
  {
    if n > 0 {
      FlatRun(data, config, n - 1);
      var s := Run(data, config, n - 1);
      assert Signal(data, config, n - 1, s) == s;
      MarkKeeps(s, data[n - 1]);
    }
  }

  /**
    A strategy whose entry rule never holds logs no trade, reports a win rate
    and a maximum drawdown of 0, and ends with the starting balance.
   */
  lemma NoEntryNoTrades(data: seq<Bar>, config: Config)
    requires ValidInput(data, config)
    requires forall i :: 0 <= i < |data| ==> !EvaluateRule(config.entryRule, BarFields(data[i]))
    ensures var r := Backtest(data, config);
      && r.trades == [] && r.winRate == 0.0 && r.maxDrawdown == 0.0
      && r.finalBalance == config.initialBalance && r.netProfit == 0.0
  {
    FlatRun(data, config, |data|);
    BacktestKeeps(data, config);
  }

  // ===========================================================================
  // Worked runs

  /** A test bar with volume 10 and one indicator, `sma_50`. */
  function SmaBar(timestamp: real, open: real, high: real, low: real, close: real, sma: real): Bar
  {
    Bar(timestamp, open, high, low, close, 10.0, map["sma_50" := sma])
  }

  /** Buy when the close is above `sma_50`, sell when it is below; no commission. */
  function SmaConfig(): Config
  {
    Config(1000.0, 0.0, Comparison("close", Gt, Field("sma_50")), Comparison("close", Lt, Field("sma_50")))
  }

  /** A bar's own close and indicator are what a rule reads. */
  lemma SmaBarFields(timestamp: real, open: real, high: real, low: real, close: real, sma: real)
    ensures var d := BarFields(SmaBar(timestamp, open, high, low, close, sma));
      Lookup(d, "close") == Some(close) && Lookup(d, "sma_50") == Some(sma)
  {
    var d := BarFields(SmaBar(timestamp, open, high, low, close, sma));
    assert "close" in d && d["close"] == close;
    assert "sma_50" in d && d["sma_50"] == sma;
  }

  /**
    Two bars, the entry rule holding on the first: the trade opened at the
    second bar's open is still open at the end, so nothing is logged and the
    final balance is the position at the last close.
   */
  lemma OpenAtEnd()
    ensures var data := [SmaBar(1.0, 100.0, 110.0, 90.0, 105.0, 100.0), SmaBar(2.0, 105.0, 115.0, 100.0, 110.0, 101.0)];
      ValidInput(data, SmaConfig())
      && Backtest(data, SmaConfig()).trades == []
      && Backtest(data, SmaConfig()).finalBalance == 110.0 * (1000.0 / 105.0)
  {
    var data := [SmaBar(1.0, 100.0, 110.0, 90.0, 105.0, 100.0), SmaBar(2.0, 105.0, 115.0, 100.0, 110.0, 101.0)];
    var config := SmaConfig();
    SmaBarFields(1.0, 100.0, 110.0, 90.0, 105.0, 100.0);
    SmaBarFields(2.0, 105.0, 115.0, 100.0, 110.0, 101.0);
    assert EvaluateRule(config.entryRule, BarFields(data[0]));
    assert !EvaluateRule(config.exitRule, BarFields(data[1]));
    var s1 := Run(data, config, 1);
    assert s1.current == Some(OpenTrade(data[1], 1000.0, 0.0)) && s1.trades == [];
    var s2 := Run(data, config, 2);
    assert s2.current == s1.current && s2.trades == [];
  }

  /** Four bars on which one trade is bought at 100 and sold at 80. */
  function LosingData(): seq<Bar>
  {
    [SmaBar(1.0, 100.0, 110.0, 90.0, 105.0, 100.0), SmaBar(2.0, 100.0, 110.0, 90.0, 110.0, 100.0),
     SmaBar(3.0, 90.0, 95.0, 80.0, 85.0, 100.0), SmaBar(4.0, 80.0, 85.0, 75.0, 78.0, 100.0)]
  }

  /**
    One trade, bought at 100 and sold at 80, loses 200, so the win rate is 0
    and the final balance is the 800 it returned.
   */
  lemma LosingTrade()
    ensures ValidInput(LosingData(), SmaConfig())
    ensures var r := Backtest(LosingData(), SmaConfig());
      |r.trades| == 1 && r.trades[0].profit == Some(-200.0) && r.winRate == 0.0 && r.finalBalance == 800.0
  {
    LosingExit();
    var data, config := LosingData(), SmaConfig();
    SmaBarFields(4.0, 80.0, 85.0, 75.0, 78.0, 100.0);
    var s3 := Run(data, config, 3);
    var s4 := Run(data, config, 4);
    assert s4.current.None? && s4.balance == 800.0 && s4.trades == s3.trades;
    assert !IsWin(s4.trades[0]);
  }

  /** The trade is opened at the second bar's open and still held after the second bar. */
  lemma LosingEntry()
    ensures ValidInput(LosingData(), SmaConfig())
    ensures var s := Run(LosingData(), SmaConfig(), 2);
      s.current == Some(OpenTrade(LosingData()[1], 1000.0, 0.0)) && s.trades == [] && s.openedAt == 1
  {
    LosingOpen();
    SmaBarFields(2.0, 100.0, 110.0, 90.0, 110.0, 100.0);
  }

  /** The entry rule holds on the first bar, so the trade is bought at the second bar's open. */
  lemma LosingOpen()
    ensures ValidInput(LosingData(), SmaConfig())
    ensures var s := Run(LosingData(), SmaConfig(), 1);
      s.current == Some(OpenTrade(LosingData()[1], 1000.0, 0.0)) && s.trades == [] && s.openedAt == 1
  {
    SmaBarFields(1.0, 100.0, 110.0, 90.0, 105.0, 100.0);
  }

  /** The exit rule holds on the third bar, so the trade is sold at the fourth bar's open. */
  lemma LosingExit()
    ensures ValidInput(LosingData(), SmaConfig())
    ensures var s := Run(LosingData(), SmaConfig(), 3);
      && s.current.None? && s.balance == 800.0 && |s.trades| == 1 && s.trades[0].profit == Some(-200.0)
  {
    LosingEntry();
    var data, config := LosingData(), SmaConfig();
    SmaBarFields(3.0, 90.0, 95.0, 80.0, 85.0, 100.0);
    var t := OpenTrade(data[1], 1000.0, 0.0);
    assert t.quantity == 10.0 && t.entryPrice == 100.0;
    var s3 := Run(data, config, 3);
    assert s3.trades == [CloseTrade(t, data[3], 800.0, 0.0)];
  }

  /** The six bars of the simulator's own example. */
  function SampleData(): seq<Bar>
  {
    [SmaBar(1.0, 100.0, 110.0, 90.0, 105.0, 100.0), SmaBar(2.0, 105.0, 115.0, 100.0, 110.0, 101.0),
     SmaBar(3.0, 110.0, 120.0, 105.0, 115.0, 102.0), SmaBar(4.0, 115.0, 115.0, 100.0, 105.0, 103.0),
     SmaBar(5.0, 105.0, 105.0, 90.0, 95.0, 104.0), SmaBar(6.0, 95.0, 100.0, 90.0, 98.0, 105.0)]
  }

  /** The example's strategy with commission `c`. */
  function SampleConfig(c: real): Config
  {
    SmaConfig().(commission := c)
  }

  /** A bar on which the exit rule does not hold leaves an open trade, the cash and the log as they were. */
  lemma HoldStep(data: seq<Bar>, config: Config, n: nat)
    requires ValidInput(data, config) && 0 < n <= |data|
    requires Run(data, config, n - 1).current.Some?
    requires !EvaluateRule(config.exitRule, BarFields(data[n - 1]))
    ensures var s, r := Run(data, config, n - 1), Run(data, config, n);
      r.current == s.current && r.trades == s.trades && r.balance == s.balance
  {
    MarkKeeps(Run(data, config, n - 1), data[n - 1]);
  }

  /** A flat bar on which the entry rule holds, with a bar after it, buys in at that bar's open. */
  lemma OpenStep(data: seq<Bar>, config: Config, n: nat)
    requires ValidInput(data, config) && 0 < n < |data|
    requires Run(data, config, n - 1).current.None?
    requires EvaluateRule(config.entryRule, BarFields(data[n - 1]))
    ensures var s, r := Run(data, config, n - 1), Run(data, config, n);
      && r.current == Some(OpenTrade(data[n], s.balance, config.commission))
      && r.trades == s.trades && r.balance == 0.0
  {
    var s := Run(data, config, n - 1);
    MarkKeeps(Signal(data, config, n - 1, s), data[n - 1]);
  }

  /** A bar on which the exit rule holds, with a bar after it, sells the open trade at that bar's open. */
  lemma CloseStep(data: seq<Bar>, config: Config, n: nat)
    requires ValidInput(data, config) && 0 < n < |data|
    requires Run(data, config, n - 1).current.Some?
    requires EvaluateRule(config.exitRule, BarFields(data[n - 1]))
    ensures var s, r := Run(data, config, n - 1), Run(data, config, n);
      var t, c := s.current.value, config.commission;
      && r.current.None? && r.balance == SaleProceeds(t.quantity, data[n].open, c)
      && r.trades == s.trades + [CloseTrade(t, data[n], r.balance, c)]
  {
    var s := Run(data, config, n - 1);
    MarkKeeps(Signal(data, config, n - 1, s), data[n - 1]);
  }

  /** A flat bar on which no entry fills leaves the cash and the log as they were. */
  lemma FlatStep(data: seq<Bar>, config: Config, n: nat)
    requires ValidInput(data, config) && 0 < n <= |data|
    requires Run(data, config, n - 1).current.None?
    requires n == |data| || !EvaluateRule(config.entryRule, BarFields(data[n - 1]))
    ensures var s, r := Run(data, config, n - 1), Run(data, config, n);
      r.current == s.current && r.trades == s.trades && r.balance == s.balance
  {
    MarkKeeps(Run(data, config, n - 1), data[n - 1]);
  }

  /** The close is above `sma_50` on the first bar, so all the cash buys in at the second bar's open. */
  lemma SampleOpen(c: real)
    requires 0.0 <= c < 1.0
    ensures ValidInput(SampleData(), SampleConfig(c))
    ensures var s := Run(SampleData(), SampleConfig(c), 1);
      s.current == Some(OpenTrade(SampleData()[1], 1000.0, c)) && s.trades == []
  {
    SmaBarFields(1.0, 100.0, 110.0, 90.0, 105.0, 100.0);
  }

  /** The close stays above `sma_50` on bars two to four, so the trade is still held after each of them. */
  lemma {:induction false} SampleHeld(c: real, n: nat)
    requires 0.0 <= c < 1.0 && 1 <= n <= 4
    ensures ValidInput(SampleData(), SampleConfig(c))
    ensures var s := Run(SampleData(), SampleConfig(c), n);
      s.current == Some(OpenTrade(SampleData()[1], 1000.0, c)) && s.trades == []
    decreases n
  {
    if n == 1 {
      SampleOpen(c);
    } else {
      SampleHeld(c, n - 1);
      SampleStaysAbove(c, n - 1);
      HoldStep(SampleData(), SampleConfig(c), n);
    }
  }

  /** On bars two to four the close is above `sma_50`, so the exit rule does not hold. */
  lemma SampleStaysAbove(c: real, i: nat)
    requires 1 <= i <= 3
    ensures !EvaluateRule(SampleConfig(c).exitRule, BarFields(SampleData()[i]))
  {
    if i == 1 {
      SmaBarFields(2.0, 105.0, 115.0, 100.0, 110.0, 101.0);
    } else if i == 2 {
      SmaBarFields(3.0, 110.0, 120.0, 105.0, 115.0, 102.0);
    } else {
      SmaBarFields(4.0, 115.0, 115.0, 100.0, 105.0, 103.0);
    }
  }

  /** The close falls below `sma_50` on bar five, so the trade is sold at bar six's open of 95. */
  lemma SampleExit(c: real)
    requires 0.0 <= c < 1.0
    ensures ValidInput(SampleData(), SampleConfig(c))
    ensures var s := Run(SampleData(), SampleConfig(c), 5);
      && s.current.None? && |s.trades| == 1
      && s.balance == SaleProceeds(OpenTrade(SampleData()[1], 1000.0, c).quantity, 95.0, c)
  {
    SampleHeld(c, 4);
    SmaBarFields(5.0, 105.0, 105.0, 90.0, 95.0, 104.0);
  }

  /** The last bar leaves the flat position alone: there is no next bar to fill an entry at. */
  lemma SampleEnd(c: real)
    requires 0.0 <= c < 1.0
    ensures ValidInput(SampleData(), SampleConfig(c))
    ensures var s := Run(SampleData(), SampleConfig(c), 6);
      && s.current.None? && |s.trades| == 1 && |s.equityCurve| == 6
      && s.balance == 1000.0 * (1.0 - c) * 95.0 / 105.0 * (1.0 - c)
  {
    var data, config := SampleData(), SampleConfig(c);
    SampleExit(c);
    FlatStep(data, config, 6);
    SampleProceeds(OpenTrade(data[1], 1000.0, c).quantity, c);
  }

  /** Buying with 1000 at 105 and selling at 95 returns 1000 * 95 / 105, less commission twice. */
  lemma SampleProceeds(q: real, c: real)
    requires q == Net(1000.0, c) / 105.0
    ensures SaleProceeds(q, 95.0, c) == 1000.0 * (1.0 - c) * 95.0 / 105.0 * (1.0 - c)
  {
  }

  /**
    On the example the strategy trades once: it buys at 105 and sells at 95,
    so the final balance is 1000 * 95 / 105 with the commission taken once on
    the way in and once on the way out.
   */
  lemma SampleRun(c: real)
    requires 0.0 <= c < 1.0
    ensures ValidInput(SampleData(), SampleConfig(c))
    ensures var r := Backtest(SampleData(), SampleConfig(c));
      && |r.trades| == 1 && |r.equityCurve| == 6
      && r.finalBalance == 1000.0 * (1.0 - c) * 95.0 / 105.0 * (1.0 - c)
  {
    SampleEnd(c);
    BacktestKeeps(SampleData(), SampleConfig(c));
    var s := Run(SampleData(), SampleConfig(c), 6);
    assert Backtest(SampleData(), SampleConfig(c)).finalBalance == s.balance;
  }

  /** On the example a higher commission always ends with less; in particular a commission of 0.01 ends below none. */
  lemma CommissionLowersFinalBalance(lo: real, hi: real)
    requires 0.0 <= lo < hi < 1.0
    ensures ValidInput(SampleData(), SampleConfig(lo)) && ValidInput(SampleData(), SampleConfig(hi))
    ensures Backtest(SampleData(), SampleConfig(hi)).finalBalance < Backtest(SampleData(), SampleConfig(lo)).finalBalance
  {
    SampleRun(lo);
    SampleRun(hi);
    SampleBalanceDecreasing(lo, hi);
  }

  /** The example's final balance falls as the commission rises. */
  lemma SampleBalanceDecreasing(lo: real, hi: real)
    requires 0.0 <= lo < hi < 1.0
    ensures 1000.0 * (1.0 - hi) * 95.0 / 105.0 * (1.0 - hi) < 1000.0 * (1.0 - lo) * 95.0 / 105.0 * (1.0 - lo)
  {
    var a, b := 1.0 - hi, 1.0 - lo;
    assert a * a < b * b by {
      assert a * a < a * b;
      assert a * b < b * b;
    }
    assert 1000.0 * a * 95.0 / 105.0 * a == (1000.0 * 95.0 / 105.0) * (a * a);
    assert 1000.0 * b * 95.0 / 105.0 * b == (1000.0 * 95.0 / 105.0) * (b * b);
  }

  /** A bar with no indicator fields and no volume. */
  function PlainBar(timestamp: real, open: real, high: real, low: real, close: real): Bar
  {
    Bar(timestamp, open, high, low, close, 0.0, map[])
  }

  lemma PlainBarClose(timestamp: real, open: real, high: real, low: real, close: real)
    ensures Lookup(BarFields(PlainBar(timestamp, open, high, low, close)), "close") == Some(close)
  {
    assert "close" in BarFields(PlainBar(timestamp, open, high, low, close));
  }

  /** Five rising bars. */
  function ThresholdData(): seq<Bar>
  {
    [PlainBar(1.0, 100.0, 110.0, 90.0, 105.0), PlainBar(2.0, 105.0, 115.0, 95.0, 110.0),
     PlainBar(3.0, 110.0, 120.0, 100.0, 115.0), PlainBar(4.0, 115.0, 125.0, 105.0, 120.0),
     PlainBar(5.0, 120.0, 130.0, 110.0, 125.0)]
  }

  /** Buy when the close is above 100, sell when it is above 112; starting capital `b`, no commission. */
  function ThresholdConfig(b: real): Config
  {
    Config(b, 0.0, Comparison("close", Gt, Literal(100.0)), Comparison("close", Gt, Literal(112.0)))
  }

  /** The first close is above 100, so all of `b` buys in at the second bar's open of 105. */
  lemma ThresholdOpen(b: real)
    requires b > 0.0
    ensures ValidInput(ThresholdData(), ThresholdConfig(b))
    ensures var s := Run(ThresholdData(), ThresholdConfig(b), 1);
      s.current == Some(OpenTrade(ThresholdData()[1], b, 0.0)) && s.trades == []
  {
    PlainBarClose(1.0, 100.0, 110.0, 90.0, 105.0);
  }

  /** The second close, 110, is not above 112, so the position is held. */
  lemma ThresholdHeld(b: real)
    requires b > 0.0
    ensures ValidInput(ThresholdData(), ThresholdConfig(b))
    ensures var s := Run(ThresholdData(), ThresholdConfig(b), 2);
      s.current == Some(OpenTrade(ThresholdData()[1], b, 0.0)) && s.trades == []
  {
    ThresholdOpen(b);
    PlainBarClose(2.0, 105.0, 115.0, 95.0, 110.0);
    HoldStep(ThresholdData(), ThresholdConfig(b), 2);
  }

  /** The third close, 115, is above 112, so the position is sold at the fourth bar's open of 115. */
  lemma ThresholdClose(b: real)
    requires b > 0.0
    ensures ValidInput(ThresholdData(), ThresholdConfig(b))
    ensures var s, t := Run(ThresholdData(), ThresholdConfig(b), 3), OpenTrade(ThresholdData()[1], b, 0.0);
      && s.current.None? && s.balance == SaleProceeds(t.quantity, 115.0, 0.0)
      && s.trades == [CloseTrade(t, ThresholdData()[3], s.balance, 0.0)]
  {
    ThresholdHeld(b);
    PlainBarClose(3.0, 110.0, 120.0, 100.0, 115.0);
    CloseStep(ThresholdData(), ThresholdConfig(b), 3);
  }

  /** The sale returns `b * 115 / 105`, a profit of `b * 10 / 105` on the `b` paid. */
  lemma ThresholdSold(b: real)
    requires b > 0.0
    ensures ValidInput(ThresholdData(), ThresholdConfig(b))
    ensures var s := Run(ThresholdData(), ThresholdConfig(b), 3);
      && s.current.None? && s.balance == b * 115.0 / 105.0
      && |s.trades| == 1 && s.trades[0].profit.Some? && s.trades[0].profit.value == b * 10.0 / 105.0
  {
    ThresholdClose(b);
    var t := OpenTrade(ThresholdData()[1], b, 0.0);
    ThresholdSale(b, t.quantity, t.entryPrice);
  }

  /** Buying with `b` at 105 and selling at 115 without commission. */
  lemma ThresholdSale(b: real, quantity: real, entryPrice: real)
    requires entryPrice == 105.0 && quantity == Net(b, 0.0) / entryPrice
    ensures SaleProceeds(quantity, 115.0, 0.0) == b * 115.0 / 105.0
    ensures b * 115.0 / 105.0 - Charged(CostBasis(entryPrice, quantity), 0.0) == b * 10.0 / 105.0
  {
  }

  /** The fourth close is above 100 again, so all the cash buys in at the last bar's open of 120. */
  lemma ThresholdBuysAgain(b: real)
    requires b > 0.0
    ensures ValidInput(ThresholdData(), ThresholdConfig(b))
    ensures var s := Run(ThresholdData(), ThresholdConfig(b), 4);
      && s.current == Some(OpenTrade(ThresholdData()[4], b * 115.0 / 105.0, 0.0))
      && s.trades == Run(ThresholdData(), ThresholdConfig(b), 3).trades
  {
    ThresholdSold(b);
    PlainBarClose(4.0, 115.0, 125.0, 105.0, 120.0);
    OpenStep(ThresholdData(), ThresholdConfig(b), 4);
  }

  /** The exit rule holds on the last bar, but there is no bar to sell at, so the position is still held. */
  lemma ThresholdReentry(b: real)
    requires b > 0.0
    ensures ValidInput(ThresholdData(), ThresholdConfig(b))
    ensures var s := Run(ThresholdData(), ThresholdConfig(b), 5);
      && s.current == Some(OpenTrade(ThresholdData()[4], b * 115.0 / 105.0, 0.0))
      && s.trades == Run(ThresholdData(), ThresholdConfig(b), 3).trades
  {
    var data, config := ThresholdData(), ThresholdConfig(b);
    ThresholdBuysAgain(b);
    var s4 := Run(data, config, 4);
    assert Signal(data, config, 4, s4) == s4;
    MarkKeeps(s4, data[4]);
  }

  /**
    The run logs one winning trade and ends holding the position bought at
    120, marked to the last close of 125: the net profit counts that open
    position too, not only the logged trade.
   */
  lemma ThresholdRun(b: real)
    requires b > 0.0
    ensures ValidInput(ThresholdData(), ThresholdConfig(b))
    ensures var r := Backtest(ThresholdData(), ThresholdConfig(b));
      && |r.trades| == 1 && r.trades[0].profit.Some? && r.trades[0].profit.value == b * 10.0 / 105.0
      && r.winRate == 1.0
      && r.finalBalance == b * 115.0 / 105.0 / 120.0 * 125.0
      && r.netProfit == r.finalBalance - b
  {
    ThresholdSold(b);
    ThresholdReentry(b);
    var data, config := ThresholdData(), ThresholdConfig(b);
    BacktestKeeps(data, config);
    var s := Run(data, config, 5);
    ThresholdMark(b, OpenTrade(data[4], b * 115.0 / 105.0, 0.0).quantity);
    assert IsWin(s.trades[0]);
  }

  /** Buying with `b * 115 / 105` at 120 and marking at 125. */
  lemma ThresholdMark(b: real, quantity: real)
    requires quantity == Net(b * 115.0 / 105.0, 0.0) / 120.0
    ensures MarketValue(quantity, 125.0) == b * 115.0 / 105.0 / 120.0 * 125.0
  {
  }

  /**
    With 10500 to start, the logged trade makes exactly 1000, yet the net
    profit is larger: the second position, bought at 120, is marked at 125.
   */
  lemma ThresholdScenario()
    ensures ValidInput(ThresholdData(), ThresholdConfig(10500.0))
    ensures var r := Backtest(ThresholdData(), ThresholdConfig(10500.0));
      && |r.trades| == 1 && r.trades[0].profit.Some? && r.trades[0].profit.value == 1000.0
      && r.finalBalance == 11500.0 / 120.0 * 125.0 && r.netProfit > 1000.0
  {
    ThresholdRun(10500.0);
  }

  // ===========================================================================
  // Arithmetic helpers

  lemma QuotientPositive(x: real, y: real)
    requires x > 0.0 && y > 0.0
    ensures x / y > 0.0
  {
    MulDivCancel(x, y);
    PositiveFactor(y, x / y);
  }

  /** With a positive factor, the other factor has the product's sign. */
  lemma PositiveFactor(y: real, q: real)
    requires y > 0.0
    ensures y * q > 0.0 ==> q > 0.0
    ensures y * q >= 0.0 ==> q >= 0.0
    ensures y * q <= y ==> q <= 1.0
  {
    if q > 1.0 {
      MulNonNegative(y, q - 1.0);
    }
  }

  /** A part over a positive whole lies in [0, 1], is 0 only for an empty part and 1 only for the whole. */
  lemma FractionBounds(part: real, whole: real)
    requires 0.0 <= part <= whole && whole > 0.0
    ensures 0.0 <= part / whole <= 1.0
    ensures part / whole == 0.0 <==> part == 0.0
    ensures part / whole == 1.0 <==> part == whole
  {
    MulDivCancel(part, whole);
    PositiveFactor(whole, part / whole);
  }
}
