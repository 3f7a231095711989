/**
 * The single-symbol backtesting engine: a long-only simulator that walks
 * the bars once, holds at most one position, sizes orders with fees
 * included, force-closes at the end, and then derives the performance
 * metrics of the run.
 */
module Backtester {
  import opened Wrappers
  import opened Numeric
  import opened EquityCurve

  datatype TradeKind = Buy | Sell

  /** One executed order; `capital` is the cash left right after it. */
  datatype Trade = Trade(kind: TradeKind, date: int, price: real, shares: nat, capital: real)

  /** One bar as the simulator reads it: its timestamp, close and strategy signal. */
  datatype Bar = Bar(date: int, close: real, signal: int)

  /** Commission and slippage rates, charged on both sides of a trade. */
  datatype Costs = Costs(commission: real, slippage: real)

  /** Cash paid per share bought, as a multiple of the price. */
  function BuyFactor(k: Costs): real {
    1.0 + k.commission + k.slippage
  }

  /** Cash received per share sold, as a multiple of the price. */
  function SellFactor(k: Costs): real {
    1.0 - k.commission - k.slippage
  }

  /** Order sizing divides by the fee-inclusive price, which must not be zero. */
  predicate Sizable(k: Costs) {
    BuyFactor(k) > 0.0
  }

  /** Fees that neither make a purchase free nor make a sale pay nothing. */
  predicate SaneCosts(k: Costs) {
    Sizable(k) && SellFactor(k) > 0.0
  }

  predicate ValidBars(bars: seq<Bar>) {
    forall i :: 0 <= i < |bars| ==> bars[i].close > 0.0
  }

  /** The simulator's accumulators: cash, shares held, trade log, equity curve. */
  datatype Sim = Sim(capital: real, position: nat, trades: seq<Trade>, equity: seq<real>)

  function Start(initialCapital: real): Sim {
    Sim(initialCapital, 0, [], [])
  }

  /** Fee-inclusive price of one share. */
  function UnitCost(price: real, k: Costs): real {
    price * BuyFactor(k)
  }

  /** Cash paid for `shares` shares at `price`, fees included. */
  function Cost(shares: nat, price: real, k: Costs): real {
    shares as real * price * BuyFactor(k)
  }

  /** Cash received for `shares` shares sold at `price`, fees deducted. */
  function Proceeds(shares: nat, price: real, k: Costs): real {
    shares as real * price * SellFactor(k)
  }

  /** `int(capital / (price * (1 + commission + slippage)))` */
  function SharesAffordable(capital: real, price: real, k: Costs): int
    requires price > 0.0 && Sizable(k)
  {
    Trunc(capital / UnitCost(price, k))
  }

  /** A positive order size never costs more than the cash it was sized from. */
  lemma SizingFits(capital: real, price: real, k: Costs)
    requires price > 0.0 && Sizable(k) && SharesAffordable(capital, price, k) > 0
    ensures Cost(SharesAffordable(capital, price, k), price, k) <= capital
    ensures SharesAffordable(capital, price, k) == (capital / UnitCost(price, k)).Floor
  {
    var unit := UnitCost(price, k);
    SizingWithinCash(capital, unit);
    var n := SharesAffordable(capital, price, k) as real;
    assert n * unit == n * price * BuyFactor(k);
  }

  lemma ProceedsSign(shares: nat, price: real, k: Costs)
    requires price > 0.0 && SellFactor(k) >= 0.0
    ensures Proceeds(shares, price, k) >= 0.0
    ensures shares > 0 && SellFactor(k) > 0.0 ==> Proceeds(shares, price, k) > 0.0
  {
    var q := shares as real * price;
    assert q >= 0.0;
    assert shares > 0 ==> q > 0.0;
  }

  /** Lines 81-83: a buy needs signal 1, no position and one affordable share. */
  predicate BuyFires(s: Sim, bar: Bar, k: Costs)
    requires bar.close > 0.0 && Sizable(k)
  {
    bar.signal == 1 && s.position == 0 && SharesAffordable(s.capital, bar.close, k) > 0
  }

  /** Line 97: a sell needs signal -1 and an open position. */
  predicate SellFires(s: Sim, bar: Bar) {
    bar.signal == -1 && s.position > 0
  }

  /** Buy `SharesAffordable` shares at the close, paying the fee-inclusive price. */
  function OpenLong(s: Sim, bar: Bar, k: Costs): Sim
    requires bar.close > 0.0 && Sizable(k)
  {
    var shares: nat := if SharesAffordable(s.capital, bar.close, k) > 0 then SharesAffordable(s.capital, bar.close, k) else 0;
    var cash := s.capital - Cost(shares, bar.close, k);
    s.(capital := cash, position := shares,
       trades := s.trades + [Trade(Buy, bar.date, bar.close, shares, cash)])
  }

  /** Sell the whole position at `price`, receiving the fee-reduced proceeds. */
  function CloseLong(s: Sim, date: int, price: real, k: Costs): Sim {
    var cash := s.capital + Proceeds(s.position, price, k);
    s.(capital := cash, position := 0,
       trades := s.trades + [Trade(Sell, date, price, s.position, cash)])
  }

  /** The order placed on one bar, if any (lines 80-108). */
  function Execute(s: Sim, bar: Bar, k: Costs): (r: Sim)
    requires bar.close > 0.0 && Sizable(k)
    ensures r.equity == s.equity
    ensures |r.trades| == |s.trades| || |r.trades| == |s.trades| + 1
  {
    if BuyFires(s, bar, k) then OpenLong(s, bar, k)
    else if SellFires(s, bar) then CloseLong(s, bar.date, bar.close, k)
    else s
  }

  /**
   * A BUY is recorded exactly when signal 1 meets a flat position and at
   * least one share is affordable; it holds `floor(cash / (price * (1 + c + s)))`
   * shares, takes their fee-inclusive cost out of the cash and never
   * overdraws it.
   */
  lemma BuyRule(s: Sim, bar: Bar, k: Costs)
    requires bar.close > 0.0 && Sizable(k)
    ensures var r := Execute(s, bar, k);
      (|r.trades| == |s.trades| + 1 && r.trades[|s.trades|].kind == Buy)
        <==> bar.signal == 1 && s.position == 0 && SharesAffordable(s.capital, bar.close, k) > 0
    ensures var r := Execute(s, bar, k);
      |r.trades| == |s.trades| + 1 && r.trades[|s.trades|].kind == Buy ==>
        && r.position == SharesAffordable(s.capital, bar.close, k)
        && r.position == (s.capital / UnitCost(bar.close, k)).Floor
        && r.capital == s.capital - Cost(r.position, bar.close, k)
        && r.capital >= 0.0
        && r.trades == s.trades + [Trade(Buy, bar.date, bar.close, r.position, r.capital)]
  {
    if BuyFires(s, bar, k) {
      SizingFits(s.capital, bar.close, k);
    }
  }

  /**
   * A SELL is recorded exactly when signal -1 meets an open position; it
   * sells the whole position, credits the fee-reduced proceeds and leaves
   * the position flat.
   */
  lemma SellRule(s: Sim, bar: Bar, k: Costs)
    requires bar.close > 0.0 && Sizable(k)
    ensures var r := Execute(s, bar, k);
      (|r.trades| == |s.trades| + 1 && r.trades[|s.trades|].kind == Sell)
        <==> bar.signal == -1 && s.position > 0
    ensures var r := Execute(s, bar, k);
      |r.trades| == |s.trades| + 1 && r.trades[|s.trades|].kind == Sell ==>
        && r.position == 0
        && r.capital == s.capital + Proceeds(s.position, bar.close, k)
        && r.trades == s.trades + [Trade(Sell, bar.date, bar.close, s.position, r.capital)]
  {
  }

  /** A buy signal while long, a sell signal while flat, or a hold changes nothing. */
  lemma NoOrderRule(s: Sim, bar: Bar, k: Costs)
    requires bar.close > 0.0 && Sizable(k)
    requires (bar.signal == 1 && s.position > 0) || (bar.signal == -1 && s.position == 0)
             || (bar.signal != 1 && bar.signal != -1)
    ensures Execute(s, bar, k) == s
  {
  }

  /** Cash plus the position marked at `price`. */
  function Valuation(s: Sim, price: real): real {
    s.capital + s.position as real * price
  }

  /** One bar of the loop: the order, then one equity point valued at the close. */
  function Step(s: Sim, bar: Bar, k: Costs): (r: Sim)
    requires bar.close > 0.0 && Sizable(k)
    ensures var e := Execute(s, bar, k);
      r.capital == e.capital && r.position == e.position && r.trades == e.trades
    ensures |r.equity| == |s.equity| + 1 && r.equity[..|s.equity|] == s.equity
    ensures r.equity[|s.equity|] == Valuation(r, bar.close)
  {
    var e := Execute(s, bar, k);
    e.(equity := e.equity + [Valuation(e, bar.close)])
  }

  /** The simulation loop as a left fold of Step over the bars. */
  function Simulate(bars: seq<Bar>, initialCapital: real, k: Costs): (r: Sim)
    requires ValidBars(bars) && Sizable(k)
    ensures |r.equity| == |bars|
    ensures |r.trades| <= |bars|
    ensures r.position > 0 ==> |r.trades| > 0
    decreases |bars|
  {
    if |bars| == 0 then Start(initialCapital)
    else Step(Simulate(bars[..|bars| - 1], initialCapital, k), bars[|bars| - 1], k)
  }

  /**
   * A position still open after the loop is sold at the last close; the
   * equity curve is not touched.
   */
  function ForceClose(s: Sim, bars: seq<Bar>, k: Costs): Sim
    requires ValidBars(bars)
    requires s.position > 0 ==> |bars| > 0
  {
    if s.position > 0 then CloseLong(s, bars[|bars| - 1].date, bars[|bars| - 1].close, k) else s
  }

  /** The loop followed by the forced close. */
  function Run(bars: seq<Bar>, initialCapital: real, k: Costs): Sim
    requires ValidBars(bars) && Sizable(k)
  {
    ForceClose(Simulate(bars, initialCapital, k), bars, k)
  }

  /** One iteration of the loop of `Backtester.run`, statement by statement. */
  method LoopBody(capital: real, position: nat, trades: seq<Trade>, equity: seq<real>, bar: Bar, k: Costs)
    returns (capital': real, position': nat, trades': seq<Trade>, equity': seq<real>)
    requires bar.close > 0.0 && Sizable(k)
    ensures Sim(capital', position', trades', equity') == Step(Sim(capital, position, trades, equity), bar, k)
  {
    capital', position', trades' := capital, position, trades;
    if bar.signal == 1 && position == 0 {
      var shares := SharesAffordable(capital, bar.close, k);
      if shares > 0 {
        capital' := capital - Cost(shares, bar.close, k);
        position' := shares;
        trades' := trades + [Trade(Buy, bar.date, bar.close, shares, capital')];
      }
    } else if bar.signal == -1 && position > 0 {
      capital' := capital + Proceeds(position, bar.close, k);
      trades' := trades + [Trade(Sell, bar.date, bar.close, position, capital')];
      position' := 0;
    }
    equity' := equity + [Valuation(Sim(capital', position', trades', equity), bar.close)];
  }

  /**
   * The loop of `Backtester.run` and its forced close; it computes exactly
   * the fold `Run`.
   */
  method RunLoop(bars: seq<Bar>, initialCapital: real, k: Costs)
    returns (capital: real, position: nat, trades: seq<Trade>, equity: seq<real>)
    requires ValidBars(bars) && Sizable(k)
    ensures Sim(capital, position, trades, equity) == Run(bars, initialCapital, k)
  {
    capital, position, trades, equity := initialCapital, 0, [], [];
    for i := 0 to |bars|
      invariant Sim(capital, position, trades, equity) == Simulate(bars[..i], initialCapital, k)
    {
      assert bars[..i + 1][..i] == bars[..i];
      capital, position, trades, equity := LoopBody(capital, position, trades, equity, bars[i], k);
    }
    assert bars[..|bars|] == bars;
    if position > 0 {
      var last := bars[|bars| - 1];
      capital := capital + Proceeds(position, last.close, k);
      trades := trades + [Trade(Sell, last.date, last.close, position, capital)];
      position := 0;
    }
  }

  /**
   * Sizing by example: 1000 in cash at a close of 100 with a 0.1%
   * commission buys 9 shares (1000 / 100.1 = 9.99...) and leaves 99.1.
   */
  lemma SizingExample()
    ensures var r := Execute(Start(1000.0), Bar(0, 100.0, 1), Costs(0.001, 0.0));
      r.position == 9 && r.capital == 99.1
      && r.trades == [Trade(Buy, 0, 100.0, 9, 99.1)]
  {
    var k := Costs(0.001, 0.0);
    assert UnitCost(100.0, k) == 100.1;
    assert 9.0 <= 1000.0 / 100.1 < 10.0;
    assert SharesAffordable(1000.0, 100.0, k) == 9;
  }

  // ---------------------------------------------------------------------
  // The ledger invariant

  /** Trades alternate BUY, SELL, BUY, ... starting with BUY. */
  predicate Alternates(trades: seq<Trade>) {
    forall i :: 0 <= i < |trades| ==> trades[i].kind == (if i % 2 == 0 then Buy else Sell)
  }

  /** Every SELL closes exactly the shares of the BUY before it, crediting the sale. */
  predicate ClosesMatch(trades: seq<Trade>, k: Costs) {
    forall i :: 0 < i < |trades| && i % 2 == 1 ==>
      && trades[i].shares == trades[i - 1].shares
      && trades[i].capital
           == trades[i - 1].capital + Proceeds(trades[i].shares, trades[i].price, k)
  }

  /** What holds of the accumulators after any prefix of the bars. */
  predicate Ledger(s: Sim, k: Costs) {
    && s.capital >= 0.0
    && (s.position == 0 <==> |s.trades| % 2 == 0)
    && Alternates(s.trades)
    && ClosesMatch(s.trades, k)
    && (forall i :: 0 <= i < |s.trades| ==> s.trades[i].shares > 0 && s.trades[i].price > 0.0)
    && (s.position > 0 ==> s.position == s.trades[|s.trades| - 1].shares
                           && s.capital == s.trades[|s.trades| - 1].capital)
  }

  lemma BuyKeepsLedger(s: Sim, bar: Bar, k: Costs)
    requires bar.close > 0.0 && Sizable(k) && Ledger(s, k) && BuyFires(s, bar, k)
    ensures Ledger(OpenLong(s, bar, k), k)
  {
    SizingFits(s.capital, bar.close, k);
    var r := OpenLong(s, bar, k);
    assert |s.trades| % 2 == 0;
    forall i | 0 <= i < |r.trades|
      ensures r.trades[i].kind == (if i % 2 == 0 then Buy else Sell)
    {
      if i < |s.trades| {
        assert r.trades[i] == s.trades[i];
      }
    }
  }

  lemma SellKeepsLedger(s: Sim, date: int, price: real, k: Costs)
    requires Ledger(s, k) && s.position > 0 && price > 0.0 && SellFactor(k) >= 0.0
    ensures Ledger(CloseLong(s, date, price, k), k)
  {
    var r := CloseLong(s, date, price, k);
    var n := |s.trades|;
    assert n % 2 == 1;
    ProceedsSign(s.position, price, k);
    forall i | 0 <= i < |r.trades|
      ensures r.trades[i].kind == (if i % 2 == 0 then Buy else Sell)
    {
      if i < n {
        assert r.trades[i] == s.trades[i];
      }
    }
    forall i | 0 < i < |r.trades| && i % 2 == 1
      ensures r.trades[i].shares == r.trades[i - 1].shares
      ensures r.trades[i].capital
                == r.trades[i - 1].capital + Proceeds(r.trades[i].shares, r.trades[i].price, k)
    {
      if i < n {
        assert r.trades[i] == s.trades[i] && r.trades[i - 1] == s.trades[i - 1];
      } else {
        assert r.trades[i - 1] == s.trades[n - 1];
      }
    }
  }

  lemma ExecuteKeepsLedger(s: Sim, bar: Bar, k: Costs)
    requires bar.close > 0.0 && Sizable(k) && Ledger(s, k) && SellFactor(k) >= 0.0
    ensures Ledger(Execute(s, bar, k), k)
  {
    if BuyFires(s, bar, k) {
      BuyKeepsLedger(s, bar, k);
    } else if SellFires(s, bar) {
      SellKeepsLedger(s, bar.date, bar.close, k);
    }
  }

  /**
   * The loop keeps the ledger invariant, produces one equity point per
   * bar and keeps every equity point positive.
   */
  lemma {:induction false} SimulateLedger(bars: seq<Bar>, initialCapital: real, k: Costs)
    requires ValidBars(bars) && Sizable(k)
    ensures initialCapital >= 0.0 && SellFactor(k) >= 0.0 ==> Ledger(Simulate(bars, initialCapital, k), k)
    decreases |bars|
  {
    if |bars| > 0 {
      var prefix := bars[..|bars| - 1];
      SimulateLedger(prefix, initialCapital, k);
      if initialCapital >= 0.0 && SellFactor(k) >= 0.0 {
        ExecuteKeepsLedger(Simulate(prefix, initialCapital, k), bars[|bars| - 1], k);
      }
    }
  }

  /** Cash is positive whenever no position is open (given positive starting cash and sane fees). */
  predicate FlatCashPositive(s: Sim) {
    s.position == 0 ==> s.capital > 0.0
  }

  predicate PositiveCurve(e: seq<real>) {
    forall i :: 0 <= i < |e| ==> e[i] > 0.0
  }

  /** Non-negative cash, positive when flat, makes a positive valuation at a positive price. */
  lemma ValuationPositive(s: Sim, price: real)
    requires price > 0.0 && s.capital >= 0.0 && FlatCashPositive(s)
    ensures Valuation(s, price) > 0.0
  {
    if s.position > 0 {
      assert s.position as real * price > 0.0;
    }
  }

  /** One order keeps the cash positive whenever the position is flat. */
  lemma ExecuteKeepsFlatCash(s: Sim, bar: Bar, k: Costs)
    requires bar.close > 0.0 && SaneCosts(k) && Ledger(s, k) && FlatCashPositive(s)
    ensures FlatCashPositive(Execute(s, bar, k))
  {
    if !BuyFires(s, bar, k) && SellFires(s, bar) {
      ProceedsSign(s.position, bar.close, k);
    }
  }

  /** With positive starting cash and sane fees, equity stays positive at every bar. */
  lemma {:induction false} SimulatePositive(bars: seq<Bar>, initialCapital: real, k: Costs)
    requires ValidBars(bars) && SaneCosts(k) && initialCapital > 0.0
    ensures FlatCashPositive(Simulate(bars, initialCapital, k))
    ensures PositiveCurve(Simulate(bars, initialCapital, k).equity)
    decreases |bars|
  {
    if |bars| > 0 {
      var prefix := bars[..|bars| - 1];
      var bar := bars[|bars| - 1];
      SimulatePositive(prefix, initialCapital, k);
      SimulateLedger(prefix, initialCapital, k);
      var p := Simulate(prefix, initialCapital, k);
      ExecuteKeepsFlatCash(p, bar, k);
      ExecuteKeepsLedger(p, bar, k);
      var r := Simulate(bars, initialCapital, k);
      ValuationPositive(r, bar.close);
      assert r.equity == p.equity + [r.equity[|p.equity|]];
    }
  }

  /** Running the loop on a prefix of the bars yields a prefix of the equity curve. */
  lemma {:induction false} SimulatePrefix(bars: seq<Bar>, initialCapital: real, k: Costs, j: nat)
    requires ValidBars(bars) && Sizable(k) && j <= |bars|
    ensures Simulate(bars[..j], initialCapital, k).equity == Simulate(bars, initialCapital, k).equity[..j]
    decreases |bars|
  {
    if j < |bars| {
      var prefix := bars[..|bars| - 1];
      SimulatePrefix(prefix, initialCapital, k, j);
      assert prefix[..j] == bars[..j];
      var q := Simulate(prefix, initialCapital, k);
      var r := Simulate(bars, initialCapital, k);
      assert r.equity[..|q.equity|] == q.equity;
      assert r.equity[..j] == q.equity[..j];
    } else {
      assert bars[..j] == bars;
    }
  }

  /** The last equity point values the final position at the last close. */
  lemma LastEquityPoint(bars: seq<Bar>, initialCapital: real, k: Costs, t: nat)
    requires ValidBars(bars) && Sizable(k) && |bars| == t + 1
    ensures var r := Simulate(bars, initialCapital, k);
      r.equity[t] == Valuation(r, bars[t].close)
  {
    var q := Simulate(bars[..t], initialCapital, k);
    assert |q.equity| == t;
  }

  /** Each equity point is the cash plus the marked value of the position on its bar. */
  lemma EquityPoint(bars: seq<Bar>, initialCapital: real, k: Costs, t: nat)
    requires ValidBars(bars) && Sizable(k) && t < |bars|
    ensures Simulate(bars, initialCapital, k).equity[t]
              == Valuation(Simulate(bars[..t + 1], initialCapital, k), bars[t].close)
  {
    var pre := bars[..t + 1];
    SimulatePrefix(bars, initialCapital, k, t + 1);
    LastEquityPoint(pre, initialCapital, k, t);
    assert pre[t] == bars[t];
  }

  /** No bar asks to buy. */
  predicate NoBuySignal(bars: seq<Bar>) {
    forall i :: 0 <= i < |bars| ==> bars[i].signal != 1
  }

  /**
   * Without a buy signal nothing is ever bought or sold: the cash stays at
   * the initial capital and so does every equity point.
   */
  lemma {:induction false} IdleSimulation(bars: seq<Bar>, initialCapital: real, k: Costs)
    requires ValidBars(bars) && Sizable(k) && NoBuySignal(bars)
    ensures var r := Simulate(bars, initialCapital, k);
      && r.trades == [] && r.position == 0 && r.capital == initialCapital
      && forall i :: 0 <= i < |r.equity| ==> r.equity[i] == initialCapital
    decreases |bars|
  {
    if |bars| > 0 {
      var prefix := bars[..|bars| - 1];
      IdleSimulation(prefix, initialCapital, k);
      var p := Simulate(prefix, initialCapital, k);
      NoOrderRule(p, bars[|bars| - 1], k);
    }
  }

  // ---------------------------------------------------------------------
  // End of run

  /**
   * After the forced close nothing is held, the trades alternate BUY/SELL
   * starting with BUY, their count is even, and there is one equity point
   * per bar.
   */
  lemma RunClosesEverything(bars: seq<Bar>, initialCapital: real, k: Costs)
    requires ValidBars(bars) && Sizable(k) && initialCapital >= 0.0 && SellFactor(k) >= 0.0
    ensures var r := Run(bars, initialCapital, k);
      && r.position == 0
      && |r.trades| % 2 == 0
      && Alternates(r.trades)
      && ClosesMatch(r.trades, k)
      && r.capital >= 0.0
      && |r.equity| == |bars|
      && Ledger(r, k)
  {
    SimulateLedger(bars, initialCapital, k);
    var s := Simulate(bars, initialCapital, k);
    var r := Run(bars, initialCapital, k);
    if s.position > 0 {
      var last := bars[|bars| - 1];
      var t := r.trades[|s.trades|];
      assert r.trades == s.trades + [t];
      ProceedsSign(s.position, last.close, k);
    }
  }

  /**
   * The reported final capital is the last equity point. When a position
   * was still open after the loop, that point values the shares at the
   * last close before fees, so it exceeds the cash after the forced close
   * by exactly the exit fee.
   */
  lemma FinalCapitalIgnoresCloseFee(bars: seq<Bar>, initialCapital: real, k: Costs)
    requires ValidBars(bars) && Sizable(k) && |bars| > 0
    ensures FinalCapital(Run(bars, initialCapital, k).equity, initialCapital)
            == Run(bars, initialCapital, k).capital
               + ExitFee(Simulate(bars, initialCapital, k).position, bars[|bars| - 1].close, k)
  {
    var s := Simulate(bars, initialCapital, k);
    var r := Run(bars, initialCapital, k);
    LastEquityPoint(bars, initialCapital, k, |bars| - 1);
    assert r == ForceClose(s, bars, k);
    CloseFee(s, bars, k);
    assert FinalCapital(r.equity, initialCapital) == Valuation(s, bars[|bars| - 1].close);
  }

  /** The fees charged on selling `shares` shares at `price`. */
  function ExitFee(shares: nat, price: real, k: Costs): real {
    shares as real * price * (k.commission + k.slippage)
  }

  /** The forced close keeps the curve and takes the exit fee off the marked value. */
  lemma CloseFee(s: Sim, bars: seq<Bar>, k: Costs)
    requires ValidBars(bars) && |bars| > 0
    ensures ForceClose(s, bars, k).equity == s.equity
    ensures Valuation(s, bars[|bars| - 1].close)
            == ForceClose(s, bars, k).capital + ExitFee(s.position, bars[|bars| - 1].close, k)
  {
    var x := s.position as real * bars[|bars| - 1].close;
    if s.position > 0 {
      SplitFee(x, k);
    }
  }

  /** The marked value splits into the sale proceeds and the exit fee. */
  lemma SplitFee(x: real, k: Costs)
    ensures x * SellFactor(k) + x * (k.commission + k.slippage) == x
  {
  }

  // ---------------------------------------------------------------------
  // Metrics

  function FinalCapital(equity: seq<real>, initialCapital: real): (r: real)
    ensures |equity| == 0 ==> r == initialCapital
    ensures |equity| > 0 ==> r == equity[|equity| - 1]
  {
    if |equity| == 0 then initialCapital else equity[|equity| - 1]
  }

  function TotalReturnPct(finalCapital: real, initialCapital: real): (r: real)
    requires initialCapital != 0.0
    ensures initialCapital > 0.0 ==> (r > 0.0 <==> finalCapital > initialCapital)
    ensures r == 0.0 <==> finalCapital == initialCapital
    ensures finalCapital == initialCapital * (1.0 + r / 100.0)
  {
    (finalCapital - initialCapital) / initialCapital * 100.0
  }

  /** `pct_change().dropna()` of a positive curve: one return per step. */
  function Returns(equity: seq<real>): (r: seq<real>)
    requires PositiveCurve(equity)
    ensures |equity| > 0 ==> |r| == |equity| - 1
    ensures |equity| == 0 ==> |r| == 0
    ensures forall i :: 0 <= i < |r| ==> equity[i + 1] == equity[i] * (1.0 + r[i])
  {
    if |equity| == 0 then []
    else seq(|equity| - 1, i requires 0 <= i < |equity| - 1 => equity[i + 1] / equity[i] - 1.0)
  }

  predicate Constant(xs: seq<real>) {
    forall i :: 0 <= i < |xs| ==> xs[i] == xs[0]
  }

  /**
   * The Sharpe ratio guard. `annualized` stands for
   * `sqrt(252) * mean / std`, which is not modelled. With no return the
   * guard gives 0; with one return the sample deviation is NaN and the
   * NaN ratio is reported as 0.0; with constant returns the deviation is
   * 0 and the guard gives 0.
   */
  function SharpeRatio(rets: seq<real>, annualized: real): (r: real)
    ensures |rets| <= 1 || Constant(rets) ==> r == 0.0
    ensures r != 0.0 ==> r == annualized
    ensures |rets| >= 2 && !Constant(rets) ==> r == annualized
  {
    if |rets| >= 2 && !Constant(rets) then annualized else 0.0
  }

  /** Pairs (2i, 2i+1) whose closing capital exceeds the opening capital. */
  function PairWins(trades: seq<Trade>): (r: nat)
    ensures r <= |trades| / 2
    decreases |trades|
  {
    if |trades| < 2 then 0
    else (if trades[1].capital > trades[0].capital then 1 else 0) + PairWins(trades[2..])
  }

  /** A share `w` of `p`, as a percentage, lies between 0 and 100 and scales back to `w`. */
  lemma Percentage(w: real, p: real)
    requires 0.0 <= w <= p && p > 0.0
    ensures 0.0 <= w / p * 100.0 <= 100.0
    ensures w / p * 100.0 * p == w * 100.0
  {
    var q := w / p;
    assert q * p == w;
    assert (1.0 - q) * p == p - w;
  }

  /** `wins / (len // 2) * 100`, or 0 without a complete pair. */
  function WinRatePct(trades: seq<Trade>): (r: real)
    ensures 0.0 <= r <= 100.0
    ensures |trades| < 2 ==> r == 0.0
    ensures |trades| >= 2 ==> r * (|trades| / 2) as real == PairWins(trades) as real * 100.0
  {
    var pairs := |trades| / 2;
    if pairs > 0 then
      Percentage(PairWins(trades) as real, pairs as real);
      PairWins(trades) as real / pairs as real * 100.0
    else 0.0
  }

  /** A pair wins exactly when its closing trade records more capital. */
  predicate EveryPairWins(trades: seq<Trade>) {
    forall i :: 0 <= i && i + 1 < |trades| && i % 2 == 0 ==> trades[i + 1].capital > trades[i].capital
  }

  lemma {:induction false} AllPairsWin(trades: seq<Trade>)
    requires EveryPairWins(trades)
    ensures PairWins(trades) == |trades| / 2
    decreases |trades|
  {
    if |trades| >= 2 {
      var rest := trades[2..];
      forall i | 0 <= i && i + 1 < |rest| && i % 2 == 0
        ensures rest[i + 1].capital > rest[i].capital
      {
        assert rest[i] == trades[i + 2] && rest[i + 1] == trades[i + 3];
      }
      AllPairsWin(rest);
    }
  }

  /**
   * With positive proceeds every completed pair counts as a win: the SELL's
   * recorded cash is the BUY's recorded cash (already net of the purchase)
   * plus the proceeds, whatever the two prices were.
   */
  lemma RunPairsAllWin(bars: seq<Bar>, initialCapital: real, k: Costs)
    requires ValidBars(bars) && SaneCosts(k) && initialCapital >= 0.0
    ensures EveryPairWins(Run(bars, initialCapital, k).trades)
    ensures PairWins(Run(bars, initialCapital, k).trades) == |Run(bars, initialCapital, k).trades| / 2
  {
    RunClosesEverything(bars, initialCapital, k);
    var trades := Run(bars, initialCapital, k).trades;
    forall i | 0 <= i && i + 1 < |trades| && i % 2 == 0
      ensures trades[i + 1].capital > trades[i].capital
    {
      assert (i + 1) % 2 == 1;
      ProceedsSign(trades[i + 1].shares, trades[i + 1].price, k);
    }
    AllPairsWin(trades);
  }

  /** With every completed pair a win, the win rate is 100%. */
  lemma WinRateOfAllWins(trades: seq<Trade>)
    requires PairWins(trades) == |trades| / 2
    ensures |trades| >= 2 ==> WinRatePct(trades) == 100.0
  {
    if |trades| >= 2 {
      var pairs := (|trades| / 2) as real;
      assert PairWins(trades) as real == pairs && pairs > 0.0;
      DivSelf(pairs);
    }
  }

  /** The result of one backtest. */
  datatype Report = Report(
    initialCapital: real,
    finalCapital: real,
    totalReturn: real,
    sharpeRatio: real,
    maxDrawdown: real,
    totalTrades: nat,
    winRate: real,
    trades: seq<Trade>,
    equityCurve: seq<real>)

  /** `_calculate_metrics` */
  function CalculateMetrics(equity: seq<real>, trades: seq<Trade>, initialCapital: real, annualized: real): (r: Report)
    requires initialCapital != 0.0 && PositiveCurve(equity)
    ensures r.initialCapital == initialCapital
    ensures r.finalCapital == FinalCapital(equity, initialCapital)
    ensures r.totalTrades == |trades| && r.trades == trades && r.equityCurve == equity
    ensures r.totalReturn == TotalReturnPct(r.finalCapital, initialCapital)
    ensures r.sharpeRatio == SharpeRatio(Returns(equity), annualized)
    ensures r.maxDrawdown == MaxDrawdownPct(equity)
    ensures r.winRate == WinRatePct(trades)
    ensures r.maxDrawdown <= 0.0
    ensures r.maxDrawdown == 0.0 <==> NonDecreasing(equity)
    ensures 0.0 <= r.winRate <= 100.0
  {
    MaxDrawdownNonPositive(equity);
    MaxDrawdownZeroIff(equity);
    var final := FinalCapital(equity, initialCapital);
    Report(
      initialCapital,
      final,
      TotalReturnPct(final, initialCapital),
      SharpeRatio(Returns(equity), annualized),
      MaxDrawdownPct(equity),
      |trades|,
      WinRatePct(trades),
      trades,
      equity)
  }

  /** `Backtester.run`: simulate, force-close, then compute the metrics. */
  function Backtest(bars: seq<Bar>, initialCapital: real, k: Costs, annualized: real): (r: Report)
    requires ValidBars(bars) && SaneCosts(k) && initialCapital > 0.0
    ensures r.initialCapital == initialCapital
    ensures r.equityCurve == Simulate(bars, initialCapital, k).equity
    ensures r.trades == Run(bars, initialCapital, k).trades && r.totalTrades == |r.trades|
    ensures |r.equityCurve| == |bars|
    ensures PositiveCurve(r.equityCurve)
    ensures r.totalReturn == TotalReturnPct(r.finalCapital, initialCapital)
    ensures r.totalReturn > 0.0 <==> r.finalCapital > initialCapital
    ensures r.sharpeRatio == SharpeRatio(Returns(r.equityCurve), annualized)
    ensures r.maxDrawdown == MaxDrawdownPct(r.equityCurve)
    ensures r.maxDrawdown == 0.0 <==> NonDecreasing(r.equityCurve)
    ensures r.totalTrades % 2 == 0
    ensures Alternates(r.trades)
    ensures r.maxDrawdown <= 0.0
    ensures r.totalTrades > 0 ==> r.winRate == 100.0
    ensures r.finalCapital == (if |bars| == 0 then initialCapital else r.equityCurve[|bars| - 1])
  {
    SimulatePositive(bars, initialCapital, k);
    RunClosesEverything(bars, initialCapital, k);
    RunPairsAllWin(bars, initialCapital, k);
    var s := Run(bars, initialCapital, k);
    WinRateOfAllWins(s.trades);
    CalculateMetrics(s.equity, s.trades, initialCapital, annualized)
  }

  /**
   * A run without a buy signal reports no trades, a final capital equal to
   * the initial one, and zero return, drawdown, Sharpe ratio and win rate.
   */
  lemma IdleBacktest(bars: seq<Bar>, initialCapital: real, k: Costs, annualized: real)
    requires ValidBars(bars) && SaneCosts(k) && initialCapital > 0.0 && NoBuySignal(bars)
    ensures var r := Backtest(bars, initialCapital, k, annualized);
      && r.totalTrades == 0 && r.finalCapital == initialCapital && r.totalReturn == 0.0
      && r.maxDrawdown == 0.0 && r.sharpeRatio == 0.0 && r.winRate == 0.0
  {
    IdleSimulation(bars, initialCapital, k);
    var e := Simulate(bars, initialCapital, k).equity;
    SimulatePositive(bars, initialCapital, k);
    assert NonDecreasing(e);
    MaxDrawdownZeroIff(e);
    var rets := Returns(e);
    forall i | 0 <= i < |rets|
      ensures rets[i] == 0.0
    {
      DivSelf(initialCapital);
      assert rets[i] == e[i + 1] / e[i] - 1.0;
    }
    assert Constant(rets);
  }
}
