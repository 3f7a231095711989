/**
 * Risk sizing arithmetic: how many units to buy, where to put the stop
 * and the target, whether the current drawdown is still acceptable, and
 * the half-Kelly fraction of capital to commit.
 */
module RiskManager {
  import opened Wrappers
  import opened Numeric
  import opened EquityCurve

  /** The three limits a risk manager is built with. */
  datatype Limits = Limits(maxPositionSize: real, maxRiskPerTrade: real, maxDrawdown: real)

  /** The constructor's defaults: the whole capital, 2% risk per trade, 20% drawdown. */
  const DefaultLimits := Limits(1.0, 0.02, 0.20)

  /** A stop is used only when it is set, non-zero and below the entry. */
  predicate StopApplies(entryPrice: real, stopLoss: Option<real>) {
    stopLoss.Some? && stopLoss.value != 0.0 && stopLoss.value < entryPrice
  }

  /** The most capital one position may take. */
  function PositionBudget(lim: Limits, capital: real): real {
    capital * lim.maxPositionSize
  }

  /** The most capital one trade may lose. */
  function RiskBudget(lim: Limits, capital: real): real {
    capital * lim.maxRiskPerTrade
  }

  /** Units the position budget buys: `int(max_position_value / entry_price)`. */
  function BudgetUnits(lim: Limits, capital: real, entryPrice: real): int
    requires entryPrice != 0.0
  {
    Trunc(PositionBudget(lim, capital) / entryPrice)
  }

  /** Units the risk budget allows: `int(max_risk / (entry_price - stop))`. */
  function RiskUnits(lim: Limits, capital: real, entryPrice: real, stop: real): int
    requires stop < entryPrice
  {
    Trunc(RiskBudget(lim, capital) / (entryPrice - stop))
  }

  /**
   * `calculate_position_size`: the budget's units, capped by the risk
   * budget when a stop applies, and never fewer than one. A zero entry
   * price raises a division by zero.
   */
  function PositionSize(lim: Limits, capital: real, entryPrice: real, stopLoss: Option<real>): (r: Result<int, string>)
    ensures r.Failure? <==> entryPrice == 0.0
    ensures r.Success? ==> r.value >= 1
    ensures r.Success? && !StopApplies(entryPrice, stopLoss) ==>
              r.value == (if BudgetUnits(lim, capital, entryPrice) >= 1 then BudgetUnits(lim, capital, entryPrice) else 1)
    ensures r.Success? && StopApplies(entryPrice, stopLoss) ==>
              r.value <= BudgetUnits(lim, capital, entryPrice) || r.value == 1
    ensures r.Success? && StopApplies(entryPrice, stopLoss) ==>
              r.value <= RiskUnits(lim, capital, entryPrice, stopLoss.value) || r.value == 1
    ensures r.Success? && StopApplies(entryPrice, stopLoss) ==>
              var b, k := BudgetUnits(lim, capital, entryPrice), RiskUnits(lim, capital, entryPrice, stopLoss.value);
              (b >= 1 && k >= 1 ==> r.value <= b && r.value <= k && (r.value == b || r.value == k)) && (b < 1 || k < 1 ==> r.value == 1)
  {
    if entryPrice == 0.0 then Failure("division by zero")
    else
      var base := BudgetUnits(lim, capital, entryPrice);
      var size :=
        if StopApplies(entryPrice, stopLoss) then
          var capped := RiskUnits(lim, capital, entryPrice, stopLoss.value);
          if base <= capped then base else capped
        else base;
      Success(if size >= 1 then size else 1)
  }

  /** Apart from the floor of one unit, the position never spends more than the position budget. */
  lemma WithinPositionBudget(lim: Limits, capital: real, entryPrice: real, stopLoss: Option<real>)
    requires entryPrice > 0.0
    ensures var n := PositionSize(lim, capital, entryPrice, stopLoss).value;
      n == 1 || n as real * entryPrice <= PositionBudget(lim, capital)
  {
    var n := PositionSize(lim, capital, entryPrice, stopLoss).value;
    var m := BudgetUnits(lim, capital, entryPrice);
    SizingWithinCash(PositionBudget(lim, capital), entryPrice);
    if n != 1 {
      assert n <= m && m > 0;
      Scale(n, m, entryPrice);
    }
  }

  /** Apart from the floor of one unit, a position with a stop never risks more than the risk budget. */
  lemma WithinRiskBudget(lim: Limits, capital: real, entryPrice: real, stopLoss: Option<real>)
    requires entryPrice > 0.0 && StopApplies(entryPrice, stopLoss)
    ensures var n := PositionSize(lim, capital, entryPrice, stopLoss).value;
      n == 1 || n as real * (entryPrice - stopLoss.value) <= RiskBudget(lim, capital)
  {
    var n := PositionSize(lim, capital, entryPrice, stopLoss).value;
    var risk := entryPrice - stopLoss.value;
    var m := RiskUnits(lim, capital, entryPrice, stopLoss.value);
    SizingWithinCash(RiskBudget(lim, capital), risk);
    if n != 1 {
      assert n <= m && m > 0;
      Scale(n, m, risk);
    }
  }

  /** Fewer units cost less at a positive unit price. */
  lemma Scale(n: int, m: int, unit: real)
    requires n <= m && unit > 0.0
    ensures n as real * unit <= m as real * unit
  {
  }

  /**
   * `calculate_stop_loss`: `atr_multiplier` ATRs below the entry when an
   * ATR is given and non-zero, else `percentage` below it.
   */
  function StopLoss(entryPrice: real, atr: Option<real>, atrMultiplier: real, percentage: real): (r: real)
    ensures atr.Some? && atr.value != 0.0 ==> entryPrice - r == atr.value * atrMultiplier
    ensures atr.None? || atr.value == 0.0 ==> entryPrice - r == entryPrice * percentage
  {
    if atr.Some? && atr.value != 0.0 then entryPrice - atr.value * atrMultiplier
    else entryPrice * (1.0 - percentage)
  }

  /** The stop lies below a positive entry whenever its distance is positive. */
  lemma StopBelowEntry(entryPrice: real, atr: Option<real>, atrMultiplier: real, percentage: real)
    requires entryPrice > 0.0 && percentage > 0.0
    requires atr.Some? && atr.value != 0.0 ==> atr.value * atrMultiplier > 0.0
    ensures StopLoss(entryPrice, atr, atrMultiplier, percentage) < entryPrice
  {
    if atr.None? || atr.value == 0.0 {
      assert entryPrice * percentage > 0.0;
    }
  }

  /** `calculate_take_profit`: the target sits `risk_reward_ratio` risks above the entry. */
  function TakeProfit(entryPrice: real, stopLoss: real, riskRewardRatio: real): (r: real)
    ensures r - entryPrice == riskRewardRatio * (entryPrice - stopLoss)
  {
    entryPrice + (entryPrice - stopLoss) * riskRewardRatio
  }

  /**
   * With a stop below the entry and a positive ratio the target is above
   * the entry, and the reward it offers over the risk taken is the ratio.
   */
  lemma TargetAboveEntry(entryPrice: real, stopLoss: real, riskRewardRatio: real)
    requires stopLoss < entryPrice && riskRewardRatio > 0.0
    ensures TakeProfit(entryPrice, stopLoss, riskRewardRatio) > entryPrice
    ensures (TakeProfit(entryPrice, stopLoss, riskRewardRatio) - entryPrice) / (entryPrice - stopLoss) == riskRewardRatio
  {
    var risk := entryPrice - stopLoss;
    assert risk * riskRewardRatio > 0.0;
    DivSelf(risk);
    assert (riskRewardRatio * risk) / risk == riskRewardRatio * (risk / risk);
  }

  /**
   * `check_drawdown`: an empty curve is fine; otherwise the last point's
   * drawdown from the running peak must be smaller than the limit. A zero
   * peak makes the drawdown NaN, which compares false.
   */
  function CheckDrawdown(lim: Limits, equity: seq<real>): (r: bool)
    ensures |equity| == 0 ==> r
    ensures |equity| > 0 && RunningMax(equity, |equity| - 1) == 0.0 ==> !r
  {
    if |equity| == 0 then true
    else match DrawdownAt(equity, |equity| - 1)
      case None => false
      case Some(d) => Abs(d) < lim.maxDrawdown
  }

  /**
   * On a positive curve the check passes exactly when the last value is
   * above the peak scaled down by the limit.
   */
  lemma CheckDrawdownIff(lim: Limits, equity: seq<real>)
    requires |equity| > 0
    requires forall i :: 0 <= i < |equity| ==> equity[i] > 0.0
    ensures CheckDrawdown(lim, equity)
            <==> equity[|equity| - 1] > RunningMax(equity, |equity| - 1) * (1.0 - lim.maxDrawdown)
  {
    var last := |equity| - 1;
    var peak := RunningMax(equity, last);
    var x := equity[last];
    assert peak >= x > 0.0;
    var d := (x - peak) / peak;
    assert DrawdownAt(equity, last) == Some(d);
    DrawdownScaled(x, peak, lim.maxDrawdown);
  }

  lemma DrawdownScaled(x: real, peak: real, m: real)
    requires peak >= x && peak > 0.0
    ensures Abs((x - peak) / peak) < m <==> x > peak * (1.0 - m)
  {
    var d := (x - peak) / peak;
    assert d * peak == x - peak;
    assert d <= 0.0;
    assert Abs(d) == -d;
    if -d < m {
      assert -d * peak < m * peak;
    } else {
      assert -d * peak >= m * peak;
    }
  }

  /** A curve standing at its peak always passes a positive limit. */
  lemma AtPeakPasses(lim: Limits, equity: seq<real>)
    requires |equity| > 0 && lim.maxDrawdown > 0.0
    requires forall i :: 0 <= i < |equity| ==> equity[i] > 0.0
    requires equity[|equity| - 1] == RunningMax(equity, |equity| - 1)
    ensures CheckDrawdown(lim, equity)
  {
    CheckDrawdownIff(lim, equity);
    var peak := RunningMax(equity, |equity| - 1);
    assert peak * (1.0 - lim.maxDrawdown) == peak - peak * lim.maxDrawdown;
    assert peak * lim.maxDrawdown > 0.0;
  }

  /**
   * `calculate_kelly_criterion`: 0 without losses; otherwise half the
   * Kelly fraction clamped to [0, max_position_size]. A zero average win
   * makes the win/loss ratio zero and the division by it raises.
   */
  function Kelly(lim: Limits, winRate: real, avgWin: real, avgLoss: real): (r: Result<real, string>)
    ensures r.Failure? <==> avgLoss != 0.0 && avgWin == 0.0
    ensures avgLoss == 0.0 ==> r == Success(0.0)
    ensures r.Success? ==> 0.0 <= r.value && (r.value == 0.0 || r.value <= lim.maxPositionSize)
    ensures avgLoss != 0.0 && avgWin != 0.0 ==>
              r == Success(Max(0.0, Min(0.5 * ((winRate * avgWin - (1.0 - winRate) * avgLoss) / avgWin), lim.maxPositionSize)))
  {
    KellyForm(winRate, avgWin, avgLoss);
    if avgLoss == 0.0 then Success(0.0)
    else
      var ratio := avgWin / avgLoss;
      if ratio == 0.0 then Failure("division by zero")
      else
        var kelly := (winRate * ratio - (1.0 - winRate)) / ratio;
        Success(Max(0.0, Min(kelly * 0.5, lim.maxPositionSize)))
  }

  /** The Kelly fraction over the win/loss ratio equals the edge over the average win. */
  lemma KellyForm(w: real, avgWin: real, avgLoss: real)
    ensures avgLoss != 0.0 && avgWin / avgLoss != 0.0 ==>
              (w * (avgWin / avgLoss) - (1.0 - w)) / (avgWin / avgLoss) == (w * avgWin - (1.0 - w) * avgLoss) / avgWin
  {
    if avgLoss != 0.0 && avgWin / avgLoss != 0.0 {
      var ratio := avgWin / avgLoss;
      assert ratio * avgLoss == avgWin;
      var e := w * ratio - (1.0 - w);
      var q := e / ratio;
      assert q * ratio == e;
      assert e * avgLoss == w * avgWin - (1.0 - w) * avgLoss;
      assert q * avgWin == q * ratio * avgLoss;
      assert q * avgWin == w * avgWin - (1.0 - w) * avgLoss;
    }
  }

  /**
   * With positive averages the fraction is zero exactly when the edge
   * `win_rate * avg_win - (1 - win_rate) * avg_loss` is not positive
   * (given a positive cap); otherwise it is half the Kelly fraction, capped.
   */
  lemma KellyEdge(lim: Limits, winRate: real, avgWin: real, avgLoss: real)
    requires avgWin > 0.0 && avgLoss > 0.0 && lim.maxPositionSize > 0.0
    ensures Kelly(lim, winRate, avgWin, avgLoss).value == 0.0
            <==> winRate * avgWin - (1.0 - winRate) * avgLoss <= 0.0
  {
    var ratio := avgWin / avgLoss;
    assert ratio * avgLoss == avgWin;
    assert ratio > 0.0;
    var kelly := (winRate * ratio - (1.0 - winRate)) / ratio;
    KellySign(winRate, ratio, avgLoss);
    assert kelly <= 0.0 <==> winRate * ratio - (1.0 - winRate) <= 0.0;
  }

  lemma KellySign(w: real, ratio: real, avgLoss: real)
    requires ratio > 0.0 && avgLoss > 0.0
    ensures (w * ratio - (1.0 - w)) / ratio <= 0.0 <==> w * ratio - (1.0 - w) <= 0.0
    ensures w * ratio - (1.0 - w) <= 0.0 <==> (w * ratio - (1.0 - w)) * avgLoss <= 0.0
    ensures (w * ratio - (1.0 - w)) * avgLoss == w * (ratio * avgLoss) - (1.0 - w) * avgLoss
  {
    var e := w * ratio - (1.0 - w);
    var q := e / ratio;
    assert q * ratio == e;
    if q <= 0.0 {
      assert q * ratio <= 0.0;
    } else {
      assert q * ratio > 0.0;
    }
    if e <= 0.0 {
      assert e * avgLoss <= 0.0;
    } else {
      assert e * avgLoss > 0.0;
    }
  }
}
