/**
 * The confirmed multi-indicator rule: buy only when the RSI is oversold,
 * the MACD crosses above its signal line and volume is above its average,
 * all on the same bar; sell when either the RSI is overbought or the MACD
 * crosses below. The sell is written last and wins a tie. RSI, MACD,
 * signal line and volume average are inputs.
 */
module MultiIndicator {
  import opened Wrappers
  import opened Params
  import opened Series

  const Defaults: ParamMap := map[
    "rsi_period" := 14.0, "rsi_oversold" := 30.0, "rsi_overbought" := 70.0,
    "macd_fast" := 12.0, "macd_slow" := 26.0, "macd_signal" := 9.0, "volume_period" := 20.0]

  /** The constructor's parameters: the caller's values over the defaults. */
  function Configure(user: ParamMap): (r: ParamMap)
    ensures Defaults.Keys <= r.Keys
    ensures forall k :: k in user ==> k in r && r[k] == user[k]
    ensures forall k :: k in Defaults && k !in user ==> r[k] == Defaults[k]
  {
    Merge(Defaults, user)
  }

  /** The indicator columns the rule reads, all of one length. */
  datatype Inputs = Inputs(rsi: Column, macd: Column, macdSignal: Column, volume: seq<real>, volumeMa: Column)

  predicate WellFormed(x: Inputs) {
    |x.rsi| == |x.macd| == |x.macdSignal| == |x.volume| == |x.volumeMa|
  }

  /** All four buy conditions at t. */
  predicate BuyAt(x: Inputs, oversold: real, t: nat)
    requires WellFormed(x) && t < |x.rsi|
  {
    && Lt(x.rsi[t], Some(oversold))
    && CrossAbove(x.macd, x.macdSignal, t)
    && Gt(Some(x.volume[t]), x.volumeMa[t])
  }

  /** Either sell condition at t. */
  predicate SellAt(x: Inputs, overbought: real, t: nat)
    requires WellFormed(x) && t < |x.rsi|
  {
    Gt(x.rsi[t], Some(overbought)) || CrossBelow(x.macd, x.macdSignal, t)
  }

  /** `generate_signals` with the configured RSI levels. */
  function GenerateSignals(x: Inputs, params: ParamMap): (r: seq<int>)
    requires WellFormed(x) && Defaults.Keys <= params.Keys
    ensures |r| == |x.rsi|
    ensures forall t :: 0 <= t < |r| ==> IsSignal(r[t])
    ensures forall t :: 0 <= t < |r| ==> (r[t] == -1 <==> SellAt(x, params["rsi_overbought"], t))
    ensures forall t :: 0 <= t < |r| ==>
      (r[t] == 1 <==> BuyAt(x, params["rsi_oversold"], t) && !SellAt(x, params["rsi_overbought"], t))
  {
    var n := |x.rsi|;
    BuyThenSell(seq(n, t requires 0 <= t < n => BuyAt(x, params["rsi_oversold"], t)),
                seq(n, t requires 0 <= t < n => SellAt(x, params["rsi_overbought"], t)))
  }

  /** Bar 0 can still sell on an overbought RSI, but it never buys. */
  lemma FirstBarNeverBuys(x: Inputs, params: ParamMap)
    requires WellFormed(x) && Defaults.Keys <= params.Keys && |x.rsi| > 0
    ensures GenerateSignals(x, params)[0] != 1
  {
  }

  /**
   * With the oversold level at or below the overbought one a buy bar
   * cannot also sell, so a buy is exactly the four conditions.
   */
  lemma OrderedLevelsNeverTie(x: Inputs, params: ParamMap, t: nat)
    requires WellFormed(x) && Defaults.Keys <= params.Keys && t < |x.rsi|
    requires params["rsi_oversold"] <= params["rsi_overbought"]
    ensures GenerateSignals(x, params)[t] == 1 <==> BuyAt(x, params["rsi_oversold"], t)
  {
    CrossingsExclusive(x.macd, x.macdSignal, t);
  }

  /**
   * With the levels reversed a bar can meet every buy condition and still
   * sell: oversold 70, overbought 30, an RSI of 50, a MACD crossing up and
   * volume above average.
   */
  lemma ReversedLevelsSellOverBuy()
    ensures var params := Configure(map["rsi_oversold" := 70.0, "rsi_overbought" := 30.0]);
      var x := Inputs([None, Some(50.0)], [Some(0.0), Some(1.0)], [Some(0.0), Some(0.0)],
                      [1.0, 2.0], [None, Some(1.0)]);
      BuyAt(x, 70.0, 1) && GenerateSignals(x, params)[1] == -1
  {
    var params := Configure(map["rsi_oversold" := 70.0, "rsi_overbought" := 30.0]);
    assert params["rsi_overbought"] == 30.0;
  }

  /** `validate_params`: only the RSI period is checked; a missing key reads 0. */
  function ValidateParams(params: ParamMap): (r: bool)
    ensures r <==> Get(params, "rsi_period", 0.0) > 0.0
  {
    Get(params, "rsi_period", 0.0) > 0.0
  }

  lemma DefaultsValid()
    ensures ValidateParams(Configure(map[]))
  {
    MergeEmpty(Defaults);
  }
}
