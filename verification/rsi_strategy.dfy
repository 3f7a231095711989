/**
 * The RSI threshold rule: buy when the RSI climbs back above the oversold
 * level, sell when it drops back below the overbought level. The sell is
 * written last, and the two crossings never coincide. The RSI series is
 * an input.
 */
module RsiStrategy {
  import opened Wrappers
  import opened Params
  import opened Series

  const Defaults: ParamMap := map["period" := 14.0, "oversold" := 30.0, "overbought" := 70.0]

  /** The constructor's parameters: the caller's values over the defaults. */
  function Configure(user: ParamMap): (r: ParamMap)
    ensures Defaults.Keys <= r.Keys
    ensures forall k :: k in user ==> k in r && r[k] == user[k]
    ensures forall k :: k in Defaults && k !in user ==> r[k] == Defaults[k]
  {
    Merge(Defaults, user)
  }

  /** RSI crosses above the oversold level at t. */
  predicate BuyAt(rsi: Column, oversold: real, t: nat)
    requires t < |rsi|
  {
    CrossAbove(rsi, Const(|rsi|, oversold), t)
  }

  /** RSI crosses below the overbought level at t. */
  predicate SellAt(rsi: Column, overbought: real, t: nat)
    requires t < |rsi|
  {
    CrossBelow(rsi, Const(|rsi|, overbought), t)
  }

  /** `generate_signals` with the configured thresholds. */
  function GenerateSignals(rsi: Column, params: ParamMap): (r: seq<int>)
    requires Defaults.Keys <= params.Keys
    ensures |r| == |rsi|
    ensures forall t :: 0 <= t < |r| ==> IsSignal(r[t])
    ensures forall t :: 0 <= t < |r| ==> (r[t] == 1 <==> BuyAt(rsi, params["oversold"], t))
    ensures forall t :: 0 <= t < |r| ==> (r[t] == -1 <==> SellAt(rsi, params["overbought"], t))
  {
    var n := |rsi|;
    var buy := seq(n, t requires 0 <= t < n => BuyAt(rsi, params["oversold"], t));
    var sell := seq(n, t requires 0 <= t < n => SellAt(rsi, params["overbought"], t));
    forall t | 0 <= t < n
      ensures !(buy[t] && sell[t])
    {
      RulesNeverTie(rsi, params["oversold"], params["overbought"], t);
    }
    BuyThenSell(buy, sell)
  }

  /** Bar 0 has no previous RSI and always holds. */
  lemma FirstBarHolds(rsi: Column, params: ParamMap)
    requires Defaults.Keys <= params.Keys && |rsi| > 0
    ensures GenerateSignals(rsi, params)[0] == 0
  {
  }

  /**
   * The two rules never meet on a bar: that would need the current RSI
   * strictly between oversold and overbought and the previous one between
   * overbought and oversold, which no pair of levels allows.
   */
  lemma RulesNeverTie(rsi: Column, oversold: real, overbought: real, t: nat)
    requires t < |rsi|
    ensures !(BuyAt(rsi, oversold, t) && SellAt(rsi, overbought, t))
  {
  }

  /**
   * `validate_params`. The final check `oversold < overbought` can never
   * fail once both range checks passed, so validity is the two ranges and
   * a positive period.
   */
  function ValidateParams(params: ParamMap): (r: bool)
    ensures r <==> Get(params, "period", 0.0) > 0.0
                   && 0.0 < Get(params, "oversold", 0.0) < 50.0
                   && 50.0 < Get(params, "overbought", 0.0) < 100.0
  {
    var period := Get(params, "period", 0.0);
    var oversold := Get(params, "oversold", 0.0);
    var overbought := Get(params, "overbought", 0.0);
    if period <= 0.0 then false
    else if oversold <= 0.0 || oversold >= 50.0 then false
    else if overbought <= 50.0 || overbought >= 100.0 then false
    else if oversold >= overbought then false
    else true
  }

  lemma DefaultsValid()
    ensures ValidateParams(Configure(map[]))
  {
    MergeEmpty(Defaults);
  }
}
