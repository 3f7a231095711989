/**
 * The Bollinger band-touch rule: buy when the close reaches the lower band
 * coming from above it, sell when it reaches the upper band coming from
 * below it; the sell is written last. The bands are inputs.
 */
module BollingerBands {
  import opened Wrappers
  import opened Params
  import opened Series

  const Defaults: ParamMap := map["period" := 20.0, "std_dev" := 2.0]

  /** The constructor's parameters: the caller's values over the defaults. */
  function Configure(user: ParamMap): (r: ParamMap)
    ensures Defaults.Keys <= r.Keys
    ensures forall k :: k in user ==> k in r && r[k] == user[k]
    ensures forall k :: k in Defaults && k !in user ==> r[k] == Defaults[k]
  {
    Merge(Defaults, user)
  }

  /** At or below the lower band now, strictly above it on the previous bar. */
  predicate TouchLower(close: seq<real>, lower: Column, t: nat)
    requires |close| == |lower| && t < |close|
  {
    Le(Some(close[t]), lower[t]) && Gt(Prev(Lift(close), t), Prev(lower, t))
  }

  /** At or above the upper band now, strictly below it on the previous bar. */
  predicate TouchUpper(close: seq<real>, upper: Column, t: nat)
    requires |close| == |upper| && t < |close|
  {
    Ge(Some(close[t]), upper[t]) && Lt(Prev(Lift(close), t), Prev(upper, t))
  }

  /** `generate_signals` on the close and the two bands. */
  function GenerateSignals(close: seq<real>, lower: Column, upper: Column): (r: seq<int>)
    requires |close| == |lower| == |upper|
    ensures |r| == |close|
    ensures forall t :: 0 <= t < |r| ==> IsSignal(r[t])
    ensures forall t :: 0 <= t < |r| ==> (r[t] == -1 <==> TouchUpper(close, upper, t))
    ensures forall t :: 0 <= t < |r| ==>
      (r[t] == 1 <==> TouchLower(close, lower, t) && !TouchUpper(close, upper, t))
  {
    var n := |close|;
    BuyThenSell(seq(n, t requires 0 <= t < n => TouchLower(close, lower, t)),
                seq(n, t requires 0 <= t < n => TouchUpper(close, upper, t)))
  }

  /** A bar whose bands are undefined, or bar 0, holds. */
  lemma QuietWithoutBands(close: seq<real>, lower: Column, upper: Column, t: nat)
    requires |close| == |lower| == |upper| && t < |close|
    requires t == 0 || (lower[t].None? && upper[t].None?)
    ensures GenerateSignals(close, lower, upper)[t] == 0
  {
  }

  /**
   * Both touches on one bar need `upper <= close <= lower`, so they can
   * only meet where the bands coincide; on a bar whose lower band lies
   * strictly below the upper one a buy is exactly a lower-band touch.
   */
  lemma SeparatedBandsNeverTie(close: seq<real>, lower: Column, upper: Column, t: nat)
    requires |close| == |lower| == |upper| && t < |close|
    requires lower[t].Some? && upper[t].Some? && lower[t].value < upper[t].value
    ensures GenerateSignals(close, lower, upper)[t] == 1 <==> TouchLower(close, lower, t)
  {
  }

  /** `validate_params`: a positive period and a positive multiplier; missing keys read 0. */
  function ValidateParams(params: ParamMap): (r: bool)
    ensures r <==> Get(params, "period", 0.0) > 0.0 && Get(params, "std_dev", 0.0) > 0.0
  {
    if Get(params, "period", 0.0) <= 0.0 then false
    else if Get(params, "std_dev", 0.0) <= 0.0 then false
    else true
  }

  lemma DefaultsValid()
    ensures ValidateParams(Configure(map[]))
  {
    MergeEmpty(Defaults);
  }
}
