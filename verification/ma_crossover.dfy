/**
 * The moving-average crossover rule: buy on the bar where the fast average
 * rises strictly above the slow one, sell on the bar where it falls
 * strictly below. The averages themselves are inputs.
 */
module MaCrossover {
  import opened Wrappers
  import opened Params
  import opened Series

  const Defaults: ParamMap := map["fast_period" := 20.0, "slow_period" := 50.0]

  /** The constructor's parameters: the caller's values over the defaults. */
  function Configure(user: ParamMap): (r: ParamMap)
    ensures Defaults.Keys <= r.Keys
    ensures forall k :: k in user ==> k in r && r[k] == user[k]
    ensures forall k :: k in Defaults && k !in user ==> r[k] == Defaults[k]
  {
    Merge(Defaults, user)
  }

  /** `generate_signals` on the fast and slow averages. */
  function GenerateSignals(maFast: Column, maSlow: Column): (r: seq<int>)
    requires |maFast| == |maSlow|
    ensures |r| == |maFast|
    ensures forall t :: 0 <= t < |r| ==> IsSignal(r[t])
    ensures forall t :: 0 <= t < |r| ==> (r[t] == 1 <==> CrossAbove(maFast, maSlow, t))
    ensures forall t :: 0 <= t < |r| ==> (r[t] == -1 <==> CrossBelow(maFast, maSlow, t))
  {
    var n := |maFast|;
    var buy := seq(n, t requires 0 <= t < n => CrossAbove(maFast, maSlow, t));
    var sell := seq(n, t requires 0 <= t < n => CrossBelow(maFast, maSlow, t));
    forall t | 0 <= t < n
      ensures !(buy[t] && sell[t])
    {
      CrossingsExclusive(maFast, maSlow, t);
    }
    BuyThenSell(buy, sell)
  }

  /** Bar 0, and any bar where an average is still undefined, holds. */
  lemma QuietWithoutHistory(maFast: Column, maSlow: Column, t: nat)
    requires |maFast| == |maSlow| && t < |maFast|
    requires t == 0 || maFast[t].None? || maSlow[t].None?
    ensures GenerateSignals(maFast, maSlow)[t] == 0
  {
    NoCrossingWithoutHistory(maFast, maSlow, t);
  }

  /** The signal on a bar is the same whether or not later bars exist. */
  lemma NoLookAhead(maFast: Column, maSlow: Column, t: nat, n: nat)
    requires |maFast| == |maSlow| && t < n <= |maFast|
    ensures GenerateSignals(maFast[..n], maSlow[..n])[t] == GenerateSignals(maFast, maSlow)[t]
  {
    CrossingsIgnoreFuture(maFast, maSlow, t, n);
  }

  /** `validate_params`: both windows positive and the fast one shorter; missing keys read 0. */
  function ValidateParams(params: ParamMap): (r: bool)
    ensures r <==> 0.0 < Get(params, "fast_period", 0.0) < Get(params, "slow_period", 0.0)
  {
    var fast := Get(params, "fast_period", 0.0);
    var slow := Get(params, "slow_period", 0.0);
    if fast <= 0.0 || slow <= 0.0 then false
    else if fast >= slow then false
    else true
  }

  /** The defaults pass, and so does any configuration that keeps both windows. */
  lemma DefaultsValid(user: ParamMap)
    requires "fast_period" !in user && "slow_period" !in user
    ensures ValidateParams(Configure(user))
  {
  }
}
