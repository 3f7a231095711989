/**
 * The MACD rule: buy when the MACD line crosses strictly above its signal
 * line, sell when it crosses strictly below. Both lines are inputs.
 */
module MacdStrategy {
  import opened Wrappers
  import opened Params
  import opened Series

  const Defaults: ParamMap := map["fast" := 12.0, "slow" := 26.0, "signal" := 9.0]

  /** The constructor's parameters: the caller's values over the defaults. */
  function Configure(user: ParamMap): (r: ParamMap)
    ensures Defaults.Keys <= r.Keys
    ensures forall k :: k in user ==> k in r && r[k] == user[k]
    ensures forall k :: k in Defaults && k !in user ==> r[k] == Defaults[k]
  {
    Merge(Defaults, user)
  }

  /** `generate_signals` on the MACD and signal lines. */
  function GenerateSignals(macd: Column, macdSignal: Column): (r: seq<int>)
    requires |macd| == |macdSignal|
    ensures |r| == |macd|
    ensures forall t :: 0 <= t < |r| ==> IsSignal(r[t])
    ensures forall t :: 0 <= t < |r| ==> (r[t] == 1 <==> CrossAbove(macd, macdSignal, t))
    ensures forall t :: 0 <= t < |r| ==> (r[t] == -1 <==> CrossBelow(macd, macdSignal, t))
  {
    var n := |macd|;
    var buy := seq(n, t requires 0 <= t < n => CrossAbove(macd, macdSignal, t));
    var sell := seq(n, t requires 0 <= t < n => CrossBelow(macd, macdSignal, t));
    forall t | 0 <= t < n
      ensures !(buy[t] && sell[t])
    {
      CrossingsExclusive(macd, macdSignal, t);
    }
    BuyThenSell(buy, sell)
  }

  /** Bar 0 always holds. */
  lemma FirstBarHolds(macd: Column, macdSignal: Column)
    requires |macd| == |macdSignal| && |macd| > 0
    ensures GenerateSignals(macd, macdSignal)[0] == 0
  {
    NoCrossingWithoutHistory(macd, macdSignal, 0);
  }

  /** `validate_params`: three positive periods, fast shorter than slow; missing keys read 0. */
  function ValidateParams(params: ParamMap): (r: bool)
    ensures r <==> 0.0 < Get(params, "fast", 0.0) < Get(params, "slow", 0.0)
                   && Get(params, "signal", 0.0) > 0.0
  {
    var fast := Get(params, "fast", 0.0);
    var slow := Get(params, "slow", 0.0);
    var signal := Get(params, "signal", 0.0);
    if fast <= 0.0 || slow <= 0.0 || signal <= 0.0 then false
    else if fast >= slow then false
    else true
  }

  lemma DefaultsValid()
    ensures ValidateParams(Configure(map[]))
  {
    MergeEmpty(Defaults);
  }
}
