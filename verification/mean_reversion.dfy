/**
 * The z-score mean-reversion rule: buy when the z-score drops below the
 * negative entry threshold, sell when it rises above the positive one,
 * and sell again when it climbs back above the negative exit level. The
 * three assignments run in that order, so a later one would override a
 * buy on the same bar; no bar ever meets a buy and a sell, so none does.
 * The z-score is an input.
 */
module MeanReversion {
  import opened Wrappers
  import opened Params
  import opened Series

  const Defaults: ParamMap := map["lookback_period" := 20.0, "entry_threshold" := 2.0, "exit_threshold" := 0.5]

  /** The constructor's parameters: the caller's values over the defaults. */
  function Configure(user: ParamMap): (r: ParamMap)
    ensures Defaults.Keys <= r.Keys
    ensures forall k :: k in user ==> k in r && r[k] == user[k]
    ensures forall k :: k in Defaults && k !in user ==> r[k] == Defaults[k]
  {
    Merge(Defaults, user)
  }

  /** z crosses below -entry: strictly below now, at or above before. */
  predicate EntryLow(z: Column, entry: real, t: nat)
    requires t < |z|
  {
    CrossBelow(z, Const(|z|, -entry), t)
  }

  /** z crosses above +entry: strictly above now, at or below before. */
  predicate EntryHigh(z: Column, entry: real, t: nat)
    requires t < |z|
  {
    CrossAbove(z, Const(|z|, entry), t)
  }

  /** z climbs back above -exit: strictly above now, at or below before. */
  predicate ExitLow(z: Column, exit: real, t: nat)
    requires t < |z|
  {
    CrossAbove(z, Const(|z|, -exit), t)
  }

  /** `generate_signals`: zero, then +1, then -1 twice, each under its mask. */
  function GenerateSignals(z: Column, params: ParamMap): (r: seq<int>)
    requires Defaults.Keys <= params.Keys
    ensures |r| == |z|
    ensures forall t :: 0 <= t < |r| ==> IsSignal(r[t])
    ensures forall t :: 0 <= t < |r| ==>
      (r[t] == -1 <==> EntryHigh(z, params["entry_threshold"], t) || ExitLow(z, params["exit_threshold"], t))
    ensures forall t :: 0 <= t < |r| ==> (r[t] == 1 <==> EntryLow(z, params["entry_threshold"], t))
  {
    var n := |z|;
    var entry := params["entry_threshold"];
    var exit := params["exit_threshold"];
    var buy := seq(n, t requires 0 <= t < n => EntryLow(z, entry, t));
    var sellHigh := seq(n, t requires 0 <= t < n => EntryHigh(z, entry, t));
    var sellBack := seq(n, t requires 0 <= t < n => ExitLow(z, exit, t));
    forall t | 0 <= t < n
      ensures !(buy[t] && (sellHigh[t] || sellBack[t]))
    {
      BuyNeverMeetsSell(z, entry, exit, t);
    }
    Assign(Assign(Assign(Zeros(n), buy, 1), sellHigh, -1), sellBack, -1)
  }

  /** Bar 0 holds. */
  lemma FirstBarHolds(z: Column, params: ParamMap)
    requires Defaults.Keys <= params.Keys && |z| > 0
    ensures GenerateSignals(z, params)[0] == 0
  {
  }

  /**
   * A downward cross of one level and an upward cross of another never
   * share a bar: the current z-score would lie strictly between the two
   * levels one way round and the previous one between them the other way.
   * So the buy never meets either sell, whatever the thresholds.
   */
  lemma BuyNeverMeetsSell(z: Column, entry: real, exit: real, t: nat)
    requires t < |z|
    ensures !(EntryLow(z, entry, t) && EntryHigh(z, entry, t))
    ensures !(EntryLow(z, entry, t) && ExitLow(z, exit, t))
  {
  }

  /** `validate_params`: only the lookback is checked; a missing key reads 0. */
  function ValidateParams(params: ParamMap): (r: bool)
    ensures r <==> Get(params, "lookback_period", 0.0) > 0.0
  {
    Get(params, "lookback_period", 0.0) > 0.0
  }

  lemma DefaultsValid()
    ensures ValidateParams(Configure(map[]))
  {
    MergeEmpty(Defaults);
  }
}
