/**
 * Indicator series as pandas sees them: one optional value per bar, `None`
 * standing for NaN. A comparison involving NaN is false, and `shift(1)`
 * reads NaN at bar 0.
 */
module Series {
  import opened Wrappers

  type Column = seq<Option<real>>

  predicate Gt(a: Option<real>, b: Option<real>) {
    a.Some? && b.Some? && a.value > b.value
  }

  predicate Ge(a: Option<real>, b: Option<real>) {
    a.Some? && b.Some? && a.value >= b.value
  }

  predicate Lt(a: Option<real>, b: Option<real>) {
    a.Some? && b.Some? && a.value < b.value
  }

  predicate Le(a: Option<real>, b: Option<real>) {
    a.Some? && b.Some? && a.value <= b.value
  }

  /** `x.shift(1)[t]` */
  function Prev(x: Column, t: nat): Option<real>
    requires t < |x|
  {
    if t == 0 then None else x[t - 1]
  }

  /** A column of a constant: comparing a column with a scalar threshold. */
  function Const(n: nat, c: real): (r: Column)
    ensures |r| == n
    ensures forall t :: 0 <= t < n ==> r[t] == Some(c)
  {
    seq(n, _ => Some(c))
  }

  /** `data['signal'] = 0` */
  function Zeros(n: nat): (r: seq<int>)
    ensures |r| == n
    ensures forall t :: 0 <= t < n ==> r[t] == 0
  {
    seq(n, _ => 0)
  }

  /** `data.loc[mask, 'signal'] = v`: every masked row is overwritten, the rest kept. */
  function Assign(sig: seq<int>, mask: seq<bool>, v: int): (r: seq<int>)
    requires |mask| == |sig|
    ensures |r| == |sig|
    ensures forall t :: 0 <= t < |sig| && mask[t] ==> r[t] == v
    ensures forall t :: 0 <= t < |sig| && !mask[t] ==> r[t] == sig[t]
  {
    seq(|sig|, t requires 0 <= t < |sig| => if mask[t] then v else sig[t])
  }

  /** Every value of a signal column is a buy, a sell or a hold. */
  predicate IsSignal(v: int) {
    v == -1 || v == 0 || v == 1
  }

  /**
   * The signal column built by zeroing, then assigning +1 under the buy
   * mask, then -1 under the sell mask: sell wins on overlap.
   */
  function BuyThenSell(buy: seq<bool>, sell: seq<bool>): (r: seq<int>)
    requires |buy| == |sell|
    ensures |r| == |buy|
    ensures forall t :: 0 <= t < |r| ==> IsSignal(r[t])
    ensures forall t :: 0 <= t < |r| ==> (r[t] == -1 <==> sell[t])
    ensures forall t :: 0 <= t < |r| ==> (r[t] == 1 <==> buy[t] && !sell[t])
    ensures forall t :: 0 <= t < |r| ==> (r[t] == 0 <==> !buy[t] && !sell[t])
  {
    Assign(Assign(Zeros(|buy|), buy, 1), sell, -1)
  }

  /** x crosses above y at t: strictly above now, at or below on the previous bar. */
  predicate CrossAbove(x: Column, y: Column, t: nat)
    requires |x| == |y| && t < |x|
  {
    Gt(x[t], y[t]) && Le(Prev(x, t), Prev(y, t))
  }

  /** x crosses below y at t: strictly below now, at or above on the previous bar. */
  predicate CrossBelow(x: Column, y: Column, t: nat)
    requires |x| == |y| && t < |x|
  {
    Lt(x[t], y[t]) && Ge(Prev(x, t), Prev(y, t))
  }

  /** Both crossings cannot happen on the same bar. */
  lemma CrossingsExclusive(x: Column, y: Column, t: nat)
    requires |x| == |y| && t < |x|
    ensures !(CrossAbove(x, y, t) && CrossBelow(x, y, t))
  {
  }

  /** No crossing on bar 0 or on a bar where either series is undefined. */
  lemma NoCrossingWithoutHistory(x: Column, y: Column, t: nat)
    requires |x| == |y| && t < |x|
    requires t == 0 || x[t].None? || y[t].None? || x[t-1].None? || y[t-1].None?
    ensures !CrossAbove(x, y, t) && !CrossBelow(x, y, t)
  {
  }

  /** A column read straight from the data, with no missing value. */
  function Lift(xs: seq<real>): (r: Column)
    ensures |r| == |xs|
    ensures forall t :: 0 <= t < |xs| ==> r[t] == Some(xs[t])
  {
    seq(|xs|, t requires 0 <= t < |xs| => Some(xs[t]))
  }

  /** Whether a crossing happened at t does not depend on any later bar. */
  lemma CrossingsIgnoreFuture(x: Column, y: Column, t: nat, n: nat)
    requires |x| == |y| && t < n <= |x|
    ensures CrossAbove(x[..n], y[..n], t) == CrossAbove(x, y, t)
    ensures CrossBelow(x[..n], y[..n], t) == CrossBelow(x, y, t)
  {
    assert x[..n][t] == x[t] && y[..n][t] == y[t];
    if t > 0 {
      assert x[..n][t - 1] == x[t - 1] && y[..n][t - 1] == y[t - 1];
    }
  }
}
