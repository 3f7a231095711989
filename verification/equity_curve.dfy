/**
 * Drawdown arithmetic on an equity curve: the running maximum
 * (`expanding().max()`), the per-point drawdown against it and the
 * NaN-skipping minimum pandas takes of those drawdowns.
 */
module EquityCurve {
  import opened Wrappers
  import opened Numeric

  predicate NonNegative(e: seq<real>) {
    forall i :: 0 <= i < |e| ==> e[i] >= 0.0
  }

  predicate NonDecreasing(e: seq<real>) {
    forall i, j :: 0 <= i < j < |e| ==> e[i] <= e[j]
  }

  /** The highest value among e[0..i]. */
  function RunningMax(e: seq<real>, i: nat): (r: real)
    requires i < |e|
    ensures forall k :: 0 <= k <= i ==> e[k] <= r
    ensures exists k :: 0 <= k <= i && e[k] == r
    decreases i
  {
    if i == 0 then e[0] else Max(RunningMax(e, i - 1), e[i])
  }

  /** `(e - running_max) / running_max` at i; 0/0 is NaN. */
  function DrawdownAt(e: seq<real>, i: nat): Option<real>
    requires i < |e|
  {
    var peak := RunningMax(e, i);
    if peak == 0.0 then None else Some((e[i] - peak) / peak)
  }

  function Drawdowns(e: seq<real>): (r: seq<Option<real>>)
    ensures |r| == |e|
    ensures forall i :: 0 <= i < |e| ==> r[i] == DrawdownAt(e, i)
  {
    seq(|e|, i requires 0 <= i < |e| => DrawdownAt(e, i))
  }

  /** `Series.min()`: the least defined value, NaN when none is defined. */
  function MinDefined(xs: seq<Option<real>>): (r: Option<real>)
    ensures r.None? <==> forall i :: 0 <= i < |xs| ==> xs[i].None?
    ensures r.Some? ==> exists i :: 0 <= i < |xs| && xs[i] == r
    ensures r.Some? ==> forall i :: 0 <= i < |xs| && xs[i].Some? ==> r.value <= xs[i].value
    decreases |xs|
  {
    if |xs| == 0 then None
    else
      var rest := MinDefined(xs[1..]);
      assert forall i :: 1 <= i < |xs| ==> xs[i] == xs[1..][i - 1];
      if xs[0].None? then rest
      else if rest.None? then xs[0]
      else Some(Min(xs[0].value, rest.value))
  }

  /** `drawdown.min() * 100`, with NaN (no defined drawdown) reported as 0.0. */
  function MaxDrawdownPct(e: seq<real>): real
  {
    match MinDefined(Drawdowns(e))
    case None => 0.0
    case Some(m) => m * 100.0
  }

  /** The drawdown at any point of a non-negative curve is at most zero. */
  lemma DrawdownAtNonPositive(e: seq<real>, i: nat)
    requires NonNegative(e) && i < |e|
    ensures DrawdownAt(e, i).Some? ==> DrawdownAt(e, i).value <= 0.0
  {
    var peak := RunningMax(e, i);
    if peak != 0.0 {
      var k :| 0 <= k <= i && e[k] == peak;
      assert peak > 0.0;
      assert e[i] - peak <= 0.0;
    }
  }

  /** The reported maximum drawdown is never positive. */
  lemma MaxDrawdownNonPositive(e: seq<real>)
    requires NonNegative(e)
    ensures MaxDrawdownPct(e) <= 0.0
  {
    var m := MinDefined(Drawdowns(e));
    if m.Some? {
      var i :| 0 <= i < |e| && Drawdowns(e)[i] == m;
      DrawdownAtNonPositive(e, i);
    }
  }

  /** A curve that never falls is its own running maximum. */
  lemma {:induction false} RunningMaxOfNonDecreasing(e: seq<real>, i: nat)
    requires NonDecreasing(e) && i < |e|
    ensures RunningMax(e, i) == e[i]
  {
    if i > 0 {
      RunningMaxOfNonDecreasing(e, i - 1);
    }
  }

  /** A curve that never falls has a maximum drawdown of zero. */
  lemma MaxDrawdownOfNonDecreasing(e: seq<real>)
    requires NonNegative(e) && NonDecreasing(e)
    ensures MaxDrawdownPct(e) == 0.0
  {
    var dd := Drawdowns(e);
    var m := MinDefined(dd);
    if m.Some? {
      var i :| 0 <= i < |dd| && dd[i] == m;
      NoDrawdownWhenNonDecreasing(e, i);
    }
  }

  lemma NoDrawdownWhenNonDecreasing(e: seq<real>, i: nat)
    requires NonDecreasing(e) && i < |e|
    ensures DrawdownAt(e, i).Some? ==> DrawdownAt(e, i).value == 0.0
  {
    RunningMaxOfNonDecreasing(e, i);
    var peak := RunningMax(e, i);
    assert e[i] - peak == 0.0;
  }

  /** A curve that falls somewhere has a strictly negative maximum drawdown. */
  lemma MaxDrawdownOfFall(e: seq<real>, i: nat, j: nat)
    requires NonNegative(e) && i < j < |e| && e[i] > e[j]
    ensures MaxDrawdownPct(e) < 0.0
  {
    var dd := Drawdowns(e);
    var peak := RunningMax(e, j);
    assert peak > 0.0;
    var d := (e[j] - peak) / peak;
    assert e[j] - peak < 0.0;
    assert d < 0.0;
    assert dd[j] == Some(d);
    var m := MinDefined(dd);
    assert m.Some? && m.value <= d;
  }

  /**
   * The maximum drawdown is zero exactly when equity never falls below its
   * running peak, that is, when the curve is non-decreasing.
   */
  lemma MaxDrawdownZeroIff(e: seq<real>)
    requires NonNegative(e)
    ensures MaxDrawdownPct(e) == 0.0 <==> NonDecreasing(e)
  {
    if NonDecreasing(e) {
      MaxDrawdownOfNonDecreasing(e);
    } else {
      var i, j :| 0 <= i < j < |e| && e[i] > e[j];
      MaxDrawdownOfFall(e, i, j);
    }
  }
}
