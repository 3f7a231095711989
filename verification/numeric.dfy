/** Python's numeric built-ins on unbounded reals. */
module Numeric {

  /** `int(x)`: truncation toward zero. */
  function Trunc(x: real): (r: int)
    ensures x >= 0.0 ==> r == x.Floor
    ensures x >= 0.0 ==> r >= 0 && r as real <= x < r as real + 1.0
    ensures x < 0.0 ==> r <= 0 && x <= r as real
    ensures r > 0 ==> x >= 1.0
  {
    if x >= 0.0 then x.Floor else -((-x).Floor)
  }

  function Max(a: real, b: real): (r: real)
    ensures r >= a && r >= b && (r == a || r == b)
  {
    if a >= b then a else b
  }

  function Min(a: real, b: real): (r: real)
    ensures r <= a && r <= b && (r == a || r == b)
  {
    if a <= b then a else b
  }

  function Abs(x: real): (r: real)
    ensures r >= 0.0 && (r == x || r == -x)
  {
    if x >= 0.0 then x else -x
  }

  /** Whole units bought with `cash` at `unit` apiece never cost more than `cash`. */
  lemma SizingWithinCash(cash: real, unit: real)
    requires unit > 0.0
    ensures Trunc(cash / unit) > 0 ==> Trunc(cash / unit) as real * unit <= cash
    ensures Trunc(cash / unit) > 0 ==> cash >= unit
  {
    var q := cash / unit;
    assert q * unit == cash;
    if q >= 0.0 {
      var n := Trunc(q) as real;
      assert n <= q;
      assert n * unit <= q * unit;
      if Trunc(q) > 0 {
        assert 1.0 <= n;
        assert 1.0 * unit <= n * unit;
      }
    }
  }

  /** A non-zero quantity divided by itself is one. */
  lemma DivSelf(x: real)
    requires x != 0.0
    ensures x / x == 1.0
  {
  }
}
