/** The month-over-month change used by both the trend and the spike pass:
    `((current - previous) / previous) * 100`. */
module Percent {

  /** The change from `base` to `current`, as a percentage of `base`. */
  function ChangePercent(current: real, base: real): (r: real)
    requires base != 0.0
    ensures r == 0.0 <==> current == base
    ensures base > 0.0 ==> (r > 0.0 <==> current > base)
  {
    var q := (current - base) / base;
    assert q * base == current - base;
    q * 100.0
  }

  /** Over a positive base the percentage scales back to the difference. */
  lemma ChangeTimesBase(current: real, base: real)
    requires base > 0.0
    ensures ChangePercent(current, base) * base == (current - base) * 100.0
  {
    var q := (current - base) / base;
    assert q * base == current - base;
  }

  /** A change strictly above `bound` percent, stated without division. */
  lemma ChangeAbove(current: real, base: real, bound: real)
    requires base > 0.0
    ensures ChangePercent(current, base) > bound <==> current * 100.0 > base * (100.0 + bound)
  {
    var c := ChangePercent(current, base);
    ChangeTimesBase(current, base);
    ScalePositive(bound, c, base);
  }

  /** A change strictly below `bound` percent, stated without division. */
  lemma ChangeBelow(current: real, base: real, bound: real)
    requires base > 0.0
    ensures ChangePercent(current, base) < bound <==> current * 100.0 < base * (100.0 + bound)
  {
    var c := ChangePercent(current, base);
    ChangeTimesBase(current, base);
    ScalePositive(c, bound, base);
  }

  lemma ScalePositive(x: real, y: real, p: real)
    requires p > 0.0
    ensures x < y <==> x * p < y * p
  {
  }
}
