/**
 * The JavaScript numbers the store pages get from dividing by a value that
 * can be zero. Operands are exact reals; a division by zero follows IEEE
 * 754: a positive dividend gives +Infinity, a negative one -Infinity, and
 * zero over zero NaN, which compares false with everything.
 */
module Doubles {
  datatype Double = Finite(value: real) | PlusInfinity | MinusInfinity | NaN

  /** `x / d` */
  function Divide(x: real, d: real): (q: Double)
    ensures d != 0.0 ==> q.Finite? && q.value * d == x
    ensures d == 0.0 ==> (q == PlusInfinity <==> x > 0.0)
    ensures d == 0.0 ==> (q == MinusInfinity <==> x < 0.0)
    ensures d == 0.0 ==> (q == NaN <==> x == 0.0)
  {
    if d != 0.0 then Finite(x / d)
    else if x > 0.0 then PlusInfinity
    else if x < 0.0 then MinusInfinity
    else NaN
  }

  /** `q * k` for a positive constant `k`: the infinities and NaN stay what they are. */
  function Times(q: Double, k: real): (r: Double)
    requires k > 0.0
    ensures r.Finite? <==> q.Finite?
    ensures q.Finite? ==> r.value == q.value * k
    ensures !q.Finite? ==> r == q
  {
    if q.Finite? then Finite(q.value * k) else q
  }
}
