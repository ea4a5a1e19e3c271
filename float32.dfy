/** The special values of f32 arithmetic that the noise sampler can reach:
  * a division by zero gives an infinity or NaN, and comparisons with NaN
  * are false. Finite values are exact reals (rounding is not modelled) and
  * the sign of zero is ignored. */
module Float32 {

  datatype Float = Fin(v: real) | NaN | Inf(positive: bool)

  function Neg(a: Float): Float
  {
    match a
    case Fin(v) => Fin(-v)
    case NaN => NaN
    case Inf(p) => Inf(!p)
  }

  function Add(a: Float, b: Float): (r: Float)
    ensures a.Fin? && b.Fin? ==> r == Fin(a.v + b.v)
    ensures a.NaN? || b.NaN? ==> r.NaN?
  {
    if a.NaN? || b.NaN? then NaN
    else if a.Inf? && b.Inf? then (if a.positive == b.positive then a else NaN)
    else if a.Inf? then a
    else if b.Inf? then b
    else Fin(a.v + b.v)
  }

  function Sub(a: Float, b: Float): Float
  {
    Add(a, Neg(b))
  }

  function Mul(a: Float, b: Float): (r: Float)
    ensures a.Fin? && b.Fin? ==> r == Fin(a.v * b.v)
  {
    if a.NaN? || b.NaN? then NaN
    else if a.Inf? && b.Inf? then Inf(a.positive == b.positive)
    else if a.Inf? then (if b.v == 0.0 then NaN else Inf(a.positive == (b.v > 0.0)))
    else if b.Inf? then (if a.v == 0.0 then NaN else Inf(b.positive == (a.v > 0.0)))
    else Fin(a.v * b.v)
  }

  /** Division by a finite value, the only kind the sampler performs. */
  function Div(a: Float, d: real): (r: Float)
    ensures a.Fin? && d != 0.0 ==> r == Fin(a.v / d)
    ensures a.Fin? && d == 0.0 ==> (r.NaN? <==> a.v == 0.0)
    ensures a.NaN? ==> r.NaN?
  {
    match a
    case NaN => NaN
    case Inf(p) => if d == 0.0 then Inf(p) else Inf(p == (d > 0.0))
    case Fin(v) =>
      if d != 0.0 then Fin(v / d)
      else if v == 0.0 then NaN
      else Inf(v > 0.0)
  }

  function Sq(a: Float): Float
  {
    Mul(a, a)
  }

  /** `a > r` for a finite `r`: false for NaN, true for +inf. */
  predicate Greater(a: Float, r: real)
  {
    match a
    case Fin(v) => v > r
    case NaN => false
    case Inf(p) => p
  }

  /** A square is never negative and never -inf. */
  lemma SqNotNegative(a: Float)
    ensures Sq(a).Fin? ==> Sq(a).v >= 0.0
    ensures Sq(a).Inf? ==> Sq(a).positive
    ensures Sq(a).NaN? <==> a.NaN?
  {
    if a.Fin? {
      assert a.v * a.v >= 0.0 by {
        if a.v < 0.0 {
          assert (-a.v) * (-a.v) > 0.0;
        }
      }
    }
  }
}
