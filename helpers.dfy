/** spawning/helpers.rs: reflection of a point in a plane and the random
  * jitter applied to `Rand` entries. */
module Helpers {
  import opened Common
  import opened Geometry
  import opened Structures

  /** `reflect_point`: `p - 2((p - q)·n)n` for the plane through `q` with unit normal `n`. */
  function ReflectPoint(p: Vec3, plane: Plane3d, q: Vec3): (r: Vec3)
    ensures Dot(Sub(r, q), plane.normal) == -Dot(Sub(p, q), plane.normal)
  {
    var n := plane.normal;
    Sub(p, Scale(2.0 * Dot(Sub(p, q), n), n))
  }

  /** A point on the plane is its own reflection. */
  lemma ReflectOnPlane(p: Vec3, plane: Plane3d, q: Vec3)
    requires Dot(Sub(p, q), plane.normal) == 0.0
    ensures ReflectPoint(p, plane, q) == p
  {
  }

  /** Reflecting twice in the same plane gives the point back. */
  lemma ReflectTwice(p: Vec3, plane: Plane3d, q: Vec3)
    ensures ReflectPoint(ReflectPoint(p, plane, q), plane, q) == p
  {
    var n := plane.normal;
    var d := Dot(Sub(p, q), n);
    var r := ReflectPoint(p, plane, q);
    assert Dot(Sub(r, q), n) == -d;
    var r2 := ReflectPoint(r, plane, q);
    assert r2 == Sub(r, Scale(-2.0 * d, n));
  }

  /** A value of `gen::<f32>()`: uniform in [0, 1). */
  type UnitDraw = u: real | 0.0 <= u < 1.0

  /** A draw of the linear jitter: `u * spread - spread / 2`. */
  function LinearJitter(u: UnitDraw, spread: real): real
  {
    u * spread - spread / 2.0
  }

  /** With a positive spread every linear draw lies in [-spread/2, spread/2). */
  lemma LinearJitterBounds(u: UnitDraw, spread: real)
    requires spread > 0.0
    ensures -spread / 2.0 <= LinearJitter(u, spread) < spread / 2.0
  {
    assert u * spread < spread by {
      assert (1.0 - u) * spread > 0.0;
    }
  }

  /** The seven linear draws taken from the uniform stream. */
  function LinearDraws(uniform: nat -> UnitDraw, spread: real): (d: seq<real>)
    ensures |d| == 7 && forall i :: 0 <= i < 7 ==> d[i] == LinearJitter(uniform(i), spread)
  {
    seq(7, i requires 0 <= i < 7 => LinearJitter(uniform(i), spread))
  }

  datatype JiggleError = InvalidDeviation(deviation: real)

  /** The seven draws of `jiggle_transform`: linear draws from the uniform
    * stream, or normal samples (given as a stream) when the deviation is
    * accepted by the normal distribution. */
  function JiggleDraws(rand: RandData, uniform: nat -> UnitDraw, normal: nat -> real): (r: Result<seq<real>, JiggleError>)
    ensures r.Ok? ==> |r.value| == 7
    ensures rand.Linear? ==> r.Ok? && forall i :: 0 <= i < 7 ==> r.value[i] == LinearJitter(uniform(i), rand.spread)
    ensures rand.Gaussian? ==> (r.Err? <==> rand.deviation <= 0.0)
  {
    match rand
    case Linear(spread) => Ok(LinearDraws(uniform, spread))
    case Gaussian(deviation) =>
      if deviation <= 0.0 then Err(InvalidDeviation(deviation))
      else Ok(seq(7, i requires 0 <= i < 7 => normal(i)))
  }

  /** Applies seven draws: translation axis i times draw i, rotation axis i
    * times draw 3+i, and every scale axis k becomes 2^(scale_k · draw 6). */
  function Jiggled(original: EulerTransform, d: seq<real>, pow2: real -> real): EulerTransform
    requires |d| == 7
  {
    var t := original.translation;
    var rot := original.rotation;
    var s := original.scale;
    EulerTransform(
      Vec3(t.x * d[0], t.y * d[1], t.z * d[2]),
      Vec3(rot.x * d[3], rot.y * d[4], rot.z * d[5]),
      Vec3(pow2(s.x * d[6]), pow2(s.y * d[6]), pow2(s.z * d[6])))
  }

  /** `jiggle_transform`. The panic of `Normal::new(..).unwrap()` on a
    * non-positive deviation is the error result. */
  function JiggleTransform(rand: RandData, original: EulerTransform, uniform: nat -> UnitDraw,
                           normal: nat -> real, pow2: real -> real): Result<EulerTransform, JiggleError>
  {
    match JiggleDraws(rand, uniform, normal)
    case Ok(d) => Ok(Jiggled(original, d, pow2))
    case Err(e) => Err(e)
  }

  /** Linear jitter never fails and applies the seven linear draws of the uniform stream. */
  lemma LinearJiggleShape(spread: real, original: EulerTransform, uniform: nat -> UnitDraw,
                          normal: nat -> real, pow2: real -> real)
    ensures JiggleTransform(Linear(spread), original, uniform, normal, pow2) ==
      Ok(Jiggled(original, LinearDraws(uniform, spread), pow2))
  {
  }

  /** A Gaussian jitter fails exactly when the deviation is not positive. */
  lemma GaussianJiggleFails(deviation: real, original: EulerTransform, uniform: nat -> UnitDraw,
                            normal: nat -> real, pow2: real -> real)
    ensures JiggleTransform(RandData.Gaussian(deviation), original, uniform, normal, pow2).Err? <==> deviation <= 0.0
  {
  }

  /** A zero seventh draw gives scale one on every axis, given 2^0 = 1. */
  lemma ZeroScaleDrawIsUnitScale(original: EulerTransform, d: seq<real>, pow2: real -> real)
    requires |d| == 7 && d[6] == 0.0 && pow2(0.0) == 1.0
    ensures Jiggled(original, d, pow2).scale == One
  {
  }
}
