/** Points and Euler transforms as exact reals (f32 rounding is not modelled). */
module Geometry {

  datatype Vec3 = Vec3(x: real, y: real, z: real)

  /** `EulerTransform`: translation, rotation in degrees and scale, as triples. */
  datatype EulerTransform = EulerTransform(translation: Vec3, rotation: Vec3, scale: Vec3)

  const Zero: Vec3 := Vec3(0.0, 0.0, 0.0)
  const One: Vec3 := Vec3(1.0, 1.0, 1.0)

  /** `Transform::IDENTITY`, seen as an Euler transform. */
  const Identity: EulerTransform := EulerTransform(Zero, Zero, One)

  /** Parent-then-child composition (`parent * Transform::from(child)`, converted
    * back to Euler angles). Its matrix and quaternion arithmetic is not modelled:
    * every operation that composes takes it as a parameter of this type. */
  type Compose = (EulerTransform, EulerTransform) -> EulerTransform

  function Add(a: Vec3, b: Vec3): Vec3 { Vec3(a.x + b.x, a.y + b.y, a.z + b.z) }
  function Sub(a: Vec3, b: Vec3): Vec3 { Vec3(a.x - b.x, a.y - b.y, a.z - b.z) }
  function Scale(k: real, a: Vec3): Vec3 { Vec3(k * a.x, k * a.y, k * a.z) }
  function Dot(a: Vec3, b: Vec3): real { a.x * b.x + a.y * b.y + a.z * b.z }

  /** Bevy's `Dir3`: a vector of length one. */
  type Dir3 = v: Vec3 | Dot(v, v) == 1.0 witness Vec3(1.0, 0.0, 0.0)

  /** `Plane3d`, given by its unit normal. */
  datatype Plane3d = Plane3d(normal: Dir3)
}
