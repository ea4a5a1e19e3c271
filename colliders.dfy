/** Collider descriptions carried by `Object` entries and their conversion
  * to an engine collider (`create_collider`). The engine's shape
  * constructors are not modelled: the collider built for a shape carries
  * that shape's parameters unchanged. */
module Colliders {
  import Common
  import opened Geometry

  datatype ColliderBehaviour = Dynamic | GenerationDynamic | Kinematic

  datatype ColliderType =
    | None
    | Ball(radius: real)
    | Cylinder(halfHeight: real, radius: real)
    | RoundCylinder(halfHeight: real, radius: real, borderRadius: real)
    | Cone(halfHeight: real, radius: real)
    | RoundCone(halfHeight: real, radius: real, borderRadius: real)
    | Capsule(start: Vec3, end: Vec3, radius: real)
    | CapsuleX(halfHeight: real, radius: real)
    | CapsuleY(halfHeight: real, radius: real)
    | CapsuleZ(halfHeight: real, radius: real)
    | Cuboid(hx: real, hy: real, hz: real)
    | RoundCuboid(halfX: real, halfY: real, halfZ: real, borderRadius: real)
    | Segment(a: Vec3, b: Vec3)
    | Triangle(a: Vec3, b: Vec3, c: Vec3)
    | RoundTriangle(a: Vec3, b: Vec3, c: Vec3, borderRadius: real)

  datatype ColliderInfo = ColliderInfo(colliderType: ColliderType, priority: Common.i8, behaviour: ColliderBehaviour)

  /** The engine collider built from a shape description. */
  datatype Collider = Collider(shape: ColliderType)

  /** `create_collider`: every shape but `None` yields a collider of that shape. */
  function CreateCollider(t: ColliderType): (r: Common.Option<Collider>)
    ensures r.None? <==> t.None?
    ensures r.Some? ==> r.value.shape == t
  {
    match t
    case None => Common.None
    case Ball(_) => Common.Some(Collider(t))
    case Cylinder(_, _) => Common.Some(Collider(t))
    case RoundCylinder(_, _, _) => Common.Some(Collider(t))
    case Cone(_, _) => Common.Some(Collider(t))
    case RoundCone(_, _, _) => Common.Some(Collider(t))
    case Capsule(_, _, _) => Common.Some(Collider(t))
    case CapsuleX(_, _) => Common.Some(Collider(t))
    case CapsuleY(_, _) => Common.Some(Collider(t))
    case CapsuleZ(_, _) => Common.Some(Collider(t))
    case Cuboid(_, _, _) => Common.Some(Collider(t))
    case RoundCuboid(_, _, _, _) => Common.Some(Collider(t))
    case Segment(_, _) => Common.Some(Collider(t))
    case Triangle(_, _, _) => Common.Some(Collider(t))
    case RoundTriangle(_, _, _, _) => Common.Some(Collider(t))
  }
}
