/** The values the scene works with: glm vectors, rays, hit records, materials,
    and the two collaborators the scene only holds references to (objects and
    lights). Concrete geometry is not part of this model: an object is the
    answer its `Intersects` gives for each ray. */
module Geometry {
  import opened Wrappers

  /** A glm::vec3, used for points, directions and RGB colours alike. */
  datatype Vec3 = Vec3(x: real, y: real, z: real)

  const Zero: Vec3 := Vec3(0.0, 0.0, 0.0)

  function Add(a: Vec3, b: Vec3): Vec3 {
    Vec3(a.x + b.x, a.y + b.y, a.z + b.z)
  }

  /** `k * v` for a scalar `k`. */
  function Scale(k: real, v: Vec3): Vec3 {
    Vec3(k * v.x, k * v.y, k * v.z)
  }

  /** A ray: origin and (normalized) direction, passed separately in the source. */
  datatype Ray = Ray(origin: Vec3, direction: Vec3)

  /** A float hit distance, as far as the scene uses it: it is only ever
      compared with `<` against other distances and against INFINITY. */
  datatype Distance = Finite(value: real) | PosInf | NegInf | NaN

  /** The float comparison `a < b`: false whenever NaN is involved,
      -INFINITY below every finite value, INFINITY above. */
  predicate Less(a: Distance, b: Distance) {
    match (a, b)
    case (Finite(x), Finite(y)) => x < y
    case (NegInf, Finite(_)) => true
    case (NegInf, PosInf) => true
    case (Finite(_), PosInf) => true
    case _ => false
  }

  /** `a <= b` on ordered (non-NaN) distances. */
  predicate AtMost(a: Distance, b: Distance) {
    Less(a, b) || (a == b && !a.NaN?)
  }

  lemma LessTransitive(a: Distance, b: Distance, c: Distance)
    requires Less(a, b) && Less(b, c)
    ensures Less(a, c)
  {
  }

  /** On non-NaN values, `<` is a strict total order. */
  lemma LessTotal(a: Distance, b: Distance)
    requires !a.NaN? && !b.NaN?
    ensures Less(a, b) || a == b || Less(b, a)
    ensures !(Less(a, b) && Less(b, a))
    ensures !Less(a, a)
  {
  }

  /** The material fields the scene reads through `hitMaterial`. */
  datatype Material = Material(albedo: Vec3, emissiveStrength: real, isTransparent: bool)

  /** A HitInfo record as filled in by a successful `Intersects`. */
  datatype Hit = Hit(distance: Distance, position: Vec3, normal: Vec3, material: Material)

  /** A scene object, seen only through its `Intersects` capability: the hit it
      reports for a ray, or None when it reports no hit. */
  type Object = Ray -> Option<Hit>

  /** An object that reports no hit for any ray. */
  const Missing: Object := (r: Ray) => None

  /** A light reference; the scene stores lights but never reads them. */
  datatype Light = LightRef(id: nat)
}
