/** Unity's `Vector2` and `Vector3`, with `real` components in place of `float`. */
module Vectors {

  datatype Vec2 = Vec2(x: real, y: real) {
    function Plus(o: Vec2): Vec2 { Vec2(x + o.x, y + o.y) }
    function Times(k: real): Vec2 { Vec2(x * k, y * k) }
  }

  datatype Vec3 = Vec3(x: real, y: real, z: real) {
    function Plus(o: Vec3): Vec3 { Vec3(x + o.x, y + o.y, z + o.z) }
    function Times(k: real): Vec3 { Vec3(x * k, y * k, z * k) }
  }

  const Zero2: Vec2 := Vec2(0.0, 0.0)
  const Zero3: Vec3 := Vec3(0.0, 0.0, 0.0)

  /** `Vector2.kEpsilon`. */
  const Epsilon: real := 0.00001

  /** Unity's `Vector2 ==`: the squared length of the difference is below
      `Epsilon` squared, so vectors closer than `Epsilon` compare equal. */
  predicate Same2(a: Vec2, b: Vec2) {
    (a.x - b.x) * (a.x - b.x) + (a.y - b.y) * (a.y - b.y) < Epsilon * Epsilon
  }
}
