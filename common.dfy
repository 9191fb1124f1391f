/** Values shared by every part of the simulation: positions, orientations and an
    optional value standing for the engine's null references. */
module Common {

  datatype Option<T> = None | Some(value: T)

  /** A point in the scene. The engine's float vectors become exact reals. */
  datatype Vec3 = Vec3(x: real, y: real, z: real)

  /** An orientation as a unit quaternion. */
  datatype Quat = Quat(x: real, y: real, z: real, w: real)

  const Origin := Vec3(0.0, 0.0, 0.0)
  const Identity := Quat(0.0, 0.0, 0.0, 1.0)

  function Plus(a: Vec3, b: Vec3): Vec3
  {
    Vec3(a.x + b.x, a.y + b.y, a.z + b.z)
  }

  function Scale(v: Vec3, k: real): Vec3
  {
    Vec3(v.x * k, v.y * k, v.z * k)
  }

  /** Transform.forward: the unit z axis turned by the quaternion `q`. */
  function Forward(q: Quat): (f: Vec3)
    ensures q == Identity ==> f == Vec3(0.0, 0.0, 1.0)
  {
    Vec3(2.0 * (q.x * q.z + q.w * q.y), 2.0 * (q.y * q.z - q.w * q.x), 1.0 - 2.0 * (q.x * q.x + q.y * q.y))
  }

  /** Transform.up: the unit y axis turned by the quaternion `q`. */
  function Up(q: Quat): (u: Vec3)
    ensures q == Identity ==> u == Vec3(0.0, 1.0, 0.0)
  {
    Vec3(2.0 * (q.x * q.y - q.w * q.z), 1.0 - 2.0 * (q.x * q.x + q.z * q.z), 2.0 * (q.y * q.z + q.w * q.x))
  }

  /** The engine's distance between two points, supplied by the caller. The model only
      compares its values, with the same operators as the game code. */
  type Metric = (Vec3, Vec3) -> real

  /** Mathf.Max(0, x) on integers. */
  function FloorAtZero(x: int): (r: int)
    ensures r >= 0
    ensures r == x || (x < 0 && r == 0)
  {
    if x < 0 then 0 else x
  }
}
