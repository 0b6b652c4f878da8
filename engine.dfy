/** Value types of the game engine that the game's systems read and write:
    3D vectors (positions and velocities), keyboard key codes, the window
    resolution, and an Option for queries that may find no unique entity.
    Floating-point vectors are modelled over the reals. */
module Engine {

  datatype Option<T> = None | Some(value: T)

  /** A translation or velocity vector (Vec3 over f32, modelled over reals). */
  datatype Vec3 = Vec3(x: real, y: real, z: real)

  const Zero: Vec3 := Vec3(0.0, 0.0, 0.0)

  function Add(a: Vec3, b: Vec3): Vec3
  {
    Vec3(a.x + b.x, a.y + b.y, a.z + b.z)
  }

  function Scale(a: Vec3, k: real): Vec3
  {
    Vec3(a.x * k, a.y * k, a.z * k)
  }

  /** The square of the Euclidean distance between two points. Comparing it
      against the square of a non-negative bound is the same as comparing the
      distance itself against that bound. */
  function DistanceSquared(a: Vec3, b: Vec3): (d: real)
    ensures d >= 0.0
  {
    var dx, dy, dz := a.x - b.x, a.y - b.y, a.z - b.z;
    dx * dx + dy * dy + dz * dz
  }

  /** For non-negative values, comparing squares is comparing the values:
      with d the distance and b the bound, d * d >= b * b exactly when
      d >= b. */
  lemma SquaredCompare(d: real, b: real)
    requires d >= 0.0 && b >= 0.0
    ensures d * d >= b * b <==> d >= b
  {
    assert d * d - b * b == (d - b) * (d + b);
    if d < b {
      assert (d - b) * (d + b) < 0.0 || d + b == 0.0;
    }
  }

  /** The keys the game's systems look at; every other key is `Other`. */
  datatype KeyCode = ArrowLeft | ArrowRight | ArrowUp | ArrowDown | Escape | Other(code: nat)

  /** A window's logical resolution. */
  datatype Window = Window(width: real, height: real)
}
