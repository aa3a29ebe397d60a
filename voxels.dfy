/**
 * Voxel keys of the vertex deduplication grid: each coordinate divided by
 * the grid size, truncated toward zero by the integer cast, and then
 * lowered by one for a negative coordinate.
 */
module Voxels {
  import opened Vectors
  import opened MetatubeGeom

  datatype Voxel = Voxel(x: int, y: int, z: int)

  /** The C cast from floating point to a signed integer: truncation toward zero. */
  function Trunc(r: real): int {
    if r >= 0.0 then r.Floor else -((-r).Floor)
  }

  /** `voxel::get` on one coordinate. */
  function VoxelCoord(c: real, g: real): int
    requires g > 0.0
  {
    Trunc(c / g) - (if c < 0.0 then 1 else 0)
  }

  function VoxelOf(p: Vec3, g: real): Voxel
    requires g > 0.0
  {
    Voxel(VoxelCoord(p.x, g), VoxelCoord(p.y, g), VoxelCoord(p.z, g))
  }

  /** The cell `d` steps away from `v` on each axis. */
  function Shift(v: Voxel, dx: int, dy: int, dz: int): Voxel {
    Voxel(v.x + dx, v.y + dy, v.z + dz)
  }

  predicate IsInteger(r: real) {
    r.Floor as real == r
  }

  lemma DivSign(c: real, g: real)
    requires g > 0.0
    ensures c < 0.0 <==> c / g < 0.0
  {
  }

  /**
   * The key is floor(c/g), except for a negative exact multiple of the grid
   * size, whose key is one lower.
   */
  lemma VoxelCoordFloor(c: real, g: real)
    requires g > 0.0
    ensures c < 0.0 && IsInteger(c / g) ==> VoxelCoord(c, g) == Floor(c / g) - 1
    ensures !(c < 0.0 && IsInteger(c / g)) ==> VoxelCoord(c, g) == Floor(c / g)
  {
    DivSign(c, g);
  }

  /** The key brackets the scaled coordinate from below within one unit. */
  lemma VoxelCoordBracket(c: real, g: real)
    requires g > 0.0
    ensures VoxelCoord(c, g) as real <= c / g <= VoxelCoord(c, g) as real + 1.0
  {
    DivSign(c, g);
  }

  lemma Distribute(x: real, y: real, g: real)
    ensures (x - y - 1.0) * g == x * g - y * g - g
  {
  }

  /** Scaled coordinates at least one apart come from coordinates at least one cell apart. */
  lemma ScaledGap(a: real, b: real, g: real)
    requires g > 0.0 && a / g - b / g >= 1.0
    ensures a - b >= g
  {
    DivMulCancel(a, g);
    DivMulCancel(b, g);
    ProductNonNegative(a / g - b / g - 1.0, g);
    Distribute(a / g, b / g, g);
  }

  /**
   * Coordinates less than one cell apart have keys at most one apart, so a
   * point within the grid size of another lies in its cell or one of the 26
   * neighbours.
   */
  lemma NearCoordsAdjacent(a: real, b: real, g: real)
    requires g > 0.0 && -g < a - b < g
    ensures -1 <= VoxelCoord(a, g) - VoxelCoord(b, g) <= 1
  {
    VoxelCoordBracket(a, g);
    VoxelCoordBracket(b, g);
    if VoxelCoord(a, g) - VoxelCoord(b, g) >= 2 {
      ScaledGap(a, b, g);
    } else if VoxelCoord(b, g) - VoxelCoord(a, g) >= 2 {
      ScaledGap(b, a, g);
    }
  }

  /** Points closer than the grid size lie in neighbouring voxels. */
  lemma NearPointsAdjacent(p: Vec3, q: Vec3, g: real)
    requires g > 0.0 && SqrLen(Sub(p, q)) < g * g
    ensures var vp, vq := VoxelOf(p, g), VoxelOf(q, g);
      -1 <= vq.x - vp.x <= 1 && -1 <= vq.y - vp.y <= 1 && -1 <= vq.z - vp.z <= 1
      && VoxelOf(q, g) == Shift(VoxelOf(p, g), vq.x - vp.x, vq.y - vp.y, vq.z - vp.z)
  {
    var d := Sub(p, q);
    SqrLenBounds(d);
    AbsBelowFromSquare(d.x, g);
    AbsBelowFromSquare(d.y, g);
    AbsBelowFromSquare(d.z, g);
    NearCoordsAdjacent(p.x, q.x, g);
    NearCoordsAdjacent(p.y, q.y, g);
    NearCoordsAdjacent(p.z, q.z, g);
  }

  /** For g = 1, the coordinate -1.0 gets key -2 while floor gives -1. */
  lemma NegativeMultipleKey()
    ensures VoxelCoord(-1.0, 1.0) == -2 && Floor(-1.0 / 1.0) == -1
  {
  }
}
