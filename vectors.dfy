/**
 * Three-component vectors over exact reals, standing in for the plugin's
 * single-precision `vec3`. Rounding is abstracted away; lengths are compared
 * through their squares so that no square root is needed.
 */
module Vectors {

  datatype Vec3 = Vec3(x: real, y: real, z: real)

  const Zero: Vec3 := Vec3(0.0, 0.0, 0.0)

  function Add(a: Vec3, b: Vec3): Vec3 {
    Vec3(a.x + b.x, a.y + b.y, a.z + b.z)
  }

  function Sub(a: Vec3, b: Vec3): Vec3 {
    Vec3(a.x - b.x, a.y - b.y, a.z - b.z)
  }

  function Scale(k: real, a: Vec3): Vec3 {
    Vec3(k * a.x, k * a.y, k * a.z)
  }

  function Neg(a: Vec3): Vec3 {
    Vec3(-a.x, -a.y, -a.z)
  }

  function Dot(a: Vec3, b: Vec3): real {
    a.x * b.x + a.y * b.y + a.z * b.z
  }

  function Cross(a: Vec3, b: Vec3): Vec3 {
    Vec3(a.y * b.z - a.z * b.y, a.z * b.x - a.x * b.z, a.x * b.y - a.y * b.x)
  }

  function SqrLen(a: Vec3): real {
    Dot(a, a)
  }

  /** Component `i` of `a`, as `a[i]` in the source. */
  function Get(a: Vec3, i: nat): real
    requires i < 3
  {
    if i == 0 then a.x else if i == 1 then a.y else a.z
  }

  /** A square of a real is never negative. */
  lemma SquareNonNegative(r: real)
    ensures r * r >= 0.0
  {
    if r < 0.0 {
      assert r * r == (-r) * (-r);
    }
  }

  /** A squared length is never negative, and each squared component is bounded by it. */
  lemma SqrLenBounds(a: Vec3)
    ensures 0.0 <= a.x * a.x <= SqrLen(a)
    ensures 0.0 <= a.y * a.y <= SqrLen(a)
    ensures 0.0 <= a.z * a.z <= SqrLen(a)
  {
    SquareNonNegative(a.x);
    SquareNonNegative(a.y);
    SquareNonNegative(a.z);
  }

  /** Squaring is monotone on the non-negative reals. */
  lemma SquareMonotone(g: real, r: real)
    requires 0.0 <= g
    ensures g <= r ==> g * g <= r * r
  {
    if g <= r {
      assert g * g <= g * r;
      assert g * r <= r * r;
    }
  }

  /** If `r * r < g * g` with `g > 0` then `-g < r < g`. */
  lemma AbsBelowFromSquare(r: real, g: real)
    requires g > 0.0
    requires r * r < g * g
    ensures -g < r < g
  {
    SquareMonotone(g, r);
    SquareMonotone(g, -r);
    assert (-r) * (-r) == r * r;
  }

  lemma DifferenceOfSquares(g: real, r: real)
    ensures r * r - g * g == (r - g) * (r + g)
  {
  }

  lemma ProductPositive(a: real, b: real)
    requires a > 0.0 && b > 0.0
    ensures a * b > 0.0
  {
  }

  lemma ProductNonNegative(a: real, b: real)
    requires a >= 0.0 && b > 0.0
    ensures a * b >= 0.0
  {
  }

  /** Squaring is strictly monotone on the non-negative reals. */
  lemma SquareGrows(g: real, r: real)
    requires 0.0 <= g
    ensures g < r ==> g * g < r * r
  {
    if g < r {
      DifferenceOfSquares(g, r);
      ProductPositive(r - g, r + g);
    }
  }

  lemma NegSquare(r: real)
    ensures (-r) * (-r) == r * r
  {
  }

  /** If `r * r <= g * g` with `g >= 0` then `-g <= r <= g`. */
  lemma AbsAtMostFromSquare(r: real, g: real)
    requires g >= 0.0
    requires r * r <= g * g
    ensures -g <= r <= g
  {
    SquareGrows(g, r);
    SquareGrows(g, -r);
    NegSquare(r);
  }

  lemma MulAddLeft(k: real, p: real, q: real)
    ensures k * (p + q) == k * p + k * q
  {
  }

  lemma MulCommuteLeft(k: real, j: real, p: real)
    ensures k * (j * p) == j * (k * p)
  {
  }

  lemma CrossAddRight(u: Vec3, a: Vec3, b: Vec3)
    ensures Cross(u, Add(a, b)) == Add(Cross(u, a), Cross(u, b))
  {
    var s := Add(a, b);
    MulAddLeft(u.y, a.z, b.z);
    MulAddLeft(u.z, a.y, b.y);
    MulAddLeft(u.z, a.x, b.x);
    MulAddLeft(u.x, a.z, b.z);
    MulAddLeft(u.x, a.y, b.y);
    MulAddLeft(u.y, a.x, b.x);
  }

  lemma ScaleDifference(k: real, p: real, q: real, r: real, t: real)
    ensures p * (k * q) - r * (k * t) == k * (p * q - r * t)
  {
  }

  lemma CrossValue(u: Vec3, a: Vec3)
    ensures Cross(u, a) == Vec3(u.y * a.z - u.z * a.y, u.z * a.x - u.x * a.z, u.x * a.y - u.y * a.x)
  {
  }

  lemma ScaleValue(k: real, a: Vec3)
    ensures Scale(k, a) == Vec3(k * a.x, k * a.y, k * a.z)
  {
  }

  lemma CrossScaleComponents(u1: real, u2: real, u3: real, a1: real, a2: real, a3: real,
                             k: real, s1: real, s2: real, s3: real)
    requires s1 == k * a1 && s2 == k * a2 && s3 == k * a3
    ensures u2 * s3 - u3 * s2 == k * (u2 * a3 - u3 * a2)
    ensures u3 * s1 - u1 * s3 == k * (u3 * a1 - u1 * a3)
    ensures u1 * s2 - u2 * s1 == k * (u1 * a2 - u2 * a1)
  {
    ScaleDifference(k, u2, a3, u3, a2);
    ScaleDifference(k, u3, a1, u1, a3);
    ScaleDifference(k, u1, a2, u2, a1);
  }

  lemma CrossScaleRight(u: Vec3, k: real, a: Vec3)
    ensures Cross(u, Scale(k, a)) == Scale(k, Cross(u, a))
  {
    var s, c := Scale(k, a), Cross(u, a);
    CrossScaleComponents(u.x, u.y, u.z, a.x, a.y, a.z, k, s.x, s.y, s.z);
    CrossValue(u, s);
    ScaleValue(k, c);
  }

  lemma ScaleAdd(k: real, a: Vec3, b: Vec3)
    ensures Scale(k, Add(a, b)) == Add(Scale(k, a), Scale(k, b))
  {
    MulAddLeft(k, a.x, b.x);
    MulAddLeft(k, a.y, b.y);
    MulAddLeft(k, a.z, b.z);
  }

  lemma ScaleScale(k: real, j: real, a: Vec3)
    ensures Scale(k, Scale(j, a)) == Scale(j, Scale(k, a))
  {
    MulCommuteLeft(k, j, a.x);
    MulCommuteLeft(k, j, a.y);
    MulCommuteLeft(k, j, a.z);
  }

  lemma ScaleZero(a: Vec3)
    ensures Scale(0.0, a) == Zero
  {
  }

  lemma ScaleOne(a: Vec3)
    ensures Scale(1.0, a) == a
  {
  }

  lemma AddZero(a: Vec3)
    ensures Add(a, Zero) == a && Add(Zero, a) == a
  {
  }

  /** Adding a negatively scaled vector subtracts its positive multiple. */
  lemma AddNegScale(k: real, a: Vec3, b: Vec3)
    ensures Add(Scale(-k, a), b) == Sub(b, Scale(k, a))
  {
  }

  lemma SubOfSub(a: Vec3, b: Vec3)
    ensures Sub(a, Sub(a, b)) == b
  {
  }

  lemma SubOfAdd(a: Vec3, b: Vec3)
    ensures Sub(Add(a, b), a) == b
  {
  }
}
