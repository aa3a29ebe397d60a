/**
 * The implicit quadric of the metatube: ten coefficients of a symmetric
 * quadratic form in homogeneous coordinates, evaluated at a point.
 */
module Quadrics {
  import opened Vectors

  datatype Quadric = Quadric(
    axx: real, axy: real, axz: real, axw: real,
               ayy: real, ayz: real, ayw: real,
                          azz: real, azw: real,
                                     aww: real)

  /** The default quadric: the unit sphere x^2 + y^2 + z^2 - 1. */
  const DefaultQuadric: Quadric := Quadric(1.0, 0.0, 0.0, 0.0, 1.0, 0.0, 0.0, 1.0, 0.0, -1.0)

  /** `eval_quadric`, nested row by row of the upper triangle as in the source. */
  function EvalQuadric(q: Quadric, p: Vec3): real {
      p.x * (q.axx * p.x + q.axy * p.y + q.axz * p.z + q.axw)
    + p.y * (q.ayy * p.y + q.ayz * p.z + q.ayw)
    + p.z * (q.azz * p.z + q.azw)
    + q.aww
  }

  /**
   * The per-ellipsoid template set up from the axis lengths: the diagonal
   * takes the raw lengths and the constant term is -0.25.
   */
  function Template(axes: Vec3): Quadric {
    DefaultQuadric.(axx := axes.x, ayy := axes.y, azz := axes.z, aww := -0.25)
  }

  lemma DiagonalValue(a: real, b: real, c: real, w: real, x: real, y: real, z: real, e: real)
    requires e == x * (a * x + 0.0 * y + 0.0 * z + 0.0) + y * (b * y + 0.0 * z + 0.0) + z * (c * z + 0.0) + w
    ensures e == a * (x * x) + b * (y * y) + c * (z * z) + w
  {
  }

  /** The default quadric is negative exactly inside the unit sphere. */
  lemma DefaultQuadricIsUnitSphere(p: Vec3)
    ensures EvalQuadric(DefaultQuadric, p) == SqrLen(p) - 1.0
    ensures EvalQuadric(DefaultQuadric, p) < 0.0 <==> SqrLen(p) < 1.0
  {
    DiagonalValue(1.0, 1.0, 1.0, -1.0, p.x, p.y, p.z, EvalQuadric(DefaultQuadric, p));
  }

  /**
   * The template is the axis-aligned form a_x x^2 + a_y y^2 + a_z z^2 - 1/4:
   * its zero set is the ellipsoid with semi-axes 1/(2 sqrt(a_i)), not a_i.
   */
  lemma TemplateValue(axes: Vec3, p: Vec3)
    ensures EvalQuadric(Template(axes), p)
         == axes.x * (p.x * p.x) + axes.y * (p.y * p.y) + axes.z * (p.z * p.z) - 0.25
  {
    DiagonalValue(axes.x, axes.y, axes.z, -0.25, p.x, p.y, p.z, EvalQuadric(Template(axes), p));
  }

  /**
   * With all three axes 0.1 the template is negative, so "inside", at
   * distance 1 from the centre, whereas the reference box built for the same
   * axes reaches only 0.125: the template surface is not the ellipsoid the
   * box is sized for.
   */
  lemma TemplateExceedsAxes()
    ensures EvalQuadric(Template(Vec3(0.1, 0.1, 0.1)), Vec3(1.0, 0.0, 0.0)) < 0.0
  {
    TemplateValue(Vec3(0.1, 0.1, 0.1), Vec3(1.0, 0.0, 0.0));
  }
}
