/**
 * The small geometric helpers of the metatube extractor: the Wendland
 * kernel, projection onto a plane, grid snapping of boxes, the axis-id
 * selectors of an ellipsoid, its reference box, and the two box tests.
 */
module MetatubeGeom {
  import opened Vectors

  /** An axis-aligned box given by its minimum and maximum corner. */
  datatype Box = Box(lo: Vec3, hi: Vec3)

  predicate ValidBox(b: Box) {
    b.lo.x <= b.hi.x && b.lo.y <= b.hi.y && b.lo.z <= b.hi.z
  }

  // ---------------------------------------------------------------------
  // Wendland kernel

  /** The compactly supported Wendland weight of distance `d` for radius `h`. */
  function Wendland(d: real, h: real): real
    requires h > 0.0
  {
    var norm := h * h * h * h * h;
    var base := h - d;
    if d <= h then (base * base * base * base * (h + 4.0 * d)) / norm else 0.0
  }

  lemma FifthPowerPositive(h: real, n: real)
    requires h > 0.0
    requires n == h * h * h * h * h
    ensures n > 0.0
  {
    assert h * h > 0.0;
    assert h * h * h > 0.0;
    assert h * h * h * h > 0.0;
  }

  lemma QuotientBounds(num: real, den: real)
    requires den > 0.0
    requires 0.0 <= num <= den
    ensures 0.0 <= num / den <= 1.0
  {
  }

  /**
   * The polynomial fact behind the kernel's upper bound: with u = h - d,
   * h^5 - u^4 (5h - 4u) = (h - u)^2 (h^3 + 2h^2 u + 3h u^2 + 4u^3).
   */
  lemma KernelIdentity(h: real, u: real, num: real, n: real, rest: real)
    requires num == u * u * u * u * (5.0 * h - 4.0 * u)
    requires n == h * h * h * h * h
    requires rest == h * h * h + 2.0 * h * h * u + 3.0 * h * u * u + 4.0 * u * u * u
    ensures n - num == (h - u) * (h - u) * rest
  {
  }

  lemma KernelNumeratorBounds(h: real, u: real, num: real, n: real)
    requires 0.0 <= u <= h
    requires num == u * u * u * u * (5.0 * h - 4.0 * u)
    requires n == h * h * h * h * h
    ensures 0.0 <= num <= n
  {
    var rest := h * h * h + 2.0 * h * h * u + 3.0 * h * u * u + 4.0 * u * u * u;
    KernelIdentity(h, u, num, n, rest);
    assert u * u >= 0.0;
    assert u * u * u >= 0.0;
    assert u * u * u * u >= 0.0;
    assert 5.0 * h - 4.0 * u >= 0.0;
    assert h * h >= 0.0 && h * h * h >= 0.0;
    assert rest >= 0.0;
    SquareNonNegative(h - u);
  }

  /** The kernel weighs a point at distance zero with exactly one. */
  lemma WendlandAtZero(h: real)
    requires h > 0.0
    ensures Wendland(0.0, h) == 1.0
  {
    var n := h * h * h * h * h;
    FifthPowerPositive(h, n);
    assert (h - 0.0) * (h - 0.0) * (h - 0.0) * (h - 0.0) * (h + 4.0 * 0.0) == n;
    assert Wendland(0.0, h) == n / n;
  }

  /** The kernel has compact support: it vanishes from distance `h` on. */
  lemma WendlandVanishes(d: real, h: real)
    requires h > 0.0
    requires d >= h
    ensures Wendland(d, h) == 0.0
  {
    if d == h {
      assert h - d == 0.0;
    }
  }

  /** For non-negative distances the weight lies in [0, 1]. */
  lemma WendlandBounds(d: real, h: real)
    requires h > 0.0
    requires d >= 0.0
    ensures 0.0 <= Wendland(d, h) <= 1.0
  {
    if d <= h {
      var u := h - d;
      var n := h * h * h * h * h;
      var num := u * u * u * u * (5.0 * h - 4.0 * u);
      assert h + 4.0 * d == 5.0 * h - 4.0 * u;
      assert Wendland(d, h) == num / n;
      FifthPowerPositive(h, n);
      KernelNumeratorBounds(h, u, num, n);
      QuotientBounds(num, n);
    }
  }

  // ---------------------------------------------------------------------
  // Plane projection

  /** Moves `p` along `n` by its signed offset from the plane through `r`. */
  function PlaneProject(p: Vec3, n: Vec3, r: Vec3): Vec3 {
    var proj := Dot(n, Sub(p, r));
    Sub(p, Scale(proj, n))
  }

  lemma ProjectComponents(n1: real, n2: real, n3: real, q1: real, q2: real, q3: real, k: real)
    requires k == n1 * q1 + n2 * q2 + n3 * q3
    requires n1 * n1 + n2 * n2 + n3 * n3 == 1.0
    ensures n1 * (q1 - k * n1) + n2 * (q2 - k * n2) + n3 * (q3 - k * n3) == 0.0
  {
    assert n1 * (q1 - k * n1) + n2 * (q2 - k * n2) + n3 * (q3 - k * n3)
        == k - k * (n1 * n1 + n2 * n2 + n3 * n3);
  }

  /** With a unit normal the projected point lies on the plane. */
  lemma PlaneProjectOnPlane(p: Vec3, n: Vec3, r: Vec3)
    requires SqrLen(n) == 1.0
    ensures Dot(n, Sub(PlaneProject(p, n, r), r)) == 0.0
  {
    var q := Sub(p, r);
    var k := Dot(n, q);
    var d := Sub(PlaneProject(p, n, r), r);
    assert d == Vec3(q.x - k * n.x, q.y - k * n.y, q.z - k * n.z);
    ProjectComponents(n.x, n.y, n.z, q.x, q.y, q.z, k);
  }

  /** A point already on the plane is left where it is. */
  lemma PlaneProjectFixesPlane(p: Vec3, n: Vec3, r: Vec3)
    requires Dot(n, Sub(p, r)) == 0.0
    ensures PlaneProject(p, n, r) == p
  {
  }

  /** With a unit normal, projecting a second time changes nothing. */
  lemma PlaneProjectIdempotent(p: Vec3, n: Vec3, r: Vec3)
    requires SqrLen(n) == 1.0
    ensures PlaneProject(PlaneProject(p, n, r), n, r) == PlaneProject(p, n, r)
  {
    PlaneProjectOnPlane(p, n, r);
    PlaneProjectFixesPlane(PlaneProject(p, n, r), n, r);
  }

  // ---------------------------------------------------------------------
  // Grid snapping

  function Floor(c: real): int {
    c.Floor
  }

  function Ceil(c: real): int {
    -((-c).Floor)
  }

  /** `c` is an integer multiple of the grid spacing `res`. */
  predicate OnGrid(c: real, res: real)
    requires res > 0.0
  {
    Floor(c / res) as real == c / res
  }

  /** One coordinate of the minimum corner: `floor(c/res)*res`. */
  function SnapDown(c: real, res: real): real
    requires res > 0.0
  {
    Floor(c / res) as real * res
  }

  /** One coordinate of the maximum corner: `ceil(c/res)*res`. */
  function SnapUp(c: real, res: real): real
    requires res > 0.0
  {
    Ceil(c / res) as real * res
  }

  /** Scaling the bracket k <= c/res < k + 1 by the spacing. */
  lemma ScaledBracket(c: real, res: real, q: real, k: real)
    requires res > 0.0
    requires q * res == c
    requires k <= q < k + 1.0
    ensures k * res <= c < k * res + res
    ensures k < q ==> k * res < c
  {
    BracketGaps(c, res, q, k);
    ProductNonNegative(q - k, res);
    ProductPositive(k + 1.0 - q, res);
    if k < q {
      ProductPositive(q - k, res);
    }
  }

  lemma DivMulCancel(c: real, res: real)
    requires res > 0.0
    ensures (c / res) * res == c
  {
  }

  lemma BracketGaps(c: real, res: real, q: real, k: real)
    requires q * res == c
    ensures c - k * res == (q - k) * res
    ensures k * res + res - c == (k + 1.0 - q) * res
  {
  }

  lemma MultipleOnGrid(k: int, res: real)
    requires res > 0.0
    ensures OnGrid(k as real * res, res)
  {
    assert (k as real * res) / res == k as real;
  }

  /** The snapped-down coordinate is a grid point at most `c` and within one cell of it. */
  lemma SnapDownBounds(c: real, res: real)
    requires res > 0.0
    ensures c - res < SnapDown(c, res) <= c
    ensures OnGrid(SnapDown(c, res), res)
  {
    var k := Floor(c / res);
    DivMulCancel(c, res);
    ScaledBracket(c, res, c / res, k as real);
    assert SnapDown(c, res) == k as real * res;
    MultipleOnGrid(k, res);
  }

  /** The snapped-up coordinate is a grid point at least `c` and within one cell of it. */
  lemma SnapUpBounds(c: real, res: real)
    requires res > 0.0
    ensures c <= SnapUp(c, res) < c + res
    ensures OnGrid(SnapUp(c, res), res)
  {
    var k := Ceil(c / res);
    var f := Floor(-(c / res));
    assert f as real <= -(c / res) < f as real + 1.0;
    assert k as real - 1.0 < c / res <= k as real;
    if c / res == k as real {
      assert c == k as real * res;
    } else {
      DivMulCancel(c, res);
      ScaledBracket(c, res, c / res, k as real - 1.0);
      assert (k as real - 1.0) * res == k as real * res - res;
    }
    assert SnapUp(c, res) == k as real * res;
    MultipleOnGrid(k, res);
  }

  /** `discretize`: the box with its corners snapped outward to the grid of spacing `res`. */
  function Discretize(b: Box, res: real): Box
    requires res > 0.0
  {
    Box(Vec3(SnapDown(b.lo.x, res), SnapDown(b.lo.y, res), SnapDown(b.lo.z, res)),
        Vec3(SnapUp(b.hi.x, res), SnapUp(b.hi.y, res), SnapUp(b.hi.z, res)))
  }

  /** `outer` includes every bound of `inner`. */
  predicate Encloses(outer: Box, inner: Box) {
    outer.lo.x <= inner.lo.x && outer.lo.y <= inner.lo.y && outer.lo.z <= inner.lo.z &&
    inner.hi.x <= outer.hi.x && inner.hi.y <= outer.hi.y && inner.hi.z <= outer.hi.z
  }

  predicate CornerOnGrid(v: Vec3, res: real)
    requires res > 0.0
  {
    OnGrid(v.x, res) && OnGrid(v.y, res) && OnGrid(v.z, res)
  }

  /**
   * The snapped box encloses the original one, its corners are integer
   * multiples of `res`, and it is the tightest such box: each corner moved
   * by less than one cell.
   */
  lemma DiscretizeEncloses(b: Box, res: real)
    requires res > 0.0
    ensures Encloses(Discretize(b, res), b)
    ensures CornerOnGrid(Discretize(b, res).lo, res) && CornerOnGrid(Discretize(b, res).hi, res)
    ensures var g := Discretize(b, res);
      b.lo.x - res < g.lo.x && b.lo.y - res < g.lo.y && b.lo.z - res < g.lo.z &&
      g.hi.x < b.hi.x + res && g.hi.y < b.hi.y + res && g.hi.z < b.hi.z + res
  {
    SnapDownBounds(b.lo.x, res);
    SnapDownBounds(b.lo.y, res);
    SnapDownBounds(b.lo.z, res);
    SnapUpBounds(b.hi.x, res);
    SnapUpBounds(b.hi.y, res);
    SnapUpBounds(b.hi.z, res);
  }

  /** Every point of a box is also a point of its snapped box. */
  lemma DiscretizeKeepsPoints(b: Box, res: real, p: Vec3)
    requires res > 0.0
    requires PointInBox(b, p)
    ensures PointInBox(Discretize(b, res), p)
  {
    DiscretizeEncloses(b, res);
    PointInBoxComponents(b, p);
    PointInBoxComponents(Discretize(b, res), p);
  }

  // ---------------------------------------------------------------------
  // Axis-id selectors

  /** `get_ellipsoid_max_axis_id`: the index of a largest component. */
  function MaxAxisId(a: Vec3): (i: nat)
    ensures i < 3
    ensures forall j :: 0 <= j < 3 ==> Get(a, j) <= Get(a, i)
  {
    if a.x > a.y then (if a.x > a.z then 0 else 2) else (if a.y > a.z then 1 else 2)
  }

  /** `get_ellipsoid_min_axis_id`: the index of a smallest component. */
  function MinAxisId(a: Vec3): (i: nat)
    ensures i < 3
    ensures forall j :: 0 <= j < 3 ==> Get(a, i) <= Get(a, j)
  {
    if a.x > a.y then (if a.y > a.z then 2 else 1) else (if a.x > a.z then 2 else 0)
  }

  /** `get_ellipsoid_mid_axis_id`: the index neither of the other two selectors picked. */
  function MidAxisId(a: Vec3): nat {
    var lo, hi := MinAxisId(a), MaxAxisId(a);
    if (lo == 2 && hi == 0) || (lo == 0 && hi == 2) then 1
    else if (lo == 1 && hi == 0) || (lo == 0 && hi == 1) then 2
    else 0
  }

  /**
   * The three selectors always pick three different axes, ordered by length,
   * also when lengths tie.
   */
  lemma AxisIdsPermutation(a: Vec3)
    ensures {MinAxisId(a), MidAxisId(a), MaxAxisId(a)} == {0, 1, 2}
    ensures MinAxisId(a) != MidAxisId(a) && MidAxisId(a) != MaxAxisId(a) && MinAxisId(a) != MaxAxisId(a)
    ensures MidAxisId(a) < 3
    ensures Get(a, MinAxisId(a)) <= Get(a, MidAxisId(a)) <= Get(a, MaxAxisId(a))
  {
  }

  // ---------------------------------------------------------------------
  // Boxes

  /** `get_ellipsoid_bbox`: the cube of half-width 1.25 times the longest axis. */
  function EllipsoidBBox(axes: Vec3): Box {
    var m := Get(axes, MaxAxisId(axes)) * 1.25;
    Box(Neg(Vec3(m, m, m)), Vec3(m, m, m))
  }

  /**
   * The reference box is the cube [-m, m]^3 with m = 1.25 times the longest
   * axis, so for non-negative axes it holds every point within the longest
   * axis of the centre, whatever the ellipsoid's orientation.
   */
  lemma EllipsoidBBoxHoldsBall(axes: Vec3, p: Vec3)
    requires Get(axes, MaxAxisId(axes)) >= 0.0
    requires SqrLen(p) <= Get(axes, MaxAxisId(axes)) * Get(axes, MaxAxisId(axes))
    ensures var m := 1.25 * Get(axes, MaxAxisId(axes));
      EllipsoidBBox(axes).lo == Vec3(-m, -m, -m) && EllipsoidBBox(axes).hi == Vec3(m, m, m)
    ensures PointInBox(EllipsoidBBox(axes), p)
  {
    var g := Get(axes, MaxAxisId(axes));
    SqrLenBounds(p);
    AbsAtMostFromSquare(p.x, g);
    AbsAtMostFromSquare(p.y, g);
    AbsAtMostFromSquare(p.z, g);
    PointInBoxComponents(EllipsoidBBox(axes), p);
  }

  /** `translate_bbox`: both corners moved by `v`. */
  function TranslateBBox(b: Box, v: Vec3): (t: Box)
    ensures Sub(t.hi, t.lo) == Sub(b.hi, b.lo)
    ensures Sub(t.lo, b.lo) == v && Sub(t.hi, b.hi) == v
  {
    Box(Add(b.lo, v), Add(b.hi, v))
  }

  /** A point lies in the moved box exactly when the point moved back lies in the box. */
  lemma TranslateBBoxPoints(b: Box, v: Vec3, p: Vec3)
    ensures PointInBox(TranslateBBox(b, v), p) <==> PointInBox(b, Sub(p, v))
  {
    PointInBoxComponents(TranslateBBox(b, v), p);
    PointInBoxComponents(b, Sub(p, v));
  }

  /** `boxes_overlap`: strict comparisons on all three axes. */
  predicate BoxesOverlap(b1: Box, b2: Box) {
    b1.lo.x < b2.hi.x && b1.hi.x > b2.lo.x &&
    b1.lo.y < b2.hi.y && b1.hi.y > b2.lo.y &&
    b1.lo.z < b2.hi.z && b1.hi.z > b2.lo.z
  }

  /** Strictly inside on every axis. */
  predicate Interior(b: Box, p: Vec3) {
    b.lo.x < p.x < b.hi.x && b.lo.y < p.y < b.hi.y && b.lo.z < p.z < b.hi.z
  }

  function Max(a: real, b: real): real {
    if a < b then b else a
  }

  function Min(a: real, b: real): real {
    if a < b then a else b
  }

  /** The centre of the common part of two boxes. */
  function CommonCentre(b1: Box, b2: Box): Vec3 {
    Vec3((Max(b1.lo.x, b2.lo.x) + Min(b1.hi.x, b2.hi.x)) / 2.0,
         (Max(b1.lo.y, b2.lo.y) + Min(b1.hi.y, b2.hi.y)) / 2.0,
         (Max(b1.lo.z, b2.lo.z) + Min(b1.hi.z, b2.hi.z)) / 2.0)
  }

  /** Overlap is a symmetric relation. */
  lemma BoxesOverlapSymmetric(b1: Box, b2: Box)
    ensures BoxesOverlap(b1, b2) <==> BoxesOverlap(b2, b1)
  {
  }

  /**
   * Two boxes with a common interior point overlap, and two overlapping
   * valid boxes share a point: the centre of their common part.
   */
  lemma BoxesOverlapMeansCommonPoint(b1: Box, b2: Box, p: Vec3)
    ensures Interior(b1, p) && Interior(b2, p) ==> BoxesOverlap(b1, b2)
    ensures ValidBox(b1) && ValidBox(b2) && BoxesOverlap(b1, b2) ==>
      PointInBox(b1, CommonCentre(b1, b2)) && PointInBox(b2, CommonCentre(b1, b2))
  {
    PointInBoxComponents(b1, CommonCentre(b1, b2));
    PointInBoxComponents(b2, CommonCentre(b1, b2));
  }

  /** `point_in_box`: inclusive comparisons on every axis, folded as the source's loop does. */
  predicate PointInBox(b: Box, p: Vec3) {
    InBoxFrom(b, p, 0)
  }

  /** The loop of `point_in_box` from axis `i` on. */
  predicate InBoxFrom(b: Box, p: Vec3, i: nat)
    requires i <= 3
    decreases 3 - i
  {
    i == 3 || (Get(b.lo, i) <= Get(p, i) <= Get(b.hi, i) && InBoxFrom(b, p, i + 1))
  }

  lemma {:induction false} InBoxFromAll(b: Box, p: Vec3, i: nat)
    requires i <= 3
    decreases 3 - i
    ensures InBoxFrom(b, p, i) <==> forall j :: i <= j < 3 ==> Get(b.lo, j) <= Get(p, j) <= Get(b.hi, j)
  {
    if i < 3 {
      InBoxFromAll(b, p, i + 1);
    }
  }

  /** A point is in a box iff it lies between the corners on all three axes, bounds included. */
  lemma PointInBoxComponents(b: Box, p: Vec3)
    ensures PointInBox(b, p) <==>
      b.lo.x <= p.x <= b.hi.x && b.lo.y <= p.y <= b.hi.y && b.lo.z <= p.z <= b.hi.z
  {
    InBoxFromAll(b, p, 0);
    assert Get(b.lo, 0) == b.lo.x && Get(b.lo, 1) == b.lo.y && Get(b.lo, 2) == b.lo.z;
  }
}
