/**
 * Quaternion helpers of src/math_utils.cxx. Quaternions are stored as
 * (x, y, z, w): imaginary part first, real part last.
 */
module Quaternions {
  import opened Vectors

  datatype Quat = Quat(x: real, y: real, z: real, w: real)

  const Identity: Quat := Quat(0.0, 0.0, 0.0, 1.0)

  function Conj(q: Quat): Quat {
    Quat(-q.x, -q.y, -q.z, q.w)
  }

  function Norm2(q: Quat): real {
    q.x * q.x + q.y * q.y + q.z * q.z + q.w * q.w
  }

  function VecPart(q: Quat): Vec3 {
    Vec3(q.x, q.y, q.z)
  }

  function Pure(v: Vec3): Quat {
    Quat(v.x, v.y, v.z, 0.0)
  }

  /** `quat_mul`: the product q0 * q1 written out component by component. */
  function QuatMul(q0: Quat, q1: Quat): Quat {
    Quat(
      q0.w * q1.x + q0.x * q1.w + q0.y * q1.z - q0.z * q1.y,
      q0.w * q1.y + q0.y * q1.w + q0.z * q1.x - q0.x * q1.z,
      q0.w * q1.z + q0.z * q1.w + q0.x * q1.y - q0.y * q1.x,
      q0.w * q1.w - q0.x * q1.x - q0.y * q1.y - q0.z * q1.z)
  }

  /**
   * The textbook Hamilton product in scalar/vector form:
   * (s, u)(t, v) = (st - u.v, sv + tu + u x v).
   */
  function Hamilton(p: Quat, q: Quat): Quat {
    var u := VecPart(p);
    var v := VecPart(q);
    var r := Add(Add(Scale(p.w, v), Scale(q.w, u)), Cross(u, v));
    Quat(r.x, r.y, r.z, p.w * q.w - Dot(u, v))
  }

  /** The component-wise formula of `quat_mul` is the Hamilton product. */
  lemma QuatMulIsHamilton(p: Quat, q: Quat)
    ensures QuatMul(p, q) == Hamilton(p, q)
  {
  }

  /** (0, 0, 0, 1) is a two-sided identity of `quat_mul`. */
  lemma QuatMulIdentity(q: Quat)
    ensures QuatMul(Identity, q) == q
    ensures QuatMul(q, Identity) == q
  {
  }

  /** A quaternion times its conjugate is its squared norm, a pure real. */
  lemma QuatMulConj(q: Quat)
    ensures QuatMul(q, Conj(q)) == Quat(0.0, 0.0, 0.0, Norm2(q))
  {
  }

  /**
   * Component c of (a * b) * c == a * (b * c) over plain reals: the three factors
   * are given by their coefficients (suffixes 1, 2, 3), ab and bc by theirs.
   */
  lemma AssociativeComponentX(x1: real, y1: real, z1: real, w1: real, x2: real, y2: real, z2: real, w2: real, x3: real, y3: real, z3: real, w3: real,
      abx: real, aby: real, abz: real, abw: real, bcx: real, bcy: real, bcz: real, bcw: real)
    requires abx == w1 * x2 + x1 * w2 + y1 * z2 - z1 * y2
    requires aby == w1 * y2 + y1 * w2 + z1 * x2 - x1 * z2
    requires abz == w1 * z2 + z1 * w2 + x1 * y2 - y1 * x2
    requires abw == w1 * w2 - x1 * x2 - y1 * y2 - z1 * z2
    requires bcx == w2 * x3 + x2 * w3 + y2 * z3 - z2 * y3
    requires bcy == w2 * y3 + y2 * w3 + z2 * x3 - x2 * z3
    requires bcz == w2 * z3 + z2 * w3 + x2 * y3 - y2 * x3
    requires bcw == w2 * w3 - x2 * x3 - y2 * y3 - z2 * z3
    ensures abw * x3 + abx * w3 + aby * z3 - abz * y3
         == w1 * bcx + x1 * bcw + y1 * bcz - z1 * bcy
  {
  }

  lemma AssociativeComponentY(x1: real, y1: real, z1: real, w1: real, x2: real, y2: real, z2: real, w2: real, x3: real, y3: real, z3: real, w3: real,
      abx: real, aby: real, abz: real, abw: real, bcx: real, bcy: real, bcz: real, bcw: real)
    requires abx == w1 * x2 + x1 * w2 + y1 * z2 - z1 * y2
    requires aby == w1 * y2 + y1 * w2 + z1 * x2 - x1 * z2
    requires abz == w1 * z2 + z1 * w2 + x1 * y2 - y1 * x2
    requires abw == w1 * w2 - x1 * x2 - y1 * y2 - z1 * z2
    requires bcx == w2 * x3 + x2 * w3 + y2 * z3 - z2 * y3
    requires bcy == w2 * y3 + y2 * w3 + z2 * x3 - x2 * z3
    requires bcz == w2 * z3 + z2 * w3 + x2 * y3 - y2 * x3
    requires bcw == w2 * w3 - x2 * x3 - y2 * y3 - z2 * z3
    ensures abw * y3 + aby * w3 + abz * x3 - abx * z3
         == w1 * bcy + y1 * bcw + z1 * bcx - x1 * bcz
  {
  }

  lemma AssociativeComponentZ(x1: real, y1: real, z1: real, w1: real, x2: real, y2: real, z2: real, w2: real, x3: real, y3: real, z3: real, w3: real,
      abx: real, aby: real, abz: real, abw: real, bcx: real, bcy: real, bcz: real, bcw: real)
    requires abx == w1 * x2 + x1 * w2 + y1 * z2 - z1 * y2
    requires aby == w1 * y2 + y1 * w2 + z1 * x2 - x1 * z2
    requires abz == w1 * z2 + z1 * w2 + x1 * y2 - y1 * x2
    requires abw == w1 * w2 - x1 * x2 - y1 * y2 - z1 * z2
    requires bcx == w2 * x3 + x2 * w3 + y2 * z3 - z2 * y3
    requires bcy == w2 * y3 + y2 * w3 + z2 * x3 - x2 * z3
    requires bcz == w2 * z3 + z2 * w3 + x2 * y3 - y2 * x3
    requires bcw == w2 * w3 - x2 * x3 - y2 * y3 - z2 * z3
    ensures abw * z3 + abz * w3 + abx * y3 - aby * x3
         == w1 * bcz + z1 * bcw + x1 * bcy - y1 * bcx
  {
  }

  lemma AssociativeComponentW(x1: real, y1: real, z1: real, w1: real, x2: real, y2: real, z2: real, w2: real, x3: real, y3: real, z3: real, w3: real,
      abx: real, aby: real, abz: real, abw: real, bcx: real, bcy: real, bcz: real, bcw: real)
    requires abx == w1 * x2 + x1 * w2 + y1 * z2 - z1 * y2
    requires aby == w1 * y2 + y1 * w2 + z1 * x2 - x1 * z2
    requires abz == w1 * z2 + z1 * w2 + x1 * y2 - y1 * x2
    requires abw == w1 * w2 - x1 * x2 - y1 * y2 - z1 * z2
    requires bcx == w2 * x3 + x2 * w3 + y2 * z3 - z2 * y3
    requires bcy == w2 * y3 + y2 * w3 + z2 * x3 - x2 * z3
    requires bcz == w2 * z3 + z2 * w3 + x2 * y3 - y2 * x3
    requires bcw == w2 * w3 - x2 * x3 - y2 * y3 - z2 * z3
    ensures abw * w3 - abx * x3 - aby * y3 - abz * z3
         == w1 * bcw - x1 * bcx - y1 * bcy - z1 * bcz
  {
  }

  lemma QuatMulAssociativeX(a: Quat, b: Quat, c: Quat)
    ensures QuatMul(QuatMul(a, b), c).x == QuatMul(a, QuatMul(b, c)).x
  {
    var ab, bc := QuatMul(a, b), QuatMul(b, c);
    var l, r := QuatMul(ab, c), QuatMul(a, bc);
    QuatMulValue(a, b);
    QuatMulValue(b, c);
    QuatMulValue(ab, c);
    QuatMulValue(a, bc);
    AssociativeComponentX(a.x, a.y, a.z, a.w, b.x, b.y, b.z, b.w, c.x, c.y, c.z, c.w,
      ab.x, ab.y, ab.z, ab.w, bc.x, bc.y, bc.z, bc.w);
  }

  lemma QuatMulAssociativeY(a: Quat, b: Quat, c: Quat)
    ensures QuatMul(QuatMul(a, b), c).y == QuatMul(a, QuatMul(b, c)).y
  {
    var ab, bc := QuatMul(a, b), QuatMul(b, c);
    var l, r := QuatMul(ab, c), QuatMul(a, bc);
    QuatMulValue(a, b);
    QuatMulValue(b, c);
    QuatMulValue(ab, c);
    QuatMulValue(a, bc);
    AssociativeComponentY(a.x, a.y, a.z, a.w, b.x, b.y, b.z, b.w, c.x, c.y, c.z, c.w,
      ab.x, ab.y, ab.z, ab.w, bc.x, bc.y, bc.z, bc.w);
  }

  lemma QuatMulAssociativeZ(a: Quat, b: Quat, c: Quat)
    ensures QuatMul(QuatMul(a, b), c).z == QuatMul(a, QuatMul(b, c)).z
  {
    var ab, bc := QuatMul(a, b), QuatMul(b, c);
    var l, r := QuatMul(ab, c), QuatMul(a, bc);
    QuatMulValue(a, b);
    QuatMulValue(b, c);
    QuatMulValue(ab, c);
    QuatMulValue(a, bc);
    AssociativeComponentZ(a.x, a.y, a.z, a.w, b.x, b.y, b.z, b.w, c.x, c.y, c.z, c.w,
      ab.x, ab.y, ab.z, ab.w, bc.x, bc.y, bc.z, bc.w);
  }

  lemma QuatMulAssociativeW(a: Quat, b: Quat, c: Quat)
    ensures QuatMul(QuatMul(a, b), c).w == QuatMul(a, QuatMul(b, c)).w
  {
    var ab, bc := QuatMul(a, b), QuatMul(b, c);
    var l, r := QuatMul(ab, c), QuatMul(a, bc);
    QuatMulValue(a, b);
    QuatMulValue(b, c);
    QuatMulValue(ab, c);
    QuatMulValue(a, bc);
    AssociativeComponentW(a.x, a.y, a.z, a.w, b.x, b.y, b.z, b.w, c.x, c.y, c.z, c.w,
      ab.x, ab.y, ab.z, ab.w, bc.x, bc.y, bc.z, bc.w);
  }

  /** `quat_mul` is associative, as the Hamilton product is. */
  lemma QuatMulAssociative(a: Quat, b: Quat, c: Quat)
    ensures QuatMul(QuatMul(a, b), c) == QuatMul(a, QuatMul(b, c))
  {
    QuatMulAssociativeX(a, b, c);
    QuatMulAssociativeY(a, b, c);
    QuatMulAssociativeZ(a, b, c);
    QuatMulAssociativeW(a, b, c);
  }

  /** Euler's four-square identity over plain reals; r holds the product's coefficients. */
  lemma FourSquare(x1: real, y1: real, z1: real, w1: real, x2: real, y2: real, z2: real, w2: real,
                   rx: real, ry: real, rz: real, rw: real)
    requires rx == w1 * x2 + x1 * w2 + y1 * z2 - z1 * y2
    requires ry == w1 * y2 + y1 * w2 + z1 * x2 - x1 * z2
    requires rz == w1 * z2 + z1 * w2 + x1 * y2 - y1 * x2
    requires rw == w1 * w2 - x1 * x2 - y1 * y2 - z1 * z2
    ensures rx * rx + ry * ry + rz * rz + rw * rw
         == (x1 * x1 + y1 * y1 + z1 * z1 + w1 * w1) * (x2 * x2 + y2 * y2 + z2 * z2 + w2 * w2)
  {
  }

  lemma ProductOfEquals(a: real, b: real, c: real, d: real)
    requires a == c && b == d
    ensures a * b == c * d
  {
  }

  /** The four-square identity with the three squared norms named. */
  lemma FourSquareNamed(x1: real, y1: real, z1: real, w1: real, x2: real, y2: real, z2: real, w2: real,
                        rx: real, ry: real, rz: real, rw: real, n1: real, n2: real, n: real)
    requires n == rx * rx + ry * ry + rz * rz + rw * rw
    requires n1 == x1 * x1 + y1 * y1 + z1 * z1 + w1 * w1
    requires n2 == x2 * x2 + y2 * y2 + z2 * z2 + w2 * w2
    requires rx == w1 * x2 + x1 * w2 + y1 * z2 - z1 * y2
    requires ry == w1 * y2 + y1 * w2 + z1 * x2 - x1 * z2
    requires rz == w1 * z2 + z1 * w2 + x1 * y2 - y1 * x2
    requires rw == w1 * w2 - x1 * x2 - y1 * y2 - z1 * z2
    ensures n == n1 * n2
  {
    FourSquare(x1, y1, z1, w1, x2, y2, z2, w2, rx, ry, rz, rw);
    ProductOfEquals(n1, n2, x1 * x1 + y1 * y1 + z1 * z1 + w1 * w1, x2 * x2 + y2 * y2 + z2 * z2 + w2 * w2);
  }

  /** `quat_mul` written out, as a fact about a given pair. */
  lemma QuatMulValue(p: Quat, q: Quat)
    ensures QuatMul(p, q) == Quat(p.w * q.x + p.x * q.w + p.y * q.z - p.z * q.y, p.w * q.y + p.y * q.w + p.z * q.x - p.x * q.z,
                         p.w * q.z + p.z * q.w + p.x * q.y - p.y * q.x, p.w * q.w - p.x * q.x - p.y * q.y - p.z * q.z)
  {
  }

  /** Norm2 written out, as a fact about a given value. */
  lemma Norm2Value(q: Quat, n: real)
    requires n == Norm2(q)
    ensures n == q.x * q.x + q.y * q.y + q.z * q.z + q.w * q.w
  {
  }

  /** The four-square identity for r = p * q, with the norms passed as plain reals. */
  lemma QuatMulNormValues(p: Quat, q: Quat, r: Quat, n1: real, n2: real, n: real)
    requires n == r.x * r.x + r.y * r.y + r.z * r.z + r.w * r.w
    requires n1 == p.x * p.x + p.y * p.y + p.z * p.z + p.w * p.w
    requires n2 == q.x * q.x + q.y * q.y + q.z * q.z + q.w * q.w
    requires r == Quat(p.w * q.x + p.x * q.w + p.y * q.z - p.z * q.y, p.w * q.y + p.y * q.w + p.z * q.x - p.x * q.z,
                       p.w * q.z + p.z * q.w + p.x * q.y - p.y * q.x, p.w * q.w - p.x * q.x - p.y * q.y - p.z * q.z)
    ensures n == n1 * n2
  {
    FourSquareNamed(p.x, p.y, p.z, p.w, q.x, q.y, q.z, q.w, r.x, r.y, r.z, r.w, n1, n2, n);
  }

  /** The squared norm is multiplicative. */
  lemma QuatMulNorm(p: Quat, q: Quat)
    ensures Norm2(QuatMul(p, q)) == Norm2(p) * Norm2(q)
  {
    var r := QuatMul(p, q);
    QuatMulValue(p, q);
    Norm2Value(r, Norm2(r));
    Norm2Value(p, Norm2(p));
    Norm2Value(q, Norm2(q));
    QuatMulNormValues(p, q, r, Norm2(p), Norm2(q), Norm2(r));
  }

  /** `quat_rotate`: v + 2 * cross(q.xyz, cross(q.xyz, v) + q.w * v). */
  function QuatRotate(v: Vec3, q: Quat): Vec3 {
    var u := VecPart(q);
    var a := Add(Cross(u, v), Scale(q.w, v));
    var b := Cross(u, a);
    Add(v, Scale(2.0, b))
  }

  /** The identity quaternion leaves every vector unchanged. */
  lemma QuatRotateIdentity(v: Vec3)
    ensures QuatRotate(v, Identity) == v
  {
    assert VecPart(Identity) == Zero;
    assert Add(Cross(Zero, v), Scale(Identity.w, v)) == v;
    assert Cross(Zero, v) == Zero;
    assert Add(v, Scale(2.0, Zero)) == v;
  }

  /** `quat_rotate` is additive in the vector. */
  lemma QuatRotateAdditive(s: Vec3, t: Vec3, q: Quat)
    ensures QuatRotate(Add(s, t), q) == Add(QuatRotate(s, q), QuatRotate(t, q))
  {
    var u := VecPart(q);
    var aS, aT := Add(Cross(u, s), Scale(q.w, s)), Add(Cross(u, t), Scale(q.w, t));
    CrossAddRight(u, s, t);
    ScaleAdd(q.w, s, t);
    assert Add(Cross(u, Add(s, t)), Scale(q.w, Add(s, t))) == Add(aS, aT);
    CrossAddRight(u, aS, aT);
    ScaleAdd(2.0, Cross(u, aS), Cross(u, aT));
  }

  /** `quat_rotate` commutes with scaling the vector. */
  lemma QuatRotateHomogeneous(k: real, v: Vec3, q: Quat)
    ensures QuatRotate(Scale(k, v), q) == Scale(k, QuatRotate(v, q))
  {
    var u := VecPart(q);
    var a := Add(Cross(u, v), Scale(q.w, v));
    CrossScaleRight(u, k, v);
    ScaleScale(q.w, k, v);
    ScaleAdd(k, Cross(u, v), Scale(q.w, v));
    assert Add(Cross(u, Scale(k, v)), Scale(q.w, Scale(k, v))) == Scale(k, a);
    CrossScaleRight(u, k, a);
    ScaleScale(2.0, k, Cross(u, a));
    ScaleAdd(k, v, Scale(2.0, Cross(u, a)));
  }

  /** Negating the vector negates the rotated vector, and the zero vector stays put. */
  lemma QuatRotateNeg(v: Vec3, q: Quat)
    ensures QuatRotate(Neg(v), q) == Neg(QuatRotate(v, q))
    ensures QuatRotate(Zero, q) == Zero
  {
    QuatRotateHomogeneous(-1.0, v, q);
    assert Scale(-1.0, v) == Neg(v);
    assert Scale(-1.0, QuatRotate(v, q)) == Neg(QuatRotate(v, q));
    QuatRotateHomogeneous(0.0, v, q);
    assert Scale(0.0, v) == Zero;
    assert Scale(0.0, QuatRotate(v, q)) == Zero;
  }

  /**
   * q * (v, 0) * conj(q) over plain reals, for q = (x, y, z, w) and v = (p1, p2, p3):
   * m = q * (v, 0), s = m * conj(q), a = cross(q.xyz, v) + w v and b = cross(q.xyz, a)
   * as in `quat_rotate`. The sandwich differs from v + 2 b by e v, where e = |q|^2 - 1.
   */
  lemma Sandwich(x: real, y: real, z: real, w: real, p1: real, p2: real, p3: real,
                 mx: real, my: real, mz: real, mw: real, sx: real, sy: real, sz: real, sw: real,
                 ax: real, ay: real, az: real, bx: real, b2: real, bz: real, e: real)
    requires e == x * x + y * y + z * z + w * w - 1.0
    requires mx == w * p1 + y * p3 - z * p2
    requires my == w * p2 + z * p1 - x * p3
    requires mz == w * p3 + x * p2 - y * p1
    requires mw == -(x * p1) - y * p2 - z * p3
    requires sx == mw * -x + mx * w + my * -z - mz * -y
    requires sy == mw * -y + my * w + mz * -x - mx * -z
    requires sz == mw * -z + mz * w + mx * -y - my * -x
    requires sw == mw * w - mx * -x - my * -y - mz * -z
    requires ax == y * p3 - z * p2 + w * p1
    requires ay == z * p1 - x * p3 + w * p2
    requires az == x * p2 - y * p1 + w * p3
    requires bx == y * az - z * ay
    requires b2 == z * ax - x * az
    requires bz == x * ay - y * ax
    ensures sw == 0.0
    ensures sx == p1 + 2.0 * bx + e * p1
    ensures sy == p2 + 2.0 * b2 + e * p2
    ensures sz == p3 + 2.0 * bz + e * p3
  {
  }

  lemma ZeroFactor(k: real, p: real)
    requires k == 0.0
    ensures k * p == 0.0
  {
  }

  /** The sandwich identity with every intermediate value of both computations named. */
  lemma SandwichValues(v: Vec3, q: Quat, m: Quat, s: Quat, a: Vec3, b: Vec3, e: real)
    requires a == Vec3(q.y * v.z - q.z * v.y + q.w * v.x, q.z * v.x - q.x * v.z + q.w * v.y,
                       q.x * v.y - q.y * v.x + q.w * v.z)
    requires b == Vec3(q.y * a.z - q.z * a.y, q.z * a.x - q.x * a.z, q.x * a.y - q.y * a.x)
    requires m == Quat(q.w * v.x + q.y * v.z - q.z * v.y, q.w * v.y + q.z * v.x - q.x * v.z,
                       q.w * v.z + q.x * v.y - q.y * v.x, -(q.x * v.x) - q.y * v.y - q.z * v.z)
    requires s == Quat(m.w * -q.x + m.x * q.w + m.y * -q.z - m.z * -q.y,
                       m.w * -q.y + m.y * q.w + m.z * -q.x - m.x * -q.z,
                       m.w * -q.z + m.z * q.w + m.x * -q.y - m.y * -q.x,
                       m.w * q.w - m.x * -q.x - m.y * -q.y - m.z * -q.z)
    requires e == q.x * q.x + q.y * q.y + q.z * q.z + q.w * q.w - 1.0 && e == 0.0
    ensures s.w == 0.0
    ensures s.x == v.x + 2.0 * b.x && s.y == v.y + 2.0 * b.y && s.z == v.z + 2.0 * b.z
  {
    Sandwich(q.x, q.y, q.z, q.w, v.x, v.y, v.z, m.x, m.y, m.z, m.w, s.x, s.y, s.z, s.w,
             a.x, a.y, a.z, b.x, b.y, b.z, e);
    ZeroFactor(e, v.x);
    ZeroFactor(e, v.y);
    ZeroFactor(e, v.z);
  }

  /** The first intermediate vector of `quat_rotate`, component by component. */
  lemma RotateFirstStep(v: Vec3, q: Quat)
    ensures Add(Cross(VecPart(q), v), Scale(q.w, v))
         == Vec3(q.y * v.z - q.z * v.y + q.w * v.x, q.z * v.x - q.x * v.z + q.w * v.y,
                 q.x * v.y - q.y * v.x + q.w * v.z)
  {
  }

  /** The second intermediate vector of `quat_rotate`, component by component. */
  lemma RotateSecondStep(a: Vec3, q: Quat)
    ensures Cross(VecPart(q), a) == Vec3(q.y * a.z - q.z * a.y, q.z * a.x - q.x * a.z, q.x * a.y - q.y * a.x)
  {
  }

  /** The left product of the sandwich q * (v, 0) * conj(q), component by component. */
  lemma SandwichFirstStep(v: Vec3, q: Quat)
    ensures QuatMul(q, Pure(v))
         == Quat(q.w * v.x + q.y * v.z - q.z * v.y, q.w * v.y + q.z * v.x - q.x * v.z,
                 q.w * v.z + q.x * v.y - q.y * v.x, -(q.x * v.x) - q.y * v.y - q.z * v.z)
  {
  }

  /** The right product of the sandwich q * (v, 0) * conj(q), component by component. */
  lemma SandwichSecondStep(m: Quat, q: Quat)
    ensures QuatMul(m, Conj(q))
         == Quat(m.w * -q.x + m.x * q.w + m.y * -q.z - m.z * -q.y,
                 m.w * -q.y + m.y * q.w + m.z * -q.x - m.x * -q.z,
                 m.w * -q.z + m.z * q.w + m.x * -q.y - m.y * -q.x,
                 m.w * q.w - m.x * -q.x - m.y * -q.y - m.z * -q.z)
  {
    SandwichSecondX(m, q);
    SandwichSecondY(m, q);
    SandwichSecondZ(m, q);
    SandwichSecondW(m, q);
  }

  lemma SandwichSecondX(m: Quat, q: Quat)
    ensures QuatMul(m, Conj(q)).x == m.w * -q.x + m.x * q.w + m.y * -q.z - m.z * -q.y
  {
  }

  lemma SandwichSecondY(m: Quat, q: Quat)
    ensures QuatMul(m, Conj(q)).y == m.w * -q.y + m.y * q.w + m.z * -q.x - m.x * -q.z
  {
  }

  lemma SandwichSecondZ(m: Quat, q: Quat)
    ensures QuatMul(m, Conj(q)).z == m.w * -q.z + m.z * q.w + m.x * -q.y - m.y * -q.x
  {
  }

  lemma SandwichSecondW(m: Quat, q: Quat)
    ensures QuatMul(m, Conj(q)).w == m.w * q.w - m.x * -q.x - m.y * -q.y - m.z * -q.z
  {
  }

  /**
   * For a unit quaternion, `quat_rotate` is the vector part of q * (v, 0) * conj(q),
   * whose real part is zero.
   */
  lemma QuatRotateIsSandwich(v: Vec3, q: Quat)
    requires Norm2(q) == 1.0
    ensures QuatMul(QuatMul(q, Pure(v)), Conj(q)).w == 0.0
    ensures QuatRotate(v, q) == VecPart(QuatMul(QuatMul(q, Pure(v)), Conj(q)))
  {
    var m := QuatMul(q, Pure(v));
    var s := QuatMul(m, Conj(q));
    var a := Add(Cross(VecPart(q), v), Scale(q.w, v));
    var b := Cross(VecPart(q), a);
    RotateFirstStep(v, q);
    RotateSecondStep(a, q);
    SandwichFirstStep(v, q);
    SandwichSecondStep(m, q);
    SandwichValues(v, q, m, s, a, b, Norm2(q) - 1.0);
  }

  /** A unit quaternion rotates without changing the squared length. */
  lemma QuatRotatePreservesLength(v: Vec3, q: Quat)
    requires Norm2(q) == 1.0
    ensures SqrLen(QuatRotate(v, q)) == SqrLen(v)
  {
    QuatRotateIsSandwich(v, q);
    var m := QuatMul(q, Pure(v));
    var s := QuatMul(m, Conj(q));
    assert Norm2(Pure(v)) == SqrLen(v);
    assert Norm2(Conj(q)) == Norm2(q);
    assert SqrLen(QuatRotate(v, q)) == Norm2(s);
    QuatMulNorm(q, Pure(v));
    QuatMulNorm(m, Conj(q));
  }

  /** Slerp's cosine of the half angle: the 4D dot product of the two quaternions. */
  function CosHalfTheta(qa: Quat, qb: Quat): real {
    qa.w * qb.w + qa.x * qb.x + qa.y * qb.y + qa.z * qb.z
  }

  /**
   * `slerp`. Only the two early exits are interpreted: |cos| >= 1 returns `qa`,
   * and a half-angle sine below 0.001 (written on its square, so no square root
   * is needed) returns the average. The general branch, built on `acos` and `sin`,
   * is the parameter `general`.
   */
  function Slerp(qa: Quat, qb: Quat, t: real, general: (Quat, Quat, real) -> Quat): (r: Quat)
    ensures CosHalfTheta(qa, qb) >= 1.0 || CosHalfTheta(qa, qb) <= -1.0 ==> r == qa
    ensures -1.0 < CosHalfTheta(qa, qb) < 1.0 && SineSquared(CosHalfTheta(qa, qb)) < 0.000001 ==>
      r.x + r.x == qa.x + qb.x && r.y + r.y == qa.y + qb.y && r.z + r.z == qa.z + qb.z && r.w + r.w == qa.w + qb.w
  {
    var c := CosHalfTheta(qa, qb);
    if c >= 1.0 || c <= -1.0 then qa
    else if SineSquared(c) < 0.000001 then
      Quat(qa.x * 0.5 + qb.x * 0.5, qa.y * 0.5 + qb.y * 0.5, qa.z * 0.5 + qb.z * 0.5, qa.w * 0.5 + qb.w * 0.5)
    else general(qa, qb, t)
  }

  /** The squared sine of the half angle whose cosine is `c`. */
  function SineSquared(c: real): real
  {
    1.0 - c * c
  }

  /**
   * The source tests the half-angle sine `sqrt(1 - c*c)` against 0.001; for
   * the non-negative root this is the same as testing `1 - c*c` against
   * 0.001 squared, which is how `Slerp` is written.
   */
  lemma SineTestOnSquare(c: real, sine: real)
    requires sine >= 0.0 && sine * sine == 1.0 - c * c
    ensures sine < 0.001 <==> SineSquared(c) < 0.000001
  {
    if sine < 0.001 {
      assert sine * sine <= sine * 0.001 < 0.001 * 0.001;
    } else {
      assert sine * sine >= sine * 0.001 >= 0.001 * 0.001;
    }
  }
}
