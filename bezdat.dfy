/**
 * The BezDat export: every trajectory becomes a chain of cubic Bezier
 * segments, obtained from Hermite segments whose tangents are half the
 * central differences of the samples (half the one-sided difference at
 * either end). The file is modelled as its sequence of records: the header,
 * then per trajectory its control points (`PT`) followed by one
 * connectivity record (`BC`) per segment, indexing the points of the whole
 * file.
 */
module Bezdat {
  import opened Vectors
  import opened MetatubeGeom

  datatype BezRecord =
    | Header
    | PT(pos: Vec3, radius: real)
    | BC(i0: nat, i1: nat, i2: nat, i3: nat)

  /**
   * The Hermite-to-Bezier basis as stored: sixteen values read column by
   * column, so entry (row k, column i) sits at 4i + k.
   */
  const H2BData: seq<real> := [
    1.0, 0.0,       0.0,       0.0,
    1.0, 1.0 / 3.0, 0.0,       0.0,
    0.0, 0.0,       -1.0 / 3.0, 1.0,
    0.0, 0.0,       0.0,       1.0 ]

  function H2B(k: nat, i: nat): real
    requires k < 4 && i < 4
  {
    H2BData[4 * i + k]
  }

  /** The combination a*c0 + b*c1 + c*c2 + d*c3 of four columns. */
  function Combine(a: real, b: real, c: real, d: real, c0: Vec3, c1: Vec3, c2: Vec3, c3: Vec3): Vec3 {
    Add(Add(Add(Scale(a, c0), Scale(b, c1)), Scale(c, c2)), Scale(d, c3))
  }

  /** Column `i` of M * H2B, where M has the columns c0..c3. */
  function Column(c0: Vec3, c1: Vec3, c2: Vec3, c3: Vec3, i: nat): Vec3
    requires i < 4
  {
    Combine(H2B(0, i), H2B(1, i), H2B(2, i), H2B(3, i), c0, c1, c2, c3)
  }

  /** Bezier control point `i` of the Hermite segment (P0, m0, m1, P1). */
  function BezierPoint(p0: Vec3, m0: Vec3, m1: Vec3, p1: Vec3, i: nat): Vec3
    requires i < 4
  {
    if i == 0 then p0
    else if i == 1 then Add(p0, Scale(1.0 / 3.0, m0))
    else if i == 2 then Sub(p1, Scale(1.0 / 3.0, m1))
    else p1
  }

  lemma CombineFirst(c0: Vec3, c1: Vec3, c2: Vec3, c3: Vec3)
    ensures Combine(1.0, 0.0, 0.0, 0.0, c0, c1, c2, c3) == c0
  {
    ScaleOne(c0); ScaleZero(c1); ScaleZero(c2); ScaleZero(c3);
    AddZero(c0);
  }

  lemma CombineSecond(c0: Vec3, c1: Vec3, c2: Vec3, c3: Vec3)
    ensures Combine(1.0, 1.0 / 3.0, 0.0, 0.0, c0, c1, c2, c3) == Add(c0, Scale(1.0 / 3.0, c1))
  {
    ScaleOne(c0); ScaleZero(c2); ScaleZero(c3);
    AddZero(Add(c0, Scale(1.0 / 3.0, c1)));
  }

  lemma CombineThird(c0: Vec3, c1: Vec3, c2: Vec3, c3: Vec3)
    ensures Combine(0.0, 0.0, -1.0 / 3.0, 1.0, c0, c1, c2, c3) == Sub(c3, Scale(1.0 / 3.0, c2))
  {
    ScaleZero(c0); ScaleZero(c1); ScaleOne(c3);
    AddZero(Zero);
    AddZero(Scale(-1.0 / 3.0, c2));
    AddNegScale(1.0 / 3.0, c2, c3);
  }

  lemma CombineLast(c0: Vec3, c1: Vec3, c2: Vec3, c3: Vec3)
    ensures Combine(0.0, 0.0, 0.0, 1.0, c0, c1, c2, c3) == c3
  {
    ScaleZero(c0); ScaleZero(c1); ScaleZero(c2); ScaleOne(c3);
    AddZero(Zero);
    AddZero(c3);
  }

  lemma H2BColumn0(p0: Vec3, m0: Vec3, m1: Vec3, p1: Vec3)
    ensures Column(p0, m0, m1, p1, 0) == p0
  {
    assert H2B(0, 0) == 1.0 && H2B(1, 0) == 0.0 && H2B(2, 0) == 0.0 && H2B(3, 0) == 0.0;
    CombineFirst(p0, m0, m1, p1);
  }

  lemma H2BColumn1(p0: Vec3, m0: Vec3, m1: Vec3, p1: Vec3)
    ensures Column(p0, m0, m1, p1, 1) == Add(p0, Scale(1.0 / 3.0, m0))
  {
    assert H2B(0, 1) == 1.0 && H2B(1, 1) == 1.0 / 3.0 && H2B(2, 1) == 0.0 && H2B(3, 1) == 0.0;
    CombineSecond(p0, m0, m1, p1);
  }

  lemma H2BColumn2(p0: Vec3, m0: Vec3, m1: Vec3, p1: Vec3)
    ensures Column(p0, m0, m1, p1, 2) == Sub(p1, Scale(1.0 / 3.0, m1))
  {
    assert H2B(0, 2) == 0.0 && H2B(1, 2) == 0.0 && H2B(2, 2) == -1.0 / 3.0 && H2B(3, 2) == 1.0;
    CombineThird(p0, m0, m1, p1);
  }

  lemma H2BColumn3(p0: Vec3, m0: Vec3, m1: Vec3, p1: Vec3)
    ensures Column(p0, m0, m1, p1, 3) == p1
  {
    assert H2B(0, 3) == 0.0 && H2B(1, 3) == 0.0 && H2B(2, 3) == 0.0 && H2B(3, 3) == 1.0;
    CombineLast(p0, m0, m1, p1);
  }

  /**
   * The basis change turns the Hermite data (P0, m0, m1, P1) into the Bezier
   * control points P0, P0 + m0/3, P1 - m1/3, P1.
   */
  lemma HermiteToBezier(p0: Vec3, m0: Vec3, m1: Vec3, p1: Vec3, i: nat)
    requires i < 4
    ensures Column(p0, m0, m1, p1, i) == BezierPoint(p0, m0, m1, p1, i)
  {
    if i == 0 {
      H2BColumn0(p0, m0, m1, p1);
    } else if i == 1 {
      H2BColumn1(p0, m0, m1, p1);
    } else if i == 2 {
      H2BColumn2(p0, m0, m1, p1);
    } else {
      H2BColumn3(p0, m0, m1, p1);
    }
  }

  /** The tube radius written with every point: the mean of the three axes. */
  function Radius(axes: Vec3): real {
    (Get(axes, MinAxisId(axes)) + Get(axes, MidAxisId(axes)) + Get(axes, MaxAxisId(axes))) / 3.0
  }

  /** Since the three selectors pick each axis once, the radius is the plain mean of the axes. */
  lemma RadiusIsMean(axes: Vec3)
    ensures Radius(axes) == (axes.x + axes.y + axes.z) / 3.0
  {
    AxisIdsPermutation(axes);
  }

  /** The Hermite tangent at sample `p`: half the difference to the neighbours present. */
  function Tangent(ps: seq<Vec3>, p: nat): Vec3
    requires 2 <= |ps| && p < |ps|
  {
    if p == 0 then Scale(0.5, Sub(ps[1], ps[0]))
    else if p == |ps| - 1 then Scale(0.5, Sub(ps[|ps| - 1], ps[|ps| - 2]))
    else Scale(0.5, Add(Sub(ps[p], ps[p - 1]), Sub(ps[p + 1], ps[p])))
  }

  /** Inside the trajectory the tangent is half the central difference. */
  lemma TangentCentral(ps: seq<Vec3>, p: nat)
    requires 2 <= |ps| && 0 < p < |ps| - 1
    ensures Tangent(ps, p) == Scale(0.5, Sub(ps[p + 1], ps[p - 1]))
  {
  }

  /** Control point `k` of a trajectory: three per segment, then the last sample. */
  function ControlPoint(ps: seq<Vec3>, k: nat): Vec3
    requires 2 <= |ps| && k <= 3 * (|ps| - 1)
  {
    if k == 3 * (|ps| - 1) then ps[|ps| - 1]
    else BezierPoint(ps[k / 3], Tangent(ps, k / 3), Tangent(ps, k / 3 + 1), ps[k / 3 + 1], k % 3)
  }

  /** The first and last legs of a Bezier segment are a third of its end tangents. */
  lemma SegmentLegs(p0: Vec3, m0: Vec3, m1: Vec3, p1: Vec3)
    ensures BezierPoint(p0, m0, m1, p1, 0) == p0 && BezierPoint(p0, m0, m1, p1, 3) == p1
    ensures Sub(BezierPoint(p0, m0, m1, p1, 1), BezierPoint(p0, m0, m1, p1, 0)) == Scale(1.0 / 3.0, m0)
    ensures Sub(BezierPoint(p0, m0, m1, p1, 3), BezierPoint(p0, m0, m1, p1, 2)) == Scale(1.0 / 3.0, m1)
  {
    SubOfAdd(p0, Scale(1.0 / 3.0, m0));
    SubOfSub(p1, Scale(1.0 / 3.0, m1));
  }

  /** Control point 3p + i is control point i of segment p. */
  lemma ControlPointAt(ps: seq<Vec3>, p: nat, i: nat)
    requires 2 <= |ps| && p < |ps| - 1 && i < 3
    ensures ControlPoint(ps, 3 * p + i) == BezierPoint(ps[p], Tangent(ps, p), Tangent(ps, p + 1), ps[p + 1], i)
  {
    assert (3 * p + i) / 3 == p && (3 * p + i) % 3 == i;
  }

  /** `ControlPointAt` for an index `k` written in any form. */
  lemma ControlPointIs(ps: seq<Vec3>, p: nat, i: nat, k: nat)
    requires 2 <= |ps| && p < |ps| - 1 && i < 3 && k == 3 * p + i
    ensures ControlPoint(ps, k) == BezierPoint(ps[p], Tangent(ps, p), Tangent(ps, p + 1), ps[p + 1], i)
  {
    ControlPointAt(ps, p, i);
  }

  /** The records of one trajectory whose first point gets index `base`. */
  function TrajRecords(ps: seq<Vec3>, radius: real, base: nat): (r: seq<BezRecord>)
    requires 2 <= |ps|
    ensures |r| == 3 * (|ps| - 1) + 1 + (|ps| - 1)
  {
    PointRecords(ps, radius, 3 * (|ps| - 1) + 1) + Connections(base, |ps| - 1)
  }

  /** The first `k` control points of a trajectory, each with the tube radius. */
  function PointRecords(ps: seq<Vec3>, radius: real, k: nat): (r: seq<BezRecord>)
    requires 2 <= |ps| && k <= 3 * (|ps| - 1) + 1
    ensures |r| == k
  {
    seq(k, j requires 0 <= j < k => PT(ControlPoint(ps, j), radius))
  }

  /** The connectivity records of the first `n` segments, from point index `base`. */
  function Connections(base: nat, n: nat): (r: seq<BezRecord>)
    ensures |r| == n
  {
    seq(n, p requires 0 <= p < n => BC(base + 3 * p, base + 3 * p + 1, base + 3 * p + 2, base + 3 * p + 3))
  }

  lemma PointRecordsSnoc(ps: seq<Vec3>, radius: real, k: nat)
    requires 2 <= |ps| && k < 3 * (|ps| - 1) + 1
    ensures PointRecords(ps, radius, k + 1) == PointRecords(ps, radius, k) + [PT(ControlPoint(ps, k), radius)]
  {
    assert PointRecords(ps, radius, k + 1)[..k] == PointRecords(ps, radius, k);
  }

  lemma ConnectionsSnoc(base: nat, n: nat)
    ensures Connections(base, n + 1) == Connections(base, n) + [BC(base + n * 3, base + n * 3 + 1, base + n * 3 + 2, base + n * 3 + 3)]
  {
    assert Connections(base, n + 1)[..n] == Connections(base, n);
  }

  /** Points written for one trajectory. */
  function PointCount(ps: seq<Vec3>): nat
    requires 2 <= |ps|
  {
    3 * (|ps| - 1) + 1
  }

  predicate Exportable(trajs: seq<seq<Vec3>>, axes: seq<Vec3>, axisIds: seq<nat>) {
    |axisIds| == |trajs| &&
    (forall t :: 0 <= t < |trajs| ==> 2 <= |trajs[t]|) &&
    (forall t :: 0 <= t < |axisIds| ==> axisIds[t] < |axes|)
  }

  /** The index of the first point of trajectory `t`. */
  function Base(trajs: seq<seq<Vec3>>, t: nat): nat
    requires t <= |trajs| && forall s :: 0 <= s < |trajs| ==> 2 <= |trajs[s]|
  {
    if t == 0 then 0 else Base(trajs, t - 1) + PointCount(trajs[t - 1])
  }

  /** The records of the first `t` trajectories. */
  function Records(trajs: seq<seq<Vec3>>, axes: seq<Vec3>, axisIds: seq<nat>, t: nat): seq<BezRecord>
    requires Exportable(trajs, axes, axisIds) && t <= |trajs|
  {
    if t == 0 then [] else
      Records(trajs, axes, axisIds, t - 1)
      + TrajRecords(trajs[t - 1], Radius(axes[axisIds[t - 1]]), Base(trajs, t - 1))
  }

  // ---------------------------------------------------------------------
  // The writer

  /** The tangent array `m`, filled first, middle, last. */
  method Tangents(ps: seq<Vec3>) returns (m: seq<Vec3>)
    requires 2 <= |ps|
    ensures |m| == |ps|
    ensures forall p :: 0 <= p < |ps| ==> m[p] == Tangent(ps, p)
  {
    var n := |ps|;
    m := [Scale(0.5, Sub(ps[1], ps[0]))];
    var p := 1;
    while p < n - 1
      invariant 1 <= p <= n - 1 && |m| == p
      invariant forall q :: 0 <= q < p ==> m[q] == Tangent(ps, q)
    {
      m := m + [Scale(0.5, Add(Sub(ps[p], ps[p - 1]), Sub(ps[p + 1], ps[p])))];
      p := p + 1;
    }
    m := m + [Scale(0.5, Sub(ps[n - 1], ps[n - 2]))];
  }

  /** Column `i` of the Hermite data of segment `p` is control point 3p + i. */
  lemma ColumnIsControlPoint(ps: seq<Vec3>, p: nat, i: nat, k: nat)
    requires 2 <= |ps| && p < |ps| - 1 && i < 3 && k == 3 * p + i
    ensures Column(ps[p], Tangent(ps, p), Tangent(ps, p + 1), ps[p + 1], i) == ControlPoint(ps, k)
  {
    ControlPointIs(ps, p, i, k);
    HermiteToBezier(ps[p], Tangent(ps, p), Tangent(ps, p + 1), ps[p + 1], i);
  }

  /** The records of one trajectory: control points, last sample, connectivity. */
  method WriteTrajectory(ps: seq<Vec3>, radius: real, base: nat) returns (recs: seq<BezRecord>)
    requires 2 <= |ps|
    ensures recs == TrajRecords(ps, radius, base)
  {
    var n := |ps|;
    var m := Tangents(ps);
    recs := [];
    var p := 0;
    while p < n - 1
      invariant 0 <= p <= n - 1 && recs == PointRecords(ps, radius, 3 * p)
    {
      var i := 0;
      while i < 3
        invariant 0 <= i <= 3 && recs == PointRecords(ps, radius, 3 * p + i)
      {
        ghost var k := 3 * p + i;
        assert m[p] == Tangent(ps, p) && m[p + 1] == Tangent(ps, p + 1);
        ColumnIsControlPoint(ps, p, i, k);
        PointRecordsSnoc(ps, radius, k);
        recs := recs + [PT(Column(ps[p], m[p], m[p + 1], ps[p + 1], i), radius)];
        assert recs == PointRecords(ps, radius, k + 1);
        i := i + 1;
      }
      p := p + 1;
    }
    PointRecordsSnoc(ps, radius, 3 * (n - 1));
    recs := recs + [PT(ps[n - 1], radius)];
    var bcs: seq<BezRecord> := [];
    p := 0;
    while p < n - 1
      invariant 0 <= p <= n - 1 && bcs == Connections(base, p)
    {
      ConnectionsSnoc(base, p);
      bcs := bcs + [BC(base + p * 3, base + p * 3 + 1, base + p * 3 + 2, base + p * 3 + 3)];
      p := p + 1;
    }
    recs := recs + bcs;
  }

  /** Writing trajectory `t` after the header and the first `t` trajectories. */
  lemma RecordsSnoc(trajs: seq<seq<Vec3>>, axes: seq<Vec3>, axisIds: seq<nat>, t: nat)
    requires Exportable(trajs, axes, axisIds) && t < |trajs|
    ensures ([Header] + Records(trajs, axes, axisIds, t))
            + TrajRecords(trajs[t], Radius(axes[axisIds[t]]), Base(trajs, t))
            == [Header] + Records(trajs, axes, axisIds, t + 1)
    ensures Base(trajs, t + 1) == Base(trajs, t) + (|trajs[t]| - 1) * 3 + 1
  {
    var before, recs := Records(trajs, axes, axisIds, t), TrajRecords(trajs[t], Radius(axes[axisIds[t]]), Base(trajs, t));
    assert Records(trajs, axes, axisIds, t + 1) == before + recs;
    assert ([Header] + before) + recs == [Header] + (before + recs);
  }

  /** One pass of `export_bezdat`'s loop: trajectory `t` written from the running point index. */
  method AppendTrajectory(records: seq<BezRecord>, trajs: seq<seq<Vec3>>, axes: seq<Vec3>, axisIds: seq<nat>,
                          t: nat, pointsWritten: nat)
    returns (records': seq<BezRecord>, pointsWritten': nat)
    requires Exportable(trajs, axes, axisIds) && t < |trajs|
    requires pointsWritten == Base(trajs, t) && records == [Header] + Records(trajs, axes, axisIds, t)
    ensures pointsWritten' == Base(trajs, t + 1)
    ensures records' == [Header] + Records(trajs, axes, axisIds, t + 1)
  {
    var recs := WriteTrajectory(trajs[t], Radius(axes[axisIds[t]]), pointsWritten);
    RecordsSnoc(trajs, axes, axisIds, t);
    records' := records + recs;
    pointsWritten' := pointsWritten + (|trajs[t]| - 1) * 3 + 1;
  }

  /** `export_bezdat`: the header, then every trajectory's records with a running point index. */
  method ExportBezdat(trajs: seq<seq<Vec3>>, axes: seq<Vec3>, axisIds: seq<nat>) returns (records: seq<BezRecord>)
    requires Exportable(trajs, axes, axisIds)
    ensures records == [Header] + Records(trajs, axes, axisIds, |trajs|)
  {
    records := [Header];
    var pointsWritten: nat := 0;
    var t := 0;
    while t < |trajs|
      invariant 0 <= t <= |trajs|
      invariant pointsWritten == Base(trajs, t)
      invariant records == [Header] + Records(trajs, axes, axisIds, t)
    {
      records, pointsWritten := AppendTrajectory(records, trajs, axes, axisIds, t, pointsWritten);
      t := t + 1;
    }
  }

  // ---------------------------------------------------------------------
  // Properties

  /** The Bezier chain passes through every sample: control point 3p is sample p. */
  lemma Interpolates(ps: seq<Vec3>, p: nat)
    requires 2 <= |ps| && p < |ps|
    ensures ControlPoint(ps, 3 * p) == ps[p]
  {
    if p < |ps| - 1 {
      ControlPointAt(ps, p, 0);
    }
  }

  /** `Interpolates` for an index `k` written in any form. */
  lemma InterpolatesAt(ps: seq<Vec3>, p: nat, k: nat)
    requires 2 <= |ps| && p < |ps| && k == 3 * p
    ensures ControlPoint(ps, k) == ps[p]
  {
    Interpolates(ps, p);
  }

  /**
   * Consecutive segments meet with the same tangent: the last leg of
   * segment p and the first leg of segment p + 1 both equal a third of the
   * Hermite tangent at sample p + 1.
   */
  lemma TangentContinuity(ps: seq<Vec3>, p: nat)
    requires 2 <= |ps| && p + 2 < |ps|
    ensures Sub(ControlPoint(ps, 3 * p + 3), ControlPoint(ps, 3 * p + 2))
         == Scale(1.0 / 3.0, Tangent(ps, p + 1))
    ensures Sub(ControlPoint(ps, 3 * p + 4), ControlPoint(ps, 3 * p + 3))
         == Scale(1.0 / 3.0, Tangent(ps, p + 1))
  {
    LegInto(ps, p);
    LegOut(ps, p);
  }

  /** The last leg of segment p is a third of the tangent at sample p + 1. */
  lemma LegInto(ps: seq<Vec3>, p: nat)
    requires 2 <= |ps| && p + 1 < |ps|
    ensures Sub(ControlPoint(ps, 3 * p + 3), ControlPoint(ps, 3 * p + 2))
         == Scale(1.0 / 3.0, Tangent(ps, p + 1))
  {
    ControlPointIs(ps, p, 2, 3 * p + 2);
    InterpolatesAt(ps, p + 1, 3 * p + 3);
    SegmentLegs(ps[p], Tangent(ps, p), Tangent(ps, p + 1), ps[p + 1]);
  }

  /** The first leg of segment p + 1 is a third of the tangent at sample p + 1. */
  lemma LegOut(ps: seq<Vec3>, p: nat)
    requires 2 <= |ps| && p + 2 < |ps|
    ensures Sub(ControlPoint(ps, 3 * p + 4), ControlPoint(ps, 3 * p + 3))
         == Scale(1.0 / 3.0, Tangent(ps, p + 1))
  {
    var q := p + 1;
    ControlPointIs(ps, q, 1, 3 * p + 4);
    ControlPointIs(ps, q, 0, 3 * p + 3);
    SegmentLegs(ps[q], Tangent(ps, q), Tangent(ps, q + 1), ps[q + 1]);
  }

  /**
   * A trajectory's connectivity records name four consecutive points of its
   * own, consecutive records share an end point, and all lie below the
   * trajectory's end index.
   */
  lemma ConnectivityInRange(ps: seq<Vec3>, radius: real, base: nat)
    requires 2 <= |ps|
    ensures var r := TrajRecords(ps, radius, base);
      var bc := r[PointCount(ps)..];
      |bc| == |ps| - 1 &&
      (forall p :: 0 <= p < |bc| ==>
        bc[p].BC? && base <= bc[p].i0 &&
        bc[p].i1 == bc[p].i0 + 1 && bc[p].i2 == bc[p].i0 + 2 && bc[p].i3 == bc[p].i0 + 3 &&
        bc[p].i3 < base + PointCount(ps)) &&
      (forall p :: 0 < p < |bc| ==> bc[p].i0 == bc[p - 1].i3) &&
      (forall k :: 0 <= k < PointCount(ps) ==> r[k].PT?)
  {
  }

  /** The whole file: the point count of the first t trajectories is the next base index. */
  lemma {:induction false} RecordsPointCount(trajs: seq<seq<Vec3>>, axes: seq<Vec3>, axisIds: seq<nat>, t: nat)
    requires Exportable(trajs, axes, axisIds) && t <= |trajs|
    ensures CountPT(Records(trajs, axes, axisIds, t)) == Base(trajs, t)
  {
    if t > 0 {
      RecordsPointCount(trajs, axes, axisIds, t - 1);
      var ps := trajs[t - 1];
      var r := TrajRecords(ps, Radius(axes[axisIds[t - 1]]), Base(trajs, t - 1));
      CountPTAppend(Records(trajs, axes, axisIds, t - 1), r);
      TrajPointCount(ps, Radius(axes[axisIds[t - 1]]), Base(trajs, t - 1));
    }
  }

  /** One trajectory writes exactly its point count of point records. */
  lemma TrajPointCount(ps: seq<Vec3>, radius: real, base: nat)
    requires 2 <= |ps|
    ensures CountPT(TrajRecords(ps, radius, base)) == PointCount(ps)
  {
    var r := TrajRecords(ps, radius, base);
    assert r == r[..PointCount(ps)] + r[PointCount(ps)..];
    CountPTAppend(r[..PointCount(ps)], r[PointCount(ps)..]);
    CountPTAll(r[..PointCount(ps)]);
    CountPTNone(r[PointCount(ps)..]);
  }

  /** The number of point records. */
  function CountPT(r: seq<BezRecord>): nat {
    if |r| == 0 then 0 else CountPT(r[..|r| - 1]) + (if r[|r| - 1].PT? then 1 else 0)
  }

  lemma {:induction false} CountPTAppend(a: seq<BezRecord>, b: seq<BezRecord>)
    ensures CountPT(a + b) == CountPT(a) + CountPT(b)
    decreases |b|
  {
    if |b| > 0 {
      assert (a + b)[..|a + b| - 1] == a + b[..|b| - 1];
      CountPTAppend(a, b[..|b| - 1]);
    } else {
      assert a + b == a;
    }
  }

  lemma {:induction false} CountPTAll(r: seq<BezRecord>)
    requires forall k :: 0 <= k < |r| ==> r[k].PT?
    ensures CountPT(r) == |r|
    decreases |r|
  {
    if |r| > 0 {
      CountPTAll(r[..|r| - 1]);
    }
  }

  lemma {:induction false} CountPTNone(r: seq<BezRecord>)
    requires forall k :: 0 <= k < |r| ==> !r[k].PT?
    ensures CountPT(r) == 0
    decreases |r|
  {
    if |r| > 0 {
      CountPTNone(r[..|r| - 1]);
    }
  }
}
