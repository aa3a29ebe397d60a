/**
 * Axis-aligned bounding boxes folded over position samples, as the data
 * class computes them for the whole data set and for every trajectory.
 * NaN samples never win a comparison, so they leave a box unchanged.
 */
module BoundingBoxes {
  import opened Vectors
  import opened Trajectories

  /** `numeric_limits<float>::max()`. */
  const FltMax: real := 340282346638528859811704183484516925440.0
  /** `numeric_limits<float>::min()`: the smallest positive normal float, 2^-126. */
  const FltMin: real := 1.0 / 85070591730234615865843651857942052864.0

  datatype Bounds = Bounds(min: Vec3, max: Vec3)

  /** The initial box as written: `max` starts at the smallest positive float. */
  const InitialAsWritten: Bounds := Bounds(Vec3(FltMax, FltMax, FltMax), Vec3(FltMin, FltMin, FltMin))

  /** The initial box as intended: `max` starts at the lowest float. */
  const Initial: Bounds := Bounds(Vec3(FltMax, FltMax, FltMax), Vec3(-FltMax, -FltMax, -FltMax))

  function Lower(m: Vec3, p: Vec3): Vec3 {
    Vec3(if p.x < m.x then p.x else m.x, if p.y < m.y then p.y else m.y, if p.z < m.z then p.z else m.z)
  }

  function Upper(m: Vec3, p: Vec3): Vec3 {
    Vec3(if p.x > m.x then p.x else m.x, if p.y > m.y then p.y else m.y, if p.z > m.z then p.z else m.z)
  }

  /** The six strict comparisons of one sample against the box. */
  function Cover(b: Bounds, c: Cell<Vec3>): Bounds {
    match c
    case NaN => b
    case Val(p) => Bounds(Lower(b.min, p), Upper(b.max, p))
  }

  /** The box after covering the samples in order. */
  function Fold(b: Bounds, cells: seq<Cell<Vec3>>): Bounds
    decreases |cells|
  {
    if |cells| == 0 then b else Cover(Fold(b, cells[..|cells| - 1]), cells[|cells| - 1])
  }

  /** `min + (max - min) / 2`. */
  function Center(b: Bounds): (c: Vec3)
    ensures c == Vec3((b.min.x + b.max.x) / 2.0, (b.min.y + b.max.y) / 2.0, (b.min.z + b.max.z) / 2.0)
  {
    var d := Sub(b.max, b.min);
    Add(b.min, Vec3(d.x / 2.0, d.y / 2.0, d.z / 2.0))
  }

  predicate Within(b: Bounds, p: Vec3) {
    b.min.x <= p.x <= b.max.x && b.min.y <= p.y <= b.max.y && b.min.z <= p.z <= b.max.z
  }

  /** `outer` contains `inner` on every axis. */
  predicate Encloses(outer: Bounds, inner: Bounds) {
    outer.min.x <= inner.min.x && outer.min.y <= inner.min.y && outer.min.z <= inner.min.z &&
    inner.max.x <= outer.max.x && inner.max.y <= outer.max.y && inner.max.z <= outer.max.z
  }

  /** Covering keeps the old box inside and puts every valid sample inside. */
  lemma {:induction false} FoldCovers(b: Bounds, cells: seq<Cell<Vec3>>)
    ensures Encloses(Fold(b, cells), b)
    ensures forall t :: 0 <= t < |cells| && cells[t].Val? ==> Within(Fold(b, cells), cells[t].v)
    decreases |cells|
  {
    if |cells| > 0 {
      FoldCovers(b, cells[..|cells| - 1]);
    }
  }

  /** Folding a concatenation folds its parts in turn. */
  lemma {:induction false} FoldAppend(b: Bounds, xs: seq<Cell<Vec3>>, ys: seq<Cell<Vec3>>)
    ensures Fold(b, xs + ys) == Fold(Fold(b, xs), ys)
    decreases |ys|
  {
    if |ys| == 0 {
      assert xs + ys == xs;
    } else {
      FoldAppend(b, xs, ys[..|ys| - 1]);
      assert (xs + ys)[..|xs + ys| - 1] == xs + ys[..|ys| - 1];
    }
  }

  /** A valid sample attaining `v` on axis `i`. */
  predicate AttainedAt(cells: seq<Cell<Vec3>>, i: nat, v: real)
    requires i < 3
  {
    exists t :: 0 <= t < |cells| && cells[t].Val? && Get(cells[t].v, i) == v
  }

  /** Every side of the folded box is either the initial one or a sample's coordinate. */
  lemma {:induction false} FoldAttained(b: Bounds, cells: seq<Cell<Vec3>>, i: nat)
    requires i < 3
    ensures Get(Fold(b, cells).max, i) == Get(b.max, i) || AttainedAt(cells, i, Get(Fold(b, cells).max, i))
    ensures Get(Fold(b, cells).min, i) == Get(b.min, i) || AttainedAt(cells, i, Get(Fold(b, cells).min, i))
    decreases |cells|
  {
    if |cells| > 0 {
      var k := |cells| - 1;
      FoldAttained(b, cells[..k], i);
      var r := Fold(b, cells[..k]);
      if AttainedAt(cells[..k], i, Get(r.max, i)) {
        var t :| 0 <= t < k && cells[..k][t].Val? && Get(cells[..k][t].v, i) == Get(r.max, i);
        assert cells[t] == cells[..k][t];
      }
      if AttainedAt(cells[..k], i, Get(r.min, i)) {
        var t :| 0 <= t < k && cells[..k][t].Val? && Get(cells[..k][t].v, i) == Get(r.min, i);
        assert cells[t] == cells[..k][t];
      }
    }
  }

  /** The samples lie in the range of finite floats. */
  predicate FiniteFloats(cells: seq<Cell<Vec3>>) {
    forall t :: 0 <= t < |cells| && cells[t].Val? ==>
      -FltMax <= cells[t].v.x <= FltMax && -FltMax <= cells[t].v.y <= FltMax && -FltMax <= cells[t].v.z <= FltMax
  }

  /**
   * From the intended initial box, every side of the result is attained
   * by a sample, as soon as there is one valid sample: the box is tight.
   */
  lemma BoundsTight(cells: seq<Cell<Vec3>>, t0: nat, i: nat)
    requires t0 < |cells| && cells[t0].Val? && FiniteFloats(cells) && i < 3
    ensures AttainedAt(cells, i, Get(Fold(Initial, cells).max, i))
    ensures AttainedAt(cells, i, Get(Fold(Initial, cells).min, i))
  {
    FoldCovers(Initial, cells);
    FoldAttained(Initial, cells, i);
    var r := Fold(Initial, cells);
    var p := cells[t0].v;
    assert Within(r, p);
    if Get(r.max, i) == Get(Initial.max, i) {
      assert Get(p, i) == Get(r.max, i);
    }
    if Get(r.min, i) == Get(Initial.min, i) {
      assert Get(p, i) == Get(r.min, i);
    }
  }

  /** As written, every side of `max` stays at or above the smallest positive float. */
  lemma AsWrittenMaxPositive(cells: seq<Cell<Vec3>>)
    ensures var r := Fold(InitialAsWritten, cells);
      r.max.x >= FltMin && r.max.y >= FltMin && r.max.z >= FltMin
  {
    FoldCovers(InitialAsWritten, cells);
  }

  /** As written, a data set with one sample at (-1, -1, -1) gets a box whose `max` is not a sample. */
  lemma AsWrittenBoxNotTight()
    ensures Fold(InitialAsWritten, [Val(Vec3(-1.0, -1.0, -1.0))]).max == Vec3(FltMin, FltMin, FltMin)
    ensures !AttainedAt([Val(Vec3(-1.0, -1.0, -1.0))], 0, FltMin)
  {
    var cells := [Val(Vec3(-1.0, -1.0, -1.0))];
    assert cells[..0] == [];
  }

  /** The trajectories' samples one after the other. */
  function Concat<T>(ps: seq<seq<T>>): seq<T>
    decreases |ps|
  {
    if |ps| == 0 then [] else Concat(ps[..|ps| - 1]) + ps[|ps| - 1]
  }

  /** The first `n` samples of every trajectory. */
  function Heads<T>(ps: seq<seq<T>>, n: nat): (r: seq<seq<T>>)
    requires forall p :: 0 <= p < |ps| ==> n <= |ps[p]|
    ensures |r| == |ps| && forall p :: 0 <= p < |ps| ==> r[p] == ps[p][..n]
  {
    seq(|ps|, p requires 0 <= p < |ps| => ps[p][..n])
  }

  /** Every sample of every trajectory lies in the box folded over them all. */
  lemma {:induction false} ConcatCovered(b: Bounds, ps: seq<seq<Cell<Vec3>>>, p: nat, t: nat)
    requires p < |ps| && t < |ps[p]| && ps[p][t].Val?
    ensures Within(Fold(b, Concat(ps)), ps[p][t].v)
    decreases |ps|
  {
    var k := |ps| - 1;
    FoldAppend(b, Concat(ps[..k]), ps[k]);
    if p == k {
      FoldCovers(Fold(b, Concat(ps[..k])), ps[k]);
    } else {
      ConcatCovered(b, ps[..k], p, t);
      FoldCovers(Fold(b, Concat(ps[..k])), ps[k]);
    }
  }

  /** The centre lies inside any box whose corners are ordered. */
  lemma CenterWithin(b: Bounds)
    requires b.min.x <= b.max.x && b.min.y <= b.max.y && b.min.z <= b.max.z
    ensures Within(b, Center(b))
  {
  }
}
