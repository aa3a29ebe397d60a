/**
 * Handling of trajectories that leave the periodic simulation box on the
 * x or z axis and re-enter on the opposite side: either they are cut
 * into pieces at those jumps, or the jumps are undone by shifting the
 * later samples by whole box widths.
 */
module Cutting {
  import opened Vectors
  import opened Trajectories

  function Abs(r: real): real {
    if r < 0.0 then -r else r
  }

  /** The step from `a` to `b` exceeds the tolerated share of the box on x or z; never for NaN. */
  predicate Jump(a: Cell<Vec3>, b: Cell<Vec3>, tol: real, dim: Vec3) {
    a.Val? && b.Val? && (Abs(b.v.x - a.v.x) > tol * dim.x || Abs(b.v.z - a.v.z) > tol * dim.z)
  }

  /** The cut times among the first `n` samples: each t >= 1 that a jump arrives at. */
  function CutsUpTo(traj: seq<Cell<Vec3>>, n: nat, tol: real, dim: Vec3): seq<nat>
    requires n <= |traj|
  {
    if n <= 1 then [] else CutsUpTo(traj, n - 1, tol, dim) + (if Jump(traj[n - 2], traj[n - 1], tol, dim) then [n - 1] else [])
  }

  function Cuts(traj: seq<Cell<Vec3>>, tol: real, dim: Vec3): seq<nat> {
    CutsUpTo(traj, |traj|, tol, dim)
  }

  predicate StrictlyIncreasing(s: seq<nat>) {
    forall i, j :: 0 <= i < j < |s| ==> s[i] < s[j]
  }

  /** The cuts are exactly the jump times, ascending, each in [1, n). */
  lemma {:induction false} CutsUpToSpec(traj: seq<Cell<Vec3>>, n: nat, tol: real, dim: Vec3)
    requires n <= |traj|
    ensures StrictlyIncreasing(CutsUpTo(traj, n, tol, dim))
    ensures forall c :: 0 <= c < |CutsUpTo(traj, n, tol, dim)| ==> 1 <= CutsUpTo(traj, n, tol, dim)[c] < n
    ensures forall t :: 1 <= t < n ==> (t in CutsUpTo(traj, n, tol, dim) <==> Jump(traj[t - 1], traj[t], tol, dim))
  {
    if n > 1 {
      CutsUpToSpec(traj, n - 1, tol, dim);
    }
  }

  /** A trajectory of the same length that keeps the samples in [lo, hi) and is NaN elsewhere. */
  function Window<T>(traj: seq<Cell<T>>, lo: nat, hi: nat): (w: seq<Cell<T>>)
    ensures |w| == |traj|
    ensures forall t :: 0 <= t < |traj| ==> w[t] == if lo <= t < hi then traj[t] else NaN
  {
    seq(|traj|, t requires 0 <= t < |traj| => if lo <= t < hi then traj[t] else NaN)
  }

  /** Where piece `c` ends: at the next cut, or at the end of the trajectory. */
  function PieceEnd(cuts: seq<nat>, n: nat, c: nat): nat
    requires c < |cuts|
  {
    if c == |cuts| - 1 then n else cuts[c + 1]
  }

  /** The trajectories appended for the cuts, one per cut. */
  function Pieces<T>(traj: seq<Cell<T>>, cuts: seq<nat>): (r: seq<seq<Cell<T>>>)
    ensures |r| == |cuts| && forall c :: 0 <= c < |cuts| ==> |r[c]| == |traj|
  {
    seq(|cuts|, c requires 0 <= c < |cuts| => Window(traj, cuts[c], PieceEnd(cuts, |traj|, c)))
  }

  /** The original trajectory after the cut: invalid from the first cut onward. */
  function Remainder<T>(traj: seq<Cell<T>>, cuts: seq<nat>): (r: seq<Cell<T>>)
    ensures |r| == |traj|
  {
    if |cuts| > 0 then Window(traj, 0, cuts[0]) else traj
  }

  /** The remainder followed by the pieces. */
  function Parts<T>(traj: seq<Cell<T>>, cuts: seq<nat>): (r: seq<seq<Cell<T>>>)
    ensures |r| == |cuts| + 1 && forall k :: 0 <= k < |r| ==> |r[k]| == |traj|
  {
    [Remainder(traj, cuts)] + Pieces(traj, cuts)
  }

  /** Where part `k` starts: 0 for the remainder, else its cut. */
  function PartStart(cuts: seq<nat>, k: nat): nat
    requires k <= |cuts|
  {
    if k == 0 then 0 else cuts[k - 1]
  }

  function PartEnd(cuts: seq<nat>, n: nat, k: nat): nat
    requires k <= |cuts|
  {
    if k == |cuts| then n else cuts[k]
  }

  /** Part `k` is the window between its start and end. */
  lemma PartIsWindow<T>(traj: seq<Cell<T>>, cuts: seq<nat>, k: nat)
    requires k <= |cuts|
    ensures Parts(traj, cuts)[k] == Window(traj, PartStart(cuts, k), PartEnd(cuts, |traj|, k))
  {
    if k == 0 && |cuts| == 0 {
      assert Window(traj, 0, |traj|) == traj;
    }
  }

  /** Part `k` holds the sample at `t` exactly when `t` lies between its start and end. */
  lemma PartAt<T>(traj: seq<Cell<T>>, cuts: seq<nat>, k: nat, t: nat)
    requires k <= |cuts| && t < |traj|
    ensures Parts(traj, cuts)[k][t] == if PartStart(cuts, k) <= t < PartEnd(cuts, |traj|, k) then traj[t] else NaN
  {
    PartIsWindow(traj, cuts, k);
  }

  /** With ascending cuts, an earlier part ends no later than a later one starts. */
  lemma PartsOrdered(cuts: seq<nat>, n: nat, k: nat, j: nat)
    requires StrictlyIncreasing(cuts) && k < j <= |cuts|
    ensures PartEnd(cuts, n, k) <= PartStart(cuts, j)
  {
  }

  /**
   * With ascending cuts inside (0, n), the time index `t` of a valid sample
   * is valid in exactly one part, and there it keeps its sample.
   */
  lemma ExactlyOnePart<T>(traj: seq<Cell<T>>, cuts: seq<nat>, t: nat)
    requires t < |traj| && traj[t].Val?
    requires StrictlyIncreasing(cuts) && forall c :: 0 <= c < |cuts| ==> 0 < cuts[c] < |traj|
    ensures exists k :: 0 <= k <= |cuts| && Parts(traj, cuts)[k][t] == traj[t]
    ensures forall k, j :: 0 <= k < j <= |cuts| ==> Parts(traj, cuts)[k][t].NaN? || Parts(traj, cuts)[j][t].NaN?
  {
    SomePartKeeps(traj, cuts, t);
    AtMostOnePart(traj, cuts, t);
  }

  lemma SomePartKeeps<T>(traj: seq<Cell<T>>, cuts: seq<nat>, t: nat)
    requires t < |traj| && traj[t].Val?
    requires StrictlyIncreasing(cuts) && forall c :: 0 <= c < |cuts| ==> 0 < cuts[c] < |traj|
    ensures exists k :: 0 <= k <= |cuts| && Parts(traj, cuts)[k][t] == traj[t]
  {
    var k := Owner(cuts, |traj|, t);
    PartAt(traj, cuts, k, t);
    assert Parts(traj, cuts)[k][t] == traj[t];
  }

  lemma AtMostOnePart<T>(traj: seq<Cell<T>>, cuts: seq<nat>, t: nat)
    requires t < |traj| && StrictlyIncreasing(cuts)
    ensures forall k, j :: 0 <= k < j <= |cuts| ==> Parts(traj, cuts)[k][t].NaN? || Parts(traj, cuts)[j][t].NaN?
  {
    forall k, j | 0 <= k < j <= |cuts|
      ensures Parts(traj, cuts)[k][t].NaN? || Parts(traj, cuts)[j][t].NaN?
    {
      PartsDisjoint(traj, cuts, k, j, t);
    }
  }

  /** The part whose interval holds `t`. */
  lemma Owner(cuts: seq<nat>, n: nat, t: nat) returns (k: nat)
    requires t < n && forall c :: 0 <= c < |cuts| ==> cuts[c] < n
    ensures k <= |cuts| && PartStart(cuts, k) <= t < PartEnd(cuts, n, k)
  {
    k := 0;
    while k < |cuts| && cuts[k] <= t
      invariant 0 <= k <= |cuts|
      invariant PartStart(cuts, k) <= t
    {
      k := k + 1;
    }
  }

  lemma PartsDisjoint<T>(traj: seq<Cell<T>>, cuts: seq<nat>, k: nat, j: nat, t: nat)
    requires t < |traj| && StrictlyIncreasing(cuts) && k < j <= |cuts|
    ensures Parts(traj, cuts)[k][t].NaN? || Parts(traj, cuts)[j][t].NaN?
  {
    PartAt(traj, cuts, k, t);
    PartAt(traj, cuts, j, t);
    PartsOrdered(cuts, |traj|, k, j);
  }

  /**
   * A window bounded by cuts has no cut of its own: its samples are the
   * original ones, with NaN on either side, and NaN never jumps. So the
   * loop that also visits the appended trajectories leaves them alone.
   */
  lemma {:induction false} WindowHasNoCuts(traj: seq<Cell<Vec3>>, lo: nat, hi: nat, tol: real, dim: Vec3, n: nat)
    requires n <= |traj| && hi <= |traj|
    requires forall t :: lo < t < hi ==> !Jump(traj[t - 1], traj[t], tol, dim)
    ensures CutsUpTo(Window(traj, lo, hi), n, tol, dim) == []
  {
    if n > 1 {
      WindowHasNoCuts(traj, lo, hi, tol, dim, n - 1);
    }
  }

  /** Cutting is final: no part produced by a cut has any cut left. */
  lemma PartsHaveNoCuts(traj: seq<Cell<Vec3>>, tol: real, dim: Vec3, k: nat)
    requires k <= |Cuts(traj, tol, dim)|
    ensures Cuts(Parts(traj, Cuts(traj, tol, dim))[k], tol, dim) == []
  {
    var cuts := Cuts(traj, tol, dim);
    CutsUpToSpec(traj, |traj|, tol, dim);
    PartIsWindow(traj, cuts, k);
    var lo, hi := PartStart(cuts, k), PartEnd(cuts, |traj|, k);
    forall t | lo < t < hi
      ensures !Jump(traj[t - 1], traj[t], tol, dim)
    {
      assert t !in cuts;
    }
    WindowHasNoCuts(traj, lo, hi, tol, dim, |traj|);
  }

  /** A trajectory without cuts is left as it is. */
  lemma NoCutsNoParts<T>(traj: seq<Cell<T>>)
    ensures Parts(traj, []) == [traj]
  {
  }

  // ---------------------------------------------------------------------
  // Continuing out-of-bound trajectories

  /** C's float-to-int conversion: truncation toward zero. */
  function Trunc(r: real): int {
    if r >= 0.0 then r.Floor else -((-r).Floor)
  }

  /** A whole number of box widths. */
  function Widths(dim: real, m: int): real {
    dim * (m as real)
  }

  /**
   * The shift of one coordinate whose step from the already shifted
   * previous sample is `d`: back by int(d / (tol * dim)) box widths when
   * the step exceeds the tolerance.
   */
  function ShiftCoord(c: real, d: real, tol: real, dim: real): real {
    if Abs(d) > tol * dim && tol * dim != 0.0 then c - Widths(dim, Trunc(d / (tol * dim))) else c
  }

  /** One step of the unwrapping: `cur` against the already shifted `prev`; x and z use the same step. */
  function Unshift(prev: Cell<Vec3>, cur: Cell<Vec3>, tol: real, dim: Vec3): Cell<Vec3> {
    if prev.Val? && cur.Val? then
      var d := Sub(cur.v, prev.v);
      Val(Vec3(ShiftCoord(cur.v.x, d.x, tol, dim.x), cur.v.y, ShiftCoord(cur.v.z, d.z, tol, dim.z)))
    else cur
  }

  /** The first `n` samples after unwrapping, each against its shifted predecessor. */
  function UnwrapUpTo(traj: seq<Cell<Vec3>>, n: nat, tol: real, dim: Vec3): (r: seq<Cell<Vec3>>)
    requires n <= |traj|
    ensures |r| == n
  {
    if n <= 1 then traj[..n]
    else
      var u := UnwrapUpTo(traj, n - 1, tol, dim);
      u + [Unshift(u[n - 2], traj[n - 1], tol, dim)]
  }

  /** `a` and `b` differ by a whole number of box widths. */
  ghost predicate SameModulo(a: real, b: real, dim: real) {
    exists m: int :: a == b - Widths(dim, m)
  }

  /**
   * Unwrapping keeps the first sample and every y coordinate and NaN, and
   * moves x and z only by whole box widths.
   */
  lemma {:induction false} UnwrapShiftsByWidths(traj: seq<Cell<Vec3>>, n: nat, tol: real, dim: Vec3, t: nat)
    requires n <= |traj| && t < n
    ensures t == 0 ==> UnwrapUpTo(traj, n, tol, dim)[t] == traj[t]
    ensures UnwrapUpTo(traj, n, tol, dim)[t].Val? <==> traj[t].Val?
    ensures traj[t].Val? ==>
      var r := UnwrapUpTo(traj, n, tol, dim)[t].v;
      r.y == traj[t].v.y && SameModulo(r.x, traj[t].v.x, dim.x) && SameModulo(r.z, traj[t].v.z, dim.z)
  {
    if t < n - 1 {
      UnwrapShiftsByWidths(traj, n - 1, tol, dim, t);
    } else if n > 1 {
      var u := UnwrapUpTo(traj, n - 1, tol, dim);
      if traj[t].Val? {
        var c := traj[t].v;
        var r := UnwrapUpTo(traj, n, tol, dim)[t];
        if u[n - 2].Val? {
          var d := Sub(c, u[n - 2].v);
          ShiftModulo(c.x, d.x, tol, dim.x);
          ShiftModulo(c.z, d.z, tol, dim.z);
        } else {
          ShiftModulo(c.x, 0.0, 0.0, dim.x);
          ShiftModulo(c.z, 0.0, 0.0, dim.z);
        }
      }
    } else {
      if traj[t].Val? {
        ShiftModulo(traj[t].v.x, 0.0, 0.0, dim.x);
        ShiftModulo(traj[t].v.z, 0.0, 0.0, dim.z);
      }
    }
  }

  lemma ShiftModulo(c: real, d: real, tol: real, dim: real)
    ensures SameModulo(ShiftCoord(c, d, tol, dim), c, dim)
  {
    if Abs(d) > tol * dim && tol * dim != 0.0 {
      assert ShiftCoord(c, d, tol, dim) == c - Widths(dim, Trunc(d / (tol * dim)));
    } else {
      assert ShiftCoord(c, d, tol, dim) == c - Widths(dim, 0);
    }
  }
}
