/**
 * Linear and angular velocities of a trajectory: the difference to the
 * next sample, and zero at the last sample.
 */
module Kinematics {
  import opened Vectors
  import opened Quaternions
  import opened Trajectories

  /** `b - a` on float samples: NaN as soon as either is NaN. */
  function Step(a: Cell<Vec3>, b: Cell<Vec3>): Cell<Vec3> {
    if a.Val? && b.Val? then Val(Sub(b.v, a.v)) else NaN
  }

  /** Step 8: the velocity at each time step. */
  function Velocities(pos: seq<Cell<Vec3>>): (v: seq<Cell<Vec3>>)
    requires |pos| >= 1
    ensures |v| == |pos|
  {
    seq(|pos|, t requires 0 <= t < |pos| => if t < |pos| - 1 then Step(pos[t], pos[t + 1]) else Val(Zero))
  }

  /**
   * Step 8: the angular velocity between consecutive orientations, given
   * by `angular` (the axis-angle conversion of q1 * conj(q0), which uses
   * sqrt and atan2), and zero at the last sample.
   */
  function AngularVelocities(q: seq<Cell<Quat>>, angular: (Cell<Quat>, Cell<Quat>) -> Cell<Vec3>): (w: seq<Cell<Vec3>>)
    requires |q| >= 1
    ensures |w| == |q|
  {
    seq(|q|, t requires 0 <= t < |q| => if t < |q| - 1 then angular(q[t], q[t + 1]) else Val(Zero))
  }

  predicate AllValid<T>(s: seq<Cell<T>>) {
    forall t :: 0 <= t < |s| ==> s[t].Val?
  }

  /** The sum of the first `n` velocities, all valid. */
  function SumUpTo(vs: seq<Cell<Vec3>>, n: nat): Vec3
    requires n <= |vs| && AllValid(vs)
  {
    if n == 0 then Zero else Add(SumUpTo(vs, n - 1), vs[n - 1].v)
  }

  lemma AddAssoc(a: Vec3, b: Vec3, c: Vec3)
    ensures Add(a, Add(b, c)) == Add(Add(a, b), c)
  {
  }

  lemma AddStep(a: Vec3, b: Vec3)
    ensures Add(a, Sub(b, a)) == b
  {
  }

  lemma AddZeroRight(a: Vec3)
    ensures Add(a, Zero) == a
  {
  }

  /** The velocities of a valid trajectory are all valid and the last is zero. */
  lemma VelocitiesValid(pos: seq<Cell<Vec3>>)
    requires |pos| >= 1 && AllValid(pos)
    ensures AllValid(Velocities(pos))
    ensures Velocities(pos)[|pos| - 1] == Val(Zero)
  {
  }

  /**
   * Integrating the velocities from the first position gives back every
   * position: the differences are exact and lose nothing.
   */
  lemma {:induction false} Integrate(pos: seq<Cell<Vec3>>, t: nat)
    requires t < |pos| && AllValid(pos)
    ensures AllValid(Velocities(pos))
    ensures pos[t].v == Add(pos[0].v, SumUpTo(Velocities(pos), t))
  {
    VelocitiesValid(pos);
    var v := Velocities(pos);
    if t == 0 {
      AddZeroRight(pos[0].v);
    } else {
      Integrate(pos, t - 1);
      assert v[t - 1].v == Sub(pos[t].v, pos[t - 1].v);
      AddAssoc(pos[0].v, SumUpTo(v, t - 1), v[t - 1].v);
      AddStep(pos[t - 1].v, pos[t].v);
    }
  }
}
