/**
 * The CPU side of the flat ribbon renderer: per trajectory, two vertices
 * per sample at the ends of the particle's main axis, rotated by the
 * sample's orientation; their indices count up from `current_index`, an
 * unsigned 32-bit member.
 */
module RibbonRenderer {
  import opened Vectors
  import opened Quaternions
  import opened VertexIndices

  /**
   * The main axis: the first axis component that is positive and not
   * exceeded by a later one; the x component when no component is positive.
   */
  function MainAxis(axes: Vec3): (m: Vec3) {
    var max1 := if axes.x > 0.0 then axes.x else 0.0;
    var m1 := Vec3(axes.x, 0.0, 0.0);
    var max2 := if axes.y > max1 then axes.y else max1;
    var m2 := if axes.y > max1 then Vec3(0.0, axes.y, 0.0) else m1;
    if axes.z > max2 then Vec3(0.0, 0.0, axes.z) else m2
  }

  /** The lowest-index component reaching the maximum wins when that maximum is positive; else x. */
  lemma MainAxisChoice(axes: Vec3)
    ensures axes.x >= axes.y && axes.x >= axes.z ==> MainAxis(axes) == Vec3(axes.x, 0.0, 0.0)
    ensures axes.y > axes.x && axes.y >= axes.z && axes.y > 0.0 ==> MainAxis(axes) == Vec3(0.0, axes.y, 0.0)
    ensures axes.z > axes.x && axes.z > axes.y && axes.z > 0.0 ==> MainAxis(axes) == Vec3(0.0, 0.0, axes.z)
    ensures axes.x <= 0.0 && axes.y <= 0.0 && axes.z <= 0.0 ==> MainAxis(axes) == Vec3(axes.x, 0.0, 0.0)
  {
  }

  /** Vertex `i` of a ribbon of the first `n` samples: sample `i / 2`, shifted by the rotated axis (even `i`) or its opposite. */
  function RibbonVertices(positions: seq<Vec3>, axis: Vec3, orientations: seq<Quat>, n: nat): (r: seq<Vec3>)
    requires n <= |positions| <= |orientations|
    ensures |r| == 2 * n
  {
    seq(2 * n, i requires 0 <= i < 2 * n =>
      Add(QuatRotate(if i % 2 == 0 then axis else Neg(axis), orientations[i / 2]), positions[i / 2]))
  }

  /** Every entry of `cs[..n]`, twice. */
  function Doubled<C>(cs: seq<C>, n: nat): (r: seq<C>)
    requires n <= |cs|
    ensures |r| == 2 * n
  {
    seq(2 * n, i requires 0 <= i < 2 * n => cs[i / 2])
  }

  /** Entries `2t` and `2t + 1` belong to sample `t`. */
  lemma Halves(t: nat, i: nat)
    requires 2 * t <= i < 2 * t + 2
    ensures i / 2 == t && i % 2 == i - 2 * t
  {
  }

  /** The two vertices of sample `t` lie symmetrically about the sample's position. */
  lemma RibbonSymmetric(positions: seq<Vec3>, axis: Vec3, orientations: seq<Quat>, n: nat, t: nat)
    requires n <= |positions| <= |orientations| && t < n
    ensures RibbonVertices(positions, axis, orientations, n)[2 * t] == Add(positions[t], QuatRotate(axis, orientations[t]))
    ensures RibbonVertices(positions, axis, orientations, n)[2 * t + 1] == Sub(positions[t], QuatRotate(axis, orientations[t]))
  {
    Halves(t, 2 * t);
    Halves(t, 2 * t + 1);
    QuatRotateNeg(axis, orientations[t]);
  }

  /** Both vertices of sample `t` carry the sample's colour. */
  lemma DoubledColors<C>(cs: seq<C>, n: nat, t: nat)
    requires n <= |cs| && t < n
    ensures Doubled(cs, n)[2 * t] == cs[t] && Doubled(cs, n)[2 * t + 1] == cs[t]
  {
    Halves(t, 2 * t);
    Halves(t, 2 * t + 1);
  }

  /** The loop of `create_vertices`, on values: the counter `c` starts at `c0` and wraps at 2^32. */
  method AppendRibbon<C>(vs0: seq<Vec3>, cs0: seq<C>, positions: seq<Vec3>, axis: Vec3, orientations: seq<Quat>,
                         colors: seq<C>, c0: nat)
    returns (vs: seq<Vec3>, cs: seq<C>, ids: seq<int>, c: nat)
    requires |orientations| >= |positions| && |colors| >= |positions| && c0 < U32
    ensures vs == vs0 + RibbonVertices(positions, axis, orientations, |positions|)
    ensures cs == cs0 + Doubled(colors, |positions|)
    ensures ids == Strip(c0, 2 * |positions|) && c == Wrap(c0 + 2 * |positions|)
  {
    var n := |positions|;
    var axisPositive := axis;
    var axisNegative := Neg(axis);
    vs, cs, ids, c := vs0, cs0, [], c0;
    var t := 0;
    ghost var u := c0;
    while t < n
      invariant 0 <= t <= n && u == c0 + 2 * t && c == Wrap(u)
      invariant vs == vs0 + RibbonVertices(positions, axis, orientations, t)
      invariant cs == cs0 + Doubled(colors, t) && ids == Strip(c0, 2 * t)
    {
      RibbonSnoc(positions, axis, orientations, t);
      DoubledSnoc(colors, t);
      StripPairSnoc(c0, t, u);
      var v1 := QuatRotate(axisPositive, orientations[t]);
      var v2 := QuatRotate(axisNegative, orientations[t]);
      vs := vs + [Add(v1, positions[t])];
      vs := vs + [Add(v2, positions[t])];
      Tick(u, c);
      ids := ids + [c];
      c := Wrap(c + 1);
      Tick(u + 1, c);
      ids := ids + [c];
      c := Wrap(c + 1);
      cs := cs + [colors[t]];
      cs := cs + [colors[t]];
      t, u := t + 1, u + 1 + 1;
    }
    WrapArgs(u, c0 + 2 * n);
  }

  /** One more sample appends its two vertices. */
  lemma RibbonSnoc(positions: seq<Vec3>, axis: Vec3, orientations: seq<Quat>, t: nat)
    requires t < |positions| <= |orientations|
    ensures RibbonVertices(positions, axis, orientations, t + 1) ==
      RibbonVertices(positions, axis, orientations, t) +
      [Add(QuatRotate(axis, orientations[t]), positions[t]), Add(QuatRotate(Neg(axis), orientations[t]), positions[t])]
  {
    var r, r' := RibbonVertices(positions, axis, orientations, t), RibbonVertices(positions, axis, orientations, t + 1);
    forall i | 0 <= i < 2 * t
      ensures r'[i] == r[i]
    {
    }
    Halves(t, 2 * t);
    Halves(t, 2 * t + 1);
    assert r' == r + [r'[2 * t], r'[2 * t + 1]];
  }

  /** One more sample appends its colour twice. */
  lemma DoubledSnoc<C>(cs: seq<C>, t: nat)
    requires t < |cs|
    ensures Doubled(cs, t + 1) == Doubled(cs, t) + [cs[t], cs[t]]
  {
    var r, r' := Doubled(cs, t), Doubled(cs, t + 1);
    forall i | 0 <= i < 2 * t
      ensures r'[i] == r[i]
    {
    }
    Halves(t, 2 * t);
    Halves(t, 2 * t + 1);
    assert r' == r + [r'[2 * t], r'[2 * t + 1]];
  }

  /** One more sample appends the next two counter values. */
  lemma StripPairSnoc(c0: nat, t: nat, u: nat)
    requires u == c0 + 2 * t
    ensures Strip(c0, 2 * t + 2) == Strip(c0, 2 * t) + [Wrap(u), Wrap(u + 1)]
  {
    var r, r' := Strip(c0, 2 * t), Strip(c0, 2 * t + 2);
    forall i | 0 <= i < 2 * t
      ensures r'[i] == r[i]
    {
    }
    assert r' == r + [r'[2 * t], r'[2 * t + 1]];
  }

  class TrajRibbonRenderer {
    var initial: bool
    /** The next vertex index; an unsigned 32-bit counter. */
    var currentIndex: nat
    var nrElements: nat
    /** One index list per trajectory. */
    var indices: seq<seq<int>>

    /** `reset`: ready for a new set of trajectories. */
    method Reset()
      modifies this`initial, this`currentIndex, this`nrElements, this`indices
      ensures initial && currentIndex == 0 && nrElements == 0 && indices == []
    {
      initial := true;
      currentIndex := 0;
      nrElements := 0;
      indices := [];
    }

    /**
     * `create_vertices`: appends two vertices and two colours per sample to
     * the output buffers, and one list of their indices to `indices`.
     */
    method CreateVertices<C>(verticesOut: seq<Vec3>, colorsOut: seq<C>, positions: seq<Vec3>, axes: Vec3,
                             orientations: seq<Quat>, colors: seq<C>)
      returns (vs: seq<Vec3>, cs: seq<C>)
      requires |orientations| >= |positions| && |colors| >= |positions| && currentIndex < U32
      modifies this`currentIndex, this`indices
      ensures vs == verticesOut + RibbonVertices(positions, MainAxis(axes), orientations, |positions|)
      ensures cs == colorsOut + Doubled(colors, |positions|)
      ensures currentIndex == Wrap(old(currentIndex) + 2 * |positions|)
      ensures indices == old(indices) + [Strip(old(currentIndex), 2 * |positions|)]
    {
      var ids, c;
      vs, cs, ids, c := AppendRibbon(verticesOut, colorsOut, positions, MainAxis(axes), orientations, colors, currentIndex);
      currentIndex := c;
      indices := indices + [ids];
    }
  }

  /** Without wrap-around the new list is the next run of vertex numbers, one per appended vertex. */
  lemma RibbonIndicesConsecutive(c0: nat, n: nat, i: nat)
    requires c0 + 2 * n <= U32 && i < 2 * n
    ensures Strip(c0, 2 * n)[i] == c0 + i
  {
    WrapSmall(c0 + i);
  }
}
