/**
 * The tessellation step of the metatube export: walking along the
 * trajectory, a ring of twelve vertices is emitted at every sample at least
 * half the mean axis length away from the previous ring's sample, each new
 * ring is joined to the previous one by a band of 24 triangles, and each end
 * is closed by a fan of 12 triangles around an apex. Ring geometry (the
 * cross-section frame, cosine and sine, the surface projection) is the
 * parameter `frame`, and normalisation of the cap directions the parameter
 * `normalize`.
 */
module TubeExport {
  import opened Vectors
  import opened MetatubeGeom
  import opened Handler

  /** Vertices per ring (`DC_TESS_SECTIONS`). */
  const Sections: nat := 12

  /** The sampling target of the grid: cells per smallest diameter. */
  const SamplingResTarget: real := 8.0

  /** The grid cell size of the surface extraction: the smallest diameter over the sampling target. */
  function CellSize(axes: Vec3): (cs: real)
    ensures forall j :: 0 <= j < 3 && Get(axes, j) >= 0.0 ==> cs <= Get(axes, j) / 4.0
    ensures Get(axes, MinAxisId(axes)) > 0.0 ==> cs > 0.0
  {
    Get(axes, MinAxisId(axes)) * 2.0 / SamplingResTarget
  }

  /** The tube is sampled through the surface approximation only when it is not too flat. */
  function UseMls(exact: bool, axes: Vec3): (b: bool)
    ensures b ==> exact && Get(axes, MaxAxisId(axes)) < 2.5 * Get(axes, MinAxisId(axes))
    ensures !b ==> !exact || 2.5 * Get(axes, MinAxisId(axes)) <= Get(axes, MaxAxisId(axes))
  {
    exact && Get(axes, MaxAxisId(axes)) < Get(axes, MinAxisId(axes)) * 2.5
  }

  /** The extrusion radius: the mean of the three axes. */
  function Extrusion(axes: Vec3): real {
    (Get(axes, MaxAxisId(axes)) + Get(axes, MidAxisId(axes)) + Get(axes, MinAxisId(axes))) / 3.0
  }

  /**
   * A ring is due when the travel `d` since the last ring has length at
   * least half the extrusion, stated on squared lengths.
   */
  predicate Emit(d: Vec3, extrusion: real) {
    extrusion <= 0.0 || 4.0 * SqrLen(d) >= extrusion * extrusion
  }

  /** The samples from `i` on at which a ring is emitted, the last ring being at `last`. */
  function Emissions(positions: seq<Vec3>, extrusion: real, i: nat, last: nat): seq<nat>
    requires last < |positions|
    decreases |positions| - i
  {
    if i >= |positions| then []
    else if Emit(Sub(positions[i], positions[last]), extrusion) then [i] + Emissions(positions, extrusion, i + 1, i)
    else Emissions(positions, extrusion, i + 1, last)
  }

  /** The sample of the ring before ring `k + 1` among emissions `e` that follow a ring at `last`. */
  function PrevRing(e: seq<nat>, k: nat, last: nat): nat
    requires k <= |e|
  {
    if k == 0 then last else e[k - 1]
  }

  /** Every member of `e` lies in [lo, hi) and they strictly increase. */
  predicate IncreasingIn(e: seq<nat>, lo: int, hi: int) {
    (forall k :: 0 <= k < |e| ==> lo <= e[k] < hi) &&
    (forall k :: 0 < k < |e| ==> e[k - 1] < e[k])
  }

  /** Each ring sample in `e` is due with respect to the ring before it. */
  predicate AllDue(positions: seq<Vec3>, extrusion: real, e: seq<nat>, last: nat) {
    last < |positions| && (forall k :: 0 <= k < |e| ==> e[k] < |positions|) &&
    forall k :: 0 <= k < |e| ==>
      Emit(Sub(positions[e[k]], positions[PrevRing(e, k, last)]), extrusion)
  }

  /** No sample from `i` on passed over before a ring in `e` is due. */
  predicate SkippedNotDue(positions: seq<Vec3>, extrusion: real, e: seq<nat>, i: nat, last: nat) {
    last < |positions| && (forall k :: 0 <= k < |e| ==> e[k] < |positions|) &&
    forall k, j :: 0 <= k < |e| && (if k == 0 then i else e[k - 1] + 1) <= j < e[k] ==>
      !Emit(Sub(positions[j], positions[PrevRing(e, k, last)]), extrusion)
  }

  /** No sample after the last ring in `e` (or from `i` on, if none) is due. */
  predicate TailNotDue(positions: seq<Vec3>, extrusion: real, e: seq<nat>, i: nat, last: nat) {
    last < |positions| && (forall k :: 0 <= k < |e| ==> e[k] < |positions|) &&
    forall j :: (if |e| == 0 then i else e[|e| - 1] + 1) <= j < |positions| ==>
      !Emit(Sub(positions[j], positions[PrevRing(e, |e|, last)]), extrusion)
  }

  /** The emissions strictly increase and lie in [i, |positions|). */
  lemma {:induction false} EmissionsOrdered(positions: seq<Vec3>, extrusion: real, i: nat, last: nat)
    requires last < |positions|
    decreases |positions| - i
    ensures IncreasingIn(Emissions(positions, extrusion, i, last), i, |positions|)
  {
    if i < |positions| {
      var e := Emissions(positions, extrusion, i, last);
      if Emit(Sub(positions[i], positions[last]), extrusion) {
        EmissionsOrdered(positions, extrusion, i + 1, i);
        assert e == [i] + Emissions(positions, extrusion, i + 1, i);
      } else {
        EmissionsOrdered(positions, extrusion, i + 1, last);
        assert e == Emissions(positions, extrusion, i + 1, last);
      }
    }
  }

  /** Each emitted sample is at least half the extrusion away from the previous ring. */
  lemma {:induction false} EmissionsDue(positions: seq<Vec3>, extrusion: real, i: nat, last: nat)
    requires last < |positions|
    decreases |positions| - i
    ensures AllDue(positions, extrusion, Emissions(positions, extrusion, i, last), last)
  {
    EmissionsOrdered(positions, extrusion, i, last);
    if i < |positions| {
      var e := Emissions(positions, extrusion, i, last);
      if Emit(Sub(positions[i], positions[last]), extrusion) {
        EmissionsDue(positions, extrusion, i + 1, i);
        var e0 := Emissions(positions, extrusion, i + 1, i);
        assert e == [i] + e0;
        forall k | 0 <= k < |e|
          ensures Emit(Sub(positions[e[k]], positions[PrevRing(e, k, last)]), extrusion)
        {
          if k > 0 {
            assert e[k] == e0[k - 1] && PrevRing(e, k, last) == PrevRing(e0, k - 1, i);
          }
        }
      } else {
        EmissionsDue(positions, extrusion, i + 1, last);
        assert e == Emissions(positions, extrusion, i + 1, last);
      }
    }
  }

  /** Samples passed over before a ring are not due. */
  lemma {:induction false} EmissionsSkipOnlyNear(positions: seq<Vec3>, extrusion: real, i: nat, last: nat)
    requires last < |positions|
    decreases |positions| - i
    ensures SkippedNotDue(positions, extrusion, Emissions(positions, extrusion, i, last), i, last)
  {
    EmissionsOrdered(positions, extrusion, i, last);
    if i < |positions| {
      var e := Emissions(positions, extrusion, i, last);
      if Emit(Sub(positions[i], positions[last]), extrusion) {
        EmissionsSkipOnlyNear(positions, extrusion, i + 1, i);
        var e0 := Emissions(positions, extrusion, i + 1, i);
        assert e == [i] + e0;
        forall k, j | 0 <= k < |e| && (if k == 0 then i else e[k - 1] + 1) <= j < e[k]
          ensures !Emit(Sub(positions[j], positions[PrevRing(e, k, last)]), extrusion)
        {
          assert k > 0;
          assert e[k] == e0[k - 1] && PrevRing(e, k, last) == PrevRing(e0, k - 1, i);
          assert (if k - 1 == 0 then i + 1 else e0[k - 2] + 1) == e[k - 1] + 1;
          assert SkippedNotDue(positions, extrusion, e0, i + 1, i);
          assert 0 <= k - 1 < |e0| && (if k - 1 == 0 then i + 1 else e0[k - 2] + 1) <= j < e0[k - 1];
        }
      } else {
        EmissionsSkipOnlyNear(positions, extrusion, i + 1, last);
        var e0 := Emissions(positions, extrusion, i + 1, last);
        assert e == e0;
        forall k, j | 0 <= k < |e| && (if k == 0 then i else e[k - 1] + 1) <= j < e[k]
          ensures !Emit(Sub(positions[j], positions[PrevRing(e, k, last)]), extrusion)
        {
          if k == 0 && j == i {
          } else {
            assert (if k == 0 then i + 1 else e0[k - 1] + 1) <= j;
          }
        }
      }
    }
  }

  /** Samples after the last ring are not due. */
  lemma {:induction false} EmissionsTailNotDue(positions: seq<Vec3>, extrusion: real, i: nat, last: nat)
    requires last < |positions|
    decreases |positions| - i
    ensures TailNotDue(positions, extrusion, Emissions(positions, extrusion, i, last), i, last)
  {
    EmissionsOrdered(positions, extrusion, i, last);
    if i < |positions| {
      var e := Emissions(positions, extrusion, i, last);
      if Emit(Sub(positions[i], positions[last]), extrusion) {
        EmissionsTailNotDue(positions, extrusion, i + 1, i);
        var e0 := Emissions(positions, extrusion, i + 1, i);
        assert e == [i] + e0;
        assert PrevRing(e, |e|, last) == PrevRing(e0, |e0|, i);
        assert (if |e| == 0 then i else e[|e| - 1] + 1) == (if |e0| == 0 then i + 1 else e0[|e0| - 1] + 1);
      } else {
        EmissionsTailNotDue(positions, extrusion, i + 1, last);
        assert e == Emissions(positions, extrusion, i + 1, last);
      }
    }
  }

  /** At most one ring per sample after the first. */
  lemma EmissionCount(positions: seq<Vec3>, extrusion: real)
    requires |positions| >= 1
    ensures |Emissions(positions, extrusion, 1, 0)| <= |positions| - 1
  {
    var e := Emissions(positions, extrusion, 1, 0);
    EmissionsOrdered(positions, extrusion, 1, 0);
    StrictlyIncreasingBound(e, 1, |positions|);
  }

  lemma {:induction false} StrictlyIncreasingBound(e: seq<nat>, lo: nat, hi: nat)
    requires lo <= hi
    requires forall k :: 0 <= k < |e| ==> lo <= e[k] < hi
    requires forall k :: 0 < k < |e| ==> e[k - 1] < e[k]
    ensures |e| <= hi - lo
    decreases |e|
  {
    if |e| > 0 {
      assert forall k :: 0 < k < |e| ==> lo < e[k] by {
        forall k | 0 < k < |e|
          ensures lo < e[k]
        {
          assert lo <= e[k - 1];
        }
      }
      assert lo <= e[0] < hi;
      StrictlyIncreasingBound(e[1..], lo + 1, hi);
    }
  }

  // ---------------------------------------------------------------------
  // Topology

  /** Triangle `2(j-1) + h` of the band between ring c-1 and ring c, for j in 1..12. */
  function BandTriangle(c: nat, j: nat, h: nat): Triangle
    requires c >= 1 && 1 <= j <= Sections && h < 2
  {
    var a, b := (c - 1) * Sections, c * Sections;
    if h == 0 then Triangle(a + (j - 1), a + j % Sections, b + (j - 1))
    else Triangle(b + (j - 1), a + j % Sections, b + j % Sections)
  }

  /** The 24 triangles of band `c`, in the order they are pushed. */
  function Band(c: nat): (t: seq<Triangle>)
    requires c >= 1
    ensures |t| == 2 * Sections
  {
    seq(2 * Sections, k requires 0 <= k < 2 * Sections => BandTriangle(c, k / 2 + 1, k % 2))
  }

  /** The bands of the first `c` segments. */
  function Bands(c: nat): (t: seq<Triangle>)
    ensures |t| == 2 * Sections * c
  {
    if c == 0 then [] else Bands(c - 1) + Band(c)
  }

  /** The trailing cap: a fan around `apex` over ring 0. */
  function TrailingCap(apex: nat): (t: seq<Triangle>)
    ensures |t| == Sections
  {
    seq(Sections, k requires 0 <= k < Sections => Triangle(apex, (k + 1) % Sections, k))
  }

  /** The leading cap: a fan around `apex` over ring `c`. */
  function LeadingCap(apex: nat, c: nat): (t: seq<Triangle>)
    ensures |t| == Sections
  {
    seq(Sections, k requires 0 <= k < Sections => Triangle(apex, c * Sections + k, c * Sections + (k + 1) % Sections))
  }

  predicate IndexedBelow(t: Triangle, n: nat) {
    t.a < n && t.b < n && t.c < n
  }

  predicate AllIndexedBelow(ts: seq<Triangle>, n: nat) {
    forall k :: 0 <= k < |ts| ==> IndexedBelow(ts[k], n)
  }

  /** Band c only joins ring c-1 to ring c: every index lies in [12(c-1), 12(c+1)). */
  lemma BandJoinsRings(c: nat)
    requires c >= 1
    ensures forall k :: 0 <= k < |Band(c)| ==>
      var t := Band(c)[k];
      (c - 1) * Sections <= t.a && (c - 1) * Sections <= t.b && (c - 1) * Sections <= t.c &&
      IndexedBelow(t, (c + 1) * Sections)
  {
  }

  /** The bands of the first c segments use only the vertices of rings 0..c. */
  lemma {:induction false} BandsInRange(c: nat, n: nat)
    requires (c + 1) * Sections <= n
    ensures AllIndexedBelow(Bands(c), n)
  {
    if c > 0 {
      BandsInRange(c - 1, n);
      BandJoinsRings(c);
    }
  }

  // ---------------------------------------------------------------------
  // The tessellation loop

  /** Pushes one ring: vertex and normal `j` come from the frame at section `j`. */
  method AppendRing(verts: seq<Vec3>, nrmls: seq<Vec3>, ref: Vec3, centre: Vec3, dir: Vec3,
                    frame: (Vec3, Vec3, Vec3, nat) -> (Vec3, Vec3))
    returns (vs: seq<Vec3>, ns: seq<Vec3>)
    ensures |vs| == |verts| + Sections && |ns| == |nrmls| + Sections
    ensures vs[..|verts|] == verts && ns[..|nrmls|] == nrmls
    ensures forall j :: 0 <= j < Sections ==>
      (vs[|verts| + j], ns[|nrmls| + j]) == frame(ref, centre, dir, j)
  {
    vs, ns := verts, nrmls;
    var j := 0;
    while j < Sections
      invariant 0 <= j <= Sections
      invariant |vs| == |verts| + j && |ns| == |nrmls| + j
      invariant vs[..|verts|] == verts && ns[..|nrmls|] == nrmls
      invariant forall k :: 0 <= k < j ==> (vs[|verts| + k], ns[|nrmls| + k]) == frame(ref, centre, dir, k)
    {
      var vn := frame(ref, centre, dir, j);
      vs, ns := vs + [vn.0], ns + [vn.1];
      j := j + 1;
    }
  }

  /** Triangulates band `c` between ring c-1 and ring c. */
  method AppendBand(tris: seq<Triangle>, c: nat) returns (ts: seq<Triangle>)
    requires c >= 1
    ensures ts == tris + Band(c)
  {
    ts := tris;
    var j := 1;
    while j < Sections + 1
      invariant 1 <= j <= Sections + 1
      invariant |ts| == |tris| + 2 * (j - 1)
      invariant ts[..|tris|] == tris
      invariant forall k :: 0 <= k < 2 * (j - 1) ==> ts[|tris| + k] == BandTriangle(c, k / 2 + 1, k % 2)
    {
      ts := ts + [BandTriangle(c, j, 0), BandTriangle(c, j, 1)];
      j := j + 1;
    }
    assert ts == tris + Band(c);
  }

  /**
   * The tessellation of `export_metatube`, as written: rings at the
   * emitted samples (ring 0 around sample 0 with the first of them), bands
   * between consecutive rings, and both caps, whatever the ring count.
   */
  method Tessellate(positions: seq<Vec3>, extrusion: real,
                    frame: (Vec3, Vec3, Vec3, nat) -> (Vec3, Vec3), normalize: Vec3 -> Vec3)
    returns (verts: seq<Vec3>, nrmls: seq<Vec3>, tris: seq<Triangle>, segCounts: nat)
    requires |positions| >= 2
    ensures segCounts == |Emissions(positions, extrusion, 1, 0)|
    ensures |nrmls| == |verts|
    ensures |verts| == (if segCounts == 0 then 0 else Sections * (segCounts + 1)) + 2
    ensures tris == Bands(segCounts) + TrailingCap(|verts| - 2) + LeadingCap(|verts| - 1, segCounts)
  {
    verts, nrmls, tris := [], [], [];
    var iLast: nat := 0;
    segCounts := 0;
    ghost var done: seq<nat> := [];
    var i := 1;
    while i < |positions|
      invariant 1 <= i <= |positions| && iLast < i
      invariant segCounts == |done|
      invariant done + Emissions(positions, extrusion, i, iLast) == Emissions(positions, extrusion, 1, 0)
      invariant segCounts == 0 <==> iLast == 0
      invariant |nrmls| == |verts| == (if segCounts == 0 then 0 else Sections * (segCounts + 1))
      invariant tris == Bands(segCounts)
    {
      var travel := Sub(positions[i], positions[iLast]);
      if Emit(travel, extrusion) {
        segCounts := segCounts + 1;
        if iLast == 0 {
          verts, nrmls := AppendRing(verts, nrmls, Zero, positions[0], travel, frame);
        }
        var ref := verts[(segCounts - 1) * Sections];
        verts, nrmls := AppendRing(verts, nrmls, ref, positions[i], travel, frame);
        tris := AppendBand(tris, segCounts);
        done := done + [i];
        iLast := i;
      }
      i := i + 1;
    }
    // the trailing cap
    var dir := normalize(Sub(positions[0], positions[1]));
    var lastIdx := |verts|;
    verts, nrmls := verts + [Add(positions[0], Scale(extrusion, dir))], nrmls + [dir];
    tris := tris + TrailingCap(lastIdx);
    // the leading cap
    var n := |positions|;
    dir := normalize(Sub(positions[n - 1], positions[n - 2]));
    lastIdx := |verts|;
    verts, nrmls := verts + [Add(positions[n - 1], Scale(extrusion, dir))], nrmls + [dir];
    tris := tris + LeadingCap(lastIdx, segCounts);
  }

  /** The mesh as written has 24 triangles per band plus 12 per cap. */
  lemma TriangleCount(c: nat, n: nat)
    ensures |Bands(c) + TrailingCap(n) + LeadingCap(n + 1, c)| == 2 * Sections * c + 2 * Sections
  {
  }

  /** With at least one ring every triangle index names a vertex. */
  lemma CapsInRange(c: nat)
    requires c >= 1
    ensures var n := Sections * (c + 1) + 2;
      AllIndexedBelow(Bands(c) + TrailingCap(n - 2) + LeadingCap(n - 1, c), n)
  {
    var n := Sections * (c + 1) + 2;
    BandsInRange(c, n);
    var all := Bands(c) + TrailingCap(n - 2) + LeadingCap(n - 1, c);
    forall k | 0 <= k < |all|
      ensures IndexedBelow(all[k], n)
    {
      if k >= |Bands(c)| + Sections {
        var m := k - |Bands(c)| - Sections;
        assert all[k] == LeadingCap(n - 1, c)[m];
      } else if k >= |Bands(c)| {
        assert all[k] == TrailingCap(n - 2)[k - |Bands(c)|];
      } else {
        assert all[k] == Bands(c)[k];
      }
    }
  }

  /**
   * With no ring emitted only the two apexes exist (indices 0 and 1), yet
   * the trailing cap's second triangle is (0, 2, 1).
   */
  lemma DanglingCaps()
    ensures var t := Bands(0) + TrailingCap(0) + LeadingCap(1, 0);
      t[1] == Triangle(0, 2, 1) && !IndexedBelow(t[1], 2)
  {
    assert (Bands(0) + TrailingCap(0) + LeadingCap(1, 0))[1] == TrailingCap(0)[1];
  }

  /**
   * The tessellation with the caps emitted only when a ring exists: then
   * every triangle index names a vertex for every trajectory.
   */
  method TessellateFixed(positions: seq<Vec3>, extrusion: real,
                         frame: (Vec3, Vec3, Vec3, nat) -> (Vec3, Vec3), normalize: Vec3 -> Vec3)
    returns (verts: seq<Vec3>, nrmls: seq<Vec3>, tris: seq<Triangle>, segCounts: nat)
    requires |positions| >= 2
    ensures segCounts == |Emissions(positions, extrusion, 1, 0)|
    ensures |nrmls| == |verts|
    ensures segCounts == 0 ==> verts == [] && tris == []
    ensures segCounts > 0 ==>
      |verts| == Sections * (segCounts + 1) + 2 && |tris| == 2 * Sections * segCounts + 2 * Sections
    ensures AllIndexedBelow(tris, |verts|)
  {
    verts, nrmls, tris, segCounts := Tessellate(positions, extrusion, frame, normalize);
    if segCounts == 0 {
      verts, nrmls, tris := [], [], [];
    } else {
      CapsInRange(segCounts);
      TriangleCount(segCounts, |verts| - 2);
    }
  }
}
