/**
 * The windowed implicit union of the metatube: the ellipsoids of the
 * samples around an anchor whose bounding boxes reach into the anchor's
 * grid-snapped sampling box, and the minimum over their quadric values.
 * Window members are recorded by sample index; each member's quadric is the
 * shared template placed at the sample's position, and the rotation by the
 * sample's orientation is an opaque parameter.
 */
module Window {
  import opened Vectors
  import opened Quaternions
  import opened MetatubeGeom
  import opened Quadrics

  // ---------------------------------------------------------------------
  // The two scans, as functions of the boxes and the sampling box

  /**
   * The members gathered by the backward scan that starts at sample `i` and
   * steps down by `s`: it stops at the first sample below zero or whose box
   * does not overlap the sampling box, and the members come out in
   * increasing order because each one is pushed to the front.
   */
  function Trailing(boxes: seq<Box>, sampling: Box, i: int, s: nat): seq<nat>
    requires s >= 1 && i < |boxes|
    decreases if i < 0 then 0 else i + 1
  {
    if i < 0 then []
    else if BoxesOverlap(sampling, boxes[i]) then Trailing(boxes, sampling, i - s, s) + [i]
    else []
  }

  /** The members gathered by the forward scan from sample `i` in steps of `s`. */
  function Leading(boxes: seq<Box>, sampling: Box, i: nat, s: nat): seq<nat>
    requires s >= 1
    decreases |boxes| - i
  {
    if i >= |boxes| then []
    else if BoxesOverlap(sampling, boxes[i]) then [i] + Leading(boxes, sampling, i + s, s)
    else []
  }

  /**
   * The resume index after the forward scan from `i` with current value
   * `next`: every visited sample whose position lies in the sampling box
   * becomes the new value, the test coming before the scan may stop.
   */
  function LeadingNext(positions: seq<Vec3>, boxes: seq<Box>, sampling: Box, i: nat, s: nat, next: nat): nat
    requires s >= 1 && |positions| == |boxes|
    decreases |boxes| - i
  {
    if i >= |boxes| then next
    else
      var n := if PointInBox(sampling, positions[i]) then i else next;
      if BoxesOverlap(sampling, boxes[i]) then LeadingNext(positions, boxes, sampling, i + s, s, n) else n
  }

  /** The value `next_idx` receives before the backward scan. */
  function InitialNext(idx: nat, s: nat): nat
    requires s >= 1
  {
    if idx - s < 0 then 0 else if idx % s == 0 then idx - s else idx - idx % s
  }

  /** Where the forward scan starts, as written: the initial value survives when n <= 1. */
  function StartAsWritten(idx: nat, n: nat, s: nat): nat
    requires s >= 1
  {
    if idx + s < n then idx + s else if n > 1 then n else InitialNext(idx, s)
  }

  /** Where the forward scan starts once the guard `n > 1` is dropped. */
  function StartFixed(idx: nat, n: nat, s: nat): nat {
    if idx + s < n then idx + s else n
  }

  /** The last-sample check after the forward scan applies: 0 < n - next <= s. */
  predicate RemainderApplies(n: nat, next: nat, s: nat) {
    0 < n - next <= s
  }

  /** The whole window after a rebuild at anchor `idx` whose forward scan starts at `start`. */
  function WindowOf(positions: seq<Vec3>, boxes: seq<Box>, sampling: Box, idx: nat, s: nat, start: nat): seq<nat>
    requires s >= 1 && |positions| == |boxes| && 0 < |boxes|
    requires idx < |boxes|
  {
    Trailing(boxes, sampling, idx - s, s) + [idx] + Leading(boxes, sampling, start, s)
      + LastSample(positions, boxes, sampling, start, s)
  }

  /** The index the rebuild reports for the extraction loop to continue with. */
  function ResumeOf(positions: seq<Vec3>, boxes: seq<Box>, sampling: Box, s: nat, start: nat): nat
    requires s >= 1 && |positions| == |boxes| && 0 < |boxes|
  {
    var n := |boxes|;
    var next := LeadingNext(positions, boxes, sampling, start, s, start);
    if RemainderApplies(n, next, s) && PointInBox(sampling, positions[n - 1]) then n - 1 else next
  }

  /** One round of the backward scan moves member `i` from the pending scan to the gathered ones. */
  lemma TrailingStep(boxes: seq<Box>, sampling: Box, i: nat, s: nat, gathered: seq<nat>)
    requires s >= 1 && i < |boxes| && BoxesOverlap(sampling, boxes[i])
    ensures Trailing(boxes, sampling, i, s) + gathered == Trailing(boxes, sampling, i - s, s) + ([i] + gathered)
  {
    var rest := Trailing(boxes, sampling, i - s, s);
    assert Trailing(boxes, sampling, i, s) == rest + [i];
    assert (rest + [i]) + gathered == rest + ([i] + gathered);
  }

  /** One round of the forward scan moves member `i` from the pending scan to the gathered ones. */
  lemma LeadingStep(boxes: seq<Box>, sampling: Box, i: nat, s: nat, gathered: seq<nat>)
    requires s >= 1 && i < |boxes| && BoxesOverlap(sampling, boxes[i])
    ensures gathered + Leading(boxes, sampling, i, s) == (gathered + [i]) + Leading(boxes, sampling, i + s, s)
  {
    var rest := Leading(boxes, sampling, i + s, s);
    assert Leading(boxes, sampling, i, s) == [i] + rest;
    assert gathered + ([i] + rest) == (gathered + [i]) + rest;
  }

  /** Where the forward scan stops, nothing more is gathered and the resume index takes its last value. */
  lemma LeadingStop(positions: seq<Vec3>, boxes: seq<Box>, sampling: Box, i: nat, s: nat, next: nat,
                    gathered: seq<nat>)
    requires s >= 1 && |positions| == |boxes|
    requires i >= |boxes| || !BoxesOverlap(sampling, boxes[i])
    ensures gathered + Leading(boxes, sampling, i, s) == gathered
    ensures i >= |boxes| ==> LeadingNext(positions, boxes, sampling, i, s, next) == next
    ensures i < |boxes| ==>
      LeadingNext(positions, boxes, sampling, i, s, next) == if PointInBox(sampling, positions[i]) then i else next
  {
    assert Leading(boxes, sampling, i, s) == [];
    assert gathered + [] == gathered;
  }

  /** What the check of the last sample adds after the forward scan from `start`. */
  function LastSample(positions: seq<Vec3>, boxes: seq<Box>, sampling: Box, start: nat, s: nat): seq<nat>
    requires s >= 1 && |positions| == |boxes| && 0 < |boxes|
  {
    var n := |boxes|;
    var next := LeadingNext(positions, boxes, sampling, start, s, start);
    if RemainderApplies(n, next, s) && BoxesOverlap(sampling, boxes[n - 1]) then [n - 1] else []
  }

  /**
   * The body of the forward scan on the metatube's state: appends the
   * members from `start` on, then checks the last sample when the scan
   * stopped at most one step before the end.
   */
  method ForwardScan(positions: seq<Vec3>, boxes: seq<Box>, sampling: Box, skip: nat, start: nat,
                     ellipsoids0: seq<nat>)
    returns (ellipsoids: seq<nat>, next: nat)
    requires skip >= 1 && |boxes| == |positions| && 0 < |positions| && start <= |positions|
    requires forall k :: 0 <= k < |ellipsoids0| ==> ellipsoids0[k] < |positions|
    ensures forall k :: 0 <= k < |ellipsoids| ==> ellipsoids[k] < |positions|
    ensures ellipsoids == ellipsoids0 + Leading(boxes, sampling, start, skip) + LastSample(positions, boxes, sampling, start, skip)
    ensures next == ResumeOf(positions, boxes, sampling, skip, start)
  {
    var n := |positions|;
    ellipsoids := ellipsoids0;
    next := start;
    var i := start;
    LeadingNextRange(positions, boxes, sampling, start, skip, start);
    while i < n
      invariant start <= i && next <= n
      invariant forall k :: 0 <= k < |ellipsoids| ==> ellipsoids[k] < |positions|
      invariant ellipsoids + Leading(boxes, sampling, i, skip) == ellipsoids0 + Leading(boxes, sampling, start, skip)
      invariant LeadingNext(positions, boxes, sampling, i, skip, next)
             == LeadingNext(positions, boxes, sampling, start, skip, start)
      decreases n - i
    {
      ghost var before := next;
      if PointInBox(sampling, positions[i]) {
        next := i;
      }
      if BoxesOverlap(sampling, boxes[i]) {
        LeadingStep(boxes, sampling, i, skip, ellipsoids);
        ellipsoids := ellipsoids + [i];
        i := i + skip;
      } else {
        LeadingStop(positions, boxes, sampling, i, skip, before, ellipsoids);
        break;
      }
    }
    if i >= n {
      LeadingStop(positions, boxes, sampling, i, skip, next, ellipsoids);
    }
    ghost var scanned := ellipsoids;
    assert scanned == ellipsoids0 + Leading(boxes, sampling, start, skip);
    assert next == LeadingNext(positions, boxes, sampling, start, skip, start);
    var remainder := n - next;
    if remainder <= skip && remainder > 0 {
      if PointInBox(sampling, positions[n - 1]) {
        next := n - 1;
      }
      if BoxesOverlap(sampling, boxes[n - 1]) {
        ellipsoids := ellipsoids + [n - 1];
      }
    }
    assert ellipsoids == scanned + LastSample(positions, boxes, sampling, start, skip);
  }

  // ---------------------------------------------------------------------
  // Properties of the scans

  /**
   * The backward scan yields consecutive samples s apart ending at i, all
   * overlapping, and it stopped at the sample s below the first member,
   * which is below zero or does not overlap.
   */
  lemma {:induction false} TrailingShape(boxes: seq<Box>, sampling: Box, i: int, s: nat)
    requires s >= 1 && i < |boxes|
    decreases if i < 0 then 0 else i + 1
    ensures var t := Trailing(boxes, sampling, i, s);
      (forall j :: 0 <= j < |t| ==> t[j] <= i && BoxesOverlap(sampling, boxes[t[j]])) &&
      (forall j :: 0 < j < |t| ==> t[j] == t[j - 1] + s) &&
      (|t| > 0 ==> t[|t| - 1] == i) &&
      var stop := if |t| == 0 then i else t[0] - s;
      stop < 0 || !BoxesOverlap(sampling, boxes[stop])
  {
    if i >= 0 && BoxesOverlap(sampling, boxes[i]) {
      TrailingShape(boxes, sampling, i - s, s);
      var t0 := Trailing(boxes, sampling, i - s, s);
      var t := Trailing(boxes, sampling, i, s);
      assert t == t0 + [i];
      assert |t0| > 0 ==> t0[|t0| - 1] == i - s;
      assert |t0| > 0 ==> t[0] == t0[0];
    }
  }

  /**
   * The forward scan yields consecutive samples s apart starting at i, all
   * overlapping and below n.
   */
  lemma {:induction false} LeadingShape(boxes: seq<Box>, sampling: Box, i: nat, s: nat)
    requires s >= 1
    decreases |boxes| - i
    ensures forall j :: 0 <= j < |Leading(boxes, sampling, i, s)| ==>
      i <= Leading(boxes, sampling, i, s)[j] < |boxes| && BoxesOverlap(sampling, boxes[Leading(boxes, sampling, i, s)[j]])
    ensures forall j :: 0 < j < |Leading(boxes, sampling, i, s)| ==>
      Leading(boxes, sampling, i, s)[j] == Leading(boxes, sampling, i, s)[j - 1] + s
    ensures |Leading(boxes, sampling, i, s)| > 0 ==> Leading(boxes, sampling, i, s)[0] == i
  {
    if i < |boxes| && BoxesOverlap(sampling, boxes[i]) {
      LeadingShape(boxes, sampling, i + s, s);
      var l0 := Leading(boxes, sampling, i + s, s);
      var l := Leading(boxes, sampling, i, s);
      assert l == [i] + l0;
      assert |l0| > 0 ==> l0[0] == i + s;
    }
  }

  /**
   * The forward scan stopped at the sample s past its last member (or at
   * `i` when it gathered none), which is past the end or does not overlap.
   */
  lemma {:induction false} LeadingStopsAt(boxes: seq<Box>, sampling: Box, i: nat, s: nat)
    requires s >= 1
    decreases |boxes| - i
    ensures |Leading(boxes, sampling, i, s)| == 0 ==> i >= |boxes| || !BoxesOverlap(sampling, boxes[i])
    ensures |Leading(boxes, sampling, i, s)| > 0 ==>
      var stop := Leading(boxes, sampling, i, s)[|Leading(boxes, sampling, i, s)| - 1] + s;
      stop >= |boxes| || !BoxesOverlap(sampling, boxes[stop])
  {
    if i < |boxes| && BoxesOverlap(sampling, boxes[i]) {
      LeadingStopsAt(boxes, sampling, i + s, s);
      var l0 := Leading(boxes, sampling, i + s, s);
      var l := Leading(boxes, sampling, i, s);
      assert l == [i] + l0;
      assert |l0| > 0 ==> l[|l| - 1] == l0[|l0| - 1];
    }
  }

  /** The resume value of the forward scan is the starting value or a visited sample below n. */
  lemma {:induction false} LeadingNextRange(positions: seq<Vec3>, boxes: seq<Box>, sampling: Box, i: nat, s: nat, next: nat)
    requires s >= 1 && |positions| == |boxes|
    requires next <= i
    decreases |boxes| - i
    ensures var r := LeadingNext(positions, boxes, sampling, i, s, next);
      next <= r && (r == next || i <= r < |boxes|)
  {
    if i < |boxes| {
      var n := if PointInBox(sampling, positions[i]) then i else next;
      if BoxesOverlap(sampling, boxes[i]) {
        LeadingNextRange(positions, boxes, sampling, i + s, s, n);
      }
    }
  }

  predicate NonDecreasing(w: seq<nat>) {
    forall a, b :: 0 <= a <= b < |w| ==> w[a] <= w[b]
  }

  predicate AllAtMost(w: seq<nat>, m: int) {
    forall k :: 0 <= k < |w| ==> w[k] <= m
  }

  predicate AllAtLeast(w: seq<nat>, m: int) {
    forall k :: 0 <= k < |w| ==> m <= w[k]
  }

  lemma ConcatNonDecreasing(u: seq<nat>, v: seq<nat>, m: int)
    requires NonDecreasing(u) && NonDecreasing(v)
    requires AllAtMost(u, m) && AllAtLeast(v, m)
    ensures NonDecreasing(u + v)
  {
    var w := u + v;
    forall a, b | 0 <= a <= b < |w|
      ensures w[a] <= w[b]
    {
      if b < |u| {
        assert w[a] == u[a] && w[b] == u[b];
      } else if a >= |u| {
        assert w[a] == v[a - |u|] && w[b] == v[b - |u|];
      } else {
        assert w[a] == u[a] && w[b] == v[b - |u|];
      }
    }
  }

  /** Members s apart in increasing order are non-decreasing. */
  lemma {:induction false} SteppedNonDecreasing(w: seq<nat>, s: nat)
    requires forall j :: 0 < j < |w| ==> w[j] == w[j - 1] + s
    ensures NonDecreasing(w)
    decreases |w|
  {
    if |w| > 1 {
      var u := w[..|w| - 1];
      assert forall j :: 0 < j < |u| ==> u[j] == u[j - 1] + s;
      SteppedNonDecreasing(u, s);
      assert w == u + [w[|w| - 1]];
      assert AllAtMost(u, w[|w| - 1]) by {
        forall k | 0 <= k < |u|
          ensures u[k] <= w[|w| - 1]
        {
          assert u[k] <= u[|u| - 1];
        }
      }
      ConcatNonDecreasing(u, [w[|w| - 1]], w[|w| - 1]);
    }
  }

  /** The backward scan lists samples in order, none above its start. */
  lemma TrailingOrdered(boxes: seq<Box>, sampling: Box, i: int, s: nat)
    requires s >= 1 && i < |boxes|
    ensures var t := Trailing(boxes, sampling, i, s);
      NonDecreasing(t) && AllAtMost(t, i)
  {
    TrailingShape(boxes, sampling, i, s);
    SteppedNonDecreasing(Trailing(boxes, sampling, i, s), s);
  }

  /** The forward scan lists existing samples in order, none below its start. */
  lemma LeadingOrdered(boxes: seq<Box>, sampling: Box, i: nat, s: nat)
    requires s >= 1
    ensures var l := Leading(boxes, sampling, i, s);
      NonDecreasing(l) && AllAtLeast(l, i) && AllAtMost(l, |boxes| - 1)
  {
    LeadingShape(boxes, sampling, i, s);
    SteppedNonDecreasing(Leading(boxes, sampling, i, s), s);
  }

  /** Gluing the pieces of a window keeps them in order and in range. */
  lemma AssembleOrdered(t: seq<nat>, idx: nat, l: seq<nat>, tail: seq<nat>, n: nat)
    requires NonDecreasing(t) && AllAtMost(t, idx)
    requires NonDecreasing(l) && AllAtLeast(l, idx) && AllAtMost(l, n - 1)
    requires idx < n && (tail == [] || tail == [n - 1])
    ensures idx in t + [idx] + l + tail
    ensures NonDecreasing(t + [idx] + l + tail) && AllAtMost(t + [idx] + l + tail, n - 1)
  {
    ConcatNonDecreasing(t, [idx], idx);
    ConcatNonDecreasing(t + [idx], l, idx);
    var u := t + [idx] + l;
    assert AllAtMost(u, n - 1) by {
      forall k | 0 <= k < |u|
        ensures u[k] <= n - 1
      {
        if k < |t| {
          assert u[k] == t[k];
        } else if k > |t| {
          assert u[k] == l[k - |t| - 1];
        }
      }
    }
    ConcatNonDecreasing(u, tail, n - 1);
    assert (u + tail)[|t|] == idx;
  }

  /** The scan as written never starts before the anchor. */
  lemma StartAfterAnchor(idx: nat, n: nat, s: nat)
    requires s >= 1 && idx < n
    ensures idx <= StartAsWritten(idx, n, s)
  {
    if idx + s >= n && n <= 1 {
      assert idx == 0;
    }
  }

  /**
   * The window holds the anchor, only samples that exist, and lists them in
   * non-decreasing sample order (the last sample may appear twice).
   */
  lemma WindowOrdered(positions: seq<Vec3>, boxes: seq<Box>, sampling: Box, idx: nat, s: nat)
    requires s >= 1 && |positions| == |boxes| && idx < |boxes|
    ensures idx in WindowOf(positions, boxes, sampling, idx, s, StartAsWritten(idx, |boxes|, s))
    ensures NonDecreasing(WindowOf(positions, boxes, sampling, idx, s, StartAsWritten(idx, |boxes|, s)))
    ensures AllAtMost(WindowOf(positions, boxes, sampling, idx, s, StartAsWritten(idx, |boxes|, s)), |boxes| - 1)
  {
    var n := |boxes|;
    var start := StartAsWritten(idx, n, s);
    StartAfterAnchor(idx, n, s);
    TrailingOrdered(boxes, sampling, idx - s, s);
    LeadingOrdered(boxes, sampling, start, s);
    var tail := LastSample(positions, boxes, sampling, start, s);
    AssembleOrdered(Trailing(boxes, sampling, idx - s, s), idx, Leading(boxes, sampling, start, s), tail, n);
    assert WindowOf(positions, boxes, sampling, idx, s, start) ==
      Trailing(boxes, sampling, idx - s, s) + [idx] + Leading(boxes, sampling, start, s) + tail;
  }

  /**
   * Progress of the rebuild for trajectories of two or more samples: the
   * resume index r satisfies idx < r <= n; r == n exactly when the stride
   * passes the end; otherwise idx + s <= r <= n - 1.
   */
  lemma ResumeProgress(positions: seq<Vec3>, boxes: seq<Box>, sampling: Box, idx: nat, s: nat)
    requires s >= 1 && |positions| == |boxes| && 2 <= |boxes| && idx < |boxes|
    ensures var r := ResumeOf(positions, boxes, sampling, s, StartAsWritten(idx, |boxes|, s));
      idx < r <= |boxes| &&
      (r == |boxes| <==> idx + s >= |boxes|) &&
      (idx + s < |boxes| ==> idx + s <= r <= |boxes| - 1)
  {
    var n := |boxes|;
    var start := StartAsWritten(idx, n, s);
    LeadingNextRange(positions, boxes, sampling, start, s, start);
  }

  /**
   * With a single sample the rebuild reports 0 again, so a loop that resumes
   * from the reported index never advances past the anchor.
   */
  lemma ResumeStallsOnSingleSample(positions: seq<Vec3>, boxes: seq<Box>, sampling: Box, s: nat)
    requires s >= 1 && |positions| == |boxes| == 1
    ensures ResumeOf(positions, boxes, sampling, s, StartAsWritten(0, 1, s)) == 0
  {
    LeadingNextRange(positions, boxes, sampling, 0, s, 0);
  }

  /** Without the guard the rebuild always moves past its anchor. */
  lemma ResumeProgressFixed(positions: seq<Vec3>, boxes: seq<Box>, sampling: Box, idx: nat, s: nat)
    requires s >= 1 && |positions| == |boxes| && idx < |boxes|
    ensures var r := ResumeOf(positions, boxes, sampling, s, StartFixed(idx, |boxes|, s));
      idx < r <= |boxes| && (r == |boxes| <==> idx + s >= |boxes|)
  {
    var start := StartFixed(idx, |boxes|, s);
    LeadingNextRange(positions, boxes, sampling, start, s, start);
  }

  // ---------------------------------------------------------------------
  // The metatube object

  /** An extended real for the running minimum, which starts at infinity. */
  datatype Ext = Inf | Fin(v: real)

  predicate Below(m: Ext, v: real) {
    m.Fin? && m.v <= v
  }

  class Metatube {
    var positions: seq<Vec3>
    var orientations: seq<Quat>
    var axes: Vec3
    var trajBoxes: seq<Box>
    var bboxReference: Box
    var bboxSampling: Box
    var quadricTemplate: Quadric
    var ellipsoids: seq<nat>
    /** The scan stride `SW_SKIP`: 1 in release builds, 4 in debug builds. */
    const skip: nat

    /** The set-up state: the template, the reference box and one box per sample. */
    predicate Prepared()
      reads this`positions, this`orientations, this`trajBoxes, this`axes,
        this`bboxReference, this`quadricTemplate
    {
      skip >= 1 &&
      |trajBoxes| == |positions| && |orientations| == |positions| &&
      bboxReference == EllipsoidBBox(axes) &&
      quadricTemplate == Template(axes) &&
      forall i :: 0 <= i < |positions| ==> trajBoxes[i] == TranslateBBox(bboxReference, positions[i])
    }

    /** Every window member is a sample of the trajectory. */
    predicate WindowInRange()
      reads this`positions, this`ellipsoids
    {
      forall k :: 0 <= k < |ellipsoids| ==> ellipsoids[k] < |positions|
    }

    predicate Valid()
      reads this
    {
      Prepared() && WindowInRange()
    }

    /** Stores the trajectory and sets up the template and the per-sample boxes. */
    constructor(traj: seq<Vec3>, orients: seq<Quat>, ax: Vec3, stride: nat)
      requires stride >= 1 && |orients| == |traj|
      ensures Valid()
      ensures positions == traj && orientations == orients && axes == ax && skip == stride
      ensures ellipsoids == []
    {
      positions := traj;
      orientations := orients;
      axes := ax;
      skip := stride;
      bboxReference := EllipsoidBBox(ax);
      bboxSampling := EllipsoidBBox(ax);
      quadricTemplate := DefaultQuadric;
      trajBoxes := [];
      ellipsoids := [];
      new;
      SetupState();
    }

    /** `setup_state`: the template from the axes, and every sample's reference box moved to its position. */
    method SetupState()
      requires |orientations| == |positions| && skip >= 1 && ellipsoids == []
      requires bboxReference == EllipsoidBBox(axes) && quadricTemplate == DefaultQuadric
      modifies this
      ensures Valid()
      ensures positions == old(positions) && orientations == old(orientations) && axes == old(axes)
      ensures ellipsoids == []
    {
      quadricTemplate := quadricTemplate.(axx := axes.x, ayy := axes.y, azz := axes.z, aww := -0.25);
      var boxes: seq<Box> := [];
      var i := 0;
      while i < |positions|
        invariant 0 <= i <= |positions|
        invariant |boxes| == i
        invariant forall j :: 0 <= j < i ==> boxes[j] == TranslateBBox(bboxReference, positions[j])
      {
        boxes := boxes + [TranslateBBox(bboxReference, positions[i])];
        i := i + 1;
      }
      trajBoxes := boxes;
    }

    /** The backward scan: rebuilds the window front from `idx - skip` downwards. */
    method ScanTrailing(idx: nat)
      requires skip >= 1 && |trajBoxes| == |positions| && idx < |positions|
      modifies this`ellipsoids
      ensures WindowInRange()
      ensures ellipsoids == Trailing(trajBoxes, bboxSampling, idx - skip, skip)
    {
      ellipsoids := [];
      var i: int := idx - skip;
      while i >= 0
        invariant -(skip as int) <= i < |trajBoxes|
        invariant forall k :: 0 <= k < |ellipsoids| ==> ellipsoids[k] < |positions|
        invariant Trailing(trajBoxes, bboxSampling, i, skip) + ellipsoids
               == Trailing(trajBoxes, bboxSampling, idx - skip, skip)
        decreases i + skip
      {
        if BoxesOverlap(bboxSampling, trajBoxes[i]) {
          TrailingStep(trajBoxes, bboxSampling, i, skip, ellipsoids);
          ellipsoids := [i] + ellipsoids;
          i := i - skip;
        } else {
          break;
        }
      }
    }

    /** The forward scan from `start` and the check of the last sample. */
    method ScanLeading(start: nat) returns (next: nat)
      requires skip >= 1 && |trajBoxes| == |positions| && WindowInRange()
      requires 0 < |positions| && start <= |positions|
      modifies this`ellipsoids
      ensures WindowInRange()
      ensures ellipsoids == old(ellipsoids) + Leading(trajBoxes, bboxSampling, start, skip)
        + LastSample(positions, trajBoxes, bboxSampling, start, skip)
      ensures next == ResumeOf(positions, trajBoxes, bboxSampling, skip, start)
    {
      ellipsoids, next := ForwardScan(positions, trajBoxes, bboxSampling, skip, start, ellipsoids);
    }

    /** The window rebuild around `idx` once the forward scan's start is known. */
    method Rebuild(idx: nat, start: nat) returns (next: nat)
      requires skip >= 1 && |trajBoxes| == |positions| && idx < |positions| && start <= |positions|
      modifies this`ellipsoids
      ensures WindowInRange()
      ensures ellipsoids == WindowOf(positions, trajBoxes, bboxSampling, idx, skip, start)
      ensures next == ResumeOf(positions, trajBoxes, bboxSampling, skip, start)
    {
      ScanTrailing(idx);
      ellipsoids := ellipsoids + [idx];
      next := ScanLeading(start);
    }

    /**
     * `set_window`: snaps the anchor's box to the grid, rebuilds the window
     * around the anchor and reports where extraction continues.
     */
    method SetWindow(idx: nat, cellsize: real) returns (next: nat)
      requires Valid() && idx < |positions| && cellsize > 0.0
      modifies this`bboxSampling, this`ellipsoids
      ensures Valid()
      ensures bboxSampling == Discretize(trajBoxes[idx], cellsize)
      ensures ellipsoids == WindowOf(positions, trajBoxes, bboxSampling, idx, skip, StartAsWritten(idx, |positions|, skip))
      ensures next == ResumeOf(positions, trajBoxes, bboxSampling, skip, StartAsWritten(idx, |positions|, skip))
    {
      bboxSampling := Discretize(trajBoxes[idx], cellsize);
      var n := |positions|;
      next := InitialNext(idx, skip);
      if idx + skip < n {
        next := idx + skip;
      } else if n > 1 {
        next := n;
      } else {
        assert idx == 0;
      }
      next := Rebuild(idx, next);
    }

    /** `set_window` with the guard `n > 1` dropped, so that a one-sample trajectory resumes at 1. */
    method SetWindowFixed(idx: nat, cellsize: real) returns (next: nat)
      requires Valid() && idx < |positions| && cellsize > 0.0
      modifies this`bboxSampling, this`ellipsoids
      ensures Valid()
      ensures bboxSampling == Discretize(trajBoxes[idx], cellsize)
      ensures ellipsoids == WindowOf(positions, trajBoxes, bboxSampling, idx, skip, StartFixed(idx, |positions|, skip))
      ensures next == ResumeOf(positions, trajBoxes, bboxSampling, skip, StartFixed(idx, |positions|, skip))
      ensures idx < next <= |positions|
    {
      bboxSampling := Discretize(trajBoxes[idx], cellsize);
      var n := |positions|;
      if idx + skip < n {
        next := idx + skip;
      } else {
        next := n;
      }
      next := Rebuild(idx, next);
      ResumeProgressFixed(positions, trajBoxes, bboxSampling, idx, skip);
    }

    /** The value of window member `k` at `p`: the template at the member's position, rotated by `rot`. */
    function MemberValue(p: Vec3, rot: (Quat, Vec3) -> Vec3, k: nat): real
      requires Valid() && k < |ellipsoids|
      reads this
    {
      var i := ellipsoids[k];
      EvalQuadric(quadricTemplate, rot(orientations[i], Sub(p, positions[i])))
    }

    /**
     * `evaluate`: the minimum over the window's member values, infinity for
     * an empty window.
     */
    method Evaluate(p: Vec3, rot: (Quat, Vec3) -> Vec3) returns (m: Ext)
      requires Valid()
      ensures m == Inf <==> |ellipsoids| == 0
      ensures forall k :: 0 <= k < |ellipsoids| ==> Below(m, MemberValue(p, rot, k))
      ensures m.Fin? ==> exists k :: 0 <= k < |ellipsoids| && m.v == MemberValue(p, rot, k)
    {
      m := Inf;
      var i := 0;
      while i < |ellipsoids|
        invariant 0 <= i <= |ellipsoids|
        invariant m == Inf <==> i == 0
        invariant forall k :: 0 <= k < i ==> Below(m, MemberValue(p, rot, k))
        invariant m.Fin? ==> exists k :: 0 <= k < i && m.v == MemberValue(p, rot, k)
      {
        var val := MemberValue(p, rot, i);
        m := if m == Inf || val < m.v then Fin(val) else m;
        i := i + 1;
      }
    }
  }

  /**
   * The scan-conversion loop of the tube export driven by the corrected
   * rebuild: the anchors visited start at 0, strictly increase and stay
   * below the sample count, so the loop ends.
   */
  method ScanConvert(tube: Metatube, cellsize: real) returns (anchors: seq<nat>)
    requires tube.Valid() && cellsize > 0.0
    modifies tube`bboxSampling, tube`ellipsoids
    ensures tube.Valid()
    ensures |tube.positions| > 0 ==> |anchors| > 0 && anchors[0] == 0
    ensures forall k :: 0 <= k < |anchors| ==> anchors[k] < |tube.positions|
    ensures forall a, b :: 0 <= a < b < |anchors| ==> anchors[a] < anchors[b]
  {
    anchors := [];
    var i: nat := 0;
    while i < |tube.positions|
      invariant tube.Valid()
      invariant i <= |tube.positions|
      invariant |anchors| > 0 ==> anchors[0] == 0
      invariant i > 0 ==> |anchors| > 0
      invariant |tube.positions| > 0 && i == 0 ==> anchors == []
      invariant forall k :: 0 <= k < |anchors| ==> anchors[k] < i
      invariant forall a, b :: 0 <= a < b < |anchors| ==> anchors[a] < anchors[b]
      decreases |tube.positions| - i
    {
      anchors := anchors + [i];
      i := tube.SetWindowFixed(i, cellsize);
    }
  }
}
