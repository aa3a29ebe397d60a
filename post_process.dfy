/**
 * The data set and its post-processing: the loaded samples (`tmp_data`)
 * are turned step by step into grouped axes, stationary particles and
 * dynamic trajectories with bounding boxes, vertex indices and velocities.
 * Each step is a method proved against the functions of Trajectories,
 * BoundingBoxes, Cutting, VertexIndices and Kinematics.
 */
module PostProcess {
  import opened Vectors
  import opened Quaternions
  import opened Trajectories
  import opened BoundingBoxes
  import opened Cutting
  import opened VertexIndices
  import opened Kinematics

  /** `trajectory_data` of one dynamic particle. */
  datatype Trajectory = Trajectory(
    box: Bounds,
    center: Vec3,
    positions: seq<Cell<Vec3>>,
    velocities: seq<Cell<Vec3>>,
    angularVelocities: seq<Cell<Vec3>>,
    orientations: seq<Cell<Quat>>,
    indicesStrip: seq<int>,
    indices: seq<int>)

  /** A particle is stationary iff it never moves. */
  method IsStationary(traj: seq<Cell<Vec3>>) returns (stationary: bool)
    ensures stationary <==> Stationary(traj)
  {
    stationary := true;
    var t := 1;
    while t < |traj|
      invariant 1 <= t && (t <= |traj| || |traj| == 0)
      invariant stationary <==> forall u :: 1 <= u < t && u < |traj| ==> SameSample(traj[u - 1], traj[u])
      invariant !stationary ==> !Stationary(traj)
      decreases |traj| - t, stationary
    {
      if !SameSample(traj[t - 1], traj[t]) {
        stationary := false;
        break;
      }
      t := t + 1;
    }
  }

  class Data {
    var maxTimeSteps: nat
    var bbox: Bounds
    var center: Vec3
    /** The distinct axes; particles refer to them by index. */
    var axes: seq<Vec3>

    // `tmp_data`: the samples as loaded, per particle and time step
    var tmpAxes: seq<Vec3>
    var tmpPositions: seq<seq<Cell<Vec3>>>
    var tmpOrientations: seq<seq<Cell<Quat>>>
    var tmpTimes: seq<real>

    // `dynamics`
    var axisIds: seq<nat>
    var trajs: seq<Trajectory>
    var times: seq<real>

    // `stationaries`
    var stationaryAxisIds: seq<nat>
    var stationaryPositions: seq<Cell<Vec3>>
    var stationaryOrientations: seq<Cell<Quat>>

    /** An empty data set whose box is the intended empty box. */
    constructor ()
      ensures maxTimeSteps == 0 && bbox == Initial && axes == []
      ensures tmpAxes == [] && tmpPositions == [] && tmpOrientations == [] && tmpTimes == []
      ensures axisIds == [] && trajs == [] && times == []
      ensures stationaryAxisIds == [] && stationaryPositions == [] && stationaryOrientations == []
    {
      maxTimeSteps := 0;
      bbox := Initial;
      center := Zero;
      axes := [];
      tmpAxes, tmpPositions, tmpOrientations, tmpTimes := [], [], [], [];
      axisIds, trajs, times := [], [], [];
      stationaryAxisIds, stationaryPositions, stationaryOrientations := [], [], [];
    }

    /**
     * Step 1: every particle's axis is looked up in `axes` and appended if
     * new; the particle records the index where it was found.
     */
    method GroupAxes()
      modifies this`axes, this`axisIds
      ensures axes == Grouped(old(axes), tmpAxes)
      ensures |axisIds| == |old(axisIds)| + |tmpAxes| && axisIds[..|old(axisIds)|] == old(axisIds)
      ensures forall p :: |old(axisIds)| <= p < |axisIds| ==>
        axisIds[p] < |axes| && axes[axisIds[p]] == tmpAxes[p - |old(axisIds)|]
    {
      var a := axes;
      var ids: seq<nat> := [];
      var p := 0;
      while p < |tmpAxes|
        invariant 0 <= p <= |tmpAxes| && |ids| == p
        invariant a == Grouped(old(axes), tmpAxes[..p])
        invariant forall q :: 0 <= q < p ==> ids[q] < |a| && a[ids[q]] == tmpAxes[q]
      {
        var id := 0;
        while id < |a| && a[id] != tmpAxes[p]
          invariant 0 <= id <= |a|
          invariant forall j :: 0 <= j < id ==> a[j] != tmpAxes[p]
        {
          id := id + 1;
        }
        assert tmpAxes[..p + 1][..p] == tmpAxes[..p];
        assert tmpAxes[..p + 1][p] == tmpAxes[p];
        assert id < |a| <==> tmpAxes[p] in a;
        if id == |a| {
          a := a + [tmpAxes[p]];
        }
        ids := ids + [id];
        p := p + 1;
      }
      assert tmpAxes[..p] == tmpAxes;
      axes := a;
      axisIds := axisIds + ids;
    }

    /**
     * Step 2: stationary particles move, in order, to the stationary lists
     * with their first sample; the others stay, in order, in the dynamic
     * lists.
     */
    method SplitStationary()
      requires |axisIds| == |tmpPositions| == |tmpOrientations|
      requires forall p :: 0 <= p < |tmpPositions| ==> |tmpPositions[p]| > 0 && |tmpOrientations[p]| > 0
      modifies this`axisIds, this`tmpPositions, this`tmpOrientations
      modifies this`stationaryAxisIds, this`stationaryPositions, this`stationaryOrientations
      ensures stationaryAxisIds == old(stationaryAxisIds) + OfStationary(old(axisIds), old(tmpPositions))
      ensures stationaryPositions == old(stationaryPositions) + OfStationary(Firsts(old(tmpPositions)), old(tmpPositions))
      ensures stationaryOrientations == old(stationaryOrientations) + OfStationary(Firsts(old(tmpOrientations)), old(tmpPositions))
      ensures axisIds == OfDynamic(old(axisIds), old(tmpPositions))
      ensures tmpPositions == OfDynamic(old(tmpPositions), old(tmpPositions))
      ensures tmpOrientations == OfDynamic(old(tmpOrientations), old(tmpPositions))
    {
      var ids, pos, ori, sIds, sPos, sOri := Split(axisIds, tmpPositions, tmpOrientations);
      axisIds, tmpPositions, tmpOrientations := ids, pos, ori;
      stationaryAxisIds := stationaryAxisIds + sIds;
      stationaryPositions := stationaryPositions + sPos;
      stationaryOrientations := stationaryOrientations + sOri;
    }

    /** Step 3: the global box over the loaded samples of every dynamic particle, and its centre. */
    method GlobalBox()
      requires forall p :: 0 <= p < |tmpPositions| ==> |tmpTimes| <= |tmpPositions[p]|
      modifies this`bbox, this`center
      ensures bbox == Fold(old(bbox), Concat(Heads(tmpPositions, |tmpTimes|)))
      ensures center == Center(bbox)
    {
      var b := CoverAll(bbox, Heads(tmpPositions, |tmpTimes|));
      bbox, center := b, Center(b);
    }

    /**
     * Step 4 with cutting: every trajectory is invalidated from its first
     * cut on, and each piece is appended with the particle's axis id.
     */
    method CutTrajectories(tol: real)
      requires |tmpPositions| == |tmpOrientations| == |axisIds|
      requires forall p :: 0 <= p < |tmpPositions| ==> |tmpOrientations[p]| == |tmpPositions[p]|
      modifies this`tmpPositions, this`tmpOrientations, this`axisIds
      ensures tmpPositions == CutLists(old(tmpPositions), AllCuts(old(tmpPositions), tol, Sub(bbox.max, bbox.min)))
      ensures tmpOrientations == CutLists(old(tmpOrientations), AllCuts(old(tmpPositions), tol, Sub(bbox.max, bbox.min)))
      ensures axisIds == old(axisIds) + Concat(PieceIds(old(axisIds), AllCuts(old(tmpPositions), tol, Sub(bbox.max, bbox.min))))
    {
      var ps, os, ids := CutAll(tmpPositions, tmpOrientations, axisIds, tol, Sub(bbox.max, bbox.min));
      tmpPositions, tmpOrientations, axisIds := ps, os, ids;
    }

    /** Step 4 without cutting: every trajectory is unwrapped against the dimensions of the global box. */
    method UnwrapTrajectories(tol: real)
      modifies this`tmpPositions
      ensures |tmpPositions| == |old(tmpPositions)|
      ensures forall p :: 0 <= p < |tmpPositions| ==>
        tmpPositions[p] == UnwrapUpTo(old(tmpPositions)[p], |old(tmpPositions)[p]|, tol, Sub(bbox.max, bbox.min))
    {
      tmpPositions := UnwrapAll(tmpPositions, tol, Sub(bbox.max, bbox.min));
    }

    /**
     * Step 5 without resampling: the first `maxTimeSteps` samples and times
     * become the trajectories, and the loaded data is released.
     */
    method CopyTrajectories()
      requires 1 <= maxTimeSteps <= |tmpTimes| && |tmpPositions| == |tmpOrientations|
      requires forall p :: 0 <= p < |tmpPositions| ==>
        maxTimeSteps <= |tmpPositions[p]| && maxTimeSteps <= |tmpOrientations[p]|
      modifies this`trajs, this`times, this`tmpAxes, this`tmpTimes, this`tmpPositions, this`tmpOrientations
      ensures times == old(tmpTimes)[..maxTimeSteps]
      ensures |trajs| == |old(tmpPositions)|
      ensures forall p :: 0 <= p < |trajs| ==>
        trajs[p] == NewTrajectory(old(tmpPositions)[p][..maxTimeSteps], old(tmpOrientations)[p][..maxTimeSteps])
      ensures tmpAxes == [] && tmpTimes == [] && tmpPositions == [] && tmpOrientations == []
    {
      trajs := CopyAll(tmpPositions, tmpOrientations, maxTimeSteps);
      times := tmpTimes[..maxTimeSteps];
      tmpAxes, tmpTimes, tmpPositions, tmpOrientations := [], [], [], [];
    }

    /** Step 6: strip and line indices from one unsigned counter over all trajectories. */
    method IndexTrajectories()
      modifies this`trajs
      ensures |trajs| == |old(trajs)|
      ensures forall p :: 0 <= p < |trajs| ==>
        trajs[p] == old(trajs)[p].(
          indicesStrip := old(trajs)[p].indicesStrip + Strip(Wrap(Offset(Lengths(old(trajs)), p)), |old(trajs)[p].positions|),
          indices := old(trajs)[p].indices + Lines(Wrap(Offset(Lengths(old(trajs)), p)), |old(trajs)[p].positions|))
    {
      trajs := IndexAll(trajs);
    }

    /** Step 7: the box and centre of every trajectory. */
    method BoxTrajectories()
      modifies this`trajs
      ensures |trajs| == |old(trajs)|
      ensures forall p :: 0 <= p < |trajs| ==>
        trajs[p] == old(trajs)[p].(box := Fold(Initial, old(trajs)[p].positions),
                                   center := Center(Fold(Initial, old(trajs)[p].positions)))
    {
      trajs := BoxAll(trajs);
    }

    /** Step 8: linear and angular velocities of every trajectory. */
    method ComputeVelocities(angular: (Cell<Quat>, Cell<Quat>) -> Cell<Vec3>)
      requires forall p :: 0 <= p < |trajs| ==> |trajs[p].positions| == |trajs[p].orientations| >= 1
      modifies this`trajs
      ensures |trajs| == |old(trajs)|
      ensures forall p :: 0 <= p < |trajs| ==>
        trajs[p] == old(trajs)[p].(velocities := Velocities(old(trajs)[p].positions),
                                   angularVelocities := AngularVelocities(old(trajs)[p].orientations, angular))
    {
      trajs := VelocitiesAll(trajs, angular);
    }

    /** Steps 1 and 2: axes grouped, stationary particles split off; the rest keep their shape. */
    method GroupAndSplit()
      requires axisIds == [] && 1 <= maxTimeSteps
      requires |tmpAxes| == |tmpPositions| == |tmpOrientations|
      requires AllOfLength(tmpPositions, maxTimeSteps) && AllOfLength(tmpOrientations, maxTimeSteps)
      modifies this`axes, this`axisIds, this`tmpPositions, this`tmpOrientations
      modifies this`stationaryAxisIds, this`stationaryPositions, this`stationaryOrientations
      ensures axes == Grouped(old(axes), tmpAxes)
      ensures |axisIds| == |tmpPositions| == |tmpOrientations| && forall p :: 0 <= p < |axisIds| ==> axisIds[p] < |axes|
      ensures AllOfLength(tmpPositions, maxTimeSteps) && AllOfLength(tmpOrientations, maxTimeSteps)
      ensures tmpPositions == OfDynamic(old(tmpPositions), old(tmpPositions))
      ensures tmpOrientations == OfDynamic(old(tmpOrientations), old(tmpPositions))
      ensures RefersTo(axes, axisIds, OfDynamic(tmpAxes, old(tmpPositions)))
      ensures stationaryPositions == old(stationaryPositions) + OfStationary(Firsts(old(tmpPositions)), old(tmpPositions))
      ensures stationaryOrientations == old(stationaryOrientations) + OfStationary(Firsts(old(tmpOrientations)), old(tmpPositions))
      ensures |old(stationaryAxisIds)| <= |stationaryAxisIds|
      ensures stationaryAxisIds[..|old(stationaryAxisIds)|] == old(stationaryAxisIds)
      ensures RefersTo(axes, stationaryAxisIds[|old(stationaryAxisIds)|..], OfStationary(tmpAxes, old(tmpPositions)))
    {
      ghost var pos0, sIds0 := tmpPositions, stationaryAxisIds;
      GroupAxes();
      assert RefersTo(axes, axisIds, tmpAxes);
      ghost var ids1 := axisIds;
      SplitShaped();
      RefersToSelect(axes, ids1, tmpAxes, Negate(StationaryFlags(pos0)));
      RefersToSelect(axes, ids1, tmpAxes, StationaryFlags(pos0));
      assert stationaryAxisIds[|sIds0|..] == OfStationary(ids1, pos0);
    }

    /** Step 2, stated by the shape it leaves. */
    method SplitShaped()
      requires |axisIds| == |tmpPositions| == |tmpOrientations| && forall p :: 0 <= p < |axisIds| ==> axisIds[p] < |axes|
      requires 1 <= maxTimeSteps && AllOfLength(tmpPositions, maxTimeSteps) && AllOfLength(tmpOrientations, maxTimeSteps)
      modifies this`axisIds, this`tmpPositions, this`tmpOrientations
      modifies this`stationaryAxisIds, this`stationaryPositions, this`stationaryOrientations
      ensures |axisIds| == |tmpPositions| == |tmpOrientations| && forall p :: 0 <= p < |axisIds| ==> axisIds[p] < |axes|
      ensures AllOfLength(tmpPositions, maxTimeSteps) && AllOfLength(tmpOrientations, maxTimeSteps)
      ensures stationaryAxisIds == old(stationaryAxisIds) + OfStationary(old(axisIds), old(tmpPositions))
      ensures stationaryPositions == old(stationaryPositions) + OfStationary(Firsts(old(tmpPositions)), old(tmpPositions))
      ensures stationaryOrientations == old(stationaryOrientations) + OfStationary(Firsts(old(tmpOrientations)), old(tmpPositions))
      ensures axisIds == OfDynamic(old(axisIds), old(tmpPositions))
      ensures tmpPositions == OfDynamic(old(tmpPositions), old(tmpPositions))
      ensures tmpOrientations == OfDynamic(old(tmpOrientations), old(tmpPositions))
    {
      ghost var ids0, pos0, ori0 := axisIds, tmpPositions, tmpOrientations;
      ghost var keep := Negate(StationaryFlags(pos0));
      SplitStationary();
      SelectShape(ids0, pos0, ori0, keep, maxTimeSteps, |axes|, axisIds, tmpPositions, tmpOrientations);
    }

    /** Steps 3 and 4: the global box, then cutting or unwrapping against it. */
    method BoxAndCut(cut: bool, tol: real)
      requires |axisIds| == |tmpPositions| == |tmpOrientations| && forall p :: 0 <= p < |axisIds| ==> axisIds[p] < |axes|
      requires maxTimeSteps == |tmpTimes|
      requires AllOfLength(tmpPositions, maxTimeSteps) && AllOfLength(tmpOrientations, maxTimeSteps)
      modifies this`bbox, this`center, this`tmpPositions, this`tmpOrientations, this`axisIds
      ensures |axisIds| == |tmpPositions| == |tmpOrientations| && forall p :: 0 <= p < |axisIds| ==> axisIds[p] < |axes|
      ensures AllOfLength(tmpPositions, maxTimeSteps) && AllOfLength(tmpOrientations, maxTimeSteps)
      ensures cut ==> forall p :: 0 <= p < |tmpPositions| ==> Cuts(tmpPositions[p], tol, Sub(bbox.max, bbox.min)) == []
      ensures bbox == Fold(old(bbox), Concat(old(tmpPositions))) && center == Center(bbox)
      ensures tmpPositions == Step4Positions(old(tmpPositions), cut, tol, Sub(bbox.max, bbox.min))
      ensures tmpOrientations == Step4Samples(old(tmpOrientations), old(tmpPositions), cut, tol, Sub(bbox.max, bbox.min))
      ensures axisIds == Step4Entries(old(axisIds), old(tmpPositions), cut, tol, Sub(bbox.max, bbox.min))
    {
      HeadsFull(tmpPositions, maxTimeSteps);
      GlobalBox();
      if cut {
        CutShaped(tol);
      } else {
        UnwrapShaped(tol);
      }
    }

    /** Step 4 with cutting, stated by the shape it leaves. */
    method CutShaped(tol: real)
      requires |axisIds| == |tmpPositions| == |tmpOrientations| && forall p :: 0 <= p < |axisIds| ==> axisIds[p] < |axes|
      requires AllOfLength(tmpPositions, maxTimeSteps) && AllOfLength(tmpOrientations, maxTimeSteps)
      modifies this`tmpPositions, this`tmpOrientations, this`axisIds
      ensures |axisIds| == |tmpPositions| == |tmpOrientations| && forall p :: 0 <= p < |axisIds| ==> axisIds[p] < |axes|
      ensures AllOfLength(tmpPositions, maxTimeSteps) && AllOfLength(tmpOrientations, maxTimeSteps)
      ensures forall p :: 0 <= p < |tmpPositions| ==> Cuts(tmpPositions[p], tol, Sub(bbox.max, bbox.min)) == []
      ensures tmpPositions == CutLists(old(tmpPositions), AllCuts(old(tmpPositions), tol, Sub(bbox.max, bbox.min)))
      ensures tmpOrientations == CutLists(old(tmpOrientations), AllCuts(old(tmpPositions), tol, Sub(bbox.max, bbox.min)))
      ensures axisIds == old(axisIds) + Concat(PieceIds(old(axisIds), AllCuts(old(tmpPositions), tol, Sub(bbox.max, bbox.min))))
    {
      ghost var ids1, pos1, ori1 := axisIds, tmpPositions, tmpOrientations;
      CutTrajectories(tol);
      CutShape(ids1, pos1, ori1, tol, Sub(bbox.max, bbox.min), maxTimeSteps, |axes|, axisIds, tmpPositions, tmpOrientations);
    }

    /** Step 4 without cutting, stated by the shape it leaves. */
    method UnwrapShaped(tol: real)
      requires AllOfLength(tmpPositions, maxTimeSteps)
      modifies this`tmpPositions
      ensures |tmpPositions| == |old(tmpPositions)| && AllOfLength(tmpPositions, maxTimeSteps)
      ensures tmpPositions == Unwrapped(old(tmpPositions), tol, Sub(bbox.max, bbox.min))
    {
      ghost var pos1 := tmpPositions;
      UnwrapTrajectories(tol);
      assert tmpPositions == Unwrapped(pos1, tol, Sub(bbox.max, bbox.min));
      forall p | 0 <= p < |tmpPositions|
        ensures |tmpPositions[p]| == maxTimeSteps
      {
        assert |pos1[p]| == maxTimeSteps;
      }
    }

    /** Steps 5 to 8: trajectories built from the samples, then indexed, boxed and differentiated. */
    method BuildTrajectories(angular: (Cell<Quat>, Cell<Quat>) -> Cell<Vec3>)
      requires 1 <= maxTimeSteps <= |tmpTimes| && |tmpPositions| == |tmpOrientations|
      requires AllOfLength(tmpPositions, maxTimeSteps) && AllOfLength(tmpOrientations, maxTimeSteps)
      modifies this`trajs, this`times, this`tmpAxes, this`tmpTimes, this`tmpPositions, this`tmpOrientations
      ensures times == old(tmpTimes)[..maxTimeSteps] && tmpTimes == []
      ensures |trajs| == |old(tmpPositions)|
      ensures PositionLists(trajs) == old(tmpPositions) && OrientationLists(trajs) == old(tmpOrientations)
      ensures Finished(trajs, maxTimeSteps, angular)
    {
      ghost var pos, ori := tmpPositions, tmpOrientations;
      CopyShaped();
      IndexShaped();
      BoxShaped();
      VelocitiesShaped(angular);
      assert PositionLists(trajs) == pos;
      assert OrientationLists(trajs) == ori;
    }

    /** Step 5, stated by the shape it leaves. */
    method CopyShaped()
      requires 1 <= maxTimeSteps <= |tmpTimes| && |tmpPositions| == |tmpOrientations|
      requires AllOfLength(tmpPositions, maxTimeSteps) && AllOfLength(tmpOrientations, maxTimeSteps)
      modifies this`trajs, this`times, this`tmpAxes, this`tmpTimes, this`tmpPositions, this`tmpOrientations
      ensures times == old(tmpTimes)[..maxTimeSteps] && tmpTimes == []
      ensures |trajs| == |old(tmpPositions)|
      ensures forall p :: 0 <= p < |trajs| ==>
        trajs[p].positions == old(tmpPositions)[p] && trajs[p].orientations == old(tmpOrientations)[p] &&
        trajs[p].indicesStrip == [] && trajs[p].indices == []
    {
      ghost var pos, ori := tmpPositions, tmpOrientations;
      CopyTrajectories();
      forall p | 0 <= p < |trajs|
        ensures trajs[p].positions == pos[p] && trajs[p].orientations == ori[p]
      {
        assert pos[p][..maxTimeSteps] == pos[p] && ori[p][..maxTimeSteps] == ori[p];
      }
    }

    /** Step 6 on trajectories of `maxTimeSteps` samples each, stated by the shape it leaves. */
    method IndexShaped()
      requires forall p :: 0 <= p < |trajs| ==>
        |trajs[p].positions| == maxTimeSteps && trajs[p].indicesStrip == [] && trajs[p].indices == []
      modifies this`trajs
      ensures |trajs| == |old(trajs)|
      ensures forall p :: 0 <= p < |trajs| ==>
        trajs[p].positions == old(trajs)[p].positions && trajs[p].orientations == old(trajs)[p].orientations &&
        trajs[p].indicesStrip == Strip(Wrap(p * maxTimeSteps), maxTimeSteps) &&
        trajs[p].indices == Lines(Wrap(p * maxTimeSteps), maxTimeSteps)
    {
      ghost var ts := trajs;
      forall p | 0 <= p <= |ts|
        ensures Offset(Lengths(ts), p) == p * maxTimeSteps
      {
        OffsetUniform(Lengths(ts), maxTimeSteps, p);
      }
      IndexTrajectories();
    }

    /** Step 7, stated by what it keeps. */
    method BoxShaped()
      modifies this`trajs
      ensures |trajs| == |old(trajs)|
      ensures forall p :: 0 <= p < |trajs| ==>
        trajs[p].positions == old(trajs)[p].positions && trajs[p].orientations == old(trajs)[p].orientations &&
        trajs[p].indicesStrip == old(trajs)[p].indicesStrip && trajs[p].indices == old(trajs)[p].indices &&
        trajs[p].box == Fold(Initial, trajs[p].positions) && trajs[p].center == Center(trajs[p].box)
    {
      BoxTrajectories();
    }

    /** Step 8, stated by what it keeps. */
    method VelocitiesShaped(angular: (Cell<Quat>, Cell<Quat>) -> Cell<Vec3>)
      requires forall p :: 0 <= p < |trajs| ==> |trajs[p].positions| == |trajs[p].orientations| >= 1
      modifies this`trajs
      ensures |trajs| == |old(trajs)|
      ensures forall p :: 0 <= p < |trajs| ==>
        trajs[p].positions == old(trajs)[p].positions && trajs[p].orientations == old(trajs)[p].orientations &&
        trajs[p].indicesStrip == old(trajs)[p].indicesStrip && trajs[p].indices == old(trajs)[p].indices &&
        trajs[p].box == old(trajs)[p].box && trajs[p].center == old(trajs)[p].center
      ensures forall p :: 0 <= p < |trajs| ==>
        trajs[p].velocities == Velocities(trajs[p].positions) &&
        trajs[p].angularVelocities == AngularVelocities(trajs[p].orientations, angular)
    {
      ComputeVelocities(angular);
    }

    /**
     * Steps 1 to 8 on freshly loaded data, without resampling and without
     * moving trajectories to a common start. The stationary particles keep
     * their first sample and their axis; the trajectories are those of the
     * moving particles, cut into pieces or unwrapped, each with the axis of
     * its particle. They all span `maxTimeSteps` samples, with cutting none
     * of them jumps any more, their indices count up from one counter, and
     * boxes and velocities belong to their samples.
     */
    method PostProcess(cut: bool, tol: real, angular: (Cell<Quat>, Cell<Quat>) -> Cell<Vec3>)
      requires axisIds == [] && 1 <= maxTimeSteps == |tmpTimes|
      requires |tmpAxes| == |tmpPositions| == |tmpOrientations|
      requires AllOfLength(tmpPositions, maxTimeSteps) && AllOfLength(tmpOrientations, maxTimeSteps)
      modifies this
      ensures maxTimeSteps == old(maxTimeSteps)
      ensures axes == Grouped(old(axes), old(tmpAxes))
      ensures times == old(tmpTimes)
      ensures stationaryPositions == old(stationaryPositions) + OfStationary(Firsts(old(tmpPositions)), old(tmpPositions))
      ensures stationaryOrientations == old(stationaryOrientations) + OfStationary(Firsts(old(tmpOrientations)), old(tmpPositions))
      ensures |old(stationaryAxisIds)| <= |stationaryAxisIds|
      ensures stationaryAxisIds[..|old(stationaryAxisIds)|] == old(stationaryAxisIds)
      ensures RefersTo(axes, stationaryAxisIds[|old(stationaryAxisIds)|..], OfStationary(old(tmpAxes), old(tmpPositions)))
      ensures bbox == Fold(old(bbox), Concat(OfDynamic(old(tmpPositions), old(tmpPositions)))) && center == Center(bbox)
      ensures RefersTo(axes, axisIds, Step4Entries(OfDynamic(old(tmpAxes), old(tmpPositions)),
                                                   OfDynamic(old(tmpPositions), old(tmpPositions)), cut, tol, Sub(bbox.max, bbox.min)))
      ensures PositionLists(trajs) == Step4Positions(OfDynamic(old(tmpPositions), old(tmpPositions)), cut, tol, Sub(bbox.max, bbox.min))
      ensures OrientationLists(trajs) == Step4Samples(OfDynamic(old(tmpOrientations), old(tmpPositions)),
                                                      OfDynamic(old(tmpPositions), old(tmpPositions)), cut, tol, Sub(bbox.max, bbox.min))
      ensures |trajs| == |axisIds|
      ensures cut ==> forall p :: 0 <= p < |trajs| ==> Cuts(trajs[p].positions, tol, Sub(bbox.max, bbox.min)) == []
      ensures Finished(trajs, maxTimeSteps, angular)
    {
      GroupAndSplit();
      ghost var ax, ids1, pos1, want := axes, axisIds, tmpPositions, OfDynamic(tmpAxes, old(tmpPositions));
      assert RefersTo(ax, ids1, want);
      ProcessDynamics(cut, tol, angular);
      RefersToStep4(ax, ids1, want, pos1, cut, tol, Sub(bbox.max, bbox.min), axisIds);
    }

    /**
     * Steps 3 to 8 on the moving particles: the global box, then the
     * trajectories, which are their samples cut or unwrapped, each piece
     * with its particle's axis id, and finished by steps 5 to 8.
     */
    method ProcessDynamics(cut: bool, tol: real, angular: (Cell<Quat>, Cell<Quat>) -> Cell<Vec3>)
      requires |axisIds| == |tmpPositions| == |tmpOrientations| && forall p :: 0 <= p < |axisIds| ==> axisIds[p] < |axes|
      requires 1 <= maxTimeSteps == |tmpTimes|
      requires AllOfLength(tmpPositions, maxTimeSteps) && AllOfLength(tmpOrientations, maxTimeSteps)
      modifies this`bbox, this`center, this`tmpPositions, this`tmpOrientations, this`axisIds
      modifies this`trajs, this`times, this`tmpAxes, this`tmpTimes
      ensures times == old(tmpTimes)
      ensures bbox == Fold(old(bbox), Concat(old(tmpPositions))) && center == Center(bbox)
      ensures axisIds == Step4Entries(old(axisIds), old(tmpPositions), cut, tol, Sub(bbox.max, bbox.min))
      ensures PositionLists(trajs) == Step4Positions(old(tmpPositions), cut, tol, Sub(bbox.max, bbox.min))
      ensures OrientationLists(trajs) == Step4Samples(old(tmpOrientations), old(tmpPositions), cut, tol, Sub(bbox.max, bbox.min))
      ensures |trajs| == |axisIds|
      ensures cut ==> forall p :: 0 <= p < |trajs| ==> Cuts(trajs[p].positions, tol, Sub(bbox.max, bbox.min)) == []
      ensures Finished(trajs, maxTimeSteps, angular)
    {
      BoxAndCut(cut, tol);
      BuildTrajectories(angular);
      assert old(tmpTimes)[..maxTimeSteps] == old(tmpTimes);
    }

    /** `compute_data_bounding_box`: the global box grows over every trajectory sample. */
    method ComputeDataBoundingBox()
      modifies this`bbox, this`center
      ensures bbox == Fold(old(bbox), Concat(PositionLists(trajs)))
      ensures center == Center(bbox)
    {
      var b := CoverAll(bbox, PositionLists(trajs));
      bbox, center := b, Center(b);
    }
  }

  /**
   * The loop of step 2: stationary particles are pushed to the stationary
   * lists with their first sample, the others are compacted with
   * `write_ptr` into the front of the three lists, which are then truncated.
   */
  method Split(ids0: seq<nat>, pos0: seq<seq<Cell<Vec3>>>, ori0: seq<seq<Cell<Quat>>>)
    returns (ids: seq<nat>, pos: seq<seq<Cell<Vec3>>>, ori: seq<seq<Cell<Quat>>>,
             sIds: seq<nat>, sPos: seq<Cell<Vec3>>, sOri: seq<Cell<Quat>>)
    requires |ids0| == |pos0| == |ori0|
    requires forall p :: 0 <= p < |pos0| ==> |pos0[p]| > 0 && |ori0[p]| > 0
    ensures ids == OfDynamic(ids0, pos0) && pos == OfDynamic(pos0, pos0) && ori == OfDynamic(ori0, pos0)
    ensures sIds == OfStationary(ids0, pos0)
    ensures sPos == OfStationary(Firsts(pos0), pos0)
    ensures sOri == OfStationary(Firsts(ori0), pos0)
  {
    ghost var flags := StationaryFlags(pos0);
    ghost var keep := Negate(flags);
    ghost var firstPos, firstOri := Firsts(pos0), Firsts(ori0);
    ids, pos, ori := ids0, pos0, ori0;
    sIds, sPos, sOri := [], [], [];
    var writePtr := 0;
    var p := 0;
    while p < |pos|
      invariant 0 <= writePtr <= p <= |pos| == |pos0|
      invariant Compacted(ids, ids0, keep, writePtr, p)
      invariant Compacted(pos, pos0, keep, writePtr, p)
      invariant Compacted(ori, ori0, keep, writePtr, p)
      invariant sIds == Select(ids0[..p], flags[..p])
      invariant sPos == Select(firstPos[..p], flags[..p])
      invariant sOri == Select(firstOri[..p], flags[..p])
    {
      CompactedAt(ids, ids0, keep, writePtr, p);
      CompactedAt(pos, pos0, keep, writePtr, p);
      CompactedAt(ori, ori0, keep, writePtr, p);
      var stationary := IsStationary(pos[p]);
      assert keep[p] == !stationary;
      CompactStep(ids, ids0, keep, writePtr, p);
      CompactStep(pos, pos0, keep, writePtr, p);
      CompactStep(ori, ori0, keep, writePtr, p);
      SelectStep(ids0, flags, p);
      SelectStep(firstPos, flags, p);
      SelectStep(firstOri, flags, p);
      if stationary {
        sIds := sIds + [ids[p]];
        sPos := sPos + [pos[p][0]];
        sOri := sOri + [ori[p][0]];
      } else {
        ids := ids[writePtr := ids[p]];
        pos := pos[writePtr := pos[p]];
        ori := ori[writePtr := ori[p]];
        writePtr := writePtr + 1;
      }
      p := p + 1;
    }
    assert ids0[..p] == ids0 && pos0[..p] == pos0 && ori0[..p] == ori0 && keep[..p] == keep && flags[..p] == flags;
    assert firstPos[..p] == firstPos && firstOri[..p] == firstOri;
    ids, pos, ori := ids[..writePtr], pos[..writePtr], ori[..writePtr];
  }

  /** The entries of `xs` that belong to stationary particles of `ps`, in order. */
  function OfStationary<T>(xs: seq<T>, ps: seq<seq<Cell<Vec3>>>): (r: seq<T>)
    requires |xs| == |ps|
    ensures |r| == |Select(ps, StationaryFlags(ps))|
  {
    SelectLength(xs, ps, StationaryFlags(ps));
    Select(xs, StationaryFlags(ps))
  }

  /** The entries of `xs` that belong to moving particles of `ps`, in order. */
  function OfDynamic<T>(xs: seq<T>, ps: seq<seq<Cell<Vec3>>>): (r: seq<T>)
    requires |xs| == |ps|
    ensures |r| == |Select(ps, Negate(StationaryFlags(ps)))|
  {
    SelectLength(xs, ps, Negate(StationaryFlags(ps)));
    Select(xs, Negate(StationaryFlags(ps)))
  }

  /** Selecting one more element extends the selection by it if flagged. */
  lemma SelectStep<T>(xs: seq<T>, keep: seq<bool>, p: nat)
    requires |xs| == |keep| && p < |xs|
    ensures Select(xs[..p + 1], keep[..p + 1]) == Select(xs[..p], keep[..p]) + (if keep[p] then [xs[p]] else [])
  {
    assert xs[..p + 1][..p] == xs[..p];
    assert keep[..p + 1][..p] == keep[..p];
  }

  /**
   * The `write_ptr` compaction after `p` particles: the front holds the
   * kept ones so far and the rest is untouched from `p` on.
   */
  ghost predicate Compacted<T>(xs: seq<T>, orig: seq<T>, keep: seq<bool>, wp: nat, p: nat) {
    |xs| == |orig| == |keep| && wp <= p <= |orig| &&
    xs[..wp] == Select(orig[..p], keep[..p]) && xs[p..] == orig[p..]
  }

  lemma CompactedAt<T>(xs: seq<T>, orig: seq<T>, keep: seq<bool>, wp: nat, p: nat)
    requires Compacted(xs, orig, keep, wp, p) && p < |xs|
    ensures xs[p] == orig[p]
  {
    assert xs[p] == xs[p..][0];
  }

  /** One step of the `write_ptr` compaction keeps the front equal to the selection so far. */
  lemma CompactStep<T>(xs: seq<T>, orig: seq<T>, keep: seq<bool>, wp: nat, p: nat)
    requires Compacted(xs, orig, keep, wp, p) && p < |xs|
    ensures keep[p] ==> Compacted(xs[wp := xs[p]], orig, keep, wp + 1, p + 1)
    ensures !keep[p] ==> Compacted(xs, orig, keep, wp, p + 1)
  {
    SelectStep(orig, keep, p);
    assert xs[p] == orig[p] by {
      assert xs[p] == xs[p..][0];
    }
    assert xs[p + 1..] == xs[p..][1..];
    assert orig[p + 1..] == orig[p..][1..];
    if keep[p] {
      assert xs[wp := xs[p]][..wp + 1] == xs[..wp] + [xs[p]];
    }
  }
  // ---------------------------------------------------------------------
  // Steps 3 and 7, compute_data_bounding_box

  /** The six strict comparisons of each sample against the box, in time order. */
  method CoverTrajectory(b0: Bounds, traj: seq<Cell<Vec3>>) returns (b: Bounds)
    ensures b == Fold(b0, traj)
  {
    b := b0;
    var t := 0;
    while t < |traj|
      invariant 0 <= t <= |traj| && b == Fold(b0, traj[..t])
    {
      assert traj[..t + 1][..t] == traj[..t];
      if traj[t].Val? {
        var q := traj[t].v;
        var lo, hi := b.min, b.max;
        if q.x < lo.x { lo := lo.(x := q.x); }
        if q.y < lo.y { lo := lo.(y := q.y); }
        if q.z < lo.z { lo := lo.(z := q.z); }
        if q.x > hi.x { hi := hi.(x := q.x); }
        if q.y > hi.y { hi := hi.(y := q.y); }
        if q.z > hi.z { hi := hi.(z := q.z); }
        b := Bounds(lo, hi);
      }
      t := t + 1;
    }
    assert traj[..t] == traj;
  }

  /** Covers the trajectories one after the other. */
  method CoverAll(b0: Bounds, ps: seq<seq<Cell<Vec3>>>) returns (b: Bounds)
    ensures b == Fold(b0, Concat(ps))
  {
    b := b0;
    var p := 0;
    while p < |ps|
      invariant 0 <= p <= |ps| && b == Fold(b0, Concat(ps[..p]))
    {
      assert ps[..p + 1][..p] == ps[..p];
      FoldAppend(b0, Concat(ps[..p]), ps[p]);
      b := CoverTrajectory(b, ps[p]);
      p := p + 1;
    }
    assert ps[..p] == ps;
  }

  // ---------------------------------------------------------------------
  // Step 4

  /** The cut times of a trajectory. */
  method CutTimes(traj: seq<Cell<Vec3>>, tol: real, dim: Vec3) returns (cuts: seq<nat>)
    ensures cuts == Cuts(traj, tol, dim)
  {
    cuts := [];
    var t := 1;
    while t < |traj|
      invariant 1 <= t && (t <= |traj| || |traj| == 0)
      invariant |traj| > 0 ==> cuts == CutsUpTo(traj, t, tol, dim)
      invariant |traj| == 0 ==> cuts == []
    {
      if traj[t - 1].Val? && traj[t].Val? {
        var diff := Sub(traj[t].v, traj[t - 1].v);
        if Abs(diff.x) > tol * dim.x || Abs(diff.z) > tol * dim.z {
          cuts := cuts + [t];
        }
      }
      t := t + 1;
    }
  }

  lemma PiecesPrefix<T>(traj: seq<Cell<T>>, cuts: seq<nat>, c: nat)
    requires c < |cuts|
    ensures Pieces(traj, cuts)[..c + 1] == Pieces(traj, cuts)[..c] + [Window(traj, cuts[c], PieceEnd(cuts, |traj|, c))]
  {
    assert Pieces(traj, cuts)[c] == Window(traj, cuts[c], PieceEnd(cuts, |traj|, c));
  }

  /**
   * Appending the next piece, read from the trajectory's own entry `p`,
   * extends the prefix of pieces already appended.
   */
  lemma AppendPieceStep<T>(xs: seq<seq<Cell<T>>>, r: seq<seq<Cell<T>>>, p: nat, cuts: seq<nat>, c: nat, size: int)
    requires p < |xs| && c < |cuts| && r == xs + Pieces(xs[p], cuts)[..c]
    requires cuts[c] + size == PieceEnd(cuts, |xs[p]|, c)
    ensures r[p] == xs[p]
    ensures r + [Window(r[p], cuts[c], cuts[c] + size)] == xs + Pieces(xs[p], cuts)[..c + 1]
  {
    PiecesPrefix(xs[p], cuts, c);
  }

  /** Appending one more copy of an axis id. */
  lemma AppendIdStep(ids: seq<nat>, a: nat, c: nat)
    ensures (ids + seq(c, _ => a)) + [a] == ids + seq(c + 1, _ => a)
  {
    assert seq(c + 1, _ => a) == seq(c, _ => a) + [a];
  }

  /** Overwriting an element of the front of a concatenation. */
  lemma UpdateFront<T>(xs: seq<T>, ys: seq<T>, p: nat, w: T)
    requires p < |xs|
    ensures (xs + ys)[p := w] == xs[p := w] + ys
  {
  }

  /**
   * The loop of step 4 on trajectory `p` with its cut times `cuts`: one
   * appended trajectory per cut, valid from that cut to the next (or the
   * end), with the same axis id.
   */
  method AppendPieces(positions: seq<seq<Cell<Vec3>>>, orientations: seq<seq<Cell<Quat>>>, axisIds: seq<nat>,
                      p: nat, cuts: seq<nat>)
    returns (rp: seq<seq<Cell<Vec3>>>, ro: seq<seq<Cell<Quat>>>, ri: seq<nat>)
    requires p < |positions| == |orientations| && p < |axisIds| && |orientations[p]| == |positions[p]|
    requires StrictlyIncreasing(cuts) && forall c :: 0 <= c < |cuts| ==> cuts[c] < |positions[p]|
    ensures rp == positions + Pieces(positions[p], cuts)
    ensures ro == orientations + Pieces(orientations[p], cuts)
    ensures ri == axisIds + seq(|cuts|, _ => axisIds[p])
  {
    rp, ro, ri := positions, orientations, axisIds;
    ghost var pieces, turns := Pieces(positions[p], cuts), Pieces(orientations[p], cuts);
    var c := 0;
    while c < |cuts|
      invariant 0 <= c <= |cuts|
      invariant rp == positions + pieces[..c]
      invariant ro == orientations + turns[..c]
      invariant ri == axisIds + seq(c, _ => axisIds[p])
    {
      assert rp[p] == positions[p];
      var size := if c == |cuts| - 1 then |rp[p]| - cuts[c] else cuts[c + 1] - cuts[c];
      AppendPieceStep(positions, rp, p, cuts, c, size);
      AppendPieceStep(orientations, ro, p, cuts, c, size);
      AppendIdStep(axisIds, axisIds[p], c);
      assert ri[p] == axisIds[p];
      rp := rp + [Window(rp[p], cuts[c], cuts[c] + size)];
      ro := ro + [Window(ro[p], cuts[c], cuts[c] + size)];
      ri := ri + [ri[p]];
      c := c + 1;
    }
    assert pieces[..c] == pieces && turns[..c] == turns;
  }

  /**
   * The work of step 4 on trajectory `p` with its cut times `cuts`: the
   * pieces are appended, then the original is invalidated from the first
   * cut on.
   */
  method CutStep(positions: seq<seq<Cell<Vec3>>>, orientations: seq<seq<Cell<Quat>>>, axisIds: seq<nat>,
                 p: nat, cuts: seq<nat>)
    returns (rp: seq<seq<Cell<Vec3>>>, ro: seq<seq<Cell<Quat>>>, ri: seq<nat>)
    requires p < |positions| == |orientations| && p < |axisIds| && |orientations[p]| == |positions[p]|
    requires StrictlyIncreasing(cuts) && forall c :: 0 <= c < |cuts| ==> cuts[c] < |positions[p]|
    ensures rp == positions[p := Remainder(positions[p], cuts)] + Pieces(positions[p], cuts)
    ensures ro == orientations[p := Remainder(orientations[p], cuts)] + Pieces(orientations[p], cuts)
    ensures ri == axisIds + seq(|cuts|, _ => axisIds[p])
  {
    rp, ro, ri := AppendPieces(positions, orientations, axisIds, p, cuts);
    UpdateFront(positions, Pieces(positions[p], cuts), p, Remainder(positions[p], cuts));
    UpdateFront(orientations, Pieces(orientations[p], cuts), p, Remainder(orientations[p], cuts));
    assert rp[p] == positions[p] && ro[p] == orientations[p];
    if |cuts| > 0 {
      rp := rp[p := Window(rp[p], 0, cuts[0])];
      ro := ro[p := Window(ro[p], 0, cuts[0])];
    } else {
      assert positions[p := positions[p]] == positions;
      assert orientations[p := orientations[p]] == orientations;
    }
  }

  /** The cut times of every trajectory. */
  function AllCuts(ps: seq<seq<Cell<Vec3>>>, tol: real, dim: Vec3): (r: seq<seq<nat>>)
    ensures |r| == |ps| && forall p :: 0 <= p < |ps| ==> r[p] == Cuts(ps[p], tol, dim)
  {
    seq(|ps|, p requires 0 <= p < |ps| => Cuts(ps[p], tol, dim))
  }

  function Remainders<T>(xs: seq<seq<Cell<T>>>, cuts: seq<seq<nat>>): (r: seq<seq<Cell<T>>>)
    requires |xs| == |cuts|
    ensures |r| == |xs| && forall p :: 0 <= p < |xs| ==> r[p] == Remainder(xs[p], cuts[p])
  {
    seq(|xs|, p requires 0 <= p < |xs| => Remainder(xs[p], cuts[p]))
  }

  function AllPieces<T>(xs: seq<seq<Cell<T>>>, cuts: seq<seq<nat>>): (r: seq<seq<seq<Cell<T>>>>)
    requires |xs| == |cuts|
    ensures |r| == |xs| && forall p :: 0 <= p < |xs| ==> r[p] == Pieces(xs[p], cuts[p])
  {
    seq(|xs|, p requires 0 <= p < |xs| => Pieces(xs[p], cuts[p]))
  }

  /** The axis id once per cut of each trajectory. */
  function PieceIds<T>(ids: seq<T>, cuts: seq<seq<nat>>): (r: seq<seq<T>>)
    requires |ids| == |cuts|
    ensures |r| == |ids| && forall p :: 0 <= p < |ids| ==> r[p] == seq(|cuts[p]|, _ => ids[p])
  {
    seq(|ids|, p requires 0 <= p < |ids| => seq(|cuts[p]|, _ => ids[p]))
  }

  /**
   * The lists after cutting: the invalidated originals in place, then the
   * pieces of every trajectory in trajectory order.
   */
  function CutLists<T>(xs: seq<seq<Cell<T>>>, cuts: seq<seq<nat>>): seq<seq<Cell<T>>>
    requires |xs| == |cuts|
  {
    Remainders(xs, cuts) + Concat(AllPieces(xs, cuts))
  }

  /** The lists after `p` trajectories were cut. */
  function CutSoFar<T>(xs: seq<seq<Cell<T>>>, cuts: seq<seq<nat>>, p: nat): seq<seq<Cell<T>>>
    requires |xs| == |cuts| && p <= |xs|
  {
    Remainders(xs, cuts)[..p] + xs[p..] + Concat(AllPieces(xs, cuts)[..p])
  }

  lemma CutSoFarStep<T>(xs: seq<seq<Cell<T>>>, cuts: seq<seq<nat>>, p: nat)
    requires |xs| == |cuts| && p < |xs|
    ensures |CutSoFar(xs, cuts, p)| > p && CutSoFar(xs, cuts, p)[p] == xs[p]
    ensures CutSoFar(xs, cuts, p)[p := Remainder(xs[p], cuts[p])] + Pieces(xs[p], cuts[p]) == CutSoFar(xs, cuts, p + 1)
  {
    var R, A := Remainders(xs, cuts), AllPieces(xs, cuts);
    assert A[..p + 1][..p] == A[..p];
    assert Concat(A[..p + 1]) == Concat(A[..p]) + A[p];
    assert R[..p + 1] == R[..p] + [R[p]];
    assert xs[p..][1..] == xs[p + 1..];
    Splice(R[..p], xs[p..], Concat(A[..p]), A[p], R[p]);
  }

  /** Replacing the first element after `front` and appending `more`. */
  lemma Splice<T>(front: seq<T>, rest: seq<T>, tail: seq<T>, more: seq<T>, y: T)
    requires |rest| > 0
    ensures |front + rest + tail| > |front| && (front + rest + tail)[|front|] == rest[0]
    ensures (front + rest + tail)[|front| := y] + more == (front + [y]) + rest[1..] + (tail + more)
  {
  }

  lemma CutSoFarZero<T>(xs: seq<seq<Cell<T>>>, cuts: seq<seq<nat>>)
    requires |xs| == |cuts|
    ensures CutSoFar(xs, cuts, 0) == xs
  {
    assert Remainders(xs, cuts)[..0] == [] && AllPieces(xs, cuts)[..0] == [] && xs[0..] == xs;
  }

  lemma ConcatSnoc<T>(xss: seq<seq<T>>, ys: seq<T>)
    ensures Concat(xss + [ys]) == Concat(xss) + ys
  {
    assert (xss + [ys])[..|xss|] == xss;
  }

  lemma ConcatNone<T>(xss: seq<seq<T>>)
    ensures Concat(xss[..0]) == []
    ensures |xss| == 0 ==> Concat(xss) == []
  {
    assert xss[..0] == [];
  }

  lemma CutSoFarDone<T>(xs: seq<seq<Cell<T>>>, cuts: seq<seq<nat>>)
    requires |xs| == |cuts|
    ensures CutSoFar(xs, cuts, |xs|) == CutLists(xs, cuts)
  {
    assert Remainders(xs, cuts)[..|xs|] == Remainders(xs, cuts);
    assert AllPieces(xs, cuts)[..|xs|] == AllPieces(xs, cuts);
  }

  /** Positions and orientations of every trajectory have the same length. */
  ghost predicate SameShape(positions: seq<seq<Cell<Vec3>>>, orientations: seq<seq<Cell<Quat>>>) {
    |positions| == |orientations| && forall i :: 0 <= i < |positions| ==> |orientations[i]| == |positions[i]|
  }

  /** The trajectories from index `n` on have no cuts. */
  ghost predicate NoCutsFrom(positions: seq<seq<Cell<Vec3>>>, n: nat, tol: real, dim: Vec3) {
    forall i :: n <= i < |positions| ==> Cuts(positions[i], tol, dim) == []
  }

  /**
   * The state of the cutting loop before visiting trajectory `p`: the
   * originals before `p` are cut, their pieces appended, and everything
   * appended is free of cuts.
   */
  ghost predicate CutInvariant(ps: seq<seq<Cell<Vec3>>>, os: seq<seq<Cell<Quat>>>, ids: seq<nat>, tol: real, dim: Vec3,
                               p: nat, positions: seq<seq<Cell<Vec3>>>, orientations: seq<seq<Cell<Quat>>>, axisIds: seq<nat>)
    requires |ps| == |os| == |ids|
  {
    var C := AllCuts(ps, tol, dim);
    && p <= |positions| <= |axisIds| && |ps| <= |positions|
    && SameShape(positions, orientations)
    && NoCutsFrom(positions, |ps|, tol, dim)
    && (p <= |ps| ==> positions == CutSoFar(ps, C, p) && orientations == CutSoFar(os, C, p)
                      && axisIds == ids + Concat(PieceIds(ids, C)[..p]))
    && (p >= |ps| ==> positions == CutLists(ps, C) && orientations == CutLists(os, C)
                      && axisIds == ids + Concat(PieceIds(ids, C)))
  }

  lemma CutInvariantInit(ps: seq<seq<Cell<Vec3>>>, os: seq<seq<Cell<Quat>>>, ids: seq<nat>, tol: real, dim: Vec3)
    requires |ps| == |os| == |ids| && forall p :: 0 <= p < |ps| ==> |os[p]| == |ps[p]|
    ensures CutInvariant(ps, os, ids, tol, dim, 0, ps, os, ids)
  {
    var C := AllCuts(ps, tol, dim);
    CutSoFarZero(ps, C);
    CutSoFarZero(os, C);
    ConcatNone(PieceIds(ids, C));
    if |ps| == 0 {
      CutSoFarDone(ps, C);
      CutSoFarDone(os, C);
    }
  }

  /** Visiting an original trajectory cuts it and appends its pieces. */
  lemma CutInvariantOriginal(ps: seq<seq<Cell<Vec3>>>, os: seq<seq<Cell<Quat>>>, ids: seq<nat>, tol: real, dim: Vec3,
                             p: nat, positions: seq<seq<Cell<Vec3>>>, orientations: seq<seq<Cell<Quat>>>, axisIds: seq<nat>)
    requires |ps| == |os| == |ids| && p < |ps|
    requires CutInvariant(ps, os, ids, tol, dim, p, positions, orientations, axisIds)
    ensures positions[p] == ps[p] && orientations[p] == os[p] && axisIds[p] == ids[p]
    ensures var cuts := Cuts(ps[p], tol, dim);
      CutInvariant(ps, os, ids, tol, dim, p + 1,
                   positions[p := Remainder(ps[p], cuts)] + Pieces(ps[p], cuts),
                   orientations[p := Remainder(os[p], cuts)] + Pieces(os[p], cuts),
                   axisIds + seq(|cuts|, _ => ids[p]))
  {
    var C := AllCuts(ps, tol, dim);
    var cuts := C[p];
    CutSoFarStep(ps, C, p);
    CutSoFarStep(os, C, p);
    var positions' := positions[p := Remainder(ps[p], cuts)] + Pieces(ps[p], cuts);
    var orientations' := orientations[p := Remainder(os[p], cuts)] + Pieces(os[p], cuts);
    var axisIds' := axisIds + seq(|cuts|, _ => ids[p]);
    NoCutsAfterCut(ps, tol, dim, p, positions);
    SameShapeAfterCut(positions, orientations, p, cuts);
    IdsAfterCut(ids, C, p, axisIds);
    if p + 1 == |ps| {
      CutSoFarDone(ps, C);
      CutSoFarDone(os, C);
      assert PieceIds(ids, C)[..p + 1] == PieceIds(ids, C);
    }
  }

  /** Cutting original `p` keeps every list entry from the first piece's slot on free of cuts. */
  lemma NoCutsAfterCut(ps: seq<seq<Cell<Vec3>>>, tol: real, dim: Vec3, p: nat, positions: seq<seq<Cell<Vec3>>>)
    requires p < |ps| <= |positions| && positions[p] == ps[p] && NoCutsFrom(positions, |ps|, tol, dim)
    ensures NoCutsFrom(positions[p := Remainder(ps[p], Cuts(ps[p], tol, dim))] + Pieces(ps[p], Cuts(ps[p], tol, dim)),
                       |ps|, tol, dim)
  {
    PiecesHaveNoCuts(ps[p], tol, dim);
  }

  /** The remainder and the pieces of a trajectory have its length, for positions and orientations alike. */
  lemma SameShapeAfterCut(positions: seq<seq<Cell<Vec3>>>, orientations: seq<seq<Cell<Quat>>>, p: nat, cuts: seq<nat>)
    requires p < |positions| && SameShape(positions, orientations)
    ensures SameShape(positions[p := Remainder(positions[p], cuts)] + Pieces(positions[p], cuts),
                      orientations[p := Remainder(orientations[p], cuts)] + Pieces(orientations[p], cuts))
  {
  }

  /** The pieces of original `p` carry its axis index. */
  lemma IdsAfterCut(ids: seq<nat>, C: seq<seq<nat>>, p: nat, axisIds: seq<nat>)
    requires |ids| == |C| && p < |ids| && axisIds == ids + Concat(PieceIds(ids, C)[..p])
    ensures axisIds + seq(|C[p]|, _ => ids[p]) == ids + Concat(PieceIds(ids, C)[..p + 1])
  {
    var P := PieceIds(ids, C);
    assert P[..p + 1] == P[..p] + [P[p]];
    ConcatSnoc(P[..p], P[p]);
    assert ids + (Concat(P[..p]) + P[p]) == (ids + Concat(P[..p])) + P[p];
  }

  /** Visiting an appended piece changes nothing: it has no cuts. */
  lemma CutInvariantPiece(ps: seq<seq<Cell<Vec3>>>, os: seq<seq<Cell<Quat>>>, ids: seq<nat>, tol: real, dim: Vec3,
                          p: nat, positions: seq<seq<Cell<Vec3>>>, orientations: seq<seq<Cell<Quat>>>, axisIds: seq<nat>)
    requires |ps| == |os| == |ids| && |ps| <= p < |positions|
    requires CutInvariant(ps, os, ids, tol, dim, p, positions, orientations, axisIds)
    ensures Cuts(positions[p], tol, dim) == []
    ensures positions[p := Remainder(positions[p], [])] + Pieces(positions[p], []) == positions
    ensures orientations[p := Remainder(orientations[p], [])] + Pieces(orientations[p], []) == orientations
    ensures axisIds + seq(0, _ => axisIds[p]) == axisIds
    ensures CutInvariant(ps, os, ids, tol, dim, p + 1, positions, orientations, axisIds)
  {
    assert positions[p := positions[p]] == positions;
    assert orientations[p := orientations[p]] == orientations;
  }

  /**
   * Step 4 with cutting: the loop runs over the growing list, so it also
   * visits the appended pieces, which have no cuts and stay as they are.
   */
  method CutAll(ps: seq<seq<Cell<Vec3>>>, os: seq<seq<Cell<Quat>>>, ids: seq<nat>, tol: real, dim: Vec3)
    returns (positions: seq<seq<Cell<Vec3>>>, orientations: seq<seq<Cell<Quat>>>, axisIds: seq<nat>)
    requires |ps| == |os| == |ids| && forall p :: 0 <= p < |ps| ==> |os[p]| == |ps[p]|
    ensures positions == CutLists(ps, AllCuts(ps, tol, dim))
    ensures orientations == CutLists(os, AllCuts(ps, tol, dim))
    ensures axisIds == ids + Concat(PieceIds(ids, AllCuts(ps, tol, dim)))
  {
    positions, orientations, axisIds := ps, os, ids;
    CutInvariantInit(ps, os, ids, tol, dim);
    var p := 0;
    while p < |positions|
      invariant CutInvariant(ps, os, ids, tol, dim, p, positions, orientations, axisIds)
      decreases if p < |ps| then |ps| - p else 0, |positions| - p
    {
      var cuts := CutTimes(positions[p], tol, dim);
      CutsUpToSpec(positions[p], |positions[p]|, tol, dim);
      if p < |ps| {
        CutInvariantOriginal(ps, os, ids, tol, dim, p, positions, orientations, axisIds);
      } else {
        CutInvariantPiece(ps, os, ids, tol, dim, p, positions, orientations, axisIds);
      }
      positions, orientations, axisIds := CutStep(positions, orientations, axisIds, p, cuts);
      p := p + 1;
    }
  }

  /** Every piece cut from a trajectory has no cut left. */
  lemma PiecesHaveNoCuts(traj: seq<Cell<Vec3>>, tol: real, dim: Vec3)
    ensures forall c :: 0 <= c < |Cuts(traj, tol, dim)| ==> Cuts(Pieces(traj, Cuts(traj, tol, dim))[c], tol, dim) == []
  {
    forall c | 0 <= c < |Cuts(traj, tol, dim)|
      ensures Cuts(Pieces(traj, Cuts(traj, tol, dim))[c], tol, dim) == []
    {
      PartsHaveNoCuts(traj, tol, dim, c + 1);
    }
  }
  /**
   * Step 4 without cutting: each sample, against its already shifted
   * predecessor, is moved back by whole box widths on x and on z when the
   * step exceeds the tolerance.
   */
  method UnwrapTrajectory(traj: seq<Cell<Vec3>>, tol: real, dim: Vec3) returns (u: seq<Cell<Vec3>>)
    ensures u == UnwrapUpTo(traj, |traj|, tol, dim)
  {
    u := traj;
    if |traj| == 0 {
      return;
    }
    var t := 1;
    while t < |u|
      invariant 1 <= t <= |u| == |traj|
      invariant u[..t] == UnwrapUpTo(traj, t, tol, dim) && u[t..] == traj[t..]
    {
      ghost var before := u;
      if u[t - 1].Val? && u[t].Val? {
        var q := UnshiftSample(u[t - 1].v, u[t].v, tol, dim);
        u := u[t := Val(q)];
      }
      UnwrapStep(traj, tol, dim, t, before, u);
      t := t + 1;
    }
    assert u[..t] == u;
  }

  /** The body of the unwrapping loop for one sample whose predecessor and itself are both numbers. */
  method UnshiftSample(prev: Vec3, cur: Vec3, tol: real, dim: Vec3) returns (q: Vec3)
    ensures Val(q) == Unshift(Val(prev), Val(cur), tol, dim)
  {
    var diff := Sub(cur, prev);
    var x := ShiftComponent(cur.x, diff.x, tol, dim.x);
    var z := ShiftComponent(cur.z, diff.z, tol, dim.z);
    q := Vec3(x, cur.y, z);
  }

  /** One coordinate of that body: moved back by whole box widths when its step exceeds the tolerance. */
  method ShiftComponent(c: real, d: real, tol: real, dim: real) returns (r: real)
    ensures r == ShiftCoord(c, d, tol, dim)
  {
    r := c;
    var bound := tol * dim;
    if Abs(d) > bound && bound != 0.0 {
      var multiple := Trunc(d / bound);
      r := r - Widths(dim, multiple);
    }
  }

  /** One round of the unwrapping loop extends the unwrapped prefix by one sample. */
  lemma UnwrapStep(traj: seq<Cell<Vec3>>, tol: real, dim: Vec3, t: nat, before: seq<Cell<Vec3>>,
                   u: seq<Cell<Vec3>>)
    requires 1 <= t < |before| == |traj|
    requires before[..t] == UnwrapUpTo(traj, t, tol, dim) && before[t..] == traj[t..]
    requires u == before[t := Unshift(before[t - 1], before[t], tol, dim)]
    ensures u[..t + 1] == UnwrapUpTo(traj, t + 1, tol, dim) && u[t + 1..] == traj[t + 1..]
  {
    assert before[t] == traj[t] by {
      assert before[t] == before[t..][0];
    }
    assert before[t - 1] == UnwrapUpTo(traj, t, tol, dim)[t - 1];
    assert u[..t] == before[..t];
    assert u[..t + 1] == u[..t] + [u[t]];
    assert u[t + 1..] == traj[t + 1..] by {
      assert traj[t + 1..] == traj[t..][1..];
      assert u[t + 1..] == before[t..][1..];
    }
  }

  /** Step 4 without cutting, over all trajectories in place. */
  method UnwrapAll(ps: seq<seq<Cell<Vec3>>>, tol: real, dim: Vec3) returns (r: seq<seq<Cell<Vec3>>>)
    ensures |r| == |ps| && forall p :: 0 <= p < |ps| ==> r[p] == UnwrapUpTo(ps[p], |ps[p]|, tol, dim)
  {
    r := ps;
    var p := 0;
    while p < |r|
      invariant 0 <= p <= |r| == |ps|
      invariant forall q :: 0 <= q < p ==> r[q] == UnwrapUpTo(ps[q], |ps[q]|, tol, dim)
      invariant forall q :: p <= q < |r| ==> r[q] == ps[q]
    {
      var u := UnwrapTrajectory(r[p], tol, dim);
      r := r[p := u];
      p := p + 1;
    }
  }

  // ---------------------------------------------------------------------
  // Steps 6 to 8, on the trajectories

  function Lengths(ts: seq<Trajectory>): (lens: seq<nat>)
    ensures |lens| == |ts| && forall p :: 0 <= p < |ts| ==> lens[p] == |ts[p].positions|
  {
    seq(|ts|, p requires 0 <= p < |ts| => |ts[p].positions|)
  }

  lemma WrapSucc(x: int)
    ensures Wrap(Wrap(x) + 1) == Wrap(x + 1)
  {
  }

  /** Appending the strip index of sample `t`. */
  lemma StripSnoc(xs: seq<int>, base: nat, n: nat, t: nat)
    requires t < n
    ensures (xs + Strip(base, n)[..t]) + [Wrap(base + t)] == xs + Strip(base, n)[..t + 1]
  {
    assert Strip(base, n)[..t + 1] == Strip(base, n)[..t] + [Wrap(base + t)];
  }

  /** Appending the line pair of sample `t`. */
  lemma LinesSnoc(xs: seq<int>, base: nat, n: nat, t: nat)
    requires t < n
    ensures (xs + Lines(base, n)[..2 * t]) + [Wrap(base + t), Wrap(base + t + (if t < n - 1 then 1 else 0))]
            == xs + Lines(base, n)[..2 * t + 2]
  {
    LinesFollowStrip(base, n, t);
    assert Lines(base, n)[..2 * t + 2] == Lines(base, n)[..2 * t] + [Lines(base, n)[2 * t], Lines(base, n)[2 * t + 1]];
  }

  /** The loop of step 6 over the `n` samples of one trajectory, from the running counter `i0`. */
  method IndexSamples(strip0: seq<int>, lines0: seq<int>, i0: nat, n: nat) returns (strip: seq<int>, lines: seq<int>, i: int)
    ensures strip == strip0 + Strip(i0, n)
    ensures lines == lines0 + Lines(i0, n)
    ensures i == Wrap(i0 + n)
  {
    strip, lines := strip0, lines0;
    i := Wrap(i0);
    var t := 0;
    while t < n
      invariant 0 <= t <= n && i == Wrap(i0 + t)
      invariant strip == strip0 + Strip(i0, n)[..t]
      invariant lines == lines0 + Lines(i0, n)[..2 * t]
    {
      WrapSucc(i0 + t);
      StripSnoc(strip0, i0, n, t);
      LinesSnoc(lines0, i0, n, t);
      strip := strip + [i];
      if t < n - 1 {
        lines := lines + [i, Wrap(i + 1)];
      } else {
        lines := lines + [i, i];
      }
      i := Wrap(i + 1);
      t := t + 1;
    }
    assert Strip(i0, n)[..n] == Strip(i0, n);
    assert Lines(i0, n)[..2 * n] == Lines(i0, n);
    if n == 0 {
      assert i == Wrap(i0 + n);
    }
  }

  /** Step 6 for one trajectory: a strip index and a line pair per sample from the running counter `i0`. */
  method IndexTrajectory(traj: Trajectory, i0: int) returns (r: Trajectory, i: int)
    requires 0 <= i0
    ensures r == traj.(indicesStrip := traj.indicesStrip + Strip(i0, |traj.positions|),
                       indices := traj.indices + Lines(i0, |traj.positions|))
    ensures i == Wrap(i0 + |traj.positions|)
  {
    var strip, lines;
    strip, lines, i := IndexSamples(traj.indicesStrip, traj.indices, i0, |traj.positions|);
    r := traj.(indicesStrip := strip, indices := lines);
  }

  /** Step 6: one unsigned counter runs over all samples of all trajectories. */
  method IndexAll(ts: seq<Trajectory>) returns (r: seq<Trajectory>)
    ensures |r| == |ts|
    ensures forall p :: 0 <= p < |ts| ==>
      r[p] == ts[p].(indicesStrip := ts[p].indicesStrip + Strip(Wrap(Offset(Lengths(ts), p)), |ts[p].positions|),
                     indices := ts[p].indices + Lines(Wrap(Offset(Lengths(ts), p)), |ts[p].positions|))
  {
    ghost var lens := Lengths(ts);
    r := ts;
    var i := 0;
    var p := 0;
    while p < |r|
      invariant 0 <= p <= |r| == |ts| && i == Wrap(Offset(lens, p))
      invariant IndexedUpTo(r, ts, p)
    {
      var traj, next := IndexTrajectory(r[p], i);
      WrapAdd(Offset(lens, p), |ts[p].positions|);
      IndexedStep(r, ts, p, traj);
      r := r[p := traj];
      i := next;
      p := p + 1;
    }
    IndexedAll(r, ts);
  }

  /** The first `p` trajectories are indexed and the rest are as they were. */
  ghost predicate IndexedUpTo(r: seq<Trajectory>, ts: seq<Trajectory>, p: nat) {
    |r| == |ts| && p <= |ts| &&
    (forall q :: 0 <= q < p ==> r[q] == IndexedAt(ts, q)) &&
    (forall q :: p <= q < |r| ==> r[q] == ts[q])
  }

  lemma IndexedStep(r: seq<Trajectory>, ts: seq<Trajectory>, p: nat, traj: Trajectory)
    requires p < |ts| && IndexedUpTo(r, ts, p)
    requires traj == r[p].(indicesStrip := r[p].indicesStrip + Strip(Wrap(Offset(Lengths(ts), p)), |r[p].positions|),
                           indices := r[p].indices + Lines(Wrap(Offset(Lengths(ts), p)), |r[p].positions|))
    ensures IndexedUpTo(r[p := traj], ts, p + 1)
  {
  }

  lemma IndexedAll(r: seq<Trajectory>, ts: seq<Trajectory>)
    requires IndexedUpTo(r, ts, |ts|)
    ensures |r| == |ts|
    ensures forall p :: 0 <= p < |ts| ==>
      r[p] == ts[p].(indicesStrip := ts[p].indicesStrip + Strip(Wrap(Offset(Lengths(ts), p)), |ts[p].positions|),
                     indices := ts[p].indices + Lines(Wrap(Offset(Lengths(ts), p)), |ts[p].positions|))
  {
  }

  /** Trajectory `p` after step 6. */
  ghost function IndexedAt(ts: seq<Trajectory>, p: nat): Trajectory
    requires p < |ts|
  {
    var base := Wrap(Offset(Lengths(ts), p));
    ts[p].(indicesStrip := ts[p].indicesStrip + Strip(base, |ts[p].positions|),
           indices := ts[p].indices + Lines(base, |ts[p].positions|))
  }

  lemma WrapAdd(x: int, n: nat)
    ensures Wrap(Wrap(x) + n) == Wrap(x + n)
  {
  }

  /** Step 7: the bounding box and centre of every trajectory. */
  method BoxAll(ts: seq<Trajectory>) returns (r: seq<Trajectory>)
    ensures |r| == |ts|
    ensures forall p :: 0 <= p < |ts| ==>
      r[p] == ts[p].(box := Fold(Initial, ts[p].positions), center := Center(Fold(Initial, ts[p].positions)))
  {
    r := ts;
    var p := 0;
    while p < |r|
      invariant 0 <= p <= |r| == |ts|
      invariant forall q :: 0 <= q < p ==>
        r[q] == ts[q].(box := Fold(Initial, ts[q].positions), center := Center(Fold(Initial, ts[q].positions)))
      invariant forall q :: p <= q < |r| ==> r[q] == ts[q]
    {
      var b := CoverTrajectory(Initial, r[p].positions);
      r := r[p := r[p].(box := b, center := Center(b))];
      p := p + 1;
    }
  }

  /** Step 8 for one trajectory: differences to the next sample, zero at the last one. */
  method VelocitiesOf(pos: seq<Cell<Vec3>>, ori: seq<Cell<Quat>>, angular: (Cell<Quat>, Cell<Quat>) -> Cell<Vec3>)
    returns (v: seq<Cell<Vec3>>, w: seq<Cell<Vec3>>)
    requires |pos| == |ori| >= 1
    ensures v == Velocities(pos) && w == AngularVelocities(ori, angular)
  {
    var n := |ori|;
    v := seq(n, _ => Val(Zero));
    w := seq(n, _ => Val(Zero));
    var t := 0;
    while t < n - 1
      invariant 0 <= t <= n - 1 && |v| == |w| == n
      invariant forall u :: 0 <= u < t ==> v[u] == Step(pos[u], pos[u + 1]) && w[u] == angular(ori[u], ori[u + 1])
    {
      w := w[t := angular(ori[t], ori[t + 1])];
      v := v[t := Step(pos[t], pos[t + 1])];
      t := t + 1;
    }
    w := w[n - 1 := Val(Zero)];
    v := v[n - 1 := Val(Zero)];
  }

  /** Step 8 over all trajectories. */
  method VelocitiesAll(ts: seq<Trajectory>, angular: (Cell<Quat>, Cell<Quat>) -> Cell<Vec3>) returns (r: seq<Trajectory>)
    requires forall p :: 0 <= p < |ts| ==> |ts[p].positions| == |ts[p].orientations| >= 1
    ensures |r| == |ts|
    ensures forall p :: 0 <= p < |ts| ==>
      r[p] == ts[p].(velocities := Velocities(ts[p].positions),
                     angularVelocities := AngularVelocities(ts[p].orientations, angular))
  {
    r := ts;
    var p := 0;
    while p < |r|
      invariant 0 <= p <= |r| == |ts|
      invariant forall q :: 0 <= q < p ==>
        r[q] == ts[q].(velocities := Velocities(ts[q].positions),
                       angularVelocities := AngularVelocities(ts[q].orientations, angular))
      invariant forall q :: p <= q < |r| ==> r[q] == ts[q]
    {
      var v, w := VelocitiesOf(r[p].positions, r[p].orientations, angular);
      r := r[p := r[p].(velocities := v, angularVelocities := w)];
      p := p + 1;
    }
  }

  // ---------------------------------------------------------------------
  // Step 5 without resampling

  /** A trajectory as created in step 5: samples set, everything else still empty. */
  function NewTrajectory(positions: seq<Cell<Vec3>>, orientations: seq<Cell<Quat>>): (t: Trajectory)
    ensures t.positions == positions && t.orientations == orientations
    ensures t.indicesStrip == [] && t.indices == [] && t.velocities == [] && t.angularVelocities == []
  {
    Trajectory(Bounds(Zero, Zero), Zero, positions, [], [], orientations, [], [])
  }

  /** The first `n` samples of every particle, as new trajectories. */
  method CopyAll(ps: seq<seq<Cell<Vec3>>>, os: seq<seq<Cell<Quat>>>, n: nat) returns (ts: seq<Trajectory>)
    requires |ps| == |os| && forall p :: 0 <= p < |ps| ==> n <= |ps[p]| && n <= |os[p]|
    ensures |ts| == |ps| && forall p :: 0 <= p < |ps| ==> ts[p] == NewTrajectory(ps[p][..n], os[p][..n])
  {
    ts := [];
    var p := 0;
    while p < |ps|
      invariant 0 <= p <= |ps| && |ts| == p
      invariant forall q :: 0 <= q < p ==> ts[q] == NewTrajectory(ps[q][..n], os[q][..n])
    {
      ts := ts + [NewTrajectory(ps[p][..n], os[p][..n])];
      p := p + 1;
    }
  }

  /** The sample lists of all trajectories. */
  function PositionLists(ts: seq<Trajectory>): (r: seq<seq<Cell<Vec3>>>)
    ensures |r| == |ts| && forall p :: 0 <= p < |ts| ==> r[p] == ts[p].positions
  {
    seq(|ts|, p requires 0 <= p < |ts| => ts[p].positions)
  }

  function OrientationLists(ts: seq<Trajectory>): (r: seq<seq<Cell<Quat>>>)
    ensures |r| == |ts| && forall p :: 0 <= p < |ts| ==> r[p] == ts[p].orientations
  {
    seq(|ts|, p requires 0 <= p < |ts| => ts[p].orientations)
  }

  // ---------------------------------------------------------------------
  // What cutting guarantees for all lists

  /** Entry `i` of a concatenation is entry `c` of list `p`. */
  lemma {:induction false} ConcatIndex<T>(xss: seq<seq<T>>, i: nat) returns (p: nat, c: nat)
    requires i < |Concat(xss)|
    ensures p < |xss| && c < |xss[p]| && Concat(xss)[i] == xss[p][c]
    decreases |xss|
  {
    var n := |xss| - 1;
    var init := xss[..n];
    assert Concat(xss) == Concat(init) + xss[n];
    if i < |Concat(init)| {
      p, c := ConcatIndex(init, i);
      assert init[p] == xss[p];
    } else {
      p, c := n, i - |Concat(init)|;
    }
  }

  /** After cutting, no trajectory in the lists jumps any more. */
  lemma CutListsHaveNoCuts(ps: seq<seq<Cell<Vec3>>>, tol: real, dim: Vec3, q: nat)
    requires q < |CutLists(ps, AllCuts(ps, tol, dim))|
    ensures Cuts(CutLists(ps, AllCuts(ps, tol, dim))[q], tol, dim) == []
  {
    var cuts := AllCuts(ps, tol, dim);
    var rs := Remainders(ps, cuts);
    var pieces := AllPieces(ps, cuts);
    if q < |rs| {
      PartsHaveNoCuts(ps[q], tol, dim, 0);
      assert CutLists(ps, cuts)[q] == Parts(ps[q], cuts[q])[0];
    } else {
      var p, c := ConcatIndex(pieces, q - |rs|);
      PartsHaveNoCuts(ps[p], tol, dim, c + 1);
      assert CutLists(ps, cuts)[q] == Parts(ps[p], cuts[p])[c + 1];
    }
  }

  /** Every list in `xs` has `n` entries. */
  ghost predicate AllOfLength<T>(xs: seq<seq<T>>, n: nat) {
    forall p :: 0 <= p < |xs| ==> |xs[p]| == n
  }

  /** Cutting keeps every list at its full length. */
  lemma CutListsOfLength<T>(xs: seq<seq<Cell<T>>>, cuts: seq<seq<nat>>, n: nat)
    requires |xs| == |cuts| && AllOfLength(xs, n)
    ensures AllOfLength(CutLists(xs, cuts), n)
  {
    var pieces := AllPieces(xs, cuts);
    forall q | 0 <= q < |CutLists(xs, cuts)|
      ensures |CutLists(xs, cuts)[q]| == n
    {
      if q >= |xs| {
        var p, c := ConcatIndex(pieces, q - |xs|);
      }
    }
  }

  /** Two concatenations of lists of pairwise equal lengths have equal lengths. */
  lemma {:induction false} ConcatSameCounts<T, U>(xss: seq<seq<T>>, yss: seq<seq<U>>)
    requires |xss| == |yss| && forall p :: 0 <= p < |xss| ==> |xss[p]| == |yss[p]|
    ensures |Concat(xss)| == |Concat(yss)|
    decreases |xss|
  {
    if |xss| > 0 {
      var n := |xss| - 1;
      ConcatSameCounts(xss[..n], yss[..n]);
    }
  }

  /** After cutting there is one axis id per trajectory. */
  lemma CutListsCount<T>(xs: seq<seq<Cell<T>>>, ids: seq<nat>, cuts: seq<seq<nat>>)
    requires |xs| == |ids| == |cuts|
    ensures |CutLists(xs, cuts)| == |ids + Concat(PieceIds(ids, cuts))|
  {
    ConcatSameCounts(AllPieces(xs, cuts), PieceIds(ids, cuts));
  }

  /** The axis ids of the pieces are those of their particles. */
  lemma CutIdsBounded(ids: seq<nat>, cuts: seq<seq<nat>>, m: nat, all: seq<nat>)
    requires |ids| == |cuts| && forall p :: 0 <= p < |ids| ==> ids[p] < m
    requires all == ids + Concat(PieceIds(ids, cuts))
    ensures forall q :: 0 <= q < |all| ==> all[q] < m
  {
    forall q | |ids| <= q < |all|
      ensures all[q] < m
    {
      var p, c := ConcatIndex(PieceIds(ids, cuts), q - |ids|);
    }
  }

  /** With every trajectory `n` samples long, trajectory `p` starts at `p * n`. */
  lemma {:induction false} OffsetUniform(lens: seq<nat>, n: nat, p: nat)
    requires p <= |lens| && forall q :: 0 <= q < |lens| ==> lens[q] == n
    ensures Offset(lens, p) == p * n
  {
    if p > 0 {
      OffsetUniform(lens, n, p - 1);
    }
  }

  /** Cutting keeps the three lists aligned, full length and with valid axis ids, and leaves no jump. */
  lemma CutShape(ids: seq<nat>, ps: seq<seq<Cell<Vec3>>>, os: seq<seq<Cell<Quat>>>, tol: real, dim: Vec3, n: nat, m: nat,
                 ids': seq<nat>, ps': seq<seq<Cell<Vec3>>>, os': seq<seq<Cell<Quat>>>)
    requires |ids| == |ps| == |os| && AllOfLength(ps, n) && AllOfLength(os, n)
    requires forall p :: 0 <= p < |ids| ==> ids[p] < m
    requires ids' == ids + Concat(PieceIds(ids, AllCuts(ps, tol, dim)))
    requires ps' == CutLists(ps, AllCuts(ps, tol, dim)) && os' == CutLists(os, AllCuts(ps, tol, dim))
    ensures AllOfLength(ps', n) && AllOfLength(os', n)
    ensures |ids'| == |ps'| == |os'| && forall q :: 0 <= q < |ids'| ==> ids'[q] < m
    ensures forall q :: 0 <= q < |ps'| ==> Cuts(ps'[q], tol, dim) == []
  {
    var cuts := AllCuts(ps, tol, dim);
    CutListsOfLength(ps, cuts, n);
    CutListsOfLength(os, cuts, n);
    CutListsCount(ps, ids, cuts);
    CutListsCount(os, ids, cuts);
    CutIdsBounded(ids, cuts, m, ids');
    forall q | 0 <= q < |ps'|
      ensures Cuts(ps'[q], tol, dim) == []
    {
      CutListsHaveNoCuts(ps, tol, dim, q);
    }
  }

  /** Splitting off the stationary particles keeps the dynamic lists aligned, full length and with valid axis ids. */
  lemma SelectShape(ids: seq<nat>, ps: seq<seq<Cell<Vec3>>>, os: seq<seq<Cell<Quat>>>, keep: seq<bool>, n: nat, m: nat,
                    ids': seq<nat>, ps': seq<seq<Cell<Vec3>>>, os': seq<seq<Cell<Quat>>>)
    requires |ids| == |ps| == |os| == |keep| && AllOfLength(ps, n) && AllOfLength(os, n)
    requires forall p :: 0 <= p < |ids| ==> ids[p] < m
    requires ids' == Select(ids, keep) && ps' == Select(ps, keep) && os' == Select(os, keep)
    ensures AllOfLength(ps', n) && AllOfLength(os', n)
    ensures |ids'| == |ps'| == |os'| && forall q :: 0 <= q < |ids'| ==> ids'[q] < m
  {
    SelectLength(ids, ps, keep);
    SelectLength(os, ps, keep);
    SelectSubset(ids, keep);
    SelectSubset(ps, keep);
    SelectSubset(os, keep);
    forall q | 0 <= q < |ids'|
      ensures ids'[q] < m
    {
      assert ids'[q] in ids';
    }
    forall q | 0 <= q < |ps'|
      ensures |ps'[q]| == n
    {
      assert ps'[q] in ps';
    }
    forall q | 0 <= q < |os'|
      ensures |os'[q]| == n
    {
      assert os'[q] in os';
    }
  }

  // ---------------------------------------------------------------------
  // What post-processing makes of the loaded particles

  /** `ids` names, entry by entry, the axes `want` in the list `axes`. */
  predicate RefersTo(axes: seq<Vec3>, ids: seq<nat>, want: seq<Vec3>) {
    |ids| == |want| && forall p :: 0 <= p < |ids| ==> ids[p] < |axes| && axes[ids[p]] == want[p]
  }

  /** Every trajectory unwrapped against the box dimensions. */
  function Unwrapped(ps: seq<seq<Cell<Vec3>>>, tol: real, dim: Vec3): (r: seq<seq<Cell<Vec3>>>)
    ensures |r| == |ps| && forall p :: 0 <= p < |ps| ==> r[p] == UnwrapUpTo(ps[p], |ps[p]|, tol, dim)
  {
    seq(|ps|, p requires 0 <= p < |ps| => UnwrapUpTo(ps[p], |ps[p]|, tol, dim))
  }

  /** The positions after step 4: cut into pieces, or unwrapped in place. */
  function Step4Positions(ps: seq<seq<Cell<Vec3>>>, cut: bool, tol: real, dim: Vec3): seq<seq<Cell<Vec3>>> {
    if cut then CutLists(ps, AllCuts(ps, tol, dim)) else Unwrapped(ps, tol, dim)
  }

  /** Another per-sample list after step 4: cut where the positions `ps` are cut, or left as it is. */
  function Step4Samples<T>(xs: seq<seq<Cell<T>>>, ps: seq<seq<Cell<Vec3>>>, cut: bool, tol: real, dim: Vec3): seq<seq<Cell<T>>>
    requires |xs| == |ps|
  {
    if cut then CutLists(xs, AllCuts(ps, tol, dim)) else xs
  }

  /** A per-particle list after step 4: with cutting, every piece repeats the entry of its particle. */
  function Step4Entries<T>(xs: seq<T>, ps: seq<seq<Cell<Vec3>>>, cut: bool, tol: real, dim: Vec3): seq<T>
    requires |xs| == |ps|
  {
    if cut then xs + Concat(PieceIds(xs, AllCuts(ps, tol, dim))) else xs
  }

  /** The first `n` samples of lists of `n` samples are the lists. */
  lemma HeadsFull<T>(ps: seq<seq<T>>, n: nat)
    requires AllOfLength(ps, n)
    ensures Heads(ps, n) == ps
  {
    forall p | 0 <= p < |ps|
      ensures Heads(ps, n)[p] == ps[p]
    {
      assert ps[p][..n] == ps[p];
    }
  }

  lemma RefersToAppend(axes: seq<Vec3>, i1: seq<nat>, w1: seq<Vec3>, i2: seq<nat>, w2: seq<Vec3>)
    requires RefersTo(axes, i1, w1) && RefersTo(axes, i2, w2)
    ensures RefersTo(axes, i1 + i2, w1 + w2)
  {
  }

  /** Ids and axes selected with the same flags still match. */
  lemma {:induction false} RefersToSelect(axes: seq<Vec3>, ids: seq<nat>, want: seq<Vec3>, keep: seq<bool>)
    requires RefersTo(axes, ids, want) && |keep| == |ids|
    ensures RefersTo(axes, Select(ids, keep), Select(want, keep))
    decreases |ids|
  {
    if |ids| > 0 {
      var k := |ids| - 1;
      assert RefersTo(axes, ids[..k], want[..k]);
      RefersToSelect(axes, ids[..k], want[..k], keep[..k]);
      if keep[k] {
        RefersToAppend(axes, Select(ids[..k], keep[..k]), Select(want[..k], keep[..k]), [ids[k]], [want[k]]);
      }
    }
  }

  lemma {:induction false} RefersToConcat(axes: seq<Vec3>, iss: seq<seq<nat>>, wss: seq<seq<Vec3>>)
    requires |iss| == |wss| && forall p :: 0 <= p < |iss| ==> RefersTo(axes, iss[p], wss[p])
    ensures RefersTo(axes, Concat(iss), Concat(wss))
    decreases |iss|
  {
    if |iss| > 0 {
      var n := |iss| - 1;
      RefersToConcat(axes, iss[..n], wss[..n]);
      RefersToAppend(axes, Concat(iss[..n]), Concat(wss[..n]), iss[n], wss[n]);
    }
  }

  /** Cutting gives every piece the axis id of its particle, so ids and axes still match. */
  lemma RefersToStep4(axes: seq<Vec3>, ids: seq<nat>, want: seq<Vec3>, ps: seq<seq<Cell<Vec3>>>, cut: bool, tol: real, dim: Vec3,
                      ids': seq<nat>)
    requires RefersTo(axes, ids, want) && |ids| == |ps| && ids' == Step4Entries(ids, ps, cut, tol, dim)
    ensures RefersTo(axes, ids', Step4Entries(want, ps, cut, tol, dim))
  {
    if cut {
      var cuts := AllCuts(ps, tol, dim);
      var pids, paxes := PieceIds(ids, cuts), PieceIds(want, cuts);
      forall p | 0 <= p < |pids|
        ensures RefersTo(axes, pids[p], paxes[p])
      {
      }
      RefersToConcat(axes, pids, paxes);
      RefersToAppend(axes, ids, want, Concat(pids), Concat(paxes));
    }
  }

  /**
   * Steps 6 to 8 are done on trajectories of `n` samples: their indices
   * count up from one counter, and boxes and velocities belong to their
   * samples.
   */
  ghost predicate Finished(trajs: seq<Trajectory>, n: nat, angular: (Cell<Quat>, Cell<Quat>) -> Cell<Vec3>) {
    forall p :: 0 <= p < |trajs| ==>
      |trajs[p].positions| == |trajs[p].orientations| == n >= 1 &&
      trajs[p].indicesStrip == Strip(Wrap(p * n), n) && trajs[p].indices == Lines(Wrap(p * n), n) &&
      trajs[p].box == Fold(Initial, trajs[p].positions) && trajs[p].center == Center(trajs[p].box) &&
      trajs[p].velocities == Velocities(trajs[p].positions) &&
      trajs[p].angularVelocities == AngularVelocities(trajs[p].orientations, angular)
  }
}
