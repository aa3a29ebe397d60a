/**
 * Small pieces of the plugin's own logic: the data-set name taken from the
 * directory path, the animation tick, the length filter, the assembly of
 * the per-trajectory index buffers, the step of the point-of-interest scan
 * and the CSV export.
 */
module PluginLogic {
  import opened Vectors
  import opened Text
  import opened MetatubeGeom
  import Bezdat

  // ---------------------------------------------------------------------
  // data_name

  /**
   * `std::string::rfind(c, pos)`: the last position at or before `pos`
   * holding `c`, or None for `npos`.
   */
  function RFind(s: string, c: char, pos: nat): (r: Option<nat>)
    ensures r.Some? ==> r.value < |s| && r.value <= pos && s[r.value] == c
    ensures forall k :: 0 <= k < |s| && k <= pos && (r.Some? ==> r.value < k) ==> s[k] != c
    decreases pos
  {
    if |s| == 0 then None
    else if pos >= |s| then RFind(s, c, |s| - 1)
    else if s[pos] == c then Some(pos)
    else if pos == 0 then None
    else RFind(s, c, pos - 1)
  }

  /** `rfind(...) + 1` on `size_t`: `npos + 1` wraps around to 0. */
  function PastFound(r: Option<nat>): nat {
    if r.None? then 0 else r.value + 1
  }

  /**
   * The name of the loaded data set: the text after the last '/' of the
   * directory path, or the last segment with its trailing '/' when the path
   * ends in '/'. A second search from `length - 2` on a path shorter than
   * two characters starts from `npos`, that is, from the end.
   */
  function DataName(dir: string): string {
    var index := PastFound(RFind(dir, '/', |dir|));
    if index == |dir| then
      var from := if |dir| >= 2 then |dir| - 2 else |dir|;
      dir[PastFound(RFind(dir, '/', from))..]
    else
      dir[index..]
  }

  predicate NoSlash(s: string) {
    forall k :: 0 <= k < |s| ==> s[k] != '/'
  }

  /** `r` is a suffix of `dir` that starts the string or follows a '/'. */
  predicate SegmentSuffix(dir: string, r: string) {
    |r| <= |dir| && r == dir[|dir| - |r|..] &&
    (|r| == |dir| || dir[|dir| - |r| - 1] == '/')
  }

  /**
   * The name is a suffix of the path that starts after a '/' (or at the
   * start); a path without '/' is its own name; otherwise the name is the
   * last segment, with its trailing '/' when the path ends in one.
   */
  lemma DataNameSpec(dir: string)
    ensures SegmentSuffix(dir, DataName(dir))
    ensures NoSlash(dir) ==> DataName(dir) == dir
    ensures |dir| > 0 && dir[|dir| - 1] != '/' ==> NoSlash(DataName(dir))
    ensures |dir| >= 2 && dir[|dir| - 1] == '/' ==>
      var r := DataName(dir);
      |r| >= 1 && r[|r| - 1] == '/' && NoSlash(r[..|r| - 1])
  {
    var r := DataName(dir);
    var f := RFind(dir, '/', |dir|);
    if PastFound(f) == |dir| {
      var from := if |dir| >= 2 then |dir| - 2 else |dir|;
      var g := RFind(dir, '/', from);
      assert r == dir[PastFound(g)..];
      if |dir| >= 2 && dir[|dir| - 1] == '/' {
        assert r[|r| - 1] == dir[|dir| - 1];
        var t := r[..|r| - 1];
        forall k | 0 <= k < |t|
          ensures t[k] != '/'
        {
          assert t[k] == dir[PastFound(g) + k];
        }
      }
    } else {
      assert r == dir[PastFound(f)..];
      forall k | 0 <= k < |r|
        ensures r[k] != '/'
      {
        assert r[k] == dir[PastFound(f) + k];
      }
    }
  }

  /** The path "/" and the empty path both name the data set "". */
  lemma DataNameOfRoot()
    ensures DataName("/") == "" && DataName("") == ""
  {
    assert RFind("/", '/', 1) == Some(0);
  }

  /**
   * The name after `load_data`: a generation first writes "generated data",
   * a file load needs a start step before the end step, and any successful
   * load then overwrites the name from the directory path.
   */
  function NameAfterLoad(generated: bool, startStep: int, endStep: int, loaded: bool,
                         dir: string, previous: string): (name: string)
    ensures loaded && (generated || startStep < endStep) ==> name == DataName(dir)
    ensures !generated && startStep >= endStep ==> name == previous
    ensures generated && !loaded ==> name == "generated data"
  {
    var before := if generated then "generated data" else previous;
    var success := loaded && (generated || startStep < endStep);
    if success then DataName(dir) else before
  }

  // ---------------------------------------------------------------------
  // timer_event

  /** The time fields the animation reads and writes. */
  datatype Clock = Clock(current: int, start: int, end: int, animStart: int, animEnd: int)

  /**
   * One due animation tick: a negative current time starts a new run from
   * the start time, capturing the range; then either the shown end moves to
   * the current time or, past the captured end, the current time returns to
   * the start; finally the current time advances by the speed.
   */
  function Tick(c: Clock, speed: int): Clock {
    var c1 := if c.current < 0 then c.(animStart := c.start, animEnd := c.end, current := c.start) else c;
    var c2 := if c1.current < c1.animEnd then c1.(end := c1.current) else c1.(current := c1.start);
    c2.(current := c2.current + speed)
  }

  /** The state of a run: not started, or running within the captured range. */
  predicate Running(c: Clock) {
    0 <= c.start &&
    (c.current < 0 ==> c.start <= c.end) &&
    (c.current >= 0 ==> c.start <= c.end <= c.animEnd && c.start <= c.current)
  }

  /** A tick keeps the shown end between the start and the captured end. */
  lemma TickKeepsRunning(c: Clock, speed: int)
    requires Running(c) && speed >= 1
    ensures Running(Tick(c, speed))
    ensures Tick(c, speed).current >= 0
    ensures Tick(c, speed).start == c.start
    ensures Tick(c, speed).animEnd == (if c.current < 0 then c.end else c.animEnd)
  {
  }

  /** A tick past the captured end shows the same end and restarts from the start. */
  lemma TickWraps(c: Clock, speed: int)
    requires c.current >= c.animEnd && c.current >= 0
    ensures Tick(c, speed).end == c.end && Tick(c, speed).current == c.start + speed
  {
  }

  function Ticks(c: Clock, speed: int, k: nat): Clock {
    if k == 0 then c else Tick(Ticks(c, speed, k - 1), speed)
  }

  /**
   * From a stopped animation (current time -1) over a non-empty range, the
   * k-th tick shows the end time start + k * speed as long as that lies
   * below the range end, and the captured range is the one at the start.
   */
  lemma {:induction false} TicksSweep(c: Clock, speed: int, k: nat)
    requires c.current < 0 && c.start >= 0 && speed >= 1
    requires c.start + k * speed < c.end
    ensures Ticks(c, speed, k + 1).end == c.start + k * speed
    ensures Ticks(c, speed, k + 1).current == c.start + (k + 1) * speed
    ensures Ticks(c, speed, k + 1).animEnd == c.end && Ticks(c, speed, k + 1).start == c.start
  {
    if k > 0 {
      assert c.start + (k - 1) * speed < c.end by {
        assert (k - 1) * speed == k * speed - speed;
      }
      TicksSweep(c, speed, k - 1);
      assert c.start + k * speed == c.start + (k - 1 + 1) * speed;
      assert (k + 1) * speed == k * speed + speed;
    }
  }

  /** The plugin fields `timer_event` works on. */
  class Animation {
    var animate: bool
    var paused: bool
    var currentTime: int
    var startTime: int
    var endTime: int
    var animateStart: int
    var animateEnd: int
    var animationSpeed: int

    function State(): Clock
      reads this
    {
      Clock(currentTime, startTime, endTime, animateStart, animateEnd)
    }

    /** The plugin's initial animation state: stopped, current time -1, speed 5. */
    constructor (start: int, end: int)
      ensures !animate && !paused && animationSpeed == 5
      ensures State() == Clock(-1, start, end, 0, 0)
    {
      animate, paused := false, false;
      currentTime, startTime, endTime := -1, start, end;
      animateStart, animateEnd := 0, 0;
      animationSpeed := 5;
    }

    /**
     * `timer_event`: `due` stands for the frame-rate check against the
     * clock. An animating, unpaused plugin ticks when due; otherwise nothing
     * changes.
     */
    method TimerEvent(due: bool)
      modifies this
      ensures animate == old(animate) && paused == old(paused) && animationSpeed == old(animationSpeed)
      ensures old(animate && !paused && due) ==> State() == Tick(old(State()), animationSpeed)
      ensures !old(animate && !paused && due) ==> State() == old(State())
    {
      if animate && !paused && due {
        if currentTime < 0 {
          animateStart := startTime;
          animateEnd := endTime;
          currentTime := startTime;
        }
        if currentTime < animateEnd {
          endTime := currentTime;
        } else {
          currentTime := startTime;
        }
        currentTime := currentTime + animationSpeed;
      }
    }
  }

  // ---------------------------------------------------------------------
  // filter_length

  /** Which length bands of one axis are shown. */
  datatype AxisFlags = AxisFlags(verySmall: bool, small: bool, medium: bool, large: bool)

  /** The thresholds, in percent of the data extent, and the flags per axis. */
  datatype LengthFilter = LengthFilter(threshVerySmall: real, threshSmall: real, threshMedium: real,
                                       x: AxisFlags, y: AxisFlags, z: AxisFlags)

  function Abs(r: real): real {
    if r < 0.0 then -r else r
  }

  /**
   * One axis of `filter_length`: the trajectory's extent `length` against
   * the thresholds scaled to the data extent `total`. Every comparison is
   * strict, so a length equal to a threshold lies in no band.
   */
  function AxisFiltered(length: real, total: real, f: LengthFilter, flags: AxisFlags): bool {
    var verySmall := total * f.threshVerySmall / 100.0;
    var small := total * f.threshSmall / 100.0;
    var medium := total * f.threshMedium / 100.0;
    if length < verySmall && !flags.verySmall then true
    else if length > verySmall && length < small && !flags.small then true
    else if length > small && length < medium && !flags.medium then true
    else if length > medium && !flags.large then true
    else false
  }

  /** `filter_length`: true when some axis puts the trajectory in a hidden band. */
  function FilterLength(traj: Box, data: Box, f: LengthFilter): bool {
    AxisFiltered(Abs(traj.hi.x - traj.lo.x), data.hi.x - data.lo.x, f, f.x) ||
    AxisFiltered(Abs(traj.hi.y - traj.lo.y), data.hi.y - data.lo.y, f, f.y) ||
    AxisFiltered(Abs(traj.hi.z - traj.lo.z), data.hi.z - data.lo.z, f, f.z)
  }

  /** The band of a length between ordered thresholds. */
  datatype Band = VerySmall | Small | Medium | Large | OnThreshold

  function BandOf(length: real, verySmall: real, small: real, medium: real): Band {
    if length < verySmall then VerySmall
    else if verySmall < length < small then Small
    else if small < length < medium then Medium
    else if length > medium then Large
    else OnThreshold
  }

  function Shown(flags: AxisFlags, b: Band): bool {
    match b
    case VerySmall => flags.verySmall
    case Small => flags.small
    case Medium => flags.medium
    case Large => flags.large
    case OnThreshold => true
  }

  predicate OrderedThresholds(f: LengthFilter) {
    0.0 <= f.threshVerySmall <= f.threshSmall <= f.threshMedium
  }

  lemma ScaledOrder(total: real, a: real, b: real)
    requires total >= 0.0 && a <= b
    ensures total * a / 100.0 <= total * b / 100.0
  {
    assert total * b - total * a == total * (b - a);
    ProductNonNegativeWeak(total, b - a);
  }

  lemma ProductNonNegativeWeak(a: real, b: real)
    requires a >= 0.0 && b >= 0.0
    ensures a * b >= 0.0
  {
  }

  /**
   * With ordered thresholds over a non-negative extent, an axis filters a
   * trajectory exactly when its length lies strictly inside a band whose
   * flag is off; in particular a length on a threshold is never filtered.
   */
  lemma AxisFilteredIffHiddenBand(length: real, total: real, f: LengthFilter, flags: AxisFlags)
    requires OrderedThresholds(f) && total >= 0.0
    ensures var b := BandOf(length, total * f.threshVerySmall / 100.0,
                            total * f.threshSmall / 100.0, total * f.threshMedium / 100.0);
      AxisFiltered(length, total, f, flags) <==> !Shown(flags, b)
  {
    ScaledOrder(total, f.threshVerySmall, f.threshSmall);
    ScaledOrder(total, f.threshSmall, f.threshMedium);
  }

  /** A length equal to one of the scaled thresholds is never filtered. */
  lemma ThresholdNeverFiltered(length: real, total: real, f: LengthFilter, flags: AxisFlags)
    requires OrderedThresholds(f) && total >= 0.0
    requires length == total * f.threshVerySmall / 100.0 || length == total * f.threshSmall / 100.0
          || length == total * f.threshMedium / 100.0
    ensures !AxisFiltered(length, total, f, flags)
  {
    AxisFilteredIffHiddenBand(length, total, f, flags);
  }

  predicate AllShown(f: LengthFilter) {
    f.x == AxisFlags(true, true, true, true) && f.y == AxisFlags(true, true, true, true)
    && f.z == AxisFlags(true, true, true, true)
  }

  /**
   * The length part of `skip_traj`: the filter runs only when it is active
   * and some band is hidden.
   */
  function SkipByLength(active: bool, traj: Box, data: Box, f: LengthFilter): bool {
    !AllShown(f) && active && FilterLength(traj, data, f)
  }

  /** The all-flags guard only saves work: with every band shown nothing is filtered. */
  lemma SkipByLengthIsFilter(active: bool, traj: Box, data: Box, f: LengthFilter)
    ensures SkipByLength(active, traj, data, f) <==> active && FilterLength(traj, data, f)
  {
  }

  // ---------------------------------------------------------------------
  // compute_traj_indices

  /** `numeric_limits<unsigned int>::max()`, the primitive restart index. */
  const RestartId: nat := 0xFFFF_FFFF

  datatype Mode = TrajLine | TrajRibbon | Traj3DRibbon | Traj3DRibbonGpu | TrajTube

  /**
   * The per-trajectory index lists the buffers are cut from: the
   * trajectories' line-strip and line indices, the ribbon renderer's lists
   * and the 3D ribbon renderer's four lists (empty before their first build).
   */
  datatype IndexSources = IndexSources(
    strip: seq<seq<nat>>, lines: seq<seq<nat>>, ribbon: seq<seq<nat>>,
    top: seq<seq<nat>>, side1: seq<seq<nat>>, bottom: seq<seq<nat>>, side2: seq<seq<nat>>)

  /** Every slice the mode takes from trajectory `p` for times [s, e] exists. */
  predicate Sliceable(src: IndexSources, mode: Mode, p: nat, s: int, e: int) {
    1 <= s <= e &&
    (mode == TrajLine ==> p < |src.strip| && e <= |src.strip[p]|) &&
    (mode == Traj3DRibbonGpu ==> p < |src.lines| && 2 * e - 1 <= |src.lines[p]|) &&
    (mode == TrajRibbon && |src.ribbon| > 0 ==> p < |src.ribbon| && 2 * e <= |src.ribbon[p]|) &&
    (mode == Traj3DRibbon && |src.top| > 0 ==>
      p < |src.top| && p < |src.side1| && p < |src.bottom| && p < |src.side2| &&
      2 * e <= |src.top[p]| && 2 * e <= |src.side1[p]| && 2 * e <= |src.bottom[p]| && 2 * e <= |src.side2[p]|)
  }

  /**
   * What one visible trajectory adds: the index range of the times
   * start_time..end_time (1-based) of the mode's list, closed by a restart
   * index. Line strips take one index per time step, the GPU ribbon two
   * minus the last, the ribbons two per time step.
   */
  function TrajSlice(src: IndexSources, mode: Mode, hidden: bool, p: nat, s: int, e: int): seq<nat>
    requires Sliceable(src, mode, p, s, e)
  {
    if hidden then [] else
    match mode
      case TrajLine => src.strip[p][s - 1..e] + [RestartId]
      case Traj3DRibbonGpu => src.lines[p][2 * (s - 1)..2 * e - 1] + [RestartId]
      case TrajRibbon =>
        (if |src.ribbon| > 0 then src.ribbon[p][2 * (s - 1)..2 * e] else []) + [RestartId]
      case Traj3DRibbon =>
        if |src.top| > 0 then
          src.top[p][2 * (s - 1)..2 * e] + [RestartId] + src.side1[p][2 * (s - 1)..2 * e] + [RestartId]
          + src.bottom[p][2 * (s - 1)..2 * e] + [RestartId] + src.side2[p][2 * (s - 1)..2 * e] + [RestartId]
        else []
      case TrajTube => []
  }

  /** The first trajectory considered and one past the last. */
  function Lo(single: bool, singleId: nat): nat {
    if single then singleId else 0
  }

  function Hi(n: nat, single: bool, singleId: nat): nat {
    if single then singleId + 1 else n
  }

  predicate Prepared(src: IndexSources, mode: Mode, skipped: seq<bool>, lo: nat, hi: nat, s: int, e: int) {
    hi <= |skipped| && forall p :: lo <= p < hi && !skipped[p] ==> Sliceable(src, mode, p, s, e)
  }

  /** The buffer gathered from the trajectories lo..hi-1 that are not skipped. */
  function Gathered(src: IndexSources, mode: Mode, hidden: bool, skipped: seq<bool>,
                    lo: nat, hi: nat, s: int, e: int): seq<nat>
    requires lo <= hi && Prepared(src, mode, skipped, lo, hi, s, e)
    decreases hi
  {
    if hi == lo then [] else
      Gathered(src, mode, hidden, skipped, lo, hi - 1, s, e)
      + (if skipped[hi - 1] then [] else TrajSlice(src, mode, hidden, hi - 1, s, e))
  }

  function CountVisible(skipped: seq<bool>, lo: nat, hi: nat): nat
    requires lo <= hi <= |skipped|
    decreases hi
  {
    if hi == lo then 0 else CountVisible(skipped, lo, hi - 1) + (if skipped[hi - 1] then 0 else 1)
  }

  /**
   * `compute_traj_indices`: walks the trajectories (only `singleId` when a
   * single one is displayed), skips the filtered ones, appends each other's
   * slice and counts it.
   */
  method ComputeTrajIndices(src: IndexSources, mode: Mode, hidden: bool, skipped: seq<bool>,
                            s: int, e: int, single: bool, singleId: nat)
    returns (buffer: seq<nat>, nrVisibleTraj: nat)
    requires single ==> singleId < |skipped|
    requires Prepared(src, mode, skipped, Lo(single, singleId), Hi(|skipped|, single, singleId), s, e)
    ensures buffer == Gathered(src, mode, hidden, skipped, Lo(single, singleId), Hi(|skipped|, single, singleId), s, e)
    ensures nrVisibleTraj == CountVisible(skipped, Lo(single, singleId), Hi(|skipped|, single, singleId))
  {
    var visTraj := |skipped|;
    var startId := 0;
    if single {
      startId := singleId;
      visTraj := startId + 1;
    }
    assert startId == Lo(single, singleId) && visTraj == Hi(|skipped|, single, singleId);
    nrVisibleTraj := 0;
    buffer := [];
    var p := startId;
    while p < visTraj
      invariant startId <= p <= visTraj
      invariant buffer == Gathered(src, mode, hidden, skipped, startId, p, s, e)
      invariant nrVisibleTraj == CountVisible(skipped, startId, p)
    {
      PreparedUpTo(src, mode, skipped, startId, visTraj, p, s, e);
      GatheredStep(src, mode, hidden, skipped, startId, p, s, e);
      if skipped[p] {
        p := p + 1;
        continue;
      }
      var slice := TrajSlice(src, mode, hidden, p, s, e);
      buffer := buffer + slice;
      nrVisibleTraj := nrVisibleTraj + 1;
      p := p + 1;
    }
    assert p == visTraj;
  }

  /** A prepared range is prepared up to each of its trajectories, and each visible one can be sliced. */
  lemma PreparedUpTo(src: IndexSources, mode: Mode, skipped: seq<bool>, lo: nat, hi: nat, p: nat, s: int, e: int)
    requires lo <= p < hi && Prepared(src, mode, skipped, lo, hi, s, e)
    ensures Prepared(src, mode, skipped, lo, p + 1, s, e)
    ensures !skipped[p] ==> Sliceable(src, mode, p, s, e)
  {
  }

  /** One more trajectory adds its slice unless it is skipped. */
  lemma GatheredStep(src: IndexSources, mode: Mode, hidden: bool, skipped: seq<bool>, lo: nat, p: nat, s: int, e: int)
    requires lo <= p && Prepared(src, mode, skipped, lo, p + 1, s, e)
    ensures Prepared(src, mode, skipped, lo, p, s, e)
    ensures skipped[p] ==> Gathered(src, mode, hidden, skipped, lo, p + 1, s, e) == Gathered(src, mode, hidden, skipped, lo, p, s, e)
    ensures !skipped[p] ==>
      (Gathered(src, mode, hidden, skipped, lo, p + 1, s, e) ==
       Gathered(src, mode, hidden, skipped, lo, p, s, e) + TrajSlice(src, mode, hidden, p, s, e))
  {
    var g := Gathered(src, mode, hidden, skipped, lo, p, s, e);
    if skipped[p] {
      assert g + [] == g;
    }
  }

  /** At most every trajectory in the range is visible, and all are when none is skipped. */
  lemma {:induction false} CountVisibleBounds(skipped: seq<bool>, lo: nat, hi: nat)
    requires lo <= hi <= |skipped|
    ensures CountVisible(skipped, lo, hi) <= hi - lo
    ensures CountVisible(skipped, lo, hi) == hi - lo <==> forall p :: lo <= p < hi ==> !skipped[p]
    decreases hi
  {
    if hi > lo {
      CountVisibleBounds(skipped, lo, hi - 1);
    }
  }

  /** One visible trajectory's contribution in the line-strip and GPU modes: its indices, then the restart. */
  lemma SliceShape(src: IndexSources, mode: Mode, p: nat, s: int, e: int)
    requires mode == TrajLine || mode == Traj3DRibbonGpu
    requires Sliceable(src, mode, p, s, e)
    ensures |TrajSlice(src, mode, false, p, s, e)| == SliceLength(mode, s, e)
    ensures mode == TrajLine ==> TrajSlice(src, mode, false, p, s, e) == src.strip[p][s - 1..e] + [RestartId]
    ensures mode == Traj3DRibbonGpu ==> TrajSlice(src, mode, false, p, s, e) == src.lines[p][2 * (s - 1)..2 * e - 1] + [RestartId]
  {
  }

  lemma MulStep(c: int, l: int)
    ensures (c + 1) * l == c * l + l
  {
  }

  /** The length of one visible trajectory's contribution in the line-strip and GPU modes. */
  function SliceLength(mode: Mode, s: int, e: int): int {
    if mode == TrajLine then e - s + 2 else 2 * (e - s) + 2
  }

  /**
   * In the line-strip and GPU ribbon modes every visible trajectory adds the
   * same number of indices: e - s + 1 strip indices, or 2(e - s) + 1 line
   * indices, plus the restart index.
   */
  lemma GatheredLength(src: IndexSources, mode: Mode, skipped: seq<bool>, lo: nat, hi: nat, s: int, e: int)
    requires mode == TrajLine || mode == Traj3DRibbonGpu
    requires lo <= hi && Prepared(src, mode, skipped, lo, hi, s, e)
    ensures |Gathered(src, mode, false, skipped, lo, hi, s, e)| == CountVisible(skipped, lo, hi) * SliceLength(mode, s, e)
  {
    GatheredLengthSum(src, mode, skipped, lo, hi, s, e);
    TimesIsMul(CountVisible(skipped, lo, hi), SliceLength(mode, s, e));
  }

  /** `c` copies of `l` added up. */
  function Times(c: nat, l: int): int {
    if c == 0 then 0 else Times(c - 1, l) + l
  }

  lemma {:induction false} TimesIsMul(c: nat, l: int)
    ensures Times(c, l) == c * l
  {
    if c > 0 {
      TimesIsMul(c - 1, l);
      MulStep(c - 1, l);
    }
  }

  lemma {:induction false} GatheredLengthSum(src: IndexSources, mode: Mode, skipped: seq<bool>,
                                             lo: nat, hi: nat, s: int, e: int)
    requires mode == TrajLine || mode == Traj3DRibbonGpu
    requires lo <= hi && Prepared(src, mode, skipped, lo, hi, s, e)
    ensures |Gathered(src, mode, false, skipped, lo, hi, s, e)| == Times(CountVisible(skipped, lo, hi), SliceLength(mode, s, e))
    decreases hi
  {
    if hi > lo {
      GatheredLengthSum(src, mode, skipped, lo, hi - 1, s, e);
      GatheredLengthStep(src, mode, skipped, lo, hi, s, e);
    } else {
      assert Gathered(src, mode, false, skipped, lo, hi, s, e) == [];
      assert CountVisible(skipped, lo, hi) == 0;
    }
  }

  /** One more trajectory adds one slice length exactly when it is visible. */
  lemma GatheredLengthStep(src: IndexSources, mode: Mode, skipped: seq<bool>, lo: nat, hi: nat, s: int, e: int)
    requires mode == TrajLine || mode == Traj3DRibbonGpu
    requires lo < hi && Prepared(src, mode, skipped, lo, hi, s, e)
    requires |Gathered(src, mode, false, skipped, lo, hi - 1, s, e)| == Times(CountVisible(skipped, lo, hi - 1), SliceLength(mode, s, e))
    ensures |Gathered(src, mode, false, skipped, lo, hi, s, e)| == Times(CountVisible(skipped, lo, hi), SliceLength(mode, s, e))
  {
    if !skipped[hi - 1] {
      assert Sliceable(src, mode, hi - 1, s, e);
      SliceShape(src, mode, hi - 1, s, e);
    }
  }

  /** No stored index is the restart index. */
  predicate BelowRestart(src: IndexSources) {
    (forall p, k :: 0 <= p < |src.strip| && 0 <= k < |src.strip[p]| ==> src.strip[p][k] < RestartId) &&
    (forall p, k :: 0 <= p < |src.lines| && 0 <= k < |src.lines[p]| ==> src.lines[p][k] < RestartId)
  }

  /**
   * In the line-strip and GPU ribbon modes the restart index closes every
   * visible trajectory exactly once.
   */
  lemma {:induction false} RestartPerTrajectory(src: IndexSources, mode: Mode, skipped: seq<bool>,
                                                lo: nat, hi: nat, s: int, e: int)
    requires mode == TrajLine || mode == Traj3DRibbonGpu
    requires lo <= hi && Prepared(src, mode, skipped, lo, hi, s, e) && BelowRestart(src)
    ensures multiset(Gathered(src, mode, false, skipped, lo, hi, s, e))[RestartId] == CountVisible(skipped, lo, hi)
    decreases hi
  {
    if hi > lo {
      RestartPerTrajectory(src, mode, skipped, lo, hi - 1, s, e);
      var before := Gathered(src, mode, false, skipped, lo, hi - 1, s, e);
      if !skipped[hi - 1] {
        SliceRestartOnce(src, mode, hi - 1, s, e);
      } else {
        assert Gathered(src, mode, false, skipped, lo, hi, s, e) == before + [];
        assert before + [] == before;
      }
    }
  }

  lemma SliceRestartOnce(src: IndexSources, mode: Mode, p: nat, s: int, e: int)
    requires mode == TrajLine || mode == Traj3DRibbonGpu
    requires Sliceable(src, mode, p, s, e) && BelowRestart(src)
    ensures multiset(TrajSlice(src, mode, false, p, s, e))[RestartId] == 1
  {
    SliceShape(src, mode, p, s, e);
    var body: seq<nat> := if mode == TrajLine then src.strip[p][s - 1..e] else src.lines[p][2 * (s - 1)..2 * e - 1];
    assert TrajSlice(src, mode, false, p, s, e) == body + [RestartId];
    assert RestartId !in body;
    assert multiset(body)[RestartId] == 0;
  }

  /** A hidden trajectory set yields an empty buffer in every mode. */
  lemma {:induction false} HiddenIsEmpty(src: IndexSources, mode: Mode, skipped: seq<bool>,
                                         lo: nat, hi: nat, s: int, e: int)
    requires lo <= hi && Prepared(src, mode, skipped, lo, hi, s, e)
    ensures Gathered(src, mode, true, skipped, lo, hi, s, e) == []
    decreases hi
  {
    if hi > lo {
      HiddenIsEmpty(src, mode, skipped, lo, hi - 1, s, e);
    }
  }

  // ---------------------------------------------------------------------
  // search_points_of_interest: the step of the region scan

  /** C integer division by a positive divisor: truncation toward zero. */
  function TruncDiv(a: int, d: nat): int
    requires d > 0
  {
    if a >= 0 then a / d else -((-a) / d)
  }

  /** The step of the scan loops as written: `length_x_percent / 2`. */
  function PoiStep(lengthPercent: int): int {
    TruncDiv(lengthPercent, 2)
  }

  /**
   * The region length slider allows 0 and 1; for those the step is 0, so
   * after any number of iterations the loop variable is still 0 < 100 and
   * the scan never ends.
   */
  lemma PoiScanStalls(lengthPercent: int, k: nat)
    requires 0 <= lengthPercent < 2
    ensures PoiStep(lengthPercent) == 0 && k * PoiStep(lengthPercent) == 0 < 100
  {
  }

  /** The step with a floor of one, under which the scan always ends. */
  function PoiStepFixed(lengthPercent: int): (step: nat)
    ensures step >= 1
    ensures lengthPercent >= 2 ==> step == PoiStep(lengthPercent)
  {
    if PoiStep(lengthPercent) >= 1 then PoiStep(lengthPercent) else 1
  }

  /** The positions a scan loop with the given step visits from `x` on. */
  function ScanFrom(x: int, step: nat): seq<int>
    requires step >= 1
    decreases 100 - x
  {
    if x >= 100 then [] else [x] + ScanFrom(x + step, step)
  }

  /**
   * The positions start at `x`, rise by the step, stay below 100, and the
   * step after the last one reaches 100.
   */
  lemma {:induction false} ScanFromSpec(x: int, step: nat)
    requires step >= 1 && x >= 0
    ensures x < 100 ==> |ScanFrom(x, step)| >= 1 && ScanFrom(x, step)[0] == x
    ensures x < 100 ==> ScanFrom(x, step)[|ScanFrom(x, step)| - 1] + step >= 100
    ensures forall k :: 0 <= k < |ScanFrom(x, step)| ==> x <= ScanFrom(x, step)[k] < 100
    ensures forall k :: 0 < k < |ScanFrom(x, step)| ==> ScanFrom(x, step)[k] == ScanFrom(x, step)[k - 1] + step
    decreases 100 - x
  {
    if x < 100 {
      var rest := ScanFrom(x + step, step);
      ScanFromSpec(x + step, step);
      assert ScanFrom(x, step) == [x] + rest;
      if |rest| > 0 {
        assert rest[0] == x + step;
      }
    }
  }

  /** One scan loop with the corrected step. */
  method ScanAxis(lengthPercent: int) returns (xs: seq<int>)
    ensures xs == ScanFrom(0, PoiStepFixed(lengthPercent))
  {
    var step := PoiStepFixed(lengthPercent);
    xs := ScanWith(step);
  }

  /** The scan loop itself, for a step of at least one. */
  method ScanWith(step: nat) returns (xs: seq<int>)
    requires step >= 1
    ensures xs == ScanFrom(0, step)
  {
    xs := [];
    var x: int := 0;
    while x < 100
      invariant 0 <= x
      invariant xs + ScanFrom(x, step) == ScanFrom(0, step)
      decreases 100 - x
    {
      ScanStep(xs, x, step);
      xs := xs + [x];
      x := x + step;
    }
    assert xs + [] == xs;
  }

  lemma SeqAssoc<T>(a: seq<T>, b: seq<T>, c: seq<T>)
    ensures a + (b + c) == (a + b) + c
  {
  }

  /** One round of the scan loop moves the position from the pending scan to the collected ones. */
  lemma ScanStep(xs: seq<int>, x: int, step: nat)
    requires step >= 1 && x < 100
    ensures xs + ScanFrom(x, step) == (xs + [x]) + ScanFrom(x + step, step)
  {
    var rest := ScanFrom(x + step, step);
    assert ScanFrom(x, step) == [x] + rest;
    SeqAssoc(xs, [x], rest);
  }

  // ---------------------------------------------------------------------
  // export_csv

  datatype CsvRow = CsvRow(traj: nat, pos: Vec3, radius: real)

  /** The rows of the first `t` trajectories: one per sample, with the trajectory's radius. */
  function CsvRows(trajs: seq<seq<Vec3>>, axes: seq<Vec3>, axisIds: seq<nat>, t: nat): seq<CsvRow>
    requires t <= |trajs| && |axisIds| == |trajs| && forall s :: 0 <= s < |axisIds| ==> axisIds[s] < |axes|
  {
    if t == 0 then [] else
      CsvRows(trajs, axes, axisIds, t - 1)
      + seq(|trajs[t - 1]|, k requires 0 <= k < |trajs[t - 1]| =>
          CsvRow(t - 1, trajs[t - 1][k], Bezdat.Radius(axes[axisIds[t - 1]])))
  }

  /** `export_csv` without the header and file name: the rows in order. */
  method ExportCsv(trajs: seq<seq<Vec3>>, axes: seq<Vec3>, axisIds: seq<nat>) returns (rows: seq<CsvRow>)
    requires |axisIds| == |trajs| && forall s :: 0 <= s < |axisIds| ==> axisIds[s] < |axes|
    ensures rows == CsvRows(trajs, axes, axisIds, |trajs|)
  {
    rows := [];
    var t := 0;
    while t < |trajs|
      invariant 0 <= t <= |trajs|
      invariant rows == CsvRows(trajs, axes, axisIds, t)
    {
      var radius := Bezdat.Radius(axes[axisIds[t]]);
      var block := [];
      var k := 0;
      while k < |trajs[t]|
        invariant 0 <= k <= |trajs[t]| && |block| == k
        invariant forall j :: 0 <= j < k ==> block[j] == CsvRow(t, trajs[t][j], radius)
      {
        block := block + [CsvRow(t, trajs[t][k], radius)];
        k := k + 1;
      }
      rows := rows + block;
      t := t + 1;
    }
  }

  /**
   * Every row belongs to a trajectory, carries one of its samples, and its
   * radius is the mean of that trajectory's three axes.
   */
  lemma {:induction false} CsvRowsSpec(trajs: seq<seq<Vec3>>, axes: seq<Vec3>, axisIds: seq<nat>, t: nat)
    requires t <= |trajs| && |axisIds| == |trajs| && forall s :: 0 <= s < |axisIds| ==> axisIds[s] < |axes|
    ensures forall r :: r in CsvRows(trajs, axes, axisIds, t) ==>
      r.traj < t && r.pos in trajs[r.traj] &&
      r.radius == (axes[axisIds[r.traj]].x + axes[axisIds[r.traj]].y + axes[axisIds[r.traj]].z) / 3.0
  {
    if t > 0 {
      CsvRowsSpec(trajs, axes, axisIds, t - 1);
      Bezdat.RadiusIsMean(axes[axisIds[t - 1]]);
    }
  }
}
