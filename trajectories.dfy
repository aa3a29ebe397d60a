/**
 * Specifications of the post-processing steps that turn the loaded
 * particle samples into trajectories: grouping of axes, the split of
 * stationary particles, bounding boxes, cutting at out-of-bound jumps,
 * running vertex indices and velocities. The step methods in PostProcess
 * are proved against these functions.
 */
module Trajectories {
  import opened Vectors

  /** A float sample that may be NaN; every comparison with NaN is false. */
  datatype Cell<T> = Val(v: T) | NaN

  // ---------------------------------------------------------------------
  // Step 1: grouping of axes

  predicate Distinct<T(==)>(s: seq<T>) {
    forall i, j :: 0 <= i < j < |s| ==> s[i] != s[j]
  }

  /** The linear search for an axis: its first index, or |axes| when absent. */
  function IndexOf<T(==)>(s: seq<T>, a: T): (id: nat)
    ensures id <= |s|
    ensures id < |s| <==> a in s
    ensures id < |s| ==> s[id] == a
    ensures forall j :: 0 <= j < id ==> s[j] != a
  {
    if |s| == 0 then 0 else if s[0] == a then 0 else 1 + IndexOf(s[1..], a)
  }

  /** The axes list after appending each particle's axis unless already present. */
  function Grouped<T(==)>(axes: seq<T>, tmp: seq<T>): seq<T>
    decreases |tmp|
  {
    if |tmp| == 0 then axes
    else
      var g := Grouped(axes, tmp[..|tmp| - 1]);
      if tmp[|tmp| - 1] in g then g else g + [tmp[|tmp| - 1]]
  }

  /**
   * Reference definition: the axes of `tmp` that occur neither in `axes`
   * nor earlier in `tmp`, in index order.
   */
  function FirstOccurrences<T(==)>(axes: seq<T>, tmp: seq<T>): seq<T>
    decreases |tmp|
  {
    if |tmp| == 0 then []
    else
      var k := |tmp| - 1;
      FirstOccurrences(axes, tmp[..k]) + (if tmp[k] in axes || tmp[k] in tmp[..k] then [] else [tmp[k]])
  }

  /** Grouping only adds, and keeps exactly the values of both lists. */
  lemma {:induction false} GroupedContents<T>(axes: seq<T>, tmp: seq<T>)
    ensures forall v :: v in Grouped(axes, tmp) <==> v in axes || v in tmp
    ensures |axes| <= |Grouped(axes, tmp)| && Grouped(axes, tmp)[..|axes|] == axes
    decreases |tmp|
  {
    if |tmp| > 0 {
      var k := |tmp| - 1;
      GroupedContents(axes, tmp[..k]);
      assert tmp == tmp[..k] + [tmp[k]];
      var g := Grouped(axes, tmp[..k]);
      if tmp[k] !in g {
        assert (g + [tmp[k]])[..|axes|] == g[..|axes|];
      }
    }
  }

  /** The grouped axes are the old axes followed by the first occurrences of new ones. */
  lemma {:induction false} GroupedIsFirstOccurrences<T>(axes: seq<T>, tmp: seq<T>)
    ensures Grouped(axes, tmp) == axes + FirstOccurrences(axes, tmp)
    decreases |tmp|
  {
    if |tmp| > 0 {
      var k := |tmp| - 1;
      GroupedIsFirstOccurrences(axes, tmp[..k]);
      GroupedContents(axes, tmp[..k]);
    }
  }

  /** Grouping keeps an axes list free of duplicates. */
  lemma {:induction false} GroupedDistinct<T>(axes: seq<T>, tmp: seq<T>)
    requires Distinct(axes)
    ensures Distinct(Grouped(axes, tmp))
    decreases |tmp|
  {
    if |tmp| > 0 {
      GroupedDistinct(axes, tmp[..|tmp| - 1]);
    }
  }

  /** Grouping a longer prefix of the particles only extends the axes list. */
  lemma {:induction false} GroupedPrefix<T>(axes: seq<T>, tmp: seq<T>, k: nat)
    requires k <= |tmp|
    ensures |Grouped(axes, tmp[..k])| <= |Grouped(axes, tmp)|
    ensures Grouped(axes, tmp)[..|Grouped(axes, tmp[..k])|] == Grouped(axes, tmp[..k])
    decreases |tmp| - k
  {
    if k < |tmp| {
      GroupedPrefix(axes, tmp, k + 1);
      assert tmp[..k + 1][..k] == tmp[..k];
    } else {
      assert tmp[..k] == tmp;
    }
  }

  // ---------------------------------------------------------------------
  // Step 2: stationary particles

  /**
   * Two samples compare equal as float vectors: a NaN sample equals
   * nothing, not even another NaN sample.
   */
  predicate SameSample<T(==)>(a: Cell<T>, b: Cell<T>) {
    a.Val? && b.Val? && a.v == b.v
  }

  /** No position changes between consecutive time steps. */
  predicate Stationary<T(==)>(traj: seq<Cell<T>>) {
    forall t :: 1 <= t < |traj| ==> SameSample(traj[t - 1], traj[t])
  }

  /**
   * A particle with more than one sample is stationary iff it sits at its
   * first position throughout and that position is a number; a single
   * sample is always stationary, NaN or not.
   */
  lemma {:induction false} StationaryIffConstant<T>(traj: seq<Cell<T>>)
    requires |traj| > 0
    ensures Stationary(traj) <==>
      |traj| == 1 || (traj[0].Val? && forall t :: 0 <= t < |traj| ==> traj[t] == traj[0])
  {
    if Stationary(traj) && |traj| > 1 {
      assert SameSample(traj[0], traj[1]);
      var t := 0;
      while t < |traj|
        invariant 0 <= t <= |traj|
        invariant forall u :: 0 <= u < t ==> traj[u] == traj[0]
      {
        if t > 0 {
          assert SameSample(traj[t - 1], traj[t]);
        }
        t := t + 1;
      }
    }
    if |traj| > 1 && traj[0].Val? && forall t :: 0 <= t < |traj| ==> traj[t] == traj[0] {
      forall t | 1 <= t < |traj|
        ensures SameSample(traj[t - 1], traj[t])
      {
        assert traj[t - 1] == traj[0] && traj[t] == traj[0];
      }
    }
  }

  /** A NaN sample makes a particle of two or more samples dynamic. */
  lemma NaNIsDynamic<T>(traj: seq<Cell<T>>, t: nat)
    requires |traj| >= 2 && t < |traj| && traj[t].NaN?
    ensures !Stationary(traj)
  {
    if t == 0 {
      assert !SameSample(traj[0], traj[1]);
    } else {
      assert !SameSample(traj[t - 1], traj[t]);
    }
  }

  /** The elements of `xs` whose flag is set, in order. */
  function Select<T>(xs: seq<T>, keep: seq<bool>): seq<T>
    requires |xs| == |keep|
    decreases |xs|
  {
    if |xs| == 0 then []
    else
      var k := |xs| - 1;
      Select(xs[..k], keep[..k]) + (if keep[k] then [xs[k]] else [])
  }

  function Negate(keep: seq<bool>): (r: seq<bool>)
    ensures |r| == |keep| && forall i :: 0 <= i < |keep| ==> r[i] == !keep[i]
  {
    seq(|keep|, i requires 0 <= i < |keep| => !keep[i])
  }

  /** Selection by a flag and by its negation partitions the list. */
  lemma {:induction false} SelectPartition<T>(xs: seq<T>, keep: seq<bool>)
    requires |xs| == |keep|
    ensures multiset(Select(xs, keep)) + multiset(Select(xs, Negate(keep))) == multiset(xs)
    decreases |xs|
  {
    if |xs| > 0 {
      var k := |xs| - 1;
      SelectPartition(xs[..k], keep[..k]);
      SelectSplitStep(xs, keep);
      MultisetSnoc(xs);
    }
  }

  lemma MultisetSnoc<T>(xs: seq<T>)
    requires |xs| > 0
    ensures multiset(xs) == multiset(xs[..|xs| - 1]) + multiset{xs[|xs| - 1]}
  {
    assert xs == xs[..|xs| - 1] + [xs[|xs| - 1]];
  }

  /** The last entry goes to exactly one of the two selections. */
  lemma SelectSplitStep<T>(xs: seq<T>, keep: seq<bool>)
    requires |xs| == |keep| > 0
    ensures multiset(Select(xs, keep)) + multiset(Select(xs, Negate(keep))) ==
      multiset(Select(xs[..|xs| - 1], keep[..|xs| - 1])) + multiset(Select(xs[..|xs| - 1], Negate(keep[..|xs| - 1]))) +
      multiset{xs[|xs| - 1]}
  {
    var k := |xs| - 1;
    assert Negate(keep)[..k] == Negate(keep[..k]);
  }

  /** Hence the two selections' lengths add up to the list's. */
  lemma SelectPartitionLength<T>(xs: seq<T>, keep: seq<bool>)
    requires |xs| == |keep|
    ensures |Select(xs, keep)| + |Select(xs, Negate(keep))| == |xs|
  {
    SelectPartition(xs, keep);
    assert |multiset(Select(xs, keep)) + multiset(Select(xs, Negate(keep)))| == |multiset(xs)|;
  }

  /** Selection with the same flags commutes with a pointwise map: the three parallel lists stay aligned. */
  lemma {:induction false} SelectLength<T, U>(xs: seq<T>, ys: seq<U>, keep: seq<bool>)
    requires |xs| == |keep| == |ys|
    ensures |Select(xs, keep)| == |Select(ys, keep)|
    decreases |xs|
  {
    if |xs| > 0 {
      SelectLength(xs[..|xs| - 1], ys[..|ys| - 1], keep[..|keep| - 1]);
    }
  }

  /** The flags of the stationary particles. */
  function StationaryFlags<T(==)>(ps: seq<seq<Cell<T>>>): (r: seq<bool>)
    ensures |r| == |ps| && forall p :: 0 <= p < |ps| ==> (r[p] <==> Stationary(ps[p]))
  {
    seq(|ps|, p requires 0 <= p < |ps| => Stationary(ps[p]))
  }

  /** The first sample of every trajectory. */
  function Firsts<T>(ps: seq<seq<T>>): (r: seq<T>)
    requires forall p :: 0 <= p < |ps| ==> |ps[p]| > 0
    ensures |r| == |ps| && forall p :: 0 <= p < |ps| ==> r[p] == ps[p][0]
  {
    seq(|ps|, p requires 0 <= p < |ps| => ps[p][0])
  }

  /** A selection holds only entries of the list it selects from. */
  lemma {:induction false} SelectSubset<T>(xs: seq<T>, keep: seq<bool>)
    requires |xs| == |keep|
    ensures forall x :: x in Select(xs, keep) ==> x in xs
    decreases |xs|
  {
    if |xs| > 0 {
      var k := |xs| - 1;
      SelectSubset(xs[..k], keep[..k]);
      assert forall x :: x in xs[..k] ==> x in xs;
    }
  }
}
