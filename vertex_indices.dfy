/**
 * The vertex indices generated for uploading all trajectories at once:
 * one unsigned 32-bit counter runs over every sample of every trajectory.
 */
module VertexIndices {
  const U32: nat := 0x1_0000_0000

  /** Unsigned 32-bit wrap-around. */
  function Wrap(x: int): (r: nat)
    ensures r < U32
  {
    x % U32
  }

  /** `indices_strip` of a trajectory of `n` samples whose first vertex is `base`. */
  function Strip(base: nat, n: nat): (r: seq<int>)
    ensures |r| == n
  {
    seq(n, t requires 0 <= t < n => Wrap(base + t))
  }

  /** `indices`: the pair (i, i + 1) per sample, and (i, i) for the last. */
  function Lines(base: nat, n: nat): (r: seq<int>)
    ensures |r| == 2 * n
  {
    seq(2 * n, k requires 0 <= k < 2 * n => Wrap(base + k / 2 + (if k % 2 == 1 && k / 2 < n - 1 then 1 else 0)))
  }

  /** The first vertex of trajectory `p`: the samples of all earlier trajectories. */
  function Offset(lens: seq<nat>, p: nat): nat
    requires p <= |lens|
  {
    if p == 0 then 0 else Offset(lens, p - 1) + lens[p - 1]
  }

  /** Each line joins a strip vertex to the next one, and the last degenerates to a point. */
  lemma LinesFollowStrip(base: nat, n: nat, t: nat)
    requires t < n
    ensures Lines(base, n)[2 * t] == Strip(base, n)[t]
    ensures t < n - 1 ==> Lines(base, n)[2 * t + 1] == Strip(base, n)[t + 1]
    ensures t == n - 1 ==> Lines(base, n)[2 * t + 1] == Strip(base, n)[t]
  {
    assert (2 * t) / 2 == t && (2 * t) % 2 == 0;
    assert (2 * t + 1) / 2 == t && (2 * t + 1) % 2 == 1;
  }

  lemma {:induction false} OffsetMonotone(lens: seq<nat>, p: nat, q: nat)
    requires p <= q <= |lens|
    ensures Offset(lens, p) <= Offset(lens, q)
    decreases q - p
  {
    if p < q {
      OffsetMonotone(lens, p, q - 1);
    }
  }

  /**
   * While the total sample count fits below the restart index, the strips
   * of different trajectories are disjoint, ascend with the trajectory
   * order, and never produce the restart index 0xFFFFFFFF.
   */
  lemma StripsOrdered(lens: seq<nat>, p: nat, q: nat, s: nat, u: nat)
    requires p < q < |lens| && s < lens[p] && u < lens[q]
    requires Offset(lens, |lens|) < U32
    ensures Strip(Offset(lens, p), lens[p])[s] < Strip(Offset(lens, q), lens[q])[u] < U32 - 1
  {
    var op, oq := Offset(lens, p), Offset(lens, q);
    OffsetMonotone(lens, p + 1, q);
    OffsetMonotone(lens, q + 1, |lens|);
    assert op + s < oq + u < U32 - 1;
    StripSmall(op, lens[p], s);
    StripSmall(oq, lens[q], u);
  }

  /** Below 2^32 a strip index is the plain sum. */
  lemma StripSmall(base: nat, n: nat, s: nat)
    requires s < n && base + s < U32
    ensures Strip(base, n)[s] == base + s
  {
    WrapSmall(base + s);
  }

  lemma WrapSmall(a: nat)
    requires a < U32
    ensures Wrap(a) == a
  {
  }

  /** One increment of an unsigned 32-bit counter that started at `c0`. */
  lemma CounterStep(c0: nat, k: nat, c: nat)
    requires c == Wrap(c0 + k)
    ensures Wrap(c + 1) == Wrap(c0 + k + 1)
  {
  }

  /** Equal arguments give equal wrapped counters. */
  lemma WrapArgs(a: int, b: int)
    requires a == b
    ensures Wrap(a) == Wrap(b)
  {
  }

  /** Advancing a wrapped counter by one wraps the advanced value. */
  lemma Tick(u: int, c: nat)
    requires c == Wrap(u)
    ensures Wrap(c + 1) == Wrap(u + 1)
  {
  }
}
