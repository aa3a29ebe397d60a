/**
 * The wire box of `create_box_vertices`: eight corners appended to a vertex
 * buffer and a line-strip index list with primitive restarts. The index
 * list is the same whatever the vertex buffer held before.
 */
module BoxVertices {
  import opened Vectors

  /** Corner `k` of the box: bottom face (y = min) for k < 4, top face for k >= 4. */
  function Corner(lo: Vec3, hi: Vec3, k: nat): (c: Vec3)
    requires k < 8
    ensures c.y == (if k < 4 then lo.y else hi.y)
    ensures c.x == (if k % 4 == 1 || k % 4 == 2 then hi.x else lo.x)
    ensures c.z == (if k % 4 == 0 || k % 4 == 1 then hi.z else lo.z)
  {
    match k % 4
    case 0 => Vec3(lo.x, if k < 4 then lo.y else hi.y, hi.z)
    case 1 => Vec3(hi.x, if k < 4 then lo.y else hi.y, hi.z)
    case 2 => Vec3(hi.x, if k < 4 then lo.y else hi.y, lo.z)
    case 3 => Vec3(lo.x, if k < 4 then lo.y else hi.y, lo.z)
  }

  /** The index list: bottom loop, top loop, then the four uprights, each followed by `restart`. */
  function BoxIndices(restart: int): (r: seq<int>)
    ensures |r| == 24
  {
    [0, 1, 2, 3, 0, restart] +
    [4, 5, 6, 7, 4, restart] +
    [0, 4, restart] +
    [1, 5, restart] +
    [2, 6, restart] +
    [3, 7, restart]
  }

  /** The positions of the restart markers in the index list. */
  predicate IsRestartSlot(j: int) {
    j == 5 || j == 11 || j == 14 || j == 17 || j == 20 || j == 23
  }

  /**
   * `create_box_vertices`: appends the eight corners and the 24 indices,
   * leaving what the buffers held before untouched.
   */
  method CreateBoxVertices(vertices: seq<Vec3>, indices: seq<int>, lo: Vec3, hi: Vec3, restart: int)
    returns (vs: seq<Vec3>, ix: seq<int>)
    ensures |vs| == |vertices| + 8 && vs[..|vertices|] == vertices
    ensures forall k :: 0 <= k < 8 ==> vs[|vertices| + k] == Corner(lo, hi, k)
    ensures ix == indices + BoxIndices(restart)
    ensures forall j :: 0 <= j < 24 ==>
      if IsRestartSlot(j) then ix[|indices| + j] == restart else 0 <= ix[|indices| + j] < 8
  {
    vs := vertices;
    vs := vs + [Vec3(lo.x, lo.y, hi.z)];
    vs := vs + [Vec3(hi.x, lo.y, hi.z)];
    vs := vs + [Vec3(hi.x, lo.y, lo.z)];
    vs := vs + [Vec3(lo.x, lo.y, lo.z)];
    vs := vs + [Vec3(lo.x, hi.y, hi.z)];
    vs := vs + [Vec3(hi.x, hi.y, hi.z)];
    vs := vs + [Vec3(hi.x, hi.y, lo.z)];
    vs := vs + [Vec3(lo.x, hi.y, lo.z)];
    ix := indices;
    ix := ix + [0, 1, 2, 3, 0, restart];
    ix := ix + [4, 5, 6, 7, 4, restart];
    ix := ix + [0, 4, restart];
    ix := ix + [1, 5, restart];
    ix := ix + [2, 6, restart];
    ix := ix + [3, 7, restart];
    assert ix[|indices|..] == BoxIndices(restart);
    forall j | 0 <= j < 24
      ensures if IsRestartSlot(j) then ix[|indices| + j] == restart else 0 <= ix[|indices| + j] < 8
    {
      assert ix[|indices| + j] == BoxIndices(restart)[j];
    }
  }

  /** Exactly six of the 24 indices are restart markers when the marker is not a corner index. */
  lemma RestartCount(restart: int)
    requires restart < 0 || restart >= 8
    ensures multiset(BoxIndices(restart))[restart] == 6
  {
  }

  /** Corners `k` and `k + 4` differ only in y, from the bottom face to the top face. */
  lemma UprightsDifferInY(lo: Vec3, hi: Vec3, k: nat)
    requires k < 4
    ensures Corner(lo, hi, k).x == Corner(lo, hi, k + 4).x && Corner(lo, hi, k).z == Corner(lo, hi, k + 4).z
    ensures Corner(lo, hi, k).y == lo.y && Corner(lo, hi, k + 4).y == hi.y
  {
  }

  /** Corners `a` and `b` differ in exactly one coordinate: they span an edge of the box. */
  predicate Adjacent(lo: Vec3, hi: Vec3, a: nat, b: nat)
    requires a < 8 && b < 8
  {
    var p, q := Corner(lo, hi, a), Corner(lo, hi, b);
    (if p.x != q.x then 1 else 0) + (if p.y != q.y then 1 else 0) + (if p.z != q.z then 1 else 0) == 1
  }

  /** Consecutive indices in the list, between two restarts. */
  predicate Joined(restart: int, a: nat, b: nat) {
    exists j :: 0 <= j < 23 && !IsRestartSlot(j) && !IsRestartSlot(j + 1) &&
      ((BoxIndices(restart)[j] == a && BoxIndices(restart)[j + 1] == b) ||
       (BoxIndices(restart)[j] == b && BoxIndices(restart)[j + 1] == a))
  }

  /** Which of the two values each coordinate of corner `k` takes. */
  predicate HighX(k: nat) { k % 4 == 1 || k % 4 == 2 }
  predicate HighY(k: nat) { k >= 4 }
  predicate HighZ(k: nat) { k % 4 == 0 || k % 4 == 1 }

  /** In a box of positive extent, corners are adjacent iff exactly one of their coordinate choices differs. */
  lemma AdjacentByChoices(lo: Vec3, hi: Vec3, a: nat, b: nat)
    requires lo.x < hi.x && lo.y < hi.y && lo.z < hi.z && a < 8 && b < 8
    ensures Adjacent(lo, hi, a, b) <==>
      (if HighX(a) != HighX(b) then 1 else 0) + (if HighY(a) != HighY(b) then 1 else 0) +
      (if HighZ(a) != HighZ(b) then 1 else 0) == 1
  {
  }

  /** In a box of positive extent every segment of the strips joins adjacent corners. */
  lemma SegmentsAreEdges(lo: Vec3, hi: Vec3, restart: int, j: nat)
    requires lo.x < hi.x && lo.y < hi.y && lo.z < hi.z
    requires j < 23 && !IsRestartSlot(j) && !IsRestartSlot(j + 1)
    ensures 0 <= BoxIndices(restart)[j] < 8 && 0 <= BoxIndices(restart)[j + 1] < 8
    ensures Adjacent(lo, hi, BoxIndices(restart)[j], BoxIndices(restart)[j + 1])
  {
    AdjacentByChoices(lo, hi, BoxIndices(restart)[j], BoxIndices(restart)[j + 1]);
  }

  /** In a box of positive extent every edge is drawn by some segment of the strips. */
  lemma EdgesAreDrawn(lo: Vec3, hi: Vec3, restart: int, a: nat, b: nat)
    requires lo.x < hi.x && lo.y < hi.y && lo.z < hi.z
    requires a < b < 8 && Adjacent(lo, hi, a, b)
    ensures Joined(restart, a, b)
  {
    AdjacentByChoices(lo, hi, a, b);
    if b == a + 4 {
      JoinedAt(restart, a, b, 12 + 3 * a);
    } else if a == 0 && b == 3 {
      JoinedAt(restart, a, b, 3);
    } else if a == 4 && b == 7 {
      JoinedAt(restart, a, b, 9);
    } else if a < 4 {
      JoinedAt(restart, a, b, a);
    } else {
      JoinedAt(restart, a, b, a + 2);
    }
  }

  /** Segment `j` of the strips joins `a` and `b`, in either order. */
  lemma JoinedAt(restart: int, a: nat, b: nat, j: nat)
    requires j < 23 && !IsRestartSlot(j) && !IsRestartSlot(j + 1)
    requires (BoxIndices(restart)[j] == a && BoxIndices(restart)[j + 1] == b) ||
             (BoxIndices(restart)[j] == b && BoxIndices(restart)[j + 1] == a)
    ensures Joined(restart, a, b)
  {
  }
}
