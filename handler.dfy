/**
 * The surface-extraction handler of the metatube export: it collects the
 * vertices the contouring produces, drops any vertex that lies within the
 * tolerance of one already kept in its voxel or the 26 around it, and
 * serialises the kept vertices and the triangles as Wavefront OBJ or
 * Stanford PLY text. Streams are modelled as the sequence of lines written,
 * the end-of-line marker left implicit, and the decimal rendering of
 * coordinates is the parameter `fmt`.
 */
module Handler {
  import opened Vectors
  import opened Voxels
  import opened Text

  /** Three vertex indices (`fvec<unsigned, 3>`). */
  datatype Triangle = Triangle(a: nat, b: nat, c: nat)

  class SurfaceExtractionHandler {
    var points: seq<Vec3>
    var normals: seq<Vec3>
    var triangles: seq<Triangle>
    /** For each voxel, the index of the last point kept in it. */
    var duplicateCheck: map<Voxel, nat>
    var cellsize: real

    /** The grid size of the deduplication, which is also its tolerance. */
    function Grid(): real
      reads this`cellsize
    {
      0.5 * cellsize
    }

    /**
     * Points and normals pair up, and every mapped index names a kept point
     * lying in the voxel it is mapped from.
     */
    predicate Valid()
      reads this
    {
      cellsize > 0.0 && |normals| == |points| &&
      forall v :: v in duplicateCheck ==>
        duplicateCheck[v] < |points| && VoxelOf(points[duplicateCheck[v]], Grid()) == v
    }

    constructor(cs: real)
      requires cs > 0.0
      ensures Valid()
      ensures points == [] && normals == [] && triangles == [] && duplicateCheck == map[] && cellsize == cs
    {
      points, normals, triangles := [], [], [];
      duplicateCheck := map[];
      cellsize := cs;
    }

    /** The point mapped from voxel `v` is within `tol` of `p`. */
    predicate Hit(p: Vec3, v: Voxel, tol: real)
      reads this
    {
      v in duplicateCheck && duplicateCheck[v] < |points| &&
      SqrLen(Sub(p, points[duplicateCheck[v]])) < tol * tol
    }

    /** Some point mapped from the voxel of `p` or one of its 26 neighbours is within `tol`. */
    predicate Duplicate(p: Vec3, tol: real)
      requires tol > 0.0
      reads this
    {
      exists dx, dy, dz :: -1 <= dx <= 1 && -1 <= dy <= 1 && -1 <= dz <= 1 &&
        Hit(p, Shift(VoxelOf(p, tol), dx, dy, dz), tol)
    }

    /** `(a, b, e)` comes before `(dz, dy, dx)` in the order the 26-neighbourhood is visited. */
    static predicate Before(a: int, b: int, e: int, dz: int, dy: int, dx: int) {
      a < dz || (a == dz && (b < dy || (b == dy && e < dx)))
    }

    /** No cell visited before `(dz, dy, dx)` holds a point within `tol`. */
    predicate ClearBefore(p: Vec3, tol: real, c: Voxel, dz: int, dy: int, dx: int)
      reads this
    {
      forall a, b, e :: -1 <= a <= 1 && -1 <= b <= 1 && -1 <= e <= 1 && Before(a, b, e, dz, dy, dx) ==>
        !Hit(p, Shift(c, e, b, a), tol)
    }

    /**
     * `check_duplicate`: the centre voxel first, then its 26 neighbours in
     * z, y, x order; the centre voxel is returned when no cell holds a point
     * within the tolerance.
     */
    method CheckDuplicate(point: Vec3, tolerance: real) returns (cell: Option<Voxel>)
      requires tolerance > 0.0
      ensures cell.Some? <==> !Duplicate(point, tolerance)
      ensures cell.Some? ==> cell.value == VoxelOf(point, tolerance)
    {
      var tolSqr := tolerance * tolerance;
      var center := VoxelOf(point, tolerance);
      if center in duplicateCheck && duplicateCheck[center] < |points|
         && SqrLen(Sub(point, points[duplicateCheck[center]])) < tolSqr {
        assert Hit(point, Shift(center, 0, 0, 0), tolerance);
        return None;
      }
      assert !Hit(point, Shift(center, 0, 0, 0), tolerance);
      var dz := -1;
      while dz < 2
        invariant -1 <= dz <= 2
        invariant ClearBefore(point, tolerance, center, dz, -1, -1)
      {
        var dy := -1;
        while dy < 2
          invariant -1 <= dy <= 2
          invariant ClearBefore(point, tolerance, center, dz, dy, -1)
        {
          var dx := -1;
          while dx < 2
            invariant -1 <= dx <= 2
            invariant ClearBefore(point, tolerance, center, dz, dy, dx)
          {
            if dx != 0 || dy != 0 || dz != 0 {
              var check := Voxel(center.x + dx, center.y + dy, center.z + dz);
              if check in duplicateCheck && duplicateCheck[check] < |points|
                 && SqrLen(Sub(point, points[duplicateCheck[check]])) < tolSqr {
                assert Hit(point, Shift(center, dx, dy, dz), tolerance);
                return None;
              }
            }
            dx := dx + 1;
          }
          dy := dy + 1;
        }
        dz := dz + 1;
      }
      cell := Some(center);
    }

    /** Some point the map knows of lies within `tol` of `p`. */
    predicate NearKnown(p: Vec3, tol: real)
      reads this
    {
      exists v :: v in duplicateCheck && Hit(p, v, tol)
    }

    /** A known point within the grid size of `p` lies in one of the 27 cells searched. */
    lemma NearKnownIsDuplicate(p: Vec3, v: Voxel)
      requires Valid() && Hit(p, v, Grid())
      ensures Duplicate(p, Grid())
    {
      var g := Grid();
      NearPointsAdjacent(p, points[duplicateCheck[v]], g);
      var vp := VoxelOf(p, g);
      assert Hit(p, Shift(vp, v.x - vp.x, v.y - vp.y, v.z - vp.z), g);
    }

    /**
     * With the map's invariant, the 27-cell search is exact: it reports a
     * duplicate iff some point the map knows of lies within the grid size.
     */
    lemma DuplicateIffNearKnown(p: Vec3)
      requires Valid()
      ensures Duplicate(p, Grid()) <==> NearKnown(p, Grid())
    {
      if v :| v in duplicateCheck && Hit(p, v, Grid()) {
        NearKnownIsDuplicate(p, v);
      }
    }

    /**
     * `new_vertex`: keeps the vertex unless it duplicates a kept one, and
     * then maps its voxel to it.
     */
    method NewVertex(loc: Vec3, nrm: Vec3)
      requires Valid()
      modifies this`points, this`normals, this`duplicateCheck
      ensures Valid()
      ensures old(Duplicate(loc, Grid())) ==>
        points == old(points) && normals == old(normals) && duplicateCheck == old(duplicateCheck)
      ensures !old(Duplicate(loc, Grid())) ==>
        points == old(points) + [loc] && normals == old(normals) + [nrm] &&
        duplicateCheck == old(duplicateCheck)[VoxelOf(loc, Grid()) := |old(points)|]
      ensures !old(Duplicate(loc, Grid())) ==> !old(NearKnown(loc, Grid()))
    {
      var posEpsilon := 0.5 * cellsize;
      DuplicateIffNearKnown(loc);
      var cell := CheckDuplicate(loc, posEpsilon);
      if cell.Some? {
        points := points + [loc];
        normals := normals + [nrm];
        duplicateCheck := duplicateCheck[cell.value := |points| - 1];
      }
    }

    // -------------------------------------------------------------------
    // Serialisers

    /** `write_obj`: a `v` line per point, then a `vn` line per normal. */
    method WriteObj(fmt: real -> string) returns (lines: seq<string>)
      requires |normals| == |points|
      ensures |lines| == 2 * |points|
      ensures forall i :: 0 <= i < |points| ==> lines[i] == XyzLine("v ", points[i], fmt)
      ensures forall i :: 0 <= i < |points| ==> lines[|points| + i] == XyzLine("vn ", normals[i], fmt)
    {
      lines := [];
      var i := 0;
      while i < |points|
        invariant 0 <= i <= |points| && |lines| == i
        invariant forall k :: 0 <= k < i ==> lines[k] == XyzLine("v ", points[k], fmt)
      {
        lines := lines + [XyzLine("v ", points[i], fmt)];
        i := i + 1;
      }
      i := 0;
      while i < |points|
        invariant 0 <= i <= |points| && |lines| == |points| + i
        invariant forall k :: 0 <= k < |points| ==> lines[k] == XyzLine("v ", points[k], fmt)
        invariant forall k :: 0 <= k < i ==> lines[|points| + k] == XyzLine("vn ", normals[k], fmt)
      {
        lines := lines + [XyzLine("vn ", normals[i], fmt)];
        i := i + 1;
      }
    }

    /**
     * `write_ply`: the header with the vertex and face counts, one line of
     * position and normal per point, then one `3 a b c ` line per triangle.
     */
    method WritePly(fmt: real -> string) returns (lines: seq<string>)
      requires |normals| == |points|
      ensures lines == PlyHeader(|points|, |triangles|) + VertexLines(points, normals, fmt, |points|) +
                       FaceLines(triangles, |triangles|)
    {
      lines := PlyHeader(|points|, |triangles|);
      ghost var header := lines;
      var i := 0;
      while i < |points|
        invariant 0 <= i <= |points|
        invariant lines == header + VertexLines(points, normals, fmt, i)
      {
        VertexLinesSnoc(points, normals, fmt, i);
        lines := lines + [VertexLine(points[i], normals[i], fmt)];
        i := i + 1;
      }
      ghost var withVertices := lines;
      var j := 0;
      while j < |triangles|
        invariant 0 <= j <= |triangles|
        invariant lines == withVertices + FaceLines(triangles, j)
      {
        FaceLinesSnoc(triangles, j);
        lines := lines + [FaceLine(triangles[j])];
        j := j + 1;
      }
    }
  }

  /** The vertex lines of the first `n` points. */
  function VertexLines(points: seq<Vec3>, normals: seq<Vec3>, fmt: real -> string, n: nat): (r: seq<string>)
    requires n <= |points| == |normals|
    ensures |r| == n
  {
    seq(n, i requires 0 <= i < n => VertexLine(points[i], normals[i], fmt))
  }

  /** The face lines of the first `n` triangles. */
  function FaceLines(triangles: seq<Triangle>, n: nat): (r: seq<string>)
    requires n <= |triangles|
    ensures |r| == n
  {
    seq(n, j requires 0 <= j < n => FaceLine(triangles[j]))
  }

  lemma VertexLinesSnoc(points: seq<Vec3>, normals: seq<Vec3>, fmt: real -> string, n: nat)
    requires n < |points| == |normals|
    ensures VertexLines(points, normals, fmt, n + 1) ==
      VertexLines(points, normals, fmt, n) + [VertexLine(points[n], normals[n], fmt)]
  {
    var r, r' := VertexLines(points, normals, fmt, n), VertexLines(points, normals, fmt, n + 1);
    assert forall i :: 0 <= i < n ==> r'[i] == r[i];
    assert r' == r + [r'[n]];
  }

  lemma FaceLinesSnoc(triangles: seq<Triangle>, n: nat)
    requires n < |triangles|
    ensures FaceLines(triangles, n + 1) == FaceLines(triangles, n) + [FaceLine(triangles[n])]
  {
    var r, r' := FaceLines(triangles, n), FaceLines(triangles, n + 1);
    assert forall j :: 0 <= j < n ==> r'[j] == r[j];
    assert r' == r + [r'[n]];
  }

  /**
   * Line `12 + i` of a PLY file holds point `i`, and line `12 + |points| + j`
   * the face record of triangle `j`.
   */
  lemma PlyLayout(points: seq<Vec3>, normals: seq<Vec3>, triangles: seq<Triangle>, fmt: real -> string,
                  lines: seq<string>)
    requires |normals| == |points|
    requires lines == PlyHeader(|points|, |triangles|) + VertexLines(points, normals, fmt, |points|) +
                      FaceLines(triangles, |triangles|)
    ensures |lines| == 12 + |points| + |triangles|
    ensures forall i :: 0 <= i < |points| ==> lines[12 + i] == VertexLine(points[i], normals[i], fmt)
    ensures forall j {:trigger triangles[j]} :: 0 <= j < |triangles| ==> lines[12 + |points| + j] == FaceLine(triangles[j])
  {
  }

  // ---------------------------------------------------------------------
  // Line formats

  function XyzLine(tag: string, p: Vec3, fmt: real -> string): string {
    tag + fmt(p.x) + " " + fmt(p.y) + " " + fmt(p.z)
  }

  const VertexCountTag: string := "element vertex "
  const FaceCountTag: string := "element face "

  /** The PLY header: ASCII format, float position and normal per vertex, integer index lists per face. */
  function PlyHeader(vertexCount: nat, faceCount: nat): (h: seq<string>)
    ensures |h| == 12
  {
    [ "ply",
      "format ascii 1.0",
      VertexCountTag + NatToString(vertexCount),
      "property float x",
      "property float y",
      "property float z",
      "property float nx",
      "property float ny",
      "property float nz",
      FaceCountTag + NatToString(faceCount),
      "property list uchar int vertex_indices",
      "end_header" ]
  }

  function VertexLine(p: Vec3, n: Vec3, fmt: real -> string): string {
    fmt(p.x) + " " + fmt(p.y) + " " + fmt(p.z) + " " + fmt(n.x) + " " + fmt(n.y) + " " + fmt(n.z)
  }

  /** A face record: the vertex count 3, then the three indices, each followed by a space. */
  function FaceLine(t: Triangle): string {
    "3 " + NatToString(t.a) + " " + NatToString(t.b) + " " + NatToString(t.c) + " "
  }

  // ---------------------------------------------------------------------
  // Reading the records back

  /** The count on a header line that starts with `tag`. */
  function HeaderCount(line: string, tag: string): (r: Option<nat>)
    ensures r.Some? ==> tag <= line
  {
    if tag <= line then
      match ParseNat(line[|tag|..])
      case Some((n, rest)) => if rest == "" then Some(n) else None
      case None => None
    else None
  }

  /** Reads a number followed by one space. */
  function ReadField(s: string): Option<(nat, string)> {
    match ParseNat(s)
    case Some((n, rest)) => if |rest| > 0 && rest[0] == ' ' then Some((n, rest[1..])) else None
    case None => None
  }

  /** Reads a face record `3 a b c `. */
  function ParseFace(s: string): Option<Triangle> {
    if "3 " <= s then
      match ReadField(s[2..])
      case None => None
      case Some((a, s1)) =>
        match ReadField(s1)
        case None => None
        case Some((b, s2)) =>
          match ReadField(s2)
          case None => None
          case Some((c, s3)) => if s3 == "" then Some(Triangle(a, b, c)) else None
    else None
  }

  /** The header's count lines read back as the vertex and face counts. */
  lemma PlyHeaderCounts(vertexCount: nat, faceCount: nat)
    ensures HeaderCount(PlyHeader(vertexCount, faceCount)[2], VertexCountTag) == Some(vertexCount)
    ensures HeaderCount(PlyHeader(vertexCount, faceCount)[9], FaceCountTag) == Some(faceCount)
  {
    var h := PlyHeader(vertexCount, faceCount);
    NatToStringRoundTrip(vertexCount, "");
    NatToStringRoundTrip(faceCount, "");
    assert h[2][|VertexCountTag|..] == NatToString(vertexCount) + "";
    assert h[9][|FaceCountTag|..] == NatToString(faceCount) + "";
  }

  lemma ReadFieldOf(n: nat, rest: string)
    ensures ReadField(NatToString(n) + " " + rest) == Some((n, rest))
  {
    assert NatToString(n) + " " + rest == NatToString(n) + (" " + rest);
    NatToStringRoundTrip(n, " " + rest);
    assert (" " + rest)[1..] == rest;
  }

  /** A face record reads back as the triangle it was written from. */
  lemma FaceLineRoundTrip(t: Triangle)
    ensures ParseFace(FaceLine(t)) == Some(t)
  {
    var sa, sb, sc := NatToString(t.a), NatToString(t.b), NatToString(t.c);
    var tail2 := sc + " " + "";
    var tail1 := sb + " " + tail2;
    var body := sa + " " + tail1;
    assert FaceLine(t) == "3 " + body;
    assert FaceLine(t)[2..] == body;
    ReadFieldOf(t.a, tail1);
    ReadFieldOf(t.b, tail2);
    ReadFieldOf(t.c, "");
  }
}
