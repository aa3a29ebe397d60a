/**
 * The CPU side of the 3D ribbon renderer: per sample, a mantle of eight
 * vertices around the sample's position (top, first side, bottom, second
 * side, two vertices each), with normals and colours, and their indices in
 * four lists, one per face. Indices count up from `current_index`, an
 * unsigned 32-bit member.
 */
module Ribbon3DRenderer {
  import opened Vectors
  import opened Quaternions
  import opened VertexIndices

  /** The ribbon's thickness, fixed in the renderer. */
  const Height: real := 0.1

  /** Half the thickness, against the normal. */
  function HeightOffset(normal: Vec3): Vec3 {
    Scale(0.5, Scale(Height, Neg(normal)))
  }

  /** The eight vertices of one sample, in the order they are appended. */
  function SampleVertices(position: Vec3, axis: Vec3, normal: Vec3, q: Quat): (r: seq<Vec3>)
    ensures |r| == 8
  {
    var axis1 := QuatRotate(axis, q);
    var axis2 := QuatRotate(Neg(axis), q);
    var h := HeightOffset(normal);
    var v1 := Sub(Add(axis1, position), h);
    var v2 := Sub(Add(axis2, position), h);
    var w1 := Add(v1, Scale(2.0, h));
    var w2 := Add(v2, Scale(2.0, h));
    [v1, v2, v1, w1, w2, w1, v2, w2]
  }

  /**
   * The eight normals of one sample. `normalize` is the value of `normalize()`
   * in the vector library, which is not part of this model.
   */
  function SampleNormals(axis: Vec3, normal: Vec3, q: Quat, normalize: Vec3 -> Vec3): (r: seq<Vec3>)
    ensures |r| == 8
  {
    var side := normalize(QuatRotate(axis, q));
    [normal, normal, side, side, Neg(normal), Neg(normal), Neg(side), Neg(side)]
  }

  /** The vertices of the first `n` samples: entry `i` is entry `i % 8` of sample `i / 8`. */
  function Mantle(n: nat, positions: seq<Vec3>, axis: Vec3, normals: seq<Vec3>, orientations: seq<Quat>)
    : (r: seq<Vec3>)
    requires n <= |positions| && n <= |normals| && n <= |orientations|
    ensures |r| == 8 * n
  {
    seq(8 * n, i requires 0 <= i < 8 * n => SampleVertices(positions[i / 8], axis, normals[i / 8], orientations[i / 8])[i % 8])
  }

  /** The normals of the first `n` samples: entry `i` is entry `i % 8` of sample `i / 8`. */
  function MantleNormals(n: nat, axis: Vec3, normals: seq<Vec3>, orientations: seq<Quat>, normalize: Vec3 -> Vec3)
    : (r: seq<Vec3>)
    requires n <= |normals| && n <= |orientations|
    ensures |r| == 8 * n
  {
    seq(8 * n, i requires 0 <= i < 8 * n => SampleNormals(axis, normals[i / 8], orientations[i / 8], normalize)[i % 8])
  }

  /** Every entry of `cs[..n]`, eight times. */
  function Repeated<C>(cs: seq<C>, n: nat): (r: seq<C>)
    requires n <= |cs|
    ensures |r| == 8 * n
  {
    seq(8 * n, i requires 0 <= i < 8 * n => cs[i / 8])
  }

  lemma DivMod8(t: nat, i: nat)
    requires 8 * t <= i < 8 * t + 8
    ensures i / 8 == t && i % 8 == i - 8 * t
  {
  }

  /** One more sample appends its eight vertices. */
  lemma MantleSnoc(t: nat, positions: seq<Vec3>, axis: Vec3, normals: seq<Vec3>, orientations: seq<Quat>)
    requires t < |positions| && t < |normals| && t < |orientations|
    ensures Mantle(t + 1, positions, axis, normals, orientations) ==
      Mantle(t, positions, axis, normals, orientations) + SampleVertices(positions[t], axis, normals[t], orientations[t])
  {
    var m, m' := Mantle(t, positions, axis, normals, orientations), Mantle(t + 1, positions, axis, normals, orientations);
    var s := SampleVertices(positions[t], axis, normals[t], orientations[t]);
    forall i | 8 * t <= i < 8 * t + 8
      ensures m'[i] == s[i - 8 * t]
    {
      DivMod8(t, i);
    }
    assert m' == m + s;
  }

  /** One more sample appends its eight normals. */
  lemma MantleNormalsSnoc(t: nat, axis: Vec3, normals: seq<Vec3>, orientations: seq<Quat>, normalize: Vec3 -> Vec3)
    requires t < |normals| && t < |orientations|
    ensures MantleNormals(t + 1, axis, normals, orientations, normalize) ==
      MantleNormals(t, axis, normals, orientations, normalize) + SampleNormals(axis, normals[t], orientations[t], normalize)
  {
    var m, m' := MantleNormals(t, axis, normals, orientations, normalize),
      MantleNormals(t + 1, axis, normals, orientations, normalize);
    var s := SampleNormals(axis, normals[t], orientations[t], normalize);
    forall i | 8 * t <= i < 8 * t + 8
      ensures m'[i] == s[i - 8 * t]
    {
      DivMod8(t, i);
    }
    assert m' == m + s;
  }

  /** One more sample appends its colour eight times. */
  lemma RepeatedSnoc<C>(cs: seq<C>, t: nat)
    requires t < |cs|
    ensures Repeated(cs, t + 1) == Repeated(cs, t) + [cs[t], cs[t], cs[t], cs[t], cs[t], cs[t], cs[t], cs[t]]
  {
    var r' := Repeated(cs, t + 1);
    forall i | 8 * t <= i < 8 * t + 8
      ensures r'[i] == cs[t]
    {
      DivMod8(t, i);
    }
    assert r' == Repeated(cs, t) + [cs[t], cs[t], cs[t], cs[t], cs[t], cs[t], cs[t], cs[t]];
  }

  /**
   * Face `k` (0 top, 1 first side, 2 bottom, 3 second side) of the first `n`
   * samples: the counter values 2k and 2k + 1 of every sample's eight.
   */
  function FaceIndices(c0: nat, n: nat, k: nat): (r: seq<int>)
    requires k < 4
    ensures |r| == 2 * n
  {
    if n == 0 then []
    else FaceIndices(c0, n - 1, k) + [Wrap(c0 + 8 * (n - 1) + 2 * k), Wrap(c0 + 8 * (n - 1) + 2 * k + 1)]
  }

  /** Entry `j` of sample `t` in face list `k`: counter value `8t + 2k + j`. */
  lemma {:induction false} FaceAt(c0: nat, n: nat, k: nat, t: nat, j: nat)
    requires k < 4 && t < n && j < 2
    ensures FaceIndices(c0, n, k)[2 * t + j] == Wrap(c0 + 8 * t + 2 * k + j)
  {
    if t < n - 1 {
      FaceAt(c0, n - 1, k, t, j);
    }
  }

  /**
   * The mantle geometry: the top edge spans twice the rotated axis, and each
   * lower vertex lies the ribbon's height from its upper one, against the
   * normal.
   */
  lemma MantleGeometry(position: Vec3, axis: Vec3, normal: Vec3, q: Quat)
    ensures Sub(SampleVertices(position, axis, normal, q)[0], SampleVertices(position, axis, normal, q)[1]) ==
      Scale(2.0, QuatRotate(axis, q))
    ensures SampleVertices(position, axis, normal, q)[3] ==
      Sub(SampleVertices(position, axis, normal, q)[0], Scale(Height, normal))
    ensures SampleVertices(position, axis, normal, q)[7] ==
      Sub(SampleVertices(position, axis, normal, q)[1], Scale(Height, normal))
  {
    QuatRotateNeg(axis, q);
    OffsetTwice(normal);
    EdgeSpan(QuatRotate(axis, q), position, HeightOffset(normal));
  }

  /** The sample's position is the centre of the four distinct mantle vertices. */
  lemma MantleCentered(position: Vec3, axis: Vec3, normal: Vec3, q: Quat)
    ensures Add(Add(SampleVertices(position, axis, normal, q)[0], SampleVertices(position, axis, normal, q)[1]),
                Add(SampleVertices(position, axis, normal, q)[3], SampleVertices(position, axis, normal, q)[7])) ==
      Scale(4.0, position)
  {
    QuatRotateNeg(axis, q);
    Centre(QuatRotate(axis, q), position, HeightOffset(normal));
  }

  /** Twice the height offset is the height against the normal. */
  lemma OffsetTwice(normal: Vec3)
    ensures Scale(2.0, HeightOffset(normal)) == Neg(Scale(Height, normal))
  {
  }

  lemma EdgeSpan(a: Vec3, p: Vec3, h: Vec3)
    ensures Sub(Sub(Add(a, p), h), Sub(Add(Neg(a), p), h)) == Scale(2.0, a)
  {
  }

  lemma Centre(a: Vec3, p: Vec3, h: Vec3)
    ensures Add(Add(Sub(Add(a, p), h), Sub(Add(Neg(a), p), h)),
                Add(Add(Sub(Add(a, p), h), Scale(2.0, h)), Add(Sub(Add(Neg(a), p), h), Scale(2.0, h)))) ==
      Scale(4.0, p)
  {
  }

  /** Entry `j` of sample `t` in the normal list. */
  lemma MantleNormalsAt(n: nat, axis: Vec3, normals: seq<Vec3>, orientations: seq<Quat>, normalize: Vec3 -> Vec3,
                        t: nat, j: nat)
    requires n <= |normals| && n <= |orientations| && t < n && j < 8
    ensures MantleNormals(n, axis, normals, orientations, normalize)[8 * t + j] ==
      SampleNormals(axis, normals[t], orientations[t], normalize)[j]
  {
    DivMod8(t, 8 * t + j);
  }

  /**
   * Opposite faces have opposite normals: the bottom pair against the top
   * pair, the second side against the first.
   */
  lemma MantleNormalsOpposite(n: nat, axis: Vec3, normals: seq<Vec3>, orientations: seq<Quat>,
                              normalize: Vec3 -> Vec3, t: nat, j: nat)
    requires n <= |normals| && n <= |orientations| && t < n && j < 4
    ensures MantleNormals(n, axis, normals, orientations, normalize)[8 * t + 4 + j] ==
      Neg(MantleNormals(n, axis, normals, orientations, normalize)[8 * t + j])
  {
    MantleNormalsAt(n, axis, normals, orientations, normalize, t, j);
    MantleNormalsAt(n, axis, normals, orientations, normalize, t, j + 4);
  }

  /** The top pair carries the sample's normal, the first side `normalize` of the rotated axis. */
  lemma MantleNormalsFront(n: nat, axis: Vec3, normals: seq<Vec3>, orientations: seq<Quat>,
                           normalize: Vec3 -> Vec3, t: nat, j: nat)
    requires n <= |normals| && n <= |orientations| && t < n && j < 4
    ensures MantleNormals(n, axis, normals, orientations, normalize)[8 * t + j] ==
      if j < 2 then normals[t] else normalize(QuatRotate(axis, orientations[t]))
  {
    MantleNormalsAt(n, axis, normals, orientations, normalize, t, j);
  }

  /** Entry `j` of sample `t` in the vertex list. */
  lemma MantleAt(n: nat, positions: seq<Vec3>, axis: Vec3, normals: seq<Vec3>, orientations: seq<Quat>, t: nat, j: nat)
    requires n <= |positions| && n <= |normals| && n <= |orientations| && t < n && j < 8
    ensures Mantle(n, positions, axis, normals, orientations)[8 * t + j] ==
      SampleVertices(positions[t], axis, normals[t], orientations[t])[j]
  {
    DivMod8(t, 8 * t + j);
  }

  /** All eight vertices of sample `t` carry the sample's colour. */
  lemma RepeatedAt<C>(cs: seq<C>, n: nat, t: nat, j: nat)
    requires n <= |cs| && t < n && j < 8
    ensures Repeated(cs, n)[8 * t + j] == cs[t]
  {
    DivMod8(t, 8 * t + j);
  }

  /** The `j`-th new vertex of sample `t` has its counter value in face list `j / 2`. */
  lemma FacesCoverIndices(c0: nat, n: nat, t: nat, j: nat)
    requires t < n && j < 8
    ensures FaceIndices(c0, n, j / 2)[2 * t + j % 2] == Wrap(c0 + 8 * t + j)
  {
    FaceAt(c0, n, j / 2, t, j % 2);
  }

  /** Without wrap-around the four face lists share no index. */
  lemma FacesDisjoint(c0: nat, n: nat, k: nat, k': nat, t: nat, j: nat, t': nat, j': nat)
    requires c0 + 8 * n <= U32 && k < 4 && k' < 4 && k != k' && t < n && t' < n && j < 2 && j' < 2
    ensures FaceIndices(c0, n, k)[2 * t + j] != FaceIndices(c0, n, k')[2 * t' + j']
  {
    FaceAt(c0, n, k, t, j);
    FaceAt(c0, n, k', t', j');
    WrapSmall(c0 + 8 * t + 2 * k + j);
    WrapSmall(c0 + 8 * t' + 2 * k' + j');
    if t < t' {
      assert 8 * t + 8 <= 8 * t';
    } else if t' < t {
      assert 8 * t' + 8 <= 8 * t;
    }
  }

  /**
   * One face's part of a round: two consecutive counter values appended to
   * face list `j`, for sample `t`; `u` is the counter before wrap-around.
   */
  method PushPair(face0: seq<int>, c0: nat, t: nat, j: nat, ghost u: nat, c: nat) returns (face: seq<int>, c': nat)
    requires j < 4 && u == c0 + 8 * t + 2 * j && face0 == FaceIndices(c0, t, j) && c == Wrap(u)
    ensures face == FaceIndices(c0, t + 1, j) && c' == Wrap(u + 2)
  {
    CounterStep(u, 0, c);
    face := face0 + [c];
    c' := Wrap(c + 1);
    CounterStep(u, 1, c');
    face := face + [c'];
    c' := Wrap(c' + 1);
  }

  /**
   * The body of the loop of `create_vertices` for sample `t`, vertices,
   * normals and colours: the lists built so far grow by one sample.
   */
  method AppendSample<C>(vs: seq<Vec3>, ns: seq<Vec3>, cs: seq<C>, positions: seq<Vec3>, axisPositive: Vec3,
                         axisNegative: Vec3, normals: seq<Vec3>, orientations: seq<Quat>, colors: seq<C>,
                         normalize: Vec3 -> Vec3, t: nat, ghost vs0: seq<Vec3>, ghost ns0: seq<Vec3>, ghost cs0: seq<C>)
    returns (vs': seq<Vec3>, ns': seq<Vec3>, cs': seq<C>)
    requires t < |positions| && t < |normals| && t < |orientations| && t < |colors|
    requires axisNegative == Neg(axisPositive)
    requires vs == vs0 + Mantle(t, positions, axisPositive, normals, orientations)
    requires ns == ns0 + MantleNormals(t, axisPositive, normals, orientations, normalize)
    requires cs == cs0 + Repeated(colors, t)
    ensures vs' == vs0 + Mantle(t + 1, positions, axisPositive, normals, orientations)
    ensures ns' == ns0 + MantleNormals(t + 1, axisPositive, normals, orientations, normalize)
    ensures cs' == cs0 + Repeated(colors, t + 1)
  {
    MantleSnoc(t, positions, axisPositive, normals, orientations);
    MantleNormalsSnoc(t, axisPositive, normals, orientations, normalize);
    RepeatedSnoc(colors, t);
    var color := colors[t];
    var axis1 := QuatRotate(axisPositive, orientations[t]);
    var axis2 := QuatRotate(axisNegative, orientations[t]);
    var heightOffset := HeightOffset(normals[t]);
    var v1 := Sub(Add(axis1, positions[t]), heightOffset);
    var v2 := Sub(Add(axis2, positions[t]), heightOffset);
    var v1' := Add(v1, Scale(2.0, heightOffset));
    var v2' := Add(v2, Scale(2.0, heightOffset));
    var normalSide := normalize(axis1);
    vs' := vs + [v1, v2, v1, v1', v2', v1', v2, v2'];
    ns' := ns + [normals[t], normals[t], normalSide, normalSide, Neg(normals[t]), Neg(normals[t]),
                 Neg(normalSide), Neg(normalSide)];
    cs' := cs + [color, color, color, color, color, color, color, color];
  }

  /**
   * The loop of `create_vertices`, on values: per sample the top, first side,
   * bottom and second side pairs, each pair's two indices taken from the
   * counter `c`, which starts at `c0` and wraps at 2^32.
   */
  method AppendMantle<C>(vs0: seq<Vec3>, ns0: seq<Vec3>, cs0: seq<C>, positions: seq<Vec3>, axis: Vec3,
                         normals: seq<Vec3>, orientations: seq<Quat>, colors: seq<C>, normalize: Vec3 -> Vec3, c0: nat)
    returns (vs: seq<Vec3>, ns: seq<Vec3>, cs: seq<C>, top: seq<int>, side1: seq<int>, bottom: seq<int>,
             side2: seq<int>, c: nat)
    requires |normals| >= |positions| && |orientations| >= |positions| && |colors| >= |positions|
    ensures c == Wrap(c0 + 8 * |positions|)
    ensures vs == vs0 + Mantle(|positions|, positions, axis, normals, orientations)
    ensures ns == ns0 + MantleNormals(|positions|, axis, normals, orientations, normalize)
    ensures cs == cs0 + Repeated(colors, |positions|)
    ensures top == FaceIndices(c0, |positions|, 0) && side1 == FaceIndices(c0, |positions|, 1)
    ensures bottom == FaceIndices(c0, |positions|, 2) && side2 == FaceIndices(c0, |positions|, 3)
  {
    var n := |positions|;
    var axisPositive := axis;
    var axisNegative := Neg(axis);
    vs, ns, cs, c := vs0, ns0, cs0, Wrap(c0);
    top, side1, bottom, side2 := [], [], [], [];
    var t := 0;
    ghost var u := c0;
    while t < n
      invariant 0 <= t <= n && u == c0 + 8 * t && c == Wrap(u)
      invariant vs == vs0 + Mantle(t, positions, axis, normals, orientations)
      invariant ns == ns0 + MantleNormals(t, axis, normals, orientations, normalize)
      invariant cs == cs0 + Repeated(colors, t)
      invariant top == FaceIndices(c0, t, 0) && side1 == FaceIndices(c0, t, 1)
      invariant bottom == FaceIndices(c0, t, 2) && side2 == FaceIndices(c0, t, 3)
    {
      vs, ns, cs := AppendSample(vs, ns, cs, positions, axisPositive, axisNegative, normals, orientations, colors,
                                 normalize, t, vs0, ns0, cs0);
      top, side1, bottom, side2, c := PushFaces(top, side1, bottom, side2, c0, t, u, c);
      t, u := t + 1, u + 8;
    }
    assert t == n;
    CounterAt(c0, n, u, c);
  }

  /** The counter after `n` samples of eight vertices each. */
  lemma CounterAt(c0: nat, n: nat, u: nat, c: nat)
    requires u == c0 + 8 * n && c == Wrap(u)
    ensures c == Wrap(c0 + 8 * n)
  {
  }

  /** The eight indices of sample `t`, two onto each face's list. */
  method PushFaces(top0: seq<int>, side10: seq<int>, bottom0: seq<int>, side20: seq<int>, c0: nat, t: nat,
                   ghost u: nat, c: nat)
    returns (top: seq<int>, side1: seq<int>, bottom: seq<int>, side2: seq<int>, c': nat)
    requires u == c0 + 8 * t && c == Wrap(u)
    requires top0 == FaceIndices(c0, t, 0) && side10 == FaceIndices(c0, t, 1)
    requires bottom0 == FaceIndices(c0, t, 2) && side20 == FaceIndices(c0, t, 3)
    ensures top == FaceIndices(c0, t + 1, 0) && side1 == FaceIndices(c0, t + 1, 1)
    ensures bottom == FaceIndices(c0, t + 1, 2) && side2 == FaceIndices(c0, t + 1, 3)
    ensures c' == Wrap(u + 8)
  {
    top, c' := PushPair(top0, c0, t, 0, u, c);
    side1, c' := PushPair(side10, c0, t, 1, u + 2, c');
    bottom, c' := PushPair(bottom0, c0, t, 2, u + 2 + 2, c');
    side2, c' := PushPair(side20, c0, t, 3, u + 2 + 2 + 2, c');
    WrapArgs(u + 2 + 2 + 2 + 2, u + 8);
  }

  class TrajRibbon3DRenderer {
    var initial: bool
    /** The next vertex index; an unsigned 32-bit counter. */
    var currentIndex: nat
    var nrElements: nat
    /** One index list per trajectory and face. */
    var indicesTop: seq<seq<int>>
    var indicesSide1: seq<seq<int>>
    var indicesBottom: seq<seq<int>>
    var indicesSide2: seq<seq<int>>

    /** `reset`: ready for a new set of trajectories. */
    method Reset()
      modifies this
      ensures initial && currentIndex == 0 && nrElements == 0
      ensures indicesTop == [] && indicesSide1 == [] && indicesBottom == [] && indicesSide2 == []
    {
      initial := true;
      currentIndex := 0;
      nrElements := 0;
      indicesTop, indicesSide1, indicesBottom, indicesSide2 := [], [], [], [];
    }

    /**
     * `create_vertices`: appends eight vertices, normals and colours per
     * sample to the output buffers, and one list of indices per face.
     */
    method CreateVertices<C>(verticesOut: seq<Vec3>, colorsOut: seq<C>, normalsOut: seq<Vec3>, positions: seq<Vec3>,
                             mainAxis: Vec3, normals: seq<Vec3>, orientations: seq<Quat>, colors: seq<C>,
                             normalize: Vec3 -> Vec3)
      returns (vs: seq<Vec3>, cs: seq<C>, ns: seq<Vec3>)
      requires |normals| >= |positions| && |orientations| >= |positions| && |colors| >= |positions|
      modifies this`currentIndex, this`indicesTop, this`indicesSide1, this`indicesBottom, this`indicesSide2
      ensures vs == verticesOut + Mantle(|positions|, positions, mainAxis, normals, orientations)
      ensures ns == normalsOut + MantleNormals(|positions|, mainAxis, normals, orientations, normalize)
      ensures cs == colorsOut + Repeated(colors, |positions|)
      ensures currentIndex == Wrap(old(currentIndex) + 8 * |positions|)
      ensures indicesTop == old(indicesTop) + [FaceIndices(old(currentIndex), |positions|, 0)]
      ensures indicesSide1 == old(indicesSide1) + [FaceIndices(old(currentIndex), |positions|, 1)]
      ensures indicesBottom == old(indicesBottom) + [FaceIndices(old(currentIndex), |positions|, 2)]
      ensures indicesSide2 == old(indicesSide2) + [FaceIndices(old(currentIndex), |positions|, 3)]
    {
      var top, side1, bottom, side2, c;
      vs, ns, cs, top, side1, bottom, side2, c :=
        AppendMantle(verticesOut, normalsOut, colorsOut, positions, mainAxis, normals, orientations, colors, normalize,
                     currentIndex);
      currentIndex := c;
      indicesTop := indicesTop + [top];
      indicesSide1 := indicesSide1 + [side1];
      indicesBottom := indicesBottom + [bottom];
      indicesSide2 := indicesSide2 + [side2];
    }
  }
}
