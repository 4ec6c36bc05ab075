/**
  Cube-map face selection and nearest-neighbour texel lookup.

  A direction picks the face of the axis with the largest absolute component
  (ties go to x, then y, then z) and is projected onto that face as (s,t) in
  [0,1]. The face/sc/tc/ma table is the one of section 8.13 (Cube Map Texture
  Selection) of the OpenGL 4.6 Core Profile specification. All arithmetic is
  over the reals: claims of exactness hold for real numbers, not for IEEE-754
  single precision.
 */
module CubeMapping {
  import opened Colors

  datatype Vec3 = Vec3(x: real, y: real, z: real)

  datatype Axis = X | Y | Z

  /** The six faces, in the order of the source's enumeration (ordinals 0 to 5). */
  datatype CubeFace = PosX | NegX | PosY | NegY | PosZ | NegZ

  /** Result of face selection: the face and the normalised coordinates on it. */
  datatype TexCoords = TexCoords(face: CubeFace, s: real, t: real)

  /** Raw coordinates on a face before normalisation, and the major-axis magnitude. */
  datatype FaceFrame = FaceFrame(sc: real, tc: real, ma: real)

  function Abs(a: real): (r: real)
    ensures 0.0 <= r && (r == a || r == -a)
  {
    if a < 0.0 then -a else a
  }

  function Component(v: Vec3, axis: Axis): real {
    match axis
    case X => v.x
    case Y => v.y
    case Z => v.z
  }

  /** Position of an axis in the source's component array `v[3]`. */
  function AxisIndex(axis: Axis): (i: nat)
    ensures i < 3
  {
    match axis
    case X => 0
    case Y => 1
    case Z => 2
  }

  predicate IsZero(v: Vec3) {
    v.x == 0.0 && v.y == 0.0 && v.z == 0.0
  }

  function MaxAbs(v: Vec3): (m: real)
    ensures Abs(v.x) <= m && Abs(v.y) <= m && Abs(v.z) <= m
    ensures m == Abs(v.x) || m == Abs(v.y) || m == Abs(v.z)
  {
    var xy := if Abs(v.x) >= Abs(v.y) then Abs(v.x) else Abs(v.y);
    if xy >= Abs(v.z) then xy else Abs(v.z)
  }

  function FaceOrdinal(face: CubeFace): (n: nat)
    ensures n < 6
  {
    match face
    case PosX => 0
    case NegX => 1
    case PosY => 2
    case NegY => 3
    case PosZ => 4
    case NegZ => 5
  }

  /** The conversion `CubeFace(n)` from a face number to the enumeration. */
  function FaceFromOrdinal(n: nat): (face: CubeFace)
    requires n < 6
    ensures FaceOrdinal(face) == n
  {
    if n == 0 then PosX
    else if n == 1 then NegX
    else if n == 2 then PosY
    else if n == 3 then NegY
    else if n == 4 then PosZ
    else NegZ
  }

  function FaceAxis(face: CubeFace): Axis {
    match face
    case PosX => X
    case NegX => X
    case PosY => Y
    case NegY => Y
    case PosZ => Z
    case NegZ => Z
  }

  predicate IsNegativeFace(face: CubeFace) {
    face.NegX? || face.NegY? || face.NegZ?
  }

  /**
    The dominant axis: the first of x, y, z whose absolute value is at least
    that of the other two. Over the reals one of the three tests always holds,
    so the source's fall-through with `major_axis` unassigned cannot happen.
   */
  function DominantAxis(v: Vec3): (axis: Axis)
    ensures forall other: Axis :: Abs(Component(v, other)) <= Abs(Component(v, axis))
    ensures forall other: Axis :: AxisIndex(other) < AxisIndex(axis) ==>
              Abs(Component(v, other)) < Abs(Component(v, axis))
  {
    var a0, a1, a2 := Abs(v.x), Abs(v.y), Abs(v.z);
    if a0 >= a1 && a0 >= a2 then X
    else if a1 >= a0 && a1 >= a2 then Y
    else
      assert a2 >= a0 && a2 >= a1;
      Z
  }

  /** The face number `2*axis` for a non-negative major component, `2*axis+1` for a negative one. */
  function FaceCode(v: Vec3): (n: nat)
    ensures n < 6
    ensures n / 2 == AxisIndex(DominantAxis(v))
    ensures n % 2 == 1 <==> Component(v, DominantAxis(v)) < 0.0
  {
    var axis := DominantAxis(v);
    if Component(v, axis) < 0.0 then AxisIndex(axis) * 2 + 1 else AxisIndex(axis) * 2
  }

  /** The per-face switch: raw s, raw t and the major-axis magnitude. */
  function Frame(face: CubeFace, v: Vec3): FaceFrame {
    match face
    case PosX => FaceFrame(-v.z, -v.y, Abs(v.x))
    case NegX => FaceFrame(v.z, -v.y, Abs(v.x))
    case PosY => FaceFrame(v.x, v.z, Abs(v.y))
    case NegY => FaceFrame(v.x, -v.z, Abs(v.y))
    case PosZ => FaceFrame(v.x, -v.y, Abs(v.z))
    case NegZ => FaceFrame(-v.x, -v.y, Abs(v.z))
  }

  /** Maps a raw coordinate in [-ma, ma] to [0, 1]. */
  function Normalize(raw: real, ma: real): (r: real)
    requires ma > 0.0
    requires Abs(raw) <= ma
    ensures 0.0 <= r <= 1.0
    ensures ma * (2.0 * r - 1.0) == raw
  {
    assert -1.0 <= raw / ma <= 1.0 by { DivBounded(raw, ma); }
    MulDiv(ma, raw);
    0.5 * (raw / ma + 1.0)
  }

  lemma DivBounded(a: real, m: real)
    requires m > 0.0 && Abs(a) <= m
    ensures -1.0 <= a / m <= 1.0
  {
    var q := a / m;
    assert q * m == a;
  }

  /**
    Face selection (`Cubemap::computeTexCoords`): the face lies on the dominant
    axis, on its negative side exactly when the major component is negative,
    and both coordinates lie in [0, 1]. The zero vector would divide by zero.
   */
  function ComputeTexCoords(v: Vec3): (r: TexCoords)
    requires !IsZero(v)
    ensures FaceAxis(r.face) == DominantAxis(v)
    ensures IsNegativeFace(r.face) <==> Component(v, DominantAxis(v)) < 0.0
    ensures 0.0 <= r.s <= 1.0 && 0.0 <= r.t <= 1.0
  {
    var face := FaceFromOrdinal(FaceCode(v));
    var f := Frame(face, v);
    MajorMagnitude(v);
    TexCoords(face, Normalize(f.sc, f.ma), Normalize(f.tc, f.ma))
  }

  /**
    The magnitude the face switch divides by is the largest absolute component,
    which is positive for a non-zero direction, and it bounds both raw coordinates.
   */
  lemma MajorMagnitude(v: Vec3)
    requires !IsZero(v)
    ensures var f := Frame(FaceFromOrdinal(FaceCode(v)), v);
      f.ma == MaxAbs(v) && f.ma > 0.0 && Abs(f.sc) <= f.ma && Abs(f.tc) <= f.ma
  {
    var axis := DominantAxis(v);
    assert Abs(Component(v, X)) <= Abs(Component(v, axis));
    assert Abs(Component(v, Y)) <= Abs(Component(v, axis));
    assert Abs(Component(v, Z)) <= Abs(Component(v, axis));
  }

  /** The face coordinates of a non-zero direction. */
  function FaceDirection(face: CubeFace, s: real, t: real): Vec3 {
    var sc, tc := 2.0 * s - 1.0, 2.0 * t - 1.0;
    match face
    case PosX => Vec3(1.0, -tc, -sc)
    case NegX => Vec3(-1.0, -tc, sc)
    case PosY => Vec3(sc, 1.0, tc)
    case NegY => Vec3(sc, -1.0, -tc)
    case PosZ => Vec3(sc, -tc, 1.0)
    case NegZ => Vec3(-sc, -tc, -1.0)
  }

  function Scale(k: real, v: Vec3): Vec3 {
    Vec3(k * v.x, k * v.y, k * v.z)
  }

  /**
    Face selection loses only the length of the direction: scaling the point
    (face, s, t) on the unit cube by the major magnitude gives back the input.
   */
  lemma TexCoordsDetermineDirection(v: Vec3)
    requires !IsZero(v)
    ensures var r := ComputeTexCoords(v);
      v == Scale(MaxAbs(v), FaceDirection(r.face, r.s, r.t))
  {
    var face := FaceFromOrdinal(FaceCode(v));
    var f := Frame(face, v);
    MajorMagnitude(v);
    assert ComputeTexCoords(v) == TexCoords(face, Normalize(f.sc, f.ma), Normalize(f.tc, f.ma));
    assert f.ma == Abs(Component(v, FaceAxis(face)));
    FrameInverse(face, v);
  }

  /** Scaling the normalised face point by the magnitude undoes the per-face switch. */
  lemma FrameInverse(face: CubeFace, v: Vec3)
    requires var f := Frame(face, v); f.ma > 0.0 && Abs(f.sc) <= f.ma && Abs(f.tc) <= f.ma
    requires Component(v, FaceAxis(face)) == if IsNegativeFace(face) then -Frame(face, v).ma else Frame(face, v).ma
    ensures var f := Frame(face, v);
      Scale(f.ma, FaceDirection(face, Normalize(f.sc, f.ma), Normalize(f.tc, f.ma))) == v
  {
    match FaceAxis(face)
    case X => FrameInverseX(face, v);
    case Y => FrameInverseY(face, v);
    case Z => FrameInverseZ(face, v);
  }

  lemma Unnormalize(raw: real, ma: real)
    requires ma > 0.0 && Abs(raw) <= ma
    ensures ma * (2.0 * Normalize(raw, ma) - 1.0) == raw
    ensures ma * -(2.0 * Normalize(raw, ma) - 1.0) == -raw
  {
  }

  lemma FrameInverseX(face: CubeFace, v: Vec3)
    requires face == PosX || face == NegX
    requires var f := Frame(face, v); f.ma > 0.0 && Abs(f.sc) <= f.ma && Abs(f.tc) <= f.ma
    requires Component(v, FaceAxis(face)) == if IsNegativeFace(face) then -Frame(face, v).ma else Frame(face, v).ma
    ensures var f := Frame(face, v);
      Scale(f.ma, FaceDirection(face, Normalize(f.sc, f.ma), Normalize(f.tc, f.ma))) == v
  {
    var f := Frame(face, v);
    Unnormalize(f.sc, f.ma);
    Unnormalize(f.tc, f.ma);
    var sc, tc := 2.0 * Normalize(f.sc, f.ma) - 1.0, 2.0 * Normalize(f.tc, f.ma) - 1.0;
    if face == PosX {
      assert FaceDirection(face, Normalize(f.sc, f.ma), Normalize(f.tc, f.ma)) == Vec3(1.0, -tc, -sc);
    } else {
      assert FaceDirection(face, Normalize(f.sc, f.ma), Normalize(f.tc, f.ma)) == Vec3(-1.0, -tc, sc);
    }
  }

  lemma FrameInverseY(face: CubeFace, v: Vec3)
    requires face == PosY || face == NegY
    requires var f := Frame(face, v); f.ma > 0.0 && Abs(f.sc) <= f.ma && Abs(f.tc) <= f.ma
    requires Component(v, FaceAxis(face)) == if IsNegativeFace(face) then -Frame(face, v).ma else Frame(face, v).ma
    ensures var f := Frame(face, v);
      Scale(f.ma, FaceDirection(face, Normalize(f.sc, f.ma), Normalize(f.tc, f.ma))) == v
  {
    var f := Frame(face, v);
    Unnormalize(f.sc, f.ma);
    Unnormalize(f.tc, f.ma);
    var sc, tc := 2.0 * Normalize(f.sc, f.ma) - 1.0, 2.0 * Normalize(f.tc, f.ma) - 1.0;
    if face == PosY {
      assert FaceDirection(face, Normalize(f.sc, f.ma), Normalize(f.tc, f.ma)) == Vec3(sc, 1.0, tc);
    } else {
      assert FaceDirection(face, Normalize(f.sc, f.ma), Normalize(f.tc, f.ma)) == Vec3(sc, -1.0, -tc);
    }
  }

  lemma FrameInverseZ(face: CubeFace, v: Vec3)
    requires face == PosZ || face == NegZ
    requires var f := Frame(face, v); f.ma > 0.0 && Abs(f.sc) <= f.ma && Abs(f.tc) <= f.ma
    requires Component(v, FaceAxis(face)) == if IsNegativeFace(face) then -Frame(face, v).ma else Frame(face, v).ma
    ensures var f := Frame(face, v);
      Scale(f.ma, FaceDirection(face, Normalize(f.sc, f.ma), Normalize(f.tc, f.ma))) == v
  {
    var f := Frame(face, v);
    Unnormalize(f.sc, f.ma);
    Unnormalize(f.tc, f.ma);
    var sc, tc := 2.0 * Normalize(f.sc, f.ma) - 1.0, 2.0 * Normalize(f.tc, f.ma) - 1.0;
    if face == PosZ {
      assert FaceDirection(face, Normalize(f.sc, f.ma), Normalize(f.tc, f.ma)) == Vec3(sc, -tc, 1.0);
    } else {
      assert FaceDirection(face, Normalize(f.sc, f.ma), Normalize(f.tc, f.ma)) == Vec3(-sc, -tc, -1.0);
    }
  }

  lemma MulDiv(m: real, a: real)
    requires m != 0.0
    ensures m * (a / m) == a
  {
  }

  /**
    Conversely, every point strictly inside a face selects that face and
    returns its own coordinates: on the open face the selection is a bijection.
   */
  lemma FaceDirectionRoundTrip(face: CubeFace, s: real, t: real)
    requires 0.0 < s < 1.0 && 0.0 < t < 1.0
    ensures !IsZero(FaceDirection(face, s, t))
    ensures ComputeTexCoords(FaceDirection(face, s, t)) == TexCoords(face, s, t)
  {
    var v := FaceDirection(face, s, t);
    assert Abs(Component(v, FaceAxis(face))) == 1.0;
    assert forall other: Axis :: other != FaceAxis(face) ==> Abs(Component(v, other)) < 1.0;
  }

  /** The unit vector along the outward normal of a face. */
  function UnitNormal(face: CubeFace): Vec3 {
    match face
    case PosX => Vec3(1.0, 0.0, 0.0)
    case NegX => Vec3(-1.0, 0.0, 0.0)
    case PosY => Vec3(0.0, 1.0, 0.0)
    case NegY => Vec3(0.0, -1.0, 0.0)
    case PosZ => Vec3(0.0, 0.0, 1.0)
    case NegZ => Vec3(0.0, 0.0, -1.0)
  }

  /** Each unit axis vector selects its own face, at the face centre. */
  lemma UnitNormalSelectsOwnFace(face: CubeFace)
    ensures !IsZero(UnitNormal(face))
    ensures ComputeTexCoords(UnitNormal(face)) == TexCoords(face, 0.5, 0.5)
  {
    FaceDirectionRoundTrip(face, 0.5, 0.5);
    assert FaceDirection(face, 0.5, 0.5) == UnitNormal(face);
  }

  /** Ties go to the earlier axis: x beats y and z, y beats z. */
  lemma TieBreaks(a: real)
    requires a != 0.0
    ensures ComputeTexCoords(Vec3(a, a, 0.0)).face == (if a < 0.0 then NegX else PosX)
    ensures ComputeTexCoords(Vec3(a, 0.0, a)).face == (if a < 0.0 then NegX else PosX)
    ensures ComputeTexCoords(Vec3(0.0, a, a)).face == (if a < 0.0 then NegY else PosY)
    ensures ComputeTexCoords(Vec3(a, a, a)).face == (if a < 0.0 then NegX else PosX)
  {
  }

  /**
    A face image as loaded: its dimensions and its pixels in row-major
    order. The tool never writes to a loaded image.
   */
  datatype Image = Image(width: int, height: int, data: seq<bv32>) {
    predicate Valid() {
      width > 0 && height > 0 && |data| == width * height
    }
  }

  /**
    The flat index `y * width + x` of column x, row y in a row-major grid:
    every in-range (x, y) lands inside the `width * height` buffer.
   */
  function RowMajorIndex(width: int, height: int, x: int, y: int): (i: int)
    requires 0 <= x < width && 0 <= y < height
    ensures 0 <= i < width * height
  {
    MulMonotonic(y, height - 1, width);
    y * width + x
  }

  /** Distinct in-range coordinates have distinct flat indices. */
  lemma RowMajorInjective(width: int, height: int, x1: int, y1: int, x2: int, y2: int)
    requires 0 <= x1 < width && 0 <= y1 < height
    requires 0 <= x2 < width && 0 <= y2 < height
    requires RowMajorIndex(width, height, x1, y1) == RowMajorIndex(width, height, x2, y2)
    ensures x1 == x2 && y1 == y2
  {
    if y1 < y2 {
      MulMonotonic(y1 + 1, y2, width);
    } else if y2 < y1 {
      MulMonotonic(y2 + 1, y1, width);
    }
  }

  lemma MulMonotonic(a: int, b: int, c: int)
    requires a <= b && 0 <= c
    ensures a * c <= b * c
  {
  }

  /** Every flat index of the grid is the index of some in-range (x, y). */
  lemma RowMajorSurjective(width: int, height: int, i: int)
    requires width > 0 && 0 <= i < width * height
    ensures 0 <= i % width < width && 0 <= i / width < height
    ensures RowMajorIndex(width, height, i % width, i / width) == i
  {
    var q := i / width;
    assert q * width <= i;
    if q >= height {
      MulMonotonic(height, q, width);
    }
  }

  /** The source's `static_cast<int>` of a float: truncation toward zero. */
  function TruncToInt(r: real): (i: int)
    ensures Abs(i as real) <= Abs(r) < Abs(i as real) + 1.0
    ensures (0 < i ==> 0.0 < r) && (i < 0 ==> r < 0.0)
    ensures 0.0 <= r ==> 0 <= i && i as real <= r < i as real + 1.0
  {
    if r >= 0.0 then r.Floor else -((-r).Floor)
  }

  /**
    Texel i of a row (or column) of `size` texels is the one coordinate s
    reads: its cell [i, i + 1) contains s * size, or, for s >= 1, it is the
    last texel.
   */
  predicate InCell(s: real, size: int, i: int) {
    0 <= i < size &&
    if s < 1.0 then i as real <= s * size as real < i as real + 1.0 else i == size - 1
  }

  /** At most one texel of a row is read for a coordinate. */
  lemma InCellUnique(s: real, size: int, i: int, j: int)
    requires InCell(s, size, i) && InCell(s, size, j)
    ensures i == j
  {
  }

  lemma InCellOnly(s: real, size: int, i: int)
    requires InCell(s, size, i)
    ensures forall j :: InCell(s, size, j) ==> j == i
  {
    forall j | InCell(s, size, j)
      ensures j == i
    {
      InCellUnique(s, size, i, j);
    }
  }

  /**
    Nearest-neighbour texel column (or row) for a coordinate: truncate
    `s * size`, then clamp to the last texel so that s = 1 stays inside.
   */
  function NearestTexel(s: real, size: int): (i: int)
    requires 0.0 <= s && size > 0
    ensures 0 <= i < size
    ensures i as real <= s * size as real
    ensures InCell(s, size, i)
  {
    var p := s * size as real;
    ScaleBounds(s, size as real, p);
    var trunc := TruncToInt(p);
    ClampedTrunc(p, size, trunc);
    if trunc < size - 1 then trunc else size - 1
  }

  /** Clamping the truncation of p >= 0 to the last index gives the cell of p, or the last cell past the end. */
  lemma ClampedTrunc(p: real, size: int, trunc: int)
    requires 0.0 <= p && size > 0
    requires 0 <= trunc && trunc as real <= p < trunc as real + 1.0
    ensures var i := if trunc < size - 1 then trunc else size - 1;
      0 <= i < size && i as real <= p &&
      (p < size as real ==> p < i as real + 1.0) &&
      (p >= size as real ==> i == size - 1)
  {
  }

  /** Where `s * n` lies relative to 0 and n, for s on either side of 1. */
  lemma ScaleBounds(s: real, n: real, p: real)
    requires 0.0 <= s && 0.0 < n && p == s * n
    ensures 0.0 <= p
    ensures s < 1.0 <==> p < n
  {
    if 1.0 <= s {
      assert (s - 1.0) * n >= 0.0;
    } else {
      assert (1.0 - s) * n > 0.0;
    }
  }

  /**
    The six loaded faces in the order right, left, top, bottom, front, back
    (the order of the face ordinals); faces may differ in size.
   */
  datatype Cubemap = Cubemap(faces: seq<Image>) {
    predicate Valid() {
      |faces| == 6 && forall i :: 0 <= i < |faces| ==> faces[i].Valid()
    }

    function Face(face: CubeFace): (img: Image)
      requires Valid()
      ensures img.Valid()
    {
      faces[FaceOrdinal(face)]
    }

    /**
      `Cubemap::readTexel`: the pixel at column x, row y of a face. Its
      preconditions are the source's assertions; under them the row-major
      index stays inside the face's buffer.
     */
    function ReadTexel(face: CubeFace, x: int, y: int): (texel: bv32)
      requires Valid()
      requires 0 <= x < Face(face).width && 0 <= y < Face(face).height
      ensures var img := Face(face); 0 <= y * img.width + x < |img.data| && texel == img.data[y * img.width + x]
    {
      var img := Face(face);
      img.data[RowMajorIndex(img.width, img.height, x, y)]
    }

    /**
      `Cubemap::sampleFace`: point sampling of one face at (s, t); the texel
      read is the one whose cell contains (s * width, t * height), clamped to
      the last row and column.
     */
    function SampleFace(face: CubeFace, s: real, t: real): (texel: bv32)
      requires Valid() && 0.0 <= s && 0.0 <= t
      ensures var img := Face(face);
        forall x, y :: InCell(s, img.width, x) && InCell(t, img.height, y) ==>
          0 <= y * img.width + x < |img.data| && texel == img.data[y * img.width + x]
    {
      var img := Face(face);
      var x, y := NearestTexel(s, img.width), NearestTexel(t, img.height);
      InCellOnly(s, img.width, x);
      InCellOnly(t, img.height, y);
      ReadTexel(face, x, y)
    }
  }
}
