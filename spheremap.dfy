/**
  The inverse sphere-map projection: an output coordinate (s, t) in the unit
  square becomes a view direction. It inverts the SPHERE_MAP texture
  coordinate generation of section 2.11.4 (Generating Texture Coordinates) of
  the OpenGL 2.1 specification, with t measured downwards (image rows) rather
  than upwards. Points outside the disc are pinned to the -Z pole.

  `sqrtf` is a library call: it is a parameter `sqrt` of which only the
  defining property of a square root is assumed (`IsSqrt`). Arithmetic is
  over the reals.
 */
module Spheremap {
  import opened CubeMapping

  /** A square root on the non-negative reals. */
  ghost predicate IsSqrt(sqrt: real -> real) {
    forall p :: 0.0 <= p ==> 0.0 <= sqrt(p) && sqrt(p) * sqrt(p) == p
  }

  /** `s - s*s + t - t*t`, at most 0.5, reached at the centre of the image. */
  function Quad(s: real, t: real): real {
    s - s * s + t - t * t
  }

  /** The source's `rev_p`: negative outside the inscribed disc. */
  function Radicand(s: real, t: real): real {
    16.0 * Quad(s, t) - 4.0
  }

  function NormSquared(v: Vec3): real {
    v.x * v.x + v.y * v.y + v.z * v.z
  }

  /** The -Z pole, where every point outside the disc (and its rim) goes. */
  const SouthPole := Vec3(0.0, 0.0, -1.0)

  /**
    The projection of the pixel loop, extracted: outside the disc the
    direction is exactly (0, 0, -1); inside (and on) the disc it is a unit
    vector, so it is never zero and face selection never divides by zero.
   */
  function Project(s: real, t: real, sqrt: real -> real): (v: Vec3)
    requires IsSqrt(sqrt)
    ensures Radicand(s, t) < 0.0 ==> v == SouthPole
    ensures NormSquared(v) == 1.0
    ensures !IsZero(v)
  {
    var p := Radicand(s, t);
    if p < 0.0 then
      SouthPole
    else
      var r := sqrt(p);
      UnitLength(s, t, r);
      Vec3(r * (2.0 * s - 1.0), r * -(2.0 * t - 1.0), 8.0 * Quad(s, t) - 3.0)
  }

  /** With r the root of the radicand, the non-degenerate direction has length one. */
  lemma UnitLength(s: real, t: real, r: real)
    requires r * r == Radicand(s, t)
    ensures NormSquared(Vec3(r * (2.0 * s - 1.0), r * -(2.0 * t - 1.0), 8.0 * Quad(s, t) - 3.0)) == 1.0
  {
    var q := Quad(s, t);
    var a, b := 2.0 * s - 1.0, 2.0 * t - 1.0;
    assert a * a + b * b == 2.0 - 4.0 * q;
    calc {
      (r * a) * (r * a) + (r * -b) * (r * -b);
      (r * r) * (a * a + b * b);
      (16.0 * q - 4.0) * (2.0 - 4.0 * q);
    }
    assert (8.0 * q - 3.0) * (8.0 * q - 3.0) == 64.0 * q * q - 48.0 * q + 9.0;
  }

  /** The non-negative root of a square is unique. */
  lemma RootUnique(a: real, b: real)
    requires 0.0 <= a && 0.0 <= b && a * a == b * b
    ensures a == b
  {
    assert (a - b) * (a + b) == 0.0;
    if a + b > 0.0 {
      assert a - b == 0.0;
    }
  }

  /** On the rim of the disc the root is zero and the formula meets the degenerate branch. */
  lemma RimIsSouthPole(s: real, t: real, sqrt: real -> real)
    requires IsSqrt(sqrt)
    requires Radicand(s, t) <= 0.0
    ensures Project(s, t, sqrt) == SouthPole
  {
    if Radicand(s, t) == 0.0 {
      RootUnique(sqrt(0.0), 0.0);
    }
  }

  /**
    OpenGL's SPHERE_MAP generation for a unit direction, with t flipped to
    image-row order: m = 2 * sqrt(x^2 + y^2 + (z+1)^2), s = x/m + 1/2,
    t = -y/m + 1/2. Undefined at the -Z pole, where m is zero; on the unit
    sphere that pole is the only point with z <= -1, so the domain is stated
    as z > -1.
   */
  function SphereMapCoords(v: Vec3, sqrt: real -> real): (st: (real, real))
    requires IsSqrt(sqrt)
    requires NormSquared(v) == 1.0 && v.z > -1.0
  {
    var n := v.x * v.x + v.y * v.y + (v.z + 1.0) * (v.z + 1.0);
    assert n == 2.0 + 2.0 * v.z;
    var m := 2.0 * sqrt(n);
    assert m > 0.0 by { RootPositive(sqrt, n); }
    (v.x / m + 0.5, -v.y / m + 0.5)
  }

  lemma RootPositive(sqrt: real -> real, n: real)
    requires IsSqrt(sqrt) && n > 0.0
    ensures sqrt(n) > 0.0
  {
  }

  /** Projecting a point strictly inside the disc and re-encoding it gives the point back. */
  lemma ProjectThenEncode(s: real, t: real, sqrt: real -> real)
    requires IsSqrt(sqrt)
    requires Radicand(s, t) > 0.0
    ensures Project(s, t, sqrt).z > -1.0
    ensures SphereMapCoords(Project(s, t, sqrt), sqrt) == (s, t)
  {
    var p := Radicand(s, t);
    var r := sqrt(p);
    assert r > 0.0;
    var v := Project(s, t, sqrt);
    var q := Quad(s, t);
    var a, b := 2.0 * s - 1.0, 2.0 * t - 1.0;
    assert v == Vec3(r * a, r * -b, 8.0 * q - 3.0);
    assert v.z > -1.0 by {
      assert 16.0 * q > 4.0;
    }
    var n := v.x * v.x + v.y * v.y + (v.z + 1.0) * (v.z + 1.0);
    assert n == 2.0 + 2.0 * v.z by { UnitLength(s, t, r); }
    assert n == p;
    var m := 2.0 * sqrt(n);
    assert m == 2.0 * r;
    CancelRoot(r, a);
    CancelRoot(r, b);
    assert v.x / m == a / 2.0;
    assert -v.y / m == b / 2.0;
  }

  lemma CancelRoot(r: real, a: real)
    requires r > 0.0
    ensures (r * a) / (2.0 * r) == a / 2.0
    ensures -(r * -a) / (2.0 * r) == a / 2.0
  {
  }

  /** Encoding any unit direction off the -Z pole and projecting it back gives the direction. */
  lemma EncodeThenProject(v: Vec3, sqrt: real -> real)
    requires IsSqrt(sqrt)
    requires NormSquared(v) == 1.0 && v.z > -1.0
    ensures var st := SphereMapCoords(v, sqrt);
      Radicand(st.0, st.1) > 0.0 && Project(st.0, st.1, sqrt) == v
  {
    var st := SphereMapCoords(v, sqrt);
    var n := v.x * v.x + v.y * v.y + (v.z + 1.0) * (v.z + 1.0);
    assert n == 2.0 + 2.0 * v.z;
    var h := sqrt(n);
    assert h > 0.0 && h * h == n;
    assert st == (v.x / (2.0 * h) + 0.5, -v.y / (2.0 * h) + 0.5);
    EncodedRadicand(v, h);
    assert sqrt(Radicand(st.0, st.1)) == h;
    QuotientTimes(v.x, h);
    QuotientTimes(-v.y, h);
  }

  /** The radicand at the encoded coordinates is 2 + 2z, the quantity whose root the encoding took. */
  lemma EncodedRadicand(v: Vec3, h: real)
    requires NormSquared(v) == 1.0 && v.z > -1.0
    requires h > 0.0 && h * h == 2.0 + 2.0 * v.z
    ensures Radicand(v.x / (2.0 * h) + 0.5, -v.y / (2.0 * h) + 0.5) == 2.0 + 2.0 * v.z
    ensures 8.0 * Quad(v.x / (2.0 * h) + 0.5, -v.y / (2.0 * h) + 0.5) - 3.0 == v.z
  {
    var m := 2.0 * h;
    var dx, dy := v.x / m, -v.y / m;
    assert Quad(dx + 0.5, dy + 0.5) == 0.5 - (dx * dx + dy * dy);
    var sum := dx * dx + dy * dy;
    assert dx * m == v.x && dy * m == -v.y;
    assert sum * (m * m) == (dx * m) * (dx * m) + (dy * m) * (dy * m);
    assert sum * (m * m) == (1.0 - v.z) * (1.0 + v.z);
    assert m * m == 8.0 * (1.0 + v.z);
    assert (8.0 * sum - (1.0 - v.z)) * (1.0 + v.z) == 0.0;
    ZeroFactor(8.0 * sum - (1.0 - v.z), 1.0 + v.z);
  }

  /** A product with a non-zero factor is zero only if the other factor is. */
  lemma ZeroFactor(a: real, b: real)
    requires a * b == 0.0 && b != 0.0
    ensures a == 0.0
  {
    if b < 0.0 {
      assert a * (-b) == 0.0;
    }
  }

  lemma QuotientTimes(a: real, h: real)
    requires h > 0.0
    ensures h * (2.0 * (a / (2.0 * h))) == a
  {
  }

  /** The centre of the image looks straight along +Z and reads the centre of that face. */
  lemma CentreProjectsToPosZ(sqrt: real -> real)
    requires IsSqrt(sqrt)
    ensures Project(0.5, 0.5, sqrt) == Vec3(0.0, 0.0, 1.0)
    ensures ComputeTexCoords(Project(0.5, 0.5, sqrt)) == TexCoords(PosZ, 0.5, 0.5)
  {
    assert Radicand(0.5, 0.5) == 4.0;
    RootUnique(sqrt(4.0), 2.0);
    UnitNormalSelectsOwnFace(PosZ);
  }

  /** Points outside the disc sample the centre of the -Z face. */
  lemma DegenerateSamplesNegZCentre(s: real, t: real, sqrt: real -> real)
    requires IsSqrt(sqrt)
    requires Radicand(s, t) < 0.0
    ensures ComputeTexCoords(Project(s, t, sqrt)) == TexCoords(NegZ, 0.5, 0.5)
  {
    UnitNormalSelectsOwnFace(NegZ);
  }

  /** The image corner (0, 0) lies outside the disc. */
  lemma CornerIsDegenerate(sqrt: real -> real)
    requires IsSqrt(sqrt)
    ensures Radicand(0.0, 0.0) < 0.0
    ensures Project(0.0, 0.0, sqrt) == SouthPole
  {
  }
}
