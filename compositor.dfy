/**
  The pixel loop that builds the sphere map: every output pixel (x, y) of a
  `size` x `size` image takes one or five samples around its centre, projects
  each onto a direction, point-samples the cube map there and stores the
  per-channel integer mean as an opaque colour.
 */
module Compositor {
  import opened Colors
  import opened CubeMapping
  import opened Spheremap

  /** The centre of pixel `val` of `max` in normalised [0, 1] coordinates. */
  function Unlerp(val: int, max: int): (r: real)
    requires max != 0
    ensures 0 <= val < max ==> 0.0 < r < 1.0
  {
    var r := (val as real + 0.5) / max as real;
    assert 0 <= val < max ==> 0.0 < r < 1.0 by {
      if 0 <= val < max {
        UnlerpInsidePixel(val, max);
      }
    }
    r
  }

  /** The centre lies strictly inside the pixel's own cell [val/max, (val+1)/max]. */
  lemma UnlerpInsidePixel(val: int, max: int)
    requires 0 <= val < max
    ensures val as real / max as real < (val as real + 0.5) / max as real
    ensures (val as real + 0.5) / max as real < (val as real + 1.0) / max as real
    ensures 0.0 <= val as real / max as real && (val as real + 1.0) / max as real <= 1.0
  {
    var m := max as real;
    DivMonotonic(val as real, val as real + 0.5, m);
    DivMonotonic(val as real + 0.5, val as real + 1.0, m);
    assert (val as real + 1.0) / m <= m / m by {
      if val as real + 1.0 < m {
        DivMonotonic(val as real + 1.0, m, m);
      }
    }
  }

  lemma DivMonotonic(a: real, b: real, m: real)
    requires a < b && m > 0.0
    ensures a / m < b / m
  {
    assert b / m - a / m == (b - a) / m;
  }

  /** The sub-pixel offsets of one sample per pixel: the centre only. */
  const AaPatternNone: seq<real> := [0.0, 0.0]

  /** The sub-pixel offsets, in pixels, of the five-sample pattern: the centre and a rotated grid. */
  const AaPattern5x: seq<real> := [
    0.0, 0.0,
    -0.1875, -0.375,
    0.375, -0.1875,
    0.1875, 0.375,
    -0.375, 0.1875
  ]

  /** The only sample counts the tool accepts, each with its offset table. */
  predicate ValidAaConfig(numSamples: int, pattern: seq<real>) {
    (numSamples == 1 && pattern == AaPatternNone) || (numSamples == 5 && pattern == AaPattern5x)
  }

  /** A pattern holding an (s, t) offset pair for each of at least one sample. */
  predicate PatternFits(numSamples: int, pattern: seq<real>) {
    numSamples >= 1 && |pattern| == 2 * numSamples
  }

  /**
    Every accepted configuration has an (s, t) offset pair for each sample,
    starts at the pixel centre and keeps every offset within 3/8 of a pixel.
   */
  lemma AaPatternShape(numSamples: int, pattern: seq<real>)
    requires ValidAaConfig(numSamples, pattern)
    ensures PatternFits(numSamples, pattern) && numSamples <= 5
    ensures pattern[0] == 0.0 && pattern[1] == 0.0
    ensures forall i :: 0 <= i < |pattern| ==> -0.375 <= pattern[i] <= 0.375
  {
  }

  /**
    The normalised coordinate of a sample: the pixel centre moved by
    `offset` pixels, that is, the point val + 1/2 + offset in pixel units.
   */
  function Jitter(val: int, size: int, offset: real): (r: real)
    requires size != 0
    ensures r * size as real == val as real + 0.5 + offset
  {
    Unlerp(val, size) + offset * (1.0 / size as real)
  }

  /** With offsets of at most 3/8 pixel, every sample stays inside its pixel and inside (0, 1). */
  lemma JitterInsidePixel(val: int, size: int, offset: real)
    requires 0 <= val < size && -0.375 <= offset <= 0.375
    ensures val as real / size as real < Jitter(val, size, offset) < (val as real + 1.0) / size as real
    ensures 0.0 < Jitter(val, size, offset) < 1.0
  {
    var m := size as real;
    UnlerpInsidePixel(val, size);
    assert Jitter(val, size, offset) == (val as real + 0.5 + offset) / m;
    DivMonotonic(val as real, val as real + 0.5 + offset, m);
    DivMonotonic(val as real + 0.5 + offset, val as real + 1.0, m);
  }

  /**
    The cube-map texel seen along the projected direction of the image
    point (s, t). Every point outside the disc reads the centre of the -Z
    face; the image centre reads the centre of the +Z face.
   */
  function SampleAt(cube: Cubemap, s: real, t: real, sqrt: real -> real): (c: bv32)
    requires cube.Valid() && IsSqrt(sqrt)
    ensures Radicand(s, t) < 0.0 ==> c == cube.SampleFace(NegZ, 0.5, 0.5)
    ensures s == 0.5 && t == 0.5 ==> c == cube.SampleFace(PosZ, 0.5, 0.5)
  {
    var tc := ComputeTexCoords(Project(s, t, sqrt));
    assert Radicand(s, t) < 0.0 ==> tc == TexCoords(NegZ, 0.5, 0.5) by {
      if Radicand(s, t) < 0.0 { DegenerateSamplesNegZCentre(s, t, sqrt); }
    }
    assert s == 0.5 && t == 0.5 ==> tc == TexCoords(PosZ, 0.5, 0.5) by {
      if s == 0.5 && t == 0.5 { CentreProjectsToPosZ(sqrt); }
    }
    cube.SampleFace(tc.face, tc.s, tc.t)
  }

  /** How one sample point of the output image is coloured. */
  type Sampler = (real, real) -> bv32

  /**
    The sampler of the tool: project the point, select a face of `cube`,
    point-sample it. It reads the -Z face centre everywhere outside the
    disc and the +Z face centre at the image centre.
   */
  function CubeSampler(cube: Cubemap, sqrt: real -> real): (f: Sampler)
    requires cube.Valid() && IsSqrt(sqrt)
    ensures forall s, t :: Radicand(s, t) < 0.0 ==> f(s, t) == cube.SampleFace(NegZ, 0.5, 0.5)
    ensures f(0.5, 0.5) == cube.SampleFace(PosZ, 0.5, 0.5)
  {
    (s, t) => SampleAt(cube, s, t, sqrt)
  }

  /** The colours of the first k samples of pixel (x, y), in sample order. */
  function PixelSamples(sampler: Sampler, size: int, x: int, y: int, pattern: seq<real>, k: nat): (cs: seq<bv32>)
    requires size != 0 && 2 * k <= |pattern|
    ensures |cs| == k
  {
    if k == 0 then []
    else
      PixelSamples(sampler, size, x, y, pattern, k - 1) +
      [sampler(Jitter(x, size, pattern[2 * k - 2]), Jitter(y, size, pattern[2 * k - 1]))]
  }

  /** Sample i of a pixel is taken at the pixel centre moved by the i-th offset pair. */
  lemma {:induction false} PixelSampleAt(sampler: Sampler, size: int, x: int, y: int, pattern: seq<real>, k: nat, i: nat)
    requires size != 0 && 2 * k <= |pattern| && i < k
    ensures PixelSamples(sampler, size, x, y, pattern, k)[i] ==
      sampler(Jitter(x, size, pattern[2 * i]), Jitter(y, size, pattern[2 * i + 1]))
  {
    if i < k - 1 {
      PixelSampleAt(sampler, size, x, y, pattern, k - 1, i);
    }
  }

  /** The sum of one channel over a list of colours. */
  function ChannelSum(cs: seq<bv32>, ch: Channel): nat {
    if |cs| == 0 then 0 else ChannelSum(cs[..|cs| - 1], ch) + ChannelValue(cs[|cs| - 1], ch)
  }

  lemma ChannelSumSnoc(cs: seq<bv32>, c: bv32, ch: Channel)
    ensures ChannelSum(cs + [c], ch) == ChannelSum(cs, ch) + ChannelValue(c, ch)
  {
    assert (cs + [c])[..|cs|] == cs;
  }

  /** Adding the split bytes of one more colour extends all three channel sums. */
  lemma AccumulateSample(cs: seq<bv32>, c: bv32)
    ensures var rgb := SplitColor(c);
      ChannelSum(cs + [c], Red) == ChannelSum(cs, Red) + rgb.r as nat &&
      ChannelSum(cs + [c], Green) == ChannelSum(cs, Green) + rgb.g as nat &&
      ChannelSum(cs + [c], Blue) == ChannelSum(cs, Blue) + rgb.b as nat
  {
    ChannelSumSnoc(cs, c, Red);
    ChannelSumSnoc(cs, c, Green);
    ChannelSumSnoc(cs, c, Blue);
  }

  /** A channel sum is at most 255 per colour. */
  lemma {:induction false} ChannelSumBound(cs: seq<bv32>, ch: Channel)
    ensures ChannelSum(cs, ch) <= 255 * |cs|
  {
    if |cs| > 0 {
      ChannelSumBound(cs[..|cs| - 1], ch);
    }
  }

  /** Summing one colour repeated n times gives n times its channel value. */
  lemma {:induction false} ChannelSumUniform(cs: seq<bv32>, c: bv32, ch: Channel)
    requires forall i :: 0 <= i < |cs| ==> cs[i] == c
    ensures ChannelSum(cs, ch) == |cs| * ChannelValue(c, ch)
  {
    if |cs| > 0 {
      var n, v := |cs|, ChannelValue(c, ch);
      ChannelSumUniform(cs[..n - 1], c, ch);
      assert ChannelSum(cs, ch) == (n - 1) * v + v;
      MulSucc(n, v);
    }
  }

  lemma MulSucc(n: int, v: int)
    ensures (n - 1) * v + v == n * v
  {
  }

  /** The 32-bit accumulators of the pixel loop never wrap: at most 5 * 255 per channel. */
  lemma AccumulatorFits(numSamples: int, pattern: seq<real>, cs: seq<bv32>, ch: Channel)
    requires ValidAaConfig(numSamples, pattern) && |cs| <= numSamples
    ensures ChannelSum(cs, ch) <= 1275 < 0x1_0000_0000
  {
    ChannelSumBound(cs, ch);
  }

  /**
    The integer mean of one channel. The mean of byte values is a byte, so
    narrowing it to eight bits loses nothing.
   */
  function Average(cs: seq<bv32>, ch: Channel): (m: nat)
    requires |cs| > 0
    ensures m <= 255
  {
    MeanIsByte(cs, ch);
    ChannelSum(cs, ch) / |cs|
  }

  lemma MeanIsByte(cs: seq<bv32>, ch: Channel)
    requires |cs| > 0
    ensures ChannelSum(cs, ch) / |cs| <= 255
  {
    ChannelSumBound(cs, ch);
    DivBound(ChannelSum(cs, ch), |cs|);
  }

  /** The mean is rounded down: the largest m with m samples' worth of channel within the sum. */
  lemma AverageRoundsDown(cs: seq<bv32>, ch: Channel)
    requires |cs| > 0
    ensures Average(cs, ch) * |cs| <= ChannelSum(cs, ch) < (Average(cs, ch) + 1) * |cs|
  {
    DivBracket(ChannelSum(cs, ch), |cs|);
  }

  lemma DivBracket(a: int, n: int)
    requires n > 0
    ensures (a / n) * n <= a < (a / n + 1) * n
  {
    var q, r := a / n, a % n;
    assert a == q * n + r && 0 <= r < n;
    MulSucc(q + 1, n);
  }

  lemma DivBound(sum: nat, n: nat)
    requires n > 0 && sum <= 255 * n
    ensures sum / n <= 255
  {
    assert sum < 256 * n;
  }

  /** The opaque colour whose channels are the per-channel means of the samples. */
  function Blend(cs: seq<bv32>): (c: bv32)
    requires |cs| > 0
    ensures c >> 24 == 0xFF
    ensures SplitColor(c) == Rgb(Average(cs, Red) as bv8, Average(cs, Green) as bv8, Average(cs, Blue) as bv8)
  {
    var r, g, b := Average(cs, Red) as bv8, Average(cs, Green) as bv8, Average(cs, Blue) as bv8;
    SplitMakeColor(r, g, b);
    MakeColor(r, g, b)
  }

  /** Blending copies of one colour gives that colour, made opaque. */
  lemma BlendUniform(cs: seq<bv32>, c: bv32)
    requires |cs| > 0 && forall i :: 0 <= i < |cs| ==> cs[i] == c
    ensures Blend(cs) == c | OpaqueAlpha
  {
    var rgb := SplitColor(c);
    AverageUniform(cs, c, Red);
    AverageUniform(cs, c, Green);
    AverageUniform(cs, c, Blue);
    ByteRoundTrip(rgb.r);
    ByteRoundTrip(rgb.g);
    ByteRoundTrip(rgb.b);
  }

  /** The mean of copies of one colour is that colour's channel value. */
  lemma AverageUniform(cs: seq<bv32>, c: bv32, ch: Channel)
    requires |cs| > 0 && forall i :: 0 <= i < |cs| ==> cs[i] == c
    ensures Average(cs, ch) == ChannelValue(c, ch)
  {
    ChannelSumUniform(cs, c, ch);
    MulDivCancel(|cs|, ChannelValue(c, ch));
  }

  lemma MulDivCancel(n: int, v: int)
    requires n > 0
    ensures (n * v) / n == v
  {
    DivUnique(n * v, n, v);
  }

  /** Integer division is determined by the bracketing multiples of the divisor. */
  lemma DivUnique(a: int, n: int, q: int)
    requires n > 0 && q * n <= a < q * n + n
    ensures a / n == q
  {
    var d, r := a / n, a % n;
    assert a == d * n + r && 0 <= r < n;
    assert (d - q) * n == a - q * n - r;
    SmallMultiple(d - q, n);
  }

  lemma SmallMultiple(k: int, n: int)
    requires n > 0 && -n < k * n < n
    ensures k == 0
  {
    if k >= 1 {
      MulMonotonic(1, k, n);
    } else if k <= -1 {
      MulMonotonic(k, -1, n);
    }
  }

  lemma ByteRoundTrip(b: bv8)
    ensures (b as nat) as bv8 == b
  {
  }

  /** The integer means of given channel sums are bytes, and packing them is the blend. */
  lemma BlendOfSums(cs: seq<bv32>, sumR: nat, sumG: nat, sumB: nat)
    requires |cs| > 0
    requires sumR == ChannelSum(cs, Red) && sumG == ChannelSum(cs, Green) && sumB == ChannelSum(cs, Blue)
    ensures sumR / |cs| <= 255 && sumG / |cs| <= 255 && sumB / |cs| <= 255
    ensures MakeColor((sumR / |cs|) as bv8, (sumG / |cs|) as bv8, (sumB / |cs|) as bv8) == Blend(cs)
  {
    assert sumR / |cs| == Average(cs, Red);
    assert sumG / |cs| == Average(cs, Green);
    assert sumB / |cs| == Average(cs, Blue);
  }

  /** The final colour of output pixel (x, y). */
  function PixelColor(sampler: Sampler, size: int, x: int, y: int, numSamples: int, pattern: seq<real>): bv32
    requires size != 0 && PatternFits(numSamples, pattern)
  {
    Blend(PixelSamples(sampler, size, x, y, pattern, numSamples))
  }

  /**
    With one sample per pixel, a pixel is the colour sampled at its centre,
    made opaque.
   */
  lemma SingleSamplePixel(sampler: Sampler, size: int, x: int, y: int)
    requires size != 0
    ensures PixelColor(sampler, size, x, y, 1, AaPatternNone) ==
      sampler(Unlerp(x, size), Unlerp(y, size)) | OpaqueAlpha
  {
    var cs := PixelSamples(sampler, size, x, y, AaPatternNone, 1);
    PixelSampleAt(sampler, size, x, y, AaPatternNone, 1, 0);
    assert Jitter(x, size, 0.0) == Unlerp(x, size);
    assert Jitter(y, size, 0.0) == Unlerp(y, size);
    BlendUniform(cs, cs[0]);
  }

  /** For the tool's sampler, that colour is the cube-map texel seen along the centre's direction. */
  lemma SingleSampleCubePixel(cube: Cubemap, size: int, x: int, y: int, sqrt: real -> real)
    requires cube.Valid() && IsSqrt(sqrt) && size != 0
    ensures PixelColor(CubeSampler(cube, sqrt), size, x, y, 1, AaPatternNone) ==
      SampleAt(cube, Unlerp(x, size), Unlerp(y, size), sqrt) | OpaqueAlpha
  {
    SingleSamplePixel(CubeSampler(cube, sqrt), size, x, y);
  }

  /**
    The main loop: writes every pixel of a fresh `size * size` row-major
    buffer with its blended colour; when `size` is not positive no pixel is
    visited and the buffer stays zero.
   */
  method Render(cube: Cubemap, size: int, numSamples: int, pattern: seq<real>, sqrt: real -> real)
    returns (out: array<bv32>)
    requires cube.Valid() && IsSqrt(sqrt) && ValidAaConfig(numSamples, pattern)
    ensures fresh(out) && out.Length == size * size
    ensures forall x, y :: 0 <= x < size && 0 <= y < size ==>
      out[RowMajorIndex(size, size, x, y)] == PixelColor(CubeSampler(cube, sqrt), size, x, y, numSamples, pattern)
    ensures size <= 0 ==> forall i :: 0 <= i < out.Length ==> out[i] == 0
  {
    AaPatternShape(numSamples, pattern);
    out := RenderImage(CubeSampler(cube, sqrt), size, numSamples, pattern);
  }

  /** The two pixel loops, for any way of colouring a sample point. */
  method RenderImage(sampler: Sampler, size: int, numSamples: int, pattern: seq<real>)
    returns (out: array<bv32>)
    requires PatternFits(numSamples, pattern)
    ensures fresh(out) && out.Length == size * size
    ensures forall x, y :: 0 <= x < size && 0 <= y < size ==>
      out[RowMajorIndex(size, size, x, y)] == PixelColor(sampler, size, x, y, numSamples, pattern)
    ensures size <= 0 ==> forall i :: 0 <= i < out.Length ==> out[i] == 0
  {
    out := new bv32[size * size](_ => 0);
    var y := 0;
    while y < size
      invariant 0 <= y && (size > 0 ==> y <= size)
      invariant forall xx, yy :: 0 <= xx < size && 0 <= yy < y ==>
        out[RowMajorIndex(size, size, xx, yy)] == PixelColor(sampler, size, xx, yy, numSamples, pattern)
      invariant size <= 0 ==> forall i :: 0 <= i < out.Length ==> out[i] == 0
    {
      RenderRow(sampler, size, y, numSamples, pattern, out);
      y := y + 1;
    }
  }

  /** The inner pixel loop: fills row y and leaves every other row as it was. */
  method RenderRow(sampler: Sampler, size: int, y: int, numSamples: int, pattern: seq<real>, out: array<bv32>)
    requires PatternFits(numSamples, pattern)
    requires 0 <= y < size && out.Length == size * size
    modifies out
    ensures forall xx, yy :: 0 <= xx < size && 0 <= yy < size && yy != y ==>
      out[RowMajorIndex(size, size, xx, yy)] == old(out[RowMajorIndex(size, size, xx, yy)])
    ensures forall xx :: 0 <= xx < size ==>
      out[RowMajorIndex(size, size, xx, y)] == PixelColor(sampler, size, xx, y, numSamples, pattern)
  {
    var x := 0;
    while x < size
      invariant 0 <= x <= size
      invariant forall xx, yy :: 0 <= xx < size && 0 <= yy < size && yy != y ==>
        out[RowMajorIndex(size, size, xx, yy)] == old(out[RowMajorIndex(size, size, xx, yy)])
      invariant forall xx :: 0 <= xx < x ==>
        out[RowMajorIndex(size, size, xx, y)] == PixelColor(sampler, size, xx, y, numSamples, pattern)
    {
      var c := RenderPixel(sampler, size, x, y, numSamples, pattern);
      var i := RowMajorIndex(size, size, x, y);
      forall xx, yy | 0 <= xx < size && 0 <= yy < size && (xx, yy) != (x, y)
        ensures RowMajorIndex(size, size, xx, yy) != i
      {
        if RowMajorIndex(size, size, xx, yy) == i {
          RowMajorInjective(size, size, xx, yy, x, y);
        }
      }
      out[i] := c;
      x := x + 1;
    }
  }

  /** One output pixel: the channel sums of its samples, divided by the sample count. */
  method RenderPixel(sampler: Sampler, size: int, x: int, y: int, numSamples: int, pattern: seq<real>)
    returns (c: bv32)
    requires size != 0 && PatternFits(numSamples, pattern)
    ensures c == PixelColor(sampler, size, x, y, numSamples, pattern)
  {
    var sumR, sumG, sumB := SumSamples(sampler, size, x, y, numSamples, pattern);
    BlendOfSums(PixelSamples(sampler, size, x, y, pattern, numSamples), sumR, sumG, sumB);
    sumR := sumR / numSamples;
    sumG := sumG / numSamples;
    sumB := sumB / numSamples;
    c := MakeColor(sumR as bv8, sumG as bv8, sumB as bv8);
  }

  /** The sample loop of one pixel: the three channel sums over its samples. */
  method SumSamples(sampler: Sampler, size: int, x: int, y: int, numSamples: int, pattern: seq<real>)
    returns (sumR: nat, sumG: nat, sumB: nat)
    requires size != 0 && PatternFits(numSamples, pattern)
    ensures var cs := PixelSamples(sampler, size, x, y, pattern, numSamples);
      sumR == ChannelSum(cs, Red) && sumG == ChannelSum(cs, Green) && sumB == ChannelSum(cs, Blue)
  {
    sumR, sumG, sumB := 0, 0, 0;
    var k := 0;
    ghost var samples: seq<bv32> := [];
    while k < numSamples
      invariant 0 <= k <= numSamples
      invariant samples == PixelSamples(sampler, size, x, y, pattern, k)
      invariant sumR == ChannelSum(samples, Red)
      invariant sumG == ChannelSum(samples, Green)
      invariant sumB == ChannelSum(samples, Blue)
    {
      var s := Jitter(x, size, pattern[2 * k]);
      var t := Jitter(y, size, pattern[2 * k + 1]);
      var sample := sampler(s, t);
      assert PixelSamples(sampler, size, x, y, pattern, k + 1) == samples + [sample];
      var rgb := SplitColor(sample);
      AccumulateSample(samples, sample);
      sumR := sumR + rgb.r as nat;
      sumG := sumG + rgb.g as nat;
      sumB := sumB + rgb.b as nat;
      samples := samples + [sample];
      k := k + 1;
    }
  }
}
