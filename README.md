# SpheremapTool core, modelled in Dafny

SpheremapTool turns a cube map into a sphere map. A cube map is six face images: right, left, top, bottom, front and back. A sphere map is one square image. For each output pixel the tool does four things:

1. It takes one or five jittered samples around the pixel centre.
2. It turns each sample point into a view direction with the inverse sphere-map projection.
3. It picks the cube face of that direction and point-samples that face.
4. It stores the per-channel integer mean of the samples as an opaque colour.

The command line chooses the number of samples, the output size, the output file and the input file names.

The model has five modules:

- `Colors` (`colors.dfy`) packs and unpacks 32-bit RGBA texels.
- `CubeMapping` (`cubemap.dfy`) covers face selection (`computeTexCoords`), the row-major texel index (`readTexel`) and nearest-neighbour lookup (`sampleFace`). The face, s, t and magnitude table is that of section 8.13 (Cube Map Texture Selection) of the OpenGL 4.6 Core Profile specification. That section leaves ties open; here x beats y and z, and y beats z.
- `Spheremap` (`spheremap.dfy`) covers the projection from an output coordinate to a direction. It is the inverse of the SPHERE_MAP texture-coordinate generation of section 2.11.4 (Generating Texture Coordinates) of the OpenGL 2.1 specification, with t running down the image rows.
- `Compositor` (`compositor.dfy`) covers the centre and jitter of each pixel, the sample loop, the channel averaging and the nested pixel loop.
- `CommandLine` (`cli.dfy`) covers the argument loop of `main`.

All floating-point arithmetic is modelled over the reals, so every exactness claim holds for real numbers. `sqrtf` is a parameter `sqrt` that only has to satisfy the defining property of a square root (`Spheremap.IsSqrt`). `std::stoi` is a parameter `parseInt` that returns `None` where `stoi` would throw.

The pixel loop's sampling chain is also a parameter, `sampler`. In the source that chain is projection, then `computeTexCoords`, then `sampleFace`. `Compositor.CubeSampler` is exactly that chain, and `Compositor.Render` runs the loops with it. The loops themselves (`RenderImage`, `RenderRow`, `RenderPixel`, `SumSamples`) are proved for any sampler.

At the image centre, s = t = 0.5, the projection gives the direction (0, 0, 1), because its z component is 8 * 0.5 - 3 = 1. That direction resolves to the +Z face at (0.5, 0.5) (`Spheremap.CentreProjectsToPosZ`).

## Model

| member | source | states |
|---|---|---|
| Colors.MakeColor | src/main.cpp:119-121 | The packed colour has red in byte 0, green in byte 1, blue in byte 2 and 0xFF in the alpha byte. |
| Colors.SplitColor | src/main.cpp:123-127 | Packing the three extracted bytes again gives back the texel with its alpha made opaque, so splitting loses nothing but alpha. |
| Colors.ChannelValue | src/main.cpp:123-127 | A channel read from a texel is a byte value, at most 255. |
| Colors.SplitMakeColor | src/main.cpp:119-127 | Splitting a packed colour returns exactly the bytes it was packed from. |
| Colors.ChannelValueOfMakeColor | src/main.cpp:119-127 | Each channel value of a packed colour is the byte passed in for it. |
| CubeMapping.DominantAxis | src/main.cpp:72-83 | The chosen axis has the largest absolute component, and every earlier axis is strictly smaller. So ties go to x, then y, and the unassigned fall-through never happens. |
| CubeMapping.FaceCode | src/main.cpp:85-88 | The face number is below 6, its half is the dominant axis, and it is odd exactly when the major component is negative. |
| CubeMapping.FaceFromOrdinal | src/main.cpp:100 | The face converted from a number carries that number as its ordinal, in the enumeration order of src/main.cpp:42-47. |
| CubeMapping.FrameInverse | src/main.cpp:90-98 | The per-face switch loses nothing: scaling the normalised face point by the divisor undoes it for the face of the major axis. |
| CubeMapping.MajorMagnitude | src/main.cpp:90-98 | The divisor of the chosen face is the largest absolute component. It is positive for a non-zero direction and bounds both raw face coordinates. |
| CubeMapping.Normalize | src/main.cpp:101-102 | A raw coordinate in [-m, m] maps into [0, 1], and the map is invertible (m * (2r - 1) is the raw value). |
| CubeMapping.ComputeTexCoords | src/main.cpp:71-103 | The face lies on the dominant axis and is negative exactly when the major component is. Both face coordinates lie in [0, 1]. |
| CubeMapping.TexCoordsDetermineDirection | src/main.cpp:71-103 | The face point scaled by the major magnitude gives back the input direction: selection loses only the length. |
| CubeMapping.FaceDirectionRoundTrip | src/main.cpp:71-103 | Every point strictly inside a face selects that face and returns its own (s, t). |
| CubeMapping.UnitNormalSelectsOwnFace | src/main.cpp:71-103 | Each unit axis vector selects its own face at s = t = 0.5. |
| CubeMapping.TieBreaks | src/main.cpp:77-83 | (a, a, 0), (a, 0, a) and (a, a, a) select an X face, and (0, a, a) selects a Y face, with the side given by the sign of a. |
| CubeMapping.RowMajorIndex | src/main.cpp:68 | The index y * width + x of an in-range texel lies inside the width * height buffer. |
| CubeMapping.RowMajorInjective | src/main.cpp:68 | Distinct in-range coordinates have distinct flat indices. |
| CubeMapping.RowMajorSurjective | src/main.cpp:266 | Every slot of a size * size buffer is the index of exactly the in-range pixel (i mod width, i div width). |
| CubeMapping.TruncToInt | src/main.cpp:109-110 | A float-to-int cast truncates toward zero: the magnitude drops by less than one and the sign is kept. |
| CubeMapping.NearestTexel | src/main.cpp:109-110 | For s >= 0 the texel index is in [0, size - 1] and is the cell containing s * size. A coordinate s >= 1 clamps to the last texel. |
| CubeMapping.InCellUnique | src/main.cpp:109-110 | A coordinate reads at most one texel of a row or column: the one whose cell contains s * size, or the last one for s >= 1. |
| CubeMapping.Cubemap.Face | src/main.cpp:62 | The image of every face of a valid cube map has positive dimensions and a buffer of width * height texels. |
| CubeMapping.Cubemap.ReadTexel | src/main.cpp:60-69 | Under the source's assertions (x below the width, y below the height), the index y * width + x is inside the face buffer and the texel is the one stored there. |
| CubeMapping.Cubemap.SampleFace | src/main.cpp:105-112 | The texel returned is the one at y * width + x for the column and row whose cells contain (s * width, t * height). When s or t is at least 1, that is the last column or row. |
| Spheremap.Project | src/main.cpp:238-248 | A negative radicand yields exactly (0, 0, -1). Otherwise the direction has unit length, so it is never zero and face selection never divides by zero. |
| Spheremap.UnitLength | src/main.cpp:245-247 | With r the root of the radicand, the non-degenerate formula has squared length one. |
| Spheremap.RimIsSouthPole | src/main.cpp:238-248 | On the rim of the disc (radicand zero) the formula agrees with the degenerate branch. |
| Spheremap.ProjectThenEncode | src/main.cpp:238-248 | Inside the disc, OpenGL's sphere-map encoding of the projected direction gives back (s, t). |
| Spheremap.EncodeThenProject | src/main.cpp:238-248 | Every unit direction off the -Z pole is reached: encoding it and projecting back gives the same direction. |
| Spheremap.CentreProjectsToPosZ | src/main.cpp:238-252 | The image centre projects to (0, 0, 1), which selects +Z at (0.5, 0.5). |
| Spheremap.DegenerateSamplesNegZCentre | src/main.cpp:239-252 | Every point outside the disc samples the centre of the -Z face. |
| Spheremap.CornerIsDegenerate | src/main.cpp:238-242 | The image corner (0, 0) lies outside the disc and maps to the -Z pole. |
| Compositor.Unlerp | src/main.cpp:115-117 | The centre of an in-range pixel lies strictly inside (0, 1). |
| Compositor.UnlerpInsidePixel | src/main.cpp:115-117 | The centre lies strictly inside the pixel's own cell [val/size, (val+1)/size], within [0, 1]. |
| Compositor.AaPatternShape | src/main.cpp:151-158 | Both accepted tables hold one offset pair per sample (2 entries for 1 sample, 10 for 5). They start at the centre, and every offset is within 3/8 of a pixel. |
| Compositor.Jitter | src/main.cpp:234-235 | A sample coordinate, measured in pixels, is val + 1/2 + offset: the pixel centre moved by the offset. |
| Compositor.JitterInsidePixel | src/main.cpp:234-235 | A sample moved by at most 3/8 of a pixel stays inside its pixel and inside (0, 1). |
| Compositor.SampleAt | src/main.cpp:238-253 | Projecting, selecting a face and point sampling reads the centre of the -Z face for every point outside the disc, and the centre of the +Z face at the image centre. |
| Compositor.CubeSampler | src/main.cpp:238-253 | As a sampler, that chain reads the -Z face centre everywhere outside the disc and the +Z face centre at (0.5, 0.5). |
| Compositor.PixelSamples | src/main.cpp:233-253 | A pixel has one sample colour per sample taken. |
| Compositor.PixelSampleAt | src/main.cpp:233-235 | Sample i is taken at the pixel centre moved by the i-th offset pair times the pixel size. |
| Compositor.AccumulateSample | src/main.cpp:255-259 | Adding the split bytes of a sample extends each channel sum by that sample's channel. |
| Compositor.ChannelSumBound | src/main.cpp:257-259 | A channel sum is at most 255 per sample. |
| Compositor.ChannelSumUniform | src/main.cpp:257-259 | Summing n copies of one colour gives n times its channel value. |
| Compositor.AccumulatorFits | src/main.cpp:231-259 | With at most five samples a 32-bit accumulator holds at most 1275, so it never wraps. |
| Compositor.Average | src/main.cpp:262-264 | The truncated mean of a channel is at most 255, so narrowing it to a byte loses nothing. |
| Compositor.AverageRoundsDown | src/main.cpp:262-264 | The mean m is rounded down: m times the count is at most the sum, and m + 1 times the count exceeds it. |
| Compositor.Blend | src/main.cpp:262-266 | The pixel colour is opaque, and splitting it gives the three channel means. |
| Compositor.BlendUniform | src/main.cpp:255-266 | Averaging copies of one colour gives that colour back, made opaque. |
| Compositor.BlendOfSums | src/main.cpp:262-266 | Dividing the three sums by the sample count and packing them is the blend of the samples. |
| Compositor.SingleSamplePixel | src/main.cpp:228-266 | With the one-sample table a pixel is the colour sampled at its centre, made opaque. |
| Compositor.SingleSampleCubePixel | src/main.cpp:228-266 | With one sample, a pixel is the cube-map texel seen along its centre's projected direction, made opaque. |
| Compositor.SumSamples | src/main.cpp:231-260 | The sample loop's three accumulators are the channel sums over exactly the pixel's samples, in order. |
| Compositor.RenderPixel | src/main.cpp:228-266 | One output pixel is the blend (per-channel truncated mean, opaque) of its samples. |
| Compositor.RenderRow | src/main.cpp:227-267 | The inner loop sets every pixel of row y to its colour and leaves every other row unchanged. |
| Compositor.RenderImage | src/main.cpp:220-268 | The output has size * size slots, and slot y * size + x holds the colour of pixel (x, y). A non-positive size leaves the buffer all zero. |
| Compositor.Render | src/main.cpp:220-268 | The sphere map is the nested loop run with the tool's cube-map sampler. |
| CommandLine.Scan | src/main.cpp:175-207 | If the argument loop starts with a valid sample configuration and runs out of arguments, the configuration is still valid. An early stop is never a conversion. |
| CommandLine.Parse | src/main.cpp:160-218 | Every conversion uses 1 or 5 samples with the matching table and has a non-empty output name. |
| CommandLine.ParseArgs | src/main.cpp:160-218 | The stack-popping loop as written decides exactly what `Parse` decides, for every command line. |
| CommandLine.ReversedTwice | src/main.cpp:173 | Reversing the argument list into a stack and popping it visits the arguments in their original order. |
| CommandLine.PlainPrefix | src/main.cpp:204-206 | Empty or non-dash arguments become positionals in the order given, whatever follows them. |
| CommandLine.PlainArguments | src/main.cpp:204-218 | Plain arguments only convert exactly when there are two. Then every option is at its default and the output is named prefix + "_spheremap.bmp". Any other count exits with 1. |
| CommandLine.DashEndsOptions | src/main.cpp:179-181 | After a lone "-", every remaining argument is appended to the positionals, dashes included, in original order. The options already read are kept. |
| CommandLine.DashAfterPlain | src/main.cpp:175-207 | With only plain arguments before a lone "-", the loop ends with default options and all other arguments as positionals, in order. |
| CommandLine.DashThenTwo | src/main.cpp:179-218 | Two arguments around a lone "-" convert with the default options. |
| CommandLine.StoppingOptions | src/main.cpp:182-203 | These options stop the loop. -h and -help exit 0. Unknown options exit 1. A sample count other than 1 or 5 exits 1. A missing value or a non-number aborts. |
| CommandLine.StopAfterPlain | src/main.cpp:175-207 | An option that stops the loop decides the program's outcome, whatever plain arguments precede it. |
| CommandLine.DefaultOutputName | src/main.cpp:217-218 | Without a "-o" argument the output file is prefix + "_spheremap.bmp". |
| CommandLine.SettingOptions | src/main.cpp:182-196 | "-aa 1" and "-aa 5" select the one-sample and five-sample tables, "-size n" sets the output size and "-o name" sets the output name. Each one changes only its own setting and the loop goes on with the next argument. |
| CommandLine.LastOutputNameWins | src/main.cpp:195-196 | Whatever name was set before, the loop ends with the name given to the last "-o". |
| CommandLine.NamedOutput | src/main.cpp:195-218 | A command line that starts with "-o name" and has no later "-o" converts to the file name. |
| CommandLine.NameKept | src/main.cpp:175-207 | Only "-o" sets the output name: with no "-o" argument the loop keeps the name it started with. |

## Left out

- Image loading and BMP writing go through stb_image and stb_image_write, which are foreign C code. The model's `Cubemap` holds six already-decoded faces, and `Render` returns the buffer instead of writing it.
- A face file that fails to load leaves a null buffer. That is an I/O failure, not logic. `Cubemap.Valid` requires every face to be loaded with `width * height` texels.
- `Image` owns its buffer through a `unique_ptr` with a custom deleter and a move assignment. That ownership code has no behaviour to model. Faces are immutable values (`seq<bv32>`) because the tool never writes to a loaded image.
- `printProgramUsage` and the `std::cerr` messages are plain text output. They appear only as the exit codes they come with.
- CommandLine.ParseArgs: `std::stoi` is the parameter `parseInt`. Its exceptions, and `pop_from` on an empty stack (undefined behaviour in the source), are the `Abort` outcomes.
- IEEE-754 single-precision behaviour is not modelled: rounding, infinities, NaN (which would leave the dominant axis unassigned) and `sqrtf` accuracy. All arithmetic is over the reals.
- Spheremap.SphereMapCoords: the OpenGL encoding is undefined at the -Z pole, and its domain is stated as z > -1 for unit directions. On the unit sphere that is the same set of points.
- Compositor.Unlerp: requires a non-zero size. The source would divide by zero and get an infinity, but it never calls `unlerp` when the size is 0.
- Compositor.Render: does not model 32-bit `int` overflow of `output_size * output_size` or of `y * width + x`. Sizes are unbounded integers.
- Compositor.RenderImage: the pixel loops take the sampling chain as the parameter `sampler`. `Render` supplies the exact chain through `CubeSampler`, so the composition is proved only through that function.
- Nothing in the source is concurrent.
