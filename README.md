# Clustered-deferred shading: the data decoding scheme

This project models the discrete core of the clustered-deferred fragment shader
`src/shaders/deferred.frag.glsl.js` and proves its properties in Dafny.
The shader reads two RGBA textures as flat data buffers:

- a **light texture**, one column per light and two texels high, holding position, radius and colour;
- a **cluster texture**, one column per cluster cell, holding a light count followed by light ids.

The model covers:

- **Texel float extractor** (`Extract.ExtractFloat`). Record `index` and float `component` select a texel column, a texel row (`component / 4`) and a channel. The column coordinate is `(index + 1) / (width + 1)` and the row coordinate is `(pixel + 1) / (height + 1)`.
- **Light decoder** (`Lights.UnpackLight`). Two direct fetches use fixed row coordinates 0.3 and 0.6. The radius is re-extracted through the extractor as float 3 of the light's record.
- **Cluster index**. `Cluster.ClusterIndex` linearises `(sliceX, sliceY, sliceZ)` to `sliceX + sliceY * xSlices + sliceZ * (xSlices * ySlices)`.
- **Cluster light-list loop** of `main` (`Deferred.ShadePixel`). It reads the count from float 0. It then reads light ids from floats 1, 2, ..., stopping with `break` once past the count and in any case while `lightIndex < clusterTextureHeight * 4 - 1`. It adds each decoded light's contribution to the colour, then adds the ambient term `albedo * 0.025`.
- **Falloff** (`Falloff.CubicGaussian`). A piecewise cubic over the reals that is exactly 0 from `h = 2` onward (distance equal to radius).

Modelling choices:

- Shader floats are `real`, and `pow(x, 3.0)` is `x * x * x`.
- `int(x)` is truncation toward zero (`Extract.Trunc`). GLSL `int / int` is truncating division (`Extract.TruncDiv`).
- `texture2D` is replaced by a nearest-texel lookup with clamp-to-edge (`Texture.Sample`). The sampler setup is not part of the shader. WebGL 1 requires clamp-to-edge for non-power-of-two textures.
- A texture is a grid `seq<seq<Texel>>`, indexed by row and then column.
- To state round trips, the upstream encoders' layout is modelled as `Texture.Pack`: record `i` fills column `i`, with floats `4p .. 4p+3` in row `p`. `Lights.LightBuffer` and `Deferred.ClusterRecord` build on it.
- `ExtractFloat` falls off its end without returning when the channel is not 0..3. The model returns `None` there.
- The per-light Blinn-Phong term is a parameter `shade: Light -> Vec3` of `ShadePixel`.
- The host's `numLights`, `clusterTextureWidth` and `clusterTextureHeight` are positive integer parameters. The slice counts are integers.

A cluster record holds `4 * clusterTextureHeight` floats, so after the count there is room for `4 * clusterTextureHeight - 1` light ids. The loop condition `lightIndex < clusterTextureHeight * 4 - 1` reads at most `4 * clusterTextureHeight - 2` of them. The model follows the code: a cluster filled to capacity never has its last light read (`Deferred.FullClusterLastLightUnread`).

## Model

| member | source | states |
|---|---|---|
| `Extract.ExtractFloat` | src/shaders/deferred.frag.glsl.js:31-46 | a value is returned exactly when the channel `component - pixel * 4` is one of 0..3: for every `component >= 0`, and for negative components only at multiples of 4 |
| `Extract.PixelChannelSplit` | src/shaders/deferred.frag.glsl.js:33-36 | for `component >= 0` the row is `component / 4`, the channel `component % 4` lies in 0..3, and `pixel * 4 + channel == component`; for negative components the channel lies in -3..0 |
| `Extract.ExtractFloatAtOffset` | src/shaders/deferred.frag.glsl.js:31-45 | for every texture called with its true size, and every `0 <= index < width`, `0 <= component < 4 * height`, the result is channel `component % 4` of the texel in row `component / 4`, column `index`: the texture read as a flat array of records with offset `component` |
| `Extract.TruncDiv` | src/shaders/deferred.frag.glsl.js:33 | `component / 4` truncates toward zero: the quotient has the sign of the dividend and `q * 4` is the nearest multiple of 4 toward zero from it |
| `Extract.Channel` | src/shaders/deferred.frag.glsl.js:37-45 | `texel[c]` is defined exactly for `0 <= c < 4` |
| `Texture.NearestIndex` | src/shaders/deferred.frag.glsl.js:35 | the texel index picked along an axis lies inside the axis; `NearestIndexInside` adds that inside the texture the cell `[i, i + 1)` contains `c * size` |
| `Texture.Sample` | src/shaders/deferred.frag.glsl.js:35 | no ensures of its own: the assumed `texture2D` of lines 35, 51 and 52; `CoordInsideTexel` and `ExtractFloatAtOffset` state which texel it returns for the shader's coordinates |
| `Texture.CoordInsideTexel` | src/shaders/deferred.frag.glsl.js:32-34 | for `0 <= i < n`, `(i + 1) / (n + 1)` satisfies `i < u * n < i + 1`, so the nearest texel is texel `i` (column for `index`, row for `pixel`) |
| `Extract.ExtractRoundTrip` | src/shaders/deferred.frag.glsl.js:31-45 | on a texture packed from `W` records of `4 * H` floats, extracting `(index, component)` for `index < W`, `component < 4 * H` returns exactly the float stored there |
| `Extract.Trunc` | src/shaders/deferred.frag.glsl.js:99-108 | `int(x)` truncates toward zero: `0 <= n <= x < n + 1` for `x >= 0`, `n - 1 < x <= n <= 0` for `x < 0` |
| `Extract.TruncOfInteger` | src/shaders/deferred.frag.glsl.js:99-108 | a float holding an exact integer converts back to that integer |
| `Lights.UnpackLight` | src/shaders/deferred.frag.glsl.js:48-62 | no ensures of its own (see "## Left out"): what it decodes is stated by `FixedRows`, `RadiusIsPositionTexelW` and `UnpackLightRoundTrip` |
| `Lights.FixedRows` | src/shaders/deferred.frag.glsl.js:51-52 | in a texture two texels high, row coordinate 0.3 selects row 0 (position) and 0.6 selects row 1 (colour) |
| `Lights.RadiusIsPositionTexelW` | src/shaders/deferred.frag.glsl.js:50-58 | in a light texture two texels high, the radius re-extracted as float 3 of record `index` is the `w` channel of the very texel `v1` the position fetch reads, for every index |
| `Lights.UnpackLightRoundTrip` | src/shaders/deferred.frag.glsl.js:48-62 | decoding slot `i` of the light texture that encodes `lights` gives back `lights[i]`: position, radius and colour |
| `Falloff.CubicGaussian` | src/shaders/deferred.frag.glsl.js:65-73 | the falloff is exactly 0 for all `h >= 2`, equals 1 at `h = 0`, and lies in `[0, 1]` for `h >= 0` |
| `Falloff.BranchesAgree` | src/shaders/deferred.frag.glsl.js:66-71 | the two polynomial pieces both equal 0.25 at `h = 1`, and the far piece reaches 0 at `h = 2` |
| `Falloff.CubicGaussianNonIncreasing` | src/shaders/deferred.frag.glsl.js:65-73 | for `0 <= a <= b`, `cubicGaussian(b) <= cubicGaussian(a)` |
| `Falloff.LightIntensity` | src/shaders/deferred.frag.glsl.js:120 | `cubicGaussian(2 * distance / radius)` lies in `[0, 1]`, is 1 at distance 0 and exactly 0 at and beyond distance `radius` |
| `Cluster.ClusterIndex` | src/shaders/deferred.frag.glsl.js:98 | no ensures of its own: the linearisation is characterised by `ClusterIndexInRange`, `ClusterCellOfIndex`, `IndexOfClusterCell` and `ClusterIndexInjective` |
| `Cluster.ClusterIndexInRange` | src/shaders/deferred.frag.glsl.js:98 | for a cell inside the `xSlices x ySlices x zSlices` volume the index lies in `[0, xSlices * ySlices * zSlices)` |
| `Cluster.ClusterCellOfIndex` | src/shaders/deferred.frag.glsl.js:98 | the cell is recovered from its index by `%` and `/`, for every cell of the volume |
| `Cluster.IndexOfClusterCell` | src/shaders/deferred.frag.glsl.js:98 | every non-negative index is the linearisation of the cell recovered from it |
| `Cluster.ClusterIndexInjective` | src/shaders/deferred.frag.glsl.js:98 | distinct cells of the volume have distinct indices |
| `Deferred.LightCount` | src/shaders/deferred.frag.glsl.js:99 | no ensures of its own: `int()` of float 0 of the cluster's record; `PackedClusterRead` states that it is the number of lights the record holds |
| `Deferred.LightIdAt` | src/shaders/deferred.frag.glsl.js:108 | no ensures of its own: `int()` of float `lightIndex` of the cluster's record; `PackedClusterRead` states that float `k + 1` yields the `k`-th id |
| `Deferred.ShadePixel` | src/shaders/deferred.frag.glsl.js:98-127 | the loop reads exactly `min(max(count, 0), 4 * height - 2)` light ids, the `k`-th from float `k + 1` of the cluster's record; when `count <= 0` it reads none and the colour is exactly the ambient term `albedo * 0.025`; otherwise the colour is the in-order sum of the decoded lights' contributions plus the ambient term |
| `Deferred.ReadsStayInRecord` | src/shaders/deferred.frag.glsl.js:101-108 | no float the loop reads is float 0, past the count, or at or beyond `4 * height - 1`, so every read stays in the record's `height` texel rows |
| `Deferred.PackedClusterRead` | src/shaders/deferred.frag.glsl.js:99-108 | on a cluster texture packed from records `[count, id1, id2, ...]`, the count read is the number of lights and float `k + 1` yields the `k`-th id |
| `Deferred.FullClusterLastLightUnread` | src/shaders/deferred.frag.glsl.js:101-108 | a cluster holding `4 * height - 1` lights, the record's full capacity, has its count read correctly but only `4 * height - 2` of its ids read |

## Left out

- Blinn-Phong shading (lines 112-119, 121 and the product on line 123) uses `normalize`, `dot`, `pow(..., 64.0)` and `distance`. These are floating-point vector numerics. The contribution of one light is the parameter `shade` of `ShadePixel`. `LightIntensity` models line 120 on its own.
- The float slice computation (lines 89-95) depends on depth, frustum extents and `int()` truncation of floats that may be negative. `sliceX`, `sliceY` and `sliceZ` are integer inputs. `int(u_xSlices)` and `int(u_xSlices * u_ySlices)` are taken as the integer slice counts.
- The G-buffer fetches (lines 77-85) and the `gl_FragColor` output with alpha 1 (line 129) are not modelled.
- `texture2D` is a GPU call. It is replaced by the assumed nearest, clamp-to-edge lookup `Texture.Sample`. Linear filtering and other wrap modes are not modelled.
- Floating-point rounding is not modelled. Floats are exact reals, so `float(index + 1) / float(width + 1)`, the sums on lines 123 and 127 and their order are exact.
- GLSL ES 1.00 does not fix integer division for negative operands. Truncation toward zero is assumed.
- The JavaScript template wrapper and the `${params.*}` interpolation are not modelled. `numLights`, `clusterTextureWidth` and `clusterTextureHeight` are parameters required to be positive.
- Integers are unbounded. The shader declares no `int` precision, so its ints are mediump, whose guaranteed range in GLSL ES 1.00 is only (-2^10, 2^10) with overflow undefined. The model assumes no overflow in `index + 1`, `pixel + 1`, `textureWidth + 1` or the index arithmetic of line 98.
- Per-pixel GPU parallelism is not modelled. `ShadePixel` is one pixel's evaluation.
- Lights.UnpackLight: its own contract is empty. What it computes is stated by `RadiusIsPositionTexelW`, `FixedRows` and `UnpackLightRoundTrip`.
- Falloff.LightIntensity: requires `radius > 0`. The shader divides by the radius, and a zero radius yields an infinity or NaN there, which reals cannot express.
- The unused fourth float of a light's colour texel is 0 in `Lights.LightRecord`. No property depends on it.
