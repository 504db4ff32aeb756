/**
  Point lights and their decoding from the packed light texture: light `i` owns column
  `i` of a texture two texels high, row 0 holding `(position.xyz, radius)` and row 1
  holding `(color.rgb, unused)`.
*/
module Lights {
  import opened Texture
  import opened Extract

  datatype Vec3 = Vec3(x: real, y: real, z: real)

  datatype Light = Light(position: Vec3, radius: real, color: Vec3)

  /** Row coordinates of the two direct light fetches. */
  const PositionRow: real := 0.3
  const ColorRow: real := 0.6

  /** The light texture is two texels high: eight floats per light. */
  const LightTextureHeight: nat := 2

  /** The two direct fetches select row 0 and row 1 of a texture two texels high. */
  lemma FixedRows()
    ensures NearestIndex(PositionRow, LightTextureHeight) == 0
    ensures NearestIndex(ColorRow, LightTextureHeight) == 1
  {
  }

  /**
    `UnpackLight(index)`: both direct fetches use column coordinate
    `float(index + 1) / float(numLights + 1)`; position is `v1.xyz`, color is `v2.rgb`,
    and the radius is re-extracted as float 3 of record `index` of a `numLights x 2`
    texture.
  */
  function UnpackLight(lightBuffer: Grid, numLights: int, index: int): (light: Light)
    requires IsTexture(lightBuffer) && numLights > 0
  {
    var u := Coord(index, numLights);
    var v1 := Sample(lightBuffer, u, PositionRow);
    var v2 := Sample(lightBuffer, u, ColorRow);
    var radius := ExtractFloat(lightBuffer, numLights, LightTextureHeight, index, 3);
    Light(Vec3(v1.x, v1.y, v1.z), radius.value, Vec3(v2.x, v2.y, v2.z))
  }

  /**
    On a light texture two texels high, the radius that `ExtractFloat` re-extracts is
    the `w` channel of the very texel the position fetch `v1` reads, for every index
    and whatever width the texture has.
  */
  lemma RadiusIsPositionTexelW(lightBuffer: Grid, numLights: int, index: int)
    requires IsTexture(lightBuffer) && Height(lightBuffer) == LightTextureHeight && numLights > 0
    ensures UnpackLight(lightBuffer, numLights, index).radius
         == Sample(lightBuffer, Coord(index, numLights), PositionRow).w
  {
    assert Coord(3 / 4, LightTextureHeight) == 1.0 / 3.0;
    assert NearestIndex(1.0 / 3.0, LightTextureHeight) == NearestIndex(PositionRow, LightTextureHeight) == 0;
  }

  /** The eight floats the upstream encoder writes for one light; the last one is unused. */
  function LightRecord(light: Light): (rec: seq<real>)
    ensures |rec| == 4 * LightTextureHeight
  {
    [light.position.x, light.position.y, light.position.z, light.radius,
     light.color.x, light.color.y, light.color.z, 0.0]
  }

  /** The light texture that holds `lights`, one column per light. */
  function LightBuffer(lights: seq<Light>): (g: Grid)
    requires |lights| > 0
    ensures IsTexture(g) && Width(g) == |lights| && Height(g) == LightTextureHeight
  {
    Pack(seq(|lights|, i requires 0 <= i < |lights| => LightRecord(lights[i])), LightTextureHeight)
  }

  /** Round trip: decoding slot `i` of the texture that encodes `lights` gives back `lights[i]`. */
  lemma UnpackLightRoundTrip(lights: seq<Light>, i: int)
    requires 0 <= i < |lights|
    ensures UnpackLight(LightBuffer(lights), |lights|, i) == lights[i]
  {
    var records := seq(|lights|, k requires 0 <= k < |lights| => LightRecord(lights[k]));
    var g := LightBuffer(lights);
    assert IsRecordArray(records, LightTextureHeight);
    ExtractRoundTrip(records, LightTextureHeight, i, 3);
    CoordInsideTexel(i, |lights|);
    FixedRows();
    assert Sample(g, Coord(i, |lights|), PositionRow) == TexelAt(records[i], 0);
    assert Sample(g, Coord(i, |lights|), ColorRow) == TexelAt(records[i], 4);
  }
}
