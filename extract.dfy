/**
  GLSL integer arithmetic and the texel float extractor `ExtractFloat`, which reads a
  texture as an array of records of `4 * textureHeight` floats each.
*/
module Extract {
  import opened Options
  import opened Texture

  /**
    GLSL `int / int` for a positive divisor, truncating toward zero (as C does): the
    quotient has the sign of `a`, and `q * b` is the multiple of `b` nearest zero that
    does not pass `a`.
  */
  function TruncDiv(a: int, b: int): (q: int)
    requires b > 0
    ensures 0 <= a ==> 0 <= q && q * b <= a < q * b + b
    ensures a < 0 ==> q <= 0 && q * b - b < a <= q * b
  {
    if a >= 0 then a / b else -((-a) / b)
  }

  /** GLSL `int(x)`: conversion of a float to an integer, truncating toward zero. */
  function Trunc(x: real): (n: int)
    ensures 0.0 <= x ==> 0 <= n && n as real <= x < n as real + 1.0
    ensures x < 0.0 ==> n <= 0 && n as real - 1.0 < x <= n as real
  {
    if x >= 0.0 then x.Floor else -((-x).Floor)
  }

  /** A float holding an exact integer converts back to that integer. */
  lemma TruncOfInteger(n: int)
    ensures Trunc(n as real) == n
  {
  }

  /** Channel `c` of a texel: `texel[c]`, defined for `0 <= c < 4`. */
  function Channel(t: Texel, c: int): (r: Option<real>)
    ensures r.Some? <==> 0 <= c < 4
  {
    if c == 0 then Some(t.x)
    else if c == 1 then Some(t.y)
    else if c == 2 then Some(t.z)
    else if c == 3 then Some(t.w)
    else None
  }

  /**
    Splitting a component into a texel row and a channel: for `component >= 0` the
    channel lies in 0..3 and row and channel recompose the component. For negative
    components the channel is `-((-component) % 4)`, which selects a channel only
    for multiples of 4.
  */
  lemma PixelChannelSplit(component: int)
    ensures var pixel := TruncDiv(component, 4);
            var channel := component - pixel * 4;
            (component >= 0 ==> pixel == component / 4 && channel == component % 4 && 0 <= channel < 4)
            && (component < 0 ==> -3 <= channel <= 0 && (channel == 0 <==> component % 4 == 0))
  {
    if component < 0 {
      var m := -component;
      assert m == (m / 4) * 4 + m % 4;
      assert component - TruncDiv(component, 4) * 4 == -(m % 4);
      assert m % 4 == 0 <==> component % 4 == 0 by {
        assert component == -(m / 4) * 4 - m % 4;
        if m % 4 != 0 {
          assert component == (-(m / 4) - 1) * 4 + (4 - m % 4);
        }
      }
    }
  }

  /**
    `ExtractFloat(texture, textureWidth, textureHeight, index, component)`: the
    texel column is addressed by `float(index + 1) / float(textureWidth + 1)`, the row
    `pixel = component / 4` by `float(pixel + 1) / float(textureHeight + 1)`, and the
    channel is `component - pixel * 4`. When that channel is not one of 0..3 no branch
    returns and the result is `None` (GLSL leaves it undefined).
    `textureWidth` and `textureHeight` are what the caller says the texture measures;
    the sampler uses the grid's own size.
  */
  function ExtractFloat(tex: Grid, textureWidth: int, textureHeight: int, index: int, component: int): (r: Option<real>)
    requires IsTexture(tex)
    requires textureWidth > 0 && textureHeight > 0
    ensures r.Some? <==> component >= 0 || component % 4 == 0
  {
    PixelChannelSplit(component);
    var u := Coord(index, textureWidth);
    var pixel := TruncDiv(component, 4);
    var v := Coord(pixel, textureHeight);
    var texel := Sample(tex, u, v);
    var pixelComponent := component - pixel * 4;
    if pixelComponent == 0 then Some(texel.x)
    else if pixelComponent == 1 then Some(texel.y)
    else if pixelComponent == 2 then Some(texel.z)
    else if pixelComponent == 3 then Some(texel.w)
    else None
  }

  /** Proof step: for a non-negative component the sampled row is `component / 4` and the channel `component % 4`. */
  lemma ExtractFloatReads(tex: Grid, textureWidth: int, textureHeight: int, index: int, component: int)
    requires IsTexture(tex) && textureWidth > 0 && textureHeight > 0 && component >= 0
    ensures ExtractFloat(tex, textureWidth, textureHeight, index, component)
         == Channel(Sample(tex, Coord(index, textureWidth), Coord(component / 4, textureHeight)), component % 4)
  {
    PixelChannelSplit(component);
  }

  /**
    The texture as a flat array: called with the texture's true size, `ExtractFloat`
    returns float `component` of record `index`, which is channel `component % 4` of
    the texel in row `component / 4` and column `index`, for every texture and every
    in-range record and component.
  */
  lemma ExtractFloatAtOffset(tex: Grid, index: int, component: int)
    requires IsTexture(tex) && 0 <= index < Width(tex) && 0 <= component < 4 * Height(tex)
    ensures ExtractFloat(tex, Width(tex), Height(tex), index, component)
         == Channel(tex[component / 4][index], component % 4)
  {
    ExtractFloatReads(tex, Width(tex), Height(tex), index, component);
    CoordInsideTexel(index, Width(tex));
    CoordInsideTexel(component / 4, Height(tex));
  }

  /**
    Round trip: on a texture packed from `W` records of `4 * H` floats, extracting
    `(index, component)` with the texture's true size returns exactly the float the
    encoder stored at position `component` of record `index`.
  */
  lemma ExtractRoundTrip(records: seq<seq<real>>, h: nat, index: int, component: int)
    requires IsRecordArray(records, h)
    requires 0 <= index < |records| && 0 <= component < 4 * h
    ensures ExtractFloat(Pack(records, h), |records|, h, index, component) == Some(records[index][component])
  {
    var g := Pack(records, h);
    ExtractFloatAtOffset(g, index, component);
    assert g[component / 4][index] == TexelAt(records[index], 4 * (component / 4));
  }
}
