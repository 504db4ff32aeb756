/** Values that may be absent: the shader's ExtractFloat can fall off its end without returning. */
module Options {
  datatype Option<+T> = None | Some(value: T)
}

/**
  The RGBA textures the shader reads as data buffers, and the nearest-texel sampler
  that stands in for `texture2D`.

  A texture is a grid of texels, row-major: `g[row][column]`. A normalized coordinate
  `c` selects texel `floor(c * size)`, clamped to the edge of the texture.
*/
module Texture {

  /** One RGBA texel; GLSL's `texel[0..3]` are `x, y, z, w` (equally `r, g, b, a`). */
  datatype Texel = Texel(x: real, y: real, z: real, w: real)

  /** Rows of texels, `g[row][column]`. */
  type Grid = seq<seq<Texel>>

  /** A non-empty rectangular grid: every row is as wide as the first. */
  predicate IsTexture(g: Grid) {
    |g| > 0 && |g[0]| > 0 && forall r :: 0 <= r < |g| ==> |g[r]| == |g[0]|
  }

  function Width(g: Grid): nat
    requires IsTexture(g)
  {
    |g[0]|
  }

  function Height(g: Grid): nat
    requires IsTexture(g)
  {
    |g|
  }

  /** Texel index that nearest filtering with clamp-to-edge picks for coordinate `c` along an axis of `size` texels. */
  function NearestIndex(c: real, size: nat): (i: nat)
    requires size > 0
    ensures i < size
  {
    var t := (c * size as real).Floor;
    if t < 0 then 0 else if t >= size then size - 1 else t
  }

  /** Inside the texture, the nearest texel is the one whose cell `[i, i + 1)` contains `c * size`. */
  lemma NearestIndexInside(c: real, size: nat)
    requires size > 0 && 0.0 <= c * size as real < size as real
    ensures var i := NearestIndex(c, size); i as real <= c * size as real < i as real + 1.0
  {
  }

  /** The assumed behaviour of `texture2D(texture, vec2(u, v))`: the nearest texel, clamped to the edge. */
  function Sample(g: Grid, u: real, v: real): (t: Texel)
    requires IsTexture(g)
  {
    g[NearestIndex(v, Height(g))][NearestIndex(u, Width(g))]
  }

  /**
    The normalized coordinate the shader uses to address texel `i` of an axis of `n`
    texels: `float(i + 1) / float(n + 1)`.
  */
  function Coord(i: int, n: int): real
    requires n >= 0
  {
    (i + 1) as real / (n + 1) as real
  }

  /** For `0 <= i < n`, `Coord(i, n)` falls strictly inside texel `i`, so the sampler picks texel `i`. */
  lemma CoordInsideTexel(i: int, n: int)
    requires 0 <= i < n
    ensures i as real < Coord(i, n) * n as real < (i + 1) as real
    ensures NearestIndex(Coord(i, n), n) == i
  {
    var u := Coord(i, n);
    var d := (n + 1) as real;
    assert u * d == (i + 1) as real;
    var p := u * n as real;
    assert p == (i + 1) as real - u;
    assert 0.0 < u < 1.0 by {
      assert (i + 1) as real < d;
    }
    NearestIndexInside(u, n);
  }

  /** The four floats of a record starting at offset `k`, as one texel. */
  function TexelAt(record: seq<real>, k: nat): (t: Texel)
    requires k + 4 <= |record|
    ensures t.x == record[k] && t.y == record[k + 1] && t.z == record[k + 2] && t.w == record[k + 3]
  {
    Texel(record[k], record[k + 1], record[k + 2], record[k + 3])
  }

  /** Every record holds exactly `4 * h` floats, so it fills one column of `h` texels. */
  predicate IsRecordArray(records: seq<seq<real>>, h: nat) {
    |records| > 0 && h > 0 && forall i :: 0 <= i < |records| ==> |records[i]| == 4 * h
  }

  /**
    The upstream encoder's layout: record `i` occupies column `i`, its floats `4p .. 4p+3`
    fill the texel in row `p`.
  */
  function Pack(records: seq<seq<real>>, h: nat): (g: Grid)
    requires IsRecordArray(records, h)
    ensures IsTexture(g) && Height(g) == h && Width(g) == |records|
    ensures forall p, i :: 0 <= p < h && 0 <= i < |records| ==> g[p][i] == TexelAt(records[i], 4 * p)
  {
    seq(h, p requires 0 <= p < h =>
      seq(|records|, i requires 0 <= i < |records| => TexelAt(records[i], 4 * p)))
  }
}
