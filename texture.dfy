/**
 * The texture sampler: a row-major colour grid with a border colour, the
 * four wrap modes and nearest / bilinear filtering.
 */
module Textures {
  import opened Wrappers
  import opened Numerics
  import opened Vectors
  import opened Colors
  import opened Grid

  datatype Texture2DError = BadSize | BadPosition

  datatype WrapMode = ClampToEdge | ClampToBorder | Repeat | MirroredRepeat

  datatype FilterMode = Nearest | Linear

  /** Rust's `%` on floats: the remainder of truncating division, signed like `n`. */
  function Rem(n: real, m: real): (r: real)
    requires m > 0.0
    ensures -m < r < m
    ensures n >= 0.0 ==> r >= 0.0
    ensures n < 0.0 ==> r <= 0.0
  {
    RemBounds(n, m);
    n - m * Trunc(n / m) as real
  }

  lemma RemBounds(n: real, m: real)
    requires m > 0.0
    ensures var r := n - m * Trunc(n / m) as real;
      -m < r < m && (n >= 0.0 ==> r >= 0.0) && (n < 0.0 ==> r <= 0.0)
  {
    var q := n / m;
    var t := Trunc(q);
    var r := n - m * t as real;
    assert n == q * m;
    PositiveScaleKeepsSign(q, m);
    FractionScaled(q - t as real, m, r);
  }

  lemma PositiveScaleKeepsSign(q: real, m: real)
    requires m > 0.0
    ensures q >= 0.0 <==> q * m >= 0.0
    ensures q > 0.0 <==> q * m > 0.0
  {
    if q < 0.0 {
      assert q * m == -((-q) * m);
    }
  }

  /** A factor strictly between -1 and 1 keeps a positive scale strictly inside (-m, m). */
  lemma FractionScaled(d: real, m: real, r: real)
    requires m > 0.0 && -1.0 < d < 1.0 && r == d * m
    ensures -m < r < m
    ensures d >= 0.0 ==> r >= 0.0
    ensures d <= 0.0 ==> r <= 0.0
  {
    assert m - r == (1.0 - d) * m;
    assert r + m == (d + 1.0) * m;
  }

  /**
   * `my_mod`: `((n % m) + m) % m`, the true (floored) modulo: the result lies
   * in [0, m) and differs from `n` by an integer multiple of `m`.
   */
  function MyMod(n: real, m: real): (r: real)
    requires m > 0.0
    ensures 0.0 <= r < m
    ensures r == n - m * Floor(n / m) as real
  {
    MyModFacts(n, m);
    Rem(Rem(n, m) + m, m)
  }

  lemma MyModFacts(n: real, m: real)
    requires m > 0.0
    ensures var r := Rem(Rem(n, m) + m, m);
      0.0 <= r < m && r == n - m * Floor(n / m) as real
  {
    var q := n / m;
    var t := Trunc(q);
    var a := Rem(n, m);
    assert n == q * m;
    assert a == (q - t as real) * m;
    PositiveScaleKeepsSign(q - t as real, m);
    var b := a + m;
    var p := b / m;
    assert b == p * m;
    assert (p - 1.0) * m == b - m;
    PositiveScaleKeepsSign(p - 1.0, m);
    if a >= 0.0 {
      assert (2.0 - p) * m == 2.0 * m - b;
      PositiveScaleKeepsSign(2.0 - p, m);
      assert Trunc(p) == 1;
      assert Floor(q) == t;
    } else {
      PositiveScaleKeepsSign(p, m);
      assert Trunc(p) == 0;
      assert Floor(q) == t - 1;
    }
  }

  /** The fractional part `x - floor(x)`, which is `my_mod(x, 1)`. */
  function Fract(x: real): (r: real)
    ensures 0.0 <= r < 1.0
  {
    x - Floor(x) as real
  }

  /** One coordinate of `wrap_coord`. */
  function WrapAxis(x: real, mode: WrapMode): (r: real)
    ensures 0.0 <= r <= 1.0
    ensures (mode == ClampToEdge || mode == ClampToBorder) ==>
      r == (if x < 0.0 then 0.0 else if x > 1.0 then 1.0 else x)
    ensures mode == Repeat ==> r == Fract(x) && r < 1.0
    ensures mode == MirroredRepeat ==>
      r < 1.0 && r == if Floor(x) % 2 == 0 then Fract(x) else Fract(-x)
  {
    match mode
    case ClampToEdge => Clamp(x, 0.0, 1.0)
    case ClampToBorder => Clamp(x, 0.0, 1.0)
    case Repeat => MyMod(x, 1.0)
    case MirroredRepeat =>
      var parity := MyMod(Floor(x) as real, 2.0);
      MirroredFacts(x, parity);
      MyMod((1.0 - parity * 2.0) * x, 1.0)
  }

  lemma MirroredFacts(x: real, parity: real)
    requires parity == MyMod(Floor(x) as real, 2.0)
    ensures Floor(x) % 2 == 0 ==> parity == 0.0
    ensures Floor(x) % 2 == 1 ==> parity == 1.0
  {
    var f := Floor(x);
    assert (f as real / 2.0).Floor == f / 2;
  }

  /**
   * `wrap_coord`: both coordinates mapped into [0,1]; the flag (use the
   * border colour) is raised only by ClampToBorder, and exactly when an
   * original coordinate lies outside [0,1].
   */
  function WrapCoord(x: real, y: real, mode: WrapMode): (r: (real, real, bool))
    ensures 0.0 <= r.0 <= 1.0 && 0.0 <= r.1 <= 1.0
    ensures r.0 == WrapAxis(x, mode) && r.1 == WrapAxis(y, mode)
    ensures r.2 <==> mode == ClampToBorder && !(InClosedRange(x, 0.0, 1.0) && InClosedRange(y, 0.0, 1.0))
  {
    var useBorderColor := !InClosedRange(x, 0.0, 1.0) || !InClosedRange(y, 0.0, 1.0);
    match mode
    case ClampToEdge => (WrapAxis(x, mode), WrapAxis(y, mode), false)
    case ClampToBorder => (WrapAxis(x, mode), WrapAxis(y, mode), useBorderColor)
    case Repeat => (WrapAxis(x, mode), WrapAxis(y, mode), false)
    case MirroredRepeat => (WrapAxis(x, mode), WrapAxis(y, mode), false)
  }

  /** Repeat ignores whole-number shifts of the coordinate. */
  lemma RepeatShiftInvariant(x: real, k: int)
    ensures WrapAxis(x + k as real, Repeat) == WrapAxis(x, Repeat)
  {
    assert Floor(x + k as real) == Floor(x) + k;
  }

  /** MirroredRepeat has period 2 ... */
  lemma MirroredPeriodTwo(x: real, k: int)
    ensures WrapAxis(x + 2.0 * k as real, MirroredRepeat) == WrapAxis(x, MirroredRepeat)
  {
    var f := Floor(x);
    assert Floor(x + 2.0 * k as real) == f + 2 * k;
    assert (f + 2 * k) % 2 == f % 2;
    assert Floor(-(x + 2.0 * k as real)) == Floor(-x) - 2 * k;
  }

  /** ... and is symmetric about 0: a ping-pong tiling. */
  lemma MirroredSymmetric(x: real)
    ensures WrapAxis(-x, MirroredRepeat) == WrapAxis(x, MirroredRepeat)
  {
    var f := Floor(x);
    if f as real == x {
      assert Floor(-x) == -f;
      assert Fract(x) == 0.0 && Fract(-x) == 0.0;
    } else {
      assert Floor(-x) == -f - 1;
      assert (-f - 1) % 2 == 0 <==> f % 2 == 1;
    }
  }

  /** The wrap results the source's own unit tests pin down. */
  lemma WrapCoordExamples()
    ensures WrapCoord(0.5, 0.5, ClampToEdge) == (0.5, 0.5, false)
    ensures WrapCoord(1.5, -0.5, ClampToEdge) == (1.0, 0.0, false)
    ensures WrapCoord(0.5, 0.5, ClampToBorder) == (0.5, 0.5, false)
    ensures WrapCoord(1.5, -0.5, ClampToBorder) == (1.0, 0.0, true)
    ensures WrapCoord(1.2, -0.4, Repeat) == (0.2, 0.6, false)
    ensures WrapCoord(1.2, -0.6, Repeat) == (0.2, 0.4, false)
    ensures WrapCoord(1.2, -0.4, MirroredRepeat) == (0.8, 0.4, false)
    ensures WrapCoord(1.2, -0.6, MirroredRepeat) == (0.8, 0.6, false)
    ensures WrapCoord(1.2, -1.4, MirroredRepeat) == (0.8, 0.6, false)
    ensures WrapCoord(1.2, -1.6, MirroredRepeat) == (0.8, 0.4, false)
    ensures WrapCoord(1.2, 0.4, MirroredRepeat) == (0.8, 0.4, false)
    ensures WrapCoord(1.2, 0.6, MirroredRepeat) == (0.8, 0.6, false)
    ensures WrapCoord(1.2, 1.4, MirroredRepeat) == (0.8, 0.6, false)
    ensures WrapCoord(1.2, 1.6, MirroredRepeat) == (0.8, 0.4, false)
  {
    assert Floor(1.2) == 1 && Floor(-1.2) == -2;
    assert Floor(-0.4) == -1 && Floor(0.4) == 0;
    assert Floor(-0.6) == -1 && Floor(0.6) == 0;
    assert Floor(-1.4) == -2 && Floor(1.4) == 1;
    assert Floor(-1.6) == -2 && Floor(1.6) == 1;
  }

  /** A float colour whose four channels lie in [0,1], as every converted `Color` does. */
  predicate InUnitCube(c: Colorf)
  {
    0.0 <= c.x <= 1.0 && 0.0 <= c.y <= 1.0 && 0.0 <= c.z <= 1.0 && 0.0 <= c.w <= 1.0
  }

  /**
   * One channel of the bilinear blend `c1 (1-xt)(1-yt) + c2 xt (1-yt) +
   * c3 (1-xt) yt + c4 xt yt`.
   */
  function BlendChannel(a: real, b: real, c: real, d: real, xt: real, yt: real): real
  {
    a * (1.0 - xt) * (1.0 - yt) + b * xt * (1.0 - yt) + c * (1.0 - xt) * yt + d * xt * yt
  }

  /**
   * Bilinear blend of four float colours with fractions `xt`, `yt`: both
   * fractions zero select the first colour, four equal colours blend to
   * themselves (the weights sum to 1), and for fractions in [0,1] the blend
   * of unit-range colours stays in the unit range.
   */
  function Bilinear(c1: Colorf, c2: Colorf, c3: Colorf, c4: Colorf, xt: real, yt: real): (r: Colorf)
    ensures xt == 0.0 && yt == 0.0 ==> r == c1
    ensures c1 == c2 == c3 == c4 ==> r == c1
    ensures (InUnitCube(c1) && InUnitCube(c2) && InUnitCube(c3) && InUnitCube(c4) &&
             0.0 <= xt <= 1.0 && 0.0 <= yt <= 1.0) ==> InUnitCube(r)
  {
    BlendOfConstant(c1.x, xt, yt);
    BlendOfConstant(c1.y, xt, yt);
    BlendOfConstant(c1.z, xt, yt);
    BlendOfConstant(c1.w, xt, yt);
    if InUnitCube(c1) && InUnitCube(c2) && InUnitCube(c3) && InUnitCube(c4) &&
       0.0 <= xt <= 1.0 && 0.0 <= yt <= 1.0
    then
      BlendChannelInUnit(c1.x, c2.x, c3.x, c4.x, xt, yt);
      BlendChannelInUnit(c1.y, c2.y, c3.y, c4.y, xt, yt);
      BlendChannelInUnit(c1.z, c2.z, c3.z, c4.z, xt, yt);
      BlendChannelInUnit(c1.w, c2.w, c3.w, c4.w, xt, yt);
      BlendColors(c1, c2, c3, c4, xt, yt)
    else
      BlendColors(c1, c2, c3, c4, xt, yt)
  }

  function BlendColors(c1: Colorf, c2: Colorf, c3: Colorf, c4: Colorf, xt: real, yt: real): Colorf
  {
    Vec4(
      BlendChannel(c1.x, c2.x, c3.x, c4.x, xt, yt),
      BlendChannel(c1.y, c2.y, c3.y, c4.y, xt, yt),
      BlendChannel(c1.z, c2.z, c3.z, c4.z, xt, yt),
      BlendChannel(c1.w, c2.w, c3.w, c4.w, xt, yt))
  }

  /** The four bilinear weights sum to 1, so a constant channel blends to itself. */
  lemma BlendOfConstant(a: real, xt: real, yt: real)
    ensures BlendChannel(a, a, a, a, xt, yt) == a
  {
    assert a * (1.0 - xt) * (1.0 - yt) + a * xt * (1.0 - yt) == a * (1.0 - yt);
    assert a * (1.0 - xt) * yt + a * xt * yt == a * yt;
  }

  /** One channel of the blend of unit-range values, with fractions in [0,1], is in [0,1]. */
  lemma BlendChannelInUnit(a: real, b: real, c: real, d: real, xt: real, yt: real)
    requires 0.0 <= a <= 1.0 && 0.0 <= b <= 1.0 && 0.0 <= c <= 1.0 && 0.0 <= d <= 1.0
    requires 0.0 <= xt <= 1.0 && 0.0 <= yt <= 1.0
    ensures 0.0 <= BlendChannel(a, b, c, d, xt, yt) <= 1.0
  {
    var t1, t2, t3, t4 := a * (1.0 - xt) * (1.0 - yt), b * xt * (1.0 - yt), c * (1.0 - xt) * yt, d * xt * yt;
    var w1, w2, w3, w4 := (1.0 - xt) * (1.0 - yt), xt * (1.0 - yt), (1.0 - xt) * yt, xt * yt;
    TermBound(a, 1.0 - xt, 1.0 - yt, t1, w1);
    TermBound(b, xt, 1.0 - yt, t2, w2);
    TermBound(c, 1.0 - xt, yt, t3, w3);
    TermBound(d, xt, yt, t4, w4);
    WeightsSumToOne(xt, yt, w1, w2, w3, w4);
  }

  lemma WeightsSumToOne(xt: real, yt: real, w1: real, w2: real, w3: real, w4: real)
    requires w1 == (1.0 - xt) * (1.0 - yt) && w2 == xt * (1.0 - yt)
    requires w3 == (1.0 - xt) * yt && w4 == xt * yt
    ensures w1 + w2 + w3 + w4 == 1.0
  {
    assert w1 + w2 == 1.0 - yt;
    assert w3 + w4 == yt;
  }

  /** A unit-range value scaled by two non-negative weights lies between 0 and their product. */
  lemma TermBound(a: real, u: real, v: real, t: real, w: real)
    requires 0.0 <= a <= 1.0 && u >= 0.0 && v >= 0.0
    requires t == a * u * v && w == u * v
    ensures 0.0 <= t <= w
  {
    NonNegProduct(u, v);
    assert t == a * w;
    assert w - t == (1.0 - a) * w;
    NonNegProduct(1.0 - a, w);
    NonNegProduct(a, w);
  }

  /** The blend fraction along one axis: 0 on an exact texel, else the offset from the floor. */
  function BlendFraction(s: real): (t: real)
    ensures 0.0 <= t < 1.0
    ensures Floor(s) == Ceil(s) ==> t == 0.0
  {
    var lo := Floor(s);
    var hi := Ceil(s);
    if lo == hi then 0.0 else (s - lo as real) / (hi - lo) as real
  }

  class Texture2D {
    const pixels: seq<Color>
    var borderColor: Color
    const width: int
    const height: int

    ghost predicate Valid()
    {
      0 <= width && 0 <= height && |pixels| == width * height
    }

    constructor Init(width: int, height: int, color: Color)
      requires 0 <= width && 0 <= height
      ensures Valid() && this.width == width && this.height == height
      ensures pixels == seq(width * height, _ => color) && borderColor == TRANSPARENT
    {
      this.width := width;
      this.height := height;
      pixels := seq(width * height, _ => color);
      borderColor := TRANSPARENT;
    }

    /**
     * `create_init_color`: BadSize iff a dimension is negative, otherwise
     * `width * height` texels of `color` and a transparent border.
     */
    static method CreateInitColor(width: int, height: int, color: Color) returns (r: Result<Texture2D, Texture2DError>)
      requires I32_MIN <= width <= I32_MAX && I32_MIN <= height <= I32_MAX
      requires width < 0 || height < 0 || width * height <= I32_MAX
      ensures r.Err? <==> width < 0 || height < 0
      ensures r.Err? ==> r.error == BadSize
      ensures r.Ok? ==> fresh(r.value) && r.value.Valid()
      ensures r.Ok? ==> r.value.width == width && r.value.height == height
      ensures r.Ok? ==> r.value.pixels == seq(width * height, _ => color) && r.value.borderColor == TRANSPARENT
    {
      if width < 0 || height < 0 {
        return Err(BadSize);
      }
      var t := new Texture2D.Init(width, height, color);
      return Ok(t);
    }

    /** `create`: `create_init_color` with transparent texels. */
    static method Create(width: int, height: int) returns (r: Result<Texture2D, Texture2DError>)
      requires I32_MIN <= width <= I32_MAX && I32_MIN <= height <= I32_MAX
      requires width < 0 || height < 0 || width * height <= I32_MAX
      ensures r.Err? <==> width < 0 || height < 0
      ensures r.Err? ==> r.error == BadSize
      ensures r.Ok? ==> fresh(r.value) && r.value.Valid()
      ensures r.Ok? ==> r.value.width == width && r.value.height == height
      ensures r.Ok? ==> r.value.pixels == seq(width * height, _ => TRANSPARENT) && r.value.borderColor == TRANSPARENT
    {
      r := CreateInitColor(width, height, TRANSPARENT);
    }

    /** `get_color`: the texel at (x, y) iff it is inside the grid, BadPosition otherwise. */
    function GetColor(x: int, y: int): (r: Result<Color, Texture2DError>)
      requires Valid()
      ensures r.Ok? <==> InBounds(width, height, x, y)
      ensures r.Err? ==> r.error == BadPosition
      ensures r.Ok? ==> r.value == pixels[Index(width, height, x, y)]
    {
      match CalcOffset(width, height, x, y)
      case None => Err(BadPosition)
      case Some(offset) => Ok(pixels[offset])
    }

    /** `set_border_color`: only the border colour changes. */
    method SetBorderColor(color: Color)
      requires Valid()
      modifies this
      ensures Valid() && borderColor == color
    {
      borderColor := color;
    }

    /** The texel Nearest filtering fetches for a wrapped coordinate is inside the grid. */
    predicate NearestFetchable(x: real, y: real)
    {
      InBounds(width, height, Round(x * width as real), Round(y * height as real))
    }

    /**
     * The four texels Linear filtering fetches for a wrapped coordinate are
     * inside the grid (floor and ceiling on both axes).
     */
    predicate LinearFetchable(x: real, y: real)
    {
      && InBounds(width, height, Floor(x * width as real), Floor(y * height as real))
      && InBounds(width, height, Ceil(x * width as real), Ceil(y * height as real))
    }

    /**
     * Whether `texture(u, v, wrap, filter)` finishes: unless the border
     * colour is returned first, every texel it fetches (and `unwrap`s) must
     * be inside the grid.
     */
    predicate FetchesInRange(u: real, v: real, wrap: WrapMode, filter: FilterMode)
    {
      var w := WrapCoord(u, 1.0 - v, wrap);
      w.2 || (if filter == Nearest then NearestFetchable(w.0, w.1) else LinearFetchable(w.0, w.1))
    }

    /** Nearest filtering: the texel at the rounded scaled coordinate, as a float colour. */
    function SampleNearest(x: real, y: real): (r: Colorf)
      requires Valid() && NearestFetchable(x, y)
      ensures InUnitCube(r)
      ensures r == ToColorf(pixels[Index(width, height, Round(x * width as real), Round(y * height as real))])
    {
      ToColorf(GetColor(Round(x * width as real), Round(y * height as real)).value)
    }

    /**
     * Linear filtering: the bilinear blend of the texels at the floor and
     * ceiling of the scaled coordinate. The result stays a unit-range
     * colour, and on an exact texel position it is that texel.
     */
    function SampleLinear(x: real, y: real): (r: Colorf)
      requires Valid() && LinearFetchable(x, y)
      ensures InUnitCube(r)
      ensures var (sx, sy) := (x * width as real, y * height as real);
        Floor(sx) as real == sx && Floor(sy) as real == sy ==>
          r == ToColorf(pixels[Index(width, height, Floor(sx), Floor(sy))])
    {
      var sx := x * width as real;
      var sy := y * height as real;
      var xMin, yMin, xMax, yMax := Floor(sx), Floor(sy), Ceil(sx), Ceil(sy);
      var color1 := ToColorf(GetColor(xMin, yMin).value);
      var color2 := ToColorf(GetColor(xMax, yMin).value);
      var color3 := ToColorf(GetColor(xMin, yMax).value);
      var color4 := ToColorf(GetColor(xMax, yMax).value);
      Bilinear(color1, color2, color3, color4, BlendFraction(sx), BlendFraction(sy))
    }

    /**
     * `texture`: samples at (u, 1 - v) after wrapping. It is the border
     * colour exactly when the wrap raises its flag, otherwise the filtered
     * texel; either way a unit-range colour.
     */
    function Texture(u: real, v: real, wrap: WrapMode, filter: FilterMode): (r: Colorf)
      reads this
      requires Valid()
      requires FetchesInRange(u, v, wrap, filter)
      ensures InUnitCube(r)
      ensures var w := WrapCoord(u, 1.0 - v, wrap);
        if w.2 then r == ToColorf(borderColor)
        else if filter == Nearest then r == SampleNearest(w.0, w.1)
        else r == SampleLinear(w.0, w.1)
    {
      var w := WrapCoord(u, 1.0 - v, wrap);
      if w.2 then ToColorf(borderColor)
      else if filter == Nearest then SampleNearest(w.0, w.1)
      else SampleLinear(w.0, w.1)
    }
  }

  /**
   * Linear sampling at a wrapped coordinate fetches only in-range texels iff
   * the scaled coordinate is at most `size - 1` on both axes. So a wrapped
   * coordinate inside the last texel's span, 1.0 included, makes the
   * source's `unwrap` panic.
   */
  lemma LinearFetchBound(t: Texture2D, x: real, y: real)
    requires t.Valid()
    requires 0.0 <= x <= 1.0 && 0.0 <= y <= 1.0
    ensures t.LinearFetchable(x, y) <==>
      x * t.width as real <= (t.width - 1) as real && y * t.height as real <= (t.height - 1) as real
  {
    NonNegProduct(x, t.width as real);
    NonNegProduct(y, t.height as real);
  }

  /** ClampToEdge with u = 1.0 (or v = 0.0) makes Linear sampling fetch outside the texture. */
  lemma LinearEdgeFetchOutOfRange(t: Texture2D, u: real, v: real)
    requires t.Valid()
    requires u == 1.0 || v == 0.0
    ensures !t.FetchesInRange(u, v, ClampToEdge, Linear)
  {
    var w := WrapCoord(u, 1.0 - v, ClampToEdge);
    LinearFetchBound(t, w.0, w.1);
  }

  /** Sampling a single-colour texture away from the border yields that colour, whatever the filter. */
  lemma UniformTexture(t: Texture2D, c: Color, u: real, v: real, wrap: WrapMode, filter: FilterMode)
    requires t.Valid()
    requires forall i | 0 <= i < |t.pixels| :: t.pixels[i] == c
    requires t.FetchesInRange(u, v, wrap, filter)
    requires !WrapCoord(u, 1.0 - v, wrap).2
    ensures t.Texture(u, v, wrap, filter) == ToColorf(c)
  {
  }
}
