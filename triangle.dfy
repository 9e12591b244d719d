/**
 * `draw_triangle`: barycentric coverage of the pixels inside the clamped
 * bounding box of the projected vertices, with depth interpolated from the
 * vertices and colour from the interpolated texture coordinate and normal.
 *
 * The texture lookup and the lighting of a normal are parameters (see
 * `Shading`); everything between them is modelled: the bounding box, the
 * coverage test, the weight normalisation, the interpolation, the
 * intensity multiplication and the conversion to a byte colour.
 */
module Triangles {
  import opened Wrappers
  import opened Numerics
  import opened Vectors
  import opened Colors
  import opened Grid
  import opened Framebuffers
  import opened Primitives

  // ---------------------------------------------------------------- barycentric weights

  /**
   * The z component of the cross product `barycentric` forms: twice the
   * signed area of the screen triangle, the same for every pixel. It is
   * zero exactly when the three vertices are collinear.
   */
  function EdgeCross(p0: Vec2i, p1: Vec2i, p2: Vec2i): int
  {
    (p2.x - p0.x) * (p1.y - p0.y) - (p1.x - p0.x) * (p2.y - p0.y)
  }

  /**
   * `barycentric`: the weights of `p` with respect to the screen triangle,
   * from the cross product of the x and y edge vectors; `(-1, 1, 1)` for a
   * degenerate triangle, which no pixel passes. The weights always sum to 1.
   */
  function Barycentric(p: Vec2i, p0: Vec2i, p1: Vec2i, p2: Vec2i): (r: Vec3)
    ensures r.x + r.y + r.z == 1.0
    ensures EdgeCross(p0, p1, p2) == 0 ==> r == Vec3(-1.0, 1.0, 1.0)
  {
    var s0 := Vec3i(p2.x - p0.x, p1.x - p0.x, p0.x - p.x);
    var s1 := Vec3i(p2.y - p0.y, p1.y - p0.y, p0.y - p.y);
    var u := Cross(s0, s1);
    assert u.z == EdgeCross(p0, p1, p2);
    if Abs(u.z) < 1 then Vec3(-1.0, 1.0, 1.0)
    else
      var a, b, c := u.x as real, u.y as real, u.z as real;
      DivAdd(a, b, c);
      Vec3(1.0 - (a + b) / c, b / c, a / c)
  }

  lemma DivAdd(a: real, b: real, c: real)
    requires c != 0.0
    ensures (a + b) / c == a / c + b / c
  {
  }

  /** The weights of a pixel passing the coverage test are all non-negative. */
  predicate Covers(bc: Vec3)
  {
    !(bc.x < 0.0 || bc.y < 0.0 || bc.z < 0.0)
  }

  /**
   * For a proper triangle the weights reconstruct the pixel: it is the
   * weighted sum of the three vertices.
   */
  lemma BarycentricReconstructs(p: Vec2i, p0: Vec2i, p1: Vec2i, p2: Vec2i)
    requires EdgeCross(p0, p1, p2) != 0
    ensures var r := Barycentric(p, p0, p1, p2);
      && r.x * p0.x as real + r.y * p1.x as real + r.z * p2.x as real == p.x as real
      && r.x * p0.y as real + r.y * p1.y as real + r.z * p2.y as real == p.y as real
  {
    var s0 := Vec3i(p2.x - p0.x, p1.x - p0.x, p0.x - p.x);
    var s1 := Vec3i(p2.y - p0.y, p1.y - p0.y, p0.y - p.y);
    var u := Cross(s0, s1);
    var a, b, c := u.x as real, u.y as real, u.z as real;
    assert DotI(u, s0) == 0 && DotI(u, s1) == 0;
    OrthogonalScaled(a, b, c, s0.x as real, s0.y as real, s0.z as real);
    OrthogonalScaled(a, b, c, s1.x as real, s1.y as real, s1.z as real);
    Recombine(a / c, b / c, p0.x as real, p1.x as real, p2.x as real, p.x as real);
    Recombine(a / c, b / c, p0.y as real, p1.y as real, p2.y as real, p.y as real);
  }

  /** Dividing an orthogonality relation by the last coefficient. */
  lemma OrthogonalScaled(a: real, b: real, c: real, e: real, f: real, g: real)
    requires c != 0.0 && a * e + b * f + c * g == 0.0
    ensures (a / c) * e + (b / c) * f + g == 0.0
  {
    assert (a / c) * e + (b / c) * f + g == (a * e + b * f + c * g) / c;
  }

  /** The affine combination with weights `(1 - A - B, B, A)` in terms of edge offsets. */
  lemma Recombine(A: real, B: real, v0: real, v1: real, v2: real, p: real)
    requires A * (v2 - v0) + B * (v1 - v0) + (v0 - p) == 0.0
    ensures (1.0 - (A + B)) * v0 + B * v1 + A * v2 == p
  {
  }

  /**
   * For a proper triangle each vertex has the unit weight of itself:
   * `(1,0,0)`, `(0,1,0)` and `(0,0,1)`.
   */
  lemma BarycentricAtVertices(p0: Vec2i, p1: Vec2i, p2: Vec2i)
    requires EdgeCross(p0, p1, p2) != 0
    ensures Barycentric(p0, p0, p1, p2) == Vec3(1.0, 0.0, 0.0)
    ensures Barycentric(p1, p0, p1, p2) == Vec3(0.0, 1.0, 0.0)
    ensures Barycentric(p2, p0, p1, p2) == Vec3(0.0, 0.0, 1.0)
  {
    var A, B, C, D := p2.x - p0.x, p1.x - p0.x, p2.y - p0.y, p1.y - p0.y;
    var e := EdgeCross(p0, p1, p2);
    assert e == A * D - B * C;
    assert Cross(Vec3i(A, B, 0), Vec3i(C, D, 0)) == Vec3i(0, 0, e);
    assert Cross(Vec3i(A, B, -B), Vec3i(C, D, -D)) == Vec3i(0, e, e) by {
      assert B * -D - -B * D == 0;
      assert -B * C - A * -D == e;
    }
    assert Cross(Vec3i(A, B, -A), Vec3i(C, D, -C)) == Vec3i(e, 0, e) by {
      assert B * -C - -A * D == e;
      assert -A * C - A * -C == 0;
    }
    UnitRatio(e as real);
  }

  lemma UnitRatio(e: real)
    requires e != 0.0
    ensures e / e == 1.0 && (e + 0.0) / e == 1.0 && (0.0 + e) / e == 1.0 && 0.0 / e == 0.0
  {
  }

  /** A pixel passing the coverage test has a proper triangle around it. */
  lemma CoveredIsProper(p: Vec2i, p0: Vec2i, p1: Vec2i, p2: Vec2i)
    requires Covers(Barycentric(p, p0, p1, p2))
    ensures EdgeCross(p0, p1, p2) != 0
  {
  }

  /** A convex combination of three values lies between their bounds. */
  lemma ConvexBounds(w: Vec3, a: real, b: real, c: real, lo: real, hi: real)
    requires Covers(w) && w.x + w.y + w.z == 1.0
    requires lo <= a <= hi && lo <= b <= hi && lo <= c <= hi
    ensures lo <= w.x * a + w.y * b + w.z * c <= hi
  {
    NonNegProduct(w.x, a - lo);
    NonNegProduct(w.y, b - lo);
    NonNegProduct(w.z, c - lo);
    NonNegProduct(w.x, hi - a);
    NonNegProduct(w.y, hi - b);
    NonNegProduct(w.z, hi - c);
    assert w.x * a + w.y * b + w.z * c - lo == w.x * (a - lo) + w.y * (b - lo) + w.z * (c - lo);
    assert hi - (w.x * a + w.y * b + w.z * c) == w.x * (hi - a) + w.y * (hi - b) + w.z * (hi - c);
  }

  /** A covered pixel lies within the extent of the three vertices on both axes. */
  lemma CoveredWithinVertices(p: Vec2i, p0: Vec2i, p1: Vec2i, p2: Vec2i)
    requires Covers(Barycentric(p, p0, p1, p2))
    ensures Min(Min(p0.x, p1.x), p2.x) <= p.x <= Max(Max(p0.x, p1.x), p2.x)
    ensures Min(Min(p0.y, p1.y), p2.y) <= p.y <= Max(Max(p0.y, p1.y), p2.y)
  {
    CoveredIsProper(p, p0, p1, p2);
    BarycentricReconstructs(p, p0, p1, p2);
    var w := Barycentric(p, p0, p1, p2);
    CombinationWithin(w, p0.x, p1.x, p2.x, p.x);
    CombinationWithin(w, p0.y, p1.y, p2.y, p.y);
  }

  lemma CombinationWithin(w: Vec3, a: int, b: int, c: int, p: int)
    requires Covers(w) && w.x + w.y + w.z == 1.0
    requires w.x * a as real + w.y * b as real + w.z * c as real == p as real
    ensures Min(Min(a, b), c) <= p <= Max(Max(a, b), c)
  {
    ConvexBounds(w, a as real, b as real, c as real, Min(Min(a, b), c) as real, Max(Max(a, b), c) as real);
  }

  // ---------------------------------------------------------------- bounding box

  /** An inclusive pixel rectangle; empty when a minimum exceeds its maximum. */
  datatype Box = Box(minX: int, minY: int, maxX: int, maxY: int)

  predicate InBox(b: Box, x: int, y: int)
  {
    b.minX <= x <= b.maxX && b.minY <= y <= b.maxY
  }

  /**
   * The box `draw_triangle` scans: the vertices' extent clamped to the
   * framebuffer, starting from the opposite corners. It never leaves the
   * framebuffer, never ends more than one pixel before it starts, and holds
   * every framebuffer pixel within the vertices' extent.
   */
  function BoundingBox(s0: Vec2i, s1: Vec2i, s2: Vec2i, width: int, height: int): (b: Box)
    requires width >= 0 && height >= 0
    ensures 0 <= b.minX && b.maxX <= width - 1 && 0 <= b.minY && b.maxY <= height - 1
    ensures b.minX <= b.maxX + 1 && b.minY <= b.maxY + 1
    ensures forall x, y | InBounds(width, height, x, y)
      && Min(Min(s0.x, s1.x), s2.x) <= x <= Max(Max(s0.x, s1.x), s2.x)
      && Min(Min(s0.y, s1.y), s2.y) <= y <= Max(Max(s0.y, s1.y), s2.y) :: InBox(b, x, y)
  {
    Box(
      Max(0, Min(width - 1, Min(Min(s0.x, s1.x), s2.x))),
      Max(0, Min(height - 1, Min(Min(s0.y, s1.y), s2.y))),
      Min(width - 1, Max(0, Max(Max(s0.x, s1.x), s2.x))),
      Min(height - 1, Max(0, Max(Max(s0.y, s1.y), s2.y))))
  }

  // ---------------------------------------------------------------- shading

  /** The three vertices of a triangle with their texture coordinates and normals. */
  datatype Triangle = Triangle(p0: Vec3, p1: Vec3, p2: Vec3, uv0: Vec2, uv1: Vec2, uv2: Vec2, n0: Vec3, n1: Vec3, n2: Vec3)

  /**
   * The parts of shading that are outside this model: `sample` stands for
   * the texture lookup with edge clamping and bilinear filtering, `light`
   * for the intensity of a normal (normalised, negated and dotted with the
   * light direction), `intensity` for the light's intensity.
   */
  datatype Shading = Shading(sample: Vec2 -> Colorf, light: Vec3 -> real, intensity: real)

  /** The weights divided by their sum; with weights summing to 1, the weights themselves. */
  function Normalised(bc: Vec3): (r: Vec3)
    requires bc.x + bc.y + bc.z != 0.0
    ensures bc.x + bc.y + bc.z == 1.0 ==> r == bc
  {
    var s := bc.x + bc.y + bc.z;
    Vec3(bc.x / s, bc.y / s, bc.z / s)
  }

  /** The matrix of three column vectors times the weights. */
  function Interpolate2(a: Vec2, b: Vec2, c: Vec2, w: Vec3): Vec2
  {
    Vec2(a.x * w.x + b.x * w.y + c.x * w.z, a.y * w.x + b.y * w.y + c.y * w.z)
  }

  function Interpolate3(a: Vec3, b: Vec3, c: Vec3, w: Vec3): Vec3
  {
    Vec3(a.x * w.x + b.x * w.y + c.x * w.z, a.y * w.x + b.y * w.y + c.y * w.z, a.z * w.x + b.z * w.y + c.z * w.z)
  }

  /** The depth of a pixel: the vertices' z weighted by its (raw) weights. */
  function TriangleDepth(tri: Triangle, bc: Vec3): real
  {
    tri.p0.z * bc.x + tri.p1.z * bc.y + tri.p2.z * bc.z
  }

  /**
   * The colour of a pixel: the sampled texel with its colour channels
   * scaled by the light's intensity at the normal, alpha untouched, then
   * converted to bytes. No light gives black with the texel's alpha.
   */
  function ShadeColor(sh: Shading, uv: Vec2, norm: Vec3): (r: Color)
    ensures r.a == UnitToChannel(sh.sample(uv).w)
    ensures sh.intensity == 0.0 ==> r == Color(0, 0, 0, r.a)
  {
    var i := sh.light(norm) * sh.intensity;
    var t := sh.sample(uv);
    FromColorf(Vec4(t.x * i, t.y * i, t.z * i, t.w * 1.0))
  }

  // ---------------------------------------------------------------- fragments

  /** The depth and colour a pixel receives. */
  datatype Shaded = Shaded(depth: real, color: Color)

  /**
   * What `draw_triangle`'s loop body computes from a pixel's weights:
   * nothing when the pixel fails the coverage test; otherwise the
   * interpolated depth and the colour from the interpolated texture
   * coordinate and normal.
   */
  function ShadeWeights(tri: Triangle, sh: Shading, bc: Vec3): (r: Option<Shaded>)
    requires bc.x + bc.y + bc.z == 1.0
    ensures r.Some? <==> Covers(bc)
  {
    if bc.x < 0.0 || bc.y < 0.0 || bc.z < 0.0 then None
    else
      var clip := Normalised(bc);
      var uv := Interpolate2(tri.uv0, tri.uv1, tri.uv2, clip);
      var norm := Interpolate3(tri.n0, tri.n1, tri.n2, clip);
      Some(Shaded(TriangleDepth(tri, bc), ShadeColor(sh, uv, norm)))
  }

  /** The loop body at pixel `(x, y)`: its weights against the projected vertices, then shading. */
  function PixelShade(tri: Triangle, sh: Shading, width: int, height: int, x: int, y: int): (r: Option<Shaded>)
    ensures r.Some? <==>
      Covers(Barycentric(Vec2i(x, y), ToScreenPos(tri.p0, width, height), ToScreenPos(tri.p1, width, height), ToScreenPos(tri.p2, width, height)))
  {
    ShadeWeights(tri, sh, Barycentric(Vec2i(x, y), ToScreenPos(tri.p0, width, height), ToScreenPos(tri.p1, width, height), ToScreenPos(tri.p2, width, height)))
  }

  /** The loop body against already projected vertices, as a function of the pixel. */
  function ScreenShader(tri: Triangle, sh: Shading, s0: Vec2i, s1: Vec2i, s2: Vec2i): (int, int) -> Option<Shaded>
  {
    (x: int, y: int) => ShadeWeights(tri, sh, Barycentric(Vec2i(x, y), s0, s1, s2))
  }

  /** `PixelShade` of one triangle on one framebuffer, as a function of the pixel. */
  function TriangleShader(tri: Triangle, sh: Shading, width: int, height: int): (int, int) -> Option<Shaded>
  {
    ScreenShader(tri, sh, ToScreenPos(tri.p0, width, height), ToScreenPos(tri.p1, width, height), ToScreenPos(tri.p2, width, height))
  }

  /** The fragment a shader issues at one pixel: none, or one at that pixel. */
  function PixelFragments(pix: (int, int) -> Option<Shaded>, x: int, y: int): (frags: seq<Fragment>)
  {
    var r := pix(x, y);
    if r.Some? then [Fragment(x, y, r.value.depth, r.value.color)] else []
  }

  /** The fragments of row `y`, columns `x0` to `x1`, left to right. */
  function RowFragments(pix: (int, int) -> Option<Shaded>, y: int, x0: int, x1: int): seq<Fragment>
    decreases x1 - x0
  {
    if x1 < x0 then []
    else RowFragments(pix, y, x0, x1 - 1) + PixelFragments(pix, x1, y)
  }

  /** The fragments of the box's rows up to `y1`, top to bottom. */
  function BoxFragments(pix: (int, int) -> Option<Shaded>, b: Box, y1: int): seq<Fragment>
    decreases y1 - b.minY
  {
    if y1 < b.minY then []
    else BoxFragments(pix, b, y1 - 1) + RowFragments(pix, y1, b.minX, b.maxX)
  }

  /** The box `draw_triangle` scans on a framebuffer of the given size. */
  function ScreenBox(tri: Triangle, width: int, height: int): Box
    requires width >= 0 && height >= 0
  {
    BoundingBox(ToScreenPos(tri.p0, width, height), ToScreenPos(tri.p1, width, height), ToScreenPos(tri.p2, width, height), width, height)
  }

  /** The fragments `draw_triangle` issues, row by row over the bounding box. */
  function TriangleFragments(tri: Triangle, sh: Shading, width: int, height: int): seq<Fragment>
    requires width >= 0 && height >= 0
  {
    var b := ScreenBox(tri, width, height);
    BoxFragments(TriangleShader(tri, sh, width, height), b, b.maxY)
  }

  // ---------------------------------------------------------------- properties of the fragments

  /** Some fragment of `frags` lands on pixel `(x, y)`. */
  predicate HasPixel(frags: seq<Fragment>, x: int, y: int)
  {
    exists i | 0 <= i < |frags| :: frags[i].x == x && frags[i].y == y
  }

  lemma HasPixelConcat(a: seq<Fragment>, b: seq<Fragment>, x: int, y: int)
    ensures HasPixel(a + b, x, y) <==> HasPixel(a, x, y) || HasPixel(b, x, y)
  {
    if HasPixel(a + b, x, y) {
      var i :| 0 <= i < |a + b| && (a + b)[i].x == x && (a + b)[i].y == y;
      if i >= |a| {
        assert b[i - |a|] == (a + b)[i];
      } else {
        assert a[i] == (a + b)[i];
      }
    }
    if HasPixel(a, x, y) {
      var i :| 0 <= i < |a| && a[i].x == x && a[i].y == y;
      assert (a + b)[i] == a[i];
    }
    if HasPixel(b, x, y) {
      var i :| 0 <= i < |b| && b[i].x == x && b[i].y == y;
      assert (a + b)[|a| + i] == b[i];
    }
  }

  /** A fragment issued for `(x, y)` carries what the shader computed there. */
  predicate ShadedBy(pix: (int, int) -> Option<Shaded>, f: Fragment)
  {
    pix(f.x, f.y) == Some(Shaded(f.depth, f.color))
  }

  /** Every fragment carries what the shader computed at its pixel. */
  predicate AllShaded(pix: (int, int) -> Option<Shaded>, frags: seq<Fragment>)
  {
    forall i | 0 <= i < |frags| :: ShadedBy(pix, frags[i])
  }

  /** Every fragment lies in the box. */
  predicate AllInBox(b: Box, frags: seq<Fragment>)
  {
    forall i | 0 <= i < |frags| :: InBox(b, frags[i].x, frags[i].y)
  }

  /** The fragments come top to bottom, and left to right within a row. */
  predicate RowMajor(frags: seq<Fragment>)
  {
    forall i, j | 0 <= i < j < |frags| :: Precedes(frags[i], frags[j])
  }

  /** `f`'s pixel comes before `g`'s in row-major order. */
  predicate Precedes(f: Fragment, g: Fragment)
  {
    f.y < g.y || (f.y == g.y && f.x < g.x)
  }

  /** No two fragments land on the same pixel. */
  predicate DistinctPixels(frags: seq<Fragment>)
  {
    forall i, j | 0 <= i < j < |frags| :: frags[i].x != frags[j].x || frags[i].y != frags[j].y
  }

  lemma AllShadedConcat(pix: (int, int) -> Option<Shaded>, a: seq<Fragment>, b: seq<Fragment>)
    requires AllShaded(pix, a) && AllShaded(pix, b)
    ensures AllShaded(pix, a + b)
  {
    forall i | 0 <= i < |a + b|
      ensures ShadedBy(pix, (a + b)[i])
    {
      if i < |a| {
        assert (a + b)[i] == a[i];
      } else {
        assert (a + b)[i] == b[i - |a|];
      }
    }
  }

  /** Two sequences inside two boxes lie, together, in any box containing both. */
  lemma AllInBoxConcat(box: Box, ba: Box, a: seq<Fragment>, bb: Box, b: seq<Fragment>)
    requires AllInBox(ba, a) && AllInBox(bb, b)
    requires box.minX <= ba.minX && ba.maxX <= box.maxX && box.minY <= ba.minY && ba.maxY <= box.maxY
    requires box.minX <= bb.minX && bb.maxX <= box.maxX && box.minY <= bb.minY && bb.maxY <= box.maxY
    ensures AllInBox(box, a + b)
  {
    forall i | 0 <= i < |a + b|
      ensures InBox(box, (a + b)[i].x, (a + b)[i].y)
    {
      if i < |a| {
        assert (a + b)[i] == a[i];
        assert InBox(ba, a[i].x, a[i].y);
      } else {
        assert (a + b)[i] == b[i - |a|];
        assert InBox(bb, b[i - |a|].x, b[i - |a|].y);
      }
    }
  }

  /** Row-major sequences whose every pixel of `a` precedes every pixel of `b` concatenate in row-major order. */
  lemma RowMajorConcat(a: seq<Fragment>, b: seq<Fragment>)
    requires RowMajor(a) && RowMajor(b)
    requires forall i, j | 0 <= i < |a| && 0 <= j < |b| :: Precedes(a[i], b[j])
    ensures RowMajor(a + b)
  {
    forall i, j | 0 <= i < j < |a + b|
      ensures Precedes((a + b)[i], (a + b)[j])
    {
      if j < |a| {
        assert (a + b)[i] == a[i] && (a + b)[j] == a[j];
      } else if i >= |a| {
        assert (a + b)[i] == b[i - |a|] && (a + b)[j] == b[j - |a|];
      } else {
        assert (a + b)[i] == a[i] && (a + b)[j] == b[j - |a|];
      }
    }
  }

  /** Everything in a box left of column `x` (on row `y`) precedes everything in column `x` of that row. */
  lemma PrecedesByBoxes(a: seq<Fragment>, ba: Box, b: seq<Fragment>, bb: Box)
    requires AllInBox(ba, a) && AllInBox(bb, b)
    requires ba.maxY < bb.minY || (ba.minY == ba.maxY == bb.minY == bb.maxY && ba.maxX < bb.minX)
    ensures forall i, j | 0 <= i < |a| && 0 <= j < |b| :: Precedes(a[i], b[j])
  {
    forall i, j | 0 <= i < |a| && 0 <= j < |b|
      ensures Precedes(a[i], b[j])
    {
      assert InBox(ba, a[i].x, a[i].y);
      assert InBox(bb, b[j].x, b[j].y);
    }
  }

  lemma PixelFacts(pix: (int, int) -> Option<Shaded>, x: int, y: int)
    ensures AllInBox(Box(x, y, x, y), PixelFragments(pix, x, y))
    ensures AllShaded(pix, PixelFragments(pix, x, y))
    ensures RowMajor(PixelFragments(pix, x, y))
  {
    var b := PixelFragments(pix, x, y);
    if b != [] {
      assert InBox(Box(x, y, x, y), b[0].x, b[0].y) && ShadedBy(pix, b[0]);
    }
  }

  /**
   * A row's fragments stay in the row and its column range, strictly left
   * to right, each carrying what the shader computed at its pixel.
   */
  lemma {:induction false} RowFacts(pix: (int, int) -> Option<Shaded>, y: int, x0: int, x1: int)
    ensures AllInBox(Box(x0, y, x1, y), RowFragments(pix, y, x0, x1))
    ensures AllShaded(pix, RowFragments(pix, y, x0, x1))
    ensures RowMajor(RowFragments(pix, y, x0, x1))
    decreases x1 - x0
  {
    if x1 >= x0 {
      RowFacts(pix, y, x0, x1 - 1);
      PixelFacts(pix, x1, y);
      var a := RowFragments(pix, y, x0, x1 - 1);
      var b := PixelFragments(pix, x1, y);
      AllInBoxConcat(Box(x0, y, x1, y), Box(x0, y, x1 - 1, y), a, Box(x1, y, x1, y), b);
      AllShadedConcat(pix, a, b);
      PrecedesByBoxes(a, Box(x0, y, x1 - 1, y), b, Box(x1, y, x1, y));
      RowMajorConcat(a, b);
    }
  }

  /** A row holds a fragment at `(x, y')` exactly when the shader lets that pixel of the row through. */
  lemma {:induction false} RowMembership(pix: (int, int) -> Option<Shaded>, y: int, x0: int, x1: int, x: int, y': int)
    ensures HasPixel(RowFragments(pix, y, x0, x1), x, y') <==> y' == y && x0 <= x <= x1 && pix(x, y).Some?
    decreases x1 - x0
  {
    if x1 >= x0 {
      RowMembership(pix, y, x0, x1 - 1, x, y');
      var b := PixelFragments(pix, x1, y);
      HasPixelConcat(RowFragments(pix, y, x0, x1 - 1), b, x, y');
      if b != [] {
        assert b[0].x == x1 && b[0].y == y;
      }
    }
  }

  /**
   * The box's fragments stay in its rows and columns, in row-major order,
   * each carrying what the shader computed at its pixel.
   */
  lemma {:induction false} BoxFacts(pix: (int, int) -> Option<Shaded>, b: Box, y1: int)
    ensures AllInBox(Box(b.minX, b.minY, b.maxX, y1), BoxFragments(pix, b, y1))
    ensures AllShaded(pix, BoxFragments(pix, b, y1))
    ensures RowMajor(BoxFragments(pix, b, y1))
    decreases y1 - b.minY
  {
    if y1 >= b.minY {
      BoxFacts(pix, b, y1 - 1);
      RowFacts(pix, y1, b.minX, b.maxX);
      var a := BoxFragments(pix, b, y1 - 1);
      var r := RowFragments(pix, y1, b.minX, b.maxX);
      AllInBoxConcat(Box(b.minX, b.minY, b.maxX, y1), Box(b.minX, b.minY, b.maxX, y1 - 1), a, Box(b.minX, y1, b.maxX, y1), r);
      AllShadedConcat(pix, a, r);
      PrecedesByBoxes(a, Box(b.minX, b.minY, b.maxX, y1 - 1), r, Box(b.minX, y1, b.maxX, y1));
      RowMajorConcat(a, r);
    }
  }

  /** The box holds a fragment at `(x, y)` exactly when the shader lets that pixel of the box through. */
  lemma {:induction false} BoxMembership(pix: (int, int) -> Option<Shaded>, b: Box, y1: int, x: int, y: int)
    ensures HasPixel(BoxFragments(pix, b, y1), x, y) <==> b.minY <= y <= y1 && b.minX <= x <= b.maxX && pix(x, y).Some?
    decreases y1 - b.minY
  {
    if y1 >= b.minY {
      BoxMembership(pix, b, y1 - 1, x, y);
      RowMembership(pix, y1, b.minX, b.maxX, x, y);
      HasPixelConcat(BoxFragments(pix, b, y1 - 1), RowFragments(pix, y1, b.minX, b.maxX), x, y);
    }
  }

  /**
   * Every fragment `draw_triangle` issues is inside the framebuffer and
   * carries what the loop body computes at its pixel, and no pixel is
   * written twice: the pixels come in row-major order.
   */
  lemma TriangleFragmentsInside(tri: Triangle, sh: Shading, width: nat, height: nat)
    ensures AllInBox(Box(0, 0, width - 1, height - 1), TriangleFragments(tri, sh, width, height))
    ensures AllShaded(TriangleShader(tri, sh, width, height), TriangleFragments(tri, sh, width, height))
    ensures RowMajor(TriangleFragments(tri, sh, width, height))
    ensures DistinctPixels(TriangleFragments(tri, sh, width, height))
  {
    var b := ScreenBox(tri, width, height);
    var frags := TriangleFragments(tri, sh, width, height);
    BoxFacts(TriangleShader(tri, sh, width, height), b, b.maxY);
    AllInBoxConcat(Box(0, 0, width - 1, height - 1), b, frags, b, []);
    assert frags + [] == frags;
    RowMajorDistinct(frags);
  }

  lemma RowMajorDistinct(frags: seq<Fragment>)
    requires RowMajor(frags)
    ensures DistinctPixels(frags)
  {
    forall i, j | 0 <= i < j < |frags|
      ensures frags[i].x != frags[j].x || frags[i].y != frags[j].y
    {
      assert Precedes(frags[i], frags[j]);
    }
  }

  /** The shader applied at a pixel is the loop body's computation there. */
  lemma ShaderAt(tri: Triangle, sh: Shading, width: int, height: int, x: int, y: int)
    ensures TriangleShader(tri, sh, width, height)(x, y) == PixelShade(tri, sh, width, height, x, y)
  {
  }

  /**
   * Coverage: `draw_triangle` writes pixel `(x, y)` exactly when it lies in
   * the framebuffer and its barycentric weights are all non-negative.
   */
  lemma TriangleCoverage(tri: Triangle, sh: Shading, width: nat, height: nat, x: int, y: int)
    ensures var s0, s1, s2 := ToScreenPos(tri.p0, width, height), ToScreenPos(tri.p1, width, height), ToScreenPos(tri.p2, width, height);
      HasPixel(TriangleFragments(tri, sh, width, height), x, y) <==>
        InBounds(width, height, x, y) && Covers(Barycentric(Vec2i(x, y), s0, s1, s2))
  {
    var s0, s1, s2 := ToScreenPos(tri.p0, width, height), ToScreenPos(tri.p1, width, height), ToScreenPos(tri.p2, width, height);
    var b := ScreenBox(tri, width, height);
    BoxMembership(TriangleShader(tri, sh, width, height), b, b.maxY, x, y);
    ShaderAt(tri, sh, width, height, x, y);
    if InBounds(width, height, x, y) && Covers(Barycentric(Vec2i(x, y), s0, s1, s2)) {
      CoveredWithinVertices(Vec2i(x, y), s0, s1, s2);
      assert InBox(b, x, y);
    }
  }

  /** A degenerate triangle (collinear screen vertices) draws nothing. */
  lemma DegenerateTriangleDrawsNothing(tri: Triangle, sh: Shading, width: nat, height: nat)
    requires EdgeCross(ToScreenPos(tri.p0, width, height), ToScreenPos(tri.p1, width, height), ToScreenPos(tri.p2, width, height)) == 0
    ensures TriangleFragments(tri, sh, width, height) == []
  {
    var frags := TriangleFragments(tri, sh, width, height);
    if frags != [] {
      var f := frags[0];
      TriangleCoverage(tri, sh, width, height, f.x, f.y);
      assert false;
    }
  }

  /**
   * Depth is interpolated, never extrapolated: every fragment's depth lies
   * within any bounds of the three vertices' depths.
   */
  lemma TriangleDepthWithin(tri: Triangle, sh: Shading, width: nat, height: nat, lo: real, hi: real)
    requires lo <= tri.p0.z <= hi && lo <= tri.p1.z <= hi && lo <= tri.p2.z <= hi
    ensures forall f | f in TriangleFragments(tri, sh, width, height) :: lo <= f.depth <= hi
  {
    TriangleFragmentsInside(tri, sh, width, height);
    ShaderDepthWithin(tri, sh, ToScreenPos(tri.p0, width, height), ToScreenPos(tri.p1, width, height), ToScreenPos(tri.p2, width, height), lo, hi);
    ShadedDepthsWithin(TriangleShader(tri, sh, width, height), TriangleFragments(tri, sh, width, height), lo, hi);
  }

  /** Every pixel the shader lets through gets a depth between `lo` and `hi`. */
  ghost predicate DepthsWithin(pix: (int, int) -> Option<Shaded>, lo: real, hi: real)
  {
    forall x, y | pix(x, y).Some? :: lo <= pix(x, y).value.depth <= hi
  }

  lemma ShadedDepthsWithin(pix: (int, int) -> Option<Shaded>, frags: seq<Fragment>, lo: real, hi: real)
    requires AllShaded(pix, frags) && DepthsWithin(pix, lo, hi)
    ensures forall f | f in frags :: lo <= f.depth <= hi
  {
    forall f | f in frags
      ensures lo <= f.depth <= hi
    {
      var i :| 0 <= i < |frags| && frags[i] == f;
      assert ShadedBy(pix, frags[i]);
    }
  }

  /** The loop body interpolates depth between the vertices' depths at every pixel. */
  lemma ShaderDepthWithin(tri: Triangle, sh: Shading, s0: Vec2i, s1: Vec2i, s2: Vec2i, lo: real, hi: real)
    requires lo <= tri.p0.z <= hi && lo <= tri.p1.z <= hi && lo <= tri.p2.z <= hi
    ensures DepthsWithin(ScreenShader(tri, sh, s0, s1, s2), lo, hi)
  {
    forall x, y
      ensures ScreenShader(tri, sh, s0, s1, s2)(x, y).Some? ==> lo <= ScreenShader(tri, sh, s0, s1, s2)(x, y).value.depth <= hi
    {
      WeightsDepthWithin(tri, sh, Barycentric(Vec2i(x, y), s0, s1, s2), lo, hi);
    }
  }

  /** Shading with covering weights interpolates the depth between the vertices' depths. */
  lemma WeightsDepthWithin(tri: Triangle, sh: Shading, bc: Vec3, lo: real, hi: real)
    requires lo <= tri.p0.z <= hi && lo <= tri.p1.z <= hi && lo <= tri.p2.z <= hi
    requires bc.x + bc.y + bc.z == 1.0
    ensures ShadeWeights(tri, sh, bc).Some? ==> lo <= ShadeWeights(tri, sh, bc).value.depth <= hi
  {
    if Covers(bc) {
      CoveredShade(tri, sh, bc);
      DepthWithin(tri, bc, lo, hi);
    }
  }

  lemma DepthWithin(tri: Triangle, bc: Vec3, lo: real, hi: real)
    requires lo <= tri.p0.z <= hi && lo <= tri.p1.z <= hi && lo <= tri.p2.z <= hi
    requires bc.x + bc.y + bc.z == 1.0 && Covers(bc)
    ensures lo <= TriangleDepth(tri, bc) <= hi
  {
    ConvexBounds(bc, tri.p0.z, tri.p1.z, tri.p2.z, lo, hi);
  }

  /** With weights summing to 1, the loop body's division by their sum leaves them as they are. */
  lemma CoveredShade(tri: Triangle, sh: Shading, bc: Vec3)
    requires bc.x + bc.y + bc.z == 1.0 && Covers(bc)
    ensures ShadeWeights(tri, sh, bc)
      == Some(Shaded(TriangleDepth(tri, bc), ShadeColor(sh, Interpolate2(tri.uv0, tri.uv1, tri.uv2, bc), Interpolate3(tri.n0, tri.n1, tri.n2, bc))))
  {
  }

  /**
   * A proper triangle whose first vertex projects inside the framebuffer
   * writes that pixel with the vertex's own depth, texture coordinate and
   * normal.
   */
  lemma TriangleVertexPixel(tri: Triangle, sh: Shading, width: nat, height: nat)
    requires var s0, s1, s2 := ToScreenPos(tri.p0, width, height), ToScreenPos(tri.p1, width, height), ToScreenPos(tri.p2, width, height);
      EdgeCross(s0, s1, s2) != 0 && InBounds(width, height, s0.x, s0.y)
    ensures HasPixel(TriangleFragments(tri, sh, width, height), ToScreenPos(tri.p0, width, height).x, ToScreenPos(tri.p0, width, height).y)
    ensures PixelShade(tri, sh, width, height, ToScreenPos(tri.p0, width, height).x, ToScreenPos(tri.p0, width, height).y)
      == Some(Shaded(tri.p0.z, ShadeColor(sh, tri.uv0, tri.n0)))
  {
    var s0, s1, s2 := ToScreenPos(tri.p0, width, height), ToScreenPos(tri.p1, width, height), ToScreenPos(tri.p2, width, height);
    BarycentricAtVertices(s0, s1, s2);
    assert Vec2i(s0.x, s0.y) == s0;
    TriangleCoverage(tri, sh, width, height, s0.x, s0.y);
    VertexShade(tri, sh);
  }

  /** The weights of a vertex pick out that vertex's depth, texture coordinate and normal. */
  lemma VertexShade(tri: Triangle, sh: Shading)
    ensures ShadeWeights(tri, sh, Vec3(1.0, 0.0, 0.0)) == Some(Shaded(tri.p0.z, ShadeColor(sh, tri.uv0, tri.n0)))
  {
    var w := Vec3(1.0, 0.0, 0.0);
    InterpolateAtVertex(tri);
    CoveredShade(tri, sh, w);
  }

  lemma InterpolateAtVertex(tri: Triangle)
    ensures Interpolate2(tri.uv0, tri.uv1, tri.uv2, Vec3(1.0, 0.0, 0.0)) == tri.uv0
    ensures Interpolate3(tri.n0, tri.n1, tri.n2, Vec3(1.0, 0.0, 0.0)) == tri.n0
    ensures TriangleDepth(tri, Vec3(1.0, 0.0, 0.0)) == tri.p0.z
  {
  }

  // ---------------------------------------------------------------- drawing

  /** The canvas after the loop body at pixel `(x, y)`: one combined write, or none. */
  ghost function PixelDrawn(c: Canvas, pix: (int, int) -> Option<Shaded>, x: int, y: int): (r: Canvas)
    requires c.Valid()
    ensures r.Valid() && c.SameShape(r)
  {
    var s := pix(x, y);
    if s.Some? then c.SetColorWithDepth(x, y, s.value.depth, s.value.color) else c
  }

  /** The canvas after the inner loop over columns `x0` to `x1` of row `y`. */
  ghost function RowDrawn(c: Canvas, pix: (int, int) -> Option<Shaded>, y: int, x0: int, x1: int): (r: Canvas)
    requires c.Valid()
    ensures r.Valid() && c.SameShape(r)
    decreases x1 - x0
  {
    if x1 < x0 then c else PixelDrawn(RowDrawn(c, pix, y, x0, x1 - 1), pix, x1, y)
  }

  /** The canvas after the outer loop over the box's rows up to `y1`. */
  ghost function BoxDrawn(c: Canvas, pix: (int, int) -> Option<Shaded>, b: Box, y1: int): (r: Canvas)
    requires c.Valid()
    ensures r.Valid() && c.SameShape(r)
    decreases y1 - b.minY
  {
    if y1 < b.minY then c else RowDrawn(BoxDrawn(c, pix, b, y1 - 1), pix, y1, b.minX, b.maxX)
  }

  lemma PixelDrawnApplies(c: Canvas, pix: (int, int) -> Option<Shaded>, x: int, y: int)
    requires c.Valid()
    ensures PixelDrawn(c, pix, x, y) == c.ApplyAll(PixelFragments(pix, x, y))
  {
    var frags := PixelFragments(pix, x, y);
    if frags != [] {
      ApplyAllSnoc(c, [], frags[0]);
      assert [] + [frags[0]] == frags;
    }
  }

  /** Running the inner loop applies the row's fragments in order. */
  lemma {:induction false} RowDrawnApplies(c: Canvas, pix: (int, int) -> Option<Shaded>, y: int, x0: int, x1: int)
    requires c.Valid()
    ensures RowDrawn(c, pix, y, x0, x1) == c.ApplyAll(RowFragments(pix, y, x0, x1))
    decreases x1 - x0
  {
    if x1 >= x0 {
      RowDrawnApplies(c, pix, y, x0, x1 - 1);
      var a := RowFragments(pix, y, x0, x1 - 1);
      ApplyAllConcat(c, a, PixelFragments(pix, x1, y));
      PixelDrawnApplies(c.ApplyAll(a), pix, x1, y);
    }
  }

  /** Running both loops applies the box's fragments in order. */
  lemma {:induction false} BoxDrawnApplies(c: Canvas, pix: (int, int) -> Option<Shaded>, b: Box, y1: int)
    requires c.Valid()
    ensures BoxDrawn(c, pix, b, y1) == c.ApplyAll(BoxFragments(pix, b, y1))
    decreases y1 - b.minY
  {
    if y1 >= b.minY {
      BoxDrawnApplies(c, pix, b, y1 - 1);
      var a := BoxFragments(pix, b, y1 - 1);
      ApplyAllConcat(c, a, RowFragments(pix, y1, b.minX, b.maxX));
      RowDrawnApplies(c.ApplyAll(a), pix, y1, b.minX, b.maxX);
    }
  }

  /**
   * The body of `draw_triangle`'s pixel loop, given what the shader computes
   * at the pixel: skip the pixel (`continue`) when it is not covered,
   * otherwise one combined write of its colour and depth.
   */
  method ShadePixel(framebuffer: Framebuffer, pix: (int, int) -> Option<Shaded>, x: int, y: int)
    requires framebuffer.Valid()
    modifies framebuffer
    ensures framebuffer.View() == PixelDrawn(old(framebuffer.View()), pix, x, y)
  {
    var shaded := pix(x, y);
    if shaded.None? {
      return;
    }
    framebuffer.SetColorWithDepth(x, y, shaded.value.depth, shaded.value.color);
  }

  /** The inner loop of `draw_triangle`: the loop body at columns `minX` to `maxX` of row `y`, left to right. */
  method ShadeRow(framebuffer: Framebuffer, pix: (int, int) -> Option<Shaded>, y: int, minX: int, maxX: int)
    requires framebuffer.Valid()
    modifies framebuffer
    ensures framebuffer.View() == RowDrawn(old(framebuffer.View()), pix, y, minX, maxX)
  {
    ghost var c0 := framebuffer.View();
    if maxX < minX {
      return;
    }
    var x := minX;
    while x <= maxX
      invariant minX <= x <= maxX + 1
      invariant framebuffer.View() == RowDrawn(c0, pix, y, minX, x - 1)
    {
      ShadePixel(framebuffer, pix, x, y);
      x := x + 1;
    }
  }

  /** The outer loop of `draw_triangle`: the inner loop over each row of the box, top to bottom. */
  method ShadeBox(framebuffer: Framebuffer, pix: (int, int) -> Option<Shaded>, b: Box)
    requires framebuffer.Valid()
    modifies framebuffer
    ensures framebuffer.Valid()
    ensures framebuffer.View() == old(framebuffer.View()).ApplyAll(BoxFragments(pix, b, b.maxY))
  {
    ghost var c0 := framebuffer.View();
    if b.maxY >= b.minY {
      var y := b.minY;
      while y <= b.maxY
        invariant b.minY <= y <= b.maxY + 1
        invariant framebuffer.View() == BoxDrawn(c0, pix, b, y - 1)
      {
        ShadeRow(framebuffer, pix, y, b.minX, b.maxX);
        y := y + 1;
      }
    }
    BoxDrawnApplies(c0, pix, b, b.maxY);
  }

  /**
   * The bounding box statements of `draw_triangle`: start from the empty
   * box `(width - 1, height - 1)..(0, 0)` and widen it by each projected
   * vertex, clamping to the framebuffer at every step.
   */
  method ClampBox(s0: Vec2i, s1: Vec2i, s2: Vec2i, width: int, height: int) returns (b: Box)
    requires width >= 0 && height >= 0
    ensures b == BoundingBox(s0, s1, s2, width, height)
  {
    var minX, minY := width - 1, height - 1;
    var maxX, maxY := 0, 0;
    var clampX, clampY := width - 1, height - 1;

    minX := Max(0, Min(minX, s0.x));
    minY := Max(0, Min(minY, s0.y));
    minX := Max(0, Min(minX, s1.x));
    minY := Max(0, Min(minY, s1.y));
    minX := Max(0, Min(minX, s2.x));
    minY := Max(0, Min(minY, s2.y));
    maxX := Min(clampX, Max(maxX, s0.x));
    maxY := Min(clampY, Max(maxY, s0.y));
    maxX := Min(clampX, Max(maxX, s1.x));
    maxY := Min(clampY, Max(maxY, s1.y));
    maxX := Min(clampX, Max(maxX, s2.x));
    maxY := Min(clampY, Max(maxY, s2.y));
    b := Box(minX, minY, maxX, maxY);
  }

  /**
   * `draw_triangle`: project the vertices, clamp their bounding box to the
   * framebuffer, then run the loop body over the box row by row. The
   * framebuffer ends up with the triangle's fragments applied in order.
   */
  method DrawTriangle(framebuffer: Framebuffer, tri: Triangle, sh: Shading)
    requires framebuffer.Valid()
    modifies framebuffer
    ensures framebuffer.Valid()
    ensures framebuffer.View() == old(framebuffer.View()).ApplyAll(TriangleFragments(tri, sh, framebuffer.width, framebuffer.height))
  {
    var s0 := ToScreenPos(tri.p0, framebuffer.width, framebuffer.height);
    var s1 := ToScreenPos(tri.p1, framebuffer.width, framebuffer.height);
    var s2 := ToScreenPos(tri.p2, framebuffer.width, framebuffer.height);
    var b := ClampBox(s0, s1, s2, framebuffer.width, framebuffer.height);
    var pix := ScreenShader(tri, sh, s0, s1, s2);
    ShadeBox(framebuffer, pix, b);
  }
}
