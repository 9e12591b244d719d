/**
 * The rasterizer: projection of normalised device coordinates to pixels,
 * Bresenham line stepping and barycentric triangle coverage, both writing
 * through the framebuffer's depth-tested colour write.
 *
 * Each drawing method is specified by the list of fragments (pixel, depth,
 * colour) it issues, in order; the framebuffer's `ApplyAll` turns such a
 * list into the resulting buffers.
 */
module Primitives {
  import opened Numerics
  import opened Vectors
  import opened Colors
  import opened Grid
  import opened Framebuffers

  // ---------------------------------------------------------------- projection

  /** The exact (unrounded) screen column of an NDC x coordinate. */
  function NdcToScreenX(x: real, width: int): real
  {
    (x + 1.0) / 2.0 * width as real
  }

  /** The exact (unrounded) screen row of an NDC y coordinate; y points up, rows go down. */
  function NdcToScreenY(y: real, height: int): real
  {
    (-y + 1.0) / 2.0 * height as real
  }

  /** A screen column back in NDC: `x / (width / 2) - 1`. */
  function ScreenToNdcX(sx: real, width: int): (x: real)
    requires width != 0
  {
    sx / (width as real * 0.5) - 1.0
  }

  /** A screen row back in NDC: `1 - y / (height / 2)`. */
  function ScreenToNdcY(sy: real, height: int): (y: real)
    requires height != 0
  {
    1.0 - sy / (height as real * 0.5)
  }

  /** Screen-to-NDC undoes NDC-to-screen on both axes. */
  lemma ScreenNdcRoundTrip(x: real, y: real, width: int, height: int)
    requires width != 0 && height != 0
    ensures ScreenToNdcX(NdcToScreenX(x, width), width) == x
    ensures ScreenToNdcY(NdcToScreenY(y, height), height) == y
  {
    var w := width as real;
    var h := height as real;
    assert (x + 1.0) / 2.0 * w == (x + 1.0) * (w * 0.5);
    DivCancel(x + 1.0, w * 0.5);
    assert (-y + 1.0) / 2.0 * h == (-y + 1.0) * (h * 0.5);
    DivCancel(-y + 1.0, h * 0.5);
  }

  /**
   * `to_screen_pos`: both NDC coordinates mapped to the screen, rounded and
   * cast to i32. Inside the NDC square the result lies in [0,W]x[0,H] and
   * within half a pixel of the exact position.
   */
  function ToScreenPos(pos: Vec3, width: int, height: int): (r: Vec2i)
    ensures I32_MIN <= r.x <= I32_MAX && I32_MIN <= r.y <= I32_MAX
    ensures 0 <= width <= I32_MAX && -1.0 <= pos.x <= 1.0 ==>
      0 <= r.x <= width && NdcToScreenX(pos.x, width) - 0.5 <= r.x as real <= NdcToScreenX(pos.x, width) + 0.5
    ensures 0 <= height <= I32_MAX && -1.0 <= pos.y <= 1.0 ==>
      0 <= r.y <= height && NdcToScreenY(pos.y, height) - 0.5 <= r.y as real <= NdcToScreenY(pos.y, height) + 0.5
  {
    Vec2i(ProjectAxis((pos.x + 1.0) / 2.0, width), ProjectAxis((-pos.y + 1.0) / 2.0, height))
  }

  /**
   * One axis of `to_screen_pos`: the fraction `a` of the extent `n`, rounded
   * and cast to i32. A fraction in [0,1] lands in [0,n], within half a
   * pixel of `a * n`.
   */
  function ProjectAxis(a: real, n: int): (r: int)
    ensures I32_MIN <= r <= I32_MAX
    ensures 0.0 <= a <= 1.0 && 0 <= n <= I32_MAX ==> 0 <= r <= n && a * n as real - 0.5 <= r as real <= a * n as real + 0.5
  {
    var t := a * n as real;
    if 0.0 <= a <= 1.0 && 0 <= n <= I32_MAX then
      ScaleUnit(a, n as real, t);
      RoundMonotone(t, n as real);
      RoundOfInteger(n);
      SaturateI32(Round(t))
    else SaturateI32(Round(t))
  }

  /** The NDC corners (-1, 1) and (1, -1) land on the screen corners (0, 0) and (W, H). */
  lemma ScreenCorners(z: real, width: int, height: int)
    requires 0 <= width <= I32_MAX && 0 <= height <= I32_MAX
    ensures ToScreenPos(Vec3(-1.0, 1.0, z), width, height) == Vec2i(0, 0)
    ensures ToScreenPos(Vec3(1.0, -1.0, z), width, height) == Vec2i(width, height)
  {
    RoundOfInteger(0);
    RoundOfInteger(width);
    RoundOfInteger(height);
  }

  // ---------------------------------------------------------------- lines

  /**
   * A line after the steep transposition and the endpoint swap: it runs
   * from (x0, y0) to (x1, y1) along its major axis, in the transposed frame
   * when `steep`.
   */
  datatype LinePlan = LinePlan(steep: bool, x0: int, y0: int, x1: int, y1: int)

  /** A point of the transposed frame back in screen coordinates. */
  function Unswap(steep: bool, major: int, minor: int): Vec2i
  {
    if steep then Vec2i(minor, major) else Vec2i(major, minor)
  }

  /**
   * The set-up of `draw_line`: transpose when |dx| < |dy|, then order the
   * endpoints by the major coordinate. The major extent then bounds the
   * minor one, and the plan's endpoints are the screen endpoints.
   */
  function PlanLine(s0: Vec2i, s1: Vec2i): (plan: LinePlan)
    ensures plan.steep <==> Abs(s0.x - s1.x) < Abs(s0.y - s1.y)
    ensures plan.x0 <= plan.x1 && Abs(plan.y1 - plan.y0) <= plan.x1 - plan.x0
    ensures plan.x1 - plan.x0 == Max(Abs(s1.x - s0.x), Abs(s1.y - s0.y))
    ensures || (Unswap(plan.steep, plan.x0, plan.y0) == s0 && Unswap(plan.steep, plan.x1, plan.y1) == s1)
            || (Unswap(plan.steep, plan.x0, plan.y0) == s1 && Unswap(plan.steep, plan.x1, plan.y1) == s0)
  {
    var steep := Abs(s0.x - s1.x) < Abs(s0.y - s1.y);
    var a := if steep then Vec2i(s0.y, s0.x) else s0;
    var b := if steep then Vec2i(s1.y, s1.x) else s1;
    if a.x > b.x then LinePlan(steep, b.x, b.y, a.x, a.y) else LinePlan(steep, a.x, a.y, b.x, b.y)
  }

  /** The Bresenham loop's state before a step: minor offset so far and `error2`. */
  datatype Step = Step(minor: nat, error2: int)

  /**
   * The loop state before step `k`, step by step as `draw_line` updates it:
   * add `2 ady` to the error and, when it exceeds `dx`, advance the minor
   * coordinate and take `2 dx` back.
   */
  function Bresenham(k: nat, dx: nat, ady: nat): Step
  {
    if k == 0 then Step(0, 0) else NextStep(Bresenham(k - 1, dx, ady), dx, ady)
  }

  /** One loop iteration on the state. */
  function NextStep(s: Step, dx: nat, ady: nat): Step
  {
    var e := s.error2 + 2 * ady;
    if e > dx then Step(s.minor + 1, e - 2 * dx) else Step(s.minor, e)
  }

  lemma BresenhamNext(k: nat, dx: nat, ady: nat)
    ensures Bresenham(k + 1, dx, ady) == NextStep(Bresenham(k, dx, ady), dx, ady)
  {
  }

  /**
   * The minor offset after `k` steps in closed form: the nearest integer to
   * `k * ady / dx`, ties rounded down.
   */
  function Minor(k: nat, dx: nat, ady: nat): nat
  {
    if dx == 0 then 0 else (2 * k * ady + dx - 1) / (2 * dx)
  }

  /** The error term before step `k` in closed form. */
  function ErrorTerm(k: nat, dx: nat, ady: nat): int
  {
    2 * k * ady - 2 * dx * Minor(k, dx, ady)
  }

  /**
   * The error term stays within `[-dx, dx]` (strictly above `-dx` once the
   * line has extent), whenever the minor extent is at most the major one.
   */
  lemma {:induction false} BresenhamErrorBounded(k: nat, dx: nat, ady: nat)
    requires ady <= dx
    ensures -(dx as int) <= Bresenham(k, dx, ady).error2 <= dx
    ensures dx > 0 ==> -(dx as int) < Bresenham(k, dx, ady).error2
  {
    if k > 0 {
      BresenhamErrorBounded(k - 1, dx, ady);
    }
  }

  /** The step-by-step state agrees with the closed form at every step. */
  lemma {:induction false} BresenhamClosedForm(k: nat, dx: nat, ady: nat)
    requires ady <= dx
    ensures Bresenham(k, dx, ady) == Step(Minor(k, dx, ady), ErrorTerm(k, dx, ady))
  {
    if k == 0 {
      MinorEnds(dx, ady);
    } else {
      BresenhamClosedForm(k - 1, dx, ady);
      MinorStep(k - 1, dx, ady);
    }
  }

  /** One step of the closed form, matching one loop iteration. */
  lemma MinorStep(k: nat, dx: nat, ady: nat)
    requires ady <= dx
    ensures var e := ErrorTerm(k, dx, ady) + 2 * ady;
      if e > dx then Minor(k + 1, dx, ady) == Minor(k, dx, ady) + 1 && ErrorTerm(k + 1, dx, ady) == e - 2 * dx
      else Minor(k + 1, dx, ady) == Minor(k, dx, ady) && ErrorTerm(k + 1, dx, ady) == e
  {
    if dx > 0 {
      var m := Minor(k, dx, ady);
      ErrorTermBounds(k, dx, ady);
      var e := ErrorTerm(k, dx, ady) + 2 * ady;
      assert 2 * (k + 1) * ady - 2 * dx * m == e;
      if e > dx {
        assert 2 * (k + 1) * ady - 2 * dx * (m + 1) == e - 2 * dx;
        MinorCharacterised(k + 1, dx, ady, m + 1);
      } else {
        MinorCharacterised(k + 1, dx, ady, m);
      }
    }
  }

  /** The closed-form error term lies in `(-dx, dx]`. */
  lemma ErrorTermBounds(k: nat, dx: nat, ady: nat)
    requires dx > 0
    ensures -(dx as int) < ErrorTerm(k, dx, ady) <= dx
  {
    var n := 2 * k * ady + dx - 1;
    var d := 2 * dx;
    var q := n / d;
    assert q * d <= n < q * d + d;
    assert 2 * dx * q == q * d;
  }

  /**
   * The minor offset is the one integer `m` that keeps
   * `2 k ady - 2 dx m` within `(-dx, dx]`.
   */
  lemma MinorCharacterised(k: nat, dx: nat, ady: nat, m: int)
    requires dx > 0 && -(dx as int) < 2 * k * ady - 2 * dx * m <= dx
    ensures Minor(k, dx, ady) == m
  {
    assert m * (2 * dx) == 2 * dx * m;
    DivUnique(2 * k * ady + dx - 1, 2 * dx, m);
  }

  /** The minor offset starts at 0 and ends exactly at `ady`. */
  lemma MinorEnds(dx: nat, ady: nat)
    requires ady <= dx
    ensures Minor(0, dx, ady) == 0
    ensures Minor(dx, dx, ady) == ady
  {
    if dx > 0 {
      DivUnique(dx - 1, 2 * dx, 0);
      assert ady * (2 * dx) <= 2 * dx * ady + dx - 1 < ady * (2 * dx) + 2 * dx;
      DivUnique(2 * dx * ady + dx - 1, 2 * dx, ady);
    }
  }

  /** `y0 + y_step * m` with `y_step = 1` going up and `-1` otherwise. */
  function Advance(y0: int, up: bool, m: int): int
  {
    if up then y0 + m else y0 - m
  }

  /** The screen pixel of step `k` of a planned line. */
  function LinePixel(plan: LinePlan, k: nat): Vec2i
    requires plan.x0 <= plan.x1
  {
    var dx := plan.x1 - plan.x0;
    var ady := Abs(plan.y1 - plan.y0);
    Unswap(plan.steep, plan.x0 + k, Advance(plan.y0, plan.y1 > plan.y0, Bresenham(k, dx, ady).minor))
  }

  /**
   * Stands for the infinity or NaN the f32 depth formula yields when the
   * framebuffer has zero width or height; it lies outside the valid depth
   * range, and such a framebuffer has no pixel to write anyway.
   */
  const NO_DEPTH: real := 2.0 * F32_MAX

  /**
   * The depth `draw_line` is evidently meant to give the pixel at major
   * coordinate `major`: the line parameter `t` recovered from that
   * coordinate along the major spatial axis, then `p0.z + t * direction.z`;
   * `direction.z` itself when the direction has no extent along that axis.
   * The steep case maps the screen row back with `1 - y / (H/2)`, the
   * inverse of the projection. For shallow lines this is the source's own
   * formula; `LineDepthAsWritten` is what the source computes, and what
   * the line drawer below uses.
   */
  function LineDepth(steep: bool, major: int, p0: Vec3, direction: Vec3, width: int, height: int): (d: real)
    ensures steep && direction.y == 0.0 ==> d == direction.z
    ensures !steep && direction.x == 0.0 ==> d == direction.z
    ensures steep && direction.y != 0.0 && height == 0 ==> !DepthInRange(d)
    ensures !steep && direction.x != 0.0 && width == 0 ==> !DepthInRange(d)
  {
    if steep then
      if direction.y != 0.0 then
        if height == 0 then NO_DEPTH
        else
          var t := (ScreenToNdcY(major as real, height) - p0.y) / direction.y;
          p0.z + t * direction.z
      else direction.z
    else
      if direction.x != 0.0 then
        if width == 0 then NO_DEPTH
        else
          var t := (ScreenToNdcX(major as real, width) - p0.x) / direction.x;
          p0.z + t * direction.z
      else direction.z
  }

  /**
   * `draw_line`'s depth exactly as written: the steep case maps the screen
   * row back with `y / (H/2) - 1`, which is minus the NDC y.
   */
  function LineDepthAsWritten(steep: bool, major: int, p0: Vec3, direction: Vec3, width: int, height: int): (d: real)
    ensures !steep ==> d == LineDepth(steep, major, p0, direction, width, height)
    ensures direction.y == 0.0 || height == 0 ==> d == LineDepth(steep, major, p0, direction, width, height)
  {
    if steep then
      if direction.y != 0.0 then
        if height == 0 then NO_DEPTH
        else
          var t := ((major as real / (height as real * 0.5) - 1.0) - p0.y) / direction.y;
          p0.z + t * direction.z
      else direction.z
    else LineDepth(steep, major, p0, direction, width, height)
  }

  /**
   * Where an endpoint projects exactly onto a pixel along the major axis,
   * the depth there is that endpoint's z: the depth interpolates between
   * `p0.z` and `p1.z`.
   */
  lemma LineDepthAtEndpoints(p0: Vec3, p1: Vec3, major: int, width: int, height: int)
    requires width != 0 && height != 0
    ensures var direction := Sub3(p1, p0);
      && (direction.x != 0.0 && major as real == NdcToScreenX(p0.x, width) ==> LineDepth(false, major, p0, direction, width, height) == p0.z)
      && (direction.x != 0.0 && major as real == NdcToScreenX(p1.x, width) ==> LineDepth(false, major, p0, direction, width, height) == p1.z)
      && (direction.y != 0.0 && major as real == NdcToScreenY(p0.y, height) ==> LineDepth(true, major, p0, direction, width, height) == p0.z)
      && (direction.y != 0.0 && major as real == NdcToScreenY(p1.y, height) ==> LineDepth(true, major, p0, direction, width, height) == p1.z)
  {
    var direction := Sub3(p1, p0);
    ScreenNdcRoundTrip(p0.x, p0.y, width, height);
    ScreenNdcRoundTrip(p1.x, p1.y, width, height);
    if direction.x != 0.0 {
      assert (p1.x - p0.x) / direction.x == 1.0;
    }
    if direction.y != 0.0 {
      assert (p1.y - p0.y) / direction.y == 1.0;
    }
  }

  /**
   * The as-written steep depth is mirrored: for the vertical line from
   * (0, 0.5, 0) to (0, -0.5, 0.5) on a 100x100 framebuffer, the first pixel
   * (row 25, where p0 projects exactly) gets depth 0.5 and the last (row 75)
   * gets 0, the reverse of the endpoints' z; the corrected depth gives 0
   * and 0.5.
   */
  lemma SteepDepthMirrored()
    ensures var p0 := Vec3(0.0, 0.5, 0.0);
      var p1 := Vec3(0.0, -0.5, 0.5);
      var direction := Sub3(p1, p0);
      && ToScreenPos(p0, 100, 100) == Vec2i(50, 25)
      && ToScreenPos(p1, 100, 100) == Vec2i(50, 75)
      && PlanLine(Vec2i(50, 25), Vec2i(50, 75)) == LinePlan(true, 25, 50, 75, 50)
      && LineDepthAsWritten(true, 25, p0, direction, 100, 100) == 0.5
      && LineDepthAsWritten(true, 75, p0, direction, 100, 100) == 0.0
      && LineDepth(true, 25, p0, direction, 100, 100) == 0.0
      && LineDepth(true, 75, p0, direction, 100, 100) == 0.5
  {
    assert Round(50.0) == 50 by { RoundOfInteger(50); }
    assert Round(25.0) == 25 by { RoundOfInteger(25); }
    assert Round(75.0) == 75 by { RoundOfInteger(75); }
  }

  /** The `k`-th fragment `draw_line` issues for a planned line, with the depth as the source computes it. */
  function LineFragment(plan: LinePlan, k: nat, p0: Vec3, direction: Vec3, width: int, height: int, color: Color): Fragment
    requires plan.x0 <= plan.x1
  {
    var pos := LinePixel(plan, k);
    Fragment(pos.x, pos.y, LineDepthAsWritten(plan.steep, plan.x0 + k, p0, direction, width, height), color)
  }

  /** The fragments of the first `n` steps of a planned line, in order. */
  function LinePrefix(plan: LinePlan, n: nat, p0: Vec3, direction: Vec3, width: int, height: int, color: Color): (frags: seq<Fragment>)
    requires plan.x0 <= plan.x1 && n <= plan.x1 - plan.x0 + 1
    ensures |frags| == n
  {
    if n == 0 then []
    else LinePrefix(plan, n - 1, p0, direction, width, height, color) + [LineFragment(plan, n - 1, p0, direction, width, height, color)]
  }

  /** Step `k` of any prefix that reaches it is the `k`-th fragment. */
  lemma {:induction false} LinePrefixAt(plan: LinePlan, n: nat, k: nat, p0: Vec3, direction: Vec3, width: int, height: int, color: Color)
    requires plan.x0 <= plan.x1 && k < n <= plan.x1 - plan.x0 + 1
    ensures LinePrefix(plan, n, p0, direction, width, height, color)[k] == LineFragment(plan, k, p0, direction, width, height, color)
  {
    if k < n - 1 {
      LinePrefixAt(plan, n - 1, k, p0, direction, width, height, color);
    }
  }

  /** The fragments the stepping loop issues for a planned line, one per major coordinate. */
  function PlanFragments(plan: LinePlan, p0: Vec3, direction: Vec3, width: int, height: int, color: Color): (frags: seq<Fragment>)
    requires plan.x0 <= plan.x1
    ensures |frags| == plan.x1 - plan.x0 + 1
  {
    LinePrefix(plan, plan.x1 - plan.x0 + 1, p0, direction, width, height, color)
  }

  /**
   * The fragments `draw_line` issues, in order: one per major coordinate,
   * `max(|dx|, |dy|) + 1` in all.
   */
  function LineFragments(p0: Vec3, p1: Vec3, width: int, height: int, color: Color): (frags: seq<Fragment>)
    ensures var s0, s1 := ToScreenPos(p0, width, height), ToScreenPos(p1, width, height);
      |frags| == Max(Abs(s1.x - s0.x), Abs(s1.y - s0.y)) + 1
  {
    var plan := PlanLine(ToScreenPos(p0, width, height), ToScreenPos(p1, width, height));
    PlanFragments(plan, p0, Sub3(p1, p0), width, height, color)
  }

  function FragmentPos(f: Fragment): Vec2i
  {
    Vec2i(f.x, f.y)
  }

  /** The first and the last fragment are the two projected endpoints. */
  lemma LineHitsEndpoints(p0: Vec3, p1: Vec3, width: int, height: int, color: Color)
    ensures var frags := LineFragments(p0, p1, width, height, color);
      var s0, s1 := ToScreenPos(p0, width, height), ToScreenPos(p1, width, height);
      var first, last := FragmentPos(frags[0]), FragmentPos(frags[|frags| - 1]);
      (first == s0 && last == s1) || (first == s1 && last == s0)
  {
    var plan := PlanLine(ToScreenPos(p0, width, height), ToScreenPos(p1, width, height));
    PlanEnds(plan, p0, Sub3(p1, p0), width, height, color);
  }

  /** A planned line starts at its first endpoint and ends at its second. */
  lemma PlanEnds(plan: LinePlan, p0: Vec3, direction: Vec3, width: int, height: int, color: Color)
    requires plan.x0 <= plan.x1 && Abs(plan.y1 - plan.y0) <= plan.x1 - plan.x0
    ensures var frags := PlanFragments(plan, p0, direction, width, height, color);
      && FragmentPos(frags[0]) == Unswap(plan.steep, plan.x0, plan.y0)
      && FragmentPos(frags[|frags| - 1]) == Unswap(plan.steep, plan.x1, plan.y1)
  {
    var dx := plan.x1 - plan.x0;
    LinePrefixAt(plan, dx + 1, 0, p0, direction, width, height, color);
    LinePrefixAt(plan, dx + 1, dx, p0, direction, width, height, color);
    LinePixelEnds(plan);
  }

  lemma LinePixelEnds(plan: LinePlan)
    requires plan.x0 <= plan.x1 && Abs(plan.y1 - plan.y0) <= plan.x1 - plan.x0
    ensures LinePixel(plan, 0) == Unswap(plan.steep, plan.x0, plan.y0)
    ensures LinePixel(plan, plan.x1 - plan.x0) == Unswap(plan.steep, plan.x1, plan.y1)
  {
    var dx, ady := plan.x1 - plan.x0, Abs(plan.y1 - plan.y0);
    BresenhamClosedForm(0, dx, ady);
    BresenhamClosedForm(dx, dx, ady);
    MinorEnds(dx, ady);
  }

  /**
   * No gaps: consecutive fragments advance by exactly one pixel along the
   * major axis and by at most one (in the direction of the end point) along
   * the minor axis.
   */
  lemma LineConnected(p0: Vec3, p1: Vec3, width: int, height: int, color: Color, k: nat)
    requires k + 1 < |LineFragments(p0, p1, width, height, color)|
    ensures var frags := LineFragments(p0, p1, width, height, color);
      var a, b := frags[k], frags[k + 1];
      Abs(b.x - a.x) <= 1 && Abs(b.y - a.y) <= 1 && Abs(b.x - a.x) + Abs(b.y - a.y) >= 1
  {
    var plan := PlanLine(ToScreenPos(p0, width, height), ToScreenPos(p1, width, height));
    PlanConnected(plan, p0, Sub3(p1, p0), width, height, color, k);
  }

  /** Consecutive steps of a planned line are neighbouring pixels. */
  lemma PlanConnected(plan: LinePlan, p0: Vec3, direction: Vec3, width: int, height: int, color: Color, k: nat)
    requires plan.x0 <= plan.x1 && k < plan.x1 - plan.x0
    ensures var frags := PlanFragments(plan, p0, direction, width, height, color);
      var a, b := frags[k], frags[k + 1];
      Abs(b.x - a.x) <= 1 && Abs(b.y - a.y) <= 1 && Abs(b.x - a.x) + Abs(b.y - a.y) >= 1
  {
    var n := plan.x1 - plan.x0 + 1;
    LinePrefixAt(plan, n, k, p0, direction, width, height, color);
    LinePrefixAt(plan, n, k + 1, p0, direction, width, height, color);
  }

  /** A line whose endpoints project to the same pixel is that single pixel. */
  lemma LineOfOnePixel(p0: Vec3, p1: Vec3, width: int, height: int, color: Color)
    requires ToScreenPos(p0, width, height) == ToScreenPos(p1, width, height)
    ensures var frags := LineFragments(p0, p1, width, height, color);
      |frags| == 1 && FragmentPos(frags[0]) == ToScreenPos(p0, width, height)
  {
    LineHitsEndpoints(p0, p1, width, height, color);
  }

  /**
   * `draw_line`: projects both endpoints, transposes a steep line, orders
   * the endpoints, then steps along the major axis. It issues exactly the
   * fragments of `LineFragments`, in order.
   */
  method DrawLine(framebuffer: Framebuffer, p0: Vec3, p1: Vec3, color: Color)
    requires framebuffer.Valid()
    modifies framebuffer
    ensures framebuffer.Valid()
    ensures framebuffer.View() == old(framebuffer.View()).ApplyAll(LineFragments(p0, p1, framebuffer.width, framebuffer.height, color))
  {
    var p0s := ToScreenPos(p0, framebuffer.width, framebuffer.height);
    var p1s := ToScreenPos(p1, framebuffer.width, framebuffer.height);
    ghost var plan := PlanLine(p0s, p1s);
    var direction := Sub3(p1, p0);
    var steep := false;
    if Abs(p0s.x - p1s.x) < Abs(p0s.y - p1s.y) {
      p0s := Vec2i(p0s.y, p0s.x);
      p1s := Vec2i(p1s.y, p1s.x);
      steep := true;
    }
    if p0s.x > p1s.x {
      p0s, p1s := p1s, p0s;
    }
    assert plan == LinePlan(steep, p0s.x, p0s.y, p1s.x, p1s.y);
    StepLine(framebuffer, LinePlan(steep, p0s.x, p0s.y, p1s.x, p1s.y), p0, direction, color);
  }

  /**
   * The canvas after the first `k` steps of a planned line, one combined
   * write per step.
   */
  ghost function LineDrawn(c: Canvas, plan: LinePlan, k: nat, p0: Vec3, direction: Vec3, color: Color): (r: Canvas)
    requires c.Valid() && plan.x0 <= plan.x1 && k <= plan.x1 - plan.x0 + 1
    ensures r.Valid() && c.SameShape(r)
  {
    if k == 0 then c
    else
      var f := LineFragment(plan, k - 1, p0, direction, c.width, c.height, color);
      LineDrawn(c, plan, k - 1, p0, direction, color).SetColorWithDepth(f.x, f.y, f.depth, f.color)
  }

  /** Drawing the steps one by one applies the planned fragments in order. */
  lemma {:induction false} LineDrawnApplies(c: Canvas, plan: LinePlan, k: nat, p0: Vec3, direction: Vec3, color: Color)
    requires c.Valid() && plan.x0 <= plan.x1 && k <= plan.x1 - plan.x0 + 1
    ensures LineDrawn(c, plan, k, p0, direction, color) == c.ApplyAll(LinePrefix(plan, k, p0, direction, c.width, c.height, color))
  {
    if k > 0 {
      LineDrawnApplies(c, plan, k - 1, p0, direction, color);
      var f := LineFragment(plan, k - 1, p0, direction, c.width, c.height, color);
      ApplyAllSnoc(c, LinePrefix(plan, k - 1, p0, direction, c.width, c.height, color), f);
    }
  }

  /**
   * The body of `draw_line`'s stepping loop: the depth at major coordinate
   * `x`, then one combined write at `(x, y)`, transposed back for a steep
   * line. It issues the next fragment of the plan.
   */
  method PlotStep(framebuffer: Framebuffer, ghost c0: Canvas, plan: LinePlan, p0: Vec3, direction: Vec3, color: Color,
                  ghost k: nat, x: int, y: int, ghost st: Step)
    requires c0.Valid()
    requires plan.x0 <= plan.x1 && k <= plan.x1 - plan.x0 && x == plan.x0 + k
    requires st == Bresenham(k, plan.x1 - plan.x0, Abs(plan.y1 - plan.y0))
    requires y == Advance(plan.y0, plan.y1 > plan.y0, st.minor)
    requires framebuffer.View() == LineDrawn(c0, plan, k, p0, direction, color)
    modifies framebuffer
    ensures framebuffer.View() == LineDrawn(c0, plan, k + 1, p0, direction, color)
  {
    var depth := LineDepthAsWritten(plan.steep, x, p0, direction, framebuffer.width, framebuffer.height);
    ghost var f := LineFragment(plan, k, p0, direction, c0.width, c0.height, color);
    assert LinePixel(plan, k) == Unswap(plan.steep, x, y);
    assert f == Fragment(if plan.steep then y else x, if plan.steep then x else y, depth, color);
    ghost var before := LineDrawn(c0, plan, k, p0, direction, color);
    assert LineDrawn(c0, plan, k + 1, p0, direction, color) == before.SetColorWithDepth(f.x, f.y, f.depth, f.color);
    if plan.steep {
      framebuffer.SetColorWithDepth(y, x, depth, color);
    } else {
      framebuffer.SetColorWithDepth(x, y, depth, color);
    }
  }

  /**
   * The stepping loop of `draw_line` over a planned line: one combined write
   * per major coordinate, the minor coordinate following the Bresenham
   * error term.
   */
  method StepLine(framebuffer: Framebuffer, plan: LinePlan, p0: Vec3, direction: Vec3, color: Color)
    requires framebuffer.Valid()
    requires plan.x0 <= plan.x1 && Abs(plan.y1 - plan.y0) <= plan.x1 - plan.x0
    modifies framebuffer
    ensures framebuffer.Valid()
    ensures framebuffer.View() == old(framebuffer.View()).ApplyAll(
      PlanFragments(plan, p0, direction, framebuffer.width, framebuffer.height, color))
  {
    ghost var c0 := framebuffer.View();
    var dx := plan.x1 - plan.x0;
    var dy := plan.y1 - plan.y0;
    var derror2 := Abs(dy) * 2;
    var yStep := if plan.y1 > plan.y0 then 1 else -1;
    var error2 := 0;
    var y := plan.y0;
    var x := plan.x0;
    ghost var k: nat := 0;
    ghost var st := Step(0, 0);
    while x <= plan.x1
      invariant x == plan.x0 + k && k <= dx + 1
      invariant st == Bresenham(k, dx, Abs(dy))
      invariant y == Advance(plan.y0, plan.y1 > plan.y0, st.minor) && error2 == st.error2
      invariant framebuffer.View() == LineDrawn(c0, plan, k, p0, direction, color)
      decreases plan.x1 - x
    {
      PlotStep(framebuffer, c0, plan, p0, direction, color, k, x, y, st);
      BresenhamNext(k, dx, Abs(dy));
      st := NextStep(st, dx, Abs(dy));
      error2 := error2 + derror2;
      if error2 > dx {
        y := y + yStep;
        error2 := error2 - dx * 2;
      }
      x := x + 1;
      k := k + 1;
    }
    LineDrawnApplies(c0, plan, k, p0, direction, color);
  }
}
