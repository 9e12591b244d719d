/**
 * The framebuffer: a colour grid and a depth grid, both row-major, plus the
 * depth-test switch. `Canvas` is its value (what a reader of the buffers can
 * observe); the class `Framebuffer` holds that state in fields and updates it
 * in place, each method specified by the matching `Canvas` function.
 */
module Framebuffers {
  import opened Wrappers
  import opened Numerics
  import opened Colors
  import opened Grid

  datatype FramebufferError = BadSize | BadPosition

  /** The depth range the combined write accepts: [-1 - ε, 1 + ε]. */
  predicate DepthInRange(depth: real)
  {
    InClosedRange(depth, -1.0 - F32_EPSILON, 1.0 + F32_EPSILON)
  }

  /** The depth test: a valid depth strictly greater than the stored one wins. */
  predicate DepthTestPasses(depth: real, stored: real)
  {
    DepthInRange(depth) && depth > stored
  }

  /** One combined colour+depth write, as the rasterizers issue them. */
  datatype Fragment = Fragment(x: int, y: int, depth: real, color: Color)

  datatype Canvas = Canvas(width: int, height: int, colors: seq<Color>, depths: seq<real>, depthTest: bool)
  {
    ghost predicate Valid()
    {
      0 <= width && 0 <= height && |colors| == width * height && |depths| == width * height
    }

    /** Same dimensions and depth-test flag: only buffer contents may differ. */
    ghost predicate SameShape(other: Canvas)
    {
      other.width == width && other.height == height && other.depthTest == depthTest
      && |other.colors| == |colors| && |other.depths| == |depths|
    }

    /** `get_color`: the stored colour, or BadPosition outside the grid. */
    function GetColor(x: int, y: int): (r: Result<Color, FramebufferError>)
      requires Valid()
      ensures r.Ok? <==> InBounds(width, height, x, y)
      ensures r.Err? ==> r.error == BadPosition
      ensures r.Ok? ==> r.value == colors[Index(width, height, x, y)]
    {
      match CalcOffset(width, height, x, y)
      case None => Err(BadPosition)
      case Some(offset) => Ok(colors[offset])
    }

    /** `get_depth`: the stored depth, or `f32::MAX` ("farthest") outside the grid. */
    function GetDepth(x: int, y: int): (d: real)
      requires Valid()
      ensures InBounds(width, height, x, y) ==> d == depths[Index(width, height, x, y)]
      ensures !InBounds(width, height, x, y) ==> d == F32_MAX
    {
      match CalcOffset(width, height, x, y)
      case None => F32_MAX
      case Some(offset) => depths[offset]
    }

    /** `set_color`: writes one pixel in range, does nothing out of range. */
    function SetColor(x: int, y: int, color: Color): (r: Canvas)
      requires Valid()
      ensures r.Valid() && SameShape(r) && r.depths == depths
      ensures InBounds(width, height, x, y) ==> r.colors == colors[Index(width, height, x, y) := color]
      ensures InBounds(width, height, x, y) ==> r.GetColor(x, y) == Ok(color)
      ensures forall x', y' | x' != x || y' != y :: r.GetColor(x', y') == GetColor(x', y')
      ensures !InBounds(width, height, x, y) ==> r == this
    {
      match CalcOffset(width, height, x, y)
      case None => this
      case Some(offset) => this.(colors := colors[offset := color])
    }

    /** `set_depth`: writes one depth in range, does nothing out of range. */
    function SetDepth(x: int, y: int, depth: real): (r: Canvas)
      requires Valid()
      ensures r.Valid() && SameShape(r) && r.colors == colors
      ensures InBounds(width, height, x, y) ==> r.depths == depths[Index(width, height, x, y) := depth]
      ensures InBounds(width, height, x, y) ==> r.GetDepth(x, y) == depth
      ensures forall x', y' | x' != x || y' != y :: r.GetDepth(x', y') == GetDepth(x', y')
      ensures !InBounds(width, height, x, y) ==> r == this
    {
      match CalcOffset(width, height, x, y)
      case None => this
      case Some(offset) => this.(depths := depths[offset := depth])
    }

    /**
     * `set_color_with_depth`. With the depth test on, colour and depth are
     * both written exactly when the test passes, and nothing changes
     * otherwise; stored depths never decrease. With the test off it is
     * `set_color` and leaves the depth grid alone.
     */
    function SetColorWithDepth(x: int, y: int, depth: real, color: Color): (r: Canvas)
      requires Valid()
      ensures r.Valid() && SameShape(r)
      ensures depthTest && DepthTestPasses(depth, GetDepth(x, y)) ==>
        InBounds(width, height, x, y) && r.GetColor(x, y) == Ok(color) && r.GetDepth(x, y) == depth
      ensures depthTest && !DepthTestPasses(depth, GetDepth(x, y)) ==> r == this
      ensures depthTest && !InBounds(width, height, x, y) ==> r == this
      ensures depthTest ==> forall i | 0 <= i < |depths| :: depths[i] <= r.depths[i]
      ensures !depthTest ==> r == SetColor(x, y, color) && r.depths == depths
      ensures forall x', y' | x' != x || y' != y ::
        r.GetColor(x', y') == GetColor(x', y') && r.GetDepth(x', y') == GetDepth(x', y')
    {
      if depthTest then
        if DepthInRange(depth) && depth > GetDepth(x, y) then SetColor(x, y, color).SetDepth(x, y, depth)
        else this
      else SetColor(x, y, color)
    }

    /** `clear_color_with`: every colour becomes `color`; depths untouched. */
    function ClearColorWith(color: Color): (r: Canvas)
      requires Valid()
      ensures r.Valid() && SameShape(r) && r.depths == depths
      ensures forall i | 0 <= i < |r.colors| :: r.colors[i] == color
      ensures forall x, y | InBounds(width, height, x, y) :: r.GetColor(x, y) == Ok(color)
    {
      this.(colors := seq(|colors|, _ => color))
    }

    /** `clear_color`: clears to transparent. */
    function ClearColor(): (r: Canvas)
      requires Valid()
      ensures r.Valid() && SameShape(r) && r.depths == depths
      ensures forall x, y | InBounds(width, height, x, y) :: r.GetColor(x, y) == Ok(TRANSPARENT)
    {
      ClearColorWith(TRANSPARENT)
    }

    /** `clear_depth_with`: every depth becomes `depth`; colours untouched. */
    function ClearDepthWith(depth: real): (r: Canvas)
      requires Valid()
      ensures r.Valid() && SameShape(r) && r.colors == colors
      ensures forall i | 0 <= i < |r.depths| :: r.depths[i] == depth
      ensures forall x, y | InBounds(width, height, x, y) :: r.GetDepth(x, y) == depth
    {
      this.(depths := seq(|depths|, _ => depth))
    }

    /** `clear_depth`: resets every depth to `f32::MIN`, below any valid depth. */
    function ClearDepth(): (r: Canvas)
      requires Valid()
      ensures r.Valid() && SameShape(r) && r.colors == colors
      ensures forall x, y | InBounds(width, height, x, y) :: r.GetDepth(x, y) == F32_MIN
    {
      ClearDepthWith(F32_MIN)
    }

    /** `set_depth_test`. */
    function SetDepthTest(enable: bool): (r: Canvas)
      requires Valid()
      ensures r.Valid() && r.depthTest == enable
      ensures r.colors == colors && r.depths == depths && r.width == width && r.height == height
    {
      this.(depthTest := enable)
    }

    /** The combined writes of a sequence of fragments, issued in order. */
    function ApplyAll(frags: seq<Fragment>): (r: Canvas)
      requires Valid()
      ensures r.Valid() && SameShape(r)
      decreases |frags|
    {
      if frags == [] then this
      else
        var f := frags[|frags| - 1];
        ApplyAll(frags[..|frags| - 1]).SetColorWithDepth(f.x, f.y, f.depth, f.color)
    }
  }

  /** The state `create_init_color` builds: all pixels `color`, all depths `f32::MIN`, test on. */
  function Initial(width: nat, height: nat, color: Color): (c: Canvas)
    ensures c.Valid() && c.width == width && c.height == height && c.depthTest
    ensures forall x, y | InBounds(width, height, x, y) :: c.GetColor(x, y) == Ok(color) && c.GetDepth(x, y) == F32_MIN
  {
    Canvas(width, height, seq(width * height, _ => color), seq(width * height, _ => F32_MIN), true)
  }

  /** Applying `a + b` is applying `a`, then `b`. */
  lemma {:induction false} ApplyAllConcat(c: Canvas, a: seq<Fragment>, b: seq<Fragment>)
    requires c.Valid()
    ensures c.ApplyAll(a + b) == c.ApplyAll(a).ApplyAll(b)
    decreases |b|
  {
    if b == [] {
      assert a + b == a;
    } else {
      var b' := b[..|b| - 1];
      assert (a + b)[..|a + b| - 1] == a + b';
      assert (a + b)[|a + b| - 1] == b[|b| - 1];
      ApplyAllConcat(c, a, b');
    }
  }

  /** Applying one more fragment is one more combined write. */
  lemma ApplyAllSnoc(c: Canvas, frags: seq<Fragment>, f: Fragment)
    requires c.Valid()
    ensures c.ApplyAll(frags + [f]) == c.ApplyAll(frags).SetColorWithDepth(f.x, f.y, f.depth, f.color)
  {
    assert (frags + [f])[..|frags|] == frags;
  }

  /** Under depth-tested writes the stored depth of every pixel never decreases. */
  lemma {:induction false} ApplyAllDepthMonotone(c: Canvas, frags: seq<Fragment>)
    requires c.Valid() && c.depthTest
    ensures forall i | 0 <= i < |c.depths| :: c.depths[i] <= c.ApplyAll(frags).depths[i]
    decreases |frags|
  {
    if frags != [] {
      ApplyAllDepthMonotone(c, frags[..|frags| - 1]);
    }
  }

  /** A pixel no fragment targets keeps its colour and its depth. */
  lemma {:induction false} ApplyAllUntouched(c: Canvas, frags: seq<Fragment>, x: int, y: int)
    requires c.Valid()
    requires forall i | 0 <= i < |frags| :: frags[i].x != x || frags[i].y != y
    ensures c.ApplyAll(frags).GetColor(x, y) == c.GetColor(x, y)
    ensures c.ApplyAll(frags).GetDepth(x, y) == c.GetDepth(x, y)
    decreases |frags|
  {
    if frags != [] {
      ApplyAllUntouched(c, frags[..|frags| - 1], x, y);
    }
  }

  /** With the depth test off, no sequence of writes touches the depth grid. */
  lemma {:induction false} ApplyAllNoDepthTest(c: Canvas, frags: seq<Fragment>)
    requires c.Valid() && !c.depthTest
    ensures c.ApplyAll(frags).depths == c.depths
    decreases |frags|
  {
    if frags != [] {
      ApplyAllNoDepthTest(c, frags[..|frags| - 1]);
    }
  }

  /**
   * After `clear_depth`, the first depth-tested write of a valid depth at an
   * in-range pixel always lands; a later write at the same pixel lands iff
   * its depth is valid and strictly greater.
   */
  lemma DepthTestAfterClear(c: Canvas, x: int, y: int, d1: real, c1: Color, d2: real, c2: Color)
    requires c.Valid() && c.depthTest && InBounds(c.width, c.height, x, y)
    requires DepthInRange(d1)
    ensures var first := c.ClearDepth().SetColorWithDepth(x, y, d1, c1);
      && first.GetColor(x, y) == Ok(c1) && first.GetDepth(x, y) == d1
      && var second := first.SetColorWithDepth(x, y, d2, c2);
      && (d2 <= d1 ==> second == first)
      && (d2 > d1 && DepthInRange(d2) ==> second.GetColor(x, y) == Ok(c2) && second.GetDepth(x, y) == d2)
  {
    var cleared := c.ClearDepth();
    assert cleared.GetDepth(x, y) == F32_MIN;
  }

  class Framebuffer {
    var colorBuffer: seq<Color>
    var depthBuffer: seq<real>
    var depthTest: bool
    const width: int
    const height: int

    /** The buffers' contents as a value. */
    function View(): Canvas
      reads this
    {
      Canvas(width, height, colorBuffer, depthBuffer, depthTest)
    }

    ghost predicate Valid()
      reads this
    {
      View().Valid()
    }

    constructor Init(width: int, height: int, color: Color)
      requires 0 <= width && 0 <= height
      ensures Valid() && View() == Initial(width, height, color)
    {
      this.width := width;
      this.height := height;
      colorBuffer := seq(width * height, _ => color);
      depthBuffer := seq(width * height, _ => F32_MIN);
      depthTest := true;
    }

    /**
     * `create_init_color`: BadSize iff a dimension is negative, otherwise a
     * fresh framebuffer in the `Initial` state. The i32 product
     * `width * height` must not overflow.
     */
    static method CreateInitColor(width: int, height: int, color: Color) returns (r: Result<Framebuffer, FramebufferError>)
      requires I32_MIN <= width <= I32_MAX && I32_MIN <= height <= I32_MAX
      requires width < 0 || height < 0 || width * height <= I32_MAX
      ensures r.Err? <==> width < 0 || height < 0
      ensures r.Err? ==> r.error == BadSize
      ensures r.Ok? ==> fresh(r.value) && r.value.Valid() && r.value.View() == Initial(width, height, color)
    {
      if width < 0 || height < 0 {
        return Err(BadSize);
      }
      var fb := new Framebuffer.Init(width, height, color);
      return Ok(fb);
    }

    /** `create`: `create_init_color` with a transparent fill. */
    static method Create(width: int, height: int) returns (r: Result<Framebuffer, FramebufferError>)
      requires I32_MIN <= width <= I32_MAX && I32_MIN <= height <= I32_MAX
      requires width < 0 || height < 0 || width * height <= I32_MAX
      ensures r.Err? <==> width < 0 || height < 0
      ensures r.Err? ==> r.error == BadSize
      ensures r.Ok? ==> fresh(r.value) && r.value.Valid() && r.value.View() == Initial(width, height, TRANSPARENT)
    {
      r := CreateInitColor(width, height, TRANSPARENT);
    }

    method ClearColorWith(color: Color)
      requires Valid()
      modifies this
      ensures Valid() && View() == old(View()).ClearColorWith(color)
    {
      colorBuffer := seq(|colorBuffer|, _ => color);
    }

    method ClearColor()
      requires Valid()
      modifies this
      ensures Valid() && View() == old(View()).ClearColor()
    {
      ClearColorWith(TRANSPARENT);
    }

    method ClearDepthWith(depth: real)
      requires Valid()
      modifies this
      ensures Valid() && View() == old(View()).ClearDepthWith(depth)
    {
      depthBuffer := seq(|depthBuffer|, _ => depth);
    }

    method ClearDepth()
      requires Valid()
      modifies this
      ensures Valid() && View() == old(View()).ClearDepth()
    {
      ClearDepthWith(F32_MIN);
    }

    method SetColor(x: int, y: int, color: Color)
      requires Valid()
      modifies this
      ensures Valid() && View() == old(View()).SetColor(x, y, color)
    {
      var offset := CalcOffset(width, height, x, y);
      if offset.Some? {
        colorBuffer := colorBuffer[offset.value := color];
      }
    }

    method GetColor(x: int, y: int) returns (r: Result<Color, FramebufferError>)
      requires Valid()
      ensures r == View().GetColor(x, y)
    {
      var offset := CalcOffset(width, height, x, y);
      if offset.None? {
        return Err(BadPosition);
      }
      return Ok(colorBuffer[offset.value]);
    }

    method SetDepthTest(enable: bool)
      requires Valid()
      modifies this
      ensures Valid() && View() == old(View()).SetDepthTest(enable)
    {
      depthTest := enable;
    }

    method SetDepth(x: int, y: int, depth: real)
      requires Valid()
      modifies this
      ensures Valid() && View() == old(View()).SetDepth(x, y, depth)
    {
      var offset := CalcOffset(width, height, x, y);
      if offset.Some? {
        depthBuffer := depthBuffer[offset.value := depth];
      }
    }

    method GetDepth(x: int, y: int) returns (d: real)
      requires Valid()
      ensures d == View().GetDepth(x, y)
    {
      var offset := CalcOffset(width, height, x, y);
      if offset.Some? {
        d := depthBuffer[offset.value];
      } else {
        d := F32_MAX;
      }
    }

    method SetColorWithDepth(x: int, y: int, depth: real, color: Color)
      requires Valid()
      modifies this
      ensures Valid() && View() == old(View()).SetColorWithDepth(x, y, depth, color)
    {
      if depthTest {
        var stored := GetDepth(x, y);
        if InClosedRange(depth, -1.0 - F32_EPSILON, 1.0 + F32_EPSILON) && depth > stored {
          SetColor(x, y, color);
          SetDepth(x, y, depth);
        }
      } else {
        SetColor(x, y, color);
      }
    }
  }

  /**
   * The end-to-end scenario: a fresh 64x64 framebuffer reads transparent at
   * (0,0); after writing red at (10,10) that pixel reads red and every other
   * pixel still reads transparent.
   */
  method SetThenGetScenario() returns (before: Result<Color, FramebufferError>, after: Result<Color, FramebufferError>)
    ensures before == Ok(TRANSPARENT)
    ensures after == Ok(RED)
  {
    var created := Framebuffer.Create(64, 64);
    var fb := created.value;
    before := fb.GetColor(0, 0);
    fb.SetColor(10, 10, RED);
    after := fb.GetColor(10, 10);
    assert forall x, y | InBounds(64, 64, x, y) && (x != 10 || y != 10) :: fb.View().GetColor(x, y) == Ok(TRANSPARENT);
  }
}
