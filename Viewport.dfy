/**
 * Pan and zoom of the stage (src/app/components/Canvas.tsx): the wheel zoom
 * step, the pan clamp of mouse-move, and the conversions between pointer and
 * world coordinates.
 */
module Viewport {
  import opened Shapes

  const ScaleBy: real := 1.5
  const MinScale: real := 0.18
  const MaxScale: real := 5.0

  /** The accepted zoom range, open at both ends. */
  predicate ScaleInBounds(scale: real) { MinScale < scale < MaxScale }

  /** The stage scale and stage position. */
  datatype View = View(scale: real, pos: Point)

  /** The scale a wheel event asks for: up by 1.5 when scrolling up (`deltaY < 0`), down by 1.5 otherwise. */
  function ZoomedScale(scale: real, deltaY: real): (r: real)
    ensures scale > 0.0 ==> r > 0.0
    ensures deltaY < 0.0 ==> r == scale * ScaleBy
    ensures deltaY >= 0.0 ==> r * ScaleBy == scale
  {
    if deltaY < 0.0 then scale * ScaleBy else scale / ScaleBy
  }

  /** `p - m * scale`, replaced by 0 when positive. */
  function AnchoredOffset(p: real, m: real, scale: real): (r: real)
    ensures r <= 0.0
    ensures p - m * scale <= 0.0 ==> r == p - m * scale
    ensures p - m * scale > 0.0 ==> r == 0.0
  {
    if p - m * scale > 0.0 then 0.0 else p - m * scale
  }

  /**
   * `handleWheel`: the new scale is taken only when it lies strictly between
   * 0.18 and 5, with a position that keeps the world point under the pointer
   * where it was (each coordinate capped at 0); otherwise nothing changes.
   */
  function Zoom(v: View, pointer: Point, deltaY: real): (r: View)
    requires v.scale > 0.0
    ensures ScaleInBounds(ZoomedScale(v.scale, deltaY)) ==>
      r.scale == ZoomedScale(v.scale, deltaY) && r.pos.x <= 0.0 && r.pos.y <= 0.0
    ensures ScaleInBounds(ZoomedScale(v.scale, deltaY)) ==>
      r.pos == Point(AnchoredOffset(pointer.x, (pointer.x - v.pos.x) / v.scale, r.scale),
                     AnchoredOffset(pointer.y, (pointer.y - v.pos.y) / v.scale, r.scale))
    ensures !ScaleInBounds(ZoomedScale(v.scale, deltaY)) ==> r == v
  {
    var newScale := ZoomedScale(v.scale, deltaY);
    var mouseX := (pointer.x - v.pos.x) / v.scale;
    var mouseY := (pointer.y - v.pos.y) / v.scale;
    if ScaleInBounds(newScale) then
      View(newScale, Point(AnchoredOffset(pointer.x, mouseX, newScale), AnchoredOffset(pointer.y, mouseY, newScale)))
    else v
  }

  /** From any scale in the accepted range (the initial scale 1 among them), zooming keeps the scale in that range. */
  lemma ZoomKeepsScaleInBounds(v: View, pointer: Point, deltaY: real)
    requires ScaleInBounds(v.scale)
    ensures ScaleInBounds(Zoom(v, pointer, deltaY).scale)
  {
  }

  /** On each axis where the new offset is not capped, the world point under the pointer stays under it. */
  lemma ZoomKeepsPointerAnchored(v: View, pointer: Point, deltaY: real)
    requires v.scale > 0.0
    requires ScaleInBounds(ZoomedScale(v.scale, deltaY))
    ensures var r := Zoom(v, pointer, deltaY);
      pointer.x - (pointer.x - v.pos.x) / v.scale * r.scale <= 0.0 ==>
        (pointer.x - r.pos.x) / r.scale == (pointer.x - v.pos.x) / v.scale
    ensures var r := Zoom(v, pointer, deltaY);
      pointer.y - (pointer.y - v.pos.y) / v.scale * r.scale <= 0.0 ==>
        (pointer.y - r.pos.y) / r.scale == (pointer.y - v.pos.y) / v.scale
  {
    var r := Zoom(v, pointer, deltaY);
    var mx := (pointer.x - v.pos.x) / v.scale;
    var my := (pointer.y - v.pos.y) / v.scale;
    var ax, ay := AnchoredOffset(pointer.x, mx, r.scale), AnchoredOffset(pointer.y, my, r.scale);
    assert r.pos == Point(ax, ay);
    if pointer.x - mx * r.scale <= 0.0 {
      assert pointer.x - ax == mx * r.scale;
    }
    if pointer.y - my * r.scale <= 0.0 {
      assert pointer.y - ay == my * r.scale;
    }
  }

  /**
   * The panning branch of `handleMouseMove`: the stage follows the pointer,
   * first capped at 0 and then raised to at least the container size minus the
   * scaled canvas size (so the lower bound wins when the container is larger).
   */
  function PanClamp(pointer: Point, lastPos: Point, scale: real, canvasWidth: real, canvasHeight: real,
                    containerWidth: real, containerHeight: real): (r: Point)
    ensures r.x >= containerWidth - canvasWidth * scale && r.y >= containerHeight - canvasHeight * scale
    ensures containerWidth - canvasWidth * scale <= 0.0 ==> r.x <= 0.0
    ensures containerHeight - canvasHeight * scale <= 0.0 ==> r.y <= 0.0
    ensures containerWidth - canvasWidth * scale <= pointer.x - lastPos.x * scale <= 0.0 ==>
      r.x == pointer.x - lastPos.x * scale
    ensures containerHeight - canvasHeight * scale <= pointer.y - lastPos.y * scale <= 0.0 ==>
      r.y == pointer.y - lastPos.y * scale
    ensures pointer.x - lastPos.x * scale < containerWidth - canvasWidth * scale ==>
      r.x == containerWidth - canvasWidth * scale
    ensures pointer.y - lastPos.y * scale < containerHeight - canvasHeight * scale ==>
      r.y == containerHeight - canvasHeight * scale
    ensures pointer.x - lastPos.x * scale > 0.0 ==> r.x == Max(0.0, containerWidth - canvasWidth * scale)
    ensures pointer.y - lastPos.y * scale > 0.0 ==> r.y == Max(0.0, containerHeight - canvasHeight * scale)
  {
    var x := Max(Min(pointer.x - lastPos.x * scale, 0.0), containerWidth - canvasWidth * scale);
    var y := Max(Min(pointer.y - lastPos.y * scale, 0.0), containerHeight - canvasHeight * scale);
    Point(x, y)
  }

  /** The offset the stage is drawn at: `stagePos > 0 ? 0 : stagePos`. */
  function RenderedOffset(o: real): (r: real)
    ensures r <= 0.0
    ensures o <= 0.0 ==> r == o
    ensures o > 0.0 ==> r == 0.0
  {
    if o > 0.0 then 0.0 else o
  }

  /**
   * The drop handler's pointer conversion: the position within the stage
   * element minus the stage position, that position counted as 0 when
   * positive, divided by the scale.
   */
  function ScreenToWorld(local: Point, v: View): Point
    requires v.scale > 0.0
  {
    Point(if v.pos.x > 0.0 then local.x / v.scale else (local.x - v.pos.x) / v.scale,
          if v.pos.y > 0.0 then local.y / v.scale else (local.y - v.pos.y) / v.scale)
  }

  /** Where a world point is drawn within the stage element: scaled, then shifted by the rendered offset. */
  function WorldToScreen(world: Point, v: View): Point {
    Point(world.x * v.scale + RenderedOffset(v.pos.x), world.y * v.scale + RenderedOffset(v.pos.y))
  }

  /** The drop conversion inverts the stage transform as drawn, both ways round. */
  lemma ScreenWorldRoundTrip(local: Point, world: Point, v: View)
    requires v.scale > 0.0
    ensures WorldToScreen(ScreenToWorld(local, v), v) == local
    ensures ScreenToWorld(WorldToScreen(world, v), v) == world
  {
    var w := ScreenToWorld(local, v);
    assert w.x * v.scale == local.x - RenderedOffset(v.pos.x);
    assert w.y * v.scale == local.y - RenderedOffset(v.pos.y);
    var s := WorldToScreen(world, v);
    assert (s.x - RenderedOffset(v.pos.x)) / v.scale == world.x;
    assert (s.y - RenderedOffset(v.pos.y)) / v.scale == world.y;
  }

  /** `(pointer - stagePos) / stageScale`, the conversion of the context menu and pan start (no positive-offset rule). */
  function PointerToWorld(pointer: Point, v: View): (r: Point)
    requires v.scale > 0.0
    ensures r.x * v.scale + v.pos.x == pointer.x && r.y * v.scale + v.pos.y == pointer.y
  {
    Point((pointer.x - v.pos.x) / v.scale, (pointer.y - v.pos.y) / v.scale)
  }
}
