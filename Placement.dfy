/**
 * Dropping a palette item onto the stage (`handleDrop` of
 * src/app/components/Canvas.tsx): the new shape a payload creates and the
 * rule that a drop onto an existing shape is refused.
 */
module Placement {
  import opened Wrappers
  import opened Shapes
  import opened Geometry
  import opened Selection
  import opened Viewport

  /** What a drop does with the scene. */
  datatype DropOutcome =
    | Blocked                 // the point is on a shape: an alert, nothing placed
    | UnknownPayload          // the dragged payload is none of the palette items
    | Placed(shape: Shape)    // the shape appended to the scene

  /** The identifier prefix of each palette payload. */
  function IdPrefix(payload: string): Option<string> {
    if payload == "Rect" then Some("rectangle_")
    else if payload == "Shape" then Some("ball_")
    else if payload == "Text" then Some("text_")
    else None
  }

  /** The shape literal a payload produces at `p`, numbered `nextId`. */
  function NewShape(payload: string, nextId: nat, p: Point): (r: Option<Shape>)
    ensures r.Some? <==> IdPrefix(payload).Some?
    ensures r.Some? ==>
      WellTyped(r.value) && r.value.x == p.x && r.value.y == p.y &&
      r.value.id == IdPrefix(payload).value + DecimalString(nextId) &&
      r.value.groupId == None && r.value.rotation == Some(0.0) &&
      r.value.scaleX == Some(1.0) && r.value.scaleY == Some(1.0)
    ensures r.Some? ==>
      r.value.radius == None && r.value.innerRadius == None && r.value.outerRadius == None &&
      r.value.numPoints == None && r.value.strokeWidth == None
    ensures payload == "Rect" ==>
      r.Some? && r.value.kind == Rectangle &&
      r.value.width == Some(100.0) && r.value.height == Some(100.0) && r.value.fill == Some("#0000ff") &&
      r.value.text == None && r.value.fontSize == None && r.value.fontFamily == None
    ensures payload == "Shape" ==>
      r.Some? && r.value.kind == Svg &&
      r.value.width == Some(100.0) && r.value.height == Some(100.0) && r.value.fill == None &&
      r.value.text == None && r.value.fontSize == None && r.value.fontFamily == None
    ensures payload == "Text" ==>
      r.Some? && r.value.kind == Text &&
      r.value.text == Some("Hello") && r.value.fontSize == Some(30.0) &&
      r.value.fontFamily == Some("Calibri") && r.value.fill == Some("#ffff00") &&
      r.value.width == None && r.value.height == None
  {
    var id := DecimalString(nextId);
    var blank := Shape("", Rectangle, p.x, p.y, None, None, None, None, None, None, None, None, None, None,
                       None, Some(0.0), Some(1.0), Some(1.0), None);
    if payload == "Rect" then
      Some(blank.(id := "rectangle_" + id, kind := Rectangle, width := Some(100.0), height := Some(100.0),
                  fill := Some("#0000ff")))
    else if payload == "Shape" then
      Some(blank.(id := "ball_" + id, kind := Svg, width := Some(100.0), height := Some(100.0)))
    else if payload == "Text" then
      Some(blank.(id := "text_" + id, kind := Text, text := Some("Hello"), fontSize := Some(30.0),
                  fontFamily := Some("Calibri"), fill := Some("#ffff00")))
    else None
  }

  /**
   * `handleDrop` at world point `p`: refused when the point is on an existing
   * shape (checked before the payload is read), ignored for an unknown
   * payload, otherwise the new shape.
   */
  function Drop(shapes: seq<Shape>, nextId: nat, payload: string, p: Point): (r: DropOutcome)
    ensures r.Blocked? <==> IsOverlapping(shapes, p.x, p.y)
    ensures r.UnknownPayload? <==> !IsOverlapping(shapes, p.x, p.y) && IdPrefix(payload).None?
    ensures r.Placed? ==> Some(r.shape) == NewShape(payload, nextId, p)
  {
    if IsOverlapping(shapes, p.x, p.y) then Blocked
    else match NewShape(payload, nextId, p)
      case None => UnknownPayload
      case Some(s) => Placed(s)
  }

  /** A rectangle or SVG image just placed at `p` refuses a second drop at the same point. */
  lemma DropTwiceIsBlocked(shapes: seq<Shape>, nextId: nat, payload: string, p: Point)
    requires Drop(shapes, nextId, payload, p).Placed?
    requires payload == "Rect" || payload == "Shape"
    ensures Drop(shapes + [Drop(shapes, nextId, payload, p).shape], nextId + 1, payload, p).Blocked?
  {
    var s := Drop(shapes, nextId, payload, p).shape;
    var after := shapes + [s];
    assert after[|shapes|] == s;
    assert HitsPoint(s, p.x, p.y);
  }

  /** A text shape never blocks later drops: the scene refuses exactly the points it refused before. */
  lemma PlacedTextNeverBlocks(shapes: seq<Shape>, nextId: nat, p: Point, q: Point)
    requires Drop(shapes, nextId, "Text", p).Placed?
    ensures IsOverlapping(shapes + [Drop(shapes, nextId, "Text", p).shape], q.x, q.y) ==
            IsOverlapping(shapes, q.x, q.y)
  {
    var after := shapes + [Drop(shapes, nextId, "Text", p).shape];
    if IsOverlapping(after, q.x, q.y) {
      var i :| 0 <= i < |after| && HitsPoint(after[i], q.x, q.y);
      assert i < |shapes| && shapes[i] == after[i];
    }
    if IsOverlapping(shapes, q.x, q.y) {
      var i :| 0 <= i < |shapes| && HitsPoint(shapes[i], q.x, q.y);
      assert after[i] == shapes[i];
    }
  }

  /** Distinct counters write distinct decimal strings. */
  lemma {:induction false} DecimalStringInjective(a: nat, b: nat)
    requires DecimalString(a) == DecimalString(b)
    ensures a == b
  {
    var da, db := DecimalString(a), DecimalString(b);
    assert da[|da| - 1] == db[|db| - 1];
    assert a % 10 == b % 10;
    if a >= 10 && b >= 10 {
      assert DecimalString(a / 10) == da[..|da| - 1];
      assert DecimalString(b / 10) == db[..|db| - 1];
      DecimalStringInjective(a / 10, b / 10);
    }
  }

  /**
   * Two drops that place shapes give them different identifiers whenever
   * their counters or their payloads differ.
   */
  lemma NewIdsDistinct(payload1: string, n1: nat, p1: Point, payload2: string, n2: nat, p2: Point)
    requires NewShape(payload1, n1, p1).Some? && NewShape(payload2, n2, p2).Some?
    requires n1 != n2 || payload1 != payload2
    ensures NewShape(payload1, n1, p1).value.id != NewShape(payload2, n2, p2).value.id
  {
    var pre1, pre2 := IdPrefix(payload1).value, IdPrefix(payload2).value;
    var id1, id2 := pre1 + DecimalString(n1), pre2 + DecimalString(n2);
    if pre1 == pre2 && id1 == id2 {
      assert DecimalString(n1) == id1[|pre1|..];
      assert DecimalString(n2) == id2[|pre2|..];
      DecimalStringInjective(n1, n2);
      assert false;
    } else if pre1 != pre2 {
      assert id1[0] == pre1[0] != pre2[0] == id2[0];
    }
  }

  /**
   * The location marker that a marquee drag adds while location drawing is on
   * (`handleMouseUp`): the dragged rectangle taken from pointer to world
   * coordinates as drawn (corner and size, a negative size kept as it is),
   * with id `"location_"` followed by the text of a random number (`token`).
   */
  function LocationMarker(rect: Box, v: View, token: string): (r: Shape)
    requires v.scale > 0.0
    ensures WellTyped(r) && r.kind == Location && r.id == "location_" + token
    ensures Point(r.x, r.y) == PointerToWorld(Point(rect.x, rect.y), v)
    ensures r.width.Some? && r.width.value * v.scale == rect.width
    ensures r.height.Some? && r.height.value * v.scale == rect.height
    ensures r.fill == Some("#0000ff") && r.strokeWidth == Some(2.0) && r.groupId == None
    ensures r.rotation == Some(0.0) && r.scaleX == Some(1.0) && r.scaleY == Some(1.0)
  {
    var corner := PointerToWorld(Point(rect.x, rect.y), v);
    Shape("location_" + token, Location, corner.x, corner.y,
          Some(rect.width / v.scale), Some(rect.height / v.scale), None, None, None, None, None, None, None,
          Some("#0000ff"), Some(2.0), Some(0.0), Some(1.0), Some(1.0), None)
  }
}
