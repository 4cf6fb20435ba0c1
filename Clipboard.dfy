/**
 * Cut and paste of the canvas (`handleCut`, `handlePaste` in
 * src/app/components/Canvas.tsx): a cut only marks shapes and records an anchor;
 * the paste moves the marked shapes by the offset from the anchor to the paste point.
 */
module Clipboard {
  import opened Wrappers
  import opened Shapes
  import opened SceneEdits
  import opened Selection

  /** The cut anchor: the smallest x and smallest y among the selected shapes, (0, 0) when none is selected. */
  function CutAnchor(shapes: seq<Shape>, sel: seq<string>): (p: Point)
    ensures (forall i :: 0 <= i < |shapes| ==> shapes[i].id !in sel) ==> p == Point(0.0, 0.0)
    ensures forall i :: 0 <= i < |shapes| && shapes[i].id in sel ==> p.x <= shapes[i].x && p.y <= shapes[i].y
    ensures (exists i :: 0 <= i < |shapes| && shapes[i].id in sel) ==>
      (exists i :: 0 <= i < |shapes| && shapes[i].id in sel && p.x == shapes[i].x) &&
      (exists i :: 0 <= i < |shapes| && shapes[i].id in sel && p.y == shapes[i].y)
  {
    SelectionCorner(shapes, sel).GetOr(Point(0.0, 0.0))
  }

  /** `(v + d) > limit ? limit - 50 : v + d`: only the upper side is clamped. */
  function PasteCoord(v: real, d: real, limit: real): (r: real)
    ensures r <= limit
    ensures v + d <= limit ==> r == v + d
    ensures v + d > limit ==> r == limit - 50.0
  {
    if v + d > limit then limit - 50.0 else v + d
  }

  /** Where a cut shape goes: shifted by `delta`, each coordinate at most the canvas size. */
  function PasteTarget(s: Shape, delta: Point, canvasWidth: real, canvasHeight: real): (p: Point)
    ensures p.x <= canvasWidth && p.y <= canvasHeight
    ensures s.x + delta.x <= canvasWidth ==> p.x == s.x + delta.x
    ensures s.x + delta.x > canvasWidth ==> p.x == canvasWidth - 50.0
    ensures s.y + delta.y <= canvasHeight ==> p.y == s.y + delta.y
    ensures s.y + delta.y > canvasHeight ==> p.y == canvasHeight - 50.0
  {
    Point(PasteCoord(s.x, delta.x, canvasWidth), PasteCoord(s.y, delta.y, canvasHeight))
  }

  /** One element of the paste map. */
  function PasteShape(shapes: seq<Shape>, cut: seq<string>, s: Shape, delta: Point,
                      canvasWidth: real, canvasHeight: real): (r: Shape)
    ensures SameButPosition(s, r)
  {
    if s.id !in cut then s
    else
      var p := PasteTarget(s, delta, canvasWidth, canvasHeight);
      if Collides(shapes, MoveTo(s, p.x, p.y)) then s else MoveTo(s, p.x, p.y)
  }

  /**
   * The map that `handlePaste` applies when a cut is pending: each cut shape
   * moves to its target unless it would collide there with another shape at
   * that shape's position before the paste; nothing else changes.
   */
  function Paste(shapes: seq<Shape>, cut: seq<string>, delta: Point,
                 canvasWidth: real, canvasHeight: real): (r: seq<Shape>)
    ensures |r| == |shapes| && Ids(r) == Ids(shapes)
    ensures forall i :: 0 <= i < |r| ==> SameButPosition(shapes[i], r[i])
    ensures forall i :: 0 <= i < |r| && shapes[i].id !in cut ==> r[i] == shapes[i]
    ensures forall i :: 0 <= i < |r| && shapes[i].id in cut ==>
      var p := PasteTarget(shapes[i], delta, canvasWidth, canvasHeight);
      if Collides(shapes, MoveTo(shapes[i], p.x, p.y)) then r[i] == shapes[i]
      else r[i] == MoveTo(shapes[i], p.x, p.y)
  {
    var r := seq(|shapes|, i requires 0 <= i < |shapes| =>
      PasteShape(shapes, cut, shapes[i], delta, canvasWidth, canvasHeight));
    assert Ids(r) == Ids(shapes);
    r
  }

  /** A shape moved by a paste ends at its anchor offset, or at canvas size minus 50 on an axis where that offset would pass the canvas edge. */
  lemma PasteMovesByOffset(shapes: seq<Shape>, cut: seq<string>, delta: Point,
                           canvasWidth: real, canvasHeight: real, i: int)
    requires 0 <= i < |shapes|
    requires Paste(shapes, cut, delta, canvasWidth, canvasHeight)[i] != shapes[i]
    ensures var r := Paste(shapes, cut, delta, canvasWidth, canvasHeight)[i];
      && shapes[i].id in cut
      && (r.x == shapes[i].x + delta.x || (r.x == canvasWidth - 50.0 && shapes[i].x + delta.x > canvasWidth))
      && (r.y == shapes[i].y + delta.y || (r.y == canvasHeight - 50.0 && shapes[i].y + delta.y > canvasHeight))
      && !Collides(shapes, r)
  {
  }

  /** A cut shape whose offset target lies on the canvas and meets no other shape does move there. */
  lemma PasteMovesFreeShape(shapes: seq<Shape>, cut: seq<string>, delta: Point,
                            canvasWidth: real, canvasHeight: real, i: int)
    requires 0 <= i < |shapes| && shapes[i].id in cut
    requires shapes[i].x + delta.x <= canvasWidth && shapes[i].y + delta.y <= canvasHeight
    requires !Collides(shapes, MoveTo(shapes[i], shapes[i].x + delta.x, shapes[i].y + delta.y))
    ensures Paste(shapes, cut, delta, canvasWidth, canvasHeight)[i] ==
      MoveTo(shapes[i], shapes[i].x + delta.x, shapes[i].y + delta.y)
  {
  }
}
