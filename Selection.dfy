/**
 * Selection rules of the canvas (src/app/components/Canvas.tsx): clicking a
 * shape, normalising the marquee box, and the selected shapes' top-left corner.
 */
module Selection {
  import opened Wrappers
  import opened Shapes

  /** `selectedIds.filter(_id => _id !== id)`. */
  function RemoveId(sel: seq<string>, id: string): (r: seq<string>)
    ensures |r| <= |sel|
    ensures forall x :: x in r <==> x in sel && x != id
    ensures multiset(r) == multiset(sel)[id := 0]
  {
    if |sel| == 0 then []
    else
      assert sel == [sel[0]] + sel[1..];
      if sel[0] == id then RemoveId(sel[1..], id)
      else [sel[0]] + RemoveId(sel[1..], id)
  }

  /**
   * `handleShapeClick(e, id)`: a plain click selects only the shape unless it
   * is already selected (then nothing changes); a click with Shift, Ctrl or Meta
   * toggles the shape's membership and leaves every other id as it was.
   */
  function ClickSelect(sel: seq<string>, id: string, modifier: bool): (r: seq<string>)
    ensures !modifier && id !in sel ==> r == [id]
    ensures !modifier && id in sel ==> r == sel
    ensures modifier ==> (id in r <==> id !in sel)
    ensures modifier ==> forall x :: x != id ==> (x in r <==> x in sel)
    ensures modifier && id in sel ==> r == RemoveId(sel, id) && |r| < |sel|
    ensures modifier && id !in sel ==> multiset(r) == multiset(sel) + multiset{id} && r[..|sel|] == sel
  {
    var isSelected := id in sel;
    if !modifier && !isSelected then [id]
    else if modifier && isSelected then RemoveId(sel, id)
    else if modifier && !isSelected then sel + [id]
    else sel
  }

  /** Clicking twice with a modifier restores the set of selected ids. */
  lemma ModifierClickTwice(sel: seq<string>, id: string)
    ensures forall x :: x in ClickSelect(ClickSelect(sel, id, true), id, true) <==> x in sel
  {
  }

  /** The marquee rectangle in stage coordinates; width and height may be negative while dragging. */
  datatype Box = Box(x: real, y: real, width: real, height: real)

  /** The marquee box at mouse-up, made canonical: the same corners, non-negative size. */
  function Normalise(b: Box): (r: Box)
    ensures r.width >= 0.0 && r.height >= 0.0
    ensures {r.x, r.x + r.width} == {b.x, b.x + b.width}
    ensures {r.y, r.y + r.height} == {b.y, b.y + b.height}
  {
    Box(Min(b.x, b.x + b.width), Min(b.y, b.y + b.height), Abs(b.width), Abs(b.height))
  }

  /** A canonical box is its own normal form. */
  lemma NormaliseIdempotent(b: Box)
    ensures Normalise(Normalise(b)) == Normalise(b)
  {
  }

  /** `shapes.filter(shape => ids.includes(shape.id))`, in scene order. */
  function SelectedShapes(shapes: seq<Shape>, sel: seq<string>): (r: seq<Shape>)
    ensures |r| <= |shapes|
    ensures forall s :: s in r <==> s in shapes && s.id in sel
  {
    if |shapes| == 0 then []
    else if shapes[0].id in sel then [shapes[0]] + SelectedShapes(shapes[1..], sel)
    else SelectedShapes(shapes[1..], sel)
  }

  /** The panel holds every selected shape as many times as the scene does, and no unselected one. */
  lemma {:induction false} SelectedShapesCount(shapes: seq<Shape>, sel: seq<string>, s: Shape)
    ensures multiset(SelectedShapes(shapes, sel))[s] == if s.id in sel then multiset(shapes)[s] else 0
  {
    if |shapes| != 0 {
      assert shapes == [shapes[0]] + shapes[1..];
      SelectedShapesCount(shapes[1..], sel, s);
    }
  }

  /** The panel lists the selected shapes in scene order: the filter of a concatenation is the concatenation of the filters. */
  lemma {:induction false} SelectedShapesConcat(a: seq<Shape>, b: seq<Shape>, sel: seq<string>)
    ensures SelectedShapes(a + b, sel) == SelectedShapes(a, sel) + SelectedShapes(b, sel)
  {
    if a != [] {
      assert (a + b)[0] == a[0];
      assert (a + b)[1..] == a[1..] + b;
      SelectedShapesConcat(a[1..], b, sel);
    } else {
      assert a + b == b;
    }
  }

  /** `p` is the smallest x and the smallest y among the selected shapes, both attained. */
  predicate IsSelectionCorner(shapes: seq<Shape>, sel: seq<string>, p: Point) {
    && (forall i :: 0 <= i < |shapes| && shapes[i].id in sel ==> p.x <= shapes[i].x && p.y <= shapes[i].y)
    && (exists i :: 0 <= i < |shapes| && shapes[i].id in sel && p.x == shapes[i].x)
    && (exists i :: 0 <= i < |shapes| && shapes[i].id in sel && p.y == shapes[i].y)
  }

  /** There is at most one selection corner. */
  lemma SelectionCornerUnique(shapes: seq<Shape>, sel: seq<string>, p: Point, q: Point)
    requires IsSelectionCorner(shapes, sel, p) && IsSelectionCorner(shapes, sel, q)
    ensures p == q
  {
    var ix :| 0 <= ix < |shapes| && shapes[ix].id in sel && p.x == shapes[ix].x;
    var iy :| 0 <= iy < |shapes| && shapes[iy].id in sel && p.y == shapes[iy].y;
    var jx :| 0 <= jx < |shapes| && shapes[jx].id in sel && q.x == shapes[jx].x;
    var jy :| 0 <= jy < |shapes| && shapes[jy].id in sel && q.y == shapes[jy].y;
    assert p.x <= shapes[jx].x && q.x <= shapes[ix].x;
    assert p.y <= shapes[jy].y && q.y <= shapes[iy].y;
  }

  /**
   * The smallest x and the smallest y among the shapes whose id is selected,
   * `None` when no shape is selected.
   */
  function SelectionCorner(shapes: seq<Shape>, sel: seq<string>): (r: Option<Point>)
    ensures r.None? <==> forall i :: 0 <= i < |shapes| ==> shapes[i].id !in sel
    ensures r.Some? ==> IsSelectionCorner(shapes, sel, r.value)
  {
    if |shapes| == 0 then None
    else
      var s := shapes[0];
      var rest := SelectionCorner(shapes[1..], sel);
      assert forall i :: 1 <= i < |shapes| ==> shapes[i] == shapes[1..][i - 1];
      if s.id !in sel then
        if rest.Some? then CornerSkipsHead(shapes, sel, rest.value); rest else rest
      else match rest
        case None =>
          var p := Point(s.x, s.y);
          assert shapes[0].id in sel && p.x == shapes[0].x && p.y == shapes[0].y;
          Some(p)
        case Some(q) =>
          CornerTakesHead(shapes, sel, q);
          Some(Point(Min(s.x, q.x), Min(s.y, q.y)))
  }

  /** An unselected first shape does not change the corner of the others. */
  lemma CornerSkipsHead(shapes: seq<Shape>, sel: seq<string>, p: Point)
    requires |shapes| > 0 && shapes[0].id !in sel && IsSelectionCorner(shapes[1..], sel, p)
    ensures IsSelectionCorner(shapes, sel, p)
  {
    var ix :| 0 <= ix < |shapes[1..]| && shapes[1..][ix].id in sel && p.x == shapes[1..][ix].x;
    var iy :| 0 <= iy < |shapes[1..]| && shapes[1..][iy].id in sel && p.y == shapes[1..][iy].y;
    assert shapes[ix + 1] == shapes[1..][ix] && shapes[iy + 1] == shapes[1..][iy];
    forall i | 0 <= i < |shapes| && shapes[i].id in sel ensures p.x <= shapes[i].x && p.y <= shapes[i].y {
      assert shapes[i] == shapes[1..][i - 1];
    }
  }

  /** A selected first shape takes part in the minimum on both axes. */
  lemma CornerTakesHead(shapes: seq<Shape>, sel: seq<string>, q: Point)
    requires |shapes| > 0 && shapes[0].id in sel && IsSelectionCorner(shapes[1..], sel, q)
    ensures IsSelectionCorner(shapes, sel, Point(Min(shapes[0].x, q.x), Min(shapes[0].y, q.y)))
  {
    var p := Point(Min(shapes[0].x, q.x), Min(shapes[0].y, q.y));
    var ix :| 0 <= ix < |shapes[1..]| && shapes[1..][ix].id in sel && q.x == shapes[1..][ix].x;
    var iy :| 0 <= iy < |shapes[1..]| && shapes[1..][iy].id in sel && q.y == shapes[1..][iy].y;
    assert shapes[ix + 1] == shapes[1..][ix] && shapes[iy + 1] == shapes[1..][iy];
    assert p.x == shapes[0].x || p.x == shapes[ix + 1].x;
    assert p.y == shapes[0].y || p.y == shapes[iy + 1].y;
    forall i | 0 <= i < |shapes| && shapes[i].id in sel ensures p.x <= shapes[i].x && p.y <= shapes[i].y {
      if i > 0 {
        assert shapes[i] == shapes[1..][i - 1];
      }
    }
  }

  /** A corner of the selection, moved with every selected shape, is a corner of the moved selection. */
  lemma IsSelectionCornerShifts(shapes: seq<Shape>, moved: seq<Shape>, sel: seq<string>, d: Point, g: Point)
    requires |moved| == |shapes|
    requires forall i :: 0 <= i < |shapes| ==> moved[i].id == shapes[i].id
    requires forall i :: 0 <= i < |shapes| && shapes[i].id in sel ==>
      moved[i].x == shapes[i].x + d.x && moved[i].y == shapes[i].y + d.y
    requires IsSelectionCorner(shapes, sel, g)
    ensures IsSelectionCorner(moved, sel, Point(g.x + d.x, g.y + d.y))
  {
    var ix :| 0 <= ix < |shapes| && shapes[ix].id in sel && g.x == shapes[ix].x;
    var iy :| 0 <= iy < |shapes| && shapes[iy].id in sel && g.y == shapes[iy].y;
    assert moved[ix].x == g.x + d.x && moved[ix].id in sel;
    assert moved[iy].y == g.y + d.y && moved[iy].id in sel;
  }

  /**
   * Moving every selected shape by the same offset, and nothing else about the
   * ids, moves the selection's corner by that offset.
   */
  lemma SelectionCornerShifts(shapes: seq<Shape>, moved: seq<Shape>, sel: seq<string>, d: Point, g: Point)
    requires |moved| == |shapes|
    requires forall i :: 0 <= i < |shapes| ==> moved[i].id == shapes[i].id
    requires forall i :: 0 <= i < |shapes| && shapes[i].id in sel ==>
      moved[i].x == shapes[i].x + d.x && moved[i].y == shapes[i].y + d.y
    requires IsSelectionCorner(shapes, sel, g)
    ensures SelectionCorner(moved, sel) == Some(Point(g.x + d.x, g.y + d.y))
  {
    var q := Point(g.x + d.x, g.y + d.y);
    IsSelectionCornerShifts(shapes, moved, sel, d, g);
    var after := SelectionCorner(moved, sel);
    SelectionCornerUnique(moved, sel, after.value, q);
  }
}
