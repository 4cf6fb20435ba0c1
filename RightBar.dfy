/**
 * The property panel of the canvas (src/app/components/Canvas.tsx):
 * `handleInputChange` with its per-field clamps, `getCommonProperty`, and
 * `handleGroupPositionChange`.
 */
module RightBar {
  import opened Wrappers
  import opened Shapes
  import opened Selection

  /** The `name` of a panel input (`TextString` is the `text` input). */
  datatype Field = X | Y | Width | Height | Radius | InnerRadius | OuterRadius
                 | FontSize | StrokeWidth | Rotation | Fill | TextString

  /** A field's value as the panel sees it. */
  datatype PropValue = Num(n: real) | Str(s: string)

  /** `hasProperty(shape, f) ? shape[f] : absent`. */
  function Property(s: Shape, f: Field): Option<PropValue> {
    match f
    case X => Some(Num(s.x))
    case Y => Some(Num(s.y))
    case Width => if s.width.Some? then Some(Num(s.width.value)) else None
    case Height => if s.height.Some? then Some(Num(s.height.value)) else None
    case Radius => if s.radius.Some? then Some(Num(s.radius.value)) else None
    case InnerRadius => if s.innerRadius.Some? then Some(Num(s.innerRadius.value)) else None
    case OuterRadius => if s.outerRadius.Some? then Some(Num(s.outerRadius.value)) else None
    case FontSize => if s.fontSize.Some? then Some(Num(s.fontSize.value)) else None
    case StrokeWidth => if s.strokeWidth.Some? then Some(Num(s.strokeWidth.value)) else None
    case Rotation => if s.rotation.Some? then Some(Num(s.rotation.value)) else None
    case Fill => if s.fill.Some? then Some(Str(s.fill.value)) else None
    case TextString => if s.text.Some? then Some(Str(s.text.value)) else None
  }

  /** The fields whose input is kept as the raw string. */
  predicate IsTextual(f: Field) { f == Fill || f == TextString }

  /** `[minValues[f], maxValues[f]]` for the fields that have both; the others are not clamped. */
  function Bounds(f: Field): Option<(real, real)> {
    match f
    case X => Some((50.0, 3950.0))
    case Y => Some((50.0, 3950.0))
    case Width => Some((1.0, 500.0))
    case Height => Some((1.0, 500.0))
    case Radius => Some((0.0, 100.0))
    case InnerRadius => Some((0.0, 100.0))
    case OuterRadius => Some((0.0, 100.0))
    case _ => None
  }

  /** The numeric input raised to the field's minimum or lowered to its maximum. */
  function ClampInput(f: Field, v: real): (r: real)
    ensures Bounds(f).Some? ==> Bounds(f).value.0 <= r <= Bounds(f).value.1
    ensures Bounds(f).Some? && Bounds(f).value.0 <= v <= Bounds(f).value.1 ==> r == v
    ensures Bounds(f).Some? && v < Bounds(f).value.0 ==> r == Bounds(f).value.0
    ensures Bounds(f).Some? && Bounds(f).value.1 < v ==> r == Bounds(f).value.1
    ensures Bounds(f).None? ==> r == v
  {
    match Bounds(f)
    case None => v
    case Some((lo, hi)) => if v < lo then lo else if v > hi then hi else v
  }

  /** Writes `v` into the shape's attribute for `f`. */
  function SetProperty(s: Shape, f: Field, v: PropValue): Shape {
    match f
    case X => s.(x := if v.Num? then v.n else s.x)
    case Y => s.(y := if v.Num? then v.n else s.y)
    case Width => s.(width := if v.Num? then Some(v.n) else s.width)
    case Height => s.(height := if v.Num? then Some(v.n) else s.height)
    case Radius => s.(radius := if v.Num? then Some(v.n) else s.radius)
    case InnerRadius => s.(innerRadius := if v.Num? then Some(v.n) else s.innerRadius)
    case OuterRadius => s.(outerRadius := if v.Num? then Some(v.n) else s.outerRadius)
    case FontSize => s.(fontSize := if v.Num? then Some(v.n) else s.fontSize)
    case StrokeWidth => s.(strokeWidth := if v.Num? then Some(v.n) else s.strokeWidth)
    case Rotation => s.(rotation := if v.Num? then Some(v.n) else s.rotation)
    case Fill => s.(fill := if v.Str? then Some(v.s) else s.fill)
    case TextString => s.(text := if v.Str? then Some(v.s) else s.text)
  }

  /**
   * One element of `handleInputChange`: `fill` and `text` store the raw
   * string, every other field the parsed number (`parseFloat(raw)`, given as
   * `parsed`), clamped where the field has bounds; no other field changes.
   */
  function ApplyInput(s: Shape, f: Field, raw: string, parsed: real): (r: Shape)
    ensures r.id == s.id && r.kind == s.kind && r.groupId == s.groupId
    ensures r.scaleX == s.scaleX && r.scaleY == s.scaleY && r.numPoints == s.numPoints
    ensures r.fontFamily == s.fontFamily
    ensures Property(r, f) == Some(if IsTextual(f) then Str(raw) else Num(ClampInput(f, parsed)))
    ensures forall g :: g != f ==> Property(r, g) == Property(s, g)
    ensures WellTyped(s) ==> WellTyped(r)
  {
    SetProperty(s, f, if IsTextual(f) then Str(raw) else Num(ClampInput(f, parsed)))
  }

  /** `handleInputChange` over the shapes being edited. */
  function InputChange(editShapes: seq<Shape>, f: Field, raw: string, parsed: real): (r: seq<Shape>)
    ensures |r| == |editShapes|
    ensures forall i :: 0 <= i < |r| ==> r[i] == ApplyInput(editShapes[i], f, raw, parsed)
  {
    seq(|editShapes|, i requires 0 <= i < |editShapes| => ApplyInput(editShapes[i], f, raw, parsed))
  }

  /** What the panel shows for a field: blank, a string, or a rounded number. */
  datatype CommonValue = Blank | Shown(s: string) | Rounded(n: int)

  /** Every edited shape has the field, with the first shape's value. */
  predicate IsCommon(editShapes: seq<Shape>, f: Field)
    requires |editShapes| > 0
  {
    forall i :: 0 <= i < |editShapes| ==> Property(editShapes[i], f).Some? && Property(editShapes[i], f) == Property(editShapes[0], f)
  }

  /**
   * `getCommonProperty(f)`: blank unless every edited shape carries the field
   * with one and the same value; strings are shown as they are, numbers rounded
   * with `Math.round`.
   */
  function GetCommonProperty(editShapes: seq<Shape>, f: Field): (r: CommonValue)
    ensures r != Blank <==> |editShapes| > 0 && IsCommon(editShapes, f)
    ensures r.Shown? ==> Property(editShapes[0], f) == Some(Str(r.s))
    ensures r.Rounded? ==> exists v :: Property(editShapes[0], f) == Some(Num(v)) && r.n as real - 0.5 <= v < r.n as real + 0.5
  {
    if |editShapes| == 0 then Blank
    else match Property(editShapes[0], f)
      case None => Blank
      case Some(first) =>
        if !IsCommon(editShapes, f) then Blank
        else match first
          case Str(s) => Shown(s)
          case Num(v) => Rounded(RoundHalfUp(v))
  }

  /** The group-move clamp: a coordinate kept within [50, 3950]. */
  function ClampGroupCoord(v: real): (r: real)
    ensures 50.0 <= r <= 3950.0
    ensures 50.0 <= v <= 3950.0 ==> r == v
    ensures v < 50.0 ==> r == 50.0
    ensures 3950.0 < v ==> r == 3950.0
  {
    if v < 50.0 then 50.0 else if v > 3950.0 then 3950.0 else v
  }

  /**
   * The shape map of `handleGroupPositionChange`: every selected shape moves
   * by `delta` and then BOTH of its coordinates are clamped into [50, 3950],
   * also on the axis that did not change; unselected shapes are untouched.
   */
  function ShiftSelected(shapes: seq<Shape>, sel: seq<string>, delta: Point): (r: seq<Shape>)
    ensures |r| == |shapes| && Ids(r) == Ids(shapes)
    ensures forall i :: 0 <= i < |r| ==> SameButPosition(shapes[i], r[i])
    ensures forall i :: 0 <= i < |r| && shapes[i].id !in sel ==> r[i] == shapes[i]
    ensures forall i :: 0 <= i < |r| && shapes[i].id in sel ==>
      && 50.0 <= r[i].x <= 3950.0 && 50.0 <= r[i].y <= 3950.0
      && (50.0 <= shapes[i].x + delta.x <= 3950.0 ==> r[i].x == shapes[i].x + delta.x)
      && (50.0 <= shapes[i].y + delta.y <= 3950.0 ==> r[i].y == shapes[i].y + delta.y)
    ensures forall i :: 0 <= i < |r| && shapes[i].id in sel ==>
      r[i] == MoveTo(shapes[i], ClampGroupCoord(shapes[i].x + delta.x), ClampGroupCoord(shapes[i].y + delta.y))
  {
    var r := seq(|shapes|, i requires 0 <= i < |shapes| =>
      if shapes[i].id in sel
      then MoveTo(shapes[i], ClampGroupCoord(shapes[i].x + delta.x), ClampGroupCoord(shapes[i].y + delta.y))
      else shapes[i]);
    assert Ids(r) == Ids(shapes);
    r
  }

  /**
   * The group position the panel shows: with more than one id selected, the
   * smallest x and smallest y among the selected shapes (`getBoundingBox`);
   * otherwise none.
   */
  function GroupPosition(shapes: seq<Shape>, sel: seq<string>): (r: Option<Point>)
    ensures r.Some? <==> |sel| > 1 && exists i :: 0 <= i < |shapes| && shapes[i].id in sel
    ensures r.Some? ==> r == SelectionCorner(shapes, sel)
  {
    if |sel| > 1 then SelectionCorner(shapes, sel) else None
  }

  /**
   * `handleGroupPositionChange`: nothing happens without a group position;
   * otherwise the selected shapes move by the difference between the typed
   * value and the group position on the input's axis (`groupX` when `onX`).
   */
  function GroupMove(shapes: seq<Shape>, sel: seq<string>, onX: bool, v: real): (r: seq<Shape>)
    ensures |r| == |shapes| && Ids(r) == Ids(shapes)
    ensures GroupPosition(shapes, sel).None? ==> r == shapes
    ensures GroupPosition(shapes, sel).Some? ==> r == ShiftSelected(shapes, sel, GroupDelta(GroupPosition(shapes, sel).value, onX, v))
  {
    var gp := GroupPosition(shapes, sel);
    if gp.None? then shapes else ShiftSelected(shapes, sel, GroupDelta(gp.value, onX, v))
  }

  /** The offset that brings the group's corner `g` to `v` on the input's axis. */
  function GroupDelta(g: Point, onX: bool, v: real): (d: Point)
    ensures onX ==> g.x + d.x == v && d.y == 0.0
    ensures !onX ==> g.y + d.y == v && d.x == 0.0
  {
    if onX then Point(v - g.x, 0.0) else Point(0.0, v - g.y)
  }

  /**
   * Typing a value into the group's x input puts the group's left edge at that
   * value and keeps its top edge, provided no selected shape meets the
   * [50, 3950] clamp.
   */
  lemma GroupMoveSetsCorner(shapes: seq<Shape>, sel: seq<string>, g: Point, v: real)
    requires GroupPosition(shapes, sel) == Some(g)
    requires forall i :: 0 <= i < |shapes| && shapes[i].id in sel ==>
      50.0 <= shapes[i].x + (v - g.x) <= 3950.0 && 50.0 <= shapes[i].y <= 3950.0
    ensures GroupPosition(GroupMove(shapes, sel, true, v), sel) == Some(Point(v, g.y))
  {
    var d := GroupDelta(g, true, v);
    assert Point(g.x + d.x, g.y + d.y) == Point(v, g.y);
    GroupMoveIsShift(shapes, sel, g, true, v);
    var r := GroupMove(shapes, sel, true, v);
    ShiftSetsCorner(shapes, sel, g, d);
    assert SelectionCorner(r, sel) == Some(Point(v, g.y));
  }

  /** With a group position `g`, the group move is the shift by `GroupDelta`. */
  lemma GroupMoveIsShift(shapes: seq<Shape>, sel: seq<string>, g: Point, onX: bool, v: real)
    requires GroupPosition(shapes, sel) == Some(g)
    ensures |sel| > 1 && IsSelectionCorner(shapes, sel, g)
    ensures GroupMove(shapes, sel, onX, v) == ShiftSelected(shapes, sel, GroupDelta(g, onX, v))
  {
  }

  /** A selection moved by an offset that meets no clamp has its corner moved by that offset. */
  lemma ShiftSetsCorner(shapes: seq<Shape>, sel: seq<string>, g: Point, d: Point)
    requires IsSelectionCorner(shapes, sel, g)
    requires forall i :: 0 <= i < |shapes| && shapes[i].id in sel ==>
      50.0 <= shapes[i].x + d.x <= 3950.0 && 50.0 <= shapes[i].y + d.y <= 3950.0
    ensures SelectionCorner(ShiftSelected(shapes, sel, d), sel) == Some(Point(g.x + d.x, g.y + d.y))
  {
    UnclampedShift(shapes, sel, d);
    SelectionCornerShifts(shapes, ShiftSelected(shapes, sel, d), sel, d, g);
  }

  /** When no selected shape meets the clamp, `ShiftSelected` moves each selected shape by exactly `delta`. */
  lemma UnclampedShift(shapes: seq<Shape>, sel: seq<string>, d: Point)
    requires forall i :: 0 <= i < |shapes| && shapes[i].id in sel ==>
      50.0 <= shapes[i].x + d.x <= 3950.0 && 50.0 <= shapes[i].y + d.y <= 3950.0
    ensures var r := ShiftSelected(shapes, sel, d);
      && |r| == |shapes|
      && (forall i :: 0 <= i < |shapes| ==> r[i].id == shapes[i].id)
      && (forall i :: 0 <= i < |shapes| && shapes[i].id in sel ==>
            r[i].x == shapes[i].x + d.x && r[i].y == shapes[i].y + d.y)
  {
    var r := ShiftSelected(shapes, sel, d);
    forall i | 0 <= i < |r| ensures r[i].id == shapes[i].id {
      assert Ids(r)[i] == Ids(shapes)[i];
    }
  }

  /** The id of a shape, as the key `find` compares. */
  function ShapeId(s: Shape): string {
    s.id
  }

  /** `editShapes.find(s => s.id === id)`. */
  function FindById(edits: seq<Shape>, id: string): Option<Shape> {
    FindFirst(edits, ShapeId, id)
  }

  /** `handleSave`: every shape for which an edited copy exists (by id) is replaced by that copy. */
  function SaveEdits(shapes: seq<Shape>, edits: seq<Shape>): (r: seq<Shape>)
    ensures |r| == |shapes| && Ids(r) == Ids(shapes)
    ensures forall i :: 0 <= i < |r| ==>
      if FindById(edits, shapes[i].id).Some? then r[i] == FindById(edits, shapes[i].id).value else r[i] == shapes[i]
    ensures AllWellTyped(shapes) && AllWellTyped(edits) ==> AllWellTyped(r)
  {
    var r := seq(|shapes|, i requires 0 <= i < |shapes| => FindById(edits, shapes[i].id).GetOr(shapes[i]));
    assert Ids(r) == Ids(shapes);
    assert forall i :: 0 <= i < |r| ==> r[i] in edits || r[i] == shapes[i];
    r
  }

  /** The panel's edited copy of shape `i`, found by id, is that shape with the input applied. */
  lemma EditedCopyOf(shapes: seq<Shape>, sel: seq<string>, f: Field, raw: string, parsed: real, i: int)
    requires UniqueIds(shapes) && 0 <= i < |shapes|
    ensures FindById(InputChange(SelectedShapes(shapes, sel), f, raw, parsed), shapes[i].id) ==
      if shapes[i].id in sel then Some(ApplyInput(shapes[i], f, raw, parsed)) else None
  {
    var chosen := SelectedShapes(shapes, sel);
    var edits := InputChange(chosen, f, raw, parsed);
    var found := FindById(edits, shapes[i].id);
    if found.Some? {
      var k :| 0 <= k < |edits| && edits[k] == found.value;
      assert chosen[k] in chosen;
      var j :| 0 <= j < |shapes| && shapes[j] == chosen[k];
      assert shapes[j].id == shapes[i].id;
      assert j == i;
    }
  }

  /**
   * Editing one field in the panel and saving changes exactly that field of
   * exactly the selected shapes, when ids are unique.
   */
  lemma EditThenSave(shapes: seq<Shape>, sel: seq<string>, f: Field, raw: string, parsed: real)
    requires UniqueIds(shapes)
    ensures var r := SaveEdits(shapes, InputChange(SelectedShapes(shapes, sel), f, raw, parsed));
      forall i :: 0 <= i < |r| ==>
        r[i] == if shapes[i].id in sel then ApplyInput(shapes[i], f, raw, parsed) else shapes[i]
  {
    forall i | 0 <= i < |shapes| {
      EditedCopyOf(shapes, sel, f, raw, parsed, i);
    }
  }

  /** Saving a panel that holds the selected shapes unedited leaves the scene as it is, when ids are unique. */
  lemma SaveUneditedIsIdentity(shapes: seq<Shape>, sel: seq<string>)
    requires UniqueIds(shapes)
    ensures SaveEdits(shapes, SelectedShapes(shapes, sel)) == shapes
  {
    var chosen := SelectedShapes(shapes, sel);
    var r := SaveEdits(shapes, chosen);
    forall i | 0 <= i < |shapes| ensures r[i] == shapes[i] {
      var found := FindById(chosen, shapes[i].id);
      if found.Some? {
        var j :| 0 <= j < |shapes| && shapes[j] == found.value;
        assert shapes[j].id == shapes[i].id;
      }
    }
  }
}
