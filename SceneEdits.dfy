/**
 * The shape-editing handlers of the canvas (src/app/components/Canvas.tsx) as
 * functions from the old scene to the new one: arrow-key nudge, single-shape
 * drag end, transform-end bake, delete, flip and the Ctrl rotation reset.
 */
module SceneEdits {
  import opened Wrappers
  import opened Shapes
  import opened Geometry

  /** `other` is a different shape (by id) that the candidate `moved` overlaps. */
  predicate CollidesWith(moved: Shape, other: Shape) {
    other.id != moved.id && IsOverlap(moved, other)
  }

  /** `prevShapes.some(other => other.id !== shape.id && isOverlap(moved, other))`. */
  predicate Collides(shapes: seq<Shape>, moved: Shape) {
    exists j :: 0 <= j < |shapes| && CollidesWith(moved, shapes[j])
  }

  // ---------------------------------------------------------------- arrow keys

  /** The key of a keydown event; any key other than the four arrows is `OtherKey`. */
  datatype Key = ArrowLeft | ArrowRight | ArrowUp | ArrowDown | OtherKey

  /** The position one 10-unit step away in the key's direction (no step for other keys). */
  function Step(s: Shape, key: Key): (p: Point)
    ensures Abs(p.x - s.x) + Abs(p.y - s.y) == if key == OtherKey then 0.0 else 10.0
    ensures key == ArrowLeft ==> p.x == s.x - 10.0 && p.y == s.y
    ensures key == ArrowRight ==> p.x == s.x + 10.0 && p.y == s.y
    ensures key == ArrowUp ==> p.x == s.x && p.y == s.y - 10.0
    ensures key == ArrowDown ==> p.x == s.x && p.y == s.y + 10.0
    ensures key == OtherKey ==> p.x == s.x && p.y == s.y
  {
    match key
    case ArrowLeft => Point(s.x - 10.0, s.y)
    case ArrowRight => Point(s.x + 10.0, s.y)
    case ArrowUp => Point(s.x, s.y - 10.0)
    case ArrowDown => Point(s.x, s.y + 10.0)
    case OtherKey => Point(s.x, s.y)
  }

  /**
   * The stepped position clamped to the canvas: rectangles and SVG images keep
   * half their size from every edge, circles and stars their radius; text and
   * location shapes are not clamped.
   */
  function NudgeTarget(s: Shape, key: Key, canvasWidth: real, canvasHeight: real): (p: Point)
    ensures RectLike(s.kind) ==>
      && p.x >= OrZero(s.width) / 2.0 && p.y >= OrZero(s.height) / 2.0
      && (OrZero(s.width) <= canvasWidth ==> p.x <= canvasWidth - OrZero(s.width) / 2.0)
      && (OrZero(s.height) <= canvasHeight ==> p.y <= canvasHeight - OrZero(s.height) / 2.0)
    ensures Round(s.kind) ==>
      && p.x >= OrZero(s.radius) && p.y >= OrZero(s.radius)
      && (2.0 * OrZero(s.radius) <= canvasWidth ==> p.x <= canvasWidth - OrZero(s.radius))
      && (2.0 * OrZero(s.radius) <= canvasHeight ==> p.y <= canvasHeight - OrZero(s.radius))
    ensures RectLike(s.kind) ==>
      && p.x == ClampBetween(OrZero(s.width) / 2.0, canvasWidth - OrZero(s.width) / 2.0, Step(s, key).x)
      && p.y == ClampBetween(OrZero(s.height) / 2.0, canvasHeight - OrZero(s.height) / 2.0, Step(s, key).y)
    ensures Round(s.kind) ==>
      && p.x == ClampBetween(OrZero(s.radius), canvasWidth - OrZero(s.radius), Step(s, key).x)
      && p.y == ClampBetween(OrZero(s.radius), canvasHeight - OrZero(s.radius), Step(s, key).y)
    ensures !RectLike(s.kind) && !Round(s.kind) ==> p == Step(s, key)
    ensures InsideMargins(s, Step(s, key), canvasWidth, canvasHeight) ==> p == Step(s, key)
  {
    var q := Step(s, key);
    if RectLike(s.kind) then
      var hw, hh := OrZero(s.width) / 2.0, OrZero(s.height) / 2.0;
      Point(ClampBetween(hw, canvasWidth - hw, q.x), ClampBetween(hh, canvasHeight - hh, q.y))
    else if Round(s.kind) then
      var rad := OrZero(s.radius);
      Point(ClampBetween(rad, canvasWidth - rad, q.x), ClampBetween(rad, canvasHeight - rad, q.y))
    else
      q
  }

  /** `p` keeps the kind's margin (half-size or radius) from every canvas edge. */
  predicate InsideMargins(s: Shape, p: Point, canvasWidth: real, canvasHeight: real) {
    if RectLike(s.kind) then
      OrZero(s.width) / 2.0 <= p.x <= canvasWidth - OrZero(s.width) / 2.0 &&
      OrZero(s.height) / 2.0 <= p.y <= canvasHeight - OrZero(s.height) / 2.0
    else if Round(s.kind) then
      OrZero(s.radius) <= p.x <= canvasWidth - OrZero(s.radius) &&
      OrZero(s.radius) <= p.y <= canvasHeight - OrZero(s.radius)
    else true
  }

  /** One element of the arrow-key `prevShapes.map`. */
  function NudgeShape(shapes: seq<Shape>, sel: seq<string>, s: Shape, key: Key,
                      canvasWidth: real, canvasHeight: real): (r: Shape)
    ensures SameButPosition(s, r)
    ensures s.id !in sel ==> r == s
    ensures s.id in sel ==>
      var p := NudgeTarget(s, key, canvasWidth, canvasHeight);
      (r == s <== Collides(shapes, MoveTo(s, p.x, p.y))) &&
      (r == MoveTo(s, p.x, p.y) <== !Collides(shapes, MoveTo(s, p.x, p.y)))
  {
    if s.id !in sel then s
    else
      var p := NudgeTarget(s, key, canvasWidth, canvasHeight);
      if Collides(shapes, MoveTo(s, p.x, p.y)) then s else MoveTo(s, p.x, p.y)
  }

  /**
   * The arrow-key handler: with a non-empty selection, every selected shape
   * moves to its clamped target unless it would collide there with another shape
   * (at that shape's position before the key press, selected or not).
   */
  function Nudge(shapes: seq<Shape>, sel: seq<string>, key: Key,
                 canvasWidth: real, canvasHeight: real): (r: seq<Shape>)
    ensures |r| == |shapes| && Ids(r) == Ids(shapes)
    ensures forall i :: 0 <= i < |r| ==> SameButPosition(shapes[i], r[i])
    ensures forall i :: 0 <= i < |r| && shapes[i].id !in sel ==> r[i] == shapes[i]
    ensures forall i :: 0 <= i < |r| && r[i] != shapes[i] ==>
      && shapes[i].id in sel
      && r[i] == MoveTo(shapes[i], NudgeTarget(shapes[i], key, canvasWidth, canvasHeight).x,
                                   NudgeTarget(shapes[i], key, canvasWidth, canvasHeight).y)
      && !Collides(shapes, r[i])
    ensures forall i :: 0 <= i < |r| && shapes[i].id in sel ==>
      var p := NudgeTarget(shapes[i], key, canvasWidth, canvasHeight);
      !Collides(shapes, MoveTo(shapes[i], p.x, p.y)) ==> r[i] == MoveTo(shapes[i], p.x, p.y)
  {
    if |sel| == 0 then shapes
    else seq(|shapes|, i requires 0 <= i < |shapes| => NudgeShape(shapes, sel, shapes[i], key, canvasWidth, canvasHeight))
  }

  /** A selected shape whose clamped target collides with another shape stays where it was. */
  lemma NudgeVetoesCollisions(shapes: seq<Shape>, sel: seq<string>, key: Key,
                              canvasWidth: real, canvasHeight: real, i: int)
    requires 0 <= i < |shapes|
    requires var p := NudgeTarget(shapes[i], key, canvasWidth, canvasHeight);
      Collides(shapes, MoveTo(shapes[i], p.x, p.y))
    ensures Nudge(shapes, sel, key, canvasWidth, canvasHeight)[i] == shapes[i]
  {
  }

  /**
   * After a nudge, a rectangle or SVG image no wider than the canvas lies
   * within half its width of both side edges (and likewise vertically), and a
   * circle or star within its radius, whether it moved or kept a position that
   * already satisfied the bound.
   */
  lemma NudgeStaysOnCanvas(shapes: seq<Shape>, sel: seq<string>, key: Key,
                           canvasWidth: real, canvasHeight: real, i: int)
    requires 0 <= i < |shapes|
    requires shapes[i].id in sel
    requires InsideMargins(shapes[i], Point(shapes[i].x, shapes[i].y), canvasWidth, canvasHeight)
    requires RectLike(shapes[i].kind) ==> OrZero(shapes[i].width) <= canvasWidth && OrZero(shapes[i].height) <= canvasHeight
    requires Round(shapes[i].kind) ==> 2.0 * OrZero(shapes[i].radius) <= canvasWidth && 2.0 * OrZero(shapes[i].radius) <= canvasHeight
    ensures var r := Nudge(shapes, sel, key, canvasWidth, canvasHeight)[i];
      InsideMargins(r, Point(r.x, r.y), canvasWidth, canvasHeight)
  {
    var r := Nudge(shapes, sel, key, canvasWidth, canvasHeight)[i];
    assert r.kind == shapes[i].kind && r.width == shapes[i].width && r.height == shapes[i].height
      && r.radius == shapes[i].radius by {
      assert SameButPosition(shapes[i], r);
    }
  }

  // ---------------------------------------------------------------- drag end

  /** The first shape, in scene order, that the candidate collides with (what `some` captures). */
  function FirstCollision(shapes: seq<Shape>, moved: Shape): (r: Option<Shape>)
    ensures r.None? <==> !Collides(shapes, moved)
    ensures r.Some? ==> exists j :: (0 <= j < |shapes| && shapes[j] == r.value && CollidesWith(moved, shapes[j]) &&
      forall k :: 0 <= k < j ==> !CollidesWith(moved, shapes[k]))
  {
    if |shapes| == 0 then None
    else if CollidesWith(moved, shapes[0]) then Some(shapes[0])
    else
      var rest := FirstCollision(shapes[1..], moved);
      assert forall j :: 1 <= j < |shapes| ==> shapes[j] == shapes[1..][j - 1];
      if rest.Some? then
        var j :| 0 <= j < |shapes[1..]| && shapes[1..][j] == rest.value && CollidesWith(moved, shapes[1..][j]) &&
          forall k :: 0 <= k < j ==> !CollidesWith(moved, shapes[1..][k]);
        assert shapes[j + 1] == rest.value;
        assert forall k :: 1 <= k < j + 1 ==> shapes[k] == shapes[1..][k - 1];
        rest
      else
        rest
  }

  /** One element of the drag-end `prevShapes.map`. */
  function DragEndShape(shapes: seq<Shape>, id: string, s: Shape, drop: Point, snap: bool): (r: Shape)
    ensures SameButPosition(s, r)
    ensures s.id != id ==> r == s
    ensures s.id == id ==>
      var p := if snap then SnapToGrid(drop) else drop;
      match FirstCollision(shapes, MoveTo(s, p.x, p.y))
      case None => r.x == p.x && r.y == p.y
      case Some(o) => r.x == o.x - 100.0 && r.y == o.y
  {
    if s.id != id then s
    else
      var p := if snap then SnapToGrid(drop) else drop;
      match FirstCollision(shapes, MoveTo(s, p.x, p.y))
      case Some(o) => MoveTo(s, o.x - 100.0, o.y)
      case None => MoveTo(s, p.x, p.y)
  }

  /**
   * `handleDragEnd(e, id)`: the dragged shape goes to the node's position
   * (snapped when snapping is on); if it collides there with another shape it is
   * put 100 units left of the first such shape, at its height.
   */
  function DragEnd(shapes: seq<Shape>, id: string, drop: Point, snap: bool): (r: seq<Shape>)
    ensures |r| == |shapes| && Ids(r) == Ids(shapes)
    ensures forall i :: 0 <= i < |r| ==> SameButPosition(shapes[i], r[i])
    ensures forall i :: 0 <= i < |r| && shapes[i].id != id ==> r[i] == shapes[i]
    ensures var p := if snap then SnapToGrid(drop) else drop;
      forall i :: 0 <= i < |r| && shapes[i].id == id && FirstCollision(shapes, MoveTo(shapes[i], p.x, p.y)).None? ==>
        r[i] == MoveTo(shapes[i], p.x, p.y)
    ensures var p := if snap then SnapToGrid(drop) else drop;
      forall i :: 0 <= i < |r| && shapes[i].id == id && FirstCollision(shapes, MoveTo(shapes[i], p.x, p.y)).Some? ==>
        var o := FirstCollision(shapes, MoveTo(shapes[i], p.x, p.y)).value;
        r[i] == MoveTo(shapes[i], o.x - 100.0, o.y)
  {
    var r := seq(|shapes|, i requires 0 <= i < |shapes| => DragEndShape(shapes, id, shapes[i], drop, snap));
    assert forall i :: 0 <= i < |r| ==> r[i] == DragEndShape(shapes, id, shapes[i], drop, snap);
    r
  }

  /** With snapping on, a dragged shape that meets no other shape ends on a grid point within 5 units of the drop. */
  lemma DragEndSnapsFreeDrop(shapes: seq<Shape>, id: string, drop: Point, i: int)
    requires 0 <= i < |shapes| && shapes[i].id == id
    requires var p := SnapToGrid(drop); !Collides(shapes, MoveTo(shapes[i], p.x, p.y))
    ensures var r := DragEnd(shapes, id, drop, true)[i];
      OnGrid(r.x) && OnGrid(r.y) && Abs(r.x - drop.x) <= 5.0 && Abs(r.y - drop.y) <= 5.0
  {
  }

  /** A dragged shape that lands on another is placed at (other.x - 100, other.y) for the first colliding shape in scene order. */
  lemma DragEndCollisionFallback(shapes: seq<Shape>, id: string, drop: Point, snap: bool, i: int)
    requires 0 <= i < |shapes| && shapes[i].id == id
    requires var p := if snap then SnapToGrid(drop) else drop;
      Collides(shapes, MoveTo(shapes[i], p.x, p.y))
    ensures var p := if snap then SnapToGrid(drop) else drop;
      exists j :: (0 <= j < |shapes| && shapes[j].id != id &&
        CollidesWith(MoveTo(shapes[i], p.x, p.y), shapes[j]) &&
        (forall k :: 0 <= k < j ==> !CollidesWith(MoveTo(shapes[i], p.x, p.y), shapes[k])) &&
        DragEnd(shapes, id, drop, snap)[i] == MoveTo(shapes[i], shapes[j].x - 100.0, shapes[j].y))
  {
    var p := if snap then SnapToGrid(drop) else drop;
    var m := MoveTo(shapes[i], p.x, p.y);
    var o := FirstCollision(shapes, m);
    var j :| 0 <= j < |shapes| && shapes[j] == o.value && CollidesWith(m, shapes[j]) &&
      forall k :: 0 <= k < j ==> !CollidesWith(m, shapes[k]);
    assert DragEnd(shapes, id, drop, snap)[i] == MoveTo(shapes[i], shapes[j].x - 100.0, shapes[j].y);
    assert shapes[j].id != m.id;
  }

  // ---------------------------------------------------------------- transform end

  /** What the transformer reports for one of its nodes when the transform ends. */
  datatype NodeState = NodeState(id: string, x: real, y: real, scaleX: real, scaleY: real,
                                 rotation: real, width: real, height: real)

  /** The id of a transformer node (`n.id()`). */
  function NodeId(n: NodeState): string {
    n.id
  }

  /** `transformedNodes.find(n => n.id() === shape.id)`. */
  function FindNode(nodes: seq<NodeState>, id: string): Option<NodeState> {
    FindFirst(nodes, NodeId, id)
  }

  /** `Math.max(5, v)`: the baked size, raised to the minimum of 5. */
  function AtLeastFive(v: real): (r: real)
    ensures r >= 5.0
    ensures r == v || r == 5.0
    ensures v >= 5.0 ==> r == v
  {
    if 5.0 >= v then 5.0 else v
  }

  /** `(Math.abs(scaleX) + Math.abs(scaleY)) / 2`, the scale that circles and stars bake in. */
  function AverageScale(n: NodeState): real {
    (Abs(n.scaleX) + Abs(n.scaleY)) / 2.0
  }

  /** Every size attribute that the transform bakes for the shape's kind is present and at least 5. */
  predicate BakedSizesAtLeastFive(s: Shape) {
    match s.kind
    case Rectangle | Location | Svg =>
      s.width.Some? && s.width.value >= 5.0 && s.height.Some? && s.height.value >= 5.0
    case Text => s.fontSize.Some? && s.fontSize.value >= 5.0
    case Circle => s.radius.Some? && s.radius.value >= 5.0
    case Star => s.innerRadius.Some? && s.innerRadius.value >= 5.0 && s.outerRadius.Some? && s.outerRadius.value >= 5.0
  }

  /**
   * One element of the `handleTransformEnd` map for a transformed shape: take
   * the node's position and rotation, keep the shape's own scale attributes, and
   * bake the node's scale into the kind's size attributes, each at least 5.
   * Stars write `outerRadius` and leave `radius` as it was.
   */
  function Bake(s: Shape, n: NodeState): (r: Shape)
    ensures r.id == s.id && r.kind == s.kind && r.groupId == s.groupId
    ensures r.x == n.x && r.y == n.y && r.rotation == Some(n.rotation)
    ensures r.scaleX == s.scaleX && r.scaleY == s.scaleY
    ensures r.fill == s.fill && r.text == s.text && r.fontFamily == s.fontFamily
    ensures r.strokeWidth == s.strokeWidth && r.numPoints == s.numPoints
    ensures BakedSizesAtLeastFive(r)
    ensures s.kind in {Rectangle, Location, Svg} ==>
      && r.width == Some(AtLeastFive(Abs(n.width * n.scaleX)))
      && r.height == Some(AtLeastFive(Abs(n.height * n.scaleY)))
      && r.fontSize == s.fontSize && r.radius == s.radius
      && r.innerRadius == s.innerRadius && r.outerRadius == s.outerRadius
    ensures s.kind == Text ==>
      && r.fontSize == Some(AtLeastFive(Abs(OrZero(s.fontSize) * ((n.scaleX + n.scaleY) / 2.0))))
      && r.width == s.width && r.height == s.height && r.radius == s.radius
      && r.innerRadius == s.innerRadius && r.outerRadius == s.outerRadius
    ensures s.kind == Circle ==>
      && r.radius == Some(AtLeastFive(Abs(OrZero(s.radius) * AverageScale(n))))
      && r.width == s.width && r.height == s.height && r.fontSize == s.fontSize
      && r.innerRadius == s.innerRadius && r.outerRadius == s.outerRadius
    ensures s.kind == Star ==>
      && r.innerRadius == Some(AtLeastFive(Abs(OrZero(s.innerRadius) * AverageScale(n))))
      && r.outerRadius == Some(AtLeastFive(Abs(OrZero(s.radius) * AverageScale(n))))
      && r.radius == s.radius
      && r.width == s.width && r.height == s.height && r.fontSize == s.fontSize
    ensures WellTyped(s) ==> WellTyped(r)
  {
    var moved := s.(x := n.x, y := n.y, rotation := Some(n.rotation));
    match s.kind
    case Rectangle | Location | Svg =>
      moved.(width := Some(AtLeastFive(Abs(n.width * n.scaleX))),
             height := Some(AtLeastFive(Abs(n.height * n.scaleY))))
    case Text =>
      moved.(fontSize := Some(AtLeastFive(Abs(OrZero(s.fontSize) * ((n.scaleX + n.scaleY) / 2.0)))))
    case Circle =>
      moved.(radius := Some(AtLeastFive(Abs(OrZero(s.radius) * AverageScale(n)))))
    case Star =>
      moved.(innerRadius := Some(AtLeastFive(Abs(OrZero(s.innerRadius) * AverageScale(n)))),
             outerRadius := Some(AtLeastFive(Abs(OrZero(s.radius) * AverageScale(n)))))
  }

  /**
   * `handleTransformEnd`: shapes with a transformed node are baked, every baked
   * size at least 5 whatever the scale factors (zero and negative included);
   * shapes without a node are unchanged.
   */
  function TransformEnd(shapes: seq<Shape>, nodes: seq<NodeState>): (r: seq<Shape>)
    ensures |r| == |shapes|
    ensures Ids(r) == Ids(shapes)
    ensures forall i :: 0 <= i < |r| ==> r[i].kind == shapes[i].kind && r[i].groupId == shapes[i].groupId
    ensures forall i :: 0 <= i < |r| && FindNode(nodes, shapes[i].id).None? ==> r[i] == shapes[i]
    ensures forall i :: 0 <= i < |r| && FindNode(nodes, shapes[i].id).Some? ==> BakedSizesAtLeastFive(r[i])
    ensures forall i :: 0 <= i < |r| && FindNode(nodes, shapes[i].id).Some? ==>
      r[i] == Bake(shapes[i], FindNode(nodes, shapes[i].id).value)
    ensures AllWellTyped(shapes) ==> AllWellTyped(r)
  {
    var r := seq(|shapes|, i requires 0 <= i < |shapes| =>
      match FindNode(nodes, shapes[i].id)
      case None => shapes[i]
      case Some(n) => Bake(shapes[i], n));
    assert Ids(r) == Ids(shapes);
    r
  }

  // ---------------------------------------------------------------- delete, flip, rotation

  /** `shapes.filter(shape => !selectedIds.includes(shape.id))`. */
  function RemoveSelected(shapes: seq<Shape>, sel: seq<string>): (r: seq<Shape>)
    ensures |r| <= |shapes|
    ensures forall s :: s in r ==> s in shapes && s.id !in sel
    ensures forall s :: s in shapes && s.id !in sel ==> s in r
  {
    if |shapes| == 0 then []
    else if shapes[0].id in sel then RemoveSelected(shapes[1..], sel)
    else [shapes[0]] + RemoveSelected(shapes[1..], sel)
  }

  /** Deleting keeps every unselected shape as many times as the scene held it, and drops every selected one. */
  lemma {:induction false} RemoveSelectedCount(shapes: seq<Shape>, sel: seq<string>, s: Shape)
    ensures multiset(RemoveSelected(shapes, sel))[s] == if s.id in sel then 0 else multiset(shapes)[s]
  {
    if |shapes| != 0 {
      assert shapes == [shapes[0]] + shapes[1..];
      RemoveSelectedCount(shapes[1..], sel, s);
    }
  }

  /** Deleting keeps the survivors in scene order: the filter of a concatenation is the concatenation of the filters. */
  lemma {:induction false} RemoveSelectedConcat(a: seq<Shape>, b: seq<Shape>, sel: seq<string>)
    ensures RemoveSelected(a + b, sel) == RemoveSelected(a, sel) + RemoveSelected(b, sel)
  {
    if a != [] {
      assert (a + b)[0] == a[0];
      assert (a + b)[1..] == a[1..] + b;
      RemoveSelectedConcat(a[1..], b, sel);
    } else {
      assert a + b == b;
    }
  }

  /** Deleting keeps the scene's remaining ids among the old ones. */
  lemma RemoveSelectedKeepsOthers(shapes: seq<Shape>, sel: seq<string>)
    ensures AllWellTyped(shapes) ==> AllWellTyped(RemoveSelected(shapes, sel))
    ensures forall id :: id in Ids(RemoveSelected(shapes, sel)) ==> id in Ids(shapes) && id !in sel
  {
    var r := RemoveSelected(shapes, sel);
    forall id | id in Ids(r) ensures id in Ids(shapes) && id !in sel {
      var k :| 0 <= k < |r| && Ids(r)[k] == id;
      assert r[k] in shapes;
      var j :| 0 <= j < |shapes| && shapes[j] == r[k];
      assert Ids(shapes)[j] == id;
    }
    if AllWellTyped(shapes) {
      forall k | 0 <= k < |r| ensures WellTyped(r[k]) {
        assert r[k] in shapes;
      }
    }
  }

  datatype Axis = Horizontal | Vertical

  /** `shape.scaleX ? shape.scaleX : 1`: an absent or zero scale counts as 1. */
  function EffectiveScale(o: Option<real>): (r: real)
    ensures r != 0.0
    ensures o.Some? && o.value != 0.0 ==> r == o.value
  {
    if o.Some? && o.value != 0.0 then o.value else 1.0
  }

  /** The flip of one shape: the effective scale on the axis, negated. */
  function FlipShape(s: Shape, axis: Axis): (r: Shape)
    ensures axis == Horizontal ==>
      r.scaleX.Some? && r.scaleX.value != 0.0 && EffectiveScale(r.scaleX) == -EffectiveScale(s.scaleX) &&
      r.(scaleX := s.scaleX) == s
    ensures axis == Vertical ==>
      r.scaleY.Some? && r.scaleY.value != 0.0 && EffectiveScale(r.scaleY) == -EffectiveScale(s.scaleY) &&
      r.(scaleY := s.scaleY) == s
  {
    match axis
    case Horizontal => s.(scaleX := Some(EffectiveScale(s.scaleX) * -1.0))
    case Vertical => s.(scaleY := Some(EffectiveScale(s.scaleY) * -1.0))
  }

  /** `flipSelectedShapesHorizontally` / `flipSelectedShapesVertically`. */
  function Flip(shapes: seq<Shape>, sel: seq<string>, axis: Axis): (r: seq<Shape>)
    ensures |r| == |shapes| && Ids(r) == Ids(shapes)
    ensures forall i :: 0 <= i < |r| && shapes[i].id !in sel ==> r[i] == shapes[i]
    ensures forall i :: 0 <= i < |r| && shapes[i].id in sel ==> r[i] == FlipShape(shapes[i], axis)
  {
    seq(|shapes|, i requires 0 <= i < |shapes| => if shapes[i].id in sel then FlipShape(shapes[i], axis) else shapes[i])
  }

  /**
   * Flipping twice on the same axis restores every selected shape's effective
   * scale (and the shape itself when its scale was present and non-zero).
   */
  lemma FlipTwice(shapes: seq<Shape>, sel: seq<string>, axis: Axis)
    ensures var r := Flip(Flip(shapes, sel, axis), sel, axis);
      && |r| == |shapes|
      && (forall i :: 0 <= i < |r| && shapes[i].id !in sel ==> r[i] == shapes[i])
      && (forall i :: 0 <= i < |r| && shapes[i].id in sel ==>
            if axis == Horizontal then r[i] == shapes[i].(scaleX := Some(EffectiveScale(shapes[i].scaleX)))
            else r[i] == shapes[i].(scaleY := Some(EffectiveScale(shapes[i].scaleY))))
  {
    var once := Flip(shapes, sel, axis);
    forall i | 0 <= i < |shapes| && shapes[i].id in sel
      ensures Flip(once, sel, axis)[i] ==
        if axis == Horizontal then shapes[i].(scaleX := Some(EffectiveScale(shapes[i].scaleX)))
        else shapes[i].(scaleY := Some(EffectiveScale(shapes[i].scaleY)))
    {
      assert once[i].id == shapes[i].id;
    }
  }

  /** The Ctrl handler: with a non-empty selection, every selected shape's rotation becomes 0. */
  function ResetRotation(shapes: seq<Shape>, sel: seq<string>): (r: seq<Shape>)
    ensures |r| == |shapes| && Ids(r) == Ids(shapes)
    ensures forall i :: 0 <= i < |r| && shapes[i].id !in sel ==> r[i] == shapes[i]
    ensures forall i :: 0 <= i < |r| && shapes[i].id in sel ==> r[i] == shapes[i].(rotation := Some(0.0))
  {
    if |sel| == 0 then shapes
    else seq(|shapes|, i requires 0 <= i < |shapes| => if shapes[i].id in sel then shapes[i].(rotation := Some(0.0)) else shapes[i])
  }
}
