/**
 * Collision and hit tests of the canvas editor (src/app/components/Canvas.tsx):
 * the pairwise test `isOverlap`, the drop-point test `isOverlapping`, and
 * grid snapping `snapToGrid`.
 */
module Geometry {
  import opened Wrappers
  import opened Shapes

  /** `GRID_SIZE`. */
  const GridSize: real := 10.0

  /** Rectangles and SVG images take part in the box rules of `isOverlap`. */
  predicate RectLike(k: Kind) { k == Rectangle || k == Svg }

  /** Circles and stars take part in the radius rules of `isOverlap`. */
  predicate Round(k: Kind) { k == Circle || k == Star }

  /** `Math.sqrt(d2) < s`, stated without the square root. */
  predicate RootBelow(d2: real, s: real) { 0.0 < s && d2 < s * s }

  /** `Math.sqrt(d2) <= s`, stated without the square root. */
  predicate RootAtMost(d2: real, s: real) { 0.0 <= s && d2 <= s * s }

  /** For a distance `d >= 0`, comparing `d * d` without the root is the same as comparing `d`. */
  lemma RootComparisons(d: real, s: real)
    requires d >= 0.0
    ensures RootBelow(d * d, s) <==> d < s
    ensures RootAtMost(d * d, s) <==> d <= s
  {
    var dd, ds, ss := d * d, d * s, s * s;
    if d < s {
      assert dd <= ds < ss;
    } else if d == s {
      assert dd == ss;
    } else if 0.0 <= s {
      assert ss <= ds < dd;
    }
  }

  function SquaredDistance(x1: real, y1: real, x2: real, y2: real): (r: real)
    ensures r >= 0.0
  {
    (x1 - x2) * (x1 - x2) + (y1 - y2) * (y1 - y2)
  }

  /** Rectangle-like pair: the extents [x, x + width) and [y, y + height) intersect. */
  predicate ExtentsOverlap(a: Shape, b: Shape) {
    !(a.x + OrZero(a.width) <= b.x || b.x + OrZero(b.width) <= a.x ||
      a.y + OrZero(a.height) <= b.y || b.y + OrZero(b.height) <= a.y)
  }

  /** Round pair: the centre distance is below the sum of the radii. */
  predicate CentresClose(a: Shape, b: Shape) {
    RootBelow(SquaredDistance(a.x, a.y, b.x, b.y), OrZero(a.radius) + OrZero(b.radius))
  }

  /** The point of the centred box of `r` nearest to (`px`, `py`), clamped per axis. */
  function ClosestInBox(r: Shape, px: real, py: real): Point {
    Point(Max(r.x - OrZero(r.width) / 2.0, Min(px, r.x + OrZero(r.width) / 2.0)),
          Max(r.y - OrZero(r.height) / 2.0, Min(py, r.y + OrZero(r.height) / 2.0)))
  }

  /** Round shape `c` against rectangle-like `r`: the clamped point lies within the radius. */
  predicate RoundMeetsBox(c: Shape, r: Shape) {
    var p := ClosestInBox(r, c.x, c.y);
    SquaredDistance(c.x, c.y, p.x, p.y) < OrZero(c.radius) * OrZero(c.radius)
  }

  /** `isOverlap(shape1, shape2)`; the rectangle-versus-round case re-invokes itself swapped. */
  predicate IsOverlap(a: Shape, b: Shape)
    decreases if RectLike(a.kind) && Round(b.kind) then 1 else 0
  {
    if RectLike(a.kind) && RectLike(b.kind) then ExtentsOverlap(a, b)
    else if Round(a.kind) && Round(b.kind) then CentresClose(a, b)
    else if Round(a.kind) && RectLike(b.kind) then RoundMeetsBox(a, b)
    else if RectLike(a.kind) && Round(b.kind) then IsOverlap(b, a)
    else false
  }

  lemma SquaredDistanceSymmetric(x1: real, y1: real, x2: real, y2: real)
    ensures SquaredDistance(x1, y1, x2, y2) == SquaredDistance(x2, y2, x1, y1)
  {
    assert (x1 - x2) * (x1 - x2) == (x2 - x1) * (x2 - x1);
    assert (y1 - y2) * (y1 - y2) == (y2 - y1) * (y2 - y1);
  }

  /** The collision test does not depend on the order of its arguments. */
  lemma IsOverlapSymmetric(a: Shape, b: Shape)
    ensures IsOverlap(a, b) == IsOverlap(b, a)
  {
    if Round(a.kind) && Round(b.kind) {
      SquaredDistanceSymmetric(a.x, a.y, b.x, b.y);
      assert OrZero(a.radius) + OrZero(b.radius) == OrZero(b.radius) + OrZero(a.radius);
    }
  }

  /** Text and location shapes never collide with anything. */
  lemma OnlyBoxesAndRoundsOverlap(a: Shape, b: Shape)
    requires IsOverlap(a, b)
    ensures RectLike(a.kind) || Round(a.kind)
    ensures RectLike(b.kind) || Round(b.kind)
  {
  }

  /** (`px`, `py`) lies in the half-open box [x, x + width) × [y, y + height). */
  predicate InCornerBox(s: Shape, px: real, py: real) {
    s.x <= px < s.x + OrZero(s.width) && s.y <= py < s.y + OrZero(s.height)
  }

  /**
   * Two rectangles or SVG images with positive sizes overlap exactly when the
   * boxes that extend right and down from their stored positions share a point
   * (although the shapes are drawn centred on those positions).
   */
  lemma RectPairOverlapIsSharedPoint(a: Shape, b: Shape)
    requires RectLike(a.kind) && RectLike(b.kind)
    requires OrZero(a.width) > 0.0 && OrZero(a.height) > 0.0
    requires OrZero(b.width) > 0.0 && OrZero(b.height) > 0.0
    ensures IsOverlap(a, b) <==> exists px, py :: InCornerBox(a, px, py) && InCornerBox(b, px, py)
  {
    if IsOverlap(a, b) {
      var px, py := Max(a.x, b.x), Max(a.y, b.y);
      assert InCornerBox(a, px, py) && InCornerBox(b, px, py);
    }
  }

  /** Two circles or stars with non-negative radii overlap exactly when the squared centre distance is below the squared radius sum. */
  lemma RoundPairOverlap(a: Shape, b: Shape)
    requires Round(a.kind) && Round(b.kind)
    requires OrZero(a.radius) >= 0.0 && OrZero(b.radius) >= 0.0
    ensures IsOverlap(a, b) <==>
      SquaredDistance(a.x, a.y, b.x, b.y) < (OrZero(a.radius) + OrZero(b.radius)) * (OrZero(a.radius) + OrZero(b.radius))
  {
    var s := OrZero(a.radius) + OrZero(b.radius);
    if s == 0.0 {
      assert s * s == 0.0;
    }
  }

  /** (`px`, `py`) lies in the closed box centred on the shape's position. */
  predicate InCentredBox(s: Shape, px: real, py: real) {
    s.x - OrZero(s.width) / 2.0 <= px <= s.x + OrZero(s.width) / 2.0 &&
    s.y - OrZero(s.height) / 2.0 <= py <= s.y + OrZero(s.height) / 2.0
  }

  lemma SquareMonotone(u: real, v: real)
    requires 0.0 <= u <= v
    ensures u * u <= v * v
  {
    var uu, uv, vv := u * u, u * v, v * v;
    assert uu <= uv <= vv;
  }

  /** On one axis the clamped coordinate is at least as close to `c` as any coordinate of the interval. */
  lemma ClampIsNearest(lo: real, hi: real, c: real, p: real)
    requires lo <= p <= hi
    ensures var q := Max(lo, Min(c, hi)); (c - q) * (c - q) <= (c - p) * (c - p)
  {
    var q := Max(lo, Min(c, hi));
    if c < lo {
      SquareMonotone(q - c, p - c);
      assert (c - q) * (c - q) == (q - c) * (q - c);
      assert (c - p) * (c - p) == (p - c) * (p - c);
    } else if c > hi {
      SquareMonotone(c - q, c - p);
    } else {
      assert q == c;
    }
  }

  /**
   * A circle or star meets a rectangle or SVG image (of non-negative size)
   * exactly when some point of the image's centred box lies strictly within its
   * radius, whichever argument comes first.
   */
  lemma RoundBoxOverlap(c: Shape, r: Shape)
    requires Round(c.kind) && RectLike(r.kind)
    requires OrZero(r.width) >= 0.0 && OrZero(r.height) >= 0.0
    ensures IsOverlap(c, r) <==>
      exists px, py :: InCentredBox(r, px, py) &&
        SquaredDistance(c.x, c.y, px, py) < OrZero(c.radius) * OrZero(c.radius)
    ensures IsOverlap(r, c) == IsOverlap(c, r)
  {
    var q := ClosestInBox(r, c.x, c.y);
    assert InCentredBox(r, q.x, q.y);
    forall px, py | InCentredBox(r, px, py)
      ensures SquaredDistance(c.x, c.y, q.x, q.y) <= SquaredDistance(c.x, c.y, px, py)
    {
      ClampIsNearest(r.x - OrZero(r.width) / 2.0, r.x + OrZero(r.width) / 2.0, c.x, px);
      ClampIsNearest(r.y - OrZero(r.height) / 2.0, r.y + OrZero(r.height) / 2.0, c.y, py);
    }
    IsOverlapSymmetric(c, r);
  }

  /** One element of `isOverlapping`: the drop point (`px`, `py`) falls on the shape. */
  predicate HitsPoint(s: Shape, px: real, py: real) {
    match s.kind
    case Rectangle | Svg =>
      s.width.Some? && s.height.Some? &&
      s.x - s.width.value / 2.0 <= px < s.x + s.width.value / 2.0 &&
      s.y - s.height.value / 2.0 <= py < s.y + s.height.value / 2.0
    case Circle =>
      s.radius.Some? && RootAtMost(SquaredDistance(px, py, s.x, s.y), s.radius.value)
    case Star =>
      s.radius.Some? &&
      s.x - s.radius.value <= px <= s.x + s.radius.value &&
      s.y - s.radius.value <= py <= s.y + s.radius.value
    case Text | Location => false
  }

  /** `isOverlapping(x, y)`: some shape of the scene is hit by the point. */
  predicate IsOverlapping(shapes: seq<Shape>, px: real, py: real) {
    exists i :: 0 <= i < |shapes| && HitsPoint(shapes[i], px, py)
  }

  /** Text and location shapes never block a drop. */
  lemma DropIgnoresTextAndLocations(shapes: seq<Shape>, px: real, py: real)
    requires forall i :: 0 <= i < |shapes| ==> shapes[i].kind in {Text, Location}
    ensures !IsOverlapping(shapes, px, py)
  {
  }

  /** The coordinate is a multiple of the grid size. */
  predicate OnGrid(v: real) {
    (v / GridSize).Floor as real * GridSize == v
  }

  /** `Math.round(v / GRID_SIZE) * GRID_SIZE`: the grid line nearest to `v`, ties going up. */
  function SnapCoord(v: real): (r: real)
    ensures OnGrid(r)
    ensures v - GridSize / 2.0 < r <= v + GridSize / 2.0
  {
    RoundHalfUp(v / GridSize) as real * GridSize
  }

  /** `snapToGrid(pos)`. */
  function SnapToGrid(p: Point): (r: Point)
    ensures OnGrid(r.x) && OnGrid(r.y)
    ensures Abs(r.x - p.x) <= GridSize / 2.0 && Abs(r.y - p.y) <= GridSize / 2.0
  {
    Point(SnapCoord(p.x), SnapCoord(p.y))
  }

  /** No multiple of the grid size is closer to `v` than its snapped value. */
  lemma SnapIsNearest(v: real, k: int)
    ensures Abs(v - SnapCoord(v)) <= Abs(v - k as real * GridSize)
  {
    var n := RoundHalfUp(v / GridSize);
    if k > n {
      assert k as real * GridSize >= n as real * GridSize + GridSize;
    } else if k < n {
      assert k as real * GridSize <= n as real * GridSize - GridSize;
    }
  }

  /** A coordinate already on the grid does not move. */
  lemma SnapKeepsGridPoints(v: real)
    requires OnGrid(v)
    ensures SnapCoord(v) == v
  {
    var k := (v / GridSize).Floor;
    RoundHalfUpUnique(v / GridSize, k);
  }

  /** Snapping an already snapped point is the identity. */
  lemma SnapIdempotent(p: Point)
    ensures SnapToGrid(SnapToGrid(p)) == SnapToGrid(p)
  {
    SnapKeepsGridPoints(SnapCoord(p.x));
    SnapKeepsGridPoints(SnapCoord(p.y));
  }
}
