/**
 * The shape record of the canvas editor (the `Shape` union of
 * src/app/types/types.d.ts) and the real-number helpers the editing code uses.
 */
module Shapes {
  import opened Wrappers

  /** The `type` discriminant of the six shape interfaces. */
  datatype Kind = Rectangle | Circle | Star | Svg | Text | Location

  /**
   * One placeable object. `x`/`y` are the stored position (the centre for
   * rectangles, SVG images and location markers). Attributes that are optional
   * in at least one interface are `Option`s; an absent attribute is `None`.
   * The SVG image handle is not modelled.
   */
  datatype Shape = Shape(
    id: string,
    kind: Kind,
    x: real,
    y: real,
    width: Option<real>,
    height: Option<real>,
    radius: Option<real>,
    innerRadius: Option<real>,
    outerRadius: Option<real>,
    numPoints: Option<int>,
    fontSize: Option<real>,
    fontFamily: Option<string>,
    text: Option<string>,
    fill: Option<string>,
    strokeWidth: Option<real>,
    rotation: Option<real>,
    scaleX: Option<real>,
    scaleY: Option<real>,
    groupId: Option<string>)

  datatype Point = Point(x: real, y: real)

  /** The attributes that the interface of the shape's kind declares as required are present. */
  predicate WellTyped(s: Shape) {
    match s.kind
    case Rectangle => s.width.Some? && s.height.Some? && s.fill.Some?
    case Location => s.width.Some? && s.height.Some? && s.fill.Some?
    case Svg => s.width.Some? && s.height.Some?
    case Circle => s.radius.Some? && s.fill.Some?
    case Star => s.numPoints.Some? && s.innerRadius.Some? && s.radius.Some? && s.fill.Some?
    case Text => s.text.Some? && s.fontSize.Some? && s.fontFamily.Some? && s.fill.Some?
  }

  predicate AllWellTyped(shapes: seq<Shape>) {
    forall i :: 0 <= i < |shapes| ==> WellTyped(shapes[i])
  }

  /** JavaScript's `(v || 0)` on an optional number (NaN is not modelled). */
  function OrZero(o: Option<real>): real {
    o.GetOr(0.0)
  }

  /** JavaScript truthiness of an optional string such as `groupId`. */
  predicate Truthy(o: Option<string>) {
    o.Some? && o.value != ""
  }

  /** The identifiers of a scene, in scene order. */
  function Ids(shapes: seq<Shape>): (r: seq<string>)
    ensures |r| == |shapes|
    ensures forall i :: 0 <= i < |shapes| ==> r[i] == shapes[i].id
  {
    seq(|shapes|, i requires 0 <= i < |shapes| => shapes[i].id)
  }

  /** No two shapes of the scene share an id. */
  predicate UniqueIds(shapes: seq<Shape>) {
    forall i, j :: 0 <= i < j < |shapes| ==> shapes[i].id != shapes[j].id
  }

  /** The shape `s` placed at (`px`, `py`); every other attribute is kept. */
  function MoveTo(s: Shape, px: real, py: real): Shape {
    s.(x := px, y := py)
  }

  /** `a` and `b` agree on every attribute except possibly the position. */
  predicate SameButPosition(a: Shape, b: Shape) {
    a.(x := b.x, y := b.y) == b
  }

  /** Moving shapes keeps the attributes their kinds require. */
  lemma MovedKeepsWellTyped(shapes: seq<Shape>, moved: seq<Shape>)
    requires |moved| == |shapes|
    requires forall i :: 0 <= i < |shapes| ==> SameButPosition(shapes[i], moved[i])
    requires AllWellTyped(shapes)
    ensures AllWellTyped(moved)
  {
    forall i | 0 <= i < |moved| ensures WellTyped(moved[i]) {
      assert moved[i] == shapes[i].(x := moved[i].x, y := moved[i].y);
    }
  }

  function Max(a: real, b: real): real { if a >= b then a else b }

  function Min(a: real, b: real): real { if a <= b then a else b }

  function Abs(a: real): real { if a >= 0.0 then a else -a }

  /** `Math.max(lo, Math.min(hi, v))`. */
  function ClampBetween(lo: real, hi: real, v: real): (r: real)
    ensures r >= lo
    ensures lo <= hi ==> r <= hi
    ensures lo <= v <= hi ==> r == v
    ensures v < lo ==> r == lo
    ensures lo <= hi && hi < v ==> r == hi
  {
    Max(lo, Min(hi, v))
  }

  /**
   * `Math.round(v)`: the integer nearest to `v`, halves rounded up, which
   * is floor(v + 1/2).
   */
  function RoundHalfUp(v: real): (r: int)
    ensures r as real - 0.5 <= v < r as real + 0.5
  {
    (v + 0.5).Floor
  }

  /** `RoundHalfUp` is the only integer within the half-open window of `v`. */
  lemma RoundHalfUpUnique(v: real, n: int)
    requires n as real - 0.5 <= v < n as real + 0.5
    ensures RoundHalfUp(v) == n
  {
  }

  /** The decimal digits of `n`, as JavaScript writes a non-negative integer into a string. */
  function DecimalString(n: nat): (r: string)
    ensures |r| > 0
    ensures forall i :: 0 <= i < |r| ==> '0' <= r[i] <= '9'
  {
    var digit := ['0', '1', '2', '3', '4', '5', '6', '7', '8', '9'][n % 10];
    if n < 10 then [digit] else DecimalString(n / 10) + [digit]
  }
}
