/**
 * Shapes of the paint editor: the `Shape` class (constructor defaults, `getBounds`,
 * `containsPoint`, `resize`, `move`), the normalisation `createShape` applies to a drag, the
 * handle positions of a selected shape, and the 8-way resize table of the selection tool.
 */
module Geometry {
  import opened Common

  /**
   * `Math.sqrt`, `Math.cos`/`Math.sin` and `Math.atan2` on doubles are not computed by the model:
   * they are supplied as functions. Angles are in degrees: `cosSin(a)` is the cosine and sine of
   * `a` degrees, `atan2(dy, dx)` the angle of the vector `(dx, dy)` in degrees.
   */
  datatype MathLib = MathLib(sqrt: real -> real, cosSin: real -> (real, real), atan2: (real, real) -> real)

  datatype ShapeKind = Rectangle | Circle | Line

  /**
   * The fields of a `Shape` object. Every shape carries every field; `radius` means something
   * only for a circle, `endX`/`endY` only for a line.
   */
  datatype ShapeData = ShapeData(
    kind: ShapeKind,
    x: real, y: real, width: real, height: real, radius: real, endX: real, endY: real,
    color: string, lineWidth: real, opacity: real, rotation: real, layerIndex: int)

  /** The property bag handed to the `Shape` constructor; `None` is an absent property. */
  datatype Props = Props(
    x: Option<real>, y: Option<real>, width: Option<real>, height: Option<real>, radius: Option<real>,
    endX: Option<real>, endY: Option<real>, color: Option<string>, lineWidth: Option<real>,
    opacity: Option<real>, rotation: Option<real>, layerIndex: Option<int>)

  /** The current stroke colour (`#rrggbb`), line width and opacity (0.0 to 1.0) of the editor. */
  datatype Style = Style(color: string, lineWidth: real, opacity: real)

  /** An axis-aligned box, as `getBounds` returns it. */
  datatype Rect = Rect(x: real, y: real, width: real, height: real)

  /** The eight resize handles, in the order the selection tool creates and tests them. */
  datatype Handle = TopLeft | Top | TopRight | Right | BottomRight | Bottom | BottomLeft | Left

  const HandleOrder: seq<Handle> := [TopLeft, Top, TopRight, Right, BottomRight, Bottom, BottomLeft, Left]

  /** The position of a handle in `HandleOrder`. */
  function HandleIndex(h: Handle): (i: nat)
    ensures i < |HandleOrder| && HandleOrder[i] == h
  {
    match h
    case TopLeft => 0
    case Top => 1
    case TopRight => 2
    case Right => 3
    case BottomRight => 4
    case Bottom => 5
    case BottomLeft => 6
    case Left => 7
  }

  /** Half the side of the square around a handle that a click must land in. */
  const HandleTolerance: real := 4.0

  /** Distance of the rotation handle above the top edge of the bounds. */
  const RotationHandleOffset: real := 20.0

  /** Tolerance of the hit test on a line. */
  const LineTolerance: real := 5.0

  function Min(a: real, b: real): real { if a <= b then a else b }
  function Max(a: real, b: real): real { if a >= b then a else b }
  function Abs(a: real): real { if a < 0.0 then -a else a }

  // ---------------------------------------------------------------------------------------------
  // Constructor defaults

  /** `v || d` on a number: an absent or zero value gives the default. */
  function OrNumber(v: Option<real>, d: real): real {
    if v.Some? && v.value != 0.0 then v.value else d
  }

  /** `v || d` on a string: an absent or empty value gives the default. */
  function OrString(v: Option<string>, d: string): string {
    if v.Some? && v.value != "" then v.value else d
  }

  /**
   * The `Shape` constructor. Every field falls back on its default when the property is absent
   * or falsy. For the geometry fields, the rotation and the layer index the default is 0, so a
   * given value is kept as it is; a zero line width or opacity becomes 1 and an empty colour black.
   */
  function FromProps(kind: ShapeKind, p: Props): (s: ShapeData)
    ensures s.kind == kind
    ensures s.x == (if p.x.Some? then p.x.value else 0.0) && s.y == (if p.y.Some? then p.y.value else 0.0)
    ensures s.width == (if p.width.Some? then p.width.value else 0.0)
    ensures s.height == (if p.height.Some? then p.height.value else 0.0)
    ensures s.radius == (if p.radius.Some? then p.radius.value else 0.0)
    ensures s.endX == (if p.endX.Some? then p.endX.value else 0.0)
    ensures s.endY == (if p.endY.Some? then p.endY.value else 0.0)
    ensures s.rotation == (if p.rotation.Some? then p.rotation.value else 0.0)
    ensures s.layerIndex == (if p.layerIndex.Some? then p.layerIndex.value else 0)
    ensures s.lineWidth != 0.0 && s.opacity != 0.0 && s.color != ""
    ensures p.lineWidth.Some? && p.lineWidth.value != 0.0 ==> s.lineWidth == p.lineWidth.value
    ensures p.opacity.Some? && p.opacity.value != 0.0 ==> s.opacity == p.opacity.value
    ensures p.color.Some? && p.color.value != "" ==> s.color == p.color.value
  {
    ShapeData(
      kind,
      OrNumber(p.x, 0.0), OrNumber(p.y, 0.0), OrNumber(p.width, 0.0), OrNumber(p.height, 0.0),
      OrNumber(p.radius, 0.0), OrNumber(p.endX, 0.0), OrNumber(p.endY, 0.0),
      OrString(p.color, "#000000"), OrNumber(p.lineWidth, 1.0), OrNumber(p.opacity, 1.0),
      OrNumber(p.rotation, 0.0),
      if p.layerIndex.Some? && p.layerIndex.value != 0 then p.layerIndex.value else 0)
  }

  // ---------------------------------------------------------------------------------------------
  // Bounds and hit testing

  /**
   * `getBounds`: the stored box for a rectangle or circle; for a line, the smallest box holding
   * both end points. Rotation is not applied.
   */
  function Bounds(s: ShapeData): (b: Rect)
    ensures s.kind != Line ==> b == Rect(s.x, s.y, s.width, s.height)
    ensures s.kind == Line ==>
              && b.width >= 0.0 && b.height >= 0.0
              && b.x <= s.x <= b.x + b.width && b.x <= s.endX <= b.x + b.width
              && b.y <= s.y <= b.y + b.height && b.y <= s.endY <= b.y + b.height
              && (b.x == s.x || b.x == s.endX) && (b.x + b.width == s.x || b.x + b.width == s.endX)
              && (b.y == s.y || b.y == s.endY) && (b.y + b.height == s.y || b.y + b.height == s.endY)
  {
    if s.kind == Line then
      var minX, minY := Min(s.x, s.endX), Min(s.y, s.endY);
      Rect(minX, minY, Max(s.x, s.endX) - minX, Max(s.y, s.endY) - minY)
    else
      Rect(s.x, s.y, s.width, s.height)
  }

  /** The point `containsPoint` and `draw` rotate about: the midpoint of a line, else the box centre. */
  function Center(s: ShapeData): (real, real) {
    if s.kind == Line then ((s.x + s.endX) / 2.0, (s.y + s.endY) / 2.0)
    else (s.x + s.width / 2.0, s.y + s.height / 2.0)
  }

  /**
   * The numerator of the line-equation distance in `distanceToLine`: `A*fx + B*fy + C` with
   * `A = endY - y`, `B = x - endX`, `C = endX*y - x*endY`.
   */
  function LineEquation(s: ShapeData, fx: real, fy: real): real {
    (s.endY - s.y) * fx + (s.x - s.endX) * fy + (s.endX * s.y - s.x * s.endY)
  }

  /** The line equation depends only on the point relative to the start of the line. */
  lemma LineEquationRelative(s: ShapeData, fx: real, fy: real)
    ensures LineEquation(s, fx, fy) == (s.endY - s.y) * (fx - s.x) - (s.endX - s.x) * (fy - s.y)
  {
  }

  /**
   * `distanceToLine(...) < 5` for a segment whose end is `(ex, ey)` relative to its start, queried
   * at `(qx, qy)` relative to the start, with `equation` the line-equation numerator. Every
   * comparison of square roots is replaced by the comparison of their squares. Past either end
   * the nearer end point counts; on a segment of length zero the line distance is 0 divided by
   * 0, and NaN is never below the tolerance.
   */
  predicate NearSegment(ex: real, ey: real, qx: real, qy: real, equation: real) {
    var dot := qx * ex + qy * ey;
    var squaredLength := ex * ex + ey * ey;
    if dot < 0.0 || dot > squaredLength then
      var toStart := qx * qx + qy * qy;
      var toEnd := (qx - ex) * (qx - ex) + (qy - ey) * (qy - ey);
      toStart < LineTolerance * LineTolerance || toEnd < LineTolerance * LineTolerance
    else
      squaredLength != 0.0 && equation * equation < LineTolerance * LineTolerance * squaredLength
  }

  /** `distanceToLine(fx, fy) < 5` on a line shape. */
  predicate NearLine(s: ShapeData, fx: real, fy: real) {
    NearSegment(s.endX - s.x, s.endY - s.y, fx - s.x, fy - s.y, LineEquation(s, fx, fy))
  }

  /** The offset of a point from the centre of the shape's box. */
  function FromBoxCenter(s: ShapeData, fx: real, fy: real): (real, real) {
    (fx - (s.x + s.width / 2.0), fy - (s.y + s.height / 2.0))
  }

  /**
   * The test `containsPoint` makes once the point is in the shape's unrotated frame: inside the
   * box (edges included) for a rectangle, within `radius` of the box centre for a circle
   * (`sqrt(d) <= radius` is `d <= radius * radius` for a radius that is not negative, and false
   * otherwise), near the segment for a line.
   */
  predicate ContainsLocal(s: ShapeData, fx: real, fy: real) {
    match s.kind
    case Rectangle => s.x <= fx <= s.x + s.width && s.y <= fy <= s.y + s.height
    case Circle =>
      var d := FromBoxCenter(s, fx, fy);
      s.radius >= 0.0 && d.0 * d.0 + d.1 * d.1 <= s.radius * s.radius
    case Line => NearLine(s, fx, fy)
  }

  /** The point `(px, py)` rotated about `(cx, cy)` by an angle with the given cosine and sine. */
  function RotateAbout(cx: real, cy: real, px: real, py: real, cos: real, sin: real): (real, real) {
    ((px - cx) * cos - (py - cy) * sin + cx, (px - cx) * sin + (py - cy) * cos + cy)
  }

  /**
   * A line whose end is its start is never hit: the dot product and the squared length are both
   * 0, so the line distance is taken, and it is 0 divided by 0.
   */
  lemma ZeroLengthLineMissed(s: ShapeData, fx: real, fy: real)
    requires s.endX == s.x && s.endY == s.y
    ensures !NearLine(s, fx, fy)
  {
  }

  /** `containsPoint`: rotate the point by minus the shape's rotation about its centre, then test. */
  predicate ContainsPoint(s: ShapeData, px: real, py: real, m: MathLib) {
    var c := Center(s);
    var cs := m.cosSin(-s.rotation);
    var f := RotateAbout(c.0, c.1, px, py, cs.0, cs.1);
    ContainsLocal(s, f.0, f.1)
  }

  /** At rotation 0 (cosine 1, sine 0) the hit test is the unrotated one. */
  lemma ContainsPointUnrotated(s: ShapeData, px: real, py: real, m: MathLib)
    requires s.rotation == 0.0 && m.cosSin(0.0) == (1.0, 0.0)
    ensures ContainsPoint(s, px, py, m) == ContainsLocal(s, px, py)
  {
  }

  /** Rotating by an angle and then by its opposite (same cosine, negated sine) is the identity. */
  lemma RotateBack(cx: real, cy: real, px: real, py: real, cos: real, sin: real)
    requires cos * cos + sin * sin == 1.0
    ensures var q := RotateAbout(cx, cy, px, py, cos, sin);
            RotateAbout(cx, cy, q.0, q.1, cos, -sin) == (px, py)
  {
    var tx, ty := px - cx, py - cy;
    var q := RotateAbout(cx, cy, px, py, cos, sin);
    assert q.0 - cx == tx * cos - ty * sin && q.1 - cy == tx * sin + ty * cos;
    var u, v := tx * cos - ty * sin, tx * sin + ty * cos;
    assert u * cos - v * (-sin) == tx * (cos * cos + sin * sin) == tx;
    assert u * (-sin) + v * cos == ty * (cos * cos + sin * sin) == ty;
    var r := RotateAbout(cx, cy, q.0, q.1, cos, -sin);
    assert r.0 == u * cos - v * (-sin) + cx;
    assert r.1 == u * (-sin) + v * cos + cy;
    assert r.0 == px && r.1 == py;
    assert r == (px, py);
  }

  /**
   * Hit testing follows rotation: the rotated shape contains a point rotated with it about its
   * centre exactly when the unrotated shape contains the original point. This needs only that
   * the supplied cosine and sine of the rotation form a unit vector and that negating the angle
   * negates the sine.
   */
  lemma ContainsPointRotates(s: ShapeData, px: real, py: real, m: MathLib, cos: real, sin: real)
    requires m.cosSin(s.rotation) == (cos, sin) && cos * cos + sin * sin == 1.0
    requires m.cosSin(-s.rotation) == (cos, -sin)
    ensures var q := RotateAbout(Center(s).0, Center(s).1, px, py, cos, sin);
            ContainsPoint(s, q.0, q.1, m) == ContainsLocal(s, px, py)
  {
    var q := RotateAbout(Center(s).0, Center(s).1, px, py, cos, sin);
    RotateBack(Center(s).0, Center(s).1, px, py, cos, sin);
    ContainsPointVia(s, q.0, q.1, m, px, py);
  }

  /** `containsPoint` is the unrotated test at the point the reverse rotation yields. */
  lemma ContainsPointVia(s: ShapeData, px: real, py: real, m: MathLib, fx: real, fy: real)
    requires RotateAbout(Center(s).0, Center(s).1, px, py, m.cosSin(-s.rotation).0, m.cosSin(-s.rotation).1) == (fx, fy)
    ensures ContainsPoint(s, px, py, m) == ContainsLocal(s, fx, fy)
  {
  }

  // ---------------------------------------------------------------------------------------------
  // Move and resize

  /** `move(dx, dy)`: shifts the anchor, and for a line the end point too. */
  function Moved(s: ShapeData, dx: real, dy: real): (r: ShapeData)
    ensures r.x == s.x + dx && r.y == s.y + dy
    ensures s.kind == Line ==> r.endX == s.endX + dx && r.endY == s.endY + dy
    ensures s.kind != Line ==> r.endX == s.endX && r.endY == s.endY
    ensures r.(x := s.x, y := s.y, endX := s.endX, endY := s.endY) == s
  {
    var r := s.(x := s.x + dx, y := s.y + dy);
    if s.kind == Line then r.(endX := s.endX + dx, endY := s.endY + dy) else r
  }

  /** Moving back by the opposite offset restores the shape. */
  lemma MovedBack(s: ShapeData, dx: real, dy: real)
    ensures Moved(Moved(s, dx, dy), -dx, -dy) == s
  {
  }

  /** A move translates the bounds and the centre and leaves the size of the bounds alone. */
  lemma BoundsMoved(s: ShapeData, dx: real, dy: real)
    ensures var b, b' := Bounds(s), Bounds(Moved(s, dx, dy));
            b' == Rect(b.x + dx, b.y + dy, b.width, b.height)
    ensures Center(Moved(s, dx, dy)) == (Center(s).0 + dx, Center(s).1 + dy)
  {
  }

  /** Rotation about a centre commutes with translating both the centre and the point. */
  lemma RotateAboutShifted(cx: real, cy: real, px: real, py: real, cos: real, sin: real, dx: real, dy: real)
    ensures var q := RotateAbout(cx, cy, px, py, cos, sin);
            RotateAbout(cx + dx, cy + dy, px + dx, py + dy, cos, sin) == (q.0 + dx, q.1 + dy)
  {
    assert (px + dx) - (cx + dx) == px - cx && (py + dy) - (cy + dy) == py - cy;
  }

  /** The unrotated hit test of the moved shape at the moved point is the original one. */
  lemma ContainsLocalMoved(s: ShapeData, dx: real, dy: real, fx: real, fy: real)
    ensures ContainsLocal(Moved(s, dx, dy), fx + dx, fy + dy) == ContainsLocal(s, fx, fy)
  {
    var s' := Moved(s, dx, dy);
    match s.kind
    case Rectangle =>
    case Circle =>
      assert FromBoxCenter(s', fx + dx, fy + dy) == FromBoxCenter(s, fx, fy);
    case Line =>
      var ex, ey, qx, qy := s.endX - s.x, s.endY - s.y, fx - s.x, fy - s.y;
      LineEquationRelative(s, fx, fy);
      LineEquationRelative(s', fx + dx, fy + dy);
      assert s'.endX - s'.x == ex && s'.endY - s'.y == ey;
      assert fx + dx - s'.x == qx && fy + dy - s'.y == qy;
      assert LineEquation(s', fx + dx, fy + dy) == ey * qx - ex * qy == LineEquation(s, fx, fy);
  }

  /** A move carries the hit area with it: the moved shape contains exactly the moved points. */
  lemma ContainsPointMoved(s: ShapeData, dx: real, dy: real, px: real, py: real, m: MathLib)
    ensures ContainsPoint(Moved(s, dx, dy), px + dx, py + dy, m) == ContainsPoint(s, px, py, m)
  {
    var c := Center(s);
    var cs := m.cosSin(-s.rotation);
    var f := RotateAbout(c.0, c.1, px, py, cs.0, cs.1);
    BoundsMoved(s, dx, dy);
    RotateAboutShifted(c.0, c.1, px, py, cs.0, cs.1, dx, dy);
    ContainsLocalMoved(s, dx, dy, f.0, f.1);
  }

  /**
   * `resize(newWidth, newHeight)`. A rectangle or circle takes the new size, a circle's radius
   * becoming half the larger side. A line keeps its start point and direction
   * (`atan2` of its vector) and takes the length `sqrt(newWidth² + newHeight²)`.
   */
  function Resized(s: ShapeData, newWidth: real, newHeight: real, m: MathLib): (r: ShapeData)
    ensures s.kind != Line ==> r.width == newWidth && r.height == newHeight
    ensures s.kind == Circle ==> r.radius == Max(newWidth, newHeight) / 2.0
    ensures s.kind != Line ==> r.(width := s.width, height := s.height, radius := s.radius) == s
    ensures s.kind == Line ==> r.(endX := s.endX, endY := s.endY) == s
  {
    if s.kind == Line then
      var angle := m.atan2(s.endY - s.y, s.endX - s.x);
      var length := m.sqrt(newWidth * newWidth + newHeight * newHeight);
      var cs := m.cosSin(angle);
      s.(endX := s.x + cs.0 * length, endY := s.y + cs.1 * length)
    else
      var r := s.(width := newWidth, height := newHeight);
      if s.kind == Circle then r.(radius := Max(newWidth, newHeight) / 2.0) else r
  }

  // ---------------------------------------------------------------------------------------------
  // Handles of a selected shape

  /** The unrotated position of a handle on the bounds. */
  function HandleAnchor(b: Rect, h: Handle): (real, real) {
    var cx, cy := b.x + b.width / 2.0, b.y + b.height / 2.0;
    match h
    case TopLeft => (b.x, b.y)
    case Top => (cx, b.y)
    case TopRight => (b.x + b.width, b.y)
    case Right => (b.x + b.width, cy)
    case BottomRight => (b.x + b.width, b.y + b.height)
    case Bottom => (cx, b.y + b.height)
    case BottomLeft => (b.x, b.y + b.height)
    case Left => (b.x, cy)
  }

  /** `getHandleBounds`: the handle's anchor rotated by the shape's rotation about the centre of the bounds. */
  function HandlePosition(s: ShapeData, h: Handle, m: MathLib): (real, real) {
    var b := Bounds(s);
    var (hx, hy) := HandleAnchor(b, h);
    var (cos, sin) := m.cosSin(s.rotation);
    RotateAbout(b.x + b.width / 2.0, b.y + b.height / 2.0, hx, hy, cos, sin)
  }

  /** `getRotationHandleBounds`: a point 20 above the middle of the top edge, rotated likewise. */
  function RotationHandlePosition(s: ShapeData, m: MathLib): (real, real) {
    var b := Bounds(s);
    var (cos, sin) := m.cosSin(s.rotation);
    RotateAbout(b.x + b.width / 2.0, b.y + b.height / 2.0, b.x + b.width / 2.0, b.y - RotationHandleOffset, cos, sin)
  }

  /** Unrotated (cosine 1, sine 0), a resize handle sits on its anchor of the bounds. */
  lemma HandlePositionUnrotated(s: ShapeData, h: Handle, m: MathLib)
    requires m.cosSin(s.rotation) == (1.0, 0.0)
    ensures HandlePosition(s, h, m) == HandleAnchor(Bounds(s), h)
    ensures RotationHandlePosition(s, m) == (Bounds(s).x + Bounds(s).width / 2.0, Bounds(s).y - RotationHandleOffset)
  {
  }

  /**
   * Rotation keeps every handle at its unrotated distance from the centre of the bounds, given
   * a cosine and sine that form a unit vector.
   */
  lemma {:induction false} HandleDistanceKept(s: ShapeData, h: Handle, m: MathLib)
    requires var cs := m.cosSin(s.rotation); cs.0 * cs.0 + cs.1 * cs.1 == 1.0
    ensures var b := Bounds(s);
            var c := (b.x + b.width / 2.0, b.y + b.height / 2.0);
            var p, a := HandlePosition(s, h, m), HandleAnchor(b, h);
            (p.0 - c.0) * (p.0 - c.0) + (p.1 - c.1) * (p.1 - c.1) == (a.0 - c.0) * (a.0 - c.0) + (a.1 - c.1) * (a.1 - c.1)
  {
    var b := Bounds(s);
    var cs := m.cosSin(s.rotation);
    var a := HandleAnchor(b, h);
    var cx, cy := b.x + b.width / 2.0, b.y + b.height / 2.0;
    var p := HandlePosition(s, h, m);
    assert p == RotateAbout(cx, cy, a.0, a.1, cs.0, cs.1);
    RotationKeepsLength(a.0 - cx, a.1 - cy, cs.0, cs.1);
  }

  /** Rotating an offset by a unit vector keeps its squared length. */
  lemma RotationKeepsLength(u: real, v: real, cos: real, sin: real)
    requires cos * cos + sin * sin == 1.0
    ensures (u * cos - v * sin) * (u * cos - v * sin) + (u * sin + v * cos) * (u * sin + v * cos) == u * u + v * v
  {
    assert (u * cos - v * sin) * (u * cos - v * sin) + (u * sin + v * cos) * (u * sin + v * cos)
        == u * u * (cos * cos + sin * sin) + v * v * (cos * cos + sin * sin);
  }

  /** The click lands in the square of half-side 4 around a handle position (edges included). */
  predicate NearHandle(px: real, py: real, pos: (real, real)) {
    pos.0 - HandleTolerance <= px <= pos.0 + HandleTolerance && pos.1 - HandleTolerance <= py <= pos.1 + HandleTolerance
  }

  /** `h` is the first handle, in creation order, whose square holds the click. */
  predicate IsFirstHandleHit(s: ShapeData, px: real, py: real, m: MathLib, h: Handle) {
    && NearHandle(px, py, HandlePosition(s, h, m))
    && forall j :: 0 <= j < HandleIndex(h) ==> !NearHandle(px, py, HandlePosition(s, HandleOrder[j], m))
  }

  /** No handle's square holds the click. */
  predicate NoHandleHit(s: ShapeData, px: real, py: real, m: MathLib) {
    forall h :: !NearHandle(px, py, HandlePosition(s, h, m))
  }

  /**
   * The handle loop of `handleSelectionClick`: the first handle, in creation order, whose square
   * holds the click, or none.
   */
  method HitHandle(s: ShapeData, px: real, py: real, m: MathLib) returns (hit: Option<Handle>)
    ensures hit.Some? ==> IsFirstHandleHit(s, px, py, m, hit.value)
    ensures hit.None? <==> NoHandleHit(s, px, py, m)
  {
    var i := 0;
    while i < |HandleOrder|
      invariant 0 <= i <= |HandleOrder|
      invariant forall j :: 0 <= j < i ==> !NearHandle(px, py, HandlePosition(s, HandleOrder[j], m))
    {
      var h := HandleOrder[i];
      if NearHandle(px, py, HandlePosition(s, h, m)) {
        assert HandleIndex(h) == i;
        return Some(h);
      }
      i := i + 1;
    }
    forall h ensures !NearHandle(px, py, HandlePosition(s, h, m)) {
      assert HandleOrder[HandleIndex(h)] == h;
    }
    return None;
  }

  /** The position, size and anchor a handle drag asks for, before the minimum size of 1 is applied. */
  datatype ResizeTarget = ResizeTarget(x: real, y: real, width: real, height: real)

  /**
   * The table in `handleSelectionMove`: the dragged corner or edge follows the pointer and the
   * opposite one stays. `anchorX`/`anchorY` are the shape's own `x`/`y`, which are what an
   * unmoved coordinate keeps; no handle keeps everything.
   */
  function HandleTable(b: Rect, anchorX: real, anchorY: real, handle: Option<Handle>, px: real, py: real): ResizeTarget {
    var keep := ResizeTarget(anchorX, anchorY, b.width, b.height);
    var fromLeft := b.width + (b.x - px);
    var fromTop := b.height + (b.y - py);
    var toRight := px - b.x;
    var toBottom := py - b.y;
    match handle
    case None => keep
    case Some(TopLeft) => ResizeTarget(px, py, fromLeft, fromTop)
    case Some(Top) => keep.(y := py, height := fromTop)
    case Some(TopRight) => keep.(y := py, width := toRight, height := fromTop)
    case Some(Right) => keep.(width := toRight)
    case Some(BottomRight) => keep.(width := toRight, height := toBottom)
    case Some(Bottom) => keep.(height := toBottom)
    case Some(BottomLeft) => keep.(x := px, width := fromLeft, height := toBottom)
    case Some(Left) => keep.(x := px, width := fromLeft)
  }

  /**
   * One pointer move while resizing with `handle`: the anchor moves only along an axis whose
   * requested size exceeds 1, and the shape is resized to the requested size floored at 1.
   */
  function HandleDragged(s: ShapeData, handle: Option<Handle>, px: real, py: real, m: MathLib): (r: ShapeData)
    ensures s.kind != Line ==> r.width >= 1.0 && r.height >= 1.0
    ensures r.kind == Circle ==> r.radius == Max(r.width, r.height) / 2.0
    ensures s.kind != Line ==> r.(x := s.x, y := s.y, width := s.width, height := s.height, radius := s.radius) == s
  {
    var t := HandleTable(Bounds(s), s.x, s.y, handle, px, py);
    var anchored := s.(x := if t.width > 1.0 then t.x else s.x, y := if t.height > 1.0 then t.y else s.y);
    Resized(anchored, Max(t.width, 1.0), Max(t.height, 1.0), m)
  }

  /**
   * Left-side handles of a rectangle or circle keep the right edge where it was whenever the
   * requested width exceeds 1, and put the left edge at the pointer.
   */
  lemma LeftHandlesKeepRightEdge(s: ShapeData, h: Handle, px: real, py: real, m: MathLib)
    requires s.kind != Line && h in {TopLeft, Left, BottomLeft}
    requires s.width + (s.x - px) > 1.0
    ensures var r := HandleDragged(s, Some(h), px, py, m);
            r.x == px && r.x + r.width == s.x + s.width
  {
  }

  /** Top-side handles keep the bottom edge whenever the requested height exceeds 1. */
  lemma TopHandlesKeepBottomEdge(s: ShapeData, h: Handle, px: real, py: real, m: MathLib)
    requires s.kind != Line && h in {TopLeft, Top, TopRight}
    requires s.height + (s.y - py) > 1.0
    ensures var r := HandleDragged(s, Some(h), px, py, m);
            r.y == py && r.y + r.height == s.y + s.height
  {
  }

  /**
   * Right and bottom handles never move the anchor; the dragged edge follows the pointer when
   * the size it asks for exceeds 1.
   */
  lemma FarHandlesKeepAnchor(s: ShapeData, h: Handle, px: real, py: real, m: MathLib)
    requires s.kind != Line && h in {Right, BottomRight, Bottom}
    ensures var r := HandleDragged(s, Some(h), px, py, m);
            && r.x == s.x && r.y == s.y
            && (h != Bottom && px - s.x > 1.0 ==> r.x + r.width == px)
            && (h != Right && py - s.y > 1.0 ==> r.y + r.height == py)
  {
  }

  /**
   * The far edges of the two mixed corners: the top-right handle keeps `x` and puts the right
   * edge at the pointer, the bottom-left handle keeps `y` and puts the bottom edge at the
   * pointer, each when the size it asks for exceeds 1.
   */
  lemma MixedCornersFarEdge(s: ShapeData, px: real, py: real, m: MathLib)
    requires s.kind != Line
    ensures var r := HandleDragged(s, Some(TopRight), px, py, m);
            r.x == s.x && (px - s.x > 1.0 ==> r.x + r.width == px)
    ensures var r := HandleDragged(s, Some(BottomLeft), px, py, m);
            r.y == s.y && (py - s.y > 1.0 ==> r.y + r.height == py)
  {
  }

  /** Edge handles leave the other axis alone, apart from flooring its size at 1. */
  lemma EdgeHandlesKeepOtherAxis(s: ShapeData, h: Handle, px: real, py: real, m: MathLib)
    requires s.kind != Line && h in {Top, Right, Bottom, Left}
    ensures var r := HandleDragged(s, Some(h), px, py, m);
            && (h in {Top, Bottom} ==> r.x == s.x && r.width == Max(s.width, 1.0))
            && (h in {Left, Right} ==> r.y == s.y && r.height == Max(s.height, 1.0))
  {
  }

  /** A requested size of at most 1 leaves the anchor on that axis and sets the size to exactly 1. */
  lemma CollapsedAxisKeepsAnchor(s: ShapeData, h: Option<Handle>, px: real, py: real, m: MathLib)
    requires s.kind != Line
    ensures var t := HandleTable(Bounds(s), s.x, s.y, h, px, py);
            var r := HandleDragged(s, h, px, py, m);
            && (t.width <= 1.0 ==> r.x == s.x && r.width == 1.0)
            && (t.height <= 1.0 ==> r.y == s.y && r.height == 1.0)
  {
  }

  // ---------------------------------------------------------------------------------------------
  // Creating a shape from a drag

  /**
   * The properties `createShape` passes to the constructor for a drag from `(startX, startY)` to
   * `(endX, endY)`. A rectangle takes the smaller corner and the absolute extents; a circle is
   * centred on the start point with the drag length as radius; a line keeps both points.
   */
  function CreationProps(kind: ShapeKind, startX: real, startY: real, endX: real, endY: real,
                         style: Style, layerIndex: int, m: MathLib): Props {
    var common := Props(None, None, None, None, None, None, None,
                        Some(style.color), Some(style.lineWidth), Some(style.opacity), None, Some(layerIndex));
    match kind
    case Rectangle =>
      var width, height := endX - startX, endY - startY;
      var x := if width < 0.0 then endX else startX;
      var y := if height < 0.0 then endY else startY;
      common.(x := Some(x), y := Some(y), width := Some(Abs(width)), height := Some(Abs(height)))
    case Circle =>
      var radius := m.sqrt((endX - startX) * (endX - startX) + (endY - startY) * (endY - startY));
      common.(x := Some(startX - radius), y := Some(startY - radius),
              width := Some(radius * 2.0), height := Some(radius * 2.0), radius := Some(radius))
    case Line =>
      common.(x := Some(startX), y := Some(startY), endX := Some(endX), endY := Some(endY),
              width := Some(Abs(endX - startX)), height := Some(Abs(endY - startY)))
  }

  /** The shape `createShape` builds. */
  function CreatedShape(kind: ShapeKind, startX: real, startY: real, endX: real, endY: real,
                        style: Style, layerIndex: int, m: MathLib): ShapeData {
    FromProps(kind, CreationProps(kind, startX, startY, endX, endY, style, layerIndex, m))
  }

  /**
   * A dragged rectangle is normalised whatever the drag direction: the smaller corner and the
   * absolute extents. It is unrotated, on the given layer, and a zero opacity or line width of
   * the style becomes 1.
   */
  lemma CreatedRectangle(startX: real, startY: real, endX: real, endY: real, style: Style, layerIndex: int, m: MathLib)
    ensures var s := CreatedShape(Rectangle, startX, startY, endX, endY, style, layerIndex, m);
            && s.x == Min(startX, endX) && s.y == Min(startY, endY)
            && s.width == Abs(endX - startX) && s.height == Abs(endY - startY)
            && Bounds(s) == Rect(Min(startX, endX), Min(startY, endY), Abs(endX - startX), Abs(endY - startY))
            && s.x + s.width == Max(startX, endX) && s.y + s.height == Max(startY, endY)
            && s.rotation == 0.0 && s.layerIndex == layerIndex
            && s.opacity == (if style.opacity == 0.0 then 1.0 else style.opacity)
            && s.lineWidth == (if style.lineWidth == 0.0 then 1.0 else style.lineWidth)
  {
  }

  /**
   * A dragged circle has the drag length as radius and a square box of side twice that, centred
   * on the start point.
   */
  lemma CreatedCircle(startX: real, startY: real, endX: real, endY: real, style: Style, layerIndex: int, m: MathLib)
    ensures var radius := m.sqrt((endX - startX) * (endX - startX) + (endY - startY) * (endY - startY));
            var s := CreatedShape(Circle, startX, startY, endX, endY, style, layerIndex, m);
            && s.radius == radius && s.width == 2.0 * radius && s.height == 2.0 * radius
            && Center(s) == (startX, startY)
            && Bounds(s) == Rect(startX - radius, startY - radius, 2.0 * radius, 2.0 * radius)
  {
  }

  /** A dragged line keeps both points; its stored size is the absolute extent of the drag. */
  lemma CreatedLine(startX: real, startY: real, endX: real, endY: real, style: Style, layerIndex: int, m: MathLib)
    ensures var s := CreatedShape(Line, startX, startY, endX, endY, style, layerIndex, m);
            && s.x == startX && s.y == startY && s.endX == endX && s.endY == endY
            && s.width == Abs(endX - startX) && s.height == Abs(endY - startY)
            && Bounds(s).width == s.width && Bounds(s).height == s.height
  {
  }

  /** The rectangle examples: a drag from (50, 50) to (150, 120), and a reversed drag to (20, 10). */
  lemma RectangleExamples(style: Style, m: MathLib)
    ensures Bounds(CreatedShape(Rectangle, 50.0, 50.0, 150.0, 120.0, style, 0, m)) == Rect(50.0, 50.0, 100.0, 70.0)
    ensures Bounds(CreatedShape(Rectangle, 50.0, 50.0, 20.0, 10.0, style, 0, m)) == Rect(20.0, 10.0, 30.0, 40.0)
  {
  }

  /** The circle example: a drag from (100, 100) to (130, 100) gives radius 30. */
  lemma CircleExample(style: Style, m: MathLib)
    requires m.sqrt(900.0) == 30.0
    ensures var s := CreatedShape(Circle, 100.0, 100.0, 130.0, 100.0, style, 0, m);
            s.radius == 30.0 && Bounds(s) == Rect(70.0, 70.0, 60.0, 60.0)
  {
  }

  // ---------------------------------------------------------------------------------------------
  // Rotation by the rotation handle

  /**
   * The point the rotation handle turns the shape about: the centre of the stored box
   * `x + width/2, y + height/2`, for a line too.
   */
  function Pivot(s: ShapeData): (real, real) {
    (s.x + s.width / 2.0, s.y + s.height / 2.0)
  }

  /** The direction of the pointer seen from the pivot, in degrees. */
  function PointerAngle(s: ShapeData, px: real, py: real, m: MathLib): real {
    m.atan2(py - Pivot(s).1, px - Pivot(s).0)
  }

  /** The integer part of a real, rounded toward zero. */
  function Trunc(r: real): (n: int)
    ensures r >= 0.0 ==> n as real <= r < n as real + 1.0
    ensures r < 0.0 ==> n as real - 1.0 < r <= n as real
  {
    if r >= 0.0 then r.Floor else -((-r).Floor)
  }

  /** JavaScript's `r % 360` on numbers: the remainder takes the sign of `r`. */
  function WrapDegrees(r: real): (w: real)
    ensures -360.0 < w < 360.0
    ensures r >= 0.0 ==> w >= 0.0
    ensures r <= 0.0 ==> w <= 0.0
    ensures ((r - w) / 360.0).Floor as real == (r - w) / 360.0
  {
    var turns := Trunc(r / 360.0) as real;
    assert r / 360.0 - 1.0 < turns < r / 360.0 + 1.0;
    assert (r - (r - 360.0 * turns)) / 360.0 == turns;
    r - 360.0 * turns
  }

  /**
   * One pointer move while rotating: the rotation grows by the angle the pointer turned since
   * `startAngle`, reduced with JavaScript's `% 360`; nothing else changes.
   */
  function Rotated(s: ShapeData, startAngle: real, px: real, py: real, m: MathLib): (r: ShapeData)
    ensures -360.0 < r.rotation < 360.0
    ensures r.(rotation := s.rotation) == s
  {
    s.(rotation := WrapDegrees(s.rotation + (PointerAngle(s, px, py, m) - startAngle)))
  }

  /** Two moves add up: a drag moves the shape by the total pointer displacement. */
  lemma MovedTwice(s: ShapeData, dx1: real, dy1: real, dx2: real, dy2: real)
    ensures Moved(Moved(s, dx1, dy1), dx2, dy2) == Moved(s, dx1 + dx2, dy1 + dy2)
  {
  }

  // ---------------------------------------------------------------------------------------------
  // The `Shape` object

  /** A shape object. Layers list these objects and the selection tool holds one of them. */
  class Shape {
    const kind: ShapeKind
    var x: real
    var y: real
    var width: real
    var height: real
    var radius: real
    var endX: real
    var endY: real
    var color: string
    var lineWidth: real
    var opacity: real
    var rotation: real
    var layerIndex: int

    /** The object's fields as a value. */
    function Data(): ShapeData
      reads this
    {
      ShapeData(kind, x, y, width, height, radius, endX, endY, color, lineWidth, opacity, rotation, layerIndex)
    }

    /** `new Shape(type, props)`. */
    constructor (kind: ShapeKind, props: Props)
      ensures Data() == FromProps(kind, props)
    {
      var s := FromProps(kind, props);
      this.kind := kind;
      x, y, width, height, radius, endX, endY := s.x, s.y, s.width, s.height, s.radius, s.endX, s.endY;
      color, lineWidth, opacity, rotation, layerIndex := s.color, s.lineWidth, s.opacity, s.rotation, s.layerIndex;
    }

    /** `move(dx, dy)`. */
    method Move(dx: real, dy: real)
      modifies this
      ensures Data() == Moved(old(Data()), dx, dy)
    {
      x := x + dx;
      y := y + dy;
      if kind == Line {
        endX := endX + dx;
        endY := endY + dy;
      }
    }

    /** `resize(newWidth, newHeight)`. */
    method Resize(newWidth: real, newHeight: real, m: MathLib)
      modifies this
      ensures Data() == Resized(old(Data()), newWidth, newHeight, m)
    {
      if kind == Line {
        var angle := m.atan2(endY - y, endX - x);
        var length := m.sqrt(newWidth * newWidth + newHeight * newHeight);
        var cs := m.cosSin(angle);
        ghost var before := Data();
        endX := x + cs.0 * length;
        endY := y + cs.1 * length;
        assert Data() == before.(endX := endX, endY := endY);
      } else {
        width := newWidth;
        height := newHeight;
        if kind == Circle {
          radius := Max(newWidth, newHeight) / 2.0;
        }
      }
    }
  }
}
