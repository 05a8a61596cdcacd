/**
 * The paint bucket: `floodFill` and its pixel helpers `getColorAtPixel`, `getColorAtPosition`
 * and `setColorAtPosition`, over the RGBA bytes of a layer's image data
 * (`width * height` pixels, four bytes each, row by row).
 */
module FloodFill {
  import opened Common
  import opened Colour

  /** A pixel coordinate on the fill stack; pushed neighbours may lie outside the image. */
  datatype Point = Point(x: int, y: int)

  predicate InBounds(p: Point, width: int, height: int) {
    0 <= p.x < width && 0 <= p.y < height
  }

  /**
   * The product `a * b` as repeated addition. Being recursive, it is unfolded only where a proof
   * asks for it, which keeps the products of coordinates in the fill invariants away from the
   * nonlinear arithmetic of the solver; `MulIsProduct` ties it to `*`.
   */
  function Mul(a: int, b: int): int
    decreases if a < 0 then -a else a
  {
    if a == 0 then 0 else if a > 0 then Mul(a - 1, b) + b else Mul(a + 1, b) - b
  }

  lemma {:induction false} MulIsProduct(a: int, b: int)
    ensures Mul(a, b) == a * b
    decreases if a < 0 then -a else a
  {
    if a > 0 {
      MulIsProduct(a - 1, b);
    } else if a < 0 {
      MulIsProduct(a + 1, b);
    }
  }

  /** Row-major pixel number of a point: `y * width + x`; its first byte is four times this. */
  function Index(p: Point, width: int): int {
    Mul(p.y, width) + p.x
  }

  lemma IndexValue(p: Point, width: int)
    ensures Index(p, width) == p.y * width + p.x
  {
    MulIsProduct(p.y, width);
  }

  lemma IndexInRange(p: Point, width: int, height: int)
    requires InBounds(p, width, height)
    ensures 0 <= Index(p, width) < width * height
  {
    IndexValue(p, width);
    AtLeastOnce(p.y + 1, width);
    MulMono(p.y + 1, height, width);
    assert p.y * width + width == (p.y + 1) * width;
  }

  lemma MulMono(a: int, b: int, w: int)
    requires 0 <= a <= b && w >= 0
    ensures a * w <= b * w
  {
    assert (b - a) * w >= 0;
  }

  lemma IndexInjective(p: Point, q: Point, width: int, height: int)
    requires InBounds(p, width, height) && InBounds(q, width, height)
    requires Index(p, width) == Index(q, width)
    ensures p == q
  {
    IndexValue(p, width);
    IndexValue(q, width);
    if p.y != q.y {
      var lo, hi := if p.y < q.y then p else q, if p.y < q.y then q else p;
      assert (hi.y - lo.y) * width == lo.x - hi.x;
      AtLeastOnce(hi.y - lo.y, width);
      assert false;
    }
  }

  lemma AtLeastOnce(a: int, w: int)
    requires a >= 1 && w >= 0
    ensures a * w >= w
  {
    assert (a - 1) * w >= 0;
  }

  /** `getColorAtPosition`: the four bytes starting at `pos`. */
  function ColorAtPosition(data: seq<Byte>, pos: int): Rgba
    requires 0 <= pos && pos + 4 <= |data|
  {
    Rgba(data[pos], data[pos + 1], data[pos + 2], data[pos + 3])
  }

  /** The colour of pixel number `k`. */
  function Px(data: seq<Byte>, k: int): Rgba
    requires 0 <= k && 4 * k + 4 <= |data|
  {
    ColorAtPosition(data, 4 * k)
  }

  /** The colour of an in-bounds point. */
  function PixelAt(data: seq<Byte>, width: int, height: int, p: Point): Rgba
    requires |data| == 4 * (width * height) && InBounds(p, width, height)
  {
    IndexInRange(p, width, height);
    Px(data, Index(p, width))
  }

  /**
   * `getColorAtPixel` for an integer point. When the four bytes at its position do not exist,
   * every channel reads as `undefined` and no comparison with it succeeds: that is `None`.
   */
  function ColorAtPixel(data: seq<Byte>, width: int, p: Point): (c: Option<Rgba>)
    ensures c.Some? <==> 0 <= Index(p, width) && 4 * Index(p, width) + 4 <= |data|
    ensures c.Some? ==> c.value == Px(data, Index(p, width))
  {
    IndexValue(p, width);
    var pos := (p.y * width + p.x) * 4;
    if 0 <= pos && pos + 4 <= |data| then Some(ColorAtPosition(data, pos)) else None
  }

  /** `colorsMatch(c, target)`, where an undefined target matches nothing. */
  predicate Matches(c: Rgba, target: Option<Rgba>) {
    target.Some? && ColorsMatch(c, target.value)
  }

  /** The bytes after `setColorAtPosition(data, pos, c)`: the colour's channels, then alpha 255. */
  function SetPixel(data: seq<Byte>, pos: int, c: Rgba): (d: seq<Byte>)
    requires 0 <= pos && pos + 4 <= |data|
    requires 0 <= c.r < 256 && 0 <= c.g < 256 && 0 <= c.b < 256
    ensures |d| == |data|
    ensures forall i :: 0 <= i < |data| && !(pos <= i < pos + 4) ==> d[i] == data[i]
    ensures ColorAtPosition(d, pos) == Rgba(c.r, c.g, c.b, 255)
  {
    data[pos := c.r][pos + 1 := c.g][pos + 2 := c.b][pos + 3 := 255]
  }

  /** `setColorAtPosition`. */
  method SetColorAtPosition(data: array<Byte>, pos: int, c: Rgba)
    requires 0 <= pos && pos + 4 <= data.Length
    requires 0 <= c.r < 256 && 0 <= c.g < 256 && 0 <= c.b < 256
    modifies data
    ensures data[..] == SetPixel(old(data[..]), pos, c)
  {
    data[pos] := c.r;
    data[pos + 1] := c.g;
    data[pos + 2] := c.b;
    data[pos + 3] := 255;
  }

  lemma PxAfterSetPixel(data: seq<Byte>, k: int, c: Rgba, j: int)
    requires 0 <= k && 4 * k + 4 <= |data| && 0 <= j && 4 * j + 4 <= |data|
    requires 0 <= c.r < 256 && 0 <= c.g < 256 && 0 <= c.b < 256
    ensures Px(SetPixel(data, 4 * k, c), j) == if j == k then Rgba(c.r, c.g, c.b, 255) else Px(data, j)
  {
  }

  // ---------------------------------------------------------------------------------------------
  // Specification of the fill.

  /** The colour a written pixel receives. */
  function Written(fill: Rgba): Rgba {
    Rgba(fill.r, fill.g, fill.b, 255)
  }

  /** Pixel by pixel, `data` is `orig` except for pixels that matched `target` and now hold `fill`. */
  ghost predicate OnlyMatchingFilled(data: seq<Byte>, orig: seq<Byte>, n: int, target: Option<Rgba>, fill: Rgba) {
    && |data| == |orig| == 4 * n
    && forall k :: 0 <= k < n ==>
         Px(data, k) == Px(orig, k) || (Matches(Px(orig, k), target) && Px(data, k) == Written(fill))
  }

  /** An in-bounds pixel whose original colour matches the target. */
  ghost predicate Fillable(orig: seq<Byte>, width: int, height: int, target: Option<Rgba>, p: Point) {
    && |orig| == 4 * (width * height)
    && InBounds(p, width, height)
    && Matches(PixelAt(orig, width, height, p), target)
  }

  predicate Adjacent(p: Point, q: Point) {
    AbsInt(p.x - q.x) + AbsInt(p.y - q.y) == 1
  }

  /** A 4-connected run of in-bounds pixels whose original colour matches the target. */
  ghost predicate IsFillPath(orig: seq<Byte>, width: int, height: int, target: Option<Rgba>, path: seq<Point>) {
    && |orig| == 4 * (width * height)
    && |path| > 0
    && (forall i :: 0 <= i < |path| ==> Fillable(orig, width, height, target, path[i]))
    && (forall i :: 0 <= i < |path| - 1 ==> Adjacent(path[i], path[i + 1]))
  }

  // ---------------------------------------------------------------------------------------------
  // Loop invariant of the fill: every written pixel has each neighbour written, unfillable
  // (outside, or not matching originally) or still waiting on the stack.

  ghost predicate Changed(data: seq<Byte>, orig: seq<Byte>, width: int, height: int, p: Point) {
    && |data| == |orig| == 4 * (width * height)
    && InBounds(p, width, height)
    && PixelAt(data, width, height, p) != PixelAt(orig, width, height, p)
  }

  ghost predicate Covered(data: seq<Byte>, orig: seq<Byte>, width: int, height: int, target: Option<Rgba>,
                          stack: seq<Point>, p: Point)
    requires |data| == |orig| == 4 * (width * height)
  {
    || !Fillable(orig, width, height, target, p)
    || Changed(data, orig, width, height, p)
    || p in stack
  }

  ghost predicate Closed(data: seq<Byte>, orig: seq<Byte>, width: int, height: int, target: Option<Rgba>,
                         stack: seq<Point>)
    requires |data| == |orig| == 4 * (width * height)
  {
    forall p, q {:trigger Adjacent(p, q)} :: Changed(data, orig, width, height, p) && Adjacent(p, q) ==>
      Covered(data, orig, width, height, target, stack, q)
  }

  /** The number of pixels among the first `n` that match the target: the fill's progress measure. */
  function MatchCount(data: seq<Byte>, target: Option<Rgba>, n: nat): nat
    requires 4 * n <= |data|
  {
    if n == 0 then 0 else MatchCount(data, target, n - 1) + (if Matches(Px(data, n - 1), target) then 1 else 0)
  }

  /** Writing a non-matching colour over a matching pixel lowers the count by exactly one. */
  lemma {:induction false} MatchCountAfterWrite(data: seq<Byte>, k: int, c: Rgba, target: Option<Rgba>, n: nat)
    requires 0 <= k && 4 * k + 4 <= |data| && 4 * n <= |data|
    requires 0 <= c.r < 256 && 0 <= c.g < 256 && 0 <= c.b < 256
    requires Matches(Px(data, k), target) && !Matches(Written(c), target)
    ensures MatchCount(SetPixel(data, 4 * k, c), target, n) == MatchCount(data, target, n) - (if k < n then 1 else 0)
  {
    if n > 0 {
      MatchCountAfterWrite(data, k, c, target, n - 1);
      PxAfterSetPixel(data, k, c, n - 1);
    }
  }

  /** The stack entries pushed for a written pixel, in the order `floodFill` pushes them. */
  function Neighbours(p: Point): (ns: seq<Point>)
    ensures forall q :: Adjacent(p, q) ==> q in ns
  {
    [Point(p.x + 1, p.y), Point(p.x - 1, p.y), Point(p.x, p.y + 1), Point(p.x, p.y - 1)]
  }

  /** Writing the fill over pixel `p` changes exactly `p` in addition to what had changed. */
  lemma ChangedAfterWrite(data: seq<Byte>, orig: seq<Byte>, width: int, height: int, target: Option<Rgba>,
                          fill: Rgba, p: Point, q: Point)
    requires |data| == |orig| == 4 * (width * height)
    requires 0 <= fill.r < 256 && 0 <= fill.g < 256 && 0 <= fill.b < 256
    requires InBounds(p, width, height)
    requires PixelAt(data, width, height, p) == PixelAt(orig, width, height, p)
    requires Matches(PixelAt(orig, width, height, p), target) && !Matches(Written(fill), target)
    ensures 0 <= Index(p, width) < width * height
    ensures Changed(SetPixel(data, 4 * Index(p, width), fill), orig, width, height, q)
            == (Changed(data, orig, width, height, q) || q == p)
  {
    IndexInRange(p, width, height);
    var k := Index(p, width);
    var d' := SetPixel(data, 4 * k, fill);
    if InBounds(q, width, height) {
      IndexInRange(q, width, height);
      PxAfterSetPixel(data, k, fill, Index(q, width));
      if Index(q, width) == k {
        IndexInjective(p, q, width, height);
      }
    }
  }

  /** Writing the fill over a matching, still original pixel keeps every pixel original or filled. */
  lemma WriteKeepsOnlyMatching(data: seq<Byte>, orig: seq<Byte>, width: int, height: int,
                               target: Option<Rgba>, fill: Rgba, p: Point)
    requires |data| == |orig| == 4 * (width * height)
    requires 0 <= fill.r < 256 && 0 <= fill.g < 256 && 0 <= fill.b < 256
    requires OnlyMatchingFilled(data, orig, width * height, target, fill)
    requires InBounds(p, width, height) && Matches(PixelAt(data, width, height, p), target)
    requires !Matches(Written(fill), target)
    ensures 0 <= Index(p, width) < width * height
    ensures OnlyMatchingFilled(SetPixel(data, 4 * Index(p, width), fill), orig, width * height, target, fill)
  {
    IndexInRange(p, width, height);
    var k := Index(p, width);
    var d' := SetPixel(data, 4 * k, fill);
    assert Px(data, k) == Px(orig, k);
    forall j | 0 <= j < width * height
      ensures Px(d', j) == Px(orig, j) || (Matches(Px(orig, j), target) && Px(d', j) == Written(fill))
    {
      PxAfterSetPixel(data, k, fill, j);
      if j == k {
        assert Px(d', j) == Written(fill);
      } else {
        assert Px(d', j) == Px(data, j);
      }
    }
  }

  /**
   * Writing pixel `p` and pushing its neighbours keeps every written pixel's neighbours covered,
   * and keeps the seed covered.
   */
  lemma WriteKeepsClosed(data: seq<Byte>, orig: seq<Byte>, width: int, height: int,
                         target: Option<Rgba>, fill: Rgba, stack: seq<Point>, p: Point, seed: Point)
    requires |data| == |orig| == 4 * (width * height)
    requires 0 <= fill.r < 256 && 0 <= fill.g < 256 && 0 <= fill.b < 256
    requires !Matches(Written(fill), target)
    requires Closed(data, orig, width, height, target, stack + [p])
    requires Covered(data, orig, width, height, target, stack + [p], seed)
    requires InBounds(p, width, height)
    requires PixelAt(data, width, height, p) == PixelAt(orig, width, height, p)
    requires Matches(PixelAt(orig, width, height, p), target)
    ensures 0 <= Index(p, width) < width * height
    ensures var d' := SetPixel(data, 4 * Index(p, width), fill);
            && Closed(d', orig, width, height, target, stack + Neighbours(p))
            && Covered(d', orig, width, height, target, stack + Neighbours(p), seed)
  {
    IndexInRange(p, width, height);
    var d' := SetPixel(data, 4 * Index(p, width), fill);
    var stack' := stack + Neighbours(p);
    forall q | Covered(data, orig, width, height, target, stack + [p], q)
      ensures Covered(d', orig, width, height, target, stack', q)
    {
      ChangedAfterWrite(data, orig, width, height, target, fill, p, q);
    }
    forall a, b | Changed(d', orig, width, height, a) && Adjacent(a, b)
      ensures Covered(d', orig, width, height, target, stack', b)
    {
      ChangedAfterWrite(data, orig, width, height, target, fill, p, a);
      if a != p {
        assert Covered(data, orig, width, height, target, stack + [p], b);
      }
    }
  }

  /** A pixel that still matches the target has not been filled yet. */
  lemma StillOriginal(data: seq<Byte>, orig: seq<Byte>, n: int, target: Option<Rgba>, fill: Rgba, k: int)
    requires OnlyMatchingFilled(data, orig, n, target, fill)
    requires 0 <= k < n && Matches(Px(data, k), target) && !Matches(Written(fill), target)
    ensures Px(data, k) == Px(orig, k)
  {
  }

  /** One iteration that pops a pixel it cannot fill keeps the invariant. */
  lemma {:induction false} SkipStep(data: seq<Byte>, orig: seq<Byte>, width: int, height: int,
                                    target: Option<Rgba>, fill: Rgba, stack: seq<Point>, p: Point, seed: Point)
    requires |data| == |orig| == 4 * (width * height)
    requires OnlyMatchingFilled(data, orig, width * height, target, fill)
    requires Closed(data, orig, width, height, target, stack + [p])
    requires Covered(data, orig, width, height, target, stack + [p], seed)
    requires InBounds(p, width, height) ==> !Matches(PixelAt(data, width, height, p), target)
    ensures Closed(data, orig, width, height, target, stack)
    ensures Covered(data, orig, width, height, target, stack, seed)
  {
    assert Covered(data, orig, width, height, target, stack, p);
  }

  /** With an empty stack, the invariant makes the written pixels closed under fillable neighbours. */
  lemma {:induction false} PathFilled(data: seq<Byte>, orig: seq<Byte>, width: int, height: int,
                                      target: Option<Rgba>, path: seq<Point>, i: nat)
    requires |data| == |orig| == 4 * (width * height)
    requires Closed(data, orig, width, height, target, [])
    requires IsFillPath(orig, width, height, target, path)
    requires Changed(data, orig, width, height, path[0])
    requires i < |path|
    ensures Changed(data, orig, width, height, path[i])
  {
    if i > 0 {
      PathFilled(data, orig, width, height, target, path, i - 1);
      assert Adjacent(path[i - 1], path[i]);
      assert Covered(data, orig, width, height, target, [], path[i]);
      assert Fillable(orig, width, height, target, path[i]);
    }
  }

  /** When the stack is empty, every fillable pixel connected to the seed holds the fill colour. */
  lemma FillReachesComponent(data: seq<Byte>, orig: seq<Byte>, width: int, height: int,
                             target: Option<Rgba>, fill: Rgba, seed: Point)
    requires |data| == |orig| == 4 * (width * height)
    requires OnlyMatchingFilled(data, orig, width * height, target, fill)
    requires Closed(data, orig, width, height, target, [])
    requires Covered(data, orig, width, height, target, [], seed)
    ensures forall path :: IsFillPath(orig, width, height, target, path) && path[0] == seed ==>
              PixelAt(data, width, height, path[|path| - 1]) == Written(fill)
  {
    forall path | IsFillPath(orig, width, height, target, path) && path[0] == seed
      ensures PixelAt(data, width, height, path[|path| - 1]) == Written(fill)
    {
      PathFilled(data, orig, width, height, target, path, |path| - 1);
      ChangedIsFilled(data, orig, width, height, target, fill, path[|path| - 1]);
    }
  }

  /** A pixel that differs from the original holds the fill colour. */
  lemma ChangedIsFilled(data: seq<Byte>, orig: seq<Byte>, width: int, height: int,
                        target: Option<Rgba>, fill: Rgba, p: Point)
    requires OnlyMatchingFilled(data, orig, width * height, target, fill)
    requires Changed(data, orig, width, height, p)
    ensures PixelAt(data, width, height, p) == Written(fill)
  {
    IndexInRange(p, width, height);
    assert Px(data, Index(p, width)) != Px(orig, Index(p, width));
  }

  /** The target colour `floodFill` reads at the seed before it starts. */
  function TargetOf(data: seq<Byte>, width: int, x: int, y: int): Option<Rgba> {
    ColorAtPixel(data, width, Point(x, y))
  }

  /** `floodFill` gives up at once when the seed colour already matches the fill colour. */
  predicate SeedMatchesFill(data: seq<Byte>, width: int, x: int, y: int, fillColor: string) {
    var target := TargetOf(data, width, x, y);
    target.Some? && ColorsMatch(target.value, HexToRgb(fillColor))
  }

  /**
   * One pass of the loop in `floodFill`: pop a point, and when it lies on the canvas and still
   * has the target colour, paint it and push its four neighbours.
   */
  ghost function FillPass(data: seq<Byte>, width: int, height: int, target: Option<Rgba>, fill: Rgba,
                          stack: seq<Point>): (seq<Byte>, seq<Point>)
    requires 0 <= width && 0 <= height && |data| == 4 * (width * height)
    requires 0 <= fill.r < 256 && 0 <= fill.g < 256 && 0 <= fill.b < 256
    requires |stack| > 0
  {
    var p := stack[|stack| - 1];
    var rest := stack[..|stack| - 1];
    if InBounds(p, width, height) && Matches(PixelAt(data, width, height, p), target) then
      IndexInRange(p, width, height);
      (SetPixel(data, 4 * Index(p, width), fill), rest + Neighbours(p))
    else
      (data, rest)
  }

  /**
   * A pass keeps the fill invariants, and strictly lowers the pair (pixels still matching the
   * target, stack height).
   */
  lemma {:induction false} PassKeepsInvariant(data: seq<Byte>, orig: seq<Byte>, width: int, height: int,
                           target: Option<Rgba>, fill: Rgba, stack: seq<Point>, seed: Point)
    requires 0 <= width && 0 <= height && |data| == |orig| == 4 * (width * height)
    requires 0 <= fill.r < 256 && 0 <= fill.g < 256 && 0 <= fill.b < 256
    requires !Matches(Written(fill), target)
    requires |stack| > 0
    requires OnlyMatchingFilled(data, orig, width * height, target, fill)
    requires Closed(data, orig, width, height, target, stack)
    requires Covered(data, orig, width, height, target, stack, seed)
    ensures var r := FillPass(data, width, height, target, fill, stack);
            && |r.0| == |data|
            && OnlyMatchingFilled(r.0, orig, width * height, target, fill)
            && Closed(r.0, orig, width, height, target, r.1)
            && Covered(r.0, orig, width, height, target, r.1, seed)
            && (MatchCount(r.0, target, width * height) < MatchCount(data, target, width * height)
                || (r.0 == data && |r.1| < |stack|))
  {
    var p := stack[|stack| - 1];
    var rest := stack[..|stack| - 1];
    assert rest + [p] == stack;
    if InBounds(p, width, height) && Matches(PixelAt(data, width, height, p), target) {
      IndexInRange(p, width, height);
      var k := Index(p, width);
      var d' := SetPixel(data, 4 * k, fill);
      assert FillPass(data, width, height, target, fill, stack) == (d', rest + Neighbours(p));
      StillOriginal(data, orig, width * height, target, fill, k);
      WriteKeepsOnlyMatching(data, orig, width, height, target, fill, p);
      WriteKeepsClosed(data, orig, width, height, target, fill, rest, p, seed);
      MatchCountAfterWrite(data, k, fill, target, width * height);
    } else {
      assert FillPass(data, width, height, target, fill, stack) == (data, rest);
      SkipStep(data, orig, width, height, target, fill, rest, p, seed);
    }
  }

  /** The body of the loop in `floodFill`, performed on the pixel buffer. */
  method FillStep(data: array<Byte>, width: int, height: int, target: Option<Rgba>, fill: Rgba,
                  stack: seq<Point>)
      returns (stack': seq<Point>)
    requires 0 <= width && 0 <= height && data.Length == 4 * (width * height)
    requires 0 <= fill.r < 256 && 0 <= fill.g < 256 && 0 <= fill.b < 256
    requires |stack| > 0
    modifies data
    ensures (data[..], stack') == FillPass(old(data[..]), width, height, target, fill, stack)
  {
    var p := stack[|stack| - 1];
    stack' := stack[..|stack| - 1];
    if 0 <= p.x < width && 0 <= p.y < height && Matches(PixelAt(data[..], width, height, p), target) {
      IndexInRange(p, width, height);
      IndexValue(p, width);
      var pos := (p.y * width + p.x) * 4;
      assert pos == 4 * Index(p, width);
      SetColorAtPosition(data, pos, fill);
      stack' := stack' + [Point(p.x + 1, p.y), Point(p.x - 1, p.y), Point(p.x, p.y + 1), Point(p.x, p.y - 1)];
    }
  }

  /**
   * `floodFill` with an integer seed `(x, y)`, on the image data of a `width` by `height` layer.
   * Each pixel ends either untouched or, if it matched the seed colour, holding the fill colour
   * with alpha 255; every pixel 4-connected to the seed through matching pixels is filled.
   */
  method FloodFill(data: array<Byte>, width: int, height: int, x: int, y: int, fillColor: string)
    requires 0 <= width && 0 <= height && data.Length == 4 * (width * height)
    modifies data
    ensures SeedMatchesFill(old(data[..]), width, x, y, fillColor) ==> data[..] == old(data[..])
    ensures OnlyMatchingFilled(data[..], old(data[..]), width * height,
                               TargetOf(old(data[..]), width, x, y), HexToRgb(fillColor))
    ensures !SeedMatchesFill(old(data[..]), width, x, y, fillColor) ==>
              forall path :: IsFillPath(old(data[..]), width, height, TargetOf(old(data[..]), width, x, y), path)
                             && path[0] == Point(x, y) ==>
                PixelAt(data[..], width, height, path[|path| - 1]) == Written(HexToRgb(fillColor))
  {
    var seed := Point(x, y);
    var target := ColorAtPixel(data[..], width, seed);
    var fill := HexToRgb(fillColor);
    if target.Some? && ColorsMatch(target.value, fill) {
      return;
    }
    ghost var orig := data[..];
    ghost var n := width * height;
    assert !Matches(Written(fill), target) by {
      if target.Some? {
        ColorsMatchSymmetric(target.value, fill);
      }
    }
    var stack := [seed];
    while |stack| > 0
      invariant data.Length == 4 * n
      invariant OnlyMatchingFilled(data[..], orig, n, target, fill)
      invariant Closed(data[..], orig, width, height, target, stack)
      invariant Covered(data[..], orig, width, height, target, stack, seed)
      decreases MatchCount(data[..], target, n), |stack|
    {
      PassKeepsInvariant(data[..], orig, width, height, target, fill, stack, seed);
      stack := FillStep(data, width, height, target, fill, stack);
    }
    FillReachesComponent(data[..], orig, width, height, target, fill, seed);
  }
}
