// Core Graphics value types and the CGRect centre extension.
//
// CGFloat is modelled as `real`. CGRect is a Swift value type, so its
// mutating setters (`centerX = v`) are modelled as functions that return the
// updated rectangle.

module Geometry {
  import opened RealArith

  datatype Point = Point(x: real, y: real)

  datatype Size = Size(width: real, height: real)

  /** A CGRect as stored: origin and size, where the size may be negative. */
  datatype Rect = Rect(origin: Point, size: Size)

  const Zero: Point := Point(0.0, 0.0)

  function Abs(x: real): real { if x < 0.0 then -x else x }

  /** Swift's `Int(_: CGFloat)`: truncation toward zero. */
  function Trunc(x: real): (n: int)
    ensures x >= 0.0 ==> n as real <= x < n as real + 1.0
    ensures x <= 0.0 ==> n as real - 1.0 < x <= n as real
    ensures Abs(n as real) <= Abs(x)
  {
    if x >= 0.0 then x.Floor else -((-x).Floor)
  }

  // The standardized accessors of CGRect: minX, maxX, width, ... are read
  // as if the rectangle had a non-negative size.

  function MinX(r: Rect): real { if r.size.width >= 0.0 then r.origin.x else r.origin.x + r.size.width }
  function MaxX(r: Rect): real { if r.size.width >= 0.0 then r.origin.x + r.size.width else r.origin.x }
  function MinY(r: Rect): real { if r.size.height >= 0.0 then r.origin.y else r.origin.y + r.size.height }
  function MaxY(r: Rect): real { if r.size.height >= 0.0 then r.origin.y + r.size.height else r.origin.y }
  function Width(r: Rect): real { Abs(r.size.width) }
  function Height(r: Rect): real { Abs(r.size.height) }
  function MidX(r: Rect): real { r.origin.x + r.size.width / 2.0 }
  function MidY(r: Rect): real { r.origin.y + r.size.height / 2.0 }

  /** `CGRect.contains(_:)`: the minimum edges are inside, the maximum edges are not. */
  predicate Contains(r: Rect, p: Point) {
    MinX(r) <= p.x < MaxX(r) && MinY(r) <= p.y < MaxY(r)
  }

  lemma ContainsMeansNonEmpty(r: Rect, p: Point)
    requires Contains(r, p)
    ensures Width(r) > 0.0 && Height(r) > 0.0
  {
  }

  /** `CGRect(center:size:)`: a rectangle of the given size centred on `center`. */
  function RectWithCenter(center: Point, size: Size): (r: Rect)
    ensures r.size == size
    ensures Center(r) == center
  {
    Rect(Point(center.x - size.width / 2.0, center.y - size.height / 2.0), size)
  }

  /** The `centerX` getter. */
  function CenterX(r: Rect): real { MidX(r) }

  /** The `centerY` getter. */
  function CenterY(r: Rect): real { MidY(r) }

  /** The `center` getter. */
  function Center(r: Rect): Point { Point(CenterX(r), CenterY(r)) }

  /**
   * The `centerX` setter: puts `origin.x` half the standardized width left of `v`.
   * For a non-negative width the centre then reads back as `v`; for a negative
   * width it reads back `|width|` further left.
   */
  function WithCenterX(r: Rect, v: real): (r': Rect)
    ensures r.size.width >= 0.0 ==> CenterX(r') == v
    ensures r.size.width < 0.0 ==> CenterX(r') == v + r.size.width
    ensures r'.size == r.size && r'.origin.y == r.origin.y
    ensures CenterY(r') == CenterY(r)
  {
    r.(origin := r.origin.(x := v - Width(r) * 0.5))
  }

  /**
   * The `centerY` setter: puts `origin.y` half the standardized height above `v`.
   * For a non-negative height the centre then reads back as `v`; for a negative
   * height it reads back `|height|` further up.
   */
  function WithCenterY(r: Rect, v: real): (r': Rect)
    ensures r.size.height >= 0.0 ==> CenterY(r') == v
    ensures r.size.height < 0.0 ==> CenterY(r') == v + r.size.height
    ensures r'.size == r.size && r'.origin.x == r.origin.x
    ensures CenterX(r') == CenterX(r)
  {
    r.(origin := r.origin.(y := v - Height(r) * 0.5))
  }

  /** The `center` setter: sets `centerX`, then `centerY`. */
  function WithCenter(r: Rect, c: Point): (r': Rect)
    ensures r.size.width >= 0.0 && r.size.height >= 0.0 ==> Center(r') == c
    ensures CenterX(r') == if r.size.width >= 0.0 then c.x else c.x + r.size.width
    ensures CenterY(r') == if r.size.height >= 0.0 then c.y else c.y + r.size.height
    ensures r'.size == r.size
  {
    WithCenterY(WithCenterX(r, c.x), c.y)
  }

  /**
   * Re-centring a rectangle on its own centre leaves it where it is when its size
   * is non-negative; along an axis with a negative extent it moves by that extent.
   */
  lemma RecenterIsIdentity(r: Rect)
    ensures r.size.width >= 0.0 && r.size.height >= 0.0 ==> WithCenter(r, Center(r)) == r
    ensures WithCenter(r, Center(r)).origin.x ==
            if r.size.width >= 0.0 then r.origin.x else r.origin.x + r.size.width
    ensures WithCenter(r, Center(r)).origin.y ==
            if r.size.height >= 0.0 then r.origin.y else r.origin.y + r.size.height
  {
  }

  function SwapPoint(p: Point): Point { Point(p.y, p.x) }

  /** The picker's `mirrorRect`: same origin, width and height exchanged. */
  function SwapRect(r: Rect): Rect {
    Rect(r.origin, Size(Height(r), Width(r)))
  }

  /** How many values `stride(from: 0, to: length, by: step)` produces: those `i * step < length`. */
  function StrideCount(length: real, step: real): (n: nat)
    requires step > 0.0
    ensures n as real * step >= length
    ensures n > 0 ==> (n - 1) as real * step < length
    ensures n > 0 <==> length > 0.0
  {
    if length <= 0.0 then 0
    else
      var q := length / step;
      var f := q.Floor;
      assert q * step == length;
      if f as real == q then
        ScaleLess(f as real - 1.0, q, step);
        f
      else
        ScaleLess(f as real, q, step);
        ScaleLess(q, f as real + 1.0, step);
        assert f as real * step < length;
        var n := f + 1;
        assert n as real == f as real + 1.0;
        assert (n - 1) as real == f as real;
        n
  }

  /** A stride value below the bound has an index below the count. */
  lemma StrideIndexBelow(i: nat, length: real, step: real)
    requires step > 0.0 && i as real * step < length
    ensures i < StrideCount(length, step)
  {
    ScaleLess(i as real, StrideCount(length, step) as real, step);
  }

  /** The first index at or past the bound is the count. */
  lemma StrideIndexAtEnd(i: nat, length: real, step: real)
    requires step > 0.0 && i <= StrideCount(length, step) && i as real * step >= length
    ensures i == StrideCount(length, step)
  {
    var n := StrideCount(length, step);
    if n > 0 {
      ScaleLess((n - 1) as real, i as real, step);
    }
  }
}
