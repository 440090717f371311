// The colour-spectrum picker: a piecewise-linear map from a point of the
// view to a hue/saturation/brightness colour, its inverse, the grid the view
// draws, and the selection marker a touch moves.
//
// Colours are kept symbolic: `Gray` is `UIColor(white:alpha:)` and `Hsb` is
// `UIColor(hue:saturation:brightness:alpha:)`. The platform's `getHue` read
// back is `Reading` below; every colour this view builds has alpha 1.

module ColorSpectrum {
  import opened Wrappers
  import opened Geometry
  import opened RealArith
  import opened Gestures

  datatype Axis = Vertical | Horizontal

  /** The view's constructor parameters (all constant after init). */
  datatype Config = Config(
    elementSize: real,
    isNeedGrayBar: bool,
    axis: Axis,
    isShowInMirror: bool,
    selectionViewSize: Size,
    isSelectionViewRounded: bool,
    isCenteredSelectionView: bool)

  /** The defaults of the designated initialiser. */
  const DefaultConfig: Config :=
    Config(30.0, true, Vertical, false, Size(30.0, 30.0), false, false)

  predicate ValidConfig(cfg: Config) { cfg.elementSize > 0.0 }

  const SaturationExponentTop: real := 0.0
  const SaturationExponentBottom: real := 1.0

  /** `powf` at the only exponents this view uses: `x^0 == 1`, `x^1 == x`. */
  function Pow(x: real, e: real): real
    requires e == 0.0 || e == 1.0
  {
    if e == 0.0 then 1.0 else x
  }

  datatype SpectrumColor = Gray(white: real) | Hsb(hue: real, saturation: real, brightness: real)

  /** The triple `getHue(_:saturation:brightness:alpha:)` reports. */
  datatype HsbReading = HsbReading(hue: real, saturation: real, brightness: real)

  /**
   * What the platform reports for a colour built from components in [0, 1]
   * (hue below 1): a grey has hue and saturation 0; black (brightness 0) has
   * hue and saturation 0; a colour without saturation loses its hue.
   */
  function Reading(c: SpectrumColor): HsbReading {
    match c
    case Gray(w) => HsbReading(0.0, 0.0, w)
    case Hsb(h, s, b) =>
      if b == 0.0 then HsbReading(0.0, 0.0, 0.0)
      else if s == 0.0 then HsbReading(0.0, 0.0, b)
      else HsbReading(h, s, b)
  }

  /**
   * What `getWhite(_:alpha:)` reports. It is only asked of colours read with
   * hue and saturation 0, that is of greys, for which it equals the brightness.
   */
  function WhiteLevel(c: SpectrumColor): real {
    match c
    case Gray(w) => w
    case Hsb(_, s, b) => if b == 0.0 then 0.0 else b
  }

  /** One coordinate of `getRoundedPoint`: `e * Int(x / e)`, a whole number of elements toward zero. */
  function Snap(e: real, x: real): (r: real)
    requires e > 0.0
    ensures 0.0 <= x ==> r <= x < r + e
    ensures x <= 0.0 ==> r - e < x <= r
    ensures r == 0.0 <==> -e < x < e
    ensures (r / e).Floor as real == r / e
  {
    var q := x / e;
    var m := Trunc(q) as real;
    assert q * e == x;
    assert m == 0.0 <==> -1.0 < q < 1.0;
    SignOfQuotient(x, e, q);
    UnitBand(x, e, q);
    ProductZero(m, e);
    DivOfProduct(m, e);
    if x >= 0.0 then
      ScaleBandUp(x, e, q, m);
      if x == 0.0 then ScaleBandDown(x, e, q, m); m * e else m * e
    else
      ScaleBandDown(x, e, q, m);
      m * e
  }

  /** `getRoundedPoint`: each coordinate snapped to a whole number of elements. */
  function RoundedPoint(e: real, p: Point): (r: Point)
    requires e > 0.0
    ensures 0.0 <= p.x ==> r.x <= p.x < r.x + e
    ensures 0.0 <= p.y ==> r.y <= p.y < r.y + e
    ensures (r.x / e).Floor as real == r.x / e && (r.y / e).Floor as real == r.y / e
    ensures r.y == 0.0 <==> -e < p.y < e
  {
    Point(Snap(e, p.x), Snap(e, p.y))
  }

  /** Whether the colour at `p` (already in vertical coordinates) is the grey bar. */
  predicate InGrayRow(cfg: Config, p: Point)
    requires ValidConfig(cfg)
  {
    cfg.isNeedGrayBar && RoundedPoint(cfg.elementSize, p).y == 0.0
  }

  /** `getColorAtPoint` after the axis has been resolved: `p` and `rect` are vertical. */
  function VerticalColorAt(cfg: Config, p: Point, rect: Rect): SpectrumColor
    requires ValidConfig(cfg) && Width(rect) > 0.0 && Height(rect) > 0.0
  {
    var w, h := Width(rect), Height(rect);
    var halfHeight := h / 2.0;
    var isPointOnTop := p.y < halfHeight;
    var brightnessValue := (p.y / (halfHeight / 100.0)) / 100.0;
    var hue := p.x / w;
    if InGrayRow(cfg, p) then
      Gray(1.0 - hue)
    else if cfg.isShowInMirror then
      var s0 := if isPointOnTop then (2.0 * p.y) / h else 2.0 * (h - p.y) / h;
      var s := Pow(s0, if isPointOnTop then SaturationExponentBottom else SaturationExponentTop);
      var b := if isPointOnTop then 1.0 else 2.0 * (h - p.y) / h;
      Hsb(hue, s, b)
    else
      var s0 := if isPointOnTop then 2.0 * (h - p.y) / h else (h - p.y) / halfHeight;
      var s := Pow(s0, if isPointOnTop then SaturationExponentTop else SaturationExponentBottom);
      var b := if isPointOnTop then brightnessValue else 1.0;
      Hsb(hue, s, b)
  }

  /** `getColorAtPoint(_:in:)`: the horizontal axis swaps the point and the rectangle. */
  function ColorAtPoint(cfg: Config, p: Point, rect: Rect): (c: SpectrumColor)
    requires ValidConfig(cfg) && Width(rect) > 0.0 && Height(rect) > 0.0
    ensures c.Gray? <==> cfg.isNeedGrayBar && -cfg.elementSize < (if cfg.axis == Vertical then p.y else p.x) < cfg.elementSize
  {
    if cfg.axis == Vertical then VerticalColorAt(cfg, p, rect)
    else VerticalColorAt(cfg, SwapPoint(p), SwapRect(rect))
  }

  /** The horizontal layout is the vertical one applied to the swapped point and rectangle. */
  lemma HorizontalColorIsSwapped(cfg: Config, p: Point, rect: Rect)
    requires ValidConfig(cfg) && Width(rect) > 0.0 && Height(rect) > 0.0
    requires cfg.axis == Horizontal
    ensures Width(SwapRect(rect)) == Height(rect) && Height(SwapRect(rect)) == Width(rect)
    ensures ColorAtPoint(cfg, p, rect) == ColorAtPoint(cfg.(axis := Vertical), SwapPoint(p), SwapRect(rect))
  {
  }

  /** The grey bar: white at the left edge, fading linearly to black at the right edge. */
  lemma GrayBar(cfg: Config, p: Point, rect: Rect)
    requires ValidConfig(cfg) && Width(rect) > 0.0 && Height(rect) > 0.0
    requires cfg.axis == Vertical && cfg.isNeedGrayBar
    requires -cfg.elementSize < p.y < cfg.elementSize
    ensures ColorAtPoint(cfg, p, rect) == Gray(1.0 - p.x / Width(rect))
    ensures p.x == 0.0 ==> ColorAtPoint(cfg, p, rect) == Gray(1.0)
    ensures p.x == Width(rect) ==> ColorAtPoint(cfg, p, rect) == Gray(0.0)
  {
    assert InGrayRow(cfg, p);
    GrayRowColor(cfg, p, rect);
    if p.x == Width(rect) {
      DivSelf(Width(rect));
    }
  }

  /** In the grey row the vertical colour is the grey of level `1 - x/width`. */
  lemma GrayRowColor(cfg: Config, p: Point, rect: Rect)
    requires ValidConfig(cfg) && Width(rect) > 0.0 && Height(rect) > 0.0
    requires InGrayRow(cfg, p)
    ensures VerticalColorAt(cfg, p, rect) == Gray(1.0 - p.x / Width(rect))
  {
  }

  /** Normal layout: the top half darkens toward the top, the bottom half desaturates toward the bottom. */
  lemma NormalHalves(cfg: Config, p: Point, rect: Rect)
    requires ValidConfig(cfg) && Width(rect) > 0.0 && Height(rect) > 0.0
    requires cfg.axis == Vertical && !cfg.isShowInMirror && !InGrayRow(cfg, p)
    ensures var w, hh := Width(rect), Height(rect) / 2.0;
            (p.y < hh ==> ColorAtPoint(cfg, p, rect) == Hsb(p.x / w, 1.0, p.y / hh)) &&
            (p.y >= hh ==> ColorAtPoint(cfg, p, rect) == Hsb(p.x / w, (Height(rect) - p.y) / hh, 1.0))
  {
    PercentOfHalf(p.y, Height(rect) / 2.0);
  }

  /** `(y / (hh / 100)) / 100` is `y / hh`: the percentage detour changes nothing over the reals. */
  lemma PercentOfHalf(y: real, hh: real)
    requires hh > 0.0
    ensures (y / (hh / 100.0)) / 100.0 == y / hh
  {
    var a := y / hh;
    assert y == a * hh;
    assert (100.0 * a) * (hh / 100.0) == y;
  }

  /** Mirrored layout: the top half saturates downward, the bottom half darkens downward. */
  lemma MirroredHalves(cfg: Config, p: Point, rect: Rect)
    requires ValidConfig(cfg) && Width(rect) > 0.0 && Height(rect) > 0.0
    requires cfg.axis == Vertical && cfg.isShowInMirror && !InGrayRow(cfg, p)
    ensures var w, h := Width(rect), Height(rect);
            (p.y < h / 2.0 ==> ColorAtPoint(cfg, p, rect) == Hsb(p.x / w, 2.0 * p.y / h, 1.0)) &&
            (p.y >= h / 2.0 ==> ColorAtPoint(cfg, p, rect) == Hsb(p.x / w, 1.0, 2.0 * (h - p.y) / h))
  {
  }

  predicate InUnit(x: real) { 0.0 <= x <= 1.0 }

  /** A grey of positive white level, or a hue below 1 with saturation and brightness in [0, 1]. */
  predicate ComponentsInRange(c: SpectrumColor) {
    match c
    case Gray(wl) => 0.0 < wl <= 1.0
    case Hsb(hue, s, b) => 0.0 <= hue < 1.0 && InUnit(s) && InUnit(b)
  }

  /** Every colour of a point inside the view has components in range, on either axis. */
  lemma ColorComponentsInRange(cfg: Config, p: Point, rect: Rect)
    requires ValidConfig(cfg) && Width(rect) > 0.0 && Height(rect) > 0.0
    requires 0.0 <= p.x < Width(rect) && 0.0 <= p.y < Height(rect)
    ensures ComponentsInRange(ColorAtPoint(cfg, p, rect))
  {
    if cfg.axis == Vertical {
      VerticalComponentsInRange(cfg, p, rect);
    } else {
      HorizontalColorIsSwapped(cfg, p, rect);
      VerticalComponentsInRange(cfg.(axis := Vertical), SwapPoint(p), SwapRect(rect));
    }
  }

  lemma VerticalComponentsInRange(cfg: Config, p: Point, rect: Rect)
    requires ValidConfig(cfg) && Width(rect) > 0.0 && Height(rect) > 0.0
    requires cfg.axis == Vertical
    requires 0.0 <= p.x < Width(rect) && 0.0 <= p.y < Height(rect)
    ensures ComponentsInRange(ColorAtPoint(cfg, p, rect))
  {
    FractionBelowOne(p.x, Width(rect));
    if InGrayRow(cfg, p) {
      GrayBar(cfg, p, rect);
    } else if cfg.isShowInMirror {
      MirroredInRange(cfg, p, rect);
    } else {
      NormalInRange(cfg, p, rect);
    }
  }

  lemma {:induction false} NormalInRange(cfg: Config, p: Point, rect: Rect)
    requires ValidConfig(cfg) && Width(rect) > 0.0 && Height(rect) > 0.0
    requires cfg.axis == Vertical && !cfg.isShowInMirror && !InGrayRow(cfg, p)
    requires 0.0 <= p.x < Width(rect) && 0.0 <= p.y < Height(rect)
    ensures ComponentsInRange(ColorAtPoint(cfg, p, rect))
  {
    var h := Height(rect);
    var hh := h / 2.0;
    NormalHalves(cfg, p, rect);
    FractionBelowOne(p.x, Width(rect));
    if p.y < hh {
      FractionBelowOne(p.y, hh);
    } else {
      FractionAtMostOne(h - p.y, hh);
    }
  }

  lemma {:induction false} MirroredInRange(cfg: Config, p: Point, rect: Rect)
    requires ValidConfig(cfg) && Width(rect) > 0.0 && Height(rect) > 0.0
    requires cfg.axis == Vertical && cfg.isShowInMirror && !InGrayRow(cfg, p)
    requires 0.0 <= p.x < Width(rect) && 0.0 <= p.y < Height(rect)
    ensures ComponentsInRange(ColorAtPoint(cfg, p, rect))
  {
    var h := Height(rect);
    MirroredHalves(cfg, p, rect);
    FractionBelowOne(p.x, Width(rect));
    if p.y < h / 2.0 {
      FractionBelowOne(2.0 * p.y, h);
    } else {
      FractionAtMostOne(2.0 * (h - p.y), h);
    }
  }

  // ---- The inverse map ----------------------------------------------------

  /**
   * The `y` that the inverse gives a full-brightness colour in the mirrored
   * layout. As written it is `s * halfHeight * 2 * powf(s, 1)`, that is
   * `2 * s * s * halfHeight`; the forward map puts saturation `s` at
   * `y == s * halfHeight`.
   */
  function MirroredFullBrightnessY(s: real, halfHeight: real, asWritten: bool): real {
    if asWritten then s * halfHeight * 2.0 * Pow(s, 1.0 / SaturationExponentBottom)
    else s * halfHeight
  }

  /** `getPointForColor` after the axis has been resolved. */
  function VerticalPointFor(cfg: Config, c: SpectrumColor, rect: Rect, asWritten: bool): Point {
    var w, h := Width(rect), Height(rect);
    var halfHeight := h / 2.0;
    var rd := Reading(c);
    var xPos := rd.hue * w;
    var yPos :=
      if rd.brightness >= 0.99 then
        (if cfg.isShowInMirror then MirroredFullBrightnessY(rd.saturation, halfHeight, asWritten)
         else h - rd.saturation * halfHeight)
      else
        (if cfg.isShowInMirror then halfHeight + halfHeight * (1.0 - rd.brightness)
         else halfHeight * rd.brightness);
    if rd.hue == 0.0 && rd.saturation == 0.0 && cfg.isNeedGrayBar then
      Point((1.0 - WhiteLevel(c)) * w, 0.0)
    else
      Point(xPos, yPos)
  }

  function PointForWith(cfg: Config, c: SpectrumColor, rect: Rect, asWritten: bool): Point {
    if cfg.axis == Vertical then VerticalPointFor(cfg, c, rect, asWritten)
    else SwapPoint(VerticalPointFor(cfg, c, SwapRect(rect), asWritten))
  }

  /** `getPointForColor(_:in:)` exactly as written. */
  function PointForColorAsWritten(cfg: Config, c: SpectrumColor, rect: Rect): (r: Point)
    ensures c.Gray? && cfg.isNeedGrayBar ==> (if cfg.axis == Vertical then r.y else r.x) == 0.0
    ensures c.Hsb? && c.saturation != 0.0 && c.brightness != 0.0 ==>
              (if cfg.axis == Vertical then r.x == c.hue * Width(rect) else r.y == c.hue * Height(rect))
  {
    PointForWith(cfg, c, rect, true)
  }

  /** `getPointForColor(_:in:)` with the mirrored full-brightness branch inverted correctly. */
  function PointForColor(cfg: Config, c: SpectrumColor, rect: Rect): (r: Point)
    ensures c.Gray? && cfg.isNeedGrayBar ==> (if cfg.axis == Vertical then r.y else r.x) == 0.0
    ensures c.Hsb? && c.saturation != 0.0 && c.brightness != 0.0 ==>
              (if cfg.axis == Vertical then r.x == c.hue * Width(rect) else r.y == c.hue * Height(rect))
  {
    PointForWith(cfg, c, rect, false)
  }

  /** The two versions differ only in the mirrored layout. */
  lemma AsWrittenAgreesWhenNotMirrored(cfg: Config, c: SpectrumColor, rect: Rect)
    requires !cfg.isShowInMirror
    ensures PointForColorAsWritten(cfg, c, rect) == PointForColor(cfg, c, rect)
  {
  }

  /** The horizontal inverse is the vertical inverse on the swapped rectangle, swapped back. */
  lemma HorizontalPointIsSwapped(cfg: Config, c: SpectrumColor, rect: Rect)
    requires cfg.axis == Horizontal
    ensures PointForColor(cfg, c, rect) ==
            SwapPoint(PointForColor(cfg.(axis := Vertical), c, SwapRect(rect)))
  {
  }

  /** The hue of a chromatic colour is placed at `hue * width`. */
  lemma HueGivesX(cfg: Config, hue: real, s: real, b: real, rect: Rect)
    requires cfg.axis == Vertical && s > 0.0 && b > 0.0
    ensures PointForColor(cfg, Hsb(hue, s, b), rect).x == hue * Width(rect)
  {
  }

  // The round trips, vertical layout, for points inside the view.

  /** Normal layout, bottom half: every point comes back. */
  lemma {:induction false} RoundTripNormalBottom(cfg: Config, p: Point, rect: Rect)
    requires ValidConfig(cfg) && cfg.axis == Vertical && !cfg.isShowInMirror
    requires 0.0 <= p.x < Width(rect) && Height(rect) / 2.0 <= p.y < Height(rect)
    requires !InGrayRow(cfg, p)
    ensures PointForColor(cfg, ColorAtPoint(cfg, p, rect), rect) == p
  {
    var w, h := Width(rect), Height(rect);
    var hh := h / 2.0;
    NormalHalves(cfg, p, rect);
    var s := (h - p.y) / hh;
    assert s > 0.0;
    assert s * hh == h - p.y;
    assert (p.x / w) * w == p.x;
  }

  /** Normal layout, top half below the 0.99 brightness band: every point comes back. */
  lemma {:induction false} RoundTripNormalTop(cfg: Config, p: Point, rect: Rect)
    requires ValidConfig(cfg) && cfg.axis == Vertical && !cfg.isShowInMirror
    requires 0.0 <= p.x < Width(rect) && 0.0 < p.y < Height(rect) / 2.0
    requires p.y / (Height(rect) / 2.0) < 0.99
    requires !InGrayRow(cfg, p)
    ensures PointForColor(cfg, ColorAtPoint(cfg, p, rect), rect) == p
  {
    var w, h := Width(rect), Height(rect);
    var hh := h / 2.0;
    NormalHalves(cfg, p, rect);
    assert hh * (p.y / hh) == p.y;
    assert (p.x / w) * w == p.x;
  }

  /** Normal layout, top half within the 0.99 band: the point snaps to the middle line. */
  lemma {:induction false} NormalTopBandSnaps(cfg: Config, p: Point, rect: Rect)
    requires ValidConfig(cfg) && cfg.axis == Vertical && !cfg.isShowInMirror
    requires 0.0 <= p.x < Width(rect) && 0.0 < p.y < Height(rect) / 2.0
    requires p.y / (Height(rect) / 2.0) >= 0.99
    requires !InGrayRow(cfg, p)
    ensures PointForColor(cfg, ColorAtPoint(cfg, p, rect), rect) == Point(p.x, Height(rect) / 2.0)
  {
    var w := Width(rect);
    NormalHalves(cfg, p, rect);
    assert (p.x / w) * w == p.x;
  }

  /** Mirrored layout, top half: every point away from the top edge comes back (corrected inverse). */
  lemma {:induction false} RoundTripMirroredTop(cfg: Config, p: Point, rect: Rect)
    requires ValidConfig(cfg) && cfg.axis == Vertical && cfg.isShowInMirror
    requires 0.0 <= p.x < Width(rect) && 0.0 < p.y < Height(rect) / 2.0
    requires !InGrayRow(cfg, p)
    ensures PointForColor(cfg, ColorAtPoint(cfg, p, rect), rect) == p
  {
    var w, h := Width(rect), Height(rect);
    MirroredHalves(cfg, p, rect);
    assert (2.0 * p.y / h) * (h / 2.0) == p.y;
    assert (p.x / w) * w == p.x;
  }

  /** Mirrored layout, bottom half below the 0.99 brightness band: every point comes back. */
  lemma {:induction false} RoundTripMirroredBottom(cfg: Config, p: Point, rect: Rect)
    requires ValidConfig(cfg) && cfg.axis == Vertical && cfg.isShowInMirror
    requires 0.0 <= p.x < Width(rect) && Height(rect) / 2.0 <= p.y < Height(rect)
    requires 2.0 * (Height(rect) - p.y) / Height(rect) < 0.99
    requires !InGrayRow(cfg, p)
    ensures PointForColor(cfg, ColorAtPoint(cfg, p, rect), rect) == p
  {
    var w, h := Width(rect), Height(rect);
    var hh := h / 2.0;
    MirroredHalves(cfg, p, rect);
    var b := 2.0 * (h - p.y) / h;
    assert b > 0.0;
    assert hh + hh * (1.0 - b) == p.y;
    assert (p.x / w) * w == p.x;
  }

  /**
   * Mirrored layout, bottom half within the 0.99 brightness band: the colour has
   * full saturation, so the corrected inverse puts it on the middle line, and the
   * inverse as written on the bottom edge.
   */
  lemma {:induction false} MirroredBottomBandSnaps(cfg: Config, p: Point, rect: Rect)
    requires ValidConfig(cfg) && cfg.axis == Vertical && cfg.isShowInMirror
    requires 0.0 <= p.x < Width(rect) && Height(rect) / 2.0 <= p.y < Height(rect)
    requires 2.0 * (Height(rect) - p.y) / Height(rect) >= 0.99
    requires !InGrayRow(cfg, p)
    ensures PointForColor(cfg, ColorAtPoint(cfg, p, rect), rect) == Point(p.x, Height(rect) / 2.0)
    ensures PointForColorAsWritten(cfg, ColorAtPoint(cfg, p, rect), rect) == Point(p.x, Height(rect))
  {
    var w := Width(rect);
    MirroredHalves(cfg, p, rect);
    assert (p.x / w) * w == p.x;
  }

  /**
   * Without the grey bar the top edge is black (normal layout) or white
   * (mirrored layout). Neither carries a hue, so every point of it comes back
   * at the top-left corner.
   */
  lemma {:induction false} TopEdgeLosesHue(cfg: Config, p: Point, rect: Rect)
    requires ValidConfig(cfg) && cfg.axis == Vertical && !cfg.isNeedGrayBar
    requires Width(rect) > 0.0 && Height(rect) > 0.0
    requires 0.0 <= p.x < Width(rect) && p.y == 0.0
    ensures ColorAtPoint(cfg, p, rect) == if cfg.isShowInMirror then Hsb(p.x / Width(rect), 0.0, 1.0)
                                          else Hsb(p.x / Width(rect), 1.0, 0.0)
    ensures PointForColor(cfg, ColorAtPoint(cfg, p, rect), rect) == Point(0.0, 0.0)
  {
    if cfg.isShowInMirror {
      MirroredHalves(cfg, p, rect);
    } else {
      NormalHalves(cfg, p, rect);
    }
  }

  /** A point of the grey bar comes back at the same x, on the top edge. */
  lemma {:induction false} RoundTripGrayBar(cfg: Config, p: Point, rect: Rect)
    requires ValidConfig(cfg) && cfg.axis == Vertical && cfg.isNeedGrayBar
    requires 0.0 <= p.x < Width(rect) && 0.0 <= p.y < Height(rect)
    requires p.y < cfg.elementSize
    ensures PointForColor(cfg, ColorAtPoint(cfg, p, rect), rect) == Point(p.x, 0.0)
  {
    var w := Width(rect);
    GrayBar(cfg, p, rect);
    assert (1.0 - (1.0 - p.x / w)) * w == p.x;
  }

  /** Any vertical round trip carries over to the horizontal layout by swapping. */
  lemma {:induction false} RoundTripHorizontal(cfg: Config, p: Point, rect: Rect)
    requires ValidConfig(cfg) && Width(rect) > 0.0 && Height(rect) > 0.0
    requires cfg.axis == Horizontal
    requires var v := cfg.(axis := Vertical);
             PointForColor(v, ColorAtPoint(v, SwapPoint(p), SwapRect(rect)), SwapRect(rect)) == SwapPoint(p)
    ensures PointForColor(cfg, ColorAtPoint(cfg, p, rect), rect) == p
  {
    HorizontalColorIsSwapped(cfg, p, rect);
    HorizontalPointIsSwapped(cfg, ColorAtPoint(cfg, p, rect), rect);
  }

  /**
   * The inverse as written misplaces the mirrored top half: in a 100 x 100
   * view the point (50, 10) has saturation 0.2 and comes back at (50, 4).
   */
  lemma MirroredInverseAsWrittenMisses()
    ensures var cfg := DefaultConfig.(isShowInMirror := true, isNeedGrayBar := false);
            var rect := Rect(Zero, Size(100.0, 100.0));
            ColorAtPoint(cfg, Point(50.0, 10.0), rect) == Hsb(0.5, 0.2, 1.0) &&
            PointForColorAsWritten(cfg, Hsb(0.5, 0.2, 1.0), rect) == Point(50.0, 4.0) &&
            PointForColor(cfg, Hsb(0.5, 0.2, 1.0), rect) == Point(50.0, 10.0)
  {
  }

  // ---- Drawing ---------------------------------------------------------------

  /** One `context.fill`: an element-sized square at the stride point, in that point's colour. */
  datatype Fill = Fill(rect: Rect, color: SpectrumColor)

  predicate Drawable(cfg: Config, rect: Rect) {
    ValidConfig(cfg) && Width(rect) > 0.0 && Height(rect) > 0.0
  }

  /** `getRoundedRectForPoint`: an element-sized square at the point itself (not snapped). */
  function RoundedRectForPoint(e: real, p: Point): (r: Rect)
    ensures e >= 0.0 ==> Width(r) == e && Height(r) == e && MinX(r) == p.x && MinY(r) == p.y
    ensures e > 0.0 ==> Contains(r, p)
  {
    Rect(p, Size(e, e))
  }

  /**
   * The loop body of `draw(_:)` for column `col` of row `row`: the square at
   * the stride point `(col * e, row * e)`, in the colour of that point.
   */
  function Cell(cfg: Config, rect: Rect, row: nat, col: nat): Fill
    requires Drawable(cfg, rect)
  {
    var e := cfg.elementSize;
    var p := Point(col as real * e, row as real * e);
    Fill(RoundedRectForPoint(e, p), ColorAtPoint(cfg, p, rect))
  }

  /** The first `cols` squares of row `row`, left to right. */
  function RowFills(cfg: Config, rect: Rect, row: nat, cols: nat): (r: seq<Fill>)
    requires cols == 0 || Drawable(cfg, rect)
    ensures |r| == cols
  {
    if cols == 0 then [] else RowFills(cfg, rect, row, cols - 1) + [Cell(cfg, rect, row, cols - 1)]
  }

  /** The squares of the first `rows` rows, row by row. */
  function GridFills(cfg: Config, rect: Rect, rows: nat, cols: nat): (r: seq<Fill>)
    requires rows == 0 || cols == 0 || Drawable(cfg, rect)
    ensures |r| == rows * cols
  {
    if rows == 0 then [] else GridFills(cfg, rect, rows - 1, cols) + RowFills(cfg, rect, rows - 1, cols)
  }

  lemma {:induction false} RowAt(cfg: Config, rect: Rect, row: nat, cols: nat, col: nat)
    requires Drawable(cfg, rect) && col < cols
    ensures RowFills(cfg, rect, row, cols)[col] == Cell(cfg, rect, row, col)
  {
    if col < cols - 1 {
      RowAt(cfg, rect, row, cols - 1, col);
    }
  }

  /** The grid lists row by row: square `(row, col)` is at index `row * cols + col`. */
  lemma {:induction false} GridAt(cfg: Config, rect: Rect, rows: nat, cols: nat, row: nat, col: nat)
    requires Drawable(cfg, rect) && row < rows && col < cols
    ensures row * cols + col < rows * cols
    ensures GridFills(cfg, rect, rows, cols)[row * cols + col] == Cell(cfg, rect, row, col)
  {
    var g := GridFills(cfg, rect, rows - 1, cols);
    assert |g| == (rows - 1) * cols;
    if row < rows - 1 {
      GridAt(cfg, rect, rows - 1, cols, row, col);
    } else {
      assert row * cols + col == |g| + col;
      RowAt(cfg, rect, row, cols, col);
    }
  }

  /**
   * `draw(_:)`: for every stride value `y` below the height and, inside it,
   * every stride value `x` below the width, one square at `(x, y)`.
   */
  method Draw(cfg: Config, rect: Rect) returns (fills: seq<Fill>)
    requires ValidConfig(cfg)
    ensures Width(rect) > 0.0 && Height(rect) > 0.0 ==> Drawable(cfg, rect)
    ensures fills == GridFills(cfg, rect, StrideCount(Height(rect), cfg.elementSize),
                               StrideCount(Width(rect), cfg.elementSize))
  {
    var e := cfg.elementSize;
    var rows := StrideCount(Height(rect), e);
    var cols := StrideCount(Width(rect), e);
    fills := [];
    var row: nat := 0;
    while row as real * e < Height(rect)
      invariant row <= rows
      invariant row > 0 ==> Height(rect) > 0.0
      invariant fills == GridFills(cfg, rect, row, cols)
      decreases rows - row
    {
      StrideIndexBelow(row, Height(rect), e);
      var col: nat := 0;
      while col as real * e < Width(rect)
        invariant col <= cols
        invariant col > 0 ==> Drawable(cfg, rect)
        invariant fills == GridFills(cfg, rect, row, cols) + RowFills(cfg, rect, row, col)
        decreases cols - col
      {
        StrideIndexBelow(col, Width(rect), e);
        ScaleAtMost(0.0, col as real, e);
        ScaleAtMost(0.0, row as real, e);
        assert Drawable(cfg, rect);
        var fill := Cell(cfg, rect, row, col);
        assert RowFills(cfg, rect, row, col + 1) == RowFills(cfg, rect, row, col) + [fill];
        fills := fills + [fill];
        col := col + 1;
      }
      StrideIndexAtEnd(col, Width(rect), e);
      row := row + 1;
    }
    StrideIndexAtEnd(row, Height(rect), e);
  }

  // ---- Touch handling -----------------------------------------------------------

  /** What the delegate's `colorPickerTouched` receives. */
  datatype Touch = Touch(color: SpectrumColor, point: Point, state: GestureState)

  /** `didSelectColor`: a report for began, changed and ended touches inside the bounds only. */
  function TouchReport(cfg: Config, bounds: Rect, state: GestureState, p: Point): (r: Option<Touch>)
    requires ValidConfig(cfg)
    ensures r.Some? <==> (state == Began || state == Changed || state == Ended) && Contains(bounds, p)
    ensures r.Some? ==> r.value.point == p && r.value.state == state
  {
    if (state == Began || state == Changed || state == Ended) && Contains(bounds, p) then
      ContainsMeansNonEmpty(bounds, p);
      Some(Touch(ColorAtPoint(cfg, p, bounds), p, state))
    else None
  }

  /** The frame `selectPoint` gives the selection marker. */
  function SelectionFrame(cfg: Config, p: Point): (r: Rect)
    requires ValidConfig(cfg)
    ensures r.size == cfg.selectionViewSize
    ensures cfg.isCenteredSelectionView ==> Center(r) == RoundedPoint(cfg.elementSize, p)
    ensures !cfg.isCenteredSelectionView ==> r.origin == RoundedPoint(cfg.elementSize, p)
  {
    var rounded := RoundedPoint(cfg.elementSize, p);
    if cfg.isCenteredSelectionView then RectWithCenter(rounded, cfg.selectionViewSize)
    else Rect(rounded, cfg.selectionViewSize)
  }

  /** The picker view: its constant configuration, its bounds and its selection marker. */
  class SpectrumPicker {
    const cfg: Config
    var bounds: Rect
    var selectionFrame: Rect
    var selectionColor: Option<SpectrumColor>
    var selectionHidden: bool

    constructor (cfg: Config, frame: Rect)
      requires ValidConfig(cfg)
      ensures this.cfg == cfg && bounds == Rect(Zero, frame.size)
      ensures selectionFrame == Rect(Zero, cfg.selectionViewSize)
      ensures selectionColor == None && selectionHidden
    {
      this.cfg := cfg;
      bounds := Rect(Zero, frame.size);
      selectionFrame := Rect(Zero, cfg.selectionViewSize);
      selectionColor := None;
      selectionHidden := true;
    }

    /** `selectPoint(_:in:with:)`: moves the marker to the snapped point, colours and shows it. */
    method SelectPoint(p: Point, color: SpectrumColor)
      requires ValidConfig(cfg)
      modifies this
      ensures selectionFrame == SelectionFrame(cfg, p)
      ensures selectionColor == Some(color) && !selectionHidden
      ensures bounds == old(bounds)
    {
      selectionColor := Some(color);
      selectionFrame := SelectionFrame(cfg, p);
      selectionHidden := false;
    }

    /**
     * `didSelectColor(gestureRecognizer:)`: for a reported touch the marker
     * moves to it; otherwise nothing changes. The result is what the delegate
     * is told.
     */
    method DidSelectColor(state: GestureState, p: Point) returns (report: Option<Touch>)
      requires ValidConfig(cfg)
      modifies this
      ensures report == TouchReport(cfg, bounds, state, p)
      ensures bounds == old(bounds)
      ensures report.Some? ==> selectionFrame == SelectionFrame(cfg, p) &&
                               selectionColor == Some(report.value.color) && !selectionHidden
      ensures report.None? ==> selectionFrame == old(selectionFrame) &&
                               selectionColor == old(selectionColor) &&
                               selectionHidden == old(selectionHidden)
    {
      report := None;
      if state == Began || state == Changed || state == Ended {
        if Contains(bounds, p) {
          ContainsMeansNonEmpty(bounds, p);
          var color := ColorAtPoint(cfg, p, bounds);
          SelectPoint(p, color);
          report := Some(Touch(color, p, state));
        }
      }
    }
  }
}
