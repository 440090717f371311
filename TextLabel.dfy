// The on-canvas text label: which zone a touch grabs, how each move sample
// resizes or moves the view through its affine transform, the snapshots the
// undo step is built from, and the rotation gesture that follows the same
// snapshot-and-notify pattern.

module TextLabel {
  import opened Wrappers
  import opened Geometry
  import opened Colors
  import opened Gestures
  import opened TextLayout
  import opened RealArith

  /** `touchProxyFactor`: how far from an edge a touch still grabs that edge. */
  const TouchProxyFactor: real := 10.0

  // ---- Affine transforms --------------------------------------------------------

  /** A `CGAffineTransform`: the matrix [a b 0; c d 0; tx ty 1]. */
  datatype Affine = Affine(a: real, b: real, c: real, d: real, tx: real, ty: real)

  const Identity: Affine := Affine(1.0, 0.0, 0.0, 1.0, 0.0, 0.0)

  /** Where the transform sends a point: `(a x + c y + tx, b x + d y + ty)`. */
  function Apply(t: Affine, p: Point): Point {
    Point(t.a * p.x + t.c * p.y + t.tx, t.b * p.x + t.d * p.y + t.ty)
  }

  /** `translatedBy(x:y:)`: the transform that first moves a point by `(dx, dy)` and then applies `t`. */
  function TranslatedBy(t: Affine, dx: real, dy: real): (r: Affine)
    ensures r.a == t.a && r.b == t.b && r.c == t.c && r.d == t.d
  {
    Affine(t.a, t.b, t.c, t.d, t.tx + t.a * dx + t.c * dy, t.ty + t.b * dx + t.d * dy)
  }

  /** The translated transform sends every point where `t` sends the point moved by `(dx, dy)`. */
  lemma TranslatedByMovesPoints(t: Affine, dx: real, dy: real, p: Point)
    ensures Apply(TranslatedBy(t, dx, dy), p) == Apply(t, Point(p.x + dx, p.y + dy))
  {
    var moved := TranslatedBy(t, dx, dy);
    Distribute(t.a, p.x, dx);
    Distribute(t.c, p.y, dy);
    Distribute(t.b, p.x, dx);
    Distribute(t.d, p.y, dy);
    assert Apply(moved, p).x == Apply(t, Point(p.x + dx, p.y + dy)).x;
    assert Apply(moved, p).y == Apply(t, Point(p.x + dx, p.y + dy)).y;
  }

  /** Two translations in a row are one translation by the sum. */
  lemma TranslationsCompose(t: Affine, dx1: real, dy1: real, dx2: real, dy2: real)
    ensures TranslatedBy(TranslatedBy(t, dx1, dy1), dx2, dy2) == TranslatedBy(t, dx1 + dx2, dy1 + dy2)
  {
    var once := TranslatedBy(t, dx1, dy1);
    var twice := TranslatedBy(once, dx2, dy2);
    var sum := TranslatedBy(t, dx1 + dx2, dy1 + dy2);
    Distribute(t.a, dx1, dx2);
    Distribute(t.c, dy1, dy2);
    Distribute(t.b, dx1, dx2);
    Distribute(t.d, dy1, dy2);
    assert twice.tx == sum.tx;
    assert twice.ty == sum.ty;
  }

  // ---- The view model -----------------------------------------------------------

  /** `TextView.TextStyles`. */
  datatype TextStyle = Default | Filled | Semi | Stroke

  /** `TextView.TextAlignment`. */
  datatype TextAlignment = Center | Left | Right

  /** `TextView.ViewModel`; the font is left out. */
  datatype ViewModel = ViewModel(
    cornerRadius: real,
    dashWidth: real,
    dashColor: Rgba,
    dashLength: real,
    betweenDashesSpace: real,
    textAlignment: TextAlignment,
    text: string,
    textColor: Rgba,
    textStyle: TextStyle)

  /** The default arguments of `ViewModel.init`. */
  const DefaultViewModel: ViewModel := ViewModel(12.0, 2.0, White, 6.0, 3.0, Center, "Text", White, Default)

  /**
   * What `updateView` gives the layout manager and the typing attributes for a
   * style: the line-background options and colour, and the stroke width and
   * colour (`None`: the stroke colour attribute is left as it was). The line
   * border is cleared by every style.
   */
  datatype Appearance = Appearance(
    lineBackgroundOptions: LineBackgroundOptions,
    lineBackgroundColor: Rgba,
    strokeWidth: real,
    strokeColor: Option<Rgba>)

  function StyleAppearance(style: TextStyle, contentScaleFactor: real): Appearance {
    match style
    case Default => Appearance(NoOptions, Clear, 0.0, None)
    case Filled => Appearance(FillOption, Black, 0.0, None)
    case Semi => Appearance(FillOption, Rgba(1.0, 1.0, 1.0, 0.5), 0.0, None)
    case Stroke => Appearance(NoOptions, Clear, 10.0 * contentScaleFactor, Some(Black))
  }

  /** Only the filled and semi styles draw a line background, and only the stroke style outlines the glyphs, in black. */
  lemma StyleAppearances(style: TextStyle, contentScaleFactor: real)
    requires contentScaleFactor > 0.0
    ensures var r := StyleAppearance(style, contentScaleFactor);
            && (DrawsBackground(r.lineBackgroundOptions) <==> style == Filled || style == Semi)
            && (r.strokeWidth > 0.0 <==> style == Stroke)
            && (r.strokeColor.Some? <==> style == Stroke)
            && (style == Filled ==> r.lineBackgroundColor == Black)
            && (style == Semi ==> r.lineBackgroundColor == Rgba(1.0, 1.0, 1.0, 0.5))
            && (style == Default || style == Stroke ==> r.lineBackgroundColor == Clear)
  {
    FillOptionsDraw();
  }

  /** A call the view makes on its delegate. */
  datatype Notification =
    | TransformChanged(oldTransform: Affine, oldBoundsWidth: real)
    | ViewModelChanged(oldViewModel: ViewModel)

  // ---- Touch zones --------------------------------------------------------------

  datatype TouchState = LeftTouch | RightTouch | MiddleTouch | NoTouch

  /** Strictly within `TouchProxyFactor` of the edge coordinate. */
  predicate NearEdge(x: real, edge: real) {
    edge - TouchProxyFactor < x < edge + TouchProxyFactor
  }

  /** The zone `touchesBegan` picks for a touch at `p`: the right edge is tested first. */
  function TouchZone(bounds: Rect, p: Point): (z: TouchState)
    ensures z != NoTouch
    ensures z == RightTouch <==> NearEdge(p.x, MaxX(bounds))
    ensures z == LeftTouch <==> NearEdge(p.x, MinX(bounds)) && !NearEdge(p.x, MaxX(bounds))
  {
    if NearEdge(p.x, MaxX(bounds)) then RightTouch
    else if NearEdge(p.x, MinX(bounds)) then LeftTouch
    else MiddleTouch
  }

  /** On a view at least twice the touch tolerance wide, a touch near the left edge always grabs it. */
  lemma WideLabelZones(bounds: Rect, p: Point)
    requires Width(bounds) >= 2.0 * TouchProxyFactor
    ensures TouchZone(bounds, p) == LeftTouch <==> NearEdge(p.x, MinX(bounds))
    ensures TouchZone(bounds, p) == MiddleTouch <==>
              !NearEdge(p.x, MinX(bounds)) && !NearEdge(p.x, MaxX(bounds))
  {
  }

  /** On a narrower view the two edge bands overlap and the right edge wins. */
  lemma NarrowLabelPrefersRight()
    ensures var bounds := Rect(Point(0.0, 0.0), Size(12.0, 40.0));
            NearEdge(3.0, MinX(bounds)) && TouchZone(bounds, Point(3.0, 20.0)) == RightTouch
  {
  }

  // ---- Move samples -------------------------------------------------------------

  /** The part of the view a move sample changes: its transform and `bounds.size.width`. */
  datatype Frame = Frame(transform: Affine, width: real)

  /** One move sample by `(dx, dy)` in the zone grabbed at touch-down. */
  function Drag(zone: TouchState, f: Frame, dx: real, dy: real): Frame {
    match zone
    case LeftTouch => Frame(TranslatedBy(f.transform, dx / 2.0, 0.0), f.width - dx)
    case RightTouch => Frame(TranslatedBy(f.transform, dx / 2.0, 0.0), f.width + dx)
    case MiddleTouch => Frame(TranslatedBy(f.transform, dx, dy), f.width)
    case NoTouch => f
  }

  /**
   * Where the midpoint of a vertical edge sits relative to the label's centre:
   * the transform acts about the centre, so the edge at `side` (-1 left, +1
   * right) is the image of `(side * width / 2, 0)`.
   */
  function EdgeOffset(f: Frame, side: real): Point {
    Apply(f.transform, Point(side * f.width / 2.0, 0.0))
  }

  /** Dragging the left edge keeps the right edge still and moves the left edge by `dx` along the view's own x axis. */
  lemma LeftDragMovesOnlyLeftEdge(f: Frame, dx: real, dy: real)
    ensures EdgeOffset(Drag(LeftTouch, f, dx, dy), 1.0) == EdgeOffset(f, 1.0)
    ensures EdgeOffset(Drag(LeftTouch, f, dx, dy), -1.0) == Apply(f.transform, Point(-f.width / 2.0 + dx, 0.0))
  {
    var w := f.width - dx;
    TranslatedByMovesPoints(f.transform, dx / 2.0, 0.0, Point(1.0 * w / 2.0, 0.0));
    assert 1.0 * w / 2.0 + dx / 2.0 == 1.0 * f.width / 2.0;
    TranslatedByMovesPoints(f.transform, dx / 2.0, 0.0, Point(-1.0 * w / 2.0, 0.0));
    assert -1.0 * w / 2.0 + dx / 2.0 == -f.width / 2.0 + dx;
  }

  /** Dragging the right edge keeps the left edge still and moves the right edge by `dx` along the view's own x axis. */
  lemma RightDragMovesOnlyRightEdge(f: Frame, dx: real, dy: real)
    ensures EdgeOffset(Drag(RightTouch, f, dx, dy), -1.0) == EdgeOffset(f, -1.0)
    ensures EdgeOffset(Drag(RightTouch, f, dx, dy), 1.0) == Apply(f.transform, Point(f.width / 2.0 + dx, 0.0))
  {
    var w := f.width + dx;
    TranslatedByMovesPoints(f.transform, dx / 2.0, 0.0, Point(1.0 * w / 2.0, 0.0));
    assert 1.0 * w / 2.0 + dx / 2.0 == f.width / 2.0 + dx;
    TranslatedByMovesPoints(f.transform, dx / 2.0, 0.0, Point(-1.0 * w / 2.0, 0.0));
    assert -1.0 * w / 2.0 + dx / 2.0 == -1.0 * f.width / 2.0;
  }

  /** A drag in the middle moves every point of the view by `(dx, dy)` in its own coordinates and keeps the width. */
  lemma MiddleDragTranslates(f: Frame, dx: real, dy: real, p: Point)
    ensures Drag(MiddleTouch, f, dx, dy).width == f.width
    ensures Apply(Drag(MiddleTouch, f, dx, dy).transform, p) == Apply(f.transform, Point(p.x + dx, p.y + dy))
  {
    TranslatedByMovesPoints(f.transform, dx, dy, p);
  }

  /** A left drag followed by the opposite drag restores the frame exactly. */
  lemma {:induction false} EdgeDragsUndo(zone: TouchState, f: Frame, dx: real)
    requires zone == LeftTouch || zone == RightTouch
    ensures Drag(zone, Drag(zone, f, dx, 0.0), -dx, 0.0) == f
  {
    TranslationsCompose(f.transform, dx / 2.0, 0.0, -dx / 2.0, 0.0);
    assert TranslatedBy(f.transform, 0.0, 0.0) == f.transform;
  }

  // ---- The view ----------------------------------------------------------------

  /**
   * A `TextView`. The four lazily initialised snapshot properties are `None`
   * until first read; reading one stores the current transform or width.
   */
  class TextView {
    var isSelected: bool
    var touchState: TouchState
    var transform: Affine
    var bounds: Rect
    var lastTransform: Option<Affine>
    var updatedTransform: Option<Affine>
    var lastBoundsWidth: Option<real>
    var updatedBoundsWidth: Option<real>
    var viewModel: Option<ViewModel>
    /** The calls made on the delegate, oldest first. */
    var notifications: seq<Notification>

    /**
     * `init(frame:viewModel:)`: selected, untransformed, with bounds at the
     * origin; the initial model does not notify. `configureViews` ends in
     * `updateView`, which, when a model is given, runs `updateSize` with
     * `fittedHeight` as the height the text needs.
     */
    constructor(frame: Rect, model: Option<ViewModel>, fittedHeight: real)
      ensures isSelected && touchState == NoTouch && transform == Identity
      ensures model.None? ==> bounds == Rect(Point(0.0, 0.0), frame.size)
      ensures model.Some? ==> bounds == Rect(Point(0.0, 0.0), Size(Width(frame), fittedHeight))
      ensures lastTransform.None? && updatedTransform.None? && lastBoundsWidth.None? && updatedBoundsWidth.None?
      ensures viewModel == model && notifications == []
    {
      isSelected := true;
      touchState := NoTouch;
      transform := Identity;
      bounds := Rect(Point(0.0, 0.0), frame.size);
      lastTransform := None;
      updatedTransform := None;
      lastBoundsWidth := None;
      updatedBoundsWidth := None;
      viewModel := model;
      notifications := [];
      new;
      if model.Some? {
        UpdateSize(fittedHeight);
      }
    }

    function CurrentFrame(): Frame
      reads this
    {
      Frame(transform, bounds.size.width)
    }

    /** The `viewModel` setter: its observer reports the previous model, if there was one. */
    method SetViewModel(model: Option<ViewModel>)
      modifies this`viewModel, this`notifications
      ensures viewModel == model
      ensures old(viewModel).None? ==> notifications == old(notifications)
      ensures old(viewModel).Some? ==> notifications == old(notifications) + [ViewModelChanged(old(viewModel).value)]
    {
      var oldValue := viewModel;
      viewModel := model;
      if oldValue.Some? {
        notifications := notifications + [ViewModelChanged(oldValue.value)];
      }
    }

    /** `touchesBegan`: a selected view records the zone under the touch; an unselected one ignores it. */
    method TouchesBegan(p: Point)
      modifies this`touchState
      ensures isSelected ==> touchState == TouchZone(bounds, p)
      ensures !isSelected ==> touchState == old(touchState)
    {
      if !isSelected {
        return;
      }
      touchState := NoTouch;
      if p.x > MaxX(bounds) - TouchProxyFactor && p.x < MaxX(bounds) + TouchProxyFactor {
        touchState := RightTouch;
        return;
      } else if p.x > MinX(bounds) - TouchProxyFactor && p.x < MinX(bounds) + TouchProxyFactor {
        touchState := LeftTouch;
        return;
      } else {
        touchState := MiddleTouch;
        return;
      }
    }

    /**
     * `touchesMoved`: snapshot the current transform and width, then apply the
     * sample in the grabbed zone. An edge drag ends with `updateSize()`, which
     * keeps the (standardized) width and takes the height text layout fits,
     * passed in as `fittedHeight`.
     */
    method TouchesMoved(previous: Point, current: Point, fittedHeight: real)
      modifies this`lastTransform, this`lastBoundsWidth, this`updatedTransform, this`updatedBoundsWidth
      modifies this`transform, this`bounds
      ensures var dx, dy := current.x - previous.x, current.y - previous.y;
              var moved := Drag(touchState, old(CurrentFrame()), dx, dy);
              if !isSelected then
                unchanged(this)
              else
                && lastTransform == Some(old(transform))
                && lastBoundsWidth == Some(Width(old(bounds)))
                && transform == moved.transform
                && match touchState
                   case LeftTouch | RightTouch =>
                     && bounds == Rect(old(bounds).origin, Size(Abs(moved.width), fittedHeight))
                     && updatedTransform == Some(moved.transform)
                     && updatedBoundsWidth == Some(moved.width)
                   case MiddleTouch =>
                     && bounds == old(bounds)
                     && updatedTransform == Some(moved.transform)
                     && updatedBoundsWidth == old(updatedBoundsWidth)
                   case NoTouch =>
                     && bounds == old(bounds)
                     && updatedTransform == old(updatedTransform)
                     && updatedBoundsWidth == old(updatedBoundsWidth)
    {
      if !isSelected {
        return;
      }
      var deltaX := current.x - previous.x;
      var halfDeltaX := deltaX / 2.0;
      var deltaY := current.y - previous.y;

      lastTransform := Some(transform);
      lastBoundsWidth := Some(Width(bounds));

      match touchState {
        case LeftTouch =>
          var newTransform := TranslatedBy(transform, halfDeltaX, 0.0);
          var newBoundsWidth := bounds.size.width - deltaX;
          updatedTransform := Some(newTransform);
          updatedBoundsWidth := Some(newBoundsWidth);
          transform := newTransform;
          bounds := Rect(bounds.origin, Size(newBoundsWidth, bounds.size.height));
          UpdateSize(fittedHeight);
        case RightTouch =>
          var newTransform := TranslatedBy(transform, halfDeltaX, 0.0);
          var newBoundsWidth := bounds.size.width + deltaX;
          updatedTransform := Some(newTransform);
          updatedBoundsWidth := Some(newBoundsWidth);
          transform := newTransform;
          bounds := Rect(bounds.origin, Size(newBoundsWidth, bounds.size.height));
          UpdateSize(fittedHeight);
        case MiddleTouch =>
          var newTransform := TranslatedBy(transform, deltaX, deltaY);
          updatedTransform := Some(newTransform);
          transform := newTransform;
        case NoTouch =>
          return;
      }
    }

    /** `updateSize()`: the standardized width and the height the text needs. */
    method UpdateSize(fittedHeight: real)
      modifies this`bounds
      ensures bounds == Rect(old(bounds).origin, Size(Width(old(bounds)), fittedHeight))
    {
      bounds := Rect(bounds.origin, Size(Width(bounds), fittedHeight));
    }

    /**
     * `touchesEnded`: after a grab, report the snapshot once and make the
     * updated values the new snapshot. The zone is not reset.
     */
    method TouchesEnded()
      modifies this`lastTransform, this`lastBoundsWidth, this`updatedTransform, this`updatedBoundsWidth
      modifies this`notifications
      ensures touchState == NoTouch ==> unchanged(this)
      ensures touchState != NoTouch ==>
                && notifications == old(notifications) +
                     [TransformChanged(old(lastTransform).GetOr(transform), old(lastBoundsWidth).GetOr(Width(bounds)))]
                && lastTransform == updatedTransform == Some(old(updatedTransform).GetOr(transform))
                && lastBoundsWidth == updatedBoundsWidth == Some(old(updatedBoundsWidth).GetOr(Width(bounds)))
    {
      if touchState != NoTouch {
        var oldTransform := lastTransform.GetOr(transform);
        var oldBoundsWidth := lastBoundsWidth.GetOr(Width(bounds));
        notifications := notifications + [TransformChanged(oldTransform, oldBoundsWidth)];
        updatedTransform := Some(updatedTransform.GetOr(transform));
        lastTransform := updatedTransform;
        updatedBoundsWidth := Some(updatedBoundsWidth.GetOr(Width(bounds)));
        lastBoundsWidth := updatedBoundsWidth;
      }
    }

    /**
     * `callRotationGestureRecognize`: began snapshots, changed composes the
     * incremental rotation (`rotated`, the platform's `rotated(by:)`), ended
     * reports the snapshot. Returns the recognizer's rotation afterwards: reset
     * to 0 unless the view is not selected.
     */
    method HandleRotation(state: GestureState, rotation: real, rotated: (Affine, real) -> Affine)
      returns (rotationAfter: real)
      modifies this`lastTransform, this`lastBoundsWidth, this`updatedTransform, this`transform
      modifies this`notifications
      ensures !isSelected ==> unchanged(this) && rotationAfter == rotation
      ensures isSelected ==> rotationAfter == 0.0
      ensures isSelected && state == Began ==>
                && lastTransform == Some(transform) && lastBoundsWidth == Some(Width(bounds))
                && transform == old(transform) && updatedTransform == old(updatedTransform)
                && notifications == old(notifications)
      ensures isSelected && state == Changed ==>
                && transform == rotated(old(transform), rotation) && updatedTransform == Some(transform)
                && lastTransform == old(lastTransform) && lastBoundsWidth == old(lastBoundsWidth)
                && notifications == old(notifications)
      ensures isSelected && state == Ended ==>
                && notifications == old(notifications) +
                     [TransformChanged(old(lastTransform).GetOr(transform), old(lastBoundsWidth).GetOr(Width(bounds)))]
                && lastTransform == updatedTransform == Some(old(updatedTransform).GetOr(transform))
                && lastBoundsWidth == Some(old(lastBoundsWidth).GetOr(Width(bounds)))
                && transform == old(transform)
      ensures isSelected && state !in {Began, Changed, Ended} ==> unchanged(this)
    {
      if !isSelected {
        return rotation;
      }
      match state {
        case Began =>
          lastTransform := Some(transform);
          lastBoundsWidth := Some(Width(bounds));
        case Changed =>
          var newTransform := rotated(transform, rotation);
          updatedTransform := Some(newTransform);
          transform := newTransform;
        case Ended =>
          var oldTransform := lastTransform.GetOr(transform);
          var oldBoundsWidth := lastBoundsWidth.GetOr(Width(bounds));
          lastBoundsWidth := Some(oldBoundsWidth);
          notifications := notifications + [TransformChanged(oldTransform, oldBoundsWidth)];
          updatedTransform := Some(updatedTransform.GetOr(transform));
          lastTransform := updatedTransform;
        case _ =>
      }
      rotationAfter := 0.0;
    }
  }

  /**
   * A two-sample drag in the middle of a fresh 100-wide label: touch-up
   * reports the transform after the first sample, the state before the last
   * sample, because every sample overwrites the snapshot.
   */
  method TwoSampleDrag(dx1: real, dx2: real) returns (reported: seq<Notification>, final: Affine)
    ensures reported == [TransformChanged(TranslatedBy(Identity, dx1, 0.0), 100.0)]
    ensures final == TranslatedBy(Identity, dx1 + dx2, 0.0)
  {
    var view := new TextView(Rect(Point(0.0, 0.0), Size(100.0, 40.0)), None, 40.0);
    view.TouchesBegan(Point(50.0, 20.0));
    assert view.touchState == MiddleTouch;
    view.TouchesMoved(Point(50.0, 20.0), Point(50.0 + dx1, 20.0), 40.0);
    view.TouchesMoved(Point(50.0 + dx1, 20.0), Point(50.0 + dx1 + dx2, 20.0), 40.0);
    TranslationsCompose(Identity, dx1, 0.0, dx2, 0.0);
    view.TouchesEnded();
    reported := view.notifications;
    final := view.transform;
  }
}
