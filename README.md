# TelegramContest photo markup: verified model of the editing core

This project models in Dafny the logic underneath the iOS photo-markup app
TelegramContest, and proves properties of it. The app lets the user draw with
five tools, add text labels that can be dragged, resized and rotated, and pick
colours from a grid, a spectrum or sliders. The model covers:

- **Colors** (`UIColor.swift`): the hex-string initialiser (3-, 4- and
  6-character forms, anything else transparent black) and `toHexString`, with
  the round trip between them over 8-bit components.
- **Geometry** (`CGRect.swift`): `CGRect(center:size:)` and the `center`,
  `centerX`, `centerY` getters and setters, plus `Int(CGFloat)` truncation and
  the number of values a `stride` produces.
- **ColorSpectrum** (`ColorSpectrumPickerView.swift`): the piecewise-linear map
  from a point to an HSB colour and its inverse, for the normal and mirrored
  layouts, the horizontal axis and the grey bar; the snapping of points to the
  element grid; the `draw` grid loop; the touch handler and the selection
  marker.
- **Chess** (`ChessLayer.swift`): the checkerboard loop and which squares it
  fills.
- **TextLabel** (`TextView.swift`): the text label's touch zones, the
  per-sample width and translation updates, the undo snapshots and the single
  report at touch-up or rotation end, the `viewModel` observer, and what each
  text style gives the layout manager.
- **TextLayout** (`TextLayoutManager.swift`): the line-background rects and the
  in-place `optimizeLineRects` walk that snaps neighbouring lines to the same
  x and width.
- **Tools** (`ToolsStackView.swift`): the five tools' selected and
  weight-updating flags, `didTapTool`, `didCancelToolUpdatingWeight`,
  `setDefaultTool` and the size lookups.
- **ColorPicker** (`ColorPickerViewController.swift`): the sliders, the text
  fields and their normalisation, the hex field, the segment switch.
- **Drawing** (`DrawingViewController.swift`): the text-style and alignment
  cycles, colour-picker visibility, the selected-label observers, colour
  routing, and the undo, clear and save buttons.
- **Segmented** (`SegmentedControl.swift`): the label row, the hit test, the
  thumb and the label colouring.
- **Decimal**, **RealArith**, **Gestures**, **Wrappers**: Swift's
  `Int(String)`, `String(Int)` and plain-decimal `Float(String)`; real
  arithmetic lemmas; the gesture-recognizer states; `Option`.

CGFloat is `real`. Objects whose fields the app updates in place (the text
label, the tool views and the tool stack, the colour picker, the drawing
controller, the segmented control, the spectrum's selection marker) are
classes. Their handlers are methods proved against pure functions that state
what the source promises. Value types and pure computations are datatypes and
functions.

Two behaviours of the code are worth knowing before reading the model:

- A text label's undo snapshot is retaken at every move sample, not once at
  touch down. So touch-up reports the state before the last sample
  (`TextLabel.TwoSampleDrag`).
- A tool's width ignores `isSelected`. A selected tool is 20 wide exactly like
  an idle one, unless another tool is in weight mode (`Tools.SizePriorities`).

## Model

| member | source | states |
|---|---|---|
| Colors.HexDigitValue | TelegramContest/Extensions/UIColor.swift:17 | `Character.hexDigitValue`: the value of 0-9, A-F and a-f and of their fullwidth forms, always below 16; every other character gives nothing |
| Colors.ParseHex | TelegramContest/Extensions/UIColor.swift:12-32 | every component is a byte; a length other than 3, 4 or 6 gives (0, 0, 0, 0); lengths 3 and 6 give alpha 255 |
| Colors.FromHex | TelegramContest/Extensions/UIColor.swift:33 | the parsed colour always has components and alpha in [0, 1] |
| Colors.SixDigits | TelegramContest/Extensions/UIColor.swift:16-20 | a 6-character string gives each component as `16*hi + lo` of its digit pair, with alpha 255 |
| Colors.ThreeDigitsDouble | TelegramContest/Extensions/UIColor.swift:24-28 | `xyz` parses as `xxyyzz`, so each component is 17 times its digit |
| Colors.FourDigitsAddAlpha | TelegramContest/Extensions/UIColor.swift:21-28 | the 4-character form is the 3-character form of its first three characters with alpha `17 * digit[3]` |
| Colors.HashIsNotSkipped | TelegramContest/Extensions/UIColor.swift:14-22 | a leading `#` is not skipped: `#0D3` is the 4-character form, with `#` read as digit 0 |
| Colors.UpperHexChar | TelegramContest/Extensions/UIColor.swift:44 | the upper-case digit printed for a value reads back as that value |
| Colors.HexDigits | TelegramContest/Extensions/UIColor.swift:44 | `%06x` then `uppercased()`: exactly `count` characters, all upper-case hex digits |
| Colors.Packed | TelegramContest/Extensions/UIColor.swift:43 | the packed value of a displayable colour fits in 24 bits |
| Colors.ToHexString | TelegramContest/Extensions/UIColor.swift:37-45 | always six upper-case hex digits |
| Colors.ToHexStringPairs | TelegramContest/Extensions/UIColor.swift:43-44 | the string is the hex pairs of `Int(r*255)`, `Int(g*255)`, `Int(b*255)` in order; alpha is ignored |
| Colors.ParseToHexString | TelegramContest/Extensions/UIColor.swift:12-44 | parsing the serialised string gives the truncated 8-bit components and alpha 255 |
| Colors.HexRoundTrip | TelegramContest/Extensions/UIColor.swift:12-44 | for components `k/255` with 0 <= k <= 255, parsing `toHexString` gives back r, g, b with alpha 1 |
| Geometry.Trunc | TelegramContest/Views/ColorSelector/ColorSpectrumPickerView.swift:196 | `Int(CGFloat)` truncates toward zero: within 1 of x on x's side of zero, never larger in magnitude |
| Geometry.RectWithCenter | TelegramContest/Extensions/CGRect.swift:11-13 | `CGRect(center:size:)` has the given size and the given centre |
| Geometry.WithCenterX | TelegramContest/Extensions/CGRect.swift:29-31 | setting `centerX` puts `origin.x` half the standardized width left of the value: it reads back as the value for a non-negative width and the width's magnitude further left for a negative one; size, `origin.y` and `centerY` are kept |
| Geometry.WithCenterY | TelegramContest/Extensions/CGRect.swift:38-40 | setting `centerY` puts `origin.y` half the standardized height above the value: it reads back as the value for a non-negative height and the height's magnitude further up for a negative one; size, `origin.x` and `centerX` are kept |
| Geometry.WithCenter | TelegramContest/Extensions/CGRect.swift:19-22 | setting `center` keeps the size; each coordinate of the centre reads back as set along a non-negative extent, and shifted by the extent along a negative one |
| Geometry.RecenterIsIdentity | TelegramContest/Extensions/CGRect.swift:15-22 | re-centring a rectangle on its own centre leaves it in place when its size is non-negative, and moves it by its extent along each negative axis |
| Geometry.StrideCount | TelegramContest/Views/ColorSelector/ChessLayer.swift:18-19 | `stride(from: 0, to: length, by: step)` produces exactly the multiples `i*step` below `length` |
| ColorSpectrum.Snap | TelegramContest/Views/ColorSelector/ColorSpectrumPickerView.swift:195-197 | a non-negative coordinate snaps down to a whole multiple of `elementSize` within one element of it; it snaps to 0 exactly within one element of 0 |
| ColorSpectrum.RoundedPoint | TelegramContest/Views/ColorSelector/ColorSpectrumPickerView.swift:195-197 | both coordinates snapped: each at most the input and within one element, on the element grid |
| ColorSpectrum.ColorAtPoint | TelegramContest/Views/ColorSelector/ColorSpectrumPickerView.swift:155-189 | the colour is grey exactly when the grey bar is shown and the point lies within one element of the top edge (of the left edge on the horizontal axis); see `ColorComponentsInRange` for the ranges |
| ColorSpectrum.HorizontalColorIsSwapped | TelegramContest/Views/ColorSelector/ColorSpectrumPickerView.swift:155-159 | the horizontal axis is the vertical map applied to the swapped point and rectangle |
| ColorSpectrum.GrayBar | TelegramContest/Views/ColorSelector/ColorSpectrumPickerView.swift:168-170 | a point whose snapped y is 0 is grey of white level `1 - x/width`: white at x = 0, black at x = width |
| ColorSpectrum.NormalHalves | TelegramContest/Views/ColorSelector/ColorSpectrumPickerView.swift:161-183 | normal layout: the top half has saturation 1 and brightness `y/(h/2)`; the bottom half brightness 1 and saturation `(h-y)/(h/2)`; hue `x/width` |
| ColorSpectrum.MirroredHalves | TelegramContest/Views/ColorSelector/ColorSpectrumPickerView.swift:175-178 | mirrored layout: the top half has brightness 1 and saturation `2y/h`; the bottom half saturation 1 and brightness `2(h-y)/h` |
| ColorSpectrum.ColorComponentsInRange | TelegramContest/Views/ColorSelector/ColorSpectrumPickerView.swift:155-189 | on either axis, every point inside the view gives a grey of positive level or a hue in [0, 1) with saturation and brightness in [0, 1] |
| ColorSpectrum.PointForColorAsWritten | TelegramContest/Views/ColorSelector/ColorSpectrumPickerView.swift:107-139 | the inverse as written: with the grey bar shown a grey lands on the grey row (column), and a colour with saturation and brightness lands at `hue` times the extent along the hue axis; `MirroredInverseAsWrittenMisses` shows where it fails |
| ColorSpectrum.PointForColor | TelegramContest/Views/ColorSelector/ColorSpectrumPickerView.swift:107-139 | the corrected inverse: the same grey-row and hue-axis placement; the `RoundTrip*` lemmas prove it inverts `ColorAtPoint` |
| ColorSpectrum.AsWrittenAgreesWhenNotMirrored | TelegramContest/Views/ColorSelector/ColorSpectrumPickerView.swift:120-129 | the as-written and corrected inverses differ only in the mirrored layout |
| ColorSpectrum.HorizontalPointIsSwapped | TelegramContest/Views/ColorSelector/ColorSpectrumPickerView.swift:107-139 | the horizontal inverse is the vertical inverse on the swapped rectangle, swapped back |
| ColorSpectrum.HueGivesX | TelegramContest/Views/ColorSelector/ColorSpectrumPickerView.swift:117 | a chromatic colour is placed at `x = hue * width` |
| ColorSpectrum.RoundTripNormalBottom | TelegramContest/Views/ColorSelector/ColorSpectrumPickerView.swift:117-129 | normal layout: every bottom-half point outside the grey bar maps to a colour that maps back to it |
| ColorSpectrum.RoundTripNormalTop | TelegramContest/Views/ColorSelector/ColorSpectrumPickerView.swift:117-129 | normal layout: every top-half point with `y > 0` and `y/(h/2) < 0.99` maps back to itself (the top edge itself is `TopEdgeLosesHue`) |
| ColorSpectrum.NormalTopBandSnaps | TelegramContest/Views/ColorSelector/ColorSpectrumPickerView.swift:120-124 | normal layout: a top-half point with `y/(h/2) >= 0.99` comes back on the middle line |
| ColorSpectrum.MirroredBottomBandSnaps | TelegramContest/Views/ColorSelector/ColorSpectrumPickerView.swift:120-124 | mirrored layout: a bottom-half point with brightness `>= 0.99` comes back on the middle line with the corrected inverse, and on the bottom edge with the inverse as written |
| ColorSpectrum.RoundTripMirroredTop | TelegramContest/Views/ColorSelector/ColorSpectrumPickerView.swift:120-123 | mirrored layout, corrected inverse: every top-half point with `y > 0` maps back to itself (the top edge itself is `TopEdgeLosesHue`) |
| ColorSpectrum.RoundTripMirroredBottom | TelegramContest/Views/ColorSelector/ColorSpectrumPickerView.swift:125-128 | mirrored layout: every bottom-half point with brightness below 0.99 maps back to itself |
| ColorSpectrum.TopEdgeLosesHue | TelegramContest/Views/ColorSelector/ColorSpectrumPickerView.swift:117-139 | without the grey bar the top edge is black (normal) or white (mirrored); neither has a hue, so every point of it comes back at (0, 0) |
| ColorSpectrum.RoundTripGrayBar | TelegramContest/Views/ColorSelector/ColorSpectrumPickerView.swift:131-135 | a grey-bar point comes back at the same x with y = 0 |
| ColorSpectrum.RoundTripHorizontal | TelegramContest/Views/ColorSelector/ColorSpectrumPickerView.swift:137-139 | every vertical round trip carries over to the horizontal axis |
| ColorSpectrum.MirroredInverseAsWrittenMisses | TelegramContest/Views/ColorSelector/ColorSpectrumPickerView.swift:122-123 | in a mirrored 100 x 100 view, (50, 10) has saturation 0.2 and the inverse as written returns (50, 4); the corrected one returns (50, 10) |
| ColorSpectrum.RoundedRectForPoint | TelegramContest/Views/ColorSelector/ColorSpectrumPickerView.swift:191-193 | an element-sized square whose top-left corner is the point itself (not snapped), so it contains the point |
| ColorSpectrum.GridAt | TelegramContest/Views/ColorSelector/ColorSpectrumPickerView.swift:83-91 | the fills go row by row: square (row, col) is fill number `row * cols + col` |
| ColorSpectrum.Draw | TelegramContest/Views/ColorSelector/ColorSpectrumPickerView.swift:81-92 | the nested stride loops fill one element square per stride point, in the colour of that point, row by row |
| ColorSpectrum.TouchReport | TelegramContest/Views/ColorSelector/ColorSpectrumPickerView.swift:95-105 | the delegate hears of a touch exactly when it is began, changed or ended and lies inside the bounds |
| ColorSpectrum.SelectionFrame | TelegramContest/Views/ColorSelector/ColorSpectrumPickerView.swift:143-146 | the marker has the selection size, centred on or starting at the snapped point |
| ColorSpectrum.SpectrumPicker.constructor | TelegramContest/Views/ColorSelector/ColorSpectrumPickerView.swift:52-75 | the configuration is kept; the marker starts hidden, uncoloured, at the origin |
| ColorSpectrum.SpectrumPicker.SelectPoint | TelegramContest/Views/ColorSelector/ColorSpectrumPickerView.swift:142-151 | the marker moves to the snapped point, takes the colour and is shown |
| ColorSpectrum.SpectrumPicker.DidSelectColor | TelegramContest/Views/ColorSelector/ColorSpectrumPickerView.swift:94-105 | a reported touch moves the marker to it; any other touch changes nothing |
| Chess.DivideIffEven | TelegramContest/Views/ColorSelector/ChessLayer.swift:20-22 | the stride value `i*e` leaves remainder 0 by `2e` exactly when i is even |
| Chess.FilledIffSameParity | TelegramContest/Views/ColorSelector/ChessLayer.swift:20-28 | a square is filled exactly when its row and column have the same parity |
| Chess.Alternates | TelegramContest/Views/ColorSelector/ChessLayer.swift:20-28 | square (0, 0) is filled, and horizontally or vertically adjacent squares differ |
| Chess.Draw | TelegramContest/Views/ColorSelector/ChessLayer.swift:17-34 | the loops fill, row by row, the squares that pass the test, for stride values below the width and height |
| Chess.CellRectInjective | TelegramContest/Views/ColorSelector/ChessLayer.swift:24 | different cells have different squares |
| Chess.RowFillsExactly | TelegramContest/Views/ColorSelector/ChessLayer.swift:19-31 | a row fills exactly its cells of the row's parity, each an e x e square in white at half opacity |
| Chess.BoardFillsExactly | TelegramContest/Views/ColorSelector/ChessLayer.swift:18-33 | the board fills exactly the same-parity cells, each as an e x e square at its cell in white at half opacity |
| TextLabel.TranslatedBy | TelegramContest/Views/TextView/TextView.swift:163 | `translatedBy` keeps the linear part of the transform |
| TextLabel.TranslatedByMovesPoints | TelegramContest/Views/TextView/TextView.swift:163 | the translated transform sends p where the old one sends p + (dx, dy) |
| TextLabel.TranslationsCompose | TelegramContest/Views/TextView/TextView.swift:185 | two middle-drag samples are one translation by their sum |
| TextLabel.StyleAppearances | TelegramContest/Views/TextView/TextView.swift:218-244 | only filled and semi draw a line background (black, white at half alpha); only stroke sets a stroke width, in black; default and stroke backgrounds are clear |
| TextLabel.TouchZone | TelegramContest/Views/TextView/TextView.swift:130-146 | right zone exactly when x is within 10 of maxX (tested first); left zone when within 10 of minX and not the right; otherwise middle |
| TextLabel.WideLabelZones | TelegramContest/Views/TextView/TextView.swift:136-145 | on a label at least 20 wide, left zone exactly when within 10 of minX, middle exactly when near neither edge |
| TextLabel.NarrowLabelPrefersRight | TelegramContest/Views/TextView/TextView.swift:136-141 | on a 12-wide label a touch near the left edge still grabs the right edge |
| TextLabel.LeftDragMovesOnlyLeftEdge | TelegramContest/Views/TextView/TextView.swift:162-172 | a left-zone sample (width - dx, translate dx/2) keeps the right edge fixed and moves the left edge by dx |
| TextLabel.RightDragMovesOnlyRightEdge | TelegramContest/Views/TextView/TextView.swift:173-183 | a right-zone sample (width + dx, translate dx/2) keeps the left edge fixed and moves the right edge by dx |
| TextLabel.MiddleDragTranslates | TelegramContest/Views/TextView/TextView.swift:184-189 | a middle sample keeps the width and moves every point by (dx, dy) in the label's coordinates |
| TextLabel.EdgeDragsUndo | TelegramContest/Views/TextView/TextView.swift:162-183 | an edge drag by dx followed by -dx restores the transform and width |
| TextLabel.TextView.constructor | TelegramContest/Views/TextView/TextView.swift:52-82 | a new label is selected, in no zone, untransformed, with unset snapshots; setting the initial model in `init` reports nothing; with a model, `configureViews` → `updateView` → `updateSize` gives it the standardized frame width and the fitted height, without one the frame's size |
| TextLabel.TextView.SetViewModel | TelegramContest/Views/TextView/TextView.swift:45-50 | assigning `viewModel` reports the old model exactly when there was one |
| TextLabel.TextView.TouchesBegan | TelegramContest/Views/TextView/TextView.swift:130-146 | a selected label records the zone under the touch; an unselected one ignores it |
| TextLabel.TextView.TouchesMoved | TelegramContest/Views/TextView/TextView.swift:148-193 | the current transform and width are snapshotted first, then the sample is applied in the grabbed zone; the none zone changes only the snapshot; an unselected label ignores it |
| TextLabel.TextView.UpdateSize | TelegramContest/Extensions/UITextView.swift:22-25 | the width is kept and the height becomes the fitted height |
| TextLabel.TextView.TouchesEnded | TelegramContest/Views/TextView/TextView.swift:195-205 | after a grab, the snapshot is reported exactly once and the updated values become the snapshot; with no grab nothing changes |
| TextLabel.TextView.HandleRotation | TelegramContest/Views/TextView/TextView.swift:267-292 | began snapshots, changed composes the incremental rotation, ended reports the snapshot once; the rotation is reset to 0 when selected |
| TextLabel.TwoSampleDrag | TelegramContest/Views/TextView/TextView.swift:158-159 | after two middle samples dx1, dx2 on a fresh label, touch-up reports the state after the first sample, and the label ends translated by dx1 + dx2 |
| TextLayout.FillOptionsDraw | TelegramContest/Views/TextView/TextLayoutManager.swift:39-46 | `[.fill]` draws a line background and `[]` does not |
| TextLayout.LineRectEdges | TelegramContest/Views/TextView/TextLayoutManager.swift:100-103 | a line rect reaches `left` further left and `right` further right, starts `top + bottom` higher, and ends where the used rect ends |
| TextLayout.BlankCenteredShift | TelegramContest/Views/TextView/TextLayoutManager.swift:89-97 | a blank centred line's rect is the ordinary one moved left by half the used width |
| TextLayout.CollectEveryLine | TelegramContest/Views/TextView/TextLayoutManager.swift:83-104 | without control-character lines there is one rect per fragment, in order, each that fragment's line rect |
| TextLayout.EnumerateLineRects | TelegramContest/Views/TextView/TextLayoutManager.swift:77-104 | the enumeration appends the line rects of the non-control fragments, in order |
| TextLayout.Adopt | TelegramContest/Views/TextView/TextLayoutManager.swift:130-133 | a rewritten rect takes its neighbour's x and width and keeps its own y and height |
| TextLayout.StepKind | TelegramContest/Views/TextView/TextLayoutManager.swift:113-135 | a step acts only at an index inside the array, after the first |
| TextLayout.OptimizeSeq | TelegramContest/Views/TextView/TextLayoutManager.swift:109-141 | the walk never changes the number of rects |
| TextLayout.AdoptStep | TelegramContest/Views/TextView/TextLayoutManager.swift:130-133 | one snap keeps every rect's y and height and takes its new x and width from the array |
| TextLayout.StepOnlySnaps | TelegramContest/Views/TextView/TextLayoutManager.swift:129-135 | a forward or backward step keeps the rows and introduces no new extent |
| TextLayout.OptimizeOnlySnaps | TelegramContest/Views/TextView/TextLayoutManager.swift:109-141 | `optimizeLineRects` keeps every rect's y and height, and every x and width in the output occurs in the input |
| TextLayout.ShortUnchanged | TelegramContest/Views/TextView/TextLayoutManager.swift:110 | fewer than two rects are left as they are |
| TextLayout.StepConditions | TelegramContest/Views/TextView/TextLayoutManager.swift:113-135 | `processIndex` changes something only at an index in range whose previous line reaches down to it, with a non-zero half edge difference below `0.13 * height` |
| TextLayout.StepAligns | TelegramContest/Views/TextView/TextLayoutManager.swift:129-135 | after a forward step the line has the previous line's extent; after a backward step the previous line has this one's |
| TextLayout.AlignedUnchanged | TelegramContest/Views/TextView/TextLayoutManager.swift:109-141 | lines already sharing one x and one width are left alone |
| TextLayout.ProcessIndex | TelegramContest/Views/TextView/TextLayoutManager.swift:112-136 | the in-place recursion leaves the array equal to the specification of `processIndex` |
| TextLayout.OptimizeLineRects | TelegramContest/Views/TextView/TextLayoutManager.swift:109-141 | the in-place walk from index 1 leaves the array equal to the specification of `optimizeLineRects` |
| Tools.Tap | TelegramContest/Views/Tools/ToolsStackView.swift:226-244 | a tap keeps one flag pair per tool |
| Tools.TapClearsOthers | TelegramContest/Views/Tools/ToolsStackView.swift:238-241 | after a tap every other tool is deselected and out of weight mode, so at most one tool is selected |
| Tools.TapCases | TelegramContest/Views/Tools/ToolsStackView.swift:227-237 | an idle tool becomes selected; a selected tool enters weight mode unless it is lasso or eraser; a tool in weight mode keeps its flags |
| Tools.TapKeepsInvariant | TelegramContest/Views/Tools/ToolsStackView.swift:226-244 | a tap preserves "weight mode only when selected" |
| Tools.WeightlessToolsNeverUpdate | TelegramContest/Views/Tools/ToolsStackView.swift:227-236 | no sequence of taps puts lasso or eraser into weight mode |
| Tools.CancelKeepsInvariant | TelegramContest/Views/Tools/ToolsStackView.swift:133-139 | cancelling weight mode preserves the invariant and keeps the tool selected |
| Tools.HeightAndWidth | TelegramContest/Views/Tools/ToolsStackView.swift:178-200 | a tool is at most 120 x 34; its width is 0 exactly when another tool is in weight mode, its height 0 exactly when it is also unselected; exact values in `SizePriorities` |
| Tools.WeightWidth | TelegramContest/Views/Tools/ToolsStackView.swift:202-212 | the weight line is 0 exactly for an unselected tool while another is in weight mode, and narrower than the tool whenever the tool has a width |
| Tools.SizePriorities | TelegramContest/Views/Tools/ToolsStackView.swift:178-212 | height 120, 88, 0, 72 and weight width 22, 16, 0, 14 by priority (weight mode, selected, another tool in weight mode, rest); width 34 in weight mode, 0 while another tool is, else 20 |
| Tools.WeightModeHidesOthers | TelegramContest/Views/Tools/ToolsStackView.swift:178-189 | while a tool is in weight mode it is 120 x 34 and every other tool has height 0 |
| Tools.Tool.constructor | TelegramContest/Views/Tools/BrushToolView.swift:70-77 | a tool view starts deselected, out of weight mode, drawing in white |
| Tools.ObserveTap | TelegramContest/Views/Tools/ToolsStackView.swift:79-88 | a selection sets `selectedTool` and reports it; entering weight mode sets `selectedUpdatingWeightTool` and reports it; otherwise nothing is reported |
| Tools.ToolsStack.constructor | TelegramContest/Views/Tools/ToolsStackView.swift:159-167 | five fresh tool views, pen to eraser, all idle, nothing selected |
| Tools.ToolsStack.DidTapTool | TelegramContest/Views/Tools/ToolsStackView.swift:226-244 | one pass over the tools leaves their flags equal to `Tap` of the old flags and the selections and delegate calls equal to `ObserveTap` |
| Tools.ToolsStack.DidCancelToolUpdatingWeight | TelegramContest/Views/Tools/ToolsStackView.swift:133-139 | a no-op without a tool in weight mode; otherwise that tool leaves weight mode, the field is cleared and nil is reported |
| Tools.ToolsStack.SetDefaultTool | TelegramContest/Views/Tools/ToolsStackView.swift:141-144 | the same as tapping the pen |
| Tools.StaleWeightTool | TelegramContest/Views/Tools/ToolsStackView.swift:238-241 | tapping another tool while the pen is in weight mode clears the pen's flags but leaves `selectedUpdatingWeightTool` at the pen |
| Drawing.NextStyle | TelegramContest/Controllers/DrawingViewController.swift:478-489 | a style tap always changes the style |
| Drawing.NextAlignment | TelegramContest/Controllers/DrawingViewController.swift:496-505 | an alignment tap always changes the alignment |
| Drawing.StyleCycle | TelegramContest/Controllers/DrawingViewController.swift:478-493 | four style taps restore the style and fewer do not; the cycle passes through all four styles |
| Drawing.AlignmentCycle | TelegramContest/Controllers/DrawingViewController.swift:496-509 | three alignment taps restore the alignment and two do not; the cycle passes through all three |
| Drawing.StyleIconsDistinct | TelegramContest/Controllers/DrawingViewController.swift:862-874 | every style has its own icon; the semi style shows the asset "filled" and the filled style "semi" |
| Drawing.AlignmentIconsDistinct | TelegramContest/Controllers/DrawingViewController.swift:876-886 | every alignment has its own icon |
| Drawing.ColorPickerVisibility | TelegramContest/Controllers/DrawingViewController.swift:283-292 | the picker shows exactly in drawing mode, or in text mode with a label selected |
| Drawing.DrawingController.constructor | TelegramContest/Controllers/DrawingViewController.swift:840-846 | drawing mode, nothing selected, the pen selected by `setDefaultTool`, its white on the picker, undo, clear and save disabled |
| Drawing.DrawingController.UpdateUndoButton | TelegramContest/Controllers/DrawingViewController.swift:893-898 | undo, clear and save are enabled together, exactly when there is ink or something to undo |
| Drawing.DrawingController.SetSelectedTextView | TelegramContest/Controllers/DrawingViewController.swift:257-281 | the old label is deselected and the new one selected; the text strip hides exactly without a label; the tools hide with a label or in text mode; the picker colour and icons come from the label, or the colour from the tool when drawing without a label |
| Drawing.DrawingController.DidChangeTextViewViewModel | TelegramContest/Controllers/DrawingViewController.swift:592-602 | the old model is pushed on the undo stack and undo becomes enabled |
| Drawing.DrawingController.DidChangeTextViewTransform | TelegramContest/Controllers/DrawingViewController.swift:604-615 | the old transform and width are pushed on the undo stack and undo becomes enabled |
| Drawing.DrawingController.ReplaceViewModel | TelegramContest/Controllers/DrawingViewController.swift:592-602 | a label's new model is reported with the previous one, which lands on the undo stack |
| Drawing.DrawingController.DidTapTextStyleView | TelegramContest/Controllers/DrawingViewController.swift:478-493 | the selected label moves to the next style, undoably, and the icon follows; without a label or model nothing changes |
| Drawing.DrawingController.DidTapTextAlignmentView | TelegramContest/Controllers/DrawingViewController.swift:496-509 | the selected label moves to the next alignment, undoably, and the icon follows; without a label or model nothing changes |
| Drawing.DrawingController.DidSelectColor | TelegramContest/Controllers/DrawingViewController.swift:686-697 | the colour goes to the selected label (undoably), or else, in drawing mode only, to the selected tool |
| Drawing.DrawingController.ColorPickerTouched | TelegramContest/Controllers/DrawingViewController.swift:712-722 | the spectrum's colour is applied and the spectrum hidden only when the touch ends |
| Drawing.DrawingController.DidTapClearButton | TelegramContest/Controllers/DrawingViewController.swift:518-525 | the ink and undo stack are dropped, which disables undo, clear and save |
| Drawing.DrawingController.DidTapCanvasView | TelegramContest/Controllers/DrawingViewController.swift:534-541 | the selected label is deselected and dropped, the spectrum hidden, the picker shown only in drawing mode, the tools shown unless editing text; the picker colour becomes the selected tool's in drawing mode and is kept otherwise; the icons are kept |
| ColorPicker.Clamp01 | TelegramContest/Controllers/ColorPickerViewController.swift:258-262 | a slider stores a value in [0, 1]: itself when in range, else the nearer end |
| ColorPicker.WithAlpha | TelegramContest/Controllers/ColorPickerViewController.swift:345 | `withAlphaComponent` keeps r, g, b and gives an alpha in [0, 1] |
| ColorPicker.RemovePercent | TelegramContest/Controllers/ColorPickerViewController.swift:556 | removing `%` leaves no `%` and changes a string without one not at all |
| ColorPicker.ComponentFromText | TelegramContest/Controllers/ColorPickerViewController.swift:560-562 | a component field's number is accepted exactly when it parses; the slider value times 255 is the typed number, and a number above 255 gives 1 |
| ColorPicker.OpacityEndValue | TelegramContest/Controllers/ColorPickerViewController.swift:593-604 | the settled percentage: the typed integer if at most 100, 100 above that, 0 when unparsable |
| ColorPicker.TypedComponentRoundTrip | TelegramContest/Controllers/ColorPickerViewController.swift:560-564 | typing a whole number k of 0..255 sets the slider to k/255, whose field text is k again |
| ColorPicker.OpacityEndIdempotent | TelegramContest/Controllers/ColorPickerViewController.swift:593-606 | settling an opacity text that was already settled changes nothing |
| ColorPicker.ShouldChangeText | TelegramContest/Controllers/ColorPickerViewController.swift:579-587 | fields other than hex accept every edit; an accepted hex edit has its range inside the text and leaves at most 6 characters |
| ColorPicker.HexFieldStaysShort | TelegramContest/Controllers/ColorPickerViewController.swift:579-587 | an accepted hex edit leaves at most 6 characters, the old length minus the range plus the replacement |
| ColorPicker.ColorPickerController.CurrentColor | TelegramContest/Controllers/ColorPickerViewController.swift:250-255 | the getter's colour is displayable with alpha in [0, 1] whenever the sliders are in range; `SetCurrentColor` states the setter-then-getter round trip |
| ColorPicker.ColorPickerController.constructor | TelegramContest/Controllers/ColorPickerViewController.swift:25-227 | opaque black, fields "0" and "100%" agreeing with the sliders, empty hex field, grid shown |
| ColorPicker.ColorPickerController.UpdateSliders | TelegramContest/Controllers/ColorPickerViewController.swift:515-517 | each component field shows `Int(value * 255)` of its slider |
| ColorPicker.ColorPickerController.SetCurrentColor | TelegramContest/Controllers/ColorPickerViewController.swift:256-270 | the sliders store the clamped components, the getter then returns the colour for displayable input, the swatch shows it, the component and hex fields follow; the opacity field is untouched |
| ColorPicker.ColorPickerController.SetSliderValues | TelegramContest/Controllers/ColorPickerViewController.swift:257-262 | each slider stores its clamped component |
| ColorPicker.ColorPickerController.UpdateHexTextView | TelegramContest/Controllers/ColorPickerViewController.swift:522-525 | the hex field shows `toHexString` of the current colour |
| ColorPicker.ColorPickerController.DidSliderValueChanged | TelegramContest/Controllers/ColorPickerViewController.swift:343-352 | the opacity slider changes only alpha and rewrites the opacity field; a component slider changes its component and forces alpha 1, leaving the opacity field as it was |
| ColorPicker.ColorPickerController.DidSliderValueChangedKeepingOpacity | TelegramContest/Controllers/ColorPickerViewController.swift:347-351 | corrected component slider: only its component changes, opacity is kept and a true opacity field stays true |
| ColorPicker.ColorPickerController.DidControlValueChanged | TelegramContest/Controllers/ColorPickerViewController.swift:320-340 | segments 0, 1, 2 show exactly the grid, the spectrum or the sliders; any other index changes nothing |
| ColorPicker.ColorPickerController.ColorPickerTouched | TelegramContest/Controllers/ColorPickerViewController.swift:538-541 | the touched colour becomes the current colour: the sliders take its clamped components, the swatch shows it, the component and hex fields follow, the opacity field is untouched |
| ColorPicker.ColorPickerController.Close | TelegramContest/Controllers/ColorPickerViewController.swift:308-312 | the delegate receives the current colour |
| ColorPicker.ColorPickerController.TextViewDidChange | TelegramContest/Controllers/ColorPickerViewController.swift:545-577 | hex: the sliders take the parsed colour at opacity 1, the component fields follow, the swatch and opacity field are kept; opacity: a whole number sets alpha and the swatch and hex field follow; component: a number capped at 255 sets its slider, the colour is rebuilt with the current opacity and the swatch and hex field follow; unparsable text changes only the edited field |
| ColorPicker.ColorPickerController.HexDidChange | TelegramContest/Controllers/ColorPickerViewController.swift:546-554 | the sliders take the parsed colour with opacity 1 and the component fields follow |
| ColorPicker.ColorPickerController.OpacityDidChange | TelegramContest/Controllers/ColorPickerViewController.swift:555-559 | the colour takes the typed percentage, clamped, as alpha; the swatch shows the new colour and the hex field its hex string; the opacity field is left as typed |
| ColorPicker.ColorPickerController.ComponentDidChange | TelegramContest/Controllers/ColorPickerViewController.swift:560-576 | the field's slider takes the value and the other components and the opacity are kept; the swatch shows the new colour and the component and hex fields follow |
| ColorPicker.ColorPickerController.TextViewShouldEndEditing | TelegramContest/Controllers/ColorPickerViewController.swift:589-609 | always ends; hex re-applies the colour, which rewrites the hex and component fields and the swatch; opacity settles the field on `"<v>%"` with v at most 100 and sets alpha v/100, keeping the other fields and the swatch; any other field changes nothing |
| ColorPicker.SliderMoveForgetsOpacity | TelegramContest/Controllers/ColorPickerViewController.swift:343-352 | with opacity 50%, moving the red slider leaves opacity 1 while the field still reads "50%" |
| Segmented.LabelsFor | TelegramContest/Views/ColorSelector/SegmentedControl.swift:120-140 | one label per item, in order, only the first in the selected colour |
| Segmented.Frames | TelegramContest/Views/ColorSelector/SegmentedControl.swift:154-176 | one frame per label, from the equal-width row constraints |
| Segmented.LastHit | TelegramContest/Views/ColorSelector/SegmentedControl.swift:93-98 | the hit is the last frame containing the touch; no hit when none does |
| Segmented.LabelsDisjoint | TelegramContest/Views/ColorSelector/SegmentedControl.swift:154-176 | with non-negative padding and positive widths no point lies in two labels |
| Segmented.HitIsTheTouchedLabel | TelegramContest/Views/ColorSelector/SegmentedControl.swift:91-106 | so the hit test finds label i exactly when the touch lies in label i |
| Segmented.SegmentedControl.constructor | TelegramContest/Views/ColorSelector/SegmentedControl.swift:15-68 | items "item1", "item2", index 0, black on white, padding 0, labels built and coloured as selected |
| Segmented.SegmentedControl.SetupLabels | TelegramContest/Views/ColorSelector/SegmentedControl.swift:120-140 | the loop over `1 ... items.count` (non-empty items) rebuilds one label per item with only the first selected |
| Segmented.SegmentedControl.SetItems | TelegramContest/Views/ColorSelector/SegmentedControl.swift:15-19 | non-empty items rebuild the labels; empty items leave them untouched |
| Segmented.SegmentedControl.UnselectAll | TelegramContest/Views/ColorSelector/SegmentedControl.swift:143-145 | the loop gives every label the unselected colour and changes nothing else |
| Segmented.SegmentedControl.DisplayNewSelectedIndex | TelegramContest/Views/ColorSelector/SegmentedControl.swift:142-152 | exactly the label at the index has the selected colour, the rest the unselected one, and the thumb moves to that label |
| Segmented.SegmentedControl.LayoutSubviews | TelegramContest/Views/ColorSelector/SegmentedControl.swift:75-89 | with labels present the selected label is coloured, the thumb placed under it in the thumb colour |
| Segmented.SegmentedControl.SetSelectedIndex | TelegramContest/Views/ColorSelector/SegmentedControl.swift:21-23 | the observer selects the new index, colours exactly that label as selected, keeps the labels' number and texts, and moves the thumb under it |
| Segmented.SegmentedControl.BeginTracking | TelegramContest/Views/ColorSelector/SegmentedControl.swift:91-106 | the last label containing the touch becomes selected, coloured as selected, with the thumb moved to its frame and the labels' texts kept, and one event is sent; outside every label nothing changes, the thumb included; tracking never continues |
| Segmented.SegmentedControl.SetSelectedColors | TelegramContest/Views/ColorSelector/SegmentedControl.swift:178-188 | corrected: the selected label, and only it, gets the selected colour; the thumb takes the thumb colour |
| Segmented.SegmentedControl.SetSelectedColorsAsWritten | TelegramContest/Views/ColorSelector/SegmentedControl.swift:178-188 | as written: label 0 gets the selected colour whatever the index, all others the unselected one |
| Segmented.SegmentedControl.SetSelectedLabelColor | TelegramContest/Views/ColorSelector/SegmentedControl.swift:25-27 | the observer recolours the labels with the corrected `setSelectedColors`, so the selected label has the selected colour (the source paints label 0; see Findings) |
| Segmented.SegmentedControl.SetUnselectedLabelColor | TelegramContest/Views/ColorSelector/SegmentedControl.swift:29-31 | the observer recolours the labels with the corrected `setSelectedColors` (the source paints label 0; see Findings) |
| Segmented.SegmentedControl.SetThumbColor | TelegramContest/Views/ColorSelector/SegmentedControl.swift:33-35 | the thumb takes the colour and the labels are recoloured with the corrected `setSelectedColors` (the source paints label 0; see Findings) |
| Segmented.SegmentedControl.SetPadding | TelegramContest/Views/ColorSelector/SegmentedControl.swift:61-63 | the observer rebuilds the labels |
| Segmented.SelectedColorsAsWrittenMisses | TelegramContest/Views/ColorSelector/SegmentedControl.swift:183-185 | with index 1 selected, recolouring as written paints label 0 selected and label 1 unselected |

## Left out

- Platform colour conversion (`getHue`, `getWhite`, `UIColor(hue:…)`, `cgColor.components`): a spectrum colour is an HSB triple or a grey level. `Reading` states what `getHue` reports for greys and black.
- Floating point: CGFloat and Float are `real`, and `powf` is evaluated at its only exponents, 0 and 1. Rounding in `Int(value * 255)` and `value / 255` is exact here.
- Rotation trigonometry: `rotated(by:)` is a function parameter of `HandleRotation`.
- Text layout itself (`enumerateLineFragments`, `sizeThatFits`, fonts): line fragments and the fitted height are inputs.
- TextLayout.OptimizeLineRects: the recursion of `processIndex` is cut off after `fuel` nested calls, because a forward step and a backward step can alternate without bound; its contracts hold for every fuel.
- Drawing with Core Graphics (`fillBackground`, `strokeOuter`, gradients, layers, screenshots) and all animations; the thumb's animated move is its final frame.
- Auto Layout: the segmented control's label frames are the solution of its constraints, not the constraint engine.
- PencilKit and `UndoManager`: the ink is a boolean "drawing is empty", and the undo stack is a sequence whose non-emptiness is `canUndo`. Performing an undo, saving, deleting and duplicating labels, the font slider and the zoom are not modelled.
- ColorPicker.ColorPickerController.UpdateSliders: only the three texts it writes; the slider gradient, thumb and opacity-slider colours are not modelled.
- ColorPicker.ColorPickerController.SetCurrentColor: `selectPointsOnGrigViews`, which moves the grid and spectrum markers, and the opacity slider's colour are not modelled.
- ColorPicker.ColorPickerController.TextViewDidChange: `cgColor.components` is taken to be present, as it is for every RGB colour.
- `Float(String)` covers optional sign, digits and one decimal point; exponents, `inf` and `nan` parse as nothing here. `Int(String)` is bounded to 64 bits.
- The tool views other than the brush are not part of this model. Every tool starts in white, as `BrushToolView` does.
- The tools' `animateTapTool` hiding is stated through the heights (`Tools.WeightModeHidesOthers`), not as view visibility.
- Segmented control fonts, borders and corner radii, and the spectrum marker's border.
- Segmented.SegmentedControl.SetSelectedLabelColor: recolours with the corrected `SetSelectedColors`, where the source's observer paints label 0 whatever the selected index (the Findings row for SegmentedControl.swift:183-185; `SetSelectedColorsAsWritten` models the code as written).
- Segmented.SegmentedControl.SetUnselectedLabelColor: the same corrected recolouring, for the same reason.
- Segmented.SegmentedControl.SetThumbColor: the same corrected recolouring, for the same reason.
- Strings are sequences of Unicode scalars. `Colors.ParseHex` switches on the scalar count where Swift's `count` counts grapheme clusters, and `ColorPicker.ShouldChangeText` takes its range in scalars where the source converts an `NSRange` of UTF-16 offsets and checks the grapheme count. Text with combining marks or characters outside the Basic Multilingual Plane is therefore measured differently.
- Runtime traps are preconditions: `Segmented.SegmentedControl.SetupLabels` and `SetPadding` require a non-empty item list, because `1 ... items.count` traps on an empty one; `DisplayNewSelectedIndex` and `SetSelectedIndex` require an index within the labels, and `LayoutSubviews` requires one whenever there are labels, because `labels[selectedIndex]` traps otherwise; `BeginTracking` requires at least one label, which always holds after `init`. The trap itself is not modelled.
- The label's re-layout after a style, alignment or colour change is not modelled: `DidTapTextStyleView`, `DidTapTextAlignmentView` and `DidSelectColor` leave the label's bounds as they were, where the source's `updateView()` ends in `updateSize()`, which re-fits the height to the text.
- The delegate hooks `didSelectTool` and `didSelectUpdatingWeightTool` of the drawing controller are recorded as events, not replayed.

## Findings

| source | as written | input that shows it | evidently intended | confidence | as-written member | corrected member |
|---|---|---|---|---|---|---|
| TelegramContest/Views/ColorSelector/ColorSpectrumPickerView.swift:122-123 | the mirrored full-brightness inverse places saturation s at `y = s * halfHeight * 2 * powf(s, 1)`, that is `2 s² halfHeight` | mirrored 100 x 100 view, point (50, 10): saturation 0.2 comes back at (50, 4) | `y = s * halfHeight`, the inverse of the forward map's `2y/h` | medium, not executed | ColorSpectrum.MirroredInverseAsWrittenMisses | ColorSpectrum.RoundTripMirroredTop |
| TelegramContest/Controllers/ColorPickerViewController.swift:347-351 | moving a red, green or blue slider rebuilds the colour with alpha 1 and leaves the opacity field alone | opacity 50%, then the red slider moved to 0.2: the opacity slider reads 1 while its field still reads "50%" | keep the current opacity, as the text-field path at lines 570-575 does | low, not executed | ColorPicker.SliderMoveForgetsOpacity | ColorPicker.ColorPickerController.DidSliderValueChangedKeepingOpacity |
| TelegramContest/Views/ColorSelector/SegmentedControl.swift:183-185 | `setSelectedColors` gives the selected colour to label 0 | index 1 selected, then a new selected-label colour: label 0 is painted selected and label 1 unselected until the next layout pass | `labels[selectedIndex]`, as `displayNewSelectedIndex` does | low (the next `layoutSubviews` repaints), not executed | Segmented.SelectedColorsAsWrittenMisses | Segmented.SegmentedControl.SetSelectedColors |

Two further behaviours are left as modelled without a correction:

- Tapping another tool while one is in weight mode leaves `selectedUpdatingWeightTool` pointing at a tool that is no longer in weight mode (`Tools.StaleWeightTool`). The other tools are hidden at that point, so the user cannot normally reach this.
- The style button shows the asset "filled" for the semi style and "semi" for the filled style (`Drawing.StyleIconsDistinct`). The assets are not part of this model, so which name is right cannot be judged.
