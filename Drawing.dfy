// The drawing screen's controller rules: which panels show for the edit mode
// and the selected text label, the text-style and alignment buttons, where a
// picked colour goes, and when undo is enabled.

module Drawing {
  import opened Wrappers
  import opened Colors
  import opened Gestures
  import opened TextLabel
  import opened Tools

  /** `EditTypes`: the raw values of the edit-mode segments. */
  const DrawingMode: int := 0
  const TextEditorMode: int := 1

  // ---- Style and alignment buttons ----------------------------------------------

  /** `didTapTextStyleView`: default, semi, filled, stroke, and round again. */
  function NextStyle(s: TextStyle): (r: TextStyle)
    ensures r != s
  {
    match s
    case Default => Semi
    case Semi => Filled
    case Filled => Stroke
    case Stroke => Default
  }

  /** `didTapTextAlignmentView`: center, left, right, and round again. */
  function NextAlignment(a: TextAlignment): (r: TextAlignment)
    ensures r != a
  {
    match a
    case Center => Left
    case Left => Right
    case Right => Center
  }

  /** Four taps on the style button bring back the starting style, and no fewer do; so every style is reached. */
  lemma StyleCycle(s: TextStyle)
    ensures NextStyle(NextStyle(NextStyle(NextStyle(s)))) == s
    ensures NextStyle(NextStyle(s)) != s && NextStyle(NextStyle(NextStyle(s))) != s
    ensures {s, NextStyle(s), NextStyle(NextStyle(s)), NextStyle(NextStyle(NextStyle(s)))} == {Default, Semi, Filled, Stroke}
  {
  }

  /** Three taps on the alignment button bring back the starting alignment, and no fewer do. */
  lemma AlignmentCycle(a: TextAlignment)
    ensures NextAlignment(NextAlignment(NextAlignment(a))) == a
    ensures NextAlignment(NextAlignment(a)) != a
    ensures {a, NextAlignment(a), NextAlignment(NextAlignment(a))} == {Center, Left, Right}
  {
  }

  /** `updatingViewModelTextStyle`: the image asset the style button shows. */
  function StyleIcon(s: TextStyle): string {
    match s
    case Default => "defaultStyle"
    case Semi => "filled"
    case Filled => "semi"
    case Stroke => "stroke"
  }

  /** `updatingViewModelTextAlignment`: the image asset the alignment button shows. */
  function AlignmentIcon(a: TextAlignment): string {
    match a
    case Center => "textCenter"
    case Left => "textLeft"
    case Right => "textRight"
  }

  /** Every style has its own icon, and the semi and filled styles show each other's asset names. */
  lemma StyleIconsDistinct(s: TextStyle, u: TextStyle)
    ensures StyleIcon(s) == StyleIcon(u) <==> s == u
    ensures StyleIcon(Semi) == "filled" && StyleIcon(Filled) == "semi"
  {
  }

  lemma AlignmentIconsDistinct(a: TextAlignment, b: TextAlignment)
    ensures AlignmentIcon(a) == AlignmentIcon(b) <==> a == b
  {
  }

  // ---- Panels and buttons -------------------------------------------------------

  /** `isColorPickerHidden`. */
  function ColorPickerHidden(mode: int, hasSelection: bool): bool {
    if mode == DrawingMode then false
    else if mode == TextEditorMode then !hasSelection
    else true
  }

  /** The colour picker shows while drawing, and while editing text exactly when a label is selected. */
  lemma ColorPickerVisibility(mode: int, hasSelection: bool)
    ensures !ColorPickerHidden(mode, hasSelection) <==>
              mode == DrawingMode || (mode == TextEditorMode && hasSelection)
  {
  }

  /** `updateUndoButton`: undo, clear and save are enabled when there is ink or something to undo. */
  function UndoEnabled(drawingIsEmpty: bool, canUndo: bool): bool {
    !drawingIsEmpty || canUndo
  }

  /** An action the canvas undo manager can take back. */
  datatype UndoAction =
    | RestoreViewModel(view: TextView, oldViewModel: ViewModel)
    | RestoreTransform(view: TextView, oldTransform: Affine, oldBoundsWidth: real)

  /** `DrawingViewController`, by the state these rules read and write. */
  class DrawingController {
    /** The selected segment of the edit-mode control. */
    var mode: int
    var selectedTextView: TextView?
    const toolsStack: ToolsStack
    var textParametersHidden: bool
    var colorPickerHidden: bool
    var toolsStackHidden: bool
    var spectrumHidden: bool
    /** The colour the colour-picker button shows. */
    var pickerColor: Rgba
    var styleIcon: string
    var alignmentIcon: string
    /** Whether the canvas drawing's bounds are empty. */
    var drawingIsEmpty: bool
    /** The canvas undo manager's stack, oldest first. */
    var undoActions: seq<UndoAction>
    var undoEnabled: bool
    var clearEnabled: bool
    var downloadEnabled: bool

    /**
     * `init` followed by `viewDidLoad`: drawing mode, nothing selected, the pen
     * tool chosen by `setDefaultTool()` (its white shown on the picker button),
     * and undo, clear and save disabled.
     */
    constructor()
      ensures mode == DrawingMode && selectedTextView == null
      ensures toolsStack.Valid() && toolsStack.selectedTool == toolsStack.tools[0]
      ensures toolsStack.FlagsOf()[0] == Flags(true, false)
      ensures textParametersHidden && !colorPickerHidden && !toolsStackHidden && spectrumHidden
      ensures pickerColor == White && styleIcon == StyleIcon(Default) && alignmentIcon == AlignmentIcon(Center)
      ensures drawingIsEmpty && undoActions == [] && !undoEnabled && !clearEnabled && !downloadEnabled
    {
      mode := DrawingMode;
      selectedTextView := null;
      toolsStack := new ToolsStack();
      textParametersHidden := true;
      colorPickerHidden := false;
      toolsStackHidden := false;
      spectrumHidden := true;
      pickerColor := White;
      styleIcon := StyleIcon(Default);
      alignmentIcon := AlignmentIcon(Center);
      drawingIsEmpty := true;
      undoActions := [];
      undoEnabled, clearEnabled, downloadEnabled := false, false, false;
      new;
      assert toolsStack.FlagsOf()[0] == Deselected;
      toolsStack.SetDefaultTool();
    }

    /** `updateUndoButton()`. */
    method UpdateUndoButton()
      modifies this`undoEnabled, this`clearEnabled, this`downloadEnabled
      ensures undoEnabled == clearEnabled == downloadEnabled == UndoEnabled(drawingIsEmpty, |undoActions| > 0)
    {
      var isUndoEnabled := !drawingIsEmpty || |undoActions| > 0;
      undoEnabled := isUndoEnabled;
      clearEnabled := isUndoEnabled;
      downloadEnabled := isUndoEnabled;
    }

    /**
     * Assigning `selectedTextView`. The observers deselect the previous label
     * and select the new one, show the text parameters exactly when a label is
     * selected, recompute the colour picker's visibility, hide the tools while a
     * label is selected or text is edited, and load the picker colour and the
     * two icons from the selected label, or the picker colour from the selected
     * tool when drawing without a label.
     */
    method SetSelectedTextView(view: TextView?)
      modifies this`selectedTextView, this`textParametersHidden, this`colorPickerHidden, this`toolsStackHidden,
               this`pickerColor, this`styleIcon, this`alignmentIcon
      modifies {selectedTextView}`isSelected, {view}`isSelected
      ensures selectedTextView == view
      ensures view != null ==> view.isSelected
      ensures old(selectedTextView) != null && old(selectedTextView) != view ==> !old(selectedTextView).isSelected
      ensures textParametersHidden == (view == null)
      ensures colorPickerHidden == ColorPickerHidden(mode, view != null)
      ensures toolsStackHidden == (view != null || mode == TextEditorMode)
      ensures view != null && view.viewModel.Some? ==>
                && pickerColor == view.viewModel.value.textColor
                && styleIcon == StyleIcon(view.viewModel.value.textStyle)
                && alignmentIcon == AlignmentIcon(view.viewModel.value.textAlignment)
      ensures view == null && toolsStack.selectedTool != null && mode == DrawingMode ==>
                pickerColor == toolsStack.selectedTool.color
      ensures !(view != null && view.viewModel.Some?) && !(view == null && toolsStack.selectedTool != null && mode == DrawingMode) ==>
                pickerColor == old(pickerColor)
      ensures !(view != null && view.viewModel.Some?) ==> styleIcon == old(styleIcon) && alignmentIcon == old(alignmentIcon)
    {
      if selectedTextView != null {
        selectedTextView.isSelected := false;
      }
      if view != null {
        view.isSelected := true;
      }
      selectedTextView := view;
      textParametersHidden := view == null;
      colorPickerHidden := IsColorPickerHidden();
      toolsStackHidden := view != null || mode == TextEditorMode;
      var selectedTool := toolsStack.selectedTool;
      if selectedTool != null && mode == DrawingMode && view == null {
        pickerColor := selectedTool.color;
      }
      if view != null && view.viewModel.Some? {
        var viewModel := view.viewModel.value;
        pickerColor := viewModel.textColor;
        styleIcon := StyleIcon(viewModel.textStyle);
        alignmentIcon := AlignmentIcon(viewModel.textAlignment);
      }
    }

    /** The `isColorPickerHidden` property. */
    function IsColorPickerHidden(): bool
      reads this
    {
      ColorPickerHidden(mode, selectedTextView != null)
    }

    /** `didChangeTextViewViewModel`: the old model goes on the undo stack. */
    method DidChangeTextViewViewModel(view: TextView, oldViewModel: ViewModel)
      modifies this`undoActions, this`undoEnabled, this`clearEnabled, this`downloadEnabled
      ensures undoActions == old(undoActions) + [RestoreViewModel(view, oldViewModel)]
      ensures undoEnabled && clearEnabled && downloadEnabled
    {
      undoActions := undoActions + [RestoreViewModel(view, oldViewModel)];
      UpdateUndoButton();
    }

    /** `didChangeTextViewTransform`: the old transform and width go on the undo stack. */
    method DidChangeTextViewTransform(view: TextView, oldTransform: Affine, oldBoundsWidth: real)
      modifies this`undoActions, this`undoEnabled, this`clearEnabled, this`downloadEnabled
      ensures undoActions == old(undoActions) + [RestoreTransform(view, oldTransform, oldBoundsWidth)]
      ensures undoEnabled && clearEnabled && downloadEnabled
    {
      undoActions := undoActions + [RestoreTransform(view, oldTransform, oldBoundsWidth)];
      UpdateUndoButton();
    }

    /**
     * A new model for the selected label, followed by the label's report of
     * the previous one, which this controller answers as its delegate.
     */
    method ReplaceViewModel(view: TextView, model: ViewModel)
      requires view.viewModel.Some?
      modifies {view}`viewModel, {view}`notifications,
               this`undoActions, this`undoEnabled, this`clearEnabled, this`downloadEnabled
      ensures view.viewModel == Some(model)
      ensures view.notifications == old(view.notifications) + [ViewModelChanged(old(view.viewModel).value)]
      ensures undoActions == old(undoActions) + [RestoreViewModel(view, old(view.viewModel).value)]
      ensures undoEnabled && clearEnabled && downloadEnabled
    {
      var previous := view.viewModel.value;
      view.SetViewModel(Some(model));
      DidChangeTextViewViewModel(view, previous);
    }

    /** `didTapTextStyleView`: the selected label moves to the next style, which can be undone. */
    method DidTapTextStyleView()
      modifies {selectedTextView}`viewModel, {selectedTextView}`notifications,
               this`undoActions, this`undoEnabled, this`clearEnabled, this`downloadEnabled, this`styleIcon
      ensures selectedTextView == null || old(selectedTextView.viewModel).None? ==>
                undoActions == old(undoActions) && styleIcon == old(styleIcon) &&
                (selectedTextView != null ==> selectedTextView.viewModel == old(selectedTextView.viewModel))
      ensures selectedTextView != null && old(selectedTextView.viewModel).Some? ==>
                var previous := old(selectedTextView.viewModel).value;
                && selectedTextView.viewModel == Some(previous.(textStyle := NextStyle(previous.textStyle)))
                && undoActions == old(undoActions) + [RestoreViewModel(selectedTextView, previous)]
                && styleIcon == StyleIcon(NextStyle(previous.textStyle))
                && undoEnabled
    {
      var textView := selectedTextView;
      if textView == null || textView.viewModel.None? {
        return;
      }
      var viewModel := textView.viewModel.value;
      ReplaceViewModel(textView, viewModel.(textStyle := NextStyle(viewModel.textStyle)));
      styleIcon := StyleIcon(NextStyle(viewModel.textStyle));
    }

    /** `didTapTextAlignmentView`: the selected label moves to the next alignment, which can be undone. */
    method DidTapTextAlignmentView()
      modifies {selectedTextView}`viewModel, {selectedTextView}`notifications,
               this`undoActions, this`undoEnabled, this`clearEnabled, this`downloadEnabled, this`alignmentIcon
      ensures selectedTextView == null || old(selectedTextView.viewModel).None? ==>
                undoActions == old(undoActions) && alignmentIcon == old(alignmentIcon) &&
                (selectedTextView != null ==> selectedTextView.viewModel == old(selectedTextView.viewModel))
      ensures selectedTextView != null && old(selectedTextView.viewModel).Some? ==>
                var previous := old(selectedTextView.viewModel).value;
                && selectedTextView.viewModel == Some(previous.(textAlignment := NextAlignment(previous.textAlignment)))
                && undoActions == old(undoActions) + [RestoreViewModel(selectedTextView, previous)]
                && alignmentIcon == AlignmentIcon(NextAlignment(previous.textAlignment))
                && undoEnabled
    {
      var textView := selectedTextView;
      if textView == null || textView.viewModel.None? {
        return;
      }
      var viewModel := textView.viewModel.value;
      ReplaceViewModel(textView, viewModel.(textAlignment := NextAlignment(viewModel.textAlignment)));
      alignmentIcon := AlignmentIcon(NextAlignment(viewModel.textAlignment));
    }

    /**
     * `didSelectColor`: the picker button shows the colour; it becomes the
     * selected label's text colour (an undoable model change), or, with no
     * label selected while drawing, the selected tool's colour.
     */
    method DidSelectColor(color: Rgba)
      modifies this`pickerColor, {selectedTextView}`viewModel, {selectedTextView}`notifications,
               this`undoActions, this`undoEnabled, this`clearEnabled, this`downloadEnabled,
               {toolsStack.selectedTool}`color
      ensures pickerColor == color
      ensures selectedTextView != null && old(selectedTextView.viewModel).Some? ==>
                var previous := old(selectedTextView.viewModel).value;
                && selectedTextView.viewModel == Some(previous.(textColor := color))
                && undoActions == old(undoActions) + [RestoreViewModel(selectedTextView, previous)]
      ensures selectedTextView != null && old(selectedTextView.viewModel).None? ==>
                selectedTextView.viewModel.None? && undoActions == old(undoActions)
      ensures selectedTextView == null && toolsStack.selectedTool != null && mode == DrawingMode ==>
                toolsStack.selectedTool.color == color
      ensures selectedTextView == null ==> undoActions == old(undoActions)
      ensures selectedTextView != null || mode != DrawingMode ==>
                toolsStack.selectedTool == null || toolsStack.selectedTool.color == old(toolsStack.selectedTool.color)
    {
      pickerColor := color;
      var textView := selectedTextView;
      var selectedTool := toolsStack.selectedTool;
      if textView != null {
        if textView.viewModel.Some? {
          var viewModel := textView.viewModel.value;
          ReplaceViewModel(textView, viewModel.(textColor := color));
        }
      } else if selectedTool != null && mode == DrawingMode {
        selectedTool.color := color;
      }
    }

    /** `colorPickerTouched` from the spectrum: a touch that ends selects its colour and hides the spectrum. */
    method ColorPickerTouched(color: Rgba, state: GestureState)
      modifies this`pickerColor, {selectedTextView}`viewModel, {selectedTextView}`notifications,
               this`undoActions, this`undoEnabled, this`clearEnabled, this`downloadEnabled,
               {toolsStack.selectedTool}`color, this`spectrumHidden
      ensures state == Ended ==> pickerColor == color && spectrumHidden
      ensures state != Ended ==>
                pickerColor == old(pickerColor) && spectrumHidden == old(spectrumHidden) && undoActions == old(undoActions)
      ensures state != Ended && selectedTextView != null ==> selectedTextView.viewModel == old(selectedTextView.viewModel)
    {
      if state == Ended {
        DidSelectColor(color);
        spectrumHidden := true;
      }
    }

    /** `didTapClearButton`: the ink and the undo stack are dropped, which disables undo, clear and save. */
    method DidTapClearButton()
      modifies this`drawingIsEmpty, this`undoActions, this`undoEnabled, this`clearEnabled, this`downloadEnabled
      ensures drawingIsEmpty && undoActions == []
      ensures !undoEnabled && !clearEnabled && !downloadEnabled
    {
      drawingIsEmpty := true;
      undoActions := [];
      UpdateUndoButton();
    }

    /** `didTapCanvasView`: the selection is dropped and the spectrum hidden. */
    method DidTapCanvasView()
      modifies this`selectedTextView, this`textParametersHidden, this`colorPickerHidden, this`toolsStackHidden,
               this`pickerColor, this`styleIcon, this`alignmentIcon, {selectedTextView}`isSelected, this`spectrumHidden
      ensures selectedTextView == null && spectrumHidden && textParametersHidden
      ensures old(selectedTextView) != null ==> !old(selectedTextView).isSelected
      ensures colorPickerHidden == (mode != DrawingMode)
      ensures toolsStackHidden == (mode == TextEditorMode)
      ensures toolsStack.selectedTool != null && mode == DrawingMode ==> pickerColor == toolsStack.selectedTool.color
      ensures !(toolsStack.selectedTool != null && mode == DrawingMode) ==> pickerColor == old(pickerColor)
      ensures styleIcon == old(styleIcon) && alignmentIcon == old(alignmentIcon)
    {
      SetSelectedTextView(null);
      spectrumHidden := true;
    }
  }
}
