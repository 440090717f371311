// The drawing tools stack: five tools, each selected or not and each either
// showing its weight control or not, the tap that moves the selection, and
// the sizes the stack gives each tool from those two flags.

module Tools {
  import opened Wrappers
  import opened Colors

  datatype ToolKind = Pen | Brush | Pencil | Lasso | Eraser

  /** The arranged subviews of the stack, left to right. */
  const Kinds: seq<ToolKind> := [Pen, Brush, Pencil, Lasso, Eraser]

  /** Lasso and eraser have no line weight to update. */
  predicate HasNoWeight(kind: ToolKind) {
    kind == Lasso || kind == Eraser
  }

  /** `Constants`. */
  const SelectedHeight: real := 88.0
  const DeselectedHeight: real := 72.0
  const DefaultWidth: real := 20.0
  const UpdatingWeightStateHeight: real := 120.0
  const UpdatingWeightStateWidth: real := 34.0

  /** The two flags of a tool view. */
  datatype Flags = Flags(isSelected: bool, isUpdatingWeight: bool)

  const Deselected: Flags := Flags(false, false)

  // ---- Tapping a tool -----------------------------------------------------------

  /** What a tap does to the tapped tool. */
  datatype TapOutcome = Selects | EntersWeight | NoChange

  function Outcome(f: Flags, kind: ToolKind): TapOutcome {
    if !f.isSelected && !f.isUpdatingWeight then Selects
    else if f.isSelected && !f.isUpdatingWeight && !HasNoWeight(kind) then EntersWeight
    else NoChange
  }

  /** The tapped tool's flags after the tap. */
  function TapTool(f: Flags, kind: ToolKind): Flags {
    match Outcome(f, kind)
    case Selects => Flags(true, f.isUpdatingWeight)
    case EntersWeight => Flags(f.isSelected, true)
    case NoChange => f
  }

  /** The flags of the whole stack after tapping the tool at `t`: every other tool is cleared. */
  function Tap(fs: seq<Flags>, t: nat): (r: seq<Flags>)
    requires |fs| == |Kinds| && t < |fs|
    ensures |r| == |fs|
  {
    seq(|fs|, j requires 0 <= j < |fs| => if j == t then TapTool(fs[j], Kinds[j]) else Deselected)
  }

  /** No tool shows its weight control without being selected. */
  predicate UpdatingOnlyWhenSelected(fs: seq<Flags>) {
    forall j :: 0 <= j < |fs| ==> fs[j].isUpdatingWeight ==> fs[j].isSelected
  }

  /** No two tools are selected. */
  predicate AtMostOneSelected(fs: seq<Flags>) {
    forall i, j :: 0 <= i < |fs| && 0 <= j < |fs| && fs[i].isSelected && fs[j].isSelected ==> i == j
  }

  /** After a tap every other tool is deselected and out of weight mode, so at most one tool is selected. */
  lemma TapClearsOthers(fs: seq<Flags>, t: nat)
    requires |fs| == |Kinds| && t < |fs|
    ensures forall j :: 0 <= j < |fs| && j != t ==> Tap(fs, t)[j] == Deselected
    ensures AtMostOneSelected(Tap(fs, t))
  {
  }

  /** Tapping an idle tool selects it; tapping the selected tool opens its weight control, except for lasso and eraser; tapping a tool in weight mode changes nothing. */
  lemma TapCases(fs: seq<Flags>, t: nat)
    requires |fs| == |Kinds| && t < |fs|
    ensures !fs[t].isSelected && !fs[t].isUpdatingWeight ==> Tap(fs, t)[t] == Flags(true, false)
    ensures fs[t].isSelected && !fs[t].isUpdatingWeight && !HasNoWeight(Kinds[t]) ==> Tap(fs, t)[t] == Flags(true, true)
    ensures HasNoWeight(Kinds[t]) && !fs[t].isUpdatingWeight ==> !Tap(fs, t)[t].isUpdatingWeight
    ensures fs[t].isUpdatingWeight ==> Tap(fs, t)[t] == fs[t]
  {
  }

  /** A tap keeps "weight mode only when selected". */
  lemma TapKeepsInvariant(fs: seq<Flags>, t: nat)
    requires |fs| == |Kinds| && t < |fs|
    requires UpdatingOnlyWhenSelected(fs)
    ensures UpdatingOnlyWhenSelected(Tap(fs, t))
  {
  }

  /** Lasso and eraser never enter weight mode, however often they are tapped. */
  lemma {:induction false} WeightlessToolsNeverUpdate(fs: seq<Flags>, taps: seq<nat>)
    requires |fs| == |Kinds|
    requires forall k :: 0 <= k < |taps| ==> taps[k] < |Kinds|
    requires !fs[3].isUpdatingWeight && !fs[4].isUpdatingWeight
    ensures !TapAll(fs, taps)[3].isUpdatingWeight && !TapAll(fs, taps)[4].isUpdatingWeight
    decreases |taps|
  {
    if taps != [] {
      var next := Tap(fs, taps[0]);
      assert Kinds[3] == Lasso && Kinds[4] == Eraser;
      WeightlessToolsNeverUpdate(next, taps[1..]);
    }
  }

  /** A run of taps, first to last. */
  function TapAll(fs: seq<Flags>, taps: seq<nat>): (r: seq<Flags>)
    requires |fs| == |Kinds|
    requires forall k :: 0 <= k < |taps| ==> taps[k] < |Kinds|
    ensures |r| == |Kinds|
    decreases |taps|
  {
    if taps == [] then fs else TapAll(Tap(fs, taps[0]), taps[1..])
  }

  /** `didCancelToolUpdatingWeight` on the flags: the tool in weight mode leaves it and stays selected. */
  function Cancel(f: Flags): Flags {
    Flags(f.isSelected, false)
  }

  lemma CancelKeepsInvariant(fs: seq<Flags>, k: nat)
    requires k < |fs| && UpdatingOnlyWhenSelected(fs)
    ensures UpdatingOnlyWhenSelected(fs[k := Cancel(fs[k])])
    ensures fs[k := Cancel(fs[k])][k].isSelected == fs[k].isSelected
  {
  }

  // ---- Sizes --------------------------------------------------------------------

  datatype Dimensions = Dimensions(height: real, width: real)

  /**
   * `getHeightAndWidth(for:)`; `anyUpdating` is whether `selectedUpdatingWeightTool`
   * is set, which can still name a tool that has left weight mode (`StaleWeightTool`).
   */
  function HeightAndWidth(f: Flags, anyUpdating: bool): (d: Dimensions)
    ensures 0.0 <= d.height <= UpdatingWeightStateHeight && 0.0 <= d.width <= UpdatingWeightStateWidth
    ensures d.width == 0.0 <==> !f.isUpdatingWeight && anyUpdating
    ensures d.height == 0.0 <==> !f.isUpdatingWeight && !f.isSelected && anyUpdating
  {
    var height :=
      if f.isUpdatingWeight then UpdatingWeightStateHeight
      else if f.isSelected then SelectedHeight
      else if anyUpdating then 0.0
      else DeselectedHeight;
    var width :=
      if f.isUpdatingWeight then UpdatingWeightStateWidth
      else if anyUpdating then 0.0
      else DefaultWidth;
    Dimensions(height, width)
  }

  /** `getWeightWidth(for:)`. */
  function WeightWidth(f: Flags, anyUpdating: bool): (w: real)
    ensures w >= 0.0
    ensures w == 0.0 <==> !f.isUpdatingWeight && !f.isSelected && anyUpdating
    ensures HeightAndWidth(f, anyUpdating).width > 0.0 ==> w < HeightAndWidth(f, anyUpdating).width
  {
    if f.isUpdatingWeight then UpdatingWeightStateWidth - 12.0
    else if f.isSelected then DefaultWidth - 4.0
    else if anyUpdating then 0.0
    else DefaultWidth - 6.0
  }

  /** The sizes by priority: weight mode, then selection, then another tool in weight mode, then the resting size. */
  lemma SizePriorities(f: Flags, anyUpdating: bool)
    ensures f.isUpdatingWeight ==> HeightAndWidth(f, anyUpdating) == Dimensions(120.0, 34.0) && WeightWidth(f, anyUpdating) == 22.0
    ensures !f.isUpdatingWeight && f.isSelected ==> HeightAndWidth(f, anyUpdating).height == 88.0 && WeightWidth(f, anyUpdating) == 16.0
    ensures !f.isUpdatingWeight && !f.isSelected && anyUpdating ==>
              HeightAndWidth(f, anyUpdating) == Dimensions(0.0, 0.0) && WeightWidth(f, anyUpdating) == 0.0
    ensures !f.isUpdatingWeight && !anyUpdating ==> HeightAndWidth(f, anyUpdating).width == 20.0
    ensures !f.isUpdatingWeight && !f.isSelected && !anyUpdating ==>
              HeightAndWidth(f, anyUpdating) == Dimensions(72.0, 20.0) && WeightWidth(f, anyUpdating) == 14.0
  {
  }

  /**
   * While one tool is in weight mode and the flags keep the stack's invariants,
   * that tool is the only one with a non-zero height: the animation then hides
   * every other tool.
   */
  lemma {:induction false} WeightModeHidesOthers(fs: seq<Flags>, k: nat)
    requires k < |fs| && fs[k].isUpdatingWeight
    requires UpdatingOnlyWhenSelected(fs) && AtMostOneSelected(fs)
    ensures HeightAndWidth(fs[k], true) == Dimensions(UpdatingWeightStateHeight, UpdatingWeightStateWidth)
    ensures forall j :: 0 <= j < |fs| && j != k ==> HeightAndWidth(fs[j], true).height == 0.0
  {
    forall j | 0 <= j < |fs| && j != k
      ensures HeightAndWidth(fs[j], true).height == 0.0
    {
      assert !fs[j].isSelected;
    }
  }

  // ---- The stack ----------------------------------------------------------------

  /** A tool view: its two flags and the colour it draws with (white until the user picks one). */
  class Tool {
    const kind: ToolKind
    var isSelected: bool
    var isUpdatingWeight: bool
    var color: Rgba

    constructor(kind: ToolKind)
      ensures this.kind == kind && !isSelected && !isUpdatingWeight && color == White
    {
      this.kind := kind;
      isSelected := false;
      isUpdatingWeight := false;
      color := White;
    }
  }

  /** A call the stack makes on its delegate from a property observer. */
  datatype Event = DidSelectTool(tool: ToolKind) | DidSelectUpdatingWeightTool(updating: Option<ToolKind>)

  /** The stack's `selectedTool`, `selectedUpdatingWeightTool` and delegate calls. */
  datatype Observation = Observation(selectedTool: Tool?, selectedUpdatingWeightTool: Tool?, events: seq<Event>)

  /**
   * The property observers' side of a tap: a tool that becomes selected is
   * `selectedTool`, one that enters weight mode is `selectedUpdatingWeightTool`,
   * and each assignment reports to the delegate.
   */
  function ObserveTap(outcome: TapOutcome, tapped: Tool, before: Observation): (r: Observation)
    ensures outcome == Selects ==>
              r.selectedTool == tapped && r.selectedUpdatingWeightTool == before.selectedUpdatingWeightTool &&
              r.events == before.events + [DidSelectTool(tapped.kind)]
    ensures outcome == EntersWeight ==>
              r.selectedTool == before.selectedTool && r.selectedUpdatingWeightTool == tapped &&
              r.events == before.events + [DidSelectUpdatingWeightTool(Some(tapped.kind))]
    ensures outcome == NoChange ==> r == before
  {
    match outcome
    case Selects => before.(selectedTool := tapped, events := before.events + [DidSelectTool(tapped.kind)])
    case EntersWeight =>
      before.(selectedUpdatingWeightTool := tapped, events := before.events + [DidSelectUpdatingWeightTool(Some(tapped.kind))])
    case NoChange => before
  }

  /** `ToolsStackView`. */
  class ToolsStack {
    /** The arranged tool views, left to right. */
    const tools: seq<Tool>
    var selectedTool: Tool?
    var selectedUpdatingWeightTool: Tool?
    /** The delegate calls made so far, oldest first. */
    var events: seq<Event>

    ghost predicate Valid()
      reads this
    {
      && |tools| == |Kinds|
      && (forall j :: 0 <= j < |tools| ==> tools[j].kind == Kinds[j])
      && (forall i, j :: 0 <= i < j < |tools| ==> tools[i] != tools[j])
      && (selectedUpdatingWeightTool == null || selectedUpdatingWeightTool in tools)
    }

    /** The flags of the tools, left to right. */
    function FlagsOf(): (fs: seq<Flags>)
      reads this, tools
      ensures |fs| == |tools|
    {
      seq(|tools|, j reads this, tools requires 0 <= j < |tools| => Flags(tools[j].isSelected, tools[j].isUpdatingWeight))
    }

    constructor()
      ensures Valid() && FlagsOf() == seq(|Kinds|, _ => Deselected)
      ensures forall j :: 0 <= j < |tools| ==> fresh(tools[j])
      ensures selectedTool == null && selectedUpdatingWeightTool == null && events == []
    {
      var pen := new Tool(Pen);
      var brush := new Tool(Brush);
      var pencil := new Tool(Pencil);
      var lasso := new Tool(Lasso);
      var eraser := new Tool(Eraser);
      tools := [pen, brush, pencil, lasso, eraser];
      selectedTool := null;
      selectedUpdatingWeightTool := null;
      events := [];
    }

    /** What the stack's observers see: the two selections and the delegate calls made. */
    function Observed(): Observation
      reads this
    {
      Observation(selectedTool, selectedUpdatingWeightTool, events)
    }

    /**
     * `didTapTool(_:)` for the tool at position `t`: one pass over the
     * arranged tools, updating the tapped one and clearing the others.
     */
    method DidTapTool(t: nat)
      requires Valid() && t < |tools|
      modifies this`selectedTool, this`selectedUpdatingWeightTool, this`events, tools`isSelected, tools`isUpdatingWeight
      ensures Valid()
      ensures FlagsOf() == Tap(old(FlagsOf()), t)
      ensures Observed() == ObserveTap(Outcome(old(FlagsOf())[t], Kinds[t]), tools[t], old(Observed()))
    {
      var tool := tools[t];
      var isNotUpdatingWeightTools := tool.kind == Lasso || tool.kind == Eraser;
      ghost var before := FlagsOf();
      ghost var after := ObserveTap(Outcome(before[t], Kinds[t]), tool, Observed());
      for i := 0 to |tools|
        invariant Valid()
        invariant forall j :: 0 <= j < i ==> Flags(tools[j].isSelected, tools[j].isUpdatingWeight) == Tap(before, t)[j]
        invariant forall j :: i <= j < |tools| ==> Flags(tools[j].isSelected, tools[j].isUpdatingWeight) == before[j]
        invariant Observed() == if i <= t then old(Observed()) else after
      {
        var view := tools[i];
        if view == tool {
          if !view.isSelected && !view.isUpdatingWeight {
            view.isSelected := true;
            selectedTool := view;
            events := events + [DidSelectTool(view.kind)];
          } else if tool.isSelected && !view.isUpdatingWeight && !isNotUpdatingWeightTools {
            view.isUpdatingWeight := true;
            selectedUpdatingWeightTool := view;
            events := events + [DidSelectUpdatingWeightTool(Some(view.kind))];
          }
        } else {
          view.isSelected := false;
          view.isUpdatingWeight := false;
        }
      }
      assert FlagsOf() == Tap(before, t);
    }

    /** `didCancelToolUpdatingWeight()`: the tool in weight mode, if any, leaves it. */
    method DidCancelToolUpdatingWeight()
      requires Valid()
      modifies this`selectedUpdatingWeightTool, this`events, tools`isUpdatingWeight
      ensures Valid() && selectedUpdatingWeightTool == null
      ensures old(selectedUpdatingWeightTool) == null ==> FlagsOf() == old(FlagsOf()) && events == old(events)
      ensures old(selectedUpdatingWeightTool) != null ==>
                && events == old(events) + [DidSelectUpdatingWeightTool(None)]
                && forall j :: 0 <= j < |tools| ==>
                     FlagsOf()[j] == if tools[j] == old(selectedUpdatingWeightTool) then Cancel(old(FlagsOf())[j]) else old(FlagsOf())[j]
    {
      var tool := selectedUpdatingWeightTool;
      if tool == null {
        return;
      }
      tool.isUpdatingWeight := false;
      selectedUpdatingWeightTool := null;
      events := events + [DidSelectUpdatingWeightTool(None)];
    }

    /** `setDefaultTool()`: a tap on the pen. */
    method SetDefaultTool()
      requires Valid()
      modifies this`selectedTool, this`selectedUpdatingWeightTool, this`events, tools`isSelected, tools`isUpdatingWeight
      ensures Valid()
      ensures FlagsOf() == Tap(old(FlagsOf()), 0)
      ensures Observed() == ObserveTap(Outcome(old(FlagsOf())[0], Pen), tools[0], old(Observed()))
    {
      DidTapTool(0);
    }
  }

  /**
   * Tapping another tool while one is in weight mode clears that tool's flags
   * but leaves `selectedUpdatingWeightTool` pointing at it.
   */
  method StaleWeightTool() returns (stack: ToolsStack)
    ensures stack.Valid()
    ensures !stack.tools[0].isUpdatingWeight && stack.selectedUpdatingWeightTool == stack.tools[0]
  {
    stack := new ToolsStack();
    stack.DidTapTool(0);
    assert stack.FlagsOf()[0] == Flags(true, false);
    stack.DidTapTool(0);
    assert stack.FlagsOf()[0] == Flags(true, true);
    stack.DidTapTool(1);
    assert stack.FlagsOf()[0] == Deselected;
  }
}
