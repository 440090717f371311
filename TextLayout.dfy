// The rect arithmetic of the text layout manager: the background rect of a
// laid-out line, the walk that snaps neighbouring line rects to a common x and
// width when their edges almost line up, and the background option set.

module TextLayout {
  import opened Geometry

  /** `lineHeightPercentageForCornerRadius`. */
  const LineHeightPercentageForCornerRadius: real := 0.13

  /** A `UIEdgeInsets`. */
  datatype Insets = Insets(top: real, left: real, bottom: real, right: real)

  /** `lineBackgroundInset`'s default. */
  const DefaultInset: Insets := Insets(2.0, 12.0, 2.0, 12.0)

  // ---- Background options -------------------------------------------------------

  /** `LineBackgroundOptions`, an option set over a raw `UInt`. */
  datatype LineBackgroundOptions = LineBackgroundOptions(rawValue: bv64)

  const NoOptions: LineBackgroundOptions := LineBackgroundOptions(0)

  /** `.fill`. */
  const FillOption: LineBackgroundOptions := LineBackgroundOptions(1)

  /** `OptionSet.contains`: every bit of the member is set. */
  predicate ContainsOption(options: LineBackgroundOptions, member: LineBackgroundOptions) {
    options.rawValue & member.rawValue == member.rawValue
  }

  /** `drawBackground` fills the line rects only for a non-empty set that contains `.fill`. */
  predicate DrawsBackground(options: LineBackgroundOptions) {
    options.rawValue != 0 && ContainsOption(options, FillOption)
  }

  lemma FillOptionsDraw()
    ensures DrawsBackground(FillOption) && !DrawsBackground(NoOptions)
  {
  }

  // ---- Line rects ---------------------------------------------------------------

  /** One line fragment the layout enumerates: its used rect and what its text is. */
  datatype Fragment = Fragment(usedRect: Rect, isControlCharacter: bool, isBlankCenteredLine: bool)

  /**
   * The background rect of a line: the used rect grown by the insets, raised by
   * the bottom inset as well, and on a blank centred line shifted left by half
   * the used width.
   */
  function LineRect(used: Rect, inset: Insets, blankCentered: bool): Rect {
    var x := used.origin.x - inset.left - (if blankCentered then used.size.width * 0.5 else 0.0);
    Rect(Point(x, used.origin.y - inset.top - inset.bottom),
         Size(used.size.width + inset.left + inset.right, used.size.height + inset.top + inset.bottom))
  }

  /**
   * For a used rect with non-negative size and insets that keep it so, the
   * line rect reaches `left` further left, `right` further right, `top + bottom`
   * higher, and ends exactly where the used rect ends at the bottom.
   */
  lemma LineRectEdges(used: Rect, inset: Insets)
    requires used.size.width >= 0.0 && used.size.height >= 0.0
    requires used.size.width + inset.left + inset.right >= 0.0
    requires used.size.height + inset.top + inset.bottom >= 0.0
    ensures var r := LineRect(used, inset, false);
            && MinX(r) == MinX(used) - inset.left
            && MaxX(r) == MaxX(used) + inset.right
            && MinY(r) == MinY(used) - inset.top - inset.bottom
            && MaxY(r) == MaxY(used)
  {
  }

  /** A blank centred line's rect is the ordinary one moved left by half the used width. */
  lemma BlankCenteredShift(used: Rect, inset: Insets)
    ensures LineRect(used, inset, true).origin.x == LineRect(used, inset, false).origin.x - used.size.width * 0.5
    ensures LineRect(used, inset, true).size == LineRect(used, inset, false).size
    ensures LineRect(used, inset, true).origin.y == LineRect(used, inset, false).origin.y
  {
  }

  /** The rects the enumeration callback appends, control-character lines skipped, in order. */
  function CollectLineRects(fragments: seq<Fragment>, inset: Insets): (r: seq<Rect>)
    ensures |r| <= |fragments|
  {
    if fragments == [] then []
    else
      var rest := CollectLineRects(fragments[..|fragments| - 1], inset);
      var f := fragments[|fragments| - 1];
      if f.isControlCharacter then rest else rest + [LineRect(f.usedRect, inset, f.isBlankCenteredLine)]
  }

  /** Without control-character lines, one rect per fragment, each the line rect of that fragment. */
  lemma {:induction false} CollectEveryLine(fragments: seq<Fragment>, inset: Insets)
    requires forall i :: 0 <= i < |fragments| ==> !fragments[i].isControlCharacter
    ensures |CollectLineRects(fragments, inset)| == |fragments|
    ensures forall i :: 0 <= i < |fragments| ==>
              CollectLineRects(fragments, inset)[i] ==
              LineRect(fragments[i].usedRect, inset, fragments[i].isBlankCenteredLine)
  {
    if fragments != [] {
      CollectEveryLine(fragments[..|fragments| - 1], inset);
    }
  }

  /** The enumeration in `lineRects(forGlyphRange:)`, before the rects are optimized. */
  method EnumerateLineRects(fragments: seq<Fragment>, inset: Insets) returns (rects: seq<Rect>)
    ensures rects == CollectLineRects(fragments, inset)
  {
    rects := [];
    var i := 0;
    while i < |fragments|
      invariant 0 <= i <= |fragments|
      invariant rects == CollectLineRects(fragments[..i], inset)
    {
      assert fragments[..i + 1][..i] == fragments[..i];
      var f := fragments[i];
      if !f.isControlCharacter {
        rects := rects + [LineRect(f.usedRect, inset, f.isBlankCenteredLine)];
      }
      i := i + 1;
    }
    assert fragments[..i] == fragments;
  }

  // ---- Snapping neighbouring line rects -----------------------------------------

  /** The corner radius of the rounded background of a line: a fixed share of its height. */
  function CornerRadius(r: Rect): real {
    r.size.height * LineHeightPercentageForCornerRadius
  }

  /** Half the horizontal step from the previous line's bottom-left corner to this line's top-left corner. */
  function LeftRadius(last: Rect, current: Rect): real {
    (current.origin.x - MinX(last)) * 0.5
  }

  /** Half the horizontal step between the two right edges. */
  function RightRadius(last: Rect, current: Rect): real {
    (MaxX(current) - MaxX(last)) * 0.5
  }

  /** `target` with the x and width of `source`, keeping its own y and height. */
  function Adopt(target: Rect, source: Rect): (r: Rect)
    ensures MinX(r) == MinX(source) && Width(r) == Width(source)
    ensures MinY(r) == MinY(target) && Height(r) == Height(target)
  {
    Rect(Point(MinX(source), MinY(target)), Size(Width(source), Height(target)))
  }

  /** What `processIndex` does at `index`: nothing, fix the current line and go on, or fix the previous line and go back. */
  datatype Move = Stop | Forward | Backward

  function StepKind(s: seq<Rect>, index: int): (m: Move)
    ensures m != Stop ==> 0 < index < |s|
  {
    if !(0 < index < |s|) then Stop
    else
      var last, current := s[index - 1], s[index];
      if !(MaxY(last) >= MinY(current)) then Stop
      else
        var cornerRadius := CornerRadius(current);
        var leftRadius, rightRadius := LeftRadius(last, current), RightRadius(last, current);
        if (leftRadius > 0.0 && Abs(leftRadius) < cornerRadius) || (rightRadius < 0.0 && Abs(rightRadius) < cornerRadius) then
          Forward
        else if (leftRadius < 0.0 && Abs(leftRadius) < cornerRadius) || (rightRadius > 0.0 && Abs(rightRadius) < cornerRadius) then
          Backward
        else Stop
  }

  /**
   * `processIndex(index)`, its recursion cut off after `fuel` nested calls
   * (the source's recursion need not stop: forward and backward steps can
   * alternate).
   */
  function ProcessSeq(s: seq<Rect>, index: int, fuel: nat): (r: seq<Rect>)
    ensures |r| == |s|
    decreases fuel
  {
    if fuel == 0 || StepKind(s, index) == Stop then s
    else ProcessSeq(Step(s, index), NextIndex(s, index), fuel - 1)
  }

  /** The rewrite of one step: the current line takes the previous line's extent, or the other way round. */
  function Step(s: seq<Rect>, index: int): (r: seq<Rect>)
    requires StepKind(s, index) != Stop
    ensures |r| == |s|
  {
    if StepKind(s, index) == Forward then s[index := Adopt(s[index], s[index - 1])]
    else s[index - 1 := Adopt(s[index - 1], s[index])]
  }

  /** Where the recursion goes after a step: on after a forward step, back after a backward one. */
  function NextIndex(s: seq<Rect>, index: int): int
    requires StepKind(s, index) != Stop
  {
    if StepKind(s, index) == Forward then index + 1 else index - 1
  }

  /** The outer loop: `processIndex` for each index from `i` up to the last. */
  function ProcessFrom(s: seq<Rect>, i: nat, fuel: nat): (r: seq<Rect>)
    ensures |r| == |s|
    decreases |s| - i
  {
    if i >= |s| then s else ProcessFrom(ProcessSeq(s, i, fuel), i + 1, fuel)
  }

  /** `optimizeLineRects`: nothing for fewer than two rects, otherwise the walk from index 1. */
  function OptimizeSeq(s: seq<Rect>, fuel: nat): (r: seq<Rect>)
    ensures |r| == |s|
  {
    if |s| <= 1 then s else ProcessFrom(s, 1, fuel)
  }

  /** The horizontal extent of a rect: its standardized x and width. */
  datatype Span = Span(minX: real, width: real)

  function XSpan(r: Rect): Span {
    Span(MinX(r), Width(r))
  }

  /** The vertical extent of a rect: its standardized y and height. */
  datatype Row = Row(minY: real, height: real)

  function RowOf(r: Rect): Row {
    Row(MinY(r), Height(r))
  }

  /** The vertical extents of the rects of `s`, in order. */
  function Rows(s: seq<Rect>): (rows: seq<Row>)
    ensures |rows| == |s|
    ensures forall i :: 0 <= i < |s| ==> rows[i] == RowOf(s[i])
  {
    seq(|s|, i requires 0 <= i < |s| => RowOf(s[i]))
  }

  /** The set of horizontal extents of the rects of `s`. */
  function Spans(s: seq<Rect>): set<Span> {
    set j | 0 <= j < |s| :: XSpan(s[j])
  }

  /** `r` has the rows of `s`, one for one. */
  predicate KeepsRows(s: seq<Rect>, r: seq<Rect>) {
    Rows(r) == Rows(s)
  }

  /** Every horizontal extent in `r` is the extent of some rect of `s`. */
  predicate SpansFrom(s: seq<Rect>, r: seq<Rect>) {
    Spans(r) <= Spans(s)
  }

  /** One snap: the rect at `at` takes the extent of the one at `from`; the rows stay and every extent comes from `s`. */
  lemma AdoptStep(s: seq<Rect>, at: int, from: int)
    requires 0 <= at < |s| && 0 <= from < |s|
    ensures KeepsRows(s, s[at := Adopt(s[at], s[from])])
    ensures SpansFrom(s, s[at := Adopt(s[at], s[from])])
  {
    var t := s[at := Adopt(s[at], s[from])];
    assert Rows(t) == Rows(s);
    forall x | x in Spans(t)
      ensures x in Spans(s)
    {
      var i :| 0 <= i < |t| && x == XSpan(t[i]);
      if i == at {
        assert x == XSpan(s[from]);
      } else {
        assert x == XSpan(s[i]);
      }
    }
  }

  /** A single step keeps the rows and takes its new extent from the array. */
  lemma StepOnlySnaps(s: seq<Rect>, index: int)
    requires StepKind(s, index) != Stop
    ensures KeepsRows(s, Step(s, index)) && SpansFrom(s, Step(s, index))
  {
    if StepKind(s, index) == Forward {
      AdoptStep(s, index, index - 1);
    } else {
      AdoptStep(s, index - 1, index);
    }
  }

  lemma {:induction false} ProcessOnlySnaps(s: seq<Rect>, index: int, fuel: nat)
    ensures KeepsRows(s, ProcessSeq(s, index, fuel))
    ensures SpansFrom(s, ProcessSeq(s, index, fuel))
    decreases fuel
  {
    if fuel > 0 && StepKind(s, index) != Stop {
      var t, next := Step(s, index), NextIndex(s, index);
      StepOnlySnaps(s, index);
      ProcessOnlySnaps(t, next, fuel - 1);
    }
  }

  lemma {:induction false} ProcessFromOnlySnaps(s: seq<Rect>, i: nat, fuel: nat)
    ensures KeepsRows(s, ProcessFrom(s, i, fuel))
    ensures SpansFrom(s, ProcessFrom(s, i, fuel))
    decreases |s| - i
  {
    if i < |s| {
      var t := ProcessSeq(s, i, fuel);
      ProcessOnlySnaps(s, i, fuel);
      ProcessFromOnlySnaps(t, i + 1, fuel);
    }
  }

  /**
   * `optimizeLineRects` keeps the number of rects and every rect's y and
   * height, and every x and width it leaves is one the input already had.
   */
  lemma OptimizeOnlySnaps(s: seq<Rect>, fuel: nat)
    ensures KeepsRows(s, OptimizeSeq(s, fuel))
    ensures SpansFrom(s, OptimizeSeq(s, fuel))
  {
    if |s| > 1 {
      ProcessFromOnlySnaps(s, 1, fuel);
    }
  }

  /** Fewer than two rects are left as they are. */
  lemma ShortUnchanged(s: seq<Rect>, fuel: nat)
    requires |s| < 2
    ensures OptimizeSeq(s, fuel) == s
  {
  }

  /**
   * A step changes something only at an index inside the array whose previous
   * line reaches down to it, with an edge step that is non-zero and, halved,
   * below the corner radius; the forward step then gives the current line the
   * previous line's extent and the backward step the other way round.
   */
  lemma StepConditions(s: seq<Rect>, index: int, fuel: nat)
    requires ProcessSeq(s, index, fuel) != s
    ensures 0 < index < |s| && fuel > 0
    ensures MaxY(s[index - 1]) >= MinY(s[index])
    ensures var cornerRadius := CornerRadius(s[index]);
            var leftRadius, rightRadius := LeftRadius(s[index - 1], s[index]), RightRadius(s[index - 1], s[index]);
            (leftRadius != 0.0 && Abs(leftRadius) < cornerRadius) || (rightRadius != 0.0 && Abs(rightRadius) < cornerRadius)
  {
  }

  /** After a forward step the current line has the previous line's extent; after a backward step the previous line has the current one's. */
  lemma StepAligns(s: seq<Rect>, index: int)
    requires StepKind(s, index) != Stop
    ensures XSpan(Step(s, index)[index]) == XSpan(Step(s, index)[index - 1])
    ensures StepKind(s, index) == Forward ==> Step(s, index)[index - 1] == s[index - 1]
    ensures StepKind(s, index) == Backward ==> Step(s, index)[index] == s[index]
  {
  }

  /** Lines that all share one left edge and one non-negative width are left alone. */
  lemma {:induction false} AlignedUnchanged(s: seq<Rect>, fuel: nat, x: real, w: real)
    requires w >= 0.0
    requires forall i :: 0 <= i < |s| ==> s[i].origin.x == x && s[i].size.width == w
    ensures OptimizeSeq(s, fuel) == s
  {
    if |s| > 1 {
      AlignedFrom(s, 1, fuel, x, w);
    }
  }

  lemma {:induction false} AlignedFrom(s: seq<Rect>, i: nat, fuel: nat, x: real, w: real)
    requires w >= 0.0
    requires forall k :: 0 <= k < |s| ==> s[k].origin.x == x && s[k].size.width == w
    ensures ProcessFrom(s, i, fuel) == s
    decreases |s| - i
  {
    if i < |s| {
      if i > 0 {
        assert MinX(s[i - 1]) == x && MaxX(s[i - 1]) == x + w && MaxX(s[i]) == x + w;
        assert LeftRadius(s[i - 1], s[i]) == 0.0 && RightRadius(s[i - 1], s[i]) == 0.0;
      }
      assert StepKind(s, i) == Stop;
      AlignedFrom(s, i + 1, fuel, x, w);
    }
  }

  /** `processIndex`, in place on the array, recursing as the source does. */
  method ProcessIndex(lineRects: array<Rect>, index: int, fuel: nat)
    modifies lineRects
    ensures lineRects[..] == ProcessSeq(old(lineRects[..]), index, fuel)
    decreases fuel
  {
    if fuel == 0 {
      return;
    }
    if !(index > 0 && index < lineRects.Length) {
      return;
    }
    var lastLineRect := lineRects[index - 1];
    var currentLineRect := lineRects[index];
    if !(MaxY(lastLineRect) >= MinY(currentLineRect)) {
      return;
    }
    var cornerRadius := currentLineRect.size.height * LineHeightPercentageForCornerRadius;
    var leftRadius := (currentLineRect.origin.x - MinX(lastLineRect)) * 0.5;
    var rightRadius := (MaxX(currentLineRect) - MaxX(lastLineRect)) * 0.5;
    if (leftRadius > 0.0 && Abs(leftRadius) < cornerRadius) || (rightRadius < 0.0 && Abs(rightRadius) < cornerRadius) {
      lineRects[index] := Rect(Point(MinX(lastLineRect), MinY(currentLineRect)),
                               Size(Width(lastLineRect), Height(currentLineRect)));
      ProcessIndex(lineRects, index + 1, fuel - 1);
    } else if (leftRadius < 0.0 && Abs(leftRadius) < cornerRadius) || (rightRadius > 0.0 && Abs(rightRadius) < cornerRadius) {
      lineRects[index - 1] := Rect(Point(MinX(currentLineRect), MinY(lastLineRect)),
                                   Size(Width(currentLineRect), Height(lastLineRect)));
      ProcessIndex(lineRects, index - 1, fuel - 1);
    }
  }

  /** `optimizeLineRects`, in place: `processIndex` for every index from 1 to the last. */
  method OptimizeLineRects(lineRects: array<Rect>, fuel: nat)
    modifies lineRects
    ensures lineRects[..] == OptimizeSeq(old(lineRects[..]), fuel)
  {
    if !(lineRects.Length > 1) {
      return;
    }
    for index := 1 to lineRects.Length
      invariant ProcessFrom(lineRects[..], index, fuel) == ProcessFrom(old(lineRects[..]), 1, fuel)
    {
      ProcessIndex(lineRects, index, fuel);
    }
  }
}
