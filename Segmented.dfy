// The custom segmented control: one label per item laid out in a row, a
// thumb behind the selected label, and selection by touching a label.

module Segmented {
  import opened Wrappers
  import opened Geometry
  import opened Colors
  import opened RealArith

  /** A segment's label: its text and its text colour. */
  datatype Label = Label(text: string, textColor: Rgba)

  /** The labels `setupLabels()` creates: the first in the selected colour, the rest in the unselected one. */
  function LabelsFor(items: seq<string>, selected: Rgba, unselected: Rgba): (r: seq<Label>)
    ensures |r| == |items|
    ensures forall i :: 0 <= i < |r| ==> r[i].text == items[i]
    ensures forall i :: 0 <= i < |r| ==> r[i].textColor == if i == 0 then selected else unselected
  {
    seq(|items|, i requires 0 <= i < |items| => Label(items[i], if i == 0 then selected else unselected))
  }

  /** Every label recoloured. */
  function Recolored(labels: seq<Label>, color: Rgba): (r: seq<Label>)
    ensures |r| == |labels|
    ensures forall i :: 0 <= i < |r| ==> r[i] == labels[i].(textColor := color)
  {
    seq(|labels|, i requires 0 <= i < |labels| => labels[i].(textColor := color))
  }

  // ---- Layout and hit testing ---------------------------------------------------

  /**
   * The width the item constraints give every label: `n` equal widths and
   * `n + 1` paddings fill the control's width.
   */
  function LabelWidth(bounds: Rect, n: nat, padding: real): real
    requires n > 0
  {
    (Width(bounds) - (n + 1) as real * padding) / n as real
  }

  /** The frame of label `i` of `n` in the control's own coordinates: inset by the padding on every side, side by side. */
  function LabelFrame(bounds: Rect, n: nat, padding: real, i: nat): Rect
    requires n > 0
  {
    var w := LabelWidth(bounds, n, padding);
    Rect(Point(padding + i as real * (w + padding), padding), Size(w, Height(bounds) - 2.0 * padding))
  }

  function Frames(bounds: Rect, n: nat, padding: real): (r: seq<Rect>)
    requires n > 0
    ensures |r| == n
    ensures forall i :: 0 <= i < n ==> r[i] == LabelFrame(bounds, n, padding, i)
  {
    seq(n, i requires 0 <= i < n => LabelFrame(bounds, n, padding, i))
  }

  /** The index the hit-test loop ends with: the last frame containing the point, if any. */
  function LastHit(frames: seq<Rect>, p: Point): (r: Option<nat>)
    ensures r.Some? ==> r.value < |frames| && Contains(frames[r.value], p)
    ensures r.Some? ==> forall j :: r.value < j < |frames| ==> !Contains(frames[j], p)
    ensures r.None? ==> forall j :: 0 <= j < |frames| ==> !Contains(frames[j], p)
  {
    if frames == [] then None
    else if Contains(frames[|frames| - 1], p) then Some(|frames| - 1)
    else LastHit(frames[..|frames| - 1], p)
  }

  /** With non-negative padding and positive label widths, no point lies in two labels. */
  lemma LabelsDisjoint(bounds: Rect, n: nat, padding: real, i: nat, j: nat, p: Point)
    requires n > 0 && padding >= 0.0 && LabelWidth(bounds, n, padding) > 0.0
    requires i < j
    ensures !(Contains(LabelFrame(bounds, n, padding, i), p) && Contains(LabelFrame(bounds, n, padding, j), p))
  {
    var w := LabelWidth(bounds, n, padding);
    var s := w + padding;
    var gap := j as real - i as real;
    ScaleAtMost(1.0, gap, s);
    ScaledDifference(j as real, i as real, s);
    assert w <= gap * s;
    var fi, fj := LabelFrame(bounds, n, padding, i), LabelFrame(bounds, n, padding, j);
    assert MaxX(fi) == padding + i as real * s + w;
    assert MinX(fj) == padding + j as real * s;
    assert MaxX(fi) <= MinX(fj);
  }

  /** So the hit test finds label `i` exactly when the touch lies in label `i`'s frame. */
  lemma HitIsTheTouchedLabel(bounds: Rect, n: nat, padding: real, p: Point, i: nat)
    requires n > 0 && padding >= 0.0 && LabelWidth(bounds, n, padding) > 0.0 && i < n
    ensures LastHit(Frames(bounds, n, padding), p) == Some(i) <==> Contains(LabelFrame(bounds, n, padding, i), p)
  {
    var frames := Frames(bounds, n, padding);
    var hit := LastHit(frames, p);
    if Contains(frames[i], p) && hit != Some(i) {
      var k := hit.value;
      LabelsDisjoint(bounds, n, padding, i, k, p);
    }
  }

  lemma {:induction false} LastHitPrefix(frames: seq<Rect>, p: Point, k: nat)
    requires k < |frames|
    ensures LastHit(frames[..k + 1], p) == if Contains(frames[k], p) then Some(k) else LastHit(frames[..k], p)
  {
    assert frames[..k + 1][..k] == frames[..k];
  }

  // ---- The control --------------------------------------------------------------

  /** `SegmentedControl`. */
  class SegmentedControl {
    var items: seq<string>
    var labels: seq<Label>
    var selectedIndex: int
    var selectedLabelColor: Rgba
    var unselectedLabelColor: Rgba
    var thumbColor: Rgba
    var padding: real
    var bounds: Rect
    var thumbFrame: Rect
    var thumbBackground: Rgba
    /** How many times `.valueChanged` has been sent. */
    var valueChangedCount: nat

    /** The frames the labels are laid out in. */
    function LabelFrames(): seq<Rect>
      reads this
      requires |labels| > 0
    {
      Frames(bounds, |labels|, padding)
    }

    /** The selected label, and only it, is in the selected colour. */
    predicate ColoredAsSelected()
      reads this
    {
      forall i :: 0 <= i < |labels| ==>
        labels[i].textColor == if i == selectedIndex then selectedLabelColor else unselectedLabelColor
    }

    /** `init(frame:)`: two placeholder items, the first selected, black on white. */
    constructor(frame: Rect)
      ensures items == ["item1", "item2"] && selectedIndex == 0 && padding == 0.0
      ensures selectedLabelColor == Black && unselectedLabelColor == White && thumbColor == White
      ensures labels == LabelsFor(items, Black, White) && ColoredAsSelected()
      ensures bounds == Rect(Point(0.0, 0.0), frame.size) && valueChangedCount == 0
    {
      items := ["item1", "item2"];
      labels := [];
      selectedIndex := 0;
      selectedLabelColor := Black;
      unselectedLabelColor := White;
      thumbColor := White;
      padding := 0.0;
      bounds := Rect(Point(0.0, 0.0), frame.size);
      thumbFrame := Rect(Point(0.0, 0.0), Size(0.0, 0.0));
      thumbBackground := Clear;
      valueChangedCount := 0;
      new;
      SetupLabels();
    }

    /** `setupLabels()`: one label per item; `1 ... items.count` traps on an empty list. */
    method SetupLabels()
      requires |items| > 0
      modifies this`labels
      ensures labels == LabelsFor(items, selectedLabelColor, unselectedLabelColor)
      ensures selectedIndex == 0 ==> ColoredAsSelected()
    {
      labels := [];
      for index := 1 to |items| + 1
        invariant labels == LabelsFor(items[..index - 1], selectedLabelColor, unselectedLabelColor)
      {
        labels := labels + [Label(items[index - 1], if index == 1 then selectedLabelColor else unselectedLabelColor)];
      }
      assert items[..|items|] == items;
    }

    /** The `items` observer: a non-empty list rebuilds the labels. */
    method SetItems(newItems: seq<string>)
      modifies this`items, this`labels
      ensures items == newItems
      ensures |newItems| > 0 ==> labels == LabelsFor(newItems, selectedLabelColor, unselectedLabelColor)
      ensures |newItems| == 0 ==> labels == old(labels)
    {
      items := newItems;
      if |items| > 0 {
        SetupLabels();
      }
    }

    /** `displayNewSelectedIndex()`: every label unselected, then the selected one selected and the thumb moved under it. */
    /** The loop that gives every label the unselected colour. */
    method UnselectAll()
      modifies this`labels
      ensures labels == Recolored(old(labels), unselectedLabelColor)
    {
      ghost var original := labels;
      for index := 0 to |labels|
        invariant |labels| == |original|
        invariant forall k :: 0 <= k < index ==> labels[k] == original[k].(textColor := unselectedLabelColor)
        invariant forall k :: index <= k < |labels| ==> labels[k] == original[k]
      {
        labels := labels[index := labels[index].(textColor := unselectedLabelColor)];
      }
    }

    method DisplayNewSelectedIndex()
      requires 0 <= selectedIndex < |labels|
      modifies this`labels, this`thumbFrame
      ensures |labels| == |old(labels)| && ColoredAsSelected()
      ensures forall i :: 0 <= i < |labels| ==> labels[i].text == old(labels[i].text)
      ensures thumbFrame == LabelFrames()[selectedIndex]
    {
      UnselectAll();
      labels := labels[selectedIndex := labels[selectedIndex].(textColor := selectedLabelColor)];
      thumbFrame := LabelFrame(bounds, |labels|, padding, selectedIndex);
    }

    /**
     * `layoutSubviews()`: with labels present, the selected label is coloured,
     * the thumb placed under it in the thumb colour, and the selection redisplayed;
     * an index past the labels traps there.
     */
    method LayoutSubviews()
      requires |labels| > 0 ==> 0 <= selectedIndex < |labels|
      modifies this`labels, this`thumbFrame, this`thumbBackground
      ensures |labels| == |old(labels)| && ColoredAsSelected()
      ensures forall i :: 0 <= i < |labels| ==> labels[i].text == old(labels[i].text)
      ensures |labels| > 0 ==> thumbFrame == LabelFrames()[selectedIndex] && thumbBackground == thumbColor
      ensures |labels| == 0 ==> thumbFrame == old(thumbFrame) && thumbBackground == old(thumbBackground)
    {
      if |labels| > 0 {
        labels := labels[selectedIndex := labels[selectedIndex].(textColor := selectedLabelColor)];
        thumbFrame := LabelFrame(bounds, |labels|, padding, selectedIndex);
        thumbBackground := thumbColor;
        DisplayNewSelectedIndex();
      }
    }

    /** The `selectedIndex` observer. */
    method SetSelectedIndex(index: int)
      requires 0 <= index < |labels|
      modifies this`selectedIndex, this`labels, this`thumbFrame
      ensures selectedIndex == index && |labels| == |old(labels)| && ColoredAsSelected()
      ensures forall i :: 0 <= i < |labels| ==> labels[i].text == old(labels[i].text)
      ensures thumbFrame == LabelFrames()[index]
    {
      selectedIndex := index;
      DisplayNewSelectedIndex();
    }

    /**
     * `beginTracking(_:with:)`: the last label whose frame contains the touch
     * becomes selected and `.valueChanged` is sent; a touch outside every label
     * changes nothing. Tracking never continues.
     */
    method BeginTracking(location: Point) returns (continueTracking: bool)
      requires |labels| > 0
      modifies this`selectedIndex, this`labels, this`thumbFrame, this`valueChangedCount
      ensures !continueTracking
      ensures var hit := LastHit(old(LabelFrames()), location);
              && (hit.Some? ==>
                    && selectedIndex == hit.value && ColoredAsSelected() && valueChangedCount == old(valueChangedCount) + 1
                    && |labels| == |old(labels)|
                    && (forall i :: 0 <= i < |labels| ==> labels[i].text == old(labels[i].text))
                    && thumbFrame == old(LabelFrames())[hit.value])
              && (hit.None? ==>
                    && selectedIndex == old(selectedIndex) && labels == old(labels) && valueChangedCount == old(valueChangedCount)
                    && thumbFrame == old(thumbFrame))
    {
      var frames := LabelFrames();
      var calculatedIndex: Option<nat> := None;
      for index := 0 to |labels|
        invariant calculatedIndex == LastHit(frames[..index], location)
        invariant unchanged(this)
      {
        LastHitPrefix(frames, location, index);
        if Contains(frames[index], location) {
          calculatedIndex := Some(index);
        }
      }
      assert frames[..|labels|] == frames;
      if calculatedIndex.Some? {
        SetSelectedIndex(calculatedIndex.value);
        valueChangedCount := valueChangedCount + 1;
      }
      continueTracking := false;
    }

    /**
     * `setSelectedColors()` as it should be: every label unselected and the
     * selected label selected, with the thumb in the thumb colour.
     */
    method SetSelectedColors()
      modifies this`labels, this`thumbBackground
      ensures |labels| == |old(labels)| && thumbBackground == thumbColor
      ensures forall i :: 0 <= i < |labels| ==> labels[i].text == old(labels[i].text)
      ensures 0 <= selectedIndex < |labels| ==> ColoredAsSelected()
    {
      UnselectAll();
      if 0 <= selectedIndex < |labels| {
        labels := labels[selectedIndex := labels[selectedIndex].(textColor := selectedLabelColor)];
      }
      thumbBackground := thumbColor;
    }

    /** `setSelectedColors()` as written: it is the first label that gets the selected colour. */
    method SetSelectedColorsAsWritten()
      modifies this`labels, this`thumbBackground
      ensures |labels| == |old(labels)| && thumbBackground == thumbColor
      ensures forall i :: 0 <= i < |labels| ==>
                labels[i] == old(labels[i]).(textColor := if i == 0 then selectedLabelColor else unselectedLabelColor)
    {
      UnselectAll();
      if |labels| > 0 {
        labels := labels[0 := labels[0].(textColor := selectedLabelColor)];
      }
      thumbBackground := thumbColor;
    }

    /**
     * The `selectedLabelColor` observer, recolouring with the corrected `SetSelectedColors`.
     * The source's observer runs `setSelectedColors` as written, which paints
     * label 0 whatever the selected index (`SetSelectedColorsAsWritten`).
     */
    method SetSelectedLabelColor(color: Rgba)
      modifies this`selectedLabelColor, this`labels, this`thumbBackground
      ensures selectedLabelColor == color && |labels| == |old(labels)|
      ensures 0 <= selectedIndex < |labels| ==> ColoredAsSelected()
    {
      selectedLabelColor := color;
      SetSelectedColors();
    }

    /**
     * The `unselectedLabelColor` observer, recolouring with the corrected `SetSelectedColors`.
     * The source's observer runs `setSelectedColors` as written, which paints
     * label 0 whatever the selected index (`SetSelectedColorsAsWritten`).
     */
    method SetUnselectedLabelColor(color: Rgba)
      modifies this`unselectedLabelColor, this`labels, this`thumbBackground
      ensures unselectedLabelColor == color && |labels| == |old(labels)|
      ensures 0 <= selectedIndex < |labels| ==> ColoredAsSelected()
    {
      unselectedLabelColor := color;
      SetSelectedColors();
    }

    /**
     * The `thumbColor` observer, recolouring with the corrected `SetSelectedColors`.
     * The source's observer runs `setSelectedColors` as written, which paints
     * label 0 whatever the selected index (`SetSelectedColorsAsWritten`).
     */
    method SetThumbColor(color: Rgba)
      modifies this`thumbColor, this`labels, this`thumbBackground
      ensures thumbColor == color && thumbBackground == color
      ensures 0 <= selectedIndex < |labels| ==> ColoredAsSelected()
    {
      thumbColor := color;
      SetSelectedColors();
    }

    /** The `padding` observer rebuilds the labels. */
    method SetPadding(value: real)
      requires |items| > 0
      modifies this`padding, this`labels
      ensures padding == value && labels == LabelsFor(items, selectedLabelColor, unselectedLabelColor)
    {
      padding := value;
      SetupLabels();
    }
  }

  /**
   * With the second segment selected, a new selected-label colour as written
   * lands on the first label while the second shows the unselected colour.
   */
  method SelectedColorsAsWrittenMisses() returns (control: SegmentedControl)
    ensures control.selectedIndex == 1 && |control.labels| == 2
    ensures control.labels[0].textColor == control.selectedLabelColor
    ensures control.labels[1].textColor == control.unselectedLabelColor != control.selectedLabelColor
    ensures !control.ColoredAsSelected()
  {
    control := new SegmentedControl(Rect(Point(0.0, 0.0), Size(200.0, 32.0)));
    control.SetSelectedIndex(1);
    control.selectedLabelColor := Rgba(1.0, 0.0, 0.0, 1.0);
    control.SetSelectedColorsAsWritten();
  }
}
