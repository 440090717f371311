// The colour-picker screen: four sliders hold the colour, text fields mirror
// them as numbers and as a hex code, and a segmented control chooses which of
// the three pickers is shown.

module ColorPicker {
  import opened Wrappers
  import opened Geometry
  import opened Colors
  import opened Decimal

  /** A `UISlider` with range [0, 1]: a value outside the range is stored as the nearer end. */
  function Clamp01(x: real): (r: real)
    ensures InUnitRange(r)
    ensures InUnitRange(x) ==> r == x
    ensures x < 0.0 ==> r == 0.0
    ensures x > 1.0 ==> r == 1.0
  {
    if x < 0.0 then 0.0 else if x > 1.0 then 1.0 else x
  }

  /** `withAlphaComponent`: the alpha replaced, read as a value in [0, 1]. */
  function WithAlpha(c: Rgba, alpha: real): (r: Rgba)
    ensures r.red == c.red && r.green == c.green && r.blue == c.blue && InUnitRange(r.alpha)
  {
    Rgba(c.red, c.green, c.blue, Clamp01(alpha))
  }

  /** The text a component field shows for a slider value: `String(Int(value * 255))`. */
  function SliderText(value: real): string {
    IntString(Trunc(value * 255.0))
  }

  /** The text the opacity field shows for a whole percentage: `"\(value)%"`. */
  function PercentText(value: int): string {
    IntString(value) + "%"
  }

  /** `replacingOccurrences(of: "%", with: "")`. */
  function RemovePercent(s: string): (r: string)
    ensures |r| <= |s|
    ensures forall i :: 0 <= i < |r| ==> r[i] != '%'
    ensures (forall i :: 0 <= i < |s| ==> s[i] != '%') ==> r == s
  {
    if s == [] then [] else (if s[0] == '%' then [] else [s[0]]) + RemovePercent(s[1..])
  }

  /** What typing into a component field makes of the text: `Float(text)` capped at 255, over 255. */
  function ComponentFromText(text: string): (r: Option<real>)
    ensures r.Some? ==> r.value <= 1.0
    ensures r.Some? <==> ParseDecimal(text).Some?
    ensures r.Some? && ParseDecimal(text).value > 255.0 ==> r.value == 1.0
    ensures r.Some? && ParseDecimal(text).value <= 255.0 ==> r.value * 255.0 == ParseDecimal(text).value
  {
    match ParseDecimal(text)
    case None => None
    case Some(number) => Some((if number > 255.0 then 255.0 else number) / 255.0)
  }

  /** The percentage the opacity field settles on when editing ends: the typed `Int`, capped at 100, or 0. */
  function OpacityEndValue(text: string): (v: int)
    ensures v <= 100
    ensures ParseInt(RemovePercent(text)).None? ==> v == 0
    ensures ParseInt(RemovePercent(text)).Some? && ParseInt(RemovePercent(text)).value <= 100 ==>
              v == ParseInt(RemovePercent(text)).value
    ensures ParseInt(RemovePercent(text)).Some? && ParseInt(RemovePercent(text)).value > 100 ==> v == 100
  {
    match ParseInt(RemovePercent(text))
    case None => 0
    case Some(i) => if i > 100 then 100 else i
  }

  /** Typing the whole number `k` of 0..255 into a component field sets the slider to `k / 255`, whose text is `k` again. */
  lemma TypedComponentRoundTrip(k: int)
    requires 0 <= k <= 255
    ensures ComponentFromText(IntString(k)) == Some(k as real / 255.0)
    ensures SliderText(k as real / 255.0) == IntString(k)
  {
    ParseDecimalOfIntString(k);
    assert k as real / 255.0 * 255.0 == k as real;
  }

  /** Ending an opacity edit a second time changes nothing: the settled text reads back as the same percentage. */
  lemma OpacityEndIdempotent(text: string)
    ensures OpacityEndValue(PercentText(OpacityEndValue(text))) == OpacityEndValue(text)
  {
    var v := OpacityEndValue(text);
    var s := IntString(v);
    assert forall i :: 0 <= i < |s| ==> s[i] != '%' by {
      if v < 0 {
        assert forall i :: 1 <= i < |s| ==> s[i] == NatString(-v)[i - 1];
      }
    }
    RemovePercentOfSuffix(s);
    IntStringRoundTrip(v);
  }

  lemma {:induction false} RemovePercentOfSuffix(s: string)
    requires forall i :: 0 <= i < |s| ==> s[i] != '%'
    ensures RemovePercent(s + "%") == s
  {
    if s != [] {
      assert (s + "%")[1..] == s[1..] + "%";
      RemovePercentOfSuffix(s[1..]);
    }
  }

  /** The text fields of the screen. */
  datatype Field = RedField | GreenField | BlueField | OpacityField | HexField

  /** The sliders of the screen. */
  datatype SliderId = RedSlider | GreenSlider | BlueSlider | OpacitySlider

  /**
   * `textView(_:shouldChangeTextIn:replacementText:)`: an edit of the hex field is
   * accepted only when the range lies in the text and the result has at most six
   * characters; every other field accepts every edit.
   */
  function ShouldChangeText(field: Field, current: string, location: nat, length: nat, replacement: string): (accept: bool)
    ensures field != HexField ==> accept
    ensures field == HexField && accept ==> location + length <= |current|
    ensures field == HexField && accept ==> |current[..location] + replacement + current[location + length..]| <= 6
  {
    if field != HexField then true
    else if location + length > |current| then false
    else |current[..location] + replacement + current[location + length..]| <= 6
  }

  /** Every edit the hex field accepts leaves it at six characters or fewer. */
  lemma HexFieldStaysShort(current: string, location: nat, length: nat, replacement: string)
    requires ShouldChangeText(HexField, current, location, length, replacement)
    ensures var updated := current[..location] + replacement + current[location + length..];
            |updated| <= 6 && |updated| == |current| - length + |replacement|
  {
  }

  /** `ColorPickerViewController`, by the state of its controls. */
  class ColorPickerController {
    var red: real
    var green: real
    var blue: real
    var opacity: real
    var redText: string
    var greenText: string
    var blueText: string
    var opacityText: string
    var hexText: string
    /** The colour the current-colour swatch shows. */
    var shownColor: Rgba
    var gridHidden: bool
    var spectrumHidden: bool
    var slidersHidden: bool
    /** The colours handed to the delegate's `didSelectColor`, oldest first. */
    var selections: seq<Rgba>

    ghost predicate Valid()
      reads this
    {
      InUnitRange(red) && InUnitRange(green) && InUnitRange(blue) && InUnitRange(opacity)
    }

    /**
     * The `currentColor` getter: the colour of the four slider values, so
     * every component it reports lies in [0, 1] while the sliders do.
     */
    function CurrentColor(): (c: Rgba)
      reads this
      ensures Valid() ==> IsDisplayable(c) && InUnitRange(c.alpha)
    {
      Rgba(red, green, blue, opacity)
    }

    /** The component fields show the component sliders. */
    predicate ComponentTextsAgree()
      reads this
    {
      redText == SliderText(red) && greenText == SliderText(green) && blueText == SliderText(blue)
    }

    /** The opacity field shows the opacity slider as a whole percentage. */
    predicate OpacityTextAgrees()
      reads this
    {
      opacityText == PercentText(Trunc(opacity * 100.0))
    }

    /** Exactly one of the three pickers is shown. */
    predicate OnePanelShown()
      reads this
    {
      (if gridHidden then 0 else 1) + (if spectrumHidden then 0 else 1) + (if slidersHidden then 0 else 1) == 1
    }

    constructor()
      ensures Valid() && ComponentTextsAgree() && OpacityTextAgrees() && OnePanelShown()
      ensures CurrentColor() == Rgba(0.0, 0.0, 0.0, 1.0) && shownColor == CurrentColor()
      ensures !gridHidden && hexText == "" && selections == []
    {
      red, green, blue, opacity := 0.0, 0.0, 0.0, 1.0;
      redText, greenText, blueText := "0", "0", "0";
      opacityText := "100%";
      hexText := "";
      shownColor := Rgba(0.0, 0.0, 0.0, 1.0);
      gridHidden, spectrumHidden, slidersHidden := false, true, true;
      selections := [];
      assert IntString(100) == "100";
    }

    /** `updateSliders()`, by what it writes to the text fields. */
    method UpdateSliders()
      modifies this`redText, this`greenText, this`blueText
      ensures ComponentTextsAgree()
    {
      redText := SliderText(red);
      greenText := SliderText(green);
      blueText := SliderText(blue);
    }

    /**
     * The `currentColor` setter: the sliders take the components, the swatch the
     * colour, and the component and hex fields are rewritten; the opacity
     * field is not.
     */
    method SetCurrentColor(c: Rgba)
      modifies this`red, this`green, this`blue, this`opacity, this`shownColor,
               this`redText, this`greenText, this`blueText, this`hexText
      ensures Valid() && ComponentTextsAgree()
      ensures CurrentColor() == Rgba(Clamp01(c.red), Clamp01(c.green), Clamp01(c.blue), Clamp01(c.alpha))
      ensures shownColor == c
      ensures IsDisplayable(CurrentColor()) && hexText == ToHexString(CurrentColor())
      ensures IsDisplayable(c) && InUnitRange(c.alpha) ==> CurrentColor() == c
    {
      SetSliderValues(c);
      shownColor := c;
      UpdateSliders();
      UpdateHexTextView();
    }

    /** The first half of the setter: each slider takes its component of `c`. */
    method SetSliderValues(c: Rgba)
      modifies this`red, this`green, this`blue, this`opacity
      ensures Valid()
      ensures CurrentColor() == Rgba(Clamp01(c.red), Clamp01(c.green), Clamp01(c.blue), Clamp01(c.alpha))
    {
      red := Clamp01(c.red);
      green := Clamp01(c.green);
      blue := Clamp01(c.blue);
      opacity := Clamp01(c.alpha);
    }

    /** `updateHexTextView()`. */
    method UpdateHexTextView()
      requires Valid()
      modifies this`hexText
      ensures IsDisplayable(CurrentColor()) && hexText == ToHexString(CurrentColor())
    {
      hexText := ToHexString(CurrentColor());
    }

    /**
     * `didSliderValueChanged(slider:)` after the user has moved `slider` to
     * `value`. The opacity slider rewrites the opacity field; a component
     * slider rebuilds the colour with alpha 1.
     */
    method DidSliderValueChanged(slider: SliderId, value: real)
      requires Valid()
      modifies this`red, this`green, this`blue, this`opacity, this`shownColor,
               this`redText, this`greenText, this`blueText, this`hexText, this`opacityText
      ensures Valid() && ComponentTextsAgree() && hexText == ToHexString(CurrentColor())
      ensures slider == OpacitySlider ==>
                CurrentColor() == Rgba(old(red), old(green), old(blue), Clamp01(value)) && OpacityTextAgrees()
      ensures slider == RedSlider ==> CurrentColor() == Rgba(Clamp01(value), old(green), old(blue), 1.0)
      ensures slider == GreenSlider ==> CurrentColor() == Rgba(old(red), Clamp01(value), old(blue), 1.0)
      ensures slider == BlueSlider ==> CurrentColor() == Rgba(old(red), old(green), Clamp01(value), 1.0)
      ensures slider != OpacitySlider ==> opacityText == old(opacityText)
      ensures shownColor == CurrentColor()
    {
      MoveSlider(slider, value);
      if slider == OpacitySlider {
        SetCurrentColor(WithAlpha(CurrentColor(), opacity));
        opacityText := PercentText(Trunc(opacity * 100.0));
      } else {
        SetCurrentColor(Rgba(red, green, blue, 1.0));
      }
    }

    /** The user drags `slider` to `value`. */
    method MoveSlider(slider: SliderId, value: real)
      modifies this`red, this`green, this`blue, this`opacity
      ensures slider == RedSlider ==> CurrentColor() == old(CurrentColor()).(red := Clamp01(value))
      ensures slider == GreenSlider ==> CurrentColor() == old(CurrentColor()).(green := Clamp01(value))
      ensures slider == BlueSlider ==> CurrentColor() == old(CurrentColor()).(blue := Clamp01(value))
      ensures slider == OpacitySlider ==> CurrentColor() == old(CurrentColor()).(alpha := Clamp01(value))
    {
      match slider
      case RedSlider => red := Clamp01(value);
      case GreenSlider => green := Clamp01(value);
      case BlueSlider => blue := Clamp01(value);
      case OpacitySlider => opacity := Clamp01(value);
    }

    /** The component-slider branch as evidently intended: the colour keeps its opacity, so the opacity field stays true. */
    method DidSliderValueChangedKeepingOpacity(slider: SliderId, value: real)
      requires Valid() && slider != OpacitySlider
      modifies this`red, this`green, this`blue, this`opacity, this`shownColor,
               this`redText, this`greenText, this`blueText, this`hexText
      ensures Valid() && ComponentTextsAgree() && hexText == ToHexString(CurrentColor())
      ensures opacity == old(opacity) && opacityText == old(opacityText)
      ensures old(OpacityTextAgrees()) ==> OpacityTextAgrees()
      ensures slider == RedSlider ==> CurrentColor() == old(CurrentColor()).(red := Clamp01(value))
      ensures slider == GreenSlider ==> CurrentColor() == old(CurrentColor()).(green := Clamp01(value))
      ensures slider == BlueSlider ==> CurrentColor() == old(CurrentColor()).(blue := Clamp01(value))
    {
      MoveSlider(slider, value);
      SetCurrentColor(Rgba(red, green, blue, opacity));
    }

    /** `didControlValueChanged(control:)`: segment 0, 1 or 2 shows the grid, the spectrum or the sliders; any other index changes nothing. */
    method DidControlValueChanged(index: int)
      modifies this`gridHidden, this`spectrumHidden, this`slidersHidden
      ensures 0 <= index <= 2 ==> OnePanelShown()
      ensures index == 0 ==> !gridHidden
      ensures index == 1 ==> !spectrumHidden
      ensures index == 2 ==> !slidersHidden
      ensures !(0 <= index <= 2) ==> gridHidden == old(gridHidden) && spectrumHidden == old(spectrumHidden) &&
                                     slidersHidden == old(slidersHidden)
    {
      if index == 0 {
        gridHidden, spectrumHidden, slidersHidden := false, true, true;
      } else if index == 1 {
        gridHidden, spectrumHidden, slidersHidden := true, false, true;
      } else if index == 2 {
        gridHidden, spectrumHidden, slidersHidden := true, true, false;
      }
    }

    /**
     * `colorPickerTouched`: the touched colour becomes the current colour, so
     * the sliders, the swatch, the component fields and the hex field follow it;
     * the opacity field is left as it was.
     */
    method ColorPickerTouched(color: Rgba)
      modifies this`red, this`green, this`blue, this`opacity, this`shownColor,
               this`redText, this`greenText, this`blueText, this`hexText
      ensures Valid() && ComponentTextsAgree() && shownColor == color
      ensures CurrentColor() == Rgba(Clamp01(color.red), Clamp01(color.green), Clamp01(color.blue), Clamp01(color.alpha))
      ensures IsDisplayable(color) && InUnitRange(color.alpha) ==> CurrentColor() == color
      ensures hexText == ToHexString(CurrentColor()) && opacityText == old(opacityText)
    {
      SetCurrentColor(color);
    }

    /** `close()`: the delegate is handed the current colour. */
    method Close()
      modifies this`selections
      ensures selections == old(selections) + [CurrentColor()]
    {
      selections := selections + [CurrentColor()];
    }

    /** The user's edit leaves `text` in `field`. */
    method SetText(field: Field, text: string)
      modifies this`redText, this`greenText, this`blueText, this`opacityText, this`hexText
      ensures field == RedField ==> redText == text
      ensures field == GreenField ==> greenText == text
      ensures field == BlueField ==> blueText == text
      ensures field == OpacityField ==> opacityText == text
      ensures field == HexField ==> hexText == text
      ensures field != RedField ==> redText == old(redText)
      ensures field != GreenField ==> greenText == old(greenText)
      ensures field != BlueField ==> blueText == old(blueText)
      ensures field != OpacityField ==> opacityText == old(opacityText)
      ensures field != HexField ==> hexText == old(hexText)
    {
      match field
      case RedField => redText := text;
      case GreenField => greenText := text;
      case BlueField => blueText := text;
      case OpacityField => opacityText := text;
      case HexField => hexText := text;
    }

    /**
     * `textViewDidChange(_:)` after the user's edit left `text` in `field`.
     * Hex: the sliders take the parsed colour at full opacity and the
     * component fields follow; the swatch and the hex field are left alone.
     * Opacity: a whole number sets the opacity. Components: a number, capped
     * at 255, sets that slider and the colour is rebuilt.
     */
    method TextViewDidChange(field: Field, text: string)
      requires Valid()
      modifies this`red, this`green, this`blue, this`opacity, this`shownColor,
               this`redText, this`greenText, this`blueText, this`hexText, this`opacityText
      ensures Valid()
      ensures field == HexField ==>
                && CurrentColor() == FromHex(text).(alpha := 1.0)
                && ComponentTextsAgree() && hexText == text
                && shownColor == old(shownColor) && opacityText == old(opacityText)
      ensures field == OpacityField && ParseInt(RemovePercent(text)).Some? ==>
                && CurrentColor() == old(CurrentColor()).(alpha := Clamp01(ParseInt(RemovePercent(text)).value as real / 100.0))
                && ComponentTextsAgree() && opacityText == text
                && shownColor == CurrentColor() && hexText == ToHexString(CurrentColor())
      ensures field != HexField && field != OpacityField && ComponentFromText(text).Some? ==>
                && ComponentTextsAgree()
                && (var v := Clamp01(ComponentFromText(text).value);
                    CurrentColor() == (if field == RedField then old(CurrentColor()).(red := v)
                                       else if field == GreenField then old(CurrentColor()).(green := v)
                                       else old(CurrentColor()).(blue := v)))
                && shownColor == CurrentColor() && hexText == ToHexString(CurrentColor())
                && opacityText == old(opacityText)
      ensures field != HexField && (if field == OpacityField then ParseInt(RemovePercent(text)).None?
                                    else ComponentFromText(text).None?) ==>
                && CurrentColor() == old(CurrentColor()) && shownColor == old(shownColor)
                && redText == (if field == RedField then text else old(redText))
                && greenText == (if field == GreenField then text else old(greenText))
                && blueText == (if field == BlueField then text else old(blueText))
                && opacityText == (if field == OpacityField then text else old(opacityText))
                && hexText == old(hexText)
    {
      SetText(field, text);
      if field == HexField {
        HexDidChange(text);
      } else if field == OpacityField {
        var value := ParseInt(RemovePercent(text));
        if value.Some? {
          OpacityDidChange(value.value);
        }
      } else {
        var number := ComponentFromText(text);
        if number.Some? {
          ComponentDidChange(field, number.value);
        }
      }
    }

    /** The hex branch: the sliders take the parsed colour at full opacity and the component fields follow. */
    method HexDidChange(text: string)
      modifies this`red, this`green, this`blue, this`opacity, this`redText, this`greenText, this`blueText
      ensures Valid() && CurrentColor() == FromHex(text).(alpha := 1.0) && ComponentTextsAgree()
      ensures FromHex(text).alpha == 1.0 ==> CurrentColor() == FromHex(text)
    {
      var color := FromHex(text);
      red, green, blue := color.red, color.green, color.blue;
      opacity := 1.0;
      UpdateSliders();
    }

    /** The opacity branch: the colour takes the typed percentage as its alpha. */
    method OpacityDidChange(percent: int)
      requires Valid()
      modifies this`red, this`green, this`blue, this`opacity, this`shownColor,
               this`redText, this`greenText, this`blueText, this`hexText
      ensures Valid() && ComponentTextsAgree() && opacityText == old(opacityText)
      ensures CurrentColor() == old(CurrentColor()).(alpha := Clamp01(percent as real / 100.0))
      ensures shownColor == CurrentColor() && hexText == ToHexString(CurrentColor())
    {
      SetCurrentColor(WithAlpha(CurrentColor(), percent as real / 100.0));
      opacity := Clamp01(percent as real / 100.0);
    }

    /** The component branch: the field's slider takes `value` and the colour is rebuilt from the sliders. */
    method ComponentDidChange(field: Field, value: real)
      requires Valid() && field != HexField && field != OpacityField
      modifies this`red, this`green, this`blue, this`opacity, this`shownColor,
               this`redText, this`greenText, this`blueText, this`hexText
      ensures Valid() && ComponentTextsAgree() && opacityText == old(opacityText)
      ensures CurrentColor() == (if field == RedField then old(CurrentColor()).(red := Clamp01(value))
                                 else if field == GreenField then old(CurrentColor()).(green := Clamp01(value))
                                 else old(CurrentColor()).(blue := Clamp01(value)))
      ensures shownColor == CurrentColor() && hexText == ToHexString(CurrentColor())
    {
      if field == RedField {
        red := Clamp01(value);
      } else if field == GreenField {
        green := Clamp01(value);
      } else {
        blue := Clamp01(value);
      }
      SetCurrentColor(Rgba(red, green, blue, opacity));
    }

    /**
     * `textViewShouldEndEditing(_:)`: leaving the hex field re-applies the
     * current colour, which rewrites the hex field; leaving the opacity field
     * settles it on a whole percentage of at most 100. Editing always ends.
     */
    method TextViewShouldEndEditing(field: Field) returns (end: bool)
      requires Valid()
      modifies this`red, this`green, this`blue, this`opacity, this`shownColor,
               this`redText, this`greenText, this`blueText, this`hexText, this`opacityText
      ensures end && Valid()
      ensures field == HexField ==>
                CurrentColor() == old(CurrentColor()) && shownColor == old(CurrentColor()) &&
                hexText == ToHexString(CurrentColor()) && ComponentTextsAgree() && opacityText == old(opacityText)
      ensures field == OpacityField ==>
                && opacityText == PercentText(OpacityEndValue(old(opacityText)))
                && CurrentColor() == old(CurrentColor()).(alpha := Clamp01(OpacityEndValue(old(opacityText)) as real / 100.0))
                && shownColor == old(shownColor) && hexText == old(hexText)
      ensures field != HexField ==>
                redText == old(redText) && greenText == old(greenText) && blueText == old(blueText)
      ensures field != HexField && field != OpacityField ==>
                CurrentColor() == old(CurrentColor()) && shownColor == old(shownColor) &&
                opacityText == old(opacityText) && hexText == old(hexText)
    {
      if field == HexField {
        SetCurrentColor(CurrentColor());
      }
      if field == OpacityField {
        var value := OpacityEndValue(opacityText);
        opacityText := PercentText(value);
        opacity := Clamp01(value as real / 100.0);
      }
      end := true;
    }
  }

  /**
   * The as-written component-slider branch: with the opacity at 50%, moving
   * the red slider puts the opacity slider back at 1 while the opacity field
   * still reads "50%".
   */
  method SliderMoveForgetsOpacity() returns (picker: ColorPickerController)
    ensures picker.opacity == 1.0 && picker.opacityText == "50%"
    ensures !picker.OpacityTextAgrees()
  {
    HalfAndFullPercent();
    picker := new ColorPickerController();
    picker.DidSliderValueChanged(OpacitySlider, 0.5);
    picker.DidSliderValueChanged(RedSlider, 0.2);
  }

  lemma HalfAndFullPercent()
    ensures PercentText(Trunc(0.5 * 100.0)) == "50%"
    ensures PercentText(Trunc(1.0 * 100.0)) == "100%"
  {
    assert Trunc(0.5 * 100.0) == 50;
    assert Trunc(1.0 * 100.0) == 100;
    assert NatString(50) == "50";
    assert NatString(100) == "100";
  }
}
