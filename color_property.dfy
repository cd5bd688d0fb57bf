/**
 * `QtColorPropertyManager`, its line-edit editor `QtColorEditWidget` and the
 * editor factory's update of open editors.
 *
 * A color property owns one string sub-property (named "#") that shows the
 * color as hex text. The manager tracks that sub-property in both
 * directions; the string manager's own values are the map `subValues`.
 */
module ColorProperty {
  import opened Common
  import Text
  import EditorFactory

  /**
   * `QColor` restricted to what the model uses: an invalid color or an RGB
   * color with 8-bit channels.
   */
  datatype Color = Color(valid: bool, red: int, green: int, blue: int, alpha: int)

  /** `QColor()`: invalid, channels reading 0 and an opaque alpha. */
  const InvalidColor: Color := Color(false, 0, 0, 0, 255)

  /** `QColor::setRed` and friends on an invalid or RGB color: the color becomes a valid RGB color. */
  function WithRed(c: Color, v: int): Color { c.(valid := true, red := v) }
  function WithGreen(c: Color, v: int): Color { c.(valid := true, green := v) }
  function WithBlue(c: Color, v: int): Color { c.(valid := true, blue := v) }
  function WithAlpha(c: Color, v: int): Color { c.(valid := true, alpha := v) }

  predicate IsHexDigit(c: char)
  {
    '0' <= c <= '9' || 'a' <= c <= 'f' || 'A' <= c <= 'F'
  }

  function HexValue(c: char): (v: int)
    requires IsHexDigit(c)
    ensures 0 <= v < 16
  {
    if '0' <= c <= '9' then c as int - '0' as int
    else if 'a' <= c <= 'f' then c as int - 'a' as int + 10
    else c as int - 'A' as int + 10
  }

  /** The lower-case hex digit of `v`. */
  function HexDigitChar(v: int): (c: char)
    requires 0 <= v < 16
    ensures IsHexDigit(c) && HexValue(c) == v && !Text.IsUpper(c)
  {
    if v < 10 then ('0' as int + v) as char else ('a' as int + v - 10) as char
  }

  /**
   * `s.toInt(nullptr, 16)` on a two-character string: the value of the two
   * hex digits, or 0 when the conversion fails.
   */
  function HexPair(s: string): (r: int)
    requires |s| == 2
    ensures 0 <= r < 256
    ensures !(IsHexDigit(s[0]) && IsHexDigit(s[1])) ==> r == 0
  {
    if IsHexDigit(s[0]) && IsHexDigit(s[1]) then 16 * HexValue(s[0]) + HexValue(s[1]) else 0
  }

  /** A reference rendering of one channel as two lower-case hex digits. */
  function HexByte(v: int): (s: string)
    requires 0 <= v < 256
    ensures |s| == 2 && IsHexDigit(s[0]) && IsHexDigit(s[1])
  {
    [HexDigitChar(v / 16), HexDigitChar(v % 16)]
  }

  /** Reading two hex digits inverts rendering them. */
  lemma HexPairOfHexByte(v: int)
    requires 0 <= v < 256
    ensures HexPair(HexByte(v)) == v
  {
  }

  /** Rendering the value of two hex digits gives them back, in lower case. */
  lemma HexByteOfHexPair(s: string)
    requires |s| == 2 && IsHexDigit(s[0]) && IsHexDigit(s[1])
    ensures HexByte(HexPair(s)) == Text.ToLower(s)
  {
    var v := HexPair(s);
    assert v / 16 == HexValue(s[0]) && v % 16 == HexValue(s[1]);
    HexDigitLower(s[0]);
    HexDigitLower(s[1]);
  }

  lemma HexDigitLower(c: char)
    requires IsHexDigit(c)
    ensures HexDigitChar(HexValue(c)) == Text.LowerChar(c)
  {
  }

  /** Channels that fit a byte each. */
  predicate ByteChannels(c: Color)
  {
    0 <= c.red < 256 && 0 <= c.green < 256 && 0 <= c.blue < 256 && 0 <= c.alpha < 256
  }

  /** A reference `#RRGGBBAA` rendering of a color with byte channels. */
  function RgbaText(c: Color): (s: string)
    requires ByteChannels(c)
    ensures |s| == 9 && s[0] == '#'
  {
    "#" + HexByte(c.red) + HexByte(c.green) + HexByte(c.blue) + HexByte(c.alpha)
  }

  /**
   * The color `editFinished` builds from a line-edit text of at least seven
   * characters: the first character is dropped, the next three pairs give
   * red, green and blue, and a fourth pair, present only when exactly eight
   * characters remain, gives alpha.
   */
  function ParsedColor(text: string, current: Color): (r: Color)
    requires |text| >= 7
    ensures r.valid
    ensures r.red == HexPair(text[1..3]) && r.green == HexPair(text[3..5]) && r.blue == HexPair(text[5..7])
    ensures |text| == 9 ==> r.alpha == HexPair(text[7..9])
    ensures |text| != 9 ==> r.alpha == current.alpha
    ensures 0 <= current.alpha < 256 ==> ByteChannels(r)
  {
    var digits := text[1..];
    assert digits[0..2] == text[1..3] && digits[2..4] == text[3..5] && digits[4..6] == text[5..7];
    var rgb :=
      if |digits| >= 6 then
        WithBlue(WithGreen(WithRed(current, HexPair(digits[0..2])), HexPair(digits[2..4])), HexPair(digits[4..6]))
      else current;
    if |digits| == 8 then WithAlpha(rgb, HexPair(digits[6..8])) else rgb
  }

  /** Parsing the `#RRGGBBAA` text of a color gives the color back, whatever the current color. */
  lemma ParsedRgbaText(c: Color, current: Color)
    requires ByteChannels(c) && c.valid
    ensures ParsedColor(RgbaText(c), current) == c
  {
    var r, g, b, a := HexByte(c.red), HexByte(c.green), HexByte(c.blue), HexByte(c.alpha);
    var t := RgbaText(c);
    assert t == "#" + r + g + b + a;
    assert t[1..3] == r && t[3..5] == g;
    assert t[5..7] == b && t[7..9] == a;
    HexPairOfHexByte(c.red);
    HexPairOfHexByte(c.green);
    HexPairOfHexByte(c.blue);
    HexPairOfHexByte(c.alpha);
  }

  /** A `#RRGGBB` text sets the three color channels and keeps the current alpha. */
  lemma ParsedRgbText(c: Color, current: Color)
    requires ByteChannels(c)
    ensures ParsedColor(RgbaText(c)[..7], current) == c.(valid := true, alpha := current.alpha)
  {
    var r, g, b, a := HexByte(c.red), HexByte(c.green), HexByte(c.blue), HexByte(c.alpha);
    assert RgbaText(c) == "#" + r + g + b + a;
    var t := RgbaText(c)[..7];
    assert t == "#" + r + g + b;
    assert t[1..3] == r && t[3..5] == g && t[5..7] == b;
    HexPairOfHexByte(c.red);
    HexPairOfHexByte(c.green);
    HexPairOfHexByte(c.blue);
  }

  /** The notifications the manager emits. */
  datatype Event = ValueChanged(property: Property, value: Color)

  /**
   * `QtColorPropertyManager`. `values` is `m_values`, `propertyToRgba` is
   * `m_propertyToRgba` (a null entry marks a destroyed sub-property),
   * `rgbaToProperty` is `m_rgbaToProperty`, `subValues` are the string
   * manager's values, `hexText` is `colorHexValueText` and `namedColor` is
   * what `QColor::setNamedColor` makes of a name. `events` records the
   * emitted signals.
   */
  class ColorPropertyManager {
    var values: map<Property, Color>
    var propertyToRgba: map<Property, Property?>
    var rgbaToProperty: map<Property, Property>
    var subValues: map<Property, string>
    const hexText: Color -> string
    const namedColor: string -> Color
    ghost var events: seq<Event>

    /**
     * Every managed property has a sub-property entry; live sub-properties
     * and their parents point at each other; a live sub-property has a text
     * and a managed parent. The text need not be the parent's hex text: a
     * name typed into the sub-property that gives the color already stored
     * stays as typed (`EditSubProperty`).
     */
    ghost predicate Valid()
      reads this
    {
      && propertyToRgba.Keys == values.Keys
      && (forall p :: p in propertyToRgba && propertyToRgba[p] != null ==>
            propertyToRgba[p] in rgbaToProperty && rgbaToProperty[propertyToRgba[p]] == p)
      && (forall s :: s in rgbaToProperty ==>
            rgbaToProperty[s] in propertyToRgba && propertyToRgba[rgbaToProperty[s]] == s)
      && (forall s :: s in rgbaToProperty ==>
            s in subValues && rgbaToProperty[s] in values)
    }

    constructor (hexText: Color -> string, namedColor: string -> Color)
      ensures values == map[] && propertyToRgba == map[] && rgbaToProperty == map[] && subValues == map[]
      ensures this.hexText == hexText && this.namedColor == namedColor && events == []
      ensures Valid()
    {
      values := map[];
      propertyToRgba := map[];
      rgbaToProperty := map[];
      subValues := map[];
      this.hexText := hexText;
      this.namedColor := namedColor;
      events := [];
    }

    /** `value`: the invalid color for a property this manager does not manage. */
    function Value(p: Property): (r: Color)
      reads this
      ensures p !in values ==> r == InvalidColor
      ensures p in values ==> r == values[p]
    {
      if p in values then values[p] else InvalidColor
    }

    /** `valueText`: empty when unmanaged, otherwise the hex text of the value. */
    function ValueText(p: Property): (r: string)
      reads this
      ensures p !in values ==> r == ""
      ensures p in values ==> r == hexText(Value(p))
    {
      if p in values then hexText(values[p]) else ""
    }

    /**
     * `setValue`: a no-op for an unmanaged property or an equal color;
     * otherwise stores the color, writes its hex text into the live
     * sub-property (the lookup inserts a null entry when there is none) and
     * notifies once.
     */
    method SetValue(p: Property, c: Color)
      modifies this
      ensures p !in old(values) || old(values[p]) == c ==>
        && values == old(values) && propertyToRgba == old(propertyToRgba)
        && subValues == old(subValues) && events == old(events)
      ensures p in old(values) && old(values[p]) != c ==>
        && values == old(values)[p := c]
        && propertyToRgba == (if p in old(propertyToRgba) then old(propertyToRgba) else old(propertyToRgba)[p := null])
        && subValues ==
             (if p in old(propertyToRgba) && old(propertyToRgba)[p] != null && old(propertyToRgba)[p] in old(subValues)
              then old(subValues)[old(propertyToRgba)[p] := hexText(c)]
              else old(subValues))
        && events == old(events) + [ValueChanged(p, c)]
      ensures rgbaToProperty == old(rgbaToProperty)
      ensures old(Valid()) ==> Valid()
    {
      if p !in values {
        return;
      }
      if values[p] == c {
        return;
      }
      values := values[p := c];
      if p !in propertyToRgba {
        propertyToRgba := propertyToRgba[p := null];
      }
      var rgba := propertyToRgba[p];
      if rgba != null && rgba in subValues {
        subValues := subValues[rgba := hexText(c)];
      }
      events := events + [ValueChanged(p, c)];
    }

    /**
     * `initializeProperty`: the property starts as the invalid color, and a
     * new string sub-property showing that color's hex text is created and
     * linked to it in both directions.
     */
    method InitializeProperty(p: Property) returns (rgba: Property)
      modifies this
      ensures fresh(rgba)
      ensures values == old(values)[p := InvalidColor]
      ensures subValues == old(subValues)[rgba := hexText(InvalidColor)]
      ensures propertyToRgba == old(propertyToRgba)[p := rgba]
      ensures rgbaToProperty == old(rgbaToProperty)[rgba := p]
      ensures events == old(events)
      ensures old(Valid()) && p !in old(values) ==> Valid()
    {
      values := values[p := InvalidColor];
      rgba := new Property();
      subValues := subValues[rgba := hexText(InvalidColor)];
      propertyToRgba := propertyToRgba[p := rgba];
      rgbaToProperty := rgbaToProperty[rgba := p];
    }

    /**
     * `uninitializeProperty`: the live sub-property, if any, is unlinked and
     * deleted (the string manager forgets it); then the property leaves
     * `propertyToRgba` and `values`.
     */
    method UninitializeProperty(p: Property)
      modifies this
      ensures p in old(propertyToRgba) && old(propertyToRgba)[p] != null ==>
        && rgbaToProperty == old(rgbaToProperty) - {old(propertyToRgba)[p]}
        && subValues == old(subValues) - {old(propertyToRgba)[p]}
      ensures p !in old(propertyToRgba) || old(propertyToRgba)[p] == null ==>
        rgbaToProperty == old(rgbaToProperty) && subValues == old(subValues)
      ensures propertyToRgba == old(propertyToRgba) - {p}
      ensures values == old(values) - {p}
      ensures events == old(events)
      ensures Value(p) == InvalidColor && ValueText(p) == ""
      ensures old(Valid()) ==> Valid()
    {
      if p !in propertyToRgba {
        propertyToRgba := propertyToRgba[p := null];
      }
      var rgba := propertyToRgba[p];
      if rgba != null {
        rgbaToProperty := rgbaToProperty - {rgba};
        subValues := subValues - {rgba};
      }
      propertyToRgba := propertyToRgba - {p};
      values := values - {p};
    }

    /**
     * `slotPropertyDestroyed`: when a live sub-property is destroyed, its
     * parent's entry becomes null and the reverse entry goes; any other
     * handle changes nothing.
     */
    method SlotPropertyDestroyed(s: Property)
      modifies this
      ensures s !in old(rgbaToProperty) ==>
        propertyToRgba == old(propertyToRgba) && rgbaToProperty == old(rgbaToProperty)
      ensures s in old(rgbaToProperty) ==>
        && propertyToRgba == old(propertyToRgba)[old(rgbaToProperty)[s] := null]
        && rgbaToProperty == old(rgbaToProperty) - {s}
      ensures values == old(values) && subValues == old(subValues) && events == old(events)
      ensures old(Valid()) ==> Valid()
    {
      if s in rgbaToProperty {
        var parent := rgbaToProperty[s];
        propertyToRgba := propertyToRgba[parent := null];
        rgbaToProperty := rgbaToProperty - {s};
      }
    }

    /**
     * `slotStringChanged`: text typed into a live sub-property is read as a
     * color name and set on the parent (whose entry the lookup creates, as
     * the invalid color, when missing); any other handle changes nothing.
     * When the named color is the one already stored, `setValue` stops
     * early and the sub-property keeps the text it had before the call.
     */
    method SlotStringChanged(s: Property, text: string)
      modifies this
      ensures s !in old(rgbaToProperty) ==>
        && values == old(values) && propertyToRgba == old(propertyToRgba)
        && subValues == old(subValues) && events == old(events)
      ensures s in old(rgbaToProperty) ==>
        var parent := old(rgbaToProperty)[s];
        var before := if parent in old(values) then old(values)[parent] else InvalidColor;
        var changed := before != namedColor(text);
        && values == old(values)[parent := namedColor(text)]
        && events == old(events) + (if changed then [ValueChanged(parent, namedColor(text))] else [])
        && propertyToRgba ==
             (if changed && parent !in old(propertyToRgba) then old(propertyToRgba)[parent := null] else old(propertyToRgba))
        && subValues ==
             (if changed && parent in old(propertyToRgba) && old(propertyToRgba)[parent] != null
                 && old(propertyToRgba)[parent] in old(subValues)
              then old(subValues)[old(propertyToRgba)[parent] := hexText(namedColor(text))]
              else old(subValues))
      ensures old(Valid()) && s in old(rgbaToProperty) ==>
        var parent := old(rgbaToProperty)[s];
        subValues[s] == (if old(values)[parent] != namedColor(text) then hexText(namedColor(text)) else old(subValues)[s])
      ensures rgbaToProperty == old(rgbaToProperty)
      ensures old(Valid()) ==> Valid()
    {
      if s !in rgbaToProperty {
        return;
      }
      var parent := rgbaToProperty[s];
      if parent !in values {
        values := values[parent := InvalidColor];
      }
      SetValue(parent, namedColor(text));
    }

    /**
     * Text typed into a sub-property: the string manager stores it and, when
     * it differs from the stored text, emits `valueChanged`, which the
     * manager's connection hands to `slotStringChanged`. The sub-property
     * then shows the new color's hex text when the color changed, and the
     * typed text when it did not.
     */
    method EditSubProperty(s: Property, text: string)
      modifies this
      ensures s !in old(subValues) || old(subValues)[s] == text ==>
        && values == old(values) && propertyToRgba == old(propertyToRgba) && rgbaToProperty == old(rgbaToProperty)
        && subValues == old(subValues) && events == old(events)
      ensures old(Valid()) && s in old(rgbaToProperty) && s in old(subValues) && old(subValues)[s] != text ==>
        var parent := old(rgbaToProperty)[s];
        var changed := old(values)[parent] != namedColor(text);
        && values == old(values)[parent := namedColor(text)]
        && s in subValues && subValues[s] == (if changed then hexText(namedColor(text)) else text)
        && events == old(events) + (if changed then [ValueChanged(parent, namedColor(text))] else [])
      ensures rgbaToProperty == old(rgbaToProperty)
      ensures old(Valid()) ==> Valid()
    {
      if s !in subValues || subValues[s] == text {
        return;
      }
      subValues := subValues[s := text];
      SlotStringChanged(s, text);
    }
  }

  /**
   * `QtColorEditWidget`: `color` is `m_color`, `text` is the line edit's
   * text, `hexText` is `colorHexValueText`; `emitted` records the colors
   * sent with `valueChanged`.
   */
  class ColorEditWidget {
    var color: Color
    var text: string
    const hexText: Color -> string
    ghost var emitted: seq<Color>

    constructor (hexText: Color -> string)
      ensures color == InvalidColor && text == hexText(InvalidColor)
      ensures this.hexText == hexText && emitted == []
    {
      color := InvalidColor;
      this.hexText := hexText;
      text := hexText(InvalidColor);
      emitted := [];
    }

    /** `setValue`: a new color is stored and shown as hex text; an equal color changes nothing. */
    method SetValue(c: Color)
      modifies this
      ensures color == c
      ensures text == if old(color) == c then old(text) else hexText(c)
      ensures emitted == old(emitted)
    {
      if color != c {
        color := c;
        text := hexText(c);
      }
    }

    /**
     * `editFinished`: a text shorter than seven characters is replaced by
     * the hex text of the current color; otherwise the parsed color is
     * taken, and sent, only when it is valid and differs from the current
     * one.
     */
    method EditFinished()
      modifies this
      ensures |old(text)| < 7 ==> color == old(color) && text == hexText(old(color)) && emitted == old(emitted)
      ensures |old(text)| >= 7 ==>
        var n := ParsedColor(old(text), old(color));
        if n.valid && n != old(color) then
          color == n && text == hexText(n) && emitted == old(emitted) + [n]
        else
          color == old(color) && text == old(text) && emitted == old(emitted)
    {
      if |text| < 7 {
        text := hexText(color);
        return;
      }
      var newRgba := ParsedColor(text, color);
      if newRgba.valid && newRgba != color {
        SetValue(newRgba);
        emitted := emitted + [color];
      }
    }
  }

  /**
   * `QtColorEditorFactory`: `registry` is its `EditorFactoryPrivate` over
   * color edit widgets.
   */
  class ColorEditorFactory {
    const registry: EditorFactory.EditorFactoryPrivate<ColorEditWidget>
    const hexText: Color -> string

    constructor (hexText: Color -> string)
      ensures fresh(registry) && registry.createdEditors == map[] && registry.editorToProperty == map[]
      ensures registry.Valid() && this.hexText == hexText
    {
      registry := new EditorFactory.EditorFactoryPrivate<ColorEditWidget>();
      this.hexText := hexText;
    }

    /**
     * `slotPropertyChanged`: every editor open on the property is set to
     * the new color; nothing happens for a property without editors.
     */
    method SlotPropertyChanged(p: Property, c: Color)
      modifies if p in registry.createdEditors then set e | e in registry.createdEditors[p] else {}
      ensures p in registry.createdEditors ==>
        forall e :: e in registry.createdEditors[p] ==>
          && e.color == c
          && e.text == (if old(e.color) == c then old(e.text) else e.hexText(c))
          && e.emitted == old(e.emitted)
    {
      if p !in registry.createdEditors {
        return;
      }
      var editors := registry.createdEditors[p];
      var i := 0;
      while i < |editors|
        invariant 0 <= i <= |editors|
        invariant forall e :: e in editors[..i] ==>
          && e.color == c
          && e.text == (if old(e.color) == c then old(e.text) else e.hexText(c))
          && e.emitted == old(e.emitted)
        invariant forall e :: e in editors && e !in editors[..i] ==> unchanged(e)
      {
        var editor := editors[i];
        editor.SetValue(c);
        assert editors[..i + 1] == editors[..i] + [editor];
        i := i + 1;
      }
      assert editors[..i] == editors;
    }

    /**
     * `createEditor`: a new widget is registered for the property as
     * `initializeEditor` does and shows the manager's current value.
     */
    method CreateEditor(manager: ColorPropertyManager, p: Property) returns (editor: ColorEditWidget)
      modifies registry
      ensures fresh(editor)
      ensures registry.createdEditors == old(registry.createdEditors)[p :=
        (if p in old(registry.createdEditors) then old(registry.createdEditors)[p] else []) + [editor]]
      ensures registry.editorToProperty == old(registry.editorToProperty)[editor := p]
      ensures editor.color == manager.Value(p) && editor.emitted == []
      ensures editor.text == hexText(manager.Value(p))
      ensures old(registry.Valid()) ==> registry.Valid()
    {
      editor := new ColorEditWidget(hexText);
      registry.InitializeEditor(p, editor);
      editor.SetValue(manager.Value(p));
    }
  }
}
