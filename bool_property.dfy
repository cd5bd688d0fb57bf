/**
 * `QtBoolPropertyManager`: every managed property holds a boolean value and
 * a flag saying whether its text is shown next to the check box.
 */
module BoolProperty {
  import opened Common

  datatype Data = Data(val: bool, textVisible: bool)

  /** The record a property gets when it was not managed before. */
  const DefaultData: Data := Data(false, true)

  /** The value texts, untranslated: the program passes "True" and "False" through `tr`. */
  const TrueText: string := "True"
  const FalseText: string := "False"

  /** The notifications the manager emits. */
  datatype Event =
    | ValueChanged(property: Property, value: bool)
    | TextVisibleChanged(property: Property, textVisible: bool)

  /** Reads back the value shown by `valueText` ("True", "False"). */
  function ParseBoolText(s: string): (r: Option<bool>)
    ensures r == Some(true) <==> s == TrueText
    ensures r == Some(false) <==> s == FalseText
    ensures r.None? <==> s != TrueText && s != FalseText
  {
    if s == TrueText then Some(true)
    else if s == FalseText then Some(false)
    else None
  }

  /** `QtBoolPropertyManager`: `values` is `m_values`; `events` records the emitted signals. */
  class BoolPropertyManager {
    var values: map<Property, Data>
    ghost var events: seq<Event>

    constructor ()
      ensures values == map[] && events == []
    {
      values := map[];
      events := [];
    }

    /** `value`: false for a property this manager does not manage. */
    function Value(p: Property): (r: bool)
      reads this
      ensures r <==> p in values && values[p].val
    {
      if p in values then values[p].val else false
    }

    /** `textVisible`: true for a property this manager does not manage. */
    function TextVisible(p: Property): (r: bool)
      reads this
      ensures r <==> p !in values || values[p].textVisible
    {
      if p in values then values[p].textVisible else true
    }

    /** `valueText`: empty when unmanaged, otherwise "True" or "False". */
    function ValueText(p: Property): (r: string)
      reads this
      ensures p !in values <==> r == ""
      ensures p in values ==> ParseBoolText(r) == Some(values[p].val)
    {
      if p !in values then ""
      else if values[p].val then TrueText
      else FalseText
    }

    /** `setValue`: a no-op for an unmanaged property or an unchanged value. */
    method SetValue(p: Property, v: bool)
      modifies this
      ensures p !in old(values) || old(values[p].val) == v ==>
        values == old(values) && events == old(events)
      ensures p in old(values) && old(values[p].val) != v ==>
        && values == old(values)[p := old(values[p]).(val := v)]
        && events == old(events) + [ValueChanged(p, v)]
    {
      if p !in values {
        return;
      }
      var data := values[p];
      if data.val == v {
        return;
      }
      data := data.(val := v);
      values := values[p := data];
      events := events + [ValueChanged(p, data.val)];
    }

    /** `setTextVisible`: a no-op for an unmanaged property or an unchanged flag. */
    method SetTextVisible(p: Property, textVisible: bool)
      modifies this
      ensures p !in old(values) || old(values[p].textVisible) == textVisible ==>
        values == old(values) && events == old(events)
      ensures p in old(values) && old(values[p].textVisible) != textVisible ==>
        && values == old(values)[p := old(values[p]).(textVisible := textVisible)]
        && events == old(events) + [TextVisibleChanged(p, textVisible)]
    {
      if p !in values {
        return;
      }
      var data := values[p];
      if data.textVisible == textVisible {
        return;
      }
      data := data.(textVisible := textVisible);
      values := values[p := data];
      events := events + [TextVisibleChanged(p, data.textVisible)];
    }

    /**
     * `initializeProperty`: the value becomes false; a property that was
     * already managed keeps its text-visible flag, a new one gets the default.
     */
    method InitializeProperty(p: Property)
      modifies this
      ensures p in old(values) ==> values == old(values)[p := old(values[p]).(val := false)]
      ensures p !in old(values) ==> values == old(values)[p := DefaultData]
      ensures events == old(events)
    {
      var data := if p in values then values[p] else DefaultData;
      values := values[p := data.(val := false)];
    }

    /** `uninitializeProperty`: the property is forgotten; it then reads as unmanaged. */
    method UninitializeProperty(p: Property)
      modifies this
      ensures values == old(values) - {p} && events == old(events)
      ensures !Value(p) && TextVisible(p) && ValueText(p) == ""
    {
      values := values - {p};
    }
  }
}
