/**
 * `QtIntPropertyManager`: every managed property holds an `int` value, a
 * range `[minVal, maxVal]` that the value is kept inside, and a non-negative
 * single step.
 */
module IntProperty {
  import opened Common
  import Text

  datatype Data = Data(val: Int32, minVal: Int32, maxVal: Int32, singleStep: Int32)
  {
    /** The range is well formed and holds the value. */
    predicate InRange()
    {
      minVal <= val <= maxVal
    }
  }

  /** The record a new property starts with. */
  const DefaultData: Data := Data(0, -IntMax, IntMax, 1)

  /** The notifications the manager emits. */
  datatype Event =
    | ValueChanged(property: Property, value: Int32)
    | RangeChanged(property: Property, minimum: Int32, maximum: Int32)
    | SingleStepChanged(property: Property, step: Int32)

  function Distance(a: Int32, b: Int32): nat
  {
    if a < b then b as int - a as int else a as int - b as int
  }

  /** `qBound(lo, v, hi)`, that is `qMax(lo, qMin(hi, v))`. */
  function Bound(lo: Int32, v: Int32, hi: Int32): (r: Int32)
    ensures r == lo || r == v || r == hi
    ensures lo <= hi ==> lo <= r <= hi
    ensures lo <= v <= hi ==> r == v
    ensures lo <= hi ==> forall x: Int32 :: lo <= x <= hi ==> Distance(r, v) <= Distance(x, v)
  {
    var smaller := if hi < v then hi else v;
    if lo < smaller then smaller else lo
  }

  /**
   * A new minimum: the maximum and the current value move up to it when
   * they are below it.
   */
  function WithMinimum(d: Data, newMin: Int32): (r: Data)
    ensures r.minVal == newMin && r.minVal <= r.maxVal && r.singleStep == d.singleStep
    ensures newMin <= d.maxVal ==> r.maxVal == d.maxVal
    ensures d.maxVal < newMin ==> r.maxVal == newMin
    ensures newMin <= d.val ==> r.val == d.val
    ensures d.val < newMin ==> r.val == newMin
    ensures d.InRange() ==> r.InRange()
  {
    d.(minVal := newMin,
       maxVal := if d.maxVal < newMin then newMin else d.maxVal,
       val := if d.val < newMin then newMin else d.val)
  }

  /**
   * A new maximum: the minimum and the current value move down to it when
   * they are above it.
   */
  function WithMaximum(d: Data, newMax: Int32): (r: Data)
    ensures r.maxVal == newMax && r.minVal <= r.maxVal && r.singleStep == d.singleStep
    ensures d.minVal <= newMax ==> r.minVal == d.minVal
    ensures newMax < d.minVal ==> r.minVal == newMax
    ensures d.val <= newMax ==> r.val == d.val
    ensures newMax < d.val ==> r.val == newMax
    ensures d.InRange() ==> r.InRange()
  {
    d.(maxVal := newMax,
       minVal := if newMax < d.minVal then newMax else d.minVal,
       val := if newMax < d.val then newMax else d.val)
  }

  /**
   * A whole new range, its bounds put in order first: the range becomes
   * exactly `[min(lo, hi), max(lo, hi)]` and the value is moved to the
   * nearest value inside it.
   */
  function WithRange(d: Data, lo: Int32, hi: Int32): (r: Data)
    ensures r.minVal == (if hi < lo then hi else lo)
    ensures r.maxVal == (if hi < lo then lo else hi)
    ensures r.val == Bound(r.minVal, d.val, r.maxVal)
    ensures r.InRange() && r.singleStep == d.singleStep
  {
    var from := if hi < lo then hi else lo;
    var to := if hi < lo then lo else hi;
    WithMaximum(WithMinimum(d, from), to)
  }

  /** `setSingleStep` turns a negative step into 0. */
  function ClampedStep(step: Int32): (r: Int32)
    ensures r >= 0
    ensures step >= 0 ==> r == step
  {
    if step < 0 then 0 else step
  }

  /** `QtIntPropertyManager`: `values` is `m_values`; `events` records the emitted signals. */
  class IntPropertyManager {
    var values: map<Property, Data>
    ghost var events: seq<Event>

    ghost predicate Valid()
      reads this
    {
      forall p :: p in values ==> values[p].InRange() && values[p].singleStep >= 0
    }

    constructor ()
      ensures values == map[] && events == [] && Valid()
    {
      values := map[];
      events := [];
    }

    /** `value`: 0 for a property this manager does not manage. */
    function Value(p: Property): (r: Int32)
      reads this
      ensures p !in values ==> r == 0
      ensures p in values ==> r == values[p].val
    {
      if p in values then values[p].val else 0
    }

    /** `minimum`: 0 for a property this manager does not manage. */
    function Minimum(p: Property): (r: Int32)
      reads this
      ensures p !in values ==> r == 0
      ensures p in values ==> r == values[p].minVal
    {
      if p in values then values[p].minVal else 0
    }

    /** `maximum`: 0 for a property this manager does not manage. */
    function Maximum(p: Property): (r: Int32)
      reads this
      ensures p !in values ==> r == 0
      ensures p in values ==> r == values[p].maxVal
    {
      if p in values then values[p].maxVal else 0
    }

    /** `singleStep`: 0 for a property this manager does not manage. */
    function SingleStep(p: Property): (r: Int32)
      reads this
      ensures p !in values ==> r == 0
      ensures p in values ==> r == values[p].singleStep
    {
      if p in values then values[p].singleStep else 0
    }

    /** `valueText`: empty when unmanaged, otherwise the decimal text of the value. */
    function ValueText(p: Property): (r: string)
      reads this
      ensures p !in values ==> r == ""
      ensures p in values ==> Text.ParseDecimal(r) == Some(values[p].val as int) && Text.CanonicalDecimal(r)
    {
      if p !in values then ""
      else
        Text.DecimalRoundTrip(values[p].val as int);
        Text.DecimalText(values[p].val as int)
    }

    /**
     * `setValue`: stores `v` moved to the nearest value of the property's
     * range; a no-op for an unmanaged property or an unchanged value.
     */
    method SetValue(p: Property, v: Int32)
      modifies this
      ensures p !in old(values) || old(values[p].val) == v ==>
        values == old(values) && events == old(events)
      ensures p in old(values) && old(values[p].val) != v ==>
        values == old(values)[p := old(values[p]).(val := Bound(old(values[p]).minVal, v, old(values[p]).maxVal))]
      ensures events == old(events) + (if Value(p) != old(Value(p)) then [ValueChanged(p, Value(p))] else [])
      ensures old(Valid()) ==> Valid()
    {
      if p !in values {
        return;
      }
      var data := values[p];
      if data.val == v {
        return;
      }
      var oldVal := data.val;
      data := data.(val := Bound(data.minVal, v, data.maxVal));
      values := values[p := data];
      if data.val != oldVal {
        events := events + [ValueChanged(p, data.val)];
      }
    }

    /** Emits `rangeChanged`, then `valueChanged` when the value moved. */
    method StoreRange(p: Property, data: Data)
      requires p in values
      modifies this
      ensures values == old(values)[p := data]
      ensures events == old(events) + [RangeChanged(p, data.minVal, data.maxVal)] +
        (if data.val != old(values[p].val) then [ValueChanged(p, data.val)] else [])
    {
      var oldVal := values[p].val;
      values := values[p := data];
      events := events + [RangeChanged(p, data.minVal, data.maxVal)];
      if data.val != oldVal {
        events := events + [ValueChanged(p, data.val)];
      }
    }

    /**
     * `setMinimum`: moves the minimum, raising the maximum and the value
     * when needed; a no-op for an unmanaged property or an unchanged minimum.
     */
    method SetMinimum(p: Property, minVal: Int32)
      modifies this
      ensures p !in old(values) || old(values[p].minVal) == minVal ==>
        values == old(values) && events == old(events)
      ensures p in old(values) && old(values[p].minVal) != minVal ==>
        && values == old(values)[p := WithMinimum(old(values[p]), minVal)]
        && events == old(events) + [RangeChanged(p, Minimum(p), Maximum(p))] +
             (if Value(p) != old(Value(p)) then [ValueChanged(p, Value(p))] else [])
      ensures old(Valid()) ==> Valid()
    {
      if p !in values {
        return;
      }
      var data := values[p];
      if data.minVal == minVal {
        return;
      }
      StoreRange(p, WithMinimum(data, minVal));
    }

    /**
     * `setMaximum`: moves the maximum, lowering the minimum and the value
     * when needed; a no-op for an unmanaged property or an unchanged maximum.
     */
    method SetMaximum(p: Property, maxVal: Int32)
      modifies this
      ensures p !in old(values) || old(values[p].maxVal) == maxVal ==>
        values == old(values) && events == old(events)
      ensures p in old(values) && old(values[p].maxVal) != maxVal ==>
        && values == old(values)[p := WithMaximum(old(values[p]), maxVal)]
        && events == old(events) + [RangeChanged(p, Minimum(p), Maximum(p))] +
             (if Value(p) != old(Value(p)) then [ValueChanged(p, Value(p))] else [])
      ensures old(Valid()) ==> Valid()
    {
      if p !in values {
        return;
      }
      var data := values[p];
      if data.maxVal == maxVal {
        return;
      }
      StoreRange(p, WithMaximum(data, maxVal));
    }

    /**
     * `setRange`: orders the two bounds, then installs them and moves the
     * value inside; a no-op for an unmanaged property or an unchanged range.
     */
    method SetRange(p: Property, minVal: Int32, maxVal: Int32)
      modifies this
      ensures p !in old(values) ==> values == old(values) && events == old(events)
      ensures p in old(values) ==>
        var r := WithRange(old(values[p]), minVal, maxVal);
        if r.minVal == old(values[p].minVal) && r.maxVal == old(values[p].maxVal) then
          values == old(values) && events == old(events)
        else
          && values == old(values)[p := r]
          && events == old(events) + [RangeChanged(p, r.minVal, r.maxVal)] +
               (if r.val != old(Value(p)) then [ValueChanged(p, r.val)] else [])
      ensures old(Valid()) ==> Valid()
    {
      if p !in values {
        return;
      }
      var fromVal, toVal := minVal, maxVal;
      if toVal < fromVal {
        fromVal, toVal := toVal, fromVal;
      }
      var data := values[p];
      if data.minVal == fromVal && data.maxVal == toVal {
        return;
      }
      StoreRange(p, WithMaximum(WithMinimum(data, fromVal), toVal));
    }

    /**
     * `setSingleStep`: a negative step becomes 0; only the step changes; a
     * no-op for an unmanaged property or an unchanged step.
     */
    method SetSingleStep(p: Property, step: Int32)
      modifies this
      ensures p !in old(values) || old(values[p].singleStep) == ClampedStep(step) ==>
        values == old(values) && events == old(events)
      ensures p in old(values) && old(values[p].singleStep) != ClampedStep(step) ==>
        && values == old(values)[p := old(values[p]).(singleStep := ClampedStep(step))]
        && events == old(events) + [SingleStepChanged(p, ClampedStep(step))]
      ensures old(Valid()) ==> Valid()
    {
      if p !in values {
        return;
      }
      var data := values[p];
      var s := step;
      if s < 0 {
        s := 0;
      }
      if data.singleStep == s {
        return;
      }
      data := data.(singleStep := s);
      values := values[p := data];
      events := events + [SingleStepChanged(p, data.singleStep)];
    }

    /** `initializeProperty`: the property starts from the default record. */
    method InitializeProperty(p: Property)
      modifies this
      ensures values == old(values)[p := DefaultData] && events == old(events)
      ensures old(Valid()) ==> Valid()
    {
      values := values[p := DefaultData];
    }

    /** `uninitializeProperty`: the property is forgotten; it then reads as unmanaged. */
    method UninitializeProperty(p: Property)
      modifies this
      ensures values == old(values) - {p} && events == old(events)
      ensures Value(p) == 0 && Minimum(p) == 0 && Maximum(p) == 0 && SingleStep(p) == 0 && ValueText(p) == ""
      ensures old(Valid()) ==> Valid()
    {
      values := values - {p};
    }
  }
}
