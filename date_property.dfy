/**
 * `QtDatePropertyManager`: every managed property holds a date and a range
 * `[minVal, maxVal]` of dates the value is kept inside.
 */
module DateProperty {
  import opened Common

  /**
   * `QDate`: the null date, or a calendar date. Dates compare by their day
   * number, which for calendar dates is the order of (year, month, day); the
   * null date carries the smallest day number and so lies below every date.
   */
  datatype Date = NullDate | Date(year: int, month: int, day: int)

  /** `QDate::operator<`. */
  predicate Less(a: Date, b: Date)
  {
    match (a, b)
    case (NullDate, NullDate) => false
    case (NullDate, Date(_, _, _)) => true
    case (Date(_, _, _), NullDate) => false
    case (Date(y1, m1, d1), Date(y2, m2, d2)) =>
      y1 < y2 || (y1 == y2 && (m1 < m2 || (m1 == m2 && d1 < d2)))
  }

  predicate LessEq(a: Date, b: Date)
  {
    Less(a, b) || a == b
  }

  /** `Less` is a strict total order, so `qMin`, `qMax` and `qBound` behave as on numbers. */
  lemma LessIsStrictTotalOrder(a: Date, b: Date, c: Date)
    ensures !Less(a, a)
    ensures Less(a, b) ==> !Less(b, a)
    ensures Less(a, b) && Less(b, c) ==> Less(a, c)
    ensures Less(a, b) || a == b || Less(b, a)
  {
  }

  /** `qMin`: `a < b ? a : b`. */
  function MinDate(a: Date, b: Date): (r: Date)
    ensures r == a || r == b
    ensures LessEq(r, a) && LessEq(r, b)
  {
    LessIsStrictTotalOrder(a, b, a);
    if Less(a, b) then a else b
  }

  /** `qMax`: `a < b ? b : a`. */
  function MaxDate(a: Date, b: Date): (r: Date)
    ensures r == a || r == b
    ensures LessEq(a, r) && LessEq(b, r)
  {
    LessIsStrictTotalOrder(a, b, a);
    if Less(a, b) then b else a
  }

  /** `qBound(lo, v, hi)`, that is `qMax(lo, qMin(hi, v))`. */
  function BoundDate(lo: Date, v: Date, hi: Date): (r: Date)
    ensures r == lo || r == v || r == hi
    ensures LessEq(lo, hi) ==> LessEq(lo, r) && LessEq(r, hi)
    ensures LessEq(lo, v) && LessEq(v, hi) ==> r == v
    ensures LessEq(lo, hi) && Less(v, lo) ==> r == lo
    ensures LessEq(lo, hi) && Less(hi, v) ==> r == hi
  {
    LessIsStrictTotalOrder(lo, v, hi);
    LessIsStrictTotalOrder(hi, v, lo);
    LessIsStrictTotalOrder(v, lo, hi);
    LessIsStrictTotalOrder(lo, hi, v);
    MaxDate(lo, MinDate(hi, v))
  }

  datatype Data = Data(val: Date, minVal: Date, maxVal: Date)
  {
    /** The range is well formed and holds the value. */
    predicate InRange()
    {
      LessEq(minVal, val) && LessEq(val, maxVal)
    }
  }

  /** The first and last dates of a new property's range. */
  const DefaultMinimum: Date := Date(1752, 9, 14)
  const DefaultMaximum: Date := Date(7999, 12, 31)

  /** The record a new property starts with: `today` and the default range. */
  function DefaultData(today: Date): (r: Data)
    ensures r.val == today && r.minVal == DefaultMinimum && r.maxVal == DefaultMaximum
    ensures r.InRange() <==> LessEq(DefaultMinimum, today) && LessEq(today, DefaultMaximum)
  {
    Data(today, DefaultMinimum, DefaultMaximum)
  }

  /** A new minimum: the maximum and the value move up to it when they are below it. */
  function WithMinimum(d: Data, newMin: Date): (r: Data)
    ensures r.minVal == newMin && LessEq(r.minVal, r.maxVal)
    ensures r.maxVal == (if Less(d.maxVal, newMin) then newMin else d.maxVal)
    ensures r.val == (if Less(d.val, newMin) then newMin else d.val)
    ensures d.InRange() ==> r.InRange()
  {
    LessIsStrictTotalOrder(newMin, d.maxVal, d.val);
    LessIsStrictTotalOrder(d.minVal, d.val, d.maxVal);
    LessIsStrictTotalOrder(d.val, newMin, d.maxVal);
    LessIsStrictTotalOrder(newMin, d.val, d.maxVal);
    d.(minVal := newMin,
       maxVal := if Less(d.maxVal, newMin) then newMin else d.maxVal,
       val := if Less(d.val, newMin) then newMin else d.val)
  }

  /** A new maximum: the minimum and the value move down to it when they are above it. */
  function WithMaximum(d: Data, newMax: Date): (r: Data)
    ensures r.maxVal == newMax && LessEq(r.minVal, r.maxVal)
    ensures r.minVal == (if Less(newMax, d.minVal) then newMax else d.minVal)
    ensures r.val == (if Less(newMax, d.val) then newMax else d.val)
    ensures d.InRange() ==> r.InRange()
  {
    LessIsStrictTotalOrder(d.minVal, newMax, d.val);
    LessIsStrictTotalOrder(d.minVal, d.val, d.maxVal);
    LessIsStrictTotalOrder(d.minVal, d.val, newMax);
    LessIsStrictTotalOrder(d.val, newMax, d.minVal);
    d.(maxVal := newMax,
       minVal := if Less(newMax, d.minVal) then newMax else d.minVal,
       val := if Less(newMax, d.val) then newMax else d.val)
  }

  /**
   * A whole new range, its bounds put in order first: the range becomes
   * exactly the ordered pair and the value is bounded into it.
   */
  function WithRange(d: Data, lo: Date, hi: Date): (r: Data)
    ensures r.minVal == MinDate(lo, hi) && r.maxVal == MaxDate(lo, hi)
    ensures r.val == BoundDate(r.minVal, d.val, r.maxVal)
    ensures r.InRange()
  {
    LessIsStrictTotalOrder(lo, hi, lo);
    var from := if Less(hi, lo) then hi else lo;
    var to := if Less(hi, lo) then lo else hi;
    var r := WithMaximum(WithMinimum(d, from), to);
    LessIsStrictTotalOrder(from, d.val, to);
    LessIsStrictTotalOrder(d.val, from, to);
    LessIsStrictTotalOrder(from, to, d.val);
    r
  }

  /** The notifications the manager emits. */
  datatype Event =
    | ValueChanged(property: Property, value: Date)
    | RangeChanged(property: Property, minimum: Date, maximum: Date)

  /**
   * `QtDatePropertyManager`: `values` is `m_values`, `format` renders a date
   * as `m_format` makes `QDate::toString` do; `events` records the emitted
   * signals.
   */
  class DatePropertyManager {
    var values: map<Property, Data>
    const format: Date -> string
    ghost var events: seq<Event>

    ghost predicate Valid()
      reads this
    {
      forall p :: p in values ==> values[p].InRange()
    }

    constructor (format: Date -> string)
      ensures values == map[] && events == [] && this.format == format && Valid()
    {
      values := map[];
      this.format := format;
      events := [];
    }

    /** `value`: the null date for a property this manager does not manage. */
    function Value(p: Property): (r: Date)
      reads this
      ensures p !in values ==> r == NullDate
      ensures p in values ==> r == values[p].val
    {
      if p in values then values[p].val else NullDate
    }

    /** `minimum`: the null date for a property this manager does not manage. */
    function Minimum(p: Property): (r: Date)
      reads this
      ensures p !in values ==> r == NullDate
      ensures p in values ==> r == values[p].minVal
    {
      if p in values then values[p].minVal else NullDate
    }

    /** `maximum`: the null date for a property this manager does not manage. */
    function Maximum(p: Property): (r: Date)
      reads this
      ensures p !in values ==> r == NullDate
      ensures p in values ==> r == values[p].maxVal
    {
      if p in values then values[p].maxVal else NullDate
    }

    /** `valueText`: empty when unmanaged, otherwise the value in the manager's format. */
    function ValueText(p: Property): (r: string)
      reads this
      ensures p !in values ==> r == ""
      ensures p in values ==> r == format(Value(p))
    {
      if p in values then format(values[p].val) else ""
    }

    /**
     * `setValue`: stores `v` bounded into the property's range; a no-op for
     * an unmanaged property or an unchanged value.
     */
    method SetValue(p: Property, v: Date)
      modifies this
      ensures p !in old(values) || old(values[p].val) == v ==>
        values == old(values) && events == old(events)
      ensures p in old(values) && old(values[p].val) != v ==>
        values == old(values)[p := old(values[p]).(val := BoundDate(old(values[p]).minVal, v, old(values[p]).maxVal))]
      ensures events == old(events) + (if Value(p) != old(Value(p)) then [ValueChanged(p, Value(p))] else [])
      ensures old(Valid()) ==> Valid()
    {
      if p !in values {
        return;
      }
      var data := values[p];
      if data.val == v {
        return;
      }
      var oldVal := data.val;
      data := data.(val := BoundDate(data.minVal, v, data.maxVal));
      values := values[p := data];
      if data.val != oldVal {
        events := events + [ValueChanged(p, data.val)];
      }
    }

    /** Emits `rangeChanged`, then `valueChanged` when the value moved. */
    method StoreRange(p: Property, data: Data)
      requires p in values
      modifies this
      ensures values == old(values)[p := data]
      ensures events == old(events) + [RangeChanged(p, data.minVal, data.maxVal)] +
        (if data.val != old(values[p].val) then [ValueChanged(p, data.val)] else [])
    {
      var oldVal := values[p].val;
      values := values[p := data];
      events := events + [RangeChanged(p, data.minVal, data.maxVal)];
      if data.val != oldVal {
        events := events + [ValueChanged(p, data.val)];
      }
    }

    /** `setMinimum`: a no-op for an unmanaged property or an unchanged minimum. */
    method SetMinimum(p: Property, minVal: Date)
      modifies this
      ensures p !in old(values) || old(values[p].minVal) == minVal ==>
        values == old(values) && events == old(events)
      ensures p in old(values) && old(values[p].minVal) != minVal ==>
        && values == old(values)[p := WithMinimum(old(values[p]), minVal)]
        && events == old(events) + [RangeChanged(p, Minimum(p), Maximum(p))] +
             (if Value(p) != old(Value(p)) then [ValueChanged(p, Value(p))] else [])
      ensures old(Valid()) ==> Valid()
    {
      if p !in values {
        return;
      }
      var data := values[p];
      if data.minVal == minVal {
        return;
      }
      StoreRange(p, WithMinimum(data, minVal));
    }

    /** `setMaximum`: a no-op for an unmanaged property or an unchanged maximum. */
    method SetMaximum(p: Property, maxVal: Date)
      modifies this
      ensures p !in old(values) || old(values[p].maxVal) == maxVal ==>
        values == old(values) && events == old(events)
      ensures p in old(values) && old(values[p].maxVal) != maxVal ==>
        && values == old(values)[p := WithMaximum(old(values[p]), maxVal)]
        && events == old(events) + [RangeChanged(p, Minimum(p), Maximum(p))] +
             (if Value(p) != old(Value(p)) then [ValueChanged(p, Value(p))] else [])
      ensures old(Valid()) ==> Valid()
    {
      if p !in values {
        return;
      }
      var data := values[p];
      if data.maxVal == maxVal {
        return;
      }
      StoreRange(p, WithMaximum(data, maxVal));
    }

    /**
     * `setRange`: orders the two bounds, then installs them and bounds the
     * value; a no-op for an unmanaged property or an unchanged range.
     */
    method SetRange(p: Property, minVal: Date, maxVal: Date)
      modifies this
      ensures p !in old(values) ==> values == old(values) && events == old(events)
      ensures p in old(values) ==>
        var r := WithRange(old(values[p]), minVal, maxVal);
        if r.minVal == old(values[p].minVal) && r.maxVal == old(values[p].maxVal) then
          values == old(values) && events == old(events)
        else
          && values == old(values)[p := r]
          && events == old(events) + [RangeChanged(p, r.minVal, r.maxVal)] +
               (if r.val != old(Value(p)) then [ValueChanged(p, r.val)] else [])
      ensures old(Valid()) ==> Valid()
    {
      if p !in values {
        return;
      }
      var fromVal, toVal := minVal, maxVal;
      if Less(toVal, fromVal) {
        fromVal, toVal := toVal, fromVal;
      }
      var data := values[p];
      if data.minVal == fromVal && data.maxVal == toVal {
        return;
      }
      StoreRange(p, WithMaximum(WithMinimum(data, fromVal), toVal));
    }

    /** `initializeProperty`: the property starts from `today` and the default range. */
    method InitializeProperty(p: Property, today: Date)
      modifies this
      ensures values == old(values)[p := DefaultData(today)] && events == old(events)
      ensures old(Valid()) && LessEq(DefaultMinimum, today) && LessEq(today, DefaultMaximum) ==> Valid()
    {
      values := values[p := DefaultData(today)];
    }

    /** `uninitializeProperty`: the property is forgotten; it then reads as unmanaged. */
    method UninitializeProperty(p: Property)
      modifies this
      ensures values == old(values) - {p} && events == old(events)
      ensures Value(p) == NullDate && Minimum(p) == NullDate && Maximum(p) == NullDate && ValueText(p) == ""
      ensures old(Valid()) ==> Valid()
    {
      values := values - {p};
    }
  }
}
