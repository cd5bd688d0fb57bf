/**
 * `QtDateTimePropertyManager`: every managed property holds a date and time,
 * with no range.
 */
module DateTimeProperty {
  import opened Common

  /** `QDateTime`: the null date-time, or an instant in milliseconds since the epoch. */
  datatype DateTime = NullDateTime | DateTime(msecsSinceEpoch: int)

  /** The notifications the manager emits. */
  datatype Event = ValueChanged(property: Property, value: DateTime)

  /**
   * `QtDateTimePropertyManager`: `values` is `m_values`, `format` renders a
   * date-time as `m_format` makes `QDateTime::toString` do; `events` records
   * the emitted signals.
   */
  class DateTimePropertyManager {
    var values: map<Property, DateTime>
    const format: DateTime -> string
    ghost var events: seq<Event>

    constructor (format: DateTime -> string)
      ensures values == map[] && events == [] && this.format == format
    {
      values := map[];
      this.format := format;
      events := [];
    }

    /** `value`: the null date-time for a property this manager does not manage. */
    function Value(p: Property): (r: DateTime)
      reads this
      ensures p !in values ==> r == NullDateTime
      ensures p in values ==> r == values[p]
    {
      if p in values then values[p] else NullDateTime
    }

    /** `valueText`: empty when unmanaged, otherwise the value in the manager's format. */
    function ValueText(p: Property): (r: string)
      reads this
      ensures p !in values ==> r == ""
      ensures p in values ==> r == format(Value(p))
    {
      if p in values then format(values[p]) else ""
    }

    /** `setValue`: a no-op for an unmanaged property or an unchanged value. */
    method SetValue(p: Property, v: DateTime)
      modifies this
      ensures p !in old(values) || old(values[p]) == v ==>
        values == old(values) && events == old(events)
      ensures p in old(values) && old(values[p]) != v ==>
        && values == old(values)[p := v]
        && events == old(events) + [ValueChanged(p, v)]
    {
      if p !in values {
        return;
      }
      if values[p] == v {
        return;
      }
      values := values[p := v];
      events := events + [ValueChanged(p, v)];
    }

    /** `initializeProperty`: the property starts at the current date-time `now`. */
    method InitializeProperty(p: Property, now: DateTime)
      modifies this
      ensures values == old(values)[p := now] && events == old(events)
    {
      values := values[p := now];
    }

    /** `uninitializeProperty`: the property is forgotten; it then reads as unmanaged. */
    method UninitializeProperty(p: Property)
      modifies this
      ensures values == old(values) - {p} && events == old(events)
      ensures Value(p) == NullDateTime && ValueText(p) == ""
    {
      values := values - {p};
    }
  }
}
