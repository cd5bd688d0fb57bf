/**
 * The values the JSON settings example moves around: parsed JSON values
 * (`QJsonValue`, with objects as maps from keys to values), the variants the
 * property browser hands over (`QVariant`), the conversions between the two,
 * and the object encodings of rectangles, points and sizes.
 */
module JsonValue {
  import opened Common
  import Text

  /** A parsed JSON value. Numbers are integral in this model. */
  datatype Json =
    | JNull
    | JBool(b: bool)
    | JNumber(n: int)
    | JString(s: string)
    | JArray(items: seq<Json>)
    | JObject(members: map<string, Json>)

  type JsonObject = map<string, Json>

  datatype Size = Size(width: Int32, height: Int32)
  datatype Point = Point(x: Int32, y: Int32)
  datatype Rect = Rect(x: Int32, y: Int32, width: Int32, height: Int32)

  /** A `QVariant` of the kinds the example stores and reads back. */
  datatype Variant =
    | VInvalid
    | VNull
    | VBool(b: bool)
    | VNumber(n: int)
    | VString(s: string)
    | VSize(size: Size)
    | VPoint(point: Point)
    | VRect(rect: Rect)
    | VList(items: seq<Variant>)
    | VMap(entries: map<string, Variant>)

  /**
   * `o[key]` read from an object: the member, or null when the key is
   * missing (a missing member converts like null everywhere it is used).
   */
  function Member(o: JsonObject, key: string): (r: Json)
    ensures key in o ==> r == o[key]
    ensures key !in o ==> r == JNull
  {
    if key in o then o[key] else JNull
  }

  /** `QJsonValue::toInt(d)`: a number within the 32-bit range, otherwise `d`. */
  function ToInt(v: Json, d: Int32): (r: Int32)
    ensures v.JNumber? && -0x8000_0000 <= v.n <= 0x7fff_ffff ==> r as int == v.n
    ensures !(v.JNumber? && -0x8000_0000 <= v.n <= 0x7fff_ffff) ==> r == d
  {
    if v.JNumber? && -0x8000_0000 <= v.n <= 0x7fff_ffff then v.n as Int32 else d
  }

  /** `QJsonValue::toBool(d)`: a boolean, otherwise `d`. */
  function ToBool(v: Json, d: bool): (r: bool)
    ensures v.JBool? ==> r == v.b
    ensures !v.JBool? ==> r == d
  {
    if v.JBool? then v.b else d
  }

  /** `QJsonValue::toString(d)`: a string, otherwise `d`. */
  function ToStringOr(v: Json, d: string): (r: string)
    ensures v.JString? ==> r == v.s
    ensures !v.JString? ==> r == d
  {
    if v.JString? then v.s else d
  }

  /** `QJsonValue::toObject()`: an object's members, otherwise the empty object. */
  function ToObject(v: Json): (r: JsonObject)
    ensures v.JObject? ==> r == v.members
    ensures !v.JObject? ==> r == map[]
  {
    if v.JObject? then v.members else map[]
  }

  /** `QJsonValue::toArray()`: an array's items, otherwise the empty array. */
  function ToArray(v: Json): (r: seq<Json>)
    ensures v.JArray? ==> r == v.items
    ensures !v.JArray? ==> r == []
  {
    if v.JArray? then v.items else []
  }

  /**
   * `QJsonValue::fromVariant`: scalars map to their JSON counterparts, lists
   * and maps element by element; an invalid or null variant, and the
   * geometry kinds (which have no text form), give null.
   */
  function FromVariant(v: Variant): (r: Json)
    decreases v
  {
    match v
    case VInvalid => JNull
    case VNull => JNull
    case VBool(b) => JBool(b)
    case VNumber(n) => JNumber(n)
    case VString(s) => JString(s)
    case VSize(_) => JNull
    case VPoint(_) => JNull
    case VRect(_) => JNull
    case VList(items) => JArray(seq(|items|, i requires 0 <= i < |items| => FromVariant(items[i])))
    case VMap(entries) => JObject(map k | k in entries :: FromVariant(entries[k]))
  }

  /** `QJsonValue::toVariant`: null gives the null variant, the rest their variant counterparts. */
  function ToVariant(j: Json): (r: Variant)
    decreases j
  {
    match j
    case JNull => VNull
    case JBool(b) => VBool(b)
    case JNumber(n) => VNumber(n)
    case JString(s) => VString(s)
    case JArray(items) => VList(seq(|items|, i requires 0 <= i < |items| => ToVariant(items[i])))
    case JObject(members) => VMap(map k | k in members :: ToVariant(members[k]))
  }

  /** The variants `fromVariant` keeps intact: no invalid variant and no geometry anywhere inside. */
  predicate Representable(v: Variant)
    decreases v
  {
    match v
    case VInvalid => false
    case VSize(_) => false
    case VPoint(_) => false
    case VRect(_) => false
    case VList(items) => forall i :: 0 <= i < |items| ==> Representable(items[i])
    case VMap(entries) => forall k :: k in entries ==> Representable(entries[k])
    case _ => true
  }

  /** Every JSON value survives the trip to a variant and back. */
  lemma {:induction false} FromToVariant(j: Json)
    ensures FromVariant(ToVariant(j)) == j
    decreases j
  {
    match j
    case JArray(items) =>
      var back := ToArray(FromVariant(ToVariant(j)));
      forall i | 0 <= i < |items|
        ensures back[i] == items[i]
      {
        FromToVariant(items[i]);
      }
    case JObject(members) =>
      var back := ToObject(FromVariant(ToVariant(j)));
      forall k | k in members
        ensures back[k] == members[k]
      {
        FromToVariant(members[k]);
      }
    case _ =>
  }

  /** A representable variant survives the trip to JSON and back. */
  lemma {:induction false} ToFromVariant(v: Variant)
    requires Representable(v)
    ensures ToVariant(FromVariant(v)) == v
    decreases v
  {
    match v
    case VList(items) =>
      var back := ToVariant(FromVariant(v)).items;
      forall i | 0 <= i < |items|
        ensures back[i] == items[i]
      {
        ToFromVariant(items[i]);
      }
    case VMap(entries) =>
      var back := ToVariant(FromVariant(v)).entries;
      forall k | k in entries
        ensures back[k] == entries[k]
      {
        ToFromVariant(entries[k]);
      }
    case _ =>
  }

  /** `rectToArray`: the rectangle as an object with number members x, y, w and h. */
  function RectToObject(r: Rect): (o: JsonObject)
    ensures o.Keys == {"x", "y", "w", "h"}
  {
    map["x" := JNumber(r.x as int), "y" := JNumber(r.y as int),
        "w" := JNumber(r.width as int), "h" := JNumber(r.height as int)]
  }

  /** `sizeToArray`: the size as an object with number members w and h. */
  function SizeToObject(s: Size): (o: JsonObject)
    ensures o.Keys == {"w", "h"}
  {
    map["w" := JNumber(s.width as int), "h" := JNumber(s.height as int)]
  }

  /** `pointToArray`: the point as an object with number members x and y. */
  function PointToObject(p: Point): (o: JsonObject)
    ensures o.Keys == {"x", "y"}
  {
    map["x" := JNumber(p.x as int), "y" := JNumber(p.y as int)]
  }

  /** The rectangle `retrieve_property` builds from an object; missing members read 0. */
  function ObjectToRect(o: JsonObject): Rect
  {
    Rect(ToInt(Member(o, "x"), 0), ToInt(Member(o, "y"), 0), ToInt(Member(o, "w"), 0), ToInt(Member(o, "h"), 0))
  }

  /** The size `retrieve_property` builds from an object; missing members read 0. */
  function ObjectToSize(o: JsonObject): Size
  {
    Size(ToInt(Member(o, "w"), 0), ToInt(Member(o, "h"), 0))
  }

  /** The point `retrieve_property` builds from an object; missing members read 0. */
  function ObjectToPoint(o: JsonObject): Point
  {
    Point(ToInt(Member(o, "x"), 0), ToInt(Member(o, "y"), 0))
  }

  lemma RectRoundTrip(r: Rect)
    ensures ObjectToRect(RectToObject(r)) == r
  {
  }

  lemma SizeRoundTrip(s: Size)
    ensures ObjectToSize(SizeToObject(s)) == s
  {
  }

  lemma PointRoundTrip(p: Point)
    ensures ObjectToPoint(PointToObject(p)) == p
  {
  }

  /**
   * What `SetupStack::setValue` stores for a variant: geometry as its
   * object encoding, everything else through `fromVariant`.
   */
  function Encode(v: Variant): (j: Json)
    ensures v.VRect? ==> j == JObject(RectToObject(v.rect))
    ensures v.VSize? ==> j == JObject(SizeToObject(v.size))
    ensures v.VPoint? ==> j == JObject(PointToObject(v.point))
    ensures !(v.VRect? || v.VSize? || v.VPoint?) ==> j == FromVariant(v)
  {
    match v
    case VRect(r) => JObject(RectToObject(r))
    case VPoint(p) => JObject(PointToObject(p))
    case VSize(s) => JObject(SizeToObject(s))
    case _ => FromVariant(v)
  }

  /**
   * What `retrieve_property` makes of a stored value, chosen by the kind of
   * the default: geometry is decoded from its object, anything else goes
   * through `toVariant`.
   */
  function Decode(j: Json, default: Variant): (v: Variant)
    ensures default.VSize? ==> v == VSize(ObjectToSize(ToObject(j)))
    ensures default.VPoint? ==> v == VPoint(ObjectToPoint(ToObject(j)))
    ensures default.VRect? ==> v == VRect(ObjectToRect(ToObject(j)))
    ensures !(default.VRect? || default.VSize? || default.VPoint?) ==> v == ToVariant(j)
  {
    match default
    case VSize(_) => VSize(ObjectToSize(ToObject(j)))
    case VPoint(_) => VPoint(ObjectToPoint(ToObject(j)))
    case VRect(_) => VRect(ObjectToRect(ToObject(j)))
    case _ => ToVariant(j)
  }

  /**
   * A stored variant and a default that read it back: geometry under a
   * default of the same kind, any representable variant under a
   * non-geometry default.
   */
  predicate Compatible(v: Variant, default: Variant)
  {
    match default
    case VSize(_) => v.VSize?
    case VPoint(_) => v.VPoint?
    case VRect(_) => v.VRect?
    case _ => Representable(v)
  }

  /** Decoding inverts encoding for every compatible pair. */
  lemma DecodeEncode(v: Variant, default: Variant)
    requires Compatible(v, default)
    ensures Decode(Encode(v), default) == v
  {
    match default
    case VSize(_) => SizeRoundTrip(v.size);
    case VPoint(_) => PointRoundTrip(v.point);
    case VRect(_) => RectRoundTrip(v.rect);
    case _ => ToFromVariant(v);
  }

  /**
   * `QVariant::toString` of a variant read from JSON: strings as they are,
   * numbers in decimal, booleans as "true"/"false", anything else empty.
   */
  function VariantText(v: Variant): (s: string)
    ensures v.VString? ==> s == v.s
    ensures v.VNumber? ==> Text.ParseDecimal(s) == Some(v.n) && Text.CanonicalDecimal(s)
    ensures v.VBool? ==> s == (if v.b then "true" else "false")
    ensures !(v.VString? || v.VNumber? || v.VBool?) ==> s == ""
  {
    match v
    case VString(s) => s
    case VNumber(n) => Text.DecimalRoundTrip(n); Text.DecimalText(n)
    case VBool(b) => if b then "true" else "false"
    case _ => ""
  }
}
