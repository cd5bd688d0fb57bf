/**
 * `loadPropertiesLoayout_fillElements` of the JSON example: each element of
 * a layout array describes one editor (its control, type, name, title and
 * defaults) or a group of further elements. Elements that lack what their
 * control needs are skipped; the others become property-tree items whose
 * values are read from the settings store under the item's property id.
 */
module JsonLayout {
  import opened Common
  import Text
  import opened JsonValue
  import opened JsonStore

  /** `loadPropertiesLoayout_requiredTypes`: which lower-case controls need a type. */
  const RequiredTypes: map<string, bool> :=
    map["group" := false, "checkbox" := false, "spinbox" := true, "lineedit" := false]

  /** `loadPropertiesLoayout_hasType`: whether the control, in any letter case, needs a type. */
  function HasType(control: string): (r: bool)
    ensures r <==> Text.ToLower(control) == "spinbox"
  {
    var l := Text.ToLower(control);
    if l !in RequiredTypes then false else RequiredTypes[l]
  }

  /** `a.compare(b, Qt::CaseInsensitive) == 0` against a lower-case word `b`. */
  predicate Is(a: string, lowerWord: string)
  {
    Text.ToLower(a) == lowerWord
  }

  /** The four strings every element is read for. */
  datatype Element = Element(typeName: string, name: string, title: string, control: string)

  /**
   * The element's strings with their fallbacks: the type defaults to
   * "invalid", the name to the type, the title to the name, the control to
   * the empty string.
   */
  function ReadElement(o: JsonObject): (r: Element)
    ensures Member(o, "type").JString? ==> r.typeName == Member(o, "type").s
    ensures !Member(o, "type").JString? ==> r.typeName == "invalid"
    ensures Member(o, "name").JString? ==> r.name == Member(o, "name").s
    ensures !Member(o, "name").JString? ==> r.name == r.typeName
    ensures Member(o, "title").JString? ==> r.title == Member(o, "title").s
    ensures !Member(o, "title").JString? ==> r.title == r.name
    ensures Member(o, "control").JString? ==> r.control == Member(o, "control").s
    ensures !Member(o, "control").JString? ==> r.control == ""
  {
    var typeName := ToStringOr(Member(o, "type"), "invalid");
    var name := ToStringOr(Member(o, "name"), typeName);
    var title := ToStringOr(Member(o, "title"), name);
    var control := ToStringOr(Member(o, "control"), "");
    Element(typeName, name, title, control)
  }

  /** An element without a control, without a needed type, or without a name adds nothing. */
  predicate Skipped(el: Element)
  {
    || el.control == ""
    || (HasType(el.control) && (el.typeName == "" || el.typeName == "invalid"))
    || el.name == ""
  }

  /** The kind of property a leaf item is created as. */
  datatype Kind = IntKind | DoubleKind | BoolKind | StringKind | EnumKind | FlagKind | SizeKind | PointKind | RectKind

  /** A leaf item before its value is read: its kind, its default value and its attributes. */
  datatype LeafSpec = LeafSpec(kind: Kind, default: Variant, attributes: map<string, Variant>)

  /** The default of each kind is a variant of that kind, so reading it back decodes the right shape. */
  predicate DefaultFits(kind: Kind, default: Variant)
  {
    match kind
    case IntKind => default.VNumber?
    case DoubleKind => default.VInvalid?
    case BoolKind => default.VBool?
    case StringKind => default.VString?
    case EnumKind => default.VNumber?
    case FlagKind => default.VNumber?
    case SizeKind => default.VSize?
    case PointKind => default.VPoint?
    case RectKind => default.VRect?
  }

  /** The names of an enum or flag box: the text of each entry of its `elements` array. */
  function EntryNames(o: JsonObject): (r: Variant)
    ensures r.VList? && |r.items| == |ToArray(Member(o, "elements"))|
    ensures forall i :: 0 <= i < |r.items| ==>
      r.items[i] == VString(VariantText(ToVariant(ToArray(Member(o, "elements"))[i])))
  {
    var entries := ToArray(Member(o, "elements"));
    VList(seq(|entries|, i requires 0 <= i < |entries| => VString(VariantText(ToVariant(entries[i])))))
  }

  /**
   * The leaf a non-group control makes, with the per-control defaults and
   * attributes; `None` for a spin box of another type and for an unknown
   * control. A double or float spin box keeps only its `decimals`
   * attribute, and has no default.
   */
  function LeafSpecOf(el: Element, o: JsonObject): (r: Option<LeafSpec>)
    ensures r.Some? ==> DefaultFits(r.value.kind, r.value.default)
    ensures Is(el.control, "group") ==> r == None
    ensures r.Some? && r.value.kind == IntKind ==>
      && Is(el.control, "spinbox") && Is(el.typeName, "int")
      && r.value.attributes.Keys == {"minimum", "maximum", "singleStep"}
    ensures r.Some? && r.value.kind == StringKind ==>
      && Is(el.control, "lineedit") && "maxlength" in r.value.attributes
      && ("regExp" in r.value.attributes <==> ToStringOr(Member(o, "validator"), "") != "")
  {
    var c := el.control;
    if Is(c, "spinbox") then
      if Is(el.typeName, "int") then
        Some(LeafSpec(IntKind, VNumber(ToInt(Member(o, "value-default"), 0) as int),
          map["minimum" := VNumber(ToInt(Member(o, "value-min"), 0) as int),
              "maximum" := VNumber(ToInt(Member(o, "value-max"), 100) as int),
              "singleStep" := VNumber(ToInt(Member(o, "single-step"), 1) as int)]))
      else if Is(el.typeName, "double") || Is(el.typeName, "float") then
        Some(LeafSpec(DoubleKind, VInvalid, map["decimals" := VNumber(ToInt(Member(o, "decimals"), 1) as int)]))
      else None
    else if Is(c, "checkbox") then
      Some(LeafSpec(BoolKind, VBool(ToBool(Member(o, "value-default"), false)), map[]))
    else if Is(c, "lineedit") then
      var validator := ToStringOr(Member(o, "validator"), "");
      var length := map["maxlength" := VNumber(ToInt(Member(o, "max-length"), -1) as int)];
      Some(LeafSpec(StringKind, VString(ToStringOr(Member(o, "value-default"), "")),
        if validator == "" then length else length["regExp" := VString(validator)]))
    else if Is(c, "combobox") then
      Some(LeafSpec(EnumKind, VNumber(ToInt(Member(o, "value-default"), 0) as int), map["enumNames" := EntryNames(o)]))
    else if Is(c, "flagbox") then
      Some(LeafSpec(FlagKind, VNumber(ToInt(Member(o, "value-default"), 0) as int), map["flagNames" := EntryNames(o)]))
    else if Is(c, "sizebox") then
      Some(LeafSpec(SizeKind, VSize(ObjectToSize(ToObject(Member(o, "value-default")))),
        map["minimum" := VSize(ObjectToSize(ToObject(Member(o, "value-min")))),
            "maximum" := VSize(ObjectToSize(ToObject(Member(o, "value-max"))))]))
    else if Is(c, "pointbox") then
      Some(LeafSpec(PointKind, VPoint(ObjectToPoint(ToObject(Member(o, "value-default")))),
        map["minimum" := VPoint(ObjectToPoint(ToObject(Member(o, "value-min")))),
            "maximum" := VPoint(ObjectToPoint(ToObject(Member(o, "value-max"))))]))
    else if Is(c, "rectbox") then
      Some(LeafSpec(RectKind, VRect(ObjectToRect(ToObject(Member(o, "value-default")))),
        map["minimum" := VRect(ObjectToRect(ToObject(Member(o, "value-min")))),
            "maximum" := VRect(ObjectToRect(ToObject(Member(o, "value-max"))))]))
    else None
  }

  /** The lower-case names of the controls that make a leaf. */
  const Controls: set<string> :=
    {"spinbox", "checkbox", "lineedit", "combobox", "flagbox", "sizebox", "pointbox", "rectbox"}

  /**
   * What each control makes: a spin box a leaf only for the int, double and
   * float types, a check box a bool leaf without attributes, a combo box and
   * a flag box an enum and a flag leaf named by the `elements` array, and a
   * line edit a string leaf (the geometry boxes are `LeafSpecGeometry`, the
   * other controls `LeafSpecUnknown`).
   */
  lemma LeafSpecControls(el: Element, o: JsonObject)
    ensures var r := LeafSpecOf(el, o);
      Is(el.control, "spinbox") ==>
        (r.Some? <==> Is(el.typeName, "int") || Is(el.typeName, "double") || Is(el.typeName, "float"))
    ensures var r := LeafSpecOf(el, o);
      Is(el.control, "spinbox") && !Is(el.typeName, "int") && r.Some? ==>
        r.value.kind == DoubleKind && r.value.attributes.Keys == {"decimals"}
    ensures var r := LeafSpecOf(el, o);
      Is(el.control, "checkbox") ==> r.Some? && r.value.kind == BoolKind && r.value.attributes == map[]
    ensures var r := LeafSpecOf(el, o);
      Is(el.control, "lineedit") ==> r.Some? && r.value.kind == StringKind
    ensures var r := LeafSpecOf(el, o);
      Is(el.control, "combobox") ==>
        r.Some? && r.value.kind == EnumKind && r.value.attributes == map["enumNames" := EntryNames(o)]
    ensures var r := LeafSpecOf(el, o);
      Is(el.control, "flagbox") ==>
        r.Some? && r.value.kind == FlagKind && r.value.attributes == map["flagNames" := EntryNames(o)]
  {
  }

  /** The size, point and rect boxes make leaves of their kind with a minimum and a maximum. */
  lemma LeafSpecGeometry(el: Element, o: JsonObject)
    ensures var r := LeafSpecOf(el, o);
      Is(el.control, "sizebox") ==>
        r.Some? && r.value.kind == SizeKind && r.value.attributes.Keys == {"minimum", "maximum"}
    ensures var r := LeafSpecOf(el, o);
      Is(el.control, "pointbox") ==>
        r.Some? && r.value.kind == PointKind && r.value.attributes.Keys == {"minimum", "maximum"}
    ensures var r := LeafSpecOf(el, o);
      Is(el.control, "rectbox") ==>
        r.Some? && r.value.kind == RectKind && r.value.attributes.Keys == {"minimum", "maximum"}
  {
  }

  /** A control other than the eight known ones makes no leaf. */
  lemma LeafSpecUnknown(el: Element, o: JsonObject)
    requires Text.ToLower(el.control) !in Controls
    ensures LeafSpecOf(el, o) == None
  {
  }

  /** The members a leaf control reads besides the element's strings. */
  const ValueMembers: set<string> :=
    {"value-default", "value-min", "value-max", "single-step", "decimals", "max-length", "validator", "elements"}

  /**
   * The fallbacks of an element that has none of the value members: an int
   * spin box starts at 0 within 0 to 100 in steps of 1, a double one has one
   * decimal, a check box is off, a line edit is empty with no length limit,
   * a combo or flag box has no names and value 0, and the geometry boxes are
   * all zeros.
   */
  lemma LeafSpecFallbacks(el: Element, o: JsonObject)
    requires forall k :: k in ValueMembers ==> k !in o
    ensures Is(el.control, "spinbox") && Is(el.typeName, "int") ==>
      LeafSpecOf(el, o) == Some(LeafSpec(IntKind, VNumber(0),
        map["minimum" := VNumber(0), "maximum" := VNumber(100), "singleStep" := VNumber(1)]))
    ensures Is(el.control, "spinbox") && !Is(el.typeName, "int") && (Is(el.typeName, "double") || Is(el.typeName, "float")) ==>
      LeafSpecOf(el, o) == Some(LeafSpec(DoubleKind, VInvalid, map["decimals" := VNumber(1)]))
    ensures Is(el.control, "checkbox") ==> LeafSpecOf(el, o) == Some(LeafSpec(BoolKind, VBool(false), map[]))
    ensures Is(el.control, "lineedit") ==>
      LeafSpecOf(el, o) == Some(LeafSpec(StringKind, VString(""), map["maxlength" := VNumber(-1)]))
    ensures Is(el.control, "combobox") ==>
      LeafSpecOf(el, o) == Some(LeafSpec(EnumKind, VNumber(0), map["enumNames" := VList([])]))
    ensures Is(el.control, "flagbox") ==>
      LeafSpecOf(el, o) == Some(LeafSpec(FlagKind, VNumber(0), map["flagNames" := VList([])]))
    ensures Is(el.control, "sizebox") ==>
      LeafSpecOf(el, o) == Some(LeafSpec(SizeKind, VSize(Size(0, 0)),
        map["minimum" := VSize(Size(0, 0)), "maximum" := VSize(Size(0, 0))]))
    ensures Is(el.control, "pointbox") ==>
      LeafSpecOf(el, o) == Some(LeafSpec(PointKind, VPoint(Point(0, 0)),
        map["minimum" := VPoint(Point(0, 0)), "maximum" := VPoint(Point(0, 0))]))
    ensures Is(el.control, "rectbox") ==>
      LeafSpecOf(el, o) == Some(LeafSpec(RectKind, VRect(Rect(0, 0, 0, 0)),
        map["minimum" := VRect(Rect(0, 0, 0, 0)), "maximum" := VRect(Rect(0, 0, 0, 0))]))
  {
    assert Member(o, "elements") == JNull;
    assert EntryNames(o) == VList([]);
  }

  /** A node of the property tree the layout builds. */
  datatype Item =
    | Leaf(kind: Kind, title: string, propertyId: string, value: Variant, attributes: map<string, Variant>)
    | Group(title: string, children: seq<Item>)

  /** The `children` array of an element, or nothing. */
  function ChildrenOf(e: Json): (r: seq<Json>)
    ensures r == ToArray(Member(ToObject(e), "children"))
  {
    if e.JObject? && "children" in e.members && e.members["children"].JArray? then e.members["children"].items else []
  }

  /**
   * The items a layout array adds under the groups `tree`, with values read
   * from the document object `root`: each element's items in order.
   */
  function FillSpec(tree: seq<string>, root: JsonObject, elements: seq<Json>): seq<Item>
    decreases elements
  {
    if elements == [] then []
    else FillSpec(tree, root, elements[..|elements| - 1]) + ElementItems(tree, root, elements[|elements| - 1])
  }

  /**
   * The items one element adds: nothing when it is skipped, a group of the
   * children's items (filled one group deeper) when it is a group with
   * children, a leaf read under its property id when its control is known.
   */
  function ElementItems(tree: seq<string>, root: JsonObject, e: Json): seq<Item>
    decreases e
  {
    var el := ReadElement(ToObject(e));
    if Skipped(el) then []
    else if Is(el.control, "group") then
      // `ChildrenOf(e)` written out: Dafny sees the children are part of `e` only this way
      var children := if e.JObject? && "children" in e.members && e.members["children"].JArray? then e.members["children"].items else [];
      if children == [] then []
      else [Group(el.title, FillSpec(tree + [el.name], root, children))]
    else
      match LeafSpecOf(el, ToObject(e))
      case None => []
      case Some(spec) =>
        [Leaf(spec.kind, el.title, PropertyId(tree, el.name), Retrieved(tree, root, el.name, spec.default), spec.attributes)]
  }

  /** The items of a concatenation are the items of each part. */
  lemma {:induction false} FillSpecAppend(tree: seq<string>, root: JsonObject, a: seq<Json>, b: seq<Json>)
    ensures FillSpec(tree, root, a + b) == FillSpec(tree, root, a) + FillSpec(tree, root, b)
    decreases |b|
  {
    if b != [] {
      var b', last := b[..|b| - 1], b[|b| - 1];
      FillSpecAppend(tree, root, a, b');
      var x, y, z := FillSpec(tree, root, a), FillSpec(tree, root, b'), ElementItems(tree, root, last);
      assert FillSpec(tree, root, a + b) == (x + y) + z by {
        assert (a + b)[..|a + b| - 1] == a + b' && (a + b)[|a + b| - 1] == last;
      }
      assert FillSpec(tree, root, b) == y + z;
      assert (x + y) + z == x + (y + z);
    } else {
      assert a + b == a;
    }
  }

  /** An element that adds no items leaves the items of the rest as they were, wherever it stands. */
  lemma NoItemsAddsNothing(tree: seq<string>, root: JsonObject, a: seq<Json>, e: Json, b: seq<Json>)
    requires ElementItems(tree, root, e) == []
    ensures FillSpec(tree, root, a + [e] + b) == FillSpec(tree, root, a + b)
  {
    var front := FillSpec(tree, root, a);
    assert FillSpec(tree, root, a + [e]) == front by {
      assert (a + [e])[..|a|] == a;
    }
    FillSpecAppend(tree, root, a + [e], b);
    FillSpecAppend(tree, root, a, b);
  }

  /** A skipped element adds nothing, wherever it stands. */
  lemma SkippedAddsNothing(tree: seq<string>, root: JsonObject, a: seq<Json>, e: Json, b: seq<Json>)
    requires Skipped(ReadElement(ToObject(e)))
    ensures FillSpec(tree, root, a + [e] + b) == FillSpec(tree, root, a + b)
  {
    NoItemsAddsNothing(tree, root, a, e, b);
  }

  /** A group element whose `children` array is missing or empty adds nothing. */
  lemma EmptyGroupAddsNothing(tree: seq<string>, root: JsonObject, a: seq<Json>, e: Json, b: seq<Json>)
    requires Is(ReadElement(ToObject(e)).control, "group") && ChildrenOf(e) == []
    ensures FillSpec(tree, root, a + [e] + b) == FillSpec(tree, root, a + b)
  {
    NoItemsAddsNothing(tree, root, a, e, b);
  }

  predicate IsPrefix(p: string, s: string)
  {
    |p| <= |s| && s[..|p|] == p
  }

  /** Every leaf, at any depth, has a property id that starts with `prefix`. */
  predicate LeavesUnder(items: seq<Item>, prefix: string)
    decreases items
  {
    forall i :: 0 <= i < |items| ==>
      if items[i].Leaf? then IsPrefix(prefix, items[i].propertyId) else LeavesUnder(items[i].children, prefix)
  }

  lemma {:induction false} LeavesUnderAppend(a: seq<Item>, b: seq<Item>, prefix: string)
    requires LeavesUnder(a, prefix) && LeavesUnder(b, prefix)
    ensures LeavesUnder(a + b, prefix)
  {
    forall i | 0 <= i < |a + b|
      ensures var it := (a + b)[i];
        if it.Leaf? then IsPrefix(prefix, it.propertyId) else LeavesUnder(it.children, prefix)
    {
      if i < |a| {
        assert (a + b)[i] == a[i];
      } else {
        assert (a + b)[i] == b[i - |a|];
      }
    }
  }

  /** A shorter prefix of every leaf id is a prefix too. */
  lemma {:induction false} LeavesUnderWeaken(items: seq<Item>, p: string, q: string)
    requires LeavesUnder(items, q) && IsPrefix(p, q)
    ensures LeavesUnder(items, p)
    decreases items
  {
    forall i | 0 <= i < |items|
      ensures if items[i].Leaf? then IsPrefix(p, items[i].propertyId) else LeavesUnder(items[i].children, p)
    {
      if items[i].Leaf? {
        assert items[i].propertyId[..|q|][..|p|] == items[i].propertyId[..|p|];
      } else {
        LeavesUnderWeaken(items[i].children, p, q);
      }
    }
  }

  /** Every item the layout adds under groups `tree` has an id inside those groups. */
  lemma {:induction false} FillSpecLeavesUnder(tree: seq<string>, root: JsonObject, elements: seq<Json>)
    ensures LeavesUnder(FillSpec(tree, root, elements), GroupPrefix(tree))
    decreases elements
  {
    if elements != [] {
      var init := elements[..|elements| - 1];
      FillSpecLeavesUnder(tree, root, init);
      ElementItemsLeavesUnder(tree, root, elements[|elements| - 1]);
      LeavesUnderAppend(FillSpec(tree, root, init), ElementItems(tree, root, elements[|elements| - 1]), GroupPrefix(tree));
    }
  }

  lemma {:induction false} ElementItemsLeavesUnder(tree: seq<string>, root: JsonObject, e: Json)
    ensures LeavesUnder(ElementItems(tree, root, e), GroupPrefix(tree))
    decreases e
  {
    var el := ReadElement(ToObject(e));
    if !Skipped(el) {
      if Is(el.control, "group") {
        // `ChildrenOf(e)` written out, as in `ElementItems`
        var children := if e.JObject? && "children" in e.members && e.members["children"].JArray? then e.members["children"].items else [];
        if children != [] {
          var sub := FillSpec(tree + [el.name], root, children);
          FillSpecLeavesUnder(tree + [el.name], root, children);
          assert (tree + [el.name])[..|tree|] == tree;
          assert GroupPrefix(tree + [el.name]) == GroupPrefix(tree) + el.name + "/";
          LeavesUnderWeaken(sub, GroupPrefix(tree), GroupPrefix(tree + [el.name]));
          assert LeavesUnder([Group(el.title, sub)], GroupPrefix(tree));
        }
      } else if LeafSpecOf(el, ToObject(e)).Some? {
        var spec := LeafSpecOf(el, ToObject(e)).value;
        var leaf := Leaf(spec.kind, el.title, PropertyId(tree, el.name),
                         Retrieved(tree, root, el.name, spec.default), spec.attributes);
        assert leaf.propertyId == GroupPrefix(tree) + el.name;
        assert IsPrefix(GroupPrefix(tree), leaf.propertyId);
        assert LeavesUnder([leaf], GroupPrefix(tree));
      }
    }
  }

  /**
   * `loadPropertiesLoayout_fillElements`: works on its own copy of the
   * stack and adds the items of each element in order.
   */
  method FillElements(stack: SetupStack, elements: seq<Json>) returns (items: seq<Item>)
    ensures items == FillSpec(stack.setupTree, stack.Root(), elements)
    decreases elements
  {
    var local := new SetupStack.Copy(stack);
    items := [];
    var i := 0;
    while i < |elements|
      invariant 0 <= i <= |elements|
      invariant local.setupTree == stack.setupTree && local.setupCache == stack.setupCache
      invariant items == FillSpec(stack.setupTree, stack.Root(), elements[..i])
    {
      assert elements[..i + 1][..i] == elements[..i] && elements[..i + 1][i] == elements[i];
      var added := ElementItemsOf(local, elements[i]);
      items := items + added;
      i := i + 1;
    }
    assert elements[..i] == elements;
  }

  /**
   * One pass of the loop of `loadPropertiesLoayout_fillElements`: skips an
   * incomplete element, builds one leaf for a known control (its value read
   * under its property id), and for a group with children pushes the group
   * name, fills the group from its children and pops the name again.
   */
  method ElementItemsOf(local: SetupStack, e: Json) returns (added: seq<Item>)
    modifies local
    ensures local.setupTree == old(local.setupTree) && local.setupCache == old(local.setupCache)
    ensures added == ElementItems(local.setupTree, local.Root(), e)
    decreases e
  {
    var o := ToObject(e);
    var el := ReadElement(o);
    added := [];
    if Skipped(el) {
    } else if Is(el.control, "group") {
      // `ChildrenOf(e)` written out, so that the recursive call terminates
      var children := if e.JObject? && "children" in e.members && e.members["children"].JArray? then e.members["children"].items else [];
      if children != [] {
        local.Push(el.name);
        var sub := FillElements(local, children);
        local.Pop();
        added := [Group(el.title, sub)];
      }
    } else {
      var spec := LeafSpecOf(el, o);
      if spec.Some? {
        var value := RetrieveProperty(local, el.name, spec.value.default);
        var id := local.GetPropertyId(el.name);
        added := [Leaf(spec.value.kind, el.title, id, value, spec.value.attributes)];
      }
    }
  }
}
