# QtPropertyBrowser core, modelled in Dafny

This project models the parts of QtPropertyBrowser that are ordinary
sequential data-structure code.

- **The editor registry** (`EditorFactoryPrivate`). Two maps are kept in step: each property to the list of editors open on it, and each editor to its property.
- **Five property managers**: int, bool, date, datetime and color.
  - Each is a class over a map from opaque property handles to a record.
  - Emitted signals are appended to a ghost event log, so "notifies only on a real change" is part of each contract.
  - The int and date managers keep their value inside `[minimum, maximum]`.
  - The color manager also keeps a two-way link to the string sub-property that shows the color as hex text.
- **The color editor**: its line-edit widget parses `#RRGGBB` and `#RRGGBBAA` text, and its factory pushes a new value into every open editor.
- **The JSON settings store** of the `json` example:
  - the stack of group names and the property ids built from it;
  - the path-wise write into a nested JSON document, and the read back with a default;
  - the object encodings of rectangles, points and sizes;
  - the element rules of the layout loader.

## Modules

| file | module | contents |
|---|---|---|
| `common.dfy` | `Common` | property handles (a class, so handles have identity), a 32-bit `Int32`, `Option` |
| `text.dfy` | `Text` | ASCII lower-casing; decimal rendering of integers and its inverse |
| `editor_factory.dfy` | `EditorFactory` | `EditorFactoryPrivate` and `QList::removeAll` |
| `int_property.dfy` | `IntProperty` | `QtIntPropertyManager` |
| `bool_property.dfy` | `BoolProperty` | `QtBoolPropertyManager` |
| `date_property.dfy` | `DateProperty` | `QDate` ordering and `QtDatePropertyManager` |
| `datetime_property.dfy` | `DateTimeProperty` | `QtDateTimePropertyManager` |
| `color_property.dfy` | `ColorProperty` | `QtColorPropertyManager`, `QtColorEditWidget`, `QtColorEditorFactory` |
| `json_value.dfy` | `JsonValue` | JSON values, variants and the conversions between them |
| `json_store.dfy` | `JsonStore` | property ids, `SetupStack`, `retrieve_property` |
| `json_layout.dfy` | `JsonLayout` | `loadPropertiesLoayout_hasType` and `loadPropertiesLoayout_fillElements` |

Each class's stateful operations are methods. Their `ensures` give the whole new state and event log in terms of the old one.

The registry and the int, date and color managers also have a `Valid()` invariant:
- the int manager keeps `min <= val <= max` and a step that is not negative;
- the date manager keeps its value inside its range;
- the color manager keeps its links to the sub-properties consistent, and every live sub-property has a text and a managed parent (the text is not always the parent's hex text, see `EditSubProperty`);
- the registry keeps its two maps in step.

Most methods keep it unconditionally (`old(Valid()) ==> Valid()`). Some keep it only under a condition, stated in their row:
- the registry's `InitializeEditor`, for an editor that is not registered yet;
- the date manager's `InitializeProperty`, when today lies in the default range;
- the color manager's `InitializeProperty`, for a new property.

The bool and datetime managers have no invariant beyond their map.

Pure specification functions carry the meaning:
- `Bound` is the nearest value inside a range.
- `WithMinimum`, `WithMaximum` and `WithRange` give the record after a bound moves.
- `ParsedColor` is the color a text commits to.
- `PutPath` and `LookupPath` are the path-wise write and read.
- `ElementItems` is the items one layout element adds.
- `Retrieved` is the value a read returns.
- `FillSpec` is the items a layout produces.

The round trips are proved as lemmas:
- decimal text → integer;
- hex text → color;
- JSON → variant, and back;
- rectangle, point and size → JSON object;
- write then read of a property.

## Model

| member | source | states |
|---|---|---|
| EditorFactory.RemoveAll | src/editor_factory_private.hpp:65 | `removeAll` leaves no occurrence of the editor and keeps every other element with its multiplicity |
| EditorFactory.EditorFactoryPrivate.RegisteredIff | src/editor_factory_private.hpp:46-73 | under the registry invariant, an editor maps to a property exactly when that property's list holds it |
| EditorFactory.EditorFactoryPrivate.InitializeEditor | src/editor_factory_private.hpp:46-54 | the editor is appended to the property's list, which is created as `[editor]` when missing; the editor maps to the property; other lists are unchanged; registering a fresh editor keeps the invariant |
| EditorFactory.Forget | src/editor_factory_private.hpp:62-70 | taking an editor out of one property's list never adds a property and leaves every other property's list as it was |
| EditorFactory.ForgetConsistent | src/editor_factory_private.hpp:56-74 | taking a registered editor out of its property's list (erasing the list when it empties) and out of the reverse map keeps the two maps consistent and no list empty |
| EditorFactory.EditorFactoryPrivate.SlotEditorDestroyed | src/editor_factory_private.hpp:56-74 | an unknown object changes nothing; a known editor is removed everywhere from its property's list (`Forget`), the list is erased when it becomes empty, and the editor is forgotten; the invariant, including "no empty list", is kept |
| IntProperty.Bound | src/managers/int_property.cpp:170-188 | the bounded value is inside the range, equals the input when that is already inside, and is no farther from the input than any value of the range |
| IntProperty.WithMinimum | src/managers/int_property.cpp:190-206 | the new minimum is installed; the maximum and the value are raised to it only when below it; `min <= val <= max` is kept |
| IntProperty.WithMaximum | src/managers/int_property.cpp:208-224 | the new maximum is installed; the minimum and the value are lowered to it only when above it; `min <= val <= max` is kept |
| IntProperty.WithRange | src/managers/int_property.cpp:226-248 | the range becomes the ordered pair of the two bounds and the value is its nearest value inside that range |
| IntProperty.ClampedStep | src/managers/int_property.cpp:265-266 | a negative step becomes 0, any other step is kept |
| IntProperty.IntPropertyManager.Value | src/managers/int_property.cpp:122-125 | the stored value, 0 when unmanaged |
| IntProperty.IntPropertyManager.Minimum | src/managers/int_property.cpp:132-135 | the stored minimum, 0 when unmanaged |
| IntProperty.IntPropertyManager.Maximum | src/managers/int_property.cpp:142-145 | the stored maximum, 0 when unmanaged |
| IntProperty.IntPropertyManager.SingleStep | src/managers/int_property.cpp:154-157 | the stored step, 0 when unmanaged |
| IntProperty.IntPropertyManager.ValueText | src/managers/int_property.cpp:162-168 | empty when unmanaged; otherwise the canonical decimal text of the value (no leading zero except "0" itself, no "-0"), which reads back as the value |
| Text.DecimalRoundTrip | src/managers/int_property.cpp:162-168 | the decimal text of any integer is canonical and reads back as that integer |
| Text.CanonicalParse | src/managers/int_property.cpp:162-168 | a canonical decimal text is the decimal text of the integer it reads as, so each value has exactly one text |
| IntProperty.IntPropertyManager.SetValue | src/managers/int_property.cpp:181-188 | a no-op when unmanaged or equal; otherwise only the value changes, to the bounded value; one notification exactly when the stored value moved |
| IntProperty.IntPropertyManager.SetMinimum | src/managers/int_property.cpp:199-206 | a no-op when unmanaged or unchanged; otherwise the record becomes `WithMinimum`, a range notification is emitted, then a value notification if the value moved |
| IntProperty.IntPropertyManager.SetMaximum | src/managers/int_property.cpp:217-224 | as `SetMinimum`, with `WithMaximum` |
| IntProperty.IntPropertyManager.SetRange | src/managers/int_property.cpp:240-248 | a no-op when unmanaged or when the ordered bounds equal the current range; otherwise the record becomes `WithRange`, with the same notifications |
| IntProperty.IntPropertyManager.SetSingleStep | src/managers/int_property.cpp:257-276 | a no-op when unmanaged or when the clamped step is unchanged; otherwise only the step changes, with one notification |
| IntProperty.IntPropertyManager.InitializeProperty | src/managers/int_property.cpp:281-284 | the property starts from value 0, range `[-INT_MAX, INT_MAX]` and step 1 (line 28) |
| IntProperty.IntPropertyManager.UninitializeProperty | src/managers/int_property.cpp:289-292 | only that entry goes; afterwards every getter returns 0 and the text is empty |
| BoolProperty.ParseBoolText | src/managers/bool_property.cpp:118-127 | reference reader for the value text: "True" and "False" and nothing else, in both directions |
| BoolProperty.BoolPropertyManager.TextVisible | src/managers/bool_property.cpp:82-85 | true exactly when unmanaged or when the stored flag is set |
| BoolProperty.BoolPropertyManager.Value | src/managers/bool_property.cpp:95-98 | true exactly when managed and the stored value is true |
| BoolProperty.BoolPropertyManager.SetTextVisible | src/managers/bool_property.cpp:100-113 | a no-op when unmanaged or equal; otherwise only the flag changes, with one notification |
| BoolProperty.BoolPropertyManager.ValueText | src/managers/bool_property.cpp:118-127 | empty exactly when unmanaged; otherwise a text that reads back as the value |
| BoolProperty.BoolPropertyManager.SetValue | src/managers/bool_property.cpp:181-193 | a no-op when unmanaged or equal; otherwise only the value changes, the flag is kept, with one notification |
| BoolProperty.BoolPropertyManager.InitializeProperty | src/managers/bool_property.cpp:198-201 | a new entry is `(false, textVisible = true)` (line 31); an existing entry keeps its flag and only its value is reset to false |
| BoolProperty.BoolPropertyManager.UninitializeProperty | src/managers/bool_property.cpp:206-209 | only that entry goes; it then reads false, text visible, empty text |
| DateProperty.LessIsStrictTotalOrder | src/managers/date_property.cpp:34-35 | date comparison, with the null date lowest, is irreflexive, asymmetric, transitive and total |
| DateProperty.MinDate | src/managers/date_property.cpp:229-238 | one of the two dates, no greater than either |
| DateProperty.MaxDate | src/managers/date_property.cpp:229-238 | one of the two dates, no smaller than either |
| DateProperty.BoundDate | src/managers/date_property.cpp:159-177 | in a well-formed range the bounded date is inside it: the input itself when already inside, the minimum when the input is below, the maximum when it is above |
| DateProperty.DefaultData | src/managers/date_property.cpp:34-35 | a new record holds today and the range `[1752-09-14, 7999-12-31]`; it is in range exactly when today is |
| DateProperty.WithMinimum | src/managers/date_property.cpp:179-195 | the new minimum is installed; the maximum and the value are raised to it only when below it; the range invariant is kept |
| DateProperty.WithMaximum | src/managers/date_property.cpp:197-213 | the new maximum is installed; the minimum and the value are lowered to it only when above it; the range invariant is kept |
| DateProperty.WithRange | src/managers/date_property.cpp:215-238 | the range becomes the smaller and the larger of the two dates, and the value is bounded into it |
| DateProperty.DatePropertyManager.Value | src/managers/date_property.cpp:123-126 | the stored date, the null date when unmanaged |
| DateProperty.DatePropertyManager.Minimum | src/managers/date_property.cpp:133-136 | the stored minimum, the null date when unmanaged |
| DateProperty.DatePropertyManager.Maximum | src/managers/date_property.cpp:143-146 | the stored maximum, the null date when unmanaged |
| DateProperty.DatePropertyManager.ValueText | src/managers/date_property.cpp:151-157 | empty when unmanaged, otherwise the value in the manager's format |
| DateProperty.DatePropertyManager.SetValue | src/managers/date_property.cpp:170-177 | a no-op when unmanaged or equal; otherwise only the value changes, to the bounded date; one notification exactly when it moved |
| DateProperty.DatePropertyManager.SetMinimum | src/managers/date_property.cpp:188-195 | a no-op when unmanaged or unchanged; otherwise the record becomes `WithMinimum`, a range notification is emitted, then a value notification if the value moved |
| DateProperty.DatePropertyManager.SetMaximum | src/managers/date_property.cpp:206-213 | as `SetMinimum`, with `WithMaximum` |
| DateProperty.DatePropertyManager.SetRange | src/managers/date_property.cpp:229-238 | a no-op when unmanaged or when the ordered bounds equal the current range; otherwise the record becomes `WithRange`, with the same notifications |
| DateProperty.DatePropertyManager.InitializeProperty | src/managers/date_property.cpp:243-246 | the property starts from `DefaultData(today)`; the invariant is kept when today lies in the default range |
| DateProperty.DatePropertyManager.UninitializeProperty | src/managers/date_property.cpp:251-254 | only that entry goes; it then reads as the null date with empty text |
| DateTimeProperty.DateTimePropertyManager.Value | src/managers/datetime_property.cpp:89-92 | the stored date-time, the null date-time when unmanaged |
| DateTimeProperty.DateTimePropertyManager.ValueText | src/managers/datetime_property.cpp:97-103 | empty when unmanaged, otherwise the value in the manager's format |
| DateTimeProperty.DateTimePropertyManager.SetValue | src/managers/datetime_property.cpp:112-118 | a no-op when unmanaged or equal; otherwise the value changes, with one notification |
| DateTimeProperty.DateTimePropertyManager.InitializeProperty | src/managers/datetime_property.cpp:123-126 | the property becomes managed with the current date-time |
| DateTimeProperty.DateTimePropertyManager.UninitializeProperty | src/managers/datetime_property.cpp:131-134 | only that entry goes; it then reads as the null date-time with empty text |
| ColorProperty.HexDigitChar | src/managers/color_property.cpp:454-459 | reference writer of one lower-case hex digit that reads back as its value |
| ColorProperty.HexPair | src/managers/color_property.cpp:454-459 | `toInt(nullptr, 16)` of a two-character text is a byte, and 0 when the text is not two hex digits |
| ColorProperty.HexByte | src/managers/color_property.cpp:454-459 | reference writer of a byte as two hex digits |
| ColorProperty.HexPairOfHexByte | src/managers/color_property.cpp:454-459 | reading the two hex digits of a byte gives the byte back |
| ColorProperty.HexByteOfHexPair | src/managers/color_property.cpp:454-459 | writing the value of two hex digits gives them back, in lower case |
| ColorProperty.RgbaText | src/managers/color_property.cpp:438-459 | reference `#RRGGBBAA` writer: nine characters starting with `#` |
| ColorProperty.ParsedColor | src/managers/color_property.cpp:450-459 | the committed color is valid; red, green and blue come from the pairs after `#`; alpha comes from the fourth pair when exactly eight digits follow `#`, and is kept otherwise; with a byte alpha every channel is a byte |
| ColorProperty.ParsedRgbaText | src/managers/color_property.cpp:450-459 | parsing the `#RRGGBBAA` text of a valid color gives the color back, whatever the current color |
| ColorProperty.ParsedRgbText | src/managers/color_property.cpp:450-457 | parsing a `#RRGGBB` text sets red, green and blue and keeps the current alpha |
| ColorProperty.ColorPropertyManager.Value | src/managers/color_property.cpp:203-206 | the stored color, the invalid color when unmanaged |
| ColorProperty.ColorPropertyManager.ValueText | src/managers/color_property.cpp:212-219 | empty when unmanaged, otherwise the hex text of the value |
| ColorProperty.ColorPropertyManager.SetValue | src/managers/color_property.cpp:241-263 | a no-op when unmanaged or equal; otherwise the color is stored, a live sub-property shows its hex text, a missing link entry is inserted as null, one notification is emitted, and the link invariant is kept |
| ColorProperty.ColorPropertyManager.InitializeProperty | src/managers/color_property.cpp:268-278 | the property starts as the invalid color, with a fresh sub-property linked both ways and showing that color's hex text; the invariant is kept for a new property |
| ColorProperty.ColorPropertyManager.UninitializeProperty | src/managers/color_property.cpp:316-323 | a live sub-property is unlinked and forgotten; the property leaves both maps and then reads as unmanaged; the invariant is kept |
| ColorProperty.ColorPropertyManager.SlotPropertyDestroyed | src/managers/color_property.cpp:90-108 | a known sub-property nulls its parent's link and leaves the reverse map; any other handle changes nothing |
| ColorProperty.ColorPropertyManager.SlotStringChanged | src/managers/color_property.cpp:60-67 | only a known sub-property acts: its parent gets the named color (created first as the invalid color when missing); when that differs from the old color, one notification is emitted, a missing link entry is inserted as null, and a live sub-property shows the new color's hex text; when it does not differ, the sub-property keeps the text it had before the call |
| ColorProperty.ColorPropertyManager.EditSubProperty | src/managers/color_property.cpp:158-160 | text typed into a live sub-property is stored and, when it differs from the stored text, reaches `slotStringChanged`: the parent gets the named color, and the sub-property shows the new color's hex text when the color changed and the typed text when it did not; the link invariant is kept |
| ColorProperty.ColorEditWidget.constructor | src/managers/color_property.cpp:380-414 | a new widget holds the invalid color and shows its hex text |
| ColorProperty.ColorEditWidget.SetValue | src/managers/color_property.cpp:416-423 | an equal color changes nothing; another color is stored and shown as hex text; nothing is emitted |
| ColorProperty.ColorEditWidget.EditFinished | src/managers/color_property.cpp:438-465 | a text shorter than seven characters is replaced by the current color's hex text; otherwise the parsed color is taken and emitted once when it is valid and differs, and nothing changes otherwise |
| ColorProperty.ColorEditorFactory.SlotPropertyChanged | src/managers/color_property.cpp:506-516 | every editor open on the property now holds the color; nothing is emitted; other editors are untouched |
| ColorProperty.ColorEditorFactory.CreateEditor | src/managers/color_property.cpp:577-585 | a fresh editor is registered for the property exactly as `initializeEditor` specifies, as the shared `createEditor` of `src/editor_factory_private.hpp` does; the registry invariant is kept; the editor shows the manager's current value and its hex text |
| JsonValue.Member | examples/json/json.cpp:230-243 | `o[key]`: the member, or null when missing |
| JsonValue.ToInt | examples/json/json.cpp:231-243 | a number in the 32-bit range, otherwise the given default |
| JsonValue.FromToVariant | examples/json/json.cpp:184-186 | every JSON value survives the trip to a variant and back |
| JsonValue.ToFromVariant | examples/json/json.cpp:246-248 | every variant without invalid or geometry parts survives the trip to JSON and back |
| JsonValue.RectToObject | examples/json/json.cpp:75-84 | a rectangle is written as an object with exactly the members x, y, w and h |
| JsonValue.SizeToObject | examples/json/json.cpp:86-93 | a size is written as an object with exactly the members w and h |
| JsonValue.PointToObject | examples/json/json.cpp:95-102 | a point is written as an object with exactly the members x and y |
| JsonValue.RectRoundTrip | examples/json/json.cpp:240-244 | the rectangle read from `rectToArray`'s object is the original one |
| JsonValue.SizeRoundTrip | examples/json/json.cpp:228-233 | the size read from `sizeToArray`'s object is the original one |
| JsonValue.PointRoundTrip | examples/json/json.cpp:234-239 | the point read from `pointToArray`'s object is the original one |
| JsonValue.Encode | examples/json/json.cpp:173-187 | geometry is written as its object, everything else through `fromVariant` |
| JsonValue.Decode | examples/json/json.cpp:226-249 | by the default's kind, geometry is read from its object and everything else through `toVariant` |
| JsonValue.DecodeEncode | examples/json/json.cpp:173-187 | decoding inverts encoding for every variant stored under a default of a matching kind |
| JsonValue.VariantText | examples/json/json.cpp:348-350 | the text of a variant read from JSON: a string as itself, a number as its canonical decimal text (no leading zero except "0", no "-0"), which reads back as it, a boolean as true or false |
| JsonStore.Split | examples/json/json.cpp:159 | at least one piece, and no piece holds `/` |
| JsonStore.PropertyId | examples/json/json.cpp:112-122 | the id is the name under an empty stack |
| JsonStore.PropertyIdCons | examples/json/json.cpp:112-122 | under a non-empty stack the id is the outermost group, `/`, then the id under the remaining groups |
| JsonStore.SplitCons | examples/json/json.cpp:159 | a piece without `/` followed by `/` splits off as the first piece |
| JsonStore.SplitPropertyId | examples/json/json.cpp:112-122 | splitting a property id at `/` gives back the group names and the name, when none of them holds a `/` |
| JsonStore.PutPathKeeps | examples/json/json.cpp:157-198 | storing at a path adds only its first component at the top level, keeps every other member, makes intermediate members objects, and puts the value at the last component |
| JsonStore.LookupPath | examples/json/json.cpp:208-225 | a missing component gives nothing; a one-component path gives the member |
| JsonStore.LookupPutPath | examples/json/json.cpp:157-198 | after storing at a path, walking that path finds the stored value |
| JsonStore.LookupPutPathDiverging | examples/json/json.cpp:160-171 | storing at a path leaves whatever a path that parts from it finds unchanged, at every level |
| JsonStore.Retrieved | examples/json/json.cpp:201-254 | the value under the group path and the property name, decoded by the default's kind, or the default when any step is missing |
| JsonStore.RetrievedMissing | examples/json/json.cpp:208-225 | the default comes back as soon as any group along the path, or the property itself, is missing |
| JsonStore.RetrievedAsWritten | examples/json/json.cpp:208-219 | the read as written agrees with the corrected read when no group is open |
| JsonStore.RetrievedAsWrittenEchoesGroupName | examples/json/json.cpp:218 | the read as written returns null, not the default, for a property named like its missing group member |
| JsonStore.StoreThenRetrieve | examples/json/json.cpp:157-254 | a variant stored under a property id is read back unchanged, by the corrected read, under the same groups and name |
| JsonStore.AsWrittenFindsStored | examples/json/json.cpp:208-219 | the null members the walk as written inserts never hide a member the path needs: when the whole path exists, the walk reaches an object holding the property with the stored value |
| JsonStore.RetrievedAsWrittenWhenPresent | examples/json/json.cpp:201-254 | whenever the property exists along its whole path, the read as written and the corrected read agree |
| JsonStore.StoreThenRetrieveAsWritten | examples/json/json.cpp:157-254 | a variant stored under a property id is read back unchanged by the read as written too |
| JsonStore.SetupStack.Push | examples/json/json.cpp:430 | the name is pushed on the group stack and the document is untouched |
| JsonStore.SetupStack.Pop | examples/json/json.cpp:432 | the innermost group is popped and the document is untouched |
| JsonStore.SetupStack.GetPropertyId | examples/json/json.cpp:112-122 | the loop builds `PropertyId` of the stack and the name, which splits back into them |
| JsonStore.StorePath | examples/json/json.cpp:159-197 | the descent that remembers each object passed, the store under the last component and the bottom-up rebuild give `PutPath` of the document at the path |
| JsonStore.SetupStack.SetValue | examples/json/json.cpp:157-198 | the document becomes `PutPath` of the old one at the id's components; the group stack is untouched |
| JsonStore.RetrieveProperty | examples/json/json.cpp:201-254 | the walk returns `Retrieved`, with the null insertion of line 218 left out |
| JsonStore.StoreThenRead | examples/json/json.cpp:157-254 | storing a variant under a name's id and then reading the name back returns the variant, both by the corrected read and by the read as written |
| JsonLayout.HasType | examples/json/json.cpp:256-270 | true exactly when the control is "spinbox" in any letter case |
| JsonLayout.ReadElement | examples/json/json.cpp:276-279 | the type defaults to "invalid", the name to the type, the title to the name, the control to the empty string |
| JsonLayout.EntryNames | examples/json/json.cpp:348-350 | one name per entry of the `elements` array, each its text |
| JsonLayout.LeafSpecOf | examples/json/json.cpp:291-418 | each default is a variant of its kind; a group makes no leaf; an int leaf comes only from a spin box of type int and has a minimum, maximum and single step; a string leaf comes only from a line edit and has a maximum length, and a pattern exactly when a validator is given |
| JsonLayout.LeafSpecControls | examples/json/json.cpp:291-370 | a spin box makes a leaf exactly for the int, double and float types, a double one with only `decimals`; a check box makes a bool leaf without attributes; a line edit a string leaf; a combo box and a flag box an enum and a flag leaf whose names are the texts of the `elements` array |
| JsonLayout.LeafSpecGeometry | examples/json/json.cpp:371-418 | the size, point and rect boxes make leaves of their kind with exactly a minimum and a maximum |
| JsonLayout.LeafSpecUnknown | examples/json/json.cpp:289-435 | a control other than the eight leaf controls makes no leaf |
| JsonLayout.LeafSpecFallbacks | examples/json/json.cpp:291-418 | without the value members: an int spin box is 0 in `[0, 100]` with step 1; a double one has 1 decimal; a check box is false; a line edit is empty with maximum length -1; a combo or flag box is 0 with no names; the geometry boxes are all zeros |
| JsonLayout.ChildrenOf | examples/json/json.cpp:426 | the `children` array, or empty |
| JsonLayout.FillSpecAppend | examples/json/json.cpp:274 | elements are handled one by one: the items of a concatenation are the items of each part |
| JsonLayout.NoItemsAddsNothing | examples/json/json.cpp:274-281 | an element that adds no items leaves the items of the others unchanged, wherever it stands |
| JsonLayout.SkippedAddsNothing | examples/json/json.cpp:282-287 | an element without a control, a needed type or a name adds nothing, wherever it stands |
| JsonLayout.EmptyGroupAddsNothing | examples/json/json.cpp:424-435 | a group without children adds nothing, wherever it stands |
| JsonLayout.FillSpecLeavesUnder | examples/json/json.cpp:289-435 | every leaf built under a group stack, at any depth, has a property id inside those groups |
| JsonLayout.ElementItemsLeavesUnder | examples/json/json.cpp:289-435 | the same for the items of one element |
| JsonLayout.FillElements | examples/json/json.cpp:272-437 | the loop over the elements, on its copy of the stack, builds exactly `FillSpec` of the stack and the elements. Leaf values are given by the corrected read `Retrieved`. On `{"g":{}}` under group `g`, an element named `g` reads null in the program and the default here (see Findings) |
| JsonLayout.ElementItemsOf | examples/json/json.cpp:276-435 | one pass of the loop: with the push, recursive fill and pop for a group, it builds exactly `ElementItems` of the element and leaves the stack and document as they were. Leaf values are given by the corrected read |

## Left out

- The range templates of `src/managers/common.h` are not part of this model. Their behaviour follows the doc comments of `setValue`, `setMinimum`, `setMaximum` and `setRange`: nearest value, bounds that push each other, ordered bounds. A range change notifies its range first, then the value when it moved.
- `colorHexValueText` and `QColor::setNamedColor` are not part of this model. They are constructor parameters (`hexText`, `namedColor`). The reference `RgbaText` says only what a hex text that `ParsedColor` reads back looks like.
- Locale date and time formats, `QDate::currentDate` and `QDateTime::currentDateTime` are parameters.
- `QColor` is kept to invalid and RGB colors. Other color specs and `QColor`'s own channel clamping are not modelled.
- ColorProperty.HexPair: signs, blanks and a `0x` prefix that `QString::toInt` accepts inside a pair (as in `+f`) read as 0, because only hex digits are modelled.
- JsonLayout.LeafSpecOf: a double or float spin box keeps only its `decimals` attribute and has no default, because floating point is not modelled.
- JSON numbers are integers, and the int and double variant kinds are one kind.
- JsonValue.VariantText: a number's text is its plain canonical decimal. In Qt 5 a JSON number is a `double`, and its `toString` may use exponent form for large whole numbers ("1e+20", and with shortest formatting already "1e+07"). That switch is not modelled, because floating point is not.
- JsonValue.FromVariant: geometry variants, which `fromVariant` turns into strings or null depending on the Qt version, become null. The example never takes that path, because `setValue` encodes geometry itself.
- `QRect` arithmetic overflow is not modelled.
- BoolProperty.BoolPropertyManager.ValueText: the texts are the untranslated "True" and "False"; the translation by `tr` is not modelled.
- `QtStringPropertyManager` is not part of this model. `EditSubProperty` takes its `setValue` to store any typed text that differs from the stored one and then notify. Its validation (`regExp`, maximum length) is not modelled.
- The non-ASCII case folding of `QString::toLower` and `compare(…, Qt::CaseInsensitive)` is not modelled.
- `QtVariantPropertyManager::addProperty`, `setValue` and `setAttribute` are not part of this model. A layout item records the requested kind, value and attributes instead.
- Widgets, layout, painting, event filters, the color dialog (`buttonClicked`) and `slotSetValue` are left out. So are `connect` and `blockSignals`.
- `propertyChanged` is folded into the `ValueChanged` event wherever both are emitted. Int, date and datetime `setValue` pass both to the `src/managers/common.h` templates (the range templates for int and date, `setSimpleValue` for datetime). Color emits both, `propertyChanged` first (`src/managers/color_property.cpp:261-262`). The bool manager emits only `valueChanged` (`src/managers/bool_property.cpp:192`) and `textVisibleChanged` (line 112). Int `setSingleStep` emits only `singleStepChanged` (`src/managers/int_property.cpp:275`).
- `loadSetup`, `saveSetup`, `main` and the JSON text parser are file and text I/O. Models start from a parsed document.
- The managers that only have headers (double, string, enum, flag, size, point, rect and others) are not part of this model.
- Property handles are never deleted. Destruction appears only as the slot calls that report it.

## Findings

| source | as written | input that shows it | evidently intended | confidence | as-written member | corrected member |
|---|---|---|---|---|---|---|
| examples/json/json.cpp:218 | after stepping into group `t`, `o[t]` is read on the now non-const child object, which inserts a null member `t` into it | document `{"g": {}}`, group stack `["g"]`, property `g`, default 5: the walk inserts `g: null`, so the property is found and null is returned | `g` is missing from the group object, so the default 5 is returned | not executed | JsonStore.RetrievedAsWrittenEchoesGroupName | JsonStore.RetrieveProperty |
