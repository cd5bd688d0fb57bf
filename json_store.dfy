/**
 * The settings store of the JSON example: a stack of group names, and one
 * JSON document in which every property lives at the path of its group
 * names followed by its own name.
 */
module JsonStore {
  import opened Common
  import opened JsonValue

  /** `s.split("/")`: the pieces between separators, empty pieces kept. */
  function Split(s: string): (r: seq<string>)
    ensures |r| >= 1
    ensures forall i :: 0 <= i < |r| ==> '/' !in r[i]
    decreases |s|
  {
    if '/' !in s then [s]
    else
      var i := FirstSlash(s);
      [s[..i]] + Split(s[i + 1..])
  }

  function FirstSlash(s: string): (i: nat)
    requires '/' in s
    ensures i < |s| && s[i] == '/' && '/' !in s[..i]
  {
    if s[0] == '/' then 0
    else
      assert '/' in s[1..] by {
        var k :| 0 <= k < |s| && s[k] == '/';
        assert s[1..][k - 1] == '/';
      }
      var j := FirstSlash(s[1..]);
      assert s[..j + 1] == [s[0]] + s[1..][..j];
      j + 1
  }

  /** Each group name followed by `/`, outermost first. */
  function GroupPrefix(tree: seq<string>): (r: string)
  {
    if tree == [] then "" else GroupPrefix(tree[..|tree| - 1]) + tree[|tree| - 1] + "/"
  }

  /** `getPropertyId`: the group prefix followed by the name. */
  function PropertyId(tree: seq<string>, name: string): (r: string)
    ensures tree == [] ==> r == name
  {
    GroupPrefix(tree) + name
  }

  /** A property id is the outermost group, `/`, then the id under the remaining groups. */
  lemma PropertyIdCons(tree: seq<string>, name: string)
    requires tree != []
    ensures PropertyId(tree, name) == tree[0] + "/" + PropertyId(tree[1..], name)
  {
    PrefixCons(tree);
    var head, rest := tree[0] + "/", GroupPrefix(tree[1..]);
    assert GroupPrefix(tree) == head + rest;
    assert (head + rest) + name == head + (rest + name);
  }

  lemma {:induction false} PrefixCons(tree: seq<string>)
    ensures tree != [] ==> GroupPrefix(tree) == tree[0] + "/" + GroupPrefix(tree[1..])
    decreases |tree|
  {
    if |tree| > 1 {
      var init := tree[..|tree| - 1];
      PrefixCons(init);
      assert init[1..] == tree[1..][..|tree[1..]| - 1];
    } else if |tree| == 1 {
      assert tree[1..] == [] && tree[..0] == [];
    }
  }

  /** A piece without `/` followed by `/` splits off as the first piece. */
  lemma SplitCons(t: string, rest: string)
    requires '/' !in t
    ensures Split(t + "/" + rest) == [t] + Split(rest)
  {
    var s := t + "/" + rest;
    assert s[|t|] == '/';
    var i := FirstSlash(s);
    assert s[..|t|] == t;
    assert i == |t|;
    assert s[i + 1..] == rest;
  }

  /** Splitting a property id recovers the group names and the name, when none holds a `/`. */
  lemma {:induction false} SplitPropertyId(tree: seq<string>, name: string)
    requires forall i :: 0 <= i < |tree| ==> '/' !in tree[i]
    requires '/' !in name
    ensures Split(PropertyId(tree, name)) == tree + [name]
    decreases |tree|
  {
    if tree != [] {
      assert forall i :: 0 <= i < |tree[1..]| ==> tree[1..][i] == tree[i + 1];
      SplitPropertyId(tree[1..], name);
      SplitPropertyIdStep(tree, name);
    }
  }

  /** One step of `SplitPropertyId`: the outermost group splits off in front. */
  lemma SplitPropertyIdStep(tree: seq<string>, name: string)
    requires tree != [] && '/' !in tree[0]
    requires Split(PropertyId(tree[1..], name)) == tree[1..] + [name]
    ensures Split(PropertyId(tree, name)) == tree + [name]
  {
    var t, rest := tree[0], tree[1..];
    var sub := PropertyId(rest, name);
    assert PropertyId(tree, name) == t + "/" + sub by {
      PropertyIdCons(tree, name);
    }
    assert Split(t + "/" + sub) == [t] + (rest + [name]) by {
      SplitCons(t, sub);
    }
    ConsSnoc(tree, name);
  }

  lemma ConsSnoc<T>(s: seq<T>, x: T)
    requires s != []
    ensures [s[0]] + (s[1..] + [x]) == s + [x]
  {
    assert [s[0]] + s[1..] == s;
  }

  /**
   * The object that results from storing `leaf` at `path` below `root`:
   * missing or non-object intermediate members become objects, and every
   * other member at every level stays as it was.
   */
  function PutPath(root: JsonObject, path: seq<string>, leaf: Json): JsonObject
    requires |path| >= 1
    decreases |path|
  {
    if |path| == 1 then root[path[0] := leaf]
    else root[path[0] := JObject(PutPath(ToObject(Member(root, path[0])), path[1..], leaf))]
  }

  /**
   * Storing adds only the first component at the top level, keeps every
   * other member, puts the value at a one-component path and an object at
   * the first component of a longer one.
   */
  lemma PutPathKeeps(root: JsonObject, path: seq<string>, leaf: Json)
    requires |path| >= 1
    ensures PutPath(root, path, leaf).Keys == root.Keys + {path[0]}
    ensures forall k :: k in root && k != path[0] ==> PutPath(root, path, leaf)[k] == root[k]
    ensures |path| == 1 ==> PutPath(root, path, leaf)[path[0]] == leaf
    ensures |path| > 1 ==> PutPath(root, path, leaf)[path[0]].JObject?
  {
  }

  /** The value at `path` below `root`, when every step exists. */
  function LookupPath(root: JsonObject, path: seq<string>): (r: Option<Json>)
    requires |path| >= 1
    ensures path[0] !in root ==> r == None
    ensures |path| == 1 && path[0] in root ==> r == Some(root[path[0]])
    decreases |path|
  {
    if path[0] !in root then None
    else if |path| == 1 then Some(root[path[0]])
    else LookupPath(ToObject(root[path[0]]), path[1..])
  }

  /** A stored value is found again at its own path. */
  lemma {:induction false} LookupPutPath(root: JsonObject, path: seq<string>, leaf: Json)
    requires |path| >= 1
    ensures LookupPath(PutPath(root, path, leaf), path) == Some(leaf)
    decreases |path|
  {
    if |path| > 1 {
      LookupPutPath(ToObject(Member(root, path[0])), path[1..], leaf);
    }
  }

  /**
   * Storing at a path leaves what is found at every path that parts from it
   * (same first `k` steps, a different step `k`) unchanged.
   */
  lemma {:induction false} LookupPutPathDiverging(root: JsonObject, path: seq<string>, leaf: Json, other: seq<string>, k: nat)
    requires k < |path| && k < |other| && path[..k] == other[..k] && other[k] != path[k]
    ensures LookupPath(PutPath(root, path, leaf), other) == LookupPath(root, other)
    decreases k
  {
    if k > 0 {
      assert other[0] == other[..k][0] == path[..k][0] == path[0];
      var child := ToObject(Member(root, path[0]));
      assert path[1..][..k - 1] == path[..k][1..] == other[..k][1..] == other[1..][..k - 1];
      LookupPutPathDiverging(child, path[1..], leaf, other[1..], k - 1);
    }
  }

  /** A path lookup that fails on a prefix fails on the whole path. */
  lemma {:induction false} LookupPrefixNone(root: JsonObject, path: seq<string>, k: nat)
    requires 1 <= k <= |path| && LookupPath(root, path[..k]) == None
    ensures LookupPath(root, path) == None
    decreases k
  {
    if path[0] in root && k > 1 {
      assert path[..k][1..] == path[1..][..k - 1];
      LookupPrefixNone(ToObject(root[path[0]]), path[1..], k - 1);
    }
  }

  /** The object reached after the first `j` steps of `path`, making missing steps empty objects. */
  function Descend(root: JsonObject, path: seq<string>, j: nat): JsonObject
    requires j <= |path|
    decreases j
  {
    if j == 0 then root else ToObject(Member(Descend(root, path, j - 1), path[j - 1]))
  }

  /** The objects passed before each of the first `n` steps of `path`, outermost first. */
  function Passed(root: JsonObject, path: seq<string>, n: nat): (r: seq<JsonObject>)
    requires n <= |path|
    ensures |r| == n
    decreases n
  {
    if n == 0 then [] else Passed(root, path, n - 1) + [Descend(root, path, n - 1)]
  }

  /**
   * `retrieve_property` as it should behave: the stored value at the
   * group path followed by `prop`, decoded by the default's kind, or the
   * default when any step is missing.
   */
  function Retrieved(tree: seq<string>, root: JsonObject, prop: string, default: Variant): (r: Variant)
    ensures LookupPath(root, tree + [prop]) == None ==> r == default
    ensures LookupPath(root, tree + [prop]).Some? ==> r == Decode(LookupPath(root, tree + [prop]).value, default)
  {
    match LookupPath(root, tree + [prop])
    case None => default
    case Some(j) => Decode(j, default)
  }

  /** The default is returned as soon as one group along the path, or the property itself, is missing. */
  lemma RetrievedMissing(tree: seq<string>, root: JsonObject, prop: string, default: Variant, k: nat)
    requires 1 <= k <= |tree| + 1 && LookupPath(root, (tree + [prop])[..k]) == None
    ensures Retrieved(tree, root, prop, default) == default
  {
    LookupPrefixNone(root, tree + [prop], k);
  }

  /**
   * The walk of `retrieve_property` as written: after stepping into a group
   * `t`, reading `o[t]` from the new, non-const object inserts a null member
   * `t` into it when it has none.
   */
  function WalkAsWritten(o: JsonObject, tree: seq<string>): Option<JsonObject>
    decreases |tree|
  {
    if tree == [] then Some(o)
    else if tree[0] !in o then None
    else
      var child := ToObject(o[tree[0]]);
      WalkAsWritten(if tree[0] in child then child else child[tree[0] := JNull], tree[1..])
  }

  /** `retrieve_property` as written, with the null members its walk inserts. */
  function RetrievedAsWritten(tree: seq<string>, root: JsonObject, prop: string, default: Variant): (r: Variant)
    ensures tree == [] ==> r == Retrieved(tree, root, prop, default)
  {
    match WalkAsWritten(root, tree)
    case None => default
    case Some(o) => if prop !in o then default else Decode(o[prop], default)
  }

  /**
   * A property named like its innermost group is read as null when the
   * group object lacks it, instead of falling back to the default.
   */
  lemma RetrievedAsWrittenEchoesGroupName()
    ensures RetrievedAsWritten(["g"], map["g" := JObject(map[])], "g", VNumber(5)) == VNull
    ensures Retrieved(["g"], map["g" := JObject(map[])], "g", VNumber(5)) == VNumber(5)
  {
    var root := map["g" := JObject(map[])];
    assert WalkAsWritten(root, ["g"]) == WalkAsWritten(map["g" := JNull], []);
    assert LookupPath(root, ["g", "g"]) == LookupPath(map[], ["g"]);
  }

  /** Reading back what was stored under a property id gives the stored variant. */
  lemma StoreThenRetrieve(tree: seq<string>, name: string, root: JsonObject, v: Variant, default: Variant)
    requires forall i :: 0 <= i < |tree| ==> '/' !in tree[i]
    requires '/' !in name
    requires Compatible(v, default)
    ensures Retrieved(tree, PutPath(root, Split(PropertyId(tree, name)), Encode(v)), name, default) == v
  {
    SplitPropertyId(tree, name);
    LookupPutPath(root, tree + [name], Encode(v));
    DecodeEncode(v, default);
  }

  /**
   * The as-written walk only inserts members that the path does not need:
   * when every step of `tree` and then `prop` exists in `o`, walking any
   * object that agrees with `o` on `o`'s members reaches an object holding
   * `prop` with the value found in `o`.
   */
  lemma {:induction false} AsWrittenFindsStored(o: JsonObject, o': JsonObject, tree: seq<string>, prop: string)
    requires LookupPath(o, tree + [prop]).Some?
    requires forall k :: k in o ==> k in o' && o'[k] == o[k]
    ensures WalkAsWritten(o', tree).Some?
    ensures prop in WalkAsWritten(o', tree).value
    ensures WalkAsWritten(o', tree).value[prop] == LookupPath(o, tree + [prop]).value
    decreases |tree|
  {
    if tree != [] {
      var t := tree[0];
      assert (tree + [prop])[0] == t && (tree + [prop])[1..] == tree[1..] + [prop];
      var child := ToObject(o[t]);
      var child' := if t in child then child else child[t := JNull];
      AsWrittenFindsStored(child, child', tree[1..], prop);
    }
  }

  /** Whenever the property is present along its whole path, the read as written agrees with the corrected read. */
  lemma RetrievedAsWrittenWhenPresent(tree: seq<string>, root: JsonObject, prop: string, default: Variant)
    requires LookupPath(root, tree + [prop]).Some?
    ensures RetrievedAsWritten(tree, root, prop, default) == Retrieved(tree, root, prop, default)
  {
    AsWrittenFindsStored(root, root, tree, prop);
  }

  /** The round trip holds for the read as written too: a stored value is always present along its path. */
  lemma StoreThenRetrieveAsWritten(tree: seq<string>, name: string, root: JsonObject, v: Variant, default: Variant)
    requires forall i :: 0 <= i < |tree| ==> '/' !in tree[i]
    requires '/' !in name
    requires Compatible(v, default)
    ensures RetrievedAsWritten(tree, PutPath(root, Split(PropertyId(tree, name)), Encode(v)), name, default) == v
  {
    SplitPropertyId(tree, name);
    var stored := PutPath(root, tree + [name], Encode(v));
    LookupPutPath(root, tree + [name], Encode(v));
    RetrievedAsWrittenWhenPresent(tree, stored, name, default);
    DecodeEncode(v, default);
  }

  /** Storing along `path` from step `k` on: replace member `path[k]` by the store from step `k + 1` on. */
  lemma PutPathStep(root: JsonObject, path: seq<string>, k: nat, leaf: Json)
    requires k + 1 < |path|
    ensures PutPath(Descend(root, path, k), path[k..], leaf) ==
      Descend(root, path, k)[path[k] := JObject(PutPath(Descend(root, path, k + 1), path[k + 1..], leaf))]
  {
    assert path[k..][0] == path[k] && path[k..][1..] == path[k + 1..];
  }

  /** Storing at the last step of `path` is a plain member update. */
  lemma PutPathLast(root: JsonObject, path: seq<string>, leaf: Json)
    requires |path| >= 1
    ensures PutPath(Descend(root, path, |path| - 1), path[|path| - 1..], leaf) ==
      Descend(root, path, |path| - 1)[path[|path| - 1] := leaf]
  {
    assert path[|path| - 1..] == [path[|path| - 1]];
  }

  /**
   * The loops of `setValue`: walks `stack` down from `root`, remembering each
   * object passed, stores `leaf` under the last component, and rebuilds the
   * objects bottom-up.
   */
  method StorePath(root: JsonObject, stack: seq<string>, leaf: Json) returns (o: JsonObject)
    requires |stack| >= 1
    ensures o == PutPath(root, stack, leaf)
  {
    o := root;
    var stackO: seq<JsonObject> := [];
    var top := "";
    var i := 0;
    while i < |stack|
      invariant 0 <= i < |stack|
      invariant stackO == Passed(root, stack, i)
      invariant o == Descend(root, stack, i)
    {
      top := stack[i];
      if i == |stack| - 1 {
        break;
      }
      stackO := stackO + [o];
      o := ToObject(Member(o, stack[i]));
      i := i + 1;
    }
    PutPathLast(root, stack, leaf);
    o := o[top := leaf];
    var k := |stack| - 2;
    while k >= 0
      invariant -1 <= k <= |stack| - 2
      invariant stackO == Passed(root, stack, k + 1)
      invariant o == PutPath(Descend(root, stack, k + 1), stack[k + 1..], leaf)
    {
      assert stackO == Passed(root, stack, k) + [Descend(root, stack, k)];
      var oo := stackO[k];
      PutPathStep(root, stack, k, leaf);
      o := oo[stack[k] := JObject(o)];
      stackO := stackO[..k];
      k := k - 1;
    }
    assert stack[0..] == stack && Descend(root, stack, 0) == root;
  }

  /**
   * `SetupStack`: `setupTree` is the stack of open group names, innermost
   * last; `setupCache` is the settings document.
   */
  class SetupStack {
    var setupTree: seq<string>
    var setupCache: Json

    /** An empty stack over a null document. */
    constructor ()
      ensures setupTree == [] && setupCache == JNull
    {
      setupTree := [];
      setupCache := JNull;
    }

    /** The copy made when a `SetupStack` is passed by value. */
    constructor Copy(other: SetupStack)
      ensures setupTree == other.setupTree && setupCache == other.setupCache
    {
      setupTree := other.setupTree;
      setupCache := other.setupCache;
    }

    /** `QJsonDocument::object`: the document's object, or the empty object. */
    function Root(): JsonObject
      reads this
    {
      ToObject(setupCache)
    }

    /** `m_setupTree.push`. */
    method Push(name: string)
      modifies this
      ensures setupTree == old(setupTree) + [name] && setupCache == old(setupCache)
    {
      setupTree := setupTree + [name];
    }

    /** `m_setupTree.pop`, which needs a group to pop. */
    method Pop()
      requires setupTree != []
      modifies this
      ensures setupTree == old(setupTree[..|setupTree| - 1]) && setupCache == old(setupCache)
    {
      setupTree := setupTree[..|setupTree| - 1];
    }

    /** `getPropertyId`: every group name followed by `/`, then `name`. */
    method GetPropertyId(name: string) returns (id: string)
      ensures id == PropertyId(setupTree, name)
      ensures (forall i :: 0 <= i < |setupTree| ==> '/' !in setupTree[i]) && '/' !in name ==>
        Split(id) == setupTree + [name]
    {
      id := "";
      var i := 0;
      while i < |setupTree|
        invariant 0 <= i <= |setupTree|
        invariant id == GroupPrefix(setupTree[..i])
      {
        assert setupTree[..i + 1][..i] == setupTree[..i];
        id := id + setupTree[i] + "/";
        i := i + 1;
      }
      assert setupTree[..i] == setupTree;
      id := id + name;
      if (forall i :: 0 <= i < |setupTree| ==> '/' !in setupTree[i]) && '/' !in name {
        SplitPropertyId(setupTree, name);
      }
    }

    /**
     * `setValue`: stores the encoded value at the `/`-separated path of the
     * id in the document (the walk and the rebuild are `StorePath`).
     */
    method SetValue(propertyId: string, value: Variant)
      modifies this
      ensures setupTree == old(setupTree)
      ensures setupCache == JObject(PutPath(old(Root()), Split(propertyId), Encode(value)))
    {
      var o := StorePath(Root(), Split(propertyId), Encode(value));
      setupCache := JObject(o);
    }
  }

  /**
   * `retrieve_property` (with the walk reading nothing it does not need):
   * descends the groups of the stack, then reads `prop` decoded by the
   * default's kind, returning the default when a step is missing.
   */
  method RetrieveProperty(stack: SetupStack, prop: string, default: Variant) returns (out: Variant)
    ensures out == Retrieved(stack.setupTree, stack.Root(), prop, default)
  {
    var tree := stack.setupTree;
    var o := stack.Root();
    var i := 0;
    while i < |tree|
      invariant 0 <= i <= |tree|
      invariant LookupPath(stack.Root(), tree + [prop]) == LookupPath(o, tree[i..] + [prop])
    {
      var t := tree[i];
      assert (tree[i..] + [prop])[0] == t && (tree[i..] + [prop])[1..] == tree[i + 1..] + [prop];
      if t !in o {
        return default;
      }
      o := ToObject(o[t]);
      i := i + 1;
    }
    assert tree[i..] + [prop] == [prop];
    if prop !in o {
      return default;
    }
    out := Decode(o[prop], default);
  }

  /**
   * What the example does for one property: store a value under the
   * property's id, then read it back under the same groups and name.
   */
  method StoreThenRead(stack: SetupStack, name: string, v: Variant, default: Variant) returns (out: Variant)
    requires forall i :: 0 <= i < |stack.setupTree| ==> '/' !in stack.setupTree[i]
    requires '/' !in name
    requires Compatible(v, default)
    modifies stack
    ensures out == v
    ensures RetrievedAsWritten(stack.setupTree, stack.Root(), name, default) == v
  {
    var id := stack.GetPropertyId(name);
    stack.SetValue(id, v);
    out := RetrieveProperty(stack, name, default);
    StoreThenRetrieve(stack.setupTree, name, old(stack.Root()), v, default);
    StoreThenRetrieveAsWritten(stack.setupTree, name, old(stack.Root()), v, default);
  }
}
