/**
 * The bookkeeping every editor factory shares: which editors were created for
 * which property, and back. Two maps are kept in step; an editor list that
 * becomes empty is dropped.
 */
module EditorFactory {
  import opened Common

  /** `QList::removeAll`: every occurrence of `x` removed, the rest kept in order. */
  function RemoveAll<T(==)>(s: seq<T>, x: T): (r: seq<T>)
    ensures x !in r
    ensures multiset(r) == multiset(s)[x := 0]
    ensures forall i :: 0 <= i < |r| ==> r[i] in s
  {
    if s == [] then []
    else
      assert s == [s[0]] + s[1..];
      if s[0] == x then RemoveAll(s[1..], x) else [s[0]] + RemoveAll(s[1..], x)
  }

  /** The two maps of a factory describe the same relation, and no list is empty. */
  ghost predicate Consistent<Editor>(created: map<Property, seq<Editor>>, owner: map<Editor, Property>)
  {
    && (forall p :: p in created ==> created[p] != [])
    && (forall p, e :: p in created && e in created[p] ==> e in owner && owner[e] == p)
    && (forall e :: e in owner ==> owner[e] in created && e in created[owner[e]])
  }

  /** The editor lists once `obj` is taken out of `p`'s list, the list dropped when it empties. */
  function Forget<Editor(==)>(created: map<Property, seq<Editor>>, p: Property, obj: Editor): (r: map<Property, seq<Editor>>)
    ensures r.Keys <= created.Keys
    ensures forall q :: q in created && q != p ==> q in r && r[q] == created[q]
  {
    if p !in created then created
    else if RemoveAll(created[p], obj) == [] then created - {p}
    else created[p := RemoveAll(created[p], obj)]
  }

  /** Forgetting a registered editor in both maps keeps them consistent. */
  lemma ForgetConsistent<Editor>(created: map<Property, seq<Editor>>, owner: map<Editor, Property>, obj: Editor)
    requires Consistent(created, owner) && obj in owner
    ensures Consistent(Forget(created, owner[obj], obj), owner - {obj})
  {
    var p := owner[obj];
    var remaining := RemoveAll(created[p], obj);
    forall e | e in created[p] && e != obj
      ensures e in remaining
    {
      assert multiset(remaining)[e] == multiset(created[p])[e];
    }
  }

  /**
   * `EditorFactoryPrivate<Editor>`: `createdEditors` is `m_createdEditors`
   * (property to the list of its editors), `editorToProperty` is
   * `m_editorToProperty`.
   */
  class EditorFactoryPrivate<Editor(==)> {
    var createdEditors: map<Property, seq<Editor>>
    var editorToProperty: map<Editor, Property>

    /**
     * The two maps describe the same relation, and no property keeps an
     * empty editor list.
     */
    ghost predicate Valid()
      reads this
    {
      Consistent(createdEditors, editorToProperty)
    }

    /** An editor is registered for `p` exactly when `p`'s list holds it. */
    lemma RegisteredIff(p: Property, e: Editor)
      requires Valid()
      ensures (e in editorToProperty && editorToProperty[e] == p) <==>
              (p in createdEditors && e in createdEditors[p])
    {
    }

    constructor ()
      ensures createdEditors == map[] && editorToProperty == map[]
      ensures Valid()
    {
      createdEditors := map[];
      editorToProperty := map[];
    }

    /** `initializeEditor`: appends `editor` to `property`'s list, creating the list when missing. */
    method InitializeEditor(property: Property, editor: Editor)
      modifies this
      ensures createdEditors == old(createdEditors)[property :=
        (if property in old(createdEditors) then old(createdEditors)[property] else []) + [editor]]
      ensures editorToProperty == old(editorToProperty)[editor := property]
      ensures old(Valid()) && editor !in old(editorToProperty) ==> Valid()
    {
      if property !in createdEditors {
        createdEditors := createdEditors[property := []];
      }
      createdEditors := createdEditors[property := createdEditors[property] + [editor]];
      editorToProperty := editorToProperty[editor := property];
    }

    /**
     * `slotEditorDestroyed`: scans the editor map for `obj`; when found,
     * removes every occurrence of it from its property's list (dropping the
     * list when it becomes empty) and forgets the editor.
     */
    method SlotEditorDestroyed(obj: Editor)
      modifies this
      ensures obj !in old(editorToProperty) ==>
        createdEditors == old(createdEditors) && editorToProperty == old(editorToProperty)
      ensures editorToProperty == old(editorToProperty) - {obj}
      ensures obj in old(editorToProperty) ==>
        createdEditors == Forget(old(createdEditors), old(editorToProperty)[obj], obj)
      ensures old(Valid()) ==> Valid()
    {
      var keys := editorToProperty.Keys;
      while keys != {}
        invariant keys <= editorToProperty.Keys
        invariant obj in old(editorToProperty) ==> obj in keys
        invariant createdEditors == old(createdEditors) && editorToProperty == old(editorToProperty)
        decreases keys
      {
        var editor :| editor in keys;
        if editor == obj {
          if Valid() {
            ForgetConsistent(createdEditors, editorToProperty, editor);
          }
          var property := editorToProperty[editor];
          if property in createdEditors {
            var remaining := RemoveAll(createdEditors[property], editor);
            if remaining == [] {
              createdEditors := createdEditors - {property};
            } else {
              createdEditors := createdEditors[property := remaining];
            }
          }
          editorToProperty := editorToProperty - {editor};
          return;
        }
        keys := keys - {editor};
      }
    }
  }
}
