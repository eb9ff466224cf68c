/** The visual editor's component tree (gui-edit/src/stores/component-editor.ts):
    dropped components with their props and nested children, and the pure tree
    operations the store's actions are built from. */
module ComponentTree {
  import opened Wrappers
  import opened Strings
  import opened JsArrays

  /** A prop value as the code generator distinguishes them; any other value is
      kept as the text `JSON.stringify` gives for it. */
  datatype PropValue = Undefined | Null | Str(s: string) | Bool(b: bool) | Num(n: int) | Json(text: string)

  /** One own property of a props object; a props object is the list of its
      entries in insertion order, as `Object.entries` returns them. */
  datatype Prop = Prop(key: string, value: PropValue)

  datatype Dropped = Dropped(id: string, componentId: string, name: string, props: seq<Prop>,
                             children: seq<Dropped>, parentId: Option<string>)

  /** A palette entry: the component kind and the props a new drop starts with. */
  datatype ComponentDefinition = ComponentDefinition(id: string, name: string, category: string, icon: string,
                                                     defaultProps: seq<Prop>, allowChildren: bool)

  // ----- props objects -----

  /** `props[key]`: the value of the first entry with that key. */
  function Get(props: seq<Prop>, key: string): (r: Option<PropValue>)
    ensures r.None? <==> forall i :: 0 <= i < |props| ==> props[i].key != key
  {
    if props == [] then None
    else if props[0].key == key then Some(props[0].value)
    else Get(props[1..], key)
  }

  predicate HasKey(props: seq<Prop>, key: string) {
    Get(props, key).Some?
  }

  /** `{ ...a, ...b }`: the entries of `a` in their order, each taking the value
      `b` gives its key if any, then the entries of `b` whose key `a` lacks. */
  function Merge(a: seq<Prop>, b: seq<Prop>): seq<Prop> {
    Overwritten(a, b) + Fresh(b, a)
  }

  function Overwritten(a: seq<Prop>, b: seq<Prop>): (r: seq<Prop>)
    ensures |r| == |a|
    ensures forall i :: 0 <= i < |a| ==> r[i].key == a[i].key
  {
    if a == [] then []
    else
      var v := Get(b, a[0].key);
      [Prop(a[0].key, if v.Some? then v.value else a[0].value)] + Overwritten(a[1..], b)
  }

  /** The entries of `b` whose key `a` lacks. */
  function Fresh(b: seq<Prop>, a: seq<Prop>): (r: seq<Prop>)
    ensures forall i :: 0 <= i < |r| ==> !HasKey(a, r[i].key)
  {
    if b == [] then []
    else (if HasKey(a, b[0].key) then [] else [b[0]]) + Fresh(b[1..], a)
  }

  lemma {:induction false} GetOverwritten(a: seq<Prop>, b: seq<Prop>, key: string)
    requires HasKey(a, key)
    ensures Get(Overwritten(a, b), key) == if HasKey(b, key) then Get(b, key) else Get(a, key)
  {
    if a[0].key != key {
      GetOverwritten(a[1..], b, key);
    }
  }

  lemma {:induction false} GetFresh(b: seq<Prop>, a: seq<Prop>, key: string)
    requires !HasKey(a, key)
    ensures Get(Fresh(b, a), key) == Get(b, key)
  {
    if b != [] {
      GetFresh(b[1..], a, key);
      var head := if HasKey(a, b[0].key) then [] else [b[0]];
      GetAppend(head, Fresh(b[1..], a), key);
    }
  }

  lemma {:induction false} GetAppend(x: seq<Prop>, y: seq<Prop>, key: string)
    ensures Get(x + y, key) == if HasKey(x, key) then Get(x, key) else Get(y, key)
  {
    if x == [] {
      assert x + y == y;
    } else {
      assert (x + y)[0] == x[0];
      assert (x + y)[1..] == x[1..] + y;
      GetAppend(x[1..], y, key);
    }
  }

  /** Spread merge: the keys of `b` win, every other key keeps its value from
      `a`. */
  lemma MergeGet(a: seq<Prop>, b: seq<Prop>, key: string)
    ensures Get(Merge(a, b), key) == if HasKey(b, key) then Get(b, key) else Get(a, key)
  {
    GetAppend(Overwritten(a, b), Fresh(b, a), key);
    if HasKey(a, key) {
      GetOverwritten(a, b, key);
    } else {
      assert !HasKey(Overwritten(a, b), key);
      GetFresh(b, a, key);
    }
  }

  // ----- the tree -----

  /** The ids of all nodes at every depth. */
  function Ids(comps: seq<Dropped>): set<string>
    decreases comps
  {
    if comps == [] then {}
    else {comps[0].id} + Ids(comps[0].children) + Ids(comps[1..])
  }

  lemma {:induction false} IdsAppend(a: seq<Dropped>, b: seq<Dropped>)
    ensures Ids(a + b) == Ids(a) + Ids(b)
    decreases a
  {
    if a == [] {
      assert a + b == b;
    } else {
      assert (a + b)[0] == a[0];
      assert (a + b)[1..] == a[1..] + b;
      IdsAppend(a[1..], b);
    }
  }

  /** `findComponentRecursive`: in each entry's order, the entry itself, then
      what its children yield, and on to the next entry. */
  function Find(comps: seq<Dropped>, id: string): Option<Dropped>
    decreases comps
  {
    if comps == [] then None
    else if comps[0].id == id then Some(comps[0])
    else
      var inChildren := Find(comps[0].children, id);
      if inChildren.Some? then inChildren else Find(comps[1..], id)
  }

  /** The first node with the id in pre-order, or none when no node has it. */
  lemma {:induction false} FindMeaning(comps: seq<Dropped>, id: string)
    ensures Find(comps, id).None? <==> id !in Ids(comps)
    ensures Find(comps, id).Some? ==> Find(comps, id).value.id == id
    decreases comps
  {
    if comps != [] && comps[0].id != id {
      FindMeaning(comps[0].children, id);
      FindMeaning(comps[1..], id);
    }
  }

  /** The search of a list runs through its pieces in order. */
  lemma {:induction false} FindAppend(a: seq<Dropped>, b: seq<Dropped>, id: string)
    ensures Find(a + b, id) == if Find(a, id).Some? then Find(a, id) else Find(b, id)
    decreases a
  {
    if a == [] {
      assert a + b == b;
    } else {
      assert (a + b)[0] == a[0];
      assert (a + b)[1..] == a[1..] + b;
      FindAppend(a[1..], b, id);
    }
  }

  /** The loop of `findComponentRecursive`, with its early returns. */
  method FindComponent(comps: seq<Dropped>, id: string) returns (r: Option<Dropped>)
    ensures r == Find(comps, id)
    decreases comps
  {
    var i := 0;
    while i < |comps|
      invariant 0 <= i <= |comps|
      invariant Find(comps[..i], id).None?
      invariant Find(comps, id) == Find(comps[i..], id)
    {
      var comp := comps[i];
      assert comps[i..] == [comp] + comps[i + 1..];
      assert comps[..i + 1] == comps[..i] + [comp];
      FindAppend(comps[..i], [comp], id);
      if comp.id == id {
        return Some(comp);
      }
      assert comp in comps;
      var found := FindComponent(comp.children, id);
      if found.Some? {
        return found;
      }
      i := i + 1;
    }
    return None;
  }

  /** The node `addComponent` creates: the definition's kind, name and default
      props, no children, and the parent it is dropped on. */
  function NewComponent(def: ComponentDefinition, id: string, parentId: Option<string>): (r: Dropped)
    ensures r.id == id && r.componentId == def.id && r.name == def.name
    ensures r.props == def.defaultProps && r.children == [] && r.parentId == parentId
  {
    Dropped(id, def.id, def.name, def.defaultProps, [], parentId)
  }

  /** `addToParent`: at the root for no parent, else at the end of the children
      of each node with the parent's id (whose own children are not searched). */
  function AddToParent(comps: seq<Dropped>, parentId: Option<string>, n: Dropped): (r: seq<Dropped>)
    ensures parentId.None? ==> r == comps + [n]
    ensures parentId.Some? && parentId.value !in Ids(comps) ==> r == comps
    ensures parentId.Some? && parentId.value in Ids(comps) ==>
      var p := Find(r, parentId.value);
      p.Some? && |p.value.children| > 0 && p.value.children[|p.value.children| - 1] == n
  {
    if parentId.None? then comps + [n]
    else if parentId.value in Ids(comps) then
      AddUnderFound(comps, parentId.value, n);
      AddUnder(comps, parentId.value, n)
    else
      AddUnderAbsent(comps, parentId.value, n);
      AddUnder(comps, parentId.value, n)
  }

  function AddUnder(comps: seq<Dropped>, parentId: string, n: Dropped): (r: seq<Dropped>)
    decreases comps
    ensures |r| == |comps|
  {
    if comps == [] then []
    else
      var c := comps[0];
      var c' := if c.id == parentId then c.(children := c.children + [n])
                else c.(children := AddUnder(c.children, parentId, n));
      [c'] + AddUnder(comps[1..], parentId, n)
  }

  /** A parent that is not in the tree leaves the tree as it was. */
  lemma {:induction false} AddUnderAbsent(comps: seq<Dropped>, parentId: string, n: Dropped)
    requires parentId !in Ids(comps)
    ensures AddUnder(comps, parentId, n) == comps
    decreases comps
  {
    if comps != [] {
      AddUnderAbsent(comps[0].children, parentId, n);
      AddUnderAbsent(comps[1..], parentId, n);
      assert comps == [comps[0]] + comps[1..];
    }
  }

  /** Dropping on a parent in the tree adds exactly the new node's id. */
  lemma {:induction false} AddUnderIds(comps: seq<Dropped>, parentId: string, n: Dropped)
    requires n.children == []
    ensures Ids(AddUnder(comps, parentId, n)) == Ids(comps) + (if parentId in Ids(comps) then {n.id} else {})
    decreases comps
  {
    if comps != [] {
      var c := comps[0];
      AddUnderIds(comps[1..], parentId, n);
      if c.id == parentId {
        IdsAppend(c.children, [n]);
        assert Ids([n]) == {n.id} by {
          assert [n][1..] == [];
        }
      } else {
        AddUnderIds(c.children, parentId, n);
      }
    }
  }

  /** The new node becomes the last child of the first node with the parent's
      id in pre-order. */
  lemma {:induction false} AddUnderFound(comps: seq<Dropped>, parentId: string, n: Dropped)
    requires parentId in Ids(comps)
    ensures var p := Find(AddUnder(comps, parentId, n), parentId);
      p.Some? && |p.value.children| > 0 && p.value.children[|p.value.children| - 1] == n
    decreases comps
  {
    var c := comps[0];
    if c.id != parentId {
      var r := AddUnder(comps, parentId, n);
      assert r[1..] == AddUnder(comps[1..], parentId, n);
      if parentId in Ids(c.children) {
        AddUnderFound(c.children, parentId, n);
      } else {
        FindMeaning(AddUnder(c.children, parentId, n), parentId);
        AddUnderAbsent(c.children, parentId, n);
        AddUnderFound(comps[1..], parentId, n);
      }
    }
  }

  /** `removeFromTree`: the nodes with the id go, with everything below them;
      the rest keep their place. */
  function Remove(comps: seq<Dropped>, id: string): seq<Dropped>
    decreases comps
  {
    if comps == [] then []
    else
      var c := comps[0];
      (if c.id == id then [] else [c.(children := Remove(c.children, id))]) + Remove(comps[1..], id)
  }

  /** No node with the id is left, and no id is added. */
  lemma {:induction false} RemoveIds(comps: seq<Dropped>, id: string)
    ensures Ids(Remove(comps, id)) <= Ids(comps) - {id}
    decreases comps
  {
    if comps != [] {
      var c := comps[0];
      RemoveIds(comps[1..], id);
      if c.id != id {
        RemoveIds(c.children, id);
        var head := [c.(children := Remove(c.children, id))];
        IdsAppend(head, Remove(comps[1..], id));
        assert head[1..] == [];
      } else {
        assert Remove(comps, id) == Remove(comps[1..], id);
      }
    }
  }

  /** Removing an id that is not in the tree changes nothing. */
  lemma {:induction false} RemoveAbsent(comps: seq<Dropped>, id: string)
    requires id !in Ids(comps)
    ensures Remove(comps, id) == comps
    decreases comps
  {
    if comps != [] {
      RemoveAbsent(comps[0].children, id);
      RemoveAbsent(comps[1..], id);
      assert comps == [comps[0]] + comps[1..];
    }
  }

  /** Removing an id keeps every root entry with another id. */
  lemma {:induction false} RemoveKeepsOthers(comps: seq<Dropped>, id: string, x: string)
    requires x != id
    requires exists i :: 0 <= i < |comps| && comps[i].id == x
    ensures x in Ids(Remove(comps, id))
    decreases comps
  {
    var r := Remove(comps, id);
    var c := comps[0];
    if c.id == x {
      IdsAppend([c.(children := Remove(c.children, id))], Remove(comps[1..], id));
    } else {
      var i :| 0 <= i < |comps| && comps[i].id == x;
      assert comps[1..][i - 1] == comps[i];
      RemoveKeepsOthers(comps[1..], id, x);
      if c.id != id {
        IdsAppend([c.(children := Remove(c.children, id))], Remove(comps[1..], id));
      } else {
        assert r == Remove(comps[1..], id);
      }
    }
  }

  /** `updateInTree`: the props given are merged over the props of each node
      with the id (whose children are not searched); nothing else changes. */
  function UpdateProps(comps: seq<Dropped>, id: string, props: seq<Prop>): (r: seq<Dropped>)
    decreases comps
    ensures |r| == |comps|
  {
    if comps == [] then []
    else
      var c := comps[0];
      var c' := if c.id == id then c.(props := Merge(c.props, props))
                else c.(children := UpdateProps(c.children, id, props));
      [c'] + UpdateProps(comps[1..], id, props)
  }

  /** After an update the node found for the id carries the merged props, and
      every other id finds a node with its props unchanged. */
  lemma {:induction false} UpdatePropsFind(comps: seq<Dropped>, id: string, props: seq<Prop>, x: string)
    ensures var after := Find(UpdateProps(comps, id, props), x);
      var before := Find(comps, x);
      after.Some? == before.Some? &&
      (before.Some? ==> after.value.id == x && after.value.props == (if x == id then Merge(before.value.props, props) else before.value.props))
    decreases comps
  {
    if comps != [] {
      var c := comps[0];
      var r := UpdateProps(comps, id, props);
      assert r[1..] == UpdateProps(comps[1..], id, props);
      UpdatePropsFind(comps[1..], id, props, x);
      FindMeaning(comps, x);
      if c.id != x && c.id != id {
        UpdatePropsFind(c.children, id, props, x);
      }
    }
  }

  /** An id that is not in the tree leaves it as it was. */
  lemma {:induction false} UpdatePropsAbsent(comps: seq<Dropped>, id: string, props: seq<Prop>)
    requires id !in Ids(comps)
    ensures UpdateProps(comps, id, props) == comps
    decreases comps
  {
    if comps != [] {
      UpdatePropsAbsent(comps[0].children, id, props);
      UpdatePropsAbsent(comps[1..], id, props);
      assert comps == [comps[0]] + comps[1..];
    }
  }

  lemma {:induction false} UpdatePropsIds(comps: seq<Dropped>, id: string, props: seq<Prop>)
    ensures Ids(UpdateProps(comps, id, props)) == Ids(comps)
    decreases comps
  {
    if comps != [] {
      UpdatePropsIds(comps[1..], id, props);
      if comps[0].id != id {
        UpdatePropsIds(comps[0].children, id, props);
      }
    }
  }

  /** `addToTree` of a move: the node goes in at `index` (with `splice`'s reading
      of the index) among the roots or the children of each node with the new
      parent's id, carrying that parent as its `parentId`. */
  function AddAt(comps: seq<Dropped>, parentId: Option<string>, index: int, m: Dropped): seq<Dropped> {
    if parentId.None? then InsertAt(comps, JsIndex(index, |comps|), m.(parentId := None))
    else AddAtUnder(comps, parentId.value, index, m)
  }

  function AddAtUnder(comps: seq<Dropped>, parentId: string, index: int, m: Dropped): (r: seq<Dropped>)
    decreases comps
    ensures |r| == |comps|
  {
    if comps == [] then []
    else
      var c := comps[0];
      var c' := if c.id == parentId then
                  c.(children := InsertAt(c.children, JsIndex(index, |c.children|), m.(parentId := Some(parentId))))
                else c.(children := AddAtUnder(c.children, parentId, index, m));
      [c'] + AddAtUnder(comps[1..], parentId, index, m)
  }

  /** `moveComponent` on the tree: no change for an id not in the tree; else the
      first node with the id is taken out, with every other node with that id,
      and put in at its new place. */
  function Move(comps: seq<Dropped>, id: string, parentId: Option<string>, index: int): seq<Dropped> {
    var m := Find(comps, id);
    if m.None? then comps
    else AddAt(Remove(comps, id), parentId, index, m.value)
  }

  /** Inserting a node whose id the tree lacks: the search finds that node. */
  lemma {:induction false} FindInserted(comps: seq<Dropped>, k: nat, m: Dropped)
    requires k <= |comps| && m.id !in Ids(comps)
    ensures Find(InsertAt(comps, k, m), m.id) == Some(m)
  {
    var a, b := comps[..k], comps[k..];
    assert comps == a + b;
    IdsAppend(a, b);
    FindMeaning(a, m.id);
    assert InsertAt(comps, k, m) == a + ([m] + b);
    FindAppend(a, [m] + b, m.id);
  }

  lemma {:induction false} AddAtUnderFound(comps: seq<Dropped>, parentId: string, index: int, m: Dropped)
    requires parentId in Ids(comps) && m.id !in Ids(comps)
    ensures Find(AddAtUnder(comps, parentId, index, m), m.id) == Some(m.(parentId := Some(parentId)))
    decreases comps
  {
    var c := comps[0];
    var r := AddAtUnder(comps, parentId, index, m);
    var m' := m.(parentId := Some(parentId));
    assert r[1..] == AddAtUnder(comps[1..], parentId, index, m);
    if c.id == parentId {
      FindInserted(c.children, JsIndex(index, |c.children|), m');
    } else if parentId in Ids(c.children) {
      AddAtUnderFound(c.children, parentId, index, m);
    } else {
      AddAtUnderAbsent(c.children, parentId, index, m);
      FindMeaning(c.children, m.id);
      AddAtUnderFound(comps[1..], parentId, index, m);
    }
  }

  lemma {:induction false} AddAtUnderAbsent(comps: seq<Dropped>, parentId: string, index: int, m: Dropped)
    requires parentId !in Ids(comps)
    ensures AddAtUnder(comps, parentId, index, m) == comps
    decreases comps
  {
    if comps != [] {
      AddAtUnderAbsent(comps[0].children, parentId, index, m);
      AddAtUnderAbsent(comps[1..], parentId, index, m);
      assert comps == [comps[0]] + comps[1..];
    }
  }

  /** A move of an id that is not in the tree changes nothing. */
  lemma MoveAbsent(comps: seq<Dropped>, id: string, parentId: Option<string>, index: int)
    requires id !in Ids(comps)
    ensures Move(comps, id, parentId, index) == comps
  {
    FindMeaning(comps, id);
  }

  /** After a move to the root, or under a parent still in the tree, the id
      finds the moved node with its new `parentId`. */
  lemma MoveFound(comps: seq<Dropped>, id: string, parentId: Option<string>, index: int)
    requires id in Ids(comps)
    requires parentId.Some? ==> parentId.value in Ids(Remove(comps, id))
    ensures var m := Find(comps, id);
      m.Some? && Find(Move(comps, id, parentId, index), id) == Some(m.value.(parentId := parentId))
  {
    FindMeaning(comps, id);
    var m := Find(comps, id).value;
    var rest := Remove(comps, id);
    RemoveIds(comps, id);
    if parentId.None? {
      FindInserted(rest, JsIndex(index, |rest|), m.(parentId := None));
    } else {
      AddAtUnderFound(rest, parentId.value, index, m);
    }
  }

  /** A move under a parent that is gone once the node is taken out (one that is
      not in the tree, or the node itself, or one of its descendants) drops the
      node and its subtree. */
  lemma MoveToMissingParent(comps: seq<Dropped>, id: string, parentId: string, index: int)
    requires id in Ids(comps)
    requires parentId !in Ids(Remove(comps, id))
    ensures Move(comps, id, Some(parentId), index) == Remove(comps, id)
    ensures id !in Ids(Move(comps, id, Some(parentId), index))
  {
    FindMeaning(comps, id);
    AddAtUnderAbsent(Remove(comps, id), parentId, index, Find(comps, id).value);
    RemoveIds(comps, id);
  }
}
