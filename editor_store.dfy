/** The editor's tab store (gui-edit/src/stores/editor.ts): the open tabs, in
    order, and the id of the active one. Each action replaces the two fields. */
module EditorStoreModel {
  import opened Wrappers
  import opened Strings
  import opened JsArrays

  datatype EditorTab = EditorTab(id: string, path: string, name: string, content: string,
                                 originalContent: string, language: string, isDirty: bool)

  /** What `openTab` is given: a tab without its original content. */
  datatype NewTab = NewTab(id: string, path: string, name: string, content: string,
                           language: string, isDirty: bool)

  /** The tab `openTab` adds: its original content is the content it opens with. */
  function Opened(t: NewTab): (r: EditorTab)
    ensures r.originalContent == r.content == t.content
    ensures r.id == t.id && r.path == t.path && r.name == t.name
    ensures r.language == t.language && r.isDirty == t.isDirty
  {
    EditorTab(t.id, t.path, t.name, t.content, t.content, t.language, t.isDirty)
  }

  /** The index of the first tab with the path (`find` by path), or -1. */
  function PathIndex(tabs: seq<EditorTab>, path: string): (r: int)
    ensures -1 <= r < |tabs|
    ensures r >= 0 ==> tabs[r].path == path && forall j :: 0 <= j < r ==> tabs[j].path != path
    ensures r < 0 ==> forall j :: 0 <= j < |tabs| ==> tabs[j].path != path
  {
    if tabs == [] then -1
    else if tabs[0].path == path then 0
    else
      var k := PathIndex(tabs[1..], path);
      if k < 0 then -1 else k + 1
  }

  /** `findIndex` by id: the first tab with the id, or -1. */
  function IdIndex(tabs: seq<EditorTab>, id: string): (r: int)
    ensures -1 <= r < |tabs|
    ensures r >= 0 ==> tabs[r].id == id && forall j :: 0 <= j < r ==> tabs[j].id != id
    ensures r < 0 ==> forall j :: 0 <= j < |tabs| ==> tabs[j].id != id
  {
    if tabs == [] then -1
    else if tabs[0].id == id then 0
    else
      var k := IdIndex(tabs[1..], id);
      if k < 0 then -1 else k + 1
  }

  /** `filter` by id: the tabs without the id, in their order. */
  function WithoutId(tabs: seq<EditorTab>, id: string): (r: seq<EditorTab>)
    ensures |r| <= |tabs|
  {
    if tabs == [] then []
    else if tabs[0].id == id then WithoutId(tabs[1..], id)
    else [tabs[0]] + WithoutId(tabs[1..], id)
  }

  /** The filter keeps exactly the tabs without the id. */
  lemma {:induction false} WithoutIdMembers(tabs: seq<EditorTab>, id: string)
    ensures forall t :: t in WithoutId(tabs, id) <==> t in tabs && t.id != id
  {
    if tabs != [] {
      WithoutIdMembers(tabs[1..], id);
      assert tabs == [tabs[0]] + tabs[1..];
    }
  }

  /** Closing an id that only the tab at `k` has removes exactly that tab. */
  lemma {:induction false} WithoutUniqueId(tabs: seq<EditorTab>, id: string, k: nat)
    requires k < |tabs| && tabs[k].id == id
    requires forall j :: 0 <= j < |tabs| && j != k ==> tabs[j].id != id
    ensures WithoutId(tabs, id) == RemoveAt(tabs, k)
  {
    if k == 0 {
      WithoutAbsent(tabs[1..], id);
    } else {
      var rest := tabs[1..];
      assert tabs[0].id != id;
      WithoutUniqueId(rest, id, k - 1);
      assert tabs[..k] == [tabs[0]] + rest[..k - 1];
      assert tabs[k + 1..] == rest[k..];
      calc {
        RemoveAt(tabs, k);
        tabs[..k] + tabs[k + 1..];
        ([tabs[0]] + rest[..k - 1]) + rest[k..];
        [tabs[0]] + (rest[..k - 1] + rest[k..]);
        [tabs[0]] + RemoveAt(rest, k - 1);
      }
    }
  }

  /** Closing an id no tab has changes no tab. */
  lemma {:induction false} WithoutAbsent(tabs: seq<EditorTab>, id: string)
    requires forall j :: 0 <= j < |tabs| ==> tabs[j].id != id
    ensures WithoutId(tabs, id) == tabs
  {
    if tabs != [] {
      WithoutAbsent(tabs[1..], id);
    }
  }

  /** No two tabs have the same path: `openTab` never opens a path twice. */
  predicate DistinctPaths(tabs: seq<EditorTab>) {
    forall i, j :: 0 <= i < j < |tabs| ==> tabs[i].path != tabs[j].path
  }

  lemma {:induction false} WithoutIdDistinct(tabs: seq<EditorTab>, id: string)
    requires DistinctPaths(tabs)
    ensures DistinctPaths(WithoutId(tabs, id))
  {
    if tabs != [] {
      var rest := tabs[1..];
      WithoutIdDistinct(rest, id);
      if tabs[0].id != id {
        var w := WithoutId(rest, id);
        WithoutIdMembers(rest, id);
        forall j | 0 <= j < |w| ensures tabs[0].path != w[j].path {
          assert w[j] in rest;
          var m :| 0 <= m < |rest| && rest[m] == w[j];
          assert tabs[m + 1] == w[j];
        }
      }
    }
  }

  lemma MoveDistinct(tabs: seq<EditorTab>, f: nat, to: int)
    requires DistinctPaths(tabs) && f < |tabs|
    ensures DistinctPaths(Move(tabs, f, to))
  {
    var rest := RemoveAt(tabs, f);
    assert DistinctPaths(rest) by {
      forall i, j | 0 <= i < j < |rest| ensures rest[i].path != rest[j].path {
        var i' := if i < f then i else i + 1;
        var j' := if j < f then j else j + 1;
        assert rest[i] == tabs[i'] && rest[j] == tabs[j'];
      }
    }
    forall i | 0 <= i < |rest| ensures rest[i].path != tabs[f].path {
      var i' := if i < f then i else i + 1;
      assert rest[i] == tabs[i'];
    }
    var k := JsIndex(to, |tabs| - 1);
    var r := InsertAt(rest, k, tabs[f]);
    forall i, j | 0 <= i < j < |r| ensures r[i].path != r[j].path {
      var i' := if i < k then i else i - 1;
      var j' := if j < k then j else j - 1;
      if i != k && j != k {
        assert r[i] == rest[i'] && r[j] == rest[j'];
      } else if i == k {
        assert r[j] == rest[j'];
      } else {
        assert r[i] == rest[i'];
      }
    }
  }

  /** The active id after `closeTab`, or `None` where the source throws: when the
      active id names no tab but tabs remain, `newTabs[-1]` is `undefined` and
      reading its `id` fails. */
  function ClosedActive(tabs: seq<EditorTab>, active: Option<string>, id: string): Option<Option<string>> {
    var newTabs := WithoutId(tabs, id);
    var k := IdIndex(tabs, id);
    if active != Some(id) then Some(active)
    else if newTabs == [] then Some(None)
    else if k >= |newTabs| then Some(Some(newTabs[|newTabs| - 1].id))
    else if k < 0 then None
    else Some(Some(newTabs[k].id))
  }

  /** Closing the active tab whose id is unique activates its right neighbour, or
      its left one when it was last, or nothing when it was alone; closing any
      other tab keeps the active id. */
  lemma ClosedActiveRule(tabs: seq<EditorTab>, active: Option<string>, id: string, k: nat)
    requires k < |tabs| && tabs[k].id == id
    requires forall j :: 0 <= j < |tabs| && j != k ==> tabs[j].id != id
    ensures active != Some(id) ==> ClosedActive(tabs, active, id) == Some(active)
    ensures active == Some(id) && |tabs| == 1 ==> ClosedActive(tabs, active, id) == Some(None)
    ensures active == Some(id) && 1 < |tabs| && k == |tabs| - 1 ==>
      ClosedActive(tabs, active, id) == Some(Some(tabs[k - 1].id))
    ensures active == Some(id) && k < |tabs| - 1 ==>
      ClosedActive(tabs, active, id) == Some(Some(tabs[k + 1].id))
  {
    WithoutUniqueId(tabs, id, k);
  }

  /** `closeTab` throws exactly when the active id is the one closed, no tab has
      it, and some tab is open. */
  lemma ClosedActiveThrows(tabs: seq<EditorTab>, active: Option<string>, id: string)
    ensures ClosedActive(tabs, active, id).None? <==>
      active == Some(id) && IdIndex(tabs, id) < 0 && tabs != []
  {
    if IdIndex(tabs, id) < 0 {
      WithoutAbsent(tabs, id);
    } else {
      assert tabs[IdIndex(tabs, id)] in tabs;
    }
  }

  class EditorStore {
    var tabs: seq<EditorTab>
    var activeTabId: Option<string>

    /** The initial state: no tab, none active. */
    constructor()
      ensures tabs == [] && activeTabId == None
    {
      tabs := [];
      activeTabId := None;
    }

    /** `openTab`: an open path is only activated; a new one is appended with its
        original content and becomes active. Paths stay distinct. */
    method OpenTab(tab: NewTab)
      modifies this
      ensures var k := PathIndex(old(tabs), tab.path);
        (k >= 0 ==> tabs == old(tabs) && activeTabId == Some(old(tabs)[k].id)) &&
        (k < 0 ==> tabs == old(tabs) + [Opened(tab)] && activeTabId == Some(tab.id))
      ensures old(DistinctPaths(tabs)) ==> DistinctPaths(tabs)
    {
      var k := PathIndex(tabs, tab.path);
      if k >= 0 {
        activeTabId := Some(tabs[k].id);
        return;
      }
      var newTab := Opened(tab);
      tabs := tabs + [newTab];
      activeTabId := Some(newTab.id);
    }

    /** `closeTab`: the tabs with the id go, and the active id follows
        `ClosedActive`; when that throws, nothing changes. */
    method CloseTab(id: string) returns (threw: bool)
      modifies this
      ensures threw <==> ClosedActive(old(tabs), old(activeTabId), id).None?
      ensures threw ==> tabs == old(tabs) && activeTabId == old(activeTabId)
      ensures !threw ==> (tabs == WithoutId(old(tabs), id) &&
                          activeTabId == ClosedActive(old(tabs), old(activeTabId), id).value)
      ensures old(DistinctPaths(tabs)) ==> DistinctPaths(tabs)
    {
      var tabIndex := IdIndex(tabs, id);
      var newTabs := WithoutId(tabs, id);
      var newActiveId := activeTabId;
      if activeTabId == Some(id) {
        if |newTabs| == 0 {
          newActiveId := None;
        } else if tabIndex >= |newTabs| {
          newActiveId := Some(newTabs[|newTabs| - 1].id);
        } else if tabIndex < 0 {
          return true;
        } else {
          newActiveId := Some(newTabs[tabIndex].id);
        }
      }
      if DistinctPaths(tabs) {
        WithoutIdDistinct(tabs, id);
      }
      tabs, activeTabId := newTabs, newActiveId;
      threw := false;
    }

    /** `closeAllTabs`. */
    method CloseAllTabs()
      modifies this
      ensures tabs == [] && activeTabId == None
    {
      tabs, activeTabId := [], None;
    }

    /** `closeOtherTabs`: only the first tab with the id is left, and it is
        active; an absent id changes nothing. */
    method CloseOtherTabs(id: string)
      modifies this
      ensures var k := IdIndex(old(tabs), id);
        (k >= 0 ==> tabs == [old(tabs)[k]] && activeTabId == Some(id)) &&
        (k < 0 ==> tabs == old(tabs) && activeTabId == old(activeTabId))
      ensures DistinctPaths(tabs) || tabs == old(tabs)
    {
      var k := IdIndex(tabs, id);
      if k >= 0 {
        tabs, activeTabId := [tabs[k]], Some(id);
      }
    }

    /** `setActiveTab`: any id, whether a tab has it or not. */
    method SetActiveTab(id: string)
      modifies this
      ensures activeTabId == Some(id) && tabs == old(tabs)
    {
      activeTabId := Some(id);
    }

    /** `updateTabContent`: the content of each tab with the id; nothing else. */
    method UpdateTabContent(id: string, content: string)
      modifies this
      ensures |tabs| == |old(tabs)| && activeTabId == old(activeTabId)
      ensures forall i :: 0 <= i < |tabs| ==>
        tabs[i] == if old(tabs)[i].id == id then old(tabs)[i].(content := content) else old(tabs)[i]
      ensures old(DistinctPaths(tabs)) ==> DistinctPaths(tabs)
    {
      tabs := seq(|tabs|, i requires 0 <= i < |tabs| reads this =>
        if tabs[i].id == id then tabs[i].(content := content) else tabs[i]);
    }

    /** `markTabDirty`: the dirty flag of each tab with the id; nothing else. */
    method MarkTabDirty(id: string, isDirty: bool)
      modifies this
      ensures |tabs| == |old(tabs)| && activeTabId == old(activeTabId)
      ensures forall i :: 0 <= i < |tabs| ==>
        tabs[i] == if old(tabs)[i].id == id then old(tabs)[i].(isDirty := isDirty) else old(tabs)[i]
      ensures old(DistinctPaths(tabs)) ==> DistinctPaths(tabs)
    {
      tabs := seq(|tabs|, i requires 0 <= i < |tabs| reads this =>
        if tabs[i].id == id then tabs[i].(isDirty := isDirty) else tabs[i]);
    }

    /** `markSaved`: each tab with the id holds the saved content as both its
        content and its original content, and is clean. */
    method MarkSaved(id: string, content: string)
      modifies this
      ensures |tabs| == |old(tabs)| && activeTabId == old(activeTabId)
      ensures forall i :: 0 <= i < |tabs| && old(tabs)[i].id == id ==>
        tabs[i].content == tabs[i].originalContent == content && !tabs[i].isDirty &&
        tabs[i] == old(tabs)[i].(content := content, originalContent := content, isDirty := false)
      ensures forall i :: 0 <= i < |tabs| && old(tabs)[i].id != id ==> tabs[i] == old(tabs)[i]
      ensures old(DistinctPaths(tabs)) ==> DistinctPaths(tabs)
    {
      tabs := seq(|tabs|, i requires 0 <= i < |tabs| reads this =>
        if tabs[i].id == id then tabs[i].(content := content, originalContent := content, isDirty := false)
        else tabs[i]);
    }

    /** `reorderTabs`, corrected: a `fromIndex` that names a tab moves that tab to
        `toIndex`, permuting the tabs; one that names none leaves them as they are. */
    method ReorderTabs(fromIndex: int, toIndex: int)
      modifies this
      ensures activeTabId == old(activeTabId)
      ensures var f := JsIndex(fromIndex, |old(tabs)|);
        (f < |old(tabs)| ==> tabs == Move(old(tabs), f, toIndex)) &&
        (f >= |old(tabs)| ==> tabs == old(tabs))
      ensures |tabs| == |old(tabs)| && multiset(tabs) == multiset(old(tabs))
      ensures old(DistinctPaths(tabs)) ==> DistinctPaths(tabs)
    {
      var f := JsIndex(fromIndex, |tabs|);
      if f < |tabs| {
        MoveFacts(tabs, f, toIndex);
        if DistinctPaths(tabs) {
          MoveDistinct(tabs, f, toIndex);
        }
        tabs := Move(tabs, f, toIndex);
      }
    }
  }
}
