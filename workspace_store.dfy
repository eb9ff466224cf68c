/** The workspace store (gui-edit/src/stores/workspace.ts): the open project and
    the list of recently opened projects, most recent first. */
module WorkspaceStoreModel {
  import opened Wrappers
  import opened JsArrays

  datatype Theme = Light | Dark | System

  const MaxRecent: nat := 10

  /** `[path, ...filtered].slice(0, 10)`. */
  function AddRecent(recent: seq<string>, path: string): (r: seq<string>)
    ensures 1 <= |r| <= MaxRecent && r[0] == path
  {
    var all := [path] + Without(recent, path);
    all[..if |all| < MaxRecent then |all| else MaxRecent]
  }

  /** After adding a project the list holds it exactly once. */
  lemma AddRecentOnce(recent: seq<string>, path: string)
    ensures multiset(AddRecent(recent, path))[path] == 1
  {
    var w := Without(recent, path);
    var k := |AddRecent(recent, path)| - 1;
    WithoutCount(recent, path);
    PrefixCount(w, k, path);
    assert AddRecent(recent, path) == [path] + w[..k];
  }

  /** A prefix holds an element no more often than the whole. */
  lemma PrefixCount(w: seq<string>, k: nat, x: string)
    requires k <= |w|
    ensures multiset(w[..k])[x] <= multiset(w)[x]
  {
    assert w == w[..k] + w[k..];
  }

  /** After the project come the others in their old order, as many as fit in
      ten entries. */
  lemma AddRecentOrder(recent: seq<string>, path: string)
    ensures var r := AddRecent(recent, path);
      var w := Without(recent, path);
      |r| == (if 1 + |w| < MaxRecent then 1 + |w| else MaxRecent) &&
      r[1..] == w[..|r| - 1]
  {
  }

  /** Adding the project at the head of a list without repeats changes nothing. */
  lemma AddRecentAgain(recent: seq<string>, path: string)
    requires 1 <= |recent| <= MaxRecent && recent[0] == path
    requires path !in recent[1..]
    ensures AddRecent(recent, path) == recent
  {
    WithoutUnchanged(recent[1..], path);
    assert Without(recent, path) == recent[1..];
    assert [path] + recent[1..] == recent;
  }

  class WorkspaceStore {
    var projectPath: Option<string>
    var recentProjects: seq<string>
    var theme: Theme

    constructor()
      ensures projectPath == None && recentProjects == [] && theme == Dark
    {
      projectPath, recentProjects, theme := None, [], Dark;
    }

    method AddRecentProject(path: string)
      modifies this
      ensures recentProjects == AddRecent(old(recentProjects), path)
      ensures recentProjects[0] == path && |recentProjects| <= MaxRecent
      ensures projectPath == old(projectPath) && theme == old(theme)
    {
      recentProjects := AddRecent(recentProjects, path);
    }

    /** Opening a project records it as recent; closing it (`null`) or an empty
        path (which JavaScript reads as false) does not. */
    method SetProjectPath(path: Option<string>)
      modifies this
      ensures projectPath == path
      ensures path.Some? && path.value != "" ==> recentProjects == AddRecent(old(recentProjects), path.value)
      ensures !(path.Some? && path.value != "") ==> recentProjects == old(recentProjects)
      ensures theme == old(theme)
    {
      projectPath := path;
      if path.Some? && path.value != "" {
        AddRecentProject(path.value);
      }
    }

    /** The theme only; applying it to the document is not modelled. */
    method SetTheme(t: Theme)
      modifies this
      ensures theme == t
      ensures projectPath == old(projectPath) && recentProjects == old(recentProjects)
    {
      theme := t;
    }
  }
}
