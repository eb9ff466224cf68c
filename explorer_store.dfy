/** The file-explorer store (gui-edit/src/stores/explorer.ts): the loaded tree,
    the set of expanded directories, the selection and the loading flags. The
    tree's nodes are the `FileNode`s the directory listing returns. */
module ExplorerStoreModel {
  import opened Wrappers
  import opened FsCommands

  /** The expanded set after `setExpanded(path, expanded)`. */
  function WithExpanded(paths: set<string>, path: string, expanded: bool): (r: set<string>)
    ensures path in r <==> expanded
    ensures forall q :: q != path ==> (q in r <==> q in paths)
  {
    if expanded then paths + {path} else paths - {path}
  }

  /** Setting the same flag twice is setting it once. */
  lemma WithExpandedIdempotent(paths: set<string>, path: string, expanded: bool)
    ensures WithExpanded(WithExpanded(paths, path, expanded), path, expanded) == WithExpanded(paths, path, expanded)
  {
  }

  /** The expanded set after `toggleExpand(path)`. */
  function Toggled(paths: set<string>, path: string): (r: set<string>)
    ensures path in r <==> path !in paths
    ensures forall q :: q != path ==> (q in r <==> q in paths)
  {
    WithExpanded(paths, path, path !in paths)
  }

  /** Toggling twice restores the set. */
  lemma ToggledTwice(paths: set<string>, path: string)
    ensures Toggled(Toggled(paths, path), path) == paths
  {
  }

  /** `updateChildren`: the nodes whose path is `path` get `children` (which are
      not searched further); the others keep their fields and have their child
      lists, when loaded, updated the same way. */
  function UpdateChildren(nodes: seq<FileNode>, path: string, children: seq<FileNode>): (r: seq<FileNode>)
    ensures |r| == |nodes|
    ensures forall i :: 0 <= i < |r| ==> SameEntry(r[i], nodes[i])
  {
    seq(|nodes|, i requires 0 <= i < |nodes| => UpdateNode(nodes[i], path, children))
  }

  function UpdateNode(node: FileNode, path: string, children: seq<FileNode>): (r: FileNode)
    decreases node
    ensures SameEntry(r, node)
  {
    if node.path == path then node.(children := Loaded(children))
    else if node.children.Loaded? then
      var cs := node.children.nodes;
      node.(children := Loaded(seq(|cs|, i requires 0 <= i < |cs| => (assert cs[i] in cs; UpdateNode(cs[i], path, children)))))
    else node
  }

  /** Two nodes for the same directory entry: name, path, kind and extension. */
  predicate SameEntry(a: FileNode, b: FileNode) {
    a.name == b.name && a.path == b.path && a.isDir == b.isDir && a.extension == b.extension
  }

  /** Some node of the tree, at any depth, has the path. */
  ghost predicate Occurs(nodes: seq<FileNode>, path: string) {
    exists i :: 0 <= i < |nodes| && OccursIn(nodes[i], path)
  }

  ghost predicate OccursIn(node: FileNode, path: string)
    decreases node
  {
    node.path == path ||
    (node.children.Loaded? &&
     exists i :: 0 <= i < |node.children.nodes| && (assert node.children.nodes[i] in node.children.nodes; OccursIn(node.children.nodes[i], path)))
  }

  /** Every node with the path, down to the first such node on each branch,
      carries exactly `children`. */
  ghost predicate Replaced(nodes: seq<FileNode>, path: string, children: seq<FileNode>) {
    forall i :: 0 <= i < |nodes| ==> ReplacedIn(nodes[i], path, children)
  }

  ghost predicate ReplacedIn(node: FileNode, path: string, children: seq<FileNode>)
    decreases node
  {
    if node.path == path then node.children == Loaded(children)
    else
      node.children.Loaded? ==>
        forall i :: 0 <= i < |node.children.nodes| ==>
          (assert node.children.nodes[i] in node.children.nodes; ReplacedIn(node.children.nodes[i], path, children))
  }

  /** After the update every node with the path has the new children. */
  lemma UpdateReplaces(nodes: seq<FileNode>, path: string, children: seq<FileNode>)
    ensures Replaced(UpdateChildren(nodes, path, children), path, children)
  {
    forall i | 0 <= i < |nodes| ensures ReplacedIn(UpdateNode(nodes[i], path, children), path, children) {
      UpdateNodeReplaces(nodes[i], path, children);
    }
  }

  lemma {:induction false} UpdateNodeReplaces(node: FileNode, path: string, children: seq<FileNode>)
    decreases node
    ensures ReplacedIn(UpdateNode(node, path, children), path, children)
  {
    if node.path != path && node.children.Loaded? {
      var cs := node.children.nodes;
      forall i | 0 <= i < |cs| ensures ReplacedIn(UpdateNode(cs[i], path, children), path, children) {
        assert cs[i] in cs;
        UpdateNodeReplaces(cs[i], path, children);
      }
    }
  }

  /** A path that occurs nowhere in the tree leaves the tree as it was. */
  lemma UpdateAbsent(nodes: seq<FileNode>, path: string, children: seq<FileNode>)
    requires !Occurs(nodes, path)
    ensures UpdateChildren(nodes, path, children) == nodes
  {
    forall i | 0 <= i < |nodes| ensures UpdateNode(nodes[i], path, children) == nodes[i] {
      UpdateNodeAbsent(nodes[i], path, children);
    }
  }

  lemma {:induction false} UpdateNodeAbsent(node: FileNode, path: string, children: seq<FileNode>)
    requires !OccursIn(node, path)
    decreases node
    ensures UpdateNode(node, path, children) == node
  {
    if node.children.Loaded? {
      var cs := node.children.nodes;
      forall i | 0 <= i < |cs| ensures UpdateNode(cs[i], path, children) == cs[i] {
        assert cs[i] in cs;
        UpdateNodeAbsent(cs[i], path, children);
      }
      assert UpdateNode(node, path, children).children.nodes == cs;
    }
  }

  class ExplorerStore {
    var rootNodes: seq<FileNode>
    var expandedPaths: set<string>
    var selectedPath: Option<string>
    var isLoading: bool
    var error: Option<string>

    constructor()
      ensures rootNodes == [] && expandedPaths == {} && selectedPath == None
      ensures !isLoading && error == None
    {
      rootNodes, expandedPaths, selectedPath := [], {}, None;
      isLoading, error := false, None;
    }

    /** A fresh listing ends loading and clears the error. */
    method SetRootNodes(nodes: seq<FileNode>)
      modifies this
      ensures rootNodes == nodes && !isLoading && error == None
      ensures expandedPaths == old(expandedPaths) && selectedPath == old(selectedPath)
    {
      rootNodes, isLoading, error := nodes, false, None;
    }

    /** `path` changes membership; no other path does. */
    method ToggleExpand(path: string)
      modifies this
      ensures path in expandedPaths <==> path !in old(expandedPaths)
      ensures forall q :: q != path ==> (q in expandedPaths <==> q in old(expandedPaths))
      ensures rootNodes == old(rootNodes) && selectedPath == old(selectedPath)
      ensures isLoading == old(isLoading) && error == old(error)
    {
      expandedPaths := Toggled(expandedPaths, path);
    }

    method SetExpanded(path: string, expanded: bool)
      modifies this
      ensures path in expandedPaths <==> expanded
      ensures forall q :: q != path ==> (q in expandedPaths <==> q in old(expandedPaths))
      ensures rootNodes == old(rootNodes) && selectedPath == old(selectedPath)
      ensures isLoading == old(isLoading) && error == old(error)
    {
      expandedPaths := WithExpanded(expandedPaths, path, expanded);
    }

    method SetSelectedPath(path: Option<string>)
      modifies this
      ensures selectedPath == path
      ensures rootNodes == old(rootNodes) && expandedPaths == old(expandedPaths)
      ensures isLoading == old(isLoading) && error == old(error)
    {
      selectedPath := path;
    }

    method SetLoading(loading: bool)
      modifies this
      ensures isLoading == loading
      ensures rootNodes == old(rootNodes) && expandedPaths == old(expandedPaths)
      ensures selectedPath == old(selectedPath) && error == old(error)
    {
      isLoading := loading;
    }

    /** Recording an error (or clearing it) ends loading. */
    method SetError(e: Option<string>)
      modifies this
      ensures error == e && !isLoading
      ensures rootNodes == old(rootNodes) && expandedPaths == old(expandedPaths)
      ensures selectedPath == old(selectedPath)
    {
      error, isLoading := e, false;
    }

    /** Lazy loading of a directory: every node with the path gets the
        children, and the path is expanded. */
    method SetChildren(path: string, children: seq<FileNode>)
      modifies this
      ensures rootNodes == UpdateChildren(old(rootNodes), path, children)
      ensures Replaced(rootNodes, path, children)
      ensures !Occurs(old(rootNodes), path) ==> rootNodes == old(rootNodes)
      ensures expandedPaths == old(expandedPaths) + {path}
      ensures selectedPath == old(selectedPath) && isLoading == old(isLoading) && error == old(error)
    {
      UpdateReplaces(rootNodes, path, children);
      if !Occurs(rootNodes, path) {
        UpdateAbsent(rootNodes, path, children);
      }
      rootNodes := UpdateChildren(rootNodes, path, children);
      expandedPaths := expandedPaths + {path};
    }
  }
}
