/** The quick-open dialog (gui-edit/src/components/command-palette/QuickOpen.tsx):
    the files of the explorer tree listed with paths relative to the project,
    the search that narrows them to at most twenty, and the tab a pick
    opens. Reading the picked file is an outcome given to the model. */
module QuickOpenModel {
  import opened Wrappers
  import opened Strings
  import opened FsCommands
  import opened UiStoreModel
  import opened EditorStoreModel
  import opened JsArrays

  /** The editor language of each known extension. */
  const Languages: map<string, string> := map[
    "ts" := "typescript", "tsx" := "typescriptreact", "js" := "javascript",
    "jsx" := "javascriptreact", "json" := "json", "md" := "markdown",
    "css" := "css", "scss" := "scss", "html" := "html", "yaml" := "yaml",
    "yml" := "yaml", "toml" := "toml", "rs" := "rust", "py" := "python", "go" := "go"
  ]

  /** `getLanguageFromExtension`: the language of a known extension, and
      "plaintext" for every other one. */
  function LanguageOf(ext: string): (r: string)
    ensures r == "plaintext" <==> ext !in Languages
    ensures ext in Languages ==> r == Languages[ext]
  {
    if ext in Languages then Languages[ext] else "plaintext"
  }

  /** `name.split(".").pop() || ""`: the text after the last dot, or the
      whole name when it has none. */
  function Ext(name: string): string {
    var parts := Split(name, '.');
    parts[|parts| - 1]
  }

  lemma ExtAfterLastDot(stem: string, ext: string)
    requires '.' !in ext
    ensures Ext(stem + "." + ext) == ext
  {
    SplitSnoc(stem, '.', ext);
  }

  lemma ExtWithoutDot(name: string)
    requires '.' !in name
    ensures Ext(name) == name
  {
    SplitWithout(name, '.');
  }

  // ---------------------------------------------------------------------
  // The file list

  /** One entry of `flattenFiles`. */
  datatype FileEntry = FileEntry(name: string, path: string, relativePath: string)

  /** `node.path.replace(rootPath + "/", "")`: the first occurrence of the
      project path and a slash is removed. */
  function RelativePath(path: string, root: string): string {
    ReplaceFirst(path, root + "/", "")
  }

  /** A path under the project loses exactly the project prefix. */
  lemma RelativePathUnder(root: string, rest: string)
    ensures RelativePath(root + "/" + rest, root) == rest
  {
    var p := root + "/";
    assert (p + rest)[..|p|] == p;
    assert (p + rest)[|p|..] == rest;
  }

  /** A path that does not contain the project path is kept as it is. */
  lemma RelativePathOutside(path: string, root: string)
    requires !Contains(path, root + "/")
    ensures RelativePath(path, root) == path
  {
    IndexOfFirst(path, root + "/");
    ReplaceFirstNone(path, root + "/", "");
  }

  /** The listed children of a node (`node.children`, absent when not
      loaded). */
  function Kids(n: FileNode): seq<FileNode> {
    if n.children.Loaded? then n.children.nodes else []
  }

  /** Every node of the forest, each before its children: the order of
      `traverse`. */
  function Preorder(nodes: seq<FileNode>): seq<FileNode>
    decreases nodes
  {
    if nodes == [] then []
    else
      var n := nodes[0];
      [n] + (if n.children.Loaded? then Preorder(n.children.nodes) else []) + Preorder(nodes[1..])
  }

  /** A forest that starts with a node: the node, its subtree, then the rest. */
  lemma PreorderCons(nodes: seq<FileNode>)
    requires nodes != []
    ensures Preorder(nodes) == [nodes[0]] + Preorder(Kids(nodes[0])) + Preorder(nodes[1..])
  {
  }

  /** The entry a file node makes. */
  function Entry(n: FileNode, root: string): FileEntry {
    FileEntry(n.name, n.path, RelativePath(n.path, root))
  }

  /** The entries of the nodes that are not directories, in their order. */
  function FileEntries(ns: seq<FileNode>, root: string): seq<FileEntry> {
    if ns == [] then []
    else (if !ns[0].isDir then [Entry(ns[0], root)] else []) + FileEntries(ns[1..], root)
  }

  lemma {:induction false} FileEntriesAppend(a: seq<FileNode>, b: seq<FileNode>, root: string)
    ensures FileEntries(a + b, root) == FileEntries(a, root) + FileEntries(b, root)
  {
    if a == [] {
      assert a + b == b;
    } else {
      assert (a + b)[0] == a[0];
      assert (a + b)[1..] == a[1..] + b;
      FileEntriesAppend(a[1..], b, root);
      var h := if !a[0].isDir then [Entry(a[0], root)] else [];
      assert h + (FileEntries(a[1..], root) + FileEntries(b, root)) == h + FileEntries(a[1..], root) + FileEntries(b, root);
    }
  }

  /** What `traverse` pushes for a list of nodes: each node's entry when it
      is a file, then what its children push. */
  function Flat(nodes: seq<FileNode>, root: string): seq<FileEntry>
    decreases nodes
  {
    if nodes == [] then []
    else
      var n := nodes[0];
      (if !n.isDir then [Entry(n, root)] else []) +
      (if n.children.Loaded? then Flat(n.children.nodes, root) else []) +
      Flat(nodes[1..], root)
  }

  lemma FlatCons(nodes: seq<FileNode>, root: string)
    requires nodes != []
    ensures var n := nodes[0];
      Flat(nodes, root) ==
      (if !n.isDir then [Entry(n, root)] else []) +
      (if n.children.Loaded? then Flat(n.children.nodes, root) else []) +
      Flat(nodes[1..], root)
  {
  }

  /** The list is exactly the file entries of the nodes taken in
      pre-order. */
  lemma {:induction false} FlatIsPreorder(nodes: seq<FileNode>, root: string)
    ensures Flat(nodes, root) == FileEntries(Preorder(nodes), root)
    decreases nodes
  {
    if nodes != [] {
      var n := nodes[0];
      var sub, rest := Preorder(Kids(n)), Preorder(nodes[1..]);
      if n.children.Loaded? {
        FlatIsPreorder(n.children.nodes, root);
      }
      FlatIsPreorder(nodes[1..], root);
      PreorderCons(nodes);
      assert [n][1..] == [];
      FileEntriesAppend([n] + sub, rest, root);
      FileEntriesAppend([n], sub, root);
    }
  }

  /** The list holds exactly the entries of the nodes that are not
      directories. */
  lemma {:induction false} FileEntriesMembers(ns: seq<FileNode>, root: string)
    ensures forall e :: e in FileEntries(ns, root) <==> exists n :: n in ns && !n.isDir && e == Entry(n, root)
  {
    if ns != [] {
      FileEntriesMembers(ns[1..], root);
      assert ns == [ns[0]] + ns[1..];
    }
  }

  /** The traversal reaches every node: the roots, and the listed children of
      every node it reaches. */
  lemma {:induction false} PreorderClosed(nodes: seq<FileNode>)
    ensures forall n :: n in nodes ==> n in Preorder(nodes)
    ensures forall n, c :: n in Preorder(nodes) && c in Kids(n) ==> c in Preorder(nodes)
    decreases nodes
  {
    if nodes != [] {
      var n0 := nodes[0];
      PreorderCons(nodes);
      if n0.children.Loaded? {
        PreorderClosed(n0.children.nodes);
      }
      PreorderClosed(nodes[1..]);
      assert nodes == [n0] + nodes[1..];
    }
  }

  /** What `traverse` pushes for a node itself. */
  function Own(n: FileNode, root: string): seq<FileEntry> {
    if !n.isDir then [Entry(n, root)] else []
  }

  /** One node of the loop in `traverse`: its own entry and its children's
      go before the entries of the nodes after it. */
  lemma TraverseStep(nodes: seq<FileNode>, i: int, root: string, start: seq<FileEntry>)
    requires 0 <= i < |nodes|
    ensures var n := nodes[i];
      var kids := if n.children.Loaded? then Flat(n.children.nodes, root) else [];
      start + Own(n, root) + kids + Flat(nodes[i + 1..], root) == start + Flat(nodes[i..], root)
  {
    var n := nodes[i];
    assert nodes[i..][0] == n && nodes[i..][1..] == nodes[i + 1..];
    FlatCons(nodes[i..], root);
    var own, kids, rest := Own(n, root), (if n.children.Loaded? then Flat(n.children.nodes, root) else []), Flat(nodes[i + 1..], root);
    Assoc(start, own, kids);
    Assoc(start, own + kids, rest);
  }

  /** `traverse` over a list of nodes, pushing onto `files`: every file
      entry of the subtrees in pre-order goes after what was there. */
  method Traverse(nodes: seq<FileNode>, rootPath: string, files: seq<FileEntry>) returns (out: seq<FileEntry>)
    ensures out == files + Flat(nodes, rootPath)
    decreases nodes
  {
    out := files;
    var i := 0;
    while i < |nodes|
      invariant 0 <= i <= |nodes|
      invariant out + Flat(nodes[i..], rootPath) == files + Flat(nodes, rootPath)
    {
      var node := nodes[i];
      ghost var start := out;
      if !node.isDir {
        var relativePath := ReplaceFirst(node.path, rootPath + "/", "");
        out := out + [FileEntry(node.name, node.path, relativePath)];
      }
      assert out == start + Own(node, rootPath);
      ghost var kids: seq<FileEntry> := [];
      if node.children.Loaded? {
        assert node in nodes;
        out := Traverse(node.children.nodes, rootPath, out);
        kids := Flat(node.children.nodes, rootPath);
      } else {
        assert out == out + kids;
      }
      TraverseStep(nodes, i, rootPath, start);
      assert out + Flat(nodes[i + 1..], rootPath) == start + Flat(nodes[i..], rootPath);
      i := i + 1;
    }
    assert nodes[i..] == [];
  }

  /** `flattenFiles`: the file entries of the tree in pre-order. */
  method FlattenFiles(nodes: seq<FileNode>, rootPath: string) returns (files: seq<FileEntry>)
    ensures files == FileEntries(Preorder(nodes), rootPath)
  {
    files := Traverse(nodes, rootPath, []);
    FlatIsPreorder(nodes, rootPath);
  }

  /** `allFiles`: nothing without a project. */
  function AllFiles(rootNodes: seq<FileNode>, projectPath: Option<string>): (r: seq<FileEntry>)
    ensures projectPath.None? || projectPath.value == "" ==> r == []
  {
    if projectPath.None? || projectPath.value == "" then []
    else FileEntries(Preorder(rootNodes), projectPath.value)
  }

  /** Every file of the tree, and nothing else, is listed. */
  lemma AllFilesMembers(rootNodes: seq<FileNode>, root: string)
    requires root != ""
    ensures forall e :: e in AllFiles(rootNodes, Some(root)) <==>
      exists n :: n in Preorder(rootNodes) && !n.isDir && e == Entry(n, root)
    ensures forall n :: n in rootNodes && !n.isDir ==> Entry(n, root) in AllFiles(rootNodes, Some(root))
  {
    FileEntriesMembers(Preorder(rootNodes), root);
    PreorderClosed(rootNodes);
  }

  // ---------------------------------------------------------------------
  // The search

  /** The at most twenty first entries (`slice(0, 20)`). */
  function Take20(xs: seq<FileEntry>): (r: seq<FileEntry>)
    ensures |r| <= 20 && r <= xs
    ensures |xs| <= 20 ==> r == xs
  {
    if |xs| <= 20 then xs else xs[..20]
  }

  /** The entries whose relative path contains the lowercased search. */
  function Matching(files: seq<FileEntry>, lower: string): (r: seq<FileEntry>)
    ensures |r| <= |files|
  {
    if files == [] then []
    else (if Contains(ToLower(files[0].relativePath), lower) then [files[0]] else []) + Matching(files[1..], lower)
  }

  lemma {:induction false} MatchingMembers(files: seq<FileEntry>, lower: string)
    ensures forall f :: f in Matching(files, lower) <==> f in files && Contains(ToLower(f.relativePath), lower)
  {
    if files != [] {
      MatchingMembers(files[1..], lower);
      assert files == [files[0]] + files[1..];
    }
  }

  lemma {:induction false} MatchingAppend(a: seq<FileEntry>, b: seq<FileEntry>, lower: string)
    ensures Matching(a + b, lower) == Matching(a, lower) + Matching(b, lower)
  {
    if a == [] {
      assert a + b == b;
    } else {
      assert (a + b)[0] == a[0];
      assert (a + b)[1..] == a[1..] + b;
      MatchingAppend(a[1..], b, lower);
      var h := if Contains(ToLower(a[0].relativePath), lower) then [a[0]] else [];
      assert h + (Matching(a[1..], lower) + Matching(b, lower)) == h + Matching(a[1..], lower) + Matching(b, lower);
    }
  }

  /** `filteredFiles`. */
  function FilteredFiles(allFiles: seq<FileEntry>, search: string): seq<FileEntry> {
    if search == "" then Take20(allFiles)
    else Take20(Matching(allFiles, ToLower(search)))
  }

  /** The search shows at most twenty entries: the first twenty files for an
      empty search, otherwise the first twenty, in order, of those whose
      relative path contains the search ignoring case; when no more than
      twenty match, all of them. */
  lemma FilteredFilesMeaning(allFiles: seq<FileEntry>, search: string)
    ensures var r := FilteredFiles(allFiles, search);
      |r| <= 20 &&
      (search == "" ==> r <= allFiles && (|allFiles| <= 20 ==> r == allFiles)) &&
      (search != "" ==>
        r <= Matching(allFiles, ToLower(search)) &&
        (forall f :: f in r ==> f in allFiles && Contains(ToLower(f.relativePath), ToLower(search)))) &&
      (search != "" && |Matching(allFiles, ToLower(search))| <= 20 ==>
        forall f :: f in allFiles && Contains(ToLower(f.relativePath), ToLower(search)) ==> f in r)
  {
    var m := Matching(allFiles, ToLower(search));
    MatchingMembers(allFiles, ToLower(search));
    var r := FilteredFiles(allFiles, search);
    if search != "" {
      forall f | f in r ensures f in m {
        var j :| 0 <= j < |r| && r[j] == f;
        assert m[j] == f;
      }
    }
  }

  /** Filtering keeps the order of the list: the matches of a longer list
      start with the matches of its beginning. */
  lemma MatchingKeepsOrder(a: seq<FileEntry>, b: seq<FileEntry>, lower: string)
    ensures Matching(a, lower) <= Matching(a + b, lower)
  {
    MatchingAppend(a, b, lower);
  }

  // ---------------------------------------------------------------------
  // Picking a file

  /** `allFiles.find(f => f.path === filePath)`. */
  function FindFile(files: seq<FileEntry>, filePath: string): (r: Option<FileEntry>)
    ensures r.Some? ==> r.value in files && r.value.path == filePath
    ensures r.None? <==> forall f :: f in files ==> f.path != filePath
  {
    if files == [] then None
    else if files[0].path == filePath then Some(files[0])
    else
      assert forall f :: f in files ==> f == files[0] || f in files[1..];
      FindFile(files[1..], filePath)
  }

  /** The tab a picked file opens as: its path as the id, not dirty. */
  function TabFor(file: FileEntry, filePath: string, content: string): (r: NewTab)
    ensures r.id == r.path == filePath && r.name == file.name && r.content == content
    ensures r.language == LanguageOf(Ext(file.name)) && !r.isDirty
  {
    NewTab(filePath, filePath, file.name, content, LanguageOf(Ext(file.name)), false)
  }

  /** `handleSelect`: an unknown path, or a read that fails, changes nothing;
      otherwise the file opens in a tab (or its open tab becomes active) and
      the dialog closes. */
  method HandleSelect(ui: UiStore, editor: EditorStore, allFiles: seq<FileEntry>, filePath: string,
                      read: Result<string, string>)
    returns (newTab: Option<NewTab>)
    requires ui.Valid()
    modifies ui, editor
    ensures ui.Valid()
    ensures newTab.Some? <==> FindFile(allFiles, filePath).Some? && read.Ok?
    ensures newTab.Some? ==> newTab.value == TabFor(FindFile(allFiles, filePath).value, filePath, read.value)
    ensures newTab.None? ==>
      editor.tabs == old(editor.tabs) && editor.activeTabId == old(editor.activeTabId) &&
      ui.quickOpenOpen == old(ui.quickOpenOpen)
    ensures newTab.Some? ==>
      var k := PathIndex(old(editor.tabs), filePath);
      !ui.quickOpenOpen &&
      (k >= 0 ==> editor.tabs == old(editor.tabs) && editor.activeTabId == Some(old(editor.tabs)[k].id)) &&
      (k < 0 ==> editor.tabs == old(editor.tabs) + [Opened(newTab.value)] && editor.activeTabId == Some(filePath))
    ensures ui.commandPaletteOpen == old(ui.commandPaletteOpen)
    ensures ui.sidebarVisible == old(ui.sidebarVisible) && ui.panelVisible == old(ui.panelVisible)
  {
    var file := FindFile(allFiles, filePath);
    if file.None? || read.Err? {
      return None;
    }
    var tab := TabFor(file.value, filePath, read.value);
    editor.OpenTab(tab);
    ui.CloseQuickOpen();
    newTab := Some(tab);
  }

  /** The Escape key closes an open dialog; nothing else changes. */
  method HandleKeyDown(ui: UiStore, key: string)
    requires ui.Valid()
    modifies ui
    ensures ui.Valid()
    ensures ui.quickOpenOpen == (old(ui.quickOpenOpen) && key != "Escape")
    ensures ui.commandPaletteOpen == old(ui.commandPaletteOpen)
    ensures ui.sidebarVisible == old(ui.sidebarVisible) && ui.panelVisible == old(ui.panelVisible)
  {
    if key == "Escape" && ui.quickOpenOpen {
      ui.CloseQuickOpen();
    }
  }
}
