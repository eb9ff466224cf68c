/** The desktop editor's file-system commands (gui-edit/src-tauri/src/commands/fs.rs):
    root containment, the entry filter and ordering of `read_directory`, and which
    error each command reports. The disk is a value: what each path canonicalises
    to, and what exists at each canonical path. A command that gets past its
    checks returns the file-system operations it then performs, in order; the
    failures of those operations themselves are not modelled. */
module FsCommands {
  import opened Wrappers
  import opened Strings
  import opened Paths
  import opened Ordering
  import RouteAnalyzer

  datatype FsError =
    | NotFound(path: string)
    | NotADirectory(path: string)
    | NotAFile(path: string)
    | AccessDenied(path: string)
    | FileExists(path: string)
    | DirectoryExists(path: string)
    | ReadDirError(source: string)
    | ReadFileError(source: string)

  /** A directory entry as `read_dir` yields it; its path is the directory's
      path joined with the name, and `isDir` is `path.is_dir()`. */
  datatype RawEntry = RawEntry(name: string, isDir: bool)

  /** What exists at a canonical path: a directory with its listing (or the
      error reading it gives), or a file with its text (or the read error). */
  datatype Kind =
    | DirKind(listing: Result<seq<RawEntry>, string>)
    | FileKind(text: Result<string, string>)

  /** `resolve` holds the paths that canonicalise and what they canonicalise to;
      `kinds` what exists at each canonical path. */
  datatype Disk = Disk(resolve: map<string, string>, kinds: map<string, Kind>)

  /** Canonicalisation succeeds only for a path that exists. */
  ghost predicate Consistent(disk: Disk) {
    forall p :: p in disk.resolve ==> disk.resolve[p] in disk.kinds
  }

  /** The operations a command performs once its checks pass. */
  datatype FsOp =
    | CreateDirAll(path: string)
    | WriteFile(path: string, content: string)
    | RemoveDirAll(path: string)
    | RemoveFile(path: string)
    | Rename(from: string, to: string)

  datatype FileNode = FileNode(name: string, path: string, isDir: bool,
                               children: Children, extension: Option<string>)

  /** The optional child list of a node: not loaded yet, or the loaded nodes. */
  datatype Children = Unloaded | Loaded(nodes: seq<FileNode>)

  /** `should_ignore`. */
  predicate ShouldIgnore(name: string) {
    name == "node_modules" || name == ".git" || name == "target" || name == "dist" ||
    name == ".next" || name == ".turbo" || name == ".cache" || name == ".output" || name == ".nuxt"
  }

  /** The ignore list is exactly these nine names. */
  lemma ShouldIgnoreExactly(name: string)
    ensures ShouldIgnore(name) <==>
      name in {"node_modules", ".git", "target", "dist", ".next", ".turbo", ".cache", ".output", ".nuxt"}
  {
  }

  /** The containment test of `validate_path` on an already canonical path. */
  function CheckRoot(path: string, canonical: string, root: Option<string>, disk: Disk): (r: Result<string, FsError>)
    ensures r.Ok? ==> r.value == canonical
  {
    if root.None? then Ok(canonical)
    else if root.value !in disk.resolve then Err(NotFound(root.value))
    else if !PathStartsWith(canonical, disk.resolve[root.value]) then Err(AccessDenied(path))
    else Ok(canonical)
  }

  /** `validate_path`: the canonical path, when the path canonicalises and, given a
      root, lies under the canonical root. */
  function ValidatePath(path: string, root: Option<string>, disk: Disk): Result<string, FsError> {
    if path !in disk.resolve then Err(NotFound(path))
    else CheckRoot(path, disk.resolve[path], root, disk)
  }

  /** A validated path is the path's canonical form, and it lies under the
      canonical root when one is given; without a root every path that
      canonicalises is accepted. The failures are NotFound for the path, then
      NotFound for the root, then AccessDenied, in that order. */
  lemma ValidatePathMeaning(path: string, root: Option<string>, disk: Disk)
    ensures var r := ValidatePath(path, root, disk);
      (r.Ok? <==> (path in disk.resolve &&
                   (root.Some? ==> root.value in disk.resolve && PathStartsWith(disk.resolve[path], disk.resolve[root.value])))) &&
      (r.Ok? ==> r.value == disk.resolve[path]) &&
      (path !in disk.resolve ==> r == Err(NotFound(path))) &&
      (path in disk.resolve && root.Some? && root.value !in disk.resolve ==> r == Err(NotFound(root.value))) &&
      (r.Err? && path in disk.resolve && root.Some? && root.value in disk.resolve ==> r == Err(AccessDenied(path)))
  {
  }

  /** On a consistent disk a validated path always exists. */
  lemma ValidatedExists(path: string, root: Option<string>, disk: Disk)
    requires Consistent(disk)
    ensures ValidatePath(path, root, disk).Ok? ==> ValidatePath(path, root, disk).value in disk.kinds
  {
  }

  /** Hidden entries: a leading dot, except `.env.example`. */
  predicate Hidden(name: string) {
    StartsWith(name, ".") && name != ".env.example"
  }

  /** `create_file_node`: hidden entries and ignored directories are dropped; the
      rest become nodes without children (they load lazily), files with their
      extension and directories without one. */
  function CreateFileNode(e: RawEntry, dir: string): (r: Option<FileNode>)
    ensures r.Some? <==> !Hidden(e.name) && !(e.isDir && ShouldIgnore(e.name))
    ensures r.Some? ==> (r.value.name == e.name && r.value.path == JoinPath(dir, e.name) &&
                         r.value.isDir == e.isDir && r.value.children.Unloaded?)
    ensures r.Some? && e.isDir ==> r.value.extension.None?
    ensures r.Some? && !e.isDir ==> r.value.extension == RouteAnalyzer.Extension(e.name)
  {
    if Hidden(e.name) then None
    else if e.isDir && ShouldIgnore(e.name) then None
    else
      var ext := if !e.isDir then RouteAnalyzer.Extension(e.name) else None;
      Some(FileNode(e.name, JoinPath(dir, e.name), e.isDir, Unloaded, ext))
  }

  /** An ignored name is dropped only as a directory: a file called `dist` is
      listed. */
  lemma IgnoredOnlyAsDirectory(dir: string)
    ensures CreateFileNode(RawEntry("dist", true), dir).None?
    ensures CreateFileNode(RawEntry("dist", false), dir).Some?
    ensures CreateFileNode(RawEntry(".env.example", false), dir).Some?
    ensures CreateFileNode(RawEntry(".env", false), dir).None?
  {
    assert !StartsWith("dist", ".") by { assert "dist"[0] != '.'; }
    assert StartsWith(".env", ".") by { assert ".env"[..1] == "."; }
  }

  /** The nodes of a listing that pass the filter, in listing order. */
  function KeptNodes(dir: string, raw: seq<RawEntry>): seq<FileNode> {
    if raw == [] then []
    else
      var node := CreateFileNode(raw[|raw| - 1], dir);
      KeptNodes(dir, raw[..|raw| - 1]) + (if node.Some? then [node.value] else [])
  }

  /** Every kept node comes from an entry of the listing that passes the filter. */
  lemma {:induction false} KeptNodesFrom(dir: string, raw: seq<RawEntry>)
    ensures forall n :: n in KeptNodes(dir, raw) ==>
      exists i :: 0 <= i < |raw| && CreateFileNode(raw[i], dir) == Some(n)
  {
    if raw != [] {
      var init := raw[..|raw| - 1];
      KeptNodesFrom(dir, init);
      forall n | n in KeptNodes(dir, raw)
        ensures exists i :: 0 <= i < |raw| && CreateFileNode(raw[i], dir) == Some(n)
      {
        if n in KeptNodes(dir, init) {
          var i :| 0 <= i < |init| && CreateFileNode(init[i], dir) == Some(n);
          assert raw[i] == init[i];
        }
      }
    }
  }

  /** The sort order of `read_directory`: directories before files, and within
      each kind by lower-cased name. */
  predicate EntryLe(a: FileNode, b: FileNode) {
    (a.isDir && !b.isDir) || (a.isDir == b.isDir && StrLe(ToLower(a.name), ToLower(b.name)))
  }

  lemma EntryLeTotalPreorder()
    ensures TotalPreorder(EntryLe)
  {
    forall a, b ensures EntryLe(a, b) || EntryLe(b, a) {
      StrLtTotal(ToLower(a.name), ToLower(b.name));
    }
    forall a, b, c | EntryLe(a, b) && EntryLe(b, c) ensures EntryLe(a, c) {
      if a.isDir == b.isDir && b.isDir == c.isDir {
        var x, y, z := ToLower(a.name), ToLower(b.name), ToLower(c.name);
        if x != y && y != z {
          StrLtTransitive(x, y, z);
        }
      }
    }
  }

  /** What `read_directory` returns. */
  function ReadDirectoryResult(path: string, root: Option<string>, disk: Disk): Result<seq<FileNode>, FsError> {
    var v := ValidatePath(path, root, disk);
    if v.Err? then Err(v.error)
    else if v.value !in disk.kinds then Err(NotFound(path))
    else if !disk.kinds[v.value].DirKind? then Err(NotADirectory(path))
    else if disk.kinds[v.value].listing.Err? then Err(ReadDirError(disk.kinds[v.value].listing.error))
    else Ok(SortBy(KeptNodes(v.value, disk.kinds[v.value].listing.value), EntryLe))
  }

  /** `read_directory`: the checks, the filtering loop, then the sort. */
  method ReadDirectory(path: string, root: Option<string>, disk: Disk) returns (r: Result<seq<FileNode>, FsError>)
    ensures r == ReadDirectoryResult(path, root, disk)
  {
    var v := ValidatePath(path, root, disk);
    if v.Err? {
      return Err(v.error);
    }
    var canonical := v.value;
    if canonical !in disk.kinds {
      return Err(NotFound(path));
    }
    var kind := disk.kinds[canonical];
    if !kind.DirKind? {
      return Err(NotADirectory(path));
    }
    if kind.listing.Err? {
      return Err(ReadDirError(kind.listing.error));
    }
    var raw := kind.listing.value;
    var entries: seq<FileNode> := [];
    for i := 0 to |raw|
      invariant entries == KeptNodes(canonical, raw[..i])
    {
      assert raw[..i + 1][..i] == raw[..i];
      var node := CreateFileNode(raw[i], canonical);
      if node.Some? {
        entries := entries + [node.value];
      }
    }
    assert raw[..|raw|] == raw;
    r := Ok(SortBy(entries, EntryLe));
  }

  /** A listing comes back with every directory before every file, each kind in
      case-insensitive name order, holding exactly the entries the filter keeps. */
  lemma ReadDirectoryOrder(path: string, root: Option<string>, disk: Disk)
    requires ReadDirectoryResult(path, root, disk).Ok?
    ensures var nodes := ReadDirectoryResult(path, root, disk).value;
      var canonical := disk.resolve[path];
      (forall i, j :: 0 <= i < j < |nodes| && nodes[j].isDir ==> nodes[i].isDir) &&
      (forall i, j :: 0 <= i < j < |nodes| && nodes[i].isDir == nodes[j].isDir ==>
        StrLe(ToLower(nodes[i].name), ToLower(nodes[j].name))) &&
      multiset(nodes) == multiset(KeptNodes(canonical, disk.kinds[canonical].listing.value)) &&
      (forall x :: EquivalentsOf(nodes, x, EntryLe) ==
                   EquivalentsOf(KeptNodes(canonical, disk.kinds[canonical].listing.value), x, EntryLe))
  {
    var canonical := disk.resolve[path];
    var kept := KeptNodes(canonical, disk.kinds[canonical].listing.value);
    EntryLeTotalPreorder();
    SortBySorted(kept, EntryLe);
    forall x ensures EquivalentsOf(SortBy(kept, EntryLe), x, EntryLe) == EquivalentsOf(kept, x, EntryLe) {
      SortByStable(kept, x, EntryLe);
    }
  }

  /** How `read_directory` fails: the validation error, NotFound, NotADirectory
      or the listing's read error. */
  lemma ReadDirectoryErrors(path: string, root: Option<string>, disk: Disk)
    ensures var r := ReadDirectoryResult(path, root, disk);
      (ValidatePath(path, root, disk).Err? ==> r == Err(ValidatePath(path, root, disk).error)) &&
      ((ValidatePath(path, root, disk).Ok? && disk.resolve[path] in disk.kinds &&
        disk.kinds[disk.resolve[path]].FileKind?) ==> r == Err(NotADirectory(path))) &&
      (r.Ok? <==> (ValidatePath(path, root, disk).Ok? && disk.resolve[path] in disk.kinds &&
                   disk.kinds[disk.resolve[path]].DirKind? && disk.kinds[disk.resolve[path]].listing.Ok?))
  {
    ValidatePathMeaning(path, root, disk);
  }

  /** `read_file`: the text of an existing file under the root. */
  function ReadFileCommand(path: string, root: Option<string>, disk: Disk): (r: Result<string, FsError>)
    ensures r.Ok? <==> (ValidatePath(path, root, disk).Ok? && disk.resolve[path] in disk.kinds &&
                        disk.kinds[disk.resolve[path]].FileKind? && disk.kinds[disk.resolve[path]].text.Ok?)
    ensures r.Ok? ==> r.value == disk.kinds[disk.resolve[path]].text.value
    ensures ValidatePath(path, root, disk).Err? ==> r == Err(ValidatePath(path, root, disk).error)
    ensures (ValidatePath(path, root, disk).Ok? && disk.resolve[path] in disk.kinds &&
             disk.kinds[disk.resolve[path]].DirKind?) ==> r == Err(NotAFile(path))
  {
    var v := ValidatePath(path, root, disk);
    if v.Err? then Err(v.error)
    else if v.value !in disk.kinds then Err(NotFound(path))
    else if !disk.kinds[v.value].FileKind? then Err(NotAFile(path))
    else if disk.kinds[v.value].text.Err? then Err(ReadFileError(disk.kinds[v.value].text.error))
    else Ok(disk.kinds[v.value].text.value)
  }

  /** The creation of a missing parent directory before a write. */
  function ParentPlan(canonical: string, disk: Disk): seq<FsOp> {
    var parent := ParentDir(canonical);
    if parent != "" && parent !in disk.kinds then [CreateDirAll(parent)] else []
  }

  /** `write_file`: write the validated path, creating its parent first when it
      does not exist. */
  function WriteFileCommand(path: string, content: string, root: Option<string>, disk: Disk): (r: Result<seq<FsOp>, FsError>)
    ensures r.Ok? <==> ValidatePath(path, root, disk).Ok?
    ensures r.Ok? ==> r.value == ParentPlan(disk.resolve[path], disk) + [WriteFile(disk.resolve[path], content)]
  {
    var v := ValidatePath(path, root, disk);
    if v.Err? then Err(v.error)
    else Ok(ParentPlan(v.value, disk) + [WriteFile(v.value, content)])
  }

  /** What `create_file` does after its validation step gave `v`. */
  function CreateFileAfter(path: string, v: Result<string, FsError>, content: Option<string>, disk: Disk): Result<seq<FsOp>, FsError> {
    if v.Err? then Err(v.error)
    else if v.value in disk.kinds then Err(FileExists(path))
    else Ok(ParentPlan(v.value, disk) + [WriteFile(v.value, if content.Some? then content.value else "")])
  }

  /** `create_file` as written: validated by `validate_path`. */
  function CreateFile(path: string, content: Option<string>, root: Option<string>, disk: Disk): Result<seq<FsOp>, FsError> {
    CreateFileAfter(path, ValidatePath(path, root, disk), content, disk)
  }

  /** What `create_directory` does after its validation step gave `v`. */
  function CreateDirectoryAfter(path: string, v: Result<string, FsError>, disk: Disk): Result<seq<FsOp>, FsError> {
    if v.Err? then Err(v.error)
    else if v.value in disk.kinds then Err(DirectoryExists(path))
    else Ok([CreateDirAll(v.value)])
  }

  /** `create_directory` as written. */
  function CreateDirectory(path: string, root: Option<string>, disk: Disk): Result<seq<FsOp>, FsError> {
    CreateDirectoryAfter(path, ValidatePath(path, root, disk), disk)
  }

  /** `delete_path`: an existing path under the root is removed, a directory
      with everything below it. */
  function DeletePath(path: string, root: Option<string>, disk: Disk): (r: Result<seq<FsOp>, FsError>)
    ensures r.Ok? <==> ValidatePath(path, root, disk).Ok? && disk.resolve[path] in disk.kinds
    ensures r.Ok? ==> var c := disk.resolve[path];
      r.value == (if disk.kinds[c].DirKind? then [RemoveDirAll(c)] else [RemoveFile(c)])
    ensures ValidatePath(path, root, disk).Ok? && disk.resolve[path] !in disk.kinds ==> r == Err(NotFound(path))
  {
    var v := ValidatePath(path, root, disk);
    if v.Err? then Err(v.error)
    else if v.value !in disk.kinds then Err(NotFound(path))
    else if disk.kinds[v.value].DirKind? then Ok([RemoveDirAll(v.value)])
    else Ok([RemoveFile(v.value)])
  }

  /** What `rename_path` does after validating both paths. */
  function RenameAfter(oldPath: string, newPath: string, vOld: Result<string, FsError>, vNew: Result<string, FsError>, disk: Disk): Result<seq<FsOp>, FsError> {
    if vOld.Err? then Err(vOld.error)
    else if vNew.Err? then Err(vNew.error)
    else if vOld.value !in disk.kinds then Err(NotFound(oldPath))
    else if vNew.value in disk.kinds then Err(FileExists(newPath))
    else Ok([Rename(vOld.value, vNew.value)])
  }

  /** `rename_path` as written: both paths go through `validate_path`. */
  function RenamePath(oldPath: string, newPath: string, root: Option<string>, disk: Disk): Result<seq<FsOp>, FsError> {
    RenameAfter(oldPath, newPath, ValidatePath(oldPath, root, disk), ValidatePath(newPath, root, disk), disk)
  }

  /** As written, `create_file` never succeeds: a path that does not exist fails
      validation with NotFound, and one that does is reported as existing (or
      is outside the root). */
  lemma CreateFileAsWritten(path: string, content: Option<string>, root: Option<string>, disk: Disk)
    requires Consistent(disk)
    ensures CreateFile(path, content, root, disk).Err?
    ensures path !in disk.resolve ==> CreateFile(path, content, root, disk) == Err(NotFound(path))
  {
    ValidatedExists(path, root, disk);
  }

  /** As written, `create_directory` never succeeds either. */
  lemma CreateDirectoryAsWritten(path: string, root: Option<string>, disk: Disk)
    requires Consistent(disk)
    ensures CreateDirectory(path, root, disk).Err?
    ensures path !in disk.resolve ==> CreateDirectory(path, root, disk) == Err(NotFound(path))
  {
    ValidatedExists(path, root, disk);
  }

  /** As written, `rename_path` never succeeds: the target must canonicalise, so
      it exists, and an existing target is refused. */
  lemma RenamePathAsWritten(oldPath: string, newPath: string, root: Option<string>, disk: Disk)
    requires Consistent(disk)
    ensures RenamePath(oldPath, newPath, root, disk).Err?
    ensures ValidatePath(oldPath, root, disk).Ok? && newPath !in disk.resolve ==>
      RenamePath(oldPath, newPath, root, disk) == Err(NotFound(newPath))
  {
    ValidatedExists(oldPath, root, disk);
    ValidatedExists(newPath, root, disk);
  }

  /** The canonical form a path that may not exist yet would have: its nearest
      existing ancestor canonicalised, with the remaining components appended. */
  function ResolveNew(path: string, disk: Disk): Option<string>
    decreases |path|
  {
    if path in disk.resolve then Some(disk.resolve[path])
    else
      var parent := ParentDir(path);
      var name := LastComponent(path);
      if parent == "" || name == "" || name == "." || name == ".." then None
      else
        ParentShorter(path);
        match ResolveNew(parent, disk)
        case None => None
        case Some(c) => Some(JoinPath(c, name))
  }

  /** Root containment for a path that may not exist yet. */
  function ValidateNewPath(path: string, root: Option<string>, disk: Disk): Result<string, FsError> {
    match ResolveNew(path, disk)
    case None => Err(NotFound(path))
    case Some(c) => CheckRoot(path, c, root, disk)
  }

  /** For an existing path the new validation is `validate_path`. */
  lemma ValidateNewExisting(path: string, root: Option<string>, disk: Disk)
    requires path in disk.resolve
    ensures ValidateNewPath(path, root, disk) == ValidatePath(path, root, disk)
  {
  }

  /** A new entry of an existing directory resolves below that directory's
      canonical form. */
  lemma ResolveNewChild(dir: string, name: string, disk: Disk)
    requires dir != [] && dir[|dir| - 1] != '/'
    requires name != [] && '/' !in name && name != "." && name != ".."
    requires dir in disk.resolve && dir + "/" + name !in disk.resolve
    ensures ResolveNew(dir + "/" + name, disk) == Some(JoinPath(disk.resolve[dir], name))
  {
    ParentOfChild(dir, name);
  }

  /** `create_file` validated as intended. */
  function CreateFileFixed(path: string, content: Option<string>, root: Option<string>, disk: Disk): Result<seq<FsOp>, FsError> {
    CreateFileAfter(path, ValidateNewPath(path, root, disk), content, disk)
  }

  /** `create_directory` validated as intended. */
  function CreateDirectoryFixed(path: string, root: Option<string>, disk: Disk): Result<seq<FsOp>, FsError> {
    CreateDirectoryAfter(path, ValidateNewPath(path, root, disk), disk)
  }

  /** `rename_path` with the target validated as intended. */
  function RenamePathFixed(oldPath: string, newPath: string, root: Option<string>, disk: Disk): Result<seq<FsOp>, FsError> {
    RenameAfter(oldPath, newPath, ValidatePath(oldPath, root, disk), ValidateNewPath(newPath, root, disk), disk)
  }

  /** Corrected `create_file` succeeds exactly for a target inside the root that
      does not exist yet, and then writes the content (empty by default) there
      after creating a missing parent. */
  lemma CreateFileFixedMeaning(path: string, content: Option<string>, root: Option<string>, disk: Disk)
    ensures var r := CreateFileFixed(path, content, root, disk);
      var v := ValidateNewPath(path, root, disk);
      (r.Ok? <==> v.Ok? && v.value !in disk.kinds) &&
      (r.Ok? ==> r.value == ParentPlan(v.value, disk) + [WriteFile(v.value, if content.Some? then content.value else "")]) &&
      (v.Ok? && v.value in disk.kinds ==> r == Err(FileExists(path)))
  {
  }

  /** A new file in an existing directory, with no root to respect, is created. */
  lemma CreateFileInExistingDirectory(dir: string, name: string, content: Option<string>, disk: Disk)
    requires dir != [] && dir[|dir| - 1] != '/'
    requires name != [] && '/' !in name && name != "." && name != ".."
    requires dir in disk.resolve && dir + "/" + name !in disk.resolve
    requires JoinPath(disk.resolve[dir], name) !in disk.kinds
    ensures CreateFileFixed(dir + "/" + name, content, None, disk).Ok?
  {
    ResolveNewChild(dir, name, disk);
  }

  /** Corrected `create_directory` succeeds exactly for a new target inside the
      root, and creates it with its missing ancestors. */
  lemma CreateDirectoryFixedMeaning(path: string, root: Option<string>, disk: Disk)
    ensures var r := CreateDirectoryFixed(path, root, disk);
      var v := ValidateNewPath(path, root, disk);
      (r.Ok? <==> v.Ok? && v.value !in disk.kinds) &&
      (r.Ok? ==> r.value == [CreateDirAll(v.value)])
  {
  }

  /** Corrected `rename_path` renames an existing source onto a new target, both
      inside the root. */
  lemma RenamePathFixedMeaning(oldPath: string, newPath: string, root: Option<string>, disk: Disk)
    ensures var r := RenamePathFixed(oldPath, newPath, root, disk);
      var vo := ValidatePath(oldPath, root, disk);
      var vn := ValidateNewPath(newPath, root, disk);
      (r.Ok? <==> vo.Ok? && vn.Ok? && vo.value in disk.kinds && vn.value !in disk.kinds) &&
      (r.Ok? ==> r.value == [Rename(vo.value, vn.value)])
  {
  }
}
