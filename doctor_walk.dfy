/** The doctor's bounded file walk (cli/src/util/walk.rs): a depth-first walk with
    an explicit stack of directories that collects file paths, passes over
    `node_modules`, `target` and `.git`, skips directories it cannot read, and
    stops once `max_files` paths are collected. The file system is a tree. */
module DoctorWalk {
  import opened Paths

  /** A directory entry: a file, or a directory that may be unreadable. */
  datatype Node = File(name: string) | Dir(name: string, readable: bool, children: seq<Node>)

  /** A directory to visit: its path and its node. */
  datatype Item = Item(path: string, node: Node)

  /** The names the walk never outputs nor descends into. */
  predicate SkipName(name: string) {
    name == "node_modules" || name == "target" || name == ".git"
  }

  /** The path of an entry in a directory, as `DirEntry::path` joins it. */
  function ChildPath(dir: string, name: string): string {
    JoinPath(dir, name)
  }

  /** `p` is a file path that a complete walk from the node at `path` finds: a
      file entry of a readable directory, or one below a directory entry, never
      through a skipped name. */
  ghost predicate Found(path: string, n: Node, p: string)
    decreases n, 1
  {
    n.Dir? && n.readable && exists i :: 0 <= i < |n.children| && FoundAt(path, n, i, p)
  }

  /** `p` is found through entry `i` of the directory. */
  ghost predicate FoundAt(path: string, n: Node, i: int, p: string)
    requires n.Dir? && 0 <= i < |n.children|
    decreases n, 0
  {
    var c := n.children[i];
    assert c in n.children;
    !SkipName(c.name) &&
    if c.File? then p == ChildPath(path, c.name) else Found(ChildPath(path, c.name), c, p)
  }

  /** Node sizes, for the walk's termination. */
  function Size(n: Node): nat
    decreases n, 1
  {
    if n.File? then 1 else 1 + SizeSum(n, |n.children|)
  }

  function SizeSum(n: Node, j: nat): nat
    requires n.Dir? && j <= |n.children|
    decreases n, 0, j
  {
    if j == 0 then 0
    else
      assert n.children[j - 1] in n.children;
      SizeSum(n, j - 1) + Size(n.children[j - 1])
  }

  /** Sizes of a prefix of the entries grow with the prefix. */
  lemma {:induction false} SizeSumMono(n: Node, j: nat, m: nat)
    requires n.Dir? && j <= m <= |n.children|
    ensures SizeSum(n, j) <= SizeSum(n, m)
    decreases m - j
  {
    if j < m {
      SizeSumMono(n, j + 1, m);
    }
  }

  function StackSize(stack: seq<Item>): nat {
    if stack == [] then 0 else StackSize(stack[..|stack| - 1]) + Size(stack[|stack| - 1].node)
  }

  lemma StackSizeSnoc(stack: seq<Item>, x: Item)
    ensures StackSize(stack + [x]) == StackSize(stack) + Size(x.node)
  {
    assert (stack + [x])[..|stack|] == stack;
  }

  /** Some item of the stack still leads to `p`. */
  ghost predicate OnStack(stack: seq<Item>, p: string) {
    exists k :: 0 <= k < |stack| && Found(stack[k].path, stack[k].node, p)
  }

  /** Everything found below the item is found from the root. */
  ghost predicate Within(root: Item, item: Item) {
    forall p :: Found(item.path, item.node, p) ==> Found(root.path, root.node, p)
  }

  /** A pushed directory entry leads only to what its parent leads to. */
  lemma ChildWithin(root: Item, top: Item, i: int)
    requires top.node.Dir? && top.node.readable && 0 <= i < |top.node.children|
    requires Within(root, top)
    requires top.node.children[i].Dir? && !SkipName(top.node.children[i].name)
    ensures Within(root, Item(ChildPath(top.path, top.node.children[i].name), top.node.children[i]))
  {
    var c := top.node.children[i];
    forall p | Found(ChildPath(top.path, c.name), c, p) ensures Found(root.path, root.node, p) {
      assert FoundAt(top.path, top.node, i, p);
    }
  }

  /** `p` starts with the prefix `s` gives the names joined to it. */
  predicate Under(p: string, s: string) {
    JoinPath(s, "") <= p
  }

  /** Every path found below a directory lies under it: walking from a root
      never leaves that root. */
  lemma {:induction false} FoundUnder(path: string, n: Node, p: string)
    requires Found(path, n, p)
    ensures Under(p, path)
    decreases n
  {
    var i :| 0 <= i < |n.children| && FoundAt(path, n, i, p);
    var c := n.children[i];
    var cp := ChildPath(path, c.name);
    JoinPathPrefix(path, c.name);
    if c.Dir? {
      assert c in n.children;
      FoundUnder(cp, c, p);
      JoinPathNested(path, c.name);
      PrefixTransitive(JoinPath(path, ""), JoinPath(cp, ""), p);
    }
  }

  /** A file entry of a directory within the root is found from the root. */
  lemma FileWithin(root: Item, top: Item, i: int)
    requires top.node.Dir? && top.node.readable && 0 <= i < |top.node.children|
    requires Within(root, top)
    requires top.node.children[i].File? && !SkipName(top.node.children[i].name)
    ensures Found(root.path, root.node, ChildPath(top.path, top.node.children[i].name))
  {
    assert FoundAt(top.path, top.node, i, ChildPath(top.path, top.node.children[i].name));
  }

  /** What a stack leads to, a longer stack leads to as well. */
  lemma OnStackPrefix(s: seq<Item>, t: seq<Item>)
    requires s <= t
    ensures forall p :: OnStack(s, p) ==> OnStack(t, p)
  {
    forall p | OnStack(s, p) ensures OnStack(t, p) {
      var k :| 0 <= k < |s| && Found(s[k].path, s[k].node, p);
      assert t[k] == s[k];
    }
  }

  /** One round of the inner loop: entry `j` is skipped, pushed as a directory
      to visit, or output as a file. */
  method ScanEntry(root: Item, top: Item, j: int, stack0: seq<Item>, out0: seq<string>)
    returns (stack: seq<Item>, out: seq<string>)
    requires top.node.Dir? && top.node.readable && Within(root, top)
    requires 0 <= j < |top.node.children|
    requires forall k :: 0 <= k < |stack0| ==> Within(root, stack0[k])
    requires forall q :: q in out0 ==> Found(root.path, root.node, q)
    ensures stack0 <= stack && out0 <= out && |out| <= |out0| + 1
    ensures StackSize(stack) <= StackSize(stack0) + Size(top.node.children[j])
    ensures forall k :: 0 <= k < |stack| ==> Within(root, stack[k])
    ensures forall q :: q in out ==> Found(root.path, root.node, q)
    ensures forall p :: FoundAt(top.path, top.node, j, p) ==> p in out || OnStack(stack, p)
  {
    stack, out := stack0, out0;
    var c := top.node.children[j];
    if !SkipName(c.name) {
      var path := ChildPath(top.path, c.name);
      if c.Dir? {
        ChildWithin(root, top, j);
        StackSizeSnoc(stack, Item(path, c));
        stack := stack + [Item(path, c)];
        assert stack[|stack0|] == Item(path, c);
      } else {
        FileWithin(root, top, j);
        out := out + [path];
      }
    }
  }

  /** The inner loop over one directory's entries. */
  method ScanEntries(root: Item, top: Item, stack0: seq<Item>, out0: seq<string>, maxFiles: nat)
    returns (stack: seq<Item>, out: seq<string>)
    requires top.node.Dir? && top.node.readable && Within(root, top)
    requires |out0| <= maxFiles
    requires forall k :: 0 <= k < |stack0| ==> Within(root, stack0[k])
    requires forall q :: q in out0 ==> Found(root.path, root.node, q)
    ensures |out| <= maxFiles && out0 <= out
    ensures StackSize(stack) < StackSize(stack0) + Size(top.node)
    ensures forall k :: 0 <= k < |stack| ==> Within(root, stack[k])
    ensures forall q :: q in out ==> Found(root.path, root.node, q)
    ensures |out| < maxFiles ==> forall p :: Found(top.path, top.node, p) ==> p in out || OnStack(stack, p)
    ensures forall p :: OnStack(stack0, p) ==> OnStack(stack, p)
  {
    stack, out := stack0, out0;
    var j := 0;
    while j < |top.node.children|
      invariant 0 <= j <= |top.node.children|
      invariant |out| <= maxFiles && out0 <= out && stack0 <= stack
      invariant StackSize(stack) <= StackSize(stack0) + SizeSum(top.node, j)
      invariant forall k :: 0 <= k < |stack| ==> Within(root, stack[k])
      invariant forall q :: q in out ==> Found(root.path, root.node, q)
      invariant forall i, p :: 0 <= i < j && FoundAt(top.path, top.node, i, p) ==> p in out || OnStack(stack, p)
    {
      if |out| >= maxFiles {
        break;
      }
      var stack1, out1 := ScanEntry(root, top, j, stack, out);
      OnStackPrefix(stack, stack1);
      stack, out := stack1, out1;
      j := j + 1;
    }
    SizeSumMono(top.node, j, |top.node.children|);
    OnStackPrefix(stack0, stack);
  }

  /** `walk_files`: at most `maxFiles` file paths, each found from the root; when
      fewer were collected, every file found from the root is among them. */
  method WalkFiles(rootPath: string, rootNode: Node, maxFiles: nat) returns (out: seq<string>)
    ensures |out| <= maxFiles
    ensures forall q :: q in out ==> Found(rootPath, rootNode, q)
    ensures |out| < maxFiles ==> forall p :: Found(rootPath, rootNode, p) ==> p in out
  {
    var root := Item(rootPath, rootNode);
    out := [];
    var stack := [root];
    while stack != []
      invariant |out| <= maxFiles
      invariant forall k :: 0 <= k < |stack| ==> Within(root, stack[k])
      invariant forall q :: q in out ==> Found(rootPath, rootNode, q)
      invariant |out| < maxFiles ==> forall p :: Found(rootPath, rootNode, p) ==> p in out || OnStack(stack, p)
      decreases StackSize(stack)
    {
      var top := stack[|stack| - 1];
      var rest := stack[..|stack| - 1];
      assert stack == rest + [top];
      StackSizeSnoc(rest, top);
      if |out| >= maxFiles {
        break;
      }
      if !top.node.Dir? || !top.node.readable {
        stack := rest;
        continue;
      }
      stack, out := ScanEntries(root, top, rest, out, maxFiles);
    }
  }
}
