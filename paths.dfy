/** Paths as the Rust standard library sees them (`Path::parent`,
    `Path::starts_with`), rendered as strings with `/` as the separator. */
module Paths {
  import opened Strings

  /** The path without the slashes at its end. */
  function TrimTrailingSlashes(s: string): (r: string)
    ensures r <= s
    ensures r == [] || r[|r| - 1] != '/'
    ensures forall i :: |r| <= i < |s| ==> s[i] == '/'
  {
    if s != [] && s[|s| - 1] == '/' then TrimTrailingSlashes(s[..|s| - 1]) else s
  }

  /** The index of the last slash, or -1. */
  function LastSlash(s: string): (r: int)
    ensures -1 <= r < |s|
    ensures r >= 0 ==> s[r] == '/'
    ensures forall i :: r < i < |s| ==> s[i] != '/'
  {
    if s == [] then -1
    else if s[|s| - 1] == '/' then |s| - 1
    else LastSlash(s[..|s| - 1])
  }

  /** `Path::parent` rendered as a string, and "" when there is no parent: the
      path without its last component and the slashes before it; the root is the
      parent of a top-level rooted component, and "" that of a lone relative one. */
  function ParentDir(path: string): string {
    var p := TrimTrailingSlashes(path);
    var k := LastSlash(p);
    if k < 0 then ""
    else
      var head := TrimTrailingSlashes(p[..k]);
      if head == [] then "/" else head
  }

  /** The parent of a directory joined with a name is that directory: joining and
      taking the parent are inverse. */
  lemma ParentOfChild(dir: string, name: string)
    requires dir != [] && dir[|dir| - 1] != '/'
    requires name != [] && '/' !in name
    ensures ParentDir(dir + "/" + name) == dir
    ensures LastComponent(dir + "/" + name) == name
  {
    var p := dir + "/" + name;
    assert p[|p| - 1] == name[|name| - 1];
    assert name[|name| - 1] in name;
    assert TrimTrailingSlashes(p) == p;
    assert p[|dir|] == '/';
    forall i | |dir| < i < |p| ensures p[i] != '/' {
      assert p[i] == name[i - |dir| - 1];
      assert name[i - |dir| - 1] in name;
    }
    assert LastSlash(p) == |dir|;
    assert p[..|dir|] == dir;
    assert p[|dir| + 1..] == name;
  }

  /** A single relative component has no parent directory, and a rooted one has
      the root. */
  lemma ParentOfTopLevel(name: string)
    requires name != [] && '/' !in name
    ensures ParentDir(name) == ""
    ensures ParentDir("/" + name) == "/"
  {
    assert name[|name| - 1] in name;
    assert TrimTrailingSlashes(name) == name;
    assert LastSlash(name) == -1;
    var p := "/" + name;
    assert p[|p| - 1] == name[|name| - 1];
    assert TrimTrailingSlashes(p) == p;
    forall i | 0 < i < |p| ensures p[i] != '/' {
      assert p[i] == name[i - 1];
      assert name[i - 1] in name;
    }
    assert p[0] == '/';
    assert LastSlash(p) == 0;
    assert p[..0] == [];
  }

  /** The last component of a path: what follows its last slash once the
      slashes at its end are dropped. */
  function LastComponent(path: string): string {
    var p := TrimTrailingSlashes(path);
    p[LastSlash(p) + 1..]
  }

  /** `Path::join` of a base and a relative name. */
  function JoinPath(base: string, name: string): string {
    if base == "" then name
    else if base[|base| - 1] == '/' then base + name
    else base + "/" + name
  }

  /** A join is the base's directory prefix followed by the name: the prefix is
      empty, or the base itself when it ends in a slash, or the base and a slash. */
  lemma JoinPathPrefix(base: string, name: string)
    ensures JoinPath(base, name) == JoinPath(base, "") + name
    ensures base <= JoinPath(base, "")
    ensures JoinPath(base, "") == [] || JoinPath(base, "")[|JoinPath(base, "")| - 1] == '/'
  {
  }

  /** The prefix of a joined path extends the prefix of its base. */
  lemma JoinPathNested(base: string, name: string)
    ensures JoinPath(base, "") <= JoinPath(JoinPath(base, name), "")
  {
    var sub := JoinPath(base, name);
    JoinPathPrefix(base, name);
    JoinPathPrefix(sub, "");
    var p, q := JoinPath(base, ""), JoinPath(sub, "");
    assert q[..|sub|] == sub;
    assert q[..|p|] == sub[..|p|];
  }

  /** A prefix of a prefix is a prefix. */
  lemma PrefixTransitive(a: string, b: string, c: string)
    requires a <= b && b <= c
    ensures a <= c
  {
    assert c[..|a|] == c[..|b|][..|a|];
  }

  /** A parent is shorter than the path, so walking up the parents ends. */
  lemma ParentShorter(path: string)
    requires ParentDir(path) != ""
    ensures |ParentDir(path)| < |path|
  {
  }

  /** The components of a slash-separated path that `Path::components` compares:
      the root, when the path is absolute, then the non-empty names. */
  function Components(p: string): seq<string> {
    (if p != [] && p[0] == '/' then ["/"] else []) + NonEmpty(Split(p, '/'))
  }

  /** `Path::starts_with`: the components of `base` begin those of `p`. */
  predicate PathStartsWith(p: string, base: string) {
    Components(base) <= Components(p)
  }

  /** An entry of a directory lies under that directory. */
  lemma ChildStartsWith(dir: string, name: string)
    requires name != "" && '/' !in name
    ensures PathStartsWith(dir + "/" + name, dir)
  {
    var p := dir + "/" + name;
    assert p == dir + ['/'] + name;
    SplitSnoc(dir, '/', name);
    NonEmptyAppend(Split(dir, '/'), [name]);
    if dir != [] {
      assert p[0] == dir[0];
    }
  }

  /** A rooted single name has the root and the name as components. */
  lemma ComponentsOfTopLevel(name: string)
    requires name != "" && '/' !in name
    ensures Components("/" + name) == ["/", name]
  {
    SplitSnoc([], '/', name);
    assert Split([], '/') == [""];
    assert [] + ['/'] + name == "/" + name;
    var parts := Split("/" + name, '/');
    assert parts == ["", name];
    assert NonEmpty(parts) == NonEmpty([name]) by {
      assert parts[0] == [] && parts[1..] == [name];
    }
    assert NonEmpty([name]) == [name] by {
      assert [name][1..] == [];
    }
    assert ("/" + name)[0] == '/';
  }

  /** Containment is by whole components, not by characters. */
  lemma StartsWithByComponents()
    ensures !PathStartsWith("/ab", "/a")
    ensures PathStartsWith("/a/b", "/a")
  {
    ChildStartsWith("/a", "b");
    assert "/a" + "/" + "b" == "/a/b";
    ComponentsOfTopLevel("a");
    ComponentsOfTopLevel("ab");
    assert ["/", "a"][1] != ["/", "ab"][1];
  }
}
