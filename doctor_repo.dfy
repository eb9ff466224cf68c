/** The doctor's repository probes (cli/src/util/repo.rs): whether the walked
    files include an nginx configuration, and whether a pm2 ecosystem file sits
    at the repository root. Which paths exist on disk is a parameter. */
module DoctorRepo {
  import opened Strings
  import opened Paths
  import DoctorWalk

  /** The walk's cap in `has_repo_nginx_config`. */
  const WalkCap: nat := 5000

  /** The last part of a path that names something: empty parts (doubled or
      trailing slashes) and `.` parts are passed over, and `..` has no name. */
  function LastName(parts: seq<string>): string {
    if parts == [] then ""
    else
      var last := parts[|parts| - 1];
      if last == "" || last == "." then LastName(parts[..|parts| - 1])
      else if last == ".." then ""
      else last
  }

  /** `Path::file_name`, with "" for a path that has none. */
  function FileName(p: string): string {
    LastName(Split(p, '/'))
  }

  /** The name of a walked path is the entry's own name. */
  lemma FileNameOfChild(dir: string, name: string)
    requires name != "" && name != "." && name != ".." && '/' !in name
    ensures FileName(DoctorWalk.ChildPath(dir, name)) == name
  {
    JoinPathPrefix(dir, name);
    var d := JoinPath(dir, "");
    SplitWithout(name, '/');
    if d != [] {
      var d0 := d[..|d| - 1];
      assert d == d0 + ['/'];
      assert DoctorWalk.ChildPath(dir, name) == d0 + ['/'] + name;
      SplitSuffix(d0, '/', name);
    }
  }

  /** The file's lower-cased name ends with `.conf` and contains `nginx`. */
  predicate NginxConfName(p: string) {
    var n := ToLower(FileName(p));
    EndsWith(n, ".conf") && Contains(n, "nginx")
  }

  /** Some component of the path is `nginx`, whatever its case. */
  predicate NginxComponent(p: string) {
    exists i :: 0 <= i < |Split(p, '/')| && ToLower(Split(p, '/')[i]) == "nginx"
  }

  /** The test `has_repo_nginx_config` applies to each walked path. */
  predicate NginxPath(p: string) {
    NginxConfName(p) || NginxComponent(p)
  }

  /** `files.iter().any(...)` over the walked paths. */
  predicate AnyNginx(files: seq<string>) {
    exists i :: 0 <= i < |files| && NginxPath(files[i])
  }

  /** `has_repo_nginx_config`: the answer for the paths a walk capped at 5000
      returns, which are given back as `walked`. */
  method HasRepoNginxConfig(rootPath: string, rootNode: DoctorWalk.Node) returns (walked: seq<string>, b: bool)
    ensures |walked| <= WalkCap
    ensures forall q :: q in walked ==> DoctorWalk.Found(rootPath, rootNode, q)
    ensures |walked| < WalkCap ==> forall p :: DoctorWalk.Found(rootPath, rootNode, p) ==> p in walked
    ensures b <==> AnyNginx(walked)
    ensures b ==> exists p :: DoctorWalk.Found(rootPath, rootNode, p) && NginxPath(p)
  {
    walked := DoctorWalk.WalkFiles(rootPath, rootNode, WalkCap);
    b := AnyNginx(walked);
  }

  /** No walked file, no nginx configuration. */
  lemma NoFilesNoNginx()
    ensures !AnyNginx([])
  {
  }

  /** A walked file whose name looks like an nginx configuration is one. */
  lemma NginxByFileName(dir: string, name: string)
    requires name != "" && name != "." && name != ".." && '/' !in name
    requires EndsWith(ToLower(name), ".conf") && Contains(ToLower(name), "nginx")
    ensures NginxPath(DoctorWalk.ChildPath(dir, name))
  {
    FileNameOfChild(dir, name);
  }

  /** Any file below a directory called `nginx` (in any case) counts. */
  lemma NginxByDirectory(dir: string, d: string, rest: string)
    requires ToLower(d) == "nginx" && '/' !in d
    ensures NginxPath(DoctorWalk.ChildPath(DoctorWalk.ChildPath(dir, d), rest))
  {
    var sub := DoctorWalk.ChildPath(dir, d);
    var p := DoctorWalk.ChildPath(sub, rest);
    JoinPathPrefix(dir, d);
    var pre := JoinPath(dir, "");
    assert d != [];
    assert sub == pre + d;
    assert sub[|sub| - 1] == d[|d| - 1];
    assert d[|d| - 1] in d;
    var tail := d + ['/'] + rest;
    assert p == pre + tail;
    SplitAtSeparator(d, '/', rest);
    assert Split(tail, '/')[0] == d;
    var whole := Split(p, '/');
    if pre == [] {
      assert whole == Split(tail, '/');
      assert ToLower(whole[0]) == "nginx";
    } else {
      var p0 := pre[..|pre| - 1];
      assert pre == p0 + ['/'];
      assert p == p0 + ['/'] + tail;
      SplitSuffix(p0, '/', tail);
      assert whole[|whole| - |Split(tail, '/')|] == d;
    }
  }

  /** The five pm2 ecosystem file names, in the order they are tried. */
  const Pm2Candidates: seq<string> := [
    "ecosystem.config.js", "ecosystem.config.cjs", "ecosystem.config.json",
    "ecosystem.config.yml", "ecosystem.config.yaml"
  ]

  /** Some of the names, joined to the root, is an existing path. */
  function AnyExists(root: string, names: seq<string>, existing: set<string>): (r: bool)
    ensures r <==> exists i :: 0 <= i < |names| && JoinPath(root, names[i]) in existing
  {
    if names == [] then false
    else JoinPath(root, names[0]) in existing || AnyExists(root, names[1..], existing)
  }

  /** `has_pm2_ecosystem`: one of the five candidates exists at the root. */
  function HasPm2Ecosystem(root: string, existing: set<string>): (r: bool)
    ensures r <==> exists n :: n in Pm2Candidates && JoinPath(root, n) in existing
  {
    AnyExists(root, Pm2Candidates, existing)
  }

  /** Only the five candidate paths matter: two views of the disk that agree on
      them give the same answer. */
  lemma Pm2OnlyCandidates(root: string, a: set<string>, b: set<string>)
    requires forall n :: n in Pm2Candidates ==> (JoinPath(root, n) in a <==> JoinPath(root, n) in b)
    ensures HasPm2Ecosystem(root, a) == HasPm2Ecosystem(root, b)
  {
  }

  /** A root with a `.yaml` ecosystem file, say, has one. */
  lemma Pm2Yaml(root: string, existing: set<string>)
    requires JoinPath(root, "ecosystem.config.yaml") in existing
    ensures HasPm2Ecosystem(root, existing)
  {
    assert "ecosystem.config.yaml" in Pm2Candidates;
  }
}
