/** The desktop editor's route analyser (gui-edit/src-tauri/src/parser/route_analyzer.rs):
    the URL path of a route file, the classification of the names a route file
    exports, and the analysis of every route file under a routes directory.

    The regular expressions that find the exported names are not modelled: the
    names each of them captures are the input. The file system is an in-memory
    tree plus a table of file contents. */
module RouteAnalyzer {
  import opened Wrappers
  import opened Strings
  import opened Paths
  import Ordering

  /** `HTTP_METHODS`. */
  const HttpMethods: seq<string> := ["get", "post", "put", "patch", "delete", "head", "options"]

  // ---------------------------------------------------------------------------
  // File path to URL path

  /** The components of a path as `Path::components` reports them: whether it is
      rooted, then its non-empty parts. */
  datatype PathParts = PathParts(rooted: bool, comps: seq<string>)

  function Components(p: string): PathParts {
    PathParts(StartsWith(p, "/"), NonEmpty(Split(p, '/')))
  }

  /** The components left once those of `base` are matched, one by one, at the
      front of `comps`; none when they do not match. */
  function DropComps(comps: seq<string>, base: seq<string>): (r: Option<seq<string>>)
    ensures r.Some? <==> base <= comps
    ensures r.Some? ==> r.value == comps[|base|..]
  {
    if base == [] then Some(comps)
    else if comps == [] || comps[0] != base[0] then None
    else
      var r := DropComps(comps[1..], base[1..]);
      assert base <= comps <==> base[1..] <= comps[1..];
      r
  }

  /** `Path::strip_prefix`: component-wise, the remaining components joined. */
  function StripPathPrefix(path: string, base: string): Option<string> {
    var p := Components(path);
    var b := Components(base);
    if p.rooted != b.rooted then None
    else
      match DropComps(p.comps, b.comps)
      case None => None
      case Some(rest) => Some(Join(rest, "/"))
  }

  /** The path relative to the routes directory, or the whole path when it is not
      inside it. */
  function RelativePath(filePath: string, routesDir: string): string {
    match StripPathPrefix(filePath, routesDir)
    case Some(r) => r
    case None => filePath
  }

  /** `.ts` is stripped, else `.tsx`, else nothing. */
  function WithoutExtension(rel: string): (r: string)
    ensures r <= rel
  {
    if EndsWith(rel, ".ts") then rel[..|rel| - 3]
    else if EndsWith(rel, ".tsx") then rel[..|rel| - 4]
    else rel
  }

  /** The URL form of one non-empty, non-index part: `[...x]` becomes `*x`, `[x]`
      becomes `:x`, anything else is kept. */
  function UrlSegment(seg: string): string {
    if StartsWith(seg, "[") && EndsWith(seg, "]") then
      assert seg[0] == '[' && seg[|seg| - 1] == ']';
      var param := seg[1..|seg| - 1];
      if StartsWith(param, "...") then "*" + param[3..] else ":" + param
    else seg
  }

  /** A mapped segment is non-empty and has a slash only if the part has one. */
  lemma UrlSegmentShape(seg: string)
    requires seg != []
    ensures UrlSegment(seg) != []
    ensures '/' !in seg ==> '/' !in UrlSegment(seg)
  {
    if StartsWith(seg, "[") && EndsWith(seg, "]") {
      assert seg[0] == '[' && seg[|seg| - 1] == ']';
      var param := seg[1..|seg| - 1];
      assert forall i :: 0 <= i < |param| ==> param[i] == seg[i + 1];
      if StartsWith(param, "...") {
        assert forall i :: 0 <= i < |param[3..]| ==> param[3..][i] == param[i + 3];
      }
    }
  }

  /** The parts that produce a segment: empty parts and `index` are skipped. */
  predicate Kept(part: string) {
    part != "" && part != "index"
  }

  /** The URL segments of the parts: every kept part, mapped, in order. */
  function MapKept(parts: seq<string>): seq<string>
  {
    if parts == [] then []
    else
      var rest := MapKept(parts[..|parts| - 1]);
      var last := parts[|parts| - 1];
      if Kept(last) then rest + [UrlSegment(last)] else rest
  }

  /** The URL segments of a route file. */
  function AnalyzerSegments(filePath: string, routesDir: string): seq<string> {
    MapKept(Split(WithoutExtension(RelativePath(filePath, routesDir)), '/'))
  }

  /** The segments joined behind a `/`; the root is `/`. */
  function SegmentsToUrl(segs: seq<string>): string {
    if segs == [] then "/" else "/" + Join(segs, "/")
  }

  /** Each segment followed by a slash: what the loop of `file_path_to_url_path`
      pushes after its initial `/`. */
  function Terminated(segs: seq<string>): string
  {
    if segs == [] then "" else Terminated(segs[..|segs| - 1]) + segs[|segs| - 1] + "/"
  }

  lemma TerminatedSnoc(segs: seq<string>, x: string)
    ensures Terminated(segs + [x]) == Terminated(segs) + x + "/"
  {
    assert (segs + [x])[..|segs|] == segs;
  }

  lemma {:induction false} TerminatedJoin(segs: seq<string>)
    requires segs != []
    ensures Terminated(segs) == Join(segs, "/") + "/"
  {
    var init := segs[..|segs| - 1];
    if |segs| == 1 {
      assert init == [];
    } else {
      TerminatedJoin(init);
      JoinSnoc(init, segs[|segs| - 1], "/");
      assert init + [segs[|segs| - 1]] == segs;
    }
  }

  /** Joining one more part. */
  lemma {:induction false} JoinSnoc(parts: seq<string>, x: string, sep: string)
    requires parts != []
    ensures Join(parts + [x], sep) == Join(parts, sep) + sep + x
  {
    if |parts| == 1 {
      assert (parts + [x])[1..] == [x];
    } else {
      assert (parts + [x])[1..] == parts[1..] + [x];
      JoinSnoc(parts[1..], x, sep);
    }
  }

  /** `file_path_to_url_path`: the URL path is built by pushing each segment and a
      slash, then popping the trailing slash unless the path is the root. The
      result is the URL segments joined behind a `/`. */
  method FilePathToUrlPath(filePath: string, routesDir: string) returns (urlPath: string)
    ensures urlPath == SegmentsToUrl(AnalyzerSegments(filePath, routesDir))
  {
    var withoutExt := WithoutExtension(RelativePath(filePath, routesDir));
    urlPath := BuildUrlPath(Split(withoutExt, '/'));
  }

  /** The loop of `file_path_to_url_path` over the parts of the path. */
  method BuildUrlPath(parts: seq<string>) returns (urlPath: string)
    ensures urlPath == SegmentsToUrl(MapKept(parts))
  {
    urlPath := "/";
    var i := 0;
    while i < |parts|
      invariant 0 <= i <= |parts|
      invariant urlPath == "/" + Terminated(MapKept(parts[..i]))
    {
      var segment := parts[i];
      ghost var prev := MapKept(parts[..i]);
      assert parts[..i + 1][..i] == parts[..i];
      assert MapKept(parts[..i + 1]) == if Kept(segment) then prev + [UrlSegment(segment)] else prev;
      if segment != "" && segment != "index" {
        TerminatedSnoc(prev, UrlSegment(segment));
        urlPath := urlPath + UrlSegment(segment) + "/";
      }
      i := i + 1;
    }
    assert parts[..|parts|] == parts;
    var segs := MapKept(parts);
    if segs != [] {
      TerminatedJoin(segs);
      assert urlPath == "/" + Join(segs, "/") + "/";
    }
    if |urlPath| > 1 && urlPath[|urlPath| - 1] == '/' {
      urlPath := urlPath[..|urlPath| - 1];
    }
  }

  /** Every URL segment is non-empty and slash-free. */
  lemma {:induction false} MapKeptClean(parts: seq<string>)
    requires forall i :: 0 <= i < |parts| ==> '/' !in parts[i]
    ensures forall i :: 0 <= i < |MapKept(parts)| ==> MapKept(parts)[i] != [] && '/' !in MapKept(parts)[i]
  {
    if parts != [] {
      MapKeptClean(parts[..|parts| - 1]);
      var last := parts[|parts| - 1];
      if Kept(last) {
        UrlSegmentShape(last);
      }
    }
  }

  /** A URL path starts with `/`, ends with `/` only when it is the root, and
      splits back into its segments. */
  lemma UrlPathShape(filePath: string, routesDir: string)
    ensures var segs := AnalyzerSegments(filePath, routesDir); var r := SegmentsToUrl(segs);
      |r| >= 1 && r[0] == '/' && (r == "/" || r[|r| - 1] != '/') &&
      (r == "/" <==> segs == []) &&
      (segs != [] ==> Split(r[1..], '/') == segs)
  {
    var w := WithoutExtension(RelativePath(filePath, routesDir));
    SplitParts(w, '/');
    var segs := AnalyzerSegments(filePath, routesDir);
    MapKeptClean(Split(w, '/'));
    if segs != [] {
      var last := segs[|segs| - 1];
      JoinLastChar(segs, "/");
      var j := Join(segs, "/");
      assert last[|last| - 1] in last;
      assert ("/" + j)[1..] == j;
      SplitJoin(segs, '/');
    }
  }

  /** The analyser's own test vectors, at the level of one path part. */
  lemma UrlSegmentVectors()
    ensures UrlSegment("users") == "users"
    ensures UrlSegment("[id]") == ":id"
    ensures UrlSegment("[...slug]") == "*slug"
  {
    assert "users"[..1][0] == 'u';
    assert "[id]"[..1] == "[" && "[id]"[3..] == "]" && "[id]"[1..3] == "id";
    assert "id"[..3 - 1] == "id";
    assert !StartsWith("id", "...");
    assert "[...slug]"[..1] == "[" && "[...slug]"[8..] == "]";
    var p := "[...slug]"[1..8];
    assert p == "...slug" && p[..3] == "..." && p[3..] == "slug";
  }

  /** The analyser's own test vectors, at the level of the parts of each path:
      `index` parts are dropped, the others mapped. */
  lemma MapKeptVectors()
    ensures MapKept(["index"]) == []
    ensures MapKept(["users", "index"]) == ["users"]
    ensures MapKept(["users", "[id]"]) == ["users", ":id"]
    ensures MapKept(["posts", "[...slug]"]) == ["posts", "*slug"]
  {
    UrlSegmentVectors();
    assert ["users", "index"][..1] == ["users"];
    assert ["users", "[id]"][..1] == ["users"];
    assert ["posts", "[...slug]"][..1] == ["posts"];
    assert "posts"[..1][0] == 'p';
  }

  /** The parts of a path without empty parts or slashes. */
  predicate CleanParts(parts: seq<string>) {
    forall i :: 0 <= i < |parts| ==> parts[i] != [] && '/' !in parts[i]
  }

  lemma RootedComponents(parts: seq<string>)
    requires |parts| >= 1 && CleanParts(parts)
    ensures Components("/" + Join(parts, "/")) == PathParts(true, parts)
  {
    var all := [""] + parts;
    assert all[1..] == parts;
    assert Join(all, "/") == "/" + Join(parts, "/");
    SplitJoin(all, '/');
    assert NonEmpty(all) == NonEmpty(parts);
    NonEmptyAll(parts);
  }

  /** A file below the routes directory: its path relative to the directory is its
      components below it, joined by `/`. */
  lemma RelativePathNested(dirParts: seq<string>, rest: seq<string>)
    requires |dirParts| >= 1 && |rest| >= 1
    requires CleanParts(dirParts) && CleanParts(rest)
    ensures RelativePath("/" + Join(dirParts + rest, "/"), "/" + Join(dirParts, "/")) == Join(rest, "/")
  {
    assert CleanParts(dirParts + rest);
    RootedComponents(dirParts + rest);
    RootedComponents(dirParts);
    assert dirParts <= dirParts + rest;
    assert (dirParts + rest)[|dirParts|..] == rest;
  }

  // ---------------------------------------------------------------------------
  // Export classification

  /** `ExportInfo`. */
  datatype ExportInfo = ExportInfo(name: string, kind: string, valueType: Option<string>)

  /** `ParseError`. */
  datatype ParseError = ParseError(message: string, line: Option<nat>, column: Option<nat>)

  /** `RouteAnalysis`; the `options` field, which the analyser never fills, is left out. */
  datatype RouteAnalysis = RouteAnalysis(
    filePath: string, urlPath: string, httpMethod: string,
    hasHandler: bool, hasOptions: bool,
    exports: seq<ExportInfo>, errors: seq<ParseError>)

  /** What the four regular expressions find in a file: the names of `export const`
      declarations, the names of `export function` declarations, whether there is an
      `export default`, and the text inside each `export { ... }`, in file order. */
  datatype ExportScan = ExportScan(consts: seq<string>, functions: seq<string>, hasDefault: bool, namedGroups: seq<string>)

  /** Reading a file: its exports, or the I/O error's text. */
  datatype FileContent = Readable(scan: ExportScan) | Unreadable(ioError: string)

  predicate IsMethodName(name: string) {
    ToLower(name) in HttpMethods
  }

  /** A method name gives a non-empty method. */
  lemma MethodNameNonEmpty(name: string)
    requires IsMethodName(name)
    ensures ToUpper(ToLower(name)) != ""
  {
    assert ToLower(name) in HttpMethods;
  }

  /** A `const` export. The method check comes first, and `options` is one of the
      method names, so `export const options` is taken as an OPTIONS handler and
      the `options` branch of `ConstOther` is never reached (see README, Findings). */
  function ConstStep(a: RouteAnalysis, name: string): (r: RouteAnalysis)
    ensures r.filePath == a.filePath && r.urlPath == a.urlPath && r.errors == a.errors
    ensures |r.exports| == |a.exports| + 1
  {
    if IsMethodName(name) then
      a.(httpMethod := ToUpper(ToLower(name)), hasHandler := true,
         exports := a.exports + [ExportInfo(name, "variable", Some("handler"))])
    else ConstOther(a, name)
  }

  /** The branches of a `const` export after the method check. */
  function ConstOther(a: RouteAnalysis, name: string): (r: RouteAnalysis)
    ensures r.filePath == a.filePath && r.urlPath == a.urlPath && r.errors == a.errors
    ensures |r.exports| == |a.exports| + 1
  {
    if name == "options" then
      a.(hasOptions := true, exports := a.exports + [ExportInfo(name, "variable", Some("options"))])
    else if name == "handler" then
      a.(hasHandler := true, httpMethod := if a.httpMethod == "" then "GET" else a.httpMethod,
         exports := a.exports + [ExportInfo(name, "variable", Some("handler"))])
    else
      a.(exports := a.exports + [ExportInfo(name, "variable", None)])
  }

  /** A `function` export. */
  function FunctionStep(a: RouteAnalysis, name: string): (r: RouteAnalysis)
    ensures r.filePath == a.filePath && r.urlPath == a.urlPath && r.errors == a.errors
    ensures r.hasOptions == a.hasOptions
    ensures r.exports == a.exports + [ExportInfo(name, "function", Some("handler"))]
  {
    var b :=
      if IsMethodName(name) then a.(httpMethod := ToUpper(ToLower(name)), hasHandler := true)
      else if name == "handler" then a.(hasHandler := true, httpMethod := if a.httpMethod == "" then "GET" else a.httpMethod)
      else a;
    b.(exports := b.exports + [ExportInfo(name, "function", Some("handler"))])
  }

  /** The default export. */
  function DefaultStep(a: RouteAnalysis): (r: RouteAnalysis)
    ensures r.filePath == a.filePath && r.urlPath == a.urlPath && r.errors == a.errors
    ensures r.hasOptions == a.hasOptions && r.hasHandler
    ensures r.exports == a.exports + [ExportInfo("default", "default", None)]
    ensures a.hasHandler || a.httpMethod != "" ==> r.httpMethod == a.httpMethod
    ensures !a.hasHandler && a.httpMethod == "" ==> r.httpMethod == "GET"
  {
    var b := a.(exports := a.exports + [ExportInfo("default", "default", None)]);
    if !b.hasHandler then b.(hasHandler := true, httpMethod := if b.httpMethod == "" then "GET" else b.httpMethod)
    else b
  }

  /** A name listed in `export { ... }`, after `as` renaming is cut off and the rest
      trimmed; as for constants, the method check comes first. */
  function NamedStep(a: RouteAnalysis, name: string): (r: RouteAnalysis)
    ensures r.filePath == a.filePath && r.urlPath == a.urlPath && r.errors == a.errors
  {
    if IsMethodName(name) then
      a.(httpMethod := ToUpper(ToLower(name)), hasHandler := true,
         exports := a.exports + [ExportInfo(name, "named", Some("handler"))])
    else NamedOther(a, name)
  }

  /** The branch of an export-group name after the method check. */
  function NamedOther(a: RouteAnalysis, name: string): (r: RouteAnalysis)
    ensures r.filePath == a.filePath && r.urlPath == a.urlPath && r.errors == a.errors
  {
    if name == "options" then
      a.(hasOptions := true, exports := a.exports + [ExportInfo(name, "named", Some("options"))])
    else a
  }

  /** `name.split(" as ").next().trim()`. */
  function BeforeAs(part: string): string {
    var i := IndexOf(part, " as ");
    Trim(if i < 0 then part else part[..i])
  }

  /** The non-empty names of one `export { ... }` group. */
  function GroupNames(group: string): seq<string> {
    NonEmpty(MapBeforeAs(Split(group, ',')))
  }

  function MapBeforeAs(parts: seq<string>): (r: seq<string>)
    ensures |r| == |parts|
  {
    if parts == [] then [] else [BeforeAs(parts[0])] + MapBeforeAs(parts[1..])
  }

  /** The names of all groups, in order. */
  function NamedNames(groups: seq<string>): seq<string>
  {
    if groups == [] then [] else NamedNames(groups[..|groups| - 1]) + GroupNames(groups[|groups| - 1])
  }

  function FoldConsts(a: RouteAnalysis, names: seq<string>): (r: RouteAnalysis)
    ensures r.filePath == a.filePath && r.urlPath == a.urlPath && r.errors == a.errors
  {
    if names == [] then a else ConstStep(FoldConsts(a, names[..|names| - 1]), names[|names| - 1])
  }

  function FoldFunctions(a: RouteAnalysis, names: seq<string>): (r: RouteAnalysis)
    ensures r.filePath == a.filePath && r.urlPath == a.urlPath && r.errors == a.errors
  {
    if names == [] then a else FunctionStep(FoldFunctions(a, names[..|names| - 1]), names[|names| - 1])
  }

  function FoldNamed(a: RouteAnalysis, names: seq<string>): (r: RouteAnalysis)
    ensures r.filePath == a.filePath && r.urlPath == a.urlPath && r.errors == a.errors
  {
    if names == [] then a else NamedStep(FoldNamed(a, names[..|names| - 1]), names[|names| - 1])
  }

  /** The analysis before the file is read. */
  function InitialAnalysis(filePath: string, urlPath: string): RouteAnalysis {
    RouteAnalysis(filePath, urlPath, "", false, false, [], [])
  }

  /** The classification of a readable file's exports: constants, then functions,
      then the default export, then the named groups. */
  function Classify(a: RouteAnalysis, scan: ExportScan): (r: RouteAnalysis)
    ensures r.filePath == a.filePath && r.urlPath == a.urlPath && r.errors == a.errors
  {
    var c := FoldFunctions(FoldConsts(a, scan.consts), scan.functions);
    var d := if scan.hasDefault then DefaultStep(c) else c;
    FoldNamed(d, NamedNames(scan.namedGroups))
  }

  /** The URL path `file_path_to_url_path` gives a route file. */
  function UrlPathOf(filePath: string, routesDir: string): string {
    SegmentsToUrl(AnalyzerSegments(filePath, routesDir))
  }

  /** `analyze_route_file`: the analysis of one file, given its URL path. */
  function Analysis(filePath: string, urlPath: string, content: FileContent): (r: RouteAnalysis)
    ensures r.filePath == filePath && r.urlPath == urlPath
  {
    var a := InitialAnalysis(filePath, urlPath);
    match content
    case Unreadable(e) => a.(errors := [ParseError("Failed to read file: " + e, None, None)])
    case Readable(scan) => Classify(a, scan)
  }

  /** `analyze_route_file`: the four loops update the analysis one export at a time. */
  method AnalyzeRouteFile(filePath: string, routesDir: string, content: FileContent) returns (analysis: RouteAnalysis)
    ensures analysis == Analysis(filePath, UrlPathOf(filePath, routesDir), content)
  {
    var urlPath := FilePathToUrlPath(filePath, routesDir);
    analysis := RouteAnalysis(filePath, urlPath, "", false, false, [], []);
    if content.Unreadable? {
      analysis := analysis.(errors := analysis.errors + [ParseError("Failed to read file: " + content.ioError, None, None)]);
      return;
    }
    var scan := content.scan;
    analysis := ClassifyConsts(analysis, scan.consts);
    analysis := ClassifyFunctions(analysis, scan.functions);
    if scan.hasDefault {
      analysis := DefaultStep(analysis);
    }
    analysis := ClassifyNamed(analysis, NamedNames(scan.namedGroups));
  }

  /** The loop over the `export const` names. */
  method ClassifyConsts(a: RouteAnalysis, names: seq<string>) returns (analysis: RouteAnalysis)
    ensures analysis == FoldConsts(a, names)
  {
    analysis := a;
    var i := 0;
    while i < |names|
      invariant 0 <= i <= |names|
      invariant analysis == FoldConsts(a, names[..i])
    {
      assert names[..i + 1][..i] == names[..i];
      analysis := ConstStep(analysis, names[i]);
      i := i + 1;
    }
    assert names[..|names|] == names;
  }

  /** The loop over the `export function` names. */
  method ClassifyFunctions(a: RouteAnalysis, names: seq<string>) returns (analysis: RouteAnalysis)
    ensures analysis == FoldFunctions(a, names)
  {
    analysis := a;
    var i := 0;
    while i < |names|
      invariant 0 <= i <= |names|
      invariant analysis == FoldFunctions(a, names[..i])
    {
      assert names[..i + 1][..i] == names[..i];
      analysis := FunctionStep(analysis, names[i]);
      i := i + 1;
    }
    assert names[..|names|] == names;
  }

  /** The loop over the names of the `export { ... }` groups. */
  method ClassifyNamed(a: RouteAnalysis, names: seq<string>) returns (analysis: RouteAnalysis)
    ensures analysis == FoldNamed(a, names)
  {
    analysis := a;
    var i := 0;
    while i < |names|
      invariant 0 <= i <= |names|
      invariant analysis == FoldNamed(a, names[..i])
    {
      assert names[..i + 1][..i] == names[..i];
      analysis := NamedStep(analysis, names[i]);
      i := i + 1;
    }
    assert names[..|names|] == names;
  }

  // ---------------------------------------------------------------------------
  // Properties of the classification

  /** The method export a single name makes: itself when it is a method name that
      is not skipped as `options`. As written no loop skips `options`; the
      corrected constant and named loops below do (`skipOptions`). */
  function StepExports(n: string, skipOptions: bool): seq<string> {
    if IsMethodName(n) && !(skipOptions && n == "options") then [n] else []
  }

  /** The names of `names` that set the method, in order. */
  function MethodExports(names: seq<string>, skipOptions: bool): (r: seq<string>)
    ensures |r| <= |names|
  {
    if names == [] then []
    else MethodExports(names[..|names| - 1], skipOptions) + StepExports(names[|names| - 1], skipOptions)
  }

  /** Every method export is a method name, and every name is one unless it is
      not a method name (or is a skipped `options`). */
  lemma {:induction false} MethodExportsMembers(names: seq<string>, skipOptions: bool)
    ensures forall n :: n in MethodExports(names, skipOptions) <==>
      n in names && IsMethodName(n) && !(skipOptions && n == "options")
  {
    if names != [] {
      var init := names[..|names| - 1];
      MethodExportsMembers(init, skipOptions);
      assert names == init + [names[|names| - 1]];
    }
  }

  /** The method after a loop: the upper-cased last method export, else `GET` when
      a handler appeared while no method was set, else the method before. */
  function MethodAfter(oldMethod: string, exports: seq<string>, handler: bool): string {
    if exports != [] then ToUpper(ToLower(exports[|exports| - 1]))
    else if handler && oldMethod == "" then "GET"
    else oldMethod
  }

  lemma {:induction false} MethodExportsAreMethods(names: seq<string>, skipOptions: bool)
    ensures forall i :: 0 <= i < |MethodExports(names, skipOptions)| ==> IsMethodName(MethodExports(names, skipOptions)[i])
  {
    if names != [] {
      var init := names[..|names| - 1];
      MethodExportsAreMethods(init, skipOptions);
      var ex := MethodExports(init, skipOptions);
      var st := StepExports(names[|names| - 1], skipOptions);
      forall i | 0 <= i < |ex + st| ensures IsMethodName((ex + st)[i]) {
        if i >= |ex| {
          assert (ex + st)[i] == st[i - |ex|];
        } else {
          assert (ex + st)[i] == ex[i];
        }
      }
    }
  }

  /** A name occurs in a non-empty list exactly when it occurs before the last place
      or is the last name. */
  lemma LastMember(x: string, names: seq<string>)
    requires names != []
    ensures x in names <==> x in names[..|names| - 1] || x == names[|names| - 1]
  {
    assert names == names[..|names| - 1] + [names[|names| - 1]];
  }

  /** What one constant does to the method and the handler flag: every method
      name, `options` included, sets both. */
  lemma ConstStepEffect(a: RouteAnalysis, n: string)
    ensures ConstStep(a, n).httpMethod == MethodAfter(a.httpMethod, StepExports(n, false), n == "handler")
    ensures ConstStep(a, n).hasHandler == (a.hasHandler || n == "handler" || StepExports(n, false) != [])
  {
    if n == "handler" {
      HandlerIsNoMethodName();
    }
  }

  /** What one exported function does to the method and the handler flag. */
  lemma FunctionStepEffect(a: RouteAnalysis, n: string)
    ensures FunctionStep(a, n).httpMethod == MethodAfter(a.httpMethod, StepExports(n, false), n == "handler")
    ensures FunctionStep(a, n).hasHandler == (a.hasHandler || n == "handler" || StepExports(n, false) != [])
  {
    if n == "handler" {
      HandlerIsNoMethodName();
    }
  }

  /** What one name of an export group does to the method and the handler flag. */
  lemma NamedStepEffect(a: RouteAnalysis, n: string)
    ensures NamedStep(a, n).httpMethod == MethodAfter(a.httpMethod, StepExports(n, false), false)
    ensures NamedStep(a, n).hasHandler == (a.hasHandler || StepExports(n, false) != [])
  {
  }

  /** A loop's effect on the method composes from the effects of its steps. */
  lemma MethodStep(o: string, ex: seq<string>, h: bool, n: string, skipOptions: bool, hn: bool)
    requires forall i :: 0 <= i < |ex| ==> IsMethodName(ex[i])
    ensures MethodAfter(MethodAfter(o, ex, h), StepExports(n, skipOptions), hn) ==
      MethodAfter(o, ex + StepExports(n, skipOptions), h || hn)
  {
    MethodAfterCompose(o, ex, h, StepExports(n, skipOptions), hn);
  }

  lemma {:induction false} FoldConstsMethod(a: RouteAnalysis, names: seq<string>)
    ensures FoldConsts(a, names).httpMethod == MethodAfter(a.httpMethod, MethodExports(names, false), "handler" in names)
  {
    if names != [] {
      var init := names[..|names| - 1];
      var n := names[|names| - 1];
      FoldConstsMethod(a, init);
      ConstStepEffect(FoldConsts(a, init), n);
      MethodExportsAreMethods(init, false);
      MethodStep(a.httpMethod, MethodExports(init, false), "handler" in init, n, false, n == "handler");
      LastMember("handler", names);
    }
  }

  lemma {:induction false} FoldConstsHandler(a: RouteAnalysis, names: seq<string>)
    ensures FoldConsts(a, names).hasHandler == (a.hasHandler || "handler" in names || MethodExports(names, false) != [])
  {
    if names != [] {
      var init := names[..|names| - 1];
      var n := names[|names| - 1];
      FoldConstsHandler(a, init);
      ConstStepEffect(FoldConsts(a, init), n);
      LastMember("handler", names);
    }
  }

  lemma {:induction false} FoldFunctionsMethod(a: RouteAnalysis, names: seq<string>)
    ensures FoldFunctions(a, names).httpMethod == MethodAfter(a.httpMethod, MethodExports(names, false), "handler" in names)
  {
    if names != [] {
      var init := names[..|names| - 1];
      var n := names[|names| - 1];
      FoldFunctionsMethod(a, init);
      FunctionStepEffect(FoldFunctions(a, init), n);
      MethodExportsAreMethods(init, false);
      MethodStep(a.httpMethod, MethodExports(init, false), "handler" in init, n, false, n == "handler");
      LastMember("handler", names);
    }
  }

  lemma {:induction false} FoldFunctionsHandler(a: RouteAnalysis, names: seq<string>)
    ensures FoldFunctions(a, names).hasHandler == (a.hasHandler || "handler" in names || MethodExports(names, false) != [])
  {
    if names != [] {
      var init := names[..|names| - 1];
      var n := names[|names| - 1];
      FoldFunctionsHandler(a, init);
      FunctionStepEffect(FoldFunctions(a, init), n);
      LastMember("handler", names);
    }
  }

  lemma {:induction false} FoldNamedMethod(a: RouteAnalysis, names: seq<string>)
    ensures FoldNamed(a, names).httpMethod == MethodAfter(a.httpMethod, MethodExports(names, false), false)
    ensures FoldNamed(a, names).hasHandler == (a.hasHandler || MethodExports(names, false) != [])
  {
    if names != [] {
      var init := names[..|names| - 1];
      var n := names[|names| - 1];
      FoldNamedMethod(a, init);
      NamedStepEffect(FoldNamed(a, init), n);
      MethodExportsAreMethods(init, false);
      MethodStep(a.httpMethod, MethodExports(init, false), false, n, false, false);
    }
  }

  /** Two loops in a row act as one loop over both export lists: a method set by
      the first stays set unless the second sets another. */
  lemma MethodAfterCompose(o: string, e1: seq<string>, h1: bool, e2: seq<string>, h2: bool)
    requires forall i :: 0 <= i < |e1| ==> IsMethodName(e1[i])
    ensures MethodAfter(MethodAfter(o, e1, h1), e2, h2) == MethodAfter(o, e1 + e2, h1 || h2)
  {
    if e1 != [] {
      MethodNameNonEmpty(e1[|e1| - 1]);
    }
    if e2 != [] {
      assert (e1 + e2)[|e1 + e2| - 1] == e2[|e2| - 1];
    } else {
      assert e1 + e2 == e1;
    }
  }

  /** Besides the method names, the names that make a file a handler: a `handler`
      constant or function, or a default export. */
  predicate FallbackHandler(scan: ExportScan) {
    "handler" in scan.consts || "handler" in scan.functions || scan.hasDefault
  }

  /** Every export that sets the method, in processing order: constants, functions,
      then the named groups; `options` among them. */
  function MethodCandidates(scan: ExportScan): seq<string> {
    MethodExports(scan.consts, false) + MethodExports(scan.functions, false) + MethodExports(NamedNames(scan.namedGroups), false)
  }

  lemma AllMethodsConcat(e1: seq<string>, e2: seq<string>)
    requires forall i :: 0 <= i < |e1| ==> IsMethodName(e1[i])
    requires forall i :: 0 <= i < |e2| ==> IsMethodName(e2[i])
    ensures forall i :: 0 <= i < |e1 + e2| ==> IsMethodName((e1 + e2)[i])
  {
    forall i | 0 <= i < |e1 + e2| ensures IsMethodName((e1 + e2)[i]) {
      if i < |e1| {
        assert (e1 + e2)[i] == e1[i];
      } else {
        assert (e1 + e2)[i] == e2[i - |e1|];
      }
    }
  }

  /** The constant loop followed by the function loop acts as one loop over both
      export lists. */
  lemma ConstsThenFunctions(a: RouteAnalysis, consts: seq<string>, functions: seq<string>)
    ensures var c := FoldFunctions(FoldConsts(a, consts), functions);
      var ex := MethodExports(consts, false) + MethodExports(functions, false);
      c.httpMethod == MethodAfter(a.httpMethod, ex, "handler" in consts || "handler" in functions) &&
      c.hasHandler == (a.hasHandler || "handler" in consts || "handler" in functions || ex != [])
  {
    FoldConstsMethod(a, consts);
    FoldConstsHandler(a, consts);
    var c1 := FoldConsts(a, consts);
    FoldFunctionsMethod(c1, functions);
    FoldFunctionsHandler(c1, functions);
    MethodExportsAreMethods(consts, false);
    MethodAfterCompose(a.httpMethod, MethodExports(consts, false), "handler" in consts,
      MethodExports(functions, false), "handler" in functions);
  }

  /** A readable file's method is the upper-cased name of its LAST method export
      (`options` counting as one); without one it is `GET` when the file has a
      `handler` or a default export and empty otherwise. It is a handler exactly
      when it has any of these. */
  lemma ClassifyMethod(filePath: string, urlPath: string, scan: ExportScan)
    ensures var r := Classify(InitialAnalysis(filePath, urlPath), scan);
      r.httpMethod == MethodAfter("", MethodCandidates(scan), FallbackHandler(scan)) &&
      (r.hasHandler <==> MethodCandidates(scan) != [] || FallbackHandler(scan))
  {
    var a := InitialAnalysis(filePath, urlPath);
    ConstsThenFunctions(a, scan.consts, scan.functions);
    var c := FoldFunctions(FoldConsts(a, scan.consts), scan.functions);
    var d := if scan.hasDefault then DefaultStep(c) else c;
    var names := NamedNames(scan.namedGroups);
    FoldNamedMethod(d, names);
    var ex := MethodExports(scan.consts, false) + MethodExports(scan.functions, false);
    MethodExportsAreMethods(scan.consts, false);
    MethodExportsAreMethods(scan.functions, false);
    AllMethodsConcat(MethodExports(scan.consts, false), MethodExports(scan.functions, false));
    MethodAfterCompose("", ex, "handler" in scan.consts || "handler" in scan.functions || scan.hasDefault,
      MethodExports(names, false), false);
  }

  /** A file exporting `get` as a constant and `post` as a function is a POST route:
      a later method export overrides an earlier one. */
  lemma LaterMethodWins()
    ensures Classify(InitialAnalysis("", "/"), ExportScan(["get"], ["post"], false, [])).httpMethod == "POST"
  {
    var a := InitialAnalysis("", "/");
    assert ["get"][..0] == [] && ["post"][..0] == [];
    ToLowerNoCapitals("get");
    assert HttpMethods[0] == "get";
    var c1 := ConstStep(a, "get");
    assert FoldConsts(a, ["get"]) == c1;
    ToLowerNoCapitals("post");
    assert HttpMethods[1] == "post";
    ToUpperIs("post", "POST");
    var c2 := FunctionStep(c1, "post");
    assert c2.httpMethod == "POST";
    assert FoldFunctions(c1, ["post"]) == c2;
    assert NamedNames([]) == [];
  }

  lemma OptionsIsMethodName()
    ensures IsMethodName("options")
  {
    ToLowerNoCapitals("options");
    assert HttpMethods[6] == "options";
  }

  lemma HandlerIsNoMethodName()
    ensures !IsMethodName("handler")
  {
    ToLowerNoCapitals("handler");
  }

  /** No step ever sets the options flag: the `options` branches come after the
      method check, which `options` already passes. */
  lemma OptionsNeverFlagged(a: RouteAnalysis, name: string)
    ensures ConstStep(a, name).hasOptions == a.hasOptions
    ensures NamedStep(a, name).hasOptions == a.hasOptions
  {
    OptionsIsMethodName();
  }

  /** An `export const options` makes the file an OPTIONS handler and leaves the
      options flag as it was. */
  lemma OptionsExportAsWritten(a: RouteAnalysis)
    ensures var r := ConstStep(a, "options");
      r.hasOptions == a.hasOptions && r.hasHandler && r.httpMethod == "OPTIONS"
  {
    OptionsIsMethodName();
    ToUpperIs("options", "OPTIONS");
  }

  /** The constant loop never sets the options flag, and records one export per
      constant. */
  lemma {:induction false} FoldConstsOptions(a: RouteAnalysis, names: seq<string>)
    ensures FoldConsts(a, names).hasOptions == a.hasOptions
    ensures |FoldConsts(a, names).exports| == |a.exports| + |names|
  {
    if names != [] {
      var init := names[..|names| - 1];
      FoldConstsOptions(a, init);
      OptionsNeverFlagged(FoldConsts(a, init), names[|names| - 1]);
    }
  }

  lemma {:induction false} FoldFunctionsOptions(a: RouteAnalysis, names: seq<string>)
    ensures FoldFunctions(a, names).hasOptions == a.hasOptions
    ensures |FoldFunctions(a, names).exports| == |a.exports| + |names|
  {
    if names != [] {
      FoldFunctionsOptions(a, names[..|names| - 1]);
    }
  }

  /** The named loop never sets the options flag either. */
  lemma {:induction false} FoldNamedOptions(a: RouteAnalysis, names: seq<string>)
    ensures FoldNamed(a, names).hasOptions == a.hasOptions
    ensures |FoldNamed(a, names).exports| >= |a.exports|
  {
    if names != [] {
      var init := names[..|names| - 1];
      FoldNamedOptions(a, init);
      OptionsNeverFlagged(FoldNamed(a, init), names[|names| - 1]);
    }
  }

  /** No file is ever flagged as exporting route options, whatever it exports. */
  lemma ClassifyOptions(filePath: string, urlPath: string, scan: ExportScan)
    ensures !Classify(InitialAnalysis(filePath, urlPath), scan).hasOptions
  {
    var a := InitialAnalysis(filePath, urlPath);
    FoldConstsOptions(a, scan.consts);
    var c1 := FoldConsts(a, scan.consts);
    FoldFunctionsOptions(c1, scan.functions);
    var c := FoldFunctions(c1, scan.functions);
    var d := if scan.hasDefault then DefaultStep(c) else c;
    FoldNamedOptions(d, NamedNames(scan.namedGroups));
  }

  /** Every constant and every function gets exactly one export record, and so
      does a default export, before the named groups add theirs. */
  lemma ClassifyExportsCount(filePath: string, urlPath: string, scan: ExportScan)
    ensures |Classify(InitialAnalysis(filePath, urlPath), scan).exports| >=
      |scan.consts| + |scan.functions| + (if scan.hasDefault then 1 else 0)
  {
    var a := InitialAnalysis(filePath, urlPath);
    FoldConstsOptions(a, scan.consts);
    var c1 := FoldConsts(a, scan.consts);
    FoldFunctionsOptions(c1, scan.functions);
    var c := FoldFunctions(c1, scan.functions);
    var d := if scan.hasDefault then DefaultStep(c) else c;
    FoldNamedOptions(d, NamedNames(scan.namedGroups));
  }

  /** A file that cannot be read carries exactly one error and nothing else: no
      handler, no method, no exports. */
  lemma UnreadableAnalysis(filePath: string, urlPath: string, e: string)
    ensures var r := Analysis(filePath, urlPath, Unreadable(e));
      |r.errors| == 1 && !r.hasHandler && !r.hasOptions && r.httpMethod == "" && r.exports == []
  {
  }

  // ---------------------------------------------------------------------------
  // The corrected classification: the `options` check before the method check

  /** A `const` export with the `options` check first, so that `export const
      options` marks the route options, as the loader reads them. */
  function ConstStepFixed(a: RouteAnalysis, name: string): RouteAnalysis {
    if name == "options" then ConstOther(a, name) else ConstStep(a, name)
  }

  /** A name of an export group with the `options` check first. */
  function NamedStepFixed(a: RouteAnalysis, name: string): RouteAnalysis {
    if name == "options" then NamedOther(a, name) else NamedStep(a, name)
  }

  function FoldConstsFixed(a: RouteAnalysis, names: seq<string>): (r: RouteAnalysis)
    ensures r.filePath == a.filePath && r.urlPath == a.urlPath && r.errors == a.errors
  {
    if names == [] then a else ConstStepFixed(FoldConstsFixed(a, names[..|names| - 1]), names[|names| - 1])
  }

  function FoldNamedFixed(a: RouteAnalysis, names: seq<string>): (r: RouteAnalysis)
    ensures r.filePath == a.filePath && r.urlPath == a.urlPath && r.errors == a.errors
  {
    if names == [] then a else NamedStepFixed(FoldNamedFixed(a, names[..|names| - 1]), names[|names| - 1])
  }

  /** The corrected classification, in the same order of loops. */
  function ClassifyFixed(a: RouteAnalysis, scan: ExportScan): (r: RouteAnalysis)
    ensures r.filePath == a.filePath && r.urlPath == a.urlPath && r.errors == a.errors
  {
    var c := FoldFunctions(FoldConstsFixed(a, scan.consts), scan.functions);
    var d := if scan.hasDefault then DefaultStep(c) else c;
    FoldNamedFixed(d, NamedNames(scan.namedGroups))
  }

  /** With the `options` check first, the same export sets the options flag and
      leaves the method and handler as they were. */
  lemma OptionsExportIntended(a: RouteAnalysis)
    ensures var r := ConstStepFixed(a, "options");
      r.hasOptions && r.hasHandler == a.hasHandler && r.httpMethod == a.httpMethod
  {
  }

  /** On exports without `options` the corrected loops do what the written ones do. */
  lemma {:induction false} FoldConstsFixedAgrees(a: RouteAnalysis, names: seq<string>)
    requires "options" !in names
    ensures FoldConstsFixed(a, names) == FoldConsts(a, names)
  {
    if names != [] {
      LastMember("options", names);
      FoldConstsFixedAgrees(a, names[..|names| - 1]);
    }
  }

  lemma {:induction false} FoldNamedFixedAgrees(a: RouteAnalysis, names: seq<string>)
    requires "options" !in names
    ensures FoldNamedFixed(a, names) == FoldNamed(a, names)
  {
    if names != [] {
      LastMember("options", names);
      FoldNamedFixedAgrees(a, names[..|names| - 1]);
    }
  }

  /** The correction changes nothing for a file that exports no `options`. */
  lemma ClassifyFixedAgrees(a: RouteAnalysis, scan: ExportScan)
    requires "options" !in scan.consts && "options" !in NamedNames(scan.namedGroups)
    ensures ClassifyFixed(a, scan) == Classify(a, scan)
  {
    FoldConstsFixedAgrees(a, scan.consts);
    var c := FoldFunctions(FoldConsts(a, scan.consts), scan.functions);
    var d := if scan.hasDefault then DefaultStep(c) else c;
    FoldNamedFixedAgrees(d, NamedNames(scan.namedGroups));
  }

  /** What one corrected step does to the method and the handler flag: `options`
      sets neither. */
  lemma ConstStepFixedEffect(a: RouteAnalysis, n: string)
    ensures ConstStepFixed(a, n).httpMethod == MethodAfter(a.httpMethod, StepExports(n, true), n == "handler")
    ensures ConstStepFixed(a, n).hasHandler == (a.hasHandler || n == "handler" || StepExports(n, true) != [])
  {
    if n == "handler" {
      HandlerIsNoMethodName();
    }
  }

  lemma NamedStepFixedEffect(a: RouteAnalysis, n: string)
    ensures NamedStepFixed(a, n).httpMethod == MethodAfter(a.httpMethod, StepExports(n, true), false)
    ensures NamedStepFixed(a, n).hasHandler == (a.hasHandler || StepExports(n, true) != [])
  {
  }

  lemma {:induction false} FoldConstsFixedMethod(a: RouteAnalysis, names: seq<string>)
    ensures FoldConstsFixed(a, names).httpMethod == MethodAfter(a.httpMethod, MethodExports(names, true), "handler" in names)
    ensures FoldConstsFixed(a, names).hasHandler == (a.hasHandler || "handler" in names || MethodExports(names, true) != [])
  {
    if names != [] {
      var init := names[..|names| - 1];
      var n := names[|names| - 1];
      FoldConstsFixedMethod(a, init);
      ConstStepFixedEffect(FoldConstsFixed(a, init), n);
      MethodExportsAreMethods(init, true);
      MethodStep(a.httpMethod, MethodExports(init, true), "handler" in init, n, true, n == "handler");
      LastMember("handler", names);
    }
  }

  lemma {:induction false} FoldNamedFixedMethod(a: RouteAnalysis, names: seq<string>)
    ensures FoldNamedFixed(a, names).httpMethod == MethodAfter(a.httpMethod, MethodExports(names, true), false)
    ensures FoldNamedFixed(a, names).hasHandler == (a.hasHandler || MethodExports(names, true) != [])
  {
    if names != [] {
      var init := names[..|names| - 1];
      var n := names[|names| - 1];
      FoldNamedFixedMethod(a, init);
      NamedStepFixedEffect(FoldNamedFixed(a, init), n);
      MethodExportsAreMethods(init, true);
      MethodStep(a.httpMethod, MethodExports(init, true), false, n, true, false);
    }
  }

  /** The exports that set the method in the corrected classification: `options`
      constants and named exports no longer do. */
  function MethodCandidatesFixed(scan: ExportScan): seq<string> {
    MethodExports(scan.consts, true) + MethodExports(scan.functions, false) + MethodExports(NamedNames(scan.namedGroups), true)
  }

  /** The corrected method rule: the last method export other than an `options`
      constant or named export, else `GET` for a `handler` or a default export. */
  lemma ClassifyFixedMethod(filePath: string, urlPath: string, scan: ExportScan)
    ensures var r := ClassifyFixed(InitialAnalysis(filePath, urlPath), scan);
      r.httpMethod == MethodAfter("", MethodCandidatesFixed(scan), FallbackHandler(scan)) &&
      (r.hasHandler <==> MethodCandidatesFixed(scan) != [] || FallbackHandler(scan))
  {
    var a := InitialAnalysis(filePath, urlPath);
    FoldConstsFixedMethod(a, scan.consts);
    var c1 := FoldConstsFixed(a, scan.consts);
    FoldFunctionsMethod(c1, scan.functions);
    FoldFunctionsHandler(c1, scan.functions);
    MethodExportsAreMethods(scan.consts, true);
    MethodAfterCompose("", MethodExports(scan.consts, true), "handler" in scan.consts,
      MethodExports(scan.functions, false), "handler" in scan.functions);
    var c := FoldFunctions(c1, scan.functions);
    var d := if scan.hasDefault then DefaultStep(c) else c;
    var names := NamedNames(scan.namedGroups);
    FoldNamedFixedMethod(d, names);
    var ex := MethodExports(scan.consts, true) + MethodExports(scan.functions, false);
    MethodExportsAreMethods(scan.functions, false);
    AllMethodsConcat(MethodExports(scan.consts, true), MethodExports(scan.functions, false));
    MethodAfterCompose("", ex, "handler" in scan.consts || "handler" in scan.functions || scan.hasDefault,
      MethodExports(names, true), false);
  }

  /** The corrected flag for route options is set exactly when an `options`
      constant or an `options` name in an export group is found. */
  lemma {:induction false} FoldConstsFixedOptions(a: RouteAnalysis, names: seq<string>)
    ensures FoldConstsFixed(a, names).hasOptions == (a.hasOptions || "options" in names)
  {
    if names != [] {
      var init := names[..|names| - 1];
      FoldConstsFixedOptions(a, init);
      OptionsNeverFlagged(FoldConstsFixed(a, init), names[|names| - 1]);
      LastMember("options", names);
    }
  }

  lemma {:induction false} FoldNamedFixedOptions(a: RouteAnalysis, names: seq<string>)
    ensures FoldNamedFixed(a, names).hasOptions == (a.hasOptions || "options" in names)
  {
    if names != [] {
      var init := names[..|names| - 1];
      FoldNamedFixedOptions(a, init);
      OptionsNeverFlagged(FoldNamedFixed(a, init), names[|names| - 1]);
      LastMember("options", names);
    }
  }

  lemma ClassifyFixedOptions(filePath: string, urlPath: string, scan: ExportScan)
    ensures var r := ClassifyFixed(InitialAnalysis(filePath, urlPath), scan);
      r.hasOptions <==> "options" in scan.consts || "options" in NamedNames(scan.namedGroups)
  {
    var a := InitialAnalysis(filePath, urlPath);
    FoldConstsFixedOptions(a, scan.consts);
    var c1 := FoldConstsFixed(a, scan.consts);
    FoldFunctionsOptions(c1, scan.functions);
    var c := FoldFunctions(c1, scan.functions);
    var d := if scan.hasDefault then DefaultStep(c) else c;
    FoldNamedFixedOptions(d, NamedNames(scan.namedGroups));
  }

  // ---------------------------------------------------------------------------
  // Directory analysis

  /** A file-system node under the routes directory. */
  datatype Node = FileNode(name: string) | DirNode(name: string, readable: bool, children: seq<Node>)

  /** The part of `Path::extension` the filter needs: the text after the last dot
      of a name whose last dot is not its first character. */
  function Extension(name: string): Option<string> {
    var k := LastDot(name);
    if k <= 0 then None else Some(name[k + 1..])
  }

  function LastDot(s: string): (r: int)
    ensures -1 <= r < |s|
    ensures r >= 0 ==> s[r] == '.'
  {
    if |s| == 0 then -1
    else if s[|s| - 1] == '.' then |s| - 1
    else LastDot(s[..|s| - 1])
  }

  lemma {:induction false} LastDotIsLast(s: string)
    ensures forall i :: LastDot(s) < i < |s| ==> s[i] != '.'
  {
    if |s| > 0 && s[|s| - 1] != '.' {
      LastDotIsLast(s[..|s| - 1]);
    }
  }

  /** A file the directory analysis picks up. */
  predicate IsTsFile(name: string) {
    Extension(name) == Some("ts") || Extension(name) == Some("tsx")
  }

  /** The last dot of a name that ends in a dot and a dot-free extension is the
      one in front of the extension. */
  lemma LastDotBeforeSuffix(name: string, ext: string)
    requires EndsWith(name, "." + ext) && '.' !in ext
    ensures LastDot(name) == |name| - |ext| - 1
  {
    var j := |name| - |ext| - 1;
    var d := "." + ext;
    assert name[j..] == d;
    assert name[j] == d[0];
    LastDotIsLast(name);
  }

  /** For a name that does not start with a dot, a dot-free extension is the
      extension exactly when the name ends in a dot and that extension. */
  lemma ExtensionSuffix(name: string, ext: string)
    requires name != [] && name[0] != '.' && '.' !in ext
    ensures Extension(name) == Some(ext) <==> EndsWith(name, "." + ext)
  {
    var k := LastDot(name);
    if EndsWith(name, "." + ext) {
      LastDotBeforeSuffix(name, ext);
      assert name[k + 1..] == name[k..][1..];
    }
    if k > 0 && name[k + 1..] == ext {
      assert name[k..] == [name[k]] + name[k + 1..];
    }
  }

  /** For a name that does not start with a dot, the extension filter is the same
      as ending in `.ts` or `.tsx`. */
  lemma IsTsFileSuffix(name: string)
    requires !StartsWith(name, ".")
    ensures IsTsFile(name) <==> EndsWith(name, ".ts") || EndsWith(name, ".tsx")
  {
    if name != [] {
      assert name[..1][0] == name[0];
      ExtensionSuffix(name, "ts");
      ExtensionSuffix(name, "tsx");
      assert "." + "ts" == ".ts" && "." + "tsx" == ".tsx";
    }
  }


  /** Hidden and `_`-prefixed entries are skipped. */
  predicate Skipped(name: string) {
    StartsWith(name, ".") || StartsWith(name, "_")
  }

  /** `collect_files` on a directory: the route files found below it, depth first in
      entry order. An unreadable directory gives nothing. */
  function DirFiles(path: string, node: Node): seq<string>
    requires node.DirNode?
    decreases node, 1
  {
    if !node.readable then [] else ChildrenFiles(path, node, |node.children|)
  }

  function ChildrenFiles(path: string, node: Node, n: nat): seq<string>
    requires node.DirNode? && n <= |node.children|
    decreases node, 0, n
  {
    if n == 0 then []
    else
      assert node.children[n - 1] in node.children;
      ChildrenFiles(path, node, n - 1) + EntryFiles(path, node.children[n - 1])
  }

  function EntryFiles(dir: string, e: Node): seq<string>
    decreases e, 2
  {
    var path := JoinPath(dir, e.name);
    if Skipped(e.name) then []
    else if e.DirNode? then DirFiles(path, e)
    else if IsTsFile(e.name) then [path]
    else []
  }

  /** `collect_files(dir, files)`: appends the route files below `dir` to `files`. */
  method CollectFiles(path: string, node: Node, files: seq<string>) returns (out: seq<string>)
    requires node.DirNode?
    ensures out == files + DirFiles(path, node)
    decreases node, 1
  {
    out := files;
    if !node.readable {
      assert out == files + [];
      return;
    }
    var i := 0;
    while i < |node.children|
      invariant 0 <= i <= |node.children|
      invariant out == files + ChildrenFiles(path, node, i)
    {
      var e := node.children[i];
      assert e in node.children;
      out := CollectEntry(path, e, out);
      i := i + 1;
    }
  }

  /** One entry of a directory being collected: hidden and underscore names are
      passed over, directories descended into, route files appended. */
  method CollectEntry(dir: string, e: Node, files: seq<string>) returns (out: seq<string>)
    ensures out == files + EntryFiles(dir, e)
    decreases e, 2
  {
    var found: seq<string> := [];
    if Skipped(e.name) {
    } else if e.DirNode? {
      out := CollectFiles(JoinPath(dir, e.name), e, files);
      return;
    } else if IsTsFile(e.name) {
      found := [JoinPath(dir, e.name)];
    }
    out := files + found;
  }


  /** `root` joined with each of `names` in turn, as `Path::join` builds the
      entry paths of a walk. */
  function JoinAll(root: string, names: seq<string>): string
    decreases |names|
  {
    if names == [] then root else JoinAll(JoinPath(root, names[0]), names[1..])
  }

  /** A path is a route file found below `root`: the root joined with a non-empty
      list of names none of which starts with a dot or `_`, the last of which has
      a `.ts` or `.tsx` extension. */
  ghost predicate FoundBelow(root: string, path: string) {
    exists names: seq<string> :: FoundAs(root, path, names)
  }

  /** `path` is `root` joined with `names`, a route file's way down from `root`. */
  predicate FoundAs(root: string, path: string, names: seq<string>) {
    names != [] && path == JoinAll(root, names) &&
    (forall k :: 0 <= k < |names| ==> !Skipped(names[k])) &&
    IsTsFile(names[|names| - 1])
  }

  /** A path joined below `root` starts with the root's directory prefix. */
  lemma {:induction false} JoinAllUnder(root: string, names: seq<string>)
    requires names != []
    ensures JoinPath(root, "") <= JoinAll(root, names)
    decreases |names|
  {
    var sub := JoinPath(root, names[0]);
    JoinPathPrefix(root, names[0]);
    if names[1..] != [] {
      JoinAllUnder(sub, names[1..]);
      JoinPathNested(root, names[0]);
      PrefixTransitive(JoinPath(root, ""), JoinPath(sub, ""), JoinAll(sub, names[1..]));
    }
  }

  /** What is found below a directory lies under its directory prefix. */
  lemma FoundBelowUnder(root: string, path: string)
    requires FoundBelow(root, path)
    ensures JoinPath(root, "") <= path
  {
    var names :| FoundAs(root, path, names);
    JoinAllUnder(root, names);
  }

  lemma {:induction false} DirFilesFound(path: string, node: Node)
    requires node.DirNode?
    ensures forall f :: f in DirFiles(path, node) ==> FoundBelow(path, f)
    decreases node, 1
  {
    if node.readable {
      ChildrenFilesFound(path, node, |node.children|);
    }
  }

  lemma {:induction false} ChildrenFilesFound(path: string, node: Node, n: nat)
    requires node.DirNode? && n <= |node.children|
    ensures forall f :: f in ChildrenFiles(path, node, n) ==> FoundBelow(path, f)
    decreases node, 0, n
  {
    if n > 0 {
      var e := node.children[n - 1];
      assert e in node.children;
      ChildrenFilesFound(path, node, n - 1);
      EntryFilesFound(path, e);
    }
  }

  lemma {:induction false} EntryFilesFound(dir: string, e: Node)
    ensures forall f :: f in EntryFiles(dir, e) ==> FoundBelow(dir, f)
    decreases e, 2
  {
    var path := JoinPath(dir, e.name);
    if !Skipped(e.name) {
      if e.DirNode? {
        DirFilesFound(path, e);
        forall f | f in DirFiles(path, e) ensures FoundBelow(dir, f) {
          FoundBelowNested(dir, e.name, f);
        }
      } else if IsTsFile(e.name) {
        FoundBelowDirect(dir, e.name);
      }
    }
  }

  /** What is found below a subdirectory that is not skipped is found below its
      parent. */
  lemma FoundBelowNested(dir: string, name: string, f: string)
    requires !Skipped(name) && FoundBelow(JoinPath(dir, name), f)
    ensures FoundBelow(dir, f)
  {
    var names :| FoundAs(JoinPath(dir, name), f, names);
    var longer := [name] + names;
    assert longer[1..] == names;
    assert forall k :: 1 <= k < |longer| ==> longer[k] == names[k - 1];
    assert FoundAs(dir, f, longer);
  }

  /** A route file directly in a directory is found below it. */
  lemma FoundBelowDirect(dir: string, name: string)
    requires !Skipped(name) && IsTsFile(name)
    ensures FoundBelow(dir, JoinPath(dir, name))
  {
    var names := [name];
    assert names[1..] == [];
    assert FoundAs(dir, JoinPath(dir, name), names);
  }

  /** Rust's `cmp` on strings gives the order the results are sorted by. */
  predicate UrlLe(a: RouteAnalysis, b: RouteAnalysis) {
    Ordering.StrLe(a.urlPath, b.urlPath)
  }

  lemma UrlLePreorder()
    ensures Ordering.TotalPreorder(UrlLe)
  {
    forall a: RouteAnalysis, b: RouteAnalysis ensures UrlLe(a, b) || UrlLe(b, a) {
      Ordering.StrLtTotal(a.urlPath, b.urlPath);
    }
    forall a: RouteAnalysis, b: RouteAnalysis, c: RouteAnalysis | UrlLe(a, b) && UrlLe(b, c) ensures UrlLe(a, c) {
      if a.urlPath != b.urlPath && b.urlPath != c.urlPath {
        Ordering.StrLtTransitive(a.urlPath, b.urlPath, c.urlPath);
      }
    }
  }

  /** The URL paths of the files, in file order. */
  function UrlPaths(files: seq<string>, routesDir: string): (r: seq<string>)
    ensures |r| == |files|
  {
    if files == [] then []
    else UrlPaths(files[..|files| - 1], routesDir) + [UrlPathOf(files[|files| - 1], routesDir)]
  }

  /** The analyses of the files with the given URL paths, in file order. */
  function Analyses(files: seq<string>, urls: seq<string>, contents: map<string, FileContent>): (r: seq<RouteAnalysis>)
    requires |urls| == |files|
    ensures |r| == |files|
  {
    if files == [] then []
    else
      var n := |files| - 1;
      Analyses(files[..n], urls[..n], contents) + [Analysis(files[n], urls[n], ReadFile(contents, files[n]))]
  }

  const NotFoundError := "No such file or directory (os error 2)"

  /** `std::fs::read_to_string`: a file the table lacks cannot be found. */
  function ReadFile(contents: map<string, FileContent>, path: string): FileContent {
    if path in contents then contents[path] else Unreadable(NotFoundError)
  }

  /** `analyze_routes_directory`: the analyses of every route file below the
      directory, sorted by URL path. A missing directory, or one that is a file,
      gives none. */
  function DirectoryAnalysis(routesDir: string, root: Option<Node>, contents: map<string, FileContent>): seq<RouteAnalysis> {
    if root.None? || !root.value.DirNode? then []
    else
      var files := DirFiles(routesDir, root.value);
      Ordering.SortBy(Analyses(files, UrlPaths(files, routesDir), contents), UrlLe)
  }

  method AnalyzeRoutesDirectory(routesDir: string, root: Option<Node>, contents: map<string, FileContent>)
    returns (analyses: seq<RouteAnalysis>)
    ensures analyses == DirectoryAnalysis(routesDir, root, contents)
  {
    analyses := [];
    if root.None? || !root.value.DirNode? {
      return;
    }
    var files := CollectFiles(routesDir, root.value, []);
    assert files == DirFiles(routesDir, root.value);
    analyses := AnalyzeFiles(files, routesDir, contents);
    analyses := Ordering.SortBy(analyses, UrlLe);
  }

  /** The loop of `analyze_routes_directory` over the collected files. */
  method AnalyzeFiles(files: seq<string>, routesDir: string, contents: map<string, FileContent>)
    returns (analyses: seq<RouteAnalysis>)
    ensures analyses == Analyses(files, UrlPaths(files, routesDir), contents)
  {
    analyses := [];
    var i := 0;
    while i < |files|
      invariant 0 <= i <= |files|
      invariant analyses == Analyses(files[..i], UrlPaths(files[..i], routesDir), contents)
    {
      AnalysesSnoc(files, i, routesDir, contents);
      var a := AnalyzeRouteFile(files[i], routesDir, ReadFile(contents, files[i]));
      analyses := analyses + [a];
      i := i + 1;
    }
    assert files[..|files|] == files;
  }

  lemma AnalysesSnoc(files: seq<string>, i: nat, routesDir: string, contents: map<string, FileContent>)
    requires i < |files|
    ensures Analyses(files[..i + 1], UrlPaths(files[..i + 1], routesDir), contents) ==
      Analyses(files[..i], UrlPaths(files[..i], routesDir), contents) +
      [Analysis(files[i], UrlPathOf(files[i], routesDir), ReadFile(contents, files[i]))]
  {
    assert files[..i + 1][..i] == files[..i];
    var urls := UrlPaths(files[..i + 1], routesDir);
    assert urls == UrlPaths(files[..i], routesDir) + [UrlPathOf(files[i], routesDir)];
    assert urls[..i] == UrlPaths(files[..i], routesDir);
  }

  /** Each analysis is that of the file at the same place, with the URL path at
      the same place. */
  lemma {:induction false} AnalysesAt(files: seq<string>, urls: seq<string>, contents: map<string, FileContent>)
    requires |urls| == |files|
    ensures forall i :: 0 <= i < |files| ==> Analyses(files, urls, contents)[i].filePath == files[i]
    ensures forall i :: 0 <= i < |files| ==> Analyses(files, urls, contents)[i].urlPath == urls[i]
  {
    if files != [] {
      var n := |files| - 1;
      AnalysesAt(files[..n], urls[..n], contents);
    }
  }

  /** The directory analysis is sorted by URL path, has one analysis per route file
      found, and every analysed file is a route file below the directory. */
  lemma DirectoryAnalysisSound(routesDir: string, root: Option<Node>, contents: map<string, FileContent>)
    requires root.Some? && root.value.DirNode?
    ensures var r := DirectoryAnalysis(routesDir, root, contents);
      Ordering.SortedBy(r, UrlLe) &&
      |r| == |DirFiles(routesDir, root.value)| &&
      forall k :: 0 <= k < |r| ==> FoundBelow(routesDir, r[k].filePath)
  {
    var files := DirFiles(routesDir, root.value);
    var xs := Analyses(files, UrlPaths(files, routesDir), contents);
    UrlLePreorder();
    Ordering.SortBySorted(xs, UrlLe);
    var r := Ordering.SortBy(xs, UrlLe);
    assert |r| == |xs| by {
      assert |multiset(r)| == |multiset(xs)|;
    }
    DirFilesFound(routesDir, root.value);
    AnalysesAt(files, UrlPaths(files, routesDir), contents);
    forall k | 0 <= k < |r| ensures FoundBelow(routesDir, r[k].filePath) {
      assert r[k] in multiset(r);
      assert r[k] in multiset(xs);
      var j :| 0 <= j < |xs| && xs[j] == r[k];
      assert files[j] in files;
    }
  }
}
