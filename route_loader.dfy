/** The backend's convention router (apps/be/src/routes/_loader.ts). File names become
    URL paths. Every route file of a directory tree is registered on the app. Each
    directory's `_middleware` module wraps the app for that directory and below, and
    every subdirectory is registered inside a nested `group`.

    The directory tree and the table of importable modules are data. The app is an
    `App` object that records each registration together with the chain of group
    prefixes and middleware calls in force when it was made. */
module RouteLoader {
  import opened Wrappers
  import opened Strings

  // ---------------------------------------------------------------------------
  // File name to URL path

  /** `s.replace(/\/+$/g, "")`: trailing slashes removed. */
  function StripTrailingSlashes(s: string): (r: string)
    ensures |r| <= |s| && r == s[..|r|]
    ensures r == [] || r[|r| - 1] != '/'
    decreases |s|
  {
    if |s| > 0 && s[|s| - 1] == '/' then StripTrailingSlashes(s[..|s| - 1]) else s
  }

  /** Only slashes are removed. */
  lemma {:induction false} StripTrailingSlashesRemovesSlashes(s: string)
    ensures forall i :: |StripTrailingSlashes(s)| <= i < |s| ==> s[i] == '/'
    decreases |s|
  {
    if |s| > 0 && s[|s| - 1] == '/' {
      StripTrailingSlashesRemovesSlashes(s[..|s| - 1]);
    }
  }

  /** The index of the last `c` in `s`, or -1. */
  function LastIndexOf(s: string, c: char): (r: int)
    ensures -1 <= r < |s|
    ensures r >= 0 ==> s[r] == c
  {
    if |s| == 0 then -1
    else if s[|s| - 1] == c then |s| - 1
    else LastIndexOf(s[..|s| - 1], c)
  }

  /** No `c` comes after the one found. */
  lemma {:induction false} LastIndexOfIsLast(s: string, c: char)
    ensures forall i :: LastIndexOf(s, c) < i < |s| ==> s[i] != c
  {
    if |s| > 0 && s[|s| - 1] != c {
      LastIndexOfIsLast(s[..|s| - 1], c);
    }
  }

  /** The last component of a posix path, trailing slashes ignored. */
  function BaseName(p: string): string
  {
    var t := StripTrailingSlashes(p);
    t[LastIndexOf(t, '/') + 1..]
  }

  /** Node's posix `extname`: the last component from its last dot on. It is empty
      when that component has no dot, when the dot is its first character, and for
      the component `..`. */
  function ExtName(p: string): string
  {
    var b := BaseName(p);
    var k := LastIndexOf(b, '.');
    if k <= 0 || b == ".." then "" else b[k..]
  }

  /** An extension is empty or one dot followed by dot-free, slash-free text taken
      from the end of the last component. */
  lemma ExtNameShape(p: string)
    ensures var b := BaseName(p); var r := ExtName(p);
      '/' !in b && (r == [] || (r[0] == '.' && '/' !in r && '.' !in r[1..] && EndsWith(b, r)))
  {
    BaseNameNoSlash(p);
    DotSuffixShape(BaseName(p));
  }

  lemma BaseNameNoSlash(p: string)
    ensures '/' !in BaseName(p)
  {
    var t := StripTrailingSlashes(p);
    LastIndexOfIsLast(t, '/');
    var b := BaseName(p);
    assert forall i :: 0 <= i < |b| ==> b[i] == t[LastIndexOf(t, '/') + 1 + i];
  }

  /** From the last dot on, a component without slashes has one dot and no
      slash. */
  lemma DotSuffixShape(b: string)
    requires '/' !in b
    ensures var k := LastIndexOf(b, '.');
      k > 0 ==> b[k] == '.' && '/' !in b[k..] && '.' !in b[k + 1..] && EndsWith(b, b[k..])
  {
    var k := LastIndexOf(b, '.');
    LastIndexOfIsLast(b, '.');
    if k > 0 {
      var r := b[k..];
      assert forall i :: 0 <= i < |r| ==> r[i] == b[k + i];
      var rest := b[k + 1..];
      assert forall i :: 0 <= i < |rest| ==> rest[i] == b[k + 1 + i];
    }
  }

  /** `toSegment`: `index` is elided and `[x]` becomes the parameter `:x`. */
  function ToSegment(name: string): string
  {
    if name == "index" then ""
    else if StartsWith(name, "[") && EndsWith(name, "]") then ":" + JsSlice(name, 1, -1)
    else name
  }

  /** A segment is empty only for `index` and for the empty name, and has a slash
      only when the name has one. */
  lemma ToSegmentShape(name: string)
    ensures ToSegment(name) == [] <==> name == "index" || name == []
    ensures '/' !in name ==> '/' !in ToSegment(name)
  {
    if name != "index" && StartsWith(name, "[") && EndsWith(name, "]") {
      var x := JsIndex(1, |name|);
      var y := JsIndex(-1, |name|);
      if x <= y {
        assert forall i :: 0 <= i < |name[x..y]| ==> name[x..y][i] == name[x + i];
      }
    }
  }

  function MapSegments(parts: seq<string>): (r: seq<string>)
    ensures |r| == |parts|
  {
    if parts == [] then [] else [ToSegment(parts[0])] + MapSegments(parts[1..])
  }

  lemma {:induction false} MapSegmentsAt(parts: seq<string>, i: nat)
    requires i < |parts|
    ensures MapSegments(parts)[i] == ToSegment(parts[i])
  {
    if i > 0 {
      MapSegmentsAt(parts[1..], i - 1);
    }
  }

  /** The two filters of the pipeline: literal `_` parts, then empty parts, dropped. */
  function DropHidden(parts: seq<string>): seq<string>
  {
    if parts == [] then []
    else if parts[0] == "_" || parts[0] == "" then DropHidden(parts[1..])
    else [parts[0]] + DropHidden(parts[1..])
  }

  /** `DropHidden` keeps exactly the parts that are neither `_` nor empty. */
  lemma {:induction false} DropHiddenMembers(parts: seq<string>)
    ensures forall i :: 0 <= i < |DropHidden(parts)| ==>
      DropHidden(parts)[i] != "_" && DropHidden(parts)[i] != "" && DropHidden(parts)[i] in parts
    ensures forall p :: p in parts && p != "_" && p != "" ==> p in DropHidden(parts)
  {
    if parts != [] {
      DropHiddenMembers(parts[1..]);
      assert parts == [parts[0]] + parts[1..];
    }
  }

  /** The URL segments of a path relative to its routes directory: the extension's
      first occurrence removed, split on `/`, empty parts dropped, each part mapped
      by `ToSegment`, then `_` and empty segments dropped. */
  function UrlSegments(rel: string): seq<string>
  {
    var parts := NonEmpty(Split(ReplaceFirst(rel, ExtName(rel), ""), '/'));
    DropHidden(MapSegments(parts))
  }

  /** Every URL segment is non-empty, is not `_`, and has no slash. */
  lemma UrlSegmentsClean(rel: string)
    ensures forall i :: 0 <= i < |UrlSegments(rel)| ==>
      UrlSegments(rel)[i] != "" && UrlSegments(rel)[i] != "_" && '/' !in UrlSegments(rel)[i]
  {
    var split := Split(ReplaceFirst(rel, ExtName(rel), ""), '/');
    SplitParts(ReplaceFirst(rel, ExtName(rel), ""), '/');
    var parts := NonEmpty(split);
    NonEmptyMembers(split);
    var mapped := MapSegments(parts);
    forall i | 0 <= i < |mapped| ensures '/' !in mapped[i] {
      MapSegmentsAt(parts, i);
      var k :| 0 <= k < |split| && split[k] == parts[i];
      ToSegmentShape(parts[i]);
    }
    DropHiddenMembers(mapped);
  }

  /** `toRelativeRoutePath`; `toUrlPath` runs the very same pipeline. */
  function ToRelativeRoutePath(rel: string): string
  {
    var path := "/" + Join(UrlSegments(rel), "/");
    if path == "/" then "/" else StripTrailingSlashes(path)
  }

  function ToUrlPath(rel: string): (r: string)
    ensures |r| >= 1 && r[0] == '/' && (r == "/" || r[|r| - 1] != '/')
    ensures r == "/" <==> UrlSegments(rel) == []
  {
    RoutePathShape(rel);
    ToRelativeRoutePath(rel)
  }

  /** A route path starts with `/`, ends with `/` only when it is `/`, is `/` exactly
      when no segment survives, and otherwise is the segments joined behind a `/`,
      so that it splits back into them: the final trailing-slash removal never has
      anything to remove. */
  lemma RoutePathShape(rel: string)
    ensures var r := ToRelativeRoutePath(rel);
      |r| >= 1 && r[0] == '/' &&
      (r == "/" || r[|r| - 1] != '/') &&
      (r == "/" <==> UrlSegments(rel) == []) &&
      (UrlSegments(rel) != [] ==> r == "/" + Join(UrlSegments(rel), "/") && Split(r[1..], '/') == UrlSegments(rel))
  {
    var segs := UrlSegments(rel);
    UrlSegmentsClean(rel);
    if segs != [] {
      JoinedPath(segs);
    }
  }

  /** Non-empty segments without slashes joined behind a `/`: a path with no
      trailing slash that splits back into them. */
  lemma JoinedPath(segs: seq<string>)
    requires segs != []
    requires forall i :: 0 <= i < |segs| ==> segs[i] != "" && '/' !in segs[i]
    ensures var path := "/" + Join(segs, "/");
      path != "/" && path[|path| - 1] != '/' && StripTrailingSlashes(path) == path &&
      Split(path[1..], '/') == segs
  {
    var last := segs[|segs| - 1];
    JoinLastChar(segs, "/");
    var j := Join(segs, "/");
    assert j[|j| - 1] == last[|last| - 1];
    assert last[|last| - 1] in last;
    var path := "/" + j;
    assert path[|path| - 1] != '/';
    assert path[1..] == j;
    SplitJoin(segs, '/');
  }

  /** `isRouteFile`. */
  predicate IsRouteFile(name: string) {
    !StartsWith(name, "_") && (EndsWith(name, ".ts") || EndsWith(name, ".js"))
  }

  /** `isMiddlewareFile`. */
  predicate IsMiddlewareFile(name: string) {
    name == "_middleware.ts" || name == "_middleware.js"
  }

  /** No middleware file is a route file, so `_middleware.*` is never registered. */
  lemma MiddlewareIsNotRoute(name: string)
    ensures IsMiddlewareFile(name) ==> !IsRouteFile(name)
    ensures IsRouteFile(name) ==> name != [] && name[0] != '_'
  {
    assert IsMiddlewareFile(name) ==> name[..1] == "_";
    assert name != [] && name[0] == '_' ==> name[..1] == "_";
  }

  // ---------------------------------------------------------------------------
  // Directory tree, modules and the app

  /** A directory entry as `readdir` reports it. `Other` is anything that is neither
      a file nor a directory (a symbolic link, a socket). */
  datatype Entry =
    | File(name: string)
    | Dir(name: string, readable: bool, entries: seq<Entry>)
    | Other(name: string)

  /** An exported value that should be a route handler: a function (by identity) or
      something else. */
  datatype Handler = HandlerFn(id: string) | HandlerValue

  /** An exported value that should be a middleware. When it is a function,
      `returnsApp` says whether calling it returns an app (true) or a nullish value. */
  datatype Middleware = MiddlewareFn(id: string, returnsApp: bool) | MiddlewareValue

  /** What `import()` of a module yields, for the exports the loader reads. */
  datatype ModuleRecord = ModuleRecord(
    methodExport: Option<string>,
    handler: Option<Handler>,
    options: Option<string>,
    middleware: Option<Middleware>,
    defaultExport: Option<Middleware>)

  /** One middleware call on the way down to an app: its identity and whether its
      return value replaced the app. */
  datatype Applied = Applied(id: string, returnedApp: bool)

  /** The app a directory registers on: the chain of group prefixes and of
      middleware calls that produced it. */
  datatype Scope = Scope(groups: seq<string>, middleware: seq<Applied>)

  /** One `dirApp[method](urlPath, handler, options)` call, with the scope it was
      made in and the file it came from (`dir + "/" + name`). */
  datatype Registration = Registration(
    groups: seq<string>, middleware: seq<Applied>,
    httpMethod: string, path: string, handler: string, options: Option<string>,
    dir: string, name: string)

  datatype LoadError =
    | ReadDirFailed(dir: string)
    | ImportFailed(file: string)
    | UnsupportedMethod(httpMethod: string, file: string)
    | MissingHandler(file: string)

  /** The registrations made, in order, and the error that stopped the load, if any.
      Registrations made before an error stay made. */
  datatype Outcome = Outcome(regs: seq<Registration>, err: Option<LoadError>)

  predicate HasEntry(entries: seq<Entry>, name: string) {
    exists i :: 0 <= i < |entries| && entries[i].name == name
  }

  /** The middleware module of a directory: `_middleware.ts` before `_middleware.js`. */
  function MiddlewarePath(dir: string, entries: seq<Entry>): (r: Option<string>)
  {
    if HasEntry(entries, "_middleware.ts") then Some(dir + "/_middleware.ts")
    else if HasEntry(entries, "_middleware.js") then Some(dir + "/_middleware.js")
    else None
  }

  /** `mw.middleware ?? mw.default`. */
  function MiddlewareExport(m: ModuleRecord): Option<Middleware> {
    if m.middleware.Some? then m.middleware else m.defaultExport
  }

  /** The directory's app after its middleware, or the import error. A value that is
      not a function leaves the app as it was. */
  function ResolveScope(scope: Scope, dir: string, entries: seq<Entry>, modules: map<string, ModuleRecord>): Result<Scope, LoadError>
  {
    match MiddlewarePath(dir, entries)
    case None => Ok(scope)
    case Some(p) =>
      if p !in modules then Err(ImportFailed(p))
      else match MiddlewareExport(modules[p])
        case Some(MiddlewareFn(id, ret)) => Ok(Scope(scope.groups, scope.middleware + [Applied(id, ret)]))
        case _ => Ok(scope)
  }

  /** Which middleware file a directory uses: `_middleware.ts` whenever it exists,
      `_middleware.js` only without it, and none without either. */
  lemma MiddlewarePathChoice(dir: string, entries: seq<Entry>)
    ensures HasEntry(entries, "_middleware.ts") ==> MiddlewarePath(dir, entries) == Some(dir + "/_middleware.ts")
    ensures MiddlewarePath(dir, entries) == Some(dir + "/_middleware.js") <==>
      !HasEntry(entries, "_middleware.ts") && HasEntry(entries, "_middleware.js")
    ensures MiddlewarePath(dir, entries).None? <==>
      !HasEntry(entries, "_middleware.ts") && !HasEntry(entries, "_middleware.js")
  {
    var ts, js := dir + "/_middleware.ts", dir + "/_middleware.js";
    assert ts != js by {
      assert ts[|ts| - 2] == 't' && js[|js| - 2] == 'j';
    }
  }

  /** Without a middleware file the directory keeps the scope it was given; a
      middleware file that cannot be imported is the load's error. */
  lemma ResolveScopeMissing(scope: Scope, dir: string, entries: seq<Entry>, modules: map<string, ModuleRecord>)
    ensures MiddlewarePath(dir, entries).None? ==> ResolveScope(scope, dir, entries, modules) == Ok(scope)
    ensures MiddlewarePath(dir, entries).Some? && MiddlewarePath(dir, entries).value !in modules ==>
      ResolveScope(scope, dir, entries, modules) == Err(ImportFailed(MiddlewarePath(dir, entries).value))
  {
  }

  /** The scope once the middleware module is imported: a `middleware` export
      that is a function is applied whatever the default export is; without a
      `middleware` export a default export that is a function is applied; a
      value that is not a function leaves the scope as it was. Applying one
      appends it and keeps the groups. */
  lemma ResolveScopeImported(scope: Scope, dir: string, entries: seq<Entry>, modules: map<string, ModuleRecord>)
    requires MiddlewarePath(dir, entries).Some? && MiddlewarePath(dir, entries).value in modules
    ensures var m := modules[MiddlewarePath(dir, entries).value];
      var r := ResolveScope(scope, dir, entries, modules);
      (m.middleware.Some? && m.middleware.value.MiddlewareFn? ==>
        r == Ok(Scope(scope.groups, scope.middleware + [Applied(m.middleware.value.id, m.middleware.value.returnsApp)]))) &&
      (m.middleware.None? && m.defaultExport.Some? && m.defaultExport.value.MiddlewareFn? ==>
        r == Ok(Scope(scope.groups, scope.middleware + [Applied(m.defaultExport.value.id, m.defaultExport.value.returnsApp)]))) &&
      (m.middleware == Some(MiddlewareValue) ==> r == Ok(scope)) &&
      (m.middleware.None? && !(m.defaultExport.Some? && m.defaultExport.value.MiddlewareFn?) ==>
        r == Ok(scope))
  {
  }

  /** `(mod.method ?? "get").toLowerCase()`; `"get"` is already lower case. */
  function MethodOf(m: ModuleRecord): string {
    if m.methodExport.Some? then ToLower(m.methodExport.value) else "get"
  }

  /** What one iteration of a loop of `loadDir` does: nothing, one registration,
      or an error that ends the load. */
  datatype Step = Skip | Register(reg: Registration) | Fail(err: LoadError)

  /** What the first loop does with one entry. The module is imported before the
      method is checked, and the method check comes before the handler check. */
  function RouteStep(scope: Scope, dir: string, e: Entry, modules: map<string, ModuleRecord>, methods: set<string>): Step
  {
    if !e.File? || !IsRouteFile(e.name) || IsMiddlewareFile(e.name) then Skip
    else
      var filePath := dir + "/" + e.name;
      if filePath !in modules then Fail(ImportFailed(filePath))
      else
        var m := modules[filePath];
        var httpMethod := MethodOf(m);
        if httpMethod !in methods then Fail(UnsupportedMethod(httpMethod, filePath))
        else if !(m.handler.Some? && m.handler.value.HandlerFn?) then Fail(MissingHandler(filePath))
        else Register(Registration(scope.groups, scope.middleware, httpMethod, ToRelativeRoutePath(e.name),
                                   m.handler.value.id, m.options, dir, e.name))
  }

  /** The steps of the first loop, one per entry. */
  function FileSteps(scope: Scope, dir: string, entries: seq<Entry>, modules: map<string, ModuleRecord>, methods: set<string>): (r: seq<Step>)
    ensures |r| == |entries|
  {
    if entries == [] then []
    else [RouteStep(scope, dir, entries[0], modules, methods)] + FileSteps(scope, dir, entries[1..], modules, methods)
  }

  /** Running the first `n` steps of a loop: registrations accumulate until the
      first error, which ends it. */
  function RunSteps(steps: seq<Step>, n: nat): Outcome
    requires n <= |steps|
  {
    if n == 0 then Outcome([], None)
    else
      var prev := RunSteps(steps, n - 1);
      if prev.err.Some? then prev
      else match steps[n - 1]
        case Skip => prev
        case Register(r) => Outcome(prev.regs + [r], None)
        case Fail(e) => Outcome(prev.regs, Some(e))
  }

  /** The group prefix of a subdirectory, or `None` when the second loop skips it. */
  function SubdirPrefix(name: string): Option<string> {
    if StartsWith(name, "_") then None
    else
      var segment := ToSegment(name);
      if segment == "_" then None
      else Some(if segment != "" then "/" + segment else "/")
  }

  /** `loadDir`: the registrations one directory makes on the app of `scope`. */
  function LoadDirSpec(scope: Scope, dir: string, node: Entry, modules: map<string, ModuleRecord>, methods: set<string>): Outcome
    requires node.Dir?
    decreases node, 1
  {
    if !node.readable then Outcome([], Some(ReadDirFailed(dir)))
    else match ResolveScope(scope, dir, node.entries, modules)
      case Err(e) => Outcome([], Some(e))
      case Ok(s) =>
        var routes := RunSteps(FileSteps(s, dir, node.entries, modules, methods), |node.entries|);
        if routes.err.Some? then routes
        else
          var subs := RunOutcomes(SubdirOutcomes(s, dir, node, modules, methods, |node.entries|), |node.entries|);
          Outcome(routes.regs + subs.regs, subs.err)
  }

  /** What the second loop does with one entry: the outcome of loading it inside
      its group, or `None` when it is skipped. */
  function SubdirOutcome(scope: Scope, dir: string, e: Entry, modules: map<string, ModuleRecord>, methods: set<string>): Option<Outcome>
    decreases e, 2
  {
    if e.Dir? && SubdirPrefix(e.name).Some? then
      Some(LoadDirSpec(Scope(scope.groups + [SubdirPrefix(e.name).value], scope.middleware),
                       dir + "/" + e.name, e, modules, methods))
    else None
  }

  /** The outcomes of the second loop for the first `n` entries of `node`. */
  function SubdirOutcomes(scope: Scope, dir: string, node: Entry, modules: map<string, ModuleRecord>, methods: set<string>, n: nat): (r: seq<Option<Outcome>>)
    requires node.Dir? && n <= |node.entries|
    ensures |r| == n
    decreases node, 0, n
  {
    if n == 0 then []
    else
      assert node.entries[n - 1] in node.entries;
      SubdirOutcomes(scope, dir, node, modules, methods, n - 1) + [SubdirOutcome(scope, dir, node.entries[n - 1], modules, methods)]
  }

  /** Running the first `n` subdirectory loads: registrations accumulate until the
      first error, which ends the loop. */
  function RunOutcomes(outs: seq<Option<Outcome>>, n: nat): Outcome
    requires n <= |outs|
  {
    if n == 0 then Outcome([], None)
    else
      var prev := RunOutcomes(outs, n - 1);
      if prev.err.Some? || outs[n - 1].None? then prev
      else Outcome(prev.regs + outs[n - 1].value.regs, outs[n - 1].value.err)
  }

  lemma {:induction false} FileStepAt(scope: Scope, dir: string, entries: seq<Entry>, modules: map<string, ModuleRecord>, methods: set<string>, i: nat)
    requires i < |entries|
    ensures FileSteps(scope, dir, entries, modules, methods)[i] == RouteStep(scope, dir, entries[i], modules, methods)
  {
    if i > 0 {
      FileStepAt(scope, dir, entries[1..], modules, methods, i - 1);
    }
  }

  lemma {:induction false} SubdirOutcomeAt(scope: Scope, dir: string, node: Entry, modules: map<string, ModuleRecord>, methods: set<string>, n: nat, i: nat)
    requires node.Dir? && i < n <= |node.entries|
    ensures SubdirOutcomes(scope, dir, node, modules, methods, n)[i] == SubdirOutcome(scope, dir, node.entries[i], modules, methods)
  {
    if i < n - 1 {
      SubdirOutcomeAt(scope, dir, node, modules, methods, n - 1, i);
    }
  }

  lemma {:induction false} RunStepsErrorSticks(steps: seq<Step>, n: nat, m: nat)
    requires n <= m <= |steps|
    requires RunSteps(steps, n).err.Some?
    ensures RunSteps(steps, m) == RunSteps(steps, n)
    decreases m
  {
    if m > n {
      RunStepsErrorSticks(steps, n, m - 1);
    }
  }

  /** One more subdirectory after a run without error: a skipped entry changes
      nothing, a loaded one adds its registrations and its error. */
  lemma RunOutcomesNext(outs: seq<Option<Outcome>>, i: nat)
    requires i < |outs| && RunOutcomes(outs, i).err == None
    ensures outs[i].None? ==> RunOutcomes(outs, i + 1) == RunOutcomes(outs, i)
    ensures outs[i].Some? ==>
      RunOutcomes(outs, i + 1) == Outcome(RunOutcomes(outs, i).regs + outs[i].value.regs, outs[i].value.err)
  {
  }

  /** One more route file after a run without error. */
  lemma RunStepsNext(steps: seq<Step>, i: nat)
    requires i < |steps| && RunSteps(steps, i).err == None
    ensures steps[i].Skip? ==> RunSteps(steps, i + 1) == RunSteps(steps, i)
    ensures steps[i].Register? ==> RunSteps(steps, i + 1) == Outcome(RunSteps(steps, i).regs + [steps[i].reg], None)
    ensures steps[i].Fail? ==> RunSteps(steps, i + 1) == Outcome(RunSteps(steps, i).regs, Some(steps[i].err))
  {
  }

  lemma {:induction false} RunOutcomesErrorSticks(outs: seq<Option<Outcome>>, n: nat, m: nat)
    requires n <= m <= |outs|
    requires RunOutcomes(outs, n).err.Some?
    ensures RunOutcomes(outs, m) == RunOutcomes(outs, n)
    decreases m
  {
    if m > n {
      RunOutcomesErrorSticks(outs, n, m - 1);
    }
  }

  /** The app object: it records each route call. */
  class App {
    var log: seq<Registration>

    constructor ()
      ensures log == []
    {
      log := [];
    }

    method Register(r: Registration)
      modifies this
      ensures log == old(log) + [r]
    {
      log := log + [r];
    }
  }

  /** `loadDir(dirApp, dir, basePath)`: registers the routes of `node` on `app`
      exactly as `LoadDirSpec` says and returns the error that stopped it. */
  method LoadDir(app: App, scope: Scope, dir: string, node: Entry, modules: map<string, ModuleRecord>, methods: set<string>)
    returns (err: Option<LoadError>)
    requires node.Dir?
    modifies app
    ensures app.log == old(app.log) + LoadDirSpec(scope, dir, node, modules, methods).regs
    ensures err == LoadDirSpec(scope, dir, node, modules, methods).err
    decreases node, 1
  {
    if !node.readable {
      return Some(ReadDirFailed(dir));
    }
    var resolved := ApplyDirMiddleware(scope, dir, node.entries, modules);
    if resolved.Err? {
      return Some(resolved.error);
    }
    err := LoadEntries(app, resolved.value, dir, node, modules, methods);
  }

  /** The optional directory-scoped middleware of `loadDir`. */
  method ApplyDirMiddleware(scope: Scope, dir: string, entries: seq<Entry>, modules: map<string, ModuleRecord>)
    returns (r: Result<Scope, LoadError>)
    ensures r == ResolveScope(scope, dir, entries, modules)
  {
    var middlewarePath := MiddlewarePath(dir, entries);
    if middlewarePath.Some? {
      if middlewarePath.value !in modules {
        return Err(ImportFailed(middlewarePath.value));
      }
      var fn := MiddlewareExport(modules[middlewarePath.value]);
      if fn.Some? && fn.value.MiddlewareFn? {
        return Ok(Scope(scope.groups, scope.middleware + [Applied(fn.value.id, fn.value.returnsApp)]));
      }
    }
    return Ok(scope);
  }

  /** The two loops of `loadDir`: the route files, then, unless one failed, the
      subdirectories. */
  method LoadEntries(app: App, scope: Scope, dir: string, node: Entry, modules: map<string, ModuleRecord>, methods: set<string>)
    returns (err: Option<LoadError>)
    requires node.Dir?
    modifies app
    ensures var routes := RunSteps(FileSteps(scope, dir, node.entries, modules, methods), |node.entries|);
      var subs := RunOutcomes(SubdirOutcomes(scope, dir, node, modules, methods, |node.entries|), |node.entries|);
      app.log == old(app.log) + (if routes.err.Some? then routes.regs else routes.regs + subs.regs) &&
      err == (if routes.err.Some? then routes.err else subs.err)
    decreases node, 0, |node.entries| + 2
  {
    err := RegisterFiles(app, scope, dir, node.entries, modules, methods);
    if err.Some? {
      return;
    }
    err := RegisterSubdirs(app, scope, dir, node, modules, methods);
  }

  /** The first loop of `loadDir`: the route files directly under `dir`. */
  method RegisterFiles(app: App, scope: Scope, dir: string, entries: seq<Entry>, modules: map<string, ModuleRecord>, methods: set<string>)
    returns (err: Option<LoadError>)
    modifies app
    ensures app.log == old(app.log) + RunSteps(FileSteps(scope, dir, entries, modules, methods), |entries|).regs
    ensures err == RunSteps(FileSteps(scope, dir, entries, modules, methods), |entries|).err
  {
    ghost var steps := FileSteps(scope, dir, entries, modules, methods);
    var i := 0;
    while i < |entries|
      invariant 0 <= i <= |entries|
      invariant RunSteps(steps, i).err == None
      invariant app.log == old(app.log) + RunSteps(steps, i).regs
    {
      var step := ImportRouteFileAt(scope, dir, entries, i, modules, methods);
      if step.Fail? {
        RunStepsErrorSticks(steps, i + 1, |entries|);
        return Some(step.err);
      }
      if step.Register? {
        app.Register(step.reg);
      }
      i := i + 1;
    }
    return None;
  }

  /** The body of the first loop for one entry: the registration a route file asks
      for, or the error it raises. */
  method ImportRouteFile(scope: Scope, dir: string, e: Entry, modules: map<string, ModuleRecord>, methods: set<string>)
    returns (step: Step)
    ensures step == RouteStep(scope, dir, e, modules, methods)
  {
    if !e.File? || !IsRouteFile(e.name) || IsMiddlewareFile(e.name) {
      return Skip;
    }
    var filePath := dir + "/" + e.name;
    var urlPath := ToRelativeRoutePath(e.name);
    if filePath !in modules {
      return Fail(ImportFailed(filePath));
    }
    var m := modules[filePath];
    var httpMethod := MethodOf(m);
    if httpMethod !in methods {
      return Fail(UnsupportedMethod(httpMethod, filePath));
    }
    if !(m.handler.Some? && m.handler.value.HandlerFn?) {
      return Fail(MissingHandler(filePath));
    }
    return Register(Registration(scope.groups, scope.middleware, httpMethod, urlPath,
                                 m.handler.value.id, m.options, dir, e.name));
  }

  /** The body of the first loop for entry `i`. */
  method ImportRouteFileAt(scope: Scope, dir: string, entries: seq<Entry>, i: nat, modules: map<string, ModuleRecord>, methods: set<string>)
    returns (step: Step)
    requires i < |entries|
    ensures step == FileSteps(scope, dir, entries, modules, methods)[i]
  {
    FileStepAt(scope, dir, entries, modules, methods, i);
    step := ImportRouteFile(scope, dir, entries[i], modules, methods);
  }

  /** The second loop of `loadDir`: each subdirectory loaded inside its group. */
  method RegisterSubdirs(app: App, scope: Scope, dir: string, node: Entry, modules: map<string, ModuleRecord>, methods: set<string>)
    returns (err: Option<LoadError>)
    requires node.Dir?
    modifies app
    ensures app.log == old(app.log) + RunOutcomes(SubdirOutcomes(scope, dir, node, modules, methods, |node.entries|), |node.entries|).regs
    ensures err == RunOutcomes(SubdirOutcomes(scope, dir, node, modules, methods, |node.entries|), |node.entries|).err
    decreases node, 0, |node.entries| + 1
  {
    ghost var outs := SubdirOutcomes(scope, dir, node, modules, methods, |node.entries|);
    var i := 0;
    while i < |node.entries|
      invariant 0 <= i <= |node.entries|
      invariant RunOutcomes(outs, i).err == None
      invariant app.log == old(app.log) + RunOutcomes(outs, i).regs
    {
      ghost var prev := RunOutcomes(outs, i);
      var childErr := LoadSubdir(app, scope, dir, node, i, modules, methods);
      RunOutcomesNext(outs, i);
      if outs[i].Some? {
        assert app.log == old(app.log) + (prev.regs + outs[i].value.regs);
      }
      if childErr.Some? {
        RunOutcomesErrorSticks(outs, i + 1, |node.entries|);
        return childErr;
      }
      i := i + 1;
    }
    return None;
  }

  /** The body of the second loop for entry `i`: a subdirectory that is not
      skipped is loaded on a group of the app under its prefix. */
  method LoadSubdir(app: App, scope: Scope, dir: string, node: Entry, i: nat, modules: map<string, ModuleRecord>, methods: set<string>)
    returns (err: Option<LoadError>)
    requires node.Dir? && i < |node.entries|
    modifies app
    ensures var out := SubdirOutcomes(scope, dir, node, modules, methods, |node.entries|)[i];
      out.None? ==> app.log == old(app.log) && err == None
    ensures var out := SubdirOutcomes(scope, dir, node, modules, methods, |node.entries|)[i];
      out.Some? ==> app.log == old(app.log) + out.value.regs && err == out.value.err
    decreases node, 0, i
  {
    SubdirOutcomeAt(scope, dir, node, modules, methods, |node.entries|, i);
    var e := node.entries[i];
    assert e in node.entries;
    var prefix := SubdirPrefix(e.name);
    if !e.Dir? || prefix.None? {
      return None;
    }
    err := LoadDir(app, Scope(scope.groups + [prefix.value], scope.middleware), dir + "/" + e.name, e, modules, methods);
  }

  /** `loadRoutes(app, routesDir)`. */
  method LoadRoutes(app: App, routesDir: string, root: Entry, modules: map<string, ModuleRecord>, methods: set<string>)
    returns (err: Option<LoadError>)
    requires root.Dir?
    modifies app
    ensures app.log == old(app.log) + LoadDirSpec(Scope([], []), routesDir, root, modules, methods).regs
    ensures err == LoadDirSpec(Scope([], []), routesDir, root, modules, methods).err
  {
    err := LoadDir(app, Scope([], []), routesDir, root, modules, methods);
  }

  // ---------------------------------------------------------------------------
  // Properties of a load

  /** A registration made for route file `dir/name`: it is a route file, its path
      is the route path of its name, and method, handler and options come from the
      file's module, the method being one the app supports. */
  predicate Faithful(r: Registration, modules: map<string, ModuleRecord>, methods: set<string>) {
    var f := r.dir + "/" + r.name;
    IsRouteFile(r.name) && !IsMiddlewareFile(r.name) && r.path == ToRelativeRoutePath(r.name) &&
    f in modules && r.httpMethod == MethodOf(modules[f]) && r.httpMethod in methods &&
    modules[f].handler == Some(HandlerFn(r.handler)) && r.options == modules[f].options
  }

  /** One entry is skipped exactly when it is not a route file, and a registration
      is made on the directory's own app, for that entry. */
  lemma RouteStepShape(scope: Scope, dir: string, e: Entry, modules: map<string, ModuleRecord>, methods: set<string>)
    ensures var st := RouteStep(scope, dir, e, modules, methods);
      (st.Skip? <==> !(e.File? && IsRouteFile(e.name) && !IsMiddlewareFile(e.name))) &&
      (st.Register? ==> st.reg.dir == dir && st.reg.name == e.name &&
                        st.reg.groups == scope.groups && st.reg.middleware == scope.middleware)
  {
  }

  /** A registration made for an entry is faithful to its module. */
  lemma RouteStepFaithful(scope: Scope, dir: string, e: Entry, modules: map<string, ModuleRecord>, methods: set<string>)
    ensures var st := RouteStep(scope, dir, e, modules, methods);
      st.Register? ==> Faithful(st.reg, modules, methods)
  {
  }

  /** The same for the step of the first loop at entry `i`. */
  lemma FileStepShape(scope: Scope, dir: string, entries: seq<Entry>, modules: map<string, ModuleRecord>, methods: set<string>, i: nat)
    requires i < |entries|
    ensures var st := FileSteps(scope, dir, entries, modules, methods)[i];
      st.Register? ==> st.reg.groups == scope.groups && st.reg.middleware == scope.middleware
  {
    FileStepAt(scope, dir, entries, modules, methods, i);
    RouteStepShape(scope, dir, entries[i], modules, methods);
  }

  lemma FileStepSound(scope: Scope, dir: string, entries: seq<Entry>, modules: map<string, ModuleRecord>, methods: set<string>, i: nat)
    requires i < |entries|
    ensures var st := FileSteps(scope, dir, entries, modules, methods)[i];
      st.Register? ==>
        (Faithful(st.reg, modules, methods) && st.reg.groups == scope.groups && st.reg.middleware == scope.middleware)
  {
    FileStepAt(scope, dir, entries, modules, methods, i);
    RouteStepShape(scope, dir, entries[i], modules, methods);
    RouteStepFaithful(scope, dir, entries[i], modules, methods);
  }

  /** Registrations that are each faithful to their route file and made inside
      the given groups and middleware chain. */
  predicate AllWithin(regs: seq<Registration>, groups: seq<string>, middleware: seq<Applied>,
                      modules: map<string, ModuleRecord>, methods: set<string>) {
    forall k :: 0 <= k < |regs| ==>
      Faithful(regs[k], modules, methods) && groups <= regs[k].groups && middleware <= regs[k].middleware
  }

  lemma AllWithinSnoc(regs: seq<Registration>, r: Registration, groups: seq<string>, middleware: seq<Applied>,
                      modules: map<string, ModuleRecord>, methods: set<string>)
    requires AllWithin(regs, groups, middleware, modules, methods)
    requires Faithful(r, modules, methods) && groups <= r.groups && middleware <= r.middleware
    ensures AllWithin(regs + [r], groups, middleware, modules, methods)
  {
    forall k | 0 <= k < |regs + [r]|
      ensures Faithful((regs + [r])[k], modules, methods) && groups <= (regs + [r])[k].groups && middleware <= (regs + [r])[k].middleware
    {
      if k < |regs| {
        assert (regs + [r])[k] == regs[k];
      }
    }
  }

  /** Registrations made strictly inside a group below `groups`. */
  predicate AllDeeper(regs: seq<Registration>, groups: seq<string>) {
    forall k :: 0 <= k < |regs| ==> |groups| < |regs[k].groups|
  }

  /** Registrations made on the app of `scope` itself. */
  predicate AllDirect(regs: seq<Registration>, scope: Scope) {
    forall k :: 0 <= k < |regs| ==> regs[k].groups == scope.groups && regs[k].middleware == scope.middleware
  }

  lemma {:induction false} RunStepsSound(scope: Scope, dir: string, entries: seq<Entry>, modules: map<string, ModuleRecord>, methods: set<string>, n: nat)
    requires n <= |entries|
    ensures AllWithin(RunSteps(FileSteps(scope, dir, entries, modules, methods), n).regs, scope.groups, scope.middleware, modules, methods)
  {
    if n > 0 {
      var steps := FileSteps(scope, dir, entries, modules, methods);
      RunStepsSound(scope, dir, entries, modules, methods, n - 1);
      FileStepSound(scope, dir, entries, modules, methods, n - 1);
      var prev := RunSteps(steps, n - 1);
      if prev.err == None && steps[n - 1].Register? {
        assert RunSteps(steps, n).regs == prev.regs + [steps[n - 1].reg];
        AllWithinSnoc(prev.regs, steps[n - 1].reg, scope.groups, scope.middleware, modules, methods);
      } else {
        assert RunSteps(steps, n).regs == prev.regs;
      }
    }
  }

  lemma {:induction false} RunStepsDirect(scope: Scope, dir: string, entries: seq<Entry>, modules: map<string, ModuleRecord>, methods: set<string>, n: nat)
    requires n <= |entries|
    ensures AllDirect(RunSteps(FileSteps(scope, dir, entries, modules, methods), n).regs, scope)
  {
    if n > 0 {
      var steps := FileSteps(scope, dir, entries, modules, methods);
      RunStepsDirect(scope, dir, entries, modules, methods, n - 1);
      FileStepShape(scope, dir, entries, modules, methods, n - 1);
      var prev := RunSteps(steps, n - 1);
      if prev.err == None && steps[n - 1].Register? {
        var r := steps[n - 1].reg;
        assert RunSteps(steps, n).regs == prev.regs + [r];
        forall k | 0 <= k < |prev.regs + [r]|
          ensures (prev.regs + [r])[k].groups == scope.groups && (prev.regs + [r])[k].middleware == scope.middleware
        {
          if k < |prev.regs| {
            assert (prev.regs + [r])[k] == prev.regs[k];
          }
        }
      } else {
        assert RunSteps(steps, n).regs == prev.regs;
      }
    }
  }


  /** Every registration of a load is faithful to its route file and is made inside
      the groups and middleware of the app the load started on. */
  lemma {:induction false} LoadDirSound(scope: Scope, dir: string, node: Entry, modules: map<string, ModuleRecord>, methods: set<string>)
    requires node.Dir?
    ensures AllWithin(LoadDirSpec(scope, dir, node, modules, methods).regs, scope.groups, scope.middleware, modules, methods)
    decreases node, 1
  {
    if node.readable {
      match ResolveScope(scope, dir, node.entries, modules)
      case Err(_) =>
      case Ok(s) =>
        assert s.groups == scope.groups && scope.middleware <= s.middleware;
        RunStepsSound(s, dir, node.entries, modules, methods, |node.entries|);
        SubdirsSound(s, dir, node, modules, methods, |node.entries|);
        var routes := RunSteps(FileSteps(s, dir, node.entries, modules, methods), |node.entries|);
        var subs := RunOutcomes(SubdirOutcomes(s, dir, node, modules, methods, |node.entries|), |node.entries|);
        assert AllWithin(routes.regs, scope.groups, scope.middleware, modules, methods);
        assert AllWithin(subs.regs, scope.groups, scope.middleware, modules, methods);
        if routes.err == None {
          assert LoadDirSpec(scope, dir, node, modules, methods).regs == routes.regs + subs.regs;
        }
    }
  }

  /** Every registration of the second loop is made strictly inside a group of the
      directory's app. */
  lemma {:induction false} SubdirsSound(scope: Scope, dir: string, node: Entry, modules: map<string, ModuleRecord>, methods: set<string>, n: nat)
    requires node.Dir? && n <= |node.entries|
    ensures AllWithin(RunOutcomes(SubdirOutcomes(scope, dir, node, modules, methods, |node.entries|), n).regs, scope.groups, scope.middleware, modules, methods)
    ensures AllDeeper(RunOutcomes(SubdirOutcomes(scope, dir, node, modules, methods, |node.entries|), n).regs, scope.groups)
    decreases node, 0, n
  {
    if n > 0 {
      var outs := SubdirOutcomes(scope, dir, node, modules, methods, |node.entries|);
      SubdirsSound(scope, dir, node, modules, methods, n - 1);
      SubdirOutcomeAt(scope, dir, node, modules, methods, |node.entries|, n - 1);
      var prev := RunOutcomes(outs, n - 1);
      var e := node.entries[n - 1];
      if prev.err == None && e.Dir? && SubdirPrefix(e.name).Some? {
        var inner := Scope(scope.groups + [SubdirPrefix(e.name).value], scope.middleware);
        assert e in node.entries;
        LoadDirSound(inner, dir + "/" + e.name, e, modules, methods);
        var child := LoadDirSpec(inner, dir + "/" + e.name, e, modules, methods);
        assert outs[n - 1] == Some(child);
        RunOutcomesNext(outs, n - 1);
        InnerWithin(child.regs, scope, inner.groups, modules, methods);
        AllWithinAppend(prev.regs, child.regs, scope.groups, scope.middleware, modules, methods);
      }
    }
  }

  /** What is registered strictly inside a group of the app lies within the app
      and deeper than it. */
  lemma InnerWithin(regs: seq<Registration>, scope: Scope, inner: seq<string>,
                    modules: map<string, ModuleRecord>, methods: set<string>)
    requires scope.groups <= inner && |scope.groups| < |inner|
    requires AllWithin(regs, inner, scope.middleware, modules, methods)
    ensures AllWithin(regs, scope.groups, scope.middleware, modules, methods)
    ensures AllDeeper(regs, scope.groups)
  {
    forall k | 0 <= k < |regs|
      ensures scope.groups <= regs[k].groups && |scope.groups| < |regs[k].groups|
    {
      assert inner <= regs[k].groups;
    }
  }

  lemma AllWithinAppend(a: seq<Registration>, b: seq<Registration>, groups: seq<string>, middleware: seq<Applied>,
                        modules: map<string, ModuleRecord>, methods: set<string>)
    requires AllWithin(a, groups, middleware, modules, methods) && AllDeeper(a, groups)
    requires AllWithin(b, groups, middleware, modules, methods) && AllDeeper(b, groups)
    ensures AllWithin(a + b, groups, middleware, modules, methods) && AllDeeper(a + b, groups)
  {
    forall k | |a| <= k < |a + b| ensures (a + b)[k] == b[k - |a|] {
    }
  }

  /** Registrations made on an app, followed by registrations made strictly inside
      its groups: once one lies inside a group, all later ones do. */
  predicate GroupedLast(regs: seq<Registration>, groups: seq<string>) {
    forall i, j :: 0 <= i < j < |regs| && |regs[i].groups| > |groups| ==> |regs[j].groups| > |groups|
  }

  lemma DirectThenDeeper(a: seq<Registration>, b: seq<Registration>, scope: Scope)
    requires AllDirect(a, scope) && AllDeeper(b, scope.groups)
    ensures GroupedLast(a + b, scope.groups)
  {
    var regs := a + b;
    forall i, j | 0 <= i < j < |regs| && |regs[i].groups| > |scope.groups|
      ensures |regs[j].groups| > |scope.groups|
    {
      if j >= |a| {
        assert regs[j] == b[j - |a|];
      }
    }
  }

  /** Within a directory every route file is registered before any subdirectory:
      once a registration lies inside a subdirectory's group, all later ones do. */
  lemma FilesBeforeSubdirectories(scope: Scope, dir: string, node: Entry, modules: map<string, ModuleRecord>, methods: set<string>)
    requires node.Dir?
    ensures GroupedLast(LoadDirSpec(scope, dir, node, modules, methods).regs, scope.groups)
  {
    if node.readable {
      match ResolveScope(scope, dir, node.entries, modules)
      case Err(_) =>
      case Ok(s) =>
        assert s.groups == scope.groups;
        RunStepsDirect(s, dir, node.entries, modules, methods, |node.entries|);
        SubdirsSound(s, dir, node, modules, methods, |node.entries|);
        var routes := RunSteps(FileSteps(s, dir, node.entries, modules, methods), |node.entries|);
        var subs := RunOutcomes(SubdirOutcomes(s, dir, node, modules, methods, |node.entries|), |node.entries|);
        if routes.err == None {
          DirectThenDeeper(routes.regs, subs.regs, s);
        } else {
          DirectThenDeeper(routes.regs, [], s);
          assert routes.regs + [] == routes.regs;
        }
    }
  }

  /** A directory whose middleware export is a function wraps the app of every
      registration made for that directory and below it. */
  lemma MiddlewareCoversDirectory(scope: Scope, dir: string, node: Entry, modules: map<string, ModuleRecord>, methods: set<string>, id: string, returnsApp: bool)
    requires node.Dir? && node.readable
    requires MiddlewarePath(dir, node.entries).Some?
    requires MiddlewarePath(dir, node.entries).value in modules
    requires MiddlewareExport(modules[MiddlewarePath(dir, node.entries).value]) == Some(MiddlewareFn(id, returnsApp))
    ensures AllWithin(LoadDirSpec(scope, dir, node, modules, methods).regs,
                      scope.groups, scope.middleware + [Applied(id, returnsApp)], modules, methods)
  {
    var s := Scope(scope.groups, scope.middleware + [Applied(id, returnsApp)]);
    assert ResolveScope(scope, dir, node.entries, modules) == Ok(s);
    RunStepsSound(s, dir, node.entries, modules, methods, |node.entries|);
    SubdirsSound(s, dir, node, modules, methods, |node.entries|);
    var routes := RunSteps(FileSteps(s, dir, node.entries, modules, methods), |node.entries|);
    var subs := RunOutcomes(SubdirOutcomes(s, dir, node, modules, methods, |node.entries|), |node.entries|);
    if routes.err == None {
      assert LoadDirSpec(scope, dir, node, modules, methods).regs == routes.regs + subs.regs;
    }
  }

  /** A route file the loader reaches: its directory and its name. */
  datatype RouteFile = RouteFile(dir: string, name: string)

  /** The route files among `entries[..n]`, in entry order. */
  function RouteFilesIn(dir: string, entries: seq<Entry>, n: nat): seq<RouteFile>
    requires n <= |entries|
  {
    if n == 0 then []
    else
      var e := entries[n - 1];
      RouteFilesIn(dir, entries, n - 1) + (if e.File? && IsRouteFile(e.name) && !IsMiddlewareFile(e.name) then [RouteFile(dir, e.name)] else [])
  }

  /** The route files of a tree that the loader reaches, in the order it reaches
      them: those of the directory, then those of every subdirectory it does not
      skip, in entry order. */
  function RouteFiles(dir: string, node: Entry): seq<RouteFile>
    requires node.Dir?
    decreases node, 1
  {
    RouteFilesIn(dir, node.entries, |node.entries|) + SubdirRouteFiles(dir, node, |node.entries|)
  }

  function SubdirRouteFiles(dir: string, node: Entry, n: nat): seq<RouteFile>
    requires node.Dir? && n <= |node.entries|
    decreases node, 0, n
  {
    if n == 0 then []
    else
      var e := node.entries[n - 1];
      assert e in node.entries;
      SubdirRouteFiles(dir, node, n - 1) +
        (if e.Dir? && SubdirPrefix(e.name).Some? then RouteFiles(dir + "/" + e.name, e) else [])
  }

  /** The file each registration came from. */
  function Sources(regs: seq<Registration>): (r: seq<RouteFile>)
    ensures |r| == |regs|
  {
    if regs == [] then [] else Sources(regs[..|regs| - 1]) + [RouteFile(regs[|regs| - 1].dir, regs[|regs| - 1].name)]
  }

  lemma {:induction false} SourcesAppend(a: seq<Registration>, b: seq<Registration>)
    ensures Sources(a + b) == Sources(a) + Sources(b)
    decreases |b|
  {
    if b != [] {
      var b0 := b[..|b| - 1];
      var x := b[|b| - 1];
      assert (a + b)[..|a + b| - 1] == a + b0;
      assert (a + b)[|a + b| - 1] == x;
      SourcesAppend(a, b0);
      var sx := [RouteFile(x.dir, x.name)];
      assert Sources(a + b) == Sources(a) + Sources(b0) + sx;
      assert Sources(b) == Sources(b0) + sx;
    } else {
      assert a + b == a;
    }
  }

  lemma {:induction false} RunStepsFiles(scope: Scope, dir: string, entries: seq<Entry>, modules: map<string, ModuleRecord>, methods: set<string>, n: nat)
    requires n <= |entries|
    requires RunSteps(FileSteps(scope, dir, entries, modules, methods), n).err == None
    ensures Sources(RunSteps(FileSteps(scope, dir, entries, modules, methods), n).regs) == RouteFilesIn(dir, entries, n)
  {
    if n > 0 {
      RunStepsFiles(scope, dir, entries, modules, methods, n - 1);
      FileStepAt(scope, dir, entries, modules, methods, n - 1);
      RouteStepShape(scope, dir, entries[n - 1], modules, methods);
      var steps := FileSteps(scope, dir, entries, modules, methods);
      var prev := RunSteps(steps, n - 1);
      assert prev.err == None;
      RunStepsNext(steps, n - 1);
      var st := RouteStep(scope, dir, entries[n - 1], modules, methods);
      if st.Register? {
        assert (prev.regs + [st.reg])[..|prev.regs|] == prev.regs;
      }
    }
  }

  /** A load that ends without error registers exactly the route files it
      reaches, each once, in the order it reaches them. */
  lemma {:induction false} LoadDirFiles(scope: Scope, dir: string, node: Entry, modules: map<string, ModuleRecord>, methods: set<string>)
    requires node.Dir?
    requires LoadDirSpec(scope, dir, node, modules, methods).err == None
    ensures Sources(LoadDirSpec(scope, dir, node, modules, methods).regs) == RouteFiles(dir, node)
    ensures |LoadDirSpec(scope, dir, node, modules, methods).regs| == |RouteFiles(dir, node)|
    decreases node, 1
  {
    match ResolveScope(scope, dir, node.entries, modules)
    case Err(_) =>
    case Ok(s) =>
      var routes := RunSteps(FileSteps(s, dir, node.entries, modules, methods), |node.entries|);
      var subs := RunOutcomes(SubdirOutcomes(s, dir, node, modules, methods, |node.entries|), |node.entries|);
      RunStepsFiles(s, dir, node.entries, modules, methods, |node.entries|);
      SubdirsFiles(s, dir, node, modules, methods, |node.entries|);
      SourcesAppend(routes.regs, subs.regs);
  }

  lemma {:induction false} SubdirsFiles(scope: Scope, dir: string, node: Entry, modules: map<string, ModuleRecord>, methods: set<string>, n: nat)
    requires node.Dir? && n <= |node.entries|
    requires RunOutcomes(SubdirOutcomes(scope, dir, node, modules, methods, |node.entries|), n).err == None
    ensures Sources(RunOutcomes(SubdirOutcomes(scope, dir, node, modules, methods, |node.entries|), n).regs) == SubdirRouteFiles(dir, node, n)
    decreases node, 0, n
  {
    if n > 0 {
      var outs := SubdirOutcomes(scope, dir, node, modules, methods, |node.entries|);
      var prev := RunOutcomes(outs, n - 1);
      assert prev.err == None;
      SubdirOutcomeAt(scope, dir, node, modules, methods, |node.entries|, n - 1);
      SubdirsFiles(scope, dir, node, modules, methods, n - 1);
      RunOutcomesNext(outs, n - 1);
      var e := node.entries[n - 1];
      if e.Dir? && SubdirPrefix(e.name).Some? {
        assert e in node.entries;
        var inner := Scope(scope.groups + [SubdirPrefix(e.name).value], scope.middleware);
        var child := LoadDirSpec(inner, dir + "/" + e.name, e, modules, methods);
        assert outs[n - 1] == Some(child);
        LoadDirFiles(inner, dir + "/" + e.name, e, modules, methods);
        SourcesAppend(prev.regs, child.regs);
      } else {
        assert outs[n - 1].None?;
      }
    }
  }

  /** Subdirectories whose name starts with `_` are skipped; `index` is grouped
      under `/` and `[id]` under `/:id`. */
  lemma SubdirPrefixCases(name: string)
    ensures name != [] && name[0] == '_' ==> SubdirPrefix(name) == None
    ensures SubdirPrefix("index") == Some("/")
    ensures SubdirPrefix("[id]") == Some("/:id")
    ensures SubdirPrefix("users") == Some("/users")
  {
    SubdirPrefixHidden(name);
    SubdirPrefixIndex();
    SubdirPrefixParam();
    SubdirPrefixPlain();
  }

  lemma SubdirPrefixHidden(name: string)
    ensures name != [] && name[0] == '_' ==> SubdirPrefix(name) == None
  {
    assert name != [] && name[0] == '_' ==> name[..1] == "_";
  }

  lemma SubdirPrefixIndex()
    ensures SubdirPrefix("index") == Some("/")
  {
    assert "index"[..1][0] == 'i';
  }

  lemma SubdirPrefixParam()
    ensures SubdirPrefix("[id]") == Some("/:id")
  {
    assert "[id]"[..1][0] == '[' && "[id]"[..1] == "[" && "[id]"[3..] == "]";
    assert JsSlice("[id]", 1, -1) == "id";
    assert ToSegment("[id]") == ":id" && "/" + ":id" == "/:id";
  }

  lemma SubdirPrefixPlain()
    ensures SubdirPrefix("users") == Some("/users")
  {
    assert "users"[..1][0] == 'u';
    assert ToSegment("users") == "users" && "/" + "users" == "/users";
  }

}
