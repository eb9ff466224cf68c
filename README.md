# Monorepo template core, modelled in Dafny

This project models the deterministic core of the monorepo template and proves properties of that model:

- The file-convention router of the backend (`apps/be/src/routes/_loader.ts`). It covers the file-name-to-URL mapping, the route and middleware file rules, and the recursive directory walk that registers one route per file and groups every subdirectory.
- The route analyzer of the desktop editor (`gui-edit/src-tauri/src/parser/route_analyzer.rs`). It covers the file-path-to-URL mapping, the classification of a route file's exports, and the filtered and sorted directory analysis. The routes-directory inference of `gui-edit/src-tauri/src/lib.rs` is modelled with it.
- The sandboxed file commands of the editor (`gui-edit/src-tauri/src/commands/fs.rs`). They cover the ignore and hidden-file rules, path validation against the project root, the directory listing order, and the error each command selects. The disk is a map from paths to their canonical forms plus a map from canonical paths to files and directories.
- The editor's state stores, as classes whose methods update their fields. The tab store covers opening, closing and reordering tabs with active-tab repair. The layout store covers its toggles and clamps. The file explorer covers its expanded set and lazy children. The workspace covers its list of recent projects. The visual component editor covers its component tree, its TSX generator, and the module text the code preview assembles.
- The editor's panels:
  - the new-route dialog (URL to file path, the route module template, the create flow);
  - the search panel;
  - quick open;
  - the command palette;
  - the API tester;
  - the `Cargo.toml` and `package.json` editors.
- The `doctor` command of the CLI:
  - `.env` key parsing and the missing-key difference;
  - the report's status order and exit code;
  - target expansion and status counts;
  - the bounded directory walk;
  - the nginx and pm2 detection.
- `replaceOnce` and the write-only-if-changed step of the OpenAPI post-processing script.

The model has one module per source file. Shared modules hold the JavaScript and Rust string operations (`Strings`), path handling (`Paths`), ordering and sorting (`Ordering`), the `splice` arithmetic of JavaScript arrays (`JsArrays`), grouping into a record of lists (`Grouping`) and result types (`Wrappers`).

Inputs that come from the environment are parameters of the operation that uses them:

- the directory tree and the imported module records of the loader;
- the export names the analyzer's regular expressions extract;
- the disk of the file commands;
- the outcome of every asynchronous call (`readFile`, `writeFile`, `createFile`, `fetch`, `searchInFiles`, the manifest reads and writes);
- generated ids.

## Model

| member | source | states |
|---|---|---|
| RouteLoader.StripTrailingSlashes | apps/be/src/routes/_loader.ts:22 | the result is a prefix of the input that does not end in `/` |
| RouteLoader.StripTrailingSlashesRemovesSlashes | apps/be/src/routes/_loader.ts:41 | everything `/\/+$/g` removes is a slash |
| RouteLoader.ExtNameShape | apps/be/src/routes/_loader.ts:10 | `extname` is empty or one dot followed by dot-free, slash-free text at the end of the last path component |
| RouteLoader.ToSegmentShape | apps/be/src/routes/_loader.ts:25-29 | `toSegment` gives an empty segment exactly for `index` (and the empty name) and adds no slash |
| RouteLoader.DropHiddenMembers | apps/be/src/routes/_loader.ts:37-38 | the two filters keep exactly the segments that are neither `_` nor empty |
| RouteLoader.UrlSegmentsClean | apps/be/src/routes/_loader.ts:31-38 | every segment that reaches the URL is non-empty, is not `_` and has no slash |
| RouteLoader.RoutePathShape | apps/be/src/routes/_loader.ts:31-42 | a route path starts with `/`, is `/` exactly when no segment survives, has no trailing slash otherwise, and splits back into its segments, so the final `replace` never removes anything; `toUrlPath` (lines 8-23) is the same pipeline |
| RouteLoader.ToUrlPath | apps/be/src/routes/_loader.ts:8-23 | the unused `toUrlPath` gives a path that starts with `/`, has no trailing slash unless it is `/`, and is `/` exactly when no segment survives |
| RouteLoader.JoinedPath | apps/be/src/routes/_loader.ts:40-41 | non-empty slash-free segments joined behind `/` give a path without trailing slash that splits back into them |
| RouteLoader.MiddlewareIsNotRoute | apps/be/src/routes/_loader.ts:44-51 | a `_middleware` file is never a route file, and a route file never starts with `_` |
| RouteLoader.App.Register | apps/be/src/routes/_loader.ts:103 | a registration is appended to the app's log and nothing else changes |
| RouteLoader.LoadDir | apps/be/src/routes/_loader.ts:63-120 | `loadDir` registers exactly the routes of the functional specification, in order, and returns the error that stopped it |
| RouteLoader.ApplyDirMiddleware | apps/be/src/routes/_loader.ts:66-81 | the scope a directory's routes are registered in is the one the middleware resolution gives (see the next three rows) |
| RouteLoader.MiddlewarePathChoice | apps/be/src/routes/_loader.ts:67-73 | `_middleware.ts` is used whenever it exists; `_middleware.js` exactly when it exists and the `.ts` file does not; no middleware exactly when neither exists |
| RouteLoader.ResolveScopeMissing | apps/be/src/routes/_loader.ts:69-76 | without a middleware file the scope is unchanged; a middleware file whose module cannot be imported is the load's error |
| RouteLoader.ResolveScopeImported | apps/be/src/routes/_loader.ts:75-81 | a `middleware` export that is a function is applied, whatever `default` is; without `middleware` a function `default` is applied; a `middleware` that is not a function, or no function at all, leaves the scope unchanged; applying keeps the groups and appends the middleware |
| RouteLoader.LoadEntries | apps/be/src/routes/_loader.ts:83-119 | the route files are registered first; the subdirectories are loaded only when no route file failed |
| RouteLoader.RegisterFiles | apps/be/src/routes/_loader.ts:84-104 | the first loop registers the route files in entry order and stops at the first error |
| RouteLoader.ImportRouteFile | apps/be/src/routes/_loader.ts:85-103 | one entry: skipped unless it is a route file that is not middleware; otherwise an unsupported method or a missing handler is an error, and a good module is registered under its relative route path with its lower-cased method (`get` by default) and options |
| RouteLoader.ImportRouteFileAt | apps/be/src/routes/_loader.ts:85-103 | the same for the entry at an index |
| RouteLoader.RegisterSubdirs | apps/be/src/routes/_loader.ts:107-119 | the second loop loads each subdirectory in entry order and stops at the first error |
| RouteLoader.LoadSubdir | apps/be/src/routes/_loader.ts:108-118 | a file, a `_` directory or a `_` segment is skipped; any other directory is loaded inside a group with prefix `/segment` (or `/` for `index`) |
| RouteLoader.LoadRoutes | apps/be/src/routes/_loader.ts:62-124 | `loadRoutes` loads the routes directory on the app with no group and no middleware |
| RouteLoader.RunStepsErrorSticks | apps/be/src/routes/_loader.ts:96-101 | once a route file throws, later entries register nothing |
| RouteLoader.RunOutcomesErrorSticks | apps/be/src/routes/_loader.ts:116-118 | once a subdirectory's load throws, later subdirectories register nothing |
| RouteLoader.RouteStepShape | apps/be/src/routes/_loader.ts:85-103 | an entry is skipped exactly when it is not a non-middleware route file; a registration is for that entry on the directory's own app |
| RouteLoader.RouteStepFaithful | apps/be/src/routes/_loader.ts:89-103 | a registration carries its module's handler and options, a supported lower-cased method and the file's route path |
| RouteLoader.FileStepSound | apps/be/src/routes/_loader.ts:84-104 | each step of the first loop is faithful and made on the directory's own groups and middleware |
| RouteLoader.RunStepsSound | apps/be/src/routes/_loader.ts:84-104 | every registration of the first loop is faithful and within the directory's app |
| RouteLoader.RunStepsDirect | apps/be/src/routes/_loader.ts:84-104 | the first loop registers on the directory's app itself, not inside a group |
| RouteLoader.LoadDirSound | apps/be/src/routes/_loader.ts:63-120 | every registration of a load is faithful to its route file and lies inside the groups and middleware of the app the load started on |
| RouteLoader.SubdirsSound | apps/be/src/routes/_loader.ts:107-119 | every registration of the second loop lies strictly inside a group of the directory's app |
| RouteLoader.FilesBeforeSubdirectories | apps/be/src/routes/_loader.ts:83-119 | within a directory all route files are registered before anything in a subdirectory |
| RouteLoader.MiddlewareCoversDirectory | apps/be/src/routes/_loader.ts:75-81 | a directory whose middleware export is a function wraps every registration made for that directory and below it |
| RouteLoader.LoadDirFiles | apps/be/src/routes/_loader.ts:63-120 | a load without error registers exactly the reachable route files, each once, in the order the walk reaches them |
| RouteLoader.RunStepsFiles | apps/be/src/routes/_loader.ts:84-104 | a direct-file loop without error registers exactly the directory's route files that are not middleware, in entry order |
| RouteLoader.SubdirsFiles | apps/be/src/routes/_loader.ts:106-119 | the subdirectory loop without error registers exactly the route files of the subdirectories it does not skip, in entry order |
| RouteLoader.SubdirPrefixCases | apps/be/src/routes/_loader.ts:108-114 | `_` directories are skipped; `index` is grouped under `/`, `[id]` under `/:id`, a plain name under `/name` |
| RouteAnalyzer.DropComps | gui-edit/src-tauri/src/parser/route_analyzer.rs:61-63 | `strip_prefix` succeeds exactly when the directory's components are a prefix of the path's, and leaves the rest |
| RouteAnalyzer.WithoutExtension | gui-edit/src-tauri/src/parser/route_analyzer.rs:67-70 | stripping `.ts`, else `.tsx`, leaves a prefix of the relative path |
| RouteAnalyzer.UrlSegmentShape | gui-edit/src-tauri/src/parser/route_analyzer.rs:81-94 | a mapped segment is non-empty and gains no slash |
| RouteAnalyzer.FilePathToUrlPath | gui-edit/src-tauri/src/parser/route_analyzer.rs:57-105 | `file_path_to_url_path` yields the URL built from the path's segments below the routes directory |
| RouteAnalyzer.BuildUrlPath | gui-edit/src-tauri/src/parser/route_analyzer.rs:73-102 | the loop pushes each non-`index` segment, mapped and followed by `/`, then drops the trailing slash except for the root |
| RouteAnalyzer.MapKeptClean | gui-edit/src-tauri/src/parser/route_analyzer.rs:75-94 | every URL segment is non-empty and slash-free |
| RouteAnalyzer.UrlPathShape | gui-edit/src-tauri/src/parser/route_analyzer.rs:57-105 | a URL path starts with `/`, is `/` exactly when no segment survives, has no trailing slash otherwise and splits back into its segments |
| RouteAnalyzer.UrlSegmentVectors | gui-edit/src-tauri/src/parser/route_analyzer.rs:321-340 | `users` stays, `[id]` becomes `:id`, `[...slug]` becomes `*slug` |
| RouteAnalyzer.MapKeptVectors | gui-edit/src-tauri/src/parser/route_analyzer.rs:321-340 | the test paths: `index` parts vanish, `users/[id]` gives `users, :id`, `posts/[...slug]` gives `posts, *slug` |
| RouteAnalyzer.RelativePathNested | gui-edit/src-tauri/src/parser/route_analyzer.rs:61-64 | the path of a file below the routes directory, relative to it, is its components below it |
| RouteAnalyzer.ConstStep | gui-edit/src-tauri/src/parser/route_analyzer.rs:150-184 | one `const` export keeps the file path, URL path and errors and adds exactly one export record; the method check comes first, so `options` goes down the method branch |
| RouteAnalyzer.ConstOther | gui-edit/src-tauri/src/parser/route_analyzer.rs:161-184 | the branches after the method check (`options`, `handler`, anything else) keep the paths and errors and add exactly one export record |
| RouteAnalyzer.FunctionStep | gui-edit/src-tauri/src/parser/route_analyzer.rs:189-206 | one exported function keeps the paths, errors and options flag and adds a `function` export record with the handler role |
| RouteAnalyzer.DefaultStep | gui-edit/src-tauri/src/parser/route_analyzer.rs:210-224 | a default export adds one `default` record and makes the file a handler, with method `GET` when none was set and the method unchanged otherwise |
| RouteAnalyzer.NamedStep | gui-edit/src-tauri/src/parser/route_analyzer.rs:230-251 | one name of an export group keeps the paths and errors; the method check comes first |
| RouteAnalyzer.NamedOther | gui-edit/src-tauri/src/parser/route_analyzer.rs:244-251 | after the method check only `options` adds a record; the paths and errors stay |
| RouteAnalyzer.FoldConsts | gui-edit/src-tauri/src/parser/route_analyzer.rs:149-185 | the constant loop, as written (method check first), leaves the file path, URL path and errors alone |
| RouteAnalyzer.FoldFunctions | gui-edit/src-tauri/src/parser/route_analyzer.rs:188-207 | the function loop leaves the file path, URL path and errors alone |
| RouteAnalyzer.FoldNamed | gui-edit/src-tauri/src/parser/route_analyzer.rs:227-254 | the named-group loop, as written (method check first), leaves the file path, URL path and errors alone |
| RouteAnalyzer.Classify | gui-edit/src-tauri/src/parser/route_analyzer.rs:148-254 | classifying the exports of a readable file, in the source's order of loops and checks, keeps its paths and errors |
| RouteAnalyzer.Analysis | gui-edit/src-tauri/src/parser/route_analyzer.rs:108-131 | the analysis of a file is for that file and its URL path |
| RouteAnalyzer.AnalyzeRouteFile | gui-edit/src-tauri/src/parser/route_analyzer.rs:108-257 | `analyze_route_file` builds the analysis the functional specification gives |
| RouteAnalyzer.ClassifyConsts | gui-edit/src-tauri/src/parser/route_analyzer.rs:149-185 | the constant loop equals its fold, the as-written classification |
| RouteAnalyzer.ClassifyFunctions | gui-edit/src-tauri/src/parser/route_analyzer.rs:188-207 | the function loop equals its fold |
| RouteAnalyzer.ClassifyNamed | gui-edit/src-tauri/src/parser/route_analyzer.rs:227-254 | the nested loops over the export groups and their comma-separated names (the part before ` as `, trimmed, empties skipped) equal their fold |
| RouteAnalyzer.MethodExportsMembers | gui-edit/src-tauri/src/parser/route_analyzer.rs:149-254 | a name sets the method exactly when it is a method name in any case (`options` included as written; the corrected loops skip it) |
| RouteAnalyzer.ConstStepEffect | gui-edit/src-tauri/src/parser/route_analyzer.rs:150-184 | one constant sets the method to its upper-cased name if it is a method name (`options` included), to `GET` for `handler` when none is set, and marks a handler in both cases |
| RouteAnalyzer.FunctionStepEffect | gui-edit/src-tauri/src/parser/route_analyzer.rs:189-206 | the same for one exported function |
| RouteAnalyzer.NamedStepEffect | gui-edit/src-tauri/src/parser/route_analyzer.rs:230-251 | one name of an export group sets the method and the handler flag exactly when it is a method name, `options` included |
| RouteAnalyzer.FoldConstsMethod | gui-edit/src-tauri/src/parser/route_analyzer.rs:149-185 | after the constant loop the method is that of the last method-name constant (`options` counting), else `GET` if `handler` was seen |
| RouteAnalyzer.FoldConstsHandler | gui-edit/src-tauri/src/parser/route_analyzer.rs:149-185 | after the constant loop the file has a handler exactly when it had one, or exported `handler` or a method name (`options` counting) |
| RouteAnalyzer.FoldFunctionsMethod | gui-edit/src-tauri/src/parser/route_analyzer.rs:188-207 | the same method rule for the function loop |
| RouteAnalyzer.FoldFunctionsHandler | gui-edit/src-tauri/src/parser/route_analyzer.rs:188-207 | the same handler rule for the function loop |
| RouteAnalyzer.FoldNamedMethod | gui-edit/src-tauri/src/parser/route_analyzer.rs:227-254 | after the named loop the method is the last method name among the groups (`options` counting), and the handler flag is set exactly when there is one |
| RouteAnalyzer.MethodAfterCompose | gui-edit/src-tauri/src/parser/route_analyzer.rs:148-207 | two loops in a row act as one loop over both export lists: a later method overrides an earlier one |
| RouteAnalyzer.ConstsThenFunctions | gui-edit/src-tauri/src/parser/route_analyzer.rs:148-207 | the constant loop followed by the function loop sets the method and handler flag as one loop over both lists |
| RouteAnalyzer.ClassifyMethod | gui-edit/src-tauri/src/parser/route_analyzer.rs:148-254 | the method is that of the last method-name export of the whole file, `options` counting as one, else `GET` when there is a `handler` or default export; the file is a handler exactly when it has either |
| RouteAnalyzer.LaterMethodWins | gui-edit/src-tauri/src/parser/route_analyzer.rs:149-207 | `export const get` followed by `export function post` makes a POST route |
| RouteAnalyzer.FoldConstsOptions | gui-edit/src-tauri/src/parser/route_analyzer.rs:149-185 | as written the constant loop never sets the options flag, and records one export per constant |
| RouteAnalyzer.FoldFunctionsOptions | gui-edit/src-tauri/src/parser/route_analyzer.rs:188-207 | the function loop never sets the options flag, and records one export per function |
| RouteAnalyzer.FoldNamedOptions | gui-edit/src-tauri/src/parser/route_analyzer.rs:227-254 | as written the named loop never sets the options flag, and only adds export records |
| RouteAnalyzer.ClassifyOptions | gui-edit/src-tauri/src/parser/route_analyzer.rs:148-254 | as written no file is ever flagged as exporting route options, whatever it exports |
| RouteAnalyzer.ClassifyExportsCount | gui-edit/src-tauri/src/parser/route_analyzer.rs:149-224 | every constant and function gets an export record, and so does a default export |
| RouteAnalyzer.UnreadableAnalysis | gui-edit/src-tauri/src/parser/route_analyzer.rs:121-130 | an unreadable file carries exactly one error and no handler, method, options or exports |
| RouteAnalyzer.OptionsNeverFlagged | gui-edit/src-tauri/src/parser/route_analyzer.rs:149-251 | no constant and no export-group name ever sets the options flag: `options` passes the method check first |
| RouteAnalyzer.OptionsExportAsWritten | gui-edit/src-tauri/src/parser/route_analyzer.rs:153-162 | as written, `export const options` makes the file an OPTIONS handler and leaves the options flag unset |
| RouteAnalyzer.OptionsExportIntended | gui-edit/src-tauri/src/parser/route_analyzer.rs:161-167 | corrected: with the `options` check first, `export const options` sets the options flag and leaves the method and handler flag alone |
| RouteAnalyzer.FoldConstsFixed | gui-edit/src-tauri/src/parser/route_analyzer.rs:149-185 | corrected constant loop (`options` check first) keeps the paths and errors |
| RouteAnalyzer.FoldNamedFixed | gui-edit/src-tauri/src/parser/route_analyzer.rs:227-254 | corrected named loop keeps the paths and errors |
| RouteAnalyzer.ClassifyFixed | gui-edit/src-tauri/src/parser/route_analyzer.rs:148-254 | corrected classification, in the same order of loops, keeps the paths and errors |
| RouteAnalyzer.FoldConstsFixedAgrees | gui-edit/src-tauri/src/parser/route_analyzer.rs:149-185 | on constants without `options` the corrected loop is the written one |
| RouteAnalyzer.FoldNamedFixedAgrees | gui-edit/src-tauri/src/parser/route_analyzer.rs:227-254 | on export-group names without `options` the corrected loop is the written one |
| RouteAnalyzer.ClassifyFixedAgrees | gui-edit/src-tauri/src/parser/route_analyzer.rs:148-254 | the correction changes nothing for a file exporting no `options` constant or name |
| RouteAnalyzer.ConstStepFixedEffect | gui-edit/src-tauri/src/parser/route_analyzer.rs:150-184 | corrected: one constant sets the method and handler as written, except that `options` sets neither |
| RouteAnalyzer.NamedStepFixedEffect | gui-edit/src-tauri/src/parser/route_analyzer.rs:230-251 | corrected: one export-group name sets the method and handler flag exactly when it is a method name other than `options` |
| RouteAnalyzer.FoldConstsFixedMethod | gui-edit/src-tauri/src/parser/route_analyzer.rs:149-185 | corrected: after the constant loop the method is the last method constant other than `options`, else `GET` for `handler`; the handler flag likewise |
| RouteAnalyzer.FoldNamedFixedMethod | gui-edit/src-tauri/src/parser/route_analyzer.rs:227-254 | corrected: after the named loop the method is the last method name other than `options`, and the handler flag is set exactly when there is one |
| RouteAnalyzer.ClassifyFixedMethod | gui-edit/src-tauri/src/parser/route_analyzer.rs:148-254 | corrected: the method is the last method export other than an `options` constant or name, else `GET` for a `handler` or default export; a handler exactly when either |
| RouteAnalyzer.FoldConstsFixedOptions | gui-edit/src-tauri/src/parser/route_analyzer.rs:149-185 | corrected: the constant loop sets the options flag exactly when an `options` constant is seen |
| RouteAnalyzer.FoldNamedFixedOptions | gui-edit/src-tauri/src/parser/route_analyzer.rs:227-254 | corrected: the named loop sets the options flag exactly when an `options` name is seen |
| RouteAnalyzer.ClassifyFixedOptions | gui-edit/src-tauri/src/parser/route_analyzer.rs:148-254 | corrected: a file is flagged as exporting route options exactly when it exports `options` as a constant or in an export group |
| RouteAnalyzer.ExtensionSuffix | gui-edit/src-tauri/src/parser/route_analyzer.rs:293-296 | for a name not starting with a dot, `Path::extension` is a dot-free `ext` exactly when the name ends in `.ext` |
| RouteAnalyzer.IsTsFileSuffix | gui-edit/src-tauri/src/parser/route_analyzer.rs:293-296 | for such a name, the extension filter is the same as ending in `.ts` or `.tsx` |
| RouteAnalyzer.CollectFiles | gui-edit/src-tauri/src/parser/route_analyzer.rs:268-302 | `collect_files` appends exactly the route files of the specification for the tree, in directory order, each path joined as `entry.path()` joins it (no doubled slash) |
| RouteAnalyzer.CollectEntry | gui-edit/src-tauri/src/parser/route_analyzer.rs:270-299 | one entry, at `Path::join(dir, name)`: hidden and `_` names are passed over, directories descended into, `.ts`/`.tsx` files appended |
| RouteAnalyzer.DirFilesFound | gui-edit/src-tauri/src/parser/route_analyzer.rs:268-302 | every collected file is the directory joined with a list of names, none starting with `.` or `_` (directories on the way included), the last with a `.ts` or `.tsx` extension |
| RouteAnalyzer.FoundBelowUnder | gui-edit/src-tauri/src/parser/route_analyzer.rs:268-302 | a file found below a directory starts with that directory's path prefix |
| RouteAnalyzer.JoinAllUnder | gui-edit/src-tauri/src/parser/route_analyzer.rs:271 | joining names one by one onto a directory stays under that directory's path prefix |
| RouteAnalyzer.FoundBelowNested | gui-edit/src-tauri/src/parser/route_analyzer.rs:274-292 | what is found below a subdirectory whose name is not skipped is found below its parent, with that name added in front |
| RouteAnalyzer.FoundBelowDirect | gui-edit/src-tauri/src/parser/route_analyzer.rs:293-298 | a route file directly in a directory is found below it |
| RouteAnalyzer.UrlLePreorder | gui-edit/src-tauri/src/parser/route_analyzer.rs:312 | comparing URL paths is a total preorder |
| RouteAnalyzer.AnalyzeRoutesDirectory | gui-edit/src-tauri/src/parser/route_analyzer.rs:260-315 | `analyze_routes_directory` returns the as-written analyses: none for a missing directory, otherwise one per collected file, sorted by URL path |
| RouteAnalyzer.AnalyzeFiles | gui-edit/src-tauri/src/parser/route_analyzer.rs:307-309 | the loop applies the as-written analysis to each collected file in order |
| RouteAnalyzer.AnalysesAt | gui-edit/src-tauri/src/parser/route_analyzer.rs:307-309 | each analysis is for the file at the same place, with that file's URL path |
| RouteAnalyzer.DirectoryAnalysisSound | gui-edit/src-tauri/src/parser/route_analyzer.rs:260-315 | the result is sorted by URL path, has one analysis per route file found, and each is for a route file below the directory: no name on its way down starts with `.` or `_` |
| Paths.TrimTrailingSlashes | gui-edit/src-tauri/src/lib.rs:23-26 | a path without its trailing slashes is a prefix of it that does not end in `/`, and only slashes were removed |
| Paths.LastSlash | gui-edit/src-tauri/src/lib.rs:23-26 | the index found is that of the last slash, or -1 when there is none |
| Paths.ParentOfChild | gui-edit/src-tauri/src/commands/fs.rs:207 | `Path::parent` of a directory joined with a name is that directory, and the name is the last component |
| Paths.ParentOfTopLevel | gui-edit/src-tauri/src/lib.rs:23-26 | a single relative component has the empty parent, a rooted one has the root |
| Paths.ChildStartsWith | gui-edit/src-tauri/src/commands/fs.rs:100 | an entry of a directory lies under that directory for `Path::starts_with` |
| Paths.StartsWithByComponents | gui-edit/src-tauri/src/commands/fs.rs:100 | `Path::starts_with` compares whole components: `/ab` is not under `/a`, `/a/b` is |
| TauriLib.RoutesDirFor | gui-edit/src-tauri/src/lib.rs:15-28 | a given routes directory is used unchanged; otherwise it is inferred from the path |
| TauriLib.AnalyzeRouteFileCommand | gui-edit/src-tauri/src/lib.rs:14-30 | the command analyses the file under the chosen routes directory |
| TauriLib.InferFromRoutes | gui-edit/src-tauri/src/lib.rs:18-19 | with `/routes/` in the path, the directory is the path up to and including the first `/routes/` |
| TauriLib.InferFromAdminRoutes | gui-edit/src-tauri/src/lib.rs:20-21 | without `/routes/` but with `/routes-admin/`, the directory ends at the first `/routes-admin/` |
| TauriLib.InferFromParent | gui-edit/src-tauri/src/lib.rs:22-27 | with neither marker, the directory is the path's parent |
| FsCommands.ShouldIgnoreExactly | gui-edit/src-tauri/src/commands/fs.rs:71-84 | exactly the nine listed names are ignored |
| FsCommands.CheckRoot | gui-edit/src-tauri/src/commands/fs.rs:95-107 | a root check that passes returns the canonical path |
| FsCommands.ValidatePathMeaning | gui-edit/src-tauri/src/commands/fs.rs:88-108 | validation succeeds exactly when the path canonicalises and, with a root, the root canonicalises and contains it; the errors are NotFound for the path, NotFound for the root, then AccessDenied, in that order |
| FsCommands.ValidatedExists | gui-edit/src-tauri/src/commands/fs.rs:89-93 | on a consistent disk a validated path exists |
| FsCommands.CreateFileNode | gui-edit/src-tauri/src/commands/fs.rs:110-139 | an entry is kept exactly when it is not hidden (except `.env.example`) and not an ignored directory; a kept node has the entry's name, the path `entry.path()` gives (no doubled slash), its kind, no children loaded, and an extension only for a file |
| FsCommands.IgnoredOnlyAsDirectory | gui-edit/src-tauri/src/commands/fs.rs:113-124 | `dist` is dropped as a directory but listed as a file; `.env.example` is listed, `.env` is not |
| FsCommands.KeptNodesFrom | gui-edit/src-tauri/src/commands/fs.rs:163-167 | every node listed comes from an entry of the listing that passes the filter |
| FsCommands.EntryLeTotalPreorder | gui-edit/src-tauri/src/commands/fs.rs:170-174 | the listing order is a total preorder |
| FsCommands.ReadDirectory | gui-edit/src-tauri/src/commands/fs.rs:141-177 | `read_directory` runs its checks, the filtering loop and the sort, with the result the specification gives |
| FsCommands.ReadDirectoryOrder | gui-edit/src-tauri/src/commands/fs.rs:157-176 | a listing has every directory before every file, each kind in case-insensitive name order, is a permutation of exactly the kept entries, and keeps entries of the same kind and lower-cased name in listing order |
| FsCommands.ReadDirectoryErrors | gui-edit/src-tauri/src/commands/fs.rs:146-161 | `read_directory` fails with the validation error, NotADirectory for a file, or the listing's error, and succeeds exactly for a readable directory |
| FsCommands.ReadFileCommand | gui-edit/src-tauri/src/commands/fs.rs:179-195 | `read_file` succeeds exactly for an existing, readable file under the root and returns its text; otherwise the validation error, or NotAFile for a directory |
| FsCommands.WriteFileCommand | gui-edit/src-tauri/src/commands/fs.rs:197-218 | `write_file` succeeds exactly for a validated path, and writes it after creating a missing parent |
| FsCommands.DeletePath | gui-edit/src-tauri/src/commands/fs.rs:262-280 | `delete_path` removes an existing path under the root, a directory with everything below it, and reports NotFound for a validated path that does not exist |
| FsCommands.CreateFileAsWritten | gui-edit/src-tauri/src/commands/fs.rs:220-246 | as written, `create_file` never succeeds: a new path does not canonicalise (NotFound) and an existing one is refused |
| FsCommands.CreateDirectoryAsWritten | gui-edit/src-tauri/src/commands/fs.rs:248-260 | as written, `create_directory` never succeeds either |
| FsCommands.RenamePathAsWritten | gui-edit/src-tauri/src/commands/fs.rs:282-303 | as written, `rename_path` never succeeds: the target must canonicalise, so it exists and is refused |
| FsCommands.ValidateNewExisting | gui-edit/src-tauri/src/commands/fs.rs:88-108 | for an existing path the corrected validation is `validate_path` |
| FsCommands.ResolveNewChild | gui-edit/src-tauri/src/commands/fs.rs:88-93 | a new entry of an existing directory resolves below that directory's canonical form |
| FsCommands.CreateFileFixedMeaning | gui-edit/src-tauri/src/commands/fs.rs:220-246 | corrected `create_file` succeeds exactly for a new path inside the root and writes the content (empty by default) after creating a missing parent; an existing target is FileExists |
| FsCommands.CreateFileInExistingDirectory | gui-edit/src-tauri/src/commands/fs.rs:220-246 | a new file in an existing directory is created |
| FsCommands.CreateDirectoryFixedMeaning | gui-edit/src-tauri/src/commands/fs.rs:248-260 | corrected `create_directory` succeeds exactly for a new path inside the root and creates it with its missing ancestors |
| FsCommands.RenamePathFixedMeaning | gui-edit/src-tauri/src/commands/fs.rs:282-303 | corrected `rename_path` renames an existing source onto a new target, both inside the root |
| DoctorReport.StatusOrder | cli/src/report.rs:4-10 | the derived order is `Ok < Warn < Fail`, strict and total |
| DoctorReport.MakeFinding | cli/src/report.rs:28-36 | `finding` keeps the given fields and starts with no metadata |
| DoctorReport.ExitCode | cli/src/report.rs:60-74 | the exit code is 0, 1 or 2 |
| DoctorReport.ExitCodeCases | cli/src/report.rs:60-74 | 2 for a failure, or for a warning in strict mode; 1 for a warning otherwise; 0 exactly when there is neither |
| DoctorReport.StrictNotLower | cli/src/report.rs:67-68 | strict mode never lowers the exit code |
| DoctorReport.CountStatusPositive | cli/src/report.rs:61-62 | `any` finds a status exactly when its count is positive |
| DoctorReport.CountStatusSum | cli/src/report.rs:4-10 | every finding has exactly one of the three statuses |
| DoctorChecks.Targets | cli/src/checks/mod.rs:16-26 | `All` runs the six checks in order, any other target only itself |
| DoctorChecks.CountsOfSnoc | cli/src/checks/mod.rs:45-48 | counting one more finding adds one to the count of its status |
| DoctorChecks.CountFindings | cli/src/checks/mod.rs:41-48 | the two counting loops give the counts of the findings |
| DoctorChecks.RunChecks | cli/src/checks/mod.rs:13-55 | the report holds the root, the findings of every target of the request in order, and their counts |
| DoctorChecks.CountsShape | cli/src/checks/mod.rs:41-48 | the counts have exactly the keys `ok`, `warn` and `fail`, each the number of findings with that status, together all of them |
| DoctorChecks.FindingsOfAppend | cli/src/checks/mod.rs:29-39 | the findings of two target lists come in list order |
| DoctorChecks.FindingsOfAll | cli/src/checks/mod.rs:17-24 | `All` gives the six checks' findings from `nginx` to `runtime` |
| DoctorWalk.ScanEntry | cli/src/util/walk.rs:22-34 | one entry: a skipped name is passed over, a directory pushed, a file output; nothing outside the root is added and nothing found here is lost |
| DoctorWalk.ScanEntries | cli/src/util/walk.rs:18-35 | the inner loop keeps the cap, adds only files found from the root, and when under the cap leaves every file below the directory either output or still on the stack |
| DoctorWalk.WalkFiles | cli/src/util/walk.rs:4-39 | `walk_files` returns at most `max_files` paths, each a file found from the root along `Path::join`ed paths, and when it returns fewer it returns every such file |
| DoctorWalk.FoundUnder | cli/src/util/walk.rs:8-35 | every path found starts with the root joined to an empty name (the root with a trailing slash) |
| DoctorRepo.FileNameOfChild | cli/src/util/repo.rs:8-11 | the file name of a walked path is the entry's own name |
| DoctorRepo.HasRepoNginxConfig | cli/src/util/repo.rs:5-19 | the walk is capped at 5000 files; the answer is whether any walked file is a `.conf` whose name contains `nginx` or lies below an `nginx` component, and a yes names such a file |
| DoctorRepo.NginxByFileName | cli/src/util/repo.rs:13-15 | a file whose lower-cased name ends in `.conf` and contains `nginx` counts |
| DoctorRepo.NginxByDirectory | cli/src/util/repo.rs:17 | any file joined below a directory called `nginx`, in any case, counts |
| DoctorRepo.HasPm2Ecosystem | cli/src/util/repo.rs:21-30 | the answer is whether one of the five candidates exists at the root |
| DoctorRepo.Pm2OnlyCandidates | cli/src/util/repo.rs:22-29 | only the five candidate paths matter |
| EnvKeys.KeySet | cli/src/util/env.rs:10 | the keys come back as a `BTreeSet` iterates them: strictly ascending |
| EnvKeys.ParseLine | cli/src/util/env.rs:12-21 | the loop body gives the line's key: none for a blank line or a comment, else the trimmed text before the first `=` when it is not empty |
| EnvKeys.ParseEnvKeys | cli/src/util/env.rs:9-24 | `parse_env_keys` inserts the key of every line |
| EnvKeys.KeySetMembers | cli/src/util/env.rs:19 | a key is in the set exactly when some line defines it |
| EnvKeys.EnvKeysMembers | cli/src/util/env.rs:9-24 | a key is in a text's key set exactly when one of its lines defines it |
| EnvKeys.BlankOrCommentNoKey | cli/src/util/env.rs:13-15 | blank lines and comments define no key |
| EnvKeys.AssignmentDefinesKey | cli/src/util/env.rs:16-20 | `key=value` with a clean key defines that key |
| EnvKeys.Difference | cli/src/util/env.rs:6 | `difference` keeps, in ascending order, exactly the elements not in the other set |
| EnvKeys.MissingEnvKeysMembers | cli/src/util/env.rs:3-7 | the missing keys, ascending, are exactly those an example line defines and no actual line does |
| EnvKeys.MissingFromItself | cli/src/util/env.rs:3-7 | a text lacks none of its own keys |
| PostprocessOpenapi.ReplaceOnceAbsent | apps/be/scripts/postprocess-openapi.ts:9-10 | without an occurrence of `from` the source comes back unchanged |
| PostprocessOpenapi.ReplaceOncePresent | apps/be/scripts/postprocess-openapi.ts:9-12 | with an occurrence exactly the first one is replaced by the replacement text with its `$` patterns expanded; what is before and after it is kept; a `$`-free text, as both calls pass, is inserted verbatim |
| PostprocessOpenapi.SubstitutionPlain | apps/be/scripts/postprocess-openapi.ts:11 | `String.prototype.replace` inserts a replacement text without `$` as it is |
| PostprocessOpenapi.ReplaceOnceExpands | apps/be/scripts/postprocess-openapi.ts:11 | `$&`, `$$`, `` $` `` and `$'` expand to the match, a dollar sign, the text before and the text after |
| PostprocessOpenapi.Postprocess | apps/be/scripts/postprocess-openapi.ts:19-50 | the file is written exactly when the rewritten text differs from the original, and then with that text |
| PostprocessOpenapi.ImportBecomesCtor | apps/be/scripts/postprocess-openapi.ts:24-33 | a `form-data` import is replaced by the `FormDataCtor` constant where it stood |
| Ordering.StrLtTotal | gui-edit/src-tauri/src/parser/route_analyzer.rs:312 | string comparison is total |
| Ordering.StrLtTransitive | gui-edit/src-tauri/src/parser/route_analyzer.rs:312 | string comparison is transitive |
| Ordering.SetInsert | cli/src/util/env.rs:19 | `BTreeSet::insert` keeps the set ascending and adds exactly the new key |
| Ordering.SortedUnique | cli/src/util/env.rs:10 | a set has exactly one ascending arrangement |
| Ordering.SortBy | gui-edit/src-tauri/src/parser/route_analyzer.rs:312 | `sort_by` is a permutation |
| Ordering.SortBySorted | gui-edit/src-tauri/src/parser/route_analyzer.rs:312 | `sort_by` with a total preorder sorts |
| Ordering.SortByStable | gui-edit/src-tauri/src/commands/fs.rs:170-174 | `sort_by` is stable: the elements that compare equal to any given one come out in the order they went in |
| Ordering.InsertByStable | gui-edit/src-tauri/src/commands/fs.rs:170-174 | one insertion step puts the new element in front of the equal elements already there and keeps their order |
| JsArrays.RemoveAt | gui-edit/src/stores/editor.ts:119 | `splice(k, 1)` removes exactly the element at `k` |
| JsArrays.InsertAt | gui-edit/src/stores/editor.ts:120 | `splice(k, 0, x)` puts `x` at `k` and shifts the rest by one |
| JsArrays.MoveFacts | gui-edit/src/stores/editor.ts:116-122 | a move permutes the tabs and puts the moved one where it was asked to go |
| JsArrays.MoveInPlace | gui-edit/src/stores/editor.ts:116-122 | a move between two equal places changes nothing |
| JsArrays.MoveAsWrittenOutOfRange | gui-edit/src/stores/editor.ts:116-122 | as written, a `fromIndex` at or past the end grows the tabs by an `undefined` entry |
| JsArrays.MoveAsWrittenInRange | gui-edit/src/stores/editor.ts:116-122 | for an index that names a tab, the move as written is the move |
| JsArrays.WithoutMembers | gui-edit/src/stores/workspace.ts:30 | `filter((p) => p !== x)` keeps exactly the other entries |
| JsArrays.WithoutAppend | gui-edit/src/stores/workspace.ts:30 | the filter keeps the order of what it keeps |
| JsArrays.WithoutCount | gui-edit/src/stores/workspace.ts:30 | no `x` is left |
| JsArrays.WithoutUnchanged | gui-edit/src/stores/workspace.ts:30 | filtering out an absent entry changes nothing |
| EditorStoreModel.Opened | gui-edit/src/stores/editor.ts:41-44 | an opened tab keeps the given fields, and its original content is the content it opens with |
| EditorStoreModel.PathIndex | gui-edit/src/stores/editor.ts:34 | `find` by path gives the first tab with the path, or none |
| EditorStoreModel.IdIndex | gui-edit/src/stores/editor.ts:54 | `findIndex` gives the first tab with the id, or -1 |
| EditorStoreModel.WithoutIdMembers | gui-edit/src/stores/editor.ts:55 | the filter keeps exactly the tabs with another id |
| EditorStoreModel.WithoutUniqueId | gui-edit/src/stores/editor.ts:55 | closing an id only one tab has removes exactly that tab |
| EditorStoreModel.WithoutAbsent | gui-edit/src/stores/editor.ts:55 | closing an id no tab has changes no tab |
| EditorStoreModel.WithoutIdDistinct | gui-edit/src/stores/editor.ts:52-69 | closing keeps the paths of the tabs distinct |
| EditorStoreModel.MoveDistinct | gui-edit/src/stores/editor.ts:116-122 | reordering keeps the paths distinct |
| EditorStoreModel.ClosedActiveRule | gui-edit/src/stores/editor.ts:57-66 | closing a tab other than the active one keeps the active id; closing the only tab leaves none active; closing the last tab activates the one before it, any other the one after it |
| EditorStoreModel.ClosedActiveThrows | gui-edit/src/stores/editor.ts:57-66 | `closeTab` throws (reading `.id` of `undefined`) exactly when the active id is closed, no tab has it, and some tab is open |
| EditorStoreModel.EditorStore.constructor | gui-edit/src/stores/editor.ts:29-30 | the store starts with no tab and none active |
| EditorStoreModel.EditorStore.OpenTab | gui-edit/src/stores/editor.ts:32-50 | an open path is only activated; a new one is appended with its original content and becomes active; paths stay distinct |
| EditorStoreModel.EditorStore.CloseTab | gui-edit/src/stores/editor.ts:52-69 | the tabs with the id go and the active id follows the rule; when the rule throws nothing changes |
| EditorStoreModel.EditorStore.CloseAllTabs | gui-edit/src/stores/editor.ts:71-73 | no tab is left and none is active |
| EditorStoreModel.EditorStore.CloseOtherTabs | gui-edit/src/stores/editor.ts:75-81 | only the first tab with the id is left, and it is active; an absent id changes nothing |
| EditorStoreModel.EditorStore.SetActiveTab | gui-edit/src/stores/editor.ts:83-85 | any id becomes active, whether a tab has it or not |
| EditorStoreModel.EditorStore.UpdateTabContent | gui-edit/src/stores/editor.ts:87-94 | only the content of the tabs with the id changes |
| EditorStoreModel.EditorStore.MarkTabDirty | gui-edit/src/stores/editor.ts:96-103 | only the dirty flag of the tabs with the id changes |
| EditorStoreModel.EditorStore.MarkSaved | gui-edit/src/stores/editor.ts:105-114 | each tab with the id holds the saved text as content and original content and is clean; the others are untouched |
| EditorStoreModel.EditorStore.ReorderTabs | gui-edit/src/stores/editor.ts:116-122 | corrected: a `fromIndex` that names a tab moves it to `toIndex`, a permutation; one that names none leaves the tabs alone |
| UiStoreModel.Clamp | gui-edit/src/stores/ui.ts:61 | `Math.max(lo, Math.min(hi, x))` lies in the range and is `x` when `x` already does |
| UiStoreModel.UiStore.constructor | gui-edit/src/stores/ui.ts:38-45 | the initial layout: sidebar shown on the explorer at 260, panel hidden on the terminal at 200, both overlays closed |
| UiStoreModel.UiStore.ToggleSidebar | gui-edit/src/stores/ui.ts:47-49 | only the sidebar's visibility flips |
| UiStoreModel.UiStore.SetSidebarView | gui-edit/src/stores/ui.ts:51-58 | picking the view already shown hides the sidebar; any other pick shows it on that view |
| UiStoreModel.UiStore.SetSidebarWidth | gui-edit/src/stores/ui.ts:60-62 | the width is clamped to 200..500 |
| UiStoreModel.UiStore.TogglePanel | gui-edit/src/stores/ui.ts:64-66 | only the panel's visibility flips |
| UiStoreModel.UiStore.SetPanelView | gui-edit/src/stores/ui.ts:68-75 | the same toggle rule for the panel |
| UiStoreModel.UiStore.SetPanelHeight | gui-edit/src/stores/ui.ts:77-79 | the height is clamped to 100..500 |
| UiStoreModel.UiStore.OpenCommandPalette | gui-edit/src/stores/ui.ts:81-83 | the palette opens and quick-open closes |
| UiStoreModel.UiStore.CloseCommandPalette | gui-edit/src/stores/ui.ts:85-87 | the palette closes, nothing else changes |
| UiStoreModel.UiStore.OpenQuickOpen | gui-edit/src/stores/ui.ts:89-91 | quick-open opens and the palette closes |
| UiStoreModel.UiStore.CloseQuickOpen | gui-edit/src/stores/ui.ts:93-95 | quick-open closes, nothing else changes |
| ExplorerStoreModel.WithExpanded | gui-edit/src/stores/explorer.ts:44-53 | after `setExpanded` the path is expanded exactly when asked, and no other path changes |
| ExplorerStoreModel.WithExpandedIdempotent | gui-edit/src/stores/explorer.ts:44-53 | setting the same flag twice is setting it once |
| ExplorerStoreModel.Toggled | gui-edit/src/stores/explorer.ts:33-42 | `toggleExpand` flips the path and no other |
| ExplorerStoreModel.ToggledTwice | gui-edit/src/stores/explorer.ts:33-42 | toggling twice restores the set |
| ExplorerStoreModel.UpdateChildren | gui-edit/src/stores/explorer.ts:70-80 | `updateChildren` keeps every node's entry and the shape of the list |
| ExplorerStoreModel.UpdateReplaces | gui-edit/src/stores/explorer.ts:70-80 | after the update every node with the path, at any depth, has the new children |
| ExplorerStoreModel.UpdateAbsent | gui-edit/src/stores/explorer.ts:70-80 | a path that occurs nowhere leaves the tree as it was |
| ExplorerStoreModel.ExplorerStore.constructor | gui-edit/src/stores/explorer.ts:23-27 | no nodes, nothing expanded or selected, not loading, no error |
| ExplorerStoreModel.ExplorerStore.SetRootNodes | gui-edit/src/stores/explorer.ts:29-31 | a fresh listing ends loading and clears the error |
| ExplorerStoreModel.ExplorerStore.ToggleExpand | gui-edit/src/stores/explorer.ts:33-42 | the path changes membership, no other does |
| ExplorerStoreModel.ExplorerStore.SetExpanded | gui-edit/src/stores/explorer.ts:44-53 | the path is expanded exactly when asked, no other changes |
| ExplorerStoreModel.ExplorerStore.SetSelectedPath | gui-edit/src/stores/explorer.ts:55-57 | only the selection changes |
| ExplorerStoreModel.ExplorerStore.SetLoading | gui-edit/src/stores/explorer.ts:59-61 | only the loading flag changes |
| ExplorerStoreModel.ExplorerStore.SetError | gui-edit/src/stores/explorer.ts:63-65 | recording an error, or clearing it, ends loading |
| ExplorerStoreModel.ExplorerStore.SetChildren | gui-edit/src/stores/explorer.ts:67-85 | every node with the path gets the children, an absent path leaves the tree alone, and the path is expanded |
| WorkspaceStoreModel.AddRecent | gui-edit/src/stores/workspace.ts:28-32 | the new list is non-empty, at most ten long, and starts with the project |
| WorkspaceStoreModel.AddRecentOnce | gui-edit/src/stores/workspace.ts:28-32 | after adding a project the list holds it exactly once |
| WorkspaceStoreModel.AddRecentOrder | gui-edit/src/stores/workspace.ts:28-32 | the others follow in their old order, as many as fit in ten |
| WorkspaceStoreModel.AddRecentAgain | gui-edit/src/stores/workspace.ts:28-32 | re-adding the head project of a list without repeats changes nothing |
| WorkspaceStoreModel.WorkspaceStore.constructor | gui-edit/src/stores/workspace.ts:17-19 | no project, no recent projects, dark theme |
| WorkspaceStoreModel.WorkspaceStore.AddRecentProject | gui-edit/src/stores/workspace.ts:28-32 | the recent list becomes the new list; nothing else changes |
| WorkspaceStoreModel.WorkspaceStore.SetProjectPath | gui-edit/src/stores/workspace.ts:21-26 | the project is set; a non-empty path is recorded as recent, `null` or an empty path is not |
| WorkspaceStoreModel.WorkspaceStore.SetTheme | gui-edit/src/stores/workspace.ts:34-45 | only the theme changes |
| ComponentTree.Get | gui-edit/src/stores/component-editor.ts:341 | `props[key]` is missing exactly when no entry has the key |
| ComponentTree.MergeGet | gui-edit/src/stores/component-editor.ts:227 | the spread `{ ...c.props, ...props }`: the new keys win, every other key keeps its old value |
| ComponentTree.FindMeaning | gui-edit/src/stores/component-editor.ts:153-163 | `findComponentRecursive` finds nothing exactly when no node in the tree has the id, and what it finds has the id |
| ComponentTree.FindAppend | gui-edit/src/stores/component-editor.ts:157-162 | the search runs through the list's pieces in order and returns the first hit in pre-order |
| ComponentTree.FindComponent | gui-edit/src/stores/component-editor.ts:153-163 | the loop with its early returns gives the first node with the id in pre-order |
| ComponentTree.NewComponent | gui-edit/src/stores/component-editor.ts:172-179 | a new drop has the definition's kind, name and a copy of its default props, no children, and its parent |
| ComponentTree.AddUnderAbsent | gui-edit/src/stores/component-editor.ts:183-193 | dropping on a parent that is not in the tree leaves the tree as it was |
| ComponentTree.AddUnderIds | gui-edit/src/stores/component-editor.ts:183-193 | dropping on a parent in the tree adds exactly the new node's id |
| ComponentTree.AddUnderFound | gui-edit/src/stores/component-editor.ts:187-192 | the new node becomes the last child of the first node with the parent's id |
| ComponentTree.AddToParent | gui-edit/src/stores/component-editor.ts:183-193 | `addToParent` appends at the root for no parent, leaves the tree as it was for a parent not in it, and otherwise makes the new node the last child of the first node with the parent's id |
| ComponentTree.RemoveIds | gui-edit/src/stores/component-editor.ts:205-212 | `removeFromTree` leaves no node with the id and adds no id |
| ComponentTree.RemoveAbsent | gui-edit/src/stores/component-editor.ts:205-212 | removing an id that is not in the tree changes nothing |
| ComponentTree.RemoveKeepsOthers | gui-edit/src/stores/component-editor.ts:205-212 | every root entry with another id stays |
| ComponentTree.UpdateProps | gui-edit/src/stores/component-editor.ts:224-231 | `updateInTree` keeps the shape of each list |
| ComponentTree.UpdatePropsFind | gui-edit/src/stores/component-editor.ts:224-231 | after an update the node found for the id carries the merged props, and every other id finds a node with its props unchanged |
| ComponentTree.UpdatePropsAbsent | gui-edit/src/stores/component-editor.ts:224-231 | an id that is not in the tree leaves it as it was |
| ComponentTree.UpdatePropsIds | gui-edit/src/stores/component-editor.ts:224-231 | an update keeps the ids |
| ComponentTree.FindInserted | gui-edit/src/stores/component-editor.ts:264-265 | a node spliced in whose id the tree lacked is what the search finds |
| ComponentTree.AddAtUnderFound | gui-edit/src/stores/component-editor.ts:268-275 | a node spliced under a parent in the tree is found with that parent as its `parentId` |
| ComponentTree.AddAtUnderAbsent | gui-edit/src/stores/component-editor.ts:268-275 | splicing under a parent that is not in the tree changes nothing |
| ComponentTree.MoveAbsent | gui-edit/src/stores/component-editor.ts:248-249 | moving an id that is not in the tree changes nothing |
| ComponentTree.MoveFound | gui-edit/src/stores/component-editor.ts:245-280 | after a move to the root, or under a parent still in the tree, the id finds the moved node with its new `parentId` |
| ComponentTree.MoveToMissingParent | gui-edit/src/stores/component-editor.ts:262-278 | a move under a parent that is gone after the removal (the node's own subtree, or an unknown id) drops the node and its subtree |
| ComponentCodegen.ReplaceAllAppend | gui-edit/src/stores/component-editor.ts:300-304 | a global one-character replacement works piece by piece |
| ComponentCodegen.EscapeChar | gui-edit/src/stores/component-editor.ts:298-305 | the escape of one character is non-empty and has no line break |
| ComponentCodegen.EscapeJsxAppend | gui-edit/src/stores/component-editor.ts:298-305 | `escapeJSXString` works piece by piece |
| ComponentCodegen.EscapeJsxChar | gui-edit/src/stores/component-editor.ts:298-305 | on one character the chained replacements give that character's escape |
| ComponentCodegen.EscapeJsxEach | gui-edit/src/stores/component-editor.ts:298-305 | the chain escapes each character on its own: the backslashes added later are never escaped again |
| ComponentCodegen.EscapeRoundTrip | gui-edit/src/stores/component-editor.ts:298-305 | escaping loses nothing: the escaped text reads back as the original, and it has no line break |
| ComponentCodegen.FormatPropValue | gui-edit/src/stores/component-editor.ts:308-326 | undefined, null, `""` and false are dropped; true is the bare key; a string is `key="…"` escaped; anything else is `key={…}` |
| ComponentCodegen.AttributesAppend | gui-edit/src/stores/component-editor.ts:334-337 | the attribute list is built entry by entry, in `Object.entries` order |
| ComponentCodegen.AttributesIgnoreChildren | gui-edit/src/stores/component-editor.ts:335 | the `children` prop never becomes an attribute: setting it leaves the attributes unchanged |
| ComponentCodegen.TagName | gui-edit/src/stores/component-editor.ts:359-385 | `getTagName` gives a non-empty tag without slash or line break, `div` for an unknown kind |
| ComponentCodegen.Spaces | gui-edit/src/stores/component-editor.ts:330 | `"  ".repeat(indent)` is `2 * indent` spaces |
| ComponentCodegen.Elements | gui-edit/src/stores/component-editor.ts:332-355 | one element per component |
| ComponentCodegen.SelfClosing | gui-edit/src/stores/component-editor.ts:346-354 | an element closes itself exactly when it has neither nested children nor a truthy text |
| ComponentCodegen.ElementIndented | gui-edit/src/stores/component-editor.ts:329-357 | in a tree without line breaks in its props, each element starts at its level, what it nests sits one level deeper, and it ends in `>` |
| ComponentCodegen.GenerateIndented | gui-edit/src/stores/component-editor.ts:329-357 | the code of a non-empty such list is indented at its level, line by line |
| ComponentEditorModel.NewComponentGenerable | gui-edit/src/stores/component-editor.ts:45-146 | a fresh drop of a palette definition can be turned into code, and is indented line by line when its props have no line breaks |
| ComponentEditorModel.ComponentEditor.constructor | gui-edit/src/stores/component-editor.ts:165-169 | an empty canvas with nothing selected or hovered |
| ComponentEditorModel.ComponentEditor.AddComponent | gui-edit/src/stores/component-editor.ts:171-200 | the new node goes to the end of the root or as the last child of the first node with the parent id, and is selected; an unknown parent leaves the tree alone; exactly its id is added |
| ComponentEditorModel.ComponentEditor.RemoveComponent | gui-edit/src/stores/component-editor.ts:202-219 | every node with the id goes with its subtree; the selection is cleared exactly when it was that id |
| ComponentEditorModel.ComponentEditor.UpdateComponentProps | gui-edit/src/stores/component-editor.ts:221-235 | the node for the id gets the new props merged over its own; every other id finds its node unchanged |
| ComponentEditorModel.ComponentEditor.SelectComponent | gui-edit/src/stores/component-editor.ts:237-239 | only the selection changes |
| ComponentEditorModel.ComponentEditor.SetHoveredComponent | gui-edit/src/stores/component-editor.ts:241-243 | only the hovered id changes |
| ComponentEditorModel.ComponentEditor.MoveComponent | gui-edit/src/stores/component-editor.ts:245-280 | an unknown id changes nothing; otherwise the node is taken out and spliced in under its new parent (or the root) with its new `parentId`, and a parent that is gone after the removal drops it |
| ComponentEditorModel.ComponentEditor.ClearCanvas | gui-edit/src/stores/component-editor.ts:282-284 | no components and no selection; the hovered id stays |
| ComponentEditorModel.ComponentEditor.SetComponents | gui-edit/src/stores/component-editor.ts:286-288 | only the components change |
| ComponentEditorModel.ComponentEditor.GetComponentById | gui-edit/src/stores/component-editor.ts:291-294 | the first node with the id in pre-order, none exactly when no node has it |
| CodePreviewModel.ImportLine | gui-edit/src/components/visual-editor/CodePreview.tsx:20-36 | exactly the five kinds `button`, `input`, `textarea`, `badge` and `separator` have an import line |
| CodePreviewModel.ImportsKnown | gui-edit/src/components/visual-editor/CodePreview.tsx:18-39 | only those lines are collected |
| CodePreviewModel.ImportsCover | gui-edit/src/components/visual-editor/CodePreview.tsx:18-39 | every node at any depth is visited: its kind's import line is collected |
| CodePreviewModel.SetAdd | gui-edit/src/components/visual-editor/CodePreview.tsx:22 | `Set.add` keeps the set's elements in their order and adds the value once |
| CodePreviewModel.CollectImports | gui-edit/src/components/visual-editor/CodePreview.tsx:18-39 | `collectImports` adds every line of the tree, each once, after the lines already in the set |
| CodePreviewModel.ModuleText | gui-edit/src/components/visual-editor/CodePreview.tsx:11-13 | an empty canvas shows the placeholder comment |
| CodePreviewModel.ImportLinesSorted | gui-edit/src/components/visual-editor/CodePreview.tsx:43 | the import lines are sorted, each appears once, and they are exactly the lines of the kinds used |
| CodePreviewModel.ImportsTextEmpty | gui-edit/src/components/visual-editor/CodePreview.tsx:43 | the import block is empty exactly when no node needs an import |
| CodePreviewModel.ModuleLayout | gui-edit/src/components/visual-editor/CodePreview.tsx:43-50 | the text is the import block, a blank line exactly when there are imports, and the component wrapping the generated elements |
| CodePreviewModel.GeneratedCode | gui-edit/src/components/visual-editor/CodePreview.tsx:10-51 | `generatedCode` as computed by filling the set, then sorting and joining it |
| NewRouteDialogModel.UrlToFilePath | gui-edit/src/components/routes/NewRouteDialog.tsx:54-79 | the root path and the empty path, and every path without segments, are stored as `index.ts` |
| NewRouteDialogModel.DoubleSlashAsWritten | gui-edit/src/components/routes/NewRouteDialog.tsx:59-67 | as written, `//` passes the root check, leaves no segments and fails on the missing last part; the corrected mapping gives `index.ts` |
| NewRouteDialogModel.AsWrittenAgrees | gui-edit/src/components/routes/NewRouteDialog.tsx:59-67 | the written mapping fails exactly on the segment-less paths other than `/` and the empty path, and agrees with the corrected mapping on every other path |
| NewRouteDialogModel.PartsOfJoin | gui-edit/src/components/routes/NewRouteDialog.tsx:63-64 | splitting `/` plus segments joined by `/` and dropping empty pieces gives back those segments, and the file is read off them |
| NewRouteDialogModel.FileOfParam | gui-edit/src/components/routes/NewRouteDialog.tsx:67-71 | a last segment `:p` is replaced by `[p]` and the segments joined with `.ts` appended |
| NewRouteDialogModel.ParamLast | gui-edit/src/components/routes/NewRouteDialog.tsx:67-71 | `/a/b/:p` is stored as `a/b/[p].ts` |
| NewRouteDialogModel.BracketLast | gui-edit/src/components/routes/NewRouteDialog.tsx:72-74 | a last segment already in brackets keeps the joined segments and only gains `.ts` |
| NewRouteDialogModel.PlainLast | gui-edit/src/components/routes/NewRouteDialog.tsx:75-77 | any other last segment names a directory holding `index.ts` |
| NewRouteDialogModel.StatementBlock | gui-edit/src/components/routes/NewRouteDialog.tsx:26 | a statement ending in `;` followed by an empty line is a block, as every section of the module is |
| NewRouteDialogModel.BlockAfter | gui-edit/src/components/routes/NewRouteDialog.tsx:22-49 | text followed by a block ends as a block |
| NewRouteDialogModel.PrefixKept | gui-edit/src/components/routes/NewRouteDialog.tsx:22-49 | appending to the module keeps what was written before |
| NewRouteDialogModel.LastKept | gui-edit/src/components/routes/NewRouteDialog.tsx:22-49 | appending a non-empty piece makes its last character the module's last |
| NewRouteDialogModel.PreludeBlock | gui-edit/src/components/routes/NewRouteDialog.tsx:19 | the prelude is the `Elysia` type import followed by an empty line |
| NewRouteDialogModel.TagFirstSegment | gui-edit/src/components/routes/NewRouteDialog.tsx:24 | the options tag of `/seg` or `/seg/...` is the first segment |
| NewRouteDialogModel.TagDefault | gui-edit/src/components/routes/NewRouteDialog.tsx:24 | a path without a slash, or the root, is tagged `api` |
| NewRouteDialogModel.OptionsStatement | gui-edit/src/components/routes/NewRouteDialog.tsx:23-26 | the options object statement ends with `;` |
| NewRouteDialogModel.OptionsBlock | gui-edit/src/components/routes/NewRouteDialog.tsx:23-26 | the options section is a block |
| NewRouteDialogModel.FormOf | gui-edit/src/components/routes/NewRouteDialog.tsx:33-48 | the params callback exactly for a path with `[` or `:`, the body callback exactly for POST, PUT and PATCH otherwise, the plain one for the rest |
| NewRouteDialogModel.HandlerStatement | gui-edit/src/components/routes/NewRouteDialog.tsx:31-47 | each handler is `export const <lowercased method>` and ends with `;` |
| NewRouteDialogModel.Handler | gui-edit/src/components/routes/NewRouteDialog.tsx:31-47 | each handler section is a block headed by the lowercased method's export |
| NewRouteDialogModel.Map | gui-edit/src/components/routes/NewRouteDialog.tsx:30-49 | one piece per method, each the function of its method |
| NewRouteDialogModel.MapAppend | gui-edit/src/components/routes/NewRouteDialog.tsx:30-49 | mapping a concatenation is concatenating the mapped parts |
| NewRouteDialogModel.ConcatAppend | gui-edit/src/components/routes/NewRouteDialog.tsx:30-49 | writing two lists of pieces one after the other is writing their concatenation |
| NewRouteDialogModel.ConcatBlock | gui-edit/src/components/routes/NewRouteDialog.tsx:30-49 | blocks written in sequence end as a block when the last does |
| NewRouteDialogModel.Handlers | gui-edit/src/components/routes/NewRouteDialog.tsx:30-49 | no methods give no handlers; otherwise the handlers end as a block |
| NewRouteDialogModel.HandlersSplit | gui-edit/src/components/routes/NewRouteDialog.tsx:30-49 | each method's handler sits between those of the methods before and after it, in the given order |
| NewRouteDialogModel.HandlersAppend | gui-edit/src/components/routes/NewRouteDialog.tsx:30-49 | the handlers of two method lists are written one after the other |
| NewRouteDialogModel.HandlersConcat | gui-edit/src/components/routes/NewRouteDialog.tsx:30-49 | the handlers are the concatenation of each method's handler |
| NewRouteDialogModel.HandlersOne | gui-edit/src/components/routes/NewRouteDialog.tsx:30-49 | one method gives exactly its handler |
| NewRouteDialogModel.AppendHandlers | gui-edit/src/components/routes/NewRouteDialog.tsx:30-49 | the loop appends each method's handler in order to what was written before |
| NewRouteDialogModel.AppendStep | gui-edit/src/components/routes/NewRouteDialog.tsx:30-49 | one turn of the loop appends the next method's handler after those before it |
| NewRouteDialogModel.GenerateRouteCode | gui-edit/src/components/routes/NewRouteDialog.tsx:15-52 | the code built step by step equals the route module function: prelude, options when some method is chosen, handlers, trimmed, one newline |
| NewRouteDialogModel.TrimBlock | gui-edit/src/components/routes/NewRouteDialog.tsx:51 | trimming the module and adding a newline drops exactly one of its two final newlines and keeps its start |
| NewRouteDialogModel.TrimEndBlock | gui-edit/src/components/routes/NewRouteDialog.tsx:51 | trimming a block's end strips its empty line and stops at `;` |
| NewRouteDialogModel.TrimEndSpace | gui-edit/src/components/routes/NewRouteDialog.tsx:51 | trailing whitespace is dropped one character at a time |
| NewRouteDialogModel.TrimEndKept | gui-edit/src/components/routes/NewRouteDialog.tsx:51 | a text ending in a non-space is kept by trimming its end |
| NewRouteDialogModel.PreludeThen | gui-edit/src/components/routes/NewRouteDialog.tsx:19-49 | prelude, options and handlers together form a block starting with the import, with the handlers after the options |
| NewRouteDialogModel.RawCodeLayout | gui-edit/src/components/routes/NewRouteDialog.tsx:19-49 | the untrimmed module starts with the prelude; with no methods it is only the prelude, otherwise the options block follows |
| NewRouteDialogModel.RouteCodeEnds | gui-edit/src/components/routes/NewRouteDialog.tsx:51 | the module starts with the `Elysia` import and ends with `;` and exactly one newline |
| NewRouteDialogModel.OptionsIffMethods | gui-edit/src/components/routes/NewRouteDialog.tsx:16-27 | the options block follows the prelude exactly when at least one method is chosen |
| NewRouteDialogModel.ToggleMethod | gui-edit/src/components/routes/NewRouteDialog.tsx:87-91 | toggling puts the method in the choice exactly when it was not there, and leaves every other method's membership alone |
| NewRouteDialogModel.ToggleBack | gui-edit/src/components/routes/NewRouteDialog.tsx:87-91 | choosing a method and unchoosing it restores the choice |
| NewRouteDialogModel.WithoutNoRepeats | gui-edit/src/components/routes/NewRouteDialog.tsx:89 | filtering out a method keeps a repeat-free choice repeat-free |
| NewRouteDialogModel.ToggleKeepsChoice | gui-edit/src/components/routes/NewRouteDialog.tsx:13-91 | toggling an offered method keeps the choice repeat-free and among the offered methods |
| NewRouteDialogModel.FailureMessage | gui-edit/src/components/routes/NewRouteDialog.tsx:114 | an `Error`'s message, or `Failed to create route` for anything else thrown |
| NewRouteDialogModel.Submission | gui-edit/src/components/routes/NewRouteDialog.tsx:93-107 | corrected: nothing is written exactly when the path is blank or no method is chosen; otherwise the route module for the methods at the routes directory plus the file the corrected `urlToFilePath` gives |
| NewRouteDialogModel.MakeRequest | gui-edit/src/components/routes/NewRouteDialog.tsx:96-107 | corrected: the checked request the handler builds is the submission, with the corrected `urlToFilePath` |
| NewRouteDialogModel.NewRouteDialog.constructor | gui-edit/src/components/routes/NewRouteDialog.tsx:82-85 | the form starts at `/` with GET chosen, not creating, with no error |
| NewRouteDialogModel.NewRouteDialog.SetUrlPath | gui-edit/src/components/routes/NewRouteDialog.tsx:82 | only the path changes |
| NewRouteDialogModel.NewRouteDialog.ToggleSelectedMethod | gui-edit/src/components/routes/NewRouteDialog.tsx:87-91 | the choice becomes its toggle and nothing else changes |
| NewRouteDialogModel.NewRouteDialog.HandleCreate | gui-edit/src/components/routes/NewRouteDialog.tsx:96-118 | corrected (file path from the corrected `urlToFilePath`): writes the submission; an incomplete form shows the required message; success closes and resets the form; a failure shows its message and keeps the form; creating ends |
| NewRouteDialogModel.NewRouteDialog.Respond | gui-edit/src/components/routes/NewRouteDialog.tsx:97-117 | the state after the check and the write: the required message, or the closed fresh form, or the failure message |
| SearchPanelModel.Toggled | gui-edit/src/components/search/SearchPanel.tsx:93-103 | the toggled file is expanded exactly when it was collapsed; every other file keeps its state |
| SearchPanelModel.ToggledTwice | gui-edit/src/components/search/SearchPanel.tsx:93-103 | toggling a file twice restores the expanded set |
| SearchPanelModel.KeySet | gui-edit/src/components/search/SearchPanel.tsx:70 | the set holds exactly the keys of the grouped record |
| SearchPanelModel.RelativeToProject | gui-edit/src/components/search/SearchPanel.tsx:126-129 | without a project (or with an empty one) the path is shown as it is |
| SearchPanelModel.RelativeToProjectUnder | gui-edit/src/components/search/SearchPanel.tsx:126-129 | a path under the project is shown relative to it |
| SearchPanelModel.HighlightRejoins | gui-edit/src/components/search/SearchPanel.tsx:131-143 | the three slices rejoin to the text, and the marked one is the text between the offsets |
| SearchPanelModel.ShownAsWrittenMisplaced | gui-edit/src/components/search/SearchPanel.tsx:243-245 | as written, a match in an indented line is marked at its offsets in the trimmed line, so the marked text is not the match |
| SearchPanelModel.ShownAsWrittenTrimmed | gui-edit/src/components/search/SearchPanel.tsx:244 | as written, the highlight is cut from the trimmed line at the untrimmed offsets |
| SearchPanelModel.TrimmedPadded | gui-edit/src/components/search/SearchPanel.tsx:244 | trimming an indented word leaves the word |
| SearchPanelModel.ShownMarksMatch | gui-edit/src/components/search/SearchPanel.tsx:243-246 | the corrected row marks exactly the matched text, and the parts rejoin to the trimmed line |
| SearchPanelModel.GroupByFile | gui-edit/src/components/search/SearchPanel.tsx:59-70 | the loop groups the results by file in first-seen order and expands every file |
| SearchPanelModel.SearchPanel.constructor | gui-edit/src/components/search/SearchPanel.tsx:34-40 | empty query, both options off, no results, nothing expanded, not searching |
| SearchPanelModel.SearchPanel.SetQuery | gui-edit/src/components/search/SearchPanel.tsx:154 | only the query changes |
| SearchPanelModel.SearchPanel.SetOptions | gui-edit/src/components/search/SearchPanel.tsx:172-185 | only the regex and case options change |
| SearchPanelModel.SearchPanel.DoSearch | gui-edit/src/components/search/SearchPanel.tsx:45-76 | a search is asked for exactly when the query is not blank and a project is open, with the query and options; an answer replaces the results, the grouping and the expanded set; a failure or no search keeps them; searching ends |
| SearchPanelModel.SearchPanel.StoreResults | gui-edit/src/components/search/SearchPanel.tsx:57-70 | the results, their grouping by file and the set of every file are stored |
| SearchPanelModel.SearchPanel.QueryChanged | gui-edit/src/components/search/SearchPanel.tsx:78-91 | a blank query clears the results and grouping without searching; any other query searches when a project is open |
| SearchPanelModel.SearchPanel.ToggleFile | gui-edit/src/components/search/SearchPanel.tsx:93-103 | the expanded set becomes its toggle and nothing else changes |
| SearchPanelModel.SearchGroups | gui-edit/src/components/search/SearchPanel.tsx:59-70 | the groups have distinct files, each holds exactly the results of its file, together they hold every result once, and every result's file is expanded |
| SearchPanelModel.FileName | gui-edit/src/components/search/SearchPanel.tsx:108 | the tab name is empty only for an empty path |
| SearchPanelModel.FileNameLast | gui-edit/src/components/search/SearchPanel.tsx:108 | the tab name of `dir/name` is `name` |
| SearchPanelModel.OpenResult | gui-edit/src/components/search/SearchPanel.tsx:105-124 | a read that succeeds opens the file (or activates its open tab) under its path, named by its last segment, with the language of its extension; a failed read changes nothing |
| QuickOpenModel.LanguageOf | gui-edit/src/components/command-palette/QuickOpen.tsx:34-53 | a known extension gives its language and every other extension `plaintext` |
| QuickOpenModel.ExtAfterLastDot | gui-edit/src/components/command-palette/QuickOpen.tsx:108 | the extension is the text after the last dot |
| QuickOpenModel.ExtWithoutDot | gui-edit/src/components/command-palette/QuickOpen.tsx:108 | a name without a dot is its own extension |
| QuickOpenModel.RelativePathUnder | gui-edit/src/components/command-palette/QuickOpen.tsx:60 | a path under the project loses exactly the project prefix and its slash |
| QuickOpenModel.RelativePathOutside | gui-edit/src/components/command-palette/QuickOpen.tsx:60 | a path not containing the project prefix is kept |
| QuickOpenModel.PreorderCons | gui-edit/src/components/command-palette/QuickOpen.tsx:58-72 | the traversal visits a node, then its subtree, then the nodes after it |
| QuickOpenModel.FileEntriesAppend | gui-edit/src/components/command-palette/QuickOpen.tsx:58-66 | the entries of two node lists are listed one after the other |
| QuickOpenModel.FlatCons | gui-edit/src/components/command-palette/QuickOpen.tsx:58-72 | the entries of a forest: the first node's own entry when it is a file, its children's entries, then the rest |
| QuickOpenModel.FlatIsPreorder | gui-edit/src/components/command-palette/QuickOpen.tsx:55-79 | the flattened list is exactly the file entries of the nodes taken in pre-order |
| QuickOpenModel.FileEntriesMembers | gui-edit/src/components/command-palette/QuickOpen.tsx:59-66 | the entries are exactly those of the nodes that are not directories |
| QuickOpenModel.PreorderClosed | gui-edit/src/components/command-palette/QuickOpen.tsx:67-76 | the traversal reaches every root and every listed child of every node it reaches |
| QuickOpenModel.TraverseStep | gui-edit/src/components/command-palette/QuickOpen.tsx:58-72 | one node's entry and its children's go before the entries of the nodes after it |
| QuickOpenModel.Traverse | gui-edit/src/components/command-palette/QuickOpen.tsx:58-72 | traversing pushes every file entry of the subtrees in pre-order after what was there |
| QuickOpenModel.FlattenFiles | gui-edit/src/components/command-palette/QuickOpen.tsx:55-79 | the result is the file entries of the tree in pre-order |
| QuickOpenModel.AllFiles | gui-edit/src/components/command-palette/QuickOpen.tsx:88-91 | no files are listed without a project |
| QuickOpenModel.AllFilesMembers | gui-edit/src/components/command-palette/QuickOpen.tsx:88-91 | with a project, every file of the tree and nothing else is listed |
| QuickOpenModel.Take20 | gui-edit/src/components/command-palette/QuickOpen.tsx:94-98 | at most the first twenty entries, all of them when there are no more |
| QuickOpenModel.Matching | gui-edit/src/components/command-palette/QuickOpen.tsx:96-97 | filtering never lengthens the list |
| QuickOpenModel.MatchingMembers | gui-edit/src/components/command-palette/QuickOpen.tsx:95-97 | an entry is kept exactly when its lowercased relative path contains the lowercased search |
| QuickOpenModel.MatchingAppend | gui-edit/src/components/command-palette/QuickOpen.tsx:96-97 | filtering a concatenation is concatenating the filtered parts |
| QuickOpenModel.FilteredFilesMeaning | gui-edit/src/components/command-palette/QuickOpen.tsx:93-99 | at most twenty entries; with no search the first files; otherwise a prefix of the matches, every one a match, and all the matches when there are at most twenty |
| QuickOpenModel.MatchingKeepsOrder | gui-edit/src/components/command-palette/QuickOpen.tsx:96-97 | the matches of a longer list start with the matches of its beginning |
| QuickOpenModel.FindFile | gui-edit/src/components/command-palette/QuickOpen.tsx:103 | the found entry has the path; none exactly when no entry has it |
| QuickOpenModel.TabFor | gui-edit/src/components/command-palette/QuickOpen.tsx:109-116 | the tab uses the path as id and path, the file's name, the content read, the extension's language, not dirty |
| QuickOpenModel.HandleSelect | gui-edit/src/components/command-palette/QuickOpen.tsx:101-123 | an unknown path or a failed read changes nothing; otherwise the file opens in a tab (or its open tab becomes active) and the dialog closes |
| QuickOpenModel.HandleKeyDown | gui-edit/src/components/command-palette/QuickOpen.tsx:126-135 | Escape closes the open dialog and nothing else changes |
| CommandPaletteModel.Keep | gui-edit/src/components/command-palette/CommandPalette.tsx:179-183 | filtering never lengthens the command list |
| CommandPaletteModel.KeepMembers | gui-edit/src/components/command-palette/CommandPalette.tsx:179-183 | a command is kept exactly when its lowercased title or category contains the lowercased search |
| CommandPaletteModel.KeepAppend | gui-edit/src/components/command-palette/CommandPalette.tsx:179-183 | filtering keeps the commands' order |
| CommandPaletteModel.KeepEmpty | gui-edit/src/components/command-palette/CommandPalette.tsx:176-184 | the empty search keeps every command, so its shortcut returns what filtering would |
| CommandPaletteModel.FilteredIgnoresCase | gui-edit/src/components/command-palette/CommandPalette.tsx:176-184 | a search and its lowercase pick the same commands |
| CommandPaletteModel.FilteredMeaning | gui-edit/src/components/command-palette/CommandPalette.tsx:176-184 | the commands shown are exactly those matching the lowercased search, in their order |
| CommandPaletteModel.GroupCommands | gui-edit/src/components/command-palette/CommandPalette.tsx:187-196 | the loop groups the shown commands by category in first-seen order: distinct categories, each group exactly its category's commands, every command once |
| CommandPaletteModel.FindCommand | gui-edit/src/components/command-palette/CommandPalette.tsx:200 | the found command has the id; none exactly when no command has it |
| CommandPaletteModel.ActiveTab | gui-edit/src/components/command-palette/CommandPalette.tsx:42 | the active tab has the active id; none exactly when no id is active or no tab has it |
| CommandPaletteModel.SaveTarget | gui-edit/src/components/command-palette/CommandPalette.tsx:45 | a save writes the active tab exactly when it has unsaved changes |
| CommandPaletteModel.SaveCurrentFile | gui-edit/src/components/command-palette/CommandPalette.tsx:44-52 | writes the dirty active tab's path and content; a successful write marks exactly that tab saved with that content, after which nothing is left to save; otherwise the tabs are unchanged |
| CommandPaletteModel.RunAction | gui-edit/src/components/command-palette/CommandPalette.tsx:54-173 | each command's action: the sidebar and panel toggles, the sidebar view with its toggle rule, a panel view that also shows the panel, the save, and settings doing nothing |
| CommandPaletteModel.HandleSelect | gui-edit/src/components/command-palette/CommandPalette.tsx:198-207 | an unknown id changes nothing; a known one runs its command's action and closes the palette |
| CommandPaletteModel.HandleKeyDown | gui-edit/src/components/command-palette/CommandPalette.tsx:210-219 | Escape closes the open palette; nothing else changes |
| ApiTesterModel.Apply | gui-edit/src/components/routes/ApiTester.tsx:51-55 | the named field of the row takes the new value and the other two fields are kept |
| ApiTesterModel.HeaderMapKeys | gui-edit/src/components/routes/ApiTester.tsx:65-70 | the request headers have exactly the keys of the enabled rows with a non-empty key |
| ApiTesterModel.HeaderMapLastWins | gui-edit/src/components/routes/ApiTester.tsx:65-70 | for a repeated key the value of the last such row is sent |
| ApiTesterModel.RequestHeaders | gui-edit/src/components/routes/ApiTester.tsx:65-70 | the `forEach` builds the request headers of the rows |
| ApiTesterModel.RequestBody | gui-edit/src/components/routes/ApiTester.tsx:77-79 | the body is sent exactly for a method other than GET and HEAD with a non-empty body, and then unchanged |
| ApiTesterModel.StatusColor | gui-edit/src/components/routes/ApiTester.tsx:231-235 | green exactly for 2xx, red exactly from 400 on, yellow exactly for the rest |
| ApiTesterModel.ApiTester.constructor | gui-edit/src/components/routes/ApiTester.tsx:25-41 | GET on `http://localhost:8000/`, one enabled JSON content-type row, empty body, no response, not loading, no error |
| ApiTesterModel.ApiTester.AddHeader | gui-edit/src/components/routes/ApiTester.tsx:43-45 | one enabled empty row is added at the end and nothing else changes |
| ApiTesterModel.ApiTester.RemoveHeader | gui-edit/src/components/routes/ApiTester.tsx:47-49 | exactly the row at the index goes; an index outside the rows changes nothing |
| ApiTesterModel.ApiTester.UpdateHeader | gui-edit/src/components/routes/ApiTester.tsx:51-55 | only the named field of the row at the index changes |
| ApiTesterModel.ApiTester.SetMethod | gui-edit/src/components/routes/ApiTester.tsx:111 | only the method changes |
| ApiTesterModel.ApiTester.SetUrl | gui-edit/src/components/routes/ApiTester.tsx:127 | only the URL changes |
| ApiTesterModel.ApiTester.SetBody | gui-edit/src/components/routes/ApiTester.tsx:214 | only the body changes |
| ApiTesterModel.ApiTester.SendRequest | gui-edit/src/components/routes/ApiTester.tsx:57-103 | the request carries the method, the URL, the sent headers and the body when it goes; a response replaces the previous one with no error, a throw leaves no response and its message (or `Request failed`); loading ends; the form is unchanged |
| Grouping.Keys | gui-edit/src/components/command-palette/CommandPalette.tsx:188-195 | at most one key per element |
| Grouping.WithKey | gui-edit/src/components/command-palette/CommandPalette.tsx:188-195 | a key's group is no longer than the list |
| Grouping.KeysMeaning | gui-edit/src/components/command-palette/CommandPalette.tsx:188-195 | the record's keys are distinct and are exactly the keys of the elements |
| Grouping.WithKeyMembers | gui-edit/src/components/command-palette/CommandPalette.tsx:190-193 | a key's group holds exactly the elements with that key, and nothing for a key no element has |
| Grouping.GroupIndex | gui-edit/src/components/command-palette/CommandPalette.tsx:190 | the lookup `groups[k]` finds the group with the key, or reports that none has it |
| Grouping.KeysSnoc | gui-edit/src/components/command-palette/CommandPalette.tsx:189-194 | a new element adds its key at the end exactly when the key is new |
| Grouping.WithKeySnoc | gui-edit/src/components/command-palette/CommandPalette.tsx:193 | a new element joins the end of its key's group only |
| Grouping.GroupedSnoc | gui-edit/src/components/command-palette/CommandPalette.tsx:189-194 | one turn of the loop: the record of a longer list is the record with the element pushed onto its key's group, opened at the end when new |
| Grouping.GroupedSnocOld | gui-edit/src/components/command-palette/CommandPalette.tsx:193 | an element whose key has a group joins the end of that group |
| Grouping.GroupedSnocNew | gui-edit/src/components/command-palette/CommandPalette.tsx:190-193 | an element with a new key opens a group of one at the end |
| Grouping.GroupBy | gui-edit/src/components/command-palette/CommandPalette.tsx:187-196 | the loop builds exactly the grouped record |
| Grouping.TotalUpdate | gui-edit/src/components/command-palette/CommandPalette.tsx:193 | replacing one group changes the element count by the difference of the two groups |
| Grouping.GroupedTotal | gui-edit/src/components/command-palette/CommandPalette.tsx:187-196 | the groups hold as many elements as the list |
| Grouping.GroupedMeaning | gui-edit/src/components/command-palette/CommandPalette.tsx:187-196 | distinct keys, each group exactly the elements with its key, every element's key has a group |
| Grouping.WithKeyAppend | gui-edit/src/components/command-palette/CommandPalette.tsx:189-194 | each group keeps the list's order, and a longer list only adds to the end of each group |
| ManifestForms.ErrorText | gui-edit/src/components/manifest/CargoTomlEditor.tsx:164 | an `Error`'s message, or the fallback text for anything else thrown |
| ManifestForms.AddForm.constructor | gui-edit/src/components/manifest/CargoTomlEditor.tsx:103-104 | the form starts with an empty name and the editor's default version |
| ManifestForms.AddForm.SetName | gui-edit/src/components/manifest/CargoTomlEditor.tsx:120 | only the name changes |
| ManifestForms.AddForm.SetVersion | gui-edit/src/components/manifest/CargoTomlEditor.tsx:128 | only the version changes |
| ManifestForms.AddForm.Submit | gui-edit/src/components/manifest/CargoTomlEditor.tsx:106-113 | a blank name adds nothing and keeps the fields; otherwise the trimmed name, which is then non-empty and unpadded, is added with the version and both fields start over |
| CargoTomlEditorModel.ParseDependency | gui-edit/src/components/manifest/CargoTomlEditor.tsx:18-23 | a plain version string becomes that version with no features; a table is taken as it is |
| CargoTomlEditorModel.Stored | gui-edit/src/components/manifest/CargoTomlEditor.tsx:203-207 | the stored entry is a table exactly when some features are given |
| CargoTomlEditorModel.ParseStored | gui-edit/src/components/manifest/CargoTomlEditor.tsx:18-23 | reading back a stored entry gives its version and its features |
| CargoTomlEditorModel.StoredOfParsed | gui-edit/src/components/manifest/CargoTomlEditor.tsx:196-207 | an entry in the stored form is written again unchanged from its own version and features |
| CargoTomlEditorModel.EditsKeepEachOther | gui-edit/src/components/manifest/CargoTomlEditor.tsx:356-363 | a version edit keeps the row's features, and a features edit keeps its version |
| CargoTomlEditorModel.ParseFeaturesClean | gui-edit/src/components/manifest/CargoTomlEditor.tsx:80-86 | every feature read from the text is non-empty, unpadded and free of commas |
| CargoTomlEditorModel.SpacedJoin | gui-edit/src/components/manifest/CargoTomlEditor.tsx:79 | joining on `, ` is joining on `,` with a blank in front of every part but the first |
| CargoTomlEditorModel.JoinAsParts | gui-edit/src/components/manifest/CargoTomlEditor.tsx:79 | the shown text splits on `,` into the first feature and the others behind a blank |
| CargoTomlEditorModel.JoinUnfold | gui-edit/src/components/manifest/CargoTomlEditor.tsx:79 | a join of several parts is the first, the separator, then the join of the rest |
| CargoTomlEditorModel.CommaBlank | gui-edit/src/components/manifest/CargoTomlEditor.tsx:79 | `, ` is a comma followed by a blank |
| CargoTomlEditorModel.TrimSpaced | gui-edit/src/components/manifest/CargoTomlEditor.tsx:84 | trimming a feature behind a blank gives the feature |
| CargoTomlEditorModel.ShownPartAt | gui-edit/src/components/manifest/CargoTomlEditor.tsx:79-86 | each part of the shown text is comma-free and trims to its feature |
| CargoTomlEditorModel.ShownPartsFacts | gui-edit/src/components/manifest/CargoTomlEditor.tsx:79-86 | the shown text splits into one comma-free part per feature, each trimming to it |
| CargoTomlEditorModel.FeaturesRoundTrip | gui-edit/src/components/manifest/CargoTomlEditor.tsx:79-86 | the text a row shows for its features reads back as exactly those features |
| CargoTomlEditorModel.SetField | gui-edit/src/components/manifest/CargoTomlEditor.tsx:187-194 | the named package field takes the value and the others are kept |
| CargoTomlEditorModel.ShownEdition | gui-edit/src/components/manifest/CargoTomlEditor.tsx:321 | the file's edition is shown, or 2021 when it has none or an empty one |
| CargoTomlEditorModel.ShownEditionSet | gui-edit/src/components/manifest/CargoTomlEditor.tsx:321-322 | a chosen edition is the one shown |
| CargoTomlEditorModel.WithDependency | gui-edit/src/components/manifest/CargoTomlEditor.tsx:196-210 | the entry is written as a table or a plain version, every other entry and the package are kept |
| CargoTomlEditorModel.WithoutDependency | gui-edit/src/components/manifest/CargoTomlEditor.tsx:212-218 | exactly that entry is gone and the others are kept |
| CargoTomlEditorModel.AddThenRemove | gui-edit/src/components/manifest/CargoTomlEditor.tsx:212-223 | adding a new crate and removing it gives back the same dependencies |
| CargoTomlEditorModel.WithDependencyTwice | gui-edit/src/components/manifest/CargoTomlEditor.tsx:196-210 | writing the same entry twice is writing it once |
| CargoTomlEditorModel.CargoTomlEditor.constructor | gui-edit/src/components/manifest/CargoTomlEditor.tsx:149-154 | no manifest yet, loading, not saving, no error, not dirty, no add form |
| CargoTomlEditorModel.CargoTomlEditor.Load | gui-edit/src/components/manifest/CargoTomlEditor.tsx:156-168 | a read replaces the manifest, clears the dirty flag and the error; a failed read keeps the manifest and shows its message or `Failed to load Cargo.toml`; loading ends |
| CargoTomlEditorModel.CargoTomlEditor.Save | gui-edit/src/components/manifest/CargoTomlEditor.tsx:174-185 | nothing is written without a manifest; otherwise the manifest is written to the path; success clears the dirty flag, a failure shows its message or `Failed to save Cargo.toml`; saving ends |
| CargoTomlEditorModel.CargoTomlEditor.UpdatePackageField | gui-edit/src/components/manifest/CargoTomlEditor.tsx:187-194 | nothing without a manifest; otherwise that package field changes and the manifest is dirty |
| CargoTomlEditorModel.CargoTomlEditor.UpdateDependency | gui-edit/src/components/manifest/CargoTomlEditor.tsx:196-210 | nothing without a manifest; otherwise the entry is written and the manifest is dirty |
| CargoTomlEditorModel.CargoTomlEditor.RemoveDependency | gui-edit/src/components/manifest/CargoTomlEditor.tsx:212-218 | nothing without a manifest; otherwise the entry is deleted and the manifest is dirty |
| CargoTomlEditorModel.CargoTomlEditor.ChangeVersion | gui-edit/src/components/manifest/CargoTomlEditor.tsx:356-359 | the row's crate gets the new version with its features kept |
| CargoTomlEditorModel.CargoTomlEditor.ChangeFeatures | gui-edit/src/components/manifest/CargoTomlEditor.tsx:360-363 | the row's crate gets the features read from the text with its version kept |
| CargoTomlEditorModel.CargoTomlEditor.ShowAddForm | gui-edit/src/components/manifest/CargoTomlEditor.tsx:342 | only the add form opens |
| CargoTomlEditorModel.CargoTomlEditor.CancelAddForm | gui-edit/src/components/manifest/CargoTomlEditor.tsx:370 | only the add form closes |
| CargoTomlEditorModel.CargoTomlEditor.AddDependency | gui-edit/src/components/manifest/CargoTomlEditor.tsx:220-223 | the crate is added with its version and no features, and the form closes |
| CargoTomlEditorModel.CargoTomlEditor.SubmitAddForm | gui-edit/src/components/manifest/CargoTomlEditor.tsx:106-113 | a blank name does nothing; otherwise the trimmed name is added with the form's version, the form closes and starts over |
| PackageJsonEditorModel.Apply | gui-edit/src/components/manifest/PackageJsonEditor.tsx:165-169 | the named top-level field takes the value and the others are kept |
| PackageJsonEditorModel.DependencyChangeMeaning | gui-edit/src/components/manifest/PackageJsonEditor.tsx:171-176 | setting a dependency writes that one key of the record it targets; the other record, the scripts, the name and the version stay |
| PackageJsonEditorModel.RemovalChangeMeaning | gui-edit/src/components/manifest/PackageJsonEditor.tsx:178-184 | removing a dependency deletes exactly that key of its record; everything else stays |
| PackageJsonEditorModel.AddThenRemoveDependency | gui-edit/src/components/manifest/PackageJsonEditor.tsx:171-184 | adding a new dependency and removing it gives its record back |
| PackageJsonEditorModel.ScriptChange | gui-edit/src/components/manifest/PackageJsonEditor.tsx:195-199 | the scripts record gets the command under the name and keeps every other script |
| PackageJsonEditorModel.ScriptRemoval | gui-edit/src/components/manifest/PackageJsonEditor.tsx:201-206 | the scripts record loses exactly that script |
| PackageJsonEditorModel.ScriptChangeSame | gui-edit/src/components/manifest/PackageJsonEditor.tsx:195-199 | writing a script's own command changes nothing beyond making a missing scripts record empty |
| PackageJsonEditorModel.PackageJsonEditor.constructor | gui-edit/src/components/manifest/PackageJsonEditor.tsx:125-132 | no manifest yet, loading, not saving, no error, not dirty, every add form closed |
| PackageJsonEditorModel.PackageJsonEditor.Load | gui-edit/src/components/manifest/PackageJsonEditor.tsx:134-146 | a read replaces the manifest, clears the dirty flag and the error; a failed read keeps the manifest and shows its message or `Failed to load package.json`; loading ends |
| PackageJsonEditorModel.PackageJsonEditor.Save | gui-edit/src/components/manifest/PackageJsonEditor.tsx:152-163 | nothing is written without a manifest; otherwise the manifest is written to the path; success clears the dirty flag, a failure shows its message or `Failed to save package.json`; saving ends |
| PackageJsonEditorModel.PackageJsonEditor.UpdateField | gui-edit/src/components/manifest/PackageJsonEditor.tsx:165-169 | nothing without a manifest; otherwise the field changes and the manifest is dirty |
| PackageJsonEditorModel.PackageJsonEditor.UpdateDependency | gui-edit/src/components/manifest/PackageJsonEditor.tsx:171-176 | nothing without a manifest; otherwise the dependency is set in its record and the manifest is dirty |
| PackageJsonEditorModel.PackageJsonEditor.RemoveDependency | gui-edit/src/components/manifest/PackageJsonEditor.tsx:178-184 | nothing without a manifest; otherwise the dependency is deleted from its record and the manifest is dirty |
| PackageJsonEditorModel.PackageJsonEditor.AddDependency | gui-edit/src/components/manifest/PackageJsonEditor.tsx:186-193 | the dependency is set and only the form of its record closes |
| PackageJsonEditorModel.PackageJsonEditor.UpdateScript | gui-edit/src/components/manifest/PackageJsonEditor.tsx:195-199 | nothing without a manifest; otherwise the script is set and the manifest is dirty |
| PackageJsonEditorModel.PackageJsonEditor.RemoveScript | gui-edit/src/components/manifest/PackageJsonEditor.tsx:201-206 | nothing without a manifest; otherwise the script is deleted and the manifest is dirty |
| PackageJsonEditorModel.PackageJsonEditor.AddScript | gui-edit/src/components/manifest/PackageJsonEditor.tsx:208-211 | the script is set and its form closes |
| PackageJsonEditorModel.PackageJsonEditor.ShowAddForm | gui-edit/src/components/manifest/PackageJsonEditor.tsx:315-383 | only the chosen section's add form opens |
| PackageJsonEditorModel.PackageJsonEditor.CancelAddForm | gui-edit/src/components/manifest/PackageJsonEditor.tsx:332-405 | only the cancelled form closes |
| PackageJsonEditorModel.PackageJsonEditor.SubmitAddForm | gui-edit/src/components/manifest/PackageJsonEditor.tsx:51-58 | a blank name does nothing; otherwise the trimmed name and the second field go to the form's record, that form closes and starts over |

## Left out

- File system, network and process I/O are not performed. Directory trees, module records, file contents, disks and the outcomes of asynchronous calls are inputs, and the model returns the writes or requests an operation makes.
- The loader's Node `path.relative`, `path.join` and `extname` are modelled on the relative path string. Elysia's `group` is a recorded prefix scope: whether its callback runs synchronously is not modelled. The unused `basePath` parameter is dropped.
- The analyzer's regular expressions are not modelled; the export names they extract are the input. The operating system's text for a read error is an input too.
- `greet` and the Tauri command wrapper in `gui-edit/src-tauri/src/lib.rs` are left out; only the routes-directory inference is modelled.
- The file commands' own I/O failures (a failed `create_dir`, `write`, `remove` or `rename` after validation) are not modelled: a command that passes its checks yields the operations it would perform.
- `canonicalize` is the disk's resolve map. Symbolic links are not modelled beyond that map.
- The CLI's probes of the filesystem and `PATH`, argument parsing and report printing are left out. So is the canonicalisation of the root in `cli/src/checks/mod.rs`.
- Case mapping and whitespace are ASCII only: `toLowerCase`, `toUpperCase`, `trim` and Rust's `to_lowercase` and `trim` are not modelled on the rest of Unicode.
- Property order of JavaScript objects is insertion order where the model keeps a list of entries (component props, header rows). Integer-like keys, which JavaScript lists first, are not treated specially.
- The `scripts`, `dependencies` and `devDependencies` records of the `package.json` editor are Dafny maps, so the order of their keys is not modelled, and neither is `__proto__` as a key.
- QuickOpenModel.LanguageOf: the extension lookup `map[ext] || "plaintext"` is modelled on the table's own keys only. An extension named after an `Object.prototype` member (`constructor`, `toString`, `valueOf`, `hasOwnProperty`, `__proto__` and the rest) finds that inherited value in the source, a function or an object, not `plaintext`; the same holds for the language lookup of the search panel.
- `JSON.stringify` of object-valued props is an opaque text. Numbers are integers, and their text is the decimal digits.
- The display order of manifest dependency rows (`localeCompare`) and the styling helpers (`getFileIcon`, `METHOD_COLORS`) are left out.
- The cmdk list's own filtering and the React render and mount lifecycle are left out. Effects run when the model's event methods are called.
- The debounce timer of the search panel is not modelled. `QueryChanged` runs the search the timer would start, and it is also what a change of the regex or case option does.
- The line an opened search result should scroll to is not modelled (the source leaves it as a TODO).
- `console` logging on caught errors is left out; such errors change nothing in the model.
- `generateId`, `Date.now` and `Math.random` are left out: new component ids are parameters.
- The theme is stored, but applying it to the document is left out. Persisted storage of the stores is left out.
- The copy-to-clipboard and download buttons of the code preview are left out.
- The features toggle of a `Cargo.toml` dependency row is left out. Other top-level keys of `Cargo.toml` and `package.json`, and package fields other than name, version and edition, are left out.
- `replaceRegexOnce` and the regular-expression rewrites of the post-processing script are left out. Their combined effect is a parameter of `PostprocessOpenapi.Postprocess`.
- Overlapping asynchronous calls are not modelled: each call runs to its outcome before the next event.
- ApiTesterModel.ApiTester.SendRequest: requires that no request is in flight, as the disabled Send button ensures. The elapsed time is an input.
- NewRouteDialogModel.NewRouteDialog.HandleCreate: requires that no create is in flight, as the disabled Create button ensures.
- NewRouteDialogModel.Submission, NewRouteDialogModel.MakeRequest and NewRouteDialogModel.NewRouteDialog.HandleCreate use the corrected `urlToFilePath`. For a URL path of slashes only, such as `//`, they write `index.ts`; in the source the dialog's render calls `urlToFilePath` and throws first, so nothing can be created.
- RouteAnalyzer.ClassifyFixed: the corrected classification stands beside the as-written one; the directory analysis and the Tauri command use the as-written classification, as the source does.
- SearchPanelModel.SearchPanel.DoSearch: requires that no search is in flight; the source would let a second search start.
- ApiTesterModel.ApiTester.UpdateHeader: requires an index of an existing row, which is all the rows' inputs pass. An index past the end would add a partial row in the source.
- ComponentCodegen.Generate: requires that the `children` text of every leaf is a string, or absent. A truthy non-string text makes `escapeJSXString` throw in the source, and the generator is not modelled on that path.
- CodePreviewModel.ModuleText: requires the same of the components, for the same reason.
- EditorStoreModel.EditorStore.ReorderTabs: corrected. For a `fromIndex` that names no tab the source inserts `undefined` as a tab (see JsArrays.MoveAsWrittenOutOfRange); the store's method leaves the tabs alone instead, so that the tabs stay tabs.
- DoctorWalk.WalkFiles: when the `max_files` cap binds, which files are returned is not specified; the source takes them in the order its stack pops, depth first from the last entry pushed. So DoctorRepo.HasRepoNginxConfig on a repository of more than 5000 files is only known to answer from some 5000 walked files.
- Paths.Components and Paths.ParentDir keep a `.` component, where Rust's `Path::components` drops an interior `.` and `Path::parent` of `a/.` is `""`. The paths compared are canonical, and a canonical path has no `.` component.
- ApiTesterModel.HeaderMap: the headers record handed to `fetch` is a Dafny map, so its insertion order is lost and `__proto__` is an ordinary key. Keys that differ only in case stay separate, where `fetch` combines them into one header.

## Findings

| source | as written | input that shows it | evidently intended | confidence | as-written member | corrected member |
|---|---|---|---|---|---|---|
| gui-edit/src-tauri/src/parser/route_analyzer.rs:153-167 | the method-name check comes first and `options` is one of the seven names, so an `options` export is taken as an OPTIONS handler and `has_options` is never set; the named-export loop has the same order | a route file with `export const options = { ... }` | an `options` export, which the backend loader reads as the route's options, sets `has_options` | not executed | RouteAnalyzer.ClassifyOptions | RouteAnalyzer.ClassifyFixedOptions |
| gui-edit/src-tauri/src/commands/fs.rs:220-246 | `create_file` validates the new path with `validate_path`, which canonicalises it and so fails with NotFound for every file that does not exist yet, while an existing one is refused as existing | creating `notes.txt` in an existing project directory | the target inside the root is validated without requiring it to exist, and the file is created | not executed | FsCommands.CreateFileAsWritten | FsCommands.CreateFileFixedMeaning |
| gui-edit/src-tauri/src/commands/fs.rs:248-260 | `create_directory` has the same order of checks, so it never succeeds | creating a new directory `src/new` in an existing project | a new directory inside the root is created with its missing ancestors | not executed | FsCommands.CreateDirectoryAsWritten | FsCommands.CreateDirectoryFixedMeaning |
| gui-edit/src-tauri/src/commands/fs.rs:282-303 | `rename_path` validates the target with `validate_path` too, so a target that does not exist fails with NotFound and one that exists is refused | renaming an existing `a.txt` to a new `b.txt` | an existing source is renamed onto a new target inside the root | not executed | FsCommands.RenamePathAsWritten | FsCommands.RenamePathFixedMeaning |
| gui-edit/src/components/routes/NewRouteDialog.tsx:59-67 | a path of slashes other than `/` passes the root check, leaves no segments, and `lastPart.startsWith` is called on `undefined` | the URL path `//` | every path without segments is the root, stored as `index.ts` | not executed | NewRouteDialogModel.DoubleSlashAsWritten | NewRouteDialogModel.UrlToFilePath |
| gui-edit/src/stores/editor.ts:116-122 | with a `fromIndex` past the last tab, the first `splice` removes nothing and the second inserts `undefined` as a tab | `reorderTabs(5, 0)` with two tabs open | an index that names no tab leaves the tabs as they are, and a move is a permutation | not executed | JsArrays.MoveAsWrittenOutOfRange | EditorStoreModel.EditorStore.ReorderTabs |
| gui-edit/src/components/search/SearchPanel.tsx:243-245 | the highlight cuts the trimmed line at the match offsets, which index the untrimmed line, so in an indented line the marked text is shifted | the line `  foo` with the match at 2 to 5 marks `o` instead of `foo` | the match is marked at its offsets in the line as searched, and the blanks around the line are dropped | not executed; assumes the offsets index the line as searched | SearchPanelModel.ShownAsWrittenMisplaced | SearchPanelModel.ShownMarksMatch |
