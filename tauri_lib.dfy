/** The desktop editor's `analyze_route_file` command (gui-edit/src-tauri/src/lib.rs):
    when the caller gives no routes directory, it is inferred from the file's own
    path before the route analyser runs. */
module TauriLib {
  import opened Wrappers
  import opened Strings
  import opened Paths
  import RouteAnalyzer

  const RoutesMarker: string := "/routes/"
  const AdminMarker: string := "/routes-admin/"

  /** The routes directory the command infers from a file path: everything up to
      and including the first `/routes/`, else up to and including the first
      `/routes-admin/`, else the parent directory. */
  function InferRoutesDir(path: string): string {
    var i := IndexOf(path, RoutesMarker);
    if i >= 0 then path[..i + |RoutesMarker|]
    else
      var j := IndexOf(path, AdminMarker);
      if j >= 0 then path[..j + |AdminMarker|]
      else ParentDir(path)
  }

  /** The routes directory the command uses: the given one, unchanged, else the
      inferred one. */
  function RoutesDirFor(path: string, routesDir: Option<string>): (r: string)
    ensures routesDir.Some? ==> r == routesDir.value
    ensures routesDir.None? ==> r == InferRoutesDir(path)
  {
    if routesDir.Some? then routesDir.value else InferRoutesDir(path)
  }

  /** `analyze_route_file`: the analysis of the file under the chosen routes
      directory. */
  method AnalyzeRouteFileCommand(path: string, routesDir: Option<string>, contents: map<string, RouteAnalyzer.FileContent>)
    returns (analysis: RouteAnalyzer.RouteAnalysis)
    ensures analysis == RouteAnalyzer.Analysis(path, RouteAnalyzer.UrlPathOf(path, RoutesDirFor(path, routesDir)),
      RouteAnalyzer.ReadFile(contents, path))
  {
    var dir: string;
    if routesDir.Some? {
      dir := routesDir.value;
    } else {
      dir := InferRoutesDir(path);
    }
    analysis := RouteAnalyzer.AnalyzeRouteFile(path, dir, RouteAnalyzer.ReadFile(contents, path));
  }

  /** With a `/routes/` in the path, the inferred directory is the path's prefix
      that ends at the end of the FIRST `/routes/`. */
  lemma InferFromRoutes(path: string)
    requires Contains(path, RoutesMarker)
    ensures var r := InferRoutesDir(path);
      StartsWith(path, r) && EndsWith(r, RoutesMarker) &&
      forall j :: 0 <= j < |r| - |RoutesMarker| ==> !OccursAt(path, RoutesMarker, j)
  {
    IndexOfFirst(path, RoutesMarker);
    var i := IndexOf(path, RoutesMarker);
    var r := path[..i + |RoutesMarker|];
    assert r[|r| - |RoutesMarker|..] == path[i..i + |RoutesMarker|];
  }

  /** Without `/routes/` but with `/routes-admin/`, the inferred directory is the
      prefix that ends at the end of the first `/routes-admin/`. */
  lemma InferFromAdminRoutes(path: string)
    requires !Contains(path, RoutesMarker) && Contains(path, AdminMarker)
    ensures var r := InferRoutesDir(path);
      StartsWith(path, r) && EndsWith(r, AdminMarker) &&
      forall j :: 0 <= j < |r| - |AdminMarker| ==> !OccursAt(path, AdminMarker, j)
  {
    IndexOfFirst(path, RoutesMarker);
    IndexOfFirst(path, AdminMarker);
    var i := IndexOf(path, AdminMarker);
    var r := path[..i + |AdminMarker|];
    assert r[|r| - |AdminMarker|..] == path[i..i + |AdminMarker|];
  }

  /** With neither marker, the inferred directory is the parent directory. */
  lemma InferFromParent(path: string)
    requires !Contains(path, RoutesMarker) && !Contains(path, AdminMarker)
    ensures InferRoutesDir(path) == ParentDir(path)
  {
    IndexOfFirst(path, RoutesMarker);
    IndexOfFirst(path, AdminMarker);
  }
}
