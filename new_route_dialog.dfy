/** The new-route dialog (gui-edit/src/components/routes/NewRouteDialog.tsx):
    the file a URL path is stored in under the convention routing of the
    backend, the route module written for the chosen methods, and the form
    that creates it. */
module NewRouteDialogModel {
  import opened Wrappers
  import opened Strings
  import opened JsArrays

  const HttpMethods: seq<string> := ["GET", "POST", "PUT", "PATCH", "DELETE"]

  // ----- URL path to file path -----

  /** `urlPath.split("/").filter(Boolean)`. */
  function UrlParts(url: string): seq<string> {
    NonEmpty(Split(url, '/'))
  }

  /** The file of a non-empty list of segments, from its last segment: `:p`
      becomes `[p].ts`, `[p]` stays and gets `.ts`, anything else is a
      directory with an `index.ts`. Only the last segment is rewritten. */
  function FileOfParts(parts: seq<string>): string
    requires parts != []
  {
    var last := parts[|parts| - 1];
    if StartsWith(last, ":") then
      Join(parts[|parts| - 1 := "[" + last[1..] + "]"], "/") + ".ts"
    else if StartsWith(last, "[") && EndsWith(last, "]") then
      Join(parts, "/") + ".ts"
    else
      Join(parts, "/") + "/index.ts"
  }

  /** `urlToFilePath` as written: the root is `index.ts`, but a path made only
      of slashes other than `/` leaves no segment, and reading `startsWith` of
      the missing last segment throws. */
  function UrlToFilePathAsWritten(url: string): (r: Result<string, string>)
  {
    if url == "/" || url == "" then Ok("index.ts")
    else
      var parts := UrlParts(url);
      if parts == [] then Err("TypeError: Cannot read properties of undefined (reading 'startsWith')")
      else Ok(FileOfParts(parts))
  }

  /** `urlToFilePath` with every path without segments read as the root. */
  function UrlToFilePath(url: string): (r: string)
    ensures UrlParts(url) == [] ==> r == "index.ts"
    ensures url == "/" || url == "" ==> r == "index.ts"
  {
    var parts := UrlParts(url);
    if url == "/" || url == "" || parts == [] then "index.ts"
    else FileOfParts(parts)
  }

  /** The dialog as written fails on `//`, which the corrected mapping reads as
      the root. */
  lemma DoubleSlashAsWritten()
    ensures UrlToFilePathAsWritten("//").Err?
    ensures UrlToFilePath("//") == "index.ts"
  {
    assert Split("//", '/') == ["", "", ""] by {
      assert "//"[1..] == "/";
      assert "/"[1..] == "";
    }
  }

  /** The written mapping fails exactly on the paths without segments other
      than `/` and ``, and agrees with the corrected one everywhere else. */
  lemma AsWrittenAgrees(url: string)
    ensures UrlToFilePathAsWritten(url).Err? <==> url != "/" && url != "" && UrlParts(url) == []
    ensures UrlToFilePathAsWritten(url).Ok? ==> UrlToFilePathAsWritten(url).value == UrlToFilePath(url)
  {
  }

  /** No segment is empty or holds a slash. */
  predicate Segments(parts: seq<string>) {
    forall i :: 0 <= i < |parts| ==> parts[i] != "" && '/' !in parts[i]
  }

  /** The segments of `/` followed by segments joined by `/` are those
      segments, and the file is read off them. */
  lemma PartsOfJoin(parts: seq<string>)
    requires parts != [] && Segments(parts)
    ensures UrlParts("/" + Join(parts, "/")) == parts
    ensures UrlToFilePath("/" + Join(parts, "/")) == FileOfParts(parts)
  {
    var j := Join(parts, "/");
    assert |j| >= |parts[0]| by {
      if |parts| > 1 {
        assert j == parts[0] + "/" + Join(parts[1..], "/");
      }
    }
    assert "/" + j == "" + ['/'] + j;
    SplitAtSeparator("", '/', j);
    SplitJoin(parts, '/');
    assert NonEmpty([""] + parts) == NonEmpty(parts) by {
      assert ([""] + parts)[1..] == parts;
    }
    NonEmptyAll(parts);
  }

  /** A last segment `:p` becomes `[p]`; the other segments stay as they are. */
  lemma FileOfParam(prefix: seq<string>, name: string)
    ensures FileOfParts(prefix + [":" + name]) == Join(prefix + ["[" + name + "]"], "/") + ".ts"
  {
    var parts := prefix + [":" + name];
    var last := parts[|parts| - 1];
    assert last == ":" + name;
    assert last[..1] == ":";
    assert last[1..] == name;
    assert parts[|parts| - 1 := "[" + name + "]"] == prefix + ["[" + name + "]"];
  }

  /** `/a/b/:p` is stored as `a/b/[p].ts`; earlier `:` segments stay as
      they are. */
  lemma ParamLast(prefix: seq<string>, name: string)
    requires Segments(prefix) && '/' !in name
    ensures UrlToFilePath("/" + Join(prefix + [":" + name], "/")) == Join(prefix + ["[" + name + "]"], "/") + ".ts"
  {
    var parts := prefix + [":" + name];
    assert Segments(parts) by {
      forall i | 0 <= i < |parts| ensures parts[i] != "" && '/' !in parts[i] {
        if i < |prefix| {
          assert parts[i] == prefix[i];
        } else {
          assert parts[i] == ":" + name;
        }
      }
    }
    PartsOfJoin(parts);
    FileOfParam(prefix, name);
  }

  /** A last segment already in brackets only gains `.ts`. */
  lemma BracketLast(parts: seq<string>)
    requires parts != [] && Segments(parts)
    requires var last := parts[|parts| - 1]; StartsWith(last, "[") && EndsWith(last, "]")
    ensures UrlToFilePath("/" + Join(parts, "/")) == Join(parts, "/") + ".ts"
  {
    PartsOfJoin(parts);
    var last := parts[|parts| - 1];
    assert last[..1] == "[";
    assert !StartsWith(last, ":");
  }

  /** Any other last segment names a directory with an `index.ts`. */
  lemma PlainLast(parts: seq<string>)
    requires parts != [] && Segments(parts)
    requires var last := parts[|parts| - 1]; !StartsWith(last, ":") && !(StartsWith(last, "[") && EndsWith(last, "]"))
    ensures UrlToFilePath("/" + Join(parts, "/")) == Join(parts, "/") + "/index.ts"
  {
    PartsOfJoin(parts);
  }

  // ----- the route module -----

  /** A block of the module: text ending in `;` and an empty line. */
  predicate Block(s: string) {
    |s| >= 3 && s[|s| - 3] == ';' && s[|s| - 2] == '\n' && s[|s| - 1] == '\n'
  }

  /** A statement ending in `;`, followed by an empty line, is a block. */
  lemma StatementBlock(x: string)
    requires x != [] && x[|x| - 1] == ';'
    ensures Block(x + "\n\n")
  {
    var s := x + "\n\n";
    assert s[|s| - 3] == x[|x| - 1];
    assert s[|s| - 2] == '\n' && s[|s| - 1] == '\n';
  }

  /** Text followed by a block ends as a block. */
  lemma BlockAfter(x: string, y: string)
    requires Block(y)
    ensures Block(x + y)
  {
    var n := |x + y|;
    assert (x + y)[n - 1] == y[|y| - 1];
    assert (x + y)[n - 2] == y[|y| - 2];
    assert (x + y)[n - 3] == y[|y| - 3];
  }

  lemma PrefixKept(x: string, y: string, p: string)
    requires StartsWith(x, p)
    ensures StartsWith(x + y, p)
  {
    assert (x + y)[..|p|] == x[..|p|];
  }

  lemma LastKept(x: string, y: string)
    requires y != []
    ensures (x + y)[|x + y| - 1] == y[|y| - 1]
  {
  }

  const ElysiaImport: string := "import type { Elysia } from \"elysia\";"
  const Prelude: string := ElysiaImport + "\n\n"

  lemma PreludeBlock()
    ensures Block(Prelude) && Prelude[0] == 'i'
    ensures StartsWith(Prelude, ElysiaImport) && |Prelude| == |ElysiaImport| + 2
  {
    StatementBlock(ElysiaImport);
    PrefixKept(ElysiaImport, "\n\n", ElysiaImport);
  }

  /** `urlPath.split("/")[1] || "api"`: the first segment after a leading
      slash, or `api`. */
  function Tag(url: string): string {
    var parts := Split(url, '/');
    if |parts| > 1 && parts[1] != "" then parts[1] else "api"
  }

  /** The tag of `/seg` or `/seg/...` is `seg`. */
  lemma TagFirstSegment(seg: string, rest: string)
    requires seg != "" && '/' !in seg
    ensures Tag("/" + seg) == seg
    ensures Tag("/" + seg + "/" + rest) == seg
  {
    assert "/" + seg == "" + ['/'] + seg;
    SplitAtSeparator("", '/', seg);
    SplitWithout(seg, '/');
    assert "/" + seg + "/" + rest == "" + ['/'] + (seg + ['/'] + rest);
    SplitAtSeparator("", '/', seg + ['/'] + rest);
    SplitAtSeparator(seg, '/', rest);
  }

  /** A path without a slash, or the root, is tagged `api`. */
  lemma TagDefault(url: string)
    requires '/' !in url || url == "/"
    ensures Tag(url) == "api"
  {
    if '/' !in url {
      SplitWithout(url, '/');
    } else {
      assert url == "" + ['/'] + "";
      SplitAtSeparator("", '/', "");
    }
  }

  function OptionsStatement(url: string): (r: string)
    ensures r != [] && r[|r| - 1] == ';'
  {
    var body := "export const options = {\n" +
      "  tags: [\"" + Tag(url) + "\"],\n" +
      "  summary: \"" + url + "\",\n";
    LastKept(body, "};");
    body + "};"
  }

  function OptionsBlock(url: string): (r: string)
    ensures Block(r)
  {
    StatementBlock(OptionsStatement(url));
    OptionsStatement(url) + "\n\n"
  }

  predicate HasParams(url: string) {
    Contains(url, "[") || Contains(url, ":")
  }

  datatype HandlerForm = WithParams | WithBody | NoInput

  /** The handler's callback: the params form for a path with parameters, the
      body form for POST, PUT and PATCH, the plain form otherwise. */
  function FormOf(verb: string, hasParams: bool): (r: HandlerForm)
    ensures r == WithParams <==> hasParams
    ensures r == WithBody <==> !hasParams && verb in ["POST", "PUT", "PATCH"]
    ensures r == NoInput <==> !hasParams && verb !in ["POST", "PUT", "PATCH"]
  {
    if hasParams then WithParams
    else if verb == "POST" || verb == "PUT" || verb == "PATCH" then WithBody
    else NoInput
  }

  /** The callback and its message, by form. */
  function Callback(form: HandlerForm, message: string): string {
    match form
    case WithParams => "({ params }) => {\n" + message + ", params };\n"
    case WithBody => "({ body }) => {\n" + message + ", body };\n"
    case NoInput => "() => {\n" + message + " };\n"
  }

  /** The head of an `export const <method>` statement. */
  function HandlerHead(verb: string): string {
    "export const " + ToLower(verb) + " = (app: Elysia) =>\n"
  }

  /** One `export const <method>` statement: the lowercased method calls the
      `app` method of that name on the path. */
  function HandlerStatement(verb: string, url: string, hasParams: bool): (r: string)
    ensures StartsWith(r, HandlerHead(verb))
    ensures r != [] && r[|r| - 1] == ';'
  {
    var head := HandlerHead(verb);
    var message := "    return { message: \"" + verb + " " + url + "\"";
    var call := "  app." + ToLower(verb) + "(\"" + url + "\", " + Callback(FormOf(verb, hasParams), message);
    var rest := call + "  });";
    LastKept(call, "  });");
    LastKept(head, rest);
    PrefixKept(head, rest, head);
    head + rest
  }

  function Handler(verb: string, url: string, hasParams: bool): (r: string)
    ensures Block(r) && StartsWith(r, HandlerHead(verb))
  {
    var s := HandlerStatement(verb, url, hasParams);
    StatementBlock(s);
    PrefixKept(s, "\n\n", HandlerHead(verb));
    s + "\n\n"
  }

  /** `Handler` on the path, as a function of the method. */
  function HandlerOf(url: string, hasParams: bool): string -> string {
    verb => Handler(verb, url, hasParams)
  }

  /** `xs.map(f)`. */
  function Map(xs: seq<string>, f: string -> string): (r: seq<string>)
    ensures |r| == |xs|
    ensures forall i :: 0 <= i < |xs| ==> r[i] == f(xs[i])
  {
    seq(|xs|, i requires 0 <= i < |xs| => f(xs[i]))
  }

  lemma MapAppend(a: seq<string>, b: seq<string>, f: string -> string)
    ensures Map(a + b, f) == Map(a, f) + Map(b, f)
  {
    var m := Map(a + b, f);
    forall i | 0 <= i < |m| ensures m[i] == (Map(a, f) + Map(b, f))[i] {
      if i < |a| {
        assert (a + b)[i] == a[i];
      } else {
        assert (a + b)[i] == b[i - |a|];
      }
    }
  }

  /** Blocks written one after the other. */
  function Concat(blocks: seq<string>): string {
    if blocks == [] then "" else Concat(blocks[..|blocks| - 1]) + blocks[|blocks| - 1]
  }

  lemma {:induction false} ConcatAppend(a: seq<string>, b: seq<string>)
    ensures Concat(a + b) == Concat(a) + Concat(b)
  {
    if b == [] {
      assert a + b == a;
    } else {
      var b' := b[..|b| - 1];
      assert (a + b)[..|a + b| - 1] == a + b';
      assert (a + b)[|a + b| - 1] == b[|b| - 1];
      ConcatAppend(a, b');
    }
  }

  /** Blocks written one after the other end as the last one does. */
  lemma ConcatBlock(blocks: seq<string>)
    requires blocks != [] && Block(blocks[|blocks| - 1])
    ensures Block(Concat(blocks))
  {
    BlockAfter(Concat(blocks[..|blocks| - 1]), blocks[|blocks| - 1]);
  }

  /** The handler of each method, in the order given. */
  function Handlers(methods: seq<string>, url: string, hasParams: bool): (r: string)
    ensures methods == [] ==> r == ""
    ensures methods != [] ==> Block(r)
  {
    var blocks := Map(methods, HandlerOf(url, hasParams));
    if blocks == [] then ""
    else
      ConcatBlock(blocks);
      Concat(blocks)
  }

  /** One block per method, in order: the block of each method sits between
      the blocks of the methods before and after it. */
  lemma HandlersSplit(a: seq<string>, verb: string, b: seq<string>, url: string, hasParams: bool)
    ensures Handlers(a + [verb] + b, url, hasParams) ==
      Handlers(a, url, hasParams) + Handler(verb, url, hasParams) + Handlers(b, url, hasParams)
  {
    HandlersAppend(a + [verb], b, url, hasParams);
    HandlersAppend(a, [verb], url, hasParams);
    HandlersOne(verb, url, hasParams);
  }

  lemma HandlersAppend(a: seq<string>, b: seq<string>, url: string, hasParams: bool)
    ensures Handlers(a + b, url, hasParams) == Handlers(a, url, hasParams) + Handlers(b, url, hasParams)
  {
    var f := HandlerOf(url, hasParams);
    MapAppend(a, b, f);
    ConcatAppend(Map(a, f), Map(b, f));
    HandlersConcat(a + b, url, hasParams);
    HandlersConcat(a, url, hasParams);
    HandlersConcat(b, url, hasParams);
  }

  lemma HandlersConcat(methods: seq<string>, url: string, hasParams: bool)
    ensures Handlers(methods, url, hasParams) == Concat(Map(methods, HandlerOf(url, hasParams)))
  {
  }

  lemma HandlersOne(verb: string, url: string, hasParams: bool)
    ensures Handlers([verb], url, hasParams) == Handler(verb, url, hasParams)
  {
    var h := Map([verb], HandlerOf(url, hasParams));
    assert h == [Handler(verb, url, hasParams)];
    assert h[..0] == [];
    HandlersConcat([verb], url, hasParams);
  }

  /** The text `generateRouteCode` builds before trimming. */
  function RawCode(methods: seq<string>, url: string): string {
    Prelude + (if |methods| > 0 then OptionsBlock(url) else "") + Handlers(methods, url, HasParams(url))
  }

  /** `generateRouteCode`: the built text trimmed, with one final newline. */
  function RouteCode(methods: seq<string>, url: string): string {
    Trim(RawCode(methods, url)) + "\n"
  }

  /** The loop of `generateRouteCode`: one handler appended per method, in
      order. */
  method AppendHandlers(start: string, methods: seq<string>, urlPath: string, hasParams: bool) returns (code: string)
    ensures code == start + Handlers(methods, urlPath, hasParams)
  {
    code := start;
    var i := 0;
    while i < |methods|
      invariant 0 <= i <= |methods|
      invariant code == start + Handlers(methods[..i], urlPath, hasParams)
    {
      var block := Handler(methods[i], urlPath, hasParams);
      AppendStep(start, methods, i, urlPath, hasParams);
      code := code + block;
      i := i + 1;
    }
    assert methods[..i] == methods;
  }

  /** One turn of the loop: the next method's block goes after those before
      it. */
  lemma AppendStep(start: string, methods: seq<string>, i: nat, url: string, hasParams: bool)
    requires i < |methods|
    ensures start + Handlers(methods[..i], url, hasParams) + Handler(methods[i], url, hasParams) ==
      start + Handlers(methods[..i + 1], url, hasParams)
  {
    assert methods[..i + 1] == methods[..i] + [methods[i]];
    HandlersAppend(methods[..i], [methods[i]], url, hasParams);
    HandlersOne(methods[i], url, hasParams);
    Regroup3(start, Handlers(methods[..i], url, hasParams), Handler(methods[i], url, hasParams));
  }

  /** `generateRouteCode` as written: the text grows block by block. */
  method GenerateRouteCode(methods: seq<string>, urlPath: string) returns (code: string)
    ensures code == RouteCode(methods, urlPath)
  {
    var hasOptions := |methods| > 0;
    var hasParams := Contains(urlPath, "[") || Contains(urlPath, ":");
    code := Prelude;
    if hasOptions {
      code := code + OptionsBlock(urlPath);
    }
    code := AppendHandlers(code, methods, urlPath, hasParams);
    assert code == RawCode(methods, urlPath);
    code := Trim(code) + "\n";
  }

  /** Trimming a block that starts with a letter drops exactly its final
      empty line, so a prefix that leaves that line out is kept. */
  lemma TrimBlock(s: string, p: string)
    requires Block(s) && s[0] == 'i'
    requires StartsWith(s, p) && |p| <= |s| - 2
    ensures var r := Trim(s) + "\n";
      |r| == |s| - 1 && StartsWith(r, p) && r[|r| - 1] == '\n' && r[|r| - 2] == ';'
  {
    var n := |s|;
    assert TrimStart(s) == s;
    TrimEndBlock(s);
    assert s[..n - 2][..|p|] == p;
    PrefixKept(s[..n - 2], "\n", p);
  }

  /** Trimming the end of a block drops its two newlines and stops at `;`. */
  lemma TrimEndBlock(s: string)
    requires Block(s)
    ensures TrimEnd(s) == s[..|s| - 2]
  {
    var n := |s|;
    var t := s[..n - 1];
    var u := s[..n - 2];
    assert t[..n - 2] == u;
    TrimEndSpace(s);
    TrimEndSpace(t);
    assert u[n - 3] == ';';
    TrimEndKept(u);
  }

  lemma TrimEndSpace(s: string)
    requires s != [] && IsSpace(s[|s| - 1])
    ensures TrimEnd(s) == TrimEnd(s[..|s| - 1])
  {
  }

  lemma TrimEndKept(s: string)
    requires s != [] && !IsSpace(s[|s| - 1])
    ensures TrimEnd(s) == s
  {
  }

  /** The prelude, then blocks after it. */
  lemma PreludeThen(opt: string, h: string)
    requires opt == "" || Block(opt)
    requires h == "" || Block(h)
    ensures var s := Prelude + opt + h;
      Block(s) && s[0] == 'i' && StartsWith(s, ElysiaImport) && |s| >= |ElysiaImport| + 2 &&
      (h != "" ==> StartsWith(s, Prelude + opt) && |s| >= |Prelude + opt| + 3)
  {
    PreludeBlock();
    var s := Prelude + opt + h;
    assert s == Prelude + (opt + h);
    assert s[0] == Prelude[0];
    PrefixKept(Prelude, opt + h, ElysiaImport);
    if h != "" {
      BlockAfter(Prelude + opt, h);
      PrefixKept(Prelude + opt, h, Prelude + opt);
    } else if opt != "" {
      BlockAfter(Prelude, opt);
    }
  }

  /** The raw text is a block starting with the prelude, and the options block
      when some method is chosen. */
  lemma RawCodeLayout(methods: seq<string>, url: string)
    ensures var s := RawCode(methods, url);
      Block(s) && s[0] == 'i' && StartsWith(s, ElysiaImport) && |s| >= |ElysiaImport| + 2 &&
      (methods == [] ==> s == Prelude) &&
      (methods != [] ==> StartsWith(s, Prelude + OptionsBlock(url)) && |s| >= |Prelude + OptionsBlock(url)| + 3)
  {
    var opt := if |methods| > 0 then OptionsBlock(url) else "";
    var h := Handlers(methods, url, HasParams(url));
    PreludeThen(opt, h);
    assert RawCode(methods, url) == Prelude + opt + h;
  }

  /** The module starts with the `Elysia` import and ends with `;` and exactly
      one newline. */
  lemma RouteCodeEnds(methods: seq<string>, url: string)
    ensures var r := RouteCode(methods, url);
      StartsWith(r, ElysiaImport) && |r| >= 2 && r[|r| - 1] == '\n' && r[|r| - 2] == ';'
  {
    var s := RawCode(methods, url);
    RawCodeLayout(methods, url);
    TrimBlock(s, ElysiaImport);
    assert RouteCode(methods, url) == Trim(s) + "\n";
  }

  /** The options block is there exactly when some method is chosen. */
  lemma OptionsIffMethods(methods: seq<string>, url: string)
    ensures StartsWith(RouteCode(methods, url), Prelude + OptionsBlock(url)) <==> |methods| > 0
  {
    RawCodeLayout(methods, url);
    var s := RawCode(methods, url);
    if |methods| > 0 {
      TrimBlock(s, Prelude + OptionsBlock(url));
    } else {
      TrimBlock(s, ElysiaImport);
      assert |Trim(s) + "\n"| < |Prelude + OptionsBlock(url)|;
    }
  }

  // ----- the form -----

  /** `toggleMethod`: a chosen method is dropped, another one is added at the
      end. */
  function ToggleMethod(selected: seq<string>, verb: string): (r: seq<string>)
    ensures verb in r <==> verb !in selected
    ensures forall m :: m != verb ==> (m in r <==> m in selected)
  {
    WithoutMembers(selected, verb);
    if verb in selected then Without(selected, verb) else selected + [verb]
  }

  /** Adding a method and dropping it again restores the choice. */
  lemma ToggleBack(selected: seq<string>, verb: string)
    requires verb !in selected
    ensures ToggleMethod(ToggleMethod(selected, verb), verb) == selected
  {
    WithoutAppend(selected, [verb], verb);
    WithoutUnchanged(selected, verb);
    assert Without([verb], verb) == [] by {
      assert [verb][1..] == [];
    }
  }

  /** No method is listed twice. */
  predicate NoRepeats(xs: seq<string>) {
    forall i, j :: 0 <= i < j < |xs| ==> xs[i] != xs[j]
  }

  lemma {:induction false} WithoutNoRepeats(xs: seq<string>, x: string)
    requires NoRepeats(xs)
    ensures NoRepeats(Without(xs, x))
  {
    if xs != [] {
      var rest := xs[1..];
      assert NoRepeats(rest);
      WithoutNoRepeats(rest, x);
      WithoutMembers(rest, x);
      assert xs[0] !in rest;
    }
  }

  /** Toggling one of the offered methods keeps the choice among the offered
      methods and free of repeats. */
  lemma ToggleKeepsChoice(selected: seq<string>, verb: string)
    requires NoRepeats(selected) && (forall m :: m in selected ==> m in HttpMethods)
    requires verb in HttpMethods
    ensures var r := ToggleMethod(selected, verb);
      NoRepeats(r) && (forall m :: m in r ==> m in HttpMethods)
  {
    if verb in selected {
      WithoutNoRepeats(selected, verb);
    }
  }

  const RequiredMessage: string := "URL path and at least one method are required"

  /** The form cannot be submitted: a blank path or no method. */
  predicate Incomplete(url: string, methods: seq<string>) {
    Trim(url) == "" || methods == []
  }

  /** The file `handleCreate` writes: the route module for the methods, at
      the path's file under the routes directory. */
  function CreateRequest(routesDir: string, url: string, methods: seq<string>): (string, string) {
    (routesDir + "/" + UrlToFilePath(url), RouteCode(methods, url))
  }

  /** The error shown when writing fails: the message of an `Error`, or a
      fixed text for anything else thrown. */
  function FailureMessage(message: Option<string>): (r: string)
    ensures message.Some? ==> r == message.value
    ensures message.None? ==> r == "Failed to create route"
  {
    if message.Some? then message.value else "Failed to create route"
  }

  /** What `createFile` did: wrote the file, or threw (an `Error` with its
      message, or something else). */
  datatype CreateOutcome = Created | Failed(message: Option<string>)

  /** What submitting the form writes: nothing when it is incomplete, the
      route module otherwise. */
  function Submission(routesDir: string, url: string, methods: seq<string>): (r: Option<(string, string)>)
    ensures r.None? <==> Incomplete(url, methods)
    ensures r.Some? ==> r.value.0 == routesDir + "/" + UrlToFilePath(url) && r.value.1 == RouteCode(methods, url)
  {
    if Incomplete(url, methods) then None else Some(CreateRequest(routesDir, url, methods))
  }

  method MakeRequest(routesDir: string, url: string, methods: seq<string>) returns (r: Option<(string, string)>)
    ensures r == Submission(routesDir, url, methods)
  {
    if Incomplete(url, methods) {
      return None;
    }
    var code := GenerateRouteCode(methods, url);
    r := Some((routesDir + "/" + UrlToFilePath(url), code));
  }

  class NewRouteDialog {
    var open: bool
    var urlPath: string
    var selectedMethods: seq<string>
    var isCreating: bool
    var error: Option<string>

    /** The form as it starts: the root path with GET chosen. */
    predicate FreshForm()
      reads this
    {
      urlPath == "/" && selectedMethods == ["GET"]
    }

    constructor(isOpen: bool)
      ensures open == isOpen && FreshForm()
      ensures !isCreating && error == None
    {
      open, urlPath, selectedMethods := isOpen, "/", ["GET"];
      isCreating, error := false, None;
    }

    method SetUrlPath(path: string)
      modifies this
      ensures urlPath == path
      ensures open == old(open) && selectedMethods == old(selectedMethods)
      ensures isCreating == old(isCreating) && error == old(error)
    {
      urlPath := path;
    }

    method ToggleSelectedMethod(verb: string)
      modifies this
      ensures selectedMethods == ToggleMethod(old(selectedMethods), verb)
      ensures verb in selectedMethods <==> verb !in old(selectedMethods)
      ensures open == old(open) && urlPath == old(urlPath)
      ensures isCreating == old(isCreating) && error == old(error)
    {
      selectedMethods := ToggleMethod(selectedMethods, verb);
    }

    /** `handleCreate`: a blank path or no method only sets the error and
        writes nothing. Otherwise the route module for the chosen methods is
        written to its file under `routesDir`; on success the dialog closes
        and the form is reset, on failure the error is shown. The write is
        returned, and its outcome is given. */
    method HandleCreate(routesDir: string, outcome: CreateOutcome) returns (write: Option<(string, string)>)
      requires !isCreating
      modifies this
      ensures write == Submission(routesDir, old(urlPath), old(selectedMethods))
      ensures write.None? ==> error == Some(RequiredMessage) && open == old(open)
      ensures write.Some? && outcome.Created? ==> !open && FreshForm() && error == None
      ensures write.Some? && outcome.Failed? ==> open == old(open) && error == Some(FailureMessage(outcome.message))
      ensures write.None? || outcome.Failed? ==> urlPath == old(urlPath) && selectedMethods == old(selectedMethods)
      ensures !isCreating
    {
      write := MakeRequest(routesDir, urlPath, selectedMethods);
      Respond(write.Some?, outcome);
    }

    /** The rest of `handleCreate`: an incomplete form only shows that it is
        required; otherwise success closes the dialog and resets the form,
        failure shows the error, and either way the dialog is no longer
        busy. */
    method Respond(complete: bool, outcome: CreateOutcome)
      modifies this
      ensures !complete ==> error == Some(RequiredMessage) && open == old(open)
      ensures complete && outcome.Created? ==> !open && FreshForm() && error == None
      ensures complete && outcome.Failed? ==> open == old(open) && error == Some(FailureMessage(outcome.message))
      ensures !complete || outcome.Failed? ==> urlPath == old(urlPath) && selectedMethods == old(selectedMethods)
      ensures !complete ==> isCreating == old(isCreating)
      ensures complete ==> !isCreating
    {
      if !complete {
        error := Some(RequiredMessage);
        return;
      }
      isCreating, error := true, None;
      match outcome {
        case Created =>
          open := false;
          urlPath := "/";
          selectedMethods := ["GET"];
        case Failed(message) =>
          error := Some(FailureMessage(message));
      }
      isCreating := false;
    }
  }
}
