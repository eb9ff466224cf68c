/** The search side panel (gui-edit/src/components/search/SearchPanel.tsx):
    the query and its options, the results grouped by file, the set of files
    shown expanded, and how a result line is shown. The search itself
    (`searchInFiles`) and reading a file are outcomes given to the model. */
module SearchPanelModel {
  import opened Wrappers
  import opened Strings
  import opened Grouping
  import opened EditorStoreModel
  import QuickOpenModel

  /** One hit: the file, the line and, when known, where the match is in
      the line. */
  datatype SearchResult = SearchResult(filePath: string, lineNumber: int, lineContent: string,
                                       matchStart: Option<int>, matchEnd: Option<int>)

  function FilePathOf(r: SearchResult): string {
    r.filePath
  }

  const IncludePatterns: seq<string> := ["**/*.ts", "**/*.tsx", "**/*.js", "**/*.jsx", "**/*.json",
                                         "**/*.md", "**/*.css", "**/*.rs", "**/*.toml"]
  const ExcludePatterns: seq<string> := ["**/node_modules/**", "**/target/**", "**/dist/**", "**/.git/**"]

  /** What `searchInFiles` is asked, besides the two fixed pattern lists
      above, which every search passes unchanged. */
  datatype SearchRequest = SearchRequest(root: string, query: string, regex: bool, caseSensitive: bool)

  /** `new Set(prev)` with the path added when it was missing and deleted
      when it was there. */
  function Toggled(expanded: set<string>, filePath: string): (r: set<string>)
    ensures filePath in r <==> filePath !in expanded
    ensures forall p :: p != filePath ==> (p in r <==> p in expanded)
  {
    if filePath in expanded then expanded - {filePath} else expanded + {filePath}
  }

  /** Toggling the same file twice changes nothing. */
  lemma ToggledTwice(expanded: set<string>, filePath: string)
    ensures Toggled(Toggled(expanded, filePath), filePath) == expanded
  {
  }

  /** The keys of the record, as the set `new Set(Object.keys(grouped))`. */
  function KeySet<T>(groups: seq<Group<T>>): (r: set<string>)
    ensures forall k :: k in r <==> exists i :: 0 <= i < |groups| && groups[i].key == k
  {
    set i | 0 <= i < |groups| :: groups[i].key
  }

  /** `getRelativePath`: the path as it is without a project, otherwise
      with the first occurrence of the project path and a slash removed. */
  function RelativeToProject(filePath: string, projectPath: Option<string>): (r: string)
    ensures projectPath.None? || projectPath.value == "" ==> r == filePath
  {
    if projectPath.None? || projectPath.value == "" then filePath
    else QuickOpenModel.RelativePath(filePath, projectPath.value)
  }

  lemma RelativeToProjectUnder(root: string, rest: string)
    requires root != ""
    ensures RelativeToProject(root + "/" + rest, Some(root)) == rest
  {
    QuickOpenModel.RelativePathUnder(root, rest);
  }

  // ---------------------------------------------------------------------
  // Showing a result line

  /** A result line: plain, or in three parts with the middle one marked. */
  datatype LineView = Plain(text: string) | Highlighted(before: string, marked: string, after: string)

  /** `highlightMatch(text, matchStart, matchEnd)`. */
  function HighlightMatch(text: string, matchStart: int, matchEnd: int): LineView {
    Highlighted(JsSlice(text, 0, matchStart), JsSlice(text, matchStart, matchEnd), JsSliceFrom(text, matchEnd))
  }

  /** The three parts rejoin to the text whenever the start does not come
      after the end, and the middle is the text between the two offsets. */
  lemma HighlightRejoins(text: string, matchStart: int, matchEnd: int)
    requires 0 <= matchStart <= matchEnd
    ensures var v := HighlightMatch(text, matchStart, matchEnd);
      v.before + v.marked + v.after == text &&
      (matchEnd <= |text| ==> v.marked == text[matchStart..matchEnd])
  {
    var x, y := JsIndex(matchStart, |text|), JsIndex(matchEnd, |text|);
    assert text[..x] + text[x..y] + text[y..] == text;
  }

  /** How the component shows a result as written: the offsets are applied to
      the trimmed line. */
  function ShownAsWritten(r: SearchResult): LineView {
    if r.matchStart.Some? && r.matchEnd.Some? then HighlightMatch(Trim(r.lineContent), r.matchStart.value, r.matchEnd.value)
    else Plain(Trim(r.lineContent))
  }

  /** A line indented by blanks with its match on the word after them (such
      as "  foo" with the match at 2 to 5): the offsets count the blanks the
      trimmed line no longer has, and the marked part is not the match. */
  lemma ShownAsWrittenMisplaced(filePath: string, lineNumber: int, pad: string, word: string)
    requires pad != [] && AllSpace(pad)
    requires word != [] && !IsSpace(word[0]) && !IsSpace(word[|word| - 1])
    ensures var r := SearchResult(filePath, lineNumber, pad + word, Some(|pad|), Some(|pad| + |word|));
      r.lineContent[|pad|..|pad| + |word|] == word && ShownAsWritten(r).marked != word
  {
    var line := pad + word;
    assert line[|pad|..|pad| + |word|] == word;
    TrimmedPadded(pad, word);
    var r := SearchResult(filePath, lineNumber, line, Some(|pad|), Some(|pad| + |word|));
    ShownAsWrittenTrimmed(r, word);
    var v := HighlightMatch(word, |pad|, |pad| + |word|);
    assert |v.marked| < |word|;
  }

  lemma ShownAsWrittenTrimmed(r: SearchResult, t: string)
    requires r.matchStart.Some? && r.matchEnd.Some? && Trim(r.lineContent) == t
    ensures ShownAsWritten(r) == HighlightMatch(t, r.matchStart.value, r.matchEnd.value)
  {
  }

  lemma TrimmedPadded(pad: string, word: string)
    requires AllSpace(pad)
    requires word != [] && !IsSpace(word[0]) && !IsSpace(word[|word| - 1])
    ensures Trim(pad + word) == word
  {
    TrimStartAppend(pad, word);
    TrimStartAllSpace(pad);
    assert [] + word == word;
    TrimUnchanged(word);
  }

  /** How a result is evidently meant to be shown: the offsets are applied to
      the line as searched, then the blanks around it are dropped. */
  function Shown(r: SearchResult): LineView {
    var line := r.lineContent;
    if r.matchStart.Some? && r.matchEnd.Some? then
      var s, e := r.matchStart.value, r.matchEnd.value;
      Highlighted(TrimStart(JsSlice(line, 0, s)), JsSlice(line, s, e), TrimEnd(JsSliceFrom(line, e)))
    else Plain(Trim(line))
  }

  /** The marked part is the match, and for a match that neither starts nor
      ends with a blank the three parts rejoin to the trimmed line. */
  lemma ShownMarksMatch(r: SearchResult)
    requires r.matchStart.Some? && r.matchEnd.Some?
    requires 0 <= r.matchStart.value <= r.matchEnd.value <= |r.lineContent|
    ensures var v := Shown(r); var s, e := r.matchStart.value, r.matchEnd.value;
      v.Highlighted? && v.marked == r.lineContent[s..e] &&
      (s < e && !IsSpace(r.lineContent[s]) && !IsSpace(r.lineContent[e - 1]) ==>
        v.before + v.marked + v.after == Trim(r.lineContent))
  {
    var line := r.lineContent;
    var s, e := r.matchStart.value, r.matchEnd.value;
    var pre, m, post := line[..s], line[s..e], line[e..];
    assert JsSlice(line, 0, s) == pre && JsSlice(line, s, e) == m && JsSliceFrom(line, e) == post;
    assert line == pre + m + post;
    if s < e && !IsSpace(line[s]) && !IsSpace(line[e - 1]) {
      TrimAround(pre, m, post);
    }
  }

  // ---------------------------------------------------------------------
  // The panel

  /** The grouping loop of `doSearch` and the set of its keys. */
  method GroupByFile(searchResults: seq<SearchResult>) returns (grouped: seq<Group<SearchResult>>, expanded: set<string>)
    ensures grouped == Grouped(searchResults, FilePathOf) && expanded == KeySet(grouped)
  {
    grouped := GroupBy(searchResults, FilePathOf);
    expanded := KeySet(grouped);
  }

  class SearchPanel {
    var query: string
    var isRegex: bool
    var caseSensitive: bool
    var results: seq<SearchResult>
    var groupedResults: seq<Group<SearchResult>>
    var expandedFiles: set<string>
    var isSearching: bool

    constructor()
      ensures query == "" && !isRegex && !caseSensitive && !isSearching
      ensures results == [] && groupedResults == [] && expandedFiles == {}
    {
      query, isRegex, caseSensitive := "", false, false;
      results, groupedResults, expandedFiles, isSearching := [], [], {}, false;
    }

    method SetQuery(q: string)
      modifies this
      ensures query == q && isRegex == old(isRegex) && caseSensitive == old(caseSensitive)
      ensures results == old(results) && groupedResults == old(groupedResults)
      ensures expandedFiles == old(expandedFiles) && isSearching == old(isSearching)
    {
      query := q;
    }

    method SetOptions(regex: bool, matchCase: bool)
      modifies this
      ensures isRegex == regex && caseSensitive == matchCase && query == old(query)
      ensures results == old(results) && groupedResults == old(groupedResults)
      ensures expandedFiles == old(expandedFiles) && isSearching == old(isSearching)
    {
      isRegex, caseSensitive := regex, matchCase;
    }

    /** `doSearch`: nothing for a blank query or without a project; otherwise
        the search is asked with the query and options, and when it answers
        the results, their grouping by file and the set of all their files as
        the expanded set replace the old ones. The searching flag ends
        down. */
    method DoSearch(projectPath: Option<string>, outcome: Result<seq<SearchResult>, string>)
      returns (request: Option<SearchRequest>)
      requires !isSearching
      modifies this
      ensures request.Some? <==> Trim(old(query)) != "" && projectPath.Some? && projectPath.value != ""
      ensures request.Some? ==>
        request.value == SearchRequest(projectPath.value, old(query), old(isRegex), old(caseSensitive))
      ensures request.Some? && outcome.Ok? ==>
        results == outcome.value && groupedResults == Grouped(outcome.value, FilePathOf) &&
        expandedFiles == KeySet(groupedResults)
      ensures request.None? || outcome.Err? ==>
        results == old(results) && groupedResults == old(groupedResults) && expandedFiles == old(expandedFiles)
      ensures query == old(query) && isRegex == old(isRegex) && caseSensitive == old(caseSensitive)
      ensures !isSearching
    {
      var q, regex, matchCase := query, isRegex, caseSensitive;
      if Trim(q) == "" || projectPath.None? || projectPath.value == "" {
        return None;
      }
      request := Some(SearchRequest(projectPath.value, q, regex, matchCase));
      isSearching := true;
      if outcome.Ok? {
        StoreResults(outcome.value);
      }
      isSearching := false;
    }

    /** The results, their grouping by file and the set of all their files,
        which is what `doSearch` keeps of an answer. */
    method StoreResults(searchResults: seq<SearchResult>)
      modifies this
      ensures results == searchResults && groupedResults == Grouped(searchResults, FilePathOf)
      ensures expandedFiles == KeySet(groupedResults)
      ensures query == old(query) && isRegex == old(isRegex) && caseSensitive == old(caseSensitive)
      ensures isSearching == old(isSearching)
    {
      var grouped, expanded := GroupByFile(searchResults);
      results, groupedResults, expandedFiles := searchResults, grouped, expanded;
    }

    /** The effect that follows a change of the query or options: a blank
        query clears the results and their grouping and asks nothing;
        otherwise the search runs once the delay is over. */
    method QueryChanged(projectPath: Option<string>, outcome: Result<seq<SearchResult>, string>)
      returns (request: Option<SearchRequest>)
      requires !isSearching
      modifies this
      ensures Trim(old(query)) == "" ==>
        request == None && results == [] && groupedResults == [] && expandedFiles == old(expandedFiles)
      ensures Trim(old(query)) != "" ==>
        (request.Some? <==> projectPath.Some? && projectPath.value != "")
      ensures request.Some? && outcome.Ok? ==>
        results == outcome.value && groupedResults == Grouped(outcome.value, FilePathOf) &&
        expandedFiles == KeySet(groupedResults)
      ensures query == old(query) && !isSearching
    {
      if Trim(query) == "" {
        results, groupedResults := [], [];
        return None;
      }
      request := DoSearch(projectPath, outcome);
    }

    /** `toggleFile`. */
    method ToggleFile(filePath: string)
      modifies this
      ensures expandedFiles == Toggled(old(expandedFiles), filePath)
      ensures query == old(query) && results == old(results) && groupedResults == old(groupedResults)
      ensures isRegex == old(isRegex) && caseSensitive == old(caseSensitive) && isSearching == old(isSearching)
    {
      expandedFiles := Toggled(expandedFiles, filePath);
    }
  }

  /** After a search every file with a result has one group, under which its
      results stand in their order; the groups hold every result once, and
      every group is expanded. */
  lemma SearchGroups(rs: seq<SearchResult>)
    ensures var g := Grouped(rs, FilePathOf);
      (forall i, j :: 0 <= i < j < |g| ==> g[i].key != g[j].key) &&
      (forall i, x :: 0 <= i < |g| ==> (x in g[i].items <==> x in rs && x.filePath == g[i].key)) &&
      Total(g) == |rs| &&
      (forall x :: x in rs ==> x.filePath in KeySet(g))
  {
    var g := Grouped(rs, FilePathOf);
    GroupedMeaning(rs, FilePathOf);
    GroupedTotal(rs, FilePathOf);
    forall i, x | 0 <= i < |g| ensures x in g[i].items <==> x in rs && x.filePath == g[i].key {
      assert FilePathOf(x) == x.filePath;
    }
    forall x | x in rs ensures x.filePath in KeySet(g) {
      var i :| 0 <= i < |g| && g[i].key == FilePathOf(x);
    }
  }

  /** The name of the opened tab: the path's last segment, or the whole path
      when that segment is empty. */
  function FileName(filePath: string): (r: string)
    ensures r != "" || filePath == ""
  {
    var parts := Split(filePath, '/');
    var last := parts[|parts| - 1];
    if last != "" then last else filePath
  }

  lemma FileNameLast(dir: string, name: string)
    requires name != "" && '/' !in name
    ensures FileName(dir + "/" + name) == name
  {
    SplitSnoc(dir, '/', name);
  }

  /** `openResult`: when the file can be read, it opens in a tab named after
      its last segment (or becomes the active tab when already open); a read
      that fails changes nothing. */
  method OpenResult(editor: EditorStore, result: SearchResult, read: Result<string, string>)
    returns (tab: Option<NewTab>)
    modifies editor
    ensures tab.Some? <==> read.Ok?
    ensures read.Ok? ==>
      var name := FileName(result.filePath);
      tab.value == NewTab(result.filePath, result.filePath, name, read.value,
                          QuickOpenModel.LanguageOf(QuickOpenModel.Ext(name)), false)
    ensures read.Err? ==> editor.tabs == old(editor.tabs) && editor.activeTabId == old(editor.activeTabId)
    ensures read.Ok? ==>
      var k := PathIndex(old(editor.tabs), result.filePath);
      (k >= 0 ==> editor.tabs == old(editor.tabs) && editor.activeTabId == Some(old(editor.tabs)[k].id)) &&
      (k < 0 ==> editor.tabs == old(editor.tabs) + [Opened(tab.value)] && editor.activeTabId == Some(result.filePath))
  {
    if read.Err? {
      return None;
    }
    var name := FileName(result.filePath);
    var t := NewTab(result.filePath, result.filePath, name, read.value,
                    QuickOpenModel.LanguageOf(QuickOpenModel.Ext(name)), false);
    editor.OpenTab(t);
    tab := Some(t);
  }
}
