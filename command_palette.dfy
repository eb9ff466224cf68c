/** The command palette (gui-edit/src/components/command-palette/CommandPalette.tsx):
    the fixed list of commands, the search that narrows it, the grouping by
    category the list is drawn from, and what picking a command does to the
    layout and editor stores. */
module CommandPaletteModel {
  import opened Wrappers
  import opened Strings
  import opened UiStoreModel
  import opened EditorStoreModel
  import opened Grouping

  /** What a command's `action` does. */
  datatype Action =
    | ToggleSidebarAction
    | TogglePanelAction
    | ShowSidebar(sidebar: SidebarView)
    | ShowPanel(panel: PanelView)
    | SaveFile
    | OpenSettings

  datatype Command = Command(id: string, title: string, shortcut: Option<string>, category: string, action: Action)

  /** The twelve commands, in the order the palette lists them. */
  const Commands: seq<Command> := [
    Command("toggle-sidebar", "Toggle Sidebar", Some("Ctrl+B"), "View", ToggleSidebarAction),
    Command("toggle-panel", "Toggle Panel", Some("Ctrl+J"), "View", TogglePanelAction),
    Command("show-explorer", "Show Explorer", None, "View", ShowSidebar(Explorer)),
    Command("show-routes", "Show Routes", None, "View", ShowSidebar(Routes)),
    Command("show-components", "Show Components", None, "View", ShowSidebar(Components)),
    Command("show-git", "Show Source Control", None, "View", ShowSidebar(Git)),
    Command("show-search", "Show Search", Some("Ctrl+Shift+F"), "View", ShowSidebar(Search)),
    Command("show-terminal", "Show Terminal", Some("Ctrl+`"), "Terminal", ShowPanel(Terminal)),
    Command("show-problems", "Show Problems", None, "View", ShowPanel(Problems)),
    Command("show-api-tester", "Show API Tester", None, "View", ShowPanel(ApiTester)),
    Command("save-file", "Save File", Some("Ctrl+S"), "File", SaveFile),
    Command("open-settings", "Open Settings", Some("Ctrl+,"), "Preferences", OpenSettings)
  ]

  // ---------------------------------------------------------------------
  // Filtering

  /** The filter's test, for an already lowercased search. */
  predicate Matches(c: Command, lower: string) {
    Contains(ToLower(c.title), lower) || Contains(ToLower(c.category), lower)
  }

  /** `commands.filter(...)`: the matching commands, in their order. */
  function Keep(cmds: seq<Command>, lower: string): (r: seq<Command>)
    ensures |r| <= |cmds|
  {
    if cmds == [] then []
    else (if Matches(cmds[0], lower) then [cmds[0]] else []) + Keep(cmds[1..], lower)
  }

  /** `filteredCommands`: every command for an empty search, otherwise those
      whose label or category contains the search, ignoring case. */
  function Filtered(cmds: seq<Command>, search: string): seq<Command> {
    if search == "" then cmds else Keep(cmds, ToLower(search))
  }

  /** The filter keeps exactly the matching commands. */
  lemma {:induction false} KeepMembers(cmds: seq<Command>, lower: string)
    ensures forall c :: c in Keep(cmds, lower) <==> c in cmds && Matches(c, lower)
  {
    if cmds != [] {
      KeepMembers(cmds[1..], lower);
      assert cmds == [cmds[0]] + cmds[1..];
    }
  }

  /** The filter keeps the order: filtering a concatenation concatenates the
      filtered parts. */
  lemma {:induction false} KeepAppend(a: seq<Command>, b: seq<Command>, lower: string)
    ensures Keep(a + b, lower) == Keep(a, lower) + Keep(b, lower)
  {
    if a == [] {
      assert a + b == b;
    } else {
      assert (a + b)[0] == a[0];
      assert (a + b)[1..] == a[1..] + b;
      KeepAppend(a[1..], b, lower);
      var h := if Matches(a[0], lower) then [a[0]] else [];
      assert h + (Keep(a[1..], lower) + Keep(b, lower)) == h + Keep(a[1..], lower) + Keep(b, lower);
    }
  }

  /** Every text contains the empty text, so the empty search's shortcut
      returns what filtering would. */
  lemma {:induction false} KeepEmpty(cmds: seq<Command>)
    ensures Keep(cmds, "") == cmds
  {
    if cmds != [] {
      assert OccursAt(ToLower(cmds[0].title), "", 0);
      KeepEmpty(cmds[1..]);
    }
  }

  /** The search ignores case: a search and its lowercase pick the same
      commands. */
  lemma FilteredIgnoresCase(cmds: seq<Command>, search: string)
    ensures Filtered(cmds, search) == Filtered(cmds, ToLower(search))
  {
    ToLowerIdempotent(search);
  }

  /** What the search leaves: the commands that match it, in their order,
      and all of them for the empty search. */
  lemma FilteredMeaning(cmds: seq<Command>, search: string)
    ensures forall c :: c in Filtered(cmds, search) <==> c in cmds && Matches(c, ToLower(search))
    ensures Filtered(cmds, search) == Keep(cmds, ToLower(search))
  {
    if search == "" {
      KeepEmpty(cmds);
    }
    KeepMembers(cmds, ToLower(search));
  }

  // ---------------------------------------------------------------------
  // Grouping

  function CategoryOf(c: Command): string {
    c.category
  }

  /** `groupedCommands`: one group per category, in the order the categories
      first occur, each with its commands in their order; together the groups
      hold every command once. */
  method GroupCommands(filtered: seq<Command>) returns (groups: seq<Group<Command>>)
    ensures groups == Grouped(filtered, CategoryOf)
    ensures forall i, j :: 0 <= i < j < |groups| ==> groups[i].key != groups[j].key
    ensures forall i, c :: 0 <= i < |groups| ==>
      (c in groups[i].items <==> c in filtered && c.category == groups[i].key)
    ensures forall c :: c in filtered ==> exists i :: 0 <= i < |groups| && groups[i].key == c.category
    ensures Total(groups) == |filtered|
  {
    groups := GroupBy(filtered, CategoryOf);
    GroupedMeaning(filtered, CategoryOf);
    GroupedTotal(filtered, CategoryOf);
  }

  // ---------------------------------------------------------------------
  // Selecting a command

  /** `commands.find(c => c.id === commandId)`. */
  function FindCommand(cmds: seq<Command>, commandId: string): (r: Option<Command>)
    ensures r.Some? ==> r.value in cmds && r.value.id == commandId
    ensures r.None? <==> forall c :: c in cmds ==> c.id != commandId
  {
    if cmds == [] then None
    else if cmds[0].id == commandId then Some(cmds[0])
    else
      assert forall c :: c in cmds ==> c == cmds[0] || c in cmds[1..];
      FindCommand(cmds[1..], commandId)
  }

  /** `activeTab`: the first tab with the active id; none when no id is
      active. */
  function ActiveTab(tabs: seq<EditorTab>, activeTabId: Option<string>): (r: Option<EditorTab>)
    ensures r.Some? ==> r.value in tabs && activeTabId == Some(r.value.id)
    ensures r.None? <==> activeTabId.None? || forall i :: 0 <= i < |tabs| ==> tabs[i].id != activeTabId.value
  {
    if activeTabId.None? then None
    else
      var k := IdIndex(tabs, activeTabId.value);
      if k < 0 then None else Some(tabs[k])
  }

  /** The tab `saveCurrentFile` writes: the active tab, when it has unsaved
      changes. */
  function SaveTarget(tabs: seq<EditorTab>, activeTabId: Option<string>): (r: Option<EditorTab>)
    ensures r.Some? <==> ActiveTab(tabs, activeTabId).Some? && ActiveTab(tabs, activeTabId).value.isDirty
    ensures r.Some? ==> r == ActiveTab(tabs, activeTabId)
  {
    var t := ActiveTab(tabs, activeTabId);
    if t.Some? && t.value.isDirty then t else None
  }

  /** `saveCurrentFile`: nothing without an active tab with unsaved changes;
      otherwise its path and content are written and, when the write
      succeeds, every tab with its id is marked saved with that content, so
      that a second save writes nothing. */
  method SaveCurrentFile(editor: EditorStore, writeOk: bool) returns (write: Option<(string, string)>)
    modifies editor
    ensures var t := SaveTarget(old(editor.tabs), old(editor.activeTabId));
      (write.Some? <==> t.Some?) && (t.Some? ==> write.value == (t.value.path, t.value.content))
    ensures editor.activeTabId == old(editor.activeTabId)
    ensures !(write.Some? && writeOk) ==> editor.tabs == old(editor.tabs)
    ensures write.Some? && writeOk ==>
      var t := SaveTarget(old(editor.tabs), old(editor.activeTabId)).value;
      |editor.tabs| == |old(editor.tabs)| &&
      (forall i :: 0 <= i < |editor.tabs| ==>
        editor.tabs[i] == if old(editor.tabs)[i].id == t.id
        then old(editor.tabs)[i].(content := t.content, originalContent := t.content, isDirty := false)
        else old(editor.tabs)[i])
    ensures write.Some? && writeOk ==> SaveTarget(editor.tabs, editor.activeTabId) == None
  {
    var activeTab := SaveTarget(editor.tabs, editor.activeTabId);
    if activeTab.None? {
      return None;
    }
    var t := activeTab.value;
    write := Some((t.path, t.content));
    if writeOk {
      editor.MarkSaved(t.id, t.content);
    }
  }

  /** A command's `action`. The panel commands are `setPanelView` followed
      by `togglePanel` when that left the panel hidden, so they always end
      with the panel open on their view; the sidebar commands keep the
      toggle rule of `setSidebarView`. */
  method RunAction(ui: UiStore, editor: EditorStore, action: Action, writeOk: bool)
    returns (write: Option<(string, string)>)
    requires ui.Valid()
    modifies ui, editor
    ensures ui.Valid()
    ensures ui.commandPaletteOpen == old(ui.commandPaletteOpen) && ui.quickOpenOpen == old(ui.quickOpenOpen)
    ensures ui.sidebarWidth == old(ui.sidebarWidth) && ui.panelHeight == old(ui.panelHeight)
    ensures action.ToggleSidebarAction? ==> ui.sidebarVisible == !old(ui.sidebarVisible)
    ensures action.TogglePanelAction? ==> ui.panelVisible == !old(ui.panelVisible)
    ensures action.ShowSidebar? ==>
      ui.sidebarView == action.sidebar &&
      ui.sidebarVisible == !(old(ui.sidebarVisible) && old(ui.sidebarView) == action.sidebar)
    ensures action.ShowPanel? ==> ui.panelVisible && ui.panelView == action.panel
    ensures !action.ToggleSidebarAction? && !action.ShowSidebar? ==>
      ui.sidebarVisible == old(ui.sidebarVisible) && ui.sidebarView == old(ui.sidebarView)
    ensures action.ToggleSidebarAction? ==> ui.sidebarView == old(ui.sidebarView)
    ensures !action.TogglePanelAction? && !action.ShowPanel? ==>
      ui.panelVisible == old(ui.panelVisible) && ui.panelView == old(ui.panelView)
    ensures action.TogglePanelAction? ==> ui.panelView == old(ui.panelView)
    ensures !action.SaveFile? ==> write == None && editor.tabs == old(editor.tabs)
    ensures editor.activeTabId == old(editor.activeTabId)
    ensures action.SaveFile? ==>
      var t := SaveTarget(old(editor.tabs), old(editor.activeTabId));
      (write.Some? <==> t.Some?) && (t.Some? ==> write.value == (t.value.path, t.value.content)) &&
      (!(write.Some? && writeOk) ==> editor.tabs == old(editor.tabs))
  {
    write := None;
    match action {
      case ToggleSidebarAction => ui.ToggleSidebar();
      case TogglePanelAction => ui.TogglePanel();
      case ShowSidebar(view) => ui.SetSidebarView(view);
      case ShowPanel(view) =>
        ui.SetPanelView(view);
        if !ui.panelVisible {
          ui.TogglePanel();
        }
      case SaveFile => write := SaveCurrentFile(editor, writeOk);
      case OpenSettings =>
    }
  }

  /** `handleSelect`: an id no command has changes nothing; otherwise the
      command's action runs and the palette closes. */
  method HandleSelect(ui: UiStore, editor: EditorStore, commandId: string, writeOk: bool)
    returns (ran: Option<Action>, write: Option<(string, string)>)
    requires ui.Valid()
    modifies ui, editor
    ensures ui.Valid()
    ensures ran.Some? <==> FindCommand(Commands, commandId).Some?
    ensures ran.Some? ==> ran.value == FindCommand(Commands, commandId).value.action && !ui.commandPaletteOpen
    ensures ran.None? ==>
      write == None && editor.tabs == old(editor.tabs) &&
      ui.commandPaletteOpen == old(ui.commandPaletteOpen) &&
      ui.sidebarVisible == old(ui.sidebarVisible) && ui.sidebarView == old(ui.sidebarView) &&
      ui.panelVisible == old(ui.panelVisible) && ui.panelView == old(ui.panelView)
    ensures ran == Some(SaveFile) ==> var t := SaveTarget(old(editor.tabs), old(editor.activeTabId));
      (write.Some? <==> t.Some?) && (t.Some? ==> write.value == (t.value.path, t.value.content))
    ensures ran.Some? && ran.value.ShowPanel? ==> ui.panelVisible && ui.panelView == ran.value.panel
    ensures ui.quickOpenOpen == old(ui.quickOpenOpen) && editor.activeTabId == old(editor.activeTabId)
  {
    var command := FindCommand(Commands, commandId);
    if command.None? {
      return None, None;
    }
    write := RunAction(ui, editor, command.value.action, writeOk);
    ui.CloseCommandPalette();
    ran := Some(command.value.action);
  }

  /** The Escape key closes an open palette; any other key, or a closed
      palette, changes nothing. */
  method HandleKeyDown(ui: UiStore, key: string)
    requires ui.Valid()
    modifies ui
    ensures ui.Valid()
    ensures ui.commandPaletteOpen == (old(ui.commandPaletteOpen) && key != "Escape")
    ensures ui.quickOpenOpen == old(ui.quickOpenOpen)
    ensures ui.sidebarVisible == old(ui.sidebarVisible) && ui.sidebarView == old(ui.sidebarView)
    ensures ui.panelVisible == old(ui.panelVisible) && ui.panelView == old(ui.panelView)
  {
    if key == "Escape" && ui.commandPaletteOpen {
      ui.CloseCommandPalette();
    }
  }
}
