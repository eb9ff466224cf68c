/** The layout store (gui-edit/src/stores/ui.ts): the sidebar, the bottom panel,
    and the two palettes. Sizes are integers. */
module UiStoreModel {

  datatype SidebarView = Explorer | Routes | Components | Git | Search
  datatype PanelView = Terminal | Problems | Output | ApiTester

  const MinSidebarWidth: int := 200
  const MaxSidebarWidth: int := 500
  const MinPanelHeight: int := 100
  const MaxPanelHeight: int := 500

  /** `Math.max(lo, Math.min(hi, x))`. */
  function Clamp(lo: int, hi: int, x: int): (r: int)
    requires lo <= hi
    ensures lo <= r <= hi
    ensures lo <= x <= hi ==> r == x
    ensures x < lo ==> r == lo
    ensures x > hi ==> r == hi
  {
    var m := if hi < x then hi else x;
    if lo > m then lo else m
  }

  class UiStore {
    var sidebarVisible: bool
    var sidebarView: SidebarView
    var sidebarWidth: int
    var panelVisible: bool
    var panelView: PanelView
    var panelHeight: int
    var commandPaletteOpen: bool
    var quickOpenOpen: bool

    /** Sizes within their bounds, and never both palettes open. */
    ghost predicate Valid()
      reads this
    {
      MinSidebarWidth <= sidebarWidth <= MaxSidebarWidth &&
      MinPanelHeight <= panelHeight <= MaxPanelHeight &&
      !(commandPaletteOpen && quickOpenOpen)
    }

    /** The initial state. */
    constructor()
      ensures Valid()
      ensures sidebarVisible && sidebarView == Explorer && sidebarWidth == 260
      ensures !panelVisible && panelView == Terminal && panelHeight == 200
      ensures !commandPaletteOpen && !quickOpenOpen
    {
      sidebarVisible, sidebarView, sidebarWidth := true, Explorer, 260;
      panelVisible, panelView, panelHeight := false, Terminal, 200;
      commandPaletteOpen, quickOpenOpen := false, false;
    }

    method ToggleSidebar()
      requires Valid()
      modifies this
      ensures Valid()
      ensures sidebarVisible == !old(sidebarVisible)
      ensures sidebarView == old(sidebarView) && sidebarWidth == old(sidebarWidth)
      ensures panelVisible == old(panelVisible) && panelView == old(panelView) && panelHeight == old(panelHeight)
      ensures commandPaletteOpen == old(commandPaletteOpen) && quickOpenOpen == old(quickOpenOpen)
    {
      sidebarVisible := !sidebarVisible;
    }

    /** `setSidebarView`: picking the view already shown hides the sidebar; any
        other pick shows the sidebar on that view. */
    method SetSidebarView(view: SidebarView)
      requires Valid()
      modifies this
      ensures Valid()
      ensures old(sidebarVisible) && old(sidebarView) == view ==> !sidebarVisible && sidebarView == view
      ensures !(old(sidebarVisible) && old(sidebarView) == view) ==> sidebarVisible && sidebarView == view
      ensures sidebarWidth == old(sidebarWidth)
      ensures panelVisible == old(panelVisible) && panelView == old(panelView) && panelHeight == old(panelHeight)
      ensures commandPaletteOpen == old(commandPaletteOpen) && quickOpenOpen == old(quickOpenOpen)
    {
      if sidebarVisible && sidebarView == view {
        sidebarVisible := false;
      } else {
        sidebarVisible, sidebarView := true, view;
      }
    }

    method SetSidebarWidth(width: int)
      requires Valid()
      modifies this
      ensures Valid()
      ensures sidebarWidth == Clamp(MinSidebarWidth, MaxSidebarWidth, width)
      ensures sidebarVisible == old(sidebarVisible) && sidebarView == old(sidebarView)
      ensures panelVisible == old(panelVisible) && panelView == old(panelView) && panelHeight == old(panelHeight)
      ensures commandPaletteOpen == old(commandPaletteOpen) && quickOpenOpen == old(quickOpenOpen)
    {
      sidebarWidth := Clamp(MinSidebarWidth, MaxSidebarWidth, width);
    }

    method TogglePanel()
      requires Valid()
      modifies this
      ensures Valid()
      ensures panelVisible == !old(panelVisible)
      ensures panelView == old(panelView) && panelHeight == old(panelHeight)
      ensures sidebarVisible == old(sidebarVisible) && sidebarView == old(sidebarView) && sidebarWidth == old(sidebarWidth)
      ensures commandPaletteOpen == old(commandPaletteOpen) && quickOpenOpen == old(quickOpenOpen)
    {
      panelVisible := !panelVisible;
    }

    /** `setPanelView`: the same toggle rule as the sidebar's. */
    method SetPanelView(view: PanelView)
      requires Valid()
      modifies this
      ensures Valid()
      ensures old(panelVisible) && old(panelView) == view ==> !panelVisible && panelView == view
      ensures !(old(panelVisible) && old(panelView) == view) ==> panelVisible && panelView == view
      ensures panelHeight == old(panelHeight)
      ensures sidebarVisible == old(sidebarVisible) && sidebarView == old(sidebarView) && sidebarWidth == old(sidebarWidth)
      ensures commandPaletteOpen == old(commandPaletteOpen) && quickOpenOpen == old(quickOpenOpen)
    {
      if panelVisible && panelView == view {
        panelVisible := false;
      } else {
        panelVisible, panelView := true, view;
      }
    }

    method SetPanelHeight(height: int)
      requires Valid()
      modifies this
      ensures Valid()
      ensures panelHeight == Clamp(MinPanelHeight, MaxPanelHeight, height)
      ensures panelVisible == old(panelVisible) && panelView == old(panelView)
      ensures sidebarVisible == old(sidebarVisible) && sidebarView == old(sidebarView) && sidebarWidth == old(sidebarWidth)
      ensures commandPaletteOpen == old(commandPaletteOpen) && quickOpenOpen == old(quickOpenOpen)
    {
      panelHeight := Clamp(MinPanelHeight, MaxPanelHeight, height);
    }

    /** Opening the command palette closes quick-open. */
    method OpenCommandPalette()
      requires Valid()
      modifies this
      ensures Valid()
      ensures commandPaletteOpen && !quickOpenOpen
      ensures sidebarVisible == old(sidebarVisible) && sidebarView == old(sidebarView) && sidebarWidth == old(sidebarWidth)
      ensures panelVisible == old(panelVisible) && panelView == old(panelView) && panelHeight == old(panelHeight)
    {
      commandPaletteOpen, quickOpenOpen := true, false;
    }

    method CloseCommandPalette()
      requires Valid()
      modifies this
      ensures Valid()
      ensures !commandPaletteOpen && quickOpenOpen == old(quickOpenOpen)
      ensures sidebarVisible == old(sidebarVisible) && sidebarView == old(sidebarView) && sidebarWidth == old(sidebarWidth)
      ensures panelVisible == old(panelVisible) && panelView == old(panelView) && panelHeight == old(panelHeight)
    {
      commandPaletteOpen := false;
    }

    /** Opening quick-open closes the command palette. */
    method OpenQuickOpen()
      requires Valid()
      modifies this
      ensures Valid()
      ensures quickOpenOpen && !commandPaletteOpen
      ensures sidebarVisible == old(sidebarVisible) && sidebarView == old(sidebarView) && sidebarWidth == old(sidebarWidth)
      ensures panelVisible == old(panelVisible) && panelView == old(panelView) && panelHeight == old(panelHeight)
    {
      quickOpenOpen, commandPaletteOpen := true, false;
    }

    method CloseQuickOpen()
      requires Valid()
      modifies this
      ensures Valid()
      ensures !quickOpenOpen && commandPaletteOpen == old(commandPaletteOpen)
      ensures sidebarVisible == old(sidebarVisible) && sidebarView == old(sidebarView) && sidebarWidth == old(sidebarWidth)
      ensures panelVisible == old(panelVisible) && panelView == old(panelView) && panelHeight == old(panelHeight)
    {
      quickOpenOpen := false;
    }
  }
}
