/**
  Visibility of the sidebar panel: the transitions `BYCCore` performs on show, hide,
  toggle, start-up, window resize, keyboard shortcuts and clicks outside the panel.
  Every transition takes the viewport width it reads from `window.innerWidth`.
 */
module Sidebar {
  import opened Wrappers
  import opened Shell

  /**
    Closes every open submenu that has a `Collapse` instance (a submenu without
    one stays open) and resets `aria-expanded` on every menu link.
   */
  function CloseAllSubmenus(layout: Layout, s: Ui): (r: Ui)
    ensures r.open !! r.instances
    ensures forall c :: c in s.open && c !in s.instances ==> c in r.open
    ensures r.open <= s.open
    ensures r.expanded !! layout.menuLinks
    ensures forall e :: e in s.expanded && e !in layout.menuLinks ==> e in r.expanded
    ensures r.expanded <= s.expanded
    ensures r.(open := s.open, expanded := s.expanded) == s
  {
    s.(open := s.open - s.instances, expanded := s.expanded - layout.menuLinks)
  }

  /** Shows the panel; the overlay and the scroll lock go up only in a narrow viewport. */
  function Show(s: Ui, width: int): (r: Ui)
    ensures r.shown && !r.contentHidden && r.visibleKey == Some(true)
    ensures Narrow(width) ==> r.overlayShown && r.scrollLocked
    ensures !Narrow(width) ==> r.overlayShown == s.overlayShown && r.scrollLocked == s.scrollLocked
    ensures r.(shown := s.shown, contentHidden := s.contentHidden, overlayShown := s.overlayShown,
               scrollLocked := s.scrollLocked, visibleKey := s.visibleKey) == s
  {
    var r := s.(shown := true, contentHidden := false, visibleKey := Some(true));
    if Narrow(width) then r.(overlayShown := true, scrollLocked := true) else r
  }

  /** Closes the submenus, then hides the panel, the overlay and the scroll lock. */
  function Hide(layout: Layout, s: Ui): (r: Ui)
    ensures !r.shown && r.contentHidden && !r.overlayShown && !r.scrollLocked
    ensures r.visibleKey == Some(false)
    ensures r.open !! r.instances && r.expanded !! layout.menuLinks
    ensures forall c :: c in s.open && c !in s.instances ==> c in r.open
    ensures forall e :: e in s.expanded && e !in layout.menuLinks ==> e in r.expanded
    ensures r.open <= s.open && r.expanded <= s.expanded && r.instances == s.instances && r.active == s.active
    ensures r.(open := s.open, expanded := s.expanded, shown := s.shown, contentHidden := s.contentHidden,
               overlayShown := s.overlayShown, scrollLocked := s.scrollLocked, visibleKey := s.visibleKey) == s
  {
    CloseAllSubmenus(layout, s).(shown := false, contentHidden := true, overlayShown := false,
                                 scrollLocked := false, visibleKey := Some(false))
  }

  /** Hides a shown panel and shows a hidden one, at any width. */
  function Toggle(layout: Layout, s: Ui, width: int): (r: Ui)
    ensures r.shown == !s.shown
    ensures r.visibleKey == Some(r.shown)
    ensures r.contentHidden == s.shown
  {
    if s.shown then Hide(layout, s) else Show(s, width)
  }

  /**
    Start-up: the stored visibility wins; without one the panel is shown exactly
    in a wide viewport. Whatever is chosen is stored again.
   */
  function SetupInitialState(layout: Layout, s: Ui, width: int): (r: Ui)
    ensures s.visibleKey.Some? ==> r.shown == s.visibleKey.value
    ensures s.visibleKey.None? ==> r.shown == !Narrow(width)
    ensures r.visibleKey == Some(r.shown)
    ensures r.contentHidden == !r.shown
    ensures !r.shown ==> !r.overlayShown && r.open !! r.instances
  {
    if s.visibleKey.GetOr(!Narrow(width)) then Show(s, width) else Hide(layout, s)
  }

  /**
    Window resize, as written. Wide: the overlay and scroll lock go down and the legacy
    key, when present, is copied into `isCollapsed` (nothing in main.js reads it). Narrow: the
    `show` and legacy classes are removed, but the overlay, the scroll lock, the
    stored visibility and `sidebar-hidden` on the content are left as they were.
   */
  function HandleWindowResize(s: Ui, width: int): (r: Ui)
    ensures !Narrow(width) ==> !r.overlayShown && !r.scrollLocked
    ensures !Narrow(width) ==> r.shown == s.shown && r.contentHidden == s.contentHidden
    ensures !Narrow(width) ==> r.isCollapsed == (if s.collapsedKey.Some? then s.collapsedKey else s.isCollapsed)
    ensures Narrow(width) ==> !r.shown && !r.collapsed && !r.contentCollapsed && r.isCollapsed == Some(false)
    ensures Narrow(width) ==> r.overlayShown == s.overlayShown && r.scrollLocked == s.scrollLocked
    ensures r.visibleKey == s.visibleKey && r.collapsedKey == s.collapsedKey
    ensures r.open == s.open && r.instances == s.instances && r.expanded == s.expanded && r.active == s.active
    ensures !Narrow(width) ==>
              r.(overlayShown := s.overlayShown, scrollLocked := s.scrollLocked, isCollapsed := s.isCollapsed) == s
    ensures Narrow(width) ==>
              r.(shown := s.shown, collapsed := s.collapsed, contentCollapsed := s.contentCollapsed,
                 isCollapsed := s.isCollapsed) == s
  {
    if !Narrow(width) then
      var r := s.(overlayShown := false, scrollLocked := false);
      if s.collapsedKey.Some? then r.(isCollapsed := s.collapsedKey) else r
    else
      s.(shown := false, collapsed := false, contentCollapsed := false, isCollapsed := Some(false))
  }

  /**
    A resize inside the narrow range while the panel is open leaves the dimming
    overlay and the scroll lock up behind a panel that is gone.
   */
  lemma NarrowResizeStrandsOverlay(s: Ui, width: int)
    requires Narrow(width) && Coherent(s) && s.overlayShown
    ensures !Coherent(HandleWindowResize(s, width))
    ensures var r := HandleWindowResize(s, width); r.overlayShown && r.scrollLocked && !r.shown
  {
  }

  /** Concretely: open the panel on a 600-wide viewport, then resize to 500. */
  lemma OpenThenNarrowResizeExample(layout: Layout, s: Ui)
    requires Coherent(s)
    ensures var r := HandleWindowResize(Toggle(layout, Hide(layout, s), 600), 500);
            r.overlayShown && r.scrollLocked && !r.shown && !Coherent(r)
  {
    var shownState := Toggle(layout, Hide(layout, s), 600);
    assert shownState.overlayShown;
    NarrowResizeStrandsOverlay(shownState, 500);
  }

  /**
    Window resize, corrected: in a narrow viewport the overlay and the scroll lock
    go down together with the panel. Whatever state it starts from, the result is
    coherent.
   */
  function HandleWindowResizeClean(s: Ui, width: int): (r: Ui)
    ensures Coherent(r)
    ensures Narrow(width) ==> !r.shown && !r.overlayShown && !r.scrollLocked
    ensures !Narrow(width) ==> r.shown == s.shown
    ensures r.contentHidden == s.contentHidden
    ensures r.visibleKey == s.visibleKey && r.collapsedKey == s.collapsedKey
    ensures r.open == s.open && r.instances == s.instances && r.expanded == s.expanded && r.active == s.active
    ensures !Narrow(width) || (!s.overlayShown && !s.scrollLocked) ==> r == HandleWindowResize(s, width)
  {
    var r := HandleWindowResize(s, width);
    if Narrow(width) then r.(overlayShown := false, scrollLocked := false) else r
  }

  /** A key press: `ctrlKey` and the `key` string of the `keydown` event. */
  datatype KeyEvent = KeyEvent(ctrlKey: bool, key: string)

  /** The state after an event handler, and whether it called `preventDefault`. */
  datatype Handled = Handled(ui: Ui, defaultPrevented: bool)

  /**
    Ctrl+b toggles the panel and cancels the browser's own binding; Escape hides a
    shown panel in a narrow viewport; every other key does nothing. The key string
    is compared exactly, so Ctrl+B (with Shift or Caps Lock) is not the shortcut.
   */
  function HandleKeyboardShortcuts(layout: Layout, s: Ui, width: int, e: KeyEvent): (r: Handled)
    ensures r.defaultPrevented <==> e.ctrlKey && e.key == "b"
    ensures e.ctrlKey && e.key == "b" ==> r.ui == Toggle(layout, s, width)
    ensures e.key == "Escape" && Narrow(width) && s.shown ==> r.ui == Hide(layout, s)
    ensures e.key == "Escape" && !(Narrow(width) && s.shown) ==> r.ui == s
    ensures !(e.ctrlKey && e.key == "b") && e.key != "Escape" ==> r.ui == s
  {
    var toggles := e.ctrlKey && e.key == "b";
    var afterToggle := if toggles then Toggle(layout, s, width) else s;
    var afterEscape :=
      if e.key == "Escape" && Narrow(width) && afterToggle.shown then Hide(layout, afterToggle) else afterToggle;
    Handled(afterEscape, toggles)
  }

  /**
    A click anywhere in the document outside the panel closes the submenus, but only
    in a wide viewport; `insideSidebar` says whether the target has a `.sidebar` ancestor.
   */
  function HandleDocumentClick(layout: Layout, s: Ui, width: int, insideSidebar: bool): (r: Ui)
    ensures insideSidebar || Narrow(width) ==> r == s
    ensures !insideSidebar && !Narrow(width) ==> r == CloseAllSubmenus(layout, s)
  {
    if !insideSidebar && !Narrow(width) then CloseAllSubmenus(layout, s) else s
  }

  /**
    Toggling twice at a fixed width restores the visibility, the layout class and the
    stored value of a state whose storage agreed with it.
   */
  lemma ToggleTwiceRestoresVisibility(layout: Layout, s: Ui, width: int)
    ensures var r := Toggle(layout, Toggle(layout, s, width), width);
            r.shown == s.shown && r.contentHidden == !s.shown && r.visibleKey == Some(s.shown)
    ensures s.shown ==> Toggle(layout, Toggle(layout, s, width), width) == Show(Hide(layout, s), width)
    ensures !s.shown ==> Toggle(layout, Toggle(layout, s, width), width) == Hide(layout, Show(s, width))
  {
  }

  /**
    Toggling twice at a fixed width from a settled hidden state (the one `Hide` leaves:
    panel and overlay down, `sidebar-hidden` on, `false` stored, no instance-backed
    submenu open and no menu link expanded) gives back exactly that state.
   */
  lemma ToggleTwiceFromHidden(layout: Layout, s: Ui, width: int)
    requires Coherent(s) && !s.shown && s.contentHidden && s.visibleKey == Some(false)
    requires s.open !! s.instances && s.expanded !! layout.menuLinks
    ensures Toggle(layout, Toggle(layout, s, width), width) == s
  {
    var r := Toggle(layout, Toggle(layout, s, width), width);
    assert r.open == s.open - s.instances == s.open;
    assert r.expanded == s.expanded - layout.menuLinks == s.expanded;
  }

  /** Hiding is idempotent, and showing twice at one width is showing once. */
  lemma ShowHideIdempotent(layout: Layout, s: Ui, width: int)
    ensures Hide(layout, Hide(layout, s)) == Hide(layout, s)
    ensures Show(Show(s, width), width) == Show(s, width)
  {
    var h := Hide(layout, s);
    assert h.open - h.instances == h.open;
    assert h.expanded - layout.menuLinks == h.expanded;
  }

  /**
    The choice made at start-up survives a reload: the stored value is the chosen
    visibility, so start-up at any later width makes the same choice.
   */
  lemma ReloadKeepsVisibility(layout: Layout, s: Ui, width: int, laterWidth: int)
    ensures SetupInitialState(layout, SetupInitialState(layout, s, width), laterWidth).shown
            == SetupInitialState(layout, s, width).shown
  {
  }

  /** Every transition of the panel keeps the overlay and scroll lock coherent with it. */
  lemma TransitionsPreserveCoherence(layout: Layout, s: Ui, width: int, e: KeyEvent, insideSidebar: bool)
    requires Coherent(s)
    ensures Coherent(Show(s, width)) && Coherent(Hide(layout, s)) && Coherent(Toggle(layout, s, width))
    ensures Coherent(SetupInitialState(layout, s, width))
    ensures Coherent(HandleWindowResizeClean(s, width))
    ensures Coherent(HandleKeyboardShortcuts(layout, s, width, e).ui)
    ensures Coherent(HandleDocumentClick(layout, s, width, insideSidebar))
  {
  }

  /** Ctrl+b pressed twice at a fixed width restores the visibility; each press is cancelled. */
  lemma ShortcutTwiceRestoresVisibility(layout: Layout, s: Ui, width: int)
    ensures var e := KeyEvent(true, "b");
            var once := HandleKeyboardShortcuts(layout, s, width, e);
            var twice := HandleKeyboardShortcuts(layout, once.ui, width, e);
            once.defaultPrevented && twice.defaultPrevented && twice.ui.shown == s.shown
  {
    var e := KeyEvent(true, "b");
    assert e.key != "Escape";
  }

  /** Escape never shows the panel, and after Escape in a narrow viewport the panel is hidden. */
  lemma EscapeOnlyHides(layout: Layout, s: Ui, width: int, ctrlKey: bool)
    ensures var r := HandleKeyboardShortcuts(layout, s, width, KeyEvent(ctrlKey, "Escape"));
            && !r.defaultPrevented
            && (r.ui.shown ==> s.shown)
            && (Narrow(width) ==> !r.ui.shown)
  {
    assert "Escape" != "b";
  }
}
