/**
  The page shell the sidebar controller drives, as an immutable record.

  The DOM classes, the inline body style and the two storage keys the controller
  touches become fields of `Ui`; the parts of the page the controller only reads
  (the navigation links, which elements are menu links, which element triggers
  which submenu) become a `Layout`, which no operation changes.
 */
module Shell {
  import opened Wrappers

  /** Viewport width (`window.innerWidth`) at which the layout switches from narrow to wide (main.js:21). */
  const Breakpoint: int := 992

  /** A viewport narrower than the breakpoint: the "mobile" layout. */
  predicate Narrow(width: int) {
    width < Breakpoint
  }

  /** Identity of a DOM element (not its `id` attribute). */
  type ElementId = nat

  /**
    A navigation link (`.sidebar-link`, `.sidebar-sublink` or `.sidebar-sub-sublink`):
    its identity, its `href` attribute (`None` when the attribute is absent) and the
    submenu containers (`.sidebar-submenu`, `.sidebar-sub-submenu`) that enclose it,
    nearest first.
   */
  datatype NavLink = NavLink(id: ElementId, href: Option<string>, containers: seq<ElementId>)

  /**
    The static part of the page.
    - `links`: the navigation links in document order;
    - `menuLinks`: elements carrying class `sidebar-link` or `sidebar-sublink`, whose
      `aria-expanded` is reset when submenus are closed;
    - `triggers`: for a submenu container, the first element whose `data-bs-target`
      names it.
   */
  datatype Layout = Layout(
    links: seq<NavLink>,
    menuLinks: set<ElementId>,
    triggers: map<ElementId, ElementId>)

  /**
    The mutable part of the page.
    - `shown`: `#sidebar` carries class `show`;
    - `contentHidden`: `#main-content` carries class `sidebar-hidden`;
    - `overlayShown`: `#sidebar-overlay` carries class `show`;
    - `scrollLocked`: the body's `overflow` style is `hidden`;
    - `collapsed`, `contentCollapsed`: `#sidebar` carries `collapsed`, `#main-content`
      carries `sidebar-collapsed` (legacy classes the controller only removes);
    - `isCollapsed`: the controller's `sidebar.isCollapsed` property (`None` while undefined);
    - `visibleKey`, `collapsedKey`: storage keys `byc-sidebar-visible` and the legacy
      `byc-sidebar-collapsed`, as the booleans they hold;
    - `open`: submenu containers carrying class `show`;
    - `instances`: submenu containers that have a Bootstrap `Collapse` instance;
    - `expanded`: elements whose `aria-expanded` is `"true"`;
    - `active`: navigation links carrying class `active`.
   */
  datatype Ui = Ui(
    shown: bool,
    contentHidden: bool,
    overlayShown: bool,
    scrollLocked: bool,
    collapsed: bool,
    contentCollapsed: bool,
    isCollapsed: Option<bool>,
    visibleKey: Option<bool>,
    collapsedKey: Option<bool>,
    open: set<ElementId>,
    instances: set<ElementId>,
    expanded: set<ElementId>,
    active: set<ElementId>)

  /**
    The overlay only dims the page behind a visible panel, and the body scroll is
    locked exactly while the overlay is up.
   */
  predicate Coherent(s: Ui) {
    && (s.overlayShown ==> s.shown)
    && s.scrollLocked == s.overlayShown
  }
}
