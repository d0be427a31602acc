# Sidebar controller of the BYC Core shell, in Dafny

`static/js/main.js` drives the sidebar navigation panel of the BYC Core web shell. It shows and hides the panel. It dims the page and locks body scroll on narrow viewports, below the 992-pixel breakpoint. It stores the panel's visibility in `localStorage`, closes submenus, and handles Ctrl+b and Escape. It highlights the navigation links that belong to the current path and opens the submenus around them. It also keeps wheel scrolling inside the panel from reaching the page.

This project models that logic as pure functions over an immutable record of the page:

- `wrappers.dfy`, module `Wrappers`: `Option`. It stands for JavaScript's `null`, for storage keys and attributes that may be absent.
- `shell.dfy`, module `Shell`: the breakpoint, and the page state `Ui`. `Ui` holds the panel, content, overlay and body flags, the two storage keys, and the sets of open submenus, submenus with a Bootstrap `Collapse` instance, links with `aria-expanded="true"` and links marked `active`. The module also holds the static `Layout`: navigation links with their `href` and enclosing containers, the menu-link class set, and the `data-bs-target` triggers. `Coherent` is the overlay/scroll-lock invariant.
- `sidebar.dfy`, module `Sidebar`: the handlers `setupInitialState`, `toggleSidebar`, `showSidebar`, `hideSidebar`, `closeAllSubmenus`, `handleWindowResize` and `handleKeyboardShortcuts`, plus the document click listener.
- `paths.dfy`, module `Paths`: `String.prototype.startsWith` and the rule that matches a link's `href` to the path.
- `navigation.dfy`, module `Navigation`: `navigation.setActiveNavigation` and `navigation.expandParentMenus`.
- `scroll.dfy`, module `Scroll`: the `wheel` listener on the panel.

Every handler takes the viewport width (`window.innerWidth`) as an integer parameter.

`Element.closest` is modelled as the DOM Standard defines it (section 4.9, Interface Element): it checks the element itself first, then its ancestors. A link's enclosing submenu containers are a sequence, nearest first. So the `closest` container of the container at position `k` is position `k` itself.

Some behaviour of the code may surprise a reader, and the model keeps it as written:

- Every link that matches the path is marked active, not just one (`/reports` and `/reports/monthly` are both active on `/reports/monthly`).
- Closing submenus closes only those with a `Collapse` instance. It resets `aria-expanded` only on `.sidebar-link` and `.sidebar-sublink` elements.
- A wheel event cancelled at a scroll boundary still propagates. The handler calls `preventDefault` and returns before `stopPropagation`.
- At a wide width, the resize handler's legacy-key branch (main.js:213-218) copies the legacy key into `isCollapsed`, and nothing in main.js reads that property. It has no visible effect.
- At a narrow width, the resize handler hides the panel without writing the stored visibility.

## Model

| member | source | states |
|---|---|---|
| `Sidebar.CloseAllSubmenus` | static/js/main.js:231-245 | No open submenu keeps a `Collapse` instance afterwards, and open submenus without one stay open. No menu link is left with `aria-expanded="true"`, and other elements keep theirs. Nothing else changes. |
| `Sidebar.Show` | static/js/main.js:153-170 | The panel is shown, the content loses `sidebar-hidden`, and `true` is stored. The overlay and scroll lock go up in a narrow viewport and are otherwise left as they were. Nothing else changes. |
| `Sidebar.Hide` | static/js/main.js:175-191 | The panel, overlay and scroll lock are all down, the content gets `sidebar-hidden`, and `false` is stored. No instance-backed submenu stays open and no menu link stays expanded. Submenus without an instance are kept open, and elements other than menu links keep their `aria-expanded`. |
| `Sidebar.Toggle` | static/js/main.js:140-148 | The visibility flips, the stored value follows it, and the content class follows it. |
| `Sidebar.ToggleTwiceRestoresVisibility` | static/js/main.js:140-191 | Two toggles at one width restore the visibility. A shown panel goes through hide then show; a hidden one goes through show then hide. |
| `Sidebar.ToggleTwiceFromHidden` | static/js/main.js:140-191 | From a settled, coherent hidden state with no instance-backed submenu open, two toggles give back exactly the same state. |
| `Sidebar.ShowHideIdempotent` | static/js/main.js:153-191 | Hiding twice is hiding once, and showing twice at one width is showing once. |
| `Sidebar.SetupInitialState` | static/js/main.js:111-135 | A stored value decides the visibility. Without one, the panel is shown exactly when the width is at least 992. The choice is stored, and a hidden start leaves no overlay and no instance-backed submenu open. |
| `Sidebar.ReloadKeepsVisibility` | static/js/main.js:111-135 | Running start-up again, at any width, makes the same visibility choice: the stored value carries it across a reload. |
| `Sidebar.HandleWindowResize` | static/js/main.js:205-226 | Wide: the overlay and scroll lock go down, and the visibility and stored value are untouched. The legacy key, when present, only sets `isCollapsed`. Narrow: `show` and the legacy classes are removed and `isCollapsed` becomes false. The overlay, scroll lock, stored value and the content's `sidebar-hidden` are not written. In each case every other field is left as it was. |
| `Sidebar.NarrowResizeStrandsOverlay` | static/js/main.js:220-225 | From a coherent state with the overlay up, a resize at a narrow width leaves the overlay and scroll lock up with the panel hidden. |
| `Sidebar.OpenThenNarrowResizeExample` | static/js/main.js:220-225 | Concretely: open the panel at width 600, then resize to 500. The overlay and lock stay up with no panel. |
| `Sidebar.HandleWindowResizeClean` | static/js/main.js:205-226 | Corrected resize: the result is coherent from any state, and a narrow width takes the overlay and scroll lock down with the panel. The content's `sidebar-hidden` is kept as the code keeps it. Wherever the code as written already leaves a coherent state, it agrees with that code. |
| `Sidebar.HandleKeyboardShortcuts` | static/js/main.js:250-264 | Ctrl+b toggles exactly once, and it alone calls `preventDefault`. Escape hides only a shown panel in a narrow viewport and is otherwise a no-op. Every other key leaves the state unchanged. |
| `Sidebar.ShortcutTwiceRestoresVisibility` | static/js/main.js:250-256 | Pressing Ctrl+b twice restores the visibility, and both presses are cancelled. |
| `Sidebar.EscapeOnlyHides` | static/js/main.js:257-263 | Escape is never cancelled and never shows the panel. In a narrow viewport the panel is hidden afterwards. |
| `Sidebar.HandleDocumentClick` | static/js/main.js:95-100 | A click outside the panel in a wide viewport closes the submenus. Any other click changes nothing. |
| `Sidebar.TransitionsPreserveCoherence` | static/js/main.js:95-264 | Show, hide, toggle, start-up, the corrected resize, the shortcuts and the document click all keep the invariant: an overlay only behind a shown panel, and a scroll lock exactly while the overlay is up. |
| `Paths.StartsWith` | static/js/main.js:428 | `startsWith` holds exactly when the prefix is an initial segment of the string. |
| `Paths.Matches` | static/js/main.js:427-428 | A link is active exactly when its `href` is present and non-empty, and either equals the path or is followed in the path by `/`. |
| `Paths.MatchIsPrefix` | static/js/main.js:428 | An active link's `href` is always a prefix of the path. |
| `Paths.SectionAndPageBothMatch` | static/js/main.js:428 | `/reports` and `/reports/monthly` match `/reports/monthly`; `/reports/monthly/detail` does not. |
| `Paths.PartialSegmentDoesNotMatch` | static/js/main.js:428 | `/report` does not match `/reports`. |
| `Paths.RootLinkMatchesOnlyRoot` | static/js/main.js:428 | The root link `/` matches only `/` and paths beginning with `//`. |
| `Paths.EmptyHrefNeverMatches` | static/js/main.js:427-428 | A missing or empty `href` never matches. |
| `Navigation.ExpandParentMenus` | static/js/main.js:440-458 | As written: the loop runs at most once, and exactly once when the link has an enclosing container. It opens only the nearest container, gives it an instance and expands its trigger. Containers further out keep their state, and a link with no container changes nothing. |
| `Navigation.ExpandAllParentMenus` | static/js/main.js:440-458 | Corrected walk: every container enclosing the link ends up open with a `Collapse` instance, and their triggers are expanded. |
| `Navigation.ShallowLinksExpandAlike` | static/js/main.js:440-458 | For a link inside exactly one container, the code as written and the corrected walk open the same thing. |
| `Navigation.NestedLinkOuterMenuStaysShut` | static/js/main.js:441-457 | For any link at least two submenus deep whose outer container is shut and distinct from the inner one, the code as written leaves the outer container shut; the corrected walk opens it. |
| `Navigation.MatchingMembers` | static/js/main.js:426-429 | The identities the pass marks are exactly those of links whose `href` matches the path. |
| `Navigation.SetActiveNavigation` | static/js/main.js:416-435 | As written: the two `forEach` loops first clear the markers, then mark each matching link and hand it to `expandParentMenus`. Together they produce the set-based outcome with the nearest-only walk: stale markers removed from every navigation link, every match marked, and the nearest container of every match opened. |
| `Navigation.SetActiveNavigationOutward` | static/js/main.js:416-435 | The same pass with the corrected walk: every container around every match is opened. |
| `Navigation.ActiveExactlyWhenMatching` | static/js/main.js:416-435 | With either walk, a navigation link is afterwards active exactly when it matches the path, so every match is marked and every previous marker on a non-matching link is gone. |
| `Navigation.AsWrittenOpensNearestOnly` | static/js/main.js:426-433 | As written, the nearest container of every matching link ends up open, and every newly opened container is the nearest container of some matching link. |
| `Navigation.MatchingLinksVisible` | static/js/main.js:426-433 | With the corrected walk, every container around every matching link ends up open, with a `Collapse` instance. |
| `Navigation.NestedActiveLinkHiddenByPass` | static/js/main.js:426-457 | For the path `/a` and its link inside two nested submenus, the pass as written opens only the inner submenu; the corrected pass opens both. |
| `Navigation.ShallowMenusPassesAgree` | static/js/main.js:416-458 | When no navigation link sits deeper than one submenu, the pass as written and the corrected pass give the same state. |
| `Navigation.SectionAndPageBothActive` | static/js/main.js:416-435 | As written, on `/reports/monthly` the `/reports` and `/reports/monthly` links are both active and `/report` is not. The submenu holding the page link is open. |
| `Navigation.ActiveNavigationKeepsPanel` | static/js/main.js:416-435 | With either walk, the pass leaves the panel, overlay, scroll lock and stored visibility alone, and keeps the state coherent. |
| `Scroll.SidebarWheel` | static/js/main.js:301-321 | Exactly one of cancelling and stopping propagation happens. Except for an upward wheel at a negative `scrollTop`, the event is cancelled exactly when the panel has no room left in the direction asked for. A zero delta is never cancelled. |
| `Scroll.FittingContentCancelsDownward` | static/js/main.js:313-317 | When all content fits and `scrollTop` is not negative, every downward wheel is cancelled. |
| `Scroll.OverscrolledTopNotCancelled` | static/js/main.js:307-311 | With a negative `scrollTop` (elastic overscroll), an upward wheel is not cancelled; only its propagation is stopped. |
| `Scroll.AwayFromBoundaryPropagationStopped` | static/js/main.js:301-321 | At any `scrollTop`, while the panel has room in the direction asked for, the only effect is stopped propagation. |

## Findings

| source | as written | input that shows it | evidently intended | confidence | as-written member | corrected member |
|---|---|---|---|---|---|---|
| static/js/main.js:454-457 | The next container is looked up with `parent.closest(...)`. That call returns `parent` itself, so the self-comparison always breaks the loop after the nearest container. | An active link inside a `.sidebar-sub-submenu` nested in a closed `.sidebar-submenu`. Only the inner container is opened, and the link stays hidden inside the closed outer one. | Walk outward from each container's parent element and open every enclosing container. | high, not executed | `Navigation.ExpandParentMenus` | `Navigation.ExpandAllParentMenus` |
| static/js/main.js:220-225 | A resize at a narrow width removes `show` from the panel but leaves the overlay's `show` class and the body's `overflow: hidden`. | Open the panel at width 600, then any resize event at width 500. The page stays dimmed and unscrollable with no panel. | Take the overlay and scroll lock down with the panel, as `hideSidebar` does. | medium, not executed | `Sidebar.NarrowResizeStrandsOverlay` | `Sidebar.HandleWindowResizeClean` |

`SetActiveNavigation` keeps the walk as written; `SetActiveNavigationOutward` is the same pass with the corrected walk, and `NestedActiveLinkHiddenByPass` shows the two apart. `ShallowLinksExpandAlike` and `ShallowMenusPassesAgree` show that they agree for links one level deep. `TransitionsPreserveCoherence` uses the corrected resize. Neither resize writes `sidebar-hidden` on `#main-content` (main.js:218-224), so after a narrow resize hides an open panel the content still lacks that class.

## Left out

- The DOM anchors `#sidebar`, `#main-content` and `#sidebar-overlay` are assumed present. The early returns in `showSidebar` and `hideSidebar` when `#sidebar` is missing (main.js:154, 176) are not modelled. Neither are the `TypeError`s that other handlers throw on a missing anchor.
- `JSON.parse` of the stored strings is not modelled. Each storage key is an optional boolean, so stored text that is not `true` or `false` is outside the model.
- `cacheElements`, `bindEvents`, `init`, and the `DOMContentLoaded`/`popstate` wiring only bind listeners. The toggle button, the close button and the overlay click call `Toggle` and `Hide` directly.
- `debounce` is timer behaviour built on `setTimeout`. `HandleWindowResize` models one settled resize.
- Bootstrap `Collapse` and `Tooltip`, including `initializeTooltips`, are a foreign library. A `Collapse` instance is a set membership, show/hide take effect at once, and Bootstrap's own `aria-expanded` updates and `shown`/`hidden` events are not modelled.
- `Navigation.ExpandParentMenus` (and the corrected `ExpandAllParentMenus` and both passes built on them): creating a `Collapse` instance is taken to open the container. Bootstrap 5's constructor toggles by default, so on a container already shown without an instance it would start hiding it, and the following `show()` would return early. That toggle is not modelled, so the open containers that `AsWrittenOpensNearestOnly` and `MatchingLinksVisible` promise hold in the browser only for containers that start closed or already have an instance.
- `submenu.init`, `submenu.onSubmenuOpen` and `submenu.onSubmenuClose` are left out. They depend on bounding-rectangle geometry and `scrollIntoView`, and within the transitions modelled here a submenu is hidden only by `closeAllSubmenus`, which has already hidden every instance-backed nested one.
- The `touchmove` listeners and the `#main-content` wheel listener only stop propagation, and event propagation itself is not modelled.
- `log` writes to the console with a timestamp.
- `updateSidebarState` has an empty body.
- `Scroll.SidebarWheel`: `deltaY` and `scrollTop` are modelled as integers, though the browser reports them as fractional values.
- `bycCore/views.py` renders a template with a fixed context and contains no logic.
