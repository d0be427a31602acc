/**
  Active-link highlighting: `navigation.setActiveNavigation` marks the links that
  belong to the current path and opens the submenus around them, through
  `navigation.expandParentMenus`.
 */
module Navigation {
  import opened Wrappers
  import opened Shell
  import Paths

  /**
    `Element.closest` for the submenu selector, asked of a node whose inclusive
    ancestors that are containers are `containers[from..]`. The DOM's `closest`
    starts with the node itself, so for the container at position `from` the answer
    is that same container.
   */
  function ClosestFrom(containers: seq<ElementId>, from: nat): Option<nat> {
    if from < |containers| then Some(from) else None
  }

  /** The elements of a sequence, as a set. */
  function Elems(q: seq<ElementId>): set<ElementId> {
    set x | x in q
  }

  /** The trigger links, found by `data-bs-target`, of the containers `cs`. */
  function Triggered(layout: Layout, cs: set<ElementId>): set<ElementId> {
    set c | c in cs && c in layout.triggers :: layout.triggers[c]
  }

  /**
    Force-opens the containers `cs`: each gets a `Collapse` instance (the existing one
    or a new one), is shown, and its trigger link gets `aria-expanded="true"`.
    Collapse animations are taken to finish at once, and creating an instance is
    taken to open the container: the constructor's own toggle, which would shut a
    container that is already shown but has no instance yet, is not modelled.
   */
  function ForceOpen(layout: Layout, s: Ui, cs: set<ElementId>): Ui {
    s.(open := s.open + cs, instances := s.instances + cs, expanded := s.expanded + Triggered(layout, cs))
  }

  lemma TriggeredUnion(layout: Layout, a: set<ElementId>, b: set<ElementId>)
    ensures Triggered(layout, a + b) == Triggered(layout, a) + Triggered(layout, b)
  {
    forall x | x in Triggered(layout, a + b)
      ensures x in Triggered(layout, a) + Triggered(layout, b)
    {
      var c :| c in a + b && c in layout.triggers && layout.triggers[c] == x;
      if c in a {
        assert x in Triggered(layout, a);
      } else {
        assert x in Triggered(layout, b);
      }
    }
  }

  /** Opening `a` and then `b` is opening `a + b` at once. */
  lemma ForceOpenCompose(layout: Layout, s: Ui, a: set<ElementId>, b: set<ElementId>)
    ensures ForceOpen(layout, ForceOpen(layout, s, a), b) == ForceOpen(layout, s, a + b)
  {
    TriggeredUnion(layout, a, b);
  }

  /** Opening nothing changes nothing. */
  lemma ForceOpenNothing(layout: Layout, s: Ui)
    ensures ForceOpen(layout, s, {}) == s
  {
    assert Triggered(layout, {}) == {};
  }

  /**
    `expandParentMenus`, as written. The loop opens the nearest enclosing container,
    then asks that container for its `closest` container, which is itself, so the
    self-comparison that guards against an endless walk ends the loop after one
    round. The containers further out are left as they were.
   */
  method ExpandParentMenus(layout: Layout, s: Ui, link: NavLink) returns (r: Ui, rounds: nat)
    ensures rounds <= 1
    ensures rounds == 1 <==> |link.containers| > 0
    ensures |link.containers| == 0 ==> r == s
    ensures |link.containers| > 0 ==> r == ForceOpen(layout, s, {link.containers[0]})
    ensures forall k :: 1 <= k < |link.containers| && link.containers[k] != link.containers[0] ==>
              (link.containers[k] in r.open <==> link.containers[k] in s.open)
  {
    var chain := link.containers;
    r := s;
    rounds := 0;
    var parent := ClosestFrom(chain, 0);
    var stop := false;
    while parent.Some? && !stop
      invariant parent.Some? ==> parent.value < |chain|
      invariant !stop ==> parent == ClosestFrom(chain, 0) && r == s && rounds == 0
      invariant stop ==> 0 < |chain| && r == ForceOpen(layout, s, {chain[0]}) && rounds == 1
      decreases (if parent.Some? then 1 else 0) + (if stop then 0 else 1)
    {
      r := ForceOpen(layout, r, {chain[parent.value]});
      rounds := rounds + 1;
      parent := ClosestFrom(chain, parent.value);
      stop := parent.Some? && chain[parent.value] == chain[ClosestFrom(chain, parent.value).value];
    }
  }

  /**
    `expandParentMenus`, corrected: the next container is looked up from the
    current container's parent element, so the walk goes outward and opens every
    enclosing container.
   */
  method ExpandAllParentMenus(layout: Layout, s: Ui, link: NavLink) returns (r: Ui)
    ensures r == ForceOpen(layout, s, Elems(link.containers))
    ensures forall k :: 0 <= k < |link.containers| ==> link.containers[k] in r.open && link.containers[k] in r.instances
  {
    var chain := link.containers;
    r := s;
    ghost var k := 0;
    ForceOpenNothing(layout, s);
    var parent := ClosestFrom(chain, 0);
    while parent.Some?
      invariant k <= |chain| && parent == ClosestFrom(chain, k)
      invariant r == ForceOpen(layout, s, Elems(chain[..k]))
      decreases |chain| - k
    {
      var c := chain[parent.value];
      assert chain[..k + 1] == chain[..k] + [c];
      assert Elems(chain[..k + 1]) == Elems(chain[..k]) + {c};
      ForceOpenCompose(layout, s, Elems(chain[..k]), {c});
      r := ForceOpen(layout, r, {c});
      k := k + 1;
      parent := ClosestFrom(chain, parent.value + 1);
    }
    assert chain[..k] == chain;
  }

  /**
    On a link inside exactly one container, the set the code as written opens (the
    nearest container, per `ExpandParentMenus`) and the set the corrected walk opens
    (every container, per `ExpandAllParentMenus`) are the same, so both give the same
    state. The proof is only the set identity `Elems([c]) == {c}`; that these are the
    sets the two methods open rests on their postconditions.
   */
  lemma ShallowLinksExpandAlike(layout: Layout, s: Ui, link: NavLink)
    requires |link.containers| == 1
    ensures ForceOpen(layout, s, Elems(link.containers)) == ForceOpen(layout, s, {link.containers[0]})
  {
    assert Elems(link.containers) == {link.containers[0]};
  }

  /**
    A link inside a sub-submenu whose outer container is shut: the walk as written
    opens only the inner container and leaves the outer one shut, so the active link
    stays out of sight; the corrected walk opens it.
   */
  lemma NestedLinkOuterMenuStaysShut(layout: Layout, s: Ui, link: NavLink)
    requires |link.containers| >= 2 && link.containers[1] != link.containers[0]
    requires link.containers[1] !in s.open
    ensures link.containers[1] !in ForceOpen(layout, s, {link.containers[0]}).open
    ensures link.containers[1] in ForceOpen(layout, s, Elems(link.containers)).open
  {
    assert link.containers[1] in Elems(link.containers);
  }

  /** Identities of all navigation links. */
  function LinkIds(links: seq<NavLink>): set<ElementId> {
    set i | 0 <= i < |links| :: links[i].id
  }

  /** Which containers around an active link the pass opens. */
  datatype Walk =
    | NearestOnly   // the code as written: `expandParentMenus` stops after the nearest container
    | AllAncestors  // the corrected walk: every enclosing container

  /** The containers of one link that a walk opens. */
  function Reach(containers: seq<ElementId>, walk: Walk): set<ElementId> {
    match walk
    case NearestOnly => if |containers| == 0 then {} else {containers[0]}
    case AllAncestors => Elems(containers)
  }

  /** Identities of the links that match `path`. */
  function Matching(links: seq<NavLink>, path: string): set<ElementId> {
    if |links| == 0 then {}
    else
      var last := links[|links| - 1];
      Matching(links[..|links| - 1], path) + (if Paths.Matches(path, last.href) then {last.id} else {})
  }

  /** Every container the walk opens around the links that match `path`. */
  function Unfolded(links: seq<NavLink>, path: string, walk: Walk): set<ElementId> {
    if |links| == 0 then {}
    else
      var last := links[|links| - 1];
      Unfolded(links[..|links| - 1], path, walk) + (if Paths.Matches(path, last.href) then Reach(last.containers, walk) else {})
  }

  lemma {:induction false} MatchingMembers(links: seq<NavLink>, path: string, x: ElementId)
    ensures x in Matching(links, path) <==>
            exists i :: 0 <= i < |links| && links[i].id == x && Paths.Matches(path, links[i].href)
  {
    if |links| > 0 {
      var init := links[..|links| - 1];
      MatchingMembers(init, path, x);
      assert forall i :: 0 <= i < |init| ==> init[i] == links[i];
    }
  }

  /** Whatever the walk reaches from a matching link is opened by the pass. */
  lemma {:induction false} UnfoldedMembers(links: seq<NavLink>, path: string, walk: Walk, i: nat, c: ElementId)
    requires i < |links| && Paths.Matches(path, links[i].href) && c in Reach(links[i].containers, walk)
    ensures c in Unfolded(links, path, walk)
  {
    var init := links[..|links| - 1];
    if i < |links| - 1 {
      assert init[i] == links[i];
      UnfoldedMembers(init, path, walk, i, c);
    }
  }

  /** The walk as written opens nothing but the nearest container of some matching link. */
  lemma {:induction false} UnfoldedNearestOnly(links: seq<NavLink>, path: string, c: ElementId)
    requires c in Unfolded(links, path, NearestOnly)
    ensures exists i :: 0 <= i < |links| && Paths.Matches(path, links[i].href) &&
                        |links[i].containers| > 0 && links[i].containers[0] == c
  {
    var init := links[..|links| - 1];
    if c in Unfolded(init, path, NearestOnly) {
      UnfoldedNearestOnly(init, path, c);
      var i :| 0 <= i < |init| && Paths.Matches(path, init[i].href) &&
               |init[i].containers| > 0 && init[i].containers[0] == c;
      assert init[i] == links[i];
    } else {
      assert links[|links| - 1].containers[0] == c;
    }
  }

  /** When no link sits deeper than one submenu, both walks open the same containers. */
  lemma {:induction false} ShallowWalksAgree(links: seq<NavLink>, path: string)
    requires forall i :: 0 <= i < |links| ==> |links[i].containers| <= 1
    ensures Unfolded(links, path, NearestOnly) == Unfolded(links, path, AllAncestors)
  {
    if |links| > 0 {
      var init := links[..|links| - 1];
      var last := links[|links| - 1];
      assert forall i :: 0 <= i < |init| ==> init[i] == links[i];
      ShallowWalksAgree(init, path);
      if |last.containers| == 1 {
        assert Elems(last.containers) == {last.containers[0]};
      } else {
        assert Elems(last.containers) == {};
      }
    }
  }

  /**
    The outcome of `setActiveNavigation` with a given walk: the `active` class is
    taken off every navigation link and put on every link that matches the path,
    and the containers the walk reaches from each matching link are opened.
   */
  function ActiveNavigation(layout: Layout, s: Ui, path: string, walk: Walk): Ui {
    var marked := s.(active := (s.active - LinkIds(layout.links)) + Matching(layout.links, path));
    ForceOpen(layout, marked, Unfolded(layout.links, path, walk))
  }

  /** One link's worth of progress through the pass. */
  lemma {:induction false} PrefixStep(links: seq<NavLink>, path: string, walk: Walk, i: nat)
    requires i < |links|
    ensures Matching(links[..i + 1], path) ==
            Matching(links[..i], path) + (if Paths.Matches(path, links[i].href) then {links[i].id} else {})
    ensures Unfolded(links[..i + 1], path, walk) ==
            Unfolded(links[..i], path, walk) +
            (if Paths.Matches(path, links[i].href) then Reach(links[i].containers, walk) else {})
  {
    assert links[..i + 1][..i] == links[..i];
  }

  /** Marking one more link and opening its containers extends both sets of the pass. */
  lemma MarkThenOpen(layout: Layout, base: Ui, marked: set<ElementId>, unfolded: set<ElementId>,
                     id: ElementId, cs: set<ElementId>)
    ensures var before := ForceOpen(layout, base.(active := base.active + marked), unfolded);
            ForceOpen(layout, before.(active := before.active + {id}), cs)
            == ForceOpen(layout, base.(active := base.active + (marked + {id})), unfolded + cs)
  {
    var before := ForceOpen(layout, base.(active := base.active + marked), unfolded);
    ForceOpenCompose(layout, base.(active := base.active + (marked + {id})), unfolded, cs);
    assert before.(active := before.active + {id}) == ForceOpen(layout, base.(active := base.active + (marked + {id})), unfolded);
  }

  /** The state once the first `i` links have been handled. */
  function Progress(layout: Layout, cleared: Ui, path: string, walk: Walk, i: nat): Ui
    requires i <= |layout.links|
  {
    var links := layout.links[..i];
    ForceOpen(layout, cleared.(active := cleared.active + Matching(links, path)), Unfolded(links, path, walk))
  }

  /** Handling link `i` moves the pass from `Progress(i)` to `Progress(i + 1)`. */
  lemma ProgressStep(layout: Layout, cleared: Ui, path: string, walk: Walk, i: nat)
    requires i < |layout.links|
    ensures var link := layout.links[i];
            var before := Progress(layout, cleared, path, walk, i);
            Progress(layout, cleared, path, walk, i + 1) ==
              if Paths.Matches(path, link.href)
              then ForceOpen(layout, before.(active := before.active + {link.id}), Reach(link.containers, walk))
              else before
  {
    var links := layout.links;
    PrefixStep(links, path, walk, i);
    if Paths.Matches(path, links[i].href) {
      MarkThenOpen(layout, cleared, Matching(links[..i], path), Unfolded(links[..i], path, walk),
                   links[i].id, Reach(links[i].containers, walk));
    }
  }

  /**
    `setActiveNavigation`, as written: clear every marker, then mark each matching
    link in document order and hand it to `expandParentMenus`, which opens only its
    nearest container.
   */
  method SetActiveNavigation(layout: Layout, s: Ui, path: string) returns (r: Ui)
    ensures r == ActiveNavigation(layout, s, path, NearestOnly)
  {
    var links := layout.links;
    var cleared := s.(active := s.active - LinkIds(links));
    r := cleared;
    ForceOpenNothing(layout, cleared);
    assert links[..0] == [];
    var i := 0;
    while i < |links|
      invariant i <= |links|
      invariant r == Progress(layout, cleared, path, NearestOnly, i)
    {
      var link := links[i];
      ProgressStep(layout, cleared, path, NearestOnly, i);
      if Paths.Matches(path, link.href) {
        r := r.(active := r.active + {link.id});
        ForceOpenNothing(layout, r);
        var rounds;
        r, rounds := ExpandParentMenus(layout, r, link);
      }
      i := i + 1;
    }
    assert links[..i] == links;
  }

  /** `setActiveNavigation` with the corrected walk, which opens every container around each match. */
  method SetActiveNavigationOutward(layout: Layout, s: Ui, path: string) returns (r: Ui)
    ensures r == ActiveNavigation(layout, s, path, AllAncestors)
  {
    var links := layout.links;
    var cleared := s.(active := s.active - LinkIds(links));
    r := cleared;
    ForceOpenNothing(layout, cleared);
    assert links[..0] == [];
    var i := 0;
    while i < |links|
      invariant i <= |links|
      invariant r == Progress(layout, cleared, path, AllAncestors, i)
    {
      var link := links[i];
      ProgressStep(layout, cleared, path, AllAncestors, i);
      if Paths.Matches(path, link.href) {
        r := r.(active := r.active + {link.id});
        r := ExpandAllParentMenus(layout, r, link);
      }
      i := i + 1;
    }
    assert links[..i] == links;
  }

  /**
    After the pass, with either walk, a navigation link carries `active` exactly
    when it matches the path: every match is marked, not just the first, and stale
    markers are gone.
   */
  lemma ActiveExactlyWhenMatching(layout: Layout, s: Ui, path: string, walk: Walk, i: nat)
    requires i < |layout.links|
    requires forall a, b :: 0 <= a < b < |layout.links| ==> layout.links[a].id != layout.links[b].id
    ensures layout.links[i].id in ActiveNavigation(layout, s, path, walk).active <==> Paths.Matches(path, layout.links[i].href)
  {
    var links := layout.links;
    assert links[i].id in LinkIds(links);
    MatchingMembers(links, path, links[i].id);
  }

  /**
    As written, the pass opens the nearest container of every matching link, and
    every container it newly opens is the nearest container of some matching link.
   */
  lemma AsWrittenOpensNearestOnly(layout: Layout, s: Ui, path: string, i: nat, c: ElementId)
    ensures i < |layout.links| && Paths.Matches(path, layout.links[i].href) && |layout.links[i].containers| > 0 ==>
              layout.links[i].containers[0] in ActiveNavigation(layout, s, path, NearestOnly).open
    ensures c in ActiveNavigation(layout, s, path, NearestOnly).open && c !in s.open ==>
              exists j :: 0 <= j < |layout.links| && Paths.Matches(path, layout.links[j].href) &&
                          |layout.links[j].containers| > 0 && layout.links[j].containers[0] == c
  {
    var links := layout.links;
    if i < |links| && Paths.Matches(path, links[i].href) && |links[i].containers| > 0 {
      UnfoldedMembers(links, path, NearestOnly, i, links[i].containers[0]);
    }
    if c in ActiveNavigation(layout, s, path, NearestOnly).open && c !in s.open {
      UnfoldedNearestOnly(links, path, c);
    }
  }

  /** With the corrected walk, every container around a matching link ends up open, with a `Collapse` instance. */
  lemma MatchingLinksVisible(layout: Layout, s: Ui, path: string, i: nat, k: nat)
    requires i < |layout.links| && Paths.Matches(path, layout.links[i].href) && k < |layout.links[i].containers|
    ensures var c := layout.links[i].containers[k];
            var r := ActiveNavigation(layout, s, path, AllAncestors);
            c in r.open && c in r.instances
  {
    assert layout.links[i].containers[k] in Elems(layout.links[i].containers);
    UnfoldedMembers(layout.links, path, AllAncestors, i, layout.links[i].containers[k]);
  }

  /**
    A page link two submenus deep: the pass as written opens only the inner submenu,
    so the active link stays inside a shut outer one; the corrected pass opens both.
   */
  lemma NestedActiveLinkHiddenByPass(s: Ui)
    requires s.open == {}
    ensures var layout := Layout([NavLink(7, Some("/a"), [2, 1])], {}, map[]);
            && ActiveNavigation(layout, s, "/a", NearestOnly).open == {2}
            && ActiveNavigation(layout, s, "/a", AllAncestors).open == {1, 2}
  {
    var links := [NavLink(7, Some("/a"), [2, 1])];
    assert links[..0] == [];
    assert Elems(links[0].containers) == {1, 2};
  }

  /** On a menu where no link sits deeper than one submenu, the pass as written and the corrected pass agree. */
  lemma ShallowMenusPassesAgree(layout: Layout, s: Ui, path: string)
    requires forall i :: 0 <= i < |layout.links| ==> |layout.links[i].containers| <= 1
    ensures ActiveNavigation(layout, s, path, NearestOnly) == ActiveNavigation(layout, s, path, AllAncestors)
  {
    ShallowWalksAgree(layout.links, path);
  }

  /**
    Both the section link and its page link are active on `/reports/monthly`,
    while `/report` is not; the page link's submenu is opened.
   */
  lemma SectionAndPageBothActive(s: Ui)
    ensures var layout := Layout([NavLink(1, Some("/reports"), []), NavLink(2, Some("/reports/monthly"), [5]),
                                  NavLink(3, Some("/report"), [])], {}, map[]);
            var r := ActiveNavigation(layout, s, "/reports/monthly", NearestOnly);
            1 in r.active && 2 in r.active && 3 !in r.active && 5 in r.open
  {
    var layout := Layout([NavLink(1, Some("/reports"), []), NavLink(2, Some("/reports/monthly"), [5]),
                          NavLink(3, Some("/report"), [])], {}, map[]);
    Paths.SectionAndPageBothMatch();
    assert !Paths.Matches("/reports/monthly", Some("/report")) by {
      assert "/reports/monthly"[|"/report"|] == 's';
    }
    ActiveExactlyWhenMatching(layout, s, "/reports/monthly", NearestOnly, 0);
    ActiveExactlyWhenMatching(layout, s, "/reports/monthly", NearestOnly, 1);
    ActiveExactlyWhenMatching(layout, s, "/reports/monthly", NearestOnly, 2);
    AsWrittenOpensNearestOnly(layout, s, "/reports/monthly", 1, 5);
  }

  /** The pass touches only markers and submenus: the panel and its coherence are untouched. */
  lemma ActiveNavigationKeepsPanel(layout: Layout, s: Ui, path: string, walk: Walk)
    ensures var r := ActiveNavigation(layout, s, path, walk);
            r.shown == s.shown && r.overlayShown == s.overlayShown && r.scrollLocked == s.scrollLocked &&
            r.visibleKey == s.visibleKey && (Coherent(s) ==> Coherent(r))
  {
  }
}
