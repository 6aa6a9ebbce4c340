/** The page's interactive state and its event handlers: the current
    section index, the active navigation link, the prev/next buttons, the
    mobile menu, the scroll throttle and the touch-swipe start point. */
module Controller {
  import opened Wrappers
  import opened Sections
  import opened NavLinks
  import opened Gestures

  /** Viewport width at or below which a navigation closes the mobile menu. */
  const MobileBreakpoint: int := 900

  /** What the browser reports when a handler runs: the layout of every
      section, the `--header-height` value as `parseInt` reads it (None for
      NaN), `window.scrollY` and `window.innerWidth`. */
  datatype Viewport = Viewport(boxes: seq<Box>, headerHeight: Option<int>, scrollY: int, width: int)

  /** The position `updateCurrentIndexFromScroll` probes for this viewport:
      10 pixels below the header, whose height falls back to 72. */
  function ProbeOf(v: Viewport): int
  {
    ProbePosition(v.scrollY, HeaderOffset(v.headerHeight))
  }

  /** A smooth-scroll command handed to the browser. */
  datatype ScrollRequest = ScrollTo(y: int) | ScrollIntoView(href: string)

  /** The document as the script finds it when it starts. An optional
      element is None when absent and otherwise carries its initial state:
      the toggle's `aria-expanded == "true"`, and whether the menu and each
      button start hidden. */
  datatype Page = Page(
    sectionIds: seq<string>,
    linkHrefs: seq<string>,
    linkActive: seq<bool>,
    toggle: Option<bool>,
    nav: Option<bool>,
    prev: Option<bool>,
    next: Option<bool>)

  class PageController {
    /** The `id` of each section, in document order ("" when it has none). */
    const sectionIds: seq<string>
    /** `sectionIdToIndex`. */
    const idToIndex: map<string, nat>
    /** The `href` of each navigation link. */
    const linkHrefs: seq<string>
    /** Whether each navigation link has the `is-active` class. */
    const active: array<bool>
    const hasToggle: bool
    const hasNav: bool
    const hasPrev: bool
    const hasNext: bool
    /** The toggle's `aria-expanded`. */
    var expanded: bool
    /** Whether the menu is shown with `display: none`. */
    var navHidden: bool
    var prevHidden: bool
    var nextHidden: bool
    var currentIndex: int
    /** True while an animation-frame callback is scheduled. */
    var ticking: bool
    /** Number of animation-frame callbacks scheduled and not yet run. */
    ghost var pendingFrames: nat
    var touchStartX: Option<int>
    var touchStartY: Option<int>
    /** Every smooth-scroll command issued so far, oldest first. */
    var scrolls: seq<ScrollRequest>

    ghost predicate Valid()
      reads this
    {
      && idToIndex == IdIndex(sectionIds)
      && active.Length == |linkHrefs|
      && 0 <= currentIndex && (currentIndex < |sectionIds| || currentIndex == 0)
      && (touchStartX.None? <==> touchStartY.None?)
      && pendingFrames == (if ticking then 1 else 0)
    }

    /** The viewport reports one box per section. */
    ghost predicate Fits(v: Viewport)
      reads this
    {
      |v.boxes| == |sectionIds|
    }

    /** The `is-active` flags show `currentIndex`. */
    ghost predicate ActiveSynced()
      reads this, active
    {
      active.Length == |linkHrefs| && active[..] == ActiveFlags(linkHrefs, idToIndex, currentIndex)
    }

    /** The buttons show `currentIndex` when both exist, and are as they were otherwise. */
    ghost predicate ButtonsSynced(prevBefore: bool, nextBefore: bool)
      reads this
    {
      if hasPrev && hasNext then
        prevHidden == (currentIndex <= 0) && nextHidden == (currentIndex >= |sectionIds| - 1)
      else
        prevHidden == prevBefore && nextHidden == nextBefore
    }

    /** The menu, the scroll throttle and the touch start point are as they were. */
    twostate predicate OthersKept()
      reads this
    {
      && expanded == old(expanded) && navHidden == old(navHidden)
      && ticking == old(ticking) && pendingFrames == old(pendingFrames)
      && touchStartX == old(touchStartX) && touchStartY == old(touchStartY)
    }

    /** The effect of a successful `goToIndex(idx)`: the clamped index is
        current, a smooth scroll to it was issued, and the links and
        buttons show it. */
    twostate predicate Landed(idx: int, v: Viewport)
      reads this, active
    {
      && |sectionIds| >= 1
      && currentIndex == Clamp(idx, |sectionIds|)
      && 0 <= currentIndex < |v.boxes|
      && scrolls == old(scrolls) + [ScrollTo(ScrollTarget(v.boxes[currentIndex].top, HeaderOffset(v.headerHeight)))]
      && ActiveSynced()
      && ButtonsSynced(old(prevHidden), old(nextHidden))
    }

    /** The effect of `updateCurrentIndexFromScroll`: the first section
        holding the probe becomes current (none: the index stays), and the
        links and buttons are refreshed only when the index changed. */
    twostate predicate TrackedScroll(v: Viewport)
      reads this, active
    {
      && currentIndex == (match FirstContaining(v.boxes, ProbeOf(v))
                          case Some(i) => i
                          case None => old(currentIndex))
      && (currentIndex != old(currentIndex) ==> ActiveSynced() && ButtonsSynced(old(prevHidden), old(nextHidden)))
      && (currentIndex == old(currentIndex) ==> unchanged(active) && prevHidden == old(prevHidden) && nextHidden == old(nextHidden))
      && scrolls == old(scrolls)
    }

    /** The script's start-up: collect sections and links, build the hash table. */
    constructor (page: Page)
      requires |page.linkActive| == |page.linkHrefs|
      ensures Valid() && fresh(active)
      ensures sectionIds == page.sectionIds && linkHrefs == page.linkHrefs && active[..] == page.linkActive
      ensures hasToggle == page.toggle.Some? && (hasToggle ==> expanded == page.toggle.value)
      ensures hasNav == page.nav.Some? && (hasNav ==> navHidden == page.nav.value)
      ensures hasPrev == page.prev.Some? && (hasPrev ==> prevHidden == page.prev.value)
      ensures hasNext == page.next.Some? && (hasNext ==> nextHidden == page.next.value)
      ensures currentIndex == 0 && !ticking && touchStartX == None && touchStartY == None && scrolls == []
    {
      var table := BuildSectionIndex(page.sectionIds);
      sectionIds := page.sectionIds;
      idToIndex := table;
      linkHrefs := page.linkHrefs;
      active := new bool[|page.linkActive|](i requires 0 <= i < |page.linkActive| => page.linkActive[i]);
      hasToggle, expanded := page.toggle.Some?, page.toggle == Some(true);
      hasNav, navHidden := page.nav.Some?, page.nav == Some(true);
      hasPrev, prevHidden := page.prev.Some?, page.prev == Some(true);
      hasNext, nextHidden := page.next.Some?, page.next == Some(true);
      currentIndex := 0;
      ticking := false;
      pendingFrames := 0;
      touchStartX, touchStartY := None, None;
      scrolls := [];
    }

    /** `updateActiveNav`: clear every link, then mark the first one whose href maps to `currentIndex`. */
    method UpdateActiveNav()
      requires Valid()
      modifies active
      ensures ActiveSynced()
    {
      for k := 0 to active.Length
        invariant forall j :: 0 <= j < k ==> !active[j]
      {
        active[k] := false;
      }
      var k := 0;
      while k < |linkHrefs| && !LinksTo(linkHrefs[k], idToIndex, currentIndex)
        invariant 0 <= k <= |linkHrefs|
        invariant forall j :: 0 <= j < k ==> !LinksTo(linkHrefs[j], idToIndex, currentIndex)
      {
        k := k + 1;
      }
      if k < |linkHrefs| {
        active[k] := true;
      }
      assert forall j :: 0 <= j < active.Length ==> (active[j] <==> j == k);
    }

    /** `updateSectionNavButtons`: hide prev at the first section and next at the last. */
    method UpdateSectionNavButtons()
      requires Valid()
      modifies this`prevHidden, this`nextHidden
      ensures ButtonsSynced(old(prevHidden), old(nextHidden))
    {
      if !hasPrev || !hasNext {
        return;
      }
      prevHidden := currentIndex <= 0;
      nextHidden := currentIndex >= |sectionIds| - 1;
    }

    /** `goToIndex`. With no sections at all the target is `undefined` and
        the call throws before changing anything; `ok` is false then. */
    method GoToIndex(idx: int, v: Viewport) returns (ok: bool)
      requires Valid() && Fits(v)
      modifies this, active
      ensures Valid()
      ensures ok == (|sectionIds| >= 1)
      ensures ok ==> Landed(idx, v) && OthersKept()
      ensures !ok ==> unchanged(this) && unchanged(active)
    {
      var i := Clamp(idx, |sectionIds|);
      if i >= |sectionIds| {
        return false;
      }
      var offset := HeaderOffset(v.headerHeight);
      scrolls := scrolls + [ScrollTo(ScrollTarget(v.boxes[i].top, offset))];
      currentIndex := i;
      UpdateActiveNav();
      UpdateSectionNavButtons();
      ok := true;
    }

    /** `updateCurrentIndexFromScroll`: scan the sections in order and stop at the first whose span holds the probe. */
    method UpdateCurrentIndexFromScroll(v: Viewport)
      requires Valid() && Fits(v)
      modifies this, active
      ensures Valid()
      ensures TrackedScroll(v) && OthersKept()
    {
      var pos := ProbePosition(v.scrollY, HeaderOffset(v.headerHeight));
      var i := 0;
      while i < |sectionIds|
        invariant 0 <= i <= |sectionIds|
        invariant forall j :: 0 <= j < i ==> !Contains(v.boxes[j], pos)
        invariant unchanged(this) && unchanged(active)
      {
        var top := v.boxes[i].top;
        var bottom := top + v.boxes[i].height;
        if pos >= top && pos < bottom {
          if currentIndex != i {
            currentIndex := i;
            UpdateActiveNav();
            UpdateSectionNavButtons();
          }
          return;
        }
        i := i + 1;
      }
    }

    /** The throttled `scroll` listener: schedule one frame callback unless one is pending. */
    method OnScroll() returns (scheduled: bool)
      requires Valid()
      modifies this`ticking, this`pendingFrames
      ensures Valid() && ticking
      ensures scheduled == !old(ticking)
      ensures pendingFrames == old(pendingFrames) + (if scheduled then 1 else 0)
    {
      scheduled := !ticking;
      if scheduled {
        pendingFrames := pendingFrames + 1;
        ticking := true;
      }
    }

    /** The scheduled frame callback runs: recompute the index, then release the throttle. */
    method OnAnimationFrame(v: Viewport)
      requires Valid() && Fits(v) && pendingFrames > 0
      modifies this, active
      ensures Valid() && !ticking && pendingFrames == old(pendingFrames) - 1
      ensures TrackedScroll(v)
      ensures expanded == old(expanded) && navHidden == old(navHidden)
      ensures touchStartX == old(touchStartX) && touchStartY == old(touchStartY)
    {
      UpdateCurrentIndexFromScroll(v);
      ticking := false;
      pendingFrames := pendingFrames - 1;
    }

    /** The `load` listener: track the scroll position, then refresh links and buttons unconditionally. */
    method OnLoad(v: Viewport)
      requires Valid() && Fits(v)
      modifies this, active
      ensures Valid() && OthersKept()
      ensures currentIndex == (match FirstContaining(v.boxes, ProbeOf(v))
                               case Some(i) => i
                               case None => old(currentIndex))
      ensures ActiveSynced() && ButtonsSynced(old(prevHidden), old(nextHidden))
      ensures scrolls == old(scrolls)
    {
      UpdateCurrentIndexFromScroll(v);
      UpdateActiveNav();
      UpdateSectionNavButtons();
    }

    /** The `keydown` listener: ArrowRight and ArrowLeft step one section. */
    method OnKeyDown(key: string, v: Viewport)
      requires Valid() && Fits(v)
      modifies this, active
      ensures Valid()
      ensures KeyStep(key).None? || |sectionIds| == 0 ==> unchanged(this) && unchanged(active)
      ensures KeyStep(key).Some? && |sectionIds| >= 1 ==>
        Landed(old(currentIndex) + KeyStep(key).value, v) && OthersKept()
    {
      if key == "ArrowRight" {
        var _ := GoToIndex(currentIndex + 1, v);
      }
      if key == "ArrowLeft" {
        var _ := GoToIndex(currentIndex - 1, v);
      }
    }

    /** The prev button's `click` listener (registered only when the button exists). */
    method OnPrevClick(v: Viewport)
      requires Valid() && Fits(v) && hasPrev
      modifies this, active
      ensures Valid()
      ensures |sectionIds| == 0 ==> unchanged(this) && unchanged(active)
      ensures |sectionIds| >= 1 ==> Landed(old(currentIndex) - 1, v) && OthersKept()
    {
      var _ := GoToIndex(currentIndex - 1, v);
    }

    /** The next button's `click` listener (registered only when the button exists). */
    method OnNextClick(v: Viewport)
      requires Valid() && Fits(v) && hasNext
      modifies this, active
      ensures Valid()
      ensures |sectionIds| == 0 ==> unchanged(this) && unchanged(active)
      ensures |sectionIds| >= 1 ==> Landed(old(currentIndex) + 1, v) && OthersKept()
    {
      var _ := GoToIndex(currentIndex + 1, v);
    }

    /** The `touchstart` listener: remember where the touch began. */
    method OnTouchStart(x: int, y: int)
      requires Valid()
      modifies this`touchStartX, this`touchStartY
      ensures Valid()
      ensures touchStartX == Some(x) && touchStartY == Some(y)
    {
      touchStartX, touchStartY := Some(x), Some(y);
    }

    /** The `touchend` listener: a recognised swipe steps one section, and
        the start point is cleared afterwards. Should `goToIndex` throw
        (no sections), the handler stops before clearing it. */
    method OnTouchEnd(x: int, y: int, v: Viewport)
      requires Valid() && Fits(v)
      modifies this, active
      ensures Valid()
      ensures old(touchStartX) == None ==> unchanged(this) && unchanged(active)
      ensures old(touchStartX).Some? ==>
        var swipe := ClassifySwipe(x - old(touchStartX).value, y - old(touchStartY).value);
        && (swipe == Ignored ==>
              && touchStartX == None && touchStartY == None
              && currentIndex == old(currentIndex) && scrolls == old(scrolls) && unchanged(active)
              && prevHidden == old(prevHidden) && nextHidden == old(nextHidden)
              && expanded == old(expanded) && navHidden == old(navHidden) && ticking == old(ticking))
        && (swipe != Ignored && |sectionIds| >= 1 ==>
              && Landed(old(currentIndex) + SwipeStep(swipe), v)
              && touchStartX == None && touchStartY == None
              && expanded == old(expanded) && navHidden == old(navHidden) && ticking == old(ticking))
        && (swipe != Ignored && |sectionIds| == 0 ==> unchanged(this) && unchanged(active))
    {
      if touchStartX == None {
        return;
      }
      var dx := x - touchStartX.value;
      var dy := y - touchStartY.value;
      var swipe := ClassifySwipe(dx, dy);
      if swipe != Ignored {
        var ok;
        if dx < 0 {
          ok := GoToIndex(currentIndex + 1, v);
        } else {
          ok := GoToIndex(currentIndex - 1, v);
        }
        if !ok {
          return;
        }
      }
      touchStartX, touchStartY := None, None;
    }

    /** The document `click` listener for in-page links. `link` is the href
        of the nearest enclosing `a[href^="#"]`, if any, and `targetExists`
        whether `document.querySelector(href)` finds an element. Returns
        whether the default jump was prevented. */
    method OnClick(link: Option<string>, targetExists: bool, v: Viewport) returns (prevented: bool)
      requires Valid() && Fits(v)
      modifies this, active
      ensures Valid()
      ensures prevented == (link.Some? && !IsPlaceholder(link.value) && targetExists)
      ensures !prevented ==> unchanged(this) && unchanged(active)
      ensures prevented && link.value in idToIndex ==> Landed(idToIndex[link.value], v)
      ensures prevented && link.value !in idToIndex ==>
        && scrolls == old(scrolls) + [ScrollIntoView(link.value)]
        && currentIndex == old(currentIndex) && unchanged(active)
        && prevHidden == old(prevHidden) && nextHidden == old(nextHidden)
      ensures prevented && v.width <= MobileBreakpoint && hasNav ==>
        navHidden && expanded == (if hasToggle then false else old(expanded))
      ensures !(prevented && v.width <= MobileBreakpoint && hasNav) ==>
        navHidden == old(navHidden) && expanded == old(expanded)
      ensures ticking == old(ticking) && pendingFrames == old(pendingFrames)
      ensures touchStartX == old(touchStartX) && touchStartY == old(touchStartY)
    {
      if link == None {
        return false;
      }
      var href := link.value;
      if IsPlaceholder(href) {
        return false;
      }
      if !targetExists {
        return false;
      }
      prevented := true;
      if href in idToIndex {
        var _ := GoToIndex(idToIndex[href], v);
      } else {
        scrolls := scrolls + [ScrollIntoView(href)];
      }
      if v.width <= MobileBreakpoint && hasNav {
        navHidden := true;
        if hasToggle {
          expanded := false;
        }
      }
    }

    /** The toggle's `click` listener (registered only when the toggle exists):
        flip `aria-expanded`, and hide the menu iff it was expanded. */
    method ToggleNav()
      requires Valid() && hasToggle
      modifies this`expanded, this`navHidden
      ensures Valid()
      ensures expanded == !old(expanded)
      ensures navHidden == (if hasNav then old(expanded) else old(navHidden))
    {
      var wasExpanded := expanded;
      expanded := !wasExpanded;
      if hasNav {
        navHidden := wasExpanded;
      }
    }
  }
}
