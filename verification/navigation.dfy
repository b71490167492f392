/**
 * The navigation bar: the mobile menu's open state (`toggleMobileMenu`,
 * `closeMobileMenu` and the resize listener, app.js lines 11-20 and 401-406) and
 * the highlighting of the link of the section being read (`updateActiveNavLink`,
 * app.js lines 43-60).
 */
module Navigation {
  import opened Wrappers
  import opened JsText

  // ---------------------------------------------------------------------------
  // Mobile menu
  // ---------------------------------------------------------------------------

  /** Viewports wider than this use the desktop layout, which has no mobile menu. */
  const DesktopWidth := 768

  /** The `active` class of the menu panel and of the toggle button. */
  datatype MenuState = MenuState(menuActive: bool, toggleActive: bool)

  /** `toggleMobileMenu`: both classes are toggled. */
  function Toggled(m: MenuState): MenuState {
    MenuState(!m.menuActive, !m.toggleActive)
  }

  /** `closeMobileMenu`: both classes are removed. */
  function Closed(m: MenuState): MenuState {
    MenuState(false, false)
  }

  /** The panel and the toggle agree, as they do from page load onwards. */
  predicate InStep(m: MenuState) {
    m.menuActive == m.toggleActive
  }

  /** Toggling twice gives back the state toggled from. */
  lemma ToggleTwiceRestores(m: MenuState)
    ensures Toggled(Toggled(m)) == m
  {
  }

  /** Closing an already closed menu changes nothing. */
  lemma CloseIdempotent(m: MenuState)
    ensures Closed(Closed(m)) == Closed(m)
    ensures !Closed(m).menuActive && !Closed(m).toggleActive
  {
  }

  /** Both operations keep the panel and the toggle in step. */
  lemma MenuOperationsKeepInStep(m: MenuState)
    requires InStep(m)
    ensures InStep(Toggled(m)) && InStep(Closed(m))
  {
  }

  class MobileMenu {
    var menuActive: bool
    var toggleActive: bool

    function State(): MenuState
      reads this
    {
      MenuState(menuActive, toggleActive)
    }

    /** As the page loads: neither element has the `active` class. */
    constructor ()
      ensures State() == MenuState(false, false)
    {
      menuActive, toggleActive := false, false;
    }

    /** `toggleMobileMenu`. */
    method Toggle()
      modifies this
      ensures State() == Toggled(old(State()))
    {
      menuActive := !menuActive;
      toggleActive := !toggleActive;
    }

    /** `closeMobileMenu`. */
    method Close()
      modifies this
      ensures State() == Closed(old(State()))
    {
      menuActive := false;
      toggleActive := false;
    }

    /** The resize listener: a viewport wider than the breakpoint closes the menu. */
    method OnResize(innerWidth: int)
      modifies this
      ensures State() == if innerWidth > DesktopWidth then Closed(old(State())) else old(State())
    {
      if innerWidth > DesktopWidth {
        Close();
      }
    }
  }

  // ---------------------------------------------------------------------------
  // Active link
  // ---------------------------------------------------------------------------

  /** A section is counted as reached this far before its top scrolls to the top of the viewport. */
  const ScrollLookahead := 100

  /** A `section[id]`: its `offsetTop`, its `offsetHeight` and its `id`. */
  datatype Section = Section(top: int, height: nat, id: string)

  /** The half-open vertical span of `s` holds `pos`. */
  predicate Spans(s: Section, pos: int) {
    s.top <= pos < s.top + s.height
  }

  /**
   * `offsetTop` and `offsetHeight` are whole pixels, so a fractional `scrollY`
   * finds the same sections as its floor: the model's integer offset loses
   * nothing.
   */
  lemma SpansAtFloor(s: Section, scrollY: real)
    ensures (s.top as real <= scrollY + ScrollLookahead as real < (s.top + s.height) as real)
        <==> Spans(s, scrollY.Floor + ScrollLookahead)
  {
  }

  /** The last section, in document order, whose span holds `pos`, if there is one. */
  function LastSpanning(sections: seq<Section>, pos: int): (r: Option<nat>)
    ensures r.Some? ==> r.value < |sections| && Spans(sections[r.value], pos)
    ensures r.Some? ==> forall j | r.value < j < |sections| :: !Spans(sections[j], pos)
    ensures r.None? <==> forall j | 0 <= j < |sections| :: !Spans(sections[j], pos)
  {
    if sections == [] then None
    else if Spans(sections[|sections| - 1], pos) then Some(|sections| - 1)
    else LastSpanning(sections[..|sections| - 1], pos)
  }

  /**
   * `document.querySelector('a[href="#id"]')`, looked up among the navigation
   * links: the first link whose `href` is `#` followed by `id`, if any.
   */
  function LinkFor(hrefs: seq<string>, id: string): (r: Option<nat>)
    ensures r.Some? ==> r.value < |hrefs| && hrefs[r.value] == "#" + id
    ensures r.Some? ==> forall k | 0 <= k < r.value :: hrefs[k] != "#" + id
    ensures r.None? <==> "#" + id !in hrefs
  {
    var k := IndexOf(hrefs, "#" + id);
    if k < |hrefs| then Some(k) else None
  }

  /** `n` links, of which only `target` (if any) has the `active` class. */
  function Highlight(n: nat, target: Option<nat>): seq<bool> {
    seq(n, k => target == Some(k))
  }

  /**
   * The `active` classes after `updateActiveNavLink` on `prev`: the sections
   * are visited in order, and each one spanning `pos` clears every link and
   * marks its own, so the last such section decides.
   */
  function ActiveAfter(prev: seq<bool>, hrefs: seq<string>, sections: seq<Section>, pos: int): (r: seq<bool>)
    ensures |prev| == |hrefs| ==> |r| == |hrefs|
    ensures r != prev ==> forall a, b | 0 <= a < b < |r| :: !(r[a] && r[b])
  {
    match LastSpanning(sections, pos)
    case None => prev
    case Some(m) => Highlight(|hrefs|, LinkFor(hrefs, sections[m].id))
  }

  /**
   * When some section spans the position, exactly the link of the last such
   * section is active afterwards, and none is when that section has no link.
   */
  lemma ActiveAfterLastSpanning(prev: seq<bool>, hrefs: seq<string>, sections: seq<Section>, pos: int, m: nat)
    requires m < |sections| && Spans(sections[m], pos)
    requires forall j | m < j < |sections| :: !Spans(sections[j], pos)
    ensures |ActiveAfter(prev, hrefs, sections, pos)| == |hrefs|
    ensures forall k | 0 <= k < |hrefs| ::
      ActiveAfter(prev, hrefs, sections, pos)[k] <==> LinkFor(hrefs, sections[m].id) == Some(k)
  {
    assert LastSpanning(sections, pos) == Some(m);
  }

  /** When no section spans the position, the links keep the classes they had. */
  lemma ActiveAfterNoSpanning(prev: seq<bool>, hrefs: seq<string>, sections: seq<Section>, pos: int)
    requires forall j | 0 <= j < |sections| :: !Spans(sections[j], pos)
    ensures ActiveAfter(prev, hrefs, sections, pos) == prev
  {
  }

  /** After a spanning section is found, at most one link is active. */
  lemma AtMostOneActive(prev: seq<bool>, hrefs: seq<string>, sections: seq<Section>, pos: int, a: nat, b: nat)
    requires LastSpanning(sections, pos).Some?
    requires a < b < |hrefs|
    ensures !(ActiveAfter(prev, hrefs, sections, pos)[a] && ActiveAfter(prev, hrefs, sections, pos)[b])
  {
  }

  /** The navigation links: their `href`s, and which of them has the `active` class. */
  class NavLinks {
    const hrefs: seq<string>
    var active: seq<bool>

    ghost predicate Valid()
      reads this
    {
      |active| == |hrefs|
    }

    constructor (hrefs: seq<string>, active: seq<bool>)
      requires |active| == |hrefs|
      ensures Valid() && this.hrefs == hrefs && this.active == active
    {
      this.hrefs := hrefs;
      this.active := active;
    }

    /** `navLinks.forEach(link => link.classList.remove('active'))`. */
    method ClearActive()
      requires Valid()
      modifies this
      ensures Valid()
      ensures forall k | 0 <= k < |active| :: !active[k]
    {
      var k := 0;
      while k < |active|
        invariant 0 <= k <= |active| == |hrefs|
        invariant forall j | 0 <= j < k :: !active[j]
      {
        active := active[k := false];
        k := k + 1;
      }
    }

    /**
     * `updateActiveNavLink` at vertical scroll offset `scrollY`: the classes
     * become `ActiveAfter` of the ones before, at `scrollY + 100`. The result
     * depends on nothing else, so the same offset and sections always give the
     * same highlighting.
     */
    method UpdateActiveNavLink(sections: seq<Section>, scrollY: int)
      requires Valid()
      modifies this
      ensures Valid()
      ensures active == ActiveAfter(old(active), hrefs, sections, scrollY + ScrollLookahead)
    {
      var pos := scrollY + ScrollLookahead;
      var i := 0;
      while i < |sections|
        invariant 0 <= i <= |sections|
        invariant Valid()
        invariant active == ActiveAfter(old(active), hrefs, sections[..i], pos)
      {
        var section := sections[i];
        assert sections[..i + 1][..i] == sections[..i];
        if Spans(section, pos) {
          ClearActive();
          var link := LinkFor(hrefs, section.id);
          if link.Some? {
            active := active[link.value := true];
          }
          assert active == Highlight(|hrefs|, link);
        }
        i := i + 1;
      }
      assert sections[..i] == sections;
    }
  }
}
