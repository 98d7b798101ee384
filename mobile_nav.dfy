/**
 * The mobile menu of app.js: a click on #nav-toggle toggles the class `active` on the
 * toggle and on `.nav-menu`; a click on any `.nav-link` removes it from both. The handlers
 * are attached only when both elements exist.
 */
module MobileNav {

  /** The two kinds of click the menu reacts to. */
  datatype Click = ToggleClick | LinkClick

  class MobileMenu {
    /** Whether setupMobileNav attached the handlers: both #nav-toggle and .nav-menu exist. */
    const bound: bool
    /** #nav-toggle has class `active`. */
    var toggleActive: bool
    /** .nav-menu has class `active`. */
    var menuActive: bool

    /** setupMobileNav on a page whose two elements start with the given class state. */
    constructor (hasToggle: bool, hasMenu: bool, toggleActive: bool, menuActive: bool)
      ensures bound == (hasToggle && hasMenu)
      ensures this.toggleActive == toggleActive && this.menuActive == menuActive
    {
      bound := hasToggle && hasMenu;
      this.toggleActive := toggleActive;
      this.menuActive := menuActive;
    }

    /** A click on the toggle: classList.toggle('active') on both elements. */
    method OnToggleClick()
      modifies this
      ensures bound ==> toggleActive == !old(toggleActive) && menuActive == !old(menuActive)
      ensures !bound ==> toggleActive == old(toggleActive) && menuActive == old(menuActive)
    {
      if bound {
        toggleActive := !toggleActive;
        menuActive := !menuActive;
      }
    }

    /** A click on a nav link: classList.remove('active') on both elements. */
    method OnLinkClick()
      modifies this
      ensures bound ==> !toggleActive && !menuActive
      ensures !bound ==> toggleActive == old(toggleActive) && menuActive == old(menuActive)
    {
      if bound {
        toggleActive := false;
        menuActive := false;
      }
    }
  }

  /** Whether one element has class `active` after the clicks, when the handlers are bound. */
  function AfterClicks(active: bool, clicks: seq<Click>): bool
    decreases |clicks|
  {
    if clicks == [] then active
    else AfterClicks(if clicks[0] == ToggleClick then !active else false, clicks[1..])
  }

  /**
   * A run of clicks on the menu with no resize in between. With both elements present each
   * element follows AfterClicks, so a toggle and a menu that start equal stay equal; otherwise nothing changes.
   */
  method RunClicks(hasToggle: bool, hasMenu: bool, toggle0: bool, menu0: bool, clicks: seq<Click>)
    returns (toggle: bool, menu: bool)
    ensures hasToggle && hasMenu ==> toggle == AfterClicks(toggle0, clicks) && menu == AfterClicks(menu0, clicks)
    ensures !(hasToggle && hasMenu) ==> toggle == toggle0 && menu == menu0
    ensures toggle0 == menu0 ==> toggle == menu
  {
    var m := new MobileMenu(hasToggle, hasMenu, toggle0, menu0);
    var i := 0;
    while i < |clicks|
      invariant 0 <= i <= |clicks|
      invariant m.bound == (hasToggle && hasMenu)
      invariant m.bound ==> AfterClicks(m.toggleActive, clicks[i..]) == AfterClicks(toggle0, clicks)
      invariant m.bound ==> AfterClicks(m.menuActive, clicks[i..]) == AfterClicks(menu0, clicks)
      invariant !m.bound ==> m.toggleActive == toggle0 && m.menuActive == menu0
      invariant toggle0 == menu0 ==> m.toggleActive == m.menuActive
    {
      assert clicks[i..][1..] == clicks[i + 1..];
      if clicks[i] == ToggleClick {
        m.OnToggleClick();
      } else {
        m.OnLinkClick();
      }
      i := i + 1;
    }
    assert clicks[i..] == [];
    toggle, menu := m.toggleActive, m.menuActive;
  }

  /** A link click closes the menu whatever came before: only the clicks after the last one matter. */
  lemma {:induction false} LinkClickCloses(active: bool, before: seq<Click>, after: seq<Click>)
    ensures AfterClicks(active, before + [LinkClick] + after) == AfterClicks(false, after)
    decreases |before|
  {
    if before == [] {
      assert ([LinkClick] + after)[1..] == after;
    } else {
      assert (before + [LinkClick] + after)[1..] == before[1..] + [LinkClick] + after;
      LinkClickCloses(if before[0] == ToggleClick then !active else false, before[1..], after);
    }
  }

  /** Without link clicks each toggle click flips the class: an odd number of them inverts it. */
  lemma {:induction false} TogglesFlip(active: bool, clicks: seq<Click>)
    requires forall i :: 0 <= i < |clicks| ==> clicks[i] == ToggleClick
    ensures AfterClicks(active, clicks) == (active != (|clicks| % 2 == 1))
    decreases |clicks|
  {
    if clicks != [] {
      TogglesFlip(!active, clicks[1..]);
    }
  }
}
