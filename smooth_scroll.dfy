/**
 * The smooth-scroll router of app.js: which anchor clicks are intercepted, which element
 * they target, and the scroll offset below the fixed nav bar; plus the hero scroll
 * indicator, which computes its offset without the clamp.
 *
 * The elements carrying an id are given in document order, each with its id and offsetTop.
 */
module SmoothScroll {
  import opened Wrappers
  import opened Navigation

  /** An element with an id, as getElementById sees it, and its offsetTop. */
  datatype Element = Element(id: string, top: int)

  /** The height of the fixed nav bar subtracted from the target's offsetTop. */
  const NAV_HEIGHT := 80

  /** document.getElementById: the first element in document order with this id. */
  function FindById(elements: seq<Element>, id: string): (r: Option<Element>)
    ensures r.None? <==> forall i :: 0 <= i < |elements| ==> elements[i].id != id
    ensures r.Some? ==>
      exists i :: 0 <= i < |elements| && elements[i] == r.value && r.value.id == id &&
                  forall k :: 0 <= k < i ==> elements[k].id != id
    decreases |elements|
  {
    if elements == [] then None
    else if elements[0].id == id then Some(elements[0])
    else
      var r := FindById(elements[1..], id);
      assert forall i :: 0 <= i < |elements| - 1 ==> elements[1..][i] == elements[i + 1];
      r
  }

  /** The early return of the click handler: no href, "", "#", or any href of length at most 1. */
  function Ignores(href: Option<string>): (r: bool)
    ensures r <==> href.None? || |href.value| < 2
  {
    href.None? || href.value == "" || href.value == "#" || |href.value| <= 1
  }

  /** Math.max(0, offsetTop - 80). */
  function ScrollTop(offsetTop: int): (r: int)
    ensures r >= 0 && r >= offsetTop - NAV_HEIGHT
    ensures r == 0 || r == offsetTop - NAV_HEIGHT
  {
    if 0 >= offsetTop - NAV_HEIGHT then 0 else offsetTop - NAV_HEIGHT
  }

  /**
   * What the click handler decides: Ignored (the browser's default navigation goes ahead),
   * or Handled (preventDefault was called) with the target id and, when the target exists,
   * the offset passed to window.scrollTo.
   */
  datatype ClickOutcome = Ignored | Handled(targetId: string, scrollTo: Option<int>)

  function AnchorClick(href: Option<string>, elements: seq<Element>): (r: ClickOutcome)
    ensures r.Ignored? <==> href.None? || |href.value| < 2
    ensures r.Handled? ==> |r.targetId| + 1 == |href.value| && r.targetId == href.value[1..]
    ensures r.Handled? ==>
      (r.scrollTo.Some? <==> exists i :: 0 <= i < |elements| && elements[i].id == r.targetId)
    ensures r.Handled? && r.scrollTo.Some? ==> r.scrollTo.value >= 0
  {
    if Ignores(href) then Ignored
    else
      var targetId := href.value[1..];
      match FindById(elements, targetId)
      case None => Handled(targetId, None)
      case Some(target) => Handled(targetId, Some(ScrollTop(target.top)))
  }

  /**
   * A click on the link "#"+id scrolls to the first element with that id, 80 pixels above it
   * (never above 0). An empty id gives the link "#", which the filter ignores.
   */
  lemma ClickOnSectionLink(elements: seq<Element>, i: nat)
    requires i < |elements| && elements[i].id != ""
    requires forall k :: 0 <= k < i ==> elements[k].id != elements[i].id
    ensures AnchorClick(Some(HrefFor(elements[i].id)), elements) ==
            Handled(elements[i].id, Some(ScrollTop(elements[i].top)))
  {
  }

  /**
   * The click handler and the scroll handler agree, provided the page can scroll as far as
   * max(0, top - 80): if a section more than 170 pixels tall with its top at least 80 is
   * scrolled to that position, the scroll handler's range test claims that same section.
   * Near the bottom of the page the browser stops earlier, at scrollHeight - innerHeight,
   * and this need not hold.
   */
  lemma ScrolledSectionMatches(s: Section)
    requires s.top >= NAV_HEIGHT && s.height > SECTION_LEAD - NAV_HEIGHT + LOOKAHEAD
    ensures Matches(s, ScrollPos(ScrollTop(s.top)))
  {
  }

  /**
   * The click handler. A handled click whose target exists also runs updateActiveNavLink;
   * an ignored click, or one whose target is missing, leaves the links unchanged.
   */
  method OnAnchorClick(href: Option<string>, elements: seq<Element>, links: array<NavLink>)
    returns (outcome: ClickOutcome)
    modifies links
    ensures outcome == AnchorClick(href, elements)
    ensures outcome.Handled? && outcome.scrollTo.Some? ==>
      links[..] == Activate(old(links[..]), outcome.targetId)
    ensures !(outcome.Handled? && outcome.scrollTo.Some?) ==> links[..] == old(links[..])
  {
    outcome := AnchorClick(href, elements);
    if outcome.Handled? && outcome.scrollTo.Some? {
      UpdateActiveNavLink(links, outcome.targetId);
    }
  }

  /** The hero scroll indicator: the "about" element's offsetTop minus 80, with no clamp. */
  function IndicatorScrollTop(elements: seq<Element>): (r: Option<int>)
    ensures r.None? <==> forall i :: 0 <= i < |elements| ==> elements[i].id != "about"
    ensures r.Some? ==>
      exists i :: 0 <= i < |elements| && elements[i].id == "about" &&
                  (forall k :: 0 <= k < i ==> elements[k].id != "about") &&
                  r.value == elements[i].top - NAV_HEIGHT
  {
    match FindById(elements, "about")
    case None => None
    case Some(about) => Some(about.top - NAV_HEIGHT)
  }

  /**
   * The indicator and a click on "#about" agree on whether there is a target, and the click's
   * offset is the indicator's clamped at 0; an "about" section at offsetTop 50 makes the
   * indicator ask for -30 where the link asks for 0.
   */
  lemma IndicatorVersusAnchor(elements: seq<Element>)
    ensures var click := AnchorClick(Some("#about"), elements);
      click.Handled? && click.targetId == "about" &&
      (click.scrollTo.Some? <==> IndicatorScrollTop(elements).Some?) &&
      (click.scrollTo.Some? ==> click.scrollTo.value == ScrollTop(IndicatorScrollTop(elements).value + NAV_HEIGHT))
    ensures var click := AnchorClick(Some("#about"), [Element("about", 50)]);
      IndicatorScrollTop([Element("about", 50)]) == Some(-30) && click == Handled("about", Some(0))
  {
  }
}
