/**
 * The navigation state tracker of app.js: which `.nav-link` carries the class `active`
 * after a scroll event, and the direct update `updateActiveNavLink`.
 *
 * The page is plain state: the `section[id]` elements in document order with their
 * offsetTop and offsetHeight, and the nav links (a fixed set of DOM elements whose
 * class lists are changed in place) as an array.
 */
module Navigation {
  import opened Wrappers

  /** A `section[id]` element: its id, offsetTop and offsetHeight in pixels. */
  datatype Section = Section(id: string, top: int, height: int)

  /** A `.nav-link` element: its href attribute (None when absent) and whether it has class `active`. */
  datatype NavLink = NavLink(href: Option<string>, active: bool)

  /** Added to scrollY before comparing with the sections. */
  const LOOKAHEAD := 100
  /** Subtracted from a section's offsetTop to get the start of its range. */
  const SECTION_LEAD := 150

  /** The fragment link that points at a section: "#" + id. */
  function HrefFor(id: string): string {
    "#" + id
  }

  /** The position the scroll handler compares with the sections. */
  function ScrollPos(scrollY: int): int {
    scrollY + LOOKAHEAD
  }

  /** A section claims the position `pos` when pos lies in [top - 150, top - 150 + height). */
  predicate Matches(s: Section, pos: int) {
    s.top - SECTION_LEAD <= pos < s.top - SECTION_LEAD + s.height
  }

  /** What one pass of the link loop does to one link: clear `active`, then set it when the href is "#"+id. */
  function Mark(link: NavLink, id: string): NavLink {
    link.(active := link.href == Some(HrefFor(id)))
  }

  /** The link loop applied to every link. */
  function Activate(links: seq<NavLink>, id: string): seq<NavLink> {
    seq(|links|, j requires 0 <= j < |links| => Mark(links[j], id))
  }

  /** Every link that is active has the same href. */
  predicate AtMostOneActiveHref(links: seq<NavLink>) {
    forall j, k :: 0 <= j < |links| && 0 <= k < |links| && links[j].active && links[k].active ==>
      links[j].href == links[k].href
  }

  /**
   * The scroll handler's outer loop as the source runs it: sections in document order,
   * and every matching section runs the link loop again.
   */
  function ScrollFold(links: seq<NavLink>, sections: seq<Section>, pos: int): (r: seq<NavLink>)
    ensures |r| == |links|
    ensures forall j :: 0 <= j < |links| ==> r[j].href == links[j].href
    ensures AtMostOneActiveHref(links) ==> AtMostOneActiveHref(r)
    ensures (forall i :: 0 <= i < |sections| ==> !Matches(sections[i], pos)) ==> r == links
    decreases |sections|
  {
    if sections == [] then links
    else
      var before := ScrollFold(links, sections[..|sections| - 1], pos);
      var s := sections[|sections| - 1];
      if Matches(s, pos) then Activate(before, s.id) else before
  }

  /** The id of the last section, in document order, that claims `pos`; None when none does. */
  function LastMatch(sections: seq<Section>, pos: int): (r: Option<string>)
    ensures r.None? <==> forall i :: 0 <= i < |sections| ==> !Matches(sections[i], pos)
    ensures r.Some? ==>
      exists i :: 0 <= i < |sections| && Matches(sections[i], pos) && sections[i].id == r.value &&
                  forall k :: i < k < |sections| ==> !Matches(sections[k], pos)
    decreases |sections|
  {
    if sections == [] then None
    else
      var n := |sections| - 1;
      if Matches(sections[n], pos) then Some(sections[n].id)
      else
        var r := LastMatch(sections[..n], pos);
        assert forall i :: 0 <= i < n ==> sections[..n][i] == sections[i];
        assert r.Some? ==>
          exists i :: 0 <= i < |sections| && Matches(sections[i], pos) && sections[i].id == r.value &&
                      forall k :: i < k < |sections| ==> !Matches(sections[k], pos) by {
          if r.Some? {
            var i :| 0 <= i < n && Matches(sections[..n][i], pos) && sections[..n][i].id == r.value &&
                     forall k :: i < k < n ==> !Matches(sections[..n][k], pos);
            assert forall k :: i < k < |sections| ==> !Matches(sections[k], pos);
          }
        }
        r
  }

  /** A later match overrides an earlier one: only the last link loop leaves a trace. */
  lemma ActivateTwice(links: seq<NavLink>, first: string, second: string)
    ensures Activate(Activate(links, first), second) == Activate(links, second)
  {
  }

  /**
   * The scroll handler's effect: with no matching section the links are as they were;
   * otherwise exactly the links whose href is "#" + (the last matching id) are active.
   */
  lemma {:induction false} ScrollFoldIsLastMatch(links: seq<NavLink>, sections: seq<Section>, pos: int)
    ensures ScrollFold(links, sections, pos) ==
      match LastMatch(sections, pos)
      case None => links
      case Some(id) => Activate(links, id)
    decreases |sections|
  {
    if sections != [] {
      var n := |sections| - 1;
      ScrollFoldIsLastMatch(links, sections[..n], pos);
      match LastMatch(sections[..n], pos)
      case None =>
      case Some(earlier) =>
        if Matches(sections[n], pos) {
          ActivateTwice(links, earlier, sections[n].id);
        }
    }
  }

  /** After the link loop a link is active exactly when its href is "#"+id, so at most one href is active. */
  lemma ActivateMarksTarget(links: seq<NavLink>, id: string)
    ensures |Activate(links, id)| == |links|
    ensures forall j :: 0 <= j < |links| ==>
      Activate(links, id)[j].href == links[j].href &&
      (Activate(links, id)[j].active <==> links[j].href == Some(HrefFor(id)))
    ensures AtMostOneActiveHref(Activate(links, id))
  {
  }

  /** An example: ranges [0,500), [500,1200), [1200,2000) and scrollY 600 select the second section. */
  lemma ScrollExample()
    ensures LastMatch([Section("home", 0, 500), Section("about", 500, 700), Section("skills", 1200, 800)],
                      ScrollPos(600)) == Some("about")
  {
  }

  /**
   * updateActiveNavLink(targetId): each link loses `active`, and gains it again
   * when its href is "#" + targetId.
   */
  method UpdateActiveNavLink(links: array<NavLink>, targetId: string)
    modifies links
    ensures links[..] == Activate(old(links[..]), targetId)
    ensures forall j :: 0 <= j < links.Length ==>
      links[j].href == old(links[j].href) && (links[j].active <==> links[j].href == Some(HrefFor(targetId)))
    ensures AtMostOneActiveHref(links[..])
  {
    var j := 0;
    while j < links.Length
      invariant 0 <= j <= links.Length
      invariant forall k :: 0 <= k < j ==> links[k] == Mark(old(links[k]), targetId)
      invariant forall k :: j <= k < links.Length ==> links[k] == old(links[k])
    {
      links[j] := links[j].(active := false);
      if links[j].href == Some("#" + targetId) {
        links[j] := links[j].(active := true);
      }
      j := j + 1;
    }
    ActivateMarksTarget(old(links[..]), targetId);
  }

  /**
   * The scroll listener. `scrolled` says whether the nav bar gets its "scrolled" style
   * (scrollY + 100 > 100). Each section that claims scrollY + 100 runs the same link loop
   * as updateActiveNavLink, so the last match wins and no match changes nothing.
   */
  method OnScroll(sections: seq<Section>, links: array<NavLink>, scrollY: int) returns (scrolled: bool)
    modifies links
    ensures scrolled <==> scrollY > 0
    ensures links[..] == ScrollFold(old(links[..]), sections, ScrollPos(scrollY))
    ensures LastMatch(sections, ScrollPos(scrollY)).None? ==> links[..] == old(links[..])
    ensures LastMatch(sections, ScrollPos(scrollY)).Some? ==>
      links[..] == Activate(old(links[..]), LastMatch(sections, ScrollPos(scrollY)).value)
  {
    var scrollPos := scrollY + 100;
    scrolled := scrollPos > 100;
    var i := 0;
    while i < |sections|
      invariant 0 <= i <= |sections|
      invariant links[..] == ScrollFold(old(links[..]), sections[..i], scrollPos)
    {
      var sectionTop := sections[i].top - 150;
      var sectionBottom := sectionTop + sections[i].height;
      if scrollPos >= sectionTop && scrollPos < sectionBottom {
        UpdateActiveNavLink(links, sections[i].id);
      }
      assert sections[..i + 1][..i] == sections[..i];
      i := i + 1;
    }
    assert sections[..i] == sections;
    ScrollFoldIsLastMatch(old(links[..]), sections, scrollPos);
  }
}
