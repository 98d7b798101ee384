/**
 * Utils.isInViewport of app.js: whether an element's bounding rectangle lies wholly inside
 * the viewport. Coordinates are whole pixels relative to the viewport's top-left corner.
 */
module Viewport {

  /** getBoundingClientRect(): the element's edges. */
  datatype Rect = Rect(top: int, left: int, bottom: int, right: int)

  /** The window's inner size and the document element's client size. */
  datatype Window = Window(innerHeight: int, innerWidth: int, clientHeight: int, clientWidth: int)

  /** `window.innerHeight || document.documentElement.clientHeight`: 0 is falsy and falls through. */
  function ViewHeight(w: Window): int {
    if w.innerHeight != 0 then w.innerHeight else w.clientHeight
  }

  /** `window.innerWidth || document.documentElement.clientWidth`. */
  function ViewWidth(w: Window): int {
    if w.innerWidth != 0 then w.innerWidth else w.clientWidth
  }

  /**
   * The four edge tests of isInViewport. For a well-formed rectangle they pass exactly when
   * its top-left and bottom-right corners are both visible.
   */
  function IsInViewport(r: Rect, w: Window): (b: bool)
    ensures r.top <= r.bottom && r.left <= r.right ==>
      (b <==> PointVisible(r.left, r.top, w) && PointVisible(r.right, r.bottom, w))
  {
    r.top >= 0 && r.left >= 0 && r.bottom <= ViewHeight(w) && r.right <= ViewWidth(w)
  }

  /** A point lies in the closed viewport rectangle. */
  predicate PointVisible(x: int, y: int, w: Window) {
    0 <= x <= ViewWidth(w) && 0 <= y <= ViewHeight(w)
  }

  /** A point lies in the closed rectangle. */
  predicate InRect(x: int, y: int, r: Rect) {
    r.left <= x <= r.right && r.top <= y <= r.bottom
  }

  /** For a well-formed rectangle the edge tests say exactly that every point of it is visible. */
  lemma InViewportIffContained(r: Rect, w: Window)
    requires r.top <= r.bottom && r.left <= r.right
    ensures IsInViewport(r, w) <==> forall x, y :: InRect(x, y, r) ==> PointVisible(x, y, w)
  {
  }

  /** In a 1024 x 768 window a rectangle inside passes, and one whose right edge sticks out fails. */
  lemma ViewportExample()
    ensures IsInViewport(Rect(10, 10, 700, 1000), Window(768, 1024, 768, 1024))
    ensures !IsInViewport(Rect(10, 10, 700, 1030), Window(768, 1024, 768, 1024))
    ensures IsInViewport(Rect(10, 10, 700, 1000), Window(0, 0, 768, 1024))
  {
  }
}
