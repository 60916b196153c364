/**
 * The click handler of in-page anchors: scroll so that the target ends up
 * just below the fixed header, or do nothing when the fragment names no
 * element.
 */
module SmoothScroll {

  datatype Option<T> = None | Some(value: T)

  /** The height left free for the fixed header. */
  const HeaderOffset := 80

  /** Where an element whose top is `documentTop` appears once the window is scrolled to `scrollY`. */
  function ViewportTop(documentTop: int, scrollY: int): int {
    documentTop - scrollY
  }

  /**
   * The offset to scroll to. `targetTop` is the target's top relative to the
   * viewport (None when nothing matches the fragment) and `pageYOffset` the
   * current scroll offset. After scrolling there, the target sits exactly
   * HeaderOffset below the top of the viewport.
   */
  function ScrollDestination(targetTop: Option<int>, pageYOffset: int): (dest: Option<int>)
    ensures dest.None? <==> targetTop.None?
    ensures dest.Some? ==> ViewportTop(targetTop.value + pageYOffset, dest.value) == HeaderOffset
  {
    match targetTop
    case None => None
    case Some(top) => Some(top + pageYOffset - HeaderOffset)
  }
}
