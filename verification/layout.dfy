/** Responsive layout: the page switches to its mobile layout (menu button,
    navigation dots, swipe hint) on narrow viewports. */
module Layout {

  /** Widest viewport, in CSS pixels, that still counts as mobile. */
  const MobileMaxWidth: int := 768

  /** The classification made by `checkMobile` for a viewport width. */
  predicate IsMobileWidth(width: int) {
    width <= MobileMaxWidth
  }

  /** The threshold is inclusive at 768 and the classification is downward
      closed: a viewport narrower than a mobile one is mobile as well. */
  lemma MobileThreshold(narrow: int, wide: int)
    requires narrow <= wide
    ensures IsMobileWidth(768) && !IsMobileWidth(769)
    ensures IsMobileWidth(wide) ==> IsMobileWidth(narrow)
    ensures !IsMobileWidth(narrow) ==> !IsMobileWidth(wide)
  {
  }
}
