/** Classification of a finished horizontal touch gesture. The distance is
    the start position minus the end position, so a finger moving leftward
    gives a positive distance. */
module Swipe {

  /** Distance, in pixels, that a gesture must exceed to navigate. */
  const SwipeThreshold: int := 100

  /** `LeftSwipe` moves to the next scene, `RightSwipe` to the previous one,
      `NoSwipe` leaves the scene as it is. */
  datatype SwipeKind = LeftSwipe | RightSwipe | NoSwipe

  /** `isLeftSwipe` and `isRightSwipe` of the touch-end handler. Exactly one
      of the three kinds is returned, and which one is decided by strict
      comparisons with the threshold on either side. */
  function Classify(distance: int): (k: SwipeKind)
    ensures k == LeftSwipe <==> distance > SwipeThreshold
    ensures k == RightSwipe <==> distance < -SwipeThreshold
    ensures k == NoSwipe <==> -SwipeThreshold <= distance <= SwipeThreshold
  {
    if distance > SwipeThreshold then LeftSwipe
    else if distance < -SwipeThreshold then RightSwipe
    else NoSwipe
  }

  /** The same gesture made in the opposite direction. */
  function Mirror(k: SwipeKind): SwipeKind {
    match k
    case LeftSwipe => RightSwipe
    case RightSwipe => LeftSwipe
    case NoSwipe => NoSwipe
  }

  /** The classifier is symmetric: reversing the direction of a gesture
      swaps left and right and keeps "no swipe". */
  lemma ClassifyMirror(distance: int)
    ensures Classify(-distance) == Mirror(Classify(distance))
  {
  }

  /** The classifier is monotone: lengthening a left swipe keeps it a left
      swipe, and likewise for right swipes. */
  lemma ClassifyMonotone(shorter: int, longer: int)
    requires shorter <= longer
    ensures Classify(shorter) == LeftSwipe ==> Classify(longer) == LeftSwipe
    ensures Classify(longer) == RightSwipe ==> Classify(shorter) == RightSwipe
  {
  }
}
