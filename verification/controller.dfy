/** The presentation's navigation and gesture state machine, as values: a
    snapshot of the component state, one transition per event handler of the
    page, and runs of events. The class `Page.Home` implements each
    transition by assigning its fields one by one; the lemmas here state what
    the page promises over whole sequences of events. */
module Controller {
  import opened Scenes
  import opened Swipe
  import opened Layout

  /** The state hooks of the page that its handlers change (`showControls`
      never changes and is not part of the model). */
  datatype Snapshot = Snapshot(
    currentScene: int,
    isPlaying: bool,
    isMobile: bool,
    showMobileMenu: bool,
    touchStart: int,
    touchEnd: int,
    showSwipeHint: bool,
    swipeOffset: int,
    isSwiping: bool)

  /** No gesture in progress: every gesture field holds its reset value. */
  predicate GestureIdle(s: Snapshot) {
    !s.isSwiping && s.touchStart == 0 && s.touchEnd == 0 && s.swipeOffset == 0
  }

  /** What holds in every reachable state: the scene index is in range, the
      gesture fields are reset whenever no gesture is in progress, and while
      one is, the hint is gone and the offset is either fresh or the distance
      from the start to the last recorded position. */
  predicate Inv(s: Snapshot) {
    ValidScene(s.currentScene) &&
    (!s.isSwiping ==> GestureIdle(s)) &&
    (s.isSwiping ==> !s.showSwipeHint &&
                     (s.swipeOffset == 0 || s.swipeOffset == s.touchEnd - s.touchStart))
  }

  /** The state of the first render. */
  function Initial(): (s: Snapshot)
    ensures Inv(s) && GestureIdle(s)
    ensures s.currentScene == 0 && !s.isPlaying && !s.isMobile && s.showSwipeHint && !s.showMobileMenu
  {
    Snapshot(0, false, false, false, 0, 0, true, 0, false)
  }

  /** `nextScene`: only the scene changes, to its successor. */
  function AfterNextScene(s: Snapshot): (r: Snapshot)
    ensures r.currentScene == Next(s.currentScene, SceneCount)
    ensures r.(currentScene := s.currentScene) == s
    ensures Inv(s) ==> Inv(r)
  {
    s.(currentScene := Next(s.currentScene, SceneCount))
  }

  /** `prevScene`: only the scene changes, to its predecessor. */
  function AfterPrevScene(s: Snapshot): (r: Snapshot)
    ensures r.currentScene == Prev(s.currentScene, SceneCount)
    ensures r.(currentScene := s.currentScene) == s
    ensures Inv(s) ==> Inv(r)
  {
    s.(currentScene := Prev(s.currentScene, SceneCount))
  }

  /** A navigation dot: jumps to scene `i` and changes nothing else. */
  function AfterSelect(s: Snapshot, i: int): (r: Snapshot)
    requires ValidScene(i)
    ensures r.currentScene == i
    ensures r.(currentScene := s.currentScene) == s
    ensures Inv(s) ==> Inv(r)
  {
    s.(currentScene := i)
  }

  /** An item of the mobile menu: jumps to scene `i`, closes the menu and
      changes nothing else. */
  function AfterMenuSelect(s: Snapshot, i: int): (r: Snapshot)
    requires ValidScene(i)
    ensures r.currentScene == i && !r.showMobileMenu
    ensures r.(currentScene := s.currentScene, showMobileMenu := s.showMobileMenu) == s
    ensures Inv(s) ==> Inv(r)
  {
    s.(currentScene := i, showMobileMenu := false)
  }

  /** A play/pause button: flips autoplay and changes nothing else. */
  function AfterTogglePlay(s: Snapshot): (r: Snapshot)
    ensures r.isPlaying != s.isPlaying
    ensures r.(isPlaying := s.isPlaying) == s
    ensures Inv(s) ==> Inv(r)
  {
    s.(isPlaying := !s.isPlaying)
  }

  /** The body of the autoplay interval: advances only while playing. */
  function AfterTick(s: Snapshot): (r: Snapshot)
    ensures s.isPlaying ==> r == AfterNextScene(s)
    ensures !s.isPlaying ==> r == s
    ensures Inv(s) ==> Inv(r)
  {
    if s.isPlaying then AfterNextScene(s) else s
  }

  /** `checkMobile` for a viewport of the given width. */
  function AfterResize(s: Snapshot, width: int): (r: Snapshot)
    ensures r.isMobile <==> width <= MobileMaxWidth
    ensures r.(isMobile := s.isMobile) == s
    ensures Inv(s) ==> Inv(r)
  {
    s.(isMobile := IsMobileWidth(width))
  }

  /** `handleTouchStart` with the first touch at `x`: records the start,
      clears the offset, marks a gesture in progress and dismisses the hint;
      the scene and the last recorded position are left alone. */
  function AfterTouchStart(s: Snapshot, x: int): (r: Snapshot)
    ensures r.touchStart == x && r.swipeOffset == 0 && r.isSwiping && !r.showSwipeHint
    ensures r.(touchStart := s.touchStart, swipeOffset := s.swipeOffset,
               isSwiping := s.isSwiping, showSwipeHint := s.showSwipeHint) == s
    ensures Inv(s) ==> Inv(r)
  {
    s.(touchStart := x, swipeOffset := 0, isSwiping := true, showSwipeHint := false)
  }

  /** `handleTouchMove` with the first touch at `x`: ignored unless a gesture
      is in progress; otherwise records `x` as the last position and the
      offset from the start to it, and changes nothing else. */
  function AfterTouchMove(s: Snapshot, x: int): (r: Snapshot)
    ensures !s.isSwiping ==> r == s
    ensures s.isSwiping ==> r.touchEnd == x && r.swipeOffset == r.touchEnd - r.touchStart
    ensures r.(touchEnd := s.touchEnd, swipeOffset := s.swipeOffset) == s
    ensures Inv(s) ==> Inv(r)
  {
    if !s.isSwiping then s
    else s.(swipeOffset := x - s.touchStart, touchEnd := x)
  }

  /** The scene a classified gesture leads to. */
  function SwipeTarget(scene: int, k: SwipeKind): int {
    match k
    case LeftSwipe => Next(scene, SceneCount)
    case RightSwipe => Prev(scene, SceneCount)
    case NoSwipe => scene
  }

  /** `handleTouchEnd`. When either recorded position is 0 (JavaScript's
      falsy check) nothing at all changes. Otherwise the scene moves forward
      exactly when the start lies more than the threshold right of the end,
      backward exactly when it lies more than the threshold left of it, and
      stays otherwise; then every gesture field is reset. */
  function AfterTouchEnd(s: Snapshot): (r: Snapshot)
    ensures s.touchStart == 0 || s.touchEnd == 0 ==> r == s
    ensures s.touchStart != 0 && s.touchEnd != 0 ==>
      GestureIdle(r) &&
      r.(currentScene := s.currentScene, touchStart := s.touchStart, touchEnd := s.touchEnd,
         swipeOffset := s.swipeOffset, isSwiping := s.isSwiping) == s
    ensures s.touchStart != 0 && s.touchEnd != 0 && ValidScene(s.currentScene) ==>
      var distance := s.touchStart - s.touchEnd;
      (r.currentScene == Next(s.currentScene, SceneCount) <==> distance > SwipeThreshold) &&
      (r.currentScene == Prev(s.currentScene, SceneCount) <==> distance < -SwipeThreshold) &&
      (r.currentScene == s.currentScene <==> -SwipeThreshold <= distance <= SwipeThreshold)
    ensures Inv(s) ==> Inv(r)
  {
    if s.touchStart == 0 || s.touchEnd == 0 then s
    else
      var moved := s.(currentScene := SwipeTarget(s.currentScene, Classify(s.touchStart - s.touchEnd)));
      moved.(touchStart := 0, touchEnd := 0, swipeOffset := 0, isSwiping := false)
  }

  /** The events the page reacts to. Positions are the `clientX` of the
      first touch; `DotClick` and `MenuItemClick` carry the index of the
      button pressed. */
  datatype Event =
    | NextClick
    | PrevClick
    | DotClick(index: int)
    | MenuItemClick(index: int)
    | PlayClick
    | TimerTick
    | Resize(width: int)
    | TouchStart(x: int)
    | TouchMove(x: int)
    | TouchEnd

  /** The page renders one button per scene, so a selection always names a
      scene that exists. */
  predicate WellFormed(e: Event) {
    match e
    case DotClick(i) => ValidScene(i)
    case MenuItemClick(i) => ValidScene(i)
    case _ => true
  }

  predicate AllWellFormed(events: seq<Event>) {
    forall k :: 0 <= k < |events| ==> WellFormed(events[k])
  }

  /** The handler that an event runs. */
  function Step(s: Snapshot, e: Event): Snapshot
    requires WellFormed(e)
  {
    match e
    case NextClick => AfterNextScene(s)
    case PrevClick => AfterPrevScene(s)
    case DotClick(i) => AfterSelect(s, i)
    case MenuItemClick(i) => AfterMenuSelect(s, i)
    case PlayClick => AfterTogglePlay(s)
    case TimerTick => AfterTick(s)
    case Resize(w) => AfterResize(s, w)
    case TouchStart(x) => AfterTouchStart(s, x)
    case TouchMove(x) => AfterTouchMove(s, x)
    case TouchEnd => AfterTouchEnd(s)
  }

  /** The state after the handlers of `events` have run one after another,
      each to completion. */
  function Run(s: Snapshot, events: seq<Event>): Snapshot
    requires AllWellFormed(events)
    decreases |events|
  {
    if events == [] then s else Run(Step(s, events[0]), events[1..])
  }

  /** Running one more event after a run is the same as running the longer
      sequence: this is how successive handler calls compose into `Run`. */
  lemma {:induction false} RunSnoc(s: Snapshot, events: seq<Event>, e: Event)
    requires AllWellFormed(events) && WellFormed(e)
    ensures AllWellFormed(events + [e])
    ensures Run(s, events + [e]) == Step(Run(s, events), e)
    decreases |events|
  {
    assert forall k :: 0 <= k < |events| ==> (events + [e])[k] == events[k];
    if events != [] {
      assert (events + [e])[0] == events[0];
      assert (events + [e])[1..] == events[1..] + [e];
      RunSnoc(Step(s, events[0]), events[1..], e);
    } else {
      assert [e][1..] == [];
    }
  }

  /** One handler keeps the invariant and never brings the swipe hint back. */
  lemma StepKeepsInv(s: Snapshot, e: Event)
    requires WellFormed(e)
    ensures Inv(s) ==> Inv(Step(s, e))
    ensures Step(s, e).showSwipeHint ==> s.showSwipeHint
  {
  }

  /** Every state reachable from the first render satisfies `Inv`; in
      particular the scene index never leaves the scene list. */
  lemma {:induction false} RunKeepsInv(s: Snapshot, events: seq<Event>)
    requires AllWellFormed(events) && Inv(s)
    ensures Inv(Run(s, events))
    ensures ValidScene(Run(s, events).currentScene)
    decreases |events|
  {
    if events != [] {
      StepKeepsInv(s, events[0]);
      RunKeepsInv(Step(s, events[0]), events[1..]);
    }
  }

  /** Once dismissed, the swipe hint stays hidden: no sequence of events
      shows it again. */
  lemma {:induction false} HintNeverReturns(s: Snapshot, events: seq<Event>)
    requires AllWellFormed(events) && !s.showSwipeHint
    ensures !Run(s, events).showSwipeHint
    decreases |events|
  {
    if events != [] {
      StepKeepsInv(s, events[0]);
      HintNeverReturns(Step(s, events[0]), events[1..]);
    }
  }

  /** Any run that contains a touch start ends with the hint hidden. */
  lemma {:induction false} TouchHidesHint(s: Snapshot, events: seq<Event>, k: int)
    requires AllWellFormed(events) && 0 <= k < |events| && events[k].TouchStart?
    ensures !Run(s, events).showSwipeHint
    decreases |events|
  {
    if k == 0 {
      HintNeverReturns(Step(s, events[0]), events[1..]);
    } else {
      TouchHidesHint(Step(s, events[0]), events[1..], k - 1);
    }
  }

  /** `k` ticks of the autoplay timer. */
  function Ticks(k: nat): (ticks: seq<Event>)
    ensures |ticks| == k && AllWellFormed(ticks)
  {
    seq(k, _ => TimerTick)
  }

  /** While playing, `k` ticks advance the scene `k` times and change nothing
      else; while paused, ticks change nothing at all. */
  lemma {:induction false} TicksAdvance(s: Snapshot, k: nat)
    ensures s.isPlaying ==> Run(s, Ticks(k)) == s.(currentScene := NextTimes(s.currentScene, k, SceneCount))
    ensures !s.isPlaying ==> Run(s, Ticks(k)) == s
    decreases k
  {
    if k > 0 {
      assert Ticks(k)[0] == TimerTick;
      assert Ticks(k)[1..] == Ticks(k - 1);
      TicksAdvance(AfterTick(s), k - 1);
    }
  }

  /** While playing, one tick per scene brings the presentation back to the
      scene it started from. */
  lemma AutoplayCycle(s: Snapshot)
    requires ValidScene(s.currentScene)
    ensures Run(s, Ticks(SceneCount)) == s
  {
    TicksAdvance(s, SceneCount);
    NextCycle(s.currentScene, SceneCount);
  }

  /** Pressing play twice restores autoplay, and the arrow buttons undo each
      other in either order. */
  lemma ButtonsUndo(s: Snapshot)
    requires ValidScene(s.currentScene)
    ensures Run(s, [PlayClick, PlayClick]) == s
    ensures Run(s, [NextClick, PrevClick]) == s
    ensures Run(s, [PrevClick, NextClick]) == s
  {
  }

  /** A whole gesture, touch start at `x`, one move to `y`, release, from any
      state (also one left by an earlier ignored release, since the start and
      the move overwrite every gesture field): when neither position is 0 it
      navigates as `Classify(x - y)` says, hides the hint and leaves every
      gesture field reset. */
  lemma CompletedSwipe(s: Snapshot, x: int, y: int)
    requires x != 0 && y != 0
    ensures Run(s, [TouchStart(x), TouchMove(y), TouchEnd]) ==
            s.(currentScene := SwipeTarget(s.currentScene, Classify(x - y)), showSwipeHint := false,
               touchStart := 0, touchEnd := 0, swipeOffset := 0, isSwiping := false)
  {
    var events := [TouchStart(x), TouchMove(y), TouchEnd];
    var a := AfterTouchStart(s, x);
    var b := AfterTouchMove(a, y);
    assert events[1..] == [TouchMove(y), TouchEnd] && events[2..] == [TouchEnd];
    assert Run(s, events) == Run(a, events[1..]);
    assert Run(a, events[1..]) == Run(b, events[2..]);
    assert Run(b, events[2..]) == Run(AfterTouchEnd(b), []);
  }

  /** The release of a gesture that recorded 0 as its start or its end is
      ignored, however far the finger travelled and whatever state the page
      was in: the scene stays and the gesture stays marked in progress with
      its offset. This covers a touch
      that starts at the left edge (`x == 0`) and a leftward swipe that ends
      there (`y == 0`). */
  lemma EdgeSwipeIgnored(s: Snapshot, x: int, y: int)
    requires x == 0 || y == 0
    ensures var r := Run(s, [TouchStart(x), TouchMove(y), TouchEnd]);
            r.currentScene == s.currentScene && r.isSwiping && r.swipeOffset == y - x
  {
    var events := [TouchStart(x), TouchMove(y), TouchEnd];
    var a := AfterTouchStart(s, x);
    var b := AfterTouchMove(a, y);
    assert events[1..] == [TouchMove(y), TouchEnd] && events[2..] == [TouchEnd];
    assert Run(s, events) == Run(a, events[1..]);
    assert Run(a, events[1..]) == Run(b, events[2..]);
    assert Run(b, events[2..]) == Run(AfterTouchEnd(b), []);
  }

  /** When no end position is recorded (`touchEnd == 0`), a tap (start and
      release with no move) does not navigate: the release sees no recorded
      end and is ignored, so the gesture stays marked in progress. This
      covers a first tap and also a tap after an ignored tap. */
  lemma TapIgnored(s: Snapshot, x: int)
    requires s.touchEnd == 0
    ensures Run(s, [TouchStart(x), TouchEnd]) == AfterTouchStart(s, x)
  {
    var events := [TouchStart(x), TouchEnd];
    var a := AfterTouchStart(s, x);
    assert events[1..] == [TouchEnd];
    assert Run(s, events) == Run(a, events[1..]);
    assert Run(a, events[1..]) == Run(AfterTouchEnd(a), []);
  }

  /** After an ignored gesture the stale end position survives into the next
      one: a tap at 450 following a gesture from 0 to 300 is classified
      against 300 and advances the scene. */
  lemma StaleEndNavigatesTap(s: Snapshot)
    requires GestureIdle(s)
    ensures Run(s, [TouchStart(0), TouchMove(300), TouchEnd, TouchStart(450), TouchEnd]).currentScene
            == Next(s.currentScene, SceneCount)
  {
  }
}
