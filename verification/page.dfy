/** The page component `Home` as an object: its fields are the component's
    state hooks and each method is one event handler, run to completion and
    assigning the fields one by one as the handler's setters do. Every method
    is specified by the transition of `Controller` it implements, so the
    lemmas proved there (index in range, wrap-around, classification by the
    threshold, reset after a gesture, the hint never returning) hold of the
    object: `DispatchAll` shows that handlers run one after another leave it
    in the state `Run` describes. */
module Page {
  import opened Scenes
  import opened Swipe
  import opened Layout
  import opened Controller

  class Home {
    var currentScene: int
    var isPlaying: bool
    var isMobile: bool
    var showMobileMenu: bool
    var touchStart: int
    var touchEnd: int
    var showSwipeHint: bool
    var swipeOffset: int
    var isSwiping: bool

    /** The component state as a value. */
    function State(): Snapshot
      reads this
    {
      Snapshot(currentScene, isPlaying, isMobile, showMobileMenu,
               touchStart, touchEnd, showSwipeHint, swipeOffset, isSwiping)
    }

    ghost predicate Valid()
      reads this
    {
      Inv(State())
    }

    /** The first render: scene 0, paused, menu closed, hint shown, no
        gesture in progress. */
    constructor ()
      ensures Valid() && State() == Initial()
    {
      currentScene := 0;
      isPlaying := false;
      isMobile := false;
      showMobileMenu := false;
      touchStart := 0;
      touchEnd := 0;
      showSwipeHint := true;
      swipeOffset := 0;
      isSwiping := false;
    }

    /** `nextScene`, bound to the right arrow, the first scene's button,
        the timer and a left swipe. */
    method NextScene()
      requires Valid()
      modifies this`currentScene
      ensures Valid() && State() == AfterNextScene(old(State()))
    {
      currentScene := Next(currentScene, SceneCount);
    }

    /** `prevScene`, bound to the left arrow and a right swipe. */
    method PrevScene()
      requires Valid()
      modifies this`currentScene
      ensures Valid() && State() == AfterPrevScene(old(State()))
    {
      currentScene := Prev(currentScene, SceneCount);
    }

    /** A navigation dot, desktop or mobile. */
    method SelectScene(index: int)
      requires Valid() && ValidScene(index)
      modifies this`currentScene
      ensures Valid() && State() == AfterSelect(old(State()), index)
    {
      currentScene := index;
    }

    /** An item of the mobile menu. */
    method SelectFromMenu(index: int)
      requires Valid() && ValidScene(index)
      modifies this`currentScene, this`showMobileMenu
      ensures Valid() && State() == AfterMenuSelect(old(State()), index)
    {
      currentScene := index;
      showMobileMenu := false;
    }

    /** A play/pause button, in the menu or in the top bar. */
    method TogglePlay()
      requires Valid()
      modifies this`isPlaying
      ensures Valid() && State() == AfterTogglePlay(old(State()))
    {
      isPlaying := !isPlaying;
    }

    /** One tick of the autoplay interval. */
    method AutoplayTick()
      requires Valid()
      modifies this`currentScene
      ensures Valid() && State() == AfterTick(old(State()))
    {
      if isPlaying {
        NextScene();
      }
    }

    /** `checkMobile`, with the viewport width as a parameter. */
    method CheckMobile(innerWidth: int)
      requires Valid()
      modifies this`isMobile
      ensures Valid() && State() == AfterResize(old(State()), innerWidth)
    {
      isMobile := innerWidth <= MobileMaxWidth;
    }

    /** `handleTouchStart`; `clientX` is the first touch's position. */
    method HandleTouchStart(clientX: int)
      requires Valid()
      modifies this`touchStart, this`swipeOffset, this`isSwiping, this`showSwipeHint
      ensures Valid() && State() == AfterTouchStart(old(State()), clientX)
    {
      touchStart := clientX;
      swipeOffset := 0;
      isSwiping := true;
      showSwipeHint := false;
    }

    /** `handleTouchMove`; `clientX` is the first touch's position. */
    method HandleTouchMove(clientX: int)
      requires Valid()
      modifies this`swipeOffset, this`touchEnd
      ensures Valid() && State() == AfterTouchMove(old(State()), clientX)
    {
      if !isSwiping {
        return;
      }
      var currentTouch := clientX;
      var offset := currentTouch - touchStart;
      swipeOffset := offset;
      touchEnd := currentTouch;
    }

    /** `handleTouchEnd`. */
    method HandleTouchEnd()
      requires Valid()
      modifies this`currentScene, this`touchStart, this`touchEnd, this`swipeOffset, this`isSwiping
      ensures Valid() && State() == AfterTouchEnd(old(State()))
    {
      if touchStart == 0 || touchEnd == 0 {
        return;
      }
      var distance := touchStart - touchEnd;
      var isLeftSwipe := distance > SwipeThreshold;
      var isRightSwipe := distance < -SwipeThreshold;
      if isLeftSwipe {
        NextScene();
      } else if isRightSwipe {
        PrevScene();
      }
      touchStart := 0;
      touchEnd := 0;
      swipeOffset := 0;
      isSwiping := false;
    }

    /** The event bindings of the rendered page: each event runs its
        handler on this object. */
    method Dispatch(e: Event)
      requires Valid() && WellFormed(e)
      modifies this
      ensures Valid() && State() == Step(old(State()), e)
    {
      match e
      case NextClick => NextScene();
      case PrevClick => PrevScene();
      case DotClick(i) => SelectScene(i);
      case MenuItemClick(i) => SelectFromMenu(i);
      case PlayClick => TogglePlay();
      case TimerTick => AutoplayTick();
      case Resize(w) => CheckMobile(w);
      case TouchStart(x) => HandleTouchStart(x);
      case TouchMove(x) => HandleTouchMove(x);
      case TouchEnd => HandleTouchEnd();
    }

    /** The host's event delivery, not code of the page: the browser hands
        `events` over one at a time, each handler running to completion
        before the next begins. */
    method DispatchAll(events: seq<Event>)
      requires Valid() && AllWellFormed(events)
      modifies this
      ensures Valid() && State() == Run(old(State()), events)
    {
      var i := 0;
      while i < |events|
        invariant 0 <= i <= |events|
        invariant Valid()
        invariant AllWellFormed(events[..i])
        invariant State() == Run(old(State()), events[..i])
      {
        assert events[..i + 1] == events[..i] + [events[i]];
        RunSnoc(old(State()), events[..i], events[i]);
        Dispatch(events[i]);
        i := i + 1;
      }
      assert events[..i] == events;
    }
  }
}
