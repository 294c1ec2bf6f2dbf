# Greeting presentation: navigation and gesture state machine

The page `src/app/page.tsx` shows a fixed list of five scenes one at a time.
The user can move between them with arrow buttons, navigation dots, a mobile
menu, horizontal touch swipes or autoplay. This project models the state
machine behind that page and proves its properties. The state machine covers:

- the scene index and its wrap-around;
- the autoplay tick and the play/pause toggle;
- the touch-swipe classifier with its ±100 pixel threshold and its reset;
- the swipe hint, which is dismissed for good;
- the mobile-layout width threshold and the progress-bar fraction.

Modules:

- `Scenes`: index arithmetic. `Next` and `Prev` are the state updaters of
  `nextScene` and `prevScene`. JavaScript's truncating `%` is written out as
  `JsRem`. `NextTimes` and `PrevTimes` iterate the updaters. `Progress` keeps
  the progress fraction as a numerator and a denominator. The scene count is
  a parameter `n > 0`, so the cycle lemmas hold for every non-empty scene
  list. The page uses `SceneCount = 5`.
- `Layout`: the `width <= 768` mobile classification.
- `Swipe`: the classification of a finished gesture by its distance.
- `Controller`: the component state as a value (`Snapshot`) and one pure
  transition per event handler. It also defines the page's events, running
  them in sequence (`Run`), and the lemmas over whole runs: the state
  invariant, the hint never returning, the autoplay cycle, complete and
  ignored gestures.
- `Page`: the component as a class `Home`. Its fields are the state hooks.
  Each method is one handler that assigns those fields in turn, and its
  contract is the `Controller` transition it implements.

Some consequences of the code are easy to miss; the model follows the code:

- The touch-end handler does not take the release position. It classifies
  the start against the last position recorded by a move
  (`src/app/page.tsx:113-125`).
- The handler's guard tests both positions for truthiness
  (`src/app/page.tsx:123`), so a recorded position of exactly 0 makes the
  release a no-op. A touch that starts at x = 0 and moves to 150 is ignored,
  though its distance is -150. Nothing is reset either: the
  gesture stays in progress with its offset. A leftward swipe that ends at
  the screen's left edge (x = 0) is ignored in the same way
  (`Controller.EdgeSwipeIgnored`).
- A tap with no move is ignored for the same reason while no end position
  is recorded (`Controller.TapIgnored`).
- After an ignored gesture, the stale end position carries into the next
  gesture. A later tap can therefore navigate
  (`Controller.StaleEndNavigatesTap`).
- A selection has no bounds check. Every caller is a button rendered for an
  existing scene, so the model requires a valid index.

## Model

| member | source | states |
|---|---|---|
| `Scenes.JsRem` | src/app/page.tsx:81 | JavaScript `%`: result strictly between -n and n, sign of the dividend, and dividend minus result divisible by n |
| `Scenes.Next` | src/app/page.tsx:80-82 | `(prev + 1) % n` stays in `[0, n)` on a valid index, is `prev + 1` below the last scene and wraps the last scene to 0 |
| `Scenes.Prev` | src/app/page.tsx:84-86 | `(prev - 1 + n) % n` stays in `[0, n)` on a valid index, is `prev - 1` above scene 0 and wraps scene 0 to `n - 1` |
| `Scenes.NextPrevInverse` | src/app/page.tsx:80-86 | previous and next undo each other in both orders on every valid index |
| `Scenes.NextTimesShift` | src/app/page.tsx:80-82 | k successive next steps from a valid index land on `(i + k) mod n` |
| `Scenes.PrevTimesShift` | src/app/page.tsx:84-86 | k successive previous steps from a valid index land on `(i - k) mod n` |
| `Scenes.NextCycle` | src/app/page.tsx:80-86 | n next steps, or n previous steps, return to the starting scene, for every n >= 1 |
| `Scenes.Progress` | src/app/page.tsx:636 | the bar scale equals `(scene + 1) / n`, lies in `(0, 1]` on a valid scene and is full exactly on the last scene |
| `Scenes.ProgressIncreasing` | src/app/page.tsx:636 | the bar grows strictly from scene to scene, is `1/n` on scene 0 and `1` on the last |
| `Layout.MobileThreshold` | src/app/page.tsx:70-72 | width 768 is mobile and 769 is not; any width narrower than a mobile one is mobile |
| `Swipe.Classify` | src/app/page.tsx:125-127 | left swipe iff distance > 100, right swipe iff distance < -100, no swipe iff within [-100, 100]; exactly one holds |
| `Swipe.ClassifyMirror` | src/app/page.tsx:125-127 | negating the distance swaps left and right swipes and keeps no swipe |
| `Swipe.ClassifyMonotone` | src/app/page.tsx:125-127 | a longer leftward gesture stays a left swipe, a longer rightward one stays a right swipe |
| `Controller.Initial` | src/app/page.tsx:19-104 | first render (the state hooks of lines 19-23 and 100-104): scene 0, paused, not mobile, menu closed, hint shown, gesture idle, invariant holds |
| `Controller.AfterNextScene` | src/app/page.tsx:80-82 | only the scene changes, to `Next` of it; the invariant is kept |
| `Controller.AfterPrevScene` | src/app/page.tsx:84-86 | only the scene changes, to `Prev` of it; the invariant is kept |
| `Controller.AfterSelect` | src/app/page.tsx:258-261 | a navigation dot sets the scene to its index and changes nothing else |
| `Controller.AfterMenuSelect` | src/app/page.tsx:180-183 | a menu item sets the scene to its index, closes the menu and changes nothing else |
| `Controller.AfterTogglePlay` | src/app/page.tsx:209 | play/pause flips `isPlaying` and changes nothing else |
| `Controller.AfterTick` | src/app/page.tsx:90-94 | a timer tick advances the scene while playing and changes nothing while paused |
| `Controller.AfterResize` | src/app/page.tsx:70-72 | `isMobile` becomes `width <= 768` and nothing else changes |
| `Controller.AfterTouchStart` | src/app/page.tsx:106-111 | records the start, zeroes the offset, marks the gesture in progress, hides the hint; the scene and `touchEnd` are untouched |
| `Controller.AfterTouchMove` | src/app/page.tsx:113-120 | no-op unless a gesture is in progress; otherwise `touchEnd` is the position and the offset equals end minus start, nothing else changes |
| `Controller.AfterTouchEnd` | src/app/page.tsx:122-140 | with a zero start or end nothing changes; otherwise exactly one of next (distance > 100), previous (distance < -100) or stay, then all gesture fields reset |
| `Controller.RunSnoc` | src/app/page.tsx:142-148 | running one more event after a run equals running the extended sequence, so successive handler calls compose into `Run` |
| `Controller.StepKeepsInv` | src/app/page.tsx:80-140 | every handler keeps the state invariant and never turns the hint back on |
| `Controller.RunKeepsInv` | src/app/page.tsx:80-140 | after any sequence of events the scene index is in range and idle gesture fields are reset |
| `Controller.HintNeverReturns` | src/app/page.tsx:102-110 | once hidden, the swipe hint stays hidden after any sequence of events |
| `Controller.TouchHidesHint` | src/app/page.tsx:106-111 | any sequence of events containing a touch start ends with the hint hidden |
| `Controller.TicksAdvance` | src/app/page.tsx:89-97 | k ticks while playing advance the scene k times and change nothing else; ticks while paused change nothing |
| `Controller.AutoplayCycle` | src/app/page.tsx:89-97 | while playing, five ticks bring the whole state back to where it started |
| `Controller.ButtonsUndo` | src/app/page.tsx:80-86 | two play/pause clicks restore the state; next then previous, and previous then next, restore the state |
| `Controller.CompletedSwipe` | src/app/page.tsx:106-140 | from any state, start at x, move to y, release, with x and y nonzero: navigates as `Classify(x - y)` says, hides the hint, resets every gesture field |
| `Controller.EdgeSwipeIgnored` | src/app/page.tsx:123 | from any state, a gesture that starts or ends at position 0 does not navigate and stays marked in progress with its offset |
| `Controller.TapIgnored` | src/app/page.tsx:106-123 | when no end position is recorded (`touchEnd == 0`), a start followed by a release without a move is ignored by the release |
| `Controller.StaleEndNavigatesTap` | src/app/page.tsx:106-140 | after a gesture from 0 to 300 is ignored, a tap at 450 advances the scene |
| `Page.Home.constructor` | src/app/page.tsx:19-104 | the object starts, as the hooks of lines 19-23 and 100-104 do, in the first-render state and satisfies the invariant |
| `Page.Home.NextScene` | src/app/page.tsx:80-82 | the object's new state is `AfterNextScene` of its old state |
| `Page.Home.PrevScene` | src/app/page.tsx:84-86 | the object's new state is `AfterPrevScene` of its old state |
| `Page.Home.SelectScene` | src/app/page.tsx:286-289 | the object's new state is `AfterSelect` of its old state |
| `Page.Home.SelectFromMenu` | src/app/page.tsx:180-183 | the object's new state is `AfterMenuSelect` of its old state |
| `Page.Home.TogglePlay` | src/app/page.tsx:231 | the object's new state is `AfterTogglePlay` of its old state |
| `Page.Home.AutoplayTick` | src/app/page.tsx:90-94 | the object's new state is `AfterTick` of its old state |
| `Page.Home.CheckMobile` | src/app/page.tsx:70-72 | the object's new state is `AfterResize` of its old state |
| `Page.Home.HandleTouchStart` | src/app/page.tsx:106-111 | the object's new state is `AfterTouchStart` of its old state |
| `Page.Home.HandleTouchMove` | src/app/page.tsx:113-120 | the object's new state is `AfterTouchMove` of its old state |
| `Page.Home.HandleTouchEnd` | src/app/page.tsx:122-140 | the object's new state is `AfterTouchEnd` of its old state |
| `Page.Home.Dispatch` | src/app/page.tsx:74-452 | the page's event bindings (mount-time `checkMobile`, resize listener, interval body, menu items, play buttons, arrows, dots, touch handlers, and the first scene's button at line 452; `Controller.Step` is their pure form): one event runs its handler and the new state is `Step` of the old |
| `Page.Home.DispatchAll` | src/app/page.tsx:142-148 | events delivered one at a time, each handler to completion, leave the object in `Run` of its old state, so every `Run` lemma holds of the object |

## Left out

- Rendering: the JSX, framer-motion animation, `AnimatePresence` and the
  icons (`src/app/page.tsx:142-740`). They are presentation only.
- Decorative randomness and floating-point feedback. This covers the
  `Math.random()` positions and sizes, `swipeOffset * 0.3`, the swipe-bar
  width and the "Release!" label. They are nondeterministic or
  floating-point.
- The timer's lifecycle. The model leaves out `setInterval` and
  `clearInterval`, the 5000 ms period and re-arming on `isPlaying` or
  `currentScene` changes, because these depend on host timing. A tick is an
  event that runs the interval's body.
- Registering and removing the `resize` listener, which is browser I/O. The
  width is a parameter of `CheckMobile`. The mount effect also calls
  `checkMobile()` once (`src/app/page.tsx:74`), so a real session from
  `Controller.Initial()` begins with a `Resize(innerWidth)` event.
- The scene texts and background tokens. Only the count of five matters to
  the logic.
- `showControls`, which never changes.
- The mobile menu's open/close toggle (`src/app/page.tsx:154`). Only closing
  the menu on selection is modelled.
- Touch positions (`clientX`) are integers here, while browsers report
  them as floating-point numbers with fractional parts. A distance such as
  100.5 is a left swipe in the page but cannot occur in the model. The
  truthiness guard is modelled as a comparison with 0, which is exact for
  these values.
- React's render cycle. A handler reads state captured by the last render.
  The model assumes every handler sees the state the previous handler left,
  meaning a render happens between events.
