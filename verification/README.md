# Lunch roulette: a Dafny model of the spin and list logic

The lunch roulette is a React component. It shows a wheel with one equal sector per menu
item. The user can add items, remove items by tapping their sector, and spin the wheel. A
spin turns the wheel two to five extra turns along a quintic ease-out curve. When it
settles, the item under the fixed pointer at the top is picked.

This project models that logic and proves its properties:

- `js_text.dfy` (module `JsText`): JavaScript's `String.prototype.trim`, which cleans the
  text box before an item is added.
- `menu_list.dfy` (module `MenuList`): the lists produced by `addMenu` and `removeMenu`.
  This includes JavaScript's `splice` with its index clamping.
- `wheel.dfy` (module `Wheel`): sector bounds, the SVG large-arc flag, label mid-angles and
  mobile label shortening, all as `renderWheel` computes them.
- `resolver.dfy` (module `Resolver`): JavaScript's `%` on numbers, the pointer angle, and
  the winning index.
- `spin_math.dfy` (module `SpinMath`): the random target, the clamped progress, the
  `easeOutQuint` curve and the eased interpolation.
- `roulette.dfy` (module `Roulette`): the class `LunchRoulette`. It holds the component's
  state (`menus`, `customMenu`, `rotation`, `isSpinning`, `selectedMenu`, `spinDuration`)
  and its refs (`startTime`, `endRotation`, and `pending` for the scheduled animation
  frame). Its methods are the handlers `AddMenu`, `RemoveMenu`, `ClickSector`,
  `SpinRoulette(u)` and `Tick(timestamp)`. The module `RouletteScenarios` drives whole
  spins through these handlers.

Modelling choices:

- Angles and times are exact Dafny `real`s.
- `Math.random()` is the parameter `u`, with `0 <= u < 1`.
- A `requestAnimationFrame` callback is a call to `Tick` with the frame's timestamp.
- The `animate` closure captures `rotation`, `menus` and `spinDuration` when the spin
  starts. The model keeps these in the `SpinFrame` value held by `pending`.
- As in the code, the winner is taken from the list as it was when the spin started. An
  item added while the wheel turns is not a candidate.
- `startTimeRef` is tested for truthiness. A first frame at timestamp 0 therefore does not
  fix the start time, and the next frame sets it again. `Tick` models this.
- `Valid()` is the class invariant. While a spin is in flight it says:
  - the rotation lies between the spin's start and its target;
  - the target is 720 to 1800 degrees ahead of the start;
  - the rotation is the eased rotation at the last frame's elapsed time.

## Model

| member | source | states |
|---|---|---|
| JsText.IsWhitespace | index.js:89 | The characters `trim` strips, that is, ECMAScript white space and line terminators. It has no contract of its own; `JsText.AsciiWhitespace` states it within ASCII, and `Trim`'s contract uses it |
| JsText.AsciiWhitespace | index.js:89 | Within ASCII, exactly tab, line feed, vertical tab, form feed, carriage return and space are stripped |
| JsText.TrimStart | index.js:89 | The result is the suffix of the input after a prefix made only of whitespace, and it does not start with whitespace |
| JsText.TrimEnd | index.js:89 | The result is the prefix of the input before a suffix made only of whitespace, and it does not end with whitespace |
| JsText.Trim | index.js:89 | The trimmed text has no whitespace at either end, and it is empty exactly when the input is blank |
| JsText.TrimIsPiece | index.js:89 | The trimmed text is a contiguous piece of the input, with only whitespace dropped before and after it |
| JsText.TrimOfTrimmed | index.js:89 | Text without whitespace at its ends is left unchanged by trimming |
| JsText.TrimIdempotent | index.js:89 | Trimming twice gives the same result as trimming once |
| MenuList.DefaultMenusWellFormed | index.js:4 | The default list has eight items and no duplicates |
| MenuList.AddAccepted | index.js:90 | The test `addMenu` applies: the trimmed text is non-empty and not yet listed. It has no contract of its own; `AddedAppends`, `AddedRejects` and `AddedChangesIff` state what acceptance does to the list |
| MenuList.Added | index.js:88-91 | The list after `addMenu`. It has no contract of its own; its properties are the `Added*` lemmas below, and `LunchRoulette.AddMenu` is proved against it |
| MenuList.AddedAppends | index.js:88-91 | An accepted add makes the list one longer, keeps the earlier items, and puts the trimmed text last |
| MenuList.AddedRejects | index.js:89-90 | Blank text, or text whose trim is already listed, leaves the list unchanged |
| MenuList.AddedChangesIff | index.js:90-91 | `addMenu` changes the list if and only if the trimmed text is non-empty and not yet listed |
| MenuList.AddedKeepsNoDuplicates | index.js:90-91 | A duplicate-free list stays duplicate-free after `addMenu` |
| MenuList.AddedTwice | index.js:90 | Adding the same text twice has the same effect as adding it once |
| MenuList.SpliceStart | index.js:122 | Where `splice` starts: the index itself when valid, counted back from the end when negative, 0 when it is further back than the length, and the length when it is past the end |
| MenuList.SpliceOne | index.js:121-122 | `splice(index, 1)` on a copy: one element shorter when the clamped start is inside the list, otherwise the same length; element by element, the items before the start stay in place and the items after it move down by one |
| MenuList.Removed | index.js:102-124 | The list after `removeMenu`: whatever the index, a list of two or more never drops below two items, and at most one item goes |
| MenuList.RemovedGuard | index.js:103-114 | A list of two items or fewer is left unchanged by `removeMenu` |
| MenuList.RemovedAt | index.js:121-123 | Above two items, removing a valid index drops exactly that element: the length falls by one, the others keep their order, and the multiset loses that one item |
| MenuList.RemovedSubset | index.js:121-123 | Every item left after `removeMenu` was there before, with no more copies |
| MenuList.RemovedKeepsNoDuplicates | index.js:121-123 | A duplicate-free list stays duplicate-free after `removeMenu` |
| Wheel.SectorAngle | index.js:258 | The sector angle is positive, at most 360, and `n` sectors of it make exactly 360 degrees |
| Wheel.SectorMid | index.js:282 | The label angle lies strictly inside its sector |
| Wheel.SectorStart | index.js:264 | A sector starts at a non-negative angle, below 360 for every item of the wheel |
| Wheel.SectorEnd | index.js:265 | A sector ends exactly one sector angle after it starts, at most at 360 for every item of the wheel |
| Wheel.LargeArcFlag | index.js:278 | The flag is 0 or 1, and it is 1 if and only if the wheel has one item, the only case where a sector exceeds 180 degrees |
| Wheel.SectorsTile | index.js:258-265 | Sector 0 starts at 0, each sector ends where the next starts, and the last ends at 360 |
| Wheel.SectorsDisjoint | index.js:264-265 | No angle lies in two different sectors |
| Wheel.MaxLabelLength | index.js:294 | `floor(8 - n/3)` equals the integer quotient `(24 - n) / 3` |
| Wheel.DisplayLabel | index.js:291-298 | A label is shortened exactly on mobile when it is longer than the limit. A shortened label is a prefix of the item plus "..", one character longer than the limit, or just ".." once the limit is below 1 |
| Wheel.DisplayLabelCrowded | index.js:294-297 | With 22 items or more, every non-empty mobile label is drawn as ".." |
| Resolver.JsRem360 | index.js:167 | `x % 360` keeps the sign of `x`, lies strictly within one turn of 0, and differs from `x` by whole turns |
| Resolver.Pointer | index.js:168 | The pointer angle `(360 - r % 360) % 360` lies in `[0, 360)` for every rotation, negative ones included |
| Resolver.PointerIsMinusRotation | index.js:167-168 | The pointer angle equals minus the rotation, taken modulo 360 with a Euclidean remainder |
| Resolver.SelectedIndex | index.js:166-168 | The winning index is valid (`< n`), and the pointer angle lies in that index's sector |
| Resolver.SelectedIndexUnique | index.js:168 | Any sector that contains the pointer angle is the selected one, so exactly one item wins |
| Resolver.SelectedIndexPeriodic | index.js:167-168 | Adding any whole number of turns, positive or negative, to the rotation does not change the winner |
| Resolver.FourItemsAt45 | index.js:166-169 | Four items settled at 45 degrees: the pointer is at 315 and index 3 wins |
| Resolver.TwoItemsAt0 | index.js:166-169 | Two items settled at 0 degrees: the pointer is at 0 and index 0 wins |
| Resolver.TwoItemsAt180 | index.js:166-169 | Two items settled at 180 degrees: the pointer is at 180 and index 1 wins |
| SpinMath.SpinTarget | index.js:141-142 | For `0 <= u < 1`, the target is between 720 (inclusive) and 1800 (exclusive) degrees past the current rotation |
| SpinMath.Progress | index.js:150 | Progress is at most 1, is non-negative once time has not run backwards, and is exactly 1 when the duration has passed |
| SpinMath.PowMono | index.js:153 | Raising non-negative numbers to a power keeps their order |
| SpinMath.EaseOutQuint | index.js:153 | The easing curve `1 - (1 - t)^5`. It has no contract of its own; `EaseEnds` and `EaseMonotone` state its properties |
| SpinMath.EaseEnds | index.js:153 | `easeOutQuint(0) = 0`, `easeOutQuint(1) = 1`, and the curve maps `[0, 1]` into `[0, 1]` |
| SpinMath.EaseMonotone | index.js:153 | `easeOutQuint` never decreases on `[0, 1]` |
| SpinMath.ProgressMonotone | index.js:149-150 | Progress never decreases as time passes |
| SpinMath.Interpolate | index.js:157 | The rotation at an eased fraction between the prior rotation and the target. It has no contract of its own; `InterpolateBetween` states its properties |
| SpinMath.InterpolateBetween | index.js:157 | Interpolating by a fraction in `[0, 1]` stays between the prior rotation and the target, and moves forward as the fraction grows |
| SpinMath.RotationAt | index.js:149-157 | The rotation a frame writes at a given elapsed time. It has no contract of its own; `RotationBetween`, `RotationMonotone`, `RotationAtStart` and `RotationAtEnd` state its properties, and `LunchRoulette.Tick` is proved against it |
| SpinMath.RotationBetween | index.js:149-157 | Every rotation written during a spin lies between the prior rotation and the target |
| SpinMath.RotationMonotone | index.js:149-157 | A later frame of a spin never shows a smaller rotation than an earlier one |
| SpinMath.RotationAtStart | index.js:147-157 | The first frame of a spin (elapsed time 0) shows the prior rotation |
| SpinMath.RotationAtEnd | index.js:150-162 | Once the duration has passed, the eased rotation is the target itself |
| Roulette.DurationMs | index.js:150 | The duration in milliseconds is at least 2000 for the slider's range |
| Roulette.AdvanceStep | index.js:155-159 | A frame before the duration is up keeps the invariant of a spin in flight and never turns the wheel back |
| Roulette.LunchRoulette.constructor | index.js:8-18 | Initial state: the given list, an empty text box, rotation 0, not spinning, no result, a 5-second duration and no refs set |
| Roulette.LunchRoulette.SetCustomMenu | index.js:403 | The text box holds the typed text |
| Roulette.LunchRoulette.SetSpinDuration | index.js:428-432 | The duration becomes the slider's value, from 2 to 10 seconds |
| Roulette.LunchRoulette.AddMenu | index.js:88-99 | The list becomes the `addMenu` result, and the text box is cleared exactly when the add was accepted |
| Roulette.LunchRoulette.RemoveMenu | index.js:102-124 | The warning is shown exactly when the list has two items or fewer, and the list becomes the `removeMenu` result |
| Roulette.LunchRoulette.ClickSector | index.js:306 | A tap removes the sector's item unless a spin is running, in which case nothing changes |
| Roulette.LunchRoulette.SpinRoulette | index.js:127-190 | While spinning or with fewer than two items, nothing changes. Otherwise the spin starts: the result is cleared, the target is the random target, the first frame is scheduled with the current rotation, list and duration, and the rotation itself is unchanged |
| Roulette.LunchRoulette.Tick | index.js:146-187 | With no frame scheduled, nothing changes. The start time is fixed at the first frame whose start is unset or 0. Before the duration is up, the rotation becomes the eased rotation and the spin goes on. Once it is up, the rotation snaps to the target, spinning stops, the refs are cleared, and the result is the spin-start list's item at the resolved index. The rotation never decreases and never passes the target |

## Left out

- `sw.js` (the offline asset cache worker) is not part of this model. It only forwards to
  the browser's Cache and fetch interfaces.
- Reading and writing the list in `localStorage`, and `JSON.parse`, are I/O. The constructor
  takes the initial list as a parameter, and `DefaultMenus` is the built-in list.
- Vibration, `alert`, keyboard `blur`, viewport meta tags, and resize and orientation
  listeners are browser side effects. `RemoveMenu` returns `warned` where the code raises
  its alert.
- `requestAnimationFrame`, `cancelAnimationFrame` and the 300 ms `setTimeout` before the
  result popup are scheduling. `pending` stands for the one scheduled frame, and `showPopup`
  is not modelled.
- Cancelling the frame when the component unmounts is not modelled: after unmounting, no
  state is left to observe.
- Confetti (`createConfetti`) is random, cosmetic particle motion and has no bearing on the
  selection.
- The SVG drawing math (`Math.cos`, `Math.sin`, `Math.PI`), `wheelSize`, font sizes,
  colours and all JSX markup concern drawing only. Sector angles, the large-arc flag, the
  label mid-angle and label shortening are modelled.
- IEEE floating point is not modelled: all arithmetic uses exact reals. With doubles,
  `Math.floor` at index.js:168 could round a pointer angle just below 360 up to index `n`.
  Under exact reals this cannot happen.
- DisplayLabel: lengths count Dafny characters (Unicode scalar values), whereas JavaScript's
  `length` and `substring` count UTF-16 code units. The two differ only for characters
  outside the Basic Multilingual Plane.
- Tick: assumes that frame timestamps do not go backwards within a spin, as the browser
  guarantees for animation frames. The monotonicity it states relies on this.
- SetSpinDuration: assumes the slider delivers an integer from 2 to 10.
