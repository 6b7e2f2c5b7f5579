# Movie and game wheel: a verified model

The wheel picks a random title from a list the user keeps. Two pages hold the
same code under different names: `script.js` is the movie wheel and `games.js`
is the game wheel. Their lines are numbered the same way. Each page keeps four
pieces of module-level state:

- the ordered list of titles (`movies` / `games`);
- the angle the wheel is drawn at (`currentRotation`);
- whether a spin is running (`isSpinning`);
- the last winner (`selectedMovie` / `selectedGame`).

Titles are added trimmed, deleted by position, and the confirmed winner is
removed. A spin picks a random target of 5 to 8 whole turns. It then animates
the wheel towards that target for 4000 ms on a cubic ease-out curve. On the
frame where the animation completes, it reads the winner off the final angle.
Each segment is drawn with its title, shortened to at most 20 characters.

The model has three modules:

- `JsBuiltins` (`js_builtins.dfy`) holds the JavaScript built-ins the wheel
  uses, as pure functions. These are `String.prototype.trim`,
  `Array.prototype.indexOf`, `splice(index, 1)`, `Math.min`,
  `Math.pow(x, 3)` and the `%` operator on numbers. Each one comes with
  the lemmas that characterise it.
- `WheelMath` (`wheel_math.dfy`) holds the pure arithmetic of a spin: the
  target angle, progress, easing, the angle of each frame, the winner index,
  and the label truncation.
- `WheelState` (`wheel_state.dfy`) holds the class `Wheel`. Its fields are
  the page's state. Its methods are `addMovie`, `deleteMovie`, `spinWheel`,
  one frame of `animate`, and `confirmChoice`. Each method states the new
  state in terms of the old one and of the `WheelMath` functions.

Inputs the page reads from its environment become parameters:

- the value of `Math.random()` becomes `Spin`'s `random` argument, in [0, 1);
- the milliseconds since the spin started (`Date.now() - startTime`) become
  `Tick`'s `elapsed` argument;
- the text of the input box becomes `Add`'s `text` argument.

Angles are exact reals, in radians. `PI` is the decimal value of `Math.PI`.

Some behaviour of the code is kept as written:

- A spin does not continue from the previous angle. Its first frame puts the
  wheel back near angle 0, and later frames ease it out to the new target
  (`script.js:238`). So the angle is rewound at the start of every spin, and
  the model does the same.
- The list is not locked during a spin. The finishing frame reads the winner
  from the list as it is at that moment. If all titles were deleted in the
  meantime, `movies[winningIndex]` is `undefined`. The model gives `None` in
  that case (`Winner`).
- The empty-list check in `spinWheel` comes before the already-spinning
  check. So a request on an empty list always reports `EmptyList`.

A spin request while a spin runs is dropped. There is no `startTime` or
target to preserve separately: a dropped `Spin` changes no field.

## Model

| member | source | states |
|---|---|---|
| `JsBuiltins.Trim` | script.js:70 | The trimmed title is a contiguous piece of the input. Only white space is removed before and after it. It neither starts nor ends with white space. It is empty exactly when the input is all white space. |
| `JsBuiltins.TrimIdempotent` | script.js:70 | Trimming an already trimmed title changes nothing. |
| `JsBuiltins.TrimExamples` | script.js:70-72 | `" A "` trims to `"A"`. A blank input trims to the empty string, which `addMovie` ignores. |
| `JsBuiltins.TrimSingleLetter` | script.js:70 | A one-character title is unchanged by trimming when its character is not white space, and trims to the empty string when it is. |
| `JsBuiltins.WhiteSpaceCharacters` | script.js:70 | The characters `trim()` removes (`IsWhiteSpace`) are ECMAScript WhiteSpace and LineTerminator. Among ASCII they are exactly TAB, LF, VT, FF, CR and SP. Beyond ASCII they include NBSP, ZWNBSP (U+FEFF), U+3000 and the line and paragraph separators. They exclude NEL (U+0085), the zero-width space (U+200B) and U+180E. |
| `JsBuiltins.IndexOf` | script.js:309 | `indexOf` gives -1 exactly when the value is absent. Otherwise it gives a position holding the value, with no earlier position holding it. |
| `JsBuiltins.RemoveAt` | script.js:117 | `splice(index, 1)` with an index in range drops the length by one, keeps the entries before the index, and moves the later ones down by one. An index past the end leaves the list unchanged. |
| `JsBuiltins.RemoveAtMultiset` | script.js:117 | A deletion removes exactly one copy of the deleted entry and keeps every other entry. |
| `JsBuiltins.RemoveFirstOccurrence` | script.js:309-311 | Removing at `indexOf(x)` drops exactly one copy of `x`. Other duplicates of `x` stay in the list. |
| `JsBuiltins.Min` | script.js:233 | `Math.min` gives one of its arguments, and it is no larger than either. |
| `JsBuiltins.Cube` | script.js:236 | `Math.pow(x, 3)` maps 0 to 0 and 1 to 1, and the result has the sign of `x`. |
| `JsBuiltins.CubeStrictlyIncreasing` | script.js:236 | `Math.pow(x, 3)` is strictly increasing for non-negative `x`. |
| `JsBuiltins.Trunc` | script.js:245 | The quotient implied by `%` rounds toward zero: it lies within one of the exact quotient, on the zero side. |
| `JsBuiltins.Rem` | script.js:245 | `a % b` with `b > 0` takes the sign of `a`, has magnitude below `b`, and differs from `a` by a whole multiple of `b`. |
| `JsBuiltins.RemShift` | script.js:248 | Shifting a non-negative dividend by whole multiples of the divisor does not change `%`. |
| `JsBuiltins.FloorDivBelow` | script.js:248 | `Math.floor(x / a)` for `x` in [0, n·a) is a position in [0, n). |
| `WheelMath.TotalRotation` | script.js:222-226 | For `Math.random()` in [0, 1), the target angle `spins · 2π` lies in [10π, 16π). |
| `WheelMath.Progress` | script.js:233 | Progress lies in [0, 1]. It is 1 exactly when at least 4000 ms have passed, and 0 at the start. |
| `WheelMath.ProgressMonotone` | script.js:233 | Progress never decreases as time passes. |
| `WheelMath.EaseOut` | script.js:236 | For progress in [0, 1] the eased value lies in [0, 1]. It is 0 at progress 0 and 1 at progress 1. |
| `WheelMath.EaseOutStrictlyIncreasing` | script.js:236 | The eased value rises strictly with progress. |
| `WheelMath.EaseOutIsOneOnlyAtEnd` | script.js:236 | On [0, 1] the eased value is 1 if and only if progress is 1. |
| `WheelMath.FrameRotation` | script.js:238 | A frame's angle lies in [0, target]. It equals the target once 4000 ms have passed. |
| `WheelMath.FrameRotationMonotone` | script.js:231-238 | A later frame never shows the wheel turned less far. |
| `WheelMath.FrameRotationBeforeEnd` | script.js:233-241 | Before 4000 ms the angle is strictly below a positive target. So the target is reached exactly when progress clamps to 1. |
| `WheelMath.NormalizedRotation` | script.js:245 | `rotation % 2π` lies in [0, 2π) for a non-negative rotation. It lies in (-2π, 2π) always, and differs from the rotation by whole turns. |
| `WheelMath.AnglePerSection` | script.js:246 | Each of `n ≥ 1` segments spans a positive angle, and `n` of them make a whole turn. |
| `WheelMath.PointerOffset` | script.js:247-248 | The pointer angle relative to segment 0, reduced by `% 2π`, lies in [0, 2π). |
| `WheelMath.PointerOffsetTurns` | script.js:245-248 | That reduced offset is `3π/2 - rotation`, up to whole turns. |
| `WheelMath.SelectedIndex` | script.js:248 | For `n ≥ 1` and any rotation, `selectedIndex` lies in [0, n). |
| `WheelMath.SelectedIndexSegment` | script.js:248 | The reduced pointer offset lies in the `selectedIndex`-th stretch of `2π/n`. |
| `WheelMath.SelectedSegmentHoldsPointer` | script.js:245-248 | Segment `i` is drawn from `i·2π/n + rotation` (`script.js:176`). Under that convention, the arc of segment `selectedIndex` contains the pointer angle 3π/2, up to whole turns. |
| `WheelMath.ReflectIndex` | script.js:249 | `(n - s - 1 + n) % n` equals `n - 1 - s` for any position `s` below `n`. |
| `WheelMath.WinningIndex` | script.js:249 | `winningIndex` lies in [0, n) and equals `n - 1 - selectedIndex`. |
| `WheelMath.WinningIndexSingle` | script.js:249 | With one entry the winning index is 0 for every rotation. |
| `WheelMath.WinningIndexFullTurns` | script.js:245-249 | Adding `k` whole turns, for any integer `k`, changes neither `selectedIndex` nor `winningIndex`. |
| `WheelMath.FourEntriesAtRest` | script.js:245-249 | With four entries and rotation 0, `selectedIndex` is 3 and `winningIndex` is 0. |
| `WheelMath.Winner` | script.js:251 | The selection is `None` exactly when the list is empty. Otherwise it is an entry of the current list. With one entry it is that entry. |
| `WheelMath.Label` | script.js:202 | A label has at most 20 characters. A title of up to 20 characters is drawn whole. A longer one is drawn as its first 17 characters followed by `"..."`. |
| `WheelMath.LabelIdempotent` | script.js:202 | Labelling a label changes nothing. |
| `WheelState.Wheel.constructor` | script.js:2-5 | A page starts with an empty list, angle 0, no spin running and nothing selected. |
| `WheelState.Wheel.Add` | script.js:68-77 | If the trimmed text is non-empty, it is appended at the end. Otherwise the list is unchanged. Only the list changes. |
| `WheelState.Wheel.Delete` | script.js:116-117 | The list becomes `RemoveAt` of the old list: entry `index` is gone, or nothing changes for an index past the end. Only the list changes. |
| `WheelState.Wheel.Spin` | script.js:209-228 | An empty list is refused first. A request during a spin is dropped next. Neither refusal changes any state. Otherwise the spin starts, aimed at `TotalRotation(random)`. Only the flag and the target change. |
| `WheelState.Wheel.Tick` | script.js:230-257 | The frame draws the wheel at `FrameRotation(target, elapsed)`, within [0, target]. Below progress 1 the spin goes on and the selection is kept. At progress 1 the wheel stands at the target. The selection becomes `Winner` of the list at that moment, and the spin ends. The list is untouched. |
| `WheelState.Wheel.ConfirmChoice` | script.js:308-311 | The first entry equal to the selection is removed. Nothing is removed when there is no such entry or nothing is selected. Only the list changes. |
| `WheelState.ExampleList` | script.js:116-117 | Typing `" A "`, `"B"`, `"C"`, a blank and `"D"`, then deleting index 2, leaves `["A", "B", "D"]`. |

`ExampleSpin` (`wheel_state.dfy`) is a client with no contract of its own. It
runs one spin on three titles to its end, with a second request dropped on
the way, and then confirms the winner. It uses only the contracts above.

## The game page

`games.js` has the same code at the same lines under other names, so each
row above holds for it at the same line numbers:

- `games`, `currentRotation`, `isSpinning`, `selectedGame` (games.js lines
  2-5): the fields of `WheelState.Wheel`.
- `addGame` (lines 68-77): `WheelState.Wheel.Add`.
- `deleteGame` (lines 116-117): `WheelState.Wheel.Delete`.
- The label truncation in `drawWheel` (line 202): `WheelMath.Label`.
- The guards and start of `spinWheel` (lines 209-228): `WheelState.Wheel.Spin`
  and `WheelMath.TotalRotation`.
- Progress, easing and angle in `animate` (lines 230-241):
  `WheelState.Wheel.Tick`, `WheelMath.Progress`, `WheelMath.EaseOut` and
  `WheelMath.FrameRotation`.
- The winner in `animate` (lines 245-254): `WheelMath.SelectedIndex`,
  `WheelMath.WinningIndex` and `WheelMath.Winner`.
- `confirmChoice` (lines 308-311): `WheelState.Wheel.ConfirmChoice`.

## Left out

- Persistence is not modelled. This covers `loadMoviesFromJSON` and
  `saveMovies` (`script.js:13-65`) and their games twins, which use `fetch`
  and a `localStorage` fallback. `server.js` is not part of this model either:
  it only reads and writes `data.json` over HTTP. The model's list is the
  in-memory sequence.
- DOM and canvas work is not modelled. This covers `updateMoviesList`,
  the segment drawing in `drawWheel` apart from the label, clearing the input
  box and its scale animation, the Enter-key handler, and disabling the spin
  button. The segment-start convention `i * anglePerSection + currentRotation`
  (`script.js:176`) appears only in `SelectedSegmentHoldsPointer`.
- The result modal is not modelled (`showResult`, `closeModal`, click outside).
  Neither is the confetti, which uses `Math.random` and timers. These are
  display only.
- `respin` is not modelled separately. It closes the modal and calls `spinWheel`
  after 300 ms; this is a `Spin` call from the caller's side.
- Timing and scheduling are not modelled. `requestAnimationFrame` and
  `Date.now` become repeated `Tick(elapsed)` calls by the caller.
  - The source draws the first frame inside `spinWheel` itself. In the model
    this is the caller's first `Tick`.
  - A frame exists only while a spin runs. So `Tick` requires `isSpinning`.
  - The elapsed time is a natural number of milliseconds. A wall clock that
    runs backwards is not modelled.
  - Successive ticks are not forced to carry growing `elapsed` values. The
    monotonicity of the angle over time is stated by `FrameRotationMonotone`.
- Numbers are exact reals, not IEEE-754 doubles. `PI` is `Math.PI`'s decimal
  value taken exactly. The rounding of `%`, `/`, `*` and `Math.floor` on
  doubles is not modelled.
- Only non-negative indices are passed to `splice`, as the delete buttons
  only pass list positions. Negative indices are not modelled.
- `Label`: lengths and `substring` count Unicode characters. JavaScript counts
  UTF-16 code units, so a title with characters outside the Basic
  Multilingual Plane is measured and cut differently.
- The claim that the winning entry is the segment under the pointer is not
  stated. Line 249 reflects `selectedIndex` to `n - 1 - selectedIndex`, and
  where the pointer sits on screen depends on page styling that is not part
  of the source. The model states line 249 as written (`WinningIndex`). It
  proves only that the arc of segment `selectedIndex` contains the
  reference angle 3π/2.
