# Countdown timer controller, modelled in Dafny

The repository is a desktop countdown-timer widget. Its one piece of logic is
the `CountdownTimer` class in `script.js`: a five-state machine (`idle`,
`ready`, `running`, `paused`, `completed`) over the remaining time
`totalSeconds`, the readout `currentMinutes`/`currentSeconds`, the selected
preset, the one-second interval handle and the touch-gesture fields. The user
picks a preset, or adjusts the minutes with the mouse wheel or a vertical
swipe on the counter (clamped to 1..999 minutes), starts, pauses and resets;
the interval counts down, shows a warning in the last ten seconds and flashes
the window on completion.

The project has four modules:

- `TimerSpec` (`timer_spec.dfy`): the controller's fields as a `Session`
  value, the invariant `Inv` they keep, and one function per listener or
  method of the class (`SetPresetTime`, `Wheel`, `TouchStart`, `TouchMove`,
  `TouchRelease`, `ClickStartPause`, `StartTimer`, `Tick`, `PauseTimer`,
  `ResetTimer`, `CompleteTimer`, `ClearCompletionFlash`,
  `UpdateTimeFromTotal`). `ResetTimer` and `CompleteTimer` establish `Inv`
  from any session. The contract of `UpdateTimeFromTotal` is the
  minutes/seconds split of a non-negative total, since it runs partway through
  a tick, where `Inv` does not hold. Every other function keeps `Inv` under
  the conditions the source calls it in. `Event`, `Step` and `Run`
  describe any sequence of user input and timer callbacks.
- `Timer` (`timer.dfy`): the `CountdownTimer` class itself, with the source's
  fields updated in place, statement by statement. Every listener and timer
  callback keeps `Valid()`. `ResetTimer` and `CompleteTimer` establish it from
  any state. The helper `UpdateTimeFromTotal` only re-derives the readout.
  Each method is proved to leave `Model()` equal to the matching `TimerSpec`
  transition of the old `Model()`. `PresetButtons` reports the preset buttons
  as the page shows them.
- `TimerView` (`timer_view.dfy`): what `updateUI`, `updatePresetButtons` and
  `updateDisplay` write to the page, as functions of the state, with the
  preset-button `forEach` as a loop.
- `TimerProperties` (`timer_properties.dfy`): the behaviour the controller
  promises, proved of the transitions. Since every class method performs
  one transition, the lemmas hold of the class as well.

How the parts that are not plain fields are modelled:

- The `setInterval` handle is the boolean `ticking` (`intervalId != null`).
  The interval callback is the method `Tick`, which requires the handle to
  be live.
- The 5-second `setTimeout` scheduled on completion is the counter
  `pendingFlashClears`. Its callback is `ClearCompletionFlash`, which
  requires one to be pending.
- The CSS classes are booleans. `warning` is the counter's `warning` class.
  `flash` is the counter's `completed` class together with the body's
  `timer-completed` class; the source always adds and removes these two
  together.
- Button labels, enabled flags and the active-preset mark are functions of
  the state. Every path in the source that changes a field they depend on
  calls `updateUI` or `updatePresetButtons`, so the page always shows these
  functions of the current state.
- Event data is passed in as integers: the touch `clientY`, the wheel
  `deltaY` and a preset button's `data-minutes`. `Math.floor(deltaY / 30)` is
  Dafny's `/`, which rounds down for a positive divisor. `total % 60` is
  JavaScript's truncating remainder, written out as `JsRemainder60`.

Three behaviours of the code are easy to miss:

- Presets are not validated. A preset of 0 (or less) minutes makes the
  timer `ready` with no time left; the start button is then enabled but
  clicking it does nothing (`ZeroPresetIsReadyButInert`). So a ready timer
  can have no time left. The invariant the model proves is that idle or
  completed implies no time left, and running or paused implies time left.
- The warning class is not confined to `running`. Pausing inside the last
  ten seconds keeps it, and neither a preset nor a gesture removes it, so
  the timer can be `ready` with 25 minutes and still show the warning
  (`WarningOutlivesPause`). The model proves only that the warning is never
  shown while idle or completed.
- `activePreset` survives completion, so a preset that ran out stays
  highlighted while the timer is `completed`
  (`CompletedKeepsPresetHighlight`).

## Model

| member | source | states |
|---|---|---|
| `TimerSpec.ClampMinutes` | script.js:102-103 | the result lies in [1, 999], equals the input when it is in range, and is the nearer bound otherwise |
| `TimerSpec.SwipeMinutes` | script.js:98-99 | whole minutes of a swipe rounded down: `r*30 <= deltaY < r*30 + 30` |
| `TimerSpec.WheelDirection` | script.js:136-137 | the step is +1 exactly when `deltaY < 0`, otherwise -1 |
| `TimerSpec.JsRemainder60` | script.js:265 | the truncating remainder: differs from the dividend by a multiple of 60, lies in [0, 60) for a non-negative dividend and in (-60, 0] for a negative one |
| `TimerSpec.UpdateTimeFromTotal` | script.js:263-266 | for a non-negative total, minutes*60 + seconds == total with seconds in [0, 60); no other field changes |
| `TimerSpec.SetPresetTime` | script.js:156-169 | keeps the invariant |
| `TimerSpec.AdjustMinutes` | script.js:105-114 | keeps the invariant when not running |
| `TimerSpec.Wheel` | script.js:130-153 | keeps the invariant |
| `TimerSpec.TouchStart` | script.js:81-90 | keeps the invariant |
| `TimerSpec.TouchMove` | script.js:92-117 | keeps the invariant |
| `TimerSpec.TouchRelease` | script.js:119-127 | keeps the invariant |
| `TimerSpec.StartTimer` | script.js:171-195 | keeps the invariant |
| `TimerSpec.CompleteTimer` | script.js:236-261 | always leaves a session satisfying the invariant |
| `TimerSpec.Tick` | script.js:177-192 | keeps the invariant when the interval is live |
| `TimerSpec.PauseTimer` | script.js:197-212 | keeps the invariant when paused from running |
| `TimerSpec.ResetTimer` | script.js:214-234 | always leaves a session satisfying the invariant |
| `TimerSpec.ClearCompletionFlash` | script.js:255-258 | keeps the invariant |
| `TimerSpec.ClickStartPause` | script.js:30-37 | keeps the invariant |
| `TimerSpec.Step` | script.js:28-153 | every listener and timer callback keeps the invariant |
| `TimerSpec.Run` | script.js:28-153 | every sequence of deliverable events keeps the invariant (by induction on the sequence) |
| `Timer.CountdownTimer.constructor` | script.js:2-26 | the fresh timer is idle with every counter zero, no tick, no preset, no flags, and satisfies the invariant |
| `Timer.CountdownTimer.ClickStartPause` | script.js:30-37 | keeps `Valid()`; the fields change exactly as `TimerSpec.ClickStartPause` says |
| `Timer.CountdownTimer.TouchStart` | script.js:81-90 | keeps `Valid()`; the fields change exactly as `TimerSpec.TouchStart` says |
| `Timer.CountdownTimer.AdjustMinutes` | script.js:105-114 | keeps `Valid()`; the fields change exactly as `TimerSpec.AdjustMinutes` says |
| `Timer.CountdownTimer.TouchMove` | script.js:92-117 | keeps `Valid()`; the fields change exactly as `TimerSpec.TouchMove` says |
| `Timer.CountdownTimer.TouchRelease` | script.js:119-127 | keeps `Valid()`; only `isTouching` is cleared |
| `Timer.CountdownTimer.Wheel` | script.js:130-153 | keeps `Valid()`; the fields change exactly as `TimerSpec.Wheel` says |
| `Timer.CountdownTimer.SetPresetTime` | script.js:156-169 | keeps `Valid()`; the fields change exactly as `TimerSpec.SetPresetTime` says |
| `Timer.CountdownTimer.StartTimer` | script.js:171-195 | called only when not running, so at most one interval is ever installed; keeps `Valid()` |
| `Timer.CountdownTimer.Tick` | script.js:177-192 | callable only while the interval is live; keeps `Valid()`; fields change as `TimerSpec.Tick` says |
| `Timer.CountdownTimer.PauseTimer` | script.js:197-212 | called only while running; keeps `Valid()`; fields change as `TimerSpec.PauseTimer` says |
| `Timer.CountdownTimer.ResetTimer` | script.js:214-234 | callable in every state, even one that breaks the invariant, and establishes `Valid()` |
| `Timer.CountdownTimer.CompleteTimer` | script.js:236-261 | establishes `Valid()` from the mid-tick state; fields change as `TimerSpec.CompleteTimer` says |
| `Timer.CountdownTimer.ClearCompletionFlash` | script.js:255-258 | callable only with a timeout pending; clears the flash and nothing else |
| `Timer.CountdownTimer.UpdateTimeFromTotal` | script.js:263-266 | re-derives minutes and seconds from the total and changes nothing else |
| `Timer.CountdownTimer.PresetButtons` | script.js:305-324 | one view per preset button of this timer, disabled iff running and active iff neither running nor idle and its minutes are the active preset |
| `TimerView.StartPauseButton` | script.js:275-296 | disabled exactly in idle and completed; labelled "Pause" exactly in running, "Start" otherwise |
| `TimerView.UpdateUI` | script.js:273-303 | reset is never disabled; the start/pause button is the `StartPauseButton` table: disabled exactly in idle and completed, labelled "Pause" exactly while running |
| `TimerView.PresetButton` | script.js:306-322 | disabled exactly while running; active exactly when neither running nor idle and the active preset is its minutes |
| `TimerView.UpdatePresetButtons` | script.js:305-324 | one view per button, in order, each disabled iff running and active iff neither running nor idle and its minutes are the active preset |
| `TimerView.ActivePresetUnique` | script.js:317 | two active preset buttons carry the same minutes |
| `TimerView.DigitChar` | script.js:269-270 | the character is a decimal digit whose value is the input |
| `TimerView.NatToDecimal` | script.js:269-270 | `toString` of a natural number is a non-empty digit string, one digit exactly below 10, with no leading zero from 1 up |
| `TimerView.IntToDecimal` | script.js:269-270 | `toString` of a non-negative integer is digits denoting it, with no leading zero from 1 up; of a negative one, '-' followed by digits denoting its magnitude |
| `TimerView.DecimalRoundTrip` | script.js:269-270 | reading the digits of `toString` back gives the number |
| `TimerView.PadStart2` | script.js:269-270 | `padStart(2, '0')` keeps strings of length 2 or more and otherwise left-pads with '0' to length 2, ending with the input |
| `TimerView.Readout` | script.js:268-271 | `updateDisplay`: seconds in [0, 60) show as exactly their tens and units digit; non-negative minutes show as at least two digits denoting them; minutes 0-9 show as '0' then their digit, from 10 up exactly `toString` of the minutes with no leading zero, and negative minutes as their `toString` (`'-5'`) unpadded |
| `TimerView.TwoDigitReadout` | script.js:269-270 | a value in [0, 100) is shown as its tens digit followed by its units digit |
| `TimerView.ReadoutShowsValue` | script.js:269-270 | every non-negative readout is at least two characters and its digits denote the value |
| `TimerProperties.SetPresetTimeEffect` | script.js:156-164 | inert while running; otherwise ready with exactly `m` minutes, 0 seconds, `m*60` total and preset `m`, for any integer `m`, nothing else changed |
| `TimerProperties.ZeroPresetIsReadyButInert` | script.js:156-172 | a 0-minute preset gives ready with 0 left, start enabled, and a start click that does nothing |
| `TimerProperties.WheelEffect` | script.js:130-153 | inert while running; otherwise target `clamp(minutes ± 1)`; no change when equal, else ready with the target, 0 seconds, target*60, no preset |
| `TimerProperties.WheelFromIdle` | script.js:137-147 | from idle either wheel direction yields ready with 1 minute |
| `TimerProperties.TouchStartEffect` | script.js:81-87 | ignored while running; otherwise records the touch position and current minutes and sets `isTouching` |
| `TimerProperties.TouchMoveEffect` | script.js:92-114 | ignored unless touching and not running; target `clamp(startMinutes + floor((startY - y)/30))`, applied as the wheel does |
| `TimerProperties.TouchMoveIdempotent` | script.js:105 | a repeated move to the same position changes nothing |
| `TimerProperties.NoMoveAfterRelease` | script.js:93-127 | touchend/touchcancel only clear `isTouching`, after which moves are ignored |
| `TimerProperties.GestureChangeInRange` | script.js:102-105 | a wheel or move that changes anything leaves the minutes in [1, 999] |
| `TimerProperties.GesturesKeepMinutesInRange` | script.js:81-153 | any sequence of gestures from minutes in [1, 999] keeps them there |
| `TimerProperties.ClickStartPauseDispatch` | script.js:30-37 | starts from ready or paused, pauses from running, does nothing in idle or completed |
| `TimerProperties.StartTimerEffect` | script.js:171-174 | no change when no time is left; otherwise only the state becomes running and the tick becomes live |
| `TimerProperties.StartFromIdleIsInert` | script.js:30-37 | a start click from idle leaves everything unchanged |
| `TimerProperties.StartPauseButtonMatchesClick` | script.js:30-37 | a click changes something iff the button is enabled and time is left; the label is "Pause" iff the click pauses |
| `TimerProperties.PauseThenResume` | script.js:197-209 | pausing stops the tick and keeps the remaining time and readout; the next click resumes running from the same total |
| `TimerProperties.PauseWarning` | script.js:206-209 | after a pause the warning is on iff it was on and at most 10 seconds remain |
| `TimerProperties.TickEffect` | script.js:177-192 | takes exactly one second off; stays running with readout `total div 60`, `total mod 60` and warning iff at most 10 left, or at 0 completes with counters zeroed, tick stopped, warning off, flash on |
| `TimerProperties.TicksCountDown` | script.js:177-192 | fewer ticks than seconds left keep running and leave exactly `total - n` seconds (by induction) |
| `TimerProperties.TicksComplete` | script.js:189-191 | as many ticks as seconds left end completed with 0, no tick, flash on, warning off, preset kept |
| `TimerProperties.ThreeSecondCountdown` | script.js:171-192 | from ready with 3 seconds, start and ticks give 2, 1, then completed with 0 |
| `TimerProperties.TwentyFiveMinuteScenario` | script.js:156-209 | preset 25, start, 900 ticks leaves 600 seconds running, and pausing keeps exactly 600 |
| `TimerProperties.ClearCompletionFlashEffect` | script.js:255-258 | the completion timeout clears only the flash; the state stays completed |
| `TimerProperties.CompletedIsSticky` | script.js:30-37 | in completed, clicks on start/pause, touch start/end and timeouts leave the state completed |
| `TimerProperties.CompletedKeepsPresetHighlight` | script.js:317 | a preset that counts down to completion stays marked active |
| `TimerProperties.ResetEffect` | script.js:214-229 | from any state: idle, counters 0, no preset, no tick, no warning, no flash; every other field, including the drag origin, `isTouching` and the pending completion timeouts, is unchanged |
| `TimerProperties.ReadoutOfSession` | script.js:268-271 | in every state satisfying the invariant the seconds readout is exactly two digits, tens first, and minutes in [0, 99] show as two characters |
| `TimerProperties.RunFromInitial` | script.js:12-22 | after any event sequence from a fresh timer, minutes*60 + seconds == total with seconds in [0, 60), and the tick is live iff running |
| `TimerProperties.WarningOutlivesPause` | script.js:206-209 | pausing at 10 seconds and choosing preset 25 gives ready with 1500 seconds and the warning still shown |

## Left out

- `main.js`: Electron window creation, sizing and application lifecycle, with no timer logic.
- DOM lookups, `addEventListener` wiring and `preventDefault`: the listeners are methods that take the event's integer data.
- The reset and preset buttons' click listeners only call `resetTimer` and `setPresetTime`; they are not modelled separately.
- Touch press feedback: the `scale(0.92)` transforms, their 150 ms timeouts and the `touching` class are cosmetic.
- `parseInt(button.dataset.minutes)` and `NaN`: preset minutes are taken as integers.
- Fractional pixel coordinates: `clientY` and `deltaY` are integers.
- Real-time scheduling: `setInterval`, `clearInterval` and `setTimeout` become the `ticking` flag, the `Tick` method, the `pendingFlashClears` counter and the `ClearCompletionFlash` method. The model says which callbacks may fire, not when.
- The text `updateDisplay` writes before the first render: the constructor does not call it, and the page's initial markup is not part of this model.
- Timer.CountdownTimer.StartTimer: requires the timer not to be running. Its only caller, the start/pause listener, calls it from `ready` or `paused`; a call while running would install a second interval.
- Timer.CountdownTimer.PauseTimer: requires the timer to be running. The source has no guard, but its only caller calls it from `running`.
