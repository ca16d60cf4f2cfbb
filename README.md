# Progress-bar joke app for the Flipper Zero: a Dafny model

The app shows "Process Hacking.." above a progress bar that fills over four
seconds while the LED blinks red. When the bar is full it shows
"Successful!", turns the LED green, plays the firmware's success and error
sequences and a four-note melody, and switches the LED off. This project
models the timed state machine in `main` (`hacks.c`), the fixed completion
sequence of `generate_sounds`, and the frame choice of `app_draw_callback`.
It proves properties of that model.

Modules:

- `Clock` (`clock.dfy`): the `uint32_t` tick counter and the wrap-around
  subtraction `now - since`. Readings are the low 32 bits of a true
  millisecond time.
- `Signals` (`signals.dfy`): the action log. It records notification
  sequences sent (`Notify`), sleeps (`Sleep`) and view-port redraw requests
  (`Redraw`). `GenerateSounds` and `TerminalSequence` are the fixed lists
  that `generate_sounds` and the end of `main` emit.
- `Animator` (`animator.dfy`): the state machine as values. `Step` is one
  loop iteration. `Iterate` is the loop. `Complete` is the code after the
  loop. `Session` is a whole run. Progress is kept as the integer numerator
  `p` of `p / 4000`, because for a `uint32_t` elapsed time `e`,
  `(float)e / 4000 < 1.0f` holds exactly when `e < 4000`.
- `App` (`app.dfy`): the imperative form. `AppState` is a class whose
  methods update its fields in place (`Tick` for the loop body, `Finish` for
  the code after it), each proved against `Step` and `Complete`. `Run` is
  `main`'s loop over a class instance, proved equal to `Session`.
- `Display` (`display.dfy`): what a frame shows for a state.
- `Scenarios` (`scenarios.dfy`): runs under an ideal clock that ticks every
  100 ms from any start time, including runs across a wrap of the counter.

The clock is an input. Each loop iteration takes the three readings the
source makes (`Readings`): one at line 80 for progress, one at line 86 for
the blink test, and one at line 94 that is used only when the blink
toggles. `main`'s two initial readings (lines 62 and 63) are parameters.

The terminal sequence, as `main` (lines 104-107) and `generate_sounds`
(lines 40-56) emit it, is: green blink start, the success sequence, 1000 ms
sleep, the error sequence, 1000 ms sleep, one custom sequence (E4, 500 ms
pause, C4, 500 ms pause, G3, 500 ms pause, A3), 1000 ms sleep, blink stop.
The melody has no pause after its last note; the 1000 ms sleep that follows
belongs to `main`.

Progress is clamped (hacks.c:82-84) before the blink test and before the
redraw request of the same iteration.

## Model

| member | source | states |
|---|---|---|
| `Clock.Elapsed` | hacks.c:80-86 | `uint32_t` subtraction: the plain difference when the counter did not wrap, the difference plus 2^32 when it did |
| `Clock.ElapsedAcrossWrap` | hacks.c:80 | the wrap-around difference equals the true elapsed time whenever less than 2^32 ms have passed, even if the counter wrapped |
| `Animator.Progress` | hacks.c:80-84 | progress is elapsed / 4000 clamped to 1: never above 1, below 1 exactly when elapsed < 4000, equal to elapsed / 4000 up to there |
| `Animator.FirstCompletion` | hacks.c:79-84 | the index of the first iteration whose elapsed time reaches 4000 ms; all earlier ones are below it |
| `Animator.StepBlink` | hacks.c:86-97 | an iteration sends a toggle exactly when at least 500 ms passed since `last_blink_time`; it is red when `led_on` was set, a stop otherwise; `led_on` flips and `last_blink_time` takes the new reading exactly then, else both are unchanged; exactly one redraw is requested; `start_time` and `finished` are unchanged |
| `Animator.StepKeepsAlternation` | hacks.c:88-93 | a toggle appended to an alternating red/stop list, with `led_on` matching the list's parity, keeps it alternating |
| `Animator.StepKeepsParity` | hacks.c:88-93 | `led_on` is set exactly when an even number of toggles has been sent, before and after each iteration |
| `Animator.StepKeepsLoopState` | hacks.c:77-99 | one iteration keeps the loop state: progress at most 1, not finished, toggles alternating red/stop starting with red, `led_on` set exactly after an even number of toggles, no green light |
| `Animator.IterateKeepsLoopState` | hacks.c:79-99 | the whole loop keeps that state, never moves `start_time`, only appends to the log, and adds exactly one redraw per iteration |
| `Animator.Iterations` | hacks.c:79-99 | the loop runs at most one iteration per set of readings, and at least one when its guard holds and readings remain |
| `Animator.LoopExit` | hacks.c:79-84 | the loop stops right after the first iteration whose elapsed time reaches 4000 ms and never before; it is still running afterwards only if no iteration reached 4000 ms |
| `Animator.SessionOutcome` | hacks.c:101-107 | a run finishes exactly when some iteration reached 4000 ms; then `finished` is set, one more redraw follows, then the terminal sequence once (the green light appears exactly once); progress stays 1 and `led_on`, `last_blink_time` stay as the loop left them; an unfinished run is the loop state itself; the loop's toggles alternate starting with red; total redraws are iterations plus one if finished |
| `Animator.CompleteSignals` | hacks.c:101-107 | the code after the loop adds exactly one redraw request and exactly one green light to the log |
| `Animator.ProgressFollowsClock` | hacks.c:80-84 | under a clock that does not go back, progress is the true elapsed time clamped to 4000 ms and never decreases from one reading to a later one |
| `App.AppState.constructor` | hacks.c:60-64 | the initial state: progress 0, both times from the first two readings, not finished, `led_on` set, empty log |
| `App.AppState.Tick` | hacks.c:79-98 | the loop body updates the record in place to exactly `Step` of the old state |
| `App.AppState.Finish` | hacks.c:101-107 | the code after the loop updates the record in place to exactly `Complete` of the old state |
| `App.Run` | hacks.c:59-107 | the loop over the mutable record, followed by the terminal phase when progress reached 1, yields exactly `Session` |
| `Display.Draw` | hacks.c:22-33 | the frame shows "Successful!" exactly when `finished`, otherwise "Process Hacking.." and a bar of width `canvas_width * progress` rounded down |
| `Display.BarGrows` | hacks.c:31 | more progress never gives a narrower bar |
| `Display.BarFits` | hacks.c:31-32 | with progress at most 1 the bar is never wider than the canvas; it is empty at progress 0 and the full width at progress 1 |
| `Display.SessionFrames` | hacks.c:17-33 | during the loop every frame shows the bar, never wider than the canvas; after a run the frame shows the success message exactly when the run finished |
| `Scenarios.IdealBlinkDue` | hacks.c:86-95 | under the ideal 100 ms clock, iteration k toggles exactly when k is a positive multiple of 5 (at 500, 1000, ... ms) |
| `Scenarios.IdealStep` | hacks.c:79-98 | under the ideal clock, each iteration up to the 41st moves the state to the next one: progress is the iteration's time, one toggle per full 500 ms |
| `Scenarios.IdealPrefix` | hacks.c:79-99 | under the ideal clock, the first k iterations (k up to 41) all run and leave progress, the toggle count and `last_blink_time` as described |
| `Scenarios.IdealLoop` | hacks.c:79-99 | under the ideal clock with at least 41 iterations' readings, the loop stops after exactly 41 |
| `Scenarios.IdealRun` | hacks.c:79-107 | under the ideal clock the loop runs exactly 41 iterations (0 to 4000 ms), stops on the one at 4000 ms, sends 8 toggles ending with the LED off, then the run finishes and plays the terminal sequence |

## Left out

- Opening and closing the GUI and notification records, allocating and freeing the view port (hacks.c:66-75, 109-112): host setup. This includes the NULL check on the notification record and the return code 255.
- Real sleeping and the notification/sound drivers: each `furi_delay_ms` is a `Sleep` entry in the log and each `notification_message` a `Notify` entry naming the sequence sent.
- The clock: its readings are parameters. A run is given a finite list of per-iteration readings. If the list runs out before progress reaches 1, `Run` and `Session` stop there, unfinished; the source would keep looping.
- Floating point: progress is the exact fraction `p / 4000`. `Display.Draw`'s bar is the exact `canvas_width * p / 4000` rounded down. The float product can differ from it only when the exact value is a whole number that the float rounds down; that cannot happen when the canvas width is a power of two, like the 128-pixel screen.
- Display.Draw: the conversion of the bar width to `uint8_t` is not modelled. It does not change the value when the canvas is at most 255 pixels wide, because the bar is never wider than the canvas (`Display.BarFits`).
- Display.SessionFrames: frames are modelled as snapshots of the state between loop iterations. The draw callback is registered with a pointer to the shared state (hacks.c:74) and runs on the GUI thread whenever it chooses; `view_port_update` (hacks.c:97, 102) only requests a frame. That concurrent read is not modelled, so a frame drawn between the store at line 81 and the clamp at line 83 could see progress above 1; the lemma's bound covers only the between-iteration snapshots.
- Text centring and positions on the canvas (hacks.c:19-20, 24-25, 28-29, 32): they depend on font metrics of the canvas.
- The unused string buffer filled by `snprintf` in `generate_sounds` (hacks.c:37-38): it has no effect.
- The contents of the firmware's predefined sequences (`sequence_success`, `sequence_error`, the blink sequences): they are named, not expanded.
