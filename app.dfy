/** The app's `main` as it runs: a mutable state record updated in place by
    the loop, then marked finished, with every external action appended to
    a log. Each method is proved against the matching function of `Animator`. */
module App {
  import opened Clock
  import opened Signals
  import opened Animator

  /** `AppState`, with `led_on` (a local of `main`) and the action log kept
      beside the fields it drives. `progress` is the numerator of
      progress / PROGRESS_DURATION. */
  class AppState {
    var progress: nat
    var startTime: u32
    var lastBlinkTime: u32
    var ledOn: bool
    var finished: bool
    var log: seq<Event>

    /** The state as a value. */
    function Snapshot(): Machine
      reads this
    {
      Machine(progress, startTime, lastBlinkTime, ledOn, finished, log)
    }

    /** The initialisation at the top of `main` and `led_on = true`. */
    constructor (t0: u32, t1: u32)
      ensures Snapshot() == Start(t0, t1)
    {
      progress := 0;
      startTime := t0;
      lastBlinkTime := t1;
      finished := false;
      ledOn := true;
      log := [];
    }

    /** One iteration of the loop body. */
    method Tick(r: Readings)
      modifies this
      ensures Snapshot() == Step(old(Snapshot()), r)
    {
      var elapsedTime := Elapsed(r.atProgress, startTime);
      progress := elapsedTime;
      if progress > PROGRESS_DURATION {
        progress := PROGRESS_DURATION;
      }

      var elapsedBlinkTime := Elapsed(r.atBlink, lastBlinkTime);
      if elapsedBlinkTime >= BLINK_INTERVAL {
        if ledOn {
          log := log + [Notify(BlinkStartRed)];
        } else {
          log := log + [Notify(BlinkStop)];
        }
        ledOn := !ledOn;
        lastBlinkTime := r.atToggle;
      }

      log := log + [Redraw];
      log := log + [Sleep(TICK_INTERVAL)];
    }

    /** The code after the loop: finish, redraw, and the terminal sequence. */
    method Finish()
      modifies this
      ensures Snapshot() == Complete(old(Snapshot()))
    {
      finished := true;
      log := log + [Redraw];
      log := log + [Notify(BlinkStartGreen)];
      log := log + GenerateSounds();
      log := log + [Sleep(1000)];
      log := log + [Notify(BlinkStop)];
    }
  }

  /** `main` from its first two clock readings, given the readings of the
      successive loop iterations; it stops early, unfinished, if they run out
      before the bar is full. */
  method Run(t0: u32, t1: u32, ticks: seq<Readings>) returns (s: Machine)
    ensures s == Session(t0, t1, ticks)
  {
    var state := new AppState(t0, t1);
    var i := 0;
    while state.progress < PROGRESS_DURATION && i < |ticks|
      invariant 0 <= i <= |ticks|
      invariant Iterate(state.Snapshot(), ticks[i..]) == Iterate(Start(t0, t1), ticks)
      decreases |ticks| - i
    {
      assert ticks[i..][1..] == ticks[i + 1..];
      state.Tick(ticks[i]);
      i := i + 1;
    }
    if state.progress >= PROGRESS_DURATION {
      state.Finish();
    }
    s := state.Snapshot();
  }
}
