/** The progress/blink state machine of the app's `main`, as values: one
    loop iteration is `Step`, the loop is `Iterate`, the code after the loop
    is `Complete`, and a whole run from start to finish is `Session`. */
module Animator {
  import opened Clock
  import opened Signals

  /** Milliseconds for the bar to fill (`PROGRESS_DURATION`). */
  const PROGRESS_DURATION: nat := 4000
  /** Sleep at the end of each loop iteration (`TICK_INTERVAL`). */
  const TICK_INTERVAL: nat := 100
  /** Minimum time between two blink toggles (`BLINK_INTERVAL`). */
  const BLINK_INTERVAL: nat := 500

  /** Progress after `elapsed` milliseconds, as the numerator `p` of the
      fraction p / PROGRESS_DURATION: elapsed / PROGRESS_DURATION clamped to 1.
      For a `uint32_t` elapsed time, `(float)elapsed / 4000 < 1.0f` holds
      exactly when `elapsed < 4000`, so comparing `p` with PROGRESS_DURATION
      is the loop guard `progress < 1.0f`. */
  function Progress(elapsed: u32): (p: nat)
    ensures p <= PROGRESS_DURATION
    ensures p < PROGRESS_DURATION <==> elapsed < PROGRESS_DURATION
    ensures elapsed <= PROGRESS_DURATION ==> p == elapsed
  {
    if elapsed > PROGRESS_DURATION then PROGRESS_DURATION else elapsed
  }

  /** The three readings of the tick counter taken by one loop iteration: for
      the progress, for the blink test, and (only when the blink toggles) for
      the new `last_blink_time`. */
  datatype Readings = Readings(atProgress: u32, atBlink: u32, atToggle: u32)

  /** `AppState` together with the local `led_on` of `main` and the log of
      everything the app has done so far. */
  datatype Machine = Machine(
    progress: nat,
    startTime: u32,
    lastBlinkTime: u32,
    ledOn: bool,
    finished: bool,
    log: seq<Event>)

  /** The state on entry to the loop; `t0` and `t1` are the two readings that
      initialise `start_time` and `last_blink_time`. */
  function Start(t0: u32, t1: u32): Machine {
    Machine(0, t0, t1, true, false, [])
  }

  /** The loop guard `state.progress < 1.0f`. */
  predicate InLoop(m: Machine) {
    m.progress < PROGRESS_DURATION
  }

  /** The blink test of one iteration. */
  predicate BlinkDue(m: Machine, r: Readings) {
    Elapsed(r.atBlink, m.lastBlinkTime) >= BLINK_INTERVAL
  }

  /** The notification a blink toggle sends, given `led_on` before it. */
  function BlinkSignal(ledOn: bool): Notification {
    if ledOn then BlinkStartRed else BlinkStop
  }

  /** What one iteration appends to the log. */
  function TickEvents(m: Machine, r: Readings): seq<Event> {
    (if BlinkDue(m, r) then [Notify(BlinkSignal(m.ledOn))] else [])
    + [Redraw, Sleep(TICK_INTERVAL)]
  }

  /** One iteration of the loop body. */
  function Step(m: Machine, r: Readings): Machine {
    var due := BlinkDue(m, r);
    m.(progress := Progress(Elapsed(r.atProgress, m.startTime)),
       lastBlinkTime := if due then r.atToggle else m.lastBlinkTime,
       ledOn := if due then !m.ledOn else m.ledOn,
       log := m.log + TickEvents(m, r))
  }

  /** The code after the loop: mark finished, redraw, play the terminal sequence. */
  function Complete(m: Machine): Machine {
    m.(finished := true, log := m.log + [Redraw] + TerminalSequence())
  }

  /** The loop, run over the readings of successive iterations until its guard
      fails or the readings run out. */
  function Iterate(m: Machine, ticks: seq<Readings>): Machine
    decreases |ticks|
  {
    if !InLoop(m) || ticks == [] then m else Iterate(Step(m, ticks[0]), ticks[1..])
  }

  /** How many iterations `Iterate` runs. */
  function Iterations(m: Machine, ticks: seq<Readings>): (n: nat)
    ensures n <= |ticks|
    ensures InLoop(m) && ticks != [] ==> n >= 1
    decreases |ticks|
  {
    if !InLoop(m) || ticks == [] then 0 else 1 + Iterations(Step(m, ticks[0]), ticks[1..])
  }

  /** A run of `main` from its two initial readings: the loop, then, if the
      loop's guard failed, the terminal phase. */
  function Session(t0: u32, t1: u32, ticks: seq<Readings>): Machine {
    var m := Iterate(Start(t0, t1), ticks);
    if InLoop(m) then m else Complete(m)
  }

  /** Index of the first iteration whose elapsed time reaches the duration,
      or `|ticks|` if there is none. */
  function FirstCompletion(start: u32, ticks: seq<Readings>): (k: nat)
    ensures k <= |ticks|
    ensures forall i :: 0 <= i < k ==> Elapsed(ticks[i].atProgress, start) < PROGRESS_DURATION
    ensures k < |ticks| ==> Elapsed(ticks[k].atProgress, start) >= PROGRESS_DURATION
  {
    if ticks == [] then 0
    else if Elapsed(ticks[0].atProgress, start) >= PROGRESS_DURATION then 0
    else 1 + FirstCompletion(start, ticks[1..])
  }

  /** A blink-toggle notification: the red start or the stop. */
  predicate IsToggle(e: Event) {
    e == Notify(BlinkStartRed) || e == Notify(BlinkStop)
  }

  /** The blink-toggle notifications of a log, in order. */
  function Toggles(log: seq<Event>): seq<Notification> {
    if log == [] then [] else ToggleOf(log[0]) + Toggles(log[1..])
  }

  function ToggleOf(e: Event): seq<Notification> {
    if IsToggle(e) then [e.n] else []
  }

  /** Toggles start with the red start and alternate with the stop. */
  predicate Alternates(ns: seq<Notification>) {
    forall i :: 0 <= i < |ns| ==> ns[i] == BlinkSignal(i % 2 == 0)
  }

  /** What holds of the state at the top of every loop iteration. */
  predicate LoopState(m: Machine) {
    && m.progress <= PROGRESS_DURATION
    && !m.finished
    && Alternates(Toggles(m.log))
    && (m.ledOn <==> |Toggles(m.log)| % 2 == 0)
    && Notify(BlinkStartGreen) !in m.log
  }

  lemma {:induction false} TogglesAppend(a: seq<Event>, b: seq<Event>)
    ensures Toggles(a + b) == Toggles(a) + Toggles(b)
  {
    if a == [] {
      assert a + b == b;
    } else {
      calc {
        Toggles(a + b);
        ToggleOf((a + b)[0]) + Toggles((a + b)[1..]);
        { assert (a + b)[0] == a[0];
          assert (a + b)[1..] == a[1..] + b;
          TogglesAppend(a[1..], b); }
        ToggleOf(a[0]) + (Toggles(a[1..]) + Toggles(b));
      }
    }
  }

  /** The blink rule of one iteration: a toggle is sent exactly when at least
      BLINK_INTERVAL has passed since the last one; it is red when `led_on`
      was set and a stop otherwise; `led_on` flips and `last_blink_time`
      takes the iteration's third reading exactly then; and exactly one
      redraw is requested. */
  lemma StepBlink(m: Machine, r: Readings)
    ensures var m' := Step(m, r);
      && Toggles(m'.log) == Toggles(m.log) + (if BlinkDue(m, r) then [BlinkSignal(m.ledOn)] else [])
      && m'.lastBlinkTime == (if BlinkDue(m, r) then r.atToggle else m.lastBlinkTime)
      && (m'.ledOn <==> m.ledOn != BlinkDue(m, r))
      && multiset(m'.log)[Redraw] == multiset(m.log)[Redraw] + 1
      && m'.startTime == m.startTime && m'.finished == m.finished
      && m'.log[..|m.log|] == m.log
  {
    StepToggles(m, r);
    StepRedraws(m, r);
  }

  lemma StepToggles(m: Machine, r: Readings)
    ensures Toggles(Step(m, r).log) == Toggles(m.log) + (if BlinkDue(m, r) then [BlinkSignal(m.ledOn)] else [])
  {
    TickToggles(m, r);
    TogglesAppend(m.log, TickEvents(m, r));
  }

  lemma StepRedraws(m: Machine, r: Readings)
    ensures multiset(Step(m, r).log)[Redraw] == multiset(m.log)[Redraw] + 1
    ensures Step(m, r).log[..|m.log|] == m.log
  {
    var evs := TickEvents(m, r);
    assert Step(m, r).log == m.log + evs;
    assert multiset(evs)[Redraw] == 1 by {
      assert evs == (if BlinkDue(m, r) then [Notify(BlinkSignal(m.ledOn))] else []) + [Redraw] + [Sleep(TICK_INTERVAL)];
    }
  }

  lemma TickToggles(m: Machine, r: Readings)
    ensures Toggles(TickEvents(m, r)) == if BlinkDue(m, r) then [BlinkSignal(m.ledOn)] else []
  {
    var tail := [Redraw, Sleep(TICK_INTERVAL)];
    assert Toggles(tail) == [] by {
      assert tail[1..] == [Sleep(TICK_INTERVAL)];
      assert !IsToggle(Sleep(TICK_INTERVAL));
      assert Toggles([Sleep(TICK_INTERVAL)]) == [] by {
        assert [Sleep(TICK_INTERVAL)][1..] == [];
      }
    }
    if BlinkDue(m, r) {
      assert TickEvents(m, r)[1..] == tail;
    } else {
      assert TickEvents(m, r) == tail;
    }
  }

  lemma AlternatesExtend(ts: seq<Notification>, x: Notification)
    requires Alternates(ts) && x == BlinkSignal(|ts| % 2 == 0)
    ensures Alternates(ts + [x])
  {
    forall i | 0 <= i < |ts + [x]|
      ensures (ts + [x])[i] == BlinkSignal(i % 2 == 0)
    {
      if i < |ts| {
        assert (ts + [x])[i] == ts[i];
      }
    }
  }

  /** One iteration keeps the loop state. */
  lemma StepKeepsLoopState(m: Machine, r: Readings)
    requires LoopState(m)
    ensures LoopState(Step(m, r))
  {
    StepKeepsAlternation(m, r);
    StepKeepsParity(m, r);
    StepSendsNoGreen(m, r);
  }

  lemma StepKeepsAlternation(m: Machine, r: Readings)
    requires Alternates(Toggles(m.log)) && (m.ledOn <==> |Toggles(m.log)| % 2 == 0)
    ensures Alternates(Toggles(Step(m, r).log))
  {
    StepToggles(m, r);
    if BlinkDue(m, r) {
      AlternatesExtend(Toggles(m.log), BlinkSignal(m.ledOn));
    }
  }

  lemma StepKeepsParity(m: Machine, r: Readings)
    requires m.ledOn <==> |Toggles(m.log)| % 2 == 0
    ensures Step(m, r).ledOn <==> |Toggles(Step(m, r).log)| % 2 == 0
  {
    StepToggles(m, r);
    var n := |Toggles(m.log)|;
    if BlinkDue(m, r) {
      assert |Toggles(Step(m, r).log)| == n + 1;
      assert Step(m, r).ledOn == !m.ledOn;
    } else {
      assert |Toggles(Step(m, r).log)| == n;
      assert Step(m, r).ledOn == m.ledOn;
    }
  }

  lemma StepSendsNoGreen(m: Machine, r: Readings)
    requires Notify(BlinkStartGreen) !in m.log
    ensures Notify(BlinkStartGreen) !in Step(m, r).log
  {
    var evs := TickEvents(m, r);
    assert Step(m, r).log == m.log + evs;
    assert Notify(BlinkStartGreen) !in evs;
  }

  /** The loop keeps the loop state (so `finished` stays false and progress
      stays at most 1 throughout), never moves `start_time`, only appends
      to the log, and requests exactly one redraw per iteration. */
  lemma {:induction false} IterateKeepsLoopState(m: Machine, ticks: seq<Readings>)
    requires LoopState(m)
    ensures var m' := Iterate(m, ticks);
      && LoopState(m')
      && m'.startTime == m.startTime
      && |m.log| <= |m'.log| && m'.log[..|m.log|] == m.log
      && multiset(m'.log)[Redraw] == multiset(m.log)[Redraw] + Iterations(m, ticks)
    decreases |ticks|
  {
    if InLoop(m) && ticks != [] {
      var m1 := Step(m, ticks[0]);
      StepBlink(m, ticks[0]);
      StepKeepsLoopState(m, ticks[0]);
      IterateKeepsLoopState(m1, ticks[1..]);
      var m' := Iterate(m1, ticks[1..]);
      assert m'.log[..|m.log|] == m'.log[..|m1.log|][..|m.log|];
    }
  }

  /** Running the loop over two batches of readings is running it over the
      first and then, from where it stopped, over the second. */
  lemma {:induction false} IterateAppend(m: Machine, a: seq<Readings>, b: seq<Readings>)
    ensures Iterate(m, a + b) == Iterate(Iterate(m, a), b)
    ensures Iterations(m, a + b) == Iterations(m, a) + Iterations(Iterate(m, a), b)
    decreases |a|
  {
    if a == [] {
      assert a + b == b;
    } else if InLoop(m) {
      assert (a + b)[1..] == a[1..] + b;
      IterateAppend(Step(m, a[0]), a[1..], b);
    }
  }

  /** The loop exits on the first iteration whose elapsed time reaches
      PROGRESS_DURATION and not before: it runs that iteration's index plus
      one times, and its guard still holds afterwards only if no iteration
      reached the duration (the readings ran out). */
  lemma {:induction false} LoopExit(m: Machine, ticks: seq<Readings>)
    requires InLoop(m)
    ensures var k := FirstCompletion(m.startTime, ticks);
      && Iterations(m, ticks) == (if k < |ticks| then k + 1 else |ticks|)
      && (InLoop(Iterate(m, ticks)) <==> k == |ticks|)
    decreases |ticks|
  {
    if ticks != [] {
      var m1 := Step(m, ticks[0]);
      if InLoop(m1) {
        LoopExit(m1, ticks[1..]);
      }
    }
  }

  /** A whole run: the terminal phase happens exactly when some iteration's
      elapsed time reached PROGRESS_DURATION, right after that iteration. It
      sets `finished`, requests one more redraw and then plays the terminal
      sequence, once; the green light appears nowhere else. No toggle
      happens after the loop, `led_on` and `last_blink_time` stay as the
      loop left them, and progress stays at 1. During the loop the toggles
      alternate starting with the red start. */
  lemma SessionOutcome(t0: u32, t1: u32, ticks: seq<Readings>)
    ensures var loop := Iterate(Start(t0, t1), ticks);
      var s := Session(t0, t1, ticks);
      var n := Iterations(Start(t0, t1), ticks);
      var k := FirstCompletion(t0, ticks);
      && (s.finished <==> k < |ticks|)
      && n == (if k < |ticks| then k + 1 else |ticks|)
      && Alternates(Toggles(loop.log))
      && (s.finished ==>
            && s.log == loop.log + [Redraw] + TerminalSequence()
            && s.progress == PROGRESS_DURATION
            && s.ledOn == loop.ledOn
            && s.lastBlinkTime == loop.lastBlinkTime)
      && (!s.finished ==> s == loop)
      && multiset(s.log)[Redraw] == n + (if s.finished then 1 else 0)
      && multiset(s.log)[Notify(BlinkStartGreen)] == (if s.finished then 1 else 0)
  {
    var m0 := Start(t0, t1);
    IterateKeepsLoopState(m0, ticks);
    LoopExit(m0, ticks);
    var loop := Iterate(m0, ticks);
    assert multiset(loop.log)[Notify(BlinkStartGreen)] == 0;
    if !InLoop(loop) {
      CompleteSignals(loop);
    }
  }

  /** The code after the loop adds exactly one redraw and one green light. */
  lemma CompleteSignals(m: Machine)
    ensures multiset(Complete(m).log)[Redraw] == multiset(m.log)[Redraw] + 1
    ensures multiset(Complete(m).log)[Notify(BlinkStartGreen)] == multiset(m.log)[Notify(BlinkStartGreen)] + 1
  {
    var green := Notify(BlinkStartGreen);
    var rest := GenerateSounds() + [Sleep(1000), Notify(BlinkStop)];
    assert Complete(m).log == m.log + [Redraw] + [green] + rest;
    assert Redraw !in rest && green !in rest;
    assert multiset(rest)[Redraw] == 0 && multiset(rest)[green] == 0;
  }

  /** With a clock that does not go backwards and a run shorter than one
      counter period, progress is the true elapsed time clamped to the
      duration, so it never decreases from one reading to a later one. */
  lemma ProgressFollowsClock(start: nat, t: nat, t': nat)
    requires start <= t <= t' < start + TICK_MODULUS
    ensures Progress(Elapsed(Reading(t), Reading(start))) ==
      (if t - start < PROGRESS_DURATION then t - start else PROGRESS_DURATION)
    ensures Progress(Elapsed(Reading(t), Reading(start))) <=
      Progress(Elapsed(Reading(t'), Reading(start)))
  {
    ElapsedAcrossWrap(start, t);
    ElapsedAcrossWrap(start, t');
  }
}
