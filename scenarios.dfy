/** Runs under an ideal clock: the loop's iterations come exactly
    TICK_INTERVAL apart, starting at any true time (so the tick counter may
    wrap during the run), and no time passes inside an iteration. */
module Scenarios {
  import opened Clock
  import opened Signals
  import opened Animator

  /** The readings of iteration `k` under the ideal clock started at `start`. */
  function IdealTick(start: nat, k: nat): Readings {
    var t := Reading(start + TICK_INTERVAL * k);
    Readings(t, t, t)
  }

  function IdealTicks(start: nat, n: nat): seq<Readings> {
    seq(n, k requires 0 <= k => IdealTick(start, k))
  }

  /** Toggles sent during the first `k` iterations: one per full
      BLINK_INTERVAL up to the time of the last of them. */
  function IdealToggles(k: nat): nat {
    if k == 0 then 0 else (k - 1) / 5
  }

  function IdealStart(start: nat): Machine {
    Start(Reading(start), Reading(start))
  }

  /** The state after the first `k` iterations of an ideal run: progress is
      the time of the last of them, one toggle has been sent per full
      BLINK_INTERVAL, the last at the time held in `last_blink_time`. */
  predicate IdealAfter(start: nat, k: nat, m: Machine) {
    && LoopState(m)
    && m.startTime == Reading(start)
    && m.progress == (if k == 0 then 0 else TICK_INTERVAL * (k - 1))
    && |Toggles(m.log)| == IdealToggles(k)
    && m.lastBlinkTime == Reading(start + BLINK_INTERVAL * IdealToggles(k))
  }

  /** Iteration `k` of an ideal run toggles exactly when `k` is a positive
      multiple of 5, that is at 500 ms, 1000 ms, ... */
  lemma IdealBlinkDue(start: nat, k: nat, m: Machine)
    requires k <= 40 && IdealAfter(start, k, m)
    ensures BlinkDue(m, IdealTick(start, k)) <==> k > 0 && k % 5 == 0
  {
    var b := IdealToggles(k);
    ToggleArithmetic(k);
    ElapsedAcrossWrap(start + BLINK_INTERVAL * b, start + TICK_INTERVAL * k);
  }

  /** The toggle count of the ideal run, as plain arithmetic. */
  lemma ToggleArithmetic(k: nat)
    requires k <= 40
    ensures BLINK_INTERVAL * IdealToggles(k) <= TICK_INTERVAL * k
    ensures TICK_INTERVAL * k - BLINK_INTERVAL * IdealToggles(k) >= BLINK_INTERVAL <==> k > 0 && k % 5 == 0
    ensures k > 0 && k % 5 == 0 ==>
      IdealToggles(k + 1) == IdealToggles(k) + 1 && BLINK_INTERVAL * IdealToggles(k + 1) == TICK_INTERVAL * k
    ensures !(k > 0 && k % 5 == 0) ==> IdealToggles(k + 1) == IdealToggles(k)
  {
  }

  lemma IdealStep(start: nat, k: nat, m: Machine)
    requires k <= 40 && IdealAfter(start, k, m)
    ensures IdealAfter(start, k + 1, Step(m, IdealTick(start, k)))
  {
    var r := IdealTick(start, k);
    StepKeepsLoopState(m, r);
    IdealStepProgress(start, k, m);
    IdealStepToggles(start, k, m);
  }

  lemma IdealStepProgress(start: nat, k: nat, m: Machine)
    requires k <= 40 && m.startTime == Reading(start)
    ensures Step(m, IdealTick(start, k)).progress == TICK_INTERVAL * k
  {
    ElapsedAcrossWrap(start, start + TICK_INTERVAL * k);
  }

  lemma IdealStepToggles(start: nat, k: nat, m: Machine)
    requires k <= 40 && IdealAfter(start, k, m)
    ensures |Toggles(Step(m, IdealTick(start, k)).log)| == IdealToggles(k + 1)
    ensures Step(m, IdealTick(start, k)).lastBlinkTime == Reading(start + BLINK_INTERVAL * IdealToggles(k + 1))
  {
    var r := IdealTick(start, k);
    StepToggles(m, r);
    IdealBlinkDue(start, k, m);
    ToggleArithmetic(k);
    if BlinkDue(m, r) {
      assert Step(m, r).lastBlinkTime == Reading(start + TICK_INTERVAL * k);
    } else {
      assert Step(m, r).lastBlinkTime == m.lastBlinkTime;
    }
  }

  /** The first `k` ideal iterations (k at most 41) all run and leave the
      state `IdealAfter` describes. */
  lemma {:induction false} IdealPrefix(start: nat, k: nat)
    requires k <= 41
    ensures Iterations(IdealStart(start), IdealTicks(start, k)) == k
    ensures IdealAfter(start, k, Iterate(IdealStart(start), IdealTicks(start, k)))
  {
    var m0 := IdealStart(start);
    if k > 0 {
      var j := k - 1;
      IdealPrefix(start, j);
      assert IdealTicks(start, k) == IdealTicks(start, j) + [IdealTick(start, j)];
      IterateAppend(m0, IdealTicks(start, j), [IdealTick(start, j)]);
      var mj := Iterate(m0, IdealTicks(start, j));
      IdealStep(start, j, mj);
      assert [IdealTick(start, j)][1..] == [];
    }
  }

  /** With enough readings, the run makes exactly 41 iterations (at 0, 100,
      ..., 4000 ms), completes on the one at 4000 ms, sends eight toggles
      (at 500, 1000, ..., 4000 ms, ending with the light off), and then plays
      the terminal sequence once. */
  lemma IdealRun(start: nat, n: nat)
    requires n >= 41
    ensures var ticks := IdealTicks(start, n);
      var loop := Iterate(IdealStart(start), ticks);
      var s := Session(Reading(start), Reading(start), ticks);
      && Iterations(IdealStart(start), ticks) == 41
      && FirstCompletion(Reading(start), ticks) == 40
      && |Toggles(loop.log)| == 8
      && loop.ledOn
      && s.finished
      && s.log == loop.log + [Redraw] + TerminalSequence()
  {
    var ticks := IdealTicks(start, n);
    IdealLoop(start, n);
    var loop := Iterate(IdealStart(start), ticks);
    assert !InLoop(loop);
    LoopExit(IdealStart(start), ticks);
    assert Session(Reading(start), Reading(start), ticks) == Complete(loop);
  }

  /** With at least 41 readings, the loop stops after the 41st. */
  lemma IdealLoop(start: nat, n: nat)
    requires n >= 41
    ensures Iterations(IdealStart(start), IdealTicks(start, n)) == 41
    ensures IdealAfter(start, 41, Iterate(IdealStart(start), IdealTicks(start, n)))
  {
    var m0 := IdealStart(start);
    var ticks := IdealTicks(start, n);
    IdealPrefix(start, 41);
    assert ticks == IdealTicks(start, 41) + ticks[41..];
    IterateAppend(m0, IdealTicks(start, 41), ticks[41..]);
    var m41 := Iterate(m0, IdealTicks(start, 41));
    assert !InLoop(m41);
    assert Iterate(m41, ticks[41..]) == m41;
    assert Iterations(m41, ticks[41..]) == 0;
  }
}
