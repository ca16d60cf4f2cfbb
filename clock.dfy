/** The millisecond tick counter read by `furi_get_tick()`: a 32-bit unsigned
    value that wraps around, and the elapsed-time subtraction the app does on it. */
module Clock {

  /** Number of distinct tick-counter values (the counter is a `uint32_t`). */
  const TICK_MODULUS: int := 0x1_0000_0000

  /** A value of type `uint32_t`. */
  type u32 = x: int | 0 <= x < 0x1_0000_0000

  /** The tick counter's reading at true time `t` (milliseconds since boot):
      only its low 32 bits survive. */
  function Reading(t: nat): u32 {
    t % TICK_MODULUS
  }

  /** `now - since` computed in `uint32_t`, which wraps modulo 2^32. */
  function Elapsed(now: u32, since: u32): (d: u32)
    ensures since <= now ==> d == now - since
    ensures now < since ==> d == TICK_MODULUS - since + now
  {
    (now - since) % TICK_MODULUS
  }

  /** The wrap-around subtraction yields the true elapsed time whenever less
      than one full counter period has passed, even if the counter wrapped
      in between. */
  lemma ElapsedAcrossWrap(start: nat, t: nat)
    requires start <= t < start + TICK_MODULUS
    ensures Elapsed(Reading(t), Reading(start)) == t - start
  {
    var q, r := start / TICK_MODULUS, start % TICK_MODULUS;
    var d := t - start;
    assert t == q * TICK_MODULUS + (r + d);
    if r + d < TICK_MODULUS {
      assert Reading(t) == r + d;
    } else {
      assert t == (q + 1) * TICK_MODULUS + (r + d - TICK_MODULUS);
      assert Reading(t) == r + d - TICK_MODULUS;
    }
  }
}
