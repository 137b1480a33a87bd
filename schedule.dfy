/** The timer interrupt's schedule. The interrupt fires every 125 us; it counts in
    `lcd_timer`, drives the beeper from `beeper_duration`, samples the encoder on every
    fourth tick (500 us) and the button on every eightieth (10 ms), where the counter
    restarts. */
module TickSchedule {
  import opened Ints

  /** Ticks in one button period; the counter is reset when it reaches this value. */
  const BUTTON_PERIOD := 80
  /** Ticks between encoder samples. */
  const ENCODER_PERIOD := 4

  /** Whether the interrupt that finds the counter at t samples the encoder. */
  predicate EncoderDue(t: int)
  {
    (t + 1) % ENCODER_PERIOD == 0
  }

  /** Whether the interrupt that finds the counter at t samples the button. */
  predicate ButtonDue(t: int)
  {
    (t + 1) % BUTTON_PERIOD == 0
  }

  /** lcd_timer after one interrupt. */
  function NextTimer(t: int): (r: int)
    requires 0 <= t < BUTTON_PERIOD
    ensures 0 <= r < BUTTON_PERIOD
    ensures r == 0 <==> ButtonDue(t)
  {
    if ButtonDue(t) then 0 else t + 1
  }

  /** beeper_duration after one interrupt: one tick less while positive, never negative. */
  function NextBeeper(d: int): (r: int)
    ensures r >= 0
    ensures d > 0 ==> r == d - 1
  {
    if d > 0 then d - 1 else 0
  }

  /** The beeper pin level the interrupt writes. */
  predicate BeeperHigh(d: int)
  {
    d > 0
  }

  /** lcd_beep_ms: `8 * ms` with a uint16_t operand is computed in 16-bit unsigned
      arithmetic on the target, so it wraps before it is stored. */
  function BeepTicks(ms: uint16): (d: int)
    ensures 0 <= d < 0x1_0000
    ensures ms < 0x2000 ==> d == 8 * ms
  {
    (8 * ms) % 0x1_0000
  }

  // ---------------------------------------------------------------------------
  // Runs of interrupts

  /** The counter after k interrupts from reset. */
  function TimerAfter(k: nat): (t: int)
    ensures 0 <= t < BUTTON_PERIOD
  {
    if k == 0 then 0 else NextTimer(TimerAfter(k - 1))
  }

  /** The counter is the number of interrupts modulo 80. */
  lemma {:induction false} TimerCountsModulo(k: nat)
    ensures TimerAfter(k) == k % BUTTON_PERIOD
  {
    if k > 0 {
      TimerCountsModulo(k - 1);
      var q, t := (k - 1) / BUTTON_PERIOD, (k - 1) % BUTTON_PERIOD;
      assert k - 1 == q * BUTTON_PERIOD + t;
      if t == BUTTON_PERIOD - 1 {
        DivUnique(k, BUTTON_PERIOD, q + 1, 0);
      } else {
        DivUnique(k, BUTTON_PERIOD, q, t + 1);
      }
    }
  }

  /** Counting interrupts from reset (the first is number 1), the button is sampled by
      exactly the multiples of 80 and the encoder by exactly the multiples of 4. */
  lemma SamplingRates(k: nat)
    ensures ButtonDue(TimerAfter(k)) <==> (k + 1) % BUTTON_PERIOD == 0
    ensures EncoderDue(TimerAfter(k)) <==> (k + 1) % ENCODER_PERIOD == 0
  {
    TimerCountsModulo(k);
    var t := k % 80;
    assert k == (k / 80) * 80 + t;
    assert (k + 1) - (t + 1) == (k / 80) * 80;
    ModMultiple(k + 1, t + 1, k / 80 * 20, 4);
    ModMultiple(k + 1, t + 1, k / 80, 80);
  }

  lemma ModMultiple(a: int, b: int, m: int, d: int)
    requires d > 0 && a - b == m * d
    ensures a % d == b % d
  {
    DivUnique(a, d, b / d + m, b % d);
  }

  /** The beeper duration after k interrupts. */
  function BeeperAfter(d: int, k: nat): (r: int)
  {
    if k == 0 then d else NextBeeper(BeeperAfter(d, k - 1))
  }

  /** From a duration d the beeper counts down by one per interrupt and stops at zero. */
  lemma {:induction false} BeeperCountsDown(d: int, k: nat)
    requires d >= 0
    ensures BeeperAfter(d, k) == if k <= d then d - k else 0
  {
    if k > 0 {
      BeeperCountsDown(d, k - 1);
    }
  }

  /** A duration of d keeps the pin high on exactly the first d interrupts. */
  lemma BeepLasts(d: int, k: nat)
    requires d >= 0
    ensures BeeperHigh(BeeperAfter(d, k)) <==> k < d
  {
    BeeperCountsDown(d, k);
  }

  /** lcd_beep_ms(ms) sounds for 8*ms interrupts of 125 us, that is ms milliseconds, only while
      8*ms fits 16 bits; from 8192 ms on the duration wraps (8192 ms is silent). */
  lemma BeepMsWraps()
    ensures BeepTicks(0x1FFF) == 0xFFF8
    ensures BeepTicks(0x2000) == 0 && BeepTicks(0x2001) == 8
  {
  }
}
