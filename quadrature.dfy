/** The two-bit phase code of the rotary encoder and what a change of phase means.

    The input port byte carries the encoder's A and B signals and the push button C.
    Turning the knob one detent forward walks the A/B code through the Gray cycle
    encrot0 -> encrot1 -> encrot2 -> encrot3 -> encrot0. */
module Quadrature {

  const EN_A: bv8 := 1
  const EN_B: bv8 := 2
  const EN_C: bv8 := 4

  const ENCROT0: bv8 := 0
  const ENCROT1: bv8 := 2
  const ENCROT2: bv8 := 3
  const ENCROT3: bv8 := 1

  /** The A/B part of a port sample. */
  function Phase(b: bv8): (p: bv8)
    ensures p == ENCROT0 || p == ENCROT1 || p == ENCROT2 || p == ENCROT3
  {
    b & (EN_A | EN_B)
  }

  /** Where a sample stands in the forward cycle. */
  function CyclePos(b: bv8): (k: int)
    ensures 0 <= k < 4
    ensures [ENCROT0, ENCROT1, ENCROT2, ENCROT3][k] == Phase(b)
  {
    var p := Phase(b);
    if p == ENCROT0 then 0
    else if p == ENCROT1 then 1
    else if p == ENCROT2 then 2
    else 3
  }

  /** The reference meaning of a phase change: +1 for one step forward in the cycle,
      -1 for one step backward, 0 for anything else (no change, or a skipped state). */
  function Direction(last: bv8, now: bv8): int
  {
    if CyclePos(now) == (CyclePos(last) + 1) % 4 then 1
    else if CyclePos(last) == (CyclePos(now) + 1) % 4 then -1
    else 0
  }

  /** The decoder's table, case by case: for each new phase, the previous phase that makes a
      step forward and the one that makes a step backward. */
  lemma DirectionTable(last: bv8, now: bv8)
    ensures Phase(now) == ENCROT0 ==>
              Direction(last, now) == (if Phase(last) == ENCROT3 then 1 else if Phase(last) == ENCROT1 then -1 else 0)
    ensures Phase(now) == ENCROT1 ==>
              Direction(last, now) == (if Phase(last) == ENCROT0 then 1 else if Phase(last) == ENCROT2 then -1 else 0)
    ensures Phase(now) == ENCROT2 ==>
              Direction(last, now) == (if Phase(last) == ENCROT1 then 1 else if Phase(last) == ENCROT3 then -1 else 0)
    ensures Phase(now) == ENCROT3 ==>
              Direction(last, now) == (if Phase(last) == ENCROT2 then 1 else if Phase(last) == ENCROT0 then -1 else 0)
  {
  }

  /** Number of phase bits in which two samples differ. */
  function PhaseDistance(a: bv8, b: bv8): (d: int)
    ensures 0 <= d <= 2
  {
    var x := Phase(a) ^ Phase(b);
    (if x & EN_A != 0 then 1 else 0) + (if x & EN_B != 0 then 1 else 0)
  }

  /** The cycle is a Gray code: a single step forward or backward is exactly a change of
      one phase bit, a change of both bits is never counted, and equal phases
      (only the button bit changed) are never counted. */
  lemma DirectionByDistance(a: bv8, b: bv8)
    ensures PhaseDistance(a, b) == 1 <==> Direction(a, b) != 0
    ensures PhaseDistance(a, b) != 1 ==> Direction(a, b) == 0
    ensures -1 <= Direction(a, b) <= 1
  {
  }

  /** One counted or ignored transition keeps the count in step with the cycle position,
      provided no state was skipped. */
  lemma StepTracksCycle(a: bv8, b: bv8)
    requires PhaseDistance(a, b) <= 1
    ensures (Direction(a, b) - (CyclePos(b) - CyclePos(a))) % 4 == 0
  {
  }

  /** Reversing a transition reverses its direction. */
  lemma DirectionReversed(a: bv8, b: bv8)
    ensures Direction(b, a) == -Direction(a, b)
  {
  }

  /** Net movement over a run of samples, as the decoder adds it up. */
  function Travel(samples: seq<bv8>): int
    decreases |samples|
  {
    if |samples| < 2 then 0
    else Travel(samples[..|samples| - 1]) + Direction(samples[|samples| - 2], samples[|samples| - 1])
  }

  /** Every pair of consecutive samples differs in at most one phase bit. */
  ghost predicate NoSkippedState(samples: seq<bv8>)
  {
    forall i :: 0 < i < |samples| ==> PhaseDistance(samples[i - 1], samples[i]) <= 1
  }

  /** As long as no state is skipped, the accumulated travel always agrees with the
      knob's position in the cycle: the decoder never loses a step. */
  lemma {:induction false} TravelTracksCycle(samples: seq<bv8>)
    requires |samples| >= 1 && NoSkippedState(samples)
    ensures (Travel(samples) - (CyclePos(samples[|samples| - 1]) - CyclePos(samples[0]))) % 4 == 0
  {
    if |samples| >= 2 {
      var init := samples[..|samples| - 1];
      LastStep(samples);
      TravelTracksCycle(init);
      var a, b := samples[|samples| - 2], samples[|samples| - 1];
      CongruentSum(Travel(samples), Travel(init), Direction(a, b), CyclePos(samples[0]), CyclePos(a), CyclePos(b));
    }
  }

  /** The last transition of a run without skipped states: the prefix has none either, its
      end is the transition's start, and the transition keeps the count in step. */
  lemma LastStep(samples: seq<bv8>)
    requires |samples| >= 2 && NoSkippedState(samples)
    ensures var init, a, b := samples[..|samples| - 1], samples[|samples| - 2], samples[|samples| - 1];
            && NoSkippedState(init)
            && init[0] == samples[0] && init[|init| - 1] == a
            && Travel(samples) == Travel(init) + Direction(a, b)
            && (Direction(a, b) - (CyclePos(b) - CyclePos(a))) % 4 == 0
  {
    var init := samples[..|samples| - 1];
    forall i | 0 < i < |init| ensures PhaseDistance(init[i - 1], init[i]) <= 1 {
      assert init[i - 1] == samples[i - 1] && init[i] == samples[i];
    }
    StepTracksCycle(samples[|samples| - 2], samples[|samples| - 1]);
  }

  lemma CongruentSum(sum: int, t: int, d: int, k0: int, ka: int, kb: int)
    requires sum == t + d
    requires (t - (ka - k0)) % 4 == 0 && (d - (kb - ka)) % 4 == 0
    ensures (sum - (kb - k0)) % 4 == 0
  {
    assert sum - (kb - k0) == (t - (ka - k0)) + (d - (kb - ka));
  }

  /** Turning one full detent cycle forward adds exactly four steps. */
  lemma FullCycleForward(start: bv8)
    requires Phase(start) == ENCROT0
    ensures Travel([start, ENCROT1, ENCROT2, ENCROT3, ENCROT0]) == 4
  {
    var s := [start, ENCROT1, ENCROT2, ENCROT3, ENCROT0];
    assert s[..4] == [start, ENCROT1, ENCROT2, ENCROT3];
    assert s[..4][..3] == [start, ENCROT1, ENCROT2];
    assert s[..4][..3][..2] == [start, ENCROT1];
    assert s[..4][..3][..2][..1] == [start];
    assert Travel([start, ENCROT1]) == 1;
    assert Travel([start, ENCROT1, ENCROT2]) == 2;
    assert Travel([start, ENCROT1, ENCROT2, ENCROT3]) == 3;
  }
}
