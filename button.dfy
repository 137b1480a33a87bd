/** The push button as the timer interrupt sees it, sampled every 10 ms: click edge,
    held-duration counter, audible feedback, emergency stop after a long hold, and the
    sticky flags the polling loop reads and clears. */
module ButtonInput {
  import opened Ints
  import opened Quadrature

  /** Hold count at which the feedback pulse repeats on every sample. */
  const REPEAT_THRESHOLD := 50
  /** Hold count at which the emergency stop fires. */
  const EMERGENCY_COUNT := 200

  predicate Pressed(b: bv8)
  {
    b & EN_C != 0
  }

  /** A click is the press edge: pressed now, released at the last sample. */
  predicate IsClick(last: bv8, port: bv8)
  {
    Pressed(port) && !Pressed(last)
  }

  /** Held: pressed now and at the last sample. */
  predicate IsHeld(last: bv8, port: bv8)
  {
    Pressed(port) && Pressed(last)
  }

  /** The held-duration counter after one sample (a `uint16_t`, so it wraps). */
  function NextCount(count: uint16, last: bv8, port: bv8): uint16
  {
    if IsHeld(last, port) then (count + 1) % 0x1_0000 else 0
  }

  /** The button variables together. */
  datatype ButtonState = ButtonState(
    input: bv8,              // button_input
    inputLast: bv8,          // button_input_last
    blocked: bool,           // button_input_blocked
    updated: bool,           // button_input_updated
    clickedTriggered: bool,  // button_clicked_triggered
    pressedCount: uint16)    // the static button_pressed_count

  /** Reference: what one sample does. The held counter advances while the button stays
      pressed and restarts otherwise; an unblocked click edge latches the click flag and any
      unblocked change raises the update flag. */
  function NextButton(s: ButtonState, port: bv8): ButtonState
  {
    ButtonState(
      port, port, s.blocked,
      s.updated || (port != s.inputLast && !s.blocked),
      s.clickedTriggered || (IsClick(s.inputLast, port) && !s.blocked),
      NextCount(s.pressedCount, s.inputLast, port))
  }

  /** Whether a sample emits the feedback pulse: on the click, and on every sample once the
      hold count has passed the repeat threshold. */
  predicate Feedback(s: ButtonState, port: bv8)
  {
    IsClick(s.inputLast, port) || NextCount(s.pressedCount, s.inputLast, port) > REPEAT_THRESHOLD
  }

  /** Whether a sample calls the emergency stop: when the hold count reaches 200. */
  predicate Emergency(s: ButtonState, port: bv8)
  {
    NextCount(s.pressedCount, s.inputLast, port) == EMERGENCY_COUNT
  }

  class Button {
    var input: bv8
    var inputLast: bv8
    var blocked: bool
    var updated: bool
    var clickedTriggered: bool
    var pressedCount: uint16

    function State(): ButtonState
      reads this
    {
      ButtonState(input, inputLast, blocked, updated, clickedTriggered, pressedCount)
    }

    /** The button as `lcd_init` leaves it: enabled on the current port level, flags clear. */
    constructor (port: bv8)
      ensures State() == ButtonState(port, port, false, false, false, 0)
    {
      input, inputLast := port, port;
      blocked, updated, clickedTriggered := false, false, false;
      pressedCount := 0;
    }

    /** lcd_update_button: one debounce sample. Returns whether the feedback pulse is emitted
        and whether the emergency stop is called. */
    method Sample(port: bv8) returns (feedback: bool, emergencyStop: bool)
      modifies this
      ensures State() == NextButton(old(State()), port)
      ensures feedback == Feedback(old(State()), port)
      ensures emergencyStop == Emergency(old(State()), port)
    {
      ghost var s0 := State();
      input := port;
      var clicked := input & EN_C != 0 && !inputLast & EN_C != 0;
      var held := input & EN_C != 0 && inputLast & EN_C != 0;
      ComplementMask(inputLast);
      assert clicked == IsClick(s0.inputLast, port) && held == IsHeld(s0.inputLast, port);
      if held {
        pressedCount := (pressedCount + 1) % 0x1_0000;
      } else {
        pressedCount := 0;
      }
      assert pressedCount == NextCount(s0.pressedCount, s0.inputLast, port);
      feedback, emergencyStop := false, false;
      if clicked || pressedCount > REPEAT_THRESHOLD {
        feedback := true;
        if pressedCount == EMERGENCY_COUNT {
          emergencyStop := true;
        }
      }
      assert feedback == Feedback(s0, port) && emergencyStop == Emergency(s0, port);
      if clicked && !blocked {
        clickedTriggered := true;
      }
      assert clickedTriggered == (s0.clickedTriggered || (IsClick(s0.inputLast, port) && !s0.blocked));
      if input != inputLast && !blocked {
        updated := true;
      }
      assert updated == (s0.updated || (port != s0.inputLast && !s0.blocked));
      inputLast := input;
    }

    /** lcd_get_button_updated: read and clear. */
    method GetUpdated() returns (status: bool)
      modifies this`updated
      ensures status == old(updated) && !updated
    {
      status := updated;
      updated := false;
    }

    /** lcd_get_button_clicked: read and clear. */
    method GetClicked() returns (status: bool)
      modifies this`clickedTriggered
      ensures status == old(clickedTriggered) && !clickedTriggered
    {
      status := clickedTriggered;
      clickedTriggered := false;
    }

    /** lcd_enable_button: resynchronise with the current port level and unblock. */
    method Enable(port: bv8)
      modifies this`input, this`inputLast, this`blocked
      ensures input == port && inputLast == port && !blocked
    {
      input := port;
      inputLast := input;
      blocked := false;
    }

    /** lcd_disable_button */
    method Disable()
      modifies this`blocked
      ensures blocked
    {
      blocked := true;
    }
  }

  /** `~last & EN_C` tests that the button bit of `last` is clear. */
  lemma ComplementMask(last: bv8)
    ensures (!last & EN_C != 0) == !Pressed(last)
  {
  }

  // ---------------------------------------------------------------------------
  // Runs of samples

  /** The counter after a run of samples. */
  function CountAfter(count: uint16, last: bv8, samples: seq<bv8>): uint16
    decreases |samples|
  {
    if samples == [] then count
    else CountAfter(NextCount(count, last, samples[0]), samples[0], samples[1..])
  }

  /** How many samples of a run call the emergency stop. */
  function Emergencies(count: uint16, last: bv8, samples: seq<bv8>): nat
    decreases |samples|
  {
    if samples == [] then 0
    else
      var c := NextCount(count, last, samples[0]);
      (if c == EMERGENCY_COUNT then 1 else 0) + Emergencies(c, samples[0], samples[1..])
  }

  /** How many click edges a run of samples contains. */
  function Clicks(last: bv8, samples: seq<bv8>): nat
    decreases |samples|
  {
    if samples == [] then 0
    else (if IsClick(last, samples[0]) then 1 else 0) + Clicks(samples[0], samples[1..])
  }

  ghost predicate AllPressed(samples: seq<bv8>)
  {
    forall i :: 0 <= i < |samples| ==> Pressed(samples[i])
  }

  ghost predicate AllReleased(samples: seq<bv8>)
  {
    forall i :: 0 <= i < |samples| ==> !Pressed(samples[i])
  }

  /** While the button stays held, the counter counts the samples. */
  lemma {:induction false} HeldCounts(count: uint16, last: bv8, samples: seq<bv8>)
    requires Pressed(last) && AllPressed(samples)
    requires count + |samples| < 0x1_0000
    ensures CountAfter(count, last, samples) == count + |samples|
    decreases |samples|
  {
    if samples != [] {
      assert Pressed(samples[0]);
      HeldCounts(count + 1, samples[0], samples[1..]);
    }
  }

  /** While the button stays held from a count c, the emergency stop fires once iff the run
      reaches count 200, and never more than once before the counter wraps. */
  lemma {:induction false} HeldEmergencies(count: uint16, last: bv8, samples: seq<bv8>)
    requires Pressed(last) && AllPressed(samples)
    requires count + |samples| < 0x1_0000
    ensures Emergencies(count, last, samples)
            == (if count < EMERGENCY_COUNT <= count + |samples| then 1 else 0)
    decreases |samples|
  {
    if samples != [] {
      assert Pressed(samples[0]);
      HeldEmergencies(count + 1, samples[0], samples[1..]);
    }
  }

  /** A press that starts from a release and is held for n samples in all: the first sample
      is the click (count 0), and the emergency stop fires exactly once iff n > 200
      (the 201st sample, 2 s after the click at the 10 ms rate). */
  lemma PressAndHold(count: uint16, last: bv8, samples: seq<bv8>)
    requires !Pressed(last) && |samples| >= 1 && AllPressed(samples)
    requires |samples| < 0x1_0000
    ensures Clicks(last, samples) == 1
    ensures Emergencies(count, last, samples) == (if |samples| > EMERGENCY_COUNT then 1 else 0)
  {
    assert IsClick(last, samples[0]);
    assert NextCount(count, last, samples[0]) == 0;
    HeldEmergencies(0, samples[0], samples[1..]);
    HeldHasNoClicks(samples[0], samples[1..]);
  }

  lemma {:induction false} HeldHasNoClicks(last: bv8, samples: seq<bv8>)
    requires Pressed(last) && AllPressed(samples)
    ensures Clicks(last, samples) == 0
    decreases |samples|
  {
    if samples != [] {
      assert Pressed(samples[0]);
      HeldHasNoClicks(samples[0], samples[1..]);
    }
  }

  /** A release followed by a press of any length and a release of any length is exactly
      one click, however many samples the press lasts. */
  lemma {:induction false} OnePressOneClick(last: bv8, press: seq<bv8>, release: seq<bv8>)
    requires !Pressed(last) && |press| >= 1 && AllPressed(press) && AllReleased(release)
    ensures Clicks(last, press + release) == 1
  {
    ClicksAppend(last, press, release);
    assert IsClick(last, press[0]);
    HeldHasNoClicks(press[0], press[1..]);
    assert Clicks(last, press) == 1;
    ReleasedHasNoClicks(press[|press| - 1], release);
  }

  lemma {:induction false} ReleasedHasNoClicks(last: bv8, samples: seq<bv8>)
    requires AllReleased(samples)
    ensures Clicks(last, samples) == 0
    decreases |samples|
  {
    if samples != [] {
      assert !Pressed(samples[0]);
      ReleasedHasNoClicks(samples[0], samples[1..]);
    }
  }

  lemma {:induction false} ClicksAppend(last: bv8, a: seq<bv8>, b: seq<bv8>)
    requires |a| >= 1
    ensures Clicks(last, a + b) == Clicks(last, a) + Clicks(a[|a| - 1], b)
    decreases |a|
  {
    assert (a + b)[0] == a[0];
    if |a| == 1 {
      assert (a + b)[1..] == b;
    } else {
      assert (a + b)[1..] == a[1..] + b;
      ClicksAppend(a[0], a[1..], b);
    }
  }
}
