/** The rotary encoder as the timer interrupt sees it: the last sampled port byte,
    the signed step counter, the "position changed" flag and the administrative block. */
module EncoderInput {
  import opened Ints
  import opened Quadrature

  /** The encoder variables together. */
  datatype EncoderState = EncoderState(
    input: bv8,          // encoder_input
    inputLast: bv8,      // encoder_input_last
    blocked: bool,       // encoder_input_blocked
    updated: bool,       // encoder_input_updated
    position: int16,     // encoder_position
    prevPosition: uint8) // prev_encoder_position, shared with the value editor

  /** Reference: what one sample does. A changed, unblocked sample is accepted: it moves the
      counter by the step it encodes (wrapping like an int16_t), saves the low byte of the
      old counter and raises the flag. Every sample becomes the new "last" phase. */
  function NextEncoder(s: EncoderState, port: bv8): (r: EncoderState)
  {
    var accepted := port != s.inputLast && !s.blocked;
    EncoderState(
      port, port, s.blocked,
      s.updated || accepted,
      if accepted then ToInt16(s.position + Direction(s.inputLast, port)) else s.position,
      if accepted then ToUint8(s.position) else s.prevPosition)
  }

  class Encoder {
    var input: bv8
    var inputLast: bv8
    var blocked: bool
    var updated: bool
    var position: int16
    var prevPosition: uint8

    function State(): EncoderState
      reads this
    {
      EncoderState(input, inputLast, blocked, updated, position, prevPosition)
    }

    /** The encoder as `lcd_init` leaves it: enabled on the current port level, at position 0. */
    constructor (port: bv8)
      ensures State() == EncoderState(port, port, false, false, 0, 0)
    {
      input, inputLast := port, port;
      blocked, updated := false, false;
      position, prevPosition := 0, 0;
    }

    /** lcd_update_encoder: table-driven quadrature decode of one port sample. */
    method Sample(port: bv8)
      modifies this
      ensures State() == NextEncoder(old(State()), port)
    {
      ghost var s0 := State();
      input := port;
      if input != inputLast && !blocked {
        prevPosition := ToUint8(position);
        DirectionTable(inputLast, input);
        var now, last := Phase(input), Phase(inputLast);
        if now == ENCROT0 {
          if last == ENCROT3 {
            position := ToInt16(position + 1);
          } else if last == ENCROT1 {
            position := ToInt16(position - 1);
          }
        } else if now == ENCROT1 {
          if last == ENCROT0 {
            position := ToInt16(position + 1);
          } else if last == ENCROT2 {
            position := ToInt16(position - 1);
          }
        } else if now == ENCROT2 {
          if last == ENCROT1 {
            position := ToInt16(position + 1);
          } else if last == ENCROT3 {
            position := ToInt16(position - 1);
          }
        } else if now == ENCROT3 {
          if last == ENCROT2 {
            position := ToInt16(position + 1);
          } else if last == ENCROT0 {
            position := ToInt16(position - 1);
          }
        }
        assert position == ToInt16(s0.position + Direction(s0.inputLast, port));
        updated := true;
      }
      inputLast := input;
    }

    /** lcd_get_encoder_updated: read and clear the flag. */
    method GetUpdated() returns (status: bool)
      modifies this`updated
      ensures status == old(updated) && !updated
    {
      status := updated;
      updated := false;
    }

    /** lcd_enable_encoder: resynchronise with the current port level and unblock. */
    method Enable(port: bv8)
      modifies this`input, this`inputLast, this`blocked
      ensures input == port && inputLast == port && !blocked
    {
      input := port;
      inputLast := input;
      blocked := false;
    }

    /** lcd_disable_encoder */
    method Disable()
      modifies this`blocked
      ensures blocked
    {
      blocked := true;
    }

    /** lcd_get_encoder_position: the counter as a `uint8_t`. */
    method GetPosition() returns (p: uint8)
      ensures (p - position) % 0x100 == 0
      ensures 0 <= position < 0x100 ==> p == position
    {
      p := ToUint8(position);
    }
  }

  /** A changed, unblocked sample moves the counter by +1 exactly when the last phase is the
      cyclic predecessor of the new one, by -1 exactly when it is the successor, and not at
      all otherwise (both bits flipped, or only the button bit changed); the flag is raised
      and the old counter's low byte saved either way. */
  lemma AcceptedSample(s: EncoderState, port: bv8)
    requires port != s.inputLast && !s.blocked
    ensures var r := NextEncoder(s, port);
            && (Phase(s.inputLast) == [ENCROT0, ENCROT1, ENCROT2, ENCROT3][(CyclePos(port) + 3) % 4]
                <==> r.position == ToInt16(s.position + 1))
            && (Phase(s.inputLast) == [ENCROT0, ENCROT1, ENCROT2, ENCROT3][(CyclePos(port) + 1) % 4]
                <==> r.position == ToInt16(s.position - 1))
            && (PhaseDistance(s.inputLast, port) != 1 ==> r.position == s.position)
            && r.updated && r.prevPosition == ToUint8(s.position)
  {
    DirectionByDistance(s.inputLast, port);
  }

  /** A blocked encoder, or an unchanged sample, moves nothing and raises nothing; only the
      last phase is overwritten. */
  lemma IgnoredSample(s: EncoderState, port: bv8)
    requires port == s.inputLast || s.blocked
    ensures NextEncoder(s, port) == s.(input := port, inputLast := port)
  {
  }

  /** Every sample is the next sample's "last" phase, and no sample unblocks. */
  lemma SampleBecomesLast(s: EncoderState, port: bv8)
    ensures NextEncoder(s, port).inputLast == port && NextEncoder(s, port).blocked == s.blocked
  {
  }

  /** The counter after a run of samples. */
  function EncoderAfter(s: EncoderState, samples: seq<bv8>): EncoderState
    decreases |samples|
  {
    if samples == [] then s else EncoderAfter(NextEncoder(s, samples[0]), samples[1..])
  }

  /** While unblocked and away from the int16 limits, the counter moves by exactly the
      travel the samples encode. */
  lemma {:induction false} CounterFollowsTravel(s: EncoderState, samples: seq<bv8>)
    requires !s.blocked
    requires -0x8000 + |samples| <= s.position < 0x8000 - |samples|
    ensures EncoderAfter(s, samples).position == s.position + Travel([s.inputLast] + samples)
    decreases |samples|
  {
    if samples != [] {
      var s' := NextEncoder(s, samples[0]);
      DirectionByDistance(s.inputLast, samples[0]);
      assert s'.position == s.position + Direction(s.inputLast, samples[0]);
      CounterFollowsTravel(s', samples[1..]);
      TravelPrepend(s.inputLast, samples[0], samples[1..]);
      assert [s.inputLast] + samples == [s.inputLast, samples[0]] + samples[1..];
      assert [s'.inputLast] + samples[1..] == [samples[0]] + samples[1..];
    }
  }

  /** Travel counted from the front: the first step plus the travel of the rest. */
  lemma {:induction false} TravelPrepend(a: bv8, b: bv8, rest: seq<bv8>)
    ensures Travel([a, b] + rest) == Direction(a, b) + Travel([b] + rest)
    decreases |rest|
  {
    if rest == [] {
      assert [a, b] + rest == [a, b];
      assert [b] + rest == [b];
      assert [a, b][..1] == [a];
    } else {
      var init := rest[..|rest| - 1];
      var last := rest[|rest| - 1];
      assert ([a, b] + rest)[..|[a, b] + rest| - 1] == [a, b] + init;
      assert ([b] + rest)[..|[b] + rest| - 1] == [b] + init;
      TravelPrepend(a, b, init);
      if init == [] {
        assert ([a, b] + rest)[|[a, b] + rest| - 2] == b;
        assert ([b] + rest)[|[b] + rest| - 2] == b;
      } else {
        assert ([a, b] + rest)[|[a, b] + rest| - 2] == init[|init| - 1];
        assert ([b] + rest)[|[b] + rest| - 2] == init[|init| - 1];
      }
    }
  }
}
