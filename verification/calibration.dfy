/** The ESC calibration sequence: three waits, each ended by one write.
    The timed variant ends each wait on a delay, the confirmed variant on a key press;
    both write the same pulses in the same order. */
module Calibration {
  import opened Throttle

  /** The waits of `calibrateESC`, in order: for the battery to be disconnected,
      for it to be reconnected (the ESC beeps), and for the confirming tone. */
  datatype Phase = AwaitDisconnect | AwaitConnect | AwaitTone

  /** The pulse written when the wait of phase `ph` ends. */
  function Target(ph: Phase): int {
    match ph
    case AwaitDisconnect => MAX_PULSE
    case AwaitConnect => MIN_PULSE
    case AwaitTone => NEUTRAL_PULSE
  }

  predicate IsLast(ph: Phase) {
    ph == AwaitTone
  }

  function After(ph: Phase): Phase
    requires !IsLast(ph)
  {
    match ph
    case AwaitDisconnect => AwaitConnect
    case AwaitConnect => AwaitTone
  }

  /** Number of phases before `ph`. */
  function Rank(ph: Phase): nat {
    match ph
    case AwaitDisconnect => 0
    case AwaitConnect => 1
    case AwaitTone => 2
  }

  /** What the PWM output holds while the sequence waits in `ph`,
      given the value `before` it held when calibration began. */
  function Holding(ph: Phase, before: int): int {
    match ph
    case AwaitDisconnect => before
    case AwaitConnect => Target(AwaitDisconnect)
    case AwaitTone => Target(AwaitConnect)
  }

  /** The writes made from phase `ph` to the end, each wait ending in turn. */
  function WritesFrom(ph: Phase): (ws: seq<int>)
    decreases 2 - Rank(ph)
    ensures |ws| == 3 - Rank(ph)
    ensures ws[0] == Target(ph)
    ensures ws[|ws| - 1] == NEUTRAL_PULSE
    ensures AllInRange(ws)
  {
    if IsLast(ph) then [Target(ph)] else [Target(ph)] + WritesFrom(After(ph))
  }

  /** The whole sequence: maximum, then minimum, then neutral. */
  function Writes(): (ws: seq<int>)
    ensures ws == [MAX_PULSE, MIN_PULSE, NEUTRAL_PULSE]
  {
    WritesFrom(AwaitDisconnect)
  }
}
