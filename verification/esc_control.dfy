/** The primary ESC program: calibration on fixed delays at start-up, then
    'w' lowers the pulse (towards full clockwise) and 's' raises it. */
module EscControl {
  import opened Throttle
  import opened Keys
  import opened Esc
  import Calibration

  /** `main`: run the timed calibration, reset the pulse to neutral, then read keys. */
  function Session(input: seq<char>): (o: Outcome)
    ensures |o.writes| >= 3 && o.writes[..3] == [MAX_PULSE, MIN_PULSE, NEUTRAL_PULSE]
    ensures InRange(o.state.pulse) && AllInRange(o.writes)
    ensures Synced(o.state, o.writes)
    ensures o.state.mode == Terminated ==> o.writes[|o.writes| - 1] == NEUTRAL_PULSE
    ensures !o.state.mode.Calibrating?
  {
    var start := State(NEUTRAL_PULSE, Commanding);
    var loop := Run(Primary, start, input);
    RunInRange(Primary, start, input);
    RunSynced(Primary, start, input, Calibration.Writes());
    NeverCalibrates(start, input);
    Outcome(loop.state, Calibration.Writes() + loop.writes)
  }

  /** With no key pressed, start-up leaves the pulse at neutral after writing
      maximum, minimum and neutral, in that order. */
  lemma CalibratedThenNeutral()
    ensures Session([]) == Outcome(State(NEUTRAL_PULSE, Commanding), [MAX_PULSE, MIN_PULSE, NEUTRAL_PULSE])
  {
  }

  /** The program has no calibration key: its loop never enters the calibration waits. */
  lemma {:induction false} NeverCalibrates(st: State, input: seq<char>)
    requires !st.mode.Calibrating?
    ensures !Run(Primary, st, input).state.mode.Calibrating?
    decreases |input|
  {
    if |input| > 0 && st.mode != Terminated {
      NeverCalibrates(Feed(Primary, st, input[0]).state, input[1..]);
    }
  }

  /** 'w' (either case) lowers the pulse by one tick and writes it; at MIN_PULSE
      nothing changes and nothing is written. */
  lemma WLowers(p: int, ch: char)
    requires Lower(ch) == 'w'
    ensures p > MIN_PULSE ==> Step(Primary, p, ch) == Reaction(p - 1, [p - 1], Commanding)
    ensures p <= MIN_PULSE ==> Step(Primary, p, ch) == Reaction(p, [], Commanding)
  {
  }

  /** 's' (either case) raises the pulse by one tick and writes it; at MAX_PULSE
      nothing changes and nothing is written. */
  lemma SRaises(p: int, ch: char)
    requires Lower(ch) == 's'
    ensures p < MAX_PULSE ==> Step(Primary, p, ch) == Reaction(p + 1, [p + 1], Commanding)
    ensures p >= MAX_PULSE ==> Step(Primary, p, ch) == Reaction(p, [], Commanding)
  {
  }

  /** Every key other than w, s, x and q, 'c' included, changes and writes nothing. */
  lemma IgnoresOthers(p: int, ch: char)
    requires Lower(ch) !in {'w', 's', 'x', 'q'}
    ensures Step(Primary, p, ch) == Reaction(p, [], Commanding)
  {
  }
}
