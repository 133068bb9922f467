/** The backup ESC program (C): no start-up calibration; 'w' raises the pulse,
    's' lowers it, and 'c' runs a calibration whose waits each end on a key press. */
module EscControlBackup {
  import opened Throttle
  import opened Keys
  import opened Esc
  import Calibration

  /** `main`: the pulse variable starts at neutral, without a write, then keys are read. */
  function Session(input: seq<char>): (o: Outcome)
    ensures InRange(o.state.pulse) && AllInRange(o.writes)
    ensures Synced(o.state, o.writes)
    ensures o.state.mode == Terminated ==> |o.writes| > 0 && o.writes[|o.writes| - 1] == NEUTRAL_PULSE
  {
    var start := State(NEUTRAL_PULSE, Commanding);
    RunInRange(Backup, start, input);
    RunSynced(Backup, start, input, []);
    assert [] + Run(Backup, start, input).writes == Run(Backup, start, input).writes;
    Run(Backup, start, input)
  }

  /** 'w' raises the pulse by one tick and writes it; at MAX_PULSE nothing
      changes and nothing is written. */
  lemma WRaises(p: int, ch: char)
    requires Lower(ch) == 'w'
    ensures p < MAX_PULSE ==> Step(Backup, p, ch) == Reaction(p + 1, [p + 1], Commanding)
    ensures p >= MAX_PULSE ==> Step(Backup, p, ch) == Reaction(p, [], Commanding)
  {
  }

  /** 's' lowers the pulse by one tick and writes it; at MIN_PULSE nothing
      changes and nothing is written. */
  lemma SLowers(p: int, ch: char)
    requires Lower(ch) == 's'
    ensures p > MIN_PULSE ==> Step(Backup, p, ch) == Reaction(p - 1, [p - 1], Commanding)
    ensures p <= MIN_PULSE ==> Step(Backup, p, ch) == Reaction(p, [], Commanding)
  {
  }

  /** 'c' followed by the three confirming key presses (any keys) writes maximum,
      minimum and neutral in that order and leaves the pulse at neutral. */
  lemma CalibrateCommand(p: int, c: char, k1: char, k2: char, k3: char)
    requires Lower(c) == 'c'
    ensures Run(Backup, State(p, Commanding), [c, k1, k2, k3])
         == Outcome(State(NEUTRAL_PULSE, Commanding), [MAX_PULSE, MIN_PULSE, NEUTRAL_PULSE])
  {
    var a := State(p, Calibrating(Calibration.AwaitDisconnect));
    var b := State(p, Calibrating(Calibration.AwaitConnect));
    var t := State(p, Calibrating(Calibration.AwaitTone));
    var n := State(NEUTRAL_PULSE, Commanding);
    assert [k3][1..] == [] && [k2, k3][1..] == [k3] && [k1, k2, k3][1..] == [k2, k3];
    assert [c, k1, k2, k3][1..] == [k1, k2, k3];
    assert Run(Backup, t, [k3]) == Outcome(n, [NEUTRAL_PULSE]);
    assert Run(Backup, b, [k2, k3]) == Outcome(n, [MIN_PULSE, NEUTRAL_PULSE]);
    assert Run(Backup, a, [k1, k2, k3]) == Outcome(n, [MAX_PULSE, MIN_PULSE, NEUTRAL_PULSE]);
  }

  /** A key that is none of c, w, s, x, q changes and writes nothing. */
  lemma UnknownIgnored(p: int, ch: char)
    requires Lower(ch) !in {'c', 'w', 's', 'x', 'q'}
    ensures Step(Backup, p, ch) == Reaction(p, [], Commanding)
  {
  }
}
