/** The backup ESC program (Python). Its key dispatch is that of the backup C
    program; `getch` blocks instead of polling, which a finite key sequence
    does not distinguish. */
module EscControlBackupPy {
  import opened Throttle
  import opened Keys
  import opened Esc
  import Calibration

  /** At a bound the step key is silently ignored: no change and no write.
      These are the at-bound halves of `EscControlBackup.WRaises` and
      `EscControlBackup.SLowers`, stated for the Python branches, which print nothing there. */
  lemma BoundsSilent(w: char, s: char)
    requires Lower(w) == 'w' && Lower(s) == 's'
    ensures Step(Backup, MAX_PULSE, w) == Reaction(MAX_PULSE, [], Commanding)
    ensures Step(Backup, MIN_PULSE, s) == Reaction(MIN_PULSE, [], Commanding)
  {
  }

  /** If the keys run out during the calibration waits, the writes made so far
      are the start of maximum, minimum, neutral, in order, and the pulse
      variable is untouched (it is reset only after `calibrate_esc` returns). */
  lemma CalibrationInterrupted(p: int, c: char, keys: seq<char>)
    requires Lower(c) == 'c' && |keys| < 3
    ensures Run(Backup, State(p, Commanding), [c] + keys).state.pulse == p
    ensures Run(Backup, State(p, Commanding), [c] + keys).state.mode.Calibrating?
    ensures Run(Backup, State(p, Commanding), [c] + keys).writes
         == [MAX_PULSE, MIN_PULSE, NEUTRAL_PULSE][..|keys|]
  {
    var st := State(p, Commanding);
    var a := State(p, Calibrating(Calibration.AwaitDisconnect));
    var b := State(p, Calibrating(Calibration.AwaitConnect));
    var t := State(p, Calibrating(Calibration.AwaitTone));
    var s := [c] + keys;
    assert s[0] == c && s[1..] == keys;
    RunStep(Backup, st, s);
    assert Feed(Backup, st, c) == Outcome(a, []);
    if |keys| > 0 {
      RunStep(Backup, a, keys);
      assert Feed(Backup, a, keys[0]) == Outcome(b, [MAX_PULSE]);
      if |keys| == 1 {
        assert keys[1..] == [];
      } else {
        RunStep(Backup, b, keys[1..]);
        assert Feed(Backup, b, keys[1..][0]) == Outcome(t, [MIN_PULSE]);
        assert keys[1..][1..] == [];
      }
    }
  }
}
