/** The keyboard-driven ESC controller shared by the three ESC programs:
    one pulse variable, a command switch on the lower-cased key, and the
    calibration sequence run from inside the loop. Every call of
    `setThrottle` / `set_throttle` becomes one entry of a write trace. */
module Esc {
  import opened Throttle
  import opened Keys
  import Calibration

  /** The two key layouts found in the programs. */
  datatype Layout =
    | Primary  // 'w' lowers the pulse, 's' raises it, no calibration key
    | Backup   // 'w' raises the pulse, 's' lowers it, 'c' calibrates

  /** The key that adds one tick to the pulse. */
  function UpKey(l: Layout): char {
    if l == Primary then 's' else 'w'
  }

  /** The key that removes one tick from the pulse. */
  function DownKey(l: Layout): char {
    if l == Primary then 'w' else 's'
  }

  predicate CanCalibrate(l: Layout) {
    l == Backup
  }

  /** Where the program is: reading commands, inside the confirmed calibration
      waiting for a key, or returned from `main`. */
  datatype Mode = Commanding | Calibrating(phase: Calibration.Phase) | Terminated

  datatype State = State(pulse: int, mode: Mode)

  /** What one command does: the new value of the pulse variable, the values
      written to the PWM output, and the mode the loop continues in. */
  datatype Reaction = Reaction(pulse: int, writes: seq<int>, next: Mode)

  /** One pass of the command `switch` on key `ch` with pulse variable `pulse`. */
  function Step(l: Layout, pulse: int, ch: char): (r: Reaction)
    ensures |r.writes| <= 1
    ensures InRange(pulse) ==> InRange(r.pulse) && (|r.writes| == 1 ==> InRange(r.writes[0]))
    ensures r.pulse != pulse ==> r.writes == [r.pulse] && r.next == Commanding
    ensures -STEP_PULSE <= r.pulse - pulse <= STEP_PULSE || r.pulse == NEUTRAL_PULSE
    ensures r.next == Terminated <==> Lower(ch) == 'q'
    ensures r.next == Terminated ==> r.writes == [NEUTRAL_PULSE]
    ensures r.next.Calibrating? <==> CanCalibrate(l) && Lower(ch) == 'c'
    ensures r.next.Calibrating? ==> r.next.phase == Calibration.AwaitDisconnect && r.writes == []
  {
    var c := Lower(ch);
    if c == UpKey(l) then
      if pulse < MAX_PULSE then Reaction(pulse + STEP_PULSE, [pulse + STEP_PULSE], Commanding)
      else Reaction(pulse, [], Commanding)
    else if c == DownKey(l) then
      if pulse > MIN_PULSE then Reaction(pulse - STEP_PULSE, [pulse - STEP_PULSE], Commanding)
      else Reaction(pulse, [], Commanding)
    else if c == 'x' then
      Reaction(NEUTRAL_PULSE, [NEUTRAL_PULSE], Commanding)
    else if c == 'q' then
      Reaction(pulse, [NEUTRAL_PULSE], Terminated)
    else if c == 'c' && CanCalibrate(l) then
      Reaction(pulse, [], Calibrating(Calibration.AwaitDisconnect))
    else
      Reaction(pulse, [], Commanding)
  }

  /** What the PWM output holds in state `st`, once anything has been written. */
  function Shown(st: State): int {
    match st.mode
    case Commanding => st.pulse
    case Calibrating(ph) => Calibration.Holding(ph, st.pulse)
    case Terminated => NEUTRAL_PULSE
  }

  /** States that can be reached without any write: the output still holds
      whatever it held before the program started. */
  predicate Unwritten(st: State) {
    st.mode == Commanding || st.mode == Calibrating(Calibration.AwaitDisconnect)
  }

  /** The write trace agrees with the state: its last value is what the state says
      the output holds, and an empty trace goes with a state reachable without writes. */
  predicate Synced(st: State, trace: seq<int>) {
    if |trace| == 0 then Unwritten(st) else trace[|trace| - 1] == Shown(st)
  }

  datatype Outcome = Outcome(state: State, writes: seq<int>)

  /** One key read by the program in state `st`: a command, or the key press
      that ends a wait of the confirmed calibration. */
  function Feed(l: Layout, st: State, ch: char): (o: Outcome)
    ensures |o.writes| <= 1
    ensures InRange(st.pulse) ==> InRange(o.state.pulse) && (|o.writes| == 1 ==> InRange(o.writes[0]))
    ensures |o.writes| == 1 ==> o.writes[0] == Shown(o.state)
    ensures o.writes == [] ==> Shown(o.state) == Shown(st) && Unwritten(o.state) == Unwritten(st)
    ensures st.mode.Calibrating? ==> o.writes == [Calibration.Target(st.mode.phase)]
    ensures st.mode == Terminated ==> o == Outcome(st, [])
  {
    match st.mode
    case Commanding =>
      var r := Step(l, st.pulse, ch);
      Outcome(State(r.pulse, r.next), r.writes)
    case Calibrating(ph) =>
      var w := [Calibration.Target(ph)];
      if Calibration.IsLast(ph) then Outcome(State(NEUTRAL_PULSE, Commanding), w)
      else Outcome(State(st.pulse, Calibrating(Calibration.After(ph))), w)
    case Terminated =>
      Outcome(st, [])
  }

  /** The polling loop over a finite sequence of keys; it stops reading once
      `main` has returned. */
  function Run(l: Layout, st: State, input: seq<char>): (o: Outcome)
    decreases |input|
  {
    if |input| == 0 || st.mode == Terminated then Outcome(st, [])
    else
      var f := Feed(l, st, input[0]);
      var rest := Run(l, f.state, input[1..]);
      Outcome(rest.state, f.writes + rest.writes)
  }

  /** The pulse never leaves [MIN_PULSE, MAX_PULSE], and neither does any written value. */
  lemma {:induction false} RunInRange(l: Layout, st: State, input: seq<char>)
    requires InRange(st.pulse)
    ensures InRange(Run(l, st, input).state.pulse)
    ensures AllInRange(Run(l, st, input).writes)
    decreases |input|
  {
    if |input| > 0 && st.mode != Terminated {
      var f := Feed(l, st, input[0]);
      RunInRange(l, f.state, input[1..]);
    }
  }

  /** The output always holds what the state says it holds. */
  lemma {:induction false} RunSynced(l: Layout, st: State, input: seq<char>, before: seq<int>)
    requires Synced(st, before)
    ensures Synced(Run(l, st, input).state, before + Run(l, st, input).writes)
    decreases |input|
  {
    if |input| > 0 && st.mode != Terminated {
      var f := Feed(l, st, input[0]);
      assert Synced(f.state, before + f.writes);
      RunSynced(l, f.state, input[1..], before + f.writes);
      assert before + f.writes + Run(l, f.state, input[1..]).writes
          == before + (f.writes + Run(l, f.state, input[1..]).writes);
    }
  }

  /** The key that ends the program writes NEUTRAL_PULSE. */
  lemma FeedQuits(l: Layout, st: State, ch: char)
    requires st.mode != Terminated
    requires Feed(l, st, ch).state.mode == Terminated
    ensures Feed(l, st, ch).writes == [NEUTRAL_PULSE]
  {
  }

  /** Once the program has quit, the last value it wrote is NEUTRAL_PULSE,
      whether the keys were read from the command loop or from a calibration wait. */
  lemma {:induction false} QuitLeavesNeutral(l: Layout, st: State, input: seq<char>)
    requires st.mode != Terminated
    requires Run(l, st, input).state.mode == Terminated
    ensures |Run(l, st, input).writes| > 0
    ensures Run(l, st, input).writes[|Run(l, st, input).writes| - 1] == NEUTRAL_PULSE
    decreases |input|
  {
    var f := Feed(l, st, input[0]);
    var rest := Run(l, f.state, input[1..]);
    if f.state.mode != Terminated {
      QuitLeavesNeutral(l, f.state, input[1..]);
    } else {
      FeedQuits(l, st, input[0]);
      assert rest.writes == [];
    }
  }

  /** One key of a loop that has not quit. */
  lemma RunStep(l: Layout, st: State, input: seq<char>)
    requires |input| > 0 && st.mode != Terminated
    ensures Run(l, st, input)
         == Outcome(Run(l, Feed(l, st, input[0]).state, input[1..]).state,
                    Feed(l, st, input[0]).writes + Run(l, Feed(l, st, input[0]).state, input[1..]).writes)
  {
  }

  /** Nothing read after the quit key is processed. */
  lemma {:induction false} HaltedIgnoresRest(l: Layout, st: State, a: seq<char>, b: seq<char>)
    requires Run(l, st, a).state.mode == Terminated
    ensures Run(l, st, a + b) == Run(l, st, a)
    decreases |a|
  {
    if |a| == 0 {
      assert a + b == b;
    } else if st.mode != Terminated {
      var f := Feed(l, st, a[0]);
      assert (a + b)[0] == a[0];
      assert (a + b)[1..] == a[1..] + b;
      RunStep(l, st, a);
      RunStep(l, st, a + b);
      HaltedIgnoresRest(l, f.state, a[1..], b);
    }
  }

  /** The quit key, read while commanding, writes NEUTRAL_PULSE and ends the
      loop: whatever follows is never read. */
  lemma QuitStops(l: Layout, p: int, q: char, rest: seq<char>)
    requires Lower(q) == 'q'
    ensures Run(l, State(p, Commanding), [q] + rest) == Outcome(State(p, Terminated), [NEUTRAL_PULSE])
  {
    assert ([q] + rest)[0] == q;
  }

  /** The stop key sets and writes NEUTRAL_PULSE whatever the pulse was. */
  lemma StopStep(l: Layout, p: int, ch: char)
    requires Lower(ch) == 'x'
    ensures Step(l, p, ch) == Reaction(NEUTRAL_PULSE, [NEUTRAL_PULSE], Commanding)
  {
  }

  /** A key and its upper-case form do the same thing. */
  lemma CaseInsensitive(l: Layout, p: int, ch: char)
    requires IsLower(ch)
    ensures Step(l, p, Upper(ch)) == Step(l, p, ch)
  {
  }

  /** One tick up then one tick down comes back to the start. */
  lemma UpThenDown(l: Layout, p: int, u: char, d: char)
    requires Lower(u) == UpKey(l) && Lower(d) == DownKey(l)
    requires MIN_PULSE <= p < MAX_PULSE
    ensures Run(l, State(p, Commanding), [u, d]) == Outcome(State(p, Commanding), [p + 1, p])
  {
    assert [u, d][1..] == [d];
    assert Run(l, State(p + 1, Commanding), [d]) == Outcome(State(p, Commanding), [p]);
  }

  /** One tick down then one tick up comes back to the start. */
  lemma DownThenUp(l: Layout, p: int, u: char, d: char)
    requires Lower(u) == UpKey(l) && Lower(d) == DownKey(l)
    requires MIN_PULSE < p <= MAX_PULSE
    ensures Run(l, State(p, Commanding), [d, u]) == Outcome(State(p, Commanding), [p - 1, p])
  {
    assert [d, u][1..] == [u];
    assert Run(l, State(p - 1, Commanding), [u]) == Outcome(State(p, Commanding), [p]);
  }

  function Repeat(c: char, n: nat): (s: seq<char>)
    ensures |s| == n
    ensures forall i :: 0 <= i < n ==> s[i] == c
  {
    if n == 0 then [] else [c] + Repeat(c, n - 1)
  }

  function Min(a: int, b: int): int {
    if a <= b then a else b
  }

  function Max(a: int, b: int): int {
    if a >= b then a else b
  }

  /** One press of the down key while commanding. */
  lemma FeedDownKey(l: Layout, p: int, ch: char)
    requires Lower(ch) == DownKey(l)
    ensures Feed(l, State(p, Commanding), ch)
         == if p > MIN_PULSE then Outcome(State(p - 1, Commanding), [p - 1])
            else Outcome(State(p, Commanding), [])
  {
  }

  /** One press of the up key while commanding. */
  lemma FeedUpKey(l: Layout, p: int, ch: char)
    requires Lower(ch) == UpKey(l)
    ensures Feed(l, State(p, Commanding), ch)
         == if p < MAX_PULSE then Outcome(State(p + 1, Commanding), [p + 1])
            else Outcome(State(p, Commanding), [])
  {
  }

  /** The k values `from`, `from - 1`, ..., `from - k + 1`. */
  function Countdown(from: int, k: nat): (s: seq<int>)
    decreases k
    ensures |s| == k
    ensures forall i :: 0 <= i < k ==> s[i] == from - i
  {
    if k == 0 then [] else [from] + Countdown(from - 1, k - 1)
  }

  /** The k values `from`, `from + 1`, ..., `from + k - 1`. */
  function Countup(from: int, k: nat): (s: seq<int>)
    decreases k
    ensures |s| == k
    ensures forall i :: 0 <= i < k ==> s[i] == from + i
  {
    if k == 0 then [] else [from] + Countup(from + 1, k - 1)
  }

  /** Pressing the down key n times lowers the pulse tick by tick, writing each
      new value, until MIN_PULSE; further presses change and write nothing. */
  lemma {:induction false} HoldDown(l: Layout, p: int, ch: char, n: nat)
    requires Lower(ch) == DownKey(l)
    requires MIN_PULSE <= p
    ensures Run(l, State(p, Commanding), Repeat(ch, n)).state == State(Max(MIN_PULSE, p - n), Commanding)
    ensures Run(l, State(p, Commanding), Repeat(ch, n)).writes
         == Countdown(p - 1, Min(n, p - MIN_PULSE))
    decreases n
  {
    if n > 0 {
      var s := Repeat(ch, n);
      assert s[0] == ch && s[1..] == Repeat(ch, n - 1);
      RunStep(l, State(p, Commanding), s);
      FeedDownKey(l, p, ch);
      if p > MIN_PULSE {
        HoldDown(l, p - 1, ch, n - 1);
      } else {
        HoldDown(l, p, ch, n - 1);
      }
    }
  }

  /** Pressing the up key n times raises the pulse tick by tick, writing each
      new value, until MAX_PULSE; further presses change and write nothing. */
  lemma {:induction false} HoldUp(l: Layout, p: int, ch: char, n: nat)
    requires Lower(ch) == UpKey(l)
    requires p <= MAX_PULSE
    ensures Run(l, State(p, Commanding), Repeat(ch, n)).state == State(Min(MAX_PULSE, p + n), Commanding)
    ensures Run(l, State(p, Commanding), Repeat(ch, n)).writes
         == Countup(p + 1, Min(n, MAX_PULSE - p))
    decreases n
  {
    if n > 0 {
      var s := Repeat(ch, n);
      assert s[0] == ch && s[1..] == Repeat(ch, n - 1);
      RunStep(l, State(p, Commanding), s);
      FeedUpKey(l, p, ch);
      if p < MAX_PULSE {
        HoldUp(l, p + 1, ch, n - 1);
      } else {
        HoldUp(l, p, ch, n - 1);
      }
    }
  }
}
