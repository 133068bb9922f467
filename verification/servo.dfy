/** The servo sweep program: the pulse moves one tick at a time from the
    0-degree position to the 110-degree position and back, forever.
    Every `pwmWrite` becomes one entry of the returned trace. */
module Servo {

  /** 1 ms: 0 degrees. */
  const MIN_PULSE: int := 100
  /** 1.75 ms: 110 degrees. */
  const MAX_PULSE: int := 175
  /** Writes in one up-and-down pass of the main loop. */
  const CYCLE_LEN: int := 2 * (MAX_PULSE - MIN_PULSE + 1)

  /** The step of the sweep loop: up when `start < end`, otherwise down. */
  function Direction(start: int, end: int): int {
    if start < end then 1 else -1
  }

  function Distance(a: int, b: int): nat {
    if a <= b then b - a else a - b
  }

  predicate Between(x: int, a: int, b: int) {
    (a <= x <= b) || (b <= x <= a)
  }

  /** Reference definition: every value from `start` to `end` inclusive, one tick apart. */
  function Sweep(start: int, end: int): (ws: seq<int>)
    ensures |ws| == Distance(start, end) + 1
    ensures ws[0] == start && ws[|ws| - 1] == end
    ensures forall i :: 0 < i < |ws| ==> ws[i] - ws[i - 1] == Direction(start, end)
    ensures forall i :: 0 <= i < |ws| ==> Between(ws[i], start, end)
    ensures start < end ==> forall i, j :: 0 <= i < j < |ws| ==> ws[i] < ws[j]
    ensures end < start ==> forall i, j :: 0 <= i < j < |ws| ==> ws[i] > ws[j]
  {
    seq(Distance(start, end) + 1, i => if start < end then start + i else start - i)
  }

  /** `moveServoGradually`: the C `for` loop, stepping until the pulse passes `end`. */
  method MoveServoGradually(start: int, end: int) returns (writes: seq<int>)
    ensures writes == Sweep(start, end)
  {
    var step := if start < end then 1 else -1;
    writes := [];
    var pulse := start;
    while pulse != end + step
      invariant |writes| <= Distance(start, end) + 1
      invariant pulse == (if start < end then start + |writes| else start - |writes|)
      invariant writes == Sweep(start, end)[..|writes|]
      decreases Distance(start, end) + 1 - |writes|
    {
      writes := writes + [pulse];
      pulse := pulse + step;
    }
  }

  function Reverse(s: seq<int>): (r: seq<int>)
    ensures |r| == |s|
    ensures forall i :: 0 <= i < |s| ==> r[i] == s[|s| - 1 - i]
  {
    seq(|s|, i requires 0 <= i < |s| => s[|s| - 1 - i])
  }

  /** Sweeping back retraces the forward sweep in reverse order. */
  lemma SweepBack(a: int, b: int)
    ensures Sweep(b, a) == Reverse(Sweep(a, b))
  {
  }

  /** One pass of `main`'s loop: up from MIN_PULSE to MAX_PULSE, then back down.
      The up half visits every value once in increasing order, the down half is
      its reverse, and nothing leaves [MIN_PULSE, MAX_PULSE]. */
  method SweepCycle() returns (writes: seq<int>)
    ensures |writes| == CYCLE_LEN
    ensures writes[..CYCLE_LEN / 2] == Sweep(MIN_PULSE, MAX_PULSE)
    ensures writes[CYCLE_LEN / 2..] == Reverse(writes[..CYCLE_LEN / 2])
    ensures forall i :: 0 <= i < |writes| ==> MIN_PULSE <= writes[i] <= MAX_PULSE
  {
    var up := MoveServoGradually(MIN_PULSE, MAX_PULSE);
    var down := MoveServoGradually(MAX_PULSE, MIN_PULSE);
    SweepBack(MIN_PULSE, MAX_PULSE);
    writes := up + down;
    assert writes[..CYCLE_LEN / 2] == up;
    assert writes[CYCLE_LEN / 2..] == down;
  }

  /** Appending one more pass keeps every earlier pass in its place. */
  lemma AppendPass(prev: seq<int>, one: seq<int>, done: nat)
    requires |prev| == done * CYCLE_LEN
    requires one == Sweep(MIN_PULSE, MAX_PULSE) + Sweep(MAX_PULSE, MIN_PULSE)
    requires forall k :: 0 <= k < done ==>
      prev[k * CYCLE_LEN..(k + 1) * CYCLE_LEN] == Sweep(MIN_PULSE, MAX_PULSE) + Sweep(MAX_PULSE, MIN_PULSE)
    ensures forall k :: 0 <= k < done + 1 ==>
      (prev + one)[k * CYCLE_LEN..(k + 1) * CYCLE_LEN] == Sweep(MIN_PULSE, MAX_PULSE) + Sweep(MAX_PULSE, MIN_PULSE)
  {
    var w := prev + one;
    forall k | 0 <= k < done + 1
      ensures w[k * CYCLE_LEN..(k + 1) * CYCLE_LEN] == Sweep(MIN_PULSE, MAX_PULSE) + Sweep(MAX_PULSE, MIN_PULSE)
    {
      if k < done {
        assert (k + 1) * CYCLE_LEN <= |prev|;
        assert w[k * CYCLE_LEN..(k + 1) * CYCLE_LEN] == prev[k * CYCLE_LEN..(k + 1) * CYCLE_LEN];
      } else {
        assert w[k * CYCLE_LEN..(k + 1) * CYCLE_LEN] == one;
      }
    }
  }

  /** `cycles` passes of `main`'s loop, which in the program never ends:
      each pass writes the same up-and-down sweep. */
  method Cycles(cycles: nat) returns (writes: seq<int>)
    ensures |writes| == cycles * CYCLE_LEN
    ensures forall k :: 0 <= k < cycles ==>
      writes[k * CYCLE_LEN..(k + 1) * CYCLE_LEN] == Sweep(MIN_PULSE, MAX_PULSE) + Sweep(MAX_PULSE, MIN_PULSE)
    ensures forall i :: 0 <= i < |writes| ==> MIN_PULSE <= writes[i] <= MAX_PULSE
  {
    writes := [];
    var done := 0;
    while done < cycles
      invariant done <= cycles
      invariant |writes| == done * CYCLE_LEN
      invariant forall k :: 0 <= k < done ==>
        writes[k * CYCLE_LEN..(k + 1) * CYCLE_LEN] == Sweep(MIN_PULSE, MAX_PULSE) + Sweep(MAX_PULSE, MIN_PULSE)
      invariant forall i :: 0 <= i < |writes| ==> MIN_PULSE <= writes[i] <= MAX_PULSE
    {
      var one := SweepCycle();
      assert one == Sweep(MIN_PULSE, MAX_PULSE) + Sweep(MAX_PULSE, MIN_PULSE) by {
        SweepBack(MIN_PULSE, MAX_PULSE);
        assert one == one[..CYCLE_LEN / 2] + one[CYCLE_LEN / 2..];
      }
      AppendPass(writes, one, done);
      writes := writes + one;
      done := done + 1;
    }
  }
}
