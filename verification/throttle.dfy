/** Pulse-width constants shared by the three ESC programs.
    A pulse width is counted in PWM ticks of 10 microseconds each. */
module Throttle {

  /** 1900 microseconds: zero commanded motion. */
  const NEUTRAL_PULSE: int := 190
  /** 1000 microseconds: full clockwise speed. */
  const MIN_PULSE: int := 100
  /** 2600 microseconds: full counter-clockwise speed. */
  const MAX_PULSE: int := 260
  /** One manual adjustment moves the pulse by one tick (10 microseconds). */
  const STEP_PULSE: int := 1

  /** The range the ESC programs promise never to leave. */
  predicate InRange(p: int) {
    MIN_PULSE <= p <= MAX_PULSE
  }

  predicate AllInRange(ws: seq<int>) {
    forall i :: 0 <= i < |ws| ==> InRange(ws[i])
  }
}

/** Lower-casing of a key as `tolower` does in the C locale. */
module Keys {

  predicate IsUpper(c: char) {
    'A' <= c <= 'Z'
  }

  predicate IsLower(c: char) {
    'a' <= c <= 'z'
  }

  function Lower(c: char): (r: char)
    ensures !IsUpper(r)
    ensures IsLower(r) <==> IsLower(c) || IsUpper(c)
    ensures !IsUpper(c) ==> r == c
    ensures IsUpper(c) ==> r as int - 'a' as int == c as int - 'A' as int
  {
    if IsUpper(c) then (c as int + 32) as char else c
  }

  function Upper(c: char): (r: char)
    ensures IsLower(c) ==> IsUpper(r) && Lower(r) == c
  {
    if IsLower(c) then (c as int - 32) as char else c
  }
}
