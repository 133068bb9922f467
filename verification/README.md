# ESC and servo pulse-width control, modelled in Dafny

The repository drives a hobby electronic speed controller (ESC) and a servo with
PWM pulses, one tick of pulse width being 10 microseconds. Three programs control
the ESC from the keyboard, and one program sweeps the servo. Each ESC program holds
one integer, `current_pulse`. Lower-cased key presses change it, and every change is
written to the PWM output. The ESC also has a calibration sequence: it writes maximum,
then minimum, then neutral.

The model keeps this logic and drops the hardware. Each `setThrottle` / `pwmWrite`
call appends one value to a write trace (`seq<int>`), and keyboard input is a finite
`seq<char>`.

- `throttle.dfy`: module `Throttle` holds the ESC constants (`NEUTRAL_PULSE` 190,
  `MIN_PULSE` 100, `MAX_PULSE` 260, `STEP_PULSE` 1) and the admissible range. Module
  `Keys` lower-cases a key as `tolower` does.
- `calibration.dfy`: the three waits of `calibrateESC`, each ended by one write.
- `esc.dfy`: the command state machine shared by all ESC programs.
  - A `Layout` says which key raises the pulse and whether `c` calibrates.
  - `Step` is one pass of the command `switch`.
  - `Feed` handles one key in any mode. During the confirmed calibration, a key ends a wait.
  - `Run` is the polling loop folded over the key sequence. It stops at `q`.
- `esc_control.dfy`, `esc_control_backup.dfy`, `esc_control_backup_py.dfy`: one module
  per program, each holding that program's `main` and its key-specific facts.
  - `esc_control.c` uses layout `Primary`: `w` lowers the pulse, `s` raises it, and
    there is no `c`.
  - Both backup programs use layout `Backup`: `w` raises, `s` lowers, and `c` calibrates.
    Their dispatch is identical.
- `servo.dfy`: `moveServoGradually` and the up/down sweep of the servo's `main`.

Behaviour of the code worth knowing:
- The backup programs write nothing at start-up. `current_pulse` starts at neutral, but
  the output stays untouched until the first command.
- `q` writes neutral but does not assign `current_pulse`, so the model keeps the pulse.
- A step at a bound changes nothing and writes nothing. It only prints a message in the C programs; the Python program does nothing.
- The confirmed calibration reads three more keys from the same input. If the input ends
  during those waits, the pulse variable is unchanged. It is reset to neutral only after
  `calibrateESC` returns.

## Model

| member | source | states |
|---|---|---|
| Keys.Lower | esc_control.c:100 | lower-casing maps each capital to the same letter of the alphabet in lower case (W to w, S to s, X to x, Q to q, C to c), fixes every other key, and leaves no upper-case letter |
| Calibration.WritesFrom | esc_control.c:48-73 | from any phase, the calibration writes that phase's target first and neutral last, one write per remaining phase, all in range |
| Calibration.Writes | esc_control.c:54-70 | the calibration writes are exactly maximum, minimum, neutral, in that order |
| Esc.Step | esc_control_backup.c:102-134 | one command keeps the pulse in range if it was in range. It writes at most one value. Every change of the pulse is written through. The pulse moves by at most one tick unless it is reset to neutral. It terminates iff the key is q, and then it writes neutral. It starts calibration iff the layout has c and the key is c |
| Esc.Feed | esc_control_backup.c:48-75 | in a calibration wait, any key writes that phase's target. Each key keeps the range and writes at most one value, and that value is what the output now holds. With no write, what the output holds is unchanged. After quitting, keys do nothing |
| Esc.RunInRange | esc_control_backup.c:97-134 | over any finite key sequence from an in-range pulse, the pulse stays in [MIN_PULSE, MAX_PULSE] and every written value is in that range. The Python loop at esc_control_backup.py:75-97 is the same fold |
| Esc.RunSynced | esc_control.c:97-130 | after any key sequence, the last value written is the value the state says the output holds |
| Esc.QuitLeavesNeutral | esc_control.c:124-127 | if the loop has quit, starting from any state that had not quit (commanding or inside a calibration wait), something was written and the last write is NEUTRAL_PULSE |
| Esc.HaltedIgnoresRest | esc_control_backup.c:128-131 | once the program has quit, no later key changes the state or the trace |
| Esc.QuitStops | esc_control_backup.py:92-95 | q read while commanding writes exactly neutral and ends the loop, whatever keys follow |
| Esc.StopStep | esc_control_backup.py:89-91 | x sets the pulse to neutral and writes neutral, whatever the prior pulse (same at esc_control.c:119-123 and esc_control_backup.c:123-127) |
| Esc.CaseInsensitive | esc_control_backup.py:76 | an upper-case letter does exactly what its lower-case form does, in either layout |
| Esc.UpThenDown | esc_control_backup.c:107-122 | from an in-range pulse below MAX_PULSE, the up key then the down key returns to the start, writing p+1 then p |
| Esc.DownThenUp | esc_control.c:103-118 | from an in-range pulse above MIN_PULSE, the down key then the up key returns to the start, writing p-1 then p |
| Esc.HoldDown | esc_control.c:103-110 | n presses of the down key lower the pulse to max(MIN_PULSE, p-n) and write each intermediate value in descending order; presses at the bound write nothing |
| Esc.HoldUp | esc_control_backup.c:107-114 | n presses of the up key raise the pulse to min(MAX_PULSE, p+n) and write each intermediate value in ascending order; presses at the bound write nothing |
| EscControl.Session | esc_control.c:86-130 | the program's trace starts with maximum, minimum, neutral. Pulse and writes stay in range, and the trace agrees with the state. If it quits, the last write is neutral. It never enters a calibration wait |
| EscControl.CalibratedThenNeutral | esc_control.c:86-89 | start-up calibration writes maximum, minimum, neutral and leaves the pulse at neutral |
| EscControl.NeverCalibrates | esc_control.c:102-130 | the primary layout has no calibration key: its loop never enters a calibration wait |
| EscControl.WLowers | esc_control.c:103-110 | w lowers the pulse by one tick and writes it when above MIN_PULSE; otherwise it changes and writes nothing |
| EscControl.SRaises | esc_control.c:111-118 | s raises the pulse by one tick and writes it when below MAX_PULSE; otherwise it changes and writes nothing |
| EscControl.IgnoresOthers | esc_control.c:128-129 | every key other than w, s, x, q, c included, leaves the pulse unchanged and writes nothing |
| EscControlBackup.Session | esc_control_backup.c:88-134 | from the initial neutral pulse, pulse and writes stay in range for any key sequence. The trace agrees with the state, and a quit leaves neutral as the last write. The same holds for esc_control_backup.py:66-97 |
| EscControlBackup.WRaises | esc_control_backup.c:107-114 | w raises the pulse by one tick and writes it when below MAX_PULSE; otherwise it changes and writes nothing (same at esc_control_backup.py:81-84) |
| EscControlBackup.SLowers | esc_control_backup.c:115-122 | s lowers the pulse by one tick and writes it when above MIN_PULSE; otherwise it changes and writes nothing (same at esc_control_backup.py:85-88) |
| EscControlBackup.CalibrateCommand | esc_control_backup.c:103-106 | c and three confirming keys of any value write maximum, minimum, neutral in that order, then the pulse is neutral (same at esc_control_backup.py:78-80) |
| EscControlBackup.UnknownIgnored | esc_control_backup.c:132-133 | a key that is none of c, w, s, x, q leaves the pulse unchanged and writes nothing (same at esc_control_backup.py:96-97) |
| EscControlBackupPy.BoundsSilent | esc_control_backup.py:81-88 | w at MAX_PULSE and s at MIN_PULSE change nothing and write nothing |
| EscControlBackupPy.CalibrationInterrupted | esc_control_backup.py:39-62 | if the keys run out during the calibration waits, the writes so far are a prefix of maximum, minimum, neutral and the pulse variable is untouched |
| Servo.Sweep | servo.c:11-12 | the sweep from start to end has abs(end-start)+1 values. It begins at start and ends at end. Consecutive values differ by one in the direction of end, so it is strictly monotone, and every value lies between start and end |
| Servo.MoveServoGradually | servo.c:10-16 | the C loop, which steps until the pulse passes end, terminates and writes exactly the sweep from start to end; for start == end that is one write |
| Servo.SweepBack | servo.c:33-38 | the sweep from end back to start is the forward sweep reversed |
| Servo.SweepCycle | servo.c:30-40 | one pass of the main loop writes 152 values: the increasing sweep 100..175, then its reverse, all within [100, 175] |
| Servo.Cycles | servo.c:30-40 | any number of passes of the main loop write that pass again and again, and every value stays within [100, 175] |

## Left out

- Pin set-up is not modelled: `wiringPiSetup`, `wiringPiSetupGpio`, `pinMode`, `pwmSetMode`, `pwmSetClock` and `pwmSetRange` are foreign hardware calls. The setup-failure exit with status 1 is also left out. `pwmWrite` is modelled only as appending to the trace.
- Keyboard plumbing is not modelled: `kbhit`, `getch` and the terminal raw-mode handling are operating-system input code. The input is a finite key sequence.
- Timing is not modelled: `delay`, `usleep`, `time.sleep` and the delay constants only affect wall-clock time. So the fixed delays of the timed calibration and the key presses of the confirmed one differ only in whether they consume keys.
- Console output is not modelled. The status line reports `pulse * 10` microseconds.
- The Python `KeyboardInterrupt` handler and the `finally` pin reset are signal and exception handling.
- The `while (1)` / `while True` loops never end. They are modelled as a fold over a finite key sequence, and the servo loop as a given number of passes.
- Keys.Lower: lower-cases ASCII letters only. Python's `str.lower` also changes other characters, but none of them lowers to a command letter, so the dispatch is the same.
- Servo.MoveServoGradually: uses unbounded integers. So it does not model the signed overflow of `end + step` in C when `end` is the largest or the smallest `int`, nor of `pulse += step` at those values. The program only calls it with 100 and 175.
