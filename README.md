# auto-maple: capture loop and Kanna command book

A Dafny model of two pieces of decision logic from auto-maple, a bot that plays a 2D game by
watching the screen and sending key events.

- **Capture** (`capture.dfy`). This is `Capture._main`. Each pass through its `while True` loop
  does the following, in order:
  - calibrates the minimap box on the first frame;
  - applies the two one-way "alert and disable" rules (black screen, elite warning);
  - tracks the player's position;
  - runs the rune check on one frame in a hundred;
  - publishes the display for the GUI.

  `_distance_to_rune` is also modelled. The pure functions `Perceive`, `RuneCheck`, `RuneStep`
  and `Next` give the meaning of one pass. The class `Capture` holds the capture's fields and the
  shared `config` fields, and its methods update them in place. Each method is proved to match
  its function.
- **Kanna** (`kanna.dfy`). This is the command book. Each command's `main` becomes a method that
  returns the trace of input-driver calls it makes: `press`, `key_down`, `key_up` and
  `time.sleep`. The trace events are defined in `input.dfy`. The command book's promises are
  stated over that trace:
  - how often each key is pressed;
  - that every key that goes down comes back up;
  - the order of the jump and the arrow key in a teleport.

  `Adjust`, `Buff` and `Teleport` work by changing state, so they are classes. `Buff` keeps its
  two cooldown timestamps. `Teleport` appends to a `Layout`. `Adjust` runs a bounded control loop
  whose termination is proved.
- **Geometry** (`geometry.dfy`) holds positions and the squared Euclidean distance.

How the outside world enters the model:

- The vision calls (screen grab, template matching, colour filtering) become fields of a `Frame`
  value: the matched minimap corner, the dark-pixel count, the frame size, whether the elite
  warning matched, and the player and rune match lists.
- `utils.distance` and `utils.convert_to_relative` are function parameters of the capture step.
- In the command book, the player's position and the `enabled` flag come from an oracle `Env`:
  - `Position(t)` is where the player is once the command has sent the events `t`, so the player
    moves only in response to input and waiting. This is narrower than the program, where the
    capture thread may update the position between any two reads (see "## Left out");
  - `Enabled(n)` is the flag's value at its `n`-th read.
- `Adjust.Execute` returns a record of its rounds. Each `Round` keeps the axis, the gap it
  measured, whether it corrected, the counter and flag read it was entered with, the events sent
  before it and the events it sent. The record is what lets the contract tie every round to the
  environment.
- `time.time()` is the parameter `now` of `Buff.Execute`.
- Distance comparisons use squared distances.
- The threshold `adjust_tolerance / math.sqrt(2)` of `Adjust` is a parameter `threshold`. Its
  precondition `IsThreshold` says that it has the sign of the tolerance and that, for a
  non-negative tolerance, twice its square is at most the square of the tolerance. The exact value
  `adjust_tolerance / sqrt(2)` meets it, and so does any rational value below it. The theorems
  about `Adjust` hold for every such threshold. A threshold below the exact value makes a round
  correct some gaps that the program would leave alone.

Behaviour worth knowing:

- When a rune check is due, a rune matched, and the routine is non-empty but holds no `Point`,
  every distance is infinite and `np.argmin` returns 0. Reading `.location` of that entry then
  raises. This assumes that only a `Point` has a `location` attribute; `components.py` is not
  part of this model. Nothing in `_main` catches the exception, so the capture thread ends. The model
  returns `crashed`:
  - `rune_pos` has already been written;
  - the rune counter, `rune_active`, the display and `ready` are left as they were.

  `Run` stops at such a cycle.
- The routine entries are indexed as `config.routine.sequence`. The source reads
  `config.routine[index]`; the model assumes that indexing the routine means indexing its
  sequence.

## Model

| member | source | states |
|---|---|---|
| Capture.MinimapCorner | capture.py:82 | each coordinate of the minimap's bottom-right corner is the larger of 75 and the matched corner's coordinate minus 8 |
| Capture.Calibrate | capture.py:76-85 | calibration sets the top-left corner to (8, 21) and the bottom-right corner to the clamped match; the box is at least 54 high and 67 wide; sets the ratio of the box's width to its height, which is positive; changes nothing else |
| Capture.RatioScales | capture.py:83 | for a box of positive height, the ratio times the height is the width, and it is positive when the width is |
| Capture.Perceive | capture.py:76-109 | calibration happens once and is kept afterwards; `enabled` and `alert_active` become false and true exactly when the bot was enabled, no alert was active, and the frame was mostly black or showed the elite warning; `enabled` never turns on and `alert_active` never turns off; the player position follows the first match and stays put without one; nothing else changes |
| Capture.DistanceToRune | capture.py:160-169 | an entry's distance to the rune is finite exactly when the entry is a Point, and is then the distance from the rune to the Point's location |
| Capture.Distances | capture.py:118 | one distance per routine entry, each that entry's distance to the rune, +infinity for entries that are not Points |
| Capture.ArgMin | capture.py:119 | the index argmin returns holds a minimal distance, and no earlier index holds one as small |
| Capture.FirstMinimumUnique | capture.py:119 | at most one index is the first minimum, so the tie-break is determined |
| Capture.RuneCheck | capture.py:112-121 | the check raises exactly when it is due, a rune matched, the routine is non-empty, and the routine holds no Point |
| Capture.RuneStep | capture.py:111-135 | a detection is attempted only when the counter is 0 and no rune is active; the rune becomes active only with a rune match and a Point in the routine; `rune_pos` is the first match; `rune_closest_pos` is the location of the first entry with minimal distance; without a crash the counter becomes (c + 1) % 100 and the display and `ready` are published; the perception fields are unchanged |
| Capture.Next | capture.py:73-135 | over one whole pass: calibrated afterwards, with the box kept if it was set; `enabled`, `alert_active` and `rune_active` change one way only; the pass raises exactly in the case above; the counter advances by one mod 100, or stays when the pass raises |
| Capture.Capture.constructor | capture.py:44-53 | a new capture is uncalibrated and not ready, with ratio 1 and no display |
| Capture.Capture.Step | capture.py:74-135 | one pass changes the fields exactly as `Next` says and keeps the counter in [0, 100) with a calibrated box of positive height |
| Capture.Capture.UpdatePerception | capture.py:76-109 | the fields change as `Perceive` says |
| Capture.Capture.UpdateCalibration | capture.py:76-85 | the fields change as calibrating once says |
| Capture.Capture.UpdateAlerts | capture.py:89-101 | the fields change as the two alert rules, applied in order, say |
| Capture.Capture.UpdatePlayer | capture.py:106-109 | the player position follows the first match |
| Capture.Capture.UpdateRune | capture.py:111-135 | the fields change as `RuneStep` says, and the method returns whether the pass raised |
| Capture.Capture.CheckRune | capture.py:111-121 | the fields change as `RuneCheck` says |
| Capture.Capture.Publish | capture.py:122-134 | the counter advances mod 100, the display copies the rune and player state, and `ready` is set |
| Capture.RunFrom | capture.py:72-135 | the loop run over a finite sequence of frames reports a raise only with fewer completed passes than frames, and otherwise completes a pass per frame |
| Capture.RunStopsAtRaise | capture.py:72-135 | a run that raises stopped at the first raising pass: every earlier pass completed, and the outcome is that pass (`Next`) applied to the state they left |
| Capture.RunAppend | capture.py:72-135 | a run over two pieces of frames is the run over the first and, unless that raised, the run over the second from the state it left, with the passes added |
| Capture.RunFacts | capture.py:76-135 | over a run, the box and ratio stay fixed once calibrated, any frame calibrates, and `enabled`, `alert_active` and `rune_active` change one way only |
| Capture.RunCounter | capture.py:122 | over a run, the rune counter ends at the start plus the completed passes, mod 100 |
| Capture.Capture.Passes | capture.py:72-135 | stepping the object frame by frame leaves exactly the state, raise flag and pass count of `RunFrom` on the starting snapshot, and keeps `Valid` |
| Capture.Capture.Run | capture.py:72-135 | the final snapshot, raise flag and pass count are those of `RunFrom` from the starting snapshot, so the run stops exactly at the first pass that raises; afterwards the counter is the start plus the passes that completed, mod 100; the box and ratio stay fixed once calibrated; `enabled`, `alert_active` and `rune_active` change one way only under the capture thread's own writes |
| Kanna.Step | command_books/kanna.py:12-27 | presses `e` once for up or down and twice otherwise, as the last event; presses `space` only when the vertical gap exceeds 1.5 times the move tolerance, 3 times for down and once for up; sends nothing but these presses of `e` and `space`, one press event each, and the `space` press comes first with the driver's default timings |
| Kanna.Walk | command_books/kanna.py:47-61 | a walk holds the arrow key, sleeps once per poll and releases the key; it polls while the flag reads true, the player is still short of the target on that side, and fewer than 60 polls were made, and stops at the first check where one of these fails; each poll re-reads the position after the sleeps so far, and the flag is read once per check |
| Kanna.AxisGapBound | command_books/kanna.py:42-65 | while the player is more than the tolerance away, at least one axis gap is beyond tolerance / sqrt(2), so two rounds in a row cannot both skip their correction |
| Kanna.DropDownHeld | command_books/kanna.py:69-73 | the drop-down jump releases the down key it holds |
| Kanna.Adjust.constructor | command_books/kanna.py:33-36 | stores the target and the step budget, which is 5 when none is given |
| Kanna.Adjust.AlignX | command_books/kanna.py:43-62 | a horizontal round measures the x gap before sending anything and corrects exactly when it is beyond the threshold; a correction is a walk, holding left when the gap is negative and right otherwise, that stops as `Walk` says; without a correction nothing is sent and the flag is not read; every key is released at the end |
| Kanna.Adjust.AlignY | command_books/kanna.py:63-74 | a vertical round corrects exactly when the y gap is beyond the threshold: a teleport up when the target is above, the drop-down jump otherwise; the layout gains the player's position only for the teleport while recording |
| Kanna.Adjust.Pass | command_books/kanna.py:43-76 | one iteration, entered while the flag read true, the counter was positive and the player was more than the tolerance away, measures the axis the toggle picks and corrects exactly when its gap is beyond the threshold, sending exactly the events `AlignX` or `AlignY` describe; after an iteration that did not correct, this one does; the keys stay released, and the layout gains the teleport's position exactly when it teleported up while recording |
| Kanna.Adjust.Iterate | command_books/kanna.py:42-76 | one loop iteration with its bookkeeping: the round it adds keeps every fact of the rounds record, the counter drops by one exactly when the round corrected, the toggle flips, the flag is read again after the round's own reads, and the loop's measure (twice the counter, plus one unless the last round stalled) decreases |
| Kanna.Adjust.Execute | command_books/kanna.py:38-76 | the loop terminates; every round it ran was entered with the flag read true, a positive counter and the player more than the tolerance away, measured the axis the toggle picked (horizontal first, then alternating) at the position reached by the events sent before it, corrected exactly when the gap was beyond tolerance / sqrt(2), sent exactly the walk, teleport or drop-down of that correction, and spent one step exactly when it corrected; the trace is the rounds' events in order; the loop stops at the first check where the flag reads false, the counter is 0 or the player is within the tolerance; the counter stays within [0, max_steps]; every key is released; the layout gains exactly the positions reached by the teleports up, and only while recording |
| Kanna.RoundsAt | command_books/kanna.py:39-76 | the rounds record gives, for each round, how it was entered and what it did, that it follows the round before it on the other axis with that round's counter, flag reads and events, and that of two rounds in a row at least one corrected |
| Kanna.RoundsCount | command_books/kanna.py:39-76 | after any run of rounds the counter lies in [0, max_steps] and the rounds number at most twice the steps spent, plus one when the last round did not correct |
| Kanna.RoundsBound | command_books/kanna.py:39-76 | the loop runs at most 2 × max_steps rounds |
| Kanna.Buff.constructor | command_books/kanna.py:82-85 | both timestamps start at 0 |
| Kanna.Buff.Execute | command_books/kanna.py:87-97 | Haku (f4 then f3, twice each) is cast only when its time is 0 or more than 490 s have passed, and its time becomes `now`; f1 and f2 are pressed 3 times each, with up time 0.3, only when the buff cooldown has elapsed, and the buff time becomes `now` |
| Kanna.CastSettles | command_books/kanna.py:90-97 | right after a cast at a non-zero time, neither cast is due again at that time |
| Kanna.TeleportPresses | command_books/kanna.py:112-127 | a teleport presses `e` twice for up or down and 3 times otherwise; it presses `space` only when asked to jump, 3 times going down and once otherwise |
| Kanna.TeleportKeys | command_books/kanna.py:116-128 | a teleport sends exactly one key-down and one key-up of its direction and holds no other key |
| Kanna.TeleportHeld | command_books/kanna.py:116-128 | a teleport releases every key it holds |
| Kanna.TeleportOrder | command_books/kanna.py:116-126 | going up, the jump comes before the arrow key-down; in any other direction it comes after |
| Kanna.Teleport.constructor | command_books/kanna.py:106-109 | stores the direction and the jump flag, which is false when none is given |
| Kanna.Teleport.Execute | command_books/kanna.py:111-130 | the events are those of a teleport in the given direction; with `record_layout` exactly one position, the player's after the teleport, is appended to the layout, and otherwise the layout is unchanged |
| Kanna.ShikigamiFacts | command_books/kanna.py:142-152 | Shikigami requests attacks × max(0, repetitions) presses of `r` from the driver (`attacks` per volley, no volley when repetitions ≤ 0) and releases its arrow key |
| Kanna.Shikigami.constructor | command_books/kanna.py:136-140 | stores the horizontal direction, the attacks (2 when none are given) and the repetitions (1 when none are given) |
| Kanna.Shikigami.Execute | command_books/kanna.py:142-152 | holds the direction, sends max(0, repetitions) volleys of `r`, releases the direction, and sleeps 0.3 s after more than two attacks and 0.2 s otherwise |
| Kanna.Yaksha.constructor | command_books/kanna.py:168-173 | stores the optional horizontal direction, which is none when none is given |
| Kanna.Yaksha.Execute | command_books/kanna.py:175-183 | faces the given direction, or left when the player is right of centre and right otherwise, with one press; then presses `2` three times |
| Kanna.Exorcist.constructor | command_books/kanna.py:213-215 | stores the jump flag, which is false when none is given |
| Kanna.Exorcist.Execute | command_books/kanna.py:217-220 | presses `w` twice as the last event, after exactly one jump press when asked and nothing otherwise; it sends only these presses |
| Kanna.Vanquisher.Execute | command_books/kanna.py:189-193 | releases `f`, waits 0.075 s, holds `f` and waits 0.15 s, so it ends holding `f` whatever was held before |
| Kanna.Keystroke | command_books/kanna.py:155-262 | each single-press command (Tengu, Kishin, NineTails, Domain, Legion, BlossomBarrier, Yukimusume, Balance, Charm) sends one press of a non-arrow key, at least once |
| Kanna.KeystrokesDistinct | command_books/kanna.py:155-262 | no two single-press commands press the same key |

## Left out

- Screen grabbing, colour conversion, template loading and matching are foreign vision calls. Their results are the fields of `Frame`.
- `utils.distance` and `utils.convert_to_relative` are not modelled. The capture step takes them as parameters. The command book uses the squared Euclidean distance.
- Floating-point rounding is not modelled; positions are exact reals.
- `math.sqrt(2)` is not computed. `Adjust` takes the threshold as a parameter constrained by `IsThreshold`.
- `Capture._count` is not used anywhere and does not work as written, so there is no behaviour to model.
- The capture thread, its daemon start, and the `ready` handshakes in `main.py` are left out as concurrency. `main.py` is not part of this model.
- `time.sleep` is not timed: it is a `Sleep` event in the trace, or nothing in the capture loop.
- The GUI display keeps only the rune flag, rune position and player position. The minimap image, `path` and `minimap_sample` are left out.
- The vkeys input driver is not modelled; its calls are the trace events. `Presses` counts the presses a trace requests, with each `times` taken as given. What the driver does with a count that is zero or negative (`int(attacks)` is not checked) is not modelled.
- `Command.__init__(locals())` logging is left out.
- Constructor arguments arrive already converted. `float(x)`, `int(attacks)` and the string forms of booleans (`jump='False'`) are not parsed. The defaults are the converted values.
- `settings.validate_*` are not modelled. Their results are types: `Arrow` for the arrows, a `Horizontal` precondition for the horizontal arrows, `nat` for `max_steps`, and `bool` for jump flags.
- Frames are assumed non-empty (`height`, `width` > 0). The black-screen fraction divides by both.
- The routine is fixed during `Capture.Capture.Run`.
- Capture.Capture.Run: the model assumes no other thread writes `config.enabled`, `alert_active`, `rune_active` or `player_pos` between two passes. The claims that `enabled`, `alert_active` and `rune_active` change one way only therefore describe only the capture thread's own writes. In the program, the bot thread sets `rune_active` back to false after solving a rune, and only then can a later rune check fire again. The key listener also toggles `enabled`.
- `layout.py` is not part of this model. `Layout.add` is an append to a sequence of positions.
- Kanna.Adjust.Execute: termination and the bound of `Kanna.RoundsBound` are proved only for a player who does not move between two reads made with no input sent in between, because the position oracle is indexed by the events sent. In the program, the capture thread writes `config.player_pos` at any time. A position that changes between the reads of the two axes can make every round skip its correction, and the loop then has no bound.
- Kanna.Keystroke: its contract states that each command sends one press of a non-arrow key. The exact key, count and timings of each command are the cases of its definition.
