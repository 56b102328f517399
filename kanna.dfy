/** The Kanna command book: each command's `Execute` emits the key events it sends to the input
    driver, reading the player's position and the enabled flag from an environment oracle. */
module Kanna {
  import opened Geometry
  import opened Input

  /** The arrow directions the command book accepts. */
  datatype Arrow = Up | Down | Left | Right

  function ArrowKey(a: Arrow): Key {
    match a
    case Up => "up"
    case Down => "down"
    case Left => "left"
    case Right => "right"
  }

  predicate Horizontal(a: Arrow) {
    a == Left || a == Right
  }

  predicate Vertical(a: Arrow) {
    a == Up || a == Down
  }

  predicate IsArrowKey(k: Key) {
    k == "up" || k == "down" || k == "left" || k == "right"
  }

  datatype Option<T> = None | Some(value: T)

  /** The user settings the commands read. */
  datatype Settings = Settings(moveTolerance: real, adjustTolerance: real, buffCooldown: real, recordLayout: bool)

  /** What a command observes while it runs. `position(t)` is the player's position once the
      command has sent the events `t`, so the player moves only in response to input and waiting;
      `enabled(n)` is the value of the enabled flag at its `n`-th read. */
  datatype Env = Env(position: seq<Event> -> Pos, enabled: nat -> bool)
  {
    /** The player's position once `t` has been sent. */
    function Position(t: seq<Event>): Pos {
      position(t)
    }

    /** The enabled flag at its `n`-th read. */
    predicate Enabled(n: nat) {
      enabled(n)
    }
  }

  /** The environment seen by a command started after `prefix` had been sent. */
  function After(env: Env, prefix: seq<Event>): (e: Env)
    ensures forall t :: e.Position(t) == env.Position(prefix + t)
    ensures forall n :: e.Enabled(n) == env.Enabled(n)
  {
    Env(t => env.Position(prefix + t), env.enabled)
  }

  /** Seconds between two casts of Haku. */
  const HAKU_COOLDOWN: real := 490.0
  /** Polls of one horizontal walk in Adjust. */
  const MAX_WALK_POLLS: nat := 60
  /** The pause between two polls and around key holds. */
  const POLL: real := 0.05

  /** `threshold` stands for `tol / sqrt(2)`: it has the sign of `tol` and, for a non-negative
      `tol`, twice its square is at most the square of `tol`. The exact value meets this, and so
      does every rational value below it, such as a rounded-down `tol / sqrt(2)`. */
  predicate IsThreshold(threshold: real, tol: real) {
    && (threshold >= 0.0 <==> tol >= 0.0)
    && (tol >= 0.0 ==> 2.0 * threshold * threshold <= tol * tol)
  }

  /** A gap along one axis is beyond the threshold. */
  predicate Beyond(gap: real, threshold: real) {
    Abs(gap) > threshold
  }

  /** The player at `p` is more than `tol` away from `target`, written without the square root. */
  predicate Far(p: Pos, target: Pos, tol: real) {
    tol < 0.0 || SqDist(p, target) > tol * tol
  }

  /** When the player is more than `tol` away from the target, the gap along at least one
      axis is beyond `tol / sqrt(2)`. */
  lemma AxisGapBound(p: Pos, target: Pos, tol: real, threshold: real)
    requires IsThreshold(threshold, tol) && Far(p, target, tol)
    ensures Beyond(target.x - p.x, threshold) || Beyond(target.y - p.y, threshold)
  {
    if tol >= 0.0 && !Beyond(target.x - p.x, threshold) && !Beyond(target.y - p.y, threshold) {
      SquareMonotone(target.x - p.x, threshold);
      SquareMonotone(target.y - p.y, threshold);
    }
  }

  lemma SquareMonotone(r: real, bound: real)
    requires Abs(r) <= bound
    ensures r * r <= bound * bound
  {
  }

  /** The positions handed to the layout while it is being recorded. */
  class Layout {
    var points: seq<Pos>

    constructor ()
      ensures points == []
    {
      points := [];
    }

    method Add(p: Pos)
      modifies this
      ensures points == old(points) + [p]
    {
      points := points + [p];
    }
  }

  /** One movement step towards `target`; arrow keys are left to the caller. */
  method Step(direction: Arrow, target: Pos, env: Env, settings: Settings) returns (trace: seq<Event>)
    ensures |trace| > 0 && trace[|trace| - 1] == Tap("e", if Vertical(direction) then 1 else 2)
    ensures Presses(trace, "e") == if Vertical(direction) then 1 else 2
    ensures Presses(trace, "space")
         == if Abs(target.y - env.Position([]).y) > settings.moveTolerance * 1.5
            then (if direction == Down then 3 else if direction == Up then 1 else 0)
            else 0
    ensures forall i :: 0 <= i < |trace| ==> trace[i].Press? && (trace[i].key == "e" || trace[i].key == "space")
    ensures |trace| == if Presses(trace, "space") > 0 then 2 else 1
    ensures Presses(trace, "space") > 0 ==> trace[0] == Tap("space", Presses(trace, "space"))
  {
    var numPresses := 2;
    if direction == Up || direction == Down {
      numPresses := 1;
    }
    var dy := target.y - env.Position([]).y;
    trace := [];
    if Abs(dy) > settings.moveTolerance * 1.5 {
      if direction == Down {
        trace := [Tap("space", 3)];
      } else if direction == Up {
        trace := [Tap("space", 1)];
      }
    }
    PressesAppend(trace, [Tap("e", numPresses)], "e");
    PressesAppend(trace, [Tap("e", numPresses)], "space");
    trace := trace + [Tap("e", numPresses)];
  }

  /** A horizontal walk is still short of the target. */
  predicate StillFar(direction: Arrow, gap: real, threshold: real) {
    if direction == Left then gap < -threshold else gap > threshold
  }

  /** The gap to `target` along one axis, for the player at `p`. */
  function AxisGap(horizontal: bool, target: Pos, p: Pos): real {
    if horizontal then target.x - p.x else target.y - p.y
  }

  /** The arrow a horizontal correction walks with: left when the target lies to the left. */
  function WalkArrow(gap: real): Arrow {
    if gap < 0.0 then Left else Right
  }

  /** The events of a walk that polls `polls` times: hold the arrow, sleep once per poll, release it. */
  function WalkEvents(direction: Arrow, polls: nat): (t: seq<Event>)
    ensures |t| == polls + 2
  {
    [KeyDown(ArrowKey(direction))] + Repeat(Sleep(POLL), polls) + [KeyUp(ArrowKey(direction))]
  }

  /** The x gap a walk started after `before` tests at its `k`-th check: the one measured before
      the arrow went down for k = 0, the one read after k sleeps otherwise. */
  function WalkGap(direction: Arrow, target: Pos, env: Env, before: seq<Event>, k: nat): real {
    if k == 0 then target.x - env.Position(before).x
    else target.x - env.Position(before + [KeyDown(ArrowKey(direction))] + Repeat(Sleep(POLL), k)).x
  }

  /** A walk that reads the flag from index `checks0` on makes exactly `polls` polls: every check
      before them found the bot enabled and the player still short of the target, and the check
      after them found the polls used up, the bot disabled or the player no longer short. */
  ghost predicate WalkStops(direction: Arrow, target: Pos, threshold: real, env: Env, before: seq<Event>,
                            checks0: nat, polls: nat) {
    && polls <= MAX_WALK_POLLS
    && (forall n :: checks0 <= n < checks0 + polls ==> env.Enabled(n))
    && (forall k :: 0 <= k < polls ==> StillFar(direction, WalkGap(direction, target, env, before, k), threshold))
    && (polls == MAX_WALK_POLLS || !env.Enabled(checks0 + polls)
        || !StillFar(direction, WalkGap(direction, target, env, before, polls), threshold))
  }

  /** One horizontal walk of Adjust: hold the arrow, poll until close, disabled or out of polls,
      release the arrow. `before` is what Adjust has sent so far and `checks0` the number of
      reads of the enabled flag so far. */
  method Walk(direction: Arrow, target: Pos, threshold: real, env: Env, before: seq<Event>, checks0: nat)
    returns (walk: seq<Event>, polls: nat, checks: nat)
    requires Horizontal(direction)
    ensures walk == WalkEvents(direction, polls)
    ensures checks == checks0 + polls + 1
    ensures WalkStops(direction, target, threshold, env, before, checks0, polls)
  {
    var key := ArrowKey(direction);
    polls, checks := 0, checks0;
    var gap := target.x - env.Position(before).x;
    var on := env.Enabled(checks);
    checks := checks + 1;
    while on && StillFar(direction, gap, threshold) && polls < MAX_WALK_POLLS
      invariant polls <= MAX_WALK_POLLS
      invariant checks == checks0 + polls + 1
      invariant on == env.Enabled(checks - 1)
      invariant gap == WalkGap(direction, target, env, before, polls)
      invariant forall n :: checks0 <= n < checks - 1 ==> env.Enabled(n)
      invariant forall k :: 0 <= k < polls ==> StillFar(direction, WalkGap(direction, target, env, before, k), threshold)
    {
      polls := polls + 1;
      gap := target.x - env.Position(before + [KeyDown(key)] + Repeat(Sleep(POLL), polls)).x;
      on := env.Enabled(checks);
      checks := checks + 1;
    }
    walk := [KeyDown(key)] + Repeat(Sleep(POLL), polls) + [KeyUp(key)];
  }

  /** The events of one round of Adjust that measured `gap` on the axis `horizontal` once
      `before` had been sent and first reads the flag at `checks0`: nothing without a
      correction; horizontally, a walk towards the target that stops as `WalkStops` says;
      vertically, a teleport up when the target is above and the drop-down jump otherwise. */
  ghost predicate RoundMoves(horizontal: bool, gap: real, corrected: bool, moves: seq<Event>, target: Pos,
                             threshold: real, env: Env, before: seq<Event>, checks0: nat) {
    if !corrected then moves == []
    else if horizontal then
      && 2 <= |moves|
      && moves == WalkEvents(WalkArrow(gap), |moves| - 2)
      && WalkStops(WalkArrow(gap), target, threshold, env, before, checks0, |moves| - 2)
    else moves == if gap < 0.0 then TeleportTrace(Up, false) else DropDown()
  }

  /** One round of Adjust's loop: the axis it measured, the gap it found, whether it corrected,
      the counter and the index of the flag read it was entered with, the events sent before it
      and the events it sent. */
  datatype Round = Round(horizontal: bool, gap: real, corrected: bool, counter: nat, check: nat,
                         before: seq<Event>, moves: seq<Event>)
  {
    /** The reads of the flag the round makes itself: one per check of its walk. */
    function Reads(): nat {
      if horizontal && corrected && |moves| > 0 then |moves| - 1 else 0
    }

    function CounterAfter(): int {
      if corrected then counter - 1 else counter
    }

    /** The round teleported up, which records a position while the layout is being recorded. */
    predicate Teleported() {
      !horizontal && corrected && gap < 0.0
    }
  }

  /** Round `r` was entered as the loop condition demands (the flag read true, the counter was
      positive, the player was more than `tol` away) and did what the loop body does: measure
      the gap on its axis and correct exactly when it is beyond the threshold. */
  ghost predicate RoundTaken(r: Round, target: Pos, tol: real, threshold: real, env: Env) {
    && env.Enabled(r.check) && r.counter > 0 && Far(env.Position(r.before), target, tol)
    && r.gap == AxisGap(r.horizontal, target, env.Position(r.before))
    && r.corrected == Beyond(r.gap, threshold)
    && RoundMoves(r.horizontal, r.gap, r.corrected, r.moves, target, threshold, env, r.before, r.check + 1)
  }

  /** Round `b` comes right after round `a`: the other axis, the counter `a` left, the flag read
      after `a`'s own reads, and everything sent before and during `a`. */
  ghost predicate Follows(a: Round, b: Round) {
    && b.horizontal == !a.horizontal
    && b.counter == a.CounterAfter()
    && b.check == a.check + a.Reads() + 1
    && b.before == a.before + a.moves
  }

  /** The rounds of one run of Adjust's loop: each was taken as `RoundTaken` says; the first one
      is horizontal, with the whole step budget and the first read of the flag; every other one
      follows the one before it; and of two rounds in a row at least one corrected. */
  ghost predicate Rounds(rounds: seq<Round>, maxSteps: nat, target: Pos, tol: real, threshold: real, env: Env)
    decreases |rounds|
  {
    if rounds == [] then true
    else
      var init, r := rounds[..|rounds| - 1], rounds[|rounds| - 1];
      && Rounds(init, maxSteps, target, tol, threshold, env)
      && RoundTaken(r, target, tol, threshold, env)
      && (init == [] ==> r.horizontal && r.counter == maxSteps && r.check == 0 && r.before == [])
      && (init != [] ==> Follows(init[|init| - 1], r) && (init[|init| - 1].corrected || r.corrected))
  }

  /** What `Rounds` says about the round at index `i`. */
  lemma {:induction false} RoundsAt(rounds: seq<Round>, maxSteps: nat, target: Pos, tol: real, threshold: real,
                                    env: Env, i: nat)
    requires Rounds(rounds, maxSteps, target, tol, threshold, env) && i < |rounds|
    ensures RoundTaken(rounds[i], target, tol, threshold, env)
    ensures i == 0 ==>
              rounds[0].horizontal && rounds[0].counter == maxSteps && rounds[0].check == 0 && rounds[0].before == []
    ensures i > 0 ==> Follows(rounds[i - 1], rounds[i]) && (rounds[i - 1].corrected || rounds[i].corrected)
    decreases |rounds|
  {
    var init := rounds[..|rounds| - 1];
    if i < |init| {
      RoundsAt(init, maxSteps, target, tol, threshold, env, i);
      assert rounds[i] == init[i];
      if i > 0 {
        assert rounds[i - 1] == init[i - 1];
      }
    }
  }

  /** Every round but a stalled one spends a step, and no two rounds in a row stall: the rounds
      so far number at most twice the steps spent, plus one when the last round stalled. */
  lemma {:induction false} RoundsCount(rounds: seq<Round>, maxSteps: nat, target: Pos, tol: real, threshold: real,
                                       env: Env)
    requires Rounds(rounds, maxSteps, target, tol, threshold, env) && rounds != []
    ensures var last := rounds[|rounds| - 1];
            && 0 <= last.CounterAfter() <= maxSteps
            && |rounds| <= 2 * (maxSteps - last.CounterAfter()) + (if last.corrected then 0 else 1)
    decreases |rounds|
  {
    var init := rounds[..|rounds| - 1];
    if init != [] {
      RoundsCount(init, maxSteps, target, tol, threshold, env);
    }
  }

  /** Adjust's loop runs at most twice as many rounds as its step budget. */
  lemma RoundsBound(rounds: seq<Round>, maxSteps: nat, target: Pos, tol: real, threshold: real, env: Env)
    requires Rounds(rounds, maxSteps, target, tol, threshold, env)
    ensures |rounds| <= 2 * maxSteps
  {
    if rounds != [] {
      RoundsCount(rounds, maxSteps, target, tol, threshold, env);
    }
  }

  /** The positions the teleports of `rounds` add to the layout. */
  function Recorded(rounds: seq<Round>, env: Env, recording: bool): (points: seq<Pos>)
    ensures !recording ==> points == []
    ensures |points| <= |rounds|
  {
    if rounds == [] then []
    else
      var r := rounds[|rounds| - 1];
      Recorded(rounds[..|rounds| - 1], env, recording)
        + (if recording && r.Teleported() then [env.Position(r.before + r.moves)] else [])
  }

  /** The jump down Adjust makes when the target is below. */
  function DropDown(): seq<Event> {
    [KeyDown("down"), Sleep(POLL), Press("space", 3, Secs(0.1), DriverDefault), KeyUp("down"), Sleep(POLL)]
  }

  lemma DropDownHeld()
    ensures Held({}, DropDown()) == {}
  {
  }

  /** Fine-tunes the player's position with small movements. */
  class Adjust {
    const target: Pos
    const maxSteps: nat

    constructor (x: real, y: real, maxSteps: nat := 5)
      ensures target == Pos(x, y) && this.maxSteps == maxSteps
    {
      target := Pos(x, y);
      this.maxSteps := maxSteps;
    }

    /** A horizontal round: when the gap is beyond the threshold, walk towards the target. */
    method AlignX(env: Env, threshold: real, before: seq<Event>, checks0: nat)
      returns (moves: seq<Event>, gap: real, corrected: bool, checks: nat)
      ensures gap == AxisGap(true, target, env.Position(before))
      ensures corrected == Beyond(gap, threshold)
      ensures RoundMoves(true, gap, corrected, moves, target, threshold, env, before, checks0)
      ensures checks == checks0 + (if corrected then |moves| - 1 else 0)
      ensures Held({}, moves) == {}
    {
      moves, corrected, checks := [], false, checks0;
      gap := target.x - env.Position(before).x;
      if Abs(gap) > threshold {
        var polls;
        if gap < 0.0 {
          moves, polls, checks := Walk(Left, target, threshold, env, before, checks);
        } else {
          moves, polls, checks := Walk(Right, target, threshold, env, before, checks);
        }
        HeldBracket({}, moves[0].key, Repeat(Sleep(POLL), polls));
        corrected := true;
      }
    }

    /** A vertical round: when the gap is beyond the threshold, teleport up or jump down. */
    method AlignY(env: Env, settings: Settings, threshold: real, layout: Layout, before: seq<Event>)
      returns (moves: seq<Event>, gap: real, corrected: bool)
      modifies layout
      ensures gap == AxisGap(false, target, env.Position(before))
      ensures corrected == Beyond(gap, threshold)
      ensures moves == if !corrected then [] else if gap < 0.0 then TeleportTrace(Up, false) else DropDown()
      ensures layout.points
           == old(layout.points)
            + (if settings.recordLayout && corrected && gap < 0.0 then [env.Position(before + moves)] else [])
      ensures Held({}, moves) == {}
    {
      moves, corrected := [], false;
      gap := target.y - env.Position(before).y;
      if Abs(gap) > threshold {
        if gap < 0.0 {
          var teleport := new Teleport(Up);
          moves := teleport.Execute(After(env, before), settings, layout);
          TeleportHeld(Up, false);
        } else {
          moves := DropDown();
          DropDownHeld();
        }
        corrected := true;
      }
    }

    /** One pass through the body of the correction loop, entered at flag read `checks0 - 1`
        with `counter` steps left while the player is more than the tolerance away: a
        horizontal round when `toggle` is set, a vertical one otherwise. After a round that did
        not correct (`stalled`), this one does. */
    method Pass(toggle: bool, counter: nat, env: Env, settings: Settings, threshold: real, layout: Layout,
                 trace: seq<Event>, checks0: nat, ghost stalled: bool)
      returns (r: Round, checks: nat)
      requires IsThreshold(threshold, settings.adjustTolerance)
      requires counter > 0 && checks0 > 0 && env.Enabled(checks0 - 1)
      requires Far(env.Position(trace), target, settings.adjustTolerance)
      requires stalled ==> !Beyond(AxisGap(!toggle, target, env.Position(trace)), threshold)
      requires Held({}, trace) == {}
      modifies layout
      ensures r.horizontal == toggle && r.counter == counter && r.check == checks0 - 1 && r.before == trace
      ensures RoundTaken(r, target, settings.adjustTolerance, threshold, env)
      ensures checks == checks0 + r.Reads()
      ensures stalled ==> r.corrected
      ensures Held({}, trace + r.moves) == {}
      ensures layout.points
           == old(layout.points) + (if settings.recordLayout && r.Teleported() then [env.Position(trace + r.moves)] else [])
    {
      AxisGapBound(env.Position(trace), target, settings.adjustTolerance, threshold);
      var moves, gap, corrected;
      if toggle {
        moves, gap, corrected, checks := AlignX(env, threshold, trace, checks0);
      } else {
        moves, gap, corrected := AlignY(env, settings, threshold, layout, trace);
        checks := checks0;
      }
      HeldAppend({}, trace, moves);
      r := Round(toggle, gap, corrected, counter, checks0 - 1, trace, moves);
    }

    /** The correction loop. `threshold` is the adjust tolerance divided by the square root
        of two. Besides the events it returns the counter it ended with, the record of its
        rounds and how often it read the enabled flag. */
    method Execute(env: Env, settings: Settings, threshold: real, layout: Layout)
      returns (trace: seq<Event>, counter: nat, rounds: seq<Round>, checks: nat)
      requires IsThreshold(threshold, settings.adjustTolerance)
      modifies layout
      ensures Rounds(rounds, maxSteps, target, settings.adjustTolerance, threshold, env)
      ensures rounds == [] ==> trace == [] && counter == maxSteps && checks == 1
      ensures rounds != [] ==>
                var last := rounds[|rounds| - 1];
                && trace == last.before + last.moves && counter == last.CounterAfter()
                && checks == last.check + last.Reads() + 2
      ensures !env.Enabled(checks - 1) || counter == 0 || !Far(env.Position(trace), target, settings.adjustTolerance)
      ensures counter <= maxSteps
      ensures Held({}, trace) == {}
      ensures layout.points == old(layout.points) + Recorded(rounds, env, settings.recordLayout)
    {
      var tol := settings.adjustTolerance;
      counter := maxSteps;
      var toggle := true;
      trace, rounds := [], [];
      var on := env.Enabled(0);
      checks := 1;
      ghost var stalled := false;
      while on && counter > 0 && Far(env.Position(trace), target, tol)
        invariant Loop(rounds, trace, counter, checks, toggle, stalled, maxSteps, target, tol, threshold, env)
        invariant on == env.Enabled(checks - 1)
        invariant Held({}, trace) == {}
        invariant layout.points == old(layout.points) + Recorded(rounds, env, settings.recordLayout)
        decreases 2 * counter + (if stalled then 0 else 1)
      {
        trace, counter, rounds, checks, toggle, on, stalled :=
          Iterate(env, settings, threshold, layout, trace, counter, rounds, checks, toggle, stalled, old(layout.points));
      }
    }

    /** One pass through the loop body, from a state `Loop` describes in which the loop
        condition held; it brings the loop's measure down. */
    method Iterate(env: Env, settings: Settings, threshold: real, layout: Layout, trace: seq<Event>, counter: nat,
                   rounds: seq<Round>, checks: nat, toggle: bool, ghost stalled: bool, ghost start: seq<Pos>)
      returns (trace': seq<Event>, counter': nat, rounds': seq<Round>, checks': nat, toggle': bool, on': bool,
               ghost stalled': bool)
      requires IsThreshold(threshold, settings.adjustTolerance)
      requires Loop(rounds, trace, counter, checks, toggle, stalled, maxSteps, target, settings.adjustTolerance,
                    threshold, env)
      requires env.Enabled(checks - 1) && counter > 0 && Far(env.Position(trace), target, settings.adjustTolerance)
      requires Held({}, trace) == {}
      requires layout.points == start + Recorded(rounds, env, settings.recordLayout)
      modifies layout
      ensures Loop(rounds', trace', counter', checks', toggle', stalled', maxSteps, target, settings.adjustTolerance,
                   threshold, env)
      ensures on' == env.Enabled(checks' - 1)
      ensures Held({}, trace') == {}
      ensures layout.points == start + Recorded(rounds', env, settings.recordLayout)
      ensures 2 * counter' + (if stalled' then 0 else 1) < 2 * counter + (if stalled then 0 else 1)
    {
      var r, next := Pass(toggle, counter, env, settings, threshold, layout, trace, checks, stalled);
      counter' := if r.corrected then counter - 1 else counter;
      trace' := trace + r.moves;
      rounds' := rounds + [r];
      toggle' := !toggle;
      checks' := next + 1;
      on' := env.Enabled(checks' - 1);
      stalled' := !r.corrected;
      LoopStep(rounds, trace, counter, checks, toggle, stalled, r, maxSteps, target, settings.adjustTolerance,
               threshold, env, rounds', trace', counter', checks');
    }
  }

  /** What Adjust's loop keeps between two rounds: the rounds so far, and the trace, counter,
      flag reads and toggle they leave; `stalled` says that the last round did not correct, and
      then the next one will. */
  ghost predicate Loop(rounds: seq<Round>, trace: seq<Event>, counter: nat, checks: nat, toggle: bool, stalled: bool,
                       maxSteps: nat, target: Pos, tol: real, threshold: real, env: Env) {
    && Rounds(rounds, maxSteps, target, tol, threshold, env)
    && (rounds == [] ==> trace == [] && counter == maxSteps && checks == 1 && toggle && !stalled)
    && (rounds != [] ==>
          var last := rounds[|rounds| - 1];
          && trace == last.before + last.moves && counter == last.CounterAfter()
          && checks == last.check + last.Reads() + 2 && toggle == !last.horizontal
          && stalled == !last.corrected)
    && checks > 0
    && counter <= maxSteps
    && (stalled ==> !Beyond(AxisGap(!toggle, target, env.Position(trace)), threshold))
  }

  /** A round taken as the loop body takes it, followed by the loop's bookkeeping, keeps
      `Loop`, and adds its teleport's position to the recorded ones. */
  lemma LoopStep(rounds: seq<Round>, trace: seq<Event>, counter: nat, checks: nat, toggle: bool, stalled: bool,
                 r: Round, maxSteps: nat, target: Pos, tol: real, threshold: real, env: Env,
                 rounds': seq<Round>, trace': seq<Event>, counter': nat, checks': nat)
    requires Loop(rounds, trace, counter, checks, toggle, stalled, maxSteps, target, tol, threshold, env)
    requires RoundTaken(r, target, tol, threshold, env)
    requires r.horizontal == toggle && r.counter == counter && r.check == checks - 1 && r.before == trace
    requires stalled ==> r.corrected
    requires rounds' == rounds + [r] && trace' == trace + r.moves
    requires counter' == (if r.corrected then counter - 1 else counter) && checks' == checks + r.Reads() + 1
    ensures Loop(rounds', trace', counter', checks', !toggle, !r.corrected, maxSteps, target, tol, threshold, env)
    ensures forall start: seq<Pos>, recording: bool ::
              start + Recorded(rounds', env, recording)
              == start + Recorded(rounds, env, recording)
               + (if recording && r.Teleported() then [env.Position(trace')] else [])
  {
    assert rounds'[..|rounds|] == rounds;
    if !r.corrected {
      assert r.moves == [] && trace + r.moves == trace;
    }
  }

  predicate HakuDue(hakuTime: real, now: real) {
    hakuTime == 0.0 || now - hakuTime > HAKU_COOLDOWN
  }

  predicate BuffDue(buffTime: real, now: real, cooldown: real) {
    buffTime == 0.0 || now - buffTime > cooldown
  }

  /** Right after a cast at a non-zero time `now`, neither Haku nor the buffs are due again at
      that time, for any non-negative cooldown. */
  lemma CastSettles(now: real, cooldown: real)
    requires now != 0.0 && cooldown >= 0.0
    ensures !HakuDue(now, now) && !BuffDue(now, now, cooldown)
  {
  }

  /** Kanna's buffs, with the times they were last cast. */
  class Buff {
    var hakuTime: real
    var buffTime: real

    constructor ()
      ensures hakuTime == 0.0 && buffTime == 0.0
    {
      hakuTime, buffTime := 0.0, 0.0;
    }

    /** Casts whatever is due at time `now`. */
    method Execute(now: real, settings: Settings) returns (trace: seq<Event>)
      modifies this
      ensures hakuTime == if HakuDue(old(hakuTime), now) then now else old(hakuTime)
      ensures buffTime == if BuffDue(old(buffTime), now, settings.buffCooldown) then now else old(buffTime)
      ensures trace == (if HakuDue(old(hakuTime), now) then [Tap("f4", 2), Tap("f3", 2)] else [])
                     + (if BuffDue(old(buffTime), now, settings.buffCooldown)
                        then [Press("f1", 3, DriverDefault, Secs(0.3)), Press("f2", 3, DriverDefault, Secs(0.3))]
                        else [])
    {
      var buffs := ["f1", "f2"];
      trace := [];
      if hakuTime == 0.0 || now - hakuTime > HAKU_COOLDOWN {
        trace := trace + [Tap("f4", 2)] + [Tap("f3", 2)];
        hakuTime := now;
      }
      if buffTime == 0.0 || now - buffTime > settings.buffCooldown {
        ghost var before := trace;
        for i := 0 to |buffs|
          invariant trace == before + seq(i, j requires 0 <= j < i => Press(buffs[j], 3, DriverDefault, Secs(0.3)))
        {
          trace := trace + [Press(buffs[i], 3, DriverDefault, Secs(0.3))];
        }
        buffTime := now;
      }
    }
  }

  predicate IsJump(e: Event) {
    e.Press? && e.key == "space"
  }

  /** The jump a teleport starts with, if asked for. */
  function Hops(direction: Arrow, jump: bool): seq<Event> {
    if !jump then []
    else if direction == Down then [Press("space", 3, Secs(0.1), DriverDefault)]
    else [Tap("space", 1)]
  }

  /** What a teleport sends before it holds the arrow key. */
  function BeforeHold(direction: Arrow, jump: bool): seq<Event> {
    if direction == Up then [Sleep(POLL)] + Hops(direction, jump) else [Sleep(POLL)]
  }

  /** What a teleport sends while it holds the arrow key. */
  function WhileHeld(direction: Arrow, jump: bool): seq<Event> {
    var n := if Vertical(direction) then 2 else 3;
    if direction == Up then [Sleep(POLL), Tap("e", n)] else [Sleep(POLL)] + Hops(direction, jump) + [Tap("e", n)]
  }

  /** The events of one teleport. */
  function TeleportTrace(direction: Arrow, jump: bool): seq<Event> {
    BeforeHold(direction, jump) + [KeyDown(ArrowKey(direction))] + WhileHeld(direction, jump)
      + [KeyUp(ArrowKey(direction))]
  }

  lemma HopsFacts(direction: Arrow, jump: bool)
    ensures forall i :: 0 <= i < |Hops(direction, jump)| ==> IsJump(Hops(direction, jump)[i])
    ensures Presses(Hops(direction, jump), "e") == 0
    ensures Presses(Hops(direction, jump), "space") == if !jump then 0 else if direction == Down then 3 else 1
  {
  }

  /** A teleport presses the teleport key twice for a vertical and three times for a
      horizontal direction, and jumps only when asked: three times going down, once otherwise. */
  lemma TeleportPresses(direction: Arrow, jump: bool, key: Key)
    requires key == "e" || key == "space"
    ensures Presses(TeleportTrace(direction, jump), key)
         == if key == "e" then (if Vertical(direction) then 2 else 3)
            else if !jump then 0 else if direction == Down then 3 else 1
  {
    var arrow := ArrowKey(direction);
    var n := if Vertical(direction) then 2 else 3;
    var hops := Hops(direction, jump);
    HopsFacts(direction, jump);
    PressesSingle(Sleep(POLL), key);
    PressesSingle(Tap("e", n), key);
    PressesSingle(KeyDown(arrow), key);
    PressesSingle(KeyUp(arrow), key);
    PressesAppend(BeforeHold(direction, jump) + [KeyDown(arrow)] + WhileHeld(direction, jump), [KeyUp(arrow)], key);
    PressesSplit(BeforeHold(direction, jump), [KeyDown(arrow)], WhileHeld(direction, jump), key);
    if direction == Up {
      PressesAppend([Sleep(POLL)], hops, key);
      PressesAppend([Sleep(POLL)], [Tap("e", n)], key);
    } else {
      PressesSplit([Sleep(POLL)], hops, [Tap("e", n)], key);
    }
  }

  /** Around its arrow key, a teleport sends only presses and sleeps. */
  lemma TeleportNeutral(direction: Arrow, jump: bool)
    ensures forall i :: 0 <= i < |BeforeHold(direction, jump)| ==> Neutral(BeforeHold(direction, jump)[i])
    ensures forall i :: 0 <= i < |WhileHeld(direction, jump)| ==> Neutral(WhileHeld(direction, jump)[i])
  {
  }

  /** A teleport holds and releases its arrow key exactly once and touches no other key. */
  lemma TeleportKeys(direction: Arrow, jump: bool)
    ensures var t, arrow := TeleportTrace(direction, jump), ArrowKey(direction);
            && multiset(t)[KeyDown(arrow)] == 1
            && multiset(t)[KeyUp(arrow)] == 1
            && forall i :: 0 <= i < |t| && (t[i].KeyDown? || t[i].KeyUp?) ==> t[i].key == arrow
  {
    TeleportNeutral(direction, jump);
    BracketKeys(BeforeHold(direction, jump), ArrowKey(direction), WhileHeld(direction, jump));
  }

  /** A teleport ends with every key released. */
  lemma TeleportHeld(direction: Arrow, jump: bool)
    ensures Held({}, TeleportTrace(direction, jump)) == {}
  {
    var arrow := ArrowKey(direction);
    var before, middle := BeforeHold(direction, jump), WhileHeld(direction, jump);
    TeleportNeutral(direction, jump);
    assert TeleportTrace(direction, jump) == before + ([KeyDown(arrow)] + middle + [KeyUp(arrow)]);
    HeldAppend({}, before, [KeyDown(arrow)] + middle + [KeyUp(arrow)]);
    HeldNeutral({}, before);
    HeldBracket({}, arrow, middle);
  }

  /** Going up, a teleport jumps before it holds the arrow key; in any other direction it
      jumps while holding it. */
  lemma TeleportOrder(direction: Arrow, jump: bool)
    ensures var t, d := TeleportTrace(direction, jump), |BeforeHold(direction, jump)|;
            && d < |t| && t[d] == KeyDown(ArrowKey(direction))
            && forall j :: 0 <= j < |t| && IsJump(t[j]) ==> (j < d <==> direction == Up)
  {
  }

  /** Teleports in a direction, jumping first if asked, and records the position when the
      layout is being recorded. */
  class Teleport {
    const direction: Arrow
    const jump: bool

    constructor (direction: Arrow, jump: bool := false)
      ensures this.direction == direction && this.jump == jump
    {
      this.direction := direction;
      this.jump := jump;
    }

    method Execute(env: Env, settings: Settings, layout: Layout) returns (trace: seq<Event>)
      modifies layout
      ensures trace == TeleportTrace(direction, jump)
      ensures layout.points == old(layout.points) + (if settings.recordLayout then [env.Position(trace)] else [])
    {
      var key := ArrowKey(direction);
      var numPresses := 3;
      trace := [Sleep(POLL)];
      if direction == Up || direction == Down {
        numPresses := 2;
      }
      if direction != Up {
        trace := trace + [KeyDown(key), Sleep(POLL)];
      }
      if jump {
        if direction == Down {
          trace := trace + [Press("space", 3, Secs(0.1), DriverDefault)];
        } else {
          trace := trace + [Tap("space", 1)];
        }
      }
      if direction == Up {
        trace := trace + [KeyDown(key), Sleep(POLL)];
      }
      trace := trace + [Tap("e", numPresses), KeyUp(key)];
      if settings.recordLayout {
        layout.Add(env.Position(trace));
      }
    }
  }

  /** One Shikigami Haunting volley: `attacks` presses of the attack key. */
  function Volley(attacks: int): Event {
    Press("r", attacks, DriverDefault, Secs(0.05))
  }

  /** The events of one Shikigami command: hold the direction, attack `repetitions` times
      (none when it is not positive), release, and wait longer after more than two attacks. */
  function ShikigamiTrace(direction: Arrow, attacks: int, repetitions: int): seq<Event> {
    var key := ArrowKey(direction);
    [Sleep(POLL)] + ([KeyDown(key)] + ([Sleep(POLL)] + Repeat(Volley(attacks), Max(0, repetitions))) + [KeyUp(key)])
      + [Sleep(if attacks > 2 then 0.3 else 0.2)]
  }

  /** Shikigami requests `attacks` presses per volley over `max(0, repetitions)` volleys, and
      leaves its arrow key released. */
  lemma ShikigamiFacts(direction: Arrow, attacks: int, repetitions: int)
    ensures Presses(ShikigamiTrace(direction, attacks, repetitions), "r") == attacks * Max(0, repetitions)
    ensures Held({}, ShikigamiTrace(direction, attacks, repetitions)) == {}
  {
    var key := ArrowKey(direction);
    var volley := Repeat(Volley(attacks), Max(0, repetitions));
    var pause := if attacks > 2 then 0.3 else 0.2;
    var bracket := [KeyDown(key)] + ([Sleep(POLL)] + volley) + [KeyUp(key)];
    HeldAppend({}, [Sleep(POLL)], bracket);
    HeldAppend({}, [Sleep(POLL)] + bracket, [Sleep(pause)]);
    HeldNeutral({}, [Sleep(POLL)]);
    HeldBracket({}, key, [Sleep(POLL)] + volley);
    assert Held({}, [Sleep(pause)]) == {} by {
      HeldNeutral({}, [Sleep(pause)]);
    }

    PressesRepeat(Volley(attacks), Max(0, repetitions), "r");
    PressesSplit([Sleep(POLL)], bracket, [Sleep(pause)], "r");
    PressesSplit([KeyDown(key)], [Sleep(POLL)] + volley, [KeyUp(key)], "r");
    PressesAppend([Sleep(POLL)], volley, "r");
    PressesSingle(Sleep(POLL), "r");
    PressesSingle(Sleep(pause), "r");
    PressesSingle(KeyDown(key), "r");
    PressesSingle(KeyUp(key), "r");
  }

  /** Attacks with Shikigami Haunting towards a horizontal direction. */
  class Shikigami {
    const direction: Arrow
    const attacks: int
    const repetitions: int

    constructor (direction: Arrow, attacks: int := 2, repetitions: int := 1)
      requires Horizontal(direction)
      ensures this.direction == direction && this.attacks == attacks && this.repetitions == repetitions
    {
      this.direction := direction;
      this.attacks := attacks;
      this.repetitions := repetitions;
    }

    method Execute() returns (trace: seq<Event>)
      ensures trace == ShikigamiTrace(direction, attacks, repetitions)
    {
      var key := ArrowKey(direction);
      trace := [Sleep(POLL), KeyDown(key), Sleep(POLL)];
      ghost var start := trace;
      var i := 0;
      while i < repetitions
        invariant 0 <= i <= Max(0, repetitions)
        invariant trace == start + Repeat(Volley(attacks), i)
      {
        trace := trace + [Volley(attacks)];
        i := i + 1;
      }
      trace := trace + [KeyUp(key)];
      if attacks > 2 {
        trace := trace + [Sleep(0.3)];
      } else {
        trace := trace + [Sleep(0.2)];
      }
    }
  }

  /** Places Ghost Yaksha Boss in a direction, or towards the centre of the map when none is given. */
  class Yaksha {
    const direction: Option<Arrow>

    constructor (direction: Option<Arrow> := None)
      requires direction.Some? ==> Horizontal(direction.value)
      ensures this.direction == direction
    {
      this.direction := direction;
    }

    method Execute(env: Env) returns (trace: seq<Event>)
      ensures |trace| == 2
      ensures trace[0].Press? && trace[0].times == 1 && trace[0].down == Secs(0.1) && trace[0].up == Secs(0.05)
      ensures direction.Some? ==> trace[0].key == ArrowKey(direction.value)
      ensures direction.None? ==> trace[0].key == if env.Position([]).x > 0.5 then "left" else "right"
      ensures trace[1] == Tap("2", 3)
    {
      var face: Key;
      if direction.Some? {
        face := ArrowKey(direction.value);
      } else if env.Position([]).x > 0.5 {
        face := "left";
      } else {
        face := "right";
      }
      trace := [Press(face, 1, Secs(0.1), Secs(0.05)), Tap("2", 3)];
    }
  }

  /** Uses Exorcist's Charm once, jumping first if asked. */
  class Exorcist {
    const jump: bool

    constructor (jump: bool := false)
      ensures this.jump == jump
    {
      this.jump := jump;
    }

    method Execute() returns (trace: seq<Event>)
      ensures Presses(trace, "w") == 2
      ensures Presses(trace, "space") == if jump then 1 else 0
      ensures trace[|trace| - 1] == Press("w", 2, DriverDefault, Secs(0.05))
      ensures jump ==> trace[0] == Press("space", 1, Secs(0.1), Secs(0.15))
      ensures forall i :: 0 <= i < |trace| ==> trace[i].Press?
      ensures |trace| == if jump then 2 else 1
    {
      trace := [];
      if jump {
        trace := [Press("space", 1, Secs(0.1), Secs(0.15))];
      }
      PressesAppend(trace, [Press("w", 2, DriverDefault, Secs(0.05))], "w");
      PressesAppend(trace, [Press("w", 2, DriverDefault, Secs(0.05))], "space");
      trace := trace + [Press("w", 2, DriverDefault, Secs(0.05))];
    }
  }

  /** Holds Vanquisher's Charm down until the command is called again. */
  class Vanquisher {
    constructor ()
    {
    }

    method Execute() returns (trace: seq<Event>)
      ensures |trace| == 4 && trace[0] == KeyUp("f")
      ensures trace[1..] == [Sleep(0.075), KeyDown("f"), Sleep(0.15)]
      ensures forall held :: Held(held, trace) == held + {"f"}
      ensures forall held :: Held(held, trace[..1]) == held - {"f"}
    {
      trace := [KeyUp("f"), Sleep(0.075), KeyDown("f"), Sleep(0.15)];
      forall held: set<Key>
        ensures Held(held, trace) == held + {"f"}
        ensures Held(held, trace[..1]) == held - {"f"}
      {
        assert trace == [KeyUp("f")] + [Sleep(0.075)] + [KeyDown("f")] + [Sleep(0.15)];
        HeldAppend(held, [KeyUp("f")] + [Sleep(0.075)] + [KeyDown("f")], [Sleep(0.15)]);
        HeldAppend(held, [KeyUp("f")] + [Sleep(0.075)], [KeyDown("f")]);
        HeldAppend(held, [KeyUp("f")], [Sleep(0.075)]);
        assert [KeyUp("f")][1..] == [] && [Sleep(0.075)][1..] == [];
        assert [KeyDown("f")][1..] == [] && [Sleep(0.15)][1..] == [];
        assert trace[..1] == [KeyUp("f")];
      }
    }
  }

  /** The commands that press one key once: Tengu, Kishin, NineTails, Domain, Legion,
      BlossomBarrier, Yukimusume, Balance and Charm. */
  datatype Skill = Tengu | Kishin | NineTails | Domain | Legion | BlossomBarrier | Yukimusume | Balance | Charm

  /** The single press each of those commands sends. */
  function Keystroke(s: Skill): (e: Event)
    ensures e.Press? && e.times >= 1 && !IsArrowKey(e.key)
  {
    match s
    case Tengu => Tap("q", 1)
    case Kishin => Press("ctrl", 4, Secs(0.1), Secs(0.15))
    case NineTails => Tap("3", 3)
    case Domain => Tap("z", 3)
    case Legion => Press("5", 2, Secs(0.1), DriverDefault)
    case BlossomBarrier => Tap("g", 2)
    case Yukimusume => Tap("c", 2)
    case Balance => Tap("lshift", 2)
    case Charm => Tap("d", 2)
  }

  /** No two single-press commands share a key. */
  lemma KeystrokesDistinct(a: Skill, b: Skill)
    requires Keystroke(a).key == Keystroke(b).key
    ensures a == b
  {
  }
}
