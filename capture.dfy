/** The capture loop: calibration of the minimap box, the two alert rules, tracking of the
    player's position and the throttled rune detection, one captured frame at a time. */
module Capture {
  import opened Geometry

  /** Distance from the top of the screen to the top of the minimap. */
  const MINIMAP_TOP_BORDER: int := 21
  /** Thickness of the other three borders of the minimap. */
  const MINIMAP_BOTTOM_BORDER: int := 8
  /** Neither coordinate of the minimap's bottom-right corner is taken below this. */
  const MINIMAP_MIN_CORNER: int := 75
  /** A frame whose dark-pixel fraction exceeds this counts as a black screen. */
  const BLACK_SCREEN_FRACTION: real := 0.95
  /** Rune detection is attempted on one frame in this many. */
  const RUNE_CHECK_PERIOD: int := 100

  /** An entry of the routine's sequence: a waypoint, or some other routine component. */
  datatype Component = Point(location: Pos) | OtherComponent

  /** A distance to the rune, or +infinity for an entry that is not a Point. */
  datatype Distance = Finite(value: real) | Infinity

  predicate AtMost(a: Distance, b: Distance) {
    b.Infinity? || (a.Finite? && a.value <= b.value)
  }

  /** What the vision collaborators report about one captured frame. */
  datatype Frame = Frame(
    corner: Pixel,               // bottom-right of the best match of the minimap corner template
    darkPixels: nat,             // number of gray pixels below 15
    height: nat,
    width: nat,
    eliteMatched: bool,          // the elite warning matched in the centre of the frame
    playerMatches: seq<Pixel>,   // matches of the player symbol in the minimap
    runeMatches: seq<Pixel>)     // matches of the rune symbol in the colour-filtered minimap

  /** What the loop publishes for the GUI to poll (the minimap image and the path are left out). */
  datatype Display = NoDisplay | Display(runeActive: bool, runePos: Pos, playerPos: Pos)

  /** The capture object's fields, the loop's rune counter and the shared fields it reads or writes. */
  datatype State = State(
    calibrated: bool,
    topLeft: Pixel,
    bottomRight: Pixel,
    ratio: real,
    runeCounter: int,
    ready: bool,
    enabled: bool,
    alertActive: bool,
    playerPos: Pos,
    runeActive: bool,
    runePos: Pos,
    runeClosestPos: Pos,
    display: Display)

  /** The outcome of one cycle; `crashed` when it raised, which ends the capture thread. */
  datatype Result = Result(state: State, crashed: bool)

  /** The minimap's bottom-right corner, from the bottom-right of the matched corner template. */
  function MinimapCorner(br: Pixel): (c: Pixel)
    ensures c.col >= MINIMAP_MIN_CORNER && c.row >= MINIMAP_MIN_CORNER
    ensures c.col >= br.col - MINIMAP_BOTTOM_BORDER && c.row >= br.row - MINIMAP_BOTTOM_BORDER
    ensures c.col == MINIMAP_MIN_CORNER || c.col == br.col - MINIMAP_BOTTOM_BORDER
    ensures c.row == MINIMAP_MIN_CORNER || c.row == br.row - MINIMAP_BOTTOM_BORDER
  {
    Pixel(Max(MINIMAP_MIN_CORNER, br.col - MINIMAP_BOTTOM_BORDER),
          Max(MINIMAP_MIN_CORNER, br.row - MINIMAP_BOTTOM_BORDER))
  }

  /** Width over height of the box from `tl` to `br`. */
  function Ratio(tl: Pixel, br: Pixel): real
    requires br.row > tl.row
  {
    (br.col - tl.col) as real / (br.row - tl.row) as real
  }

  /** The ratio scales the box's height to its width, and is positive for a box of positive width. */
  lemma RatioScales(tl: Pixel, br: Pixel)
    requires br.row > tl.row
    ensures Ratio(tl, br) * (br.row - tl.row) as real == (br.col - tl.col) as real
    ensures br.col > tl.col ==> Ratio(tl, br) > 0.0
  {
  }

  /** The calibration branch: the box is fixed from the matched corner and the flag is set. */
  function Calibrate(s: State, corner: Pixel): (r: State)
    ensures r.calibrated
    ensures r.topLeft == Pixel(MINIMAP_BOTTOM_BORDER, MINIMAP_TOP_BORDER)
    ensures r.bottomRight == MinimapCorner(corner)
    ensures r.bottomRight.row - r.topLeft.row >= 54 && r.bottomRight.col - r.topLeft.col >= 67
    ensures r.ratio == Ratio(r.topLeft, r.bottomRight) && r.ratio > 0.0
    ensures r == s.(calibrated := true, topLeft := r.topLeft, bottomRight := r.bottomRight, ratio := r.ratio)
  {
    var tl := Pixel(MINIMAP_BOTTOM_BORDER, MINIMAP_TOP_BORDER);
    var br := MinimapCorner(corner);
    RatioScales(tl, br);
    s.(calibrated := true, topLeft := tl, bottomRight := br, ratio := Ratio(tl, br))
  }

  /** The black-screen test: the fraction of dark pixels exceeds 0.95. */
  predicate MostlyBlack(f: Frame)
    requires f.height > 0 && f.width > 0
  {
    f.darkPixels as real / f.height as real / f.width as real > BLACK_SCREEN_FRACTION
  }

  /** One "alert and disable" rule: (enabled, alertActive) after it. */
  function AlertRule(enabled: bool, alertActive: bool, triggered: bool): (bool, bool) {
    if enabled && !alertActive && triggered then (false, true) else (enabled, alertActive)
  }

  /** The position published for the player: that of the first match, if there is one. */
  function PlayerPosition(current: Pos, matches: seq<Pixel>, toRel: Pixel -> Pos): Pos {
    if |matches| > 0 then toRel(matches[0]) else current
  }

  /** Whether this cycle looks for a rune: the counter is at 0 and no rune is active. */
  predicate RuneCheckDue(s: State) {
    s.runeCounter == 0 && !s.runeActive
  }

  /** The distance from a routine entry to the rune; +infinity unless the entry is a Point. */
  function DistanceToRune(c: Component, rune: Pos, dist: (Pos, Pos) -> real): (d: Distance)
    ensures d.Finite? <==> c.Point?
    ensures c.Point? ==> d == Finite(dist(rune, c.location))
  {
    if c.Point? then Finite(dist(rune, c.location)) else Infinity
  }

  function Distances(routine: seq<Component>, rune: Pos, dist: (Pos, Pos) -> real): (ds: seq<Distance>)
    ensures |ds| == |routine|
    ensures forall i :: 0 <= i < |routine| ==> ds[i] == DistanceToRune(routine[i], rune, dist)
  {
    seq(|routine|, i requires 0 <= i < |routine| => DistanceToRune(routine[i], rune, dist))
  }

  /** Index `i` holds a minimal distance, and no earlier index does. */
  ghost predicate IsFirstMinimum(ds: seq<Distance>, i: int) {
    && 0 <= i < |ds|
    && (forall j :: 0 <= j < |ds| ==> AtMost(ds[i], ds[j]))
    && (forall j :: 0 <= j < i ==> !AtMost(ds[j], ds[i]))
  }

  /** The index that argmin returns: the first one holding the minimum. */
  function ArgMin(ds: seq<Distance>): (i: nat)
    requires |ds| > 0
    ensures IsFirstMinimum(ds, i)
    decreases |ds|
  {
    if |ds| == 1 then 0
    else
      var k := ArgMin(ds[1..]) + 1;
      if AtMost(ds[0], ds[k]) then 0 else k
  }

  /** Ties are broken one way only: the first minimum is unique. */
  lemma FirstMinimumUnique(ds: seq<Distance>, i: int, k: int)
    requires IsFirstMinimum(ds, i) && IsFirstMinimum(ds, k)
    ensures i == k
  {
    assert AtMost(ds[i], ds[k]);
    assert AtMost(ds[k], ds[i]);
  }

  predicate HasPoint(routine: seq<Component>) {
    exists j :: 0 <= j < |routine| && routine[j].Point?
  }

  /** The end of a cycle that did not raise: counter advanced, display published, ready set. */
  function Finish(s: State): State {
    s.(runeCounter := (s.runeCounter + 1) % RUNE_CHECK_PERIOD,
       display := Display(s.runeActive, s.runePos, s.playerPos),
       ready := true)
  }

  /** Calibration on the first frame only. */
  function CalibrateOnce(s: State, f: Frame): State {
    if s.calibrated then s else Calibrate(s, f.corner)
  }

  /** The black-screen rule, then the elite-warning rule. */
  function Alerts(s: State, f: Frame): State
    requires f.height > 0 && f.width > 0
  {
    var (e1, a1) := AlertRule(s.enabled, s.alertActive, MostlyBlack(f));
    var (e2, a2) := AlertRule(e1, a1, f.eliteMatched);
    s.(enabled := e2, alertActive := a2)
  }

  function Track(s: State, f: Frame, toRel: Pixel -> Pos): State {
    s.(playerPos := PlayerPosition(s.playerPos, f.playerMatches, toRel))
  }

  /** The first part of a cycle: calibration if needed, the two alert rules and the player's position. */
  function Perceive(s: State, f: Frame, toRel: Pixel -> Pos): (t: State)
    requires f.height > 0 && f.width > 0
    // calibration happens once and is never undone
    ensures t.calibrated
    ensures !s.calibrated ==>
              && t.topLeft == Pixel(MINIMAP_BOTTOM_BORDER, MINIMAP_TOP_BORDER)
              && t.bottomRight == MinimapCorner(f.corner)
              && t.bottomRight.row - t.topLeft.row >= 54
              && t.ratio == Ratio(t.topLeft, t.bottomRight)
    ensures s.calibrated ==> (t.topLeft, t.bottomRight, t.ratio) == (s.topLeft, s.bottomRight, s.ratio)
    // the two alert rules together, and their one-way nature
    ensures (t.enabled, t.alertActive)
         == if s.enabled && !s.alertActive && (MostlyBlack(f) || f.eliteMatched)
            then (false, true) else (s.enabled, s.alertActive)
    ensures t.enabled ==> s.enabled
    ensures s.alertActive ==> t.alertActive
    // the player position follows the first match, and stays otherwise
    ensures |f.playerMatches| > 0 ==> t.playerPos == toRel(f.playerMatches[0])
    ensures |f.playerMatches| == 0 ==> t.playerPos == s.playerPos
    // nothing else changes
    ensures t == s.(calibrated := true, topLeft := t.topLeft, bottomRight := t.bottomRight, ratio := t.ratio,
                    enabled := t.enabled, alertActive := t.alertActive, playerPos := t.playerPos)
  {
    Track(Alerts(CalibrateOnce(s, f), f), f, toRel)
  }

  /** The rune check alone: when it is due and both a rune and routine entries exist, the rune's
      position is recorded and the closest entry found; `crashed` when that entry is not a Point. */
  function RuneCheck(t: State, f: Frame, routine: seq<Component>,
                     dist: (Pos, Pos) -> real, toRel: Pixel -> Pos): (r: Result)
    ensures r.crashed <==> RuneCheckDue(t) && |f.runeMatches| > 0 && |routine| > 0 && !HasPoint(routine)
  {
    if RuneCheckDue(t) && |f.runeMatches| > 0 && |routine| > 0 then
      var rune := toRel(f.runeMatches[0]);
      var ds := Distances(routine, rune, dist);
      var i := ArgMin(ds);
      assert HasPoint(routine) ==> routine[i].Point? by {
        if HasPoint(routine) {
          var j :| 0 <= j < |routine| && routine[j].Point?;
          assert AtMost(ds[i], ds[j]);
        }
      }
      if routine[i].Point? then
        Result(t.(runePos := rune, runeClosestPos := routine[i].location, runeActive := true), false)
      else
        Result(t.(runePos := rune), true)
    else
      Result(t, false)
  }

  /** The rune part of a cycle, from the state `t` that perception left. */
  function RuneStep(t: State, f: Frame, routine: seq<Component>,
                    dist: (Pos, Pos) -> real, toRel: Pixel -> Pos): (r: Result)
    // the cycle raises exactly when argmin lands on an entry that is not a Point
    ensures r.crashed <==> RuneCheckDue(t) && |f.runeMatches| > 0 && |routine| > 0 && !HasPoint(routine)
    ensures r.crashed ==> r.state == t.(runePos := r.state.runePos)
    // the rune throttle
    ensures !r.crashed ==> r.state.runeCounter == (t.runeCounter + 1) % RUNE_CHECK_PERIOD
    // rune detection
    ensures t.runeActive ==> r.state.runeActive
    ensures r.state.runeActive && !t.runeActive ==> RuneCheckDue(t) && |f.runeMatches| > 0 && HasPoint(routine)
    ensures !(RuneCheckDue(t) && |f.runeMatches| > 0 && |routine| > 0) ==>
              (r.state.runeActive, r.state.runePos, r.state.runeClosestPos)
              == (t.runeActive, t.runePos, t.runeClosestPos)
    ensures RuneCheckDue(t) && |f.runeMatches| > 0 && |routine| > 0 ==>
              r.state.runePos == toRel(f.runeMatches[0])
    ensures RuneCheckDue(t) && |f.runeMatches| > 0 && HasPoint(routine) ==>
              r.state.runeActive &&
              exists i :: IsFirstMinimum(Distances(routine, r.state.runePos, dist), i)
                       && routine[i].Point? && r.state.runeClosestPos == routine[i].location
    // publication for the GUI
    ensures !r.crashed ==>
              r.state.ready && r.state.display == Display(r.state.runeActive, r.state.runePos, r.state.playerPos)
    // nothing else changes
    ensures r.state.calibrated == t.calibrated && r.state.topLeft == t.topLeft
         && r.state.bottomRight == t.bottomRight && r.state.ratio == t.ratio
         && r.state.enabled == t.enabled && r.state.alertActive == t.alertActive
         && r.state.playerPos == t.playerPos
  {
    var c := RuneCheck(t, f, routine, dist, toRel);
    if c.crashed then c else Result(Finish(c.state), false)
  }

  /** One iteration of the capture loop on frame `f`. */
  function Next(s: State, f: Frame, routine: seq<Component>,
                dist: (Pos, Pos) -> real, toRel: Pixel -> Pos): (r: Result)
    requires f.height > 0 && f.width > 0
    ensures r.state.calibrated
    ensures s.calibrated ==> (r.state.topLeft, r.state.bottomRight, r.state.ratio) == (s.topLeft, s.bottomRight, s.ratio)
    ensures r.state.enabled ==> s.enabled
    ensures s.alertActive ==> r.state.alertActive
    ensures s.runeActive ==> r.state.runeActive
    ensures r.crashed <==> RuneCheckDue(s) && |f.runeMatches| > 0 && |routine| > 0 && !HasPoint(routine)
    ensures !r.crashed ==> r.state.runeCounter == (s.runeCounter + 1) % RUNE_CHECK_PERIOD
    ensures r.crashed ==> r.state.runeCounter == s.runeCounter
  {
    RuneStep(Perceive(s, f, toRel), f, routine, dist, toRel)
  }

  /** All frames have a positive size. */
  predicate NonEmptyFrames(frames: seq<Frame>) {
    forall i :: 0 <= i < |frames| ==> frames[i].height > 0 && frames[i].width > 0
  }

  /** The outcome of running the capture loop over some frames: the outcome of the last pass
      made and the number of passes that completed. */
  datatype Outcome = Outcome(last: Result, passes: nat)

  /** The capture loop over `frames` from state `s`, stopping at the first pass that raises. */
  function RunFrom(s: State, frames: seq<Frame>, routine: seq<Component>,
                   dist: (Pos, Pos) -> real, toRel: Pixel -> Pos): (r: Outcome)
    requires NonEmptyFrames(frames)
    ensures r.last.crashed ==> r.passes < |frames|
    ensures !r.last.crashed ==> r.passes == |frames|
    decreases |frames|
  {
    if frames == [] then Outcome(Result(s, false), 0)
    else
      var n := Next(s, frames[0], routine, dist, toRel);
      if n.crashed then Outcome(n, 0)
      else
        var rest := RunFrom(n.state, frames[1..], routine, dist, toRel);
        Outcome(rest.last, rest.passes + 1)
  }

  /** Over a whole run, the box is kept once calibrated, the flags change one way only and the
      counter advances once per completed pass. */
  lemma {:induction false} RunFacts(s: State, frames: seq<Frame>, routine: seq<Component>,
                                    dist: (Pos, Pos) -> real, toRel: Pixel -> Pos)
    requires NonEmptyFrames(frames)
    ensures var r := RunFrom(s, frames, routine, dist, toRel).last.state;
            && (|frames| > 0 ==> r.calibrated)
            && (s.calibrated ==> (r.topLeft, r.bottomRight, r.ratio) == (s.topLeft, s.bottomRight, s.ratio))
            && (r.enabled ==> s.enabled)
            && (s.alertActive ==> r.alertActive)
            && (s.runeActive ==> r.runeActive)
    decreases |frames|
  {
    if frames != [] {
      var n := Next(s, frames[0], routine, dist, toRel);
      if !n.crashed {
        RunFacts(n.state, frames[1..], routine, dist, toRel);
      }
    }
  }

  /** Over a whole run, the rune counter advances once per completed pass, modulo 100. */
  lemma {:induction false} RunCounter(s: State, frames: seq<Frame>, routine: seq<Component>,
                                      dist: (Pos, Pos) -> real, toRel: Pixel -> Pos)
    requires NonEmptyFrames(frames)
    requires 0 <= s.runeCounter < RUNE_CHECK_PERIOD
    ensures var r := RunFrom(s, frames, routine, dist, toRel);
            r.last.state.runeCounter == (s.runeCounter + r.passes) % RUNE_CHECK_PERIOD
    decreases |frames|
  {
    if frames != [] {
      var n := Next(s, frames[0], routine, dist, toRel);
      if !n.crashed {
        var next := n.state.runeCounter;
        assert next == (s.runeCounter + 1) % RUNE_CHECK_PERIOD;
        RunCounter(n.state, frames[1..], routine, dist, toRel);
        var k := RunFrom(n.state, frames[1..], routine, dist, toRel).passes;
        CounterStep(s.runeCounter, k);
      }
    }
  }

  /** Advancing the counter once and then `k` more times is advancing it `k + 1` times. */
  lemma CounterStep(c: int, k: nat)
    requires 0 <= c < RUNE_CHECK_PERIOD
    ensures ((c + 1) % RUNE_CHECK_PERIOD + k) % RUNE_CHECK_PERIOD == (c + k + 1) % RUNE_CHECK_PERIOD
  {
  }

  /** A run that raises stopped at the first pass that raised: the passes before it all
      completed, and its outcome is the raising pass on the state they left. */
  lemma {:induction false} RunStopsAtRaise(s: State, frames: seq<Frame>, routine: seq<Component>,
                                           dist: (Pos, Pos) -> real, toRel: Pixel -> Pos)
    requires NonEmptyFrames(frames)
    ensures var r := RunFrom(s, frames, routine, dist, toRel);
            r.last.crashed ==>
              var before := RunFrom(s, frames[..r.passes], routine, dist, toRel);
              && !before.last.crashed
              && r.last == Next(before.last.state, frames[r.passes], routine, dist, toRel)
    decreases |frames|
  {
    if frames != [] {
      var n := Next(s, frames[0], routine, dist, toRel);
      if !n.crashed {
        RunStopsAtRaise(n.state, frames[1..], routine, dist, toRel);
        var r := RunFrom(s, frames, routine, dist, toRel);
        if r.last.crashed {
          var k := r.passes - 1;
          assert frames[..r.passes][1..] == frames[1..][..k];
          assert frames[1..][k] == frames[r.passes];
        }
      } else {
        assert frames[..0] == [];
      }
    }
  }

  lemma NonEmptyAppend(a: seq<Frame>, b: seq<Frame>)
    requires NonEmptyFrames(a) && NonEmptyFrames(b)
    ensures NonEmptyFrames(a + b)
  {
    forall i | 0 <= i < |a + b| ensures (a + b)[i].height > 0 && (a + b)[i].width > 0 {
      if i < |a| { assert (a + b)[i] == a[i]; } else { assert (a + b)[i] == b[i - |a|]; }
    }
  }

  /** A run over `a + b` is the run over `a` and, when that did not raise, the run over `b`
      from the state it left. */
  lemma {:induction false} RunAppend(s: State, a: seq<Frame>, b: seq<Frame>, routine: seq<Component>,
                                     dist: (Pos, Pos) -> real, toRel: Pixel -> Pos)
    requires NonEmptyFrames(a) && NonEmptyFrames(b)
    ensures NonEmptyFrames(a + b) && var ra := RunFrom(s, a, routine, dist, toRel);
            RunFrom(s, a + b, routine, dist, toRel)
              == if ra.last.crashed then ra
                 else var rb := RunFrom(ra.last.state, b, routine, dist, toRel); Outcome(rb.last, |a| + rb.passes)
    decreases |a|
  {
    NonEmptyAppend(a, b);
    if a == [] {
      assert a + b == b;
    } else {
      assert (a + b)[0] == a[0];
      assert (a + b)[1..] == a[1..] + b;
      var n := Next(s, a[0], routine, dist, toRel);
      if !n.crashed {
        RunAppend(n.state, a[1..], b, routine, dist, toRel);
      }
    }
  }

  /** The capture object together with the shared fields it reads and writes. */
  class Capture {
    var calibrated: bool
    var topLeft: Pixel
    var bottomRight: Pixel
    var minimapRatio: real
    var runeCounter: int
    var ready: bool
    var enabled: bool
    var alertActive: bool
    var playerPos: Pos
    var runeActive: bool
    var runePos: Pos
    var runeClosestPos: Pos
    var display: Display

    function Snapshot(): State
      reads this
    {
      State(calibrated, topLeft, bottomRight, minimapRatio, runeCounter, ready,
            enabled, alertActive, playerPos, runeActive, runePos, runeClosestPos, display)
    }

    /** The counter stays in [0, 100) and a calibrated box has a positive height. */
    ghost predicate Valid()
      reads this
    {
      && 0 <= runeCounter < RUNE_CHECK_PERIOD
      && (calibrated ==>
            && bottomRight.row - topLeft.row >= 54
            && minimapRatio == Ratio(topLeft, bottomRight))
    }

    /** A fresh, uncalibrated capture over the given initial shared state. */
    constructor (enabled: bool, alertActive: bool, playerPos: Pos,
                 runeActive: bool, runePos: Pos, runeClosestPos: Pos)
      ensures Valid()
      ensures Snapshot() == State(false, Pixel(0, 0), Pixel(0, 0), 1.0, 0, false,
                                  enabled, alertActive, playerPos,
                                  runeActive, runePos, runeClosestPos, NoDisplay)
    {
      calibrated, ready := false, false;
      topLeft, bottomRight, minimapRatio := Pixel(0, 0), Pixel(0, 0), 1.0;
      runeCounter := 0;
      this.enabled, this.alertActive, this.playerPos := enabled, alertActive, playerPos;
      this.runeActive, this.runePos, this.runeClosestPos := runeActive, runePos, runeClosestPos;
      display := NoDisplay;
    }

    /** One pass through the body of the capture loop. */
    method Step(f: Frame, routine: seq<Component>, dist: (Pos, Pos) -> real, toRel: Pixel -> Pos)
      returns (crashed: bool)
      requires Valid()
      requires f.height > 0 && f.width > 0
      modifies this
      ensures Valid()
      ensures Result(Snapshot(), crashed) == Next(old(Snapshot()), f, routine, dist, toRel)
    {
      UpdatePerception(f, toRel);
      crashed := UpdateRune(f, routine, dist, toRel);
    }

    /** Calibration, the alert rules and the player's position. */
    method UpdatePerception(f: Frame, toRel: Pixel -> Pos)
      requires Valid()
      requires f.height > 0 && f.width > 0
      modifies this
      ensures Valid()
      ensures Snapshot() == Perceive(old(Snapshot()), f, toRel)
    {
      UpdateCalibration(f);
      ghost var calibratedState := Snapshot();
      UpdateAlerts(f);
      ghost var alertedState := Snapshot();
      UpdatePlayer(f, toRel);
      assert alertedState == Alerts(calibratedState, f);
    }

    method UpdateCalibration(f: Frame)
      requires Valid()
      modifies this
      ensures Valid()
      ensures Snapshot() == CalibrateOnce(old(Snapshot()), f)
    {
      if !calibrated {
        topLeft := Pixel(MINIMAP_BOTTOM_BORDER, MINIMAP_TOP_BORDER);
        bottomRight := MinimapCorner(f.corner);
        minimapRatio := Ratio(topLeft, bottomRight);
        calibrated := true;
      }
    }

    method UpdateAlerts(f: Frame)
      requires Valid()
      requires f.height > 0 && f.width > 0
      modifies this
      ensures Valid()
      ensures Snapshot() == Alerts(old(Snapshot()), f)
    {
      if enabled && !alertActive && MostlyBlack(f) {
        alertActive := true;
        enabled := false;
      }

      if enabled && !alertActive && f.eliteMatched {
        alertActive := true;
        enabled := false;
      }
    }

    method UpdatePlayer(f: Frame, toRel: Pixel -> Pos)
      requires Valid()
      modifies this
      ensures Valid()
      ensures Snapshot() == Track(old(Snapshot()), f, toRel)
    {
      if |f.playerMatches| > 0 {
        playerPos := toRel(f.playerMatches[0]);
      }
    }

    /** The throttled rune check, then publication of the display and the ready flag. */
    method UpdateRune(f: Frame, routine: seq<Component>, dist: (Pos, Pos) -> real, toRel: Pixel -> Pos)
      returns (crashed: bool)
      requires Valid()
      modifies this
      ensures Valid()
      ensures Result(Snapshot(), crashed) == RuneStep(old(Snapshot()), f, routine, dist, toRel)
    {
      crashed := CheckRune(f, routine, dist, toRel);
      if crashed {
        return;
      }
      Publish();
    }

    method CheckRune(f: Frame, routine: seq<Component>, dist: (Pos, Pos) -> real, toRel: Pixel -> Pos)
      returns (crashed: bool)
      requires Valid()
      modifies this
      ensures Valid()
      ensures Result(Snapshot(), crashed) == RuneCheck(old(Snapshot()), f, routine, dist, toRel)
    {
      if runeCounter == 0 && !runeActive {
        if |f.runeMatches| > 0 && |routine| > 0 {
          runePos := toRel(f.runeMatches[0]);
          var distances := Distances(routine, runePos, dist);
          var index := ArgMin(distances);
          if !routine[index].Point? {
            // reading `location` of a non-Point raises, and nothing catches it
            return true;
          }
          runeClosestPos := routine[index].location;
          runeActive := true;
        }
      }
      crashed := false;
    }

    /** The rest of a cycle that did not raise. */
    method Publish()
      requires Valid()
      modifies this
      ensures Valid()
      ensures Snapshot() == Finish(old(Snapshot()))
    {
      runeCounter := (runeCounter + 1) % RUNE_CHECK_PERIOD;

      display := Display(runeActive, runePos, playerPos);
      if !ready {
        ready := true;
      }
    }

    /** The capture loop run over a finite sequence of frames, stopping if a cycle raises. */
    method Run(frames: seq<Frame>, routine: seq<Component>, dist: (Pos, Pos) -> real, toRel: Pixel -> Pos)
      returns (cycles: nat, crashed: bool)
      requires Valid()
      requires NonEmptyFrames(frames)
      modifies this
      ensures Valid()
      ensures Outcome(Result(Snapshot(), crashed), cycles) == RunFrom(old(Snapshot()), frames, routine, dist, toRel)
      ensures crashed ==> cycles < |frames|
      ensures !crashed ==> cycles == |frames|
      ensures |frames| > 0 ==> calibrated
      ensures old(calibrated) ==>
                topLeft == old(topLeft) && bottomRight == old(bottomRight) && minimapRatio == old(minimapRatio)
      ensures enabled ==> old(enabled)
      ensures old(alertActive) ==> alertActive
      ensures old(runeActive) ==> runeActive
      ensures runeCounter == (old(runeCounter) + cycles) % RUNE_CHECK_PERIOD
    {
      ghost var start := Snapshot();
      cycles, crashed := Passes(frames, routine, dist, toRel);
      RunFacts(start, frames, routine, dist, toRel);
      RunCounter(start, frames, routine, dist, toRel);
    }

    /** The loop of `Run`: one `Step` per frame until a pass raises or the frames run out. */
    method Passes(frames: seq<Frame>, routine: seq<Component>, dist: (Pos, Pos) -> real, toRel: Pixel -> Pos)
      returns (cycles: nat, crashed: bool)
      requires Valid()
      requires NonEmptyFrames(frames)
      modifies this
      ensures Valid()
      ensures Outcome(Result(Snapshot(), crashed), cycles) == RunFrom(old(Snapshot()), frames, routine, dist, toRel)
    {
      ghost var start := Snapshot();
      cycles, crashed := 0, false;
      while cycles < |frames|
        invariant cycles <= |frames|
        invariant Valid()
        invariant RunFrom(start, frames, routine, dist, toRel)
                    == var rest := RunFrom(Snapshot(), frames[cycles..], routine, dist, toRel);
                       Outcome(rest.last, cycles + rest.passes)
      {
        assert frames[cycles..][0] == frames[cycles];
        assert frames[cycles..][1..] == frames[cycles + 1..];
        crashed := Step(frames[cycles], routine, dist, toRel);
        if crashed {
          break;
        }
        cycles := cycles + 1;
      }
      assert !crashed ==> frames[cycles..] == [];
    }
  }
}
