/** The receiving end: the ESP32 firmware's OSC handlers and the limit
    clipping of its coordination tick, as updates of the firmware's global
    state. Arguments arrive already decoded; the stepper driver is reduced to
    the target each axis was last sent with `moveTo`, and the current stepper
    positions are inputs. Floats are reals and `long` values are unbounded
    integers: the 32-bit width of `long` on the ESP32 is not modelled. */
module Firmware {
  import opened OscTypes
  import Dispatcher

  const NUM_MOTORS: nat := 4
  const NUM_PRESETS: nat := 8

  // ---------------------------------------------------------------- clamping

  /** `clampL`: the limit below, the limit above, otherwise the value. */
  function ClampL(v: int, vmin: int, vmax: int): (r: int)
    ensures r == v || r == vmin || r == vmax
    ensures vmin <= vmax ==> vmin <= r <= vmax
    ensures vmin <= v <= vmax ==> r == v
  {
    if v < vmin then vmin else if v > vmax then vmax else v
  }

  /** `clampF`, on exact reals. */
  function ClampF(v: real, vmin: real, vmax: real): (r: real)
    ensures r == v || r == vmin || r == vmax
    ensures vmin <= vmax ==> vmin <= r <= vmax
    ensures vmin <= v <= vmax ==> r == v
  {
    if v < vmin then vmin else if v > vmax then vmax else v
  }

  /** Clamping twice is clamping once, and clamping is monotone, whenever
      the interval is not empty. */
  lemma ClampLProperties(v: int, w: int, vmin: int, vmax: int)
    requires vmin <= vmax
    ensures ClampL(ClampL(v, vmin, vmax), vmin, vmax) == ClampL(v, vmin, vmax)
    ensures v <= w ==> ClampL(v, vmin, vmax) <= ClampL(w, vmin, vmax)
  {
  }

  lemma ClampFProperties(v: real, w: real, vmin: real, vmax: real)
    requires vmin <= vmax
    ensures ClampF(ClampF(v, vmin, vmax), vmin, vmax) == ClampF(v, vmin, vmax)
    ensures v <= w ==> ClampF(v, vmin, vmax) <= ClampF(w, vmin, vmax)
  {
  }

  /** With an empty interval `clampL` is not idempotent: the second call
      moves the value from the lower limit to the upper one. */
  lemma ClampLEmptyInterval()
    ensures ClampL(0, 5, 3) == 5 && ClampL(ClampL(0, 5, 3), 5, 3) == 3
  {
  }

  function Abs(x: real): (r: real)
    ensures r >= 0.0 && (r == x || r == -x)
  {
    if x < 0.0 then -x else x
  }

  /** The firmware's clamps keep what the web controller sends: its joystick
      values, axis fractions, `/joy/config` settings and goto position are
      already inside the firmware's ranges when they arrive. */
  lemma ControllerValuesKept(x: real, dz: real, ex: real, sl: real, fh: real)
    ensures ClampF(Dispatcher.Clamp(-1.0, 1.0, x), -1.0, 1.0) == Dispatcher.Clamp(-1.0, 1.0, x)
    ensures ClampF(Dispatcher.Clamp(0.0, 1.0, x), 0.0, 1.0) == Dispatcher.Clamp(0.0, 1.0, x)
    ensures ClampF(Dispatcher.Clamp(0.0, 0.5, dz), 0.0, 0.5) == Dispatcher.Clamp(0.0, 0.5, dz)
    ensures ClampF(Dispatcher.Clamp(0.0, 0.95, ex), 0.0, 0.95) == Dispatcher.Clamp(0.0, 0.95, ex)
    ensures Abs(Dispatcher.AtLeast(0.0, sl)) == Dispatcher.AtLeast(0.0, sl)
    ensures Abs(Dispatcher.AtLeast(0.0, fh)) == Dispatcher.AtLeast(0.0, fh)
  {
  }

  /** The addresses `processOSC` hands to a handler; a message to any other
      address is read and ignored. */
  function HandledAddresses(): set<string> {
    {"/pan", "/tilt", "/joy/pt", "/slide/jog", "/joy/config",
     "/axis_pan", "/axis_tilt", "/axis_zoom", "/axis_slide",
     "/preset/set", "/preset/recall", "/slide/goto",
     "/config/offset_range", "/config/pan_map", "/config/tilt_map"}
  }

  /** Every message the web controller sends, on every route and whatever
      the request, goes to an address the firmware handles. */
  lemma ControllerAddressesHandled(route: Dispatcher.Route, body: Option<Dispatcher.Body>)
    ensures forall k :: 0 <= k < |Dispatcher.Sends(route, body)| ==>
      Dispatcher.Sends(route, body)[k].address in HandledAddresses()
  {
    if Dispatcher.ValueRoute(route).Some? {
      var (address, lo, hi) := Dispatcher.ValueRoute(route).value;
      assert Dispatcher.PlanFor(route, body) == Dispatcher.OneValue(body, address, lo, hi);
    }
  }

  // ---------------------------------------------------------------- float to long

  /** `lround`: to the nearest integer, halves away from zero. */
  function Round(x: real): (r: int)
    ensures x >= 0.0 ==> r as real - 0.5 <= x < r as real + 0.5
    ensures x < 0.0 ==> r as real - 0.5 < x <= r as real + 0.5
  {
    if x >= 0.0 then (x + 0.5).Floor else -((-x + 0.5).Floor)
  }

  /** Rounding or truncating a value between two integers stays between
      them, and either leaves an integer as it is. */
  lemma RoundTruncBounds(x: real, lo: int, hi: int)
    requires lo as real <= x <= hi as real
    ensures lo <= Round(x) <= hi && lo <= Trunc(x) <= hi
    ensures x == x.Floor as real ==> Round(x) == x.Floor && Trunc(x) == x.Floor
  {
  }

  /** `lerp(a, b, u)`. */
  function Lerp(a: real, b: real, u: real): (r: real)
    ensures u == 0.0 ==> r == a
    ensures u == 1.0 ==> r == b
  {
    a + (b - a) * u
  }

  /** For u in [0, 1] the interpolation lies between its ends, and reaches
      each end at u = 0 and u = 1. */
  lemma LerpBounds(a: int, b: int, u: real)
    requires a <= b && 0.0 <= u <= 1.0
    ensures a as real <= Lerp(a as real, b as real, u) <= b as real
    ensures u == 0.0 ==> Lerp(a as real, b as real, u) == a as real
    ensures u == 1.0 ==> Lerp(a as real, b as real, u) == b as real
  {
    var d := (b - a) as real;
    MulNonNegative(d, u);
    MulNonNegative(d, 1.0 - u);
    assert d * u + d * (1.0 - u) == d;
  }

  lemma MulNonNegative(x: real, y: real)
    requires x >= 0.0 && y >= 0.0
    ensures x * y >= 0.0
  {
  }

  // ---------------------------------------------------------------- axis limits

  /** `cfg[ax].min_limit`: pan and tilt -10000, zoom and slide -20000. */
  function MinLimit(ax: nat): (m: int)
    requires ax < NUM_MOTORS
    ensures m < 0
  {
    if ax < 2 then -10000 else -20000
  }

  /** `cfg[ax].max_limit`: pan and tilt 10000, zoom and slide 20000. */
  function MaxLimit(ax: nat): (m: int)
    requires ax < NUM_MOTORS
    ensures m == -MinLimit(ax)
  {
    if ax < 2 then 10000 else 20000
  }

  predicate InLimits(ax: nat, pos: int)
    requires ax < NUM_MOTORS
  {
    MinLimit(ax) <= pos <= MaxLimit(ax)
  }

  /** `clampL` into an axis's limits. */
  function Clip(ax: nat, pos: int): (r: int)
    requires ax < NUM_MOTORS
    ensures InLimits(ax, r)
    ensures InLimits(ax, pos) ==> r == pos
    ensures pos < MinLimit(ax) ==> r == MinLimit(ax)
    ensures pos > MaxLimit(ax) ==> r == MaxLimit(ax)
  {
    ClampL(pos, MinLimit(ax), MaxLimit(ax))
  }

  /** The `/axis_*` target for a clamped fraction u: the cast of
      `u * (max - min) + min`. */
  function AxisTarget(ax: nat, u: real): int
    requires ax < NUM_MOTORS
  {
    Trunc(u * (MaxLimit(ax) - MinLimit(ax)) as real + MinLimit(ax) as real)
  }

  /** An `/axis_*` target is within the axis's limits, whatever the argument;
      0 and 1 map to the two limits. */
  lemma AxisTargetInLimits(ax: nat, v: real)
    requires ax < NUM_MOTORS
    ensures InLimits(ax, AxisTarget(ax, ClampF(v, 0.0, 1.0)))
    ensures v <= 0.0 ==> AxisTarget(ax, ClampF(v, 0.0, 1.0)) == MinLimit(ax)
    ensures v >= 1.0 ==> AxisTarget(ax, ClampF(v, 0.0, 1.0)) == MaxLimit(ax)
  {
    var u := ClampF(v, 0.0, 1.0);
    var x := u * (MaxLimit(ax) - MinLimit(ax)) as real + MinLimit(ax) as real;
    LerpBounds(MinLimit(ax), MaxLimit(ax), u);
    assert x == Lerp(MinLimit(ax) as real, MaxLimit(ax) as real, u);
    RoundTruncBounds(x, MinLimit(ax), MaxLimit(ax));
  }

  /** The `/slide/goto` goal: `lround(lerp(min, max, clampF(u, 0, 1)))` on the slide axis. */
  function SlideGoal(u: real): int {
    Round(Lerp(MinLimit(3) as real, MaxLimit(3) as real, ClampF(u, 0.0, 1.0)))
  }

  /** The slide goal is within the slide's limits; 0 and 1 are its two ends. */
  lemma SlideGoalInLimits(u: real)
    ensures InLimits(3, SlideGoal(u))
    ensures u <= 0.0 ==> SlideGoal(u) == MinLimit(3)
    ensures u >= 1.0 ==> SlideGoal(u) == MaxLimit(3)
  {
    var c := ClampF(u, 0.0, 1.0);
    LerpBounds(MinLimit(3), MaxLimit(3), c);
    RoundTruncBounds(Lerp(MinLimit(3) as real, MaxLimit(3) as real, c), MinLimit(3), MaxLimit(3));
  }

  /** A non-positive duration becomes 2 seconds. */
  function Duration(tsec: real): (d: real)
    ensures d > 0.0
    ensures tsec > 0.0 ==> d == tsec
  {
    if tsec <= 0.0 then 2.0 else tsec
  }

  // ---------------------------------------------------------------- state

  /** `struct Preset { long p, t, z, s; }`. */
  datatype Preset = Preset(p: int, t: int, z: int, s: int)

  /** The preset's raw goal for one axis (pan, tilt, zoom, slide). */
  function PresetAxis(pr: Preset, ax: nat): int
    requires ax < NUM_MOTORS
  {
    [pr.p, pr.t, pr.z, pr.s][ax]
  }

  /** `joy_raw`: the last joystick values received. */
  datatype JoyState = JoyState(pan: real, tilt: real, slide: real)

  /** `joy`: the joystick pipeline settings. */
  datatype JoyConfig = JoyConfig(deadzone: real, expo: real, slewPerSec: real, filterHz: real)

  function DefaultJoyConfig(): JoyConfig {
    JoyConfig(0.06, 0.35, 8000.0, 60.0)
  }

  predicate JoyRawInRange(j: JoyState) {
    -1.0 <= j.pan <= 1.0 && -1.0 <= j.tilt <= 1.0 && -1.0 <= j.slide <= 1.0
  }

  predicate JoyConfigInRange(c: JoyConfig) {
    0.0 <= c.deadzone <= 0.5 && 0.0 <= c.expo <= 0.95 && c.slewPerSec >= 0.0 && c.filterHz >= 0.0
  }

  /** The scalar globals, read together so that a handler can say which of
      them it changes and that the rest stay as they were. */
  datatype Scalars = Scalars(
    joyRaw: JoyState, joy: JoyConfig, activePreset: int,
    panOffsetRange: int, tiltOffsetRange: int,
    panAtSlideMin: int, panAtSlideMax: int, tiltAtSlideMin: int, tiltAtSlideMax: int,
    syncActive: bool, syncSeconds: real)

  /** The firmware's globals that the OSC handlers and the coordination tick
      update. */
  class Slider {
    /** `presets[8]`. */
    const presets: array<Preset>
    var activePreset: int
    var joyRaw: JoyState
    var joy: JoyConfig
    var panOffsetRange: int
    var tiltOffsetRange: int
    var panAtSlideMin: int
    var panAtSlideMax: int
    var tiltAtSlideMin: int
    var tiltAtSlideMax: int
    /** `sync_move.active`. */
    var syncActive: bool
    /** The duration `sync_move` was requested with, before the firmware
        stretches it to what the axes can do. */
    var syncSeconds: real
    /** `sync_move.start` and `sync_move.goal_base`. */
    const start: array<int>
    const goalBase: array<int>
    /** The position each stepper was last told to `moveTo`. */
    const targets: array<int>

    function State(): Scalars
      reads this
    {
      Scalars(joyRaw, joy, activePreset, panOffsetRange, tiltOffsetRange,
              panAtSlideMin, panAtSlideMax, tiltAtSlideMin, tiltAtSlideMax, syncActive, syncSeconds)
    }

    /** Sizes, settings in their ranges, and every stepper target within its
        axis's limits. */
    predicate Valid()
      reads this, targets
    {
      && presets.Length == NUM_PRESETS
      && start.Length == NUM_MOTORS && goalBase.Length == NUM_MOTORS && targets.Length == NUM_MOTORS
      && start != goalBase && start != targets && goalBase != targets
      && -1 <= activePreset < NUM_PRESETS as int
      && JoyRawInRange(joyRaw)
      && JoyConfigInRange(joy)
      && forall ax :: 0 <= ax < NUM_MOTORS ==> InLimits(ax, targets[ax])
    }

    /** The globals at power-up: zeroed presets and positions, no active
        preset, and the initializers of `joy` and the mapping constants. */
    constructor ()
      ensures Valid()
      ensures fresh(presets) && fresh(start) && fresh(goalBase) && fresh(targets)
      ensures forall i :: 0 <= i < NUM_PRESETS ==> presets[i] == Preset(0, 0, 0, 0)
      ensures forall ax :: 0 <= ax < NUM_MOTORS ==> start[ax] == 0 && goalBase[ax] == 0 && targets[ax] == 0
      ensures State() == Scalars(JoyState(0.0, 0.0, 0.0), DefaultJoyConfig(), -1, 800, 800, 800, -800, 0, 0, false, 2.0)
    {
      presets := new Preset[NUM_PRESETS](_ => Preset(0, 0, 0, 0));
      start := new int[NUM_MOTORS](_ => 0);
      goalBase := new int[NUM_MOTORS](_ => 0);
      targets := new int[NUM_MOTORS](_ => 0);
      activePreset := -1;
      joyRaw := JoyState(0.0, 0.0, 0.0);
      joy := DefaultJoyConfig();
      panOffsetRange := 800;
      tiltOffsetRange := 800;
      panAtSlideMin := 800;
      panAtSlideMax := -800;
      tiltAtSlideMin := 0;
      tiltAtSlideMax := 0;
      syncActive := false;
      syncSeconds := 2.0;
    }

    // ------------------------------------------------------------ joystick

    /** `/pan x`. */
    method Pan(x: real)
      requires Valid()
      modifies this
      ensures Valid()
      ensures State() == old(State()).(joyRaw := old(joyRaw).(pan := ClampF(x, -1.0, 1.0)))
    {
      joyRaw := joyRaw.(pan := ClampF(x, -1.0, 1.0));
    }

    /** `/tilt y`. */
    method Tilt(y: real)
      requires Valid()
      modifies this
      ensures Valid()
      ensures State() == old(State()).(joyRaw := old(joyRaw).(tilt := ClampF(y, -1.0, 1.0)))
    {
      joyRaw := joyRaw.(tilt := ClampF(y, -1.0, 1.0));
    }

    /** `/joy/pt x y`: pan and tilt together; the slide value is untouched. */
    method JoyPt(x: real, y: real)
      requires Valid()
      modifies this
      ensures Valid()
      ensures State() == old(State()).(joyRaw := JoyState(ClampF(x, -1.0, 1.0), ClampF(y, -1.0, 1.0), old(joyRaw.slide)))
    {
      joyRaw := joyRaw.(pan := ClampF(x, -1.0, 1.0));
      joyRaw := joyRaw.(tilt := ClampF(y, -1.0, 1.0));
    }

    /** `/slide/jog v`. */
    method SlideJog(v: real)
      requires Valid()
      modifies this
      ensures Valid()
      ensures State() == old(State()).(joyRaw := old(joyRaw).(slide := ClampF(v, -1.0, 1.0)))
    {
      joyRaw := joyRaw.(slide := ClampF(v, -1.0, 1.0));
    }

    /** `/joy/config`: the first |args| settings are replaced, in order
        deadzone, expo, slew, filter; the others keep their values. */
    method SetJoyConfig(args: seq<real>)
      requires Valid()
      modifies this
      ensures Valid()
      ensures State() == old(State()).(joy := joy)
      ensures joy.deadzone == if |args| > 0 then ClampF(args[0], 0.0, 0.5) else old(joy.deadzone)
      ensures joy.expo == if |args| > 1 then ClampF(args[1], 0.0, 0.95) else old(joy.expo)
      ensures joy.slewPerSec == if |args| > 2 then Abs(args[2]) else old(joy.slewPerSec)
      ensures joy.filterHz == if |args| > 3 then Abs(args[3]) else old(joy.filterHz)
    {
      if |args| > 0 { joy := joy.(deadzone := ClampF(args[0], 0.0, 0.5)); }
      if |args| > 1 { joy := joy.(expo := ClampF(args[1], 0.0, 0.95)); }
      if |args| > 2 { joy := joy.(slewPerSec := Abs(args[2])); }
      if |args| > 3 { joy := joy.(filterHz := Abs(args[3])); }
    }

    // ------------------------------------------------------------ direct axis moves

    /** `/axis_pan`, `/axis_tilt`, `/axis_zoom`, `/axis_slide` (ax = 0..3). */
    method Axis(ax: nat, v: real)
      requires Valid() && ax < NUM_MOTORS
      modifies targets
      ensures Valid()
      ensures targets[ax] == AxisTarget(ax, ClampF(v, 0.0, 1.0))
      ensures forall k :: 0 <= k < NUM_MOTORS && k != ax ==> targets[k] == old(targets[k])
    {
      AxisTargetInLimits(ax, v);
      targets[ax] := AxisTarget(ax, ClampF(v, 0.0, 1.0));
    }

    // ------------------------------------------------------------ presets

    /** `/preset/set i p t z s`: only preset i changes. */
    method PresetSet(i: int, p: int, t: int, z: int, s: int)
      requires Valid() && 0 <= i < NUM_PRESETS
      modifies presets
      ensures Valid()
      ensures presets[i] == Preset(p, t, z, s)
      ensures forall j :: 0 <= j < NUM_PRESETS && j != i ==> presets[j] == old(presets[j])
    {
      presets[i] := Preset(p, t, z, s);
    }

    /** `/preset/recall i tsec`: a synchronised move from the current
        positions to preset i, each goal clipped into its axis's limits. */
    method PresetRecall(i: int, tsec: real, positions: seq<int>)
      requires Valid() && 0 <= i < NUM_PRESETS && |positions| == NUM_MOTORS
      modifies this, start, goalBase
      ensures Valid()
      ensures State() == old(State()).(activePreset := i, syncActive := true, syncSeconds := Duration(tsec))
      ensures start[..] == positions
      ensures forall ax :: 0 <= ax < NUM_MOTORS ==>
        goalBase[ax] == Clip(ax, PresetAxis(presets[i], ax)) && InLimits(ax, goalBase[ax])
    {
      var seconds := if tsec <= 0.0 then 2.0 else tsec;
      activePreset := i;
      var pr := presets[i];
      var baseGoal := [pr.p, pr.t, pr.z, pr.s];
      for ax := 0 to NUM_MOTORS
        modifies start, goalBase
        invariant forall k :: 0 <= k < ax ==> start[k] == positions[k]
        invariant forall k :: 0 <= k < ax ==> goalBase[k] == Clip(k, PresetAxis(pr, k))
      {
        start[ax] := positions[ax];
        goalBase[ax] := ClampL(baseGoal[ax], MinLimit(ax), MaxLimit(ax));
      }
      syncSeconds := seconds;
      syncActive := true;
    }

    /** `/slide/goto u tsec`: a synchronised move in which only the slide
        has somewhere to go; every other axis's goal is where it stands. */
    method SlideGoto(u: real, tsec: real, positions: seq<int>)
      requires Valid() && |positions| == NUM_MOTORS
      modifies this, start, goalBase
      ensures Valid()
      ensures State() == old(State()).(syncActive := true, syncSeconds := Duration(tsec))
      ensures start[..] == positions
      ensures goalBase[3] == SlideGoal(u) && InLimits(3, goalBase[3])
      ensures forall ax :: 0 <= ax < 3 ==> goalBase[ax] == start[ax]
    {
      var c := ClampF(u, 0.0, 1.0);
      var seconds := if tsec <= 0.0 then 2.0 else tsec;
      var sGoal := Round(Lerp(MinLimit(3) as real, MaxLimit(3) as real, c));
      for ax := 0 to NUM_MOTORS
        modifies start, goalBase
        invariant forall k :: 0 <= k < ax ==> start[k] == positions[k]
        invariant forall k :: 0 <= k < ax ==> goalBase[k] == if k == 3 then sGoal else positions[k]
      {
        start[ax] := positions[ax];
        goalBase[ax] := if ax == 3 then sGoal else start[ax];
      }
      SlideGoalInLimits(u);
      syncSeconds := seconds;
      syncActive := true;
    }

    // ------------------------------------------------------------ configuration

    /** `/config/offset_range pan tilt`. */
    method SetOffsetRange(pan: int, tilt: int)
      requires Valid()
      modifies this
      ensures Valid()
      ensures State() == old(State()).(panOffsetRange := pan, tiltOffsetRange := tilt)
    {
      panOffsetRange := pan;
      tiltOffsetRange := tilt;
    }

    /** `/config/pan_map atMin atMax`. */
    method SetPanMap(atMin: int, atMax: int)
      requires Valid()
      modifies this
      ensures Valid()
      ensures State() == old(State()).(panAtSlideMin := atMin, panAtSlideMax := atMax)
    {
      panAtSlideMin := atMin;
      panAtSlideMax := atMax;
    }

    /** `/config/tilt_map atMin atMax`. */
    method SetTiltMap(atMin: int, atMax: int)
      requires Valid()
      modifies this
      ensures Valid()
      ensures State() == old(State()).(tiltAtSlideMin := atMin, tiltAtSlideMax := atMax)
    {
      tiltAtSlideMin := atMin;
      tiltAtSlideMax := atMax;
    }

    // ------------------------------------------------------------ coordination tick

    /** `coordinator_tick`, from the point where its float arithmetic has
        produced the raw step targets: with no synchronised move, each
        jogging axis (pan, tilt, slide) moves by its step count, clipped;
        during one, all four axes go to their interpolated targets, clipped,
        and the move ends once `done`. Nothing happens when no millisecond
        has passed. */
    method CoordinatorTick(elapsedMs: nat, panStep: Option<int>, tiltStep: Option<int>, slideStep: Option<int>,
                           planned: seq<int>, done: bool)
      requires Valid() && |planned| == NUM_MOTORS
      modifies this, targets
      ensures Valid()
      ensures elapsedMs == 0 ==> State() == old(State()) && targets[..] == old(targets[..])
      ensures elapsedMs > 0 && !old(syncActive) ==>
        && State() == old(State())
        && targets[0] == JogTarget(0, old(targets[0]), panStep)
        && targets[1] == JogTarget(1, old(targets[1]), tiltStep)
        && targets[2] == old(targets[2])
        && targets[3] == JogTarget(3, old(targets[3]), slideStep)
      ensures elapsedMs > 0 && old(syncActive) ==>
        && State() == old(State()).(syncActive := !done)
        && forall ax :: 0 <= ax < NUM_MOTORS ==> targets[ax] == Clip(ax, planned[ax])
    {
      if elapsedMs == 0 {
        return;
      }
      if !syncActive {
        JogTick(panStep, tiltStep, slideStep);
      }
      if syncActive {
        SyncTick(planned, done);
      }
    }

    /** Part 1 of the tick: the direct jog of pan, tilt and slide. */
    method JogTick(panStep: Option<int>, tiltStep: Option<int>, slideStep: Option<int>)
      requires Valid()
      modifies targets
      ensures Valid()
      ensures targets[0] == JogTarget(0, old(targets[0]), panStep)
      ensures targets[1] == JogTarget(1, old(targets[1]), tiltStep)
      ensures targets[2] == old(targets[2])
      ensures targets[3] == JogTarget(3, old(targets[3]), slideStep)
    {
      if panStep.Some? {
        targets[0] := ClampL(targets[0] + panStep.value, MinLimit(0), MaxLimit(0));
      }
      if tiltStep.Some? {
        targets[1] := ClampL(targets[1] + tiltStep.value, MinLimit(1), MaxLimit(1));
      }
      if slideStep.Some? {
        targets[3] := ClampL(targets[3] + slideStep.value, MinLimit(3), MaxLimit(3));
      }
    }

    /** Part 2 of the tick: every axis to its interpolated target, clipped. */
    method SyncTick(planned: seq<int>, done: bool)
      requires Valid() && |planned| == NUM_MOTORS
      modifies this, targets
      ensures Valid()
      ensures State() == old(State()).(syncActive := old(syncActive) && !done)
      ensures forall ax :: 0 <= ax < NUM_MOTORS ==> targets[ax] == Clip(ax, planned[ax])
    {
      if done {
        syncActive := false;
      }
      targets[0] := ClampL(planned[0], MinLimit(0), MaxLimit(0));
      targets[1] := ClampL(planned[1], MinLimit(1), MaxLimit(1));
      targets[2] := ClampL(planned[2], MinLimit(2), MaxLimit(2));
      targets[3] := ClampL(planned[3], MinLimit(3), MaxLimit(3));
    }
  }

  /** A jogging axis's new target: unchanged when it does not jog,
      otherwise the old target moved by the step count and clipped. */
  function JogTarget(ax: nat, target: int, step: Option<int>): (r: int)
    requires ax < NUM_MOTORS
    ensures step.None? ==> r == target
    ensures step.Some? ==> InLimits(ax, r)
    ensures step.Some? && InLimits(ax, target + step.value) ==> r == target + step.value
  {
    if step.None? then target else Clip(ax, target + step.value)
  }
}
