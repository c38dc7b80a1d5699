/** The application's frame driver and input handlers: how `animate` turns
    an animation-frame timestamp into a clamped delta, a world-step request
    and the controller's time multiplier, how the `active` switch freezes
    all of that, and how key and pointer events set the steering
    direction. */
module Frame {
  import opened Numeric
  import opened Wrappers
  import opened Balance

  /** Frame deltas above this many milliseconds are treated as a stall. */
  const MaxFrameDelta: real := 500.0
  /** Length of one nominal 60 Hz frame, in milliseconds. */
  const FrameDuration: real := 1000.0 / 60.0
  /** The fixed step handed to the physics world, in seconds. */
  const FixedTimeStep: real := 1.0 / 60.0
  const MaxSubSteps: nat := 10

  // ---------------------------------------------------------------------
  // Frame timing
  // ---------------------------------------------------------------------

  /** The delta of one frame: zero on the first frame (a `lastAnimateTime`
      of 0 is falsy and falls back to `time`) and zero after a stall of more
      than 500 ms; otherwise the time since the previous frame. */
  function FrameDelta(time: real, lastAnimateTime: real): (delta: real)
    ensures delta <= MaxFrameDelta
    ensures lastAnimateTime == 0.0 ==> delta == 0.0
    ensures time - lastAnimateTime > MaxFrameDelta ==> delta == 0.0
    ensures lastAnimateTime != 0.0 && time - lastAnimateTime <= MaxFrameDelta ==>
      delta == time - lastAnimateTime
    ensures time >= lastAnimateTime ==> delta >= 0.0
    ensures delta == 0.0 || delta == time - lastAnimateTime
  {
    var since := if lastAnimateTime == 0.0 then time else lastAnimateTime;
    var elapsed := time - since;
    if elapsed > MaxFrameDelta then 0.0 else elapsed
  }

  /** How many nominal frames the delta spans; the controller scales its
      speed increment by it. */
  function TimeMultiplier(delta: real): (tm: real)
    ensures tm * FrameDuration == delta
    ensures delta >= 0.0 ==> tm >= 0.0
    ensures delta <= MaxFrameDelta ==> tm <= 30.0
  {
    delta / FrameDuration
  }

  /** The arguments of one `world.step` call: the fixed step, the elapsed
      time in seconds and the sub-step cap. */
  datatype WorldStep = WorldStep(fixedStep: real, elapsed: real, maxSubSteps: nat)

  /** The application's frame-to-frame state: the `active` switch, the
      previous frame's timestamp and the steering direction the input
      handlers maintain. */
  datatype AppState = AppState(active: bool, lastAnimateTime: real, direction: Direction)

  /** What one frame did: the next application state and, for an active
      frame, the world step it requested and the multiplier it passed to the
      controller. */
  datatype FrameOutcome = FrameOutcome(app: AppState, worldStep: Option<WorldStep>, timeMultiplier: Option<real>)

  /** One run of `animate` up to the controller call. */
  function Animate(app: AppState, time: real): (f: FrameOutcome)
    ensures !app.active ==> f.app == app && f.worldStep.None? && f.timeMultiplier.None?
    ensures app.active ==>
      f.app == app.(lastAnimateTime := time) && f.worldStep.Some? && f.timeMultiplier.Some?
    ensures f.worldStep.Some? ==>
      f.worldStep.value.fixedStep == FixedTimeStep && f.worldStep.value.maxSubSteps == MaxSubSteps &&
      f.worldStep.value.elapsed * 1000.0 <= MaxFrameDelta
    ensures f.worldStep.Some? && f.timeMultiplier.Some? ==>
      f.timeMultiplier.value * FrameDuration == f.worldStep.value.elapsed * 1000.0
    ensures app.active ==> f.worldStep.value.elapsed * 1000.0 == FrameDelta(time, app.lastAnimateTime)
    ensures app.active && app.lastAnimateTime != 0.0 && time - app.lastAnimateTime <= MaxFrameDelta ==>
      f.worldStep.value.elapsed * 1000.0 == time - app.lastAnimateTime
  {
    if app.active then
      var delta := FrameDelta(time, app.lastAnimateTime);
      FrameOutcome(app.(lastAnimateTime := time),
                   Some(WorldStep(FixedTimeStep, delta / 1000.0, MaxSubSteps)),
                   Some(TimeMultiplier(delta)))
    else
      FrameOutcome(app, None, None)
  }

  /** Coming back after more than 500 ms, whether paused or stalled, the
      first active frame asks the world for no elapsed time and the
      controller for no acceleration. */
  lemma ResumeAfterPause(app: AppState, time: real)
    requires app.active && time - app.lastAnimateTime > MaxFrameDelta
    ensures Animate(app, time).worldStep.value.elapsed == 0.0
    ensures Animate(app, time).timeMultiplier == Some(0.0)
  {
  }

  /** Frames whose timestamps never run backwards hand the controller only
      non-negative multipliers. */
  lemma MonotoneClockGivesNonNegativeMultiplier(app: AppState, time: real)
    requires app.active && time >= app.lastAnimateTime
    ensures Animate(app, time).timeMultiplier.value >= 0.0
  {
  }

  // ---------------------------------------------------------------------
  // Input
  // ---------------------------------------------------------------------

  /** The keyboard and pointer events the handlers look at. Other pointer
      event types are `OtherPointer`. */
  datatype InputEvent =
    | KeyDown(key: string)
    | KeyUp(key: string)
    | PointerDown(offsetX: real, canvasWidth: real)
    | PointerUp
    | OtherPointer

  const ArrowLeft: string := "ArrowLeft"
  const ArrowRight: string := "ArrowRight"

  predicate IsArrow(key: string) {
    key == ArrowLeft || key == ArrowRight
  }

  /** The events the handlers react to: an arrow key going down or up, or a
      pointer going down or up. */
  predicate SetsDirection(e: InputEvent) {
    match e
    case KeyDown(key) => IsArrow(key)
    case KeyUp(key) => IsArrow(key)
    case PointerDown(_, _) => true
    case PointerUp => true
    case OtherPointer => false
  }

  /** The steering direction after one input event. */
  function HandleInput(direction: Direction, e: InputEvent): (d: Direction)
    ensures d == Left <==>
      (e.KeyDown? && e.key == ArrowLeft) ||
      (e.PointerDown? && e.offsetX <= e.canvasWidth / 2.0) ||
      (direction == Left && !SetsDirection(e))
    ensures d == Right <==>
      (e.KeyDown? && e.key == ArrowRight) ||
      (e.PointerDown? && e.offsetX > e.canvasWidth / 2.0) ||
      (direction == Right && !SetsDirection(e))
    ensures (e.KeyUp? && IsArrow(e.key)) || e.PointerUp? ==> d == Idle
    ensures !SetsDirection(e) ==> d == direction
  {
    match e
    case KeyDown(key) =>
      if key == ArrowLeft then Left
      else if key == ArrowRight then Right
      else direction
    case KeyUp(key) =>
      if IsArrow(key) then Idle else direction
    case PointerDown(offsetX, width) =>
      if offsetX <= width / 2.0 then Left else Right
    case PointerUp => Idle
    case OtherPointer => direction
  }

  /** The direction after a sequence of input events. */
  function HandleInputs(direction: Direction, events: seq<InputEvent>): Direction
    decreases |events|
  {
    if |events| == 0 then direction
    else HandleInput(HandleInputs(direction, events[..|events| - 1]), events[|events| - 1])
  }

  /** Pressing and then releasing any arrow key, or touching and then
      lifting, leaves the rider without input, whatever came before. */
  lemma PressReleaseIsIdle(direction: Direction, press: InputEvent, release: InputEvent)
    requires (press.KeyDown? && IsArrow(press.key) && release.KeyUp? && IsArrow(release.key)) ||
             (press.PointerDown? && release.PointerUp?)
    ensures HandleInputs(direction, [press, release]) == Idle
    ensures HandleInputs(direction, [press]) != Idle
  {
    assert [press, release][..1] == [press];
    assert [press][..0] == [];
  }

  /** The direction after any events is set by the last event that sets
      one: everything else passes the direction through unchanged. */
  lemma {:induction false} LatestSteeringEventDecides(direction: Direction, events: seq<InputEvent>, k: nat)
    requires k < |events|
    requires SetsDirection(events[k])
    requires forall j :: k < j < |events| ==> !SetsDirection(events[j])
    ensures HandleInputs(direction, events) == HandleInput(direction, events[k])
    decreases |events|
  {
    var prefix := events[..|events| - 1];
    if k < |events| - 1 {
      LatestSteeringEventDecides(direction, prefix, k);
    } else {
      SetterIgnoresPrior(HandleInputs(direction, prefix), direction, events[k]);
    }
  }

  /** An event that sets the direction ignores the direction before it. */
  lemma SetterIgnoresPrior(d1: Direction, d2: Direction, e: InputEvent)
    requires SetsDirection(e)
    ensures HandleInput(d1, e) == HandleInput(d2, e)
  {
  }

  // ---------------------------------------------------------------------
  // Frames driving the controller
  // ---------------------------------------------------------------------

  /** What the physics world reports after a step, plus the controller's own
      clock reading. */
  datatype Sensors = Sensors(
    shaftAngle: real,
    wheelOnTerrain: bool,
    torsoOnTerrain: bool,
    now: real,
    wheelPosition: Vec2)

  /** One animation frame: timing, then for an active frame one controller
      step with the frame's multiplier and the current direction. */
  function Tick(app: AppState, rider: ControllerState, time: real, sensors: Sensors): (r: (AppState, ControllerState))
    ensures !app.active ==> r == (app, rider)
    ensures app.active ==> r.0.lastAnimateTime == time
    ensures InSpeedRange(rider.motorSpeed) && (app.active ==> time >= app.lastAnimateTime) ==>
      InSpeedRange(r.1.motorSpeed)
    ensures app.active ==> r.1.history == RecordPosition(rider.history, sensors.wheelPosition)
    ensures app.active && app.direction != Idle ==> r.1.lastActiveTime == sensors.now
    ensures app.active && app.direction == Idle ==> r.1.lastActiveTime == rider.lastActiveTime
    ensures app.active && !sensors.wheelOnTerrain ==>
      r.1.motorSpeed == rider.motorSpeed && r.1.torsoForce.None? && r.1.shaftAngularForce.None?
  {
    var f := Animate(app, time);
    match f.timeMultiplier
    case None => (f.app, rider)
    case Some(tm) =>
      var input := StepInput(sensors.shaftAngle, app.direction, sensors.wheelOnTerrain,
                             sensors.torsoOnTerrain, sensors.now, tm, sensors.wheelPosition);
      (f.app, Step(rider, input))
  }

  /** The speed change of a grounded, upright-enough frame follows the
      frame's real delta: a frame twice as long ramps the motor twice as far,
      which is what the multiplier is for. */
  lemma SteeringFollowsFrameDelta(app: AppState, rider: ControllerState, time: real, sensors: Sensors)
    requires app.active && sensors.wheelOnTerrain
    requires app.lastAnimateTime != 0.0 && time - app.lastAnimateTime <= MaxFrameDelta
    ensures var delta := time - app.lastAnimateTime;
      var speed := Tick(app, rider, time, sensors).1.motorSpeed;
      !AngleZones(sensors.shaftAngle).collapsed ==>
        (app.direction == Right ==>
          speed == Min(rider.motorSpeed + SpeedIncrementFactor * delta / FrameDuration, MaximumSpeed)) &&
        (app.direction == Left ==>
          speed == Max(rider.motorSpeed - SpeedIncrementFactor * delta / FrameDuration, -MaximumSpeed)) &&
        (app.direction == Idle ==> speed == 0.0)
  {
    var delta := time - app.lastAnimateTime;
    var tm := Animate(app, time).timeMultiplier.value;
    assert tm * FrameDuration == delta;
    assert SpeedIncrementFactor * tm == SpeedIncrementFactor * delta / FrameDuration;
  }

  /** An active frame hands the controller exactly what the world reports
      (raw shaft angle, both contact flags, clock, wheel position), the
      direction the input handlers left, and the multiplier of this frame's
      delta. */
  lemma FrameRunsController(app: AppState, rider: ControllerState, time: real, sensors: Sensors)
    requires app.active
    ensures Tick(app, rider, time, sensors).1 ==
      Step(rider, StepInput(sensors.shaftAngle, app.direction, sensors.wheelOnTerrain, sensors.torsoOnTerrain,
                            sensors.now, TimeMultiplier(FrameDelta(time, app.lastAnimateTime)),
                            sensors.wheelPosition))
  {
  }

  /** The force rules of a grounded frame, read off the frame's own shaft
      angle, torso flag and clock: lean when upright and steering, hoist
      when collapsed onto the torso and steering, correct a recoverable tilt
      for a second after the last input, otherwise write nothing. A
      collapsed rider's motor keeps its speed. */
  lemma FrameForceRules(app: AppState, rider: ControllerState, time: real, sensors: Sensors)
    requires app.active && sensors.wheelOnTerrain
    ensures var a := NormaliseAngle(sensors.shaftAngle);
      var z := AngleZones(sensors.shaftAngle);
      var r := Tick(app, rider, time, sensors).1;
      var steering := app.direction != Idle;
      var sinceActive := sensors.now - r.lastActiveTime;
      (z.collapsed ==> r.motorSpeed == rider.motorSpeed) &&
      (z.upright && steering ==>
        r.torsoForce == Some(Vec2(if app.direction == Left then -TorsoPushForceX else TorsoPushForceX, 0.0)) &&
        r.shaftAngularForce.None?) &&
      (z.collapsed && sensors.torsoOnTerrain && steering ==>
        r.shaftAngularForce == Some(if a > 0.0 then -HoistAngularForce else HoistAngularForce) &&
        r.torsoForce.None?) &&
      (z.uprightable && !z.upright && sinceActive < CorrectionWindow ==>
        r.shaftAngularForce == Some(if a > 0.0 then -CorrectionAngularForce else CorrectionAngularForce) &&
        r.torsoForce.None?) &&
      (!(z.upright && steering) &&
       !(z.collapsed && sensors.torsoOnTerrain && steering) &&
       !(z.uprightable && !z.upright && sinceActive < CorrectionWindow) ==>
        r.torsoForce.None? && r.shaftAngularForce.None?)
  {
    var input := StepInput(sensors.shaftAngle, app.direction, sensors.wheelOnTerrain, sensors.torsoOnTerrain,
                           sensors.now, TimeMultiplier(FrameDelta(time, app.lastAnimateTime)),
                           sensors.wheelPosition);
    FrameRunsController(app, rider, time, sensors);
    ForceRules(rider, input);
    AirborneOrCollapsedKeepsMotor(rider, input);
  }

  /** One animation frame as the application sees it: the input events
      handled since the previous frame, the frame's timestamp and what the
      world reports after its step. */
  datatype AnimationFrame = AnimationFrame(events: seq<InputEvent>, time: real, sensors: Sensors)

  /** The states after a sequence of frames, each preceded by its input
      events. */
  function Ticks(app: AppState, rider: ControllerState, frames: seq<AnimationFrame>): (AppState, ControllerState)
    decreases |frames|
  {
    if |frames| == 0 then (app, rider)
    else
      var prev := Ticks(app, rider, frames[..|frames| - 1]);
      var f := frames[|frames| - 1];
      Tick(prev.0.(direction := HandleInputs(prev.0.direction, f.events)), prev.1, f.time, f.sensors)
  }

  /** Every input event of a run of frames, in order. */
  function Events(frames: seq<AnimationFrame>): seq<InputEvent>
    decreases |frames|
  {
    if |frames| == 0 then []
    else Events(frames[..|frames| - 1]) + frames[|frames| - 1].events
  }

  /** Handling two batches of events one after the other is handling them
      together. */
  lemma {:induction false} HandleInputsAppend(d: Direction, a: seq<InputEvent>, b: seq<InputEvent>)
    ensures HandleInputs(d, a + b) == HandleInputs(HandleInputs(d, a), b)
    decreases |b|
  {
    if |b| == 0 {
      assert a + b == a;
    } else {
      HandleInputsAppend(d, a, b[..|b| - 1]);
      assert (a + b)[..|a + b| - 1] == a + b[..|b| - 1];
    }
  }

  /** Over frames whose timestamps never run backwards, starting no earlier
      than the last frame seen, the motor speed stays in [-8, 8] and the
      recorded frame time never decreases, whatever steering the input
      events ask for between frames. */
  lemma {:induction false} MonotoneFramesKeepSpeedInRange(app: AppState, rider: ControllerState,
                                                          frames: seq<AnimationFrame>)
    requires InSpeedRange(rider.motorSpeed)
    requires forall k :: 0 <= k < |frames| ==> frames[k].time >= app.lastAnimateTime
    requires forall j, k :: 0 <= j < k < |frames| ==> frames[j].time <= frames[k].time
    ensures InSpeedRange(Ticks(app, rider, frames).1.motorSpeed)
    ensures |frames| > 0 ==> Ticks(app, rider, frames).0.lastAnimateTime <= frames[|frames| - 1].time
    ensures |frames| == 0 ==> Ticks(app, rider, frames).0.lastAnimateTime == app.lastAnimateTime
    decreases |frames|
  {
    if |frames| > 0 {
      var prefix := frames[..|frames| - 1];
      MonotoneFramesKeepSpeedInRange(app, rider, prefix);
      var prev := Ticks(app, rider, prefix);
      var last := frames[|frames| - 1];
      if |prefix| > 0 {
        assert prefix[|prefix| - 1] == frames[|frames| - 2];
      }
      assert last.time >= prev.0.lastAnimateTime;
    }
  }

  /** While the application is inactive, frames leave the controller and
      the frame clock untouched; only the input handlers, which run
      regardless, move the direction. */
  lemma {:induction false} InactiveFramesChangeNothing(app: AppState, rider: ControllerState,
                                                       frames: seq<AnimationFrame>)
    requires !app.active
    ensures Ticks(app, rider, frames) == (app.(direction := HandleInputs(app.direction, Events(frames))), rider)
    decreases |frames|
  {
    if |frames| > 0 {
      var prefix := frames[..|frames| - 1];
      InactiveFramesChangeNothing(app, rider, prefix);
      HandleInputsAppend(app.direction, Events(prefix), frames[|frames| - 1].events);
    }
  }
}
