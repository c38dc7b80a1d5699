/** The rider's balance controller: what `handlePostWorldStep` decides after
    every world step from the shaft angle, the steering direction, the two
    contact flags and the clock. The physics engine is outside the model:
    its readings arrive in a `StepInput`, and what the controller hands back
    to it (the wheel motor's speed and the forces it writes) is recorded in
    the next `ControllerState`. */
module Balance {
  import opened Numeric
  import opened Wrappers

  /** The steering input; `Idle` is the source's `null` direction. */
  datatype Direction = Idle | Left | Right

  /** Absolute limit of the wheel motor's speed, in p2 speed units. */
  const MaximumSpeed: real := 8.0
  /** Speed gained per step at the nominal 60 Hz frame rate. */
  const SpeedIncrementFactor: real := 0.0375

  const MaxSafeAngle: real := Pi / 32.0
  const MaxCorrectableAngle: real := Pi / 8.0
  const CollapsedAngle: real := Pi / 2.0
  /** Beyond this tilt the rider is in no zone at all. */
  const LyingAngle: real := Pi * 0.75

  const CorrectionAngularForce: real := 4.0
  const HoistAngularForce: real := 30.0
  const TorsoPushForceX: real := 0.05

  /** How long, in milliseconds, tilt correction stays on after the last
      steering input. */
  const CorrectionWindow: real := 1000.0

  /** Once the history holds more than this many positions, the oldest is
      dropped before the next one is appended. */
  const HistoryLimit: nat := 30

  // ---------------------------------------------------------------------
  // Angle normalisation and zones
  // ---------------------------------------------------------------------

  /** The shaft angle folded into [-pi, pi]: JavaScript's `%` by 2*pi, then
      one more turn added or removed when the remainder lies outside. The
      result differs from the raw angle by whole turns only. */
  function NormaliseAngle(raw: real): (a: real)
    ensures -Pi <= a <= Pi
    ensures IsMultiple(raw - a, 2.0 * Pi)
  {
    var turn := Pi * 2.0;
    var r := JsRem(raw, turn);
    if r < -Pi then
      MultipleShift(raw - r, turn);
      turn + r
    else if r > Pi then
      MultipleShift(raw - r, turn);
      -(turn - r)
    else
      r
  }

  /** An angle already in [-pi, pi] is left as it is, so normalising twice is
      the same as normalising once. */
  lemma NormaliseFixesPrincipal(a: real)
    requires -Pi <= a <= Pi
    ensures NormaliseAngle(a) == a
    ensures NormaliseAngle(NormaliseAngle(a)) == NormaliseAngle(a)
  {
    var turn := Pi * 2.0;
    var r := JsRem(a, turn);
    SmallMultipleIsZero(a - r, turn);
  }

  /** Two raw angles a whole number of turns apart normalise to angles that
      are also a whole number of turns apart, and the normalised angle is the
      only point of [-pi, pi) with that property, save for the pair -pi, pi. */
  lemma NormaliseIsPrincipal(raw: real, b: real)
    requires -Pi <= b <= Pi
    requires IsMultiple(raw - b, 2.0 * Pi)
    ensures NormaliseAngle(raw) == b || Abs(NormaliseAngle(raw) - b) == 2.0 * Pi
  {
    var turn := 2.0 * Pi;
    var a := NormaliseAngle(raw);
    MultipleDifference(raw - b, raw - a, turn);
    var d := a - b;
    assert (raw - b) - (raw - a) == d;
    if d != 0.0 && Abs(d) != turn {
      SmallMultipleIsZero(d, turn);
    }
  }

  /** The difference of two whole multiples is a whole multiple. */
  lemma MultipleDifference(x: real, y: real, m: real)
    requires m > 0.0
    requires IsMultiple(x, m) && IsMultiple(y, m)
    ensures IsMultiple(x - y, m)
  {
    var i := x / m;
    var j := y / m;
    DivideOut(x, m);
    DivideOut(y, m);
    assert x - y == (i - j) * m;
    DivideBack(x - y, i - j, m);
    assert (i - j).Floor == i.Floor - j.Floor;
  }

  /** The three tilt zones of one step. */
  datatype Zones = Zones(upright: bool, uprightable: bool, collapsed: bool)

  /** The zones of a normalised angle: upright below pi/32, correctable below
      pi/8, collapsed strictly between pi/2 and 0.75*pi. */
  function Classify(angle: real): (z: Zones)
    ensures z.upright ==> z.uprightable
    ensures !(z.collapsed && z.uprightable)
    ensures Abs(angle) >= LyingAngle ==> !z.upright && !z.uprightable && !z.collapsed
  {
    var tilt := Abs(angle);
    Zones(tilt < MaxSafeAngle, tilt < MaxCorrectableAngle,
          tilt > CollapsedAngle && tilt < LyingAngle)
  }

  // ---------------------------------------------------------------------
  // Wheel motor
  // ---------------------------------------------------------------------

  predicate InSpeedRange(speed: real) {
    -MaximumSpeed <= speed <= MaximumSpeed
  }

  /** The motor speed set while the wheel is grounded and the rider is not
      collapsed: `Left` accelerates backwards down to -8, `Right` forwards up
      to 8, no input stops the wheel. */
  function NextMotorSpeed(current: real, direction: Direction, increment: real): (speed: real)
    ensures direction == Idle ==> speed == 0.0
    ensures direction == Left ==>
      speed >= -MaximumSpeed && speed >= current - increment &&
      (speed == -MaximumSpeed || speed == current - increment)
    ensures direction == Right ==>
      speed <= MaximumSpeed && speed <= current + increment &&
      (speed == MaximumSpeed || speed == current + increment)
    ensures InSpeedRange(current) && increment >= 0.0 ==> InSpeedRange(speed)
    ensures direction == Left && InSpeedRange(current) && increment >= 0.0 ==> speed <= current
    ensures direction == Right && InSpeedRange(current) && increment >= 0.0 ==> speed >= current
  {
    match direction
    case Left => Max(current - increment, -MaximumSpeed)
    case Right => Min(current + increment, MaximumSpeed)
    case Idle => 0.0
  }

  // ---------------------------------------------------------------------
  // Forces
  // ---------------------------------------------------------------------

  /** -1 for an angle tilted to the positive side, +1 otherwise: the sign of
      a torque that turns the shaft back toward upright. */
  function RightingSign(angle: real): (s: real)
    ensures s == 1.0 || s == -1.0
    ensures angle > 0.0 <==> s < 0.0
  {
    if angle > 0.0 then -1.0 else 1.0
  }

  /** The horizontal push on the torso that leans the rider into the move. */
  function TorsoPush(z: Zones, direction: Direction): (force: Option<Vec2>)
    ensures force.Some? <==> z.upright && direction != Idle
    ensures force.Some? ==> force.value.y == 0.0 && Abs(force.value.x) == TorsoPushForceX
    ensures force.Some? ==> (force.value.x < 0.0 <==> direction == Left)
  {
    if z.upright && direction != Idle then
      Some(Vec2(TorsoPushForceX * (if direction == Left then -1.0 else 1.0), 0.0))
    else
      None
  }

  /** The torque written onto the shaft: a strong hoist when lying on the
      torso and steering, a gentle correction when tilted but recoverable
      and recently steered. Both turn the shaft toward upright. */
  function ShaftTorque(z: Zones, angle: real, direction: Direction, torsoOnTerrain: bool,
                       timeSinceActive: real): (torque: Option<real>)
    requires z.upright ==> z.uprightable
    requires !(z.collapsed && z.uprightable)
    ensures torque.Some? ==> !z.upright
    ensures torque.Some? ==> (torque.value < 0.0 <==> angle > 0.0)
    ensures torque.Some? && z.collapsed ==> Abs(torque.value) == HoistAngularForce
    ensures torque.Some? && !z.collapsed ==> Abs(torque.value) == CorrectionAngularForce
    ensures z.collapsed ==> (torque.Some? <==> torsoOnTerrain && direction != Idle)
    ensures z.uprightable && !z.upright ==> (torque.Some? <==> timeSinceActive < CorrectionWindow)
    ensures !z.collapsed && !z.uprightable ==> torque.None?
  {
    if z.upright then None
    else if z.collapsed then
      if torsoOnTerrain && direction != Idle then Some(HoistAngularForce * RightingSign(angle))
      else None
    else if z.uprightable && timeSinceActive < CorrectionWindow then
      Some(CorrectionAngularForce * RightingSign(angle))
    else None
  }

  // ---------------------------------------------------------------------
  // Position history
  // ---------------------------------------------------------------------

  /** The history a new rider starts with: the spawn position 30 times. */
  function InitialHistory(position: Vec2): (h: seq<Vec2>)
    ensures |h| == HistoryLimit
    ensures forall i :: 0 <= i < |h| ==> h[i] == position
  {
    seq(HistoryLimit, _ => position)
  }

  /** Appends one wheel position, first dropping the oldest when the history
      already holds more than 30. */
  function RecordPosition(history: seq<Vec2>, position: Vec2): (h: seq<Vec2>)
    ensures |h| == if |history| > HistoryLimit then |history| else |history| + 1
    ensures h[|h| - 1] == position
    ensures h[..|h| - 1] == if |history| > HistoryLimit then history[1..] else history
  {
    (if |history| > HistoryLimit then history[1..] else history) + [position]
  }

  // ---------------------------------------------------------------------
  // One controller step
  // ---------------------------------------------------------------------

  /** What the controller keeps between steps and what it last handed to the
      engine. `torsoForce` and `shaftAngularForce` are the writes made during
      the most recent step; `None` means that step wrote nothing onto that
      body, leaving what the body holds to the engine. */
  datatype ControllerState = ControllerState(
    motorSpeed: real,
    lastActiveTime: real,
    torsoForce: Option<Vec2>,
    shaftAngularForce: Option<real>,
    history: seq<Vec2>)

  /** The readings one step works from: the shaft's raw angle as the engine
      reports it, the steering direction, the contact flags, the clock in
      milliseconds, the frame's time multiplier and the wheel's position. */
  datatype StepInput = StepInput(
    shaftAngle: real,
    direction: Direction,
    wheelOnTerrain: bool,
    torsoOnTerrain: bool,
    now: real,
    timeMultiplier: real,
    wheelPosition: Vec2)

  /** The controller of a freshly built rider: motor at rest, never active,
      nothing written, history filled with the spawn position. */
  function InitialState(position: Vec2): (s: ControllerState)
    ensures s.motorSpeed == 0.0 && InSpeedRange(s.motorSpeed)
    ensures s.lastActiveTime == 0.0
    ensures s.torsoForce.None? && s.shaftAngularForce.None?
    ensures |s.history| == HistoryLimit
    ensures forall k :: 0 <= k < |s.history| ==> s.history[k] == position
  {
    ControllerState(0.0, 0.0, None, None, InitialHistory(position))
  }

  /** The time of the latest step that had a steering input. */
  function LastActive(s: ControllerState, i: StepInput): real {
    if i.direction != Idle then i.now else s.lastActiveTime
  }

  /** The zones of a raw shaft angle, once normalised. */
  function AngleZones(shaftAngle: real): Zones {
    Classify(NormaliseAngle(shaftAngle))
  }

  /** One run of `handlePostWorldStep`. */
  function Step(s: ControllerState, i: StepInput): (r: ControllerState)
    ensures i.direction != Idle ==> r.lastActiveTime == i.now
    ensures i.direction == Idle ==> r.lastActiveTime == s.lastActiveTime
    ensures !(r.torsoForce.Some? && r.shaftAngularForce.Some?)
    ensures InSpeedRange(s.motorSpeed) && i.timeMultiplier >= 0.0 ==> InSpeedRange(r.motorSpeed)
    ensures r.history == RecordPosition(s.history, i.wheelPosition)
  {
    var angle := NormaliseAngle(i.shaftAngle);
    var z := AngleZones(i.shaftAngle);
    var lastActive := LastActive(s, i);
    var increment := SpeedIncrementFactor * i.timeMultiplier;
    var speed :=
      if i.wheelOnTerrain && !z.collapsed then NextMotorSpeed(s.motorSpeed, i.direction, increment)
      else s.motorSpeed;
    var push := if i.wheelOnTerrain then TorsoPush(z, i.direction) else None;
    var torque :=
      if i.wheelOnTerrain then ShaftTorque(z, angle, i.direction, i.torsoOnTerrain, i.now - lastActive)
      else None;
    ControllerState(speed, lastActive, push, torque, RecordPosition(s.history, i.wheelPosition))
  }

  // ---------------------------------------------------------------------
  // Properties of one step
  // ---------------------------------------------------------------------

  /** In the air the controller touches neither the motor nor any force. A
      collapsed rider's motor keeps its speed too. */
  lemma AirborneOrCollapsedKeepsMotor(s: ControllerState, i: StepInput)
    ensures !i.wheelOnTerrain ==>
      Step(s, i).motorSpeed == s.motorSpeed &&
      Step(s, i).torsoForce.None? && Step(s, i).shaftAngularForce.None?
    ensures AngleZones(i.shaftAngle).collapsed ==> Step(s, i).motorSpeed == s.motorSpeed
  {
  }

  /** Grounded, upright enough to drive and without input, the wheel stops
      whatever it was doing. */
  lemma IdleStopsWheel(s: ControllerState, i: StepInput)
    requires i.wheelOnTerrain && i.direction == Idle
    ensures !AngleZones(i.shaftAngle).collapsed ==> Step(s, i).motorSpeed == 0.0
  {
  }

  /** Grounded and not collapsed, steering moves the motor speed toward the
      chosen end of its range, clamped there. */
  lemma SteeringRamps(s: ControllerState, i: StepInput)
    requires i.wheelOnTerrain
    ensures !AngleZones(i.shaftAngle).collapsed && i.direction == Left ==>
      Step(s, i).motorSpeed == Max(s.motorSpeed - SpeedIncrementFactor * i.timeMultiplier, -MaximumSpeed)
    ensures !AngleZones(i.shaftAngle).collapsed && i.direction == Right ==>
      Step(s, i).motorSpeed == Min(s.motorSpeed + SpeedIncrementFactor * i.timeMultiplier, MaximumSpeed)
    ensures i.direction == Left && InSpeedRange(s.motorSpeed) && i.timeMultiplier >= 0.0 ==>
      Step(s, i).motorSpeed <= s.motorSpeed
    ensures i.direction == Right && InSpeedRange(s.motorSpeed) && i.timeMultiplier >= 0.0 ==>
      Step(s, i).motorSpeed >= s.motorSpeed
  {
  }

  /** The four force rules of a grounded step: lean when upright and
      steering, hoist when lying on the torso and steering, correct a
      recoverable tilt for a second after the last input, otherwise write
      nothing. */
  lemma ForceRules(s: ControllerState, i: StepInput)
    requires i.wheelOnTerrain
    ensures var a := NormaliseAngle(i.shaftAngle);
      var z := AngleZones(i.shaftAngle);
      var r := Step(s, i);
      var sinceActive := i.now - r.lastActiveTime;
      (z.upright && i.direction != Idle ==>
        r.torsoForce == Some(Vec2(if i.direction == Left then -TorsoPushForceX else TorsoPushForceX, 0.0)) &&
        r.shaftAngularForce.None?) &&
      (z.collapsed && i.torsoOnTerrain && i.direction != Idle ==>
        r.shaftAngularForce == Some(if a > 0.0 then -HoistAngularForce else HoistAngularForce) &&
        r.torsoForce.None?) &&
      (z.uprightable && !z.upright && sinceActive < CorrectionWindow ==>
        r.shaftAngularForce == Some(if a > 0.0 then -CorrectionAngularForce else CorrectionAngularForce) &&
        r.torsoForce.None?) &&
      (!(z.upright && i.direction != Idle) &&
       !(z.collapsed && i.torsoOnTerrain && i.direction != Idle) &&
       !(z.uprightable && !z.upright && sinceActive < CorrectionWindow) ==>
        r.torsoForce.None? && r.shaftAngularForce.None?)
  {
  }

  /** Steering keeps tilt correction on: a step with a direction measures no
      time since the rider was last active. */
  lemma SteeringKeepsCorrectionOn(s: ControllerState, i: StepInput)
    requires i.wheelOnTerrain && i.direction != Idle
    ensures AngleZones(i.shaftAngle).uprightable && !AngleZones(i.shaftAngle).upright ==> Step(s, i).shaftAngularForce.Some?
  {
  }

  /** A rider tilted 100 degrees either way, lying on the torso and
      steering, is hoisted with 30 units of torque against the tilt. */
  lemma HoistExample(s: ControllerState, i: StepInput)
    requires i.wheelOnTerrain && i.torsoOnTerrain && i.direction != Idle
    requires i.shaftAngle == Pi * 100.0 / 180.0 || i.shaftAngle == -Pi * 100.0 / 180.0
    ensures Step(s, i).shaftAngularForce == Some(if i.shaftAngle > 0.0 then -30.0 else 30.0)
    ensures Step(s, i).motorSpeed == s.motorSpeed
  {
    NormaliseFixesPrincipal(i.shaftAngle);
  }

  /** A rider tilted 10 degrees is corrected with 4 units of torque while
      the last input is under a second old, and left alone after that. */
  lemma CorrectionExample(s: ControllerState, i: StepInput)
    requires i.wheelOnTerrain && i.direction == Idle
    requires i.shaftAngle == Pi * 10.0 / 180.0
    ensures i.now - s.lastActiveTime == 500.0 ==> Step(s, i).shaftAngularForce == Some(-4.0)
    ensures i.now - s.lastActiveTime == 1500.0 ==> Step(s, i).shaftAngularForce.None?
    ensures Step(s, i).motorSpeed == 0.0
  {
    NormaliseFixesPrincipal(i.shaftAngle);
  }

  // ---------------------------------------------------------------------
  // Many steps
  // ---------------------------------------------------------------------

  /** The controller after a sequence of steps, the last input applied last. */
  function Run(s: ControllerState, inputs: seq<StepInput>): ControllerState
    decreases |inputs|
  {
    if |inputs| == 0 then s
    else Step(Run(s, inputs[..|inputs| - 1]), inputs[|inputs| - 1])
  }

  /** The wheel positions a run of steps records, in order. */
  function Positions(inputs: seq<StepInput>): (ps: seq<Vec2>)
    ensures |ps| == |inputs|
    ensures forall k :: 0 <= k < |inputs| ==> ps[k] == inputs[k].wheelPosition
  {
    seq(|inputs|, k requires 0 <= k < |inputs| => inputs[k].wheelPosition)
  }

  /** Motor speed never leaves [-8, 8] over any run that starts in range and
      never runs time backwards. */
  lemma {:induction false} SpeedStaysInRange(s: ControllerState, inputs: seq<StepInput>)
    requires InSpeedRange(s.motorSpeed)
    requires forall k :: 0 <= k < |inputs| ==> inputs[k].timeMultiplier >= 0.0
    ensures InSpeedRange(Run(s, inputs).motorSpeed)
    decreases |inputs|
  {
    if |inputs| > 0 {
      var prefix := inputs[..|inputs| - 1];
      SpeedStaysInRange(s, prefix);
    }
  }

  /** A run of idle steps never moves `lastActiveTime`. */
  lemma {:induction false} IdleRunKeepsLastActive(s: ControllerState, inputs: seq<StepInput>)
    requires forall k :: 0 <= k < |inputs| ==> inputs[k].direction == Idle
    ensures Run(s, inputs).lastActiveTime == s.lastActiveTime
    decreases |inputs|
  {
    if |inputs| > 0 {
      IdleRunKeepsLastActive(s, inputs[..|inputs| - 1]);
    }
  }

  /** After a run, `lastActiveTime` is the clock of the latest step that had
      a direction. */
  lemma {:induction false} LastActiveIsLatestInput(s: ControllerState, inputs: seq<StepInput>, k: nat)
    requires k < |inputs| && inputs[k].direction != Idle
    requires forall j :: k < j < |inputs| ==> inputs[j].direction == Idle
    ensures Run(s, inputs).lastActiveTime == inputs[k].now
    decreases |inputs|
  {
    if k < |inputs| - 1 {
      var prefix := inputs[..|inputs| - 1];
      assert inputs[|inputs| - 1].direction == Idle;
      LastActiveIsLatestInput(s, prefix, k);
    }
  }

  /** A history of 30 or 31 positions stays that long or grows to 31, and
      after at least one step it is the last 31 positions of the old history
      followed by the new ones. */
  lemma {:induction false} HistoryIsTrailingWindow(h: seq<Vec2>, ps: seq<Vec2>)
    requires HistoryLimit <= |h| <= HistoryLimit + 1
    requires |ps| > 0
    ensures |Record(h, ps)| == HistoryLimit + 1
    ensures Record(h, ps) == (h + ps)[|h + ps| - (HistoryLimit + 1)..]
    decreases |ps|
  {
    var prefix := ps[..|ps| - 1];
    RecordLast(h, ps);
    if |prefix| == 0 {
      RecordNothing(h, prefix);
      WindowSlides(h, h + prefix, ps[|ps| - 1]);
    } else {
      HistoryIsTrailingWindow(h, prefix);
      WindowSlides(Record(h, prefix), h + prefix, ps[|ps| - 1]);
    }
  }

  /** Recording a non-empty run of positions is recording all but the last,
      then the last. */
  lemma RecordLast(h: seq<Vec2>, ps: seq<Vec2>)
    requires |ps| > 0
    ensures Record(h, ps) == RecordPosition(Record(h, ps[..|ps| - 1]), ps[|ps| - 1])
    ensures h + ps == (h + ps[..|ps| - 1]) + [ps[|ps| - 1]]
  {
    SplitLast(h, ps);
  }

  /** Appending a non-empty sequence is appending all but its last element,
      then that element. */
  lemma SplitLast<T>(h: seq<T>, ps: seq<T>)
    requires |ps| > 0
    ensures h + ps == (h + ps[..|ps| - 1]) + [ps[|ps| - 1]]
  {
    assert ps == ps[..|ps| - 1] + [ps[|ps| - 1]];
  }

  /** Recording no positions leaves the history as it is. */
  lemma RecordNothing(h: seq<Vec2>, ps: seq<Vec2>)
    requires |ps| == 0
    ensures Record(h, ps) == h && h + ps == h
  {
  }

  /** Recording one position onto a 30- or 31-entry trailing window of `all`
      gives the 31-entry trailing window of `all` with that position. */
  lemma WindowSlides(w: seq<Vec2>, all: seq<Vec2>, p: Vec2)
    requires HistoryLimit <= |w| <= HistoryLimit + 1 && |w| <= |all|
    requires w == all[|all| - |w|..]
    ensures |RecordPosition(w, p)| == HistoryLimit + 1
    ensures RecordPosition(w, p) == (all + [p])[|all + [p]| - (HistoryLimit + 1)..]
  {
    var r := RecordPosition(w, p);
    var t := (all + [p])[|all + [p]| - (HistoryLimit + 1)..];
    assert |r| == |t|;
    forall k | 0 <= k < |r|
      ensures r[k] == t[k]
    {
      if k < |r| - 1 {
        assert r[k] == (if |w| > HistoryLimit then w[1..] else w)[k];
      }
    }
  }

  /** The history after appending positions one at a time. */
  function Record(h: seq<Vec2>, ps: seq<Vec2>): seq<Vec2>
    decreases |ps|
  {
    if |ps| == 0 then h
    else RecordPosition(Record(h, ps[..|ps| - 1]), ps[|ps| - 1])
  }

  /** The history a run leaves is the history recorded from its inputs'
      wheel positions. */
  lemma {:induction false} RunRecordsPositions(s: ControllerState, inputs: seq<StepInput>)
    ensures Run(s, inputs).history == Record(s.history, Positions(inputs))
    decreases |inputs|
  {
    if |inputs| > 0 {
      var prefix := inputs[..|inputs| - 1];
      RunRecordsPositions(s, prefix);
      assert Positions(inputs)[..|inputs| - 1] == Positions(prefix);
    }
  }

  /** A rider built at `position` and stepped at least once holds the most
      recent 31 of the spawn fill followed by every recorded wheel
      position. */
  lemma {:induction false} HistoryWindowAfterSpawn(position: Vec2, inputs: seq<StepInput>)
    requires |inputs| > 0
    ensures var all := InitialHistory(position) + Positions(inputs);
      Run(InitialState(position), inputs).history == all[|all| - (HistoryLimit + 1)..]
  {
    RunRecordsPositions(InitialState(position), inputs);
    HistoryIsTrailingWindow(InitialHistory(position), Positions(inputs));
  }

  /** A rider built at `position` and stepped at least once holds 31
      positions, one more than the spawn fill. */
  lemma {:induction false} HistoryAfterSpawn(position: Vec2, inputs: seq<StepInput>)
    requires |inputs| > 0
    ensures |Run(InitialState(position), inputs).history| == HistoryLimit + 1
  {
    HistoryWindowAfterSpawn(position, inputs);
  }
}
