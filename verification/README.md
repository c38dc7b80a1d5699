# Unicycle rider: balance controller, contact tracking, skeleton and frame driver

This project models the decision logic of a 2D physics game in which a
rider balances on a unicycle. The physics engine (p2) and the renderer
(Babylon) are outside the model. What remains is pure logic over reals:

- **Skeleton** (`skeleton.dfy`): the thirteen rigid bodies of the rider and
  unicycle, with their masses, spawn offsets and first-shape materials. It
  also covers the fourteen joints that connect them (revolute joints with
  their motor and limits, and one lock joint), and the order in which the
  `Player` constructor registers all of them with the world.
- **Contacts** (`contacts.dfy`): the begin/end contact handlers. They keep
  two flags, "wheel on terrain" and "torso on terrain", and use the
  `isBodyTerrainContact` test to decide which contacts count. The file also
  contains a corrected tracker that counts contacts; see Findings.
- **Balance** (`balance.dfy`): `handlePostWorldStep`, written as a pure
  function from a `ControllerState` and a `StepInput` to the next state.
  - It normalises the shaft angle and sorts it into tilt zones.
  - It ramps or stops the wheel motor.
  - It writes a lean force on the torso, or a righting torque on the shaft.
  - It appends the wheel position to a trailing history.
- **Frame** (`frame.dfy`): `App.animate` and the input handlers. `animate`
  computes a clamped frame delta, the `world.step` request and the time
  multiplier, and does none of it while the app is inactive. The input
  handlers turn key and pointer events into a steering direction. `Tick`
  connects one frame to one controller step. `Ticks` runs a sequence of
  frames, each preceded by the input events handled since the frame
  before.
- `numeric.dfy` holds the shared numeric helpers: π, absolute value,
  min/max, and JavaScript's truncating `%` on reals. `wrappers.dfy` holds
  `Option`.

These source inputs become parameters:

| source input | model |
|---|---|
| `performance.now()` | `StepInput.now` |
| animation-frame timestamp | `time` |
| canvas width | a field of the pointer event |
| shaft angle, wheel position, contact events | read-outs of the physics world |
| `Math.PI` | an abstract constant, known only to lie in (3.14159, 3.14160) |

Three facts about the code shape the contracts:

- **Angle range.** The code folds the angle only when the remainder is
  strictly below -π or strictly above π (src/js/Player.ts:128-134). Both -π
  and π can come out, and `Balance.NormaliseAngle` promises [-π, π].
- **History length.** The code drops the oldest position only when the
  history holds more than 30, and then appends (src/js/Player.ts:182-185).
  The history starts with 30 entries, so it holds 31 after the first step.
  `Balance.HistoryAfterSpawn` proves 31.
- **Third argument of `world.step`.** It is p2's cap on the number of
  sub-steps per call (src/js/App.ts:79). `Frame.WorldStep` records it as
  `maxSubSteps`.

## Model

| member | source | states |
|---|---|---|
| Numeric.JsRem | src/js/Player.ts:128 | JavaScript's `%` by a positive modulus: the result lies strictly within one modulus of zero, takes the dividend's sign, and differs from the dividend by a whole number of moduli |
| Balance.NormaliseAngle | src/js/Player.ts:128-133 | for every raw shaft angle, the normalised angle lies in [-π, π] and differs from the raw angle by whole turns |
| Balance.NormaliseFixesPrincipal | src/js/Player.ts:128-133 | an angle already in [-π, π] is returned unchanged, so normalising is idempotent |
| Balance.NormaliseIsPrincipal | src/js/Player.ts:128-133 | the normalised angle is the representative in [-π, π] of the raw angle's class modulo 2π; it is unique except that -π and π both represent the same class |
| Balance.Classify | src/js/Player.ts:137-139 | upright implies uprightable; collapsed and uprightable never hold together; a tilt of 0.75π or more is in no zone |
| Balance.NextMotorSpeed | src/js/Player.ts:150-158 | Idle gives 0. Left clamps the decreased speed at -8, and Right clamps the increased speed at 8. A speed in [-8, 8] with a non-negative increment stays in range. Left never raises the speed and Right never lowers it |
| Balance.TorsoPush | src/js/Player.ts:163-167 | a torso force is written exactly when upright with a direction; it is horizontal with magnitude 0.05 and points left exactly for `Left` |
| Balance.ShaftTorque | src/js/Player.ts:168-178 | No torque is written when upright. When collapsed, the torque is 30 exactly when the torso is on terrain with a direction. When tilted but correctable, it is 4 exactly within 1000 ms of the last input. Otherwise no torque is written. Any torque opposes the tilt |
| Balance.Step | src/js/Player.ts:124-186 | one controller step: `lastActiveTime` moves to `now` exactly when steering. A torso force and a shaft torque are never written in the same step. Motor speed stays in [-8, 8] for a non-negative multiplier. The history gets the wheel position recorded |
| Balance.AirborneOrCollapsedKeepsMotor | src/js/Player.ts:147-161 | with the wheel off terrain, motor speed is unchanged and no force is written; when collapsed, motor speed is unchanged |
| Balance.IdleStopsWheel | src/js/Player.ts:156-160 | grounded, not collapsed and idle, the motor speed becomes exactly 0 whatever it was |
| Balance.SteeringRamps | src/js/Player.ts:152-155 | grounded and not collapsed, Left gives max(old − 0.0375·tm, −8), which is non-increasing, and Right gives min(old + 0.0375·tm, 8), which is non-decreasing |
| Balance.ForceRules | src/js/Player.ts:163-177 | grounded: upright with a direction gives torso force (∓0.05, 0) and no torque; collapsed, torso down and steering gives torque ∓30; uprightable, not upright and active within 1000 ms gives ∓4, negative exactly when the angle is positive; otherwise nothing is written |
| Balance.SteeringKeepsCorrectionOn | src/js/Player.ts:141-145 | a step with a direction measures zero time since activity, so a correctable tilt is always corrected while steering |
| Balance.HoistExample | src/js/Player.ts:169-173 | a ±100° tilt with torso down and a direction gives torque ∓30 and leaves the motor speed unchanged |
| Balance.CorrectionExample | src/js/Player.ts:174-177 | a +10° tilt gives torque −4 when the last input is 500 ms old and no torque when it is 1500 ms old; idle, the motor stops |
| Balance.SpeedStaysInRange | src/js/Player.ts:150-160 | over any run of steps that starts in [-8, 8] with non-negative multipliers, the motor speed stays in [-8, 8] |
| Balance.IdleRunKeepsLastActive | src/js/Player.ts:142-144 | a run of idle steps never moves `lastActiveTime` |
| Balance.LastActiveIsLatestInput | src/js/Player.ts:141-145 | after a run, `lastActiveTime` is the clock of the latest step that had a direction |
| Balance.InitialHistory | src/js/Player.ts:41-43 | a new rider's history is 30 copies of the spawn position |
| Balance.InitialState | src/js/Player.ts:22-43 | a new rider's controller has the motor at rest, a last active time of 0, no force written, and a history of 30 copies of the spawn position |
| Balance.RecordPosition | src/js/Player.ts:182-185 | recording grows a history of at most 30 by one, keeps a longer one at its length by dropping the oldest, and ends with the new position |
| Balance.WindowSlides | src/js/Player.ts:182-185 | recording onto a 30- or 31-entry trailing window of a position stream gives the 31-entry trailing window of the extended stream |
| Balance.HistoryIsTrailingWindow | src/js/Player.ts:182-185 | from 30 or 31 entries, after one or more positions the history is exactly the last 31 of the old history followed by the new positions |
| Balance.RunRecordsPositions | src/js/Player.ts:182-185 | a run's history is its starting history with every step's wheel position recorded in order |
| Balance.HistoryAfterSpawn | src/js/Player.ts:182-185 | a rider built at a position and stepped at least once holds 31 positions, one more than the 30 it starts with |
| Balance.HistoryWindowAfterSpawn | src/js/Player.ts:182-185 | those 31 positions are the most recent 31 of the spawn fill followed by every recorded wheel position |
| Frame.FrameDelta | src/js/App.ts:74-75 | the delta never exceeds 500; it is 0 on a first frame (`lastAnimateTime` 0) and after a gap over 500 ms, otherwise the time since the last frame; non-negative when time does not run backwards |
| Frame.TimeMultiplier | src/js/App.ts:82 | the multiplier times 1000/60 is the delta; a non-negative delta gives a non-negative multiplier, and a clamped delta at most 30 |
| Frame.Animate | src/js/App.ts:73-83 | an inactive frame changes nothing and requests no world step or controller step. An active frame records its time and requests a step of 1/60 with at most 10 sub-steps. The elapsed time is the frame delta: the real gap since the last frame when there was one and the gap is at most 500 ms, otherwise 0. The multiplier is that delta in units of 1000/60 ms |
| Frame.ResumeAfterPause | src/js/App.ts:74-82 | the first active frame after more than 500 ms asks for no elapsed time and passes multiplier 0 |
| Frame.MonotoneClockGivesNonNegativeMultiplier | src/js/App.ts:74-82 | a frame whose time is not earlier than the last frame's passes a non-negative multiplier |
| Frame.HandleInput | src/js/App.ts:116-155 | The result is Left exactly for ArrowLeft down, or a pointer down at or left of half the canvas width, or a Left kept through an ignored event. Right is the mirror case. ArrowLeft/ArrowRight up and pointer up give Idle. Every other event keeps the direction |
| Frame.PressReleaseIsIdle | src/js/App.ts:116-153 | pressing and releasing an arrow key, or touching and lifting, sets a direction and then returns to Idle |
| Frame.SetterIgnoresPrior | src/js/App.ts:116-155 | an event that sets the direction does not depend on the direction before it |
| Frame.LatestSteeringEventDecides | src/js/App.ts:116-155 | after any event sequence, the direction is the one set by the last event that sets a direction |
| Frame.Tick | src/js/App.ts:73-83 | an inactive frame leaves app and controller unchanged. An active frame records its time and runs one controller step: the wheel position is appended to the history, the active time moves to the clock exactly when a direction is held, and an airborne wheel keeps the motor speed and writes no force. With time not running backwards, the motor speed stays in [-8, 8] |
| Frame.SteeringFollowsFrameDelta | src/js/App.ts:74-82 | in a grounded, not collapsed frame after a real gap of at most 500 ms, holding right raises the motor speed by 0.0375 per 1000/60 ms of that gap, capped at 8. Holding left lowers it the same way, floored at -8. Idle stops the wheel |
| Frame.FrameRunsController | src/js/App.ts:73-83 | an active frame's controller step is exactly `handlePostWorldStep` on the world's raw shaft angle, both contact flags, the clock and the wheel position. It uses the direction the handlers left and the multiplier of this frame's delta |
| Frame.FrameForceRules | src/js/App.ts:83 | a grounded active frame applies the force rules to its own readings. A collapsed rider keeps the motor speed. Upright while steering leans the torso with (∓0.05, 0). Collapsed on the torso while steering hoists with ∓30 against the tilt. A recoverable tilt within 1000 ms of the last input is corrected with ∓4. Otherwise nothing is written |
| Frame.MonotoneFramesKeepSpeedInRange | src/js/App.ts:73-155 | over any sequence of frames with non-decreasing timestamps, none earlier than the last frame seen, the motor speed stays in [-8, 8]. This holds with any key and pointer events handled between frames |
| Frame.HandleInputsAppend | src/js/App.ts:116-155 | handling two batches of input events in turn is handling them as one batch |
| Frame.InactiveFramesChangeNothing | src/js/App.ts:73-155 | while the app is inactive, any number of frames leave the controller and the frame clock untouched. The direction is whatever the input handlers, which run regardless, make of all the events |
| Contacts.IsBodyTerrainContact | src/js/Player.ts:113-122 | a contact matches a body only if the body is one side of it and one side is terrain. When the body is exactly one side, the contact matches exactly when the other side's first shape is terrain |
| Contacts.BeginContact | src/js/Player.ts:96-102 | begin raises the wheel flag exactly for a wheel-terrain contact. It raises the torso flag exactly for a torso-terrain contact that is not also a wheel contact. Other flags are kept |
| Contacts.EndContact | src/js/Player.ts:104-110 | end clears the wheel flag exactly for a wheel-terrain contact and the torso flag exactly for a torso-only one; other flags are kept |
| Contacts.ClassificationSymmetric | src/js/Player.ts:113-122 | swapping the two sides of a contact changes neither the classification nor either handler's result |
| Contacts.WheelTakesPrecedence | src/js/Player.ts:96-110 | a contact matching the wheel changes only the wheel flag, even if it also matches the torso |
| Contacts.TorsoContactSetsTorsoOnly | src/js/Player.ts:96-110 | a contact matching only the torso changes only the torso flag |
| Contacts.SelfContactIgnored | src/js/Player.ts:113-122 | a contact between two of the rider's own bodies never changes either flag |
| Contacts.WheelFlagIsLatestEvent | src/js/Player.ts:95-111 | the wheel flag after any event stream is true exactly when the latest wheel event is a begin |
| Contacts.FlagDropsWhileContactPersists | src/js/Player.ts:104-110 | a wheel that begins touching a second platform and then ends its first contact still has an active terrain contact, but the flag reads false |
| Contacts.CountsTrackActive | src/js/Player.ts:95-111 | on every well-formed event stream, the corrected tracker's counts equal the numbers of active wheel and torso terrain contacts |
| Contacts.CountedFlagsExact | src/js/Player.ts:95-111 | on every well-formed event stream, the corrected tracker reports a body on terrain exactly while it has an active terrain contact |
| Contacts.CountedFlagsKeepOverlap | src/js/Player.ts:104-110 | on the overlapping-platform stream, the corrected tracker still reports the wheel on terrain |
| Skeleton.Assemble | src/js/Player.ts:45-90 | the constructor makes 27 registrations, the first adding the wheel and the last adding the hat weld |
| Skeleton.BodyTable | src/js/PlayerBodyFactory.ts:93-490 | the nine body builders give masses 0.2 (wheel, shaft), 0.05 (torso), 0.007 and 0.009 (leg sections), 0.0025 (arm sections), 0.007 (head) and 0.001 (hat). Each spawns at its fixed offset from the player's position, and its first shape is tyre, player material or unset |
| Skeleton.JointPivots | src/js/PlayerBodyFactory.ts:509-601 | the nine joint builders put their pivots at the numeric offsets the dimensions give, such as 0.5 above the shaft centre for the seat. The pedal pivot on the wheel is -0.12 for the front leg and 0.12 for the back. The hat sits 0.16625 above the head centre |
| Skeleton.AssembleWiredInOrder | src/js/Player.ts:45-90 | every constraint the constructor registers joins two bodies that are already registered |
| Skeleton.AssemblePassesWiringCheck | src/js/Player.ts:45-90 | the registration sequence passes the incremental check that each constraint's endpoints are among the bodies registered so far |
| Skeleton.AssembledBodies | src/js/Player.ts:45-90 | the constructor registers wheel, shaft and torso, then each leg, each arm, then head and hat, in that order |
| Skeleton.AssembledConstraints | src/js/Player.ts:45-90 | the constructor registers the fourteen joints in source order, each between the bodies the source names |
| Skeleton.BodiesDistinct | src/js/Player.ts:45-90 | thirteen bodies are registered, no part twice |
| Skeleton.WeightProportionsSumToOne | src/js/PlayerBodyFactory.ts:48-54 | torso, two of each limb section, head and hat proportions sum to exactly 1 |
| Skeleton.MassBudget | src/js/PlayerBodyFactory.ts:44-54 | the registered rider bodies weigh exactly the rider mass 0.1. Wheel and shaft together weigh exactly the unicycle mass 0.4, split evenly |
| Skeleton.NoTerrainMaterialOnSkeleton | src/js/PlayerBodyFactory.ts:61-62 | no registered body's first shape carries the terrain material |
| Skeleton.JointCount | src/js/Player.ts:45-90 | fourteen joints, none joining a body to itself |
| Skeleton.OnlyWheelMotorised | src/js/PlayerBodyFactory.ts:522-531 | the shaft-wheel joint is the only motorised joint of the skeleton |
| Skeleton.JointLimitsSane | src/js/PlayerBodyFactory.ts:509-595 | every joint with both limits enabled has lower < upper, and every enabled limit lies strictly within half a turn |
| Skeleton.ShaftWheelJoint | src/js/PlayerBodyFactory.ts:522-531 | the wheel joint's motor is enabled at speed 0 and it has no limits |
| Skeleton.ShaftTorsoJoint | src/js/PlayerBodyFactory.ts:514-517 | the seat joint has both limits enabled at ±0.05π and no motor |
| Skeleton.LegSectionsJoint | src/js/PlayerBodyFactory.ts:538-539 | the knee enables only a lower limit of 0.2π |
| Skeleton.ArmJoints | src/js/PlayerBodyFactory.ts:563-579 | elbow limits 0.12π to 0.7π, shoulder −0.3π to 0.2π, both ordered |
| Skeleton.HeadTorsoJoint | src/js/PlayerBodyFactory.ts:589-592 | the neck has both limits enabled at ±0.05π and no motor |
| Skeleton.PedalJointsMirrored | src/js/PlayerBodyFactory.ts:551-555 | front and back pedal joints differ only in pivot B's x offset, −0.12 and +0.12 |
| Skeleton.LimbBodiesMirrored | src/js/PlayerBodyFactory.ts:272-400 | front and back limb sections have the same mass, spawn position and material |

## Left out

- The p2 engine itself is not modelled: `world.step`, integration, constraint solving and contact generation. Contact events and the shaft angle are inputs. Motor speed and force writes are outputs. What the engine does with a zero elapsed time is its own business.
- How p2 holds forces between steps is not modelled. `applyForce` accumulates onto the torso, and the code adds its point argument as a torque arm. `angularForce` assignment overwrites. The model records only what each step writes.
- Rendering is not modelled: meshes, Babylon materials, textures, camera framing, the loading screen and mesh pose sync. Neither are the collision geometry of each body and the shapes beyond each body's first.
- The terrain layout and the terrain's own per-frame step are not modelled. The terrain only reads the position history.
- The info panel, the view-mode switch and the `setTimeout` re-activation are not modelled. `active` is a field of `AppState` that the model never changes itself.
- IEEE-754 arithmetic is not modelled. All numbers are exact reals, so rounding in `%`, in π·k limits and in 1000/60 is left out, and so are NaN and infinities. In particular a NaN `lastAnimateTime`, which JavaScript also treats as falsy, is not modelled.
- Balance.NormaliseIsPrincipal: uniqueness is up to the ±π pair, because the code keeps both -π and π.
- Frame.FrameDelta: a timestamp earlier than `lastAnimateTime` passes through as a negative delta, exactly as in the code. The speed-range results therefore assume timestamps that do not run backwards.
- Skeleton: body positions are kept only as the spawn offsets the factory gives. Pivot points of the revolute joints are kept; mesh offsets and z depths are not.

## Findings

| source | as written | input that shows it | evidently intended | confidence | as-written member | corrected member |
|---|---|---|---|---|---|---|
| src/js/Player.ts:104-110 | the end-contact handler clears the wheel (or torso) flag whenever any one of that body's terrain contacts ends | the wheel begins touching platform 1, then platform 2, then ends its contact with platform 1: it still touches platform 2 but `wheelOnTerrain` is false, so the controller stops updating the motor, which keeps its last speed, and writes no balance force | count active terrain contacts per body and report "on terrain" while the count is positive | high for the model, not executed | Contacts.FlagDropsWhileContactPersists | Contacts.CountedFlagsExact |
