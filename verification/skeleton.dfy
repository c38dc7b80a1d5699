/** The rider's rigid-body skeleton: the named bodies with their masses,
    spawn offsets and contact materials, the revolute and lock constraints
    that join them, and the order in which the Player constructor registers
    them with the physics world. Meshes and collision geometry are not part
    of this model. */
module Skeleton {
  import opened Numeric
  import opened Wrappers

  /** Which member of a mirrored limb pair (the source's `isFront`). */
  datatype Side = Front | Back

  /** The sign the source applies to mirrored offsets: `isFront ? -1 : 1`. */
  function SideSign(side: Side): (s: real)
    ensures s == 1.0 || s == -1.0
  {
    if side == Front then -1.0 else 1.0
  }

  /** The thirteen bodies of the rider and its unicycle. */
  datatype Part =
    | Wheel | Shaft | Torso
    | LegTop(side: Side) | LegBottom(side: Side)
    | ArmTop(side: Side) | ArmBottom(side: Side)
    | Head | Hat

  /** Bodies that belong to the rider rather than to the unicycle. */
  predicate IsRider(p: Part) {
    !(p.Wheel? || p.Shaft?)
  }

  /** The p2 material of a body's first shape. Shapes built through the
      shape factory get no material at all. */
  datatype Material = PlayerMaterial | PlayerTyre | TerrainMaterial | Unset

  datatype BodySpec = BodySpec(part: Part, mass: real, position: Vec2, firstMaterial: Material)

  // Dimensions used by the joint pivots.
  const ShaftHeight := 0.7
  const SeatHeight := 0.05
  const PelvisWidth := 0.2
  const TorsoWidth := 0.25
  const TorsoHeight := 0.5
  const LegSegmentLength := 0.4
  const ArmWidth := 0.125
  const ArmSegmentLength := 0.25
  const HeadRadius := TorsoWidth / 2.0
  const NeckHeight := HeadRadius * 0.5
  const HatBrimHeight := 0.01
  const HatTopHeight := HeadRadius

  // Mass budget: the rider's total mass is shared out by fixed proportions;
  // the unicycle carries its own mass.
  const PlayerMass := 0.1
  const UnicycleMass := 0.4

  const TorsoWeightProp := 0.5
  const LegTopWeightProp := 0.07
  const LegBottomWeightProp := 0.09
  const ArmTopWeightProp := 0.025
  const ArmBottomWeightProp := 0.025
  const HeadWeightProp := 0.07
  const HatWeightProp := 0.01

  function Half(x: real): real { x / 2.0 }

  function Offset(p: Vec2, dx: real, dy: real): Vec2 {
    Vec2(p.x + dx, p.y + dy)
  }

  // Body builders: mass, spawn position relative to the player's position,
  // and the material of the first shape added.

  function WheelBody(position: Vec2): BodySpec {
    BodySpec(Wheel, UnicycleMass * 0.5, position, PlayerTyre)
  }

  function ShaftBody(position: Vec2): BodySpec {
    BodySpec(Shaft, UnicycleMass * 0.5, Offset(position, 0.0, 0.35), PlayerMaterial)
  }

  function LegTopBody(position: Vec2, side: Side): BodySpec {
    BodySpec(LegTop(side), PlayerMass * LegTopWeightProp, Offset(position, -0.2, 0.2), Unset)
  }

  function LegBottomBody(position: Vec2, side: Side): BodySpec {
    BodySpec(LegBottom(side), PlayerMass * LegBottomWeightProp, Offset(position, -0.2, -0.2), Unset)
  }

  function TorsoBody(position: Vec2): BodySpec {
    BodySpec(Torso, PlayerMass * TorsoWeightProp, Offset(position, 0.0, 0.9), Unset)
  }

  function ArmTopBody(position: Vec2, side: Side): BodySpec {
    BodySpec(ArmTop(side), PlayerMass * ArmTopWeightProp, Offset(position, 0.0, 0.5), Unset)
  }

  function ArmBottomBody(position: Vec2, side: Side): BodySpec {
    BodySpec(ArmBottom(side), PlayerMass * ArmBottomWeightProp, Offset(position, 0.0, 0.5), Unset)
  }

  function HeadBody(position: Vec2): BodySpec {
    BodySpec(Head, PlayerMass * HeadWeightProp, position, PlayerMaterial)
  }

  function HatBody(position: Vec2): BodySpec {
    BodySpec(Hat, PlayerMass * HatWeightProp, position, Unset)
  }

  /** A joint between two bodies. A revolute joint has two local pivots, an
      optional motor (its target speed when enabled) and independently
      enabled lower and upper angle limits; a lock welds body B to body A at
      a fixed offset. */
  datatype Constraint =
    | Revolute(bodyA: Part, bodyB: Part, pivotA: Vec2, pivotB: Vec2,
               motor: Option<real>, lower: Option<real>, upper: Option<real>)
    | Lock(bodyA: Part, bodyB: Part, offsetB: Vec2)

  /** An unmotorised, unlimited revolute joint. */
  function FreeRevolute(a: Part, b: Part, pivotA: Vec2, pivotB: Vec2): Constraint {
    Revolute(a, b, pivotA, pivotB, None, None, None)
  }

  // Constraint builders, one per joint kind.

  function ShaftTorsoConstraint(shaft: Part, torso: Part): Constraint {
    Revolute(shaft, torso,
             Vec2(0.0, Half(ShaftHeight) + SeatHeight + Half(PelvisWidth)),
             Vec2(0.0, -Half(TorsoHeight) + TorsoHeight / 8.0),
             None, Some(Pi * -0.05), Some(Pi * 0.05))
  }

  function ShaftWheelConstraint(shaft: Part, wheel: Part): Constraint {
    Revolute(shaft, wheel, Vec2(0.0, -Half(ShaftHeight)), Vec2(0.0, 0.0), Some(0.0), None, None)
  }

  function LegSectionsConstraint(legTop: Part, legBottom: Part): Constraint {
    Revolute(legTop, legBottom,
             Vec2(0.0, -Half(LegSegmentLength)), Vec2(0.0, Half(LegSegmentLength)),
             None, Some(Pi * 0.2), None)
  }

  function LegTopShaftConstraint(legTop: Part, shaft: Part): Constraint {
    FreeRevolute(legTop, shaft,
                 Vec2(0.0, Half(LegSegmentLength)),
                 Vec2(0.0, Half(ShaftHeight) + SeatHeight + Half(PelvisWidth)))
  }

  function LegBottomWheelConstraint(legBottom: Part, wheel: Part, side: Side): Constraint {
    FreeRevolute(legBottom, wheel, Vec2(-0.175, -0.28), Vec2(0.12 * SideSign(side), 0.0))
  }

  function ArmSectionsConstraint(armBottom: Part, armTop: Part): Constraint {
    Revolute(armBottom, armTop,
             Vec2(0.0, Half(ArmSegmentLength)), Vec2(0.0, -Half(ArmSegmentLength)),
             None, Some(Pi * 0.12), Some(Pi * 0.7))
  }

  function TorsoArmTopConstraint(torso: Part, armTop: Part): Constraint {
    Revolute(torso, armTop,
             Vec2(0.0, Half(TorsoHeight) - Half(ArmWidth)), Vec2(0.0, Half(ArmSegmentLength)),
             None, Some(Pi * -0.3), Some(Pi * 0.2))
  }

  function HeadTorsoConstraint(torso: Part, head: Part): Constraint {
    Revolute(torso, head,
             Vec2(0.0, Half(TorsoHeight) - Half(ArmWidth)), Vec2(0.0, -(HeadRadius + NeckHeight)),
             None, Some(Pi * -0.05), Some(Pi * 0.05))
  }

  function HeadHatConstraint(head: Part, hat: Part): Constraint {
    Lock(head, hat, Vec2(0.0, HeadRadius * 0.75 + (Half(HatTopHeight) + HatBrimHeight)))
  }

  /** The body builders in numbers: the mass each body gets from the mass
      budget, where it spawns relative to the player's position, and the
      material of its first shape: tyre for the wheel, the default player
      material for the shaft's fork box and the head's circle, and none for
      the bodies whose first shape comes from the mesh-backed shape factory. */
  lemma BodyTable(p: Vec2, side: Side)
    ensures WheelBody(p) == BodySpec(Wheel, 0.2, p, PlayerTyre)
    ensures ShaftBody(p) == BodySpec(Shaft, 0.2, Vec2(p.x, p.y + 0.35), PlayerMaterial)
    ensures TorsoBody(p) == BodySpec(Torso, 0.05, Vec2(p.x, p.y + 0.9), Unset)
    ensures LegTopBody(p, side) == BodySpec(LegTop(side), 0.007, Vec2(p.x - 0.2, p.y + 0.2), Unset)
    ensures LegBottomBody(p, side) == BodySpec(LegBottom(side), 0.009, Vec2(p.x - 0.2, p.y - 0.2), Unset)
    ensures ArmTopBody(p, side) == BodySpec(ArmTop(side), 0.0025, Vec2(p.x, p.y + 0.5), Unset)
    ensures ArmBottomBody(p, side) == BodySpec(ArmBottom(side), 0.0025, Vec2(p.x, p.y + 0.5), Unset)
    ensures HeadBody(p) == BodySpec(Head, 0.007, p, PlayerMaterial)
    ensures HatBody(p) == BodySpec(Hat, 0.001, p, Unset)
  {
  }

  /** The joint builders in numbers: each joint's local pivots once the
      dimensions are substituted, and the hat weld's offset above the head's
      centre. The two pedal joints differ only in the sign of the wheel-side
      pivot. */
  lemma JointPivots(a: Part, b: Part, side: Side)
    ensures ShaftTorsoConstraint(a, b).pivotA == Vec2(0.0, 0.5)
    ensures ShaftTorsoConstraint(a, b).pivotB == Vec2(0.0, -0.1875)
    ensures ShaftWheelConstraint(a, b).pivotA == Vec2(0.0, -0.35)
    ensures ShaftWheelConstraint(a, b).pivotB == Vec2(0.0, 0.0)
    ensures LegSectionsConstraint(a, b).pivotA == Vec2(0.0, -0.2)
    ensures LegSectionsConstraint(a, b).pivotB == Vec2(0.0, 0.2)
    ensures LegTopShaftConstraint(a, b).pivotA == Vec2(0.0, 0.2)
    ensures LegTopShaftConstraint(a, b).pivotB == Vec2(0.0, 0.5)
    ensures LegBottomWheelConstraint(a, b, side).pivotA == Vec2(-0.175, -0.28)
    ensures LegBottomWheelConstraint(a, b, side).pivotB ==
      Vec2(if side == Front then -0.12 else 0.12, 0.0)
    ensures ArmSectionsConstraint(a, b).pivotA == Vec2(0.0, 0.125)
    ensures ArmSectionsConstraint(a, b).pivotB == Vec2(0.0, -0.125)
    ensures TorsoArmTopConstraint(a, b).pivotA == Vec2(0.0, 0.1875)
    ensures TorsoArmTopConstraint(a, b).pivotB == Vec2(0.0, 0.125)
    ensures HeadTorsoConstraint(a, b).pivotA == Vec2(0.0, 0.1875)
    ensures HeadTorsoConstraint(a, b).pivotB == Vec2(0.0, -0.1875)
    ensures HeadHatConstraint(a, b).offsetB == Vec2(0.0, 0.16625)
  {
  }

  /** One call the Player constructor makes on the physics world. */
  datatype Registration = AddBody(body: BodySpec) | AddConstraint(constraint: Constraint)

  /** The registrations for one leg: both sections, then the knee, hip and
      pedal joints. */
  function Leg(position: Vec2, side: Side): seq<Registration> {
    [ AddBody(LegTopBody(position, side)),
      AddBody(LegBottomBody(position, side)),
      AddConstraint(LegSectionsConstraint(LegTop(side), LegBottom(side))),
      AddConstraint(LegTopShaftConstraint(LegTop(side), Shaft)),
      AddConstraint(LegBottomWheelConstraint(LegBottom(side), Wheel, side)) ]
  }

  /** The registrations for one arm: both sections, then the elbow and
      shoulder joints. */
  function Arm(position: Vec2, side: Side): seq<Registration> {
    [ AddBody(ArmTopBody(position, side)),
      AddBody(ArmBottomBody(position, side)),
      AddConstraint(ArmSectionsConstraint(ArmBottom(side), ArmTop(side))),
      AddConstraint(TorsoArmTopConstraint(Torso, ArmTop(side))) ]
  }

  /** The first registrations: wheel, shaft and torso, then the motorised
      wheel joint and the seat joint. */
  function CoreBlock(position: Vec2): seq<Registration> {
    [ AddBody(WheelBody(position)),
      AddBody(ShaftBody(position)),
      AddBody(TorsoBody(position)),
      AddConstraint(ShaftWheelConstraint(Shaft, Wheel)),
      AddConstraint(ShaftTorsoConstraint(Shaft, Torso)) ]
  }

  /** The last registrations: head and hat, the neck joint and the hat weld. */
  function HeadBlock(position: Vec2): seq<Registration> {
    [ AddBody(HeadBody(position)),
      AddBody(HatBody(position)),
      AddConstraint(HeadTorsoConstraint(Torso, Head)),
      AddConstraint(HeadHatConstraint(Head, Hat)) ]
  }

  /** Everything the Player constructor registers, in order: thirteen
      bodies and fourteen joints, starting with the wheel and ending with the
      hat weld. */
  function Assemble(position: Vec2): (trace: seq<Registration>)
    ensures |trace| == 27
    ensures trace[0] == AddBody(WheelBody(position))
    ensures trace[26] == AddConstraint(HeadHatConstraint(Head, Hat))
  {
    CoreBlock(position)
    + Leg(position, Front) + Leg(position, Back)
    + Arm(position, Front) + Arm(position, Back)
    + HeadBlock(position)
  }

  // ---------------------------------------------------------------------
  // Reading the registration trace back.

  /** The bodies registered, in registration order. */
  function BodiesOf(trace: seq<Registration>): (bodies: seq<BodySpec>)
    ensures |bodies| <= |trace|
  {
    if |trace| == 0 then []
    else
      var rest := BodiesOf(trace[1..]);
      match trace[0]
      case AddBody(b) => [b] + rest
      case AddConstraint(_) => rest
  }

  /** The constraints registered, in registration order. */
  function ConstraintsOf(trace: seq<Registration>): (constraints: seq<Constraint>)
    ensures |constraints| <= |trace|
  {
    if |trace| == 0 then []
    else
      var rest := ConstraintsOf(trace[1..]);
      match trace[0]
      case AddBody(_) => rest
      case AddConstraint(c) => [c] + rest
  }

  lemma {:induction false} BodiesOfAppend(a: seq<Registration>, b: seq<Registration>)
    ensures BodiesOf(a + b) == BodiesOf(a) + BodiesOf(b)
  {
    if |a| > 0 {
      assert (a + b)[1..] == a[1..] + b;
      BodiesOfAppend(a[1..], b);
    } else {
      assert a + b == b;
    }
  }

  lemma {:induction false} ConstraintsOfAppend(a: seq<Registration>, b: seq<Registration>)
    ensures ConstraintsOf(a + b) == ConstraintsOf(a) + ConstraintsOf(b)
  {
    if |a| > 0 {
      assert (a + b)[1..] == a[1..] + b;
      ConstraintsOfAppend(a[1..], b);
    } else {
      assert a + b == b;
    }
  }

  /** The parts of the bodies registered by a trace. */
  function PartsOf(trace: seq<Registration>): set<Part> {
    set r | r in trace && r.AddBody? :: r.body.part
  }

  /** Summed mass of the rider's bodies (`rider`) or of the unicycle's
      (`!rider`). */
  function MassOf(bodies: seq<BodySpec>, rider: bool): real {
    if |bodies| == 0 then 0.0
    else (if IsRider(bodies[0].part) == rider then bodies[0].mass else 0.0) + MassOf(bodies[1..], rider)
  }

  /** Registering `trace` after the parts in `added` never wires a
      constraint to a body that is not yet registered. */
  predicate WiredInOrder(trace: seq<Registration>, added: set<Part>)
    decreases |trace|
  {
    |trace| == 0 ||
    match trace[0]
    case AddBody(b) => WiredInOrder(trace[1..], added + {b.part})
    case AddConstraint(c) => c.bodyA in added && c.bodyB in added && WiredInOrder(trace[1..], added)
  }

  /** Every constraint of the trace has both endpoints among the bodies
      registered before it. */
  ghost predicate EndpointsRegistered(trace: seq<Registration>) {
    forall i | 0 <= i < |trace| && trace[i].AddConstraint? ::
      trace[i].constraint.bodyA in PartsOf(trace[..i]) && trace[i].constraint.bodyB in PartsOf(trace[..i])
  }

  lemma {:induction false} WiredInOrderAppend(a: seq<Registration>, b: seq<Registration>, added: set<Part>)
    requires WiredInOrder(a, added)
    requires WiredInOrder(b, added + PartsOf(a))
    ensures WiredInOrder(a + b, added)
  {
    if |a| == 0 {
      assert a + b == b;
      assert PartsOf(a) == {};
      assert added + PartsOf(a) == added;
    } else {
      assert (a + b)[1..] == a[1..] + b;
      assert a == [a[0]] + a[1..];
      match a[0]
      case AddBody(x) =>
        assert PartsOf(a) == {x.part} + PartsOf(a[1..]);
        assert added + PartsOf(a) == (added + {x.part}) + PartsOf(a[1..]);
        WiredInOrderAppend(a[1..], b, added + {x.part});
      case AddConstraint(c) =>
        assert PartsOf(a) == PartsOf(a[1..]);
        WiredInOrderAppend(a[1..], b, added);
    }
  }

  /** The recursive check and the positional statement agree: a trace that
      passes the check registers every constraint after its two bodies. */
  lemma {:induction false} WiredInOrderSound(trace: seq<Registration>, added: set<Part>)
    requires WiredInOrder(trace, added)
    ensures forall i | 0 <= i < |trace| && trace[i].AddConstraint? ::
      trace[i].constraint.bodyA in added + PartsOf(trace[..i]) &&
      trace[i].constraint.bodyB in added + PartsOf(trace[..i])
  {
    if |trace| > 0 {
      var more := if trace[0].AddBody? then added + {trace[0].body.part} else added;
      WiredInOrderSound(trace[1..], more);
      forall i | 0 <= i < |trace| && trace[i].AddConstraint?
        ensures trace[i].constraint.bodyA in added + PartsOf(trace[..i])
        ensures trace[i].constraint.bodyB in added + PartsOf(trace[..i])
      {
        if i > 0 {
          assert trace[..i] == [trace[0]] + trace[1..][..i - 1];
          assert trace[1..][i - 1] == trace[i];
          assert more + PartsOf(trace[1..][..i - 1]) == added + PartsOf(trace[..i]);
        }
      }
    }
  }

  // ---------------------------------------------------------------------
  // Facts about the assembled skeleton.

  lemma PartsOfAppend(a: seq<Registration>, b: seq<Registration>)
    ensures PartsOf(a + b) == PartsOf(a) + PartsOf(b)
  {
    assert forall r :: r in a + b <==> r in a || r in b;
  }

  lemma LegWired(position: Vec2, side: Side, added: set<Part>)
    requires Shaft in added && Wheel in added
    ensures WiredInOrder(Leg(position, side), added)
    ensures PartsOf(Leg(position, side)) == {LegTop(side), LegBottom(side)}
  {
    var t := Leg(position, side);
    var s := added + {LegTop(side)} + {LegBottom(side)};
    assert WiredInOrder(t[2..], s) by {
      assert WiredInOrder(t[3..], s) by {
        assert WiredInOrder(t[4..], s) by {
          assert t[5..] == [];
        }
      }
    }
  }

  lemma ArmWired(position: Vec2, side: Side, added: set<Part>)
    requires Torso in added
    ensures WiredInOrder(Arm(position, side), added)
    ensures PartsOf(Arm(position, side)) == {ArmTop(side), ArmBottom(side)}
  {
    var t := Arm(position, side);
    var s := added + {ArmTop(side)} + {ArmBottom(side)};
    assert WiredInOrder(t[2..], s) by {
      assert WiredInOrder(t[3..], s) by {
        assert t[4..] == [];
      }
    }
  }

  /** The Player constructor wires every constraint after both of its
      bodies, so construction never references a body that does not exist
      yet. */
  lemma AssembleWiredInOrder(position: Vec2)
    ensures EndpointsRegistered(Assemble(position))
  {
    var none: set<Part> := {};
    AssemblePassesWiringCheck(position);
    WiredInOrderSound(Assemble(position), none);
    assert forall x: set<Part> :: none + x == x;
  }

  /** Concatenating two checked blocks, tracking the registered parts. */
  lemma WiredBlocks(a: seq<Registration>, b: seq<Registration>, pa: set<Part>, pb: set<Part>)
    requires WiredInOrder(a, {}) && PartsOf(a) == pa
    requires WiredInOrder(b, pa) && PartsOf(b) == pb
    ensures WiredInOrder(a + b, {}) && PartsOf(a + b) == pa + pb
  {
    assert {} + PartsOf(a) == pa;
    WiredInOrderAppend(a, b, {});
    PartsOfAppend(a, b);
  }

  lemma CoreBlockWired(position: Vec2)
    ensures WiredInOrder(CoreBlock(position), {})
    ensures PartsOf(CoreBlock(position)) == {Wheel, Shaft, Torso}
  {
    var head := CoreBlock(position);
    var none: set<Part> := {};
    var s1 := {Wheel, Shaft, Torso};
    assert none + {Wheel} + {Shaft} + {Torso} == s1;
    assert WiredInOrder(head[3..], s1) by {
      assert WiredInOrder(head[4..], s1) by {
        assert head[5..] == [];
      }
    }
    assert WiredInOrder(head[2..], none + {Wheel} + {Shaft});
    assert WiredInOrder(head[1..], none + {Wheel});
  }

  lemma HeadBlockWired(position: Vec2, added: set<Part>)
    requires Torso in added
    ensures WiredInOrder(HeadBlock(position), added)
    ensures PartsOf(HeadBlock(position)) == {Head, Hat}
  {
    var tail := HeadBlock(position);
    var u := added + {Head} + {Hat};
    assert WiredInOrder(tail[2..], u) by {
      assert WiredInOrder(tail[3..], u) by {
        assert tail[4..] == [];
      }
    }
  }

  lemma AssemblePassesWiringCheck(position: Vec2)
    ensures WiredInOrder(Assemble(position), {})
  {
    var a, b, c := CoreBlock(position), Leg(position, Front), Leg(position, Back);
    var d, e, f := Arm(position, Front), Arm(position, Back), HeadBlock(position);
    var s1 := {Wheel, Shaft, Torso};
    var s2 := s1 + {LegTop(Front), LegBottom(Front)};
    var s3 := s2 + {LegTop(Back), LegBottom(Back)};
    var s4 := s3 + {ArmTop(Front), ArmBottom(Front)};
    var s5 := s4 + {ArmTop(Back), ArmBottom(Back)};
    CoreBlockWired(position);
    LegWired(position, Front, s1);
    WiredBlocks(a, b, s1, {LegTop(Front), LegBottom(Front)});
    LegWired(position, Back, s2);
    WiredBlocks(a + b, c, s2, {LegTop(Back), LegBottom(Back)});
    ArmWired(position, Front, s3);
    WiredBlocks(a + b + c, d, s3, {ArmTop(Front), ArmBottom(Front)});
    ArmWired(position, Back, s4);
    WiredBlocks(a + b + c + d, e, s4, {ArmTop(Back), ArmBottom(Back)});
    HeadBlockWired(position, s5);
    WiredBlocks(a + b + c + d + e, f, s5, {Head, Hat});
  }

  /** The bodies of the assembled skeleton, in registration order. */
  lemma {:induction false} AssembledBodies(position: Vec2)
    ensures BodiesOf(Assemble(position)) ==
      [ WheelBody(position), ShaftBody(position), TorsoBody(position),
        LegTopBody(position, Front), LegBottomBody(position, Front),
        LegTopBody(position, Back), LegBottomBody(position, Back),
        ArmTopBody(position, Front), ArmBottomBody(position, Front),
        ArmTopBody(position, Back), ArmBottomBody(position, Back),
        HeadBody(position), HatBody(position) ]
  {
    var a, b, c := CoreBlock(position), Leg(position, Front), Leg(position, Back);
    var d, e, f := Arm(position, Front), Arm(position, Back), HeadBlock(position);
    BodiesOfAppend(a, b);
    BodiesOfAppend(a + b, c);
    BodiesOfAppend(a + b + c, d);
    BodiesOfAppend(a + b + c + d, e);
    BodiesOfAppend(a + b + c + d + e, f);
    CoreBlockBodies(position);
    LegBodies(position, Front);
    LegBodies(position, Back);
    ArmBodies(position, Front);
    ArmBodies(position, Back);
    HeadBlockBodies(position);
  }

  function BodyIf(r: Registration): seq<BodySpec> {
    if r.AddBody? then [r.body] else []
  }

  function ConstraintIf(r: Registration): seq<Constraint> {
    if r.AddConstraint? then [r.constraint] else []
  }

  lemma ReadOne(r: Registration, rest: seq<Registration>)
    ensures BodiesOf([r] + rest) == BodyIf(r) + BodiesOf(rest)
    ensures ConstraintsOf([r] + rest) == ConstraintIf(r) + ConstraintsOf(rest)
  {
    assert ([r] + rest)[1..] == rest;
  }

  lemma ConcatAssoc<T>(a: seq<T>, b: seq<T>, c: seq<T>)
    ensures a + (b + c) == (a + b) + c
  {
  }

  lemma ReadSingle(r: Registration)
    ensures BodiesOf([r]) == BodyIf(r)
    ensures ConstraintsOf([r]) == ConstraintIf(r)
  {
    ReadOne(r, []);
    assert [r] + [] == [r];
  }

  lemma ReadPair(r0: Registration, r1: Registration)
    ensures BodiesOf([r0, r1]) == BodyIf(r0) + BodyIf(r1)
    ensures ConstraintsOf([r0, r1]) == ConstraintIf(r0) + ConstraintIf(r1)
  {
    assert [r0, r1] == [r0] + [r1];
    BodiesOfAppend([r0], [r1]);
    ConstraintsOfAppend([r0], [r1]);
    ReadSingle(r0);
    ReadSingle(r1);
  }

  /** Reading back a four-entry block. */
  lemma ReadFour(r0: Registration, r1: Registration, r2: Registration, r3: Registration)
    ensures BodiesOf([r0, r1, r2, r3]) == BodyIf(r0) + BodyIf(r1) + BodyIf(r2) + BodyIf(r3)
    ensures ConstraintsOf([r0, r1, r2, r3]) == ConstraintIf(r0) + ConstraintIf(r1) + ConstraintIf(r2) + ConstraintIf(r3)
  {
    assert [r0, r1, r2, r3] == [r0, r1] + [r2, r3];
    BodiesOfAppend([r0, r1], [r2, r3]);
    ConstraintsOfAppend([r0, r1], [r2, r3]);
    ReadPair(r0, r1);
    ReadPair(r2, r3);
    var b0, b1, b2, b3 := BodyIf(r0), BodyIf(r1), BodyIf(r2), BodyIf(r3);
    ConcatAssoc(b0 + b1, b2, b3);
    var c0, c1, c2, c3 := ConstraintIf(r0), ConstraintIf(r1), ConstraintIf(r2), ConstraintIf(r3);
    ConcatAssoc(c0 + c1, c2, c3);
  }

  /** Reading back a five-entry block. */
  lemma ReadFive(r0: Registration, r1: Registration, r2: Registration, r3: Registration, r4: Registration)
    ensures BodiesOf([r0, r1, r2, r3, r4]) == BodyIf(r0) + BodyIf(r1) + BodyIf(r2) + BodyIf(r3) + BodyIf(r4)
    ensures ConstraintsOf([r0, r1, r2, r3, r4]) ==
      ConstraintIf(r0) + ConstraintIf(r1) + ConstraintIf(r2) + ConstraintIf(r3) + ConstraintIf(r4)
  {
    ReadBodiesFive(r0, r1, r2, r3, r4);
    ReadConstraintsFive(r0, r1, r2, r3, r4);
  }

  lemma ReadBodiesFive(r0: Registration, r1: Registration, r2: Registration, r3: Registration, r4: Registration)
    ensures BodiesOf([r0, r1, r2, r3, r4]) == BodyIf(r0) + BodyIf(r1) + BodyIf(r2) + BodyIf(r3) + BodyIf(r4)
  {
    var rest := [r1, r2, r3, r4];
    assert [r0, r1, r2, r3, r4] == [r0] + rest;
    ReadOne(r0, rest);
    ReadFour(r1, r2, r3, r4);
    var b0, b1, b2, b3, b4 := BodyIf(r0), BodyIf(r1), BodyIf(r2), BodyIf(r3), BodyIf(r4);
    ConcatAssoc(b0, b1 + b2 + b3, b4);
    ConcatAssoc(b0, b1 + b2, b3);
    ConcatAssoc(b0, b1, b2);
  }

  lemma ReadConstraintsFive(r0: Registration, r1: Registration, r2: Registration, r3: Registration, r4: Registration)
    ensures ConstraintsOf([r0, r1, r2, r3, r4]) ==
      ConstraintIf(r0) + ConstraintIf(r1) + ConstraintIf(r2) + ConstraintIf(r3) + ConstraintIf(r4)
  {
    var rest := [r1, r2, r3, r4];
    assert [r0, r1, r2, r3, r4] == [r0] + rest;
    ReadOne(r0, rest);
    ReadFour(r1, r2, r3, r4);
    var c0, c1, c2, c3, c4 := ConstraintIf(r0), ConstraintIf(r1), ConstraintIf(r2), ConstraintIf(r3), ConstraintIf(r4);
    ConcatAssoc(c0, c1 + c2 + c3, c4);
    ConcatAssoc(c0, c1 + c2, c3);
    ConcatAssoc(c0, c1, c2);
  }

  lemma CoreBlockBodies(position: Vec2)
    ensures BodiesOf(CoreBlock(position)) == [WheelBody(position), ShaftBody(position), TorsoBody(position)]
    ensures ConstraintsOf(CoreBlock(position)) == [ShaftWheelConstraint(Shaft, Wheel), ShaftTorsoConstraint(Shaft, Torso)]
  {
    var t := CoreBlock(position);
    ReadFive(t[0], t[1], t[2], t[3], t[4]);
  }

  lemma LegBodies(position: Vec2, side: Side)
    ensures BodiesOf(Leg(position, side)) == [LegTopBody(position, side), LegBottomBody(position, side)]
    ensures ConstraintsOf(Leg(position, side)) ==
      [ LegSectionsConstraint(LegTop(side), LegBottom(side)),
        LegTopShaftConstraint(LegTop(side), Shaft),
        LegBottomWheelConstraint(LegBottom(side), Wheel, side) ]
  {
    var t := Leg(position, side);
    ReadFive(t[0], t[1], t[2], t[3], t[4]);
  }

  lemma ArmBodies(position: Vec2, side: Side)
    ensures BodiesOf(Arm(position, side)) == [ArmTopBody(position, side), ArmBottomBody(position, side)]
    ensures ConstraintsOf(Arm(position, side)) ==
      [ ArmSectionsConstraint(ArmBottom(side), ArmTop(side)),
        TorsoArmTopConstraint(Torso, ArmTop(side)) ]
  {
    var t := Arm(position, side);
    ReadFour(t[0], t[1], t[2], t[3]);
  }

  lemma HeadBlockBodies(position: Vec2)
    ensures BodiesOf(HeadBlock(position)) == [HeadBody(position), HatBody(position)]
    ensures ConstraintsOf(HeadBlock(position)) == [HeadTorsoConstraint(Torso, Head), HeadHatConstraint(Head, Hat)]
  {
    var t := HeadBlock(position);
    ReadFour(t[0], t[1], t[2], t[3]);
  }

  /** The constraints of the assembled skeleton, in registration order. */
  lemma {:induction false} AssembledConstraints(position: Vec2)
    ensures ConstraintsOf(Assemble(position)) ==
      [ ShaftWheelConstraint(Shaft, Wheel), ShaftTorsoConstraint(Shaft, Torso),
        LegSectionsConstraint(LegTop(Front), LegBottom(Front)),
        LegTopShaftConstraint(LegTop(Front), Shaft),
        LegBottomWheelConstraint(LegBottom(Front), Wheel, Front),
        LegSectionsConstraint(LegTop(Back), LegBottom(Back)),
        LegTopShaftConstraint(LegTop(Back), Shaft),
        LegBottomWheelConstraint(LegBottom(Back), Wheel, Back),
        ArmSectionsConstraint(ArmBottom(Front), ArmTop(Front)),
        TorsoArmTopConstraint(Torso, ArmTop(Front)),
        ArmSectionsConstraint(ArmBottom(Back), ArmTop(Back)),
        TorsoArmTopConstraint(Torso, ArmTop(Back)),
        HeadTorsoConstraint(Torso, Head), HeadHatConstraint(Head, Hat) ]
  {
    var a, b, c := CoreBlock(position), Leg(position, Front), Leg(position, Back);
    var d, e, f := Arm(position, Front), Arm(position, Back), HeadBlock(position);
    ConstraintsOfAppend(a, b);
    ConstraintsOfAppend(a + b, c);
    ConstraintsOfAppend(a + b + c, d);
    ConstraintsOfAppend(a + b + c + d, e);
    ConstraintsOfAppend(a + b + c + d + e, f);
    CoreBlockBodies(position);
    LegBodies(position, Front);
    LegBodies(position, Back);
    ArmBodies(position, Front);
    ArmBodies(position, Back);
    HeadBlockBodies(position);
  }

  // ---------------------------------------------------------------------
  // The joint and mass table.

  /** The rider's weight proportions (torso, two of each limb section, head
      and hat) share out exactly the whole rider mass. */
  lemma WeightProportionsSumToOne()
    ensures TorsoWeightProp + 2.0 * LegTopWeightProp + 2.0 * LegBottomWeightProp
      + 2.0 * ArmTopWeightProp + 2.0 * ArmBottomWeightProp + HeadWeightProp + HatWeightProp == 1.0
  {
  }

  lemma {:induction false} MassOfAppend(a: seq<BodySpec>, b: seq<BodySpec>, rider: bool)
    ensures MassOf(a + b, rider) == MassOf(a, rider) + MassOf(b, rider)
  {
    if |a| == 0 {
      assert a + b == b;
    } else {
      assert (a + b)[1..] == a[1..] + b;
      MassOfAppend(a[1..], b, rider);
    }
  }

  lemma MassOfPair(x: BodySpec, y: BodySpec, rider: bool)
    ensures MassOf([x, y], rider) ==
      (if IsRider(x.part) == rider then x.mass else 0.0) + (if IsRider(y.part) == rider then y.mass else 0.0)
  {
    assert [x, y][1..] == [y];
    assert [y][1..] == [];
    assert MassOf([], rider) == 0.0;
  }

  /** The registered rider bodies weigh exactly the rider's mass, and the
      wheel and shaft together exactly the unicycle's, split evenly. */
  lemma MassBudget(position: Vec2)
    ensures MassOf(BodiesOf(Assemble(position)), true) == PlayerMass
    ensures MassOf(BodiesOf(Assemble(position)), false) == UnicycleMass
    ensures WheelBody(position).mass == ShaftBody(position).mass == UnicycleMass / 2.0
  {
    var a, b, c := CoreBlock(position), Leg(position, Front), Leg(position, Back);
    var d, e, f := Arm(position, Front), Arm(position, Back), HeadBlock(position);
    BodiesOfAppend(a, b);
    BodiesOfAppend(a + b, c);
    BodiesOfAppend(a + b + c, d);
    BodiesOfAppend(a + b + c + d, e);
    BodiesOfAppend(a + b + c + d + e, f);
    var ba, bb, bc := BodiesOf(a), BodiesOf(b), BodiesOf(c);
    var bd, be, bf := BodiesOf(d), BodiesOf(e), BodiesOf(f);
    forall rider: bool
      ensures MassOf(BodiesOf(Assemble(position)), rider) ==
        MassOf(ba, rider) + MassOf(bb, rider) + MassOf(bc, rider)
        + MassOf(bd, rider) + MassOf(be, rider) + MassOf(bf, rider)
    {
      MassOfAppend(ba, bb, rider);
      MassOfAppend(ba + bb, bc, rider);
      MassOfAppend(ba + bb + bc, bd, rider);
      MassOfAppend(ba + bb + bc + bd, be, rider);
      MassOfAppend(ba + bb + bc + bd + be, bf, rider);
    }
    CoreBlockMass(position);
    LegMass(position, Front);
    LegMass(position, Back);
    ArmMass(position, Front);
    ArmMass(position, Back);
    HeadBlockMass(position);
    WeightProportionsSumToOne();
  }

  lemma CoreBlockMass(position: Vec2)
    ensures MassOf(BodiesOf(CoreBlock(position)), true) == PlayerMass * TorsoWeightProp
    ensures MassOf(BodiesOf(CoreBlock(position)), false) == UnicycleMass
  {
    CoreBlockBodies(position);
    var w, sh, t := WheelBody(position), ShaftBody(position), TorsoBody(position);
    assert [w, sh, t] == [w, sh] + [t];
    MassOfAppend([w, sh], [t], true);
    MassOfAppend([w, sh], [t], false);
    MassOfPair(w, sh, true);
    MassOfPair(w, sh, false);
    assert [t][1..] == [];
  }

  lemma LegMass(position: Vec2, side: Side)
    ensures MassOf(BodiesOf(Leg(position, side)), true) == PlayerMass * LegTopWeightProp + PlayerMass * LegBottomWeightProp
    ensures MassOf(BodiesOf(Leg(position, side)), false) == 0.0
  {
    LegBodies(position, side);
    MassOfPair(LegTopBody(position, side), LegBottomBody(position, side), true);
    MassOfPair(LegTopBody(position, side), LegBottomBody(position, side), false);
  }

  lemma ArmMass(position: Vec2, side: Side)
    ensures MassOf(BodiesOf(Arm(position, side)), true) == PlayerMass * ArmTopWeightProp + PlayerMass * ArmBottomWeightProp
    ensures MassOf(BodiesOf(Arm(position, side)), false) == 0.0
  {
    ArmBodies(position, side);
    MassOfPair(ArmTopBody(position, side), ArmBottomBody(position, side), true);
    MassOfPair(ArmTopBody(position, side), ArmBottomBody(position, side), false);
  }

  lemma HeadBlockMass(position: Vec2)
    ensures MassOf(BodiesOf(HeadBlock(position)), true) == PlayerMass * HeadWeightProp + PlayerMass * HatWeightProp
    ensures MassOf(BodiesOf(HeadBlock(position)), false) == 0.0
  {
    HeadBlockBodies(position);
    MassOfPair(HeadBody(position), HatBody(position), true);
    MassOfPair(HeadBody(position), HatBody(position), false);
  }

  /** Thirteen bodies, each part registered exactly once. */
  lemma BodiesDistinct(position: Vec2)
    ensures |BodiesOf(Assemble(position))| == 13
    ensures forall i, j | 0 <= i < j < |BodiesOf(Assemble(position))| ::
      BodiesOf(Assemble(position))[i].part != BodiesOf(Assemble(position))[j].part
  {
    AssembledBodies(position);
  }

  /** No body of the rider or its unicycle carries the terrain material, so
      a contact between two of them never reads as touching terrain. */
  lemma NoTerrainMaterialOnSkeleton(position: Vec2)
    ensures forall b | b in BodiesOf(Assemble(position)) :: b.firstMaterial != TerrainMaterial
  {
    AssembledBodies(position);
  }

  /** Both limits are enabled and the lower one is strictly below the upper. */
  predicate LimitPairOrdered(c: Constraint) {
    c.Revolute? && c.lower.Some? && c.upper.Some? && c.lower.value < c.upper.value
  }

  /** Every enabled limit lies strictly within a half turn either way. */
  predicate LimitsWithinHalfTurn(c: Constraint) {
    c.Revolute? ==>
      (c.lower.Some? ==> -Pi < c.lower.value < Pi) && (c.upper.Some? ==> -Pi < c.upper.value < Pi)
  }

  /** Fourteen joints, none joining a body to itself. */
  lemma JointCount(position: Vec2)
    ensures |ConstraintsOf(Assemble(position))| == 14
    ensures forall c | c in ConstraintsOf(Assemble(position)) :: c.bodyA != c.bodyB
  {
    AssembledConstraints(position);
    var cs := ConstraintsOf(Assemble(position));
    forall i | 0 <= i < |cs|
      ensures cs[i].bodyA != cs[i].bodyB
    {
    }
  }

  /** The shaft-wheel joint is the only motorised one. */
  lemma OnlyWheelMotorised(position: Vec2)
    ensures forall c | c in ConstraintsOf(Assemble(position)) && c.Revolute? && c.motor.Some? ::
      c == ShaftWheelConstraint(Shaft, Wheel)
  {
    AssembledConstraints(position);
  }

  /** Every joint with both limits enabled has them strictly ordered, and
      every enabled limit lies within a half turn either way. */
  lemma JointLimitsSane(position: Vec2)
    ensures forall c | c in ConstraintsOf(Assemble(position)) && c.Revolute? && c.lower.Some? && c.upper.Some? ::
      LimitPairOrdered(c)
    ensures forall c | c in ConstraintsOf(Assemble(position)) :: LimitsWithinHalfTurn(c)
  {
    AssembledConstraints(position);
  }

  /** The wheel motor is enabled at speed 0 and the joint has no limits. */
  lemma ShaftWheelJoint(shaft: Part, wheel: Part)
    ensures ShaftWheelConstraint(shaft, wheel).Revolute?
    ensures ShaftWheelConstraint(shaft, wheel).motor == Some(0.0)
    ensures ShaftWheelConstraint(shaft, wheel).lower.None? && ShaftWheelConstraint(shaft, wheel).upper.None?
  {
  }

  /** The seat joint has both limits enabled, symmetric at 5% of pi, and no
      motor. */
  lemma ShaftTorsoJoint(shaft: Part, torso: Part)
    ensures ShaftTorsoConstraint(shaft, torso).motor.None?
    ensures ShaftTorsoConstraint(shaft, torso).upper == Some(0.05 * Pi)
    ensures ShaftTorsoConstraint(shaft, torso).lower == Some(-0.05 * Pi)
  {
  }

  /** The knee enables only its lower limit, at 0.2 pi. */
  lemma LegSectionsJoint(legTop: Part, legBottom: Part)
    ensures LegSectionsConstraint(legTop, legBottom).lower == Some(0.2 * Pi)
    ensures LegSectionsConstraint(legTop, legBottom).upper.None?
    ensures LegSectionsConstraint(legTop, legBottom).motor.None?
  {
  }

  /** The elbow bends between 0.12 pi and 0.7 pi, the shoulder between
      -0.3 pi and 0.2 pi; both pairs are ordered. */
  lemma ArmJoints(armBottom: Part, armTop: Part, torso: Part)
    ensures ArmSectionsConstraint(armBottom, armTop).lower == Some(0.12 * Pi)
    ensures ArmSectionsConstraint(armBottom, armTop).upper == Some(0.7 * Pi)
    ensures TorsoArmTopConstraint(torso, armTop).lower == Some(-0.3 * Pi)
    ensures TorsoArmTopConstraint(torso, armTop).upper == Some(0.2 * Pi)
    ensures LimitPairOrdered(ArmSectionsConstraint(armBottom, armTop))
    ensures LimitPairOrdered(TorsoArmTopConstraint(torso, armTop))
  {
  }

  /** The neck has both limits enabled, symmetric at 5% of pi. */
  lemma HeadTorsoJoint(torso: Part, head: Part)
    ensures HeadTorsoConstraint(torso, head).lower == Some(-0.05 * Pi)
    ensures HeadTorsoConstraint(torso, head).upper == Some(0.05 * Pi)
    ensures HeadTorsoConstraint(torso, head).motor.None?
  {
  }

  /** The front and back pedal joints differ only in the sign of the
      wheel-side pivot's x offset, which is 0.12 either way. */
  lemma PedalJointsMirrored(legBottom: Part, wheel: Part)
    ensures LegBottomWheelConstraint(legBottom, wheel, Front).pivotB.x == -0.12
    ensures LegBottomWheelConstraint(legBottom, wheel, Back).pivotB.x == 0.12
    ensures LegBottomWheelConstraint(legBottom, wheel, Front) ==
      LegBottomWheelConstraint(legBottom, wheel, Back).(pivotB := Vec2(-0.12, 0.0))
  {
  }

  /** Front and back limb sections are built alike: same mass, spawn
      position and material. */
  lemma LimbBodiesMirrored(position: Vec2)
    ensures LegTopBody(position, Front) == LegTopBody(position, Back).(part := LegTop(Front))
    ensures LegBottomBody(position, Front) == LegBottomBody(position, Back).(part := LegBottom(Front))
    ensures ArmTopBody(position, Front) == ArmTopBody(position, Back).(part := ArmTop(Front))
    ensures ArmBottomBody(position, Front) == ArmBottomBody(position, Back).(part := ArmBottom(Front))
  {
  }
}
