/** Contact tracking: the begin/end contact handlers the Player registers on
    the physics world, which keep two "touching terrain" flags, one for the
    wheel and one for the torso. The engine's contact events are inputs. */
module Contacts {
  import opened Numeric
  import opened Skeleton

  /** A body taking part in a contact: one of the skeleton's parts, or any
      other body of the world (the terrain), by identity. */
  datatype BodyRef = SkeletonBody(part: Part) | WorldBody(id: nat)

  /** What the engine reports for a contact: the two bodies and the
      material of each body's first shape. */
  datatype ContactEvent = ContactEvent(bodyA: BodyRef, bodyB: BodyRef, materialA: Material, materialB: Material)

  /** The same contact with its two sides reported the other way round. */
  function Swap(e: ContactEvent): ContactEvent {
    ContactEvent(e.bodyB, e.bodyA, e.materialB, e.materialA)
  }

  /** `body` is one side of the contact and the other side's first shape is
      made of terrain. */
  function IsBodyTerrainContact(body: BodyRef, e: ContactEvent): (r: bool)
    ensures r ==> e.bodyA == body || e.bodyB == body
    ensures r ==> e.materialA == TerrainMaterial || e.materialB == TerrainMaterial
    ensures e.bodyA == body && e.bodyB != body ==> (r <==> e.materialB == TerrainMaterial)
    ensures e.bodyB == body && e.bodyA != body ==> (r <==> e.materialA == TerrainMaterial)
  {
    (e.bodyA == body && e.materialB == TerrainMaterial) ||
    (e.bodyB == body && e.materialA == TerrainMaterial)
  }

  /** The handlers test the wheel first; a contact counts for the torso
      only when it does not count for the wheel. */
  predicate IsWheelContact(e: ContactEvent) {
    IsBodyTerrainContact(SkeletonBody(Wheel), e)
  }

  predicate IsTorsoContact(e: ContactEvent) {
    !IsWheelContact(e) && IsBodyTerrainContact(SkeletonBody(Torso), e)
  }

  datatype ContactFlags = ContactFlags(wheelOnTerrain: bool, torsoOnTerrain: bool)

  /** The begin-contact handler: raises the flag of the body the contact
      matches, the wheel taking precedence; other flags are untouched. */
  function BeginContact(f: ContactFlags, e: ContactEvent): (r: ContactFlags)
    ensures r.wheelOnTerrain == (f.wheelOnTerrain || IsWheelContact(e))
    ensures r.torsoOnTerrain == (f.torsoOnTerrain || IsTorsoContact(e))
  {
    if IsBodyTerrainContact(SkeletonBody(Wheel), e) then f.(wheelOnTerrain := true)
    else if IsBodyTerrainContact(SkeletonBody(Torso), e) then f.(torsoOnTerrain := true)
    else f
  }

  /** The end-contact handler: lowers the flag of the body the contact
      matches, whatever other contacts that body still has. */
  function EndContact(f: ContactFlags, e: ContactEvent): (r: ContactFlags)
    ensures r.wheelOnTerrain == (f.wheelOnTerrain && !IsWheelContact(e))
    ensures r.torsoOnTerrain == (f.torsoOnTerrain && !IsTorsoContact(e))
  {
    if IsBodyTerrainContact(SkeletonBody(Wheel), e) then f.(wheelOnTerrain := false)
    else if IsBodyTerrainContact(SkeletonBody(Torso), e) then f.(torsoOnTerrain := false)
    else f
  }

  /** Classification does not depend on which side the engine reports
      first, and neither do the handlers. */
  lemma ClassificationSymmetric(body: BodyRef, e: ContactEvent, f: ContactFlags)
    ensures Swap(Swap(e)) == e
    ensures IsBodyTerrainContact(body, Swap(e)) == IsBodyTerrainContact(body, e)
    ensures BeginContact(f, Swap(e)) == BeginContact(f, e)
    ensures EndContact(f, Swap(e)) == EndContact(f, e)
  {
  }

  /** A contact that matches the wheel changes only the wheel flag: begin
      sets it, end clears it, and the torso flag keeps its value even when
      the torso is the other side of the contact. */
  lemma WheelTakesPrecedence(f: ContactFlags, e: ContactEvent)
    requires IsWheelContact(e)
    ensures BeginContact(f, e) == f.(wheelOnTerrain := true)
    ensures EndContact(f, e) == f.(wheelOnTerrain := false)
  {
  }

  /** A contact that matches the torso but not the wheel changes only the
      torso flag. */
  lemma TorsoContactSetsTorsoOnly(f: ContactFlags, e: ContactEvent)
    requires IsTorsoContact(e)
    ensures BeginContact(f, e) == f.(torsoOnTerrain := true)
    ensures EndContact(f, e) == f.(torsoOnTerrain := false)
  {
  }

  /** Two skeleton bodies touching never count as touching terrain: no
      skeleton body is made of terrain. */
  lemma SelfContactIgnored(position: Vec2, x: BodySpec, y: BodySpec, f: ContactFlags)
    requires x in BodiesOf(Assemble(position)) && y in BodiesOf(Assemble(position))
    ensures
      var e := ContactEvent(SkeletonBody(x.part), SkeletonBody(y.part), x.firstMaterial, y.firstMaterial);
      BeginContact(f, e) == f && EndContact(f, e) == f
  {
    NoTerrainMaterialOnSkeleton(position);
  }

  // ---------------------------------------------------------------------
  // Event streams.

  datatype TrackerEvent = Begin(event: ContactEvent) | End(event: ContactEvent)

  function Handle(f: ContactFlags, t: TrackerEvent): ContactFlags {
    match t
    case Begin(e) => BeginContact(f, e)
    case End(e) => EndContact(f, e)
  }

  /** The flags after a stream of events, starting from both flags false
      as the Player does. */
  function Flags(trace: seq<TrackerEvent>): ContactFlags {
    if |trace| == 0 then ContactFlags(false, false)
    else Handle(Flags(trace[..|trace| - 1]), trace[|trace| - 1])
  }

  /** The wheel's flag as an independent definition: true exactly when the
      most recent event that matches the wheel is a begin. */
  predicate LastWheelEventIsBegin(trace: seq<TrackerEvent>) {
    if |trace| == 0 then false
    else if IsWheelContact(trace[|trace| - 1].event) then trace[|trace| - 1].Begin?
    else LastWheelEventIsBegin(trace[..|trace| - 1])
  }

  /** The wheel flag remembers only the latest wheel event: no count of how
      many terrain contacts the wheel currently has. */
  lemma {:induction false} WheelFlagIsLatestEvent(trace: seq<TrackerEvent>)
    ensures Flags(trace).wheelOnTerrain == LastWheelEventIsBegin(trace)
  {
    if |trace| > 0 {
      WheelFlagIsLatestEvent(trace[..|trace| - 1]);
    }
  }

  // ---------------------------------------------------------------------
  // The flag loses track of overlapping contacts; a counting tracker does
  // not.

  /** The contacts begun and not yet ended, oldest first. */
  function Active(trace: seq<TrackerEvent>): seq<ContactEvent> {
    if |trace| == 0 then []
    else
      var before := Active(trace[..|trace| - 1]);
      match trace[|trace| - 1]
      case Begin(e) => before + [e]
      case End(e) => RemoveOne(before, e)
  }

  /** `s` without its first occurrence of `e`. */
  function RemoveOne(s: seq<ContactEvent>, e: ContactEvent): (r: seq<ContactEvent>)
    ensures e in s ==> |r| == |s| - 1
    ensures e !in s ==> r == s
  {
    if |s| == 0 then []
    else if s[0] == e then s[1..]
    else [s[0]] + RemoveOne(s[1..], e)
  }

  /** Every end event ends a contact that is active at that point. */
  predicate WellFormed(trace: seq<TrackerEvent>) {
    forall i | 0 <= i < |trace| && trace[i].End? :: trace[i].event in Active(trace[..i])
  }

  /** Two wheel-terrain contacts with two different terrain bodies. */
  const FirstPlatform := ContactEvent(SkeletonBody(Wheel), WorldBody(1), PlayerTyre, TerrainMaterial)
  const SecondPlatform := ContactEvent(SkeletonBody(Wheel), WorldBody(2), PlayerTyre, TerrainMaterial)

  /** The wheel rolls onto a second platform while still touching the first,
      then leaves the first: it is still on terrain, but the flag says it is
      not. */
  lemma FlagDropsWhileContactPersists()
    ensures var trace := [Begin(FirstPlatform), Begin(SecondPlatform), End(FirstPlatform)];
      WellFormed(trace) && SecondPlatform in Active(trace) && IsWheelContact(SecondPlatform)
      && !Flags(trace).wheelOnTerrain
  {
    var trace := [Begin(FirstPlatform), Begin(SecondPlatform), End(FirstPlatform)];
    assert trace[..2][..1] == trace[..1];
    assert trace[..1][..0] == [];
    assert Active(trace[..1]) == [FirstPlatform];
    assert Active(trace[..2]) == [FirstPlatform, SecondPlatform];
    assert trace[..3] == trace;
    assert RemoveOne([FirstPlatform, SecondPlatform], FirstPlatform) == [SecondPlatform];
  }

  /** Per-body counts of active terrain contacts. */
  datatype ContactCounts = ContactCounts(wheel: nat, torso: nat)

  function BeginCounted(c: ContactCounts, e: ContactEvent): ContactCounts {
    if IsWheelContact(e) then c.(wheel := c.wheel + 1)
    else if IsTorsoContact(e) then c.(torso := c.torso + 1)
    else c
  }

  function EndCounted(c: ContactCounts, e: ContactEvent): ContactCounts {
    if IsWheelContact(e) then c.(wheel := if c.wheel > 0 then c.wheel - 1 else 0)
    else if IsTorsoContact(e) then c.(torso := if c.torso > 0 then c.torso - 1 else 0)
    else c
  }

  function HandleCounted(c: ContactCounts, t: TrackerEvent): ContactCounts {
    match t
    case Begin(e) => BeginCounted(c, e)
    case End(e) => EndCounted(c, e)
  }

  function Counts(trace: seq<TrackerEvent>): ContactCounts {
    if |trace| == 0 then ContactCounts(0, 0)
    else HandleCounted(Counts(trace[..|trace| - 1]), trace[|trace| - 1])
  }

  /** The flags a counting tracker reports: on terrain while any contact is
      active. */
  function CountedFlags(trace: seq<TrackerEvent>): ContactFlags {
    var c := Counts(trace);
    ContactFlags(c.wheel > 0, c.torso > 0)
  }

  /** 1 when `e` matches the wheel (`wheel`) or the torso (`!wheel`), else 0. */
  function Matches(e: ContactEvent, wheel: bool): nat {
    if (if wheel then IsWheelContact(e) else IsTorsoContact(e)) then 1 else 0
  }

  /** The number of contacts in `s` that match the wheel (`wheel`) or the
      torso (`!wheel`). */
  function CountMatching(s: seq<ContactEvent>, wheel: bool): nat {
    if |s| == 0 then 0
    else Matches(s[0], wheel) + CountMatching(s[1..], wheel)
  }

  lemma {:induction false} CountMatchingAppend(s: seq<ContactEvent>, e: ContactEvent, wheel: bool)
    ensures CountMatching(s + [e], wheel) ==
      CountMatching(s, wheel) + Matches(e, wheel)
  {
    if |s| == 0 {
      assert s + [e] == [e];
      assert [e][1..] == [];
    } else {
      assert (s + [e])[1..] == s[1..] + [e];
      CountMatchingAppend(s[1..], e, wheel);
    }
  }

  lemma {:induction false} CountMatchingRemove(s: seq<ContactEvent>, e: ContactEvent, wheel: bool)
    requires e in s
    ensures CountMatching(RemoveOne(s, e), wheel) ==
      CountMatching(s, wheel) - Matches(e, wheel)
  {
    if s[0] != e {
      CountMatchingRemove(s[1..], e, wheel);
      assert ([s[0]] + RemoveOne(s[1..], e))[1..] == RemoveOne(s[1..], e);
    }
  }

  lemma {:induction false} CountMatchingPositive(s: seq<ContactEvent>, wheel: bool)
    ensures CountMatching(s, wheel) > 0 <==>
      exists i | 0 <= i < |s| :: if wheel then IsWheelContact(s[i]) else IsTorsoContact(s[i])
  {
    if |s| > 0 {
      CountMatchingPositive(s[1..], wheel);
      if CountMatching(s[1..], wheel) > 0 {
        var i :| 0 <= i < |s[1..]| && (if wheel then IsWheelContact(s[1..][i]) else IsTorsoContact(s[1..][i]));
        assert s[i + 1] == s[1..][i];
      }
      forall i | 1 <= i < |s|
        ensures s[i] == s[1..][i - 1]
      {
      }
    }
  }

  lemma WellFormedPrefix(trace: seq<TrackerEvent>)
    requires |trace| > 0 && WellFormed(trace)
    ensures WellFormed(trace[..|trace| - 1])
    ensures trace[|trace| - 1].End? ==> trace[|trace| - 1].event in Active(trace[..|trace| - 1])
  {
    var prefix := trace[..|trace| - 1];
    forall i | 0 <= i < |prefix| && prefix[i].End?
      ensures prefix[i].event in Active(prefix[..i])
    {
      assert prefix[..i] == trace[..i];
    }
  }

  /** The counting tracker's counts are exactly the numbers of active
      wheel and torso terrain contacts. */
  lemma {:induction false} CountsTrackActive(trace: seq<TrackerEvent>)
    requires WellFormed(trace)
    ensures Counts(trace).wheel == CountMatching(Active(trace), true)
    ensures Counts(trace).torso == CountMatching(Active(trace), false)
  {
    if |trace| > 0 {
      var prefix := trace[..|trace| - 1];
      var last := trace[|trace| - 1];
      WellFormedPrefix(trace);
      CountsTrackActive(prefix);
      var before := Active(prefix);
      var c := Counts(prefix);
      assert Counts(trace) == HandleCounted(c, last);
      match last
      case Begin(e) =>
        assert Active(trace) == before + [e];
        CountMatchingAppend(before, e, true);
        CountMatchingAppend(before, e, false);
      case End(e) =>
        assert Active(trace) == RemoveOne(before, e);
        CountMatchingRemove(before, e, true);
        CountMatchingRemove(before, e, false);
    }
  }

  /** With counts, a body is reported on terrain exactly while one of its
      terrain contacts is still active. */
  lemma CountedFlagsExact(trace: seq<TrackerEvent>)
    requires WellFormed(trace)
    ensures CountedFlags(trace).wheelOnTerrain <==>
      exists i | 0 <= i < |Active(trace)| :: IsWheelContact(Active(trace)[i])
    ensures CountedFlags(trace).torsoOnTerrain <==>
      exists i | 0 <= i < |Active(trace)| :: IsTorsoContact(Active(trace)[i])
  {
    CountsTrackActive(trace);
    CountMatchingPositive(Active(trace), true);
    CountMatchingPositive(Active(trace), false);
  }

  /** On the overlapping-platform stream the counting tracker still reports
      the wheel on terrain. */
  lemma CountedFlagsKeepOverlap()
    ensures CountedFlags([Begin(FirstPlatform), Begin(SecondPlatform), End(FirstPlatform)]).wheelOnTerrain
  {
    var trace := [Begin(FirstPlatform), Begin(SecondPlatform), End(FirstPlatform)];
    assert trace[..2][..1] == trace[..1];
    assert trace[..1][..0] == [];
    assert Counts(trace[..1]).wheel == 1;
    assert Counts(trace[..2]).wheel == 2;
  }
}
