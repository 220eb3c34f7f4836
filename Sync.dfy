/** The decision engine of the network controller as functions over the
    shadow state: what clients were last told about the entity. Each function
    gives the shadow state after one sync step and the broadcasts it makes, in
    order; the methods of `NetworkController.Controller` are proved against
    them. */
module Sync {
  import opened Vectors
  import opened Packets

  /** Largest position delta a relative move may carry. */
  const MAX_RELATIVE_DISTANCE := 127
  /** Smallest change of a position or angle component that triggers an update. */
  const MIN_RELATIVE_CHANGE := 4
  /** Smallest squared velocity change that triggers an update (0.02 squared). */
  const MIN_RELATIVE_VELOCITY_SQUARED: real := 0.02 * 0.02
  /** A rider's attachment is re-sent every this many ticks. */
  const VEHICLE_RESYNC_INTERVAL := 60

  /** The tracker entry's "synched" fields. */
  datatype Shadow = Shadow(
    pos: IntVector3,          // xLoc, yLoc, zLoc
    rot: IntVector2,          // yRot (x = yaw), xRot (z = pitch)
    headYaw: int,             // i
    velocity: Vec3,           // j, k, l
    vehicle: Option<EntityId>)

  /** What the engine reports about the entity right now, already in protocol
      units. `nativeSpawn` is the spawn packet the engine would build, and
      `block` the block the entity stands in. */
  datatype LiveState = LiveState(
    pos: IntVector3,
    rot: IntVector2,
    headYaw: int,
    velocity: Vec3,
    vehicle: Option<EntityId>,
    positionChanged: bool,
    metaChanged: bool,
    sleepingHuman: bool,
    block: IntVector3,
    nativeSpawn: Packet)

  /** The entity rides something (Bukkit's `isInsideVehicle` is `getVehicle() != null`). */
  predicate InsideVehicle(live: LiveState) {
    live.vehicle.Some?
  }

  /** The shadow state after a step, and the broadcasts the step made. */
  datatype Step = Step(shadow: Shadow, casts: seq<Cast>)

  /** Result of a whole sync: `thrown` when `isTick` divided by a zero interval. */
  datatype SyncOutcome = SyncOutcome(step: Step, thrown: bool)

  /** `isTick(interval)`: Java's `(tick % interval) == 0`; `None` stands for the
      ArithmeticException an interval of zero raises. */
  function IsTick(tick: int, interval: int): (r: Option<bool>)
    ensures r.None? <==> interval == 0
    ensures r.Some? && tick >= 0 ==> (r.value <==> tick % AbsInt(interval) == 0)
    ensures r.Some? && tick == 0 ==> r.value
  {
    if interval == 0 then None else Some(JavaRem(tick, interval) == 0)
  }

  /** `|newPos - oldPos|` reaches the minimum change on some axis. */
  predicate Moved(oldPos: IntVector3, newPos: IntVector3): (r: bool)
    ensures r <==> AbsInt(newPos.x - oldPos.x) >= MIN_RELATIVE_CHANGE || AbsInt(newPos.y - oldPos.y) >= MIN_RELATIVE_CHANGE
                   || AbsInt(newPos.z - oldPos.z) >= MIN_RELATIVE_CHANGE
    ensures newPos == oldPos ==> !r
  {
    newPos.Subtract(oldPos).Abs().GreaterEqualThan(MIN_RELATIVE_CHANGE)
  }

  /** `|newRot - oldRot|` reaches the minimum change on some angle (plain
      integer subtraction, no wrap-around). */
  predicate Rotated(oldRot: IntVector2, newRot: IntVector2): (r: bool)
    ensures r <==> AbsInt(newRot.x - oldRot.x) >= MIN_RELATIVE_CHANGE || AbsInt(newRot.z - oldRot.z) >= MIN_RELATIVE_CHANGE
    ensures newRot == oldRot ==> !r
  {
    newRot.Subtract(oldRot).Abs().GreaterEqualThan(MIN_RELATIVE_CHANGE)
  }

  /** The test that replaces a relative move by a teleport: some component of
      the raw signed delta is above 127. */
  predicate TooFar(delta: IntVector3): (r: bool)
    ensures !r <==> delta.x <= MAX_RELATIVE_DISTANCE && delta.y <= MAX_RELATIVE_DISTANCE && delta.z <= MAX_RELATIVE_DISTANCE
    ensures delta == ZERO3 ==> !r
  {
    delta.GreaterThan(MAX_RELATIVE_DISTANCE)
  }

  /** The order in which the sync steps make their broadcasts. */
  function Rank(p: Packet): int {
    if p.AttachEntity? then 0
    else if p.EntityTeleport? || p.RelEntityMove? || p.RelEntityMoveLook? || p.EntityLook? then 1
    else if p.EntityVelocity? then 2
    else if p.EntityMetadata? then 3
    else 4
  }

  predicate RanksWithin(casts: seq<Cast>, lo: int, hi: int) {
    forall i :: 0 <= i < |casts| ==> lo <= Rank(casts[i].packet) <= hi
  }

  /** Strictly increasing ranks: one broadcast per step at most, steps in order. */
  predicate InStepOrder(casts: seq<Cast>) {
    forall i, j :: 0 <= i < j < |casts| ==> Rank(casts[i].packet) < Rank(casts[j].packet)
  }

  /** At most one broadcast, of the given rank. */
  predicate AtMostOne(casts: seq<Cast>, rank: int) {
    |casts| <= 1 && (|casts| == 1 ==> Rank(casts[0].packet) == rank)
  }

  /** At most one broadcast, of the given rank, not sent to the entity itself. */
  predicate OneOf(casts: seq<Cast>, rank: int) {
    AtMostOne(casts, rank) && (|casts| == 1 ==> !casts[0].includeSelf)
  }

  function Single(p: Packet): seq<Cast> {
    [Cast(p, false)]
  }

  // ---------------------------------------------------------------- vehicle

  /** `syncVehicle()`: re-attach when the vehicle changed, or every 60 ticks
      while riding. */
  function VehicleStep(id: EntityId, s: Shadow, vehicle: Option<EntityId>, tick: int): (r: Step)
    ensures r.shadow == s.(vehicle := vehicle)
    ensures r.casts == [] || r.casts == Single(AttachEntity(id, vehicle))
    ensures OneOf(r.casts, 0)
    ensures r.casts != [] <==>
              s.vehicle != vehicle || (vehicle.Some? && JavaRem(tick, VEHICLE_RESYNC_INTERVAL) == 0)
  {
    if s.vehicle != vehicle || (vehicle.Some? && IsTick(tick, VEHICLE_RESYNC_INTERVAL) == Some(true))
    then Step(s.(vehicle := vehicle), Single(AttachEntity(id, vehicle)))
    else Step(s, [])
  }

  // --------------------------------------------------------------- location

  /** The packet `syncLocation(position, rotation)` builds when the delta stays
      in relative range. `moved` and `rotated` say whether the position and the
      rotation differ from the shadow at all. */
  function RelativePacket(id: EntityId, delta: IntVector3, rotation: IntVector2,
                          moved: bool, rotated: bool, insideVehicle: bool): (r: Option<Packet>)
    ensures r.Some? ==> Rank(r.value) == 1 && !r.value.EntityTeleport?
    ensures r.None? <==> !rotated && (insideVehicle || !moved)
    ensures insideVehicle && r.Some? ==> r.value.EntityLook?
  {
    var yaw, pitch := ToByte(rotation.x), ToByte(rotation.z);
    if insideVehicle then
      if rotated then Some(EntityLook(id, yaw, pitch)) else None
    else if moved && rotated then
      Some(RelEntityMoveLook(id, ToByte(delta.x), ToByte(delta.y), ToByte(delta.z), yaw, pitch))
    else if moved then
      Some(RelEntityMove(id, ToByte(delta.x), ToByte(delta.y), ToByte(delta.z)))
    else if rotated then
      Some(EntityLook(id, yaw, pitch))
    else None
  }

  function Casts(p: Option<Packet>): seq<Cast> {
    if p.Some? then Single(p.value) else []
  }

  /** `syncLocation(position, rotation)`. Whatever packet is chosen, the shadow
      position and rotation end up equal to the ones given: a field is left
      alone only when it already holds the given value. */
  function LocationToStep(id: EntityId, s: Shadow, position: IntVector3, rotation: IntVector2,
                          insideVehicle: bool): (r: Step)
    ensures r.shadow == s.(pos := position, rot := rotation)
    ensures OneOf(r.casts, 1)
    ensures r.casts == [] <==>
              !TooFar(position.Subtract(s.pos)) && rotation == s.rot && (insideVehicle || position == s.pos)
  {
    var delta := position.Subtract(s.pos);
    var shadow := s.(pos := position, rot := rotation);
    if TooFar(delta) then
      Step(shadow, Single(EntityTeleport(id, position, ToByte(rotation.x), ToByte(rotation.z))))
    else
      Step(shadow, Casts(RelativePacket(id, delta, rotation, position != s.pos, rotation != s.rot, insideVehicle)))
  }

  /** `syncLocation()`: only a position (rotation) that moved by at least the
      minimum change is passed on; otherwise the shadow value is. */
  function LocationStep(id: EntityId, s: Shadow, live: LiveState): (r: Step)
    ensures r.shadow.pos == (if Moved(s.pos, live.pos) then live.pos else s.pos)
    ensures r.shadow.rot == (if Rotated(s.rot, live.rot) then live.rot else s.rot)
    ensures r.shadow.headYaw == s.headYaw && r.shadow.velocity == s.velocity && r.shadow.vehicle == s.vehicle
    ensures OneOf(r.casts, 1)
    ensures !Moved(s.pos, live.pos) && !Rotated(s.rot, live.rot) ==> r == Step(s, [])
  {
    var moved := Moved(s.pos, live.pos);
    var rotated := Rotated(s.rot, live.rot);
    LocationToStep(id, s, if moved then live.pos else s.pos, if rotated then live.rot else s.rot,
                   InsideVehicle(live))
  }

  // --------------------------------------------------------------- head yaw

  /** `syncHeadYaw()`: plain integer difference against the minimum change. */
  function HeadYawStep(id: EntityId, s: Shadow, live: LiveState): (r: Step)
    ensures r.shadow == s.(headYaw := r.shadow.headYaw)
    ensures r.casts != [] <==> AbsInt(live.headYaw - s.headYaw) >= MIN_RELATIVE_CHANGE
    ensures r.casts != [] ==> r.shadow.headYaw == live.headYaw
                              && r.casts == Single(EntityHeadRotation(id, ToByte(live.headYaw)))
    ensures r.casts == [] ==> r.shadow == s
    ensures OneOf(r.casts, 4)
  {
    if AbsInt(live.headYaw - s.headYaw) >= MIN_RELATIVE_CHANGE
    then Step(s.(headYaw := live.headYaw), Single(EntityHeadRotation(id, ToByte(live.headYaw))))
    else Step(s, [])
  }

  // --------------------------------------------------------------- metadata

  /** `syncMeta()`: changed metadata goes to the viewers and to the entity itself. */
  function MetaCasts(id: EntityId, live: LiveState): (r: seq<Cast>)
    ensures r != [] <==> live.metaChanged
    ensures r != [] ==> r == [Cast(EntityMetadata(id, false), true)]
    ensures AtMostOne(r, 3)
  {
    if live.metaChanged then [Cast(EntityMetadata(id, false), true)] else []
  }

  // --------------------------------------------------------------- velocity

  /** The velocity became exactly zero, or moved further than the minimum. */
  predicate VelocityChanged(oldVel: Vec3, newVel: Vec3): (r: bool)
    ensures oldVel == newVel ==> !r
    ensures newVel == ZERO_VELOCITY && oldVel.LengthSquared() > 0.0 ==> r
  {
    (newVel.LengthSquared() == 0.0 && oldVel.LengthSquared() > 0.0)
    || oldVel.DistanceSquared(newVel) > MIN_RELATIVE_VELOCITY_SQUARED
  }

  /** `syncVelocity(velocity)`: always stored, sent only when not riding. */
  function VelocityToStep(id: EntityId, s: Shadow, velocity: Vec3, insideVehicle: bool): (r: Step)
    ensures r.shadow == s.(velocity := velocity)
    ensures r.casts != [] <==> !insideVehicle
    ensures r.casts != [] ==> r.casts == Single(EntityVelocity(id, velocity))
  {
    Step(s.(velocity := velocity), if insideVehicle then [] else Single(EntityVelocity(id, velocity)))
  }

  /** `syncVelocity()`: nothing for an entity that is not mobile. */
  function VelocityStep(id: EntityId, s: Shadow, live: LiveState, mobile: bool): (r: Step)
    ensures !mobile ==> r == Step(s, [])
    ensures r.shadow == (if mobile && VelocityChanged(s.velocity, live.velocity) then s.(velocity := live.velocity) else s)
    ensures OneOf(r.casts, 2)
    ensures r.casts != [] <==> mobile && VelocityChanged(s.velocity, live.velocity) && !InsideVehicle(live)
  {
    if !mobile then Step(s, [])
    else if VelocityChanged(s.velocity, live.velocity) then VelocityToStep(id, s, live.velocity, InsideVehicle(live))
    else Step(s, [])
  }

  // ------------------------------------------------------------- whole sync

  /** The location and velocity steps that `onSync` runs only when the update
      interval is reached or the entity moved. */
  function GatedStep(id: EntityId, s: Shadow, live: LiveState, mobile: bool, due: bool): (r: Step)
    ensures !due ==> r == Step(s, [])
    ensures |r.casts| <= 2 && (|r.casts| == 2 ==> Rank(r.casts[0].packet) == 1 && Rank(r.casts[1].packet) == 2)
    ensures |r.casts| == 1 ==> 1 <= Rank(r.casts[0].packet) <= 2
    ensures |r.casts| >= 1 ==> !r.casts[0].includeSelf
    ensures |r.casts| == 2 ==> !r.casts[1].includeSelf
    ensures r.shadow.headYaw == s.headYaw && r.shadow.vehicle == s.vehicle
  {
    if due then
      var l := LocationStep(id, s, live);
      var v := VelocityStep(id, l.shadow, live, mobile);
      Step(v.shadow, l.casts + v.casts)
    else Step(s, [])
  }

  /** `onSync()`: vehicle, then (gated) location and velocity, then metadata,
      then head yaw. A zero update interval throws right after the vehicle step. */
  function SyncTick(id: EntityId, s: Shadow, live: LiveState, tick: int, interval: int, mobile: bool): (r: SyncOutcome)
    ensures r.thrown <==> interval == 0
    ensures r.thrown ==> r.step == VehicleStep(id, s, live.vehicle, tick)
    ensures r.step.shadow.vehicle == live.vehicle
  {
    var v := VehicleStep(id, s, live.vehicle, tick);
    match IsTick(tick, interval)
    case None => SyncOutcome(v, true)
    case Some(t) =>
      var g := GatedStep(id, v.shadow, live, mobile, t || live.positionChanged);
      var h := HeadYawStep(id, g.shadow, live);
      SyncOutcome(Step(h.shadow, v.casts + g.casts + MetaCasts(id, live) + h.casts), false)
  }

  /** The broadcasts of one sync come in step order, at most one per step. */
  lemma SyncTickInStepOrder(id: EntityId, s: Shadow, live: LiveState, tick: int, interval: int, mobile: bool)
    ensures InStepOrder(SyncTick(id, s, live, tick, interval, mobile).step.casts)
    ensures |SyncTick(id, s, live, tick, interval, mobile).step.casts| <= 5
  {
    var v := VehicleStep(id, s, live.vehicle, tick);
    if interval != 0 {
      var due := IsTick(tick, interval).value || live.positionChanged;
      var g := GatedStep(id, v.shadow, live, mobile, due);
      var h := HeadYawStep(id, g.shadow, live);
      SyncTickCasts(id, s, live, tick, interval, mobile, v, g, h);
      FourStepsInOrder(v.casts, g.casts, MetaCasts(id, live), h.casts);
    }
  }

  /** The whole sync, step by step, when the interval is not zero. */
  lemma SyncTickCasts(id: EntityId, s: Shadow, live: LiveState, tick: int, interval: int, mobile: bool,
                      v: Step, g: Step, h: Step)
    requires interval != 0
    requires v == VehicleStep(id, s, live.vehicle, tick)
    requires g == GatedStep(id, v.shadow, live, mobile, IsTick(tick, interval).value || live.positionChanged)
    requires h == HeadYawStep(id, g.shadow, live)
    ensures SyncTick(id, s, live, tick, interval, mobile)
              == SyncOutcome(Step(h.shadow, v.casts + g.casts + MetaCasts(id, live) + h.casts), false)
  {
  }

  lemma FourStepsInOrder(v: seq<Cast>, g: seq<Cast>, m: seq<Cast>, h: seq<Cast>)
    requires AtMostOne(v, 0) && AtMostOne(m, 3) && AtMostOne(h, 4)
    requires |g| <= 2 && (|g| == 2 ==> Rank(g[0].packet) == 1 && Rank(g[1].packet) == 2)
    requires |g| == 1 ==> 1 <= Rank(g[0].packet) <= 2
    ensures InStepOrder(v + g + m + h) && |v + g + m + h| <= 5
  {
    AtMostOneRanks(v, 0);
    AtMostOneRanks(m, 3);
    AtMostOneRanks(h, 4);
    GatedRanks(g);
    var vg := v + g;
    InStepOrderAppend(v, g, 0, 0, 2);
    var vgm := vg + m;
    InStepOrderAppend(vg, m, 0, 2, 3);
    InStepOrderAppend(vgm, h, 0, 3, 4);
  }

  lemma AtMostOneRanks(casts: seq<Cast>, rank: int)
    requires AtMostOne(casts, rank)
    ensures RanksWithin(casts, rank, rank)
  {
  }

  lemma GatedRanks(g: seq<Cast>)
    requires |g| <= 2 && (|g| == 2 ==> Rank(g[0].packet) == 1 && Rank(g[1].packet) == 2)
    requires |g| == 1 ==> 1 <= Rank(g[0].packet) <= 2
    ensures InStepOrder(g) && RanksWithin(g, 1, 2)
  {
  }

  /** Joining two ordered runs keeps them ordered when the ranks of the first
      lie below those of the second. */
  lemma InStepOrderAppend(a: seq<Cast>, b: seq<Cast>, lo: int, mid: int, hi: int)
    requires |a| <= 1 || InStepOrder(a)
    requires |b| <= 1 || InStepOrder(b)
    requires lo <= mid < hi
    requires RanksWithin(a, lo, mid) && RanksWithin(b, mid + 1, hi)
    ensures InStepOrder(a + b) && RanksWithin(a + b, lo, hi)
  {
    forall i, j | 0 <= i < j < |a + b|
      ensures Rank((a + b)[i].packet) < Rank((a + b)[j].packet)
    {
      if j < |a| {
        assert (a + b)[i] == a[i] && (a + b)[j] == a[j];
      } else if i < |a| {
        assert (a + b)[i] == a[i] && (a + b)[j] == b[j - |a|];
      } else {
        assert (a + b)[i] == b[i - |a|] && (a + b)[j] == b[j - |a|];
      }
    }
    forall i | 0 <= i < |a + b| ensures lo <= Rank((a + b)[i].packet) <= hi {
      if i < |a| {
        assert (a + b)[i] == a[i];
      } else {
        assert (a + b)[i] == b[i - |a|];
      }
    }
  }

  // ------------------------------------------------------- spawn & visibility

  /** `getSpawnPacket()`: a vehicle spawn takes the shadow position and the
      byte casts of the shadow angles; any other spawn is the engine's own. */
  function SpawnFor(s: Shadow, native: Packet): (r: Packet)
    ensures !(native.SpawnEntity? && native.vehicleSpawn) ==> r == native
    ensures native.SpawnEntity? && native.vehicleSpawn ==>
              r.SpawnEntity? && r.vehicleSpawn && r.entity == native.entity && r.pos == s.pos
              && r.yaw == ToByte(s.rot.x) && r.pitch == ToByte(s.rot.z)
  {
    if native.SpawnEntity? && native.vehicleSpawn
    then native.(pos := s.pos, yaw := ToByte(s.rot.x), pitch := ToByte(s.rot.z))
    else native
  }

  /** What `makeVisible(viewer)` sends: spawn, metadata, velocity, then the
      optional attach, sleeping action and head rotation. */
  function SpawnSequence(id: EntityId, viewer: PlayerId, s: Shadow, live: LiveState): (r: seq<Send>)
    ensures 3 <= |r| <= 6
  {
    [(viewer, SpawnFor(s, live.nativeSpawn)), (viewer, EntityMetadata(id, true)),
     (viewer, EntityVelocity(id, s.velocity))]
    + (if InsideVehicle(live) then [(viewer, AttachEntity(id, live.vehicle))] else [])
    + (if live.sleepingHuman then [(viewer, EntityLocationAction(id, 0, live.block))] else [])
    + (if live.headYaw != 0 then [(viewer, EntityHeadRotation(id, ToByte(live.headYaw)))] else [])
  }

  /** Everything goes to the new viewer: the spawn, the full metadata and the
      shadow velocity first, then exactly the optional packets that apply. */
  lemma SpawnSequenceShape(id: EntityId, viewer: PlayerId, s: Shadow, live: LiveState)
    ensures var r := SpawnSequence(id, viewer, s, live);
            3 <= |r| <= 6
            && (forall i :: 0 <= i < |r| ==> r[i].0 == viewer)
            && r[0] == (viewer, SpawnFor(s, live.nativeSpawn))
            && r[1] == (viewer, EntityMetadata(id, true))
            && r[2] == (viewer, EntityVelocity(id, s.velocity))
            && ((viewer, AttachEntity(id, live.vehicle)) in r[3..] <==> InsideVehicle(live))
            && ((viewer, EntityLocationAction(id, 0, live.block)) in r[3..] <==> live.sleepingHuman)
            && ((viewer, EntityHeadRotation(id, ToByte(live.headYaw))) in r[3..] <==> live.headYaw != 0)
            && |r| == 3 + (if InsideVehicle(live) then 1 else 0) + (if live.sleepingHuman then 1 else 0)
                        + (if live.headYaw != 0 then 1 else 0)
  {
    var head := [(viewer, SpawnFor(s, live.nativeSpawn)), (viewer, EntityMetadata(id, true)),
                 (viewer, EntityVelocity(id, s.velocity))];
    var attach := if InsideVehicle(live) then [(viewer, AttachEntity(id, live.vehicle))] else [];
    var sleep := if live.sleepingHuman then [(viewer, EntityLocationAction(id, 0, live.block))] else [];
    var look := if live.headYaw != 0 then [(viewer, EntityHeadRotation(id, ToByte(live.headYaw)))] else [];
    var r := head + attach + sleep + look;
    assert r == SpawnSequence(id, viewer, s, live);
    assert r == head + (attach + sleep + look);
    assert r[3..] == attach + sleep + look;
  }

  /** The follow-up packets of the spawn sequence come in the order attach,
      sleeping action, head rotation. */
  lemma SpawnFollowUpOrder(id: EntityId, viewer: PlayerId, s: Shadow, live: LiveState)
    ensures var t := SpawnSequence(id, viewer, s, live)[3..];
            forall i, j :: 0 <= i < j < |t| ==>
              (t[i].1.EntityHeadRotation? ==> !t[j].1.AttachEntity? && !t[j].1.EntityLocationAction?)
              && (t[i].1.EntityLocationAction? ==> !t[j].1.AttachEntity?)
  {
    var r := SpawnSequence(id, viewer, s, live);
    var head := [(viewer, SpawnFor(s, live.nativeSpawn)), (viewer, EntityMetadata(id, true)),
                 (viewer, EntityVelocity(id, s.velocity))];
    var attach := if InsideVehicle(live) then [(viewer, AttachEntity(id, live.vehicle))] else [];
    var sleep := if live.sleepingHuman then [(viewer, EntityLocationAction(id, 0, live.block))] else [];
    var look := if live.headYaw != 0 then [(viewer, EntityHeadRotation(id, ToByte(live.headYaw)))] else [];
    assert r == head + (attach + sleep + look);
    var t := attach + sleep + look;
    assert r[3..] == t;
    forall i, j | 0 <= i < j < |t|
      ensures (t[i].1.EntityHeadRotation? ==> !t[j].1.AttachEntity? && !t[j].1.EntityLocationAction?)
              && (t[i].1.EntityLocationAction? ==> !t[j].1.AttachEntity?)
    {
      assert i >= |attach| ==> t[j] in sleep + look;
    }
  }

  /** `updateViewer`'s distance test: both horizontal distances from the
      viewer to the shadow position (in blocks) are within the view distance. */
  predicate InViewRange(shadowPos: IntVector3, viewDistance: int, viewerX: real, viewerZ: real): (r: bool)
    ensures r ==> viewDistance >= 0
    ensures r <==> shadowPos.x as real / 32.0 - viewDistance as real <= viewerX <= shadowPos.x as real / 32.0 + viewDistance as real
                   && shadowPos.z as real / 32.0 - viewDistance as real <= viewerZ <= shadowPos.z as real / 32.0 + viewDistance as real
  {
    AbsReal(viewerX - shadowPos.x as real / 32.0) <= viewDistance as real
    && AbsReal(viewerZ - shadowPos.z as real / 32.0) <= viewDistance as real
  }
}
