/** Properties of the sync decisions: what a client that applies the packets
    believes, where relative moves give way to teleports, the hysteresis of
    the minimum-change thresholds, and what a repeated sync still sends. */
module SyncProperties {
  import opened Vectors
  import opened Packets
  import opened Sync
  import opened Delivery

  // ------------------------------------------------------------ client view

  /** What a client believes about the entity's place: protocol position and
      byte angles. */
  datatype ClientView = ClientView(pos: IntVector3, yaw: int, pitch: int)

  /** The view matching a shadow state. */
  function Believed(s: Shadow): ClientView {
    ClientView(s.pos, ToByte(s.rot.x), ToByte(s.rot.z))
  }

  /** How a client applies one location packet; others leave the view alone. */
  function Observe(v: ClientView, p: Packet): (r: ClientView)
    ensures !IsMovePacket(p) && !p.EntityLook? && !p.SpawnEntity? ==> r == v
    ensures p.RelEntityMove? ==> r == v.(pos := v.pos.Add(IntVector3(p.dx, p.dy, p.dz)))
  {
    match p
    case SpawnEntity(_, _, pos, yaw, pitch) => ClientView(pos, yaw, pitch)
    case EntityTeleport(_, pos, yaw, pitch) => ClientView(pos, yaw, pitch)
    case RelEntityMove(_, dx, dy, dz) => v.(pos := v.pos.Add(IntVector3(dx, dy, dz)))
    case RelEntityMoveLook(_, dx, dy, dz, yaw, pitch) =>
      ClientView(v.pos.Add(IntVector3(dx, dy, dz)), yaw, pitch)
    case EntityLook(_, yaw, pitch) => v.(yaw := yaw, pitch := pitch)
    case _ => v
  }

  function ObserveAll(v: ClientView, casts: seq<Cast>): ClientView
    decreases |casts|
  {
    if casts == [] then v else ObserveAll(Observe(v, casts[0].packet), casts[1..])
  }

  /** Every component of a delta fits the signed byte a relative move carries. */
  predicate FitsByte(d: IntVector3) {
    -128 <= d.x <= 127 && -128 <= d.y <= 127 && -128 <= d.z <= 127
  }

  /** Outside a vehicle, a client that saw the old shadow state and applies
      the broadcast of `syncLocation(position, rotation)` ends up believing the
      new shadow state, whenever a teleport is sent or no delta component is
      below -128 (the teleport test only looks above 127). */
  lemma ClientTracksShadow(id: EntityId, s: Shadow, position: IntVector3, rotation: IntVector2)
    requires var d := position.Subtract(s.pos); TooFar(d) || (d.x >= -128 && d.y >= -128 && d.z >= -128)
    ensures var r := LocationToStep(id, s, position, rotation, false);
            ObserveAll(Believed(s), r.casts) == Believed(r.shadow)
  {
    var d := position.Subtract(s.pos);
    var r := LocationToStep(id, s, position, rotation, false);
    if r.casts != [] {
      assert r.casts[1..] == [];
      var p := r.casts[0].packet;
      if !TooFar(d) {
        assert FitsByte(d);
        assert ToByte(d.x) == d.x && ToByte(d.y) == d.y && ToByte(d.z) == d.z;
        assert s.pos.Add(d) == position;
      }
      assert Observe(Believed(s), p) == Believed(r.shadow);
    }
  }

  /** The signed teleport test lets a large move in the negative direction
      through as a relative move: a delta of -200 is sent as the byte 56, and
      the client's view then disagrees with the shadow state. */
  lemma LargeNegativeDeltaIsWrapped(id: EntityId)
    ensures var s := Shadow(IntVector3(200, 0, 0), ZERO2, 0, ZERO_VELOCITY, None);
            var r := LocationToStep(id, s, ZERO3, ZERO2, false);
            r.casts == Single(RelEntityMove(id, 56, 0, 0))
            && r.shadow.pos == ZERO3
            && ObserveAll(Believed(s), r.casts).pos == IntVector3(256, 0, 0)
            && ObserveAll(Believed(s), r.casts) != Believed(r.shadow)
  {
    var s := Shadow(IntVector3(200, 0, 0), ZERO2, 0, ZERO_VELOCITY, None);
    WrappedMoveCasts(id, s);
    var b := Believed(s);
    assert b.pos == IntVector3(200, 0, 0);
    ObserveSingle(b, Cast(RelEntityMove(id, 56, 0, 0), false));
    ObserveRelativeMove(b, id, 56, 0, 0);
  }

  lemma WrappedMoveCasts(id: EntityId, s: Shadow)
    requires s == Shadow(IntVector3(200, 0, 0), ZERO2, 0, ZERO_VELOCITY, None)
    ensures var r := LocationToStep(id, s, ZERO3, ZERO2, false);
            r.casts == Single(RelEntityMove(id, 56, 0, 0)) && r.shadow.pos == ZERO3
  {
    var d := IntVector3(-200, 0, 0);
    assert ZERO3.Subtract(s.pos) == d;
    WrappedRelativePacket(id, ZERO2);
    assert LocationToStep(id, s, ZERO3, ZERO2, false).casts == Casts(RelativePacket(id, d, ZERO2, true, false, false));
  }

  lemma WrappedRelativePacket(id: EntityId, rotation: IntVector2)
    ensures RelativePacket(id, IntVector3(-200, 0, 0), rotation, true, false, false) == Some(RelEntityMove(id, 56, 0, 0))
  {
    assert ToByte(-200) == 56 && ToByte(0) == 0;
  }

  lemma ObserveRelativeMove(v: ClientView, id: EntityId, dx: int, dy: int, dz: int)
    ensures Observe(v, RelEntityMove(id, dx, dy, dz)).pos == IntVector3(v.pos.x + dx, v.pos.y + dy, v.pos.z + dz)
  {
  }

  lemma ObserveSingle(v: ClientView, c: Cast)
    ensures ObserveAll(v, [c]) == Observe(v, c.packet)
  {
    assert [c][1..] == [];
  }

  /** A vehicle spawn puts the client exactly at the shadow state. */
  lemma VehicleSpawnShowsShadow(s: Shadow, native: Packet)
    requires native.SpawnEntity? && native.vehicleSpawn
    ensures forall v :: Observe(v, SpawnFor(s, native)) == Believed(s)
  {
  }

  // --------------------------------------------------- relative vs teleport

  /** A teleport is sent exactly when some component of the signed delta is
      above 127, inside a vehicle or not. */
  lemma TeleportIff(id: EntityId, s: Shadow, position: IntVector3, rotation: IntVector2, insideVehicle: bool)
    ensures var r := LocationToStep(id, s, position, rotation, insideVehicle);
            (r.casts != [] && r.casts[0].packet.EntityTeleport?) <==> TooFar(position.Subtract(s.pos))
    ensures var r := LocationToStep(id, s, position, rotation, insideVehicle);
            TooFar(position.Subtract(s.pos)) ==>
              r.casts == Single(EntityTeleport(id, position, ToByte(rotation.x), ToByte(rotation.z)))
  {
    var d := position.Subtract(s.pos);
    if !TooFar(d) {
      var p := RelativePacket(id, d, rotation, position != s.pos, rotation != s.rot, insideVehicle);
      assert LocationToStep(id, s, position, rotation, insideVehicle).casts == Casts(p);
    }
  }

  /** The boundary: a delta of 127 on one axis is still relative, 128 is not. */
  lemma TeleportBoundary(id: EntityId, s: Shadow)
    ensures LocationToStep(id, s, s.pos.Add(IntVector3(127, 0, 0)), s.rot, false).casts
            == Single(RelEntityMove(id, 127, 0, 0))
    ensures LocationToStep(id, s, s.pos.Add(IntVector3(128, 0, 0)), s.rot, false).casts
            == Single(EntityTeleport(id, s.pos.Add(IntVector3(128, 0, 0)), ToByte(s.rot.x), ToByte(s.rot.z)))
  {
    assert s.pos.Add(IntVector3(127, 0, 0)).Subtract(s.pos) == IntVector3(127, 0, 0);
    assert s.pos.Add(IntVector3(128, 0, 0)).Subtract(s.pos) == IntVector3(128, 0, 0);
  }

  /** Within relative range, riding suppresses position updates: at most a
      look is sent, exactly when the rotation changed, and the shadow position
      is still taken over. */
  lemma VehicleSuppressesMoves(id: EntityId, s: Shadow, position: IntVector3, rotation: IntVector2)
    requires !TooFar(position.Subtract(s.pos))
    ensures var r := LocationToStep(id, s, position, rotation, true);
            r.shadow.pos == position
            && (r.casts != [] <==> rotation != s.rot)
            && (r.casts != [] ==> r.casts == Single(EntityLook(id, ToByte(rotation.x), ToByte(rotation.z))))
  {
    var d := position.Subtract(s.pos);
    var p := RelativePacket(id, d, rotation, position != s.pos, rotation != s.rot, true);
    assert LocationToStep(id, s, position, rotation, true).casts == Casts(p);
  }

  /** Within relative range and not riding, the packet follows what changed. */
  lemma RelativeSelection(id: EntityId, s: Shadow, position: IntVector3, rotation: IntVector2)
    requires !TooFar(position.Subtract(s.pos))
    ensures var r := LocationToStep(id, s, position, rotation, false);
            var d := position.Subtract(s.pos);
            var yaw, pitch := ToByte(rotation.x), ToByte(rotation.z);
            (position != s.pos && rotation != s.rot ==>
               r.casts == Single(RelEntityMoveLook(id, ToByte(d.x), ToByte(d.y), ToByte(d.z), yaw, pitch)))
            && (position != s.pos && rotation == s.rot ==>
               r.casts == Single(RelEntityMove(id, ToByte(d.x), ToByte(d.y), ToByte(d.z))))
            && (position == s.pos && rotation != s.rot ==> r.casts == Single(EntityLook(id, yaw, pitch)))
            && (position == s.pos && rotation == s.rot ==> r.casts == [])
  {
    var d := position.Subtract(s.pos);
    var p := RelativePacket(id, d, rotation, position != s.pos, rotation != s.rot, false);
    assert LocationToStep(id, s, position, rotation, false).casts == Casts(p);
  }

  // ------------------------------------------------------------- hysteresis

  /** After `syncLocation()` the live location is within the minimum change of
      the shadow state, so an immediate second call sends nothing. */
  lemma LocationStepSettles(id: EntityId, s: Shadow, live: LiveState)
    ensures var r := LocationStep(id, s, live);
            !Moved(r.shadow.pos, live.pos) && !Rotated(r.shadow.rot, live.rot)
            && LocationStep(id, r.shadow, live) == Step(r.shadow, [])
  {
    var r := LocationStep(id, s, live);
    if Moved(s.pos, live.pos) {
      assert live.pos.Subtract(live.pos) == ZERO3;
    }
    if Rotated(s.rot, live.rot) {
      assert live.rot.Subtract(live.rot) == ZERO2;
    }
  }

  /** `syncLocation()` applied to a run of samples. */
  function LocationRun(id: EntityId, s: Shadow, samples: seq<LiveState>): (r: Step)
    decreases |samples|
  {
    if samples == [] then Step(s, [])
    else
      var first := LocationStep(id, s, samples[0]);
      var rest := LocationRun(id, first.shadow, samples[1..]);
      Step(rest.shadow, first.casts + rest.casts)
  }

  /** Samples that all stay within the minimum change of the shadow state are
      never sent, however many there are: the shadow does not follow them. */
  lemma {:induction false} SubThresholdRunIsSilent(id: EntityId, s: Shadow, samples: seq<LiveState>)
    requires forall i :: 0 <= i < |samples| ==> !Moved(s.pos, samples[i].pos) && !Rotated(s.rot, samples[i].rot)
    ensures LocationRun(id, s, samples) == Step(s, [])
    decreases |samples|
  {
    if samples != [] {
      assert LocationStep(id, s, samples[0]) == Step(s, []);
      forall i | 0 <= i < |samples[1..]|
        ensures !Moved(s.pos, samples[1..][i].pos) && !Rotated(s.rot, samples[1..][i].rot)
      {
        assert samples[1..][i] == samples[i + 1];
      }
      SubThresholdRunIsSilent(id, s, samples[1..]);
    }
  }

  /** After `syncHeadYaw()` the live head yaw is within the minimum change. */
  lemma HeadYawStepSettles(id: EntityId, s: Shadow, live: LiveState)
    ensures var r := HeadYawStep(id, s, live);
            AbsInt(live.headYaw - r.shadow.headYaw) < MIN_RELATIVE_CHANGE
            && HeadYawStep(id, r.shadow, live) == Step(r.shadow, [])
  {
    var r := HeadYawStep(id, s, live);
    if r.casts != [] {
      assert live.headYaw - r.shadow.headYaw == 0;
    }
  }

  // --------------------------------------------------------------- velocity

  /** A velocity that drops to exactly zero from a moving one is sent,
      however small the change; the same small change to a non-zero velocity
      is not. */
  lemma StoppingIsAlwaysSent(oldVel: Vec3)
    requires oldVel.LengthSquared() > 0.0
    ensures VelocityChanged(oldVel, ZERO_VELOCITY)
  {
    assert ZERO_VELOCITY.LengthSquared() == 0.0;
  }

  /** A velocity of 0.01 along x: dropping to zero is sent, rising to 0.02 is
      below the minimum change and is not. */
  lemma SmallStopIsSent()
    ensures VelocityChanged(Vec3(0.01, 0.0, 0.0), ZERO_VELOCITY)
    ensures !VelocityChanged(Vec3(0.01, 0.0, 0.0), Vec3(0.02, 0.0, 0.0))
  {
    var slow := Vec3(0.01, 0.0, 0.0);
    assert slow.LengthSquared() == 0.0001;
    StoppingIsAlwaysSent(slow);
    assert Vec3(0.02, 0.0, 0.0).LengthSquared() == 0.0004;
    assert slow.DistanceSquared(Vec3(0.02, 0.0, 0.0)) == 0.0001;
  }

  /** Once stored, a velocity is not sent again. */
  lemma VelocityStepSettles(id: EntityId, s: Shadow, live: LiveState, mobile: bool)
    ensures var r := VelocityStep(id, s, live, mobile);
            r.shadow.velocity == live.velocity ==> VelocityStep(id, r.shadow, live, mobile) == Step(r.shadow, [])
  {
    var v := live.velocity;
    assert v.DistanceSquared(v) == 0.0;
  }

  // ------------------------------------------------------------- whole sync

  /** The shadow state is within every minimum change of the live state and
      rides what the entity rides. */
  predicate Settled(s: Shadow, live: LiveState, mobile: bool) {
    !Moved(s.pos, live.pos) && !Rotated(s.rot, live.rot)
    && AbsInt(live.headYaw - s.headYaw) < MIN_RELATIVE_CHANGE
    && s.vehicle == live.vehicle
    && (mobile ==> !VelocityChanged(s.velocity, live.velocity))
  }

  /** A sync that ran the gated steps leaves the shadow settled. */
  lemma GatedSyncSettles(id: EntityId, s: Shadow, live: LiveState, tick: int, interval: int, mobile: bool)
    requires interval != 0
    requires live.positionChanged || IsTick(tick, interval) == Some(true)
    ensures Settled(SyncTick(id, s, live, tick, interval, mobile).step.shadow, live, mobile)
  {
    var v := VehicleStep(id, s, live.vehicle, tick);
    var g := GatedStep(id, v.shadow, live, mobile, true);
    var h := HeadYawStep(id, g.shadow, live);
    SyncTickCasts(id, s, live, tick, interval, mobile, v, g, h);
    var l := LocationStep(id, v.shadow, live);
    LocationStepSettles(id, v.shadow, live);
    HeadYawStepSettles(id, g.shadow, live);
    var w := VelocityStep(id, l.shadow, live, mobile);
    assert g.shadow == w.shadow;
    if w.shadow != l.shadow {
      VelocityStepSettles(id, l.shadow, live, mobile);
    }
  }

  /** From a settled shadow, a sync changes nothing and sends at most the
      attachment and the metadata. */
  lemma SettledSyncIsQuiet(id: EntityId, s: Shadow, live: LiveState, tick: int, interval: int, mobile: bool)
    requires interval != 0 && Settled(s, live, mobile)
    ensures var r := SyncTick(id, s, live, tick, interval, mobile).step;
            r.shadow == s && r.casts == VehicleStep(id, s, live.vehicle, tick).casts + MetaCasts(id, live)
  {
    var due := IsTick(tick, interval).value || live.positionChanged;
    var v := VehicleStep(id, s, live.vehicle, tick);
    assert v.shadow == s;
    var g := GatedStep(id, s, live, mobile, due);
    assert LocationStep(id, s, live) == Step(s, []);
    assert VelocityStep(id, s, live, mobile) == Step(s, []);
    assert g == Step(s, []);
    var h := HeadYawStep(id, s, live);
    assert h == Step(s, []);
    SyncTickCasts(id, s, live, tick, interval, mobile, v, g, h);
    assert v.casts + [] + MetaCasts(id, live) + [] == v.casts + MetaCasts(id, live);
  }

  /** The same live state synced twice: when the first sync ran the gated
      steps, the second changes no shadow state and re-sends only what does
      not depend on the shadow: the attachment (every 60 ticks while riding)
      and the metadata, whenever the engine reports it changed. */
  lemma SecondSyncIsQuiet(id: EntityId, s: Shadow, live: LiveState, t1: int, t2: int, interval: int, mobile: bool)
    requires interval != 0
    requires live.positionChanged || IsTick(t1, interval) == Some(true)
    ensures var r1 := SyncTick(id, s, live, t1, interval, mobile);
            var r2 := SyncTick(id, r1.step.shadow, live, t2, interval, mobile);
            r2.step.shadow == r1.step.shadow
            && r2.step.casts == VehicleStep(id, r1.step.shadow, live.vehicle, t2).casts + MetaCasts(id, live)
  {
    GatedSyncSettles(id, s, live, t1, interval, mobile);
    SettledSyncIsQuiet(id, SyncTick(id, s, live, t1, interval, mobile).step.shadow, live, t2, interval, mobile);
  }

  /** A tick that is neither an update tick nor a reported move runs only the
      vehicle, metadata and head-yaw steps: position, rotation and velocity
      stay as they were. */
  lemma UngatedTickKeepsLocation(id: EntityId, s: Shadow, live: LiveState, tick: int, interval: int, mobile: bool)
    requires IsTick(tick, interval) == Some(false) && !live.positionChanged
    ensures var v := VehicleStep(id, s, live.vehicle, tick);
            var h := HeadYawStep(id, v.shadow, live);
            var r := SyncTick(id, s, live, tick, interval, mobile).step;
            r.shadow == h.shadow && r.casts == v.casts + MetaCasts(id, live) + h.casts
            && r.shadow.pos == s.pos && r.shadow.rot == s.rot && r.shadow.velocity == s.velocity
  {
    var v := VehicleStep(id, s, live.vehicle, tick);
    var g := GatedStep(id, v.shadow, live, mobile, false);
    var h := HeadYawStep(id, g.shadow, live);
    SyncTickCasts(id, s, live, tick, interval, mobile, v, g, h);
    assert v.casts + g.casts + MetaCasts(id, live) + h.casts == v.casts + MetaCasts(id, live) + h.casts;
  }

  /** A tick on which nothing differs from the shadow state sends nothing. */
  lemma QuietTickSendsNothing(id: EntityId, s: Shadow, live: LiveState, tick: int, interval: int, mobile: bool)
    requires interval != 0
    requires live.pos == s.pos && live.rot == s.rot && live.headYaw == s.headYaw
    requires live.velocity == s.velocity && live.vehicle == s.vehicle && !live.metaChanged
    requires live.vehicle.None? || JavaRem(tick, VEHICLE_RESYNC_INTERVAL) != 0
    ensures SyncTick(id, s, live, tick, interval, mobile) == SyncOutcome(Step(s, []), false)
  {
    var v := VehicleStep(id, s, live.vehicle, tick);
    var due := IsTick(tick, interval).value || live.positionChanged;
    var g := GatedStep(id, v.shadow, live, mobile, due);
    var h := HeadYawStep(id, g.shadow, live);
    SyncTickCasts(id, s, live, tick, interval, mobile, v, g, h);
    assert live.pos.Subtract(s.pos) == ZERO3 && live.rot.Subtract(s.rot) == ZERO2;
    assert LocationStep(id, s, live) == Step(s, []);
    assert s.velocity.DistanceSquared(s.velocity) == 0.0;
    assert VelocityStep(id, s, live, mobile) == Step(s, []);
  }

  /** An entity that is not mobile never broadcasts a velocity, and its
      shadow velocity stays as it was. */
  lemma ImmobileSendsNoVelocity(id: EntityId, s: Shadow, live: LiveState, tick: int, interval: int)
    ensures var r := SyncTick(id, s, live, tick, interval, false).step;
            r.shadow.velocity == s.velocity
            && forall i :: 0 <= i < |r.casts| ==> !r.casts[i].packet.EntityVelocity?
  {
    var v := VehicleStep(id, s, live.vehicle, tick);
    if interval != 0 {
      var due := IsTick(tick, interval).value || live.positionChanged;
      var g := GatedStep(id, v.shadow, live, false, due);
      var h := HeadYawStep(id, g.shadow, live);
      SyncTickCasts(id, s, live, tick, interval, false, v, g, h);
      if due {
        var l := LocationStep(id, v.shadow, live);
        assert g.casts == l.casts + [];
      }
      NoVelocityInFour(v.casts, g.casts, MetaCasts(id, live), h.casts);
    }
  }

  predicate NoVelocity(casts: seq<Cast>) {
    forall i :: 0 <= i < |casts| ==> !casts[i].packet.EntityVelocity?
  }

  lemma NoVelocityInFour(v: seq<Cast>, g: seq<Cast>, m: seq<Cast>, h: seq<Cast>)
    requires AtMostOne(v, 0) && AtMostOne(g, 1) && AtMostOne(m, 3) && AtMostOne(h, 4)
    ensures NoVelocity(v + g + m + h)
  {
    assert NoVelocity(v) && NoVelocity(g) && NoVelocity(m) && NoVelocity(h);
    NoVelocityAppend(v, g);
    NoVelocityAppend(v + g, m);
    NoVelocityAppend(v + g + m, h);
  }

  lemma NoVelocityAppend(a: seq<Cast>, b: seq<Cast>)
    requires NoVelocity(a) && NoVelocity(b)
    ensures NoVelocity(a + b)
  {
    forall i | 0 <= i < |a + b| ensures !(a + b)[i].packet.EntityVelocity? {
      if i < |a| {
        assert (a + b)[i] == a[i];
      } else {
        assert (a + b)[i] == b[i - |a|];
      }
    }
  }

  // ---------------------------------------------------------------- viewers

  /** Taking out a viewer just added restores the list. */
  lemma {:induction false} WithoutUndoesAppend(s: seq<PlayerId>, p: PlayerId)
    requires p !in s
    ensures Without(s + [p], p) == s
  {
    if s != [] {
      assert (s + [p])[0] == s[0];
      assert (s + [p])[1..] == s[1..] + [p];
      WithoutUndoesAppend(s[1..], p);
    } else {
      assert [p][1..] == [];
    }
  }
}
