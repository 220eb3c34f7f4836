/** The per-entity network controller: the shadow ("synched") fields of the
    tracker entry, the viewers, the per-player removal queues and the packets
    handed to the transport, in order. Every sync method is proved against the
    step function of `Sync` that specifies it. */
module NetworkController {
  import opened Vectors
  import opened Packets
  import opened Delivery
  import opened Sync

  class Controller {
    const entityId: EntityId
    /** The entity is itself a player (a self-send then reaches its client). */
    const isPlayer: bool

    var shadowPos: IntVector3
    var shadowRot: IntVector2
    var shadowHeadYaw: int
    var shadowVelocity: Vec3
    var shadowVehicle: Option<EntityId>

    var viewers: seq<PlayerId>
    var viewDistance: int
    var updateInterval: int
    var mobile: bool
    var tick: int

    /** Entity ids each player's client is due to destroy on its next tick. */
    var removeQueue: map<PlayerId, set<EntityId>>
    /** Every packet handed to the transport, in the order it was sent. */
    var outbox: seq<Send>

    ghost predicate Valid()
      reads this
    {
      NoDuplicates(viewers)
    }

    /** The shadow fields as one value (the `get...Synched` getters). */
    function Synched(): Shadow
      reads this
    {
      Shadow(shadowPos, shadowRot, shadowHeadYaw, shadowVelocity, shadowVehicle)
    }

    /** `getViewers()`. */
    function Viewers(): (r: set<PlayerId>)
      reads this
      ensures NoDuplicates(viewers) ==> |r| == |viewers|
    {
      if NoDuplicates(viewers) then DistinctCard(viewers); set q | q in viewers
      else set q | q in viewers
    }

    function Queued(p: PlayerId): set<EntityId>
      reads this
    {
      if p in removeQueue then removeQueue[p] else {}
    }

    /** Where `broadcast(packet, true)` sends first. */
    function SelfTarget(): Option<PlayerId>
      reads this
    {
      if isPlayer then Some(entityId) else None
    }

    /** A controller over a fresh tracker entry whose shadow fields the engine
        seeded with `initial`. */
    constructor (id: EntityId, player: bool, initial: Shadow, distance: int, interval: int, isMobile: bool)
      ensures Valid()
      ensures entityId == id && isPlayer == player && Synched() == initial
      ensures viewDistance == distance && updateInterval == interval && mobile == isMobile
      ensures viewers == [] && removeQueue == map[] && outbox == [] && tick == 0
    {
      entityId, isPlayer := id, player;
      shadowPos, shadowRot, shadowHeadYaw := initial.pos, initial.rot, initial.headYaw;
      shadowVelocity, shadowVehicle := initial.velocity, initial.vehicle;
      viewers := [];
      viewDistance, updateInterval, mobile := distance, interval, isMobile;
      tick := 0;
      removeQueue := map[];
      outbox := [];
    }

    // ------------------------------------------------------------ settings

    method SetViewDistance(blockDistance: int)
      modifies this`viewDistance
      ensures viewDistance == blockDistance
    {
      viewDistance := blockDistance;
    }

    method SetUpdateInterval(tickInterval: int)
      modifies this`updateInterval
      ensures updateInterval == tickInterval
    {
      updateInterval := tickInterval;
    }

    method SetMobile(isMobile: bool)
      modifies this`mobile
      ensures mobile == isMobile
    {
      mobile := isMobile;
    }

    // ----------------------------------------------------------- transport

    /** `PacketUtil.sendPacket(player, packet)`. */
    method Send(p: PlayerId, packet: Packet)
      modifies this`outbox
      ensures outbox == old(outbox) + [(p, packet)]
    {
      outbox := outbox + [(p, packet)];
    }

    /** The loop of `broadcast`: the packet to every viewer in turn. */
    method SendToViewers(packet: Packet)
      modifies this`outbox
      ensures outbox == old(outbox) + Fanout(viewers, packet)
    {
      var i := 0;
      while i < |viewers|
        invariant 0 <= i <= |viewers|
        invariant outbox == old(outbox) + Fanout(viewers[..i], packet)
      {
        assert viewers[..i + 1] == viewers[..i] + [viewers[i]];
        FanoutSnoc(viewers[..i], viewers[i], packet);
        Send(viewers[i], packet);
        i := i + 1;
      }
      assert viewers[..i] == viewers;
    }

    /** `broadcast(packet, self)`: the entity itself first when asked for and
        it is a player, then every viewer. */
    method BroadcastWith(packet: Packet, includeSelf: bool)
      modifies this`outbox
      ensures outbox == old(outbox) + DeliverOne(Cast(packet, includeSelf), viewers, SelfTarget())
    {
      if includeSelf && isPlayer {
        Send(entityId, packet);
      }
      SendToViewers(packet);
    }

    /** `broadcast(packet)`: viewers only. */
    method Broadcast(packet: Packet)
      modifies this`outbox
      ensures outbox == old(outbox) + Fanout(viewers, packet)
    {
      BroadcastWith(packet, false);
    }

    // ---------------------------------------------------------- visibility

    /** `addViewer`: false, and nothing happens, when the player already views. */
    method AddViewer(p: PlayerId, live: LiveState) returns (added: bool)
      requires Valid()
      modifies this`viewers, this`removeQueue, this`outbox
      ensures Valid()
      ensures added <==> p !in old(Viewers())
      ensures Viewers() == old(Viewers()) + {p}
      ensures !added ==> viewers == old(viewers) && removeQueue == old(removeQueue) && outbox == old(outbox)
      ensures added ==> viewers == old(viewers) + [p]
                        && Queued(p) == old(Queued(p)) - {entityId}
                        && outbox == old(outbox) + SpawnSequence(entityId, p, Synched(), live)
      ensures forall q :: q != p ==> Queued(q) == old(Queued(q))
    {
      if p in viewers {
        return false;
      }
      NoDuplicatesCons(p, []);
      NoDuplicatesAppend(viewers, p);
      viewers := viewers + [p];
      MakeVisible(p, live);
      return true;
    }

    /** `removeViewer`: false, and nothing happens, when the player does not
        view; otherwise its client is queued to destroy the entity. */
    method RemoveViewer(p: PlayerId) returns (removed: bool)
      requires Valid()
      modifies this`viewers, this`removeQueue
      ensures Valid()
      ensures removed <==> p in old(Viewers())
      ensures Viewers() == old(Viewers()) - {p}
      ensures !removed ==> viewers == old(viewers) && removeQueue == old(removeQueue)
      ensures removed ==> Queued(p) == old(Queued(p)) + {entityId}
      ensures forall q :: q != p ==> Queued(q) == old(Queued(q))
    {
      if p !in viewers {
        return false;
      }
      viewers := Without(viewers, p);
      MakeHidden(p);
      return true;
    }

    /** `updateViewer`: the player views exactly when it is within the view
        distance of the SHADOW position on both horizontal axes and has the
        entity's chunk loaded. */
    method UpdateViewer(p: PlayerId, viewerX: real, viewerZ: real, chunkEntered: bool, live: LiveState)
      requires Valid()
      modifies this`viewers, this`removeQueue, this`outbox
      ensures Valid()
      ensures p in Viewers() <==> InViewRange(shadowPos, viewDistance, viewerX, viewerZ) && chunkEntered
      ensures Viewers() - {p} == old(Viewers()) - {p}
      ensures InViewRange(shadowPos, viewDistance, viewerX, viewerZ) && chunkEntered && p !in old(Viewers()) ==>
                outbox == old(outbox) + SpawnSequence(entityId, p, Synched(), live)
                && Queued(p) == old(Queued(p)) - {entityId}
      ensures !(InViewRange(shadowPos, viewDistance, viewerX, viewerZ) && chunkEntered) && p in old(Viewers()) ==>
                outbox == old(outbox) && Queued(p) == old(Queued(p)) + {entityId}
      ensures (InViewRange(shadowPos, viewDistance, viewerX, viewerZ) && chunkEntered <==> p in old(Viewers())) ==>
                outbox == old(outbox) && removeQueue == old(removeQueue)
      ensures forall q :: q != p ==> Queued(q) == old(Queued(q))
    {
      if InViewRange(shadowPos, viewDistance, viewerX, viewerZ) && chunkEntered {
        var _ := AddViewer(p, live);
      } else {
        var _ := RemoveViewer(p);
      }
    }

    /** `makeVisible`: cancel a queued destroy, then the spawn sequence. */
    method MakeVisible(p: PlayerId, live: LiveState)
      modifies this`removeQueue, this`outbox
      ensures Queued(p) == old(Queued(p)) - {entityId}
      ensures forall q :: q != p ==> Queued(q) == old(Queued(q))
      ensures outbox == old(outbox) + SpawnSequence(entityId, p, Synched(), live)
    {
      removeQueue := removeQueue[p := Queued(p) - {entityId}];
      SendSpawn(p, live);
    }

    /** The sends of `makeVisible(viewer)`, in order. */
    method SendSpawn(p: PlayerId, live: LiveState)
      modifies this`outbox
      ensures outbox == old(outbox) + SpawnSequence(entityId, p, Synched(), live)
    {
      ghost var o0 := outbox;
      Send(p, SpawnFor(Synched(), live.nativeSpawn));
      Send(p, EntityMetadata(entityId, true));
      Send(p, EntityVelocity(entityId, shadowVelocity));
      ghost var o1 := outbox;
      assert o1 == o0 + [(p, SpawnFor(Synched(), live.nativeSpawn)), (p, EntityMetadata(entityId, true)),
                         (p, EntityVelocity(entityId, shadowVelocity))];
      if InsideVehicle(live) {
        Send(p, AttachEntity(entityId, live.vehicle));
      }
      ghost var o2 := outbox;
      assert o2 == o1 + (if InsideVehicle(live) then [(p, AttachEntity(entityId, live.vehicle))] else []);
      if live.sleepingHuman {
        Send(p, EntityLocationAction(entityId, 0, live.block));
      }
      ghost var o3 := outbox;
      assert o3 == o2 + (if live.sleepingHuman then [(p, EntityLocationAction(entityId, 0, live.block))] else []);
      var headRot := live.headYaw;
      if headRot != 0 {
        Send(p, EntityHeadRotation(entityId, ToByte(headRot)));
      }
      assert outbox == o3 + (if live.headYaw != 0 then [(p, EntityHeadRotation(entityId, ToByte(live.headYaw)))] else []);
      SpawnSequenceSplit(entityId, p, Synched(), live, o0, o1, o2, o3, outbox);
    }

    /** `makeHidden(viewer, instant)`: destroy now, or queue it for the next tick. */
    method MakeHiddenWith(p: PlayerId, instant: bool)
      modifies this`removeQueue, this`outbox
      ensures instant ==> outbox == old(outbox) + [(p, DestroyEntity(entityId))] && removeQueue == old(removeQueue)
      ensures !instant ==> outbox == old(outbox) && Queued(p) == old(Queued(p)) + {entityId}
      ensures forall q :: q != p ==> Queued(q) == old(Queued(q))
    {
      if instant {
        Send(p, DestroyEntity(entityId));
      } else {
        removeQueue := removeQueue[p := Queued(p) + {entityId}];
      }
    }

    /** `makeHidden(viewer)`: the queued form. */
    method MakeHidden(p: PlayerId)
      modifies this`removeQueue
      ensures Queued(p) == old(Queued(p)) + {entityId}
      ensures forall q :: q != p ==> Queued(q) == old(Queued(q))
    {
      removeQueue := removeQueue[p := Queued(p) + {entityId}];
    }

    /** `makeHiddenForAll`: queue a destroy for every viewer. The viewers stay
        in the viewer set. */
    method MakeHiddenForAll()
      modifies this`removeQueue
      ensures forall q :: Queued(q) == if q in viewers then old(Queued(q)) + {entityId} else old(Queued(q))
    {
      var i := 0;
      while i < |viewers|
        invariant 0 <= i <= |viewers|
        invariant forall q :: Queued(q) == if q in viewers[..i] then old(Queued(q)) + {entityId} else old(Queued(q))
      {
        assert forall q :: q in viewers[..i + 1] <==> q in viewers[..i] || q == viewers[i];
        MakeHidden(viewers[i]);
        i := i + 1;
      }
      assert viewers[..i] == viewers;
    }

    // ---------------------------------------------------------------- sync

    /** `syncVehicle(vehicle)`. */
    method SyncVehicleTo(vehicle: Option<EntityId>)
      modifies this`shadowVehicle, this`outbox
      ensures shadowVehicle == vehicle
      ensures outbox == old(outbox) + Fanout(viewers, AttachEntity(entityId, vehicle))
    {
      shadowVehicle := vehicle;
      Broadcast(AttachEntity(entityId, vehicle));
    }

    /** `syncVehicle()`. */
    method SyncVehicle(live: LiveState)
      modifies this`shadowVehicle, this`outbox
      ensures Synched() == VehicleStep(entityId, old(Synched()), live.vehicle, tick).shadow
      ensures outbox == old(outbox) + Deliver(VehicleStep(entityId, old(Synched()), live.vehicle, tick).casts, viewers, SelfTarget())
    {
      ghost var step := VehicleStep(entityId, Synched(), live.vehicle, tick);
      var oldVehicle := shadowVehicle;
      var newVehicle := live.vehicle;
      if oldVehicle != newVehicle || (newVehicle.Some? && IsTick(tick, VEHICLE_RESYNC_INTERVAL) == Some(true)) {
        SyncVehicleTo(newVehicle);
        DeliverSingle(step.casts[0], viewers, SelfTarget());
      }
    }

    /** `syncLocation(position, rotation)`: teleport when the delta is out of
        relative range, otherwise a relative packet (only a look while riding);
        the shadow position and rotation are overwritten when flagged. */
    method SyncLocationTo(position: IntVector3, rotation: IntVector2, insideVehicle: bool)
      modifies this`shadowPos, this`shadowRot, this`outbox
      ensures Synched() == LocationToStep(entityId, old(Synched()), position, rotation, insideVehicle).shadow
      ensures outbox == old(outbox) + Deliver(LocationToStep(entityId, old(Synched()), position, rotation, insideVehicle).casts, viewers, SelfTarget())
    {
      ghost var step := LocationToStep(entityId, Synched(), position, rotation, insideVehicle);
      var deltaPos := position.Subtract(shadowPos);
      var deltaRot := rotation.Subtract(shadowRot);
      var packet: Option<Packet>;
      var moved: bool, rotated: bool;
      if deltaPos.GreaterThan(MAX_RELATIVE_DISTANCE) {
        packet := Some(EntityTeleport(entityId, position, ToByte(rotation.x), ToByte(rotation.z)));
        moved, rotated := true, true;
      } else {
        moved := deltaPos != ZERO3;
        rotated := deltaRot != ZERO2;
        if insideVehicle {
          if rotated {
            packet := Some(EntityLook(entityId, ToByte(rotation.x), ToByte(rotation.z)));
          } else {
            packet := None;
          }
        } else if moved && rotated {
          packet := Some(RelEntityMoveLook(entityId, ToByte(deltaPos.x), ToByte(deltaPos.y), ToByte(deltaPos.z),
                                           ToByte(rotation.x), ToByte(rotation.z)));
        } else if moved {
          packet := Some(RelEntityMove(entityId, ToByte(deltaPos.x), ToByte(deltaPos.y), ToByte(deltaPos.z)));
        } else if rotated {
          packet := Some(EntityLook(entityId, ToByte(rotation.x), ToByte(rotation.z)));
        } else {
          return;
        }
      }
      if moved {
        shadowPos := position;
      }
      if rotated {
        shadowRot := rotation;
      }
      if packet.Some? {
        Broadcast(packet.value);
        DeliverSingle(step.casts[0], viewers, SelfTarget());
      }
    }

    /** `syncLocation()`: a sub-threshold change is passed on as the shadow value. */
    method SyncLocation(live: LiveState)
      modifies this`shadowPos, this`shadowRot, this`outbox
      ensures Synched() == LocationStep(entityId, old(Synched()), live).shadow
      ensures outbox == old(outbox) + Deliver(LocationStep(entityId, old(Synched()), live).casts, viewers, SelfTarget())
    {
      var oldPos := shadowPos;
      var newPos := live.pos;
      var moved := Moved(oldPos, newPos);
      var oldRot := shadowRot;
      var newRot := live.rot;
      var rotated := Rotated(oldRot, newRot);
      SyncLocationTo(if moved then newPos else oldPos, if rotated then newRot else oldRot, InsideVehicle(live));
    }

    /** `syncHeadYaw(headRotation)`. */
    method SyncHeadYawTo(headRotation: int)
      modifies this`shadowHeadYaw, this`outbox
      ensures shadowHeadYaw == headRotation
      ensures outbox == old(outbox) + Fanout(viewers, EntityHeadRotation(entityId, ToByte(headRotation)))
    {
      shadowHeadYaw := headRotation;
      Broadcast(EntityHeadRotation(entityId, ToByte(headRotation)));
    }

    /** `syncHeadYaw()`. */
    method SyncHeadYaw(live: LiveState)
      modifies this`shadowHeadYaw, this`outbox
      ensures Synched() == HeadYawStep(entityId, old(Synched()), live).shadow
      ensures outbox == old(outbox) + Deliver(HeadYawStep(entityId, old(Synched()), live).casts, viewers, SelfTarget())
    {
      ghost var step := HeadYawStep(entityId, Synched(), live);
      var oldYaw := shadowHeadYaw;
      var newYaw := live.headYaw;
      if AbsInt(newYaw - oldYaw) >= MIN_RELATIVE_CHANGE {
        SyncHeadYawTo(newYaw);
        DeliverSingle(step.casts[0], viewers, SelfTarget());
      }
    }

    /** `syncMeta()`: changed metadata to the viewers and to the entity itself. */
    method SyncMeta(live: LiveState)
      modifies this`outbox
      ensures outbox == old(outbox) + Deliver(MetaCasts(entityId, live), viewers, SelfTarget())
    {
      if live.metaChanged {
        BroadcastWith(EntityMetadata(entityId, false), true);
        DeliverSingle(Cast(EntityMetadata(entityId, false), true), viewers, SelfTarget());
      }
    }

    /** `syncVelocity(velocity)`: stored always, broadcast only when not riding. */
    method SyncVelocityTo(velocity: Vec3, insideVehicle: bool)
      modifies this`shadowVelocity, this`outbox
      ensures shadowVelocity == velocity
      ensures outbox == old(outbox) + (if insideVehicle then [] else Fanout(viewers, EntityVelocity(entityId, velocity)))
    {
      shadowVelocity := velocity;
      if insideVehicle {
        return;
      }
      Broadcast(EntityVelocity(entityId, velocity));
    }

    /** `syncVelocity()`: nothing for an immobile entity. */
    method SyncVelocity(live: LiveState)
      modifies this`shadowVelocity, this`outbox
      ensures Synched() == VelocityStep(entityId, old(Synched()), live, mobile).shadow
      ensures outbox == old(outbox) + Deliver(VelocityStep(entityId, old(Synched()), live, mobile).casts, viewers, SelfTarget())
    {
      ghost var step := VelocityStep(entityId, Synched(), live, mobile);
      if !mobile {
        return;
      }
      var oldVel := shadowVelocity;
      var newVel := live.velocity;
      if VelocityChanged(oldVel, newVel) {
        SyncVelocityTo(newVel, InsideVehicle(live));
        if !InsideVehicle(live) {
          DeliverSingle(step.casts[0], viewers, SelfTarget());
        }
      }
    }

    /** The gated part of `onSync()`: location, then velocity. */
    method SyncGated(live: LiveState, gate: bool)
      modifies this`shadowPos, this`shadowRot, this`shadowVelocity, this`outbox
      ensures Synched() == GatedStep(entityId, old(Synched()), live, mobile, gate).shadow
      ensures outbox == old(outbox) + Deliver(GatedStep(entityId, old(Synched()), live, mobile, gate).casts, viewers, SelfTarget())
    {
      if gate {
        ghost var l := LocationStep(entityId, Synched(), live);
        ghost var w := VelocityStep(entityId, l.shadow, live, mobile);
        ghost var o0, dl, dw := outbox, Deliver(l.casts, viewers, SelfTarget()), Deliver(w.casts, viewers, SelfTarget());
        SyncLocation(live);
        ghost var o1 := outbox;
        assert o1 == o0 + dl;
        SyncVelocity(live);
        assert outbox == o1 + dw;
        DeliverAppend(l.casts, w.casts, viewers, SelfTarget());
        SeqAssoc(o0, dl, dw);
      }
    }

    /** The tail of `onSync()`: metadata, then head yaw. */
    method SyncMetaAndHeadYaw(live: LiveState)
      modifies this`shadowHeadYaw, this`outbox
      ensures Synched() == HeadYawStep(entityId, old(Synched()), live).shadow
      ensures outbox == old(outbox) + Deliver(MetaCasts(entityId, live) + HeadYawStep(entityId, old(Synched()), live).casts,
                                              viewers, SelfTarget())
    {
      ghost var h := HeadYawStep(entityId, Synched(), live);
      ghost var m := MetaCasts(entityId, live);
      ghost var o0, dm, dh := outbox, Deliver(m, viewers, SelfTarget()), Deliver(h.casts, viewers, SelfTarget());
      SyncMeta(live);
      ghost var o1 := outbox;
      assert o1 == o0 + dm;
      SyncHeadYaw(live);
      assert outbox == o1 + dh;
      DeliverAppend(m, h.casts, viewers, SelfTarget());
      SeqAssoc(o0, dm, dh);
    }

    /** The part of `onSync()` after the interval test. */
    method SyncDue(live: LiveState, gate: bool)
      modifies this`shadowPos, this`shadowRot, this`shadowHeadYaw, this`shadowVelocity, this`outbox
      ensures var g := GatedStep(entityId, old(Synched()), live, mobile, gate);
              Synched() == HeadYawStep(entityId, g.shadow, live).shadow
              && outbox == old(outbox) + Deliver(g.casts, viewers, SelfTarget())
                 + Deliver(MetaCasts(entityId, live) + HeadYawStep(entityId, g.shadow, live).casts, viewers, SelfTarget())
    {
      ghost var o0 := outbox;
      ghost var g := GatedStep(entityId, Synched(), live, mobile, gate);
      ghost var dg := Deliver(g.casts, viewers, SelfTarget());
      SyncGated(live, gate);
      assert outbox == o0 + dg;
      SyncMetaAndHeadYaw(live);
    }

    /** `onSync()`: vehicle; location and velocity when the update interval is
        reached or the entity moved; metadata; head yaw. `thrown` reports the
        ArithmeticException of a zero update interval, raised after the
        vehicle step. */
    method OnSync(live: LiveState) returns (thrown: bool)
      modifies this`shadowPos, this`shadowRot, this`shadowHeadYaw, this`shadowVelocity, this`shadowVehicle, this`outbox
      ensures var r := SyncTick(entityId, old(Synched()), live, tick, updateInterval, mobile);
              thrown == r.thrown && Synched() == r.step.shadow
              && outbox == old(outbox) + Deliver(r.step.casts, viewers, SelfTarget())
    {
      ghost var s0, o0 := Synched(), outbox;
      ghost var vs, self := viewers, SelfTarget();
      ghost var v := VehicleStep(entityId, s0, live.vehicle, tick);
      ghost var dv := Deliver(v.casts, vs, self);
      SyncVehicle(live);
      ghost var o1 := outbox;
      assert o1 == o0 + dv;
      var due := IsTick(tick, updateInterval);
      if due.None? {
        return true;
      }
      var gate := due.value || live.positionChanged;
      ghost var g := GatedStep(entityId, v.shadow, live, mobile, gate);
      ghost var h := HeadYawStep(entityId, g.shadow, live);
      SyncDue(live, gate);
      SyncTickDelivered(entityId, s0, live, tick, updateInterval, mobile, v, g, h, vs, self, o0, outbox);
      return false;
    }
  }

  /** The sends of one tick, step by step, are the sends of `SyncTick`. */
  lemma SyncTickDelivered(id: EntityId, s: Shadow, live: LiveState, tick: int, interval: int, mobile: bool,
                          v: Step, g: Step, h: Step, vs: seq<PlayerId>, self: Option<PlayerId>, o0: seq<Send>, o: seq<Send>)
    requires interval != 0
    requires v == VehicleStep(id, s, live.vehicle, tick)
    requires g == GatedStep(id, v.shadow, live, mobile, IsTick(tick, interval).value || live.positionChanged)
    requires h == HeadYawStep(id, g.shadow, live)
    requires o == o0 + Deliver(v.casts, vs, self) + Deliver(g.casts, vs, self) + Deliver(MetaCasts(id, live) + h.casts, vs, self)
    ensures SyncTick(id, s, live, tick, interval, mobile) == SyncOutcome(Step(h.shadow, v.casts + g.casts + MetaCasts(id, live) + h.casts), false)
    ensures o == o0 + Deliver(SyncTick(id, s, live, tick, interval, mobile).step.casts, vs, self)
  {
    SyncTickCasts(id, s, live, tick, interval, mobile, v, g, h);
    var m := MetaCasts(id, live);
    var dv, dg, dt := Deliver(v.casts, vs, self), Deliver(g.casts, vs, self), Deliver(m + h.casts, vs, self);
    assert v.casts + g.casts + m + h.casts == (v.casts + g.casts) + (m + h.casts);
    DeliverAppend(v.casts + g.casts, m + h.casts, vs, self);
    DeliverAppend(v.casts, g.casts, vs, self);
    SeqAssoc(o0, dv, dg);
    SeqAssoc(o0, dv + dg, dt);
  }

  lemma SpawnSequenceSplit(id: EntityId, p: PlayerId, s: Shadow, live: LiveState,
                           o0: seq<Send>, o1: seq<Send>, o2: seq<Send>, o3: seq<Send>, o4: seq<Send>)
    requires o1 == o0 + [(p, SpawnFor(s, live.nativeSpawn)), (p, EntityMetadata(id, true)), (p, EntityVelocity(id, s.velocity))]
    requires o2 == o1 + (if InsideVehicle(live) then [(p, AttachEntity(id, live.vehicle))] else [])
    requires o3 == o2 + (if live.sleepingHuman then [(p, EntityLocationAction(id, 0, live.block))] else [])
    requires o4 == o3 + (if live.headYaw != 0 then [(p, EntityHeadRotation(id, ToByte(live.headYaw)))] else [])
    ensures o4 == o0 + SpawnSequence(id, p, s, live)
  {
    var h := [(p, SpawnFor(s, live.nativeSpawn)), (p, EntityMetadata(id, true)), (p, EntityVelocity(id, s.velocity))];
    var a := if InsideVehicle(live) then [(p, AttachEntity(id, live.vehicle))] else [];
    var b := if live.sleepingHuman then [(p, EntityLocationAction(id, 0, live.block))] else [];
    var c := if live.headYaw != 0 then [(p, EntityHeadRotation(id, ToByte(live.headYaw)))] else [];
    assert SpawnSequence(id, p, s, live) == h + a + b + c;
    SeqAssoc(o0, h, a);
    SeqAssoc(o0, h + a, b);
    SeqAssoc(o0, h + a + b, c);
  }

  lemma SeqAssoc(a: seq<Send>, b: seq<Send>, c: seq<Send>)
    ensures a + b + c == a + (b + c)
  {
  }

  lemma NoDuplicatesAppend(s: seq<PlayerId>, p: PlayerId)
    requires NoDuplicates(s) && p !in s
    ensures NoDuplicates(s + [p])
  {
  }
}
