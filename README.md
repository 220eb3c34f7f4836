# Entity network controller

A model of BKCommonLib's per-entity network controller, the object that keeps
an entity's clients up to date. For one tracked entity it holds a *shadow*
copy of what the viewing clients were last told: the protocol position (1/32
block units), the yaw and pitch, the head yaw, the velocity and the vehicle.
It also holds the set of viewing players and, per player, the queue of entity
ids that player's client is due to destroy. Every tick, `onSync` compares the
live entity with the shadow. It decides which update packets to broadcast and
which shadow fields to overwrite.

The project has six modules:

- `Vectors`: the integer protocol vectors and their helpers; the velocity
  as a triple of reals; Java's `(byte)` narrowing cast (`ToByte`) and
  Java's truncating `%` (`JavaRem`).
- `Packets`: the packets as abstract values. A `Send` is one packet handed
  to the transport for one player, and a `Cast` is one call of
  `broadcast(packet, self)`.
- `Delivery`: how a broadcast fans out to the viewers, and the viewer list.
- `Sync`: the decision logic as pure step functions over the shadow state.
  A `Step` is the new shadow state plus the broadcasts in order. It also
  holds the spawn sequence a new viewer receives.
- `NetworkController`: class `Controller` with the shadow fields, the
  viewers, the removal queues and an `outbox` recording every send in
  order. Each sync method is proved against its `Sync` step function. The
  new shadow is that function's shadow. The new outbox is the old one plus
  the delivery of that function's broadcasts to the viewers. The viewer,
  visibility and setting methods state their new state directly.
- `SyncProperties`: lemmas about the step functions:
  - what a client that applies the packets believes;
  - where relative moves give way to teleports;
  - the hysteresis of the minimum-change thresholds;
  - what a repeated sync still sends.

The live entity is a parameter of type `LiveState`. It carries the
protocol position and rotation (already converted by the engine), the head
yaw, the velocity, the vehicle, the position-changed and metadata-changed
flags, the sleeping-human flag with its block, and the engine's own spawn
packet. A viewer's horizontal coordinates and the chunk-entered predicate
are parameters of `updateViewer`.

Behaviour of the code a reader might not expect; the model follows the code:

- Rotation and head-yaw changes are measured by plain int subtraction, with
  no angle wrap-around (lines 258, 269).
- The teleport test (line 398) comes before the vehicle test, so a rider can
  be teleported.
- The test is `greaterThan(127)` on the raw signed delta, not on its
  absolute value. A delta below -128 on some axis, with no component above
  127, is therefore sent outside a vehicle as a relative move whose byte
  wraps (while riding, no move is sent at all): `SyncProperties.LargeNegativeDeltaIsWrapped`
  shows a client ending up 256 units away from the shadow position. The
  library's `IntVector3` is not part of this model, so the model keeps the
  test exactly as the call site writes it.
- Velocity is synchronised inside the same gate as location, right after it
  (lines 226-229).
- `makeVisible` also sends the sleeping action and the head rotation (lines
  172-182).
- `makeHiddenForAll` queues a destroy for every viewer but leaves the
  viewer set as it is.

The vector helpers `subtract` and `abs` are taken to act component-wise,
and `greaterThan(n)` and `greaterEqualThan(n)` to hold when any component
is above (at least) `n`.

## Model

| member | source | states |
|---|---|---|
| Vectors.ToByte | src/main/java/com/bergerkiller/bukkit/common/controller/EntityNetworkController.java:347-348 | Java's `(byte)` cast: the result is a signed byte, and a value already in byte range is kept |
| Vectors.ToByteCongruent | src/main/java/com/bergerkiller/bukkit/common/controller/EntityNetworkController.java:181 | the byte cast keeps its argument modulo 256 |
| Vectors.JavaRem | src/main/java/com/bergerkiller/bukkit/common/controller/EntityNetworkController.java:555 | Java's int `%`: the remainder is smaller than the divisor in magnitude, takes the sign of the dividend, and equals the Euclidean remainder for a non-negative dividend |
| Vectors.IntVector3.Subtract | src/main/java/com/bergerkiller/bukkit/common/controller/EntityNetworkController.java:394 | the delta added back to the shadow position gives the target position |
| Sync.IsTick | src/main/java/com/bergerkiller/bukkit/common/controller/EntityNetworkController.java:554-556 | `isTick`: undefined (the ArithmeticException) exactly when the interval is 0; otherwise, for a non-negative tick (the engine's counter starts at 0 and counts up), true exactly when the tick is a multiple of the interval; true on tick 0 |
| Sync.VehicleStep | src/main/java/com/bergerkiller/bukkit/common/controller/EntityNetworkController.java:238-244 | `syncVehicle()`: the shadow vehicle becomes the live one; exactly one Attach broadcast, to viewers only, iff the vehicle changed or the entity rides something and the tick is a multiple of 60; none otherwise |
| Sync.Moved | src/main/java/com/bergerkiller/bukkit/common/controller/EntityNetworkController.java:254 | `moved`: some axis of the position changed by at least 4 in absolute value; an unchanged position never counts |
| Sync.Rotated | src/main/java/com/bergerkiller/bukkit/common/controller/EntityNetworkController.java:258 | `rotated`: yaw or pitch changed by at least 4 in absolute value (plain subtraction); an unchanged rotation never counts |
| Sync.TooFar | src/main/java/com/bergerkiller/bukkit/common/controller/EntityNetworkController.java:398 | the teleport test: false exactly when no component of the signed delta is above 127; a zero delta is never too far |
| Sync.InViewRange | src/main/java/com/bergerkiller/bukkit/common/controller/EntityNetworkController.java:132-136 | the viewer's x and z lie within the view distance of the shadow position in blocks; never holds for a negative view distance |
| Sync.VelocityChanged | src/main/java/com/bergerkiller/bukkit/common/controller/EntityNetworkController.java:297 | an unchanged velocity never counts as changed; dropping to zero from a moving velocity always does |
| Sync.RelativePacket | src/main/java/com/bergerkiller/bukkit/common/controller/EntityNetworkController.java:404-429 | the non-teleport packet: none iff nothing rotated and (riding or nothing moved); only a Look while riding; never a teleport |
| Sync.LocationToStep | src/main/java/com/bergerkiller/bukkit/common/controller/EntityNetworkController.java:393-446 | `syncLocation(position, rotation)`: the shadow position and rotation end up equal to the ones given; at most one location broadcast, to viewers only; nothing is sent iff the delta is in relative range, the rotation is unchanged and (riding or the position is unchanged) |
| Sync.LocationStep | src/main/java/com/bergerkiller/bukkit/common/controller/EntityNetworkController.java:250-261 | `syncLocation()`: a position (rotation) is passed on only when some component moved by at least 4, otherwise the shadow value is kept; head yaw, velocity and vehicle are untouched; below both thresholds nothing changes and nothing is sent |
| Sync.HeadYawStep | src/main/java/com/bergerkiller/bukkit/common/controller/EntityNetworkController.java:266-272 | `syncHeadYaw()`: one HeadRotation broadcast carrying the byte of the live head yaw, and the shadow head yaw overwritten, iff the plain difference is at least 4; otherwise the shadow is unchanged |
| Sync.MetaCasts | src/main/java/com/bergerkiller/bukkit/common/controller/EntityNetworkController.java:278-283 | `syncMeta()`: one changed-only metadata broadcast that also goes to the entity itself, iff the metadata changed |
| Sync.VelocityToStep | src/main/java/com/bergerkiller/bukkit/common/controller/EntityNetworkController.java:463-472 | `syncVelocity(v)`: the shadow velocity is always overwritten; a Velocity broadcast goes out iff the entity is not riding |
| Sync.VelocityStep | src/main/java/com/bergerkiller/bukkit/common/controller/EntityNetworkController.java:289-300 | `syncVelocity()`: nothing for an immobile entity; otherwise the shadow takes the live velocity exactly when it changed, riding or not, and keeps the old one otherwise; a broadcast is sent iff mobile, changed and not riding |
| Sync.GatedStep | src/main/java/com/bergerkiller/bukkit/common/controller/EntityNetworkController.java:226-229 | the gated location-then-velocity pair: nothing when not due; at most two broadcasts, location before velocity, none to the entity itself; head yaw and vehicle untouched |
| Sync.SyncTick | src/main/java/com/bergerkiller/bukkit/common/controller/EntityNetworkController.java:223-232 | `onSync()`: throws iff the interval is 0, and then only the vehicle step has happened; the shadow vehicle ends up as the live vehicle |
| Sync.SyncTickInStepOrder | src/main/java/com/bergerkiller/bukkit/common/controller/EntityNetworkController.java:223-232 | the broadcasts of one sync come in the fixed step order (vehicle, location, velocity, metadata, head yaw), at most one per step, five at most |
| Sync.InStepOrderAppend | src/main/java/com/bergerkiller/bukkit/common/controller/EntityNetworkController.java:223-232 | joining two ordered broadcast runs whose ranks do not overlap keeps them ordered |
| Sync.SpawnFor | src/main/java/com/bergerkiller/bukkit/common/controller/EntityNetworkController.java:334-351 | `getSpawnPacket()`: a vehicle spawn carries the shadow position and the byte casts of the shadow angles; any other spawn is the engine's packet unchanged |
| Sync.SpawnSequenceShape | src/main/java/com/bergerkiller/bukkit/common/controller/EntityNetworkController.java:148-183 | `makeVisible` sends only to the new viewer: spawn, full metadata and shadow velocity first; then Attach iff riding, the sleeping action iff a sleeping human, and HeadRotation iff the head yaw is non-zero; length 3 plus the optional packets that apply |
| Sync.SpawnFollowUpOrder | src/main/java/com/bergerkiller/bukkit/common/controller/EntityNetworkController.java:160-182 | the optional packets come in the order attach, sleeping action, head rotation |
| Sync.SpawnSequence | src/main/java/com/bergerkiller/bukkit/common/controller/EntityNetworkController.java:151-182 | the sends of `makeVisible`: three fixed packets and up to three optional ones |
| Delivery.Without | src/main/java/com/bergerkiller/bukkit/common/controller/EntityNetworkController.java:119 | removing a player from the viewers: every other viewer stays, the player is gone, no duplicates appear, and the length drops by one when the player was there |
| Delivery.Fanout | src/main/java/com/bergerkiller/bukkit/common/controller/EntityNetworkController.java:322-324 | one send per viewer |
| Delivery.FanoutAt | src/main/java/com/bergerkiller/bukkit/common/controller/EntityNetworkController.java:322-324 | the i-th send goes to the i-th viewer |
| Delivery.FanoutSnoc | src/main/java/com/bergerkiller/bukkit/common/controller/EntityNetworkController.java:322-324 | one more viewer adds exactly one send at the end |
| Delivery.FanoutReachesAll | src/main/java/com/bergerkiller/bukkit/common/controller/EntityNetworkController.java:322-324 | every viewer receives the packet |
| Delivery.DeliverOne | src/main/java/com/bergerkiller/bukkit/common/controller/EntityNetworkController.java:317-325 | one send per viewer, plus one more sent first to the entity itself iff asked and it is a player |
| Delivery.DeliverOneSends | src/main/java/com/bergerkiller/bukkit/common/controller/EntityNetworkController.java:317-325 | every viewer receives the packet, and every send carries the packet to a viewer or, when asked, to the entity itself |
| Delivery.DistinctCard | src/main/java/com/bergerkiller/bukkit/common/controller/EntityNetworkController.java:91-93 | a duplicate-free viewer list has as many entries as the viewer set has members |
| Delivery.DeliverAppend | src/main/java/com/bergerkiller/bukkit/common/controller/EntityNetworkController.java:317-325 | broadcasting `a` then `b` sends exactly what broadcasting `a + b` sends |
| NetworkController.Controller.constructor | src/main/java/com/bergerkiller/bukkit/common/controller/EntityNetworkController.java:75-79 | a fresh controller over a tracker entry with the given shadow, settings and no viewers |
| NetworkController.Controller.Viewers | src/main/java/com/bergerkiller/bukkit/common/controller/EntityNetworkController.java:91-93 | `getViewers()`: the set of viewers, of the list's size while the list is duplicate-free |
| NetworkController.Controller.SetViewDistance | src/main/java/com/bergerkiller/bukkit/common/controller/EntityNetworkController.java:357-359 | `setViewDistance` stores the distance and changes nothing else |
| NetworkController.Controller.SetUpdateInterval | src/main/java/com/bergerkiller/bukkit/common/controller/EntityNetworkController.java:365-367 | `setUpdateInterval` stores the interval and changes nothing else |
| NetworkController.Controller.SetMobile | src/main/java/com/bergerkiller/bukkit/common/controller/EntityNetworkController.java:373-375 | `setMobile` stores the flag and changes nothing else |
| NetworkController.Controller.Send | src/main/java/com/bergerkiller/bukkit/common/controller/EntityNetworkController.java:152 | one packet appended to the outbox for one player |
| NetworkController.Controller.SendToViewers | src/main/java/com/bergerkiller/bukkit/common/controller/EntityNetworkController.java:322-324 | the broadcast loop appends the packet for every viewer in turn |
| NetworkController.Controller.BroadcastWith | src/main/java/com/bergerkiller/bukkit/common/controller/EntityNetworkController.java:317-325 | `broadcast(packet, self)`: to the entity itself first, iff asked and it is a player; then to every viewer |
| NetworkController.Controller.Broadcast | src/main/java/com/bergerkiller/bukkit/common/controller/EntityNetworkController.java:307-309 | `broadcast(packet)`: viewers only |
| NetworkController.Controller.AddViewer | src/main/java/com/bergerkiller/bukkit/common/controller/EntityNetworkController.java:103-109 | true iff the player was not a viewer; then the player is appended, its queued destroy is cancelled and the spawn sequence is sent; otherwise viewers, queues and outbox are unchanged; other players' queues never change |
| NetworkController.Controller.RemoveViewer | src/main/java/com/bergerkiller/bukkit/common/controller/EntityNetworkController.java:118-124 | true iff the player was a viewer; then it leaves the viewers and a destroy is queued for it; otherwise nothing changes |
| NetworkController.Controller.UpdateViewer | src/main/java/com/bergerkiller/bukkit/common/controller/EntityNetworkController.java:131-141 | afterwards the player views iff both horizontal distances to the SHADOW position are within the view distance and the chunk is entered; a player entering gets exactly the spawn sequence and its queued destroy cancelled; a player leaving gets a destroy queued and nothing sent; otherwise outbox and queues are unchanged; no other viewer and no other queue changes |
| NetworkController.Controller.MakeVisible | src/main/java/com/bergerkiller/bukkit/common/controller/EntityNetworkController.java:148-183 | the viewer's queued destroy of this entity is cancelled, other queues untouched, and exactly the spawn sequence is sent |
| NetworkController.Controller.SendSpawn | src/main/java/com/bergerkiller/bukkit/common/controller/EntityNetworkController.java:151-182 | the sends of `makeVisible` are exactly `SpawnSequence` |
| NetworkController.Controller.MakeHiddenWith | src/main/java/com/bergerkiller/bukkit/common/controller/EntityNetworkController.java:212-218 | instant: one Destroy sent and the queues untouched; queued: nothing sent and this entity added to the player's queue |
| NetworkController.Controller.MakeHidden | src/main/java/com/bergerkiller/bukkit/common/controller/EntityNetworkController.java:201-203 | the queued form of `makeHidden` |
| NetworkController.Controller.MakeHiddenForAll | src/main/java/com/bergerkiller/bukkit/common/controller/EntityNetworkController.java:189-193 | every viewer's queue gains this entity; every other queue is unchanged |
| NetworkController.Controller.SyncVehicleTo | src/main/java/com/bergerkiller/bukkit/common/controller/EntityNetworkController.java:382-385 | `syncVehicle(vehicle)`: the shadow vehicle is set and one Attach is sent to every viewer |
| NetworkController.Controller.SyncVehicle | src/main/java/com/bergerkiller/bukkit/common/controller/EntityNetworkController.java:238-244 | `syncVehicle()` implements `Sync.VehicleStep` |
| NetworkController.Controller.SyncLocationTo | src/main/java/com/bergerkiller/bukkit/common/controller/EntityNetworkController.java:393-446 | `syncLocation(position, rotation)` implements `Sync.LocationToStep` |
| NetworkController.Controller.SyncLocation | src/main/java/com/bergerkiller/bukkit/common/controller/EntityNetworkController.java:250-261 | `syncLocation()` implements `Sync.LocationStep` |
| NetworkController.Controller.SyncHeadYawTo | src/main/java/com/bergerkiller/bukkit/common/controller/EntityNetworkController.java:453-456 | `syncHeadYaw(h)`: the shadow head yaw is set and its byte is sent to every viewer |
| NetworkController.Controller.SyncHeadYaw | src/main/java/com/bergerkiller/bukkit/common/controller/EntityNetworkController.java:266-272 | `syncHeadYaw()` implements `Sync.HeadYawStep` |
| NetworkController.Controller.SyncMeta | src/main/java/com/bergerkiller/bukkit/common/controller/EntityNetworkController.java:278-283 | `syncMeta()` delivers `Sync.MetaCasts` |
| NetworkController.Controller.SyncVelocityTo | src/main/java/com/bergerkiller/bukkit/common/controller/EntityNetworkController.java:463-472 | `syncVelocity(v)`: the shadow velocity is always set; it is sent to every viewer iff not riding |
| NetworkController.Controller.SyncVelocity | src/main/java/com/bergerkiller/bukkit/common/controller/EntityNetworkController.java:289-300 | `syncVelocity()` implements `Sync.VelocityStep` |
| NetworkController.Controller.SyncGated | src/main/java/com/bergerkiller/bukkit/common/controller/EntityNetworkController.java:226-229 | the gated pair implements `Sync.GatedStep` |
| NetworkController.Controller.SyncMetaAndHeadYaw | src/main/java/com/bergerkiller/bukkit/common/controller/EntityNetworkController.java:230-231 | the metadata step then the head-yaw step, as `Sync.MetaCasts` and `Sync.HeadYawStep` |
| NetworkController.Controller.SyncDue | src/main/java/com/bergerkiller/bukkit/common/controller/EntityNetworkController.java:226-231 | everything after the interval test: the gated step, then metadata and head yaw |
| NetworkController.Controller.OnSync | src/main/java/com/bergerkiller/bukkit/common/controller/EntityNetworkController.java:223-232 | `onSync()` implements `Sync.SyncTick`: new shadow, the thrown flag, and the outbox extended by the delivery of its broadcasts |
| NetworkController.SyncTickDelivered | src/main/java/com/bergerkiller/bukkit/common/controller/EntityNetworkController.java:223-232 | the sends of the steps one after another are the delivery of the whole sync's broadcasts |
| SyncProperties.ClientTracksShadow | src/main/java/com/bergerkiller/bukkit/common/controller/EntityNetworkController.java:393-446 | outside a vehicle, a client that saw the old shadow and applies the broadcast ends up believing the new shadow, whenever a teleport is sent or no delta component is below -128 |
| SyncProperties.LargeNegativeDeltaIsWrapped | src/main/java/com/bergerkiller/bukkit/common/controller/EntityNetworkController.java:398 | a delta of -200 passes the signed teleport test, is sent as the wrapped byte 56, and leaves the client 256 units away from the shadow |
| SyncProperties.WrappedMoveCasts | src/main/java/com/bergerkiller/bukkit/common/controller/EntityNetworkController.java:398-422 | the concrete wrapped move: one RelMove of 56 and the shadow moved to the target |
| SyncProperties.VehicleSpawnShowsShadow | src/main/java/com/bergerkiller/bukkit/common/controller/EntityNetworkController.java:336-349 | a vehicle spawn puts any client exactly at the shadow position and angles |
| SyncProperties.TeleportIff | src/main/java/com/bergerkiller/bukkit/common/controller/EntityNetworkController.java:398-403 | a teleport is sent iff some component of the raw signed delta is above 127, riding or not, and it carries the absolute position and the byte angles |
| SyncProperties.TeleportBoundary | src/main/java/com/bergerkiller/bukkit/common/controller/EntityNetworkController.java:44 | a delta of 127 on one axis is still a relative move; 128 is a teleport |
| SyncProperties.VehicleSuppressesMoves | src/main/java/com/bergerkiller/bukkit/common/controller/EntityNetworkController.java:409-415 | within relative range and riding: no move is sent, a Look iff rotated, and the shadow position is still taken over |
| SyncProperties.RelativeSelection | src/main/java/com/bergerkiller/bukkit/common/controller/EntityNetworkController.java:416-428 | within relative range and not riding: MoveLook of byte deltas and absolute angles, Move of deltas, Look of angles, or nothing, by what changed |
| SyncProperties.LocationStepSettles | src/main/java/com/bergerkiller/bukkit/common/controller/EntityNetworkController.java:250-261 | after `syncLocation()` the live location is within the minimum change of the shadow, so an immediate second call sends nothing |
| SyncProperties.SubThresholdRunIsSilent | src/main/java/com/bergerkiller/bukkit/common/controller/EntityNetworkController.java:250-261 | any run of samples each within the minimum change of the shadow sends nothing and leaves the shadow unchanged |
| SyncProperties.HeadYawStepSettles | src/main/java/com/bergerkiller/bukkit/common/controller/EntityNetworkController.java:266-272 | after `syncHeadYaw()` the head yaw is within the minimum change, so a second call sends nothing |
| SyncProperties.StoppingIsAlwaysSent | src/main/java/com/bergerkiller/bukkit/common/controller/EntityNetworkController.java:297 | a velocity that drops to exactly zero from a moving one counts as changed |
| SyncProperties.SmallStopIsSent | src/main/java/com/bergerkiller/bukkit/common/controller/EntityNetworkController.java:297 | stopping from 0.01 is sent, while the same-size change to 0.02 is not |
| SyncProperties.VelocityStepSettles | src/main/java/com/bergerkiller/bukkit/common/controller/EntityNetworkController.java:289-300 | a stored velocity is not sent again |
| SyncProperties.GatedSyncSettles | src/main/java/com/bergerkiller/bukkit/common/controller/EntityNetworkController.java:223-232 | a sync that ran the gated steps leaves the shadow within every threshold of the live state |
| SyncProperties.SettledSyncIsQuiet | src/main/java/com/bergerkiller/bukkit/common/controller/EntityNetworkController.java:223-232 | from a settled shadow a sync changes nothing and sends only the attachment and the metadata |
| SyncProperties.SecondSyncIsQuiet | src/main/java/com/bergerkiller/bukkit/common/controller/EntityNetworkController.java:223-283 | the same live state synced twice: the second sync changes no shadow and re-sends only the periodic attachment and the metadata, whenever the engine reports it changed |
| SyncProperties.UngatedTickKeepsLocation | src/main/java/com/bergerkiller/bukkit/common/controller/EntityNetworkController.java:226 | a tick that is neither due nor a reported move runs only vehicle, metadata and head yaw; position, rotation and velocity stay |
| SyncProperties.QuietTickSendsNothing | src/main/java/com/bergerkiller/bukkit/common/controller/EntityNetworkController.java:223-300 | a tick on which nothing differs from the shadow sends nothing and changes nothing |
| SyncProperties.ImmobileSendsNoVelocity | src/main/java/com/bergerkiller/bukkit/common/controller/EntityNetworkController.java:289-292 | an immobile entity never broadcasts a velocity and keeps its shadow velocity |
| SyncProperties.NoVelocityAppend | src/main/java/com/bergerkiller/bukkit/common/controller/EntityNetworkController.java:289-292 | joining two velocity-free broadcast runs stays velocity-free |
| SyncProperties.WithoutUndoesAppend | src/main/java/com/bergerkiller/bukkit/common/controller/EntityNetworkController.java:103-124 | removing a viewer just added restores the viewer list |

## Left out

- Packet construction and byte layout. Packets are abstract values; the
  transport is the `outbox`.
- Reflection over engine internals (the tracker entry's fields and the
  player's removal queue). These are the controller's fields here.
- The conversions of the live entity into protocol units (`protLoc`,
  `protRot`, the `locY * 32` floor, lines 515-537 and 572-574). They
  arrive already converted in `LiveState`.
- Floating point. Velocities and viewer coordinates are exact reals, so
  IEEE rounding is not modelled.
- `synchronized` locking. The model is single-threaded.
- `setDefaultSettings`' lookup of the entity type in the engine's store.
  The view distance, update interval and mobility it finds are parameters of
  the constructor; its re-initialising branch is the three setters.
- The `DataWatcher` metadata contents and the clearing of its changed flag.
  Both belong to the engine; only the flag is an input.
- The chunk-entered predicate. It is a parameter of `UpdateViewer`.
- The increment of the tick counter, which happens in the engine. `tick`
  is a field that no method changes.
- The entity's type tests (`instanceof Player`, `HumanEntity`,
  `isSleeping`). They are the `isPlayer` constant and the
  `sleepingHuman` flag.
- `getHandle`, `getTick` and the shadow getters. These are plain reads,
  modelled by the fields and by `Synched`.
- 32-bit int overflow of positions, deltas and the tick. Ints are
  unbounded here; only the `(byte)` casts are modelled.
- The engine's hash set of viewers. It is a duplicate-free sequence in
  insertion order, so a broadcast reaches the viewers in one fixed order.
  Membership, the only thing the code relies on, is the same.
- The collection `getViewers()` returns (an unmodifiable view over the
  engine's set). No method changes the viewers during a loop, so iterating
  the field is the same.
- NetworkController.Controller.MakeVisible (and so AddViewer and UpdateViewer):
  line 149 passes an `int` to `removeQueue.remove`. The queue's type is not
  part of this model. The model assumes removal by value. If the queue is a
  `java.util.List`, Java would pick `remove(int index)` instead: that
  removes by position and throws when the queue is shorter than the id.
- The removal queue is modelled as a set of entity ids per player, so
  adding an id twice queues it once.
- SyncProperties.StoppingIsAlwaysSent: requires a positive squared length
  rather than a non-zero component, because the nonlinear real arithmetic
  connecting the two is not part of the model.
