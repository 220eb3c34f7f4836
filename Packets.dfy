/** The packets the controller emits, as abstract values. Their byte layout
    belongs to the transport and is not modelled; each packet keeps exactly the
    values the controller puts into it. */
module Packets {
  import opened Vectors

  type EntityId = int

  /** A player is identified by its own entity id. */
  type PlayerId = int

  datatype Packet =
    /** The initial spawn message; `vehicleSpawn` marks the vehicle kind. */
    | SpawnEntity(entity: EntityId, vehicleSpawn: bool, pos: IntVector3, yaw: int, pitch: int)
    /** Metadata; `full` is the whole watched set, otherwise only the changes. */
    | EntityMetadata(entity: EntityId, full: bool)
    | EntityVelocity(entity: EntityId, velocity: Vec3)
    | AttachEntity(entity: EntityId, vehicle: Option<EntityId>)
    | EntityLocationAction(entity: EntityId, action: int, block: IntVector3)
    | EntityHeadRotation(entity: EntityId, headYaw: int)
    /** Absolute position and byte angles. */
    | EntityTeleport(entity: EntityId, pos: IntVector3, yaw: int, pitch: int)
    /** Byte position deltas. */
    | RelEntityMove(entity: EntityId, dx: int, dy: int, dz: int)
    /** Byte position deltas and absolute byte angles. */
    | RelEntityMoveLook(entity: EntityId, dx: int, dy: int, dz: int, yaw: int, pitch: int)
    /** Absolute byte angles. */
    | EntityLook(entity: EntityId, yaw: int, pitch: int)
    | DestroyEntity(entity: EntityId)

  /** One packet handed to the transport for one player. */
  type Send = (PlayerId, Packet)

  /** One call of `broadcast(packet, self)`. */
  datatype Cast = Cast(packet: Packet, includeSelf: bool)

  predicate IsMovePacket(p: Packet) {
    p.EntityTeleport? || p.RelEntityMove? || p.RelEntityMoveLook?
  }
}
