/** The records exchanged with the `sokudo_io` crate: the parsed world description the core is
    built from, and the per-step snapshot it writes. Reading and writing files is not modelled;
    these are the shapes of the values only. */
module SokudoIo {
  import opened Glam

  /** The only shape kind the parsed input knows. */
  datatype ParsedShape = Cuboid

  datatype ParsedTransform = ParsedTransform(translate: Vec3, rotate: Quat, scale: Vec3)

  datatype ParsedParticle = ParsedParticle(mass: real)

  datatype ParsedRigidBody = ParsedRigidBody(
    shape: ParsedShape,
    mass: real,
    vertexResolution: UVec3,
    vertices: seq<Vec3>,
    transform: ParsedTransform)

  datatype ParsedColliderBody = Particle(particle: ParsedParticle) | RigidBody(rb: ParsedRigidBody)

  /** A parsed collider, with the fields the core's conversion reads. */
  datatype ParsedCollider = ParsedCollider(
    id: U32,
    locked: bool,
    body: ParsedColliderBody,
    position: Vec3,
    velocity: Vec3)

  datatype ParsedWorld = ParsedWorld(steps: U32, dt: real, colliders: seq<ParsedCollider>)

  /** A parsed collider as the playback crate reads it: an id and a placement. */
  datatype PlacedCollider = PlacedCollider(id: U32, shape: ParsedShape, transform: ParsedTransform)

  /** The parsed world as the playback crate reads it: the step length and the placements. */
  datatype PlacedWorld = PlacedWorld(dt: real, colliders: seq<PlacedCollider>)

  /** `WriteTransform`: the pose written for one collider. */
  datatype WriteTransform = WriteTransform(translate: Vec3, rotate: Quat)

  /** `WriteTransform::from_translate`: a pose with no rotation. */
  function FromTranslate(t: Vec3): WriteTransform {
    WriteTransform(t, QuatIdentity)
  }

  datatype WriteCollider = WriteCollider(id: U32, transform: WriteTransform)

  /** `WriteWorldState`: one record per collider. */
  datatype WorldState = WorldState(colliders: seq<WriteCollider>)
}
