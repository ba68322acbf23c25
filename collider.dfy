/** `collider.rs`: a collider is an id, a body (particle or rigid body), a lock flag and a
    linear state; it is built from a parsed collider and written back as a pose record. */
module Colliders {
  import opened Glam
  import SokudoIo
  import Particles
  import opened RigidBodies

  /** `ColliderId`: a `u32`. */
  datatype ColliderId = ColliderId(value: U32)

  const TwoTo32: int := 0x1_0000_0000

  /** `ColliderId::new`: `i as u32` keeps the low 32 bits of the index. */
  function NewColliderId(i: nat): (r: ColliderId)
    ensures i < TwoTo32 ==> r.value == i
    ensures (i - r.value) % TwoTo32 == 0
  {
    ColliderId(i % TwoTo32)
  }

  /** Indices that differ by a multiple of 2^32 collide on the same id. */
  lemma NewColliderIdWraps(i: nat)
    ensures NewColliderId(i + TwoTo32) == NewColliderId(i)
  {
  }

  datatype ColliderBody = Particle(particle: Particles.Particle) | Rigid(rb: RigidBody) {

    /** `ColliderBody::mass`: the mass of whichever variant is present. */
    function Mass(): real {
      match this
      case Particle(p) => p.mass
      case Rigid(rb) => rb.mass
    }

    /** `ColliderBody::from(ParsedColliderBody)`: a particle stays a particle and a rigid
        body becomes `Rigid`. */
    static function FromParsed(p: SokudoIo.ParsedColliderBody): (r: ColliderBody)
      ensures p.Particle? <==> r.Particle?
      ensures p.RigidBody? <==> r.Rigid?
      ensures p.Particle? ==> r.particle == Particles.Particle.FromParsed(p.particle)
      ensures p.RigidBody? ==> r.rb == RigidBody.FromParsed(p.rb)
    {
      match p
      case Particle(pp) => Particle(Particles.Particle.FromParsed(pp))
      case RigidBody(prb) => Rigid(RigidBody.FromParsed(prb))
    }
  }

  /** The mass a parsed body declares. */
  function ParsedMass(p: SokudoIo.ParsedColliderBody): real {
    match p
    case Particle(pp) => pp.mass
    case RigidBody(prb) => prb.mass
  }

  /** Converting a body keeps its mass. */
  lemma BodyFromParsedKeepsMass(p: SokudoIo.ParsedColliderBody)
    ensures ColliderBody.FromParsed(p).Mass() == ParsedMass(p)
  {
  }

  datatype Collider = Collider(
    id: U32,
    body: ColliderBody,
    /** A locked collider has no gravity and infinite mass. */
    locked: bool,
    position: Vec3,
    previousPosition: Vec3,
    velocity: Vec3)
  {
    /** `Collider::from(ParsedCollider)`: the previous position starts at the position. */
    static function FromParsed(p: SokudoIo.ParsedCollider): (r: Collider)
      ensures r.id == p.id && r.locked == p.locked && r.velocity == p.velocity
      ensures r.position == p.position && r.previousPosition == p.position
      ensures r.body == ColliderBody.FromParsed(p.body)
    {
      Collider(
        id := p.id,
        body := ColliderBody.FromParsed(p.body),
        locked := p.locked,
        position := p.position,
        previousPosition := p.position,
        velocity := p.velocity)
    }

    /** `WriteCollider::from(&Collider)`: the pose written for this collider. A particle has
        no orientation; a rigid body is written with its rotation. */
    function ToWriteCollider(): (w: SokudoIo.WriteCollider)
      ensures w.id == id
      ensures w.transform.translate == position
      ensures body.Particle? ==> w.transform.rotate == QuatIdentity
      ensures body.Rigid? ==> w.transform.rotate == body.rb.rotation
    {
      var transform := match body
        case Particle(_) => SokudoIo.FromTranslate(position)
        case Rigid(rb) => SokudoIo.WriteTransform(position, rb.rotation);
      SokudoIo.WriteCollider(id, transform)
    }

    /** The values `Hash for Collider` feeds to the hasher. */
    function HashInput(): seq<U32> {
      [id]
    }
  }

  /** Two colliders with the same id hash alike, whatever else differs. */
  lemma HashDependsOnlyOnId(a: Collider, b: Collider)
    ensures a.HashInput() == b.HashInput() <==> a.id == b.id
  {
    assert a.HashInput()[0] == a.id;
  }

  /** `Collider::collide`: the solver step between two colliders is not written yet, so
      both come back as they went in. */
  method Collide(a: Collider, b: Collider) returns (a': Collider, b': Collider)
    ensures a' == a && b' == b
  {
    a', b' := a, b;
  }

  /** The orientation an unstepped collider built from `p` is written with. */
  function ParsedRotation(p: SokudoIo.ParsedColliderBody): Quat {
    match p
    case Particle(_) => QuatIdentity
    case RigidBody(prb) => prb.transform.rotate
  }

  /** Before any step, a collider's record gives back the parsed id and position, and for a
      rigid body the parsed rotation. */
  lemma WriteAfterParse(p: SokudoIo.ParsedCollider)
    ensures Collider.FromParsed(p).ToWriteCollider()
      == SokudoIo.WriteCollider(p.id, SokudoIo.WriteTransform(p.position, ParsedRotation(p.body)))
  {
  }
}
