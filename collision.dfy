/** `constraint/collision.rs`: the contact constraint between a particle and a rigid body. */
module Collision {
  import opened Glam
  import opened Colliders
  import opened RigidBodies

  /** A contact point: `contact.rs` is not part of this model, so only the fields the
      constraint reads are kept. `depth` is the constraint error the contact reports. */
  datatype Contact = Contact(normal: Vec3, depth: real, anchor1: Vec3, anchor2: Vec3)

  /** `ParticleCollisionConstraint`: the particle comes first, the rigid body second. */
  datatype ParticleCollisionConstraint = ParticleCollisionConstraint(
    particle: ColliderId,
    rb: ColliderId,
    contact: Contact,
    compliance: real)
  {
    /** `bodies()`: the two bodies, particle first. */
    function Bodies(): (r: seq<ColliderId>)
      ensures |r| == 2 && r[0] == particle && r[1] == rb
    {
      [particle, rb]
    }

    /** `c()`: the contact depth; the body states are not read. */
    function C(bodies: seq<Collider>): real {
      contact.depth
    }

    /** `c_gradients()`: the negated normal for the particle, the normal for the rigid
        body. */
    function CGradients(bodies: seq<Collider>): (g: seq<Vec3>)
      ensures |g| == |Bodies()|
      ensures Plus(g[0], g[1]) == VecZero
      ensures g[1] == contact.normal
      ensures Dot(g[0], g[0]) == Dot(g[1], g[1])
    {
      var n := contact.normal;
      [Neg(n), n]
    }

    /** `inverse_masses()`: the weights of the two bodies, or nothing when `bodies` is not
        exactly a particle followed by a rigid body. A locked body weighs zero. */
    function InverseMasses(bodies: seq<Collider>): (w: seq<Float>)
      ensures w != [] <==> IsParticleThenRigid(bodies)
      ensures w != [] ==> |w| == |Bodies()|
      ensures w != [] ==> w[0] == (if bodies[0].locked then Finite(0.0) else bodies[0].body.particle.InverseMass())
      ensures w != [] ==> w[1] == (if bodies[1].locked then Finite(0.0)
                                   else bodies[1].body.rb.PositionalInverseMass(contact.anchor2, contact.normal))
    {
      if |bodies| != 2 then []
      else
        var p, r := bodies[0], bodies[1];
        match p.body
        case Rigid(_) => []
        case Particle(particleBody) =>
          match r.body
          case Particle(_) => []
          case Rigid(rbBody) =>
            var w1 := if p.locked then Finite(0.0) else particleBody.InverseMass();
            var w2 := if r.locked then Finite(0.0) else rbBody.PositionalInverseMass(contact.anchor2, contact.normal);
            [w1, w2]
    }

    /** `anchors()`: one anchor per body, in body order. */
    function Anchors(): (a: seq<Vec3>)
      ensures |a| == |Bodies()|
      ensures a[0] == contact.anchor1 && a[1] == contact.anchor2
    {
      [contact.anchor1, contact.anchor2]
    }

    /** `compliance()`: the stored compliance. */
    function Compliance(): real {
      compliance
    }
  }

  /** The slice shape `inverse_masses` accepts. */
  predicate IsParticleThenRigid(bodies: seq<Collider>) {
    |bodies| == 2 && bodies[0].body.Particle? && bodies[1].body.Rigid?
  }

  /** `RigidBodyCollisionConstraint`: declared with its fields and no behaviour. */
  datatype RigidBodyCollisionConstraint = RigidBodyCollisionConstraint(a: ColliderId, b: ColliderId, compliance: real)

  /** The constraint error is the same whatever the bodies. */
  lemma CIgnoresBodies(k: ParticleCollisionConstraint, b1: seq<Collider>, b2: seq<Collider>)
    ensures k.C(b1) == k.C(b2) == k.contact.depth
  {
  }

  /** Two locked bodies both weigh zero. */
  lemma LockedBodiesWeighNothing(k: ParticleCollisionConstraint, p: Collider, r: Collider)
    requires p.body.Particle? && r.body.Rigid? && p.locked && r.locked
    ensures k.InverseMasses([p, r]) == [Finite(0.0), Finite(0.0)]
  {
  }

  /** The order of the bodies matters: a rigid body followed by a particle gives no weights. */
  lemma SwappedBodiesGiveNoWeights(k: ParticleCollisionConstraint, p: Collider, r: Collider)
    requires p.body.Particle? && r.body.Rigid?
    ensures k.InverseMasses([r, p]) == []
  {
  }

  /** An unlocked particle's weight is finite exactly when it has mass. */
  lemma ParticleWeightFinite(k: ParticleCollisionConstraint, p: Collider, r: Collider)
    requires p.body.Particle? && r.body.Rigid? && !p.locked
    ensures k.InverseMasses([p, r])[0].Finite? <==> p.body.particle.mass != 0.0
  {
  }

  /** When the rigid body's anchor lies on the line of the normal through its centre, the
      rigid body weighs its linear inverse mass, as a particle would. */
  lemma RigidWeightOnNormalLine(k: ParticleCollisionConstraint, p: Collider, r: Collider)
    requires p.body.Particle? && r.body.Rigid? && !r.locked
    requires Cross(k.contact.anchor2, k.contact.normal) == VecZero
    ensures k.InverseMasses([p, r])[1] == Recip(r.body.rb.mass)
  {
    var w := k.InverseMasses([p, r]);
    assert w[1] == r.body.rb.PositionalInverseMass(k.contact.anchor2, k.contact.normal);
    PositionalInverseMassThroughCentre(r.body.rb, k.contact.anchor2, k.contact.normal);
  }
}
