/** `constraint/mod.rs`: the interface every constraint offers the solver. Its implementors
    form a closed set here, so the interface is an enumeration of them, and each operation
    dispatches to the implementor and states what the interface requires of every one.
    The interface gains `anchors`, which the particle constraint implements beside it. */
module Constraints {
  import opened Glam
  import opened Colliders
  import opened Collision

  datatype Constraint = ParticleCollision(pc: ParticleCollisionConstraint) {

    /** `bodies()`: the colliders this constraint acts on, by id. */
    function Bodies(): (r: seq<ColliderId>)
      ensures |r| > 0
    {
      match this
      case ParticleCollision(pc) => pc.Bodies()
    }

    /** `c()`: the constraint error. */
    function C(bodies: seq<Collider>): real {
      match this
      case ParticleCollision(pc) => pc.C(bodies)
    }

    /** `c_gradients()`: one gradient for each of the constraint's bodies. */
    function CGradients(bodies: seq<Collider>): (g: seq<Vec3>)
      ensures |g| == |Bodies()|
    {
      match this
      case ParticleCollision(pc) => pc.CGradients(bodies)
    }

    /** `inverse_masses()`: one weight for each body, or nothing when the slice does not fit
        the constraint. */
    function InverseMasses(bodies: seq<Collider>): (w: seq<Float>)
      ensures w == [] || (|w| == |Bodies()| && |bodies| == |Bodies()|)
    {
      match this
      case ParticleCollision(pc) => pc.InverseMasses(bodies)
    }

    /** `anchors()`: one anchor for each body. */
    function Anchors(): (a: seq<Vec3>)
      ensures |a| == |Bodies()|
    {
      match this
      case ParticleCollision(pc) => pc.Anchors()
    }

    /** `compliance()`. */
    function Compliance(): real {
      match this
      case ParticleCollision(pc) => pc.Compliance()
    }
  }

  /** None of `bodies`, `anchors` and `compliance` reads a collider, and neither do the
      error and the gradients of the particle constraint. */
  lemma StateIndependent(k: Constraint, b1: seq<Collider>, b2: seq<Collider>)
    ensures k.C(b1) == k.C(b2)
    ensures k.CGradients(b1) == k.CGradients(b2)
  {
  }
}
