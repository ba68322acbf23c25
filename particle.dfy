/** The particle variant of a collider body. `particle.rs` is not part of this model: the
    particle is taken to carry its mass and nothing else, and its inverse mass is taken to be
    the reciprocal of that mass. */
module Particles {
  import opened Glam
  import SokudoIo

  datatype Particle = Particle(mass: real) {

    /** `Particle::inverse_mass`: non-finite exactly for a massless particle. */
    function InverseMass(): (w: Float)
      ensures w.Finite? <==> mass != 0.0
    {
      Recip(mass)
    }

    /** `Particle::from(ParsedParticle)`. */
    static function FromParsed(p: SokudoIo.ParsedParticle): (r: Particle)
      ensures r.mass == p.mass
    {
      Particle(p.mass)
    }
  }
}
