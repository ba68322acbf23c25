/** `world.rs`: the simulated world, a step counter and the colliders, stepped in place. */
module Worlds {
  import opened Glam
  import SokudoIo
  import opened Colliders

  /** What one step does to a collider for now: it moves down by 0.1, and nothing else
      about it changes. */
  function Lowered(c: Collider): (r: Collider)
    ensures r.position == Vec3(c.position.x, c.position.y - 0.1, c.position.z)
    ensures r == c.(position := r.position)
  {
    c.(position := c.position.(y := c.position.y - 0.1))
  }

  /** `value.colliders.into_iter().map(Collider::from).collect()`. */
  function CollidersFromParsed(ps: seq<SokudoIo.ParsedCollider>): (r: seq<Collider>)
    ensures |r| == |ps|
    ensures forall i :: 0 <= i < |ps| ==> r[i] == Collider.FromParsed(ps[i])
  {
    if ps == [] then [] else [Collider.FromParsed(ps[0])] + CollidersFromParsed(ps[1..])
  }

  /** `self.colliders.iter().map(WriteCollider::from).collect()`. */
  function Records(cs: seq<Collider>): (r: seq<SokudoIo.WriteCollider>)
    ensures |r| == |cs|
    ensures forall i :: 0 <= i < |cs| ==> r[i] == cs[i].ToWriteCollider()
  {
    if cs == [] then [] else [cs[0].ToWriteCollider()] + Records(cs[1..])
  }

  class World {
    var steps: U32
    var colliders: seq<Collider>

    /** `World::from(ParsedWorld)`. */
    constructor FromParsed(p: SokudoIo.ParsedWorld)
      ensures steps == p.steps
      ensures colliders == CollidersFromParsed(p.colliders)
    {
      steps := p.steps;
      colliders := CollidersFromParsed(p.colliders);
    }

    /** `World::step`: every collider, in place and in order, is lowered. */
    method Step()
      modifies this
      ensures steps == old(steps)
      ensures |colliders| == |old(colliders)|
      ensures forall i :: 0 <= i < |colliders| ==> colliders[i] == Lowered(old(colliders)[i])
    {
      var i := 0;
      while i < |colliders|
        invariant 0 <= i <= |colliders| == |old(colliders)|
        invariant steps == old(steps)
        invariant forall j :: 0 <= j < i ==> colliders[j] == Lowered(old(colliders)[j])
        invariant forall j :: i <= j < |colliders| ==> colliders[j] == old(colliders)[j]
      {
        colliders := colliders[i := Lowered(colliders[i])];
        i := i + 1;
      }
    }

    /** `World::state`: one record per collider, in collider order. */
    function State(): (s: SokudoIo.WorldState)
      reads this
      ensures |s.colliders| == |colliders|
      ensures forall i :: 0 <= i < |colliders| ==> s.colliders[i].id == colliders[i].id
      ensures forall i :: 0 <= i < |colliders| ==> s.colliders[i] == colliders[i].ToWriteCollider()
    {
      SokudoIo.WorldState(Records(colliders))
    }
  }

  /** A step shows in the written record as a translation 0.1 lower; id and rotation are
      written as before. */
  lemma RecordOfLowered(c: Collider)
    ensures Lowered(c).ToWriteCollider().id == c.ToWriteCollider().id
    ensures Lowered(c).ToWriteCollider().transform.rotate == c.ToWriteCollider().transform.rotate
    ensures Lowered(c).ToWriteCollider().transform.translate.y == c.ToWriteCollider().transform.translate.y - 0.1
  {
  }

  /** The state of a world just built from `p` records the parsed ids and positions, one
      per parsed collider and in the same order. */
  lemma {:induction false} RecordsOfParsed(ps: seq<SokudoIo.ParsedCollider>)
    ensures |Records(CollidersFromParsed(ps))| == |ps|
    ensures forall i :: 0 <= i < |ps| ==>
      Records(CollidersFromParsed(ps))[i]
        == SokudoIo.WriteCollider(ps[i].id, SokudoIo.WriteTransform(ps[i].position, ParsedRotation(ps[i].body)))
  {
    forall i | 0 <= i < |ps|
      ensures Records(CollidersFromParsed(ps))[i]
        == SokudoIo.WriteCollider(ps[i].id, SokudoIo.WriteTransform(ps[i].position, ParsedRotation(ps[i].body)))
    {
      WriteAfterParse(ps[i]);
    }
  }
}
