/** `player.rs`: playback of a recorded world-state history. A play/pause state, a cursor
    into the history advanced on a fixed time step, and the per-entity poses copied from the
    current record. The Bevy resources the systems share are the fields of `Player`; each
    system is a method; a requested state change takes effect at once, and the systems of one
    frame are gated on the state the frame started in. */
module Playback {
  import opened Glam
  import SokudoIo

  /** `PlayerState`; the default is `Paused`. */
  datatype PlayerState = Paused | Playing

  /** A spawned entity, numbered in spawn order. */
  type Entity = nat

  /** The Bevy `Transform` of a collider entity. */
  datatype EntityTransform = EntityTransform(translation: Vec3, rotation: Quat, scale: Vec3)

  /** The part of the state the PreUpdate systems move: `WorldStateIndex::step`,
      `PlaybackTime::time` and the player state. */
  datatype Playhead = Playhead(step: nat, time: real, state: PlayerState)

  // ------------------------------------------------------------ update_world_state

  /** One advance of the history cursor, without the time gate: the playback clock moves by
      one step length, and passing the end of the history rewinds to the start and pauses. */
  function Tick(h: Playhead, len: nat, dt: real): Playhead {
    var step := h.step + 1;
    if len <= step then Playhead(0, h.time + dt, Paused) else Playhead(step, h.time + dt, h.state)
  }

  /** `update_world_state` at elapsed time `elapsed`: no advance until more than `dt` has
      passed since the playback clock. */
  function Advance(h: Playhead, len: nat, dt: real, elapsed: real): Playhead {
    if elapsed - h.time <= dt then h else Tick(h, len, dt)
  }

  /** The effect of `update_world_state`, case by case. */
  lemma AdvanceCases(h: Playhead, len: nat, dt: real, elapsed: real)
    ensures elapsed - h.time <= dt ==> Advance(h, len, dt, elapsed) == h
    ensures elapsed - h.time > dt ==> Advance(h, len, dt, elapsed).time == h.time + dt
    ensures elapsed - h.time > dt && h.step + 1 < len ==>
      Advance(h, len, dt, elapsed).step == h.step + 1 && Advance(h, len, dt, elapsed).state == h.state
    ensures elapsed - h.time > dt && len <= h.step + 1 ==>
      Advance(h, len, dt, elapsed).step == 0 && Advance(h, len, dt, elapsed).state == Paused
  {
  }

  /** From a step inside the history, an advance stays inside it: the cursor moves to the
      next step modulo the history length. */
  lemma AdvanceStaysInHistory(h: Playhead, len: nat, dt: real, elapsed: real)
    requires h.step < len
    ensures Advance(h, len, dt, elapsed).step < len
    ensures elapsed - h.time > dt ==> Advance(h, len, dt, elapsed).step == (h.step + 1) % len
  {
  }

  /** `k` ungated advances in a row. */
  function Ticks(h: Playhead, len: nat, dt: real, k: nat): Playhead {
    if k == 0 then h else Tick(Ticks(h, len, dt, k - 1), len, dt)
  }

  lemma TimeOfSteps(k: nat, dt: real)
    requires k > 0
    ensures ((k - 1) as real) * dt + dt == (k as real) * dt
  {
  }

  /** Playing from the first record, the `k`-th advance shows record `k`, and the advance
      past the last record rewinds to the first and pauses; the playback clock has moved by
      `k` step lengths. */
  lemma {:induction false} FullPass(h: Playhead, len: nat, dt: real, k: nat)
    requires h.step == 0 && h.state == Playing
    requires 0 < k <= len
    ensures Ticks(h, len, dt, k)
      == if k < len then Playhead(k, h.time + (k as real) * dt, Playing)
         else Playhead(0, h.time + (k as real) * dt, Paused)
  {
    TimeOfSteps(k, dt);
    if k > 1 {
      FullPass(h, len, dt, k - 1);
    }
  }

  // ------------------------------------------------------------ the PreUpdate systems

  /** `set_player_state_playing`: Space requests `Playing` and restarts the playback clock at
      the elapsed time. */
  function PressPlay(h: Playhead, space: bool, elapsed: real): Playhead {
    if space then h.(state := Playing, time := elapsed) else h
  }

  /** `set_player_state_paused`: Space requests `Paused`. */
  function PressPause(h: Playhead, space: bool): Playhead {
    if space then h.(state := Paused) else h
  }

  /** PreUpdate: while paused only the play system runs; while playing the pause system and
      `update_world_state` run, and both can only request `Paused`, so their order does not
      matter. */
  function PreUpdate(h: Playhead, space: bool, elapsed: real, len: nat, dt: real): Playhead {
    match h.state
    case Paused => PressPlay(h, space, elapsed)
    case Playing => PressPause(Advance(h, len, dt, elapsed), space)
  }

  /** The two PreUpdate systems that run while playing commute. */
  lemma PauseAndAdvanceCommute(h: Playhead, space: bool, elapsed: real, len: nat, dt: real)
    ensures PressPause(Advance(h, len, dt, elapsed), space).step == Advance(PressPause(h, space), len, dt, elapsed).step
    ensures PressPause(Advance(h, len, dt, elapsed), space).time == Advance(PressPause(h, space), len, dt, elapsed).time
    ensures h.state == Playing ==>
      PressPause(Advance(h, len, dt, elapsed), space).state == Advance(PressPause(h, space), len, dt, elapsed).state
  {
  }

  /** While paused the cursor does not move. */
  lemma PausedDoesNotAdvance(h: Playhead, space: bool, elapsed: real, len: nat, dt: real)
    requires h.state == Paused
    ensures PreUpdate(h, space, elapsed, len, dt).step == h.step
  {
  }

  /** Without Space, a paused player stays as it is, and a playing one only advances. */
  lemma NoKeyNoToggle(h: Playhead, elapsed: real, len: nat, dt: real)
    ensures h.state == Paused ==> PreUpdate(h, false, elapsed, len, dt) == h
    ensures h.state == Playing ==> PreUpdate(h, false, elapsed, len, dt) == Advance(h, len, dt, elapsed)
  {
  }

  /** Space pressed while paused, and again before a step length has passed, gives back a
      paused player at the same record. */
  lemma PlayThenPause(h: Playhead, e1: real, e2: real, len: nat, dt: real)
    requires h.state == Paused
    requires e2 - e1 <= dt
    ensures PreUpdate(h, true, e1, len, dt) == h.(state := Playing, time := e1)
    ensures PreUpdate(PreUpdate(h, true, e1, len, dt), true, e2, len, dt) == h.(time := e1)
  {
  }

  /** PreUpdate keeps the cursor inside the history. */
  lemma PreUpdateStaysInHistory(h: Playhead, space: bool, elapsed: real, len: nat, dt: real)
    requires h.step < len
    ensures PreUpdate(h, space, elapsed, len, dt).step < len
  {
    AdvanceStaysInHistory(h, len, dt, elapsed);
  }

  // ------------------------------------------------------------ setup_initial_state

  /** The transform an entity is spawned with: the parsed placement. */
  function Placement(c: SokudoIo.PlacedCollider): EntityTransform {
    EntityTransform(c.transform.translate, c.transform.rotate, c.transform.scale)
  }

  /** The transforms of the entities spawned for `cs`, one per collider in spawn order. */
  function Spawned(cs: seq<SokudoIo.PlacedCollider>): (r: seq<EntityTransform>)
    ensures |r| == |cs|
    ensures forall i :: 0 <= i < |cs| ==> r[i] == Placement(cs[i])
  {
    if cs == [] then [] else Spawned(cs[..|cs| - 1]) + [Placement(cs[|cs| - 1])]
  }

  /** `ColliderEntities::map` after the spawn loop: each id is inserted with the entity of its
      collider, in collider order. */
  function EntityMap(cs: seq<SokudoIo.PlacedCollider>): map<U32, Entity> {
    if cs == [] then map[] else EntityMap(cs[..|cs| - 1])[cs[|cs| - 1].id := |cs| - 1]
  }

  /** Every id of `cs` is mapped, and to the LAST collider that carries it: a later duplicate
      id overwrites an earlier one. */
  lemma {:induction false} EntityMapLastWins(cs: seq<SokudoIo.PlacedCollider>, id: U32)
    ensures id in EntityMap(cs) <==> exists i :: 0 <= i < |cs| && cs[i].id == id
    ensures id in EntityMap(cs) ==>
      && EntityMap(cs)[id] < |cs|
      && cs[EntityMap(cs)[id]].id == id
      && forall j :: EntityMap(cs)[id] < j < |cs| ==> cs[j].id != id
  {
    if cs != [] {
      var init := cs[..|cs| - 1];
      EntityMapLastWins(init, id);
      if cs[|cs| - 1].id != id {
        if exists i :: 0 <= i < |cs| && cs[i].id == id {
          var i :| 0 <= i < |cs| && cs[i].id == id;
          assert init[i].id == id;
        }
      }
    }
  }

  // ------------------------------------------------------------ update_colliders

  /** `transform.translation` and `transform.rotation` set from a record; the scale stays. */
  function Posed(t: EntityTransform, w: SokudoIo.WriteTransform): (r: EntityTransform)
    ensures r.translation == w.translate && r.rotation == w.rotate && r.scale == t.scale
  {
    t.(translation := w.translate, rotation := w.rotate)
  }

  /** One record of the current world state: skipped when its id has no entity or the
      entity has no transform. */
  function ApplyRecord(ts: seq<EntityTransform>, m: map<U32, Entity>, rec: SokudoIo.WriteCollider): seq<EntityTransform> {
    if rec.id in m && m[rec.id] < |ts| then ts[m[rec.id] := Posed(ts[m[rec.id]], rec.transform)] else ts
  }

  /** The records applied in order. No entity is added or removed and no scale changes. */
  function ApplyRecords(ts: seq<EntityTransform>, m: map<U32, Entity>, recs: seq<SokudoIo.WriteCollider>): (r: seq<EntityTransform>)
    ensures |r| == |ts|
    ensures forall e :: 0 <= e < |ts| ==> r[e].scale == ts[e].scale
  {
    if recs == [] then ts else ApplyRecord(ApplyRecords(ts, m, recs[..|recs| - 1]), m, recs[|recs| - 1])
  }

  /** The record targets entity `e`. */
  predicate Targets(m: map<U32, Entity>, rec: SokudoIo.WriteCollider, e: Entity) {
    rec.id in m && m[rec.id] == e
  }

  /** An entity that no record targets keeps its transform. */
  lemma {:induction false} UntargetedEntityKept(ts: seq<EntityTransform>, m: map<U32, Entity>, recs: seq<SokudoIo.WriteCollider>, e: Entity)
    requires e < |ts|
    requires forall k :: 0 <= k < |recs| ==> !Targets(m, recs[k], e)
    ensures ApplyRecords(ts, m, recs)[e] == ts[e]
  {
    if recs != [] {
      var init := recs[..|recs| - 1];
      assert forall k :: 0 <= k < |init| ==> init[k] == recs[k];
      UntargetedEntityKept(ts, m, init, e);
    }
  }

  /** An entity that some record targets ends with the translation and rotation of the last
      such record, and its own scale. */
  lemma {:induction false} LastRecordWins(ts: seq<EntityTransform>, m: map<U32, Entity>, recs: seq<SokudoIo.WriteCollider>, e: Entity, k: nat)
    requires e < |ts| && k < |recs|
    requires Targets(m, recs[k], e)
    requires forall j :: k < j < |recs| ==> !Targets(m, recs[j], e)
    ensures ApplyRecords(ts, m, recs)[e]
      == EntityTransform(recs[k].transform.translate, recs[k].transform.rotate, ts[e].scale)
  {
    var init := recs[..|recs| - 1];
    if k < |recs| - 1 {
      assert forall j :: k < j < |init| ==> init[j] == recs[j];
      LastRecordWins(ts, m, init, e, k);
    }
  }

  // ------------------------------------------------------------ the resources

  class Player {
    /** `DeltaTime::dt`. */
    var dt: real
    /** `PlaybackTime::time`. */
    var playbackTime: real
    /** `WorldStateIndex::step`. */
    var step: nat
    var state: PlayerState
    /** `WorldStateHistory`, one record per simulated step. */
    const history: seq<SokudoIo.WorldState>
    /** `ColliderEntities::map`. */
    var entities: map<U32, Entity>
    /** The transforms of the collider entities, indexed by entity. */
    var transforms: seq<EntityTransform>

    /** Every mapped id has a spawned entity, and the cursor is at the start or inside the
        history. */
    ghost predicate Valid()
      reads this
    {
      && (forall id :: id in entities ==> entities[id] < |transforms|)
      && (step == 0 || step < |history|)
    }

    function Head(): Playhead
      reads this
    {
      Playhead(step, playbackTime, state)
    }

    /** The resources as the plugin initialises them, beside the loaded history. */
    constructor (history: seq<SokudoIo.WorldState>)
      ensures Valid()
      ensures this.history == history
      ensures Head() == Playhead(0, 0.0, Paused) && dt == 0.0
      ensures entities == map[] && transforms == []
    {
      this.history := history;
      dt := 0.0;
      playbackTime := 0.0;
      step := 0;
      state := Paused;
      entities := map[];
      transforms := [];
    }

    /** `setup_initial_state`, the Startup system: copies `dt` and spawns one entity per
        parsed collider at its placement, mapping the collider's id to it. */
    method SetupInitialState(w: SokudoIo.PlacedWorld)
      requires Valid() && entities == map[] && transforms == []
      modifies this
      ensures Valid()
      ensures dt == w.dt
      ensures transforms == Spawned(w.colliders)
      ensures entities == EntityMap(w.colliders)
      ensures Head() == old(Head())
    {
      dt := w.dt;
      var cs := w.colliders;
      var i := 0;
      while i < |cs|
        invariant 0 <= i <= |cs|
        invariant transforms == Spawned(cs[..i])
        invariant entities == EntityMap(cs[..i])
        invariant dt == w.dt && Head() == old(Head())
      {
        var entity := |transforms|;
        transforms := transforms + [Placement(cs[i])];
        entities := entities[cs[i].id := entity];
        assert cs[..i + 1][..i] == cs[..i];
        i := i + 1;
      }
      assert cs[..i] == cs;
      forall id | id in entities
        ensures entities[id] < |transforms|
      {
        EntityMapLastWins(cs, id);
      }
    }

    /** `update_world_state`. */
    method UpdateWorldState(elapsed: real)
      requires Valid()
      modifies this`step, this`playbackTime, this`state
      ensures Valid()
      ensures Head() == Advance(old(Head()), |history|, dt, elapsed)
    {
      if elapsed - playbackTime <= dt {
        return;
      }
      playbackTime := playbackTime + dt;
      step := step + 1;
      if |history| <= step {
        state := Paused;
        step := 0;
      }
    }

    /** `set_player_state_playing`. */
    method SetPlayerStatePlaying(space: bool, elapsed: real)
      modifies this`playbackTime, this`state
      ensures Head() == PressPlay(old(Head()), space, elapsed)
    {
      if space {
        state := Playing;
        playbackTime := elapsed;
      }
    }

    /** `set_player_state_paused`. */
    method SetPlayerStatePaused(space: bool)
      modifies this`state
      ensures Head() == PressPause(old(Head()), space)
    {
      if space {
        state := Paused;
      }
    }

    /** The PreUpdate schedule, each system gated on the state the frame started in. */
    method RunPreUpdate(space: bool, elapsed: real)
      requires Valid()
      modifies this`step, this`playbackTime, this`state
      ensures Valid()
      ensures Head() == PreUpdate(old(Head()), space, elapsed, |history|, dt)
    {
      var atStart := state;
      if atStart == Paused {
        SetPlayerStatePlaying(space, elapsed);
      }
      if atStart == Playing {
        SetPlayerStatePaused(space);
        UpdateWorldState(elapsed);
      }
    }

    /** `update_colliders`: the poses of the current record copied onto the mapped entities. */
    method UpdateColliders()
      requires Valid() && step < |history|
      modifies this`transforms
      ensures Valid()
      ensures transforms == ApplyRecords(old(transforms), entities, history[step].colliders)
    {
      var records := history[step].colliders;
      var i := 0;
      while i < |records|
        invariant 0 <= i <= |records|
        invariant transforms == ApplyRecords(old(transforms), entities, records[..i])
      {
        var rec := records[i];
        if rec.id in entities {
          var entity := entities[rec.id];
          if entity < |transforms| {
            transforms := transforms[entity := Posed(transforms[entity], rec.transform)];
          }
        }
        assert records[..i + 1][..i] == records[..i];
        i := i + 1;
      }
      assert records[..i] == records;
    }

    /** One frame: PreUpdate, then the requested state takes effect, then Update copies the
        poses when playing and some collider entity exists. The history is read only in that
        last case, so only there must it be non-empty. */
    method Frame(space: bool, elapsed: real)
      requires Valid()
      requires |history| > 0 || transforms == [] || PreUpdate(Head(), space, elapsed, 0, dt).state == Paused
      modifies this`step, this`playbackTime, this`state, this`transforms
      ensures Valid()
      ensures Head() == PreUpdate(old(Head()), space, elapsed, |history|, dt)
      ensures transforms == if state == Playing && old(transforms) != []
        then ApplyRecords(old(transforms), entities, history[step].colliders)
        else old(transforms)
    {
      RunPreUpdate(space, elapsed);
      if state == Playing && transforms != [] {
        UpdateColliders();
      }
    }
  }
}
