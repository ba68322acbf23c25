# sokudo core, modelled in Dafny

sokudo is a position-based physics solver for particles and rigid bodies, with a Bevy
player that replays a recorded history of world states. This project models:

- The solver's data model and constraint contract (`crates/sokudo-core`). That is the rigid
  body and its inverse inertia tensor, the collider built from parsed input and written back
  as a pose record, the particle-versus-rigid-body collision constraint and the interface it
  implements, and the world with its step loop.
- The playback state machine (`crates/sokudo-playback/src/player.rs`). That is play/pause
  toggling, the time-gated history cursor, the id-to-entity map built at startup, and the
  copying of recorded poses onto entities.

Modules, one per source file or external crate:

| file | module | models |
|---|---|---|
| glam.dfy | `Glam` | the `glam` vector, quaternion and 3×3 matrix operations used, over exact reals; `f32` results that may be non-finite |
| sokudo_io.dfy | `SokudoIo` | the parsed world records and the written pose records |
| rigid_body.dfy | `RigidBodies` | `rigid_body.rs` |
| particle.dfy | `Particles` | the particle body (its own file is not part of this model) |
| collider.dfy | `Colliders` | `collider.rs` |
| collision.dfy | `Collision` | `constraint/collision.rs` |
| constraint.dfy | `Constraints` | `constraint/mod.rs` |
| world.dfy | `Worlds` | `world.rs` |
| player.dfy | `Playback` | `player.rs` |

How the source's form carries over:

- `f32` values that can leave the finite range are `Glam.Float`: `Finite(real)` or
  `NonFinite`. `recip` and `1.0 / x` are finite exactly when `x` is non-zero, and a
  non-finite summand makes the sum non-finite.
- `Mat3::inverse` is the adjugate divided by the determinant. Its result is `None` when the
  matrix is singular, which is where glam produces infinities and NaNs. Otherwise it is a
  proved right inverse.
- `World` and the playback resources are classes whose methods change their fields.
  `World::step` is a loop that rewrites one collider at a time.
- The player's resources become fields of one `Player` object:
  - `DeltaTime`, `PlaybackTime`, `WorldStateIndex` and the `PlayerState`;
  - the history;
  - `ColliderEntities`;
  - the `Transform`s of the collider entities.

  Each Bevy system is a method of `Player`.
- `RigidBody`, `InertiaTensor`, `Collider` and the constraints are values.

## Notes on the code

- `global_inverse_inertia` (`rigid_body.rs:40-42`) returns the stored inverse tensor
  rotated into world axes, `R·I⁻¹·Rᵀ`, through the `inverse()` accessor; nothing is
  re-inverted. On `INFINITY` it is therefore the zero matrix, never a non-finite one
  (`RigidBodies.PositionalInverseMassOfInfiniteTensor`).
- `InertiaTensor::new` (`rigid_body.rs:92-101`) tests the whole reciprocal vector at once:
  one zero moment makes the whole tensor `INFINITY`, not only that axis.
- `inverse_masses` (`collision.rs:30-45`) answers a slice that is not exactly a particle
  followed by a rigid body with an empty vector, not with zero weights.
- `World::step` (`world.rs:11-15`) only lowers every collider by 0.1; there is no
  integration, collision detection or constraint projection in the code yet.
- The player (`player.rs:219-249`) copies the poses of the current record; it does not
  interpolate between records.

Three places in the source do not compile as written. The model repairs them as follows:

- `world.rs:13` and `collider.rs:80` read a `transform` field that `Collider` and
  `RigidBody` do not have. The model uses `Collider.position` for the translation and
  `RigidBody.rotation` for a rigid body's rotation.
- `Collision.ParticleCollisionConstraint.Anchors` implements `anchors`, which the trait in
  `constraint/mod.rs` does not declare. It is added to the modelled interface.

## Model

| member | source | states |
|---|---|---|
| `RigidBodies.InertiaTensor.New` | crates/sokudo-core/src/rigid_body.rs:91-101 | Non-zero moments give a diagonal inverse whose entries are the reciprocals, each entry times its moment being one. Any zero moment gives `INFINITY`. The result is infinite exactly when some moment is zero. |
| `RigidBodies.InertiaTensor.Default` | crates/sokudo-core/src/rigid_body.rs:80-84 | `default()` gives `INFINITY` (no contract; `DefaultIsInfinity` states it). |
| `RigidBodies.InertiaTensor.FromInverseTensor` | crates/sokudo-core/src/rigid_body.rs:108-113 | Stores the given matrix as the inverse (no contract; `InverseOfFromInverseTensor` states the round trip). |
| `RigidBodies.InertiaTensor.Inverse` | crates/sokudo-core/src/rigid_body.rs:115-118 | Returns the stored inverse (no contract; `InverseOfFromInverseTensor` states the round trip). |
| `RigidBodies.InertiaTensor.IsFinite` | crates/sokudo-core/src/rigid_body.rs:136-139 | Neither infinite nor NaN (no contract; `InfinityIsZeroInverse` states it). |
| `RigidBodies.InertiaTensor.IsInfinite` | crates/sokudo-core/src/rigid_body.rs:141-144 | Equality with `INFINITY` (no contract; `InfinityIsZeroInverse` states it is the zero inverse). |
| `RigidBodies.InertiaTensor.IsNan` | crates/sokudo-core/src/rigid_body.rs:146-149 | Always false over real matrices (no contract; see "## Left out"). |
| `RigidBodies.ShapeFromParsed` | crates/sokudo-core/src/rigid_body.rs:56 | The parsed cuboid becomes the cuboid shape (no contract). |
| `RigidBodies.NewPositiveSemidefinite` | crates/sokudo-core/src/rigid_body.rs:91-101 | Non-negative moments give a positive semidefinite inverse tensor, with or without the fallback to `INFINITY`. |
| `RigidBodies.InertiaTensor.FromTensor` | crates/sokudo-core/src/rigid_body.rs:103-106 | Finite exactly for a non-singular tensor. The stored inverse is then a right inverse of the given tensor. |
| `RigidBodies.InertiaTensor.Tensor` | crates/sokudo-core/src/rigid_body.rs:120-123 | Finite exactly when the stored inverse is non-singular, and then the stored inverse times the result is the identity. On `INFINITY` it is non-finite. |
| `RigidBodies.InverseOfFromInverseTensor` | crates/sokudo-core/src/rigid_body.rs:108-118 | Storing an inverse and reading it back gives the same matrix. |
| `RigidBodies.DefaultIsInfinity` | crates/sokudo-core/src/rigid_body.rs:80-89 | `default()` is `INFINITY`, whose inverse is the zero matrix. |
| `RigidBodies.InfinityIsZeroInverse` | crates/sokudo-core/src/rigid_body.rs:136-149 | A tensor is infinite exactly when its inverse is the zero matrix. It is finite exactly when neither infinite nor NaN. |
| `RigidBodies.InertiaTensor.Rotate` | crates/sokudo-core/src/rigid_body.rs:130-134 | Rotating by the identity quaternion changes nothing. Rotating `INFINITY` gives `INFINITY`. |
| `RigidBodies.RotateConjugates` | crates/sokudo-core/src/rigid_body.rs:130-134 | The rotated inverse `R·M·Rᵀ` has, at `v`, the quadratic form that `M` has at `Rᵀv`. |
| `RigidBodies.RotateKeepsPositiveSemidefinite` | crates/sokudo-core/src/rigid_body.rs:130-134 | Rotation keeps an inverse tensor positive semidefinite. |
| `RigidBodies.RigidBody.ComputeVertices` | crates/sokudo-core/src/rigid_body.rs:29-33 | A non-empty vertex cache is kept. An empty one becomes the shape's vertices at the body's resolution. No other field changes. |
| `RigidBodies.ComputeVerticesIdempotent` | crates/sokudo-core/src/rigid_body.rs:29-33 | A second `compute_vertices` changes nothing. |
| `RigidBodies.RigidBody.ComputeInertiaTensor` | crates/sokudo-core/src/rigid_body.rs:35-37 | Only the tensor changes, to `new` of the shape's moments at the current scale. It is infinite exactly when some moment is zero. |
| `RigidBodies.GlobalInverseInertiaUnrotated` | crates/sokudo-core/src/rigid_body.rs:40-42 | With the identity rotation the world-axis inverse tensor is the stored one. |
| `RigidBodies.RigidBody.GlobalInverseInertia` | crates/sokudo-core/src/rigid_body.rs:40-42 | The stored inverse rotated by the body's rotation, `R·I⁻¹·Rᵀ` (no contract; the lemmas `GlobalInverseInertiaUnrotated`, `PositionalInverseMassOfInfiniteTensor` and `RotateConjugates` state its properties). |
| `RigidBodies.RigidBody.PositionalInverseMass` | crates/sokudo-core/src/rigid_body.rs:47-50 | Non-finite exactly for a massless body; its value is `GeneralisedInverseMass` with the world-axis inverse tensor, whose properties the lemmas below state. |
| `RigidBodies.GeneralisedInverseMass` | crates/sokudo-core/src/rigid_body.rs:47-50 | `1/m + (r×n)·(G(r×n))`, which is non-finite exactly when the mass is zero. |
| `RigidBodies.GeneralisedInverseMassWithoutCoupling` | crates/sokudo-core/src/rigid_body.rs:47-50 | When `r×n` is zero only `1/m` remains, whatever the tensor. |
| `RigidBodies.GeneralisedInverseMassAtLeastLinear` | crates/sokudo-core/src/rigid_body.rs:47-50 | With a positive semidefinite tensor the result is never below `1/m`. |
| `RigidBodies.PositionalInverseMassThroughCentre` | crates/sokudo-core/src/rigid_body.rs:40-50 | A correction with `r×n = 0` sees exactly the reciprocal of the mass. |
| `RigidBodies.PositionalInverseMassParallel` | crates/sokudo-core/src/rigid_body.rs:40-50 | In particular, an offset parallel to the direction sees exactly the reciprocal of the mass. |
| `RigidBodies.PositionalInverseMassOfInfiniteTensor` | crates/sokudo-core/src/rigid_body.rs:40-50 | A body with the `INFINITY` tensor has a zero world-axis inverse tensor, and the reciprocal of its mass at every offset. |
| `RigidBodies.PositionalInverseMassAtLeastLinear` | crates/sokudo-core/src/rigid_body.rs:40-50 | A positive semidefinite local tensor makes the value at least `1/m` in every orientation. |
| `RigidBodies.ComputedTensorAtLeastLinear` | crates/sokudo-core/src/rigid_body.rs:35-50 | After `compute_inertia_tensor` from non-negative moments, the value is at least `1/m`. |
| `RigidBodies.NormalizedResolution` | crates/sokudo-core/src/rigid_body.rs:58-62 | The all-zero resolution becomes `(1,1,1)` and any other is kept. The result is never all-zero. |
| `RigidBodies.PartlyZeroResolutionKept` | crates/sokudo-core/src/rigid_body.rs:58-62 | Every resolution that is only partly zero is kept as it is. |
| `RigidBodies.RigidBody.FromParsed` | crates/sokudo-core/src/rigid_body.rs:53-73 | Copies shape, mass, vertices and scale, and normalises the resolution. Sets rotation and previous rotation to the parsed rotation, zeroes both angular velocities and sets the tensor to `INFINITY`. |
| `Colliders.NewColliderId` | crates/sokudo-core/src/collider.rs:24-28 | The id is the index when it fits in 32 bits, and in general congruent to it modulo 2^32. |
| `Colliders.NewColliderIdWraps` | crates/sokudo-core/src/collider.rs:24-28 | Indices 2^32 apart give the same id. |
| `Colliders.ColliderBody.FromParsed` | crates/sokudo-core/src/collider.rs:67-74 | A particle stays a particle and a rigid body becomes `Rigid`, each converted by its own `from`. |
| `Colliders.BodyFromParsedKeepsMass` | crates/sokudo-core/src/collider.rs:44-50 | The mass of a converted body is the mass the parsed body declared, for either variant. |
| `Colliders.ColliderBody.Mass` | crates/sokudo-core/src/collider.rs:44-50 | The mass of whichever variant is present (no contract; `BodyFromParsedKeepsMass` ties it to the parsed mass). |
| `Colliders.Collider.FromParsed` | crates/sokudo-core/src/collider.rs:53-65 | Copies id, lock flag and velocity, sets position and previous position to the parsed position, and converts the body. |
| `Colliders.Collider.ToWriteCollider` | crates/sokudo-core/src/collider.rs:76-88 | The record keeps the id and translates to the position. A particle is written without rotation and a rigid body with its rotation. |
| `Colliders.WriteAfterParse` | crates/sokudo-core/src/collider.rs:53-88 | Before any step, the record of a parsed collider gives back the parsed id and position, and for a rigid body the parsed rotation. |
| `Colliders.HashDependsOnlyOnId` | crates/sokudo-core/src/collider.rs:90-94 | Two colliders hash alike exactly when their ids are equal. |
| `Colliders.Collider.HashInput` | crates/sokudo-core/src/collider.rs:90-94 | The values written to the hasher: the id alone (no contract; `HashDependsOnlyOnId` states it). |
| `Colliders.Collide` | crates/sokudo-core/src/collider.rs:36-41 | Both colliders come back unchanged. |
| `Collision.ParticleCollisionConstraint.Bodies` | crates/sokudo-core/src/constraint/collision.rs:16-19 | Two bodies, the particle first and the rigid body second. |
| `Collision.CIgnoresBodies` | crates/sokudo-core/src/constraint/collision.rs:21-23 | The error is the contact depth, whatever bodies are passed. |
| `Collision.ParticleCollisionConstraint.C` | crates/sokudo-core/src/constraint/collision.rs:21-23 | The contact depth; the bodies are not read (no contract; `CIgnoresBodies` states it). |
| `Collision.ParticleCollisionConstraint.CGradients` | crates/sokudo-core/src/constraint/collision.rs:25-28 | One gradient per body. The rigid body's is the normal and the two sum to zero, so they have equal length. |
| `Collision.ParticleCollisionConstraint.InverseMasses` | crates/sokudo-core/src/constraint/collision.rs:30-45 | Empty exactly when the slice is not a particle followed by a rigid body. Otherwise there is one weight per body: zero when locked, else the particle's inverse mass and the rigid body's generalised inverse mass at `anchor2` along the normal. |
| `Collision.LockedBodiesWeighNothing` | crates/sokudo-core/src/constraint/collision.rs:41-44 | Two locked bodies both weigh zero. |
| `Collision.SwappedBodiesGiveNoWeights` | crates/sokudo-core/src/constraint/collision.rs:30-39 | A rigid body followed by a particle gives no weights. |
| `Collision.ParticleWeightFinite` | crates/sokudo-core/src/constraint/collision.rs:41-44 | An unlocked particle's weight is finite exactly when it has mass. |
| `Collision.RigidWeightOnNormalLine` | crates/sokudo-core/src/constraint/collision.rs:41-44 | An unlocked rigid body whose anchor lies on the normal's line through its centre weighs the reciprocal of its mass. |
| `Collision.ParticleCollisionConstraint.Anchors` | crates/sokudo-core/src/constraint/collision.rs:47-49 | One anchor per body, `anchor1` then `anchor2`. |
| `Collision.ParticleCollisionConstraint.Compliance` | crates/sokudo-core/src/constraint/collision.rs:51-54 | The stored compliance (no contract). |
| `Constraints.Constraint.Bodies` | crates/sokudo-core/src/constraint/mod.rs:9 | Every constraint acts on some body. |
| `Constraints.Constraint.C` | crates/sokudo-core/src/constraint/mod.rs:11-14 | Dispatches to the implementor's error (no contract; `StateIndependent` states that it does not read the bodies). |
| `Constraints.Constraint.Compliance` | crates/sokudo-core/src/constraint/mod.rs:25 | Dispatches to the implementor's compliance (no contract). |
| `Constraints.Constraint.CGradients` | crates/sokudo-core/src/constraint/mod.rs:16-21 | One gradient for each of the constraint's bodies. |
| `Constraints.Constraint.InverseMasses` | crates/sokudo-core/src/constraint/mod.rs:23 | Either nothing or one weight for each body, and the latter only when the slice holds one collider per body. |
| `Constraints.Constraint.Anchors` | crates/sokudo-core/src/constraint/collision.rs:47-49 | One anchor for each of the constraint's bodies. |
| `Constraints.StateIndependent` | crates/sokudo-core/src/constraint/collision.rs:21-28 | Neither the error nor the gradients depend on the colliders passed. |
| `Worlds.Lowered` | crates/sokudo-core/src/world.rs:11-15 | The collider moves down by 0.1 and nothing else about it changes. |
| `Worlds.World.Step` | crates/sokudo-core/src/world.rs:11-15 | Every collider, in place and in order, is lowered. The count, the order and `steps` are unchanged. |
| `Worlds.CollidersFromParsed` | crates/sokudo-core/src/world.rs:24-31 | One collider per parsed collider, in order, each converted by `Collider::from`. |
| `Worlds.World.FromParsed` | crates/sokudo-core/src/world.rs:24-31 | Copies `steps` and converts the colliders one to one. |
| `Worlds.Records` | crates/sokudo-core/src/world.rs:17-21 | One record per collider, in collider order. |
| `Worlds.World.State` | crates/sokudo-core/src/world.rs:17-21 | One record per collider in order, with record `i` carrying the id of collider `i`. It reads the world and changes nothing. |
| `Worlds.RecordOfLowered` | crates/sokudo-core/src/world.rs:11-21 | After a step a collider is written 0.1 lower, with the same id and rotation. |
| `Worlds.RecordsOfParsed` | crates/sokudo-core/src/world.rs:17-31 | The state of a world just built records the parsed ids and positions, in parsed order. |
| `Playback.AdvanceCases` | crates/sokudo-playback/src/player.rs:205-216 | Nothing changes until more than `dt` has passed. Otherwise the clock grows by `dt` and the step by one, or the step rewinds to 0 and the player pauses at the end of the history. |
| `Playback.Tick` | crates/sokudo-playback/src/player.rs:209-216 | One ungated advance: clock plus `dt`, step plus one, rewinding to 0 and pausing at the end of the history (no contract; `AdvanceCases` and `FullPass` state it). |
| `Playback.Advance` | crates/sokudo-playback/src/player.rs:205-216 | `Tick` once more than `dt` has passed since the playback clock, otherwise no change (no contract; the reference `UpdateWorldState` is proved against, with `AdvanceCases` and `AdvanceStaysInHistory` stating it). |
| `Playback.PressPlay` | crates/sokudo-playback/src/player.rs:176-186 | Space sets `Playing` and the clock to the elapsed time (no contract; the reference `SetPlayerStatePlaying` is proved against). |
| `Playback.PressPause` | crates/sokudo-playback/src/player.rs:188-195 | Space sets `Paused` (no contract; the reference `SetPlayerStatePaused` is proved against). |
| `Playback.PreUpdate` | crates/sokudo-playback/src/player.rs:18-25 | Paused: the play system only; playing: advance, then the pause system (no contract; the reference `RunPreUpdate` and `Frame` are proved against, with the lemmas below stating it). |
| `Playback.AdvanceStaysInHistory` | crates/sokudo-playback/src/player.rs:209-216 | From a step inside the history the cursor stays inside it, moving to the next step modulo the length. |
| `Playback.FullPass` | crates/sokudo-playback/src/player.rs:209-216 | Playing from record 0, advance `k` shows record `k`. The advance past the last record rewinds to 0 and pauses. The clock moves by `k·dt`. |
| `Playback.PausedDoesNotAdvance` | crates/sokudo-playback/src/player.rs:21-23 | While paused the cursor does not move. |
| `Playback.NoKeyNoToggle` | crates/sokudo-playback/src/player.rs:176-195 | Without Space a paused player is unchanged and a playing one only advances. |
| `Playback.PlayThenPause` | crates/sokudo-playback/src/player.rs:176-195 | Space while paused plays and restarts the clock at the elapsed time. Space again within `dt` pauses at the same record. |
| `Playback.PauseAndAdvanceCommute` | crates/sokudo-playback/src/player.rs:18-25 | The two unordered systems that run while playing give the same result in either order. |
| `Playback.PreUpdateStaysInHistory` | crates/sokudo-playback/src/player.rs:18-25 | A frame's PreUpdate keeps the cursor inside the history. |
| `Playback.Spawned` | crates/sokudo-playback/src/player.rs:137-170 | One entity per parsed collider, in order, at its parsed translation, rotation and scale. |
| `Playback.EntityMapLastWins` | crates/sokudo-playback/src/player.rs:137-173 | Every parsed id is mapped, and only those. Each maps to the entity of the last collider carrying it, so a later duplicate overwrites an earlier one. |
| `Playback.EntityMap` | crates/sokudo-playback/src/player.rs:137-173 | Each collider's id inserted with its entity, in collider order (no contract; `EntityMapLastWins` states its keys and values). |
| `Playback.Posed` | crates/sokudo-playback/src/player.rs:236-247 | Translation and rotation come from the record and the scale is kept. |
| `Playback.ApplyRecord` | crates/sokudo-playback/src/player.rs:227-247 | One record: skipped when its id has no entity or the entity has no transform, otherwise the entity is posed (no contract; `ApplyRecords`, `UntargetedEntityKept` and `LastRecordWins` state the folded effect). |
| `Playback.ApplyRecords` | crates/sokudo-playback/src/player.rs:227-249 | No entity is added or removed, and no scale changes. |
| `Playback.UntargetedEntityKept` | crates/sokudo-playback/src/player.rs:227-234 | An entity that no record's id maps to keeps its transform. |
| `Playback.LastRecordWins` | crates/sokudo-playback/src/player.rs:227-248 | A targeted entity ends with the translation and rotation of the last record targeting it, and its own scale. |
| `Playback.Player.constructor` | crates/sokudo-playback/src/player.rs:11-16 | The resources start at their defaults: step 0, clock 0, `dt` 0, paused, no entities. |
| `Playback.Player.SetupInitialState` | crates/sokudo-playback/src/player.rs:127-174 | Copies `dt`, spawns one entity per parsed collider at its placement and maps the ids, leaving the cursor alone. |
| `Playback.Player.UpdateWorldState` | crates/sokudo-playback/src/player.rs:197-217 | The cursor moves as `Advance` says, keeping it inside the history. |
| `Playback.Player.SetPlayerStatePlaying` | crates/sokudo-playback/src/player.rs:176-186 | Space sets `Playing` and resets the clock to the elapsed time. Otherwise nothing changes. |
| `Playback.Player.SetPlayerStatePaused` | crates/sokudo-playback/src/player.rs:188-195 | Space sets `Paused`. Otherwise nothing changes. |
| `Playback.Player.RunPreUpdate` | crates/sokudo-playback/src/player.rs:18-25 | Each system is gated on the state at the start of the frame. |
| `Playback.Player.UpdateColliders` | crates/sokudo-playback/src/player.rs:219-249 | The current record's poses are copied onto the mapped entities, in record order. |
| `Playback.Player.Frame` | crates/sokudo-playback/src/player.rs:17-31 | PreUpdate, then Update copies the poses when playing and some collider entity exists. The history must be non-empty only when that copy happens. |

## Left out

- Floating point: all arithmetic is exact over `real`.
  - Rounding is not modelled, for example in `- 0.1` and `+ dt`.
  - Infinities and NaN are one `NonFinite` value.
- `RigidBodies.InertiaTensor.IsNan` is always false. The model's matrices hold reals, and the one
  operation that produces NaN entries in the source (`from_tensor` and `tensor` of a singular
  matrix) gives `None` here.
- `InertiaTensor::inverse_mut` is not modelled. It hands out a mutable reference into the tensor.
- `RigidBodies.RigidBody.ComputeVertices` and `RigidBodies.RigidBody.ComputeInertiaTensor` return
  the updated body rather than updating it through `&mut self`. The body lives by value inside
  its collider, so no aliasing is lost.
- `shape.rs` is not part of this model. `Shape::vertices` and `Shape::moments` are the
  parameters of a `Geometry` value.
- `particle.rs` is not part of this model. A particle carries its mass, and its inverse mass is
  taken to be the reciprocal.
- `contact.rs` is not part of this model. A contact keeps the normal, depth and anchors that the
  constraint reads.
- `transform.rs` is not part of this model; no modelled operation reads it once the two repairs
  above are made.
- `glam` is not part of this model. `Mat3::from_quat` is glam's rotation-matrix formula, and
  `WriteTransform::from_translate` is taken to have the identity rotation.
- The `Constraint` trait is an enumeration of its implementors, here only the particle
  constraint.
- Constraints.Constraint.CGradients: the trait's promise that each gradient points where C
  grows fastest is not stated, because the particle constraint's C does not read the bodies.
- Constraints.Constraint.C: the promise that C is zero exactly at satisfaction is not stated,
  because the contact type is not modelled, so satisfaction has no meaning apart from the
  depth itself.
- `RigidBodyCollisionConstraint` is a record with no behaviour; it is declared and nothing is
  stated about it.
- The `inspector` argument of `collide` is dropped, since the empty body never uses it.
- File reading and writing in `sokudo_io`, `src/main.rs` (command-line dispatch) and
  `crates/sokudo-core/src/lib.rs` (module declarations) are left out.
- The core and the player read differently shaped parsed colliders. They are modelled as two
  records: `ParsedCollider` and `PlacedCollider`.
- Lights, meshes, materials and picking in `player.rs` are left out.
- Bevy's scheduler is replaced by `Playback.Player.Frame`. A requested state takes effect at
  once, but the PreUpdate systems are gated on the state the frame began in.
- Time and keyboard input are parameters: the elapsed seconds and whether Space was just
  pressed.
- Entities are numbered in spawn order. An entity's `Transform` is always present, so the
  skipped `get_mut` failure never happens.
- `Playback.Player.UpdateColliders`: requires the cursor to be inside the history, since
  `ReadWorldStateHistory::get` is taken to be indexing. The invariant kept by every other method
  gives this whenever the history is non-empty.
- `Playback.Player.SetupInitialState`: requires the resources as the plugin initialises them,
  since the Startup system runs once, before any other.
