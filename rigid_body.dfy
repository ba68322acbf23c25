/** `rigid_body.rs`: the rigid-body variant of a collider body and its inertia tensor. */
module RigidBodies {
  import opened Glam
  import SokudoIo

  /** `Shape`, converted from the parsed shape kind. */
  datatype Shape = Cuboid

  function ShapeFromParsed(s: SokudoIo.ParsedShape): Shape {
    match s
    case Cuboid => Shape.Cuboid
  }

  /** What `shape.rs` derives from a shape, which is not part of this model: `vertices`
      samples the shape at a resolution, `moments` gives the principal moments of inertia of
      the shape at a scale. The operations below take it as a parameter. */
  datatype Geometry = Geometry(vertices: (Shape, UVec3) -> seq<Vec3>, moments: (Shape, Vec3) -> Vec3)

  /** `InertiaTensor::INFINITY`: the zero inverse, an immovable body. */
  const Infinity: InertiaTensor := InertiaTensor(MatZero)

  predicate AllNonZero(v: Vec3) {
    v.x != 0.0 && v.y != 0.0 && v.z != 0.0
  }

  /** An inertia tensor, of which only the inverse is stored. */
  datatype InertiaTensor = InertiaTensor(inverse: Mat3) {

    /** `InertiaTensor::default()`. */
    static function Default(): InertiaTensor {
      Infinity
    }

    /** `InertiaTensor::new`: the diagonal inverse of the principal moments. The finiteness
        test is on the whole reciprocal vector, so one zero moment gives `Infinity`. */
    static function New(principalMoments: Vec3): (r: InertiaTensor)
      ensures AllNonZero(principalMoments) ==>
        && r.inverse == FromDiagonal(Vec3(1.0 / principalMoments.x, 1.0 / principalMoments.y, 1.0 / principalMoments.z))
        && r.inverse.r0.x * principalMoments.x == 1.0
        && r.inverse.r1.y * principalMoments.y == 1.0
        && r.inverse.r2.z * principalMoments.z == 1.0
      ensures !AllNonZero(principalMoments) ==> r == Infinity
      ensures r.IsInfinite() <==> !AllNonZero(principalMoments)
    {
      var rx, ry, rz := Recip(principalMoments.x), Recip(principalMoments.y), Recip(principalMoments.z);
      FromInverseTensor(FromDiagonal(
        if rx.Finite? && ry.Finite? && rz.Finite? then Vec3(rx.value, ry.value, rz.value) else VecZero))
    }

    /** `InertiaTensor::from_tensor`. `None` is the tensor with non-finite entries that a
        singular matrix gives. */
    static function FromTensor(tensor: Mat3): (r: Option<InertiaTensor>)
      ensures r.Some? <==> Determinant(tensor) != 0.0
      ensures r.Some? ==> Some(r.value.Inverse()) == Glam.Inverse(tensor)
      ensures r.Some? ==> Mul(tensor, r.value.Inverse()) == MatIdentity
    {
      match Glam.Inverse(tensor)
      case None => None
      case Some(i) => Some(FromInverseTensor(i))
    }

    /** `InertiaTensor::from_inverse_tensor`. */
    static function FromInverseTensor(inverseTensor: Mat3): InertiaTensor {
      InertiaTensor(inverseTensor)
    }

    /** `InertiaTensor::inverse`: the stored inverse. */
    function Inverse(): Mat3 {
      inverse
    }

    /** `InertiaTensor::tensor`: the stored inverse, inverted again. */
    function Tensor(): (r: Option<Mat3>)
      ensures r.Some? <==> Determinant(inverse) != 0.0
      ensures r.Some? ==> Mul(inverse, r.value) == MatIdentity
      ensures IsInfinite() ==> r == None
    {
      Glam.Inverse(inverse)
    }

    /** `InertiaTensor::rotate`: conjugates the inverse by the rotation matrix of `q`. */
    function Rotate(q: Quat): (r: InertiaTensor)
      ensures q == QuatIdentity ==> r == this
      ensures IsInfinite() ==> r.IsInfinite()
    {
      var m := FromQuat(q);
      FromQuatIdentity();
      MulIdentityLeft(inverse);
      MulIdentityRight(inverse);
      MulZeroRight(m);
      MulZeroLeft(Transpose(m));
      FromInverseTensor(Mul(Mul(m, inverse), Transpose(m)))
    }

    predicate IsFinite() {
      !IsInfinite() && !IsNan()
    }

    /** Equality with `Infinity`. */
    predicate IsInfinite() {
      this == Infinity
    }

    /** The stored inverse is a real matrix, so it never holds a NaN. */
    predicate IsNan() {
      false
    }
  }

  /** `default()` is `INFINITY`, whose stored inverse is the zero matrix. */
  lemma DefaultIsInfinity()
    ensures InertiaTensor.Default() == Infinity
    ensures InertiaTensor.Default().Inverse() == MatZero
  {
  }

  /** A tensor is infinite exactly when its stored inverse is the zero matrix, and finite
      exactly when it is neither infinite nor NaN. */
  lemma InfinityIsZeroInverse(t: InertiaTensor)
    ensures t.IsInfinite() <==> t.Inverse() == MatZero
    ensures t.IsFinite() <==> !t.IsInfinite() && !t.IsNan()
  {
  }

  /** Storing an inverse and reading it back gives the same matrix. */
  lemma InverseOfFromInverseTensor(m: Mat3)
    ensures InertiaTensor.FromInverseTensor(m).Inverse() == m
  {
  }

  /** Rotating conjugates by the rotation matrix `R = from_quat(q)`: the rotated inverse
      has at `v` the quadratic form the stored inverse has at `Rᵀ v`. */
  lemma RotateConjugates(t: InertiaTensor, q: Quat, v: Vec3)
    ensures Dot(v, MulVec(t.Rotate(q).Inverse(), v))
         == Dot(MulVec(Transpose(FromQuat(q)), v), MulVec(t.Inverse(), MulVec(Transpose(FromQuat(q)), v)))
  {
    var m := FromQuat(q);
    assert t.Rotate(q).Inverse() == Mul(Mul(m, t.inverse), Transpose(m));
    ConjugatedQuadraticForm(m, t.inverse, v);
  }

  /** Rotation keeps an inverse tensor positive semidefinite. */
  lemma RotateKeepsPositiveSemidefinite(t: InertiaTensor, q: Quat)
    requires PositiveSemidefinite(t.Inverse())
    ensures PositiveSemidefinite(t.Rotate(q).Inverse())
  {
    forall v ensures Dot(v, MulVec(t.Rotate(q).Inverse(), v)) >= 0.0 {
      RotateConjugates(t, q, v);
      var u := MulVec(Transpose(FromQuat(q)), v);
      assert Dot(u, MulVec(t.Inverse(), u)) >= 0.0;
    }
  }

  /** Non-negative principal moments give a positive semidefinite inverse tensor, whether
      all of them are non-zero or `new` falls back to `INFINITY`. */
  lemma NewPositiveSemidefinite(moments: Vec3)
    requires moments.x >= 0.0 && moments.y >= 0.0 && moments.z >= 0.0
    ensures PositiveSemidefinite(InertiaTensor.New(moments).Inverse())
  {
    if AllNonZero(moments) {
      var d := Vec3(1.0 / moments.x, 1.0 / moments.y, 1.0 / moments.z);
      assert d.x >= 0.0 && d.y >= 0.0 && d.z >= 0.0;
      DiagonalPositiveSemidefinite(d);
    } else {
      assert InertiaTensor.New(moments).Inverse() == FromDiagonal(VecZero);
      DiagonalPositiveSemidefinite(VecZero);
    }
  }

  /** `RigidBody::from` keeps an all-zero vertex resolution from producing no vertices. */
  function NormalizedResolution(res: UVec3): (r: UVec3)
    ensures r != UVecZero
    ensures res == UVecZero ==> r == UVecOne
    ensures res != UVecZero ==> r == res
  {
    if res == UVecZero then UVecOne else res
  }

  /** Only the all-zero resolution is replaced: one with some zero components is kept. */
  lemma PartlyZeroResolutionKept(res: UVec3)
    requires res != UVecZero && (res.x == 0 || res.y == 0 || res.z == 0)
    ensures NormalizedResolution(res) == res
  {
  }

  datatype RigidBody = RigidBody(
    shape: Shape,
    scale: Vec3,
    mass: real,
    vertexResolution: UVec3,
    vertices: seq<Vec3>,
    /** The inverse inertia tensor, in local coordinates. */
    inertiaTensor: InertiaTensor,
    rotation: Quat,
    previousRotation: Quat,
    angularVelocity: Vec3,
    previousAngularVelocity: Vec3)
  {
    /** `RigidBody::compute_vertices`: fills an empty vertex cache, and nothing else. */
    function ComputeVertices(g: Geometry): (r: RigidBody)
      ensures |vertices| != 0 ==> r == this
      ensures |vertices| == 0 ==> r == this.(vertices := g.vertices(shape, vertexResolution))
    {
      if |vertices| == 0 then this.(vertices := g.vertices(shape, vertexResolution)) else this
    }

    /** `RigidBody::compute_inertia_tensor`: rebuilds the tensor from the moments of the
        current shape and scale, and nothing else. */
    function ComputeInertiaTensor(g: Geometry): (r: RigidBody)
      ensures r == this.(inertiaTensor := InertiaTensor.New(g.moments(shape, scale)))
      ensures r.inertiaTensor.IsInfinite() <==> !AllNonZero(g.moments(shape, scale))
    {
      this.(inertiaTensor := InertiaTensor.New(g.moments(shape, scale)))
    }

    /** `RigidBody::global_inverse_inertia`: the inverse tensor rotated into world axes. */
    function GlobalInverseInertia(): Mat3 {
      inertiaTensor.Rotate(rotation).Inverse()
    }

    /** `RigidBody::positional_inverse_mass`: the generalised inverse mass at offset `r`
        along `n`, with the world-axis inverse tensor of this body. */
    function PositionalInverseMass(r: Vec3, n: Vec3): (w: Float)
      ensures w.Finite? <==> mass != 0.0
    {
      GeneralisedInverseMass(mass, GlobalInverseInertia(), r, n)
    }

    /** `RigidBody::from(ParsedRigidBody)`. */
    static function FromParsed(p: SokudoIo.ParsedRigidBody): (r: RigidBody)
      ensures r.shape == ShapeFromParsed(p.shape)
      ensures r.mass == p.mass && r.vertices == p.vertices && r.scale == p.transform.scale
      ensures r.vertexResolution == NormalizedResolution(p.vertexResolution)
      ensures r.rotation == p.transform.rotate && r.previousRotation == p.transform.rotate
      ensures r.angularVelocity == VecZero && r.previousAngularVelocity == VecZero
      ensures r.inertiaTensor.IsInfinite()
    {
      RigidBody(
        shape := ShapeFromParsed(p.shape),
        scale := p.transform.scale,
        mass := p.mass,
        vertexResolution := NormalizedResolution(p.vertexResolution),
        vertices := p.vertices,
        inertiaTensor := Infinity,
        rotation := p.transform.rotate,
        previousRotation := p.transform.rotate,
        angularVelocity := VecZero,
        previousAngularVelocity := VecZero)
    }
  }

  /** A second `compute_vertices` changes nothing. */
  lemma ComputeVerticesIdempotent(rb: RigidBody, g: Geometry)
    ensures rb.ComputeVertices(g).ComputeVertices(g) == rb.ComputeVertices(g)
  {
  }

  /** `1/m + (r × n) · (G (r × n))` for mass `m` and world-axis inverse tensor `G`.
      It is non-finite exactly when the mass is zero. */
  function GeneralisedInverseMass(mass: real, g: Mat3, r: Vec3, n: Vec3): (w: Float)
    ensures w.Finite? <==> mass != 0.0
    ensures w.Finite? ==> w.value == 1.0 / mass + Dot(Cross(r, n), MulVec(g, Cross(r, n)))
  {
    var rCrossN := Cross(r, n);
    FloatAdd(Recip(mass), Finite(Dot(rCrossN, MulVec(g, rCrossN))))
  }

  /** Without angular coupling only the linear part `1/m` remains. */
  lemma GeneralisedInverseMassWithoutCoupling(mass: real, g: Mat3, r: Vec3, n: Vec3)
    requires Cross(r, n) == VecZero
    ensures GeneralisedInverseMass(mass, g, r, n) == Recip(mass)
  {
    QuadraticFormOfZero(g);
    FloatAddZero(Recip(mass));
  }

  /** Angular coupling through a positive semidefinite tensor only adds inverse mass. */
  lemma GeneralisedInverseMassAtLeastLinear(mass: real, g: Mat3, r: Vec3, n: Vec3)
    requires PositiveSemidefinite(g)
    ensures GeneralisedInverseMass(mass, g, r, n).Finite? ==> GeneralisedInverseMass(mass, g, r, n).value >= 1.0 / mass
  {
    assert Dot(Cross(r, n), MulVec(g, Cross(r, n))) >= 0.0;
  }

  /** A body whose local inverse tensor is positive semidefinite (such as one computed from
      non-negative moments) is never lighter at an offset than at its centre. */
  lemma PositionalInverseMassAtLeastLinear(rb: RigidBody, r: Vec3, n: Vec3)
    requires PositiveSemidefinite(rb.inertiaTensor.Inverse())
    ensures rb.PositionalInverseMass(r, n).Finite? ==> rb.PositionalInverseMass(r, n).value >= 1.0 / rb.mass
  {
    RotateKeepsPositiveSemidefinite(rb.inertiaTensor, rb.rotation);
    GeneralisedInverseMassAtLeastLinear(rb.mass, rb.GlobalInverseInertia(), r, n);
  }

  /** After `compute_inertia_tensor` from non-negative moments, the generalised inverse mass
      is at least the linear one, in any orientation. */
  lemma ComputedTensorAtLeastLinear(rb: RigidBody, g: Geometry, r: Vec3, n: Vec3)
    requires var m := g.moments(rb.shape, rb.scale); m.x >= 0.0 && m.y >= 0.0 && m.z >= 0.0
    ensures var w := rb.ComputeInertiaTensor(g).PositionalInverseMass(r, n); w.Finite? ==> w.value >= 1.0 / rb.mass
  {
    NewPositiveSemidefinite(g.moments(rb.shape, rb.scale));
    PositionalInverseMassAtLeastLinear(rb.ComputeInertiaTensor(g), r, n);
  }

  /** A correction whose line passes through the centre of mass sees only the linear
      inverse mass. */
  lemma PositionalInverseMassThroughCentre(rb: RigidBody, r: Vec3, n: Vec3)
    requires Cross(r, n) == VecZero
    ensures rb.PositionalInverseMass(r, n) == Recip(rb.mass)
  {
    GeneralisedInverseMassWithoutCoupling(rb.mass, rb.GlobalInverseInertia(), r, n);
  }

  /** In particular when the offset is parallel to the direction. */
  lemma PositionalInverseMassParallel(rb: RigidBody, r: Vec3, k: real)
    ensures rb.PositionalInverseMass(r, Scale(k, r)) == Recip(rb.mass)
  {
    CrossParallel(r, k);
    PositionalInverseMassThroughCentre(rb, r, Scale(k, r));
  }

  /** A body whose tensor is `Infinity` does not rotate, so at any offset and in any direction
      it has only the linear inverse mass. */
  lemma PositionalInverseMassOfInfiniteTensor(rb: RigidBody, r: Vec3, n: Vec3)
    requires rb.inertiaTensor.IsInfinite()
    ensures rb.GlobalInverseInertia() == MatZero
    ensures rb.PositionalInverseMass(r, n) == Recip(rb.mass)
  {
  }

  /** With no rotation the world-axis inverse tensor is the local one. */
  lemma GlobalInverseInertiaUnrotated(rb: RigidBody)
    requires rb.rotation == QuatIdentity
    ensures rb.GlobalInverseInertia() == rb.inertiaTensor.Inverse()
  {
  }
}
