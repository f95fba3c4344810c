/** The small part of the glm vector and rotation algebra the kinematic chain
    relies on, over exact reals instead of single-precision floats.

    A rotation is represented by its 3x3 matrix, row by row: the matrix that
    glm::toMat4 builds from a unit quaternion.  Composing quaternions
    (`q1 * q2`) corresponds to multiplying their matrices, and the inverse
    of a unit quaternion (its conjugate) to the transposed matrix. */
module Geometry {

  datatype Vec3 = Vec3(x: real, y: real, z: real)

  const Zero: Vec3 := Vec3(0.0, 0.0, 0.0)

  function Add(u: Vec3, v: Vec3): Vec3 {
    Vec3(u.x + v.x, u.y + v.y, u.z + v.z)
  }

  function Sub(u: Vec3, v: Vec3): Vec3 {
    Vec3(u.x - v.x, u.y - v.y, u.z - v.z)
  }

  function Scale(k: real, v: Vec3): Vec3 {
    Vec3(k * v.x, k * v.y, k * v.z)
  }

  function Dot(u: Vec3, v: Vec3): real {
    u.x * v.x + u.y * v.y + u.z * v.z
  }

  /** A rotation as the rows of its matrix. */
  datatype Rot = Rot(r0: Vec3, r1: Vec3, r2: Vec3)

  /** glm::quat(1.0f, glm::vec3()): the rotation by zero degrees. */
  const Identity: Rot := Rot(Vec3(1.0, 0.0, 0.0), Vec3(0.0, 1.0, 0.0), Vec3(0.0, 0.0, 1.0))

  /** The rotation applied to a point (the upper 3x3 block of a mat4 times vec4(v, 1)). */
  function Apply(m: Rot, v: Vec3): Vec3 {
    Vec3(Dot(m.r0, v), Dot(m.r1, v), Dot(m.r2, v))
  }

  /** The transposed matrix: rows become columns. */
  function Transpose(m: Rot): Rot {
    Rot(Vec3(m.r0.x, m.r1.x, m.r2.x),
        Vec3(m.r0.y, m.r1.y, m.r2.y),
        Vec3(m.r0.z, m.r1.z, m.r2.z))
  }

  /** glm::inverse of a unit quaternion (its conjugate), as a matrix: the
      transpose, which undoes the rotation when the matrix is orthonormal
      (ApplyInverseOrthonormal). */
  function Inverse(m: Rot): Rot {
    Transpose(m)
  }

  /** Quaternion product `a * b`: apply b first, then a.  Row i of the
      product matrix is row i of a multiplied by b. */
  function Compose(a: Rot, b: Rot): Rot {
    var bt := Transpose(b);
    Rot(Apply(bt, a.r0), Apply(bt, a.r1), Apply(bt, a.r2))
  }

  /** Rows of unit length and pairwise orthogonal: a proper rotation matrix
      (up to reflection), the image of a unit quaternion. */
  ghost predicate Orthonormal(m: Rot) {
    && Dot(m.r0, m.r0) == 1.0 && Dot(m.r1, m.r1) == 1.0 && Dot(m.r2, m.r2) == 1.0
    && Dot(m.r0, m.r1) == 0.0 && Dot(m.r0, m.r2) == 0.0 && Dot(m.r1, m.r2) == 0.0
  }

  lemma ApplyIdentity(v: Vec3)
    ensures Apply(Identity, v) == v
  {
  }

  /** The composition law: applying `a * b` is applying b, then a. */
  lemma ApplyCompose(a: Rot, b: Rot, v: Vec3)
    ensures Apply(Compose(a, b), v) == Apply(a, Apply(b, v))
  {
    var c := Compose(a, b);
    var w := Apply(b, v);
    assert Dot(c.r0, v) == Dot(a.r0, w);
    assert Dot(c.r1, v) == Dot(a.r1, w);
    assert Dot(c.r2, v) == Dot(a.r2, w);
  }

  /** A rotation is linear: it distributes over vector addition. */
  lemma ApplyAdd(m: Rot, u: Vec3, v: Vec3)
    ensures Apply(m, Add(u, v)) == Add(Apply(m, u), Apply(m, v))
  {
  }

  /** A rotation commutes with scaling. */
  lemma ApplyScale(m: Rot, k: real, v: Vec3)
    ensures Apply(m, Scale(k, v)) == Scale(k, Apply(m, v))
  {
    assert Dot(m.r0, Scale(k, v)) == k * Dot(m.r0, v);
    assert Dot(m.r1, Scale(k, v)) == k * Dot(m.r1, v);
    assert Dot(m.r2, Scale(k, v)) == k * Dot(m.r2, v);
  }

  /** For an orthonormal matrix the transpose undoes the rotation:
      rotating back into the local frame and out again is the identity. */
  lemma ApplyInverseOrthonormal(m: Rot, v: Vec3)
    requires Orthonormal(m)
    ensures Apply(m, Apply(Inverse(m), v)) == v
  {
    var w := Apply(Inverse(m), v);
    assert w == Combination(v.x, m.r0, v.y, m.r1, v.z, m.r2);
    DotCombination(m.r0, v.x, m.r0, v.y, m.r1, v.z, m.r2);
    DotCombination(m.r1, v.x, m.r0, v.y, m.r1, v.z, m.r2);
    DotCombination(m.r2, v.x, m.r0, v.y, m.r1, v.z, m.r2);
  }

  function Combination(p: real, u: Vec3, q: real, v: Vec3, r: real, w: Vec3): Vec3 {
    Add(Add(Scale(p, u), Scale(q, v)), Scale(r, w))
  }

  lemma DotCombination(a: Vec3, p: real, u: Vec3, q: real, v: Vec3, r: real, w: Vec3)
    ensures Dot(a, Combination(p, u, q, v, r, w)) == p * Dot(a, u) + q * Dot(a, v) + r * Dot(a, w)
  {
    assert Dot(a, Scale(p, u)) == p * Dot(a, u);
    assert Dot(a, Scale(q, v)) == q * Dot(a, v);
    assert Dot(a, Scale(r, w)) == r * Dot(a, w);
  }
}
