/** The 3-element vector routines of vec3f.c.  A `vec3f*` is an array of
    length 3; routines that write a destination build the result in a
    fresh local `tmp` and copy it last, so `dest` may be one of the
    inputs. */
module Vec3f {
  import Vector

  /** vec3f_zero: all three components become 0. */
  method Zero(vec: array<real>)
    requires vec.Length == 3
    modifies vec
    ensures vec[..] == Vector.Zero(3)
  {
    forall i | 0 <= i < vec.Length {
      vec[i] := 0.0;
    }
  }

  /** vec3f_identity: the guard `axis > 0 && axis < 3` admits axes 1 and 2
      only; for any other axis, 0 included, the vector is left as it was. */
  method Identity(vec: array<real>, axis: int)
    requires vec.Length == 3
    modifies vec
    ensures 0 < axis < 3 ==> vec[..] == Vector.Unit(3, axis)
    ensures !(0 < axis < 3) ==> vec[..] == old(vec[..])
  {
    if axis > 0 && axis < 3 {
      Zero(vec);
      vec[axis] := 1.0;
    }
  }

  method Add(a: array<real>, b: array<real>, dest: array<real>)
    requires a.Length == 3 && b.Length == 3 && dest.Length == 3
    modifies dest
    ensures dest[..] == Vector.Add(old(a[..]), old(b[..]))
  {
    var tmp := new real[3];
    Vector.CopyInto(a, tmp);
    tmp[0] := tmp[0] + b[0];
    tmp[1] := tmp[1] + b[1];
    tmp[2] := tmp[2] + b[2];
    ghost var want := Vector.Add(old(a[..]), old(b[..]));
    assert tmp[0] == want[0] && tmp[1] == want[1] && tmp[2] == want[2];
    Vector.CopyInto(tmp, dest);
  }

  method Scale(vec: array<real>, scalar: real, dest: array<real>)
    requires vec.Length == 3 && dest.Length == 3
    modifies dest
    ensures dest[..] == Vector.Scale(old(vec[..]), scalar)
  {
    var tmp := new real[3];
    Vector.CopyInto(vec, tmp);
    tmp[0] := tmp[0] * scalar;
    tmp[1] := tmp[1] * scalar;
    tmp[2] := tmp[2] * scalar;
    ghost var want := Vector.Scale(old(vec[..]), scalar);
    assert tmp[0] == want[0] && tmp[1] == want[1] && tmp[2] == want[2];
    Vector.CopyInto(tmp, dest);
  }

  /** vec3f_scalar_prod is the dot product. */
  function ScalarProd(a: Vector.Vec3, b: Vector.Vec3): (r: real)
    ensures r == Vector.Dot(a, b)
  {
    assert a[..2][..1] == a[..1] && b[..2][..1] == b[..1];
    assert Vector.Dot(a[..1], b[..1]) == a[0] * b[0];
    assert Vector.Dot(a[..2], b[..2]) == a[0] * b[0] + a[1] * b[1];
    a[0] * b[0] + a[1] * b[1] + a[2] * b[2]
  }

  /** vec3f_sqr_mag: the dot product of the vector with itself, never
      negative. */
  function SqrMag(v: Vector.Vec3): (r: real)
    ensures r == Vector.Dot(v, v) && r >= 0.0
  {
    Vector.DotSelfNonnegative(v);
    ScalarProd(v, v)
  }

  /** The value vec3f_vector_prod writes.  Its x and z components are
      those of the cross product; its y component is a[0]*b[2] - a[2]*b[0],
      the negation of the cross product's (see VectorProductNegatesY). */
  function VectorProduct(a: Vector.Vec3, b: Vector.Vec3): Vector.Vec3 {
    [a[1] * b[2] - a[2] * b[1],
     a[0] * b[2] - a[2] * b[0],
     a[0] * b[1] - a[1] * b[0]]
  }

  /** vec3f_vector_prod: computed into `tmp` before `dest` is written, so
      `dest` may be `a` or `b`. */
  method VectorProd(a: array<real>, b: array<real>, dest: array<real>)
    requires a.Length == 3 && b.Length == 3 && dest.Length == 3
    modifies dest
    ensures dest[..] == VectorProduct(old(a[..]), old(b[..]))
  {
    var tmp := new real[3];
    tmp[0] := a[1] * b[2] - a[2] * b[1];
    tmp[1] := a[0] * b[2] - a[2] * b[0];
    tmp[2] := a[0] * b[1] - a[1] * b[0];
    ghost var want := VectorProduct(old(a[..]), old(b[..]));
    assert tmp[0] == want[0] && tmp[1] == want[1] && tmp[2] == want[2];
    Vector.CopyInto(tmp, dest);
  }

  /** The textbook cross product, the corrected counterpart of
      VectorProduct. */
  function Cross(a: Vector.Vec3, b: Vector.Vec3): (r: Vector.Vec3)
    ensures ScalarProd(a, r) == 0.0 && ScalarProd(b, r) == 0.0
  {
    [a[1] * b[2] - a[2] * b[1],
     a[2] * b[0] - a[0] * b[2],
     a[0] * b[1] - a[1] * b[0]]
  }

  /** The library's product differs from the cross product in the sign of
      the y component only. */
  lemma VectorProductNegatesY(a: Vector.Vec3, b: Vector.Vec3)
    ensures VectorProduct(a, b)[0] == Cross(a, b)[0]
    ensures VectorProduct(a, b)[1] == -Cross(a, b)[1]
    ensures VectorProduct(a, b)[2] == Cross(a, b)[2]
  {
  }

  /** What the library's product keeps of the cross product's laws: a
      vector's product with itself is zero, and swapping the operands
      negates the result. */
  lemma VectorProductLaws(a: Vector.Vec3, b: Vector.Vec3)
    ensures VectorProduct(a, a) == Vector.Zero(3)
    ensures VectorProduct(b, a) == Vector.Scale(VectorProduct(a, b), -1.0)
  {
    assert VectorProduct(a, a) == [0.0, 0.0, 0.0];
  }

  /** Witness: for the x and z axes the library gives +y where the cross
      product gives -y, and its result is not orthogonal to its operands. */
  lemma VectorProductWitness()
    ensures VectorProduct([1.0, 0.0, 0.0], [0.0, 0.0, 1.0]) == [0.0, 1.0, 0.0]
    ensures Cross([1.0, 0.0, 0.0], [0.0, 0.0, 1.0]) == [0.0, -1.0, 0.0]
    ensures ScalarProd([1.0, 1.0, 0.0], VectorProduct([1.0, 1.0, 0.0], [0.0, 0.0, 1.0])) == 2.0
  {
  }
}
