/** The 2-element vector routines of vec2f.c.  A `vec2f*` is an array of
    length 2; routines that write a destination build the result in a
    fresh local `tmp` and copy it last, so `dest` may be one of the
    inputs. */
module Vec2f {
  import Vector

  /** vec2f_zero: both components become 0. */
  method Zero(vec: array<real>)
    requires vec.Length == 2
    modifies vec
    ensures vec[..] == Vector.Zero(2)
  {
    forall i | 0 <= i < vec.Length {
      vec[i] := 0.0;
    }
  }

  /** vec2f_identity: the guard `axis > 0 && axis < 2` admits axis 1 only;
      for any other axis, 0 included, the vector is left as it was. */
  method Identity(vec: array<real>, axis: int)
    requires vec.Length == 2
    modifies vec
    ensures 0 < axis < 2 ==> vec[..] == Vector.Unit(2, axis)
    ensures !(0 < axis < 2) ==> vec[..] == old(vec[..])
  {
    if axis > 0 && axis < 2 {
      Zero(vec);
      vec[axis] := 1.0;
    }
  }

  method Add(a: array<real>, b: array<real>, dest: array<real>)
    requires a.Length == 2 && b.Length == 2 && dest.Length == 2
    modifies dest
    ensures dest[..] == Vector.Add(old(a[..]), old(b[..]))
  {
    var tmp := new real[2];
    Vector.CopyInto(a, tmp);
    tmp[0] := tmp[0] + b[0];
    tmp[1] := tmp[1] + b[1];
    Vector.CopyInto(tmp, dest);
  }

  method Scale(vec: array<real>, scalar: real, dest: array<real>)
    requires vec.Length == 2 && dest.Length == 2
    modifies dest
    ensures dest[..] == Vector.Scale(old(vec[..]), scalar)
  {
    var tmp := new real[2];
    Vector.CopyInto(vec, tmp);
    tmp[0] := tmp[0] * scalar;
    tmp[1] := tmp[1] * scalar;
    ghost var want := Vector.Scale(old(vec[..]), scalar);
    assert tmp[0] == want[0] && tmp[1] == want[1];
    assert tmp[..] == want;
    Vector.CopyInto(tmp, dest);
  }

  /** vec2f_scalar_prod is the dot product. */
  function ScalarProd(a: Vector.Vec2, b: Vector.Vec2): (r: real)
    ensures r == Vector.Dot(a, b)
  {
    assert Vector.Dot(a[..1], b[..1]) == a[0] * b[0];
    a[0] * b[0] + a[1] * b[1]
  }

  /** vec2f_sqr_mag: the dot product of the vector with itself, never
      negative. */
  function SqrMag(v: Vector.Vec2): (r: real)
    ensures r == Vector.Dot(v, v) && r >= 0.0
  {
    Vector.DotSelfNonnegative(v);
    ScalarProd(v, v)
  }
}
