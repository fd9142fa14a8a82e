/** The 4-element vector routines of vec4f.c.  A `vec4f*` is an array of
    length 4; routines that write a destination build the result in a
    fresh local `tmp` and copy it last, so `dest` may be one of the
    inputs. */
module Vec4f {
  import Vector

  /** vec4f_zero: all four components become 0. */
  method Zero(vec: array<real>)
    requires vec.Length == 4
    modifies vec
    ensures vec[..] == Vector.Zero(4)
  {
    forall i | 0 <= i < vec.Length {
      vec[i] := 0.0;
    }
  }

  /** vec4f_identity: the guard `axis > 0 && axis < 4` admits axes 1 to 3
      only; for any other axis, 0 included, the vector is left as it was. */
  method Identity(vec: array<real>, axis: int)
    requires vec.Length == 4
    modifies vec
    ensures 0 < axis < 4 ==> vec[..] == Vector.Unit(4, axis)
    ensures !(0 < axis < 4) ==> vec[..] == old(vec[..])
  {
    if axis > 0 && axis < 4 {
      Zero(vec);
      vec[axis] := 1.0;
    }
  }

  method Add(a: array<real>, b: array<real>, dest: array<real>)
    requires a.Length == 4 && b.Length == 4 && dest.Length == 4
    modifies dest
    ensures dest[..] == Vector.Add(old(a[..]), old(b[..]))
  {
    var tmp := new real[4];
    Vector.CopyInto(a, tmp);
    tmp[0] := tmp[0] + b[0];
    tmp[1] := tmp[1] + b[1];
    tmp[2] := tmp[2] + b[2];
    tmp[3] := tmp[3] + b[3];
    ghost var want := Vector.Add(old(a[..]), old(b[..]));
    assert tmp[0] == want[0] && tmp[1] == want[1] && tmp[2] == want[2] && tmp[3] == want[3];
    Vector.CopyInto(tmp, dest);
  }

  method Scale(vec: array<real>, scalar: real, dest: array<real>)
    requires vec.Length == 4 && dest.Length == 4
    modifies dest
    ensures dest[..] == Vector.Scale(old(vec[..]), scalar)
  {
    var tmp := new real[4];
    Vector.CopyInto(vec, tmp);
    tmp[0] := tmp[0] * scalar;
    tmp[1] := tmp[1] * scalar;
    tmp[2] := tmp[2] * scalar;
    tmp[3] := tmp[3] * scalar;
    ghost var want := Vector.Scale(old(vec[..]), scalar);
    assert tmp[0] == want[0] && tmp[1] == want[1] && tmp[2] == want[2] && tmp[3] == want[3];
    Vector.CopyInto(tmp, dest);
  }

  /** vec4f_scalar_prod is the dot product. */
  function ScalarProd(a: Vector.Vec4, b: Vector.Vec4): (r: real)
    ensures r == Vector.Dot(a, b)
  {
    assert a[..3][..2] == a[..2] && b[..3][..2] == b[..2];
    assert a[..2][..1] == a[..1] && b[..2][..1] == b[..1];
    assert Vector.Dot(a[..1], b[..1]) == a[0] * b[0];
    assert Vector.Dot(a[..2], b[..2]) == a[0] * b[0] + a[1] * b[1];
    assert Vector.Dot(a[..3], b[..3]) == a[0] * b[0] + a[1] * b[1] + a[2] * b[2];
    a[0] * b[0] + a[1] * b[1] + a[2] * b[2] + a[3] * b[3]
  }

  /** vec4f_sqr_mag: the dot product of the vector with itself, never
      negative. */
  function SqrMag(v: Vector.Vec4): (r: real)
    ensures r == Vector.Dot(v, v) && r >= 0.0
  {
    Vector.DotSelfNonnegative(v);
    ScalarProd(v, v)
  }

  /** Witness for the guard `axis > 0`: vec4f_identity with axis 0 leaves
      the vector as it was, while the corrected routine writes the unit x
      vector. */
  method AxisZeroIgnored() returns (got: seq<real>, fixed: seq<real>)
    ensures got == [5.0, 5.0, 5.0, 5.0]
    ensures fixed == [1.0, 0.0, 0.0, 0.0]
  {
    var vec := new real[4](i => 5.0);
    Identity(vec, 0);
    got := vec[..];
    Vector.SetUnit(vec, 0);
    fixed := vec[..];
  }
}
