/** Reference definitions shared by the 2-, 3- and 4-element vectors.

    A vector is the library's `float m[N]` indexed by axis (X = 0, Y = 1,
    Z = 2, W = 3), with exact reals in place of IEEE-754 floats. */
module Vector {

  type Vec2 = v: seq<real> | |v| == 2 witness [0.0, 0.0]
  type Vec3 = v: seq<real> | |v| == 3 witness [0.0, 0.0, 0.0]
  type Vec4 = v: seq<real> | |v| == 4 witness [0.0, 0.0, 0.0, 0.0]

  function Zero(n: nat): (r: seq<real>)
    ensures |r| == n && forall i :: 0 <= i < n ==> r[i] == 0.0
  {
    seq(n, i => 0.0)
  }

  /** The unit vector along `axis`. */
  function Unit(n: nat, axis: nat): (r: seq<real>)
    requires axis < n
    ensures |r| == n && r[axis] == 1.0
    ensures forall i :: 0 <= i < n && i != axis ==> r[i] == 0.0
  {
    seq(n, i => if i == axis then 1.0 else 0.0)
  }

  function Add(a: seq<real>, b: seq<real>): (r: seq<real>)
    requires |a| == |b|
    ensures |r| == |a| && forall i :: 0 <= i < |a| ==> r[i] == a[i] + b[i]
  {
    seq(|a|, i requires 0 <= i < |a| => a[i] + b[i])
  }

  function Scale(v: seq<real>, s: real): (r: seq<real>)
    ensures |r| == |v| && forall i :: 0 <= i < |v| ==> r[i] == v[i] * s
  {
    seq(|v|, i requires 0 <= i < |v| => v[i] * s)
  }

  lemma AddCommutes(a: seq<real>, b: seq<real>)
    requires |a| == |b|
    ensures Add(a, b) == Add(b, a)
  {
  }

  lemma ScaleTwice(v: seq<real>, s: real, t: real)
    ensures Scale(Scale(v, s), t) == Scale(v, s * t)
  {
    forall i | 0 <= i < |v| ensures Scale(Scale(v, s), t)[i] == Scale(v, s * t)[i] {
      assert v[i] * s * t == v[i] * (s * t);
    }
  }

  /** The dot product a[0]*b[0] + ... + a[n-1]*b[n-1], accumulated left to
      right as the unrolled routines write it. */
  function Dot(a: seq<real>, b: seq<real>): real
    requires |a| == |b|
  {
    if |a| == 0 then 0.0
    else Dot(a[..|a| - 1], b[..|b| - 1]) + a[|a| - 1] * b[|b| - 1]
  }

  lemma {:induction false} DotSymmetric(a: seq<real>, b: seq<real>)
    requires |a| == |b|
    ensures Dot(a, b) == Dot(b, a)
  {
    if |a| > 0 {
      DotSymmetric(a[..|a| - 1], b[..|b| - 1]);
    }
  }

  lemma {:induction false} DotSelfNonnegative(v: seq<real>)
    ensures Dot(v, v) >= 0.0
  {
    if |v| > 0 {
      DotSelfNonnegative(v[..|v| - 1]);
    }
  }

  /** vecNf_identity as evidently intended: every axis 0..n-1 admitted,
      where the library's guard `axis > 0` turns axis 0 away. */
  method SetUnit(vec: array<real>, axis: int)
    modifies vec
    ensures 0 <= axis < vec.Length ==> vec[..] == Unit(vec.Length, axis)
    ensures !(0 <= axis < vec.Length) ==> vec[..] == old(vec[..])
  {
    if 0 <= axis < vec.Length {
      forall i | 0 <= i < vec.Length {
        vec[i] := 0.0;
      }
      vec[axis] := 1.0;
    }
  }

  /** The final `memcpy(dest->m, tmp.m, ...)` of every vector routine. */
  method CopyInto(src: array<real>, dest: array<real>)
    requires src.Length == dest.Length
    modifies dest
    ensures dest[..] == old(src[..])
  {
    forall i | 0 <= i < dest.Length {
      dest[i] := src[i];
    }
  }
}
