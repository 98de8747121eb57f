/** The 4x4 homogeneous transform builders of transforms.py: translate, rotate (intrinsic
    yaw-pitch-roll), scale and shear. Every builder returns a freshly built matrix, so each is
    a function. The cosines and sines of the rotation angles are supplied by the caller as the
    functions `cos` and `sin`; nothing here depends on what they compute except where a lemma
    states the relation it needs. */
module Transforms {
  import opened LinAlg

  /** `translate(v)`: the identity with v written into the top three entries of the last
      column. It moves every point by v and leaves every direction alone. */
  function Translate(v: Vec3): (m: Mat4)
    ensures forall p {:trigger Apply(m, Point(p))} :: Apply(m, Point(p)) == Point(Add3(p, v))
    ensures forall d {:trigger Apply(m, Direction(d))} :: Apply(m, Direction(d)) == Direction(d)
  {
    Mat4(Vec4(1.0, 0.0, 0.0, v.x),
         Vec4(0.0, 1.0, 0.0, v.y),
         Vec4(0.0, 0.0, 1.0, v.z),
         Vec4(0.0, 0.0, 0.0, 1.0))
  }

  /** Translations compose by adding their vectors. */
  lemma TranslateCompose(u: Vec3, v: Vec3)
    ensures Mul(Translate(u), Translate(v)) == Translate(Add3(u, v))
  {
  }

  /** Translating by -v undoes translating by v. */
  lemma TranslateInverse(v: Vec3)
    ensures Mul(Translate(Neg3(v)), Translate(v)) == Identity
  {
    TranslateCompose(Neg3(v), v);
  }

  /** `scale(f)`: diag(f0, f1, f2, 1). It scales each coordinate of a point by its factor
      and keeps w. */
  function Scale(f: Vec3): (m: Mat4)
    ensures forall p {:trigger Apply(m, Point(p))} :: Apply(m, Point(p)) == Point(Mul3(f, p))
    ensures KeepsW(m)
  {
    Mat4(Vec4(f.x, 0.0, 0.0, 0.0),
         Vec4(0.0, f.y, 0.0, 0.0),
         Vec4(0.0, 0.0, f.z, 0.0),
         Vec4(0.0, 0.0, 0.0, 1.0))
  }

  /** Scales compose by multiplying their factors componentwise. */
  lemma ScaleCompose(f: Vec3, g: Vec3)
    ensures Mul(Scale(f), Scale(g)) == Scale(Mul3(f, g))
  {
  }

  /** A scale with no zero factor is undone by the scale by the reciprocal factors. */
  lemma ScaleInverse(f: Vec3)
    requires f.x != 0.0 && f.y != 0.0 && f.z != 0.0
    ensures Mul(Scale(Vec3(1.0 / f.x, 1.0 / f.y, 1.0 / f.z)), Scale(f)) == Identity
  {
    ScaleCompose(Vec3(1.0 / f.x, 1.0 / f.y, 1.0 / f.z), f);
  }

  /** `m` with `k` added to the single entry [i][j]. */
  function AddAt(m: Mat4, i: Index4, j: Index4, k: real): (r: Mat4)
    ensures At(r, i, j) == At(m, i, j) + k
    ensures forall a: Index4, b: Index4 :: (a != i || b != j) ==> At(r, a, b) == At(m, a, b)
  {
    SetRow(m, i, Set4(Row(m, i), j, Get4(Row(m, i), j) + k))
  }

  /** `shear(shearDim, contribDim, factor)`: the identity with `factor` added at
      [shearDim][contribDim]. */
  function Shear(shearDim: Axis, contribDim: Axis, factor: real): (m: Mat4)
    ensures At(m, shearDim, contribDim) == At(Identity, shearDim, contribDim) + factor
    ensures forall a: Index4, b: Index4 :: (a != shearDim || b != contribDim) ==> At(m, a, b) == At(Identity, a, b)
    ensures KeepsW(m)
  {
    AddAt(Identity, shearDim, contribDim, factor)
  }

  /** A shear moves coordinate `shearDim` of a point by `factor` times its coordinate
      `contribDim` and leaves every other coordinate, and w, as they were. */
  lemma ShearAction(shearDim: Axis, contribDim: Axis, factor: real, p: Vec3, a: Axis)
    ensures Apply(Shear(shearDim, contribDim, factor), Point(p)).w == 1.0
    ensures Get3(Xyz(Apply(Shear(shearDim, contribDim, factor), Point(p))), a)
         == Get3(p, a) + (if a == shearDim then factor * Get3(p, contribDim) else 0.0)
  {
  }

  /** Rotation about Z, in the X-Y plane (transforms.py:25-29), from its cosine and sine. */
  function Yaw(c: real, s: real): Mat4 {
    Mat4(Vec4(c, -s, 0.0, 0.0),
         Vec4(s, c, 0.0, 0.0),
         Vec4(0.0, 0.0, 1.0, 0.0),
         Vec4(0.0, 0.0, 0.0, 1.0))
  }

  /** Rotation about X, in the Y-Z plane (transforms.py:31-35). */
  function Pitch(c: real, s: real): Mat4 {
    Mat4(Vec4(1.0, 0.0, 0.0, 0.0),
         Vec4(0.0, c, -s, 0.0),
         Vec4(0.0, s, c, 0.0),
         Vec4(0.0, 0.0, 0.0, 1.0))
  }

  /** Rotation about Y, in the (-X)-Z plane (transforms.py:37-41). */
  function Roll(c: real, s: real): Mat4 {
    Mat4(Vec4(c, 0.0, s, 0.0),
         Vec4(0.0, 1.0, 0.0, 0.0),
         Vec4(-s, 0.0, c, 0.0),
         Vec4(0.0, 0.0, 0.0, 1.0))
  }

  /** `rotate(angles)` with angles = (yaw, pitch, roll): yaw . (pitch . roll). The result
      never changes w and never mixes w into the Cartesian part. */
  function Rotate(angles: Vec3, cos: real -> real, sin: real -> real): (m: Mat4)
    ensures KeepsW(m)
  {
    var yaw := Yaw(cos(angles.x), sin(angles.x));
    var pitch := Pitch(cos(angles.y), sin(angles.y));
    var roll := Roll(cos(angles.z), sin(angles.z));
    Mul(yaw, Mul(pitch, roll))
  }

  predicate Orthogonal(m: Mat4) {
    Mul(Transpose(m), m) == Identity
  }

  lemma YawOrthogonal(c: real, s: real)
    requires c * c + s * s == 1.0
    ensures Orthogonal(Yaw(c, s)) && KeepsW(Yaw(c, s))
  {
  }

  lemma PitchOrthogonal(c: real, s: real)
    requires c * c + s * s == 1.0
    ensures Orthogonal(Pitch(c, s)) && KeepsW(Pitch(c, s))
  {
  }

  lemma RollOrthogonal(c: real, s: real)
    requires c * c + s * s == 1.0
    ensures Orthogonal(Roll(c, s)) && KeepsW(Roll(c, s))
  {
  }

  /** A rotation in a coordinate plane by the angle with cosine c and sine s keeps the sum
      of the squares of the two coordinates it mixes. */
  lemma PlaneRotation(c: real, s: real, x: real, y: real)
    requires c * c + s * s == 1.0
    ensures (c * x - s * y) * (c * x - s * y) + (s * x + c * y) * (s * x + c * y) == x * x + y * y
  {
    assert (c * x - s * y) * (c * x - s * y) + (s * x + c * y) * (s * x + c * y)
        == (c * c + s * s) * (x * x + y * y);
  }

  lemma YawKeepsLength(c: real, s: real, v: Vec4)
    requires c * c + s * s == 1.0
    ensures Dot3(Xyz(Apply(Yaw(c, s), v)), Xyz(Apply(Yaw(c, s), v))) == Dot3(Xyz(v), Xyz(v))
  {
    var u := Xyz(Apply(Yaw(c, s), v));
    assert u == Vec3(c * v.x - s * v.y, s * v.x + c * v.y, v.z);
    PlaneRotation(c, s, v.x, v.y);
  }

  lemma PitchKeepsLength(c: real, s: real, v: Vec4)
    requires c * c + s * s == 1.0
    ensures Dot3(Xyz(Apply(Pitch(c, s), v)), Xyz(Apply(Pitch(c, s), v))) == Dot3(Xyz(v), Xyz(v))
  {
    var u := Xyz(Apply(Pitch(c, s), v));
    assert u == Vec3(v.x, c * v.y - s * v.z, s * v.y + c * v.z);
    PlaneRotation(c, s, v.y, v.z);
  }

  lemma RollKeepsLength(c: real, s: real, v: Vec4)
    requires c * c + s * s == 1.0
    ensures Dot3(Xyz(Apply(Roll(c, s), v)), Xyz(Apply(Roll(c, s), v))) == Dot3(Xyz(v), Xyz(v))
  {
    var u := Xyz(Apply(Roll(c, s), v));
    assert u == Vec3(c * v.x + s * v.z, v.y, -s * v.x + c * v.z);
    PlaneRotation(c, -s, v.x, v.z);
  }

  /** When cos and sin satisfy cos^2 + sin^2 = 1 at each of the three angles, `rotate(angles)`
      keeps the length of the Cartesian part of every vector it is applied to. */
  lemma RotateKeepsLength(angles: Vec3, cos: real -> real, sin: real -> real, v: Vec4)
    requires cos(angles.x) * cos(angles.x) + sin(angles.x) * sin(angles.x) == 1.0
    requires cos(angles.y) * cos(angles.y) + sin(angles.y) * sin(angles.y) == 1.0
    requires cos(angles.z) * cos(angles.z) + sin(angles.z) * sin(angles.z) == 1.0
    ensures Dot3(Xyz(Apply(Rotate(angles, cos, sin), v)), Xyz(Apply(Rotate(angles, cos, sin), v)))
         == Dot3(Xyz(v), Xyz(v))
  {
    var yaw := Yaw(cos(angles.x), sin(angles.x));
    var pitch := Pitch(cos(angles.y), sin(angles.y));
    var roll := Roll(cos(angles.z), sin(angles.z));
    ApplyMul(yaw, Mul(pitch, roll), v);
    ApplyMul(pitch, roll, v);
    RollKeepsLength(cos(angles.z), sin(angles.z), v);
    PitchKeepsLength(cos(angles.y), sin(angles.y), Apply(roll, v));
    YawKeepsLength(cos(angles.x), sin(angles.x), Apply(pitch, Apply(roll, v)));
  }

  /** With every angle zero (cos 0 = 1, sin 0 = 0) the rotation is the identity. */
  lemma RotateZero(cos: real -> real, sin: real -> real)
    requires cos(0.0) == 1.0 && sin(0.0) == 0.0
    ensures Rotate(Zero3, cos, sin) == Identity
  {
    MulIdentity(Identity);
  }
}
