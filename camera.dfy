/** The ideal perspective camera of camera.py: its pose (eye and an orthonormal basis built
    from look-at and up), its view half-angles, and the matrices that take world points to the
    canonical view volume. The trigonometric functions, the square-root norm and pi are
    parameters; the lemmas state exactly which relation between them each fact needs. */
module CameraModel {
  import opened LinAlg
  import opened Options

  /** `math.pi*(deg/2.0)/180`: the half of an opening angle given in degrees, in radians. */
  function HalfAngleRadians(deg: real, pi: real): (r: real)
    ensures 360.0 * r == pi * deg
  {
    pi * (deg / 2.0) / 180.0
  }

  /** `len` is the Euclidean length of v, and v is not zero. */
  predicate IsLength(len: real, v: Vec3) {
    len > 0.0 && len * len == Dot3(v, v)
  }

  /** The camera's axes: x points right, y up, z backwards (the camera looks along -z). */
  datatype Basis = Basis(x: Vec3, y: Vec3, z: Vec3)

  predicate Orthonormal(b: Basis) {
    Dot3(b.x, b.x) == 1.0 && Dot3(b.y, b.y) == 1.0 && Dot3(b.z, b.z) == 1.0 &&
    Dot3(b.x, b.y) == 0.0 && Dot3(b.x, b.z) == 0.0 && Dot3(b.y, b.z) == 0.0
  }

  /** z = (eye - lookAt) / |eye - lookAt|. */
  function PoseZ(eye: Vec3, lookAt: Vec3, norm: Vec3 -> real): Vec3
    requires norm(Sub3(eye, lookAt)) != 0.0
  {
    Scale3(1.0 / norm(Sub3(eye, lookAt)), Sub3(eye, lookAt))
  }

  /** The basis `setPose` computes: z as above, x = (up x z) / |up x z|, y = z x x. */
  function PoseBasis(eye: Vec3, lookAt: Vec3, up: Vec3, norm: Vec3 -> real): Basis
    requires PoseWellDefined(eye, lookAt, up, norm)
  {
    var z := PoseZ(eye, lookAt, norm);
    var c := Cross(up, z);
    var x := Scale3(1.0 / norm(c), c);
    Basis(x, Cross(z, x), z)
  }

  /** The documented prerequisites of `setPose` (look_at != eye, and up not parallel to the
      view direction), stated as: both vectors that are normalised are non-zero and `norm`
      returns their lengths. */
  predicate PoseWellDefined(eye: Vec3, lookAt: Vec3, up: Vec3, norm: Vec3 -> real) {
    IsLength(norm(Sub3(eye, lookAt)), Sub3(eye, lookAt)) &&
    IsLength(norm(Cross(up, PoseZ(eye, lookAt, norm))), Cross(up, PoseZ(eye, lookAt, norm)))
  }

  lemma UnitAfterDivide(len: real, v: Vec3)
    requires IsLength(len, v)
    ensures Dot3(Scale3(1.0 / len, v), Scale3(1.0 / len, v)) == 1.0
    ensures Dot3(v, Scale3(1.0 / len, v)) == len
  {
    var k := 1.0 / len;
    DotScale(k, v, Scale3(k, v));
    DotScale(k, v, v);
    assert k * k * (len * len) == 1.0 by {
      assert k * len == 1.0;
      MulAssoc(k, k, len * len);
      MulAssoc(k, len, len);
    }
    assert k * (len * len) == len by {
      MulAssoc(k, len, len);
    }
  }

  /** (a x b) . c = b . (c x a). */
  lemma TripleProduct(a: Vec3, b: Vec3, c: Vec3)
    ensures Dot3(Cross(a, b), c) == Dot3(b, Cross(c, a))
  {
  }

  /** The pose basis is orthonormal and right-handed, the camera looks along -z towards
      lookAt, and up lies in the camera's y-z plane on the positive-y side: the view of up
      appears upright. */
  lemma PoseBasisProperties(eye: Vec3, lookAt: Vec3, up: Vec3, norm: Vec3 -> real)
    requires PoseWellDefined(eye, lookAt, up, norm)
    ensures Orthonormal(PoseBasis(eye, lookAt, up, norm))
    ensures Cross(PoseBasis(eye, lookAt, up, norm).x, PoseBasis(eye, lookAt, up, norm).y)
         == PoseBasis(eye, lookAt, up, norm).z
    ensures Dot3(PoseBasis(eye, lookAt, up, norm).z, Sub3(lookAt, eye)) < 0.0
    ensures Dot3(PoseBasis(eye, lookAt, up, norm).x, up) == 0.0
    ensures Dot3(PoseBasis(eye, lookAt, up, norm).y, up) > 0.0
  {
    var d := Sub3(eye, lookAt);
    var zl := norm(d);
    var z := PoseZ(eye, lookAt, norm);
    var c := Cross(up, z);
    var xl := norm(c);
    var x := Scale3(1.0 / xl, c);
    var y := Cross(z, x);
    UnitAfterDivide(zl, d);
    UnitAfterDivide(xl, c);
    assert Dot3(z, z) == 1.0;
    assert Dot3(x, x) == 1.0;
    CrossPerpendicular(up, z);
    DotScale(1.0 / xl, c, z);
    assert Dot3(x, z) == 0.0;
    CrossPerpendicular(z, x);
    CrossLength(z, x);
    assert Dot3(y, y) == 1.0;
    CrossCross(x, z, x);
    assert Cross(x, y) == z;
    DotScale(1.0 / zl, d, Sub3(lookAt, eye));
    assert Dot3(d, Sub3(lookAt, eye)) == -Dot3(d, d);
    assert Dot3(z, Sub3(lookAt, eye)) == -(Dot3(d, Scale3(1.0 / zl, d)));
    DotScale(1.0 / xl, c, up);
    TripleProduct(z, x, up);
    assert Dot3(x, c) == xl by {
      DotScale(1.0 / xl, c, c);
    }
  }

  /** The error `math.asin` raises for an argument outside [-1, 1]. */
  const MathDomainError: string := "math domain error"

  /** The view half-angles after `setViewAngles`, and whether it returned normally. */
  datatype AngleUpdate = AngleUpdate(h: real, v: real, outcome: Outcome<string>)

  /** The argument `setViewAngles` passes to `math.asin`. */
  function AsinArgument(aspect: real, a: real, sin: real -> real): real {
    if aspect < 1.0 then sin(a) * aspect else sin(a) / aspect
  }

  /** `setViewAngles` from half-angles (h0, v0). The angle across the shorter image side is
      the half of maxAngle and is assigned first; the other one is derived through asin and
      assigned only if asin accepts its argument, which otherwise raises and leaves it as
      it was. */
  function ViewAnglesAfter(h0: real, v0: real, aspect: real, maxAngle: real, pi: real,
                           sin: real -> real, asin: real -> real): (u: AngleUpdate)
    ensures aspect < 1.0 ==> u.v == HalfAngleRadians(maxAngle, pi)
    ensures aspect >= 1.0 ==> u.h == HalfAngleRadians(maxAngle, pi)
    ensures u.outcome == Pass <==> -1.0 <= AsinArgument(aspect, HalfAngleRadians(maxAngle, pi), sin) <= 1.0
    ensures u.outcome != Pass ==> u.outcome == Fail(MathDomainError)
    ensures u.outcome == Pass ==>
      (if aspect < 1.0 then u.h else u.v) == asin(AsinArgument(aspect, HalfAngleRadians(maxAngle, pi), sin))
    ensures u.outcome != Pass ==> (if aspect < 1.0 then u.h == h0 else u.v == v0)
  {
    var a := HalfAngleRadians(maxAngle, pi);
    var t := AsinArgument(aspect, a, sin);
    var ok := -1.0 <= t <= 1.0;
    var outcome := if ok then Pass else Fail(MathDomainError);
    if aspect < 1.0 then AngleUpdate(if ok then asin(t) else h0, a, outcome)
    else AngleUpdate(a, if ok then asin(t) else v0, outcome)
  }

  /** `naturalAspectRatio` on given half-angles; None stands for the ZeroDivisionError raised
      when the sine of the vertical angle is zero. */
  function AspectOf(h: real, v: real, sin: real -> real): (r: Option<real>)
    ensures r.Some? <==> sin(v) != 0.0
    ensures r.Some? ==> r.value * sin(v) == sin(h)
  {
    if sin(v) == 0.0 then None else Some(sin(h) / sin(v))
  }

  /** After a successful `setViewAngles(aspect, maxAngle)` the natural aspect ratio is
      aspect again, provided sin undoes asin on the argument used and sin of the assigned
      half-angle is not zero. */
  lemma ViewAnglesGiveAspect(h0: real, v0: real, aspect: real, maxAngle: real, pi: real,
                             sin: real -> real, asin: real -> real)
    requires ViewAnglesAfter(h0, v0, aspect, maxAngle, pi, sin, asin).outcome == Pass
    requires sin(asin(AsinArgument(aspect, HalfAngleRadians(maxAngle, pi), sin)))
          == AsinArgument(aspect, HalfAngleRadians(maxAngle, pi), sin)
    requires sin(HalfAngleRadians(maxAngle, pi)) != 0.0
    ensures AspectOf(ViewAnglesAfter(h0, v0, aspect, maxAngle, pi, sin, asin).h,
                     ViewAnglesAfter(h0, v0, aspect, maxAngle, pi, sin, asin).v, sin) == Some(aspect)
  {
    var a := HalfAngleRadians(maxAngle, pi);
    var u := ViewAnglesAfter(h0, v0, aspect, maxAngle, pi, sin, asin);
    if aspect < 1.0 {
      assert sin(u.h) == sin(a) * aspect;
      assert sin(u.v) == sin(a);
      assert (sin(a) * aspect) / sin(a) == aspect;
    } else {
      assert sin(u.h) == sin(a);
      assert sin(u.v) == sin(a) / aspect;
      assert sin(a) / (sin(a) / aspect) == aspect;
    }
  }

  /** The entries [2][2] and [2][3] of the perspective normalisation. */
  function DepthScale(near: real, far: real): (a: real)
    requires far != near
    ensures a * (far - near) == far + near
  {
    (far + near) / (far - near)
  }

  function DepthOffset(near: real, far: real): (b: real)
    requires far != near
    ensures b * (far - near) == 2.0 * far * near
  {
    2.0 * far * near / (far - near)
  }

  /** The depth z'/w' the perspective normalisation gives a camera-space point with
      coordinate z, where w' = -z. */
  function CanonicalDepth(near: real, far: real, z: real): (d: real)
    requires far != near && z != 0.0
    ensures d * -z == DepthScale(near, far) * z + DepthOffset(near, far)
  {
    (DepthScale(near, far) * z + DepthOffset(near, far)) / -z
  }

  lemma DivAdd(a: real, b: real, q: real)
    requires q != 0.0
    ensures a / q + b / q == (a + b) / q
  {
  }

  lemma DivMul(a: real, k: real, q: real)
    requires q != 0.0
    ensures (a / q) * k == (a * k) / q
  {
  }

  lemma MulDiv(k: real, q: real)
    requires q != 0.0
    ensures (k * q) / q == k
  {
  }

  lemma AffineOverNeg(a: real, b: real, z: real)
    requires z != 0.0
    ensures a * z + b == -z ==> (a * z + b) / -z == 1.0
    ensures a * z + b == z ==> (a * z + b) / -z == -1.0
  {
    if a * z + b == -z {
      assert (a * z + b) / -z == -z / -z;
    }
    if a * z + b == z {
      assert (a * z + b) / -z == z / -z;
      assert z / -z == -1.0;
    }
  }

  /** A * z + B at z = -near is near, and at z = -far it is -far. */
  lemma PlaneValues(near: real, far: real)
    requires far != near
    ensures DepthScale(near, far) * -near + DepthOffset(near, far) == near
    ensures DepthScale(near, far) * -far + DepthOffset(near, far) == -far
  {
    var q := far - near;
    DivMul(far + near, -near, q);
    DivAdd((far + near) * -near, 2.0 * far * near, q);
    assert (far + near) * -near + 2.0 * far * near == near * q;
    MulDiv(near, q);
    DivMul(far + near, -far, q);
    DivAdd((far + near) * -far, 2.0 * far * near, q);
    assert (far + near) * -far + 2.0 * far * near == -far * q;
    MulDiv(-far, q);
  }

  /** The near plane goes to +1 and the far plane to -1. */
  lemma DepthAtPlanes(near: real, far: real)
    requires near != 0.0 && far != 0.0 && far != near
    ensures CanonicalDepth(near, far, -near) == 1.0
    ensures CanonicalDepth(near, far, -far) == -1.0
  {
    PlaneValues(near, far);
    var a, b := DepthScale(near, far), DepthOffset(near, far);
    AffineOverNeg(a, b, -near);
    AffineOverNeg(a, b, -far);
  }

  /** CanonicalDepth(z) = -A - B / z. */
  lemma DepthAsSum(near: real, far: real, z: real)
    requires far != near && z != 0.0
    ensures CanonicalDepth(near, far, z) == -DepthScale(near, far) - DepthOffset(near, far) / z
  {
    var a, b := DepthScale(near, far), DepthOffset(near, far);
    DivAdd(a * z, b, -z);
    MulDiv(-a, -z);
    assert a * z == -a * -z;
  }

  lemma OffsetPositive(near: real, far: real)
    requires 0.0 < near < far
    ensures DepthOffset(near, far) > 0.0
  {
    assert 2.0 * far * near > 0.0;
  }

  lemma ReciprocalOrder(b: real, z1: real, z2: real)
    requires b > 0.0 && z1 < z2 < 0.0
    ensures b / z2 < b / z1
  {
    assert b / z1 * z1 == b && b / z2 * z2 == b;
  }

  /** In front of the camera (z < 0) a nearer point (larger z) gets a strictly larger
      canonical depth: the order the rasterizer's "greater depth wins" test relies on. */
  lemma DepthIncreasing(near: real, far: real, z1: real, z2: real)
    requires 0.0 < near < far && z1 < z2 < 0.0
    ensures CanonicalDepth(near, far, z1) < CanonicalDepth(near, far, z2)
  {
    DepthAsSum(near, far, z1);
    DepthAsSum(near, far, z2);
    OffsetPositive(near, far);
    ReciprocalOrder(DepthOffset(near, far), z1, z2);
  }

  /** Between the clipping planes the canonical depth lies in [-1, 1]. */
  lemma DepthInRange(near: real, far: real, z: real)
    requires 0.0 < near < far && -far <= z <= -near
    ensures -1.0 <= CanonicalDepth(near, far, z) <= 1.0
  {
    DepthAtPlanes(near, far);
    if z < -near { DepthIncreasing(near, far, z, -near); }
    if -far < z { DepthIncreasing(near, far, -far, z); }
  }

  /** For a point in front of the camera with tan of the half-angle positive, the canonical
      coordinate x' / w' = x / (-z tan) lies in [-1, 1] exactly when the point is inside the
      two side planes of the frustum. */
  lemma SidePlanes(px: real, pz: real, t: real)
    requires pz < 0.0 && t > 0.0
    ensures -1.0 <= (px / t) / -pz <= 1.0 <==> -(-pz * t) <= px <= -pz * t
  {
    var q := -pz * t;
    assert q > 0.0;
    assert (px / t) / -pz == px / q;
    assert -1.0 <= px / q <==> -q <= px by {
      assert px / q * q == px;
    }
    assert px / q <= 1.0 <==> px <= q by {
      assert px / q * q == px;
    }
  }

  /** The camera. The stored view angles are half-angles in radians away from the look
      vector. */
  class Camera {
    var near: real
    var far: real
    var viewAngleH: real
    var viewAngleV: real
    var eye: Vec3
    var x: Vec3
    var y: Vec3
    var z: Vec3

    function Axes(): Basis
      reads this
    {
      Basis(x, y, z)
    }

    /** `Camera(eye, look_at, up, near, far, view_angle_h=45, view_angle_v=45)` with the
        opening angles in degrees; pi and norm come first so that the two angles keep their
        default of 45 degrees. */
    constructor (pi: real, norm: Vec3 -> real, eye0: Vec3, lookAt: Vec3, up: Vec3, near0: real, far0: real,
                 viewAngleHDeg: real := 45.0, viewAngleVDeg: real := 45.0)
      requires PoseWellDefined(eye0, lookAt, up, norm)
      ensures near == near0 && far == far0
      ensures viewAngleH == HalfAngleRadians(viewAngleHDeg, pi)
      ensures viewAngleV == HalfAngleRadians(viewAngleVDeg, pi)
      ensures eye == eye0 && Axes() == PoseBasis(eye0, lookAt, up, norm)
    {
      near := near0;
      far := far0;
      viewAngleH := HalfAngleRadians(viewAngleHDeg, pi);
      viewAngleV := HalfAngleRadians(viewAngleVDeg, pi);
      new;
      SetPose(eye0, lookAt, up, norm);
    }

    /** `setPose`: stores the eye and the basis built from look-at and up. */
    method SetPose(eye0: Vec3, lookAt: Vec3, up: Vec3, norm: Vec3 -> real)
      requires PoseWellDefined(eye0, lookAt, up, norm)
      modifies this
      ensures eye == eye0 && Axes() == PoseBasis(eye0, lookAt, up, norm)
      ensures Orthonormal(Axes()) && Cross(x, y) == z
      ensures near == old(near) && far == old(far)
      ensures viewAngleH == old(viewAngleH) && viewAngleV == old(viewAngleV)
    {
      var b := PoseBasis(eye0, lookAt, up, norm);
      PoseBasisProperties(eye0, lookAt, up, norm);
      eye := eye0;
      z := b.z;
      x := b.x;
      y := b.y;
    }

    /** `setViewAngles(aspect_ratio, max_angle)`. Returns Fail when `math.asin` raises; by
        then the first angle has already been assigned. */
    method SetViewAngles(aspect: real, maxAngle: real, pi: real, sin: real -> real, asin: real -> real)
      returns (r: Outcome<string>)
      modifies this
      ensures AngleUpdate(viewAngleH, viewAngleV, r)
           == ViewAnglesAfter(old(viewAngleH), old(viewAngleV), aspect, maxAngle, pi, sin, asin)
      ensures near == old(near) && far == old(far) && eye == old(eye) && Axes() == old(Axes())
    {
      var a := HalfAngleRadians(maxAngle, pi);
      if aspect < 1.0 {
        viewAngleV := a;
        var t := sin(a) * aspect;
        assert t == AsinArgument(aspect, a, sin);
        if -1.0 <= t <= 1.0 {
          viewAngleH := asin(t);
          r := Pass;
        } else {
          r := Fail(MathDomainError);
        }
        assert AngleUpdate(viewAngleH, viewAngleV, r)
            == AngleUpdate(if r == Pass then asin(t) else old(viewAngleH), a, r);
      } else {
        viewAngleH := a;
        var t := sin(a) / aspect;
        assert t == AsinArgument(aspect, a, sin);
        if -1.0 <= t <= 1.0 {
          viewAngleV := asin(t);
          r := Pass;
        } else {
          r := Fail(MathDomainError);
        }
        assert AngleUpdate(viewAngleH, viewAngleV, r)
            == AngleUpdate(a, if r == Pass then asin(t) else old(viewAngleV), r);
      }
    }

    /** `naturalAspectRatio`: sin(h) / sin(v), None when the division raises. */
    function NaturalAspectRatio(sin: real -> real): (r: Option<real>)
      reads this
      ensures r.Some? <==> sin(viewAngleV) != 0.0
      ensures r.Some? ==> r.value * sin(viewAngleV) == sin(viewAngleH)
    {
      AspectOf(viewAngleH, viewAngleV, sin)
    }

    /** `translateToOriginXform`: moves every point by -eye. */
    function TranslateToOriginXform(): (m: Mat4)
      reads this
      ensures forall p {:trigger Apply(m, Point(p))} :: Apply(m, Point(p)) == Point(Sub3(p, eye))
    {
      Mat4(Vec4(1.0, 0.0, 0.0, -eye.x),
           Vec4(0.0, 1.0, 0.0, -eye.y),
           Vec4(0.0, 0.0, 1.0, -eye.z),
           Vec4(0.0, 0.0, 0.0, 1.0))
    }

    /** `rotateAlignXform`: rows x, y, z, padded with zeros and a last row and column
        (0,0,0,1). It expresses a vector in the camera's axes and keeps w. */
    function RotateAlignXform(): (m: Mat4)
      reads this
      ensures forall v {:trigger Apply(m, v)} ::
        Apply(m, v) == Vec4(Dot3(x, Xyz(v)), Dot3(y, Xyz(v)), Dot3(z, Xyz(v)), v.w)
      ensures KeepsW(m)
    {
      Mat4(Vec4(x.x, x.y, x.z, 0.0),
           Vec4(y.x, y.y, y.z, 0.0),
           Vec4(z.x, z.y, z.z, 0.0),
           Vec4(0.0, 0.0, 0.0, 1.0))
    }

    /** `worldToCameraCentricXform` = rotateAlign . translateToOrigin: a point goes to its
        offset from the eye expressed in the camera's axes. */
    function WorldToCameraCentricXform(): (m: Mat4)
      reads this
      ensures forall p {:trigger Apply(m, Point(p))} ::
        Apply(m, Point(p)) == Apply(RotateAlignXform(), Apply(TranslateToOriginXform(), Point(p)))
      ensures forall p {:trigger Apply(m, Point(p))} ::
        Apply(m, Point(p)) == Point(Vec3(Dot3(x, Sub3(p, eye)), Dot3(y, Sub3(p, eye)), Dot3(z, Sub3(p, eye))))
    {
      ApplyMulAll(RotateAlignXform(), TranslateToOriginXform());
      Mul(RotateAlignXform(), TranslateToOriginXform())
    }

    /** `perspectiveNormalizationXform` for a camera in standard pose; `tan` stands for
        `np.tan`. Every point gets w' = -z, and z' = A z + B with A, B the depth scale and
        offset, so that z'/w' is `CanonicalDepth`. */
    function PerspectiveNormalizationXform(tan: real -> real): (m: Mat4)
      reads this
      requires far != near && tan(viewAngleH) != 0.0 && tan(viewAngleV) != 0.0
      ensures forall p {:trigger Apply(m, Point(p))} ::
        Apply(m, Point(p)) == Vec4(p.x / tan(viewAngleH), p.y / tan(viewAngleV),
                                   DepthScale(near, far) * p.z + DepthOffset(near, far), -p.z)
    {
      Mat4(Vec4(1.0 / tan(viewAngleH), 0.0, 0.0, 0.0),
           Vec4(0.0, 1.0 / tan(viewAngleV), 0.0, 0.0),
           Vec4(0.0, 0.0, DepthScale(near, far), DepthOffset(near, far)),
           Vec4(0.0, 0.0, -1.0, 0.0))
    }

    /** `worldToCanonicalViewXform` = perspectiveNormalization . worldToCameraCentric. */
    function WorldToCanonicalViewXform(tan: real -> real): (m: Mat4)
      reads this
      requires far != near && tan(viewAngleH) != 0.0 && tan(viewAngleV) != 0.0
      ensures forall p {:trigger Apply(m, Point(p))} ::
        Apply(m, Point(p)) == Apply(PerspectiveNormalizationXform(tan), Apply(WorldToCameraCentricXform(), Point(p)))
    {
      ApplyMulAll(PerspectiveNormalizationXform(tan), WorldToCameraCentricXform());
      Mul(PerspectiveNormalizationXform(tan), WorldToCameraCentricXform())
    }
  }

  /** Translate-to-origin, and with it the whole world-to-camera transform, takes the eye to
      the origin. */
  lemma EyeToOrigin(c: Camera)
    ensures Apply(c.TranslateToOriginXform(), Point(c.eye)) == Point(Zero3)
    ensures Apply(c.WorldToCameraCentricXform(), Point(c.eye)) == Point(Zero3)
  {
    assert Sub3(c.eye, c.eye) == Zero3;
  }

  /** The perspective normalisation gives every point w' = -z. */
  lemma PerspectiveW(c: Camera, tan: real -> real, p: Vec3)
    requires c.far != c.near && tan(c.viewAngleH) != 0.0 && tan(c.viewAngleV) != 0.0
    ensures Apply(c.PerspectiveNormalizationXform(tan), Point(p)).w == -p.z
  {
  }

  /** With an orthonormal basis, rotate-align takes the camera's axes to the unit axes. */
  lemma RotateAlignTakesAxesToUnitAxes(c: Camera)
    requires Orthonormal(c.Axes())
    ensures Apply(c.RotateAlignXform(), Direction(c.x)) == Direction(Vec3(1.0, 0.0, 0.0))
    ensures Apply(c.RotateAlignXform(), Direction(c.y)) == Direction(Vec3(0.0, 1.0, 0.0))
    ensures Apply(c.RotateAlignXform(), Direction(c.z)) == Direction(Vec3(0.0, 0.0, 1.0))
  {
    assert Xyz(Direction(c.x)) == c.x && Xyz(Direction(c.y)) == c.y && Xyz(Direction(c.z)) == c.z;
  }

  /** For a camera-space point q off the eye plane, z'/w' after the perspective normalisation
      is `CanonicalDepth` of q.z. */
  lemma PerspectiveDepth(c: Camera, tan: real -> real, q: Vec3)
    requires c.far != c.near && tan(c.viewAngleH) != 0.0 && tan(c.viewAngleV) != 0.0
    requires q.z != 0.0
    ensures Apply(c.PerspectiveNormalizationXform(tan), Point(q)).z / Apply(c.PerspectiveNormalizationXform(tan), Point(q)).w
         == CanonicalDepth(c.near, c.far, q.z)
  {
    var v := Apply(c.PerspectiveNormalizationXform(tan), Point(q));
    assert v == Vec4(q.x / tan(c.viewAngleH), q.y / tan(c.viewAngleV),
                     DepthScale(c.near, c.far) * q.z + DepthOffset(c.near, c.far), -q.z);
  }

  /** The camera-space coordinates of a world point: its offset from the eye along x, y, z. */
  function CameraCoords(c: Camera, p: Vec3): Vec3
    reads c
  {
    Vec3(Dot3(c.x, Sub3(p, c.eye)), Dot3(c.y, Sub3(p, c.eye)), Dot3(c.z, Sub3(p, c.eye)))
  }

  /** The canonical depth of a world point is `CanonicalDepth` of its camera-space z. */
  lemma CanonicalDepthOfPoint(c: Camera, tan: real -> real, p: Vec3)
    requires c.far != c.near && tan(c.viewAngleH) != 0.0 && tan(c.viewAngleV) != 0.0
    requires CameraCoords(c, p).z != 0.0
    ensures Apply(c.WorldToCanonicalViewXform(tan), Point(p)).z / Apply(c.WorldToCanonicalViewXform(tan), Point(p)).w
         == CanonicalDepth(c.near, c.far, CameraCoords(c, p).z)
  {
    var q := CameraCoords(c, p);
    assert Apply(c.WorldToCanonicalViewXform(tan), Point(p)) == Apply(c.PerspectiveNormalizationXform(tan), Point(q));
    PerspectiveDepth(c, tan, q);
  }

  /** A point at distance d straight ahead of an orthonormal camera lands on the centre of
      the canonical view, at depth `CanonicalDepth(near, far, -d)`. */
  lemma StraightAheadIsCentre(c: Camera, tan: real -> real, d: real)
    requires c.far != c.near && tan(c.viewAngleH) != 0.0 && tan(c.viewAngleV) != 0.0
    requires Orthonormal(c.Axes()) && d != 0.0
    ensures Apply(c.WorldToCameraCentricXform(), Point(Sub3(c.eye, Scale3(d, c.z)))) == Point(Vec3(0.0, 0.0, -d))
    ensures Apply(c.WorldToCanonicalViewXform(tan), Point(Sub3(c.eye, Scale3(d, c.z)))).x == 0.0
    ensures Apply(c.WorldToCanonicalViewXform(tan), Point(Sub3(c.eye, Scale3(d, c.z)))).y == 0.0
    ensures Apply(c.WorldToCanonicalViewXform(tan), Point(Sub3(c.eye, Scale3(d, c.z)))).z
          / Apply(c.WorldToCanonicalViewXform(tan), Point(Sub3(c.eye, Scale3(d, c.z)))).w
         == CanonicalDepth(c.near, c.far, -d)
  {
    var p := Sub3(c.eye, Scale3(d, c.z));
    var off := Sub3(p, c.eye);
    assert off == Scale3(-d, c.z);
    DotScale(-d, c.x, c.z);
    DotScale(-d, c.y, c.z);
    DotScale(-d, c.z, c.z);
    assert Dot3(c.x, off) == 0.0 && Dot3(c.y, off) == 0.0 && Dot3(c.z, off) == -d;
    assert CameraCoords(c, p) == Vec3(0.0, 0.0, -d);
    CanonicalDepthOfPoint(c, tan, p);
  }
}
