/** Small fixed-size vectors and 4x4 homogeneous matrices over the reals.
    The renderer works on numpy arrays of floats; here every entry is an exact `real`. */
module Options {
  datatype Option<+T> = None | Some(value: T)
  datatype Outcome<+E> = Pass | Fail(error: E)
}

module LinAlg {
  datatype Vec2 = Vec2(x: real, y: real)
  datatype Vec3 = Vec3(x: real, y: real, z: real)
  datatype Vec4 = Vec4(x: real, y: real, z: real, w: real)
  /** A 4x4 matrix stored by rows, indexed [row][column] as the numpy arrays are. */
  datatype Mat4 = Mat4(r0: Vec4, r1: Vec4, r2: Vec4, r3: Vec4)

  type Index4 = i: int | 0 <= i < 4
  type Axis = i: int | 0 <= i < 3

  function Add3(u: Vec3, v: Vec3): Vec3 { Vec3(u.x + v.x, u.y + v.y, u.z + v.z) }
  function Sub3(u: Vec3, v: Vec3): Vec3 { Vec3(u.x - v.x, u.y - v.y, u.z - v.z) }
  function Neg3(v: Vec3): Vec3 { Vec3(-v.x, -v.y, -v.z) }
  function Scale3(k: real, v: Vec3): Vec3 { Vec3(k * v.x, k * v.y, k * v.z) }
  /** Componentwise product. */
  function Mul3(u: Vec3, v: Vec3): Vec3 { Vec3(u.x * v.x, u.y * v.y, u.z * v.z) }
  function Dot3(u: Vec3, v: Vec3): real { u.x * v.x + u.y * v.y + u.z * v.z }
  function Cross(u: Vec3, v: Vec3): Vec3 {
    Vec3(u.y * v.z - u.z * v.y, u.z * v.x - u.x * v.z, u.x * v.y - u.y * v.x)
  }
  const Zero3: Vec3 := Vec3(0.0, 0.0, 0.0)

  function Get3(v: Vec3, i: Axis): real {
    if i == 0 then v.x else if i == 1 then v.y else v.z
  }
  function Get4(v: Vec4, i: Index4): real {
    if i == 0 then v.x else if i == 1 then v.y else if i == 2 then v.z else v.w
  }
  function Set4(v: Vec4, i: Index4, e: real): Vec4 {
    if i == 0 then v.(x := e) else if i == 1 then v.(y := e) else if i == 2 then v.(z := e) else v.(w := e)
  }

  function Add4(u: Vec4, v: Vec4): Vec4 { Vec4(u.x + v.x, u.y + v.y, u.z + v.z, u.w + v.w) }
  function Scale4(k: real, v: Vec4): Vec4 { Vec4(k * v.x, k * v.y, k * v.z, k * v.w) }
  function Dot4(u: Vec4, v: Vec4): real { u.x * v.x + u.y * v.y + u.z * v.z + u.w * v.w }

  /** The Cartesian part (first three coordinates) of a homogeneous vector. */
  function Xyz(v: Vec4): Vec3 { Vec3(v.x, v.y, v.z) }
  /** A point in homogeneous coordinates (w = 1). */
  function Point(p: Vec3): Vec4 { Vec4(p.x, p.y, p.z, 1.0) }
  /** A direction in homogeneous coordinates (w = 0). */
  function Direction(d: Vec3): Vec4 { Vec4(d.x, d.y, d.z, 0.0) }

  function Row(m: Mat4, i: Index4): Vec4 {
    if i == 0 then m.r0 else if i == 1 then m.r1 else if i == 2 then m.r2 else m.r3
  }
  function SetRow(m: Mat4, i: Index4, r: Vec4): Mat4 {
    if i == 0 then m.(r0 := r) else if i == 1 then m.(r1 := r) else if i == 2 then m.(r2 := r) else m.(r3 := r)
  }
  function At(m: Mat4, i: Index4, j: Index4): real { Get4(Row(m, i), j) }

  /** `numpy.eye(4)`. */
  const Identity: Mat4 :=
    Mat4(Vec4(1.0, 0.0, 0.0, 0.0), Vec4(0.0, 1.0, 0.0, 0.0), Vec4(0.0, 0.0, 1.0, 0.0), Vec4(0.0, 0.0, 0.0, 1.0))

  /** Matrix times column vector. */
  function Apply(m: Mat4, v: Vec4): Vec4 {
    Vec4(Dot4(m.r0, v), Dot4(m.r1, v), Dot4(m.r2, v), Dot4(m.r3, v))
  }

  /** Row vector times matrix: the rows of `m` weighted by the entries of `r`. */
  function RowTimes(r: Vec4, m: Mat4): Vec4 {
    Vec4(r.x * m.r0.x + r.y * m.r1.x + r.z * m.r2.x + r.w * m.r3.x,
         r.x * m.r0.y + r.y * m.r1.y + r.z * m.r2.y + r.w * m.r3.y,
         r.x * m.r0.z + r.y * m.r1.z + r.z * m.r2.z + r.w * m.r3.z,
         r.x * m.r0.w + r.y * m.r1.w + r.z * m.r2.w + r.w * m.r3.w)
  }

  /** Matrix product `a.dot(b)`. */
  function Mul(a: Mat4, b: Mat4): Mat4 {
    Mat4(RowTimes(a.r0, b), RowTimes(a.r1, b), RowTimes(a.r2, b), RowTimes(a.r3, b))
  }

  function Transpose(m: Mat4): Mat4 {
    Mat4(Vec4(m.r0.x, m.r1.x, m.r2.x, m.r3.x), Vec4(m.r0.y, m.r1.y, m.r2.y, m.r3.y),
         Vec4(m.r0.z, m.r1.z, m.r2.z, m.r3.z), Vec4(m.r0.w, m.r1.w, m.r2.w, m.r3.w))
  }

  /** A matrix whose last row and last column are those of the identity: it acts on the
      Cartesian part only and never changes w. */
  predicate KeepsW(m: Mat4) {
    m.r3 == Vec4(0.0, 0.0, 0.0, 1.0) && m.r0.w == 0.0 && m.r1.w == 0.0 && m.r2.w == 0.0
  }


  lemma Distrib4(a: real, b: real, c: real, d: real, k: real)
    ensures k * (a + b + c + d) == k * a + k * b + k * c + k * d
    ensures (a + b + c + d) * k == a * k + b * k + c * k + d * k
  {
  }

  lemma MulAssoc(a: real, b: real, c: real)
    ensures (a * b) * c == a * (b * c) && a * (b * c) == b * (a * c)
  {
  }

  lemma Dot4Add(p: Vec4, q: Vec4, v: Vec4)
    ensures Dot4(Add4(p, q), v) == Dot4(p, v) + Dot4(q, v)
  {
  }

  lemma Dot4Scale(k: real, p: Vec4, v: Vec4)
    ensures Dot4(Scale4(k, p), v) == k * Dot4(p, v)
  {
    MulAssoc(k, p.x, v.x);
    MulAssoc(k, p.y, v.y);
    MulAssoc(k, p.z, v.z);
    MulAssoc(k, p.w, v.w);
    Distrib4(p.x * v.x, p.y * v.y, p.z * v.z, p.w * v.w, k);
  }

  /** A row times a matrix is the rows of the matrix weighted by the row's entries. */
  lemma RowTimesAsSum(r: Vec4, b: Mat4)
    ensures RowTimes(r, b)
         == Add4(Add4(Add4(Scale4(r.x, b.r0), Scale4(r.y, b.r1)), Scale4(r.z, b.r2)), Scale4(r.w, b.r3))
  {
    var s := Add4(Add4(Add4(Scale4(r.x, b.r0), Scale4(r.y, b.r1)), Scale4(r.z, b.r2)), Scale4(r.w, b.r3));
    assert RowTimes(r, b).x == s.x && RowTimes(r, b).y == s.y;
    assert RowTimes(r, b).z == s.z && RowTimes(r, b).w == s.w;
  }

  lemma ApplyRowTimes(r: Vec4, b: Mat4, v: Vec4)
    ensures Dot4(RowTimes(r, b), v) == Dot4(r, Apply(b, v))
  {
    var s0, s1, s2, s3 := Scale4(r.x, b.r0), Scale4(r.y, b.r1), Scale4(r.z, b.r2), Scale4(r.w, b.r3);
    RowTimesAsSum(r, b);
    Dot4Add(Add4(Add4(s0, s1), s2), s3, v);
    Dot4Add(Add4(s0, s1), s2, v);
    Dot4Add(s0, s1, v);
    Dot4Scale(r.x, b.r0, v);
    Dot4Scale(r.y, b.r1, v);
    Dot4Scale(r.z, b.r2, v);
    Dot4Scale(r.w, b.r3, v);
  }

  /** Applying a product is applying its factors in turn. */
  lemma ApplyMul(a: Mat4, b: Mat4, v: Vec4)
    ensures Apply(Mul(a, b), v) == Apply(a, Apply(b, v))
  {
    ApplyRowTimes(a.r0, b, v);
    ApplyRowTimes(a.r1, b, v);
    ApplyRowTimes(a.r2, b, v);
    ApplyRowTimes(a.r3, b, v);
  }

  lemma ApplyMulAll(a: Mat4, b: Mat4)
    ensures forall v :: Apply(Mul(a, b), v) == Apply(a, Apply(b, v))
  {
    forall v ensures Apply(Mul(a, b), v) == Apply(a, Apply(b, v)) {
      ApplyMul(a, b, v);
    }
  }

  lemma RowTimesIdentity(r: Vec4)
    ensures RowTimes(r, Identity) == r
  {
  }

  lemma MulIdentity(m: Mat4)
    ensures Mul(m, Identity) == m
  {
    RowTimesIdentity(m.r0);
    RowTimesIdentity(m.r1);
    RowTimesIdentity(m.r2);
    RowTimesIdentity(m.r3);
  }
  /** The cross product is perpendicular to both factors. */
  lemma CrossPerpendicular(u: Vec3, v: Vec3)
    ensures Dot3(Cross(u, v), u) == 0.0 && Dot3(Cross(u, v), v) == 0.0
  {
  }

  /** Lagrange's identity: |u x v|^2 = |u|^2 |v|^2 - (u . v)^2. */
  lemma CrossLength(u: Vec3, v: Vec3)
    ensures Dot3(Cross(u, v), Cross(u, v)) == Dot3(u, u) * Dot3(v, v) - Dot3(u, v) * Dot3(u, v)
  {
  }

  /** The first coordinate of a x (b x c), on plain reals. */
  lemma BacCab(a1: real, a2: real, a3: real, b1: real, b2: real, b3: real, c1: real, c2: real, c3: real)
    ensures a2 * (b1 * c2 - b2 * c1) - a3 * (b3 * c1 - b1 * c3)
         == (a1 * c1 + a2 * c2 + a3 * c3) * b1 - (a1 * b1 + a2 * b2 + a3 * b3) * c1
  {
  }

  lemma CrossCrossX(a: Vec3, b: Vec3, c: Vec3)
    ensures Cross(a, Cross(b, c)).x == Dot3(a, c) * b.x - Dot3(a, b) * c.x
  {
    var bc := Cross(b, c);
    assert bc == Vec3(b.y * c.z - b.z * c.y, b.z * c.x - b.x * c.z, b.x * c.y - b.y * c.x);
    assert Cross(a, bc).x == a.y * bc.z - a.z * bc.y;
    BacCab(a.x, a.y, a.z, b.x, b.y, b.z, c.x, c.y, c.z);
  }

  lemma CrossCrossY(a: Vec3, b: Vec3, c: Vec3)
    ensures Cross(a, Cross(b, c)).y == Dot3(a, c) * b.y - Dot3(a, b) * c.y
  {
    var bc := Cross(b, c);
    assert bc == Vec3(b.y * c.z - b.z * c.y, b.z * c.x - b.x * c.z, b.x * c.y - b.y * c.x);
    assert Cross(a, bc).y == a.z * bc.x - a.x * bc.z;
    BacCab(a.y, a.z, a.x, b.y, b.z, b.x, c.y, c.z, c.x);
  }

  lemma CrossCrossZ(a: Vec3, b: Vec3, c: Vec3)
    ensures Cross(a, Cross(b, c)).z == Dot3(a, c) * b.z - Dot3(a, b) * c.z
  {
    var bc := Cross(b, c);
    assert bc == Vec3(b.y * c.z - b.z * c.y, b.z * c.x - b.x * c.z, b.x * c.y - b.y * c.x);
    assert Cross(a, bc).z == a.x * bc.y - a.y * bc.x;
    BacCab(a.z, a.x, a.y, b.z, b.x, b.y, c.z, c.x, c.y);
  }

  /** a x (b x c) = (a . c) b - (a . b) c. */
  lemma CrossCross(a: Vec3, b: Vec3, c: Vec3)
    ensures Cross(a, Cross(b, c)) == Sub3(Scale3(Dot3(a, c), b), Scale3(Dot3(a, b), c))
  {
    var l, r := Cross(a, Cross(b, c)), Sub3(Scale3(Dot3(a, c), b), Scale3(Dot3(a, b), c));
    CrossCrossX(a, b, c);
    assert l.x == r.x;
    CrossCrossY(a, b, c);
    assert l.y == r.y;
    CrossCrossZ(a, b, c);
    assert l.z == r.z;
  }

  lemma DotScale(k: real, u: Vec3, v: Vec3)
    ensures Dot3(Scale3(k, u), v) == k * Dot3(u, v) && Dot3(u, Scale3(k, v)) == k * Dot3(u, v)
  {
    MulAssoc(k, u.x, v.x);
    MulAssoc(k, u.y, v.y);
    MulAssoc(k, u.z, v.z);
  }
}
