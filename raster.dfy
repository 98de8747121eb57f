/** The geometric core of projection_renderer.py: triangle normals, the homogeneous divide,
    the closed-form barycentric test `pointOnTriangle`, the pixel grid of the canonical view,
    and `rasterizeTriangle`, which paints one triangle into an image under a z-buffer. */
module Raster {
  import opened LinAlg
  import opened Options

  /** The three vertices of a triangle, as homogeneous 4-vectors. */
  datatype Tri = Tri(v0: Vec4, v1: Vec4, v2: Vec4)

  // ---------------------------------------------------------------------------------------
  // triangleNormals

  /** `triangleNormals` for one triangle: the cross product of the edges v1 - v0 and v2 - v0,
      with w ignored. It is perpendicular to both edges. */
  function TriangleNormal(t: Tri): (n: Vec3)
    ensures Dot3(n, Sub3(Xyz(t.v1), Xyz(t.v0))) == 0.0
    ensures Dot3(n, Sub3(Xyz(t.v2), Xyz(t.v0))) == 0.0
  {
    var e1, e2 := Sub3(Xyz(t.v1), Xyz(t.v0)), Sub3(Xyz(t.v2), Xyz(t.v0));
    CrossPerpendicular(e1, e2);
    Cross(e1, e2)
  }

  /** `triangleNormals(X)` over a whole array of triangles. */
  function TriangleNormals(ts: seq<Tri>): (ns: seq<Vec3>)
    ensures |ns| == |ts|
    ensures forall i :: 0 <= i < |ts| ==> ns[i] == TriangleNormal(ts[i])
  {
    seq(|ts|, i requires 0 <= i < |ts| => TriangleNormal(ts[i]))
  }

  /** The squared length of the normal is |e1|^2 |e2|^2 - (e1 . e2)^2 for the edges e1, e2:
      the square of twice the triangle's area. */
  lemma NormalLengthIsTwiceArea(t: Tri)
    ensures var e1, e2 := Sub3(Xyz(t.v1), Xyz(t.v0)), Sub3(Xyz(t.v2), Xyz(t.v0));
      Dot3(TriangleNormal(t), TriangleNormal(t)) == Dot3(e1, e1) * Dot3(e2, e2) - Dot3(e1, e2) * Dot3(e1, e2)
  {
    CrossLength(Sub3(Xyz(t.v1), Xyz(t.v0)), Sub3(Xyz(t.v2), Xyz(t.v0)));
  }

  /** The normal does not depend on the w coordinates. */
  lemma NormalIgnoresW(t: Tri, w0: real, w1: real, w2: real)
    ensures TriangleNormal(Tri(t.v0.(w := w0), t.v1.(w := w1), t.v2.(w := w2))) == TriangleNormal(t)
  {
  }

  /** Swapping two vertices reverses the normal. */
  lemma NormalSwapNegates(t: Tri)
    ensures TriangleNormal(Tri(t.v1, t.v0, t.v2)) == Neg3(TriangleNormal(t))
    ensures TriangleNormal(Tri(t.v0, t.v2, t.v1)) == Neg3(TriangleNormal(t))
  {
  }

  /** Rotating the vertices keeps the normal. */
  lemma NormalRotationInvariant(t: Tri)
    ensures TriangleNormal(Tri(t.v1, t.v2, t.v0)) == TriangleNormal(t)
  {
  }

  /** `triangleNormals` on 2-D input: the scalar cross product of the two edges. */
  function Orientation2D(p0: Vec2, p1: Vec2, p2: Vec2): real {
    (p1.x - p0.x) * (p2.y - p0.y) - (p1.y - p0.y) * (p2.x - p0.x)
  }

  /** The 2-D value is the z component of the 3-D normal of the same triangle lying in any
      planes of constant z; so `normals[:, 2] > 0` is the 2-D test in the x-y plane. */
  lemma Orientation2DIsNormalZ(t: Tri)
    ensures TriangleNormal(t).z
         == Orientation2D(Vec2(t.v0.x, t.v0.y), Vec2(t.v1.x, t.v1.y), Vec2(t.v2.x, t.v2.y))
  {
  }

  /** Positive for a counter-clockwise triangle, negative for the same triangle clockwise,
      zero when the three points are collinear. */
  lemma Orientation2DSign(p0: Vec2, p1: Vec2, p2: Vec2, k: real)
    ensures Orientation2D(Vec2(0.0, 0.0), Vec2(1.0, 0.0), Vec2(0.0, 1.0)) > 0.0
    ensures Orientation2D(p0, p2, p1) == -Orientation2D(p0, p1, p2)
    ensures Orientation2D(p1, p0, p2) == -Orientation2D(p0, p1, p2)
    ensures Orientation2D(p1, p2, p0) == Orientation2D(p0, p1, p2)
    ensures Orientation2D(p0, p1, Vec2(p0.x + k * (p1.x - p0.x), p0.y + k * (p1.y - p0.y))) == 0.0
  {
    var dx, dy := p1.x - p0.x, p1.y - p0.y;
    assert Vec2(p0.x + k * dx, p0.y + k * dy).x - p0.x == k * dx;
    assert Vec2(p0.x + k * dx, p0.y + k * dy).y - p0.y == k * dy;
    MulAssoc(dx, k, dy);
    MulAssoc(dy, k, dx);
  }

  // ---------------------------------------------------------------------------------------
  // perspectiveView

  /** Division of a homogeneous vector by its w: w becomes 1 and the vector still stands for
      the same projective point. */
  function Homogenize(v: Vec4): (r: Vec4)
    requires v.w != 0.0
    ensures r.w == 1.0
    ensures Scale4(v.w, r) == v
  {
    var k := 1.0 / v.w;
    MulAssoc(v.w, k, v.x);
    MulAssoc(v.w, k, v.y);
    MulAssoc(v.w, k, v.z);
    Scale4(k, v)
  }

  /** `perspectiveView(verts, inst_xform, world_to_view)`: every vertex through
      world_to_view . inst_xform, then divided by its w. */
  function PerspectiveView(verts: seq<Vec4>, instXform: Mat4, worldToView: Mat4): (r: seq<Vec4>)
    requires forall i :: 0 <= i < |verts| ==> Apply(worldToView, Apply(instXform, verts[i])).w != 0.0
    ensures |r| == |verts|
    ensures forall i :: 0 <= i < |verts| ==> r[i].w == 1.0
    ensures forall i :: 0 <= i < |verts| ==>
      Scale4(Apply(worldToView, Apply(instXform, verts[i])).w, r[i]) == Apply(worldToView, Apply(instXform, verts[i]))
  {
    ApplyMulAll(worldToView, instXform);
    seq(|verts|, i requires 0 <= i < |verts| => Homogenize(Apply(Mul(worldToView, instXform), verts[i])))
  }

  // ---------------------------------------------------------------------------------------
  // pointOnTriangle

  /** The determinant of [[x, X1, X2], [y, Y1, Y2], [1, 1, 1]]. */
  function DetNum(x: real, y: real, t: Tri): real {
    x * (t.v1.y - t.v2.y) - t.v1.x * (y - t.v2.y) + t.v2.x * (y - t.v1.y)
  }

  /** The determinant of [[x - X2, X0 - X1], [y - Y2, Y0 - Y1]]. */
  function DetDen(x: real, y: real, t: Tri): real {
    (x - t.v2.x) * (t.v0.y - t.v1.y) - (t.v0.x - t.v1.x) * (y - t.v2.y)
  }

  /** alpha solves alpha * DetDen = -DetNum. */
  function Alpha(x: real, y: real, t: Tri): (a: real)
    requires DetDen(x, y, t) != 0.0
    ensures a * DetDen(x, y, t) == -DetNum(x, y, t)
  {
    -DetNum(x, y, t) / DetDen(x, y, t)
  }

  function BetaDen(x: real, y: real, t: Tri): real
    requires DetDen(x, y, t) != 0.0
  {
    Alpha(x, y, t) * (t.v0.x - t.v1.x) + (t.v1.x - t.v2.x)
  }

  /** Both divisions of `pointOnTriangle` have a non-zero divisor. */
  predicate NonDegenerateAt(x: real, y: real, t: Tri) {
    DetDen(x, y, t) != 0.0 && BetaDen(x, y, t) != 0.0
  }

  /** beta solves beta * BetaDen = x - X2. */
  function Beta(x: real, y: real, t: Tri): (b: real)
    requires NonDegenerateAt(x, y, t)
    ensures b * BetaDen(x, y, t) == x - t.v2.x
  {
    (x - t.v2.x) / BetaDen(x, y, t)
  }

  datatype Weights = Weights(w0: real, w1: real, w2: real)

  /** The weights of v0, v1, v2 in b (a v0 + (1 - a) v1) + (1 - b) v2; they sum to 1. */
  function WeightsOf(a: real, b: real): Weights {
    Weights(b * a, b * (1.0 - a), 1.0 - b)
  }

  lemma WeightsSumToOne(a: real, b: real)
    ensures var w := WeightsOf(a, b); w.w0 + w.w1 + w.w2 == 1.0
  {
    assert b * (1.0 - a) == b - b * a;
  }

  /** The weights `pointOnTriangle` computes at (x, y). */
  function BarycentricWeights(x: real, y: real, t: Tri): (w: Weights)
    requires NonDegenerateAt(x, y, t)
    ensures w.w0 + w.w1 + w.w2 == 1.0
  {
    WeightsSumToOne(Alpha(x, y, t), Beta(x, y, t));
    WeightsOf(Alpha(x, y, t), Beta(x, y, t))
  }

  /** The depth at weights w: w0 z0 + w1 z1 + w2 z2. */
  function Interpolate(w: Weights, t: Tri): real {
    w.w0 * t.v0.z + w.w1 * t.v1.z + w.w2 * t.v2.z
  }

  /** w are barycentric coordinates of (x, y) in the x-y projection of t. */
  predicate IsBarycentric(w: Weights, t: Tri, x: real, y: real) {
    w.w0 >= 0.0 && w.w1 >= 0.0 && w.w2 >= 0.0 && w.w0 + w.w1 + w.w2 == 1.0 &&
    w.w0 * t.v0.x + w.w1 * t.v1.x + w.w2 * t.v2.x == x &&
    w.w0 * t.v0.y + w.w1 * t.v1.y + w.w2 * t.v2.y == y
  }

  function Min3(a: real, b: real, c: real): real {
    if a <= b && a <= c then a else if b <= c then b else c
  }

  function Max3(a: real, b: real, c: real): real {
    if a >= b && a >= c then a else if b >= c then b else c
  }

  /** The tail of `pointOnTriangle` once alpha and beta are known: None when one of the
      weights b*a, b*(1-a), 1-b is negative, otherwise b (a z0 + (1 - a) z1) + (1 - b) z2,
      which is the depth interpolated with those weights. */
  function DepthFromWeights(a: real, b: real, t: Tri): (r: Option<real>)
    ensures r.None? <==> (var w := WeightsOf(a, b); w.w0 < 0.0 || w.w1 < 0.0 || w.w2 < 0.0)
    ensures r.Some? ==> r.value == Interpolate(WeightsOf(a, b), t)
  {
    var w := WeightsOf(a, b);
    if w.w0 < 0.0 || w.w1 < 0.0 || w.w2 < 0.0 then None
    else
      MulAssoc(b, a, t.v0.z);
      MulAssoc(b, 1.0 - a, t.v1.z);
      Some(b * (a * t.v0.z + (1.0 - a) * t.v1.z) + (1.0 - b) * t.v2.z)
  }

  /** `pointOnTriangle(x, y, verts)`. Where one of its two divisors is zero, the source
      computes NaN or an infinity, and the depth test of `rasterizeTriangle` never paints
      such a value; the model answers None there. */
  function PointOnTriangle(x: real, y: real, t: Tri): (r: Option<real>)
    ensures r.Some? ==> NonDegenerateAt(x, y, t)
  {
    if NonDegenerateAt(x, y, t) then DepthFromWeights(Alpha(x, y, t), Beta(x, y, t), t) else None
  }

  lemma DetNumAsCross(x: real, y: real, x1: real, y1: real, x2: real, y2: real)
    ensures x * (y1 - y2) - x1 * (y - y2) + x2 * (y - y1) == (x - x2) * (y1 - y2) - (y - y2) * (x1 - x2)
  {
  }

  lemma CrossOfAffine(a: real, ex: real, ey: real, fx: real, fy: real, px: real, py: real)
    ensures px * (a * ey + fy) - py * (a * ex + fx) == a * (px * ey - py * ex) + (px * fy - py * fx)
  {
    MulAssoc(px, a, ey);
    MulAssoc(py, a, ex);
  }

  /** From b * d == p and d * q == r * ... : the y-reconstruction step. */
  lemma QuotientTimes(p: real, d: real, e: real, r: real)
    requires d != 0.0 && p * e == r * d
    ensures (p / d) * e == r
  {
    assert (p / d) * e == (p * e) / d;
    assert (r * d) / d == r;
  }

  /** The computed weights reproduce (x, y): the barycentric formulas of `pointOnTriangle`
      solve v = beta * (alpha * v0 + (1 - alpha) * v1) + (1 - beta) * v2. */
  lemma WeightsReproducePoint(x: real, y: real, t: Tri)
    requires NonDegenerateAt(x, y, t)
    ensures var w := BarycentricWeights(x, y, t);
      w.w0 * t.v0.x + w.w1 * t.v1.x + w.w2 * t.v2.x == x &&
      w.w0 * t.v0.y + w.w1 * t.v1.y + w.w2 * t.v2.y == y
  {
    var a, b := Alpha(x, y, t), Beta(x, y, t);
    var d := BetaDen(x, y, t);
    var w := BarycentricWeights(x, y, t);
    var X0, X1, X2, Y0, Y1, Y2 := t.v0.x, t.v1.x, t.v2.x, t.v0.y, t.v1.y, t.v2.y;
    // x: the weights combine to b * d + X2, and b * d = x - X2.
    assert w.w0 * X0 + w.w1 * X1 + w.w2 * X2 == b * (a * (X0 - X1) + (X1 - X2)) + X2 by {
      MulAssoc(b, a, X0);
      MulAssoc(b, a, X1);
      MulAssoc(b, 1.0, X1);
    }
    assert b * d == x - X2;
    // y: the weights combine to b * e + Y2, where e = a (Y0 - Y1) + (Y1 - Y2).
    var e := a * (Y0 - Y1) + (Y1 - Y2);
    assert w.w0 * Y0 + w.w1 * Y1 + w.w2 * Y2 == b * e + Y2 by {
      MulAssoc(b, a, Y0);
      MulAssoc(b, a, Y1);
      MulAssoc(b, 1.0, Y1);
    }
    // (x - X2) e - (y - Y2) d = a * DetDen + DetNum = 0.
    CrossOfAffine(a, X0 - X1, Y0 - Y1, X1 - X2, Y1 - Y2, x - X2, y - Y2);
    DetNumAsCross(x, y, X1, Y1, X2, Y2);
    assert a * DetDen(x, y, t) == -DetNum(x, y, t);
    assert (x - X2) * e == (y - Y2) * d;
    QuotientTimes(x - X2, d, e, y - Y2);
  }

  lemma MulNonneg(a: real, b: real)
    requires a >= 0.0 && b >= 0.0
    ensures a * b >= 0.0
  {
  }

  lemma MulLe(a: real, b: real, m: real)
    requires a <= b && m >= 0.0
    ensures a * m <= b * m && m * a <= m * b
  {
    MulNonneg(b - a, m);
  }

  lemma WeightedConstant(w: Weights, k: real)
    requires w.w0 + w.w1 + w.w2 == 1.0
    ensures w.w0 * k + w.w1 * k + w.w2 * k == k
  {
    Distrib4(w.w0, w.w1, w.w2, 0.0, k);
  }

  lemma SumLe(a0: real, a1: real, a2: real, b0: real, b1: real, b2: real)
    requires a0 <= b0 && a1 <= b1 && a2 <= b2
    ensures a0 + a1 + a2 <= b0 + b1 + b2
  {
  }

  /** Each weighted term lies between the weighted lower and upper bounds. */
  lemma WeightedLower(w: Weights, lo: real, z0: real, z1: real, z2: real)
    requires w.w0 >= 0.0 && w.w1 >= 0.0 && w.w2 >= 0.0
    requires lo <= z0 && lo <= z1 && lo <= z2
    ensures w.w0 * lo + w.w1 * lo + w.w2 * lo <= w.w0 * z0 + w.w1 * z1 + w.w2 * z2
  {
    MulLe(lo, z0, w.w0);
    MulLe(lo, z1, w.w1);
    MulLe(lo, z2, w.w2);
    SumLe(w.w0 * lo, w.w1 * lo, w.w2 * lo, w.w0 * z0, w.w1 * z1, w.w2 * z2);
  }

  lemma WeightedUpper(w: Weights, hi: real, z0: real, z1: real, z2: real)
    requires w.w0 >= 0.0 && w.w1 >= 0.0 && w.w2 >= 0.0
    requires z0 <= hi && z1 <= hi && z2 <= hi
    ensures w.w0 * z0 + w.w1 * z1 + w.w2 * z2 <= w.w0 * hi + w.w1 * hi + w.w2 * hi
  {
    MulLe(z0, hi, w.w0);
    MulLe(z1, hi, w.w1);
    MulLe(z2, hi, w.w2);
    SumLe(w.w0 * z0, w.w1 * z1, w.w2 * z2, w.w0 * hi, w.w1 * hi, w.w2 * hi);
  }

  /** Non-negative weights that sum to 1 keep the interpolated value between the smallest
      and the largest of the three values. */
  lemma ConvexBounds(w: Weights, z0: real, z1: real, z2: real)
    requires w.w0 >= 0.0 && w.w1 >= 0.0 && w.w2 >= 0.0 && w.w0 + w.w1 + w.w2 == 1.0
    ensures Min3(z0, z1, z2) <= w.w0 * z0 + w.w1 * z1 + w.w2 * z2 <= Max3(z0, z1, z2)
  {
    var lo, hi := Min3(z0, z1, z2), Max3(z0, z1, z2);
    WeightedLower(w, lo, z0, z1, z2);
    WeightedUpper(w, hi, z0, z1, z2);
    WeightedConstant(w, lo);
    WeightedConstant(w, hi);
  }

  /** A depth from `pointOnTriangle` is the interpolation with the barycentric weights, all of
      which are then non-negative. */
  lemma WeightsNonNegative(x: real, y: real, t: Tri)
    requires PointOnTriangle(x, y, t).Some?
    ensures var w := BarycentricWeights(x, y, t); w.w0 >= 0.0 && w.w1 >= 0.0 && w.w2 >= 0.0
    ensures PointOnTriangle(x, y, t).value == Interpolate(BarycentricWeights(x, y, t), t)
  {
  }

  /** When `pointOnTriangle` returns a depth, (x, y) lies in the triangle's x-y projection,
      with the weights it used as barycentric coordinates. */
  lemma PointOnTriangleInside(x: real, y: real, t: Tri)
    requires PointOnTriangle(x, y, t).Some?
    ensures IsBarycentric(BarycentricWeights(x, y, t), t, x, y)
  {
    WeightsNonNegative(x, y, t);
    WeightsReproducePoint(x, y, t);
  }

  /** The depth `pointOnTriangle` returns lies between the vertices' depths. */
  lemma DepthBetweenVertices(x: real, y: real, t: Tri)
    requires PointOnTriangle(x, y, t).Some?
    ensures Min3(t.v0.z, t.v1.z, t.v2.z) <= PointOnTriangle(x, y, t).value <= Max3(t.v0.z, t.v1.z, t.v2.z)
  {
    WeightsNonNegative(x, y, t);
    InterpolationBounds(PointOnTriangle(x, y, t), BarycentricWeights(x, y, t), t);
  }

  lemma InterpolationBounds(r: Option<real>, w: Weights, t: Tri)
    requires w.w0 >= 0.0 && w.w1 >= 0.0 && w.w2 >= 0.0 && w.w0 + w.w1 + w.w2 == 1.0
    requires r == Some(Interpolate(w, t))
    ensures Min3(t.v0.z, t.v1.z, t.v2.z) <= r.value <= Max3(t.v0.z, t.v1.z, t.v2.z)
  {
    var z := w.w0 * t.v0.z + w.w1 * t.v1.z + w.w2 * t.v2.z;
    assert r.value == Interpolate(w, t) == z;
    ConvexBounds(w, t.v0.z, t.v1.z, t.v2.z);
    assert Min3(t.v0.z, t.v1.z, t.v2.z) <= z <= Max3(t.v0.z, t.v1.z, t.v2.z);
  }

  /** A point that gets a depth lies within the x and y extent of the triangle. */
  lemma PointWithinExtent(x: real, y: real, t: Tri)
    requires PointOnTriangle(x, y, t).Some?
    ensures Min3(t.v0.x, t.v1.x, t.v2.x) <= x <= Max3(t.v0.x, t.v1.x, t.v2.x)
    ensures Min3(t.v0.y, t.v1.y, t.v2.y) <= y <= Max3(t.v0.y, t.v1.y, t.v2.y)
  {
    PointOnTriangleInside(x, y, t);
    BarycentricExtent(BarycentricWeights(x, y, t), t, x, y);
  }

  lemma BarycentricExtent(w: Weights, t: Tri, x: real, y: real)
    requires IsBarycentric(w, t, x, y)
    ensures Min3(t.v0.x, t.v1.x, t.v2.x) <= x <= Max3(t.v0.x, t.v1.x, t.v2.x)
    ensures Min3(t.v0.y, t.v1.y, t.v2.y) <= y <= Max3(t.v0.y, t.v1.y, t.v2.y)
  {
    ConvexBounds(w, t.v0.x, t.v1.x, t.v2.x);
    ConvexBounds(w, t.v0.y, t.v1.y, t.v2.y);
  }

  /** Twice the signed area of the triangle's x-y projection. */
  function Area2(t: Tri): real {
    Orientation2D(Vec2(t.v0.x, t.v0.y), Vec2(t.v1.x, t.v1.y), Vec2(t.v2.x, t.v2.y))
  }

  /** Two independent 2-D directions combine to zero only with zero coefficients. */
  lemma IndependentDirections(p: real, q: real, ex: real, ey: real, fx: real, fy: real)
    requires ex * fy - ey * fx != 0.0
    requires p * ex + q * fx == 0.0 && p * ey + q * fy == 0.0
    ensures p == 0.0 && q == 0.0
  {
    assert p * (ex * fy - ey * fx) == fy * (p * ex + q * fx) - fx * (p * ey + q * fy);
    assert q * (ex * fy - ey * fx) == ex * (p * ey + q * fy) - ey * (p * ex + q * fx);
  }

  /** Barycentric coordinates in a triangle of non-zero area are unique. */
  lemma BarycentricUnique(u: Weights, w: Weights, t: Tri, x: real, y: real)
    requires Area2(t) != 0.0
    requires u.w0 + u.w1 + u.w2 == 1.0 && w.w0 + w.w1 + w.w2 == 1.0
    requires u.w0 * t.v0.x + u.w1 * t.v1.x + u.w2 * t.v2.x == x
    requires u.w0 * t.v0.y + u.w1 * t.v1.y + u.w2 * t.v2.y == y
    requires w.w0 * t.v0.x + w.w1 * t.v1.x + w.w2 * t.v2.x == x
    requires w.w0 * t.v0.y + w.w1 * t.v1.y + w.w2 * t.v2.y == y
    ensures u == w
  {
    var ex, ey := t.v1.x - t.v0.x, t.v1.y - t.v0.y;
    var fx, fy := t.v2.x - t.v0.x, t.v2.y - t.v0.y;
    var p, q := u.w1 - w.w1, u.w2 - w.w2;
    // With weights that sum to 1, the combination is v0 + w1 (v1 - v0) + w2 (v2 - v0).
    assert u.w0 * t.v0.x + u.w1 * t.v1.x + u.w2 * t.v2.x == t.v0.x + u.w1 * ex + u.w2 * fx;
    assert w.w0 * t.v0.x + w.w1 * t.v1.x + w.w2 * t.v2.x == t.v0.x + w.w1 * ex + w.w2 * fx;
    assert u.w0 * t.v0.y + u.w1 * t.v1.y + u.w2 * t.v2.y == t.v0.y + u.w1 * ey + u.w2 * fy;
    assert w.w0 * t.v0.y + w.w1 * t.v1.y + w.w2 * t.v2.y == t.v0.y + w.w1 * ey + w.w2 * fy;
    assert p * ex + q * fx == 0.0;
    assert p * ey + q * fy == 0.0;
    IndependentDirections(p, q, ex, ey, fx, fy);
  }

  /** Conversely, a point inside a triangle of non-zero area gets a depth from
      `pointOnTriangle`, and it is the one interpolated with the point's own barycentric
      coordinates. */
  lemma InsideGivesDepth(u: Weights, x: real, y: real, t: Tri)
    requires NonDegenerateAt(x, y, t) && Area2(t) != 0.0
    requires IsBarycentric(u, t, x, y)
    ensures PointOnTriangle(x, y, t) == Some(Interpolate(u, t))
  {
    WeightsReproducePoint(x, y, t);
    BarycentricUnique(u, BarycentricWeights(x, y, t), t, x, y);
  }

  // ---------------------------------------------------------------------------------------
  // The pixel grid: view2pix and pix2view of rasterizeTriangle.

  /** Python's `int()` on a float: truncation toward zero. */
  function Trunc(r: real): (i: int)
    ensures r >= 0.0 ==> 0 <= i && i as real <= r < i as real + 1.0
    ensures r < 0.0 ==> i <= 0 && i as real - 1.0 < r <= i as real
  {
    if r >= 0.0 then r.Floor else -((-r).Floor)
  }

  lemma TruncMonotone(r: real, s: real)
    requires r <= s
    ensures Trunc(r) <= Trunc(s)
  {
  }

  /** o = 1/n - 1 and s = 2/n: the centre of pixel a is at o + s a. */
  function PixOffset(n: nat): real
    requires n > 0
  {
    1.0 / (n as real) - 1.0
  }

  function PixStep(n: nat): real
    requires n > 0
  {
    2.0 / (n as real)
  }

  /** `view2pix` along one axis with n pixels: int(0.5 + (x - o) / s). */
  function ViewToPix(x: real, n: nat): int
    requires n > 0
  {
    Trunc(0.5 + (x - PixOffset(n)) / PixStep(n))
  }

  /** `pix2view` along one axis: o + s a. */
  function PixToView(a: int, n: nat): real
    requires n > 0
  {
    PixOffset(n) + PixStep(n) * (a as real)
  }

  /** view2pix is int((x + 1) n / 2). */
  lemma ViewToPixClosedForm(x: real, n: nat)
    requires n > 0
    ensures ViewToPix(x, n) == Trunc((x + 1.0) * (n as real) / 2.0)
  {
    var m := n as real;
    assert (x - PixOffset(n)) / PixStep(n) == (x + 1.0 - 1.0 / m) * m / 2.0;
    assert (x + 1.0 - 1.0 / m) * m == (x + 1.0) * m - 1.0;
  }

  /** pix2view is ((2 a + 1) / n) - 1. */
  lemma PixToViewForm(a: int, n: nat)
    requires n > 0
    ensures PixToView(a, n) == (2.0 * (a as real) + 1.0) / (n as real) - 1.0
  {
  }

  lemma CentreScaled(a: real, m: real)
    requires m > 0.0
    ensures ((2.0 * a + 1.0) / m - 1.0 + 1.0) * m / 2.0 == a + 0.5
  {
    var r := (2.0 * a + 1.0) / m;
    assert r * m == 2.0 * a + 1.0;
  }

  lemma DivNonneg(p: real, m: real)
    requires p >= 0.0 && m > 0.0
    ensures p / m >= 0.0
  {
  }

  lemma CentreRange(a: real, m: real)
    requires m > 0.0 && 0.0 <= a <= m - 1.0
    ensures 0.0 < 1.0 / m <= (2.0 * a + 1.0) / m <= 2.0 - 1.0 / m
  {
    var r := (2.0 * a + 1.0) / m;
    assert r * m == 2.0 * a + 1.0;
    var q := 1.0 / m;
    assert q * m == 1.0;
    DivNonneg(1.0, m);
    assert q != 0.0;
    assert r - q == (2.0 * a) / m;
    DivNonneg(2.0 * a, m);
    assert 2.0 - q - r == (2.0 * m - 2.0 - 2.0 * a) / m;
    DivNonneg(2.0 * m - 2.0 - 2.0 * a, m);
  }

  /** The centre of pixel a is mapped back to a. */
  lemma PixelRoundTrip(a: int, n: nat)
    requires n > 0 && 0 <= a
    ensures ViewToPix(PixToView(a, n), n) == a
  {
    ViewToPixClosedForm(PixToView(a, n), n);
    PixToViewForm(a, n);
    CentreScaled(a as real, n as real);
  }

  /** Pixel centres lie in [-1 + 1/n, 1 - 1/n], strictly inside (-1, 1). */
  lemma PixelCentreInView(a: int, n: nat)
    requires n > 0 && 0 <= a < n
    ensures -1.0 < PixToView(a, n) < 1.0
    ensures -1.0 + 1.0 / (n as real) <= PixToView(a, n) <= 1.0 - 1.0 / (n as real)
  {
    PixToViewForm(a, n);
    CentreRange(a as real, n as real);
  }

  lemma ShiftedQuotientMonotone(u: real, v: real, o: real, k: real)
    requires u <= v && k > 0.0
    ensures Trunc(0.5 + (u - o) / k) <= Trunc(0.5 + (v - o) / k)
  {
    DivNonneg(v - u, k);
    assert (v - o) / k - (u - o) / k == (v - u) / k;
    TruncMonotone(0.5 + (u - o) / k, 0.5 + (v - o) / k);
  }

  /** view2pix is monotone. */
  lemma ViewToPixMonotone(x1: real, x2: real, n: nat)
    requires n > 0 && x1 <= x2
    ensures ViewToPix(x1, n) <= ViewToPix(x2, n)
  {
    ShiftedQuotientMonotone(x1, x2, PixOffset(n), PixStep(n));
  }

  lemma ScaledUnitRange(x: real, m: real)
    requires m > 0.0 && -1.0 <= x <= 1.0 - 1.0 / m
    ensures 0.0 <= (x + 1.0) * m / 2.0 <= m - 0.5
  {
    MulLe(0.0, x + 1.0, m);
    MulLe(x + 1.0, 2.0 - 1.0 / m, m);
    assert (1.0 / m) * m == 1.0;
    assert (2.0 - 1.0 / m) * m == 2.0 * m - 1.0;
  }

  /** On the clamped range [-1, 1 - 1/n], view2pix lands on a pixel index in [0, n - 1]. */
  lemma ViewToPixInRange(x: real, n: nat)
    requires n > 0 && -1.0 <= x <= 1.0 - 1.0 / (n as real)
    ensures 0 <= ViewToPix(x, n) <= n - 1
  {
    ViewToPixClosedForm(x, n);
    ScaledUnitRange(x, n as real);
  }

  // ---------------------------------------------------------------------------------------
  // The bounding box, clipped to the view volume.

  datatype Box = Box(minA: int, maxA: int, minB: int, maxB: int)

  function MaxR(a: real, b: real): real { if a >= b then a else b }
  function MinR(a: real, b: real): real { if a <= b then a else b }

  /** min_x = max(-1, min X), max_x = min(1 - 1/W, max X), and likewise for y. */
  function ClampLo(v: real): real { MaxR(-1.0, v) }
  function ClampHi(v: real, n: nat): real
    requires n > 0
  {
    MinR(1.0 - 1.0 / (n as real), v)
  }

  /** The pixel box rasterizeTriangle visits. Its corners are in the image: the lower one
      because min_x >= -1, the upper one because max_x <= 1 - 1/W. */
  function BoundingBox(t: Tri, w: nat, h: nat): (bx: Box)
    requires w > 0 && h > 0
    ensures 0 <= bx.minA && bx.maxA <= w - 1
    ensures 0 <= bx.minB && bx.maxB <= h - 1
  {
    var minX, maxX := ClampLo(Min3(t.v0.x, t.v1.x, t.v2.x)), ClampHi(Max3(t.v0.x, t.v1.x, t.v2.x), w);
    var minY, maxY := ClampLo(Min3(t.v0.y, t.v1.y, t.v2.y)), ClampHi(Max3(t.v0.y, t.v1.y, t.v2.y), h);
    BoxCorners(minX, maxX, w);
    BoxCorners(minY, maxY, h);
    Box(ViewToPix(minX, w), ViewToPix(maxX, w), ViewToPix(minY, h), ViewToPix(maxY, h))
  }

  lemma BoxCorners(lo: real, hi: real, n: nat)
    requires n > 0 && lo >= -1.0 && hi <= 1.0 - 1.0 / (n as real)
    ensures 0 <= ViewToPix(lo, n) && ViewToPix(hi, n) <= n - 1
  {
    var m := n as real;
    ViewToPixClosedForm(lo, n);
    MulNonneg(lo + 1.0, m);
    if hi >= -1.0 {
      ViewToPixInRange(hi, n);
    } else {
      ViewToPixClosedForm(hi, n);
      MulLe(hi + 1.0, 0.0, m);
    }
  }

  predicate InBox(bx: Box, a: int, b: int) {
    bx.minA <= a <= bx.maxA && bx.minB <= b <= bx.maxB
  }

  /** The box misses no pixel whose centre the triangle covers. */
  lemma BoxHoldsCoveredPixels(t: Tri, w: nat, h: nat, a: int, b: int)
    requires w > 0 && h > 0 && 0 <= a < w && 0 <= b < h
    requires PointOnTriangle(PixToView(a, w), PixToView(b, h), t).Some?
    ensures InBox(BoundingBox(t, w, h), a, b)
  {
    var x, y := PixToView(a, w), PixToView(b, h);
    PointWithinExtent(x, y, t);
    PixelRoundTrip(a, w);
    PixelRoundTrip(b, h);
    PixelCentreInView(a, w);
    PixelCentreInView(b, h);
    ViewToPixMonotone(ClampLo(Min3(t.v0.x, t.v1.x, t.v2.x)), x, w);
    ViewToPixMonotone(x, ClampHi(Max3(t.v0.x, t.v1.x, t.v2.x), w), w);
    ViewToPixMonotone(ClampLo(Min3(t.v0.y, t.v1.y, t.v2.y)), y, h);
    ViewToPixMonotone(y, ClampHi(Max3(t.v0.y, t.v1.y, t.v2.y), h), h);
  }

  // ---------------------------------------------------------------------------------------
  // rasterizeTriangle

  /** The fragment of t at pixel (a, b): the depth pointOnTriangle gives at the pixel centre
      when the pixel is in the box, None otherwise. */
  function Fragment(t: Tri, w: nat, h: nat, a: int, b: int): (f: Option<real>)
    requires w > 0 && h > 0
    ensures f.Some? ==> InBox(BoundingBox(t, w, h), a, b)
  {
    if InBox(BoundingBox(t, w, h), a, b) then PointOnTriangle(PixToView(a, w), PixToView(b, h), t) else None
  }

  /** The z-buffer test: paint when the fragment is nearer than the stored depth (larger z
      is nearer in the canonical view volume) and in front of the plane z = 1. */
  predicate Paints(stored: real, f: Option<real>) {
    f.Some? && f.value > stored && f.value < 1.0
  }

  function DepthAfter(stored: real, f: Option<real>): (d: real)
    ensures d >= stored
    ensures stored < 1.0 ==> d < 1.0
    ensures d == stored || (f.Some? && d == f.value)
  {
    if Paints(stored, f) then f.value else stored
  }

  /** The z-buffer test on one fragment p at pixel (a, b); no other pixel changes. */
  method PaintPixel(p: Option<real>, color: Vec3, img: array3<real>, zBuf: array2<real>, a: int, b: int)
    requires 0 <= a < zBuf.Length0 && 0 <= b < zBuf.Length1
    requires img.Length0 == zBuf.Length0 && img.Length1 == zBuf.Length1 && img.Length2 == 3
    modifies img, zBuf
    ensures zBuf[a, b] == DepthAfter(old(zBuf[a, b]), p)
    ensures forall i, j :: 0 <= i < zBuf.Length0 && 0 <= j < zBuf.Length1 && (i != a || j != b) ==>
      zBuf[i, j] == old(zBuf[i, j])
    ensures forall k :: 0 <= k < 3 ==>
      img[a, b, k] == if Paints(old(zBuf[a, b]), p) then Get3(color, k) else old(img[a, b, k])
    ensures forall i, j, k :: 0 <= i < img.Length0 && 0 <= j < img.Length1 && 0 <= k < 3 && (i != a || j != b) ==>
      img[i, j, k] == old(img[i, j, k])
  {
    if p.Some? && p.value > zBuf[a, b] && p.value < 1.0 {
      zBuf[a, b] := p.value;
      img[a, b, 0] := color.x;
      img[a, b, 1] := color.y;
      img[a, b, 2] := color.z;
    }
  }

  /** `rasterizeTriangle(verts, color, img, z_buf)`: every pixel (a, b) of the image ends
      as the z-buffer test on its fragment decides, and nothing else changes. */
  method RasterizeTriangle(t: Tri, color: Vec3, img: array3<real>, zBuf: array2<real>)
    requires zBuf.Length0 > 0 && zBuf.Length1 > 0
    requires img.Length0 == zBuf.Length0 && img.Length1 == zBuf.Length1 && img.Length2 == 3
    modifies img, zBuf
    ensures forall a, b :: 0 <= a < zBuf.Length0 && 0 <= b < zBuf.Length1 ==>
      zBuf[a, b] == DepthAfter(old(zBuf[a, b]), Fragment(t, zBuf.Length0, zBuf.Length1, a, b))
    ensures forall a, b, k :: 0 <= a < zBuf.Length0 && 0 <= b < zBuf.Length1 && 0 <= k < 3 ==>
      img[a, b, k] == if Paints(old(zBuf[a, b]), Fragment(t, zBuf.Length0, zBuf.Length1, a, b))
                      then Get3(color, k) else old(img[a, b, k])
  {
    var w, h := zBuf.Length0, zBuf.Length1;
    var bx := BoundingBox(t, w, h);
    var a := bx.minA;
    while a <= bx.maxA
      invariant bx.minA <= a <= bx.maxA + 1 || a == bx.minA
      invariant forall i, j :: 0 <= i < w && 0 <= j < h ==>
        zBuf[i, j] == if i < a then DepthAfter(old(zBuf[i, j]), Fragment(t, w, h, i, j)) else old(zBuf[i, j])
      invariant forall i, j, k :: 0 <= i < w && 0 <= j < h && 0 <= k < 3 ==>
        img[i, j, k] == if i < a && Paints(old(zBuf[i, j]), Fragment(t, w, h, i, j))
                        then Get3(color, k) else old(img[i, j, k])
    {
      var b := bx.minB;
      while b <= bx.maxB
        invariant bx.minB <= b <= bx.maxB + 1 || b == bx.minB
        invariant forall i, j :: 0 <= i < w && 0 <= j < h ==>
          zBuf[i, j] == if i < a || (i == a && j < b) then DepthAfter(old(zBuf[i, j]), Fragment(t, w, h, i, j))
                        else old(zBuf[i, j])
        invariant forall i, j, k :: 0 <= i < w && 0 <= j < h && 0 <= k < 3 ==>
          img[i, j, k] == if (i < a || (i == a && j < b)) && Paints(old(zBuf[i, j]), Fragment(t, w, h, i, j))
                          then Get3(color, k) else old(img[i, j, k])
      {
        var p := PointOnTriangle(PixToView(a, w), PixToView(b, h), t);
        PaintPixel(p, color, img, zBuf, a, b);
        b := b + 1;
      }
      a := a + 1;
    }
  }

  // ---------------------------------------------------------------------------------------
  // The vertical line through the third vertex

  /** As written, `pointOnTriangle` gives no depth anywhere on the vertical line x = X2
      through the third vertex: wherever DetDen is not zero, alpha (X0 - X1) = X2 - X1 there,
      so the divisor of beta is zero. */
  lemma ApexColumnMissed(y: real, t: Tri)
    ensures !NonDegenerateAt(t.v2.x, y, t)
    ensures PointOnTriangle(t.v2.x, y, t) == None
  {
    var x := t.v2.x;
    if DetDen(x, y, t) != 0.0 {
      var dx, dy, c := t.v0.x - t.v1.x, y - t.v2.y, t.v2.x - t.v1.x;
      assert DetDen(x, y, t) == -(dx * dy);
      assert DetNum(x, y, t) == c * dy;
      var a := Alpha(x, y, t);
      assert a * -(dx * dy) == -(c * dy);
      MulAssoc(a, dx, dy);
      CancelFactor(a * dx, c, dy);
      assert BetaDen(x, y, t) == 0.0;
    }
  }

  lemma CancelFactor(p: real, q: real, d: real)
    requires d != 0.0 && -(p * d) == -(q * d)
    ensures p == q
  {
    assert (p - q) * d == 0.0;
  }

  /** The triangle (-1/2, -1/2), (1/2, -1/2), (0, 1/2), with depths 0, 0 and 1/2. */
  function ApexExample(): Tri {
    Tri(Vec4(-0.5, -0.5, 0.0, 1.0), Vec4(0.5, -0.5, 0.0, 1.0), Vec4(0.0, 0.5, 0.5, 1.0))
  }

  /** On a 3 x 3 image, the centre (0, 0) of pixel (1, 1) lies inside `ApexExample()`, with
      barycentric coordinates (1/4, 1/4, 1/2), and the pixel is in the triangle's box; yet as
      written the pixel gets no fragment, so `rasterizeTriangle` leaves it unpainted. The
      corrected function gives it depth 1/4. */
  lemma ApexPixelUnpainted()
    ensures PixToView(1, 3) == 0.0
    ensures Area2(ApexExample()) != 0.0 && IsBarycentric(Weights(0.25, 0.25, 0.5), ApexExample(), 0.0, 0.0)
    ensures InBox(BoundingBox(ApexExample(), 3, 3), 1, 1)
    ensures Fragment(ApexExample(), 3, 3, 1, 1) == None
    ensures PointOnTriangleIntended(0.0, 0.0, ApexExample()) == Some(0.25)
  {
    ApexCentre();
    ApexInside();
    ApexBox();
    ApexFragment();
    ApexIntended();
  }

  lemma ApexIntended()
    ensures PointOnTriangleIntended(0.0, 0.0, ApexExample()) == Some(0.25)
  {
    UnitAreaEdgeWeights(0.0, 0.0, ApexExample());
  }

  /** For a triangle with Area2(t) = 1 the edge weights need no division. */
  lemma UnitAreaEdgeWeights(x: real, y: real, t: Tri)
    requires Area2(t) == 1.0
    ensures EdgeWeights(x, y, t).w0 == (x - t.v2.x) * (t.v1.y - t.v2.y) - (y - t.v2.y) * (t.v1.x - t.v2.x)
    ensures EdgeWeights(x, y, t).w1 == (t.v0.x - t.v2.x) * (y - t.v2.y) - (t.v0.y - t.v2.y) * (x - t.v2.x)
    ensures EdgeWeights(x, y, t).w2 == 1.0 - EdgeWeights(x, y, t).w0 - EdgeWeights(x, y, t).w1
  {
  }

  lemma ApexFragment()
    ensures Fragment(ApexExample(), 3, 3, 1, 1) == None
  {
    var t := ApexExample();
    ApexCentre();
    ApexBox();
    assert Fragment(t, 3, 3, 1, 1) == PointOnTriangle(0.0, 0.0, t);
    ApexColumnMissed(0.0, t);
  }

  lemma ApexCentre()
    ensures PixToView(1, 3) == 0.0
  {
    PixToViewForm(1, 3);
  }

  lemma ApexInside()
    ensures Area2(ApexExample()) == 1.0
    ensures IsBarycentric(Weights(0.25, 0.25, 0.5), ApexExample(), 0.0, 0.0)
    ensures Interpolate(Weights(0.25, 0.25, 0.5), ApexExample()) == 0.25
  {
  }

  lemma ApexBox()
    ensures BoundingBox(ApexExample(), 3, 3) == Box(0, 2, 0, 2)
  {
    var t := ApexExample();
    assert Min3(t.v0.x, t.v1.x, t.v2.x) == -0.5 && Max3(t.v0.x, t.v1.x, t.v2.x) == 0.5;
    assert Min3(t.v0.y, t.v1.y, t.v2.y) == -0.5 && Max3(t.v0.y, t.v1.y, t.v2.y) == 0.5;
    assert ClampLo(-0.5) == -0.5;
    assert ClampHi(0.5, 3) == 0.5;
    ViewToPixClosedForm(-0.5, 3);
    ViewToPixClosedForm(0.5, 3);
    assert Trunc(0.75) == 0;
    assert Trunc(2.25) == 2;
  }

  /** The barycentric coordinates of (x, y) by Cramer's rule on the edges v0 - v2 and
      v1 - v2, whose determinant is Area2(t). */
  function EdgeWeights(x: real, y: real, t: Tri): Weights
    requires Area2(t) != 0.0
  {
    var ex, ey, fx, fy := t.v0.x - t.v2.x, t.v0.y - t.v2.y, t.v1.x - t.v2.x, t.v1.y - t.v2.y;
    var dx, dy := x - t.v2.x, y - t.v2.y;
    var d := Area2(t);
    var w0, w1 := (dx * fy - dy * fx) / d, (ex * dy - ey * dx) / d;
    Weights(w0, w1, 1.0 - w0 - w1)
  }

  /** Area2(t) is the determinant of the edges v0 - v2 and v1 - v2. */
  lemma AreaOfEdges(t: Tri)
    ensures Area2(t) == (t.v0.x - t.v2.x) * (t.v1.y - t.v2.y) - (t.v0.y - t.v2.y) * (t.v1.x - t.v2.x)
  {
    Orientation2DSign(Vec2(t.v2.x, t.v2.y), Vec2(t.v0.x, t.v0.y), Vec2(t.v1.x, t.v1.y), 0.0);
  }

  /** Cramer's rule for one coordinate. */
  lemma CramerStep(p: real, q: real, d: real, e: real, f: real, r: real)
    requires d != 0.0 && p * e + q * f == r * d
    ensures (p / d) * e + (q / d) * f == r
  {
    assert (p / d) * e == (p * e) / d;
    assert (q / d) * f == (q * f) / d;
  }

  /** The edge weights sum to 1 and reproduce (x, y). */
  lemma EdgeWeightsReproduce(x: real, y: real, t: Tri)
    requires Area2(t) != 0.0
    ensures var w := EdgeWeights(x, y, t);
      w.w0 + w.w1 + w.w2 == 1.0 &&
      w.w0 * t.v0.x + w.w1 * t.v1.x + w.w2 * t.v2.x == x &&
      w.w0 * t.v0.y + w.w1 * t.v1.y + w.w2 * t.v2.y == y
  {
    var ex, ey, fx, fy := t.v0.x - t.v2.x, t.v0.y - t.v2.y, t.v1.x - t.v2.x, t.v1.y - t.v2.y;
    var dx, dy := x - t.v2.x, y - t.v2.y;
    var d := Area2(t);
    var p, q := dx * fy - dy * fx, ex * dy - ey * dx;
    var w := EdgeWeights(x, y, t);
    AreaOfEdges(t);
    assert d == ex * fy - ey * fx;
    assert p * ex + q * fx == dx * d;
    assert p * ey + q * fy == dy * d;
    CramerStep(p, q, d, ex, fx, dx);
    CramerStep(p, q, d, ey, fy, dy);
    assert w.w0 * t.v0.x + w.w1 * t.v1.x + w.w2 * t.v2.x == t.v2.x + w.w0 * ex + w.w1 * fx;
    assert w.w0 * t.v0.y + w.w1 * t.v1.y + w.w2 * t.v2.y == t.v2.y + w.w0 * ey + w.w1 * fy;
  }

  /** `pointOnTriangle` as evidently intended: the depth interpolated with the barycentric
      coordinates of (x, y), for every point of a triangle of non-zero area, None outside. */
  function PointOnTriangleIntended(x: real, y: real, t: Tri): (r: Option<real>)
    ensures r.Some? ==> Area2(t) != 0.0
  {
    if Area2(t) == 0.0 then None
    else
      var w := EdgeWeights(x, y, t);
      if w.w0 < 0.0 || w.w1 < 0.0 || w.w2 < 0.0 then None else Some(Interpolate(w, t))
  }

  /** A depth from the corrected function means (x, y) is inside, and it is the interpolation
      with the point's barycentric coordinates. */
  lemma IntendedInside(x: real, y: real, t: Tri)
    requires PointOnTriangleIntended(x, y, t).Some?
    ensures IsBarycentric(EdgeWeights(x, y, t), t, x, y)
    ensures PointOnTriangleIntended(x, y, t).value == Interpolate(EdgeWeights(x, y, t), t)
  {
    EdgeWeightsReproduce(x, y, t);
  }

  /** Every point inside a triangle of non-zero area gets its interpolated depth, the vertical
      line through the third vertex included. */
  lemma IntendedCoversTriangle(u: Weights, x: real, y: real, t: Tri)
    requires Area2(t) != 0.0 && IsBarycentric(u, t, x, y)
    ensures PointOnTriangleIntended(x, y, t) == Some(Interpolate(u, t))
  {
    EdgeWeightsReproduce(x, y, t);
    BarycentricUnique(u, EdgeWeights(x, y, t), t, x, y);
  }

  /** Wherever the as-written divisors are non-zero, the corrected function gives what the
      source gives. */
  lemma IntendedAgrees(x: real, y: real, t: Tri)
    requires NonDegenerateAt(x, y, t) && Area2(t) != 0.0
    ensures PointOnTriangle(x, y, t) == PointOnTriangleIntended(x, y, t)
  {
    var w := BarycentricWeights(x, y, t);
    WeightsReproducePoint(x, y, t);
    EdgeWeightsReproduce(x, y, t);
    BarycentricUnique(w, EdgeWeights(x, y, t), t, x, y);
    assert w == WeightsOf(Alpha(x, y, t), Beta(x, y, t)) == EdgeWeights(x, y, t);
    assert PointOnTriangle(x, y, t) == DepthFromWeights(Alpha(x, y, t), Beta(x, y, t), t);
  }
}
