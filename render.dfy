/** The pipeline of `renderRaster` in projection_renderer.py: gather every instance's
    triangles in camera-centric coordinates (`allTriData`), drop the triangles facing away,
    shade the rest by the angle between the view direction and their normal, take them to the
    canonical view volume, and z-buffer them into a white image one after the other. */
module Render {
  import opened LinAlg
  import opened Options
  import opened Raster
  import opened CameraModel

  /** A triangle of a mesh: three indices into the mesh's vertex array. */
  datatype TriIndex = TriIndex(i0: nat, i1: nat, i2: nat)

  /** `node.mesh`: homogeneous vertices and triangles over them. */
  datatype Mesh = Mesh(verts: seq<Vec4>, tris: seq<TriIndex>)

  /** One `(inst_xform, node, surf)` of `getCompositeTransforms`: the instance's transform to
      world coordinates, its mesh, and its surface colour. */
  datatype Instance = Instance(xform: Mat4, mesh: Mesh, color: Vec3)

  const White: Vec3 := Vec3(1.0, 1.0, 1.0)
  const Zero4: Vec4 := Vec4(0.0, 0.0, 0.0, 0.0)

  /** Every triangle index names a vertex (numpy raises IndexError otherwise). */
  predicate ValidMesh(m: Mesh) {
    forall j :: 0 <= j < |m.tris| ==>
      m.tris[j].i0 < |m.verts| && m.tris[j].i1 < |m.verts| && m.tris[j].i2 < |m.verts|
  }

  predicate ValidMeshes(insts: seq<Instance>) {
    forall i :: 0 <= i < |insts| ==> ValidMesh(insts[i].mesh)
  }

  // ---------------------------------------------------------------------------------------
  // allTriData

  /** T, the number of triangles over all instances. */
  function TotalTris(insts: seq<Instance>): nat {
    if |insts| == 0 then 0 else TotalTris(insts[..|insts| - 1]) + |insts[|insts| - 1].mesh.tris|
  }

  /** Vertex k of an instance in camera-centric coordinates: world_to_camera . inst_xform . v. */
  function CamVert(inst: Instance, w2c: Mat4, k: nat): (v: Vec4)
    requires k < |inst.mesh.verts|
    ensures v == Apply(w2c, Apply(inst.xform, inst.mesh.verts[k]))
  {
    ApplyMul(w2c, inst.xform, inst.mesh.verts[k]);
    Apply(Mul(w2c, inst.xform), inst.mesh.verts[k])
  }

  /** `cam_verts[:, tris]` rearranged to one triangle per entry. */
  function InstanceTris(inst: Instance, w2c: Mat4): (ts: seq<Tri>)
    requires ValidMesh(inst.mesh)
    ensures |ts| == |inst.mesh.tris|
  {
    var tris := inst.mesh.tris;
    seq(|tris|, j requires 0 <= j < |tris| =>
      Tri(CamVert(inst, w2c, tris[j].i0), CamVert(inst, w2c, tris[j].i1), CamVert(inst, w2c, tris[j].i2)))
  }

  /** The triangles of all instances, instance after instance. */
  function AllTris(insts: seq<Instance>, w2c: Mat4): (ts: seq<Tri>)
    requires ValidMeshes(insts)
    ensures |ts| == TotalTris(insts)
  {
    if |insts| == 0 then []
    else AllTris(insts[..|insts| - 1], w2c) + InstanceTris(insts[|insts| - 1], w2c)
  }

  /** The colour of every triangle: its instance's surface colour. */
  function AllColors(insts: seq<Instance>): (cs: seq<Vec3>)
    ensures |cs| == TotalTris(insts)
  {
    if |insts| == 0 then []
    else
      var last := insts[|insts| - 1];
      AllColors(insts[..|insts| - 1]) + seq(|last.mesh.tris|, _ => last.color)
  }

  lemma {:induction false} TotalTrisPrefix(insts: seq<Instance>, k: nat)
    requires k <= |insts|
    ensures TotalTris(insts[..k]) <= TotalTris(insts)
    decreases |insts|
  {
    if k < |insts| {
      var front := insts[..|insts| - 1];
      assert front[..k] == insts[..k];
      TotalTrisPrefix(front, k);
    } else {
      assert insts[..k] == insts;
    }
  }

  /** Triangle j of instance k sits at index T_0 + ... + T_(k-1) + j, in both arrays, with the
      instance's camera-centric vertices and its colour. */
  lemma {:induction false} TriLayout(insts: seq<Instance>, w2c: Mat4, k: nat, j: nat)
    requires ValidMeshes(insts) && k < |insts| && j < |insts[k].mesh.tris|
    ensures TotalTris(insts[..k]) + j < TotalTris(insts)
    ensures AllTris(insts, w2c)[TotalTris(insts[..k]) + j] == InstanceTris(insts[k], w2c)[j]
    ensures AllColors(insts)[TotalTris(insts[..k]) + j] == insts[k].color
    decreases |insts|
  {
    var front := insts[..|insts| - 1];
    if k == |insts| - 1 {
      assert insts[..k] == front;
    } else {
      assert front[..k] == insts[..k];
      assert front[k] == insts[k];
      TriLayout(front, w2c, k, j);
    }
  }

  /** The slice assignment `arr[t:t+len(vals)] = vals`. */
  method WriteSlice<T>(arr: array<T>, t: nat, vals: seq<T>)
    requires t + |vals| <= arr.Length
    modifies arr
    ensures arr[..t + |vals|] == old(arr[..t]) + vals
  {
    forall j | 0 <= j < |vals| {
      arr[t + j] := vals[j];
    }
    assert arr[..t + |vals|] == old(arr[..t]) + vals;
  }

  lemma AllTrisStep(insts: seq<Instance>, w2c: Mat4, i: nat)
    requires ValidMeshes(insts) && i < |insts|
    ensures TotalTris(insts[..i + 1]) == TotalTris(insts[..i]) + |insts[i].mesh.tris|
    ensures AllTris(insts[..i + 1], w2c) == AllTris(insts[..i], w2c) + InstanceTris(insts[i], w2c)
    ensures AllColors(insts[..i + 1]) == AllColors(insts[..i]) + seq(|insts[i].mesh.tris|, _ => insts[i].color)
    ensures TotalTris(insts[..i + 1]) <= TotalTris(insts)
  {
    assert insts[..i + 1][..i] == insts[..i];
    TotalTrisPrefix(insts, i + 1);
  }

  /** One pass of the loop of `allTriData`: instance i's triangles and colours go to the
      slots from the running offset t, after those of the instances before it. */
  method AppendInstance(insts: seq<Instance>, w2c: Mat4, i: nat, triVerts: array<Tri>, colors: array<Vec3>, t: nat)
    requires ValidMeshes(insts) && i < |insts|
    requires triVerts.Length == colors.Length == TotalTris(insts)
    requires t == TotalTris(insts[..i]) <= TotalTris(insts)
    requires triVerts[..t] == AllTris(insts[..i], w2c) && colors[..t] == AllColors(insts[..i])
    modifies triVerts, colors
    ensures t + |insts[i].mesh.tris| == TotalTris(insts[..i + 1]) <= TotalTris(insts)
    ensures triVerts[..TotalTris(insts[..i + 1])] == AllTris(insts[..i + 1], w2c)
    ensures colors[..TotalTris(insts[..i + 1])] == AllColors(insts[..i + 1])
  {
    var inst := insts[i];
    var n := |inst.mesh.tris|;
    AllTrisStep(insts, w2c, i);
    WriteSlice(colors, t, seq(n, _ => inst.color));
    WriteSlice(triVerts, t, InstanceTris(inst, w2c));
  }

  /** `allTriData(instances, world_to_camera)`: fills the triangle and colour arrays one
      instance at a time with a running offset t, then takes the normals. */
  method AllTriData(insts: seq<Instance>, w2c: Mat4)
    returns (triVerts: array<Tri>, colors: array<Vec3>, normals: seq<Vec3>)
    requires ValidMeshes(insts)
    ensures fresh(triVerts) && fresh(colors)
    ensures triVerts[..] == AllTris(insts, w2c)
    ensures colors[..] == AllColors(insts)
    ensures normals == TriangleNormals(triVerts[..])
  {
    var total := TotalTris(insts);
    colors := new Vec3[total](_ => Zero3);
    triVerts := new Tri[total](_ => Tri(Zero4, Zero4, Zero4));
    var t := 0;
    for i := 0 to |insts|
      invariant t == TotalTris(insts[..i]) <= total
      invariant triVerts[..t] == AllTris(insts[..i], w2c)
      invariant colors[..t] == AllColors(insts[..i])
    {
      AppendInstance(insts, w2c, i, triVerts, colors, t);
      t := t + |insts[i].mesh.tris|;
    }
    assert insts[..|insts|] == insts;
    normals := TriangleNormals(triVerts[..]);
  }

  // ---------------------------------------------------------------------------------------
  // Back-face culling: `normals[:, 2] > 0` and boolean indexing.

  /** The indices of the triangles whose normal has a positive z component, in order. */
  function FrontFacing(ns: seq<Vec3>): (idx: seq<nat>)
    ensures forall k :: 0 <= k < |idx| ==> idx[k] < |ns| && ns[idx[k]].z > 0.0
    ensures forall k1, k2 :: 0 <= k1 < k2 < |idx| ==> idx[k1] < idx[k2]
    ensures forall i :: 0 <= i < |ns| && ns[i].z > 0.0 ==> i in idx
  {
    if |ns| == 0 then []
    else
      var front := FrontFacing(ns[..|ns| - 1]);
      if ns[|ns| - 1].z > 0.0 then front + [|ns| - 1] else front
  }

  /** Boolean indexing `xs[mask]`, with the mask given by the indices it keeps. */
  function Select<T>(xs: seq<T>, idx: seq<nat>): (r: seq<T>)
    requires forall k :: 0 <= k < |idx| ==> idx[k] < |xs|
    ensures |r| == |idx|
  {
    seq(|idx|, k requires 0 <= k < |idx| => xs[idx[k]])
  }

  /** The front-facing triangles, their colours and their normals, still aligned. */
  function Culled(insts: seq<Instance>, w2c: Mat4): seq<Tri>
    requires ValidMeshes(insts)
  {
    var ts := AllTris(insts, w2c);
    Select(ts, FrontFacing(TriangleNormals(ts)))
  }

  function CulledColors(insts: seq<Instance>, w2c: Mat4): seq<Vec3>
    requires ValidMeshes(insts)
  {
    var ts := AllTris(insts, w2c);
    Select(AllColors(insts), FrontFacing(TriangleNormals(ts)))
  }

  function CulledNormals(insts: seq<Instance>, w2c: Mat4): seq<Vec3>
    requires ValidMeshes(insts)
  {
    var ts := AllTris(insts, w2c);
    Select(TriangleNormals(ts), FrontFacing(TriangleNormals(ts)))
  }

  /** Culling keeps exactly the triangles that face the camera, in their original order, each
      with its own colour and normal. */
  lemma CullingKeepsFrontFaces(insts: seq<Instance>, w2c: Mat4)
    requires ValidMeshes(insts)
    ensures var ts, keep := AllTris(insts, w2c), FrontFacing(TriangleNormals(AllTris(insts, w2c)));
      |Culled(insts, w2c)| == |CulledColors(insts, w2c)| == |CulledNormals(insts, w2c)| == |keep| &&
      (forall k :: 0 <= k < |keep| ==>
        Culled(insts, w2c)[k] == ts[keep[k]] &&
        CulledColors(insts, w2c)[k] == AllColors(insts)[keep[k]] &&
        CulledNormals(insts, w2c)[k] == TriangleNormal(ts[keep[k]]) &&
        TriangleNormal(ts[keep[k]]).z > 0.0) &&
      (forall i :: 0 <= i < |ts| && TriangleNormal(ts[i]).z > 0.0 ==> i in keep)
  {
  }

  // ---------------------------------------------------------------------------------------
  // Shading

  /** `z.dot(n) / norm(n)` with z = (0, 0, 1), the direction toward the camera. */
  function ShadeFactor(n: Vec3, len: real): (k: real)
    requires len != 0.0
    ensures k * len == n.z
  {
    Dot3(Vec3(0.0, 0.0, 1.0), n) / len
  }

  lemma MulLt(a: real, b: real, m: real)
    requires a < b && m > 0.0
    ensures m * a < m * b
  {
    assert m * (b - a) > 0.0;
  }

  lemma SquareNonneg(a: real)
    ensures a * a >= 0.0
  {
    if a < 0.0 {
      MulNonneg(-a, -a);
      assert (-a) * (-a) == a * a;
    } else {
      MulNonneg(a, a);
    }
  }

  lemma SquareLe(a: real, b: real)
    requires a > 0.0 && b > 0.0 && a * a <= b * b
    ensures a <= b
  {
    if a > b {
      MulLt(b, a, b);
      MulLt(b, a, a);
    }
  }

  /** A positive quotient of at most 1. */
  lemma QuotientInUnit(p: real, q: real)
    requires 0.0 < p <= q
    ensures 0.0 < p / q <= 1.0
  {
    var r := p / q;
    assert r * q == p;
    if r <= 0.0 {
      MulLe(r, 0.0, q);
    }
    if r > 1.0 {
      MulLt(1.0, r, q);
    }
  }

  /** For a front-facing triangle the factor is the cosine of the angle between the view
      direction and the normal: it lies in (0, 1], and it is 1 when the normal points
      straight at the camera. */
  lemma ShadeFactorIsCosine(n: Vec3, len: real)
    requires IsLength(len, n) && n.z > 0.0
    ensures 0.0 < ShadeFactor(n, len) <= 1.0
    ensures n.x == 0.0 && n.y == 0.0 ==> ShadeFactor(n, len) == 1.0
  {
    SquareNonneg(n.x);
    SquareNonneg(n.y);
    assert n.z * n.z <= Dot3(n, n);
    SquareLe(n.z, len);
    assert ShadeFactor(n, len) == n.z / len;
    QuotientInUnit(n.z, len);
    if n.x == 0.0 && n.y == 0.0 {
      assert len * len == n.z * n.z;
      SquareLe(len, n.z);
    }
  }

  function ShadedColors(cs: seq<Vec3>, ns: seq<Vec3>, norm: Vec3 -> real): (r: seq<Vec3>)
    requires |cs| == |ns| && forall i :: 0 <= i < |ns| ==> norm(ns[i]) != 0.0
    ensures |r| == |cs|
  {
    seq(|cs|, i requires 0 <= i < |cs| => Scale3(ShadeFactor(ns[i], norm(ns[i])), cs[i]))
  }

  /** The shading loop: colors[i] *= the factor of normals[i]. */
  method Shade(colors: array<Vec3>, normals: seq<Vec3>, norm: Vec3 -> real)
    requires colors.Length == |normals|
    requires forall i :: 0 <= i < |normals| ==> norm(normals[i]) != 0.0
    modifies colors
    ensures colors[..] == ShadedColors(old(colors[..]), normals, norm)
  {
    ghost var before := colors[..];
    for i := 0 to colors.Length
      invariant forall j :: 0 <= j < colors.Length ==>
        colors[j] == if j < i then Scale3(ShadeFactor(normals[j], norm(normals[j])), before[j]) else before[j]
    {
      colors[i] := Scale3(ShadeFactor(normals[i], norm(normals[i])), colors[i]);
    }
  }

  // ---------------------------------------------------------------------------------------
  // To the canonical view volume

  predicate Projectable(pn: Mat4, t: Tri) {
    Apply(pn, t.v0).w != 0.0 && Apply(pn, t.v1).w != 0.0 && Apply(pn, t.v2).w != 0.0
  }

  /** Each vertex through the perspective normalization, then divided by its w. */
  function ProjectTri(pn: Mat4, t: Tri): (r: Tri)
    requires Projectable(pn, t)
    ensures r.v0.w == 1.0 && r.v1.w == 1.0 && r.v2.w == 1.0
    ensures Scale4(Apply(pn, t.v0).w, r.v0) == Apply(pn, t.v0)
    ensures Scale4(Apply(pn, t.v1).w, r.v1) == Apply(pn, t.v1)
    ensures Scale4(Apply(pn, t.v2).w, r.v2) == Apply(pn, t.v2)
  {
    Tri(Homogenize(Apply(pn, t.v0)), Homogenize(Apply(pn, t.v1)), Homogenize(Apply(pn, t.v2)))
  }

  function ProjectAll(pn: Mat4, ts: seq<Tri>): (r: seq<Tri>)
    requires forall i :: 0 <= i < |ts| ==> Projectable(pn, ts[i])
    ensures |r| == |ts|
  {
    seq(|ts|, i requires 0 <= i < |ts| => ProjectTri(pn, ts[i]))
  }

  // ---------------------------------------------------------------------------------------
  // The z-buffered image

  datatype Pixel = Pixel(depth: real, color: Vec3)

  /** What pixel (a, b) holds after rasterizing ts in order, starting from white at depth -1. */
  ghost function PixelAfter(ts: seq<Tri>, cs: seq<Vec3>, w: nat, h: nat, a: int, b: int): Pixel
    requires |ts| == |cs| && w > 0 && h > 0
  {
    if |ts| == 0 then Pixel(-1.0, White)
    else
      var n := |ts| - 1;
      var before := PixelAfter(ts[..n], cs[..n], w, h, a, b);
      var f := Fragment(ts[n], w, h, a, b);
      if Paints(before.depth, f) then Pixel(f.value, cs[n]) else before
  }

  /** A fragment that can show: it has a depth strictly between -1 and 1. */
  predicate Visible(f: Option<real>) {
    f.Some? && -1.0 < f.value < 1.0
  }

  /** The stored depth stays in [-1, 1) and is at least every visible fragment's; it is -1,
      with a white pixel, exactly when no fragment is visible. */
  lemma {:induction false} NearestDepth(ts: seq<Tri>, cs: seq<Vec3>, w: nat, h: nat, a: int, b: int)
    requires |ts| == |cs| && w > 0 && h > 0
    ensures var p := PixelAfter(ts, cs, w, h, a, b);
      -1.0 <= p.depth < 1.0 &&
      (forall k :: 0 <= k < |ts| && Visible(Fragment(ts[k], w, h, a, b)) ==>
        Fragment(ts[k], w, h, a, b).value <= p.depth) &&
      (p.depth == -1.0 ==>
        p.color == White && forall k :: 0 <= k < |ts| ==> !Visible(Fragment(ts[k], w, h, a, b)))
    decreases |ts|
  {
    if |ts| > 0 {
      var n := |ts| - 1;
      NearestDepth(ts[..n], cs[..n], w, h, a, b);
      assert forall k :: 0 <= k < n ==> ts[..n][k] == ts[k];
    }
  }

  /** A stored depth other than -1 is some fragment's, and the colour is that of the first
      triangle whose fragment has that depth. */
  lemma {:induction false} NearestColour(ts: seq<Tri>, cs: seq<Vec3>, w: nat, h: nat, a: int, b: int)
    requires |ts| == |cs| && w > 0 && h > 0
    ensures var p := PixelAfter(ts, cs, w, h, a, b);
      p.depth != -1.0 ==>
        exists k :: 0 <= k < |ts| && Fragment(ts[k], w, h, a, b) == Some(p.depth) && p.color == cs[k] &&
          forall j :: 0 <= j < k ==> Fragment(ts[j], w, h, a, b) != Some(p.depth)
    decreases |ts|
  {
    if |ts| > 0 {
      var n := |ts| - 1;
      var ts', cs' := ts[..n], cs[..n];
      var before := PixelAfter(ts', cs', w, h, a, b);
      var f := Fragment(ts[n], w, h, a, b);
      assert forall k :: 0 <= k < n ==> ts'[k] == ts[k] && cs'[k] == cs[k];
      if Paints(before.depth, f) {
        NearestDepth(ts', cs', w, h, a, b);
        assert Visible(f);
        forall j | 0 <= j < n ensures Fragment(ts[j], w, h, a, b) != Some(f.value) {
          assert ts'[j] == ts[j];
        }
      } else if before.depth != -1.0 {
        NearestColour(ts', cs', w, h, a, b);
        var k :| 0 <= k < n && Fragment(ts'[k], w, h, a, b) == Some(before.depth) &&
          before.color == cs'[k] &&
          forall j :: 0 <= j < k ==> Fragment(ts'[j], w, h, a, b) != Some(before.depth);
        assert Fragment(ts[k], w, h, a, b) == Some(before.depth) && before.color == cs[k];
        assert forall j :: 0 <= j < k ==> Fragment(ts[j], w, h, a, b) != Some(before.depth);
      }
    }
  }

  /** The scene as `renderRaster` draws it: front-facing triangles in canonical view
      coordinates, with their shaded colours. */
  ghost predicate Renderable(insts: seq<Instance>, w2c: Mat4, pn: Mat4, w: nat, h: nat, norm: Vec3 -> real) {
    ValidMeshes(insts) && w > 0 && h > 0 &&
    (var ns := CulledNormals(insts, w2c);
     forall i :: 0 <= i < |ns| ==> norm(ns[i]) != 0.0) &&
    (var ts := Culled(insts, w2c);
     forall i :: 0 <= i < |ts| ==> Projectable(pn, ts[i]))
  }

  ghost function ScreenTris(insts: seq<Instance>, w2c: Mat4, pn: Mat4, w: nat, h: nat, norm: Vec3 -> real): seq<Tri>
    requires Renderable(insts, w2c, pn, w, h, norm)
  {
    ProjectAll(pn, Culled(insts, w2c))
  }

  ghost function ScreenColors(insts: seq<Instance>, w2c: Mat4, pn: Mat4, w: nat, h: nat, norm: Vec3 -> real): (r: seq<Vec3>)
    requires Renderable(insts, w2c, pn, w, h, norm)
    ensures |r| == |ScreenTris(insts, w2c, pn, w, h, norm)|
  {
    CullingKeepsFrontFaces(insts, w2c);
    ShadedColors(CulledColors(insts, w2c), CulledNormals(insts, w2c), norm)
  }

  /** The rasterizing loop of `renderRaster`: a white image and a z-buffer of -1, then
      every triangle drawn in order. */
  method DrawTriangles(ts: seq<Tri>, colors: array<Vec3>, width: nat, height: nat)
    returns (img: array3<real>)
    requires width > 0 && height > 0
    requires colors.Length == |ts|
    ensures fresh(img)
    ensures img.Length0 == width && img.Length1 == height && img.Length2 == 3
    ensures forall a, b, k :: 0 <= a < width && 0 <= b < height && 0 <= k < 3 ==>
      img[a, b, k] == Get3(PixelAfter(ts, colors[..], width, height, a, b).color, k)
  {
    img := new real[width, height, 3]((i, j, k) => 1.0);
    var zBuf := new real[width, height]((i, j) => -1.0);
    ghost var cols := colors[..];
    for t := 0 to |ts|
      invariant forall a, b :: 0 <= a < width && 0 <= b < height ==>
        zBuf[a, b] == PixelAfter(ts[..t], cols[..t], width, height, a, b).depth
      invariant forall a, b, k :: 0 <= a < width && 0 <= b < height && 0 <= k < 3 ==>
        img[a, b, k] == Get3(PixelAfter(ts[..t], cols[..t], width, height, a, b).color, k)
    {
      assert ts[..t + 1][..t] == ts[..t];
      assert cols[..t + 1][..t] == cols[..t];
      RasterizeTriangle(ts[t], colors[t], img, zBuf);
    }
    assert ts[..|ts|] == ts;
    assert cols[..|ts|] == cols;
  }

  /** Everything `renderRaster` does once the two camera matrices are known. */
  method RenderWith(insts: seq<Instance>, w2c: Mat4, pn: Mat4, width: nat, height: nat, norm: Vec3 -> real)
    returns (img: array3<real>)
    requires Renderable(insts, w2c, pn, width, height, norm)
    ensures fresh(img)
    ensures img.Length0 == width && img.Length1 == height && img.Length2 == 3
    ensures forall a, b, k :: 0 <= a < width && 0 <= b < height && 0 <= k < 3 ==>
      img[a, b, k] == Get3(PixelAfter(ScreenTris(insts, w2c, pn, width, height, norm),
                                      ScreenColors(insts, w2c, pn, width, height, norm), width, height, a, b).color, k)
  {
    var triVerts, colors, normals := AllTriData(insts, w2c);
    var keep := FrontFacing(normals);
    var tris := Select(triVerts[..], keep);
    var culledColors := Select(colors[..], keep);
    var culledNormals := Select(normals, keep);
    assert tris == Culled(insts, w2c);
    assert culledColors == CulledColors(insts, w2c);
    assert culledNormals == CulledNormals(insts, w2c);
    var shaded := new Vec3[|culledColors|](k requires 0 <= k < |culledColors| => culledColors[k]);
    Shade(shaded, culledNormals, norm);
    assert shaded[..] == ShadedColors(culledColors, culledNormals, norm);
    var projected := ProjectAll(pn, tris);
    img := DrawTriangles(projected, shaded, width, height);
  }

  /** `renderRaster(scene, camera, width, height)`, for the instances the scene graph yields:
      every pixel of the returned image holds the colour the z-buffer leaves there after the
      front-facing, shaded, projected triangles are drawn in order. */
  method RenderRaster(insts: seq<Instance>, camera: Camera, width: nat, height: nat,
                      tan: real -> real, norm: Vec3 -> real)
    returns (img: array3<real>)
    requires camera.far != camera.near
    requires tan(camera.viewAngleH) != 0.0 && tan(camera.viewAngleV) != 0.0
    requires Renderable(insts, camera.WorldToCameraCentricXform(), camera.PerspectiveNormalizationXform(tan),
                        width, height, norm)
    ensures fresh(img)
    ensures img.Length0 == width && img.Length1 == height && img.Length2 == 3
    ensures forall a, b, k :: 0 <= a < width && 0 <= b < height && 0 <= k < 3 ==>
      img[a, b, k] == Get3(PixelAfter(
        ScreenTris(insts, camera.WorldToCameraCentricXform(), camera.PerspectiveNormalizationXform(tan), width, height, norm),
        ScreenColors(insts, camera.WorldToCameraCentricXform(), camera.PerspectiveNormalizationXform(tan), width, height, norm),
        width, height, a, b).color, k)
  {
    var w2c := camera.WorldToCameraCentricXform();
    var pn := camera.PerspectiveNormalizationXform(tan);
    img := RenderWith(insts, w2c, pn, width, height, norm);
  }
}
