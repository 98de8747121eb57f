# ProjectionRenderer in Dafny

A model of the core of ProjectionRenderer, a small Python and numpy renderer. It takes a
scene graph of triangle meshes and an ideal perspective camera, and produces a raster image.
The model covers every stage of that pipeline:

- the 4x4 homogeneous transform builders (`transforms.py`);
- the camera (`camera.py`): its pose basis, its view angles, and its matrices from world to
  camera-centric coordinates and on to the canonical view volume;
- the base node of the scene graph (`_scenegraph_base.py`): the one-child `addChild` rule,
  parent lists, `__str__`, and the depth-first `_traverse`;
- the renderer (`projection_renderer.py`):
  - `allTriData` gathers all triangles;
  - `triangleNormals` computes their normals;
  - back faces are culled and the rest are shaded by their cosine;
  - the triangles are projected to the canonical view;
  - `rasterizeTriangle` draws them with the barycentric `pointOnTriangle` and a z-buffer.

Files and modules:

| file | module | contents |
|---|---|---|
| `linalg.dfy` | `Options`, `LinAlg` | Option and Outcome; vectors, 4x4 matrices and their algebra |
| `transforms.dfy` | `Transforms` | translate, scale, shear, rotate |
| `camera.dfy` | `CameraModel` | the `Camera` class, its view angles and its matrices |
| `scenegraph.dfy` | `Scenegraph` | nodes in an arena `SceneGraph` class, `addChild`, `_traverse` |
| `raster.dfy` | `Raster` | normals, perspective divide, `pointOnTriangle`, pixel grid, `rasterizeTriangle` |
| `render.dfy` | `Render` | `allTriData`, culling, shading, projection, `renderRaster` |

Floats are exact `real`s. Python's `int()` on a float truncates toward zero, and `Raster.Trunc`
states that for both signs. The functions `numpy` and `math` would compute are parameters of
the members that use them: `cos`, `sin`, `tan`, `asin`, the vector norm `norm`, and `pi`. Each
lemma states the relation it needs between them; for example, `IsLength(len, v)` says that
`len` is the Euclidean length of `v`.

Scene graph nodes live in a sequence, and the child and parent lists hold indices into it.
`addChild` updates that sequence in place through the `Scenegraph.SceneGraph` class. Three
hooks are refined by subclasses that are not part of this model:

- the node's local transform `_xform`;
- what `_getSurface()` returns;
- whether the class replaces `_traverse`.

Each node stores the values of these hooks. A node that replaces `_traverse` is described by
an abstract function `ext` of the node, the composite transform and the inherited surface.

The arrays that the source changes in place are Dafny arrays:

- `rasterizeTriangle`'s image (`array3<real>`, width x height x 3) and z-buffer
  (`array2<real>`);
- the triangle and colour arrays that `allTriData` fills slice by slice;
- the colour array that the shading loop rescales.

Each such method is proved against a specification function of its inputs and old state. Its
properties are proved as lemmas:

- `Raster.Fragment` and `Raster.DepthAfter` specify one pixel;
- `Render.PixelAfter` folds the triangles in drawing order;
- `Render.AllTris` and `Render.AllColors` specify the gathered arrays;
- `Render.ShadedColors` specifies the shaded colours.

Where the documentation and the code of the core disagree, the model follows the code. The
perspective normalisation matrix on lines 166-170 of `camera.py` sends the near plane to
canonical depth +1 and the far plane to -1 (`CameraModel.DepthAtPlanes`). A nearer point gets
a larger depth (`CameraModel.DepthIncreasing`). That is the order the rasterizer's "greater
depth wins" test and its initial z-buffer value of -1 rely on.

The depth test is strict. When several triangles reach a pixel at the same depth, the first
one drawn keeps its colour (`Render.NearestColour`), so the drawing order shows in the image
only through such ties.

## Model

| member | source | states |
|---|---|---|
| `Transforms.Translate` | transforms.py:3-10 | the matrix moves every point by v and leaves every direction unchanged |
| `Transforms.TranslateCompose` | transforms.py:3-10 | two translations compose to the translation by the sum of their vectors |
| `Transforms.TranslateInverse` | transforms.py:3-10 | translating by -v undoes translating by v |
| `Transforms.Scale` | transforms.py:46-51 | diag(f, 1) scales each coordinate of a point by its factor; it has no translation part and its last row is (0, 0, 0, 1) |
| `Transforms.ScaleCompose` | transforms.py:46-51 | scales compose by multiplying their factors component by component |
| `Transforms.ScaleInverse` | transforms.py:46-51 | a scale with no zero factor is undone by the scale by the reciprocal factors |
| `Transforms.AddAt` | transforms.py:63-64 | `M[i, j] += k` changes entry [i][j] by k and no other entry |
| `Transforms.Shear` | transforms.py:53-65 | the identity with the factor added at [shear_dim][contrib_dim]; every other entry is the identity's, so it has no translation part and its last row is (0, 0, 0, 1) |
| `Transforms.ShearAction` | transforms.py:53-65 | a shear moves the shear_dim coordinate of a point by factor times its contrib_dim coordinate, and leaves the other coordinates and w unchanged |
| `Transforms.Rotate` | transforms.py:12-44 | yaw . (pitch . roll) has no translation part and its last row is (0, 0, 0, 1) |
| `Transforms.PlaneRotation` | transforms.py:24-41 | rotating two coordinates by an angle with cos^2 + sin^2 = 1 keeps the sum of their squares |
| `Transforms.YawKeepsLength` | transforms.py:24-29 | when cos^2 + sin^2 = 1, the yaw matrix keeps the length of the Cartesian part of every vector |
| `Transforms.PitchKeepsLength` | transforms.py:30-35 | the same for the pitch matrix |
| `Transforms.RollKeepsLength` | transforms.py:36-41 | the same for the roll matrix |
| `Transforms.RotateKeepsLength` | transforms.py:12-44 | when cos^2 + sin^2 = 1 at each of the three angles, rotate(angles) keeps the length of the Cartesian part of every vector |
| `Transforms.YawOrthogonal` | transforms.py:24-29 | when cos^2 + sin^2 = 1, the yaw matrix is orthogonal, with no translation part and last row (0, 0, 0, 1) |
| `Transforms.PitchOrthogonal` | transforms.py:30-35 | when cos^2 + sin^2 = 1, the pitch matrix is orthogonal, with no translation part and last row (0, 0, 0, 1) |
| `Transforms.RollOrthogonal` | transforms.py:36-41 | when cos^2 + sin^2 = 1, the roll matrix is orthogonal, with no translation part and last row (0, 0, 0, 1) |
| `Transforms.RotateZero` | transforms.py:12-44 | with all three angles zero, the rotation is the identity |
| `CameraModel.HalfAngleRadians` | camera.py:55-56 | the stored angle r satisfies 360 r = pi deg: half the opening angle, in radians |
| `CameraModel.PoseBasis` | camera.py:84-87 | the basis z = (eye - look_at) / norm, x = (up x z) / norm, y = z x x; no contract of its own, `CameraModel.PoseBasisProperties` states its properties |
| `CameraModel.PoseBasisProperties` | camera.py:80-87 | the pose basis is orthonormal and right-handed (x cross y = z); z points away from look_at; x is perpendicular to up; up lies on the positive-y side |
| `CameraModel.Camera.constructor` | camera.py:18-57 | stores near and far, converts both opening angles (45 degrees by default) to half-angles in radians, and sets the pose from eye, look_at and up |
| `CameraModel.Camera.SetPose` | camera.py:59-87 | stores the eye and the basis built from look_at and up; the basis is orthonormal and right-handed; near, far and the view angles are unchanged |
| `CameraModel.AsinArgument` | camera.py:97-103 | the argument handed to `math.asin`: sin(a) times aspect when aspect < 1, sin(a) / aspect otherwise; no contract of its own, `CameraModel.ViewAnglesAfter` states when asin accepts it |
| `CameraModel.ViewAnglesAfter` | camera.py:89-103 | the half of max_angle goes to the vertical angle when aspect < 1 and to the horizontal angle otherwise; the other angle is asin of the argument, assigned only when -1 <= argument <= 1; otherwise the outcome is the math domain error and that angle is unchanged |
| `CameraModel.Camera.SetViewAngles` | camera.py:89-103 | the new angles and the outcome are those of `ViewAnglesAfter` on the old angles; the pose, near and far are unchanged |
| `CameraModel.AspectOf` | camera.py:105-112 | defined exactly when sin(v) is not 0, and then the result times sin(v) equals sin(h) |
| `CameraModel.Camera.NaturalAspectRatio` | camera.py:105-112 | the same, for the camera's stored angles |
| `CameraModel.ViewAnglesGiveAspect` | camera.py:89-112 | after a successful `setViewAngles(aspect, max_angle)`, the natural aspect ratio is aspect again, when sin undoes asin on the argument used and the sine of the half-angle is not 0 |
| `CameraModel.Camera.TranslateToOriginXform` | camera.py:132-140 | every point is moved by -eye |
| `CameraModel.Camera.RotateAlignXform` | camera.py:142-150 | the matrix expresses a vector's Cartesian part in the camera axes x, y, z (the dot products with x, y and z) and keeps its w |
| `CameraModel.Camera.WorldToCameraCentricXform` | camera.py:114-121 | applies translate-to-origin and then rotate-align; a point goes to its offset from the eye in camera axes |
| `CameraModel.Camera.PerspectiveNormalizationXform` | camera.py:152-170 | a point goes to (x / tan h, y / tan v, A z + B, -z), with A = (far + near) / (far - near) and B = 2 far near / (far - near) |
| `CameraModel.Camera.WorldToCanonicalViewXform` | camera.py:123-130 | applies the camera-centric transform and then the perspective normalisation |
| `CameraModel.EyeToOrigin` | camera.py:114-140 | the eye itself goes to the origin |
| `CameraModel.RotateAlignTakesAxesToUnitAxes` | camera.py:142-150 | with an orthonormal basis, rotate-align takes the camera axes to the unit axes |
| `CameraModel.DepthScale` | camera.py:168 | A = (far + near) / (far - near): A (far - near) = far + near |
| `CameraModel.DepthOffset` | camera.py:169 | B = 2 far near / (far - near): B (far - near) = 2 far near |
| `CameraModel.CanonicalDepth` | camera.py:166-170 | the canonical depth d of camera-space z satisfies d (-z) = A z + B |
| `CameraModel.PerspectiveW` | camera.py:166-170 | every point gets w' = -z |
| `CameraModel.PerspectiveDepth` | camera.py:166-170 | for a point off the eye plane, z'/w' is the canonical depth of its z |
| `CameraModel.PlaneValues` | camera.py:168-169 | A z + B is near at z = -near and -far at z = -far |
| `CameraModel.DepthAtPlanes` | camera.py:166-170 | the near plane goes to canonical depth +1 and the far plane to -1 |
| `CameraModel.DepthIncreasing` | camera.py:152-170 | in front of the camera, a nearer point gets a strictly larger canonical depth |
| `CameraModel.DepthInRange` | camera.py:160-170 | between the clipping planes, the canonical depth lies in [-1, 1] |
| `CameraModel.SidePlanes` | camera.py:160-167 | x'/w' lies in [-1, 1] exactly when the point lies between the two side planes of the frustum |
| `CameraModel.CanonicalDepthOfPoint` | camera.py:123-130 | the canonical depth of a world point is the canonical depth of its camera-space z |
| `CameraModel.StraightAheadIsCentre` | camera.py:114-170 | a point straight ahead at distance d lands on the centre of the view, at canonical depth CanonicalDepth(-d) |
| `Scenegraph.Str` | _scenegraph_base.py:80-84 | the class name, followed by the quoted name exactly when the name is non-empty |
| `Scenegraph.StrDistinguishesNames` | _scenegraph_base.py:80-84 | two nodes of one class print alike exactly when their names agree; no name and the empty name print alike |
| `Scenegraph.AlreadyHasChildMessage` | _scenegraph_base.py:49 | the TypeError message built from the two nodes' `__str__`; no contract of its own |
| `Scenegraph.AddChildStep` | _scenegraph_base.py:22-24 | succeeds exactly when p has no child; then p's children become [c] and c's parents gain p at the end; otherwise the TypeError message is produced and nothing changes; every other node is untouched |
| `Scenegraph.AddChildKeepsOneChild` | _scenegraph_base.py:47-51 | `addChild` keeps every node at one child or fewer |
| `Scenegraph.SecondAddChildFails` | _scenegraph_base.py:47-51 | once p has a child, a further `addChild` on p fails and changes nothing |
| `Scenegraph.SharedChild` | _scenegraph_base.py:53-54 | one node added under two free parents keeps both of them, in order, as its last parents |
| `Scenegraph.SelfChildAccepted` | _scenegraph_base.py:22-24 | `p.addChild(p)` on a node without a child succeeds, and the resulting graph admits no rank: its child edges have a cycle |
| `Scenegraph.CycleAccepted` | _scenegraph_base.py:22-24 | `a.addChild(b)` followed by `b.addChild(a)` both succeed, and the result admits no rank |
| `Scenegraph.SceneGraph.AddNode` | _scenegraph_base.py:11-20 | appends a node with the given hooks, no children and no parents, and returns its index |
| `Scenegraph.SceneGraph.AddChildEdge` | _scenegraph_base.py:47-51 | fails with the message and changes nothing when p has a child; otherwise sets p's children to [c] |
| `Scenegraph.SceneGraph.AddParentEdge` | _scenegraph_base.py:53-54 | appends p to c's parents and changes nothing else |
| `Scenegraph.SceneGraph.AddChild` | _scenegraph_base.py:22-24 | the new node sequence and the outcome are those of `AddChildStep` |
| `Scenegraph.SurfaceBelow` | _scenegraph_base.py:69-70 | the node's own surface when it has one, the inherited one otherwise; no contract of its own |
| `Scenegraph.Traverse` | _scenegraph_base.py:59-78 | `_traverse(M, surf)`, M the identity and surf None by default, on a ranked graph; no contract of its own, `Scenegraph.TraverseIsEmitOfPaths` states what it yields |
| `Scenegraph.TraverseChildren` | _scenegraph_base.py:72-78 | the children's traversals concatenated in order; no contract of its own, `Scenegraph.ChildrenAreEmitOfPaths` states what it yields |
| `Scenegraph.LeafTraversesToNothing` | _scenegraph_base.py:59-78 | a base node without children yields the empty list |
| `Scenegraph.OwnSurfaceOverrides` | _scenegraph_base.py:69-70 | a base node with its own surface yields the same whatever surface it inherits |
| `Scenegraph.BaseNodePassesThrough` | _scenegraph_base.py:56-78 | a node with the base hooks (identity transform, no surface) hands its own arguments to its children |
| `Scenegraph.Paths` | _scenegraph_base.py:59-78 | every path from n runs along child edges through base nodes and stops at the first node that replaces `_traverse` |
| `Scenegraph.ChildPaths` | _scenegraph_base.py:72-78 | the paths from a list of children, concatenated, each starting at one of them |
| `Scenegraph.ConcatPaths` | _scenegraph_base.py:72-78 | concatenating two lists of such paths keeps every path a chain from one of the children to the first replacing node |
| `Scenegraph.PathXform` | _scenegraph_base.py:72 | the start transform times the local transforms of the nodes before the path's last one; no contract of its own |
| `Scenegraph.NearestSurface` | _scenegraph_base.py:69-70 | when some ancestor has a surface, the surface of the last such ancestor (none after it has one); when none has, the inherited surface |
| `Scenegraph.Emit` | _scenegraph_base.py:72-78 | what the end of each path yields for its transform and nearest surface, concatenated in path order; no contract of its own |
| `Scenegraph.TraverseIsEmitOfPaths` | _scenegraph_base.py:59-78 | `_traverse` yields, in depth-first child order, what each path's end yields for the path's composite transform and nearest surface |
| `Scenegraph.ChildrenAreEmitOfPaths` | _scenegraph_base.py:72-78 | the same for a list of children: the concatenation of their traversals |
| `Raster.TriangleNormal` | projection_renderer.py:349-351 | the normal (v1 - v0) x (v2 - v0) is perpendicular to both edges |
| `Raster.TriangleNormals` | projection_renderer.py:319-351 | one normal per triangle, each that triangle's normal |
| `Raster.NormalLengthIsTwiceArea` | projection_renderer.py:296-298 | the squared length of the normal is by Lagrange's identity equal to abs(e1)^2 abs(e2)^2 - (e1 . e2)^2, the square of twice the area |
| `Raster.NormalIgnoresW` | projection_renderer.py:334-337 | the w coordinates do not affect the normal |
| `Raster.NormalSwapNegates` | projection_renderer.py:339-347 | swapping two vertices reverses the normal |
| `Raster.NormalRotationInvariant` | projection_renderer.py:339-347 | rotating the vertex order keeps the normal |
| `Raster.Orientation2DIsNormalZ` | projection_renderer.py:339-351 | the 2-D value is the z component of the 3-D normal, so the `normals[:, 2] > 0` test is the 2-D orientation test |
| `Raster.Orientation2DSign` | projection_renderer.py:341-347 | positive for the counter-clockwise unit triangle, negated by swapping two vertices, kept by rotating the vertex order, zero for collinear points |
| `Raster.Homogenize` | projection_renderer.py:25 | after the divide w = 1, and w times the result is the input again |
| `Raster.PerspectiveView` | projection_renderer.py:12-26 | one vertex per input vertex, each with w = 1, and each a scalar multiple of world_to_view . inst_xform . v |
| `Raster.Alpha` | projection_renderer.py:265-269 | alpha is the ratio of the two determinants: alpha times the denominator is minus the numerator |
| `Raster.Beta` | projection_renderer.py:270 | beta times its denominator alpha (x1 - x2) + (x2 - x3) is x - x3 |
| `Raster.NonDegenerateAt` | projection_renderer.py:269-270 | both divisors, the determinant of alpha and the denominator of beta, are non-zero; no contract of its own, `Raster.PointOnTriangle` returns a depth only where it holds |
| `Raster.PointOnTriangle` | projection_renderer.py:233-279 | a depth is returned only where neither division divides by zero; there numpy gives NaN or inf, which the depth test never paints, and the model returns None |
| `Raster.WeightsSumToOne` | projection_renderer.py:249-253 | the weights b a, b (1 - a), 1 - b of the parameterisation sum to 1 |
| `Raster.BarycentricWeights` | projection_renderer.py:249-270 | the weights computed from alpha and beta sum to 1 |
| `Raster.WeightsReproducePoint` | projection_renderer.py:249-270 | those weights combine the vertices' x and y to exactly (x, y): the closed forms solve the parameterisation |
| `Raster.DepthFromWeights` | projection_renderer.py:272-279 | None exactly when one of the three weights is negative; otherwise the depth interpolated with those weights |
| `Raster.WeightsNonNegative` | projection_renderer.py:233-279 | when `pointOnTriangle` returns a depth, all weights are non-negative and the depth is their interpolation of z0, z1, z2 |
| `Raster.PointOnTriangleInside` | projection_renderer.py:233-279 | when a depth is returned, (x, y) lies in the triangle's x-y projection, and the weights are its barycentric coordinates |
| `Raster.DepthBetweenVertices` | projection_renderer.py:233-279 | a returned depth lies between the smallest and the largest vertex depth |
| `Raster.PointWithinExtent` | projection_renderer.py:233-279 | a point that gets a depth lies within the triangle's x and y extent |
| `Raster.InsideGivesDepth` | projection_renderer.py:233-279 | conversely, a point inside a triangle of non-zero area gets a depth, the one interpolated with its own barycentric coordinates |
| `Raster.BarycentricUnique` | projection_renderer.py:249-253 | in a triangle of non-zero area, barycentric coordinates are unique |
| `Raster.Trunc` | projection_renderer.py:204 | `int()` rounds toward zero: within one below a non-negative value, and within one above a negative one |
| `Raster.ViewToPix` | projection_renderer.py:204 | `view2pix` on one axis; no contract of its own, `Raster.ViewToPixClosedForm` states its value |
| `Raster.PixToView` | projection_renderer.py:205 | `pix2view` on one axis; no contract of its own, `Raster.PixToViewForm` states its value |
| `Raster.ViewToPixClosedForm` | projection_renderer.py:197-204 | view2pix(x) = int((x + 1) n / 2) |
| `Raster.PixToViewForm` | projection_renderer.py:197-205 | pix2view(a) = (2 a + 1) / n - 1 |
| `Raster.PixelRoundTrip` | projection_renderer.py:184-205 | view2pix(pix2view(a)) = a for every pixel index a >= 0 |
| `Raster.PixelCentreInView` | projection_renderer.py:184-200 | pixel centres lie in [-1 + 1/n, 1 - 1/n], strictly inside (-1, 1) |
| `Raster.ViewToPixMonotone` | projection_renderer.py:204 | view2pix is monotone |
| `Raster.ViewToPixInRange` | projection_renderer.py:195-216 | on the clipped range [-1, 1 - 1/n], view2pix gives an index in [0, n - 1] |
| `Raster.BoundingBox` | projection_renderer.py:207-216 | the clipped box's pixel corners lie inside the image |
| `Raster.BoxCorners` | projection_renderer.py:209-216 | for clipped bounds, min_a >= 0 and max_a <= n - 1 |
| `Raster.BoxHoldsCoveredPixels` | projection_renderer.py:207-231 | the box misses no pixel whose centre the triangle covers |
| `Raster.Fragment` | projection_renderer.py:224-227 | a pixel gets a fragment only inside the box |
| `Raster.Paints` | projection_renderer.py:228-229 | the test `p > z_buf[a,b] and p < 1` on a fragment that exists; no contract of its own, `Raster.PaintPixel` and `Raster.RasterizeTriangle` state what it decides |
| `Raster.DepthAfter` | projection_renderer.py:228-231 | the stored depth never decreases, stays below 1, and is either the old depth or the fragment's |
| `Raster.PaintPixel` | projection_renderer.py:228-231 | the z-buffer test at one pixel: depth and colour become the fragment's exactly when it is nearer and below 1; no other pixel changes |
| `Raster.RasterizeTriangle` | projection_renderer.py:162-231 | every pixel of the z-buffer and of the image ends as the z-buffer test on that pixel's fragment decides; a pixel the test does not paint keeps its old depth and colour |
| `Raster.ApexColumnMissed` | projection_renderer.py:263-270 | on the vertical line x = x3 through the third vertex, one of the two divisors is zero, so `pointOnTriangle` as written gives no depth there |
| `Raster.ApexPixelUnpainted` | projection_renderer.py:224-279 | a concrete triangle on a 3 x 3 image whose pixel (1, 1) has its centre inside the triangle and in the box, yet gets no fragment; the corrected function gives it depth 1/4 |
| `Raster.EdgeWeightsReproduce` | projection_renderer.py:249-253 | the barycentric weights by Cramer's rule on the edges sum to 1 and reproduce (x, y) |
| `Raster.EdgeWeights` | projection_renderer.py:249-253 | the barycentric coordinates by Cramer's rule on the edges v1 - v3 and v2 - v3; no contract of its own, `Raster.EdgeWeightsReproduce` proves they sum to 1 and reproduce (x, y) |
| `Raster.PointOnTriangleIntended` | projection_renderer.py:233-279 | the corrected `pointOnTriangle`: a depth only for a triangle of non-zero area |
| `Raster.IntendedInside` | projection_renderer.py:233-279 | a depth from the corrected function means (x, y) is inside, and it is the interpolation with the point's barycentric coordinates |
| `Raster.IntendedCoversTriangle` | projection_renderer.py:233-279 | every point inside a triangle of non-zero area gets its interpolated depth, the line x = x3 included |
| `Raster.IntendedAgrees` | projection_renderer.py:233-279 | wherever neither divisor of the code as written is zero, the code as written and the corrected function agree |
| `Render.TotalTris` | projection_renderer.py:300 | T, the sum of the instances' triangle counts; no contract of its own |
| `Render.CamVert` | projection_renderer.py:309 | a vertex goes through inst_xform and then world_to_camera |
| `Render.InstanceTris` | projection_renderer.py:305-312 | one triangle per index triple of the mesh (the count; `Render.TriLayout` states the entries) |
| `Render.AllTris` | projection_renderer.py:300-313 | T triangles in all, T being the sum of the instances' triangle counts (`Render.TriLayout` states the entries) |
| `Render.AllColors` | projection_renderer.py:300-307 | T colours in all (`Render.TriLayout` states the entries) |
| `Render.TriLayout` | projection_renderer.py:290-313 | triangle j of instance k sits at offset T_0 + ... + T_(k-1) + j, with that instance's camera-centric vertices and its surface colour |
| `Render.WriteSlice` | projection_renderer.py:307 | the slice assignment writes vals after the first t entries and keeps those entries |
| `Render.AppendInstance` | projection_renderer.py:304-313 | one pass of the loop extends the filled prefix of both arrays by the next instance |
| `Render.AllTriData` | projection_renderer.py:281-317 | the filled arrays are the gathered triangles and colours, and the normals are their triangle normals |
| `Render.FrontFacing` | projection_renderer.py:114 | the indices kept are in range and strictly increasing, each with normal z > 0, and every index with normal z > 0 is kept |
| `Render.Select` | projection_renderer.py:116-120 | boolean indexing gives one entry per kept index (`Render.CullingKeepsFrontFaces` states the entries) |
| `Render.Culled` | projection_renderer.py:114-118 | the triangles whose normal has z > 0; no contract of its own, `Render.CullingKeepsFrontFaces` states which |
| `Render.CulledColors` | projection_renderer.py:114-119 | their colours; no contract of its own |
| `Render.CulledNormals` | projection_renderer.py:114-120 | their normals; no contract of its own |
| `Render.CullingKeepsFrontFaces` | projection_renderer.py:110-120 | culling keeps exactly the front-facing triangles, in order, each with its own colour and normal |
| `Render.ShadeFactor` | projection_renderer.py:134 | the factor k = z . n / norm(n) satisfies k norm(n) = n_z |
| `Render.ShadedColors` | projection_renderer.py:132-135 | every colour scaled by the factor of its normal, one colour per input colour; `Render.Shade` is proved to leave exactly these colours |
| `Render.ShadeFactorIsCosine` | projection_renderer.py:126-134 | for a front-facing normal, the factor z . n / abs(n) lies in (0, 1], and it is 1 when the normal points at the camera |
| `Render.Shade` | projection_renderer.py:132-135 | each colour is scaled by the factor of its normal |
| `Render.ProjectTri` | projection_renderer.py:142-145 | each vertex goes through the perspective normalisation and is divided by its w: w = 1, and a scalar multiple of the transformed vertex |
| `Render.ProjectAll` | projection_renderer.py:142-145 | one projected triangle per triangle (the count) |
| `Render.ScreenTris` | projection_renderer.py:110-145 | the culled triangles projected to the canonical view, the triangles the draw loop receives; no contract of its own |
| `Render.ScreenColors` | projection_renderer.py:110-135 | the shaded colours of the culled triangles, one per triangle of `Render.ScreenTris` |
| `Render.PixelAfter` | projection_renderer.py:153-158 | one pixel after the triangles are drawn in order from white at depth -1, each through the z-buffer test of lines 225-231; no contract of its own, `Render.NearestDepth`, `Render.NearestColour` and `Render.DrawTriangles` state what it holds |
| `Render.NearestDepth` | projection_renderer.py:147-158 | after all triangles, the depth lies in [-1, 1) and is at least every visible fragment's; when it is -1 the pixel is white and no fragment is visible |
| `Render.NearestColour` | projection_renderer.py:147-158 | a depth other than -1 is the fragment of some triangle, the colour is that triangle's, and no earlier triangle has a fragment at that depth |
| `Render.DrawTriangles` | projection_renderer.py:147-158 | the image is white with a z-buffer of -1 before the triangles are drawn in order; each pixel ends with the colour they leave there |
| `Render.Renderable` | projection_renderer.py:99-160 | what `renderRaster` needs to avoid a division by zero: valid meshes, a non-empty image, a non-zero norm for every front-facing normal, and w != 0 for every projected vertex; no contract of its own |
| `Render.RenderWith` | projection_renderer.py:99-160 | every pixel holds the colour the z-buffer leaves after the culled, shaded, projected triangles are drawn in order |
| `Render.RenderRaster` | projection_renderer.py:83-160 | the same, with the camera's world-to-camera-centric and perspective normalisation matrices |

## Left out

- Floating point: the model computes over exact reals, and rounding is not modelled. The inf
  and NaN that numpy produces when it divides by zero are modelled in one place only. Where
  either division of `pointOnTriangle` has a zero divisor, the value returned is NaN, or the
  coordinate tests return None. A NaN never passes the depth test of `rasterizeTriangle`, so
  `Raster.PointOnTriangle` returns None there. Every other division by zero is a
  precondition instead:
  - `Projectable`: w = 0 in the perspective divide;
  - `norm(n) != 0` in shading;
  - `far != near` and `tan != 0` in the camera matrices;
  - `PoseWellDefined`: the documented prerequisites of `setPose`.
- `width` and `height` are required to be positive. For 0, `rasterizeTriangle` raises
  ZeroDivisionError.
- `math.sin`, `math.asin`, `np.tan`, `np.cos`, `np.sin`, `np.linalg.norm` and `math.pi` are
  parameters, not functions that are computed.
- Triangle index arrays that point outside the vertex array (numpy's IndexError) are excluded
  by `ValidMeshes`.
- The numpy array layouts (3xTx4, the reshapes and transposes of `allTriData` and
  `renderRaster`) are modelled as sequences of triangles.
- `triangleNormals` on 2-D input is `Raster.Orientation2D`, related to the 3-D normal by
  `Raster.Orientation2DIsNormalZ`. Extra vertex slices (K > 3) cannot be expressed, because a
  triangle has exactly three vertices here.
- CameraModel.PoseBasis: no contract of its own; `CameraModel.PoseBasisProperties` states
  what the basis is.
- Scenegraph.Traverse, Scenegraph.TraverseChildren: no contract of their own;
  `Scenegraph.TraverseIsEmitOfPaths` and `Scenegraph.ChildrenAreEmitOfPaths` state what
  they yield.
- Scenegraph.PathXform, Scenegraph.Emit, Scenegraph.SurfaceBelow,
  Scenegraph.AlreadyHasChildMessage: specification functions with no contract of their own.
- Raster.ViewToPix, Raster.PixToView: no contract of their own; `Raster.ViewToPixClosedForm`,
  `Raster.PixToViewForm` and `Raster.PixelRoundTrip` state their values.
- CameraModel.AsinArgument, Raster.NonDegenerateAt, Raster.Paints, Raster.EdgeWeights:
  specification functions with no contract of their own; the rows above name the members
  whose contracts state their meaning.
- Render.PixelAfter, Render.ScreenTris: specification functions with no contract of their
  own; `Render.NearestDepth`, `Render.NearestColour`, `Render.DrawTriangles` and
  `Render.RenderWith` state what they hold.
- Render.TotalTris, Render.Culled, Render.CulledColors, Render.CulledNormals,
  Render.Renderable: specification functions with no contract of their own;
  `Render.TriLayout` and `Render.CullingKeepsFrontFaces` state what they hold.
- Render.InstanceTris, Render.AllTris, Render.AllColors: their own contracts state only the
  number of entries; `Render.TriLayout` states where each triangle and colour goes.
- Render.Select: its own contract states only the number of entries;
  `Render.CullingKeepsFrontFaces` states which entries are kept.
- Render.ProjectAll: its own contract states only the number of triangles; `Render.ProjectTri`
  states what happens to each one.
- Render.ShadedColors, Render.ScreenColors: specification functions whose own contracts state
  only their length. `Render.Shade` and `Render.ShadeFactorIsCosine` state the shading.
- `plotLines`, `axisNorm`, `printTree`/`_printTree` and `__repr__` are left out: output and
  plotting.
- `gfx_helper_plotting.py`, `gfx_helper_script.py`, `scene.py` and `robot_scene.py` are left
  out: drawing and example scenes.
- Cycles: `addChild` does not check for them. A node can be made its own child
  (`Scenegraph.SelfChildAccepted`) or its child's child (`Scenegraph.CycleAccepted`), and
  `_traverse` on such a graph recurses until Python raises RecursionError. The traversal is
  modelled only on graphs that have a rank (`Scenegraph.Ranked`), which rules cycles out.
- `allTriData` reads `surf.color`. A shape with no surface node above it reaches it with the
  default surf=None of `_traverse`, and the lookup raises AttributeError. `Render.Instance`
  holds the colour itself, so the model starts after that lookup and cannot express a missing
  surface.
- `getCompositeTransforms` belongs to the scene graph subclasses, which are not part of this
  model; `renderRaster` takes the instance list that call would return.
- The subclasses that refine `_xform`, `_getSurface`, `_addParent` and `_traverse` (shape,
  surface, transform and root nodes) are not part of this model. Their values are per-node
  data, and a replaced `_traverse` is the parameter `ext`.
- Object identity of numpy arrays and surfaces: a surface is a reference number, and matrices
  are values.
- The box's upper corner is clamped only from above, so a triangle lying wholly left of (or
  below) the view gives an upper corner of int((max_x + 1) W / 2). When the triangle ends less
  than one pixel width left of (or below) the view, max_x lies in (-1 - 2/W, -1). That value
  truncates to 0, so column (or row) 0 is visited. Its pixel goes through the depth test and
  is never painted (`Raster.RasterizeTriangle` covers it). A triangle further out gives a
  negative upper corner and an empty range. The model keeps both behaviours as written.

## Findings

| source | as written | input that shows it | evidently intended | confidence | as-written member | corrected member |
|---|---|---|---|---|---|---|
| projection_renderer.py:263-279 | beta = (x - x3) / (alpha (x1 - x2) + (x2 - x3)), so on the vertical line x = x3 through the third vertex beta is 0 / 0 and no depth comes back | vertices (-0.5, -0.5, 0), (0.5, -0.5, 0), (0, 0.5, 0.5) on a 3 x 3 image: the centre (0, 0) of pixel (1, 1) lies inside, with barycentric coordinates (1/4, 1/4, 1/2), yet the pixel is not painted | every point inside the triangle gets the depth interpolated with its barycentric coordinates, here 1/4 | high in exact arithmetic; not executed | `Raster.ApexPixelUnpainted` | `Raster.PointOnTriangleIntended` |

`Raster.ApexColumnMissed` shows the general case: on the line x = x3 one of the two divisors
is always zero. The corrected function computes the barycentric coordinates by Cramer's rule
on the edges, and `Raster.IntendedCoversTriangle` proves that it gives every point of a
triangle of non-zero area its interpolated depth. The rasterizer of this model keeps the code
as written, so that the image it specifies is the one the program draws.
`Raster.IntendedAgrees` proves that the two functions agree wherever neither of the code's
divisors is zero. The finding therefore changes only the pixels where one of them is.
