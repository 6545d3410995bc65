# Cubemap: cube faces, their texture coordinates and the reflection lookup

This project models the two pieces of the Cubemap demo that carry their own
logic, and proves what they compute.

- **The scene set-up of `CubeMapRendering`** (module `CubeMapRendering`,
  `cube_map_rendering.dfy`).
  - `GetFacesOfCube` cuts the cube's flat position buffer into six faces of
    twelve floats each. It copies the first six triangle indices into every
    face. The model keeps the nested copy loops, with their invariants.
  - The `Face` constructor gives every face the default texture quad
    (0,0), (1,0), (1,1), (0,1).
  - `GetFace` replaces that quad for the faces named `"top"` and `"bottom"`.
  - The constructor wires six images to face names and textures. It then
    hands the textures, in a fixed order, to the sphere's reflection shading.
- **The reflection shader** (modules `ReflectionShading` and
  `ReflectionGeometry`, `reflection_shading.dfy` and
  `reflection_geometry.dfy`).
  - The fragment shader's `main` is a method over reals. Starting from
    transparent black, six `if` blocks in the order front, back, left, right,
    top, bottom each compute a ray parameter and a texture coordinate. A block
    overwrites `FragColor` when the coordinate lies in [0,1) x [0,1).
    Sampling a texture is the value `Sampled(side, uv)`.
  - The shading's constructor binds `textures[0..5]` to the samplers left,
    right, top, bottom, front, back, and sets the `scale` uniform.

What is proved:
- The shader's output is always the colour of the last block that samples,
  or transparent black when no block samples.
- For a fragment inside the cube, each block is an independently defined
  cube-map lookup: it finds where the reflected ray meets that side's plane,
  expressed in the side's own frame. This is stated in `ShaderIsCubeLookup`.
- A ray from inside the cube leaves it at a single point. The side the
  shader samples is the side the ray leaves through: no plane the ray heads
  towards is met earlier (`SampledIsExit`).
- A ray that leaves through the centre of a side's square is read from that
  side's texture at (0.5, 0.5) (`CentreRay`).
- The frames of all six sides are right-handed.
- Around the vertical axis, the four side textures meet seam to seam.
- The half-open range test [0,1) x [0,1) treats the cube's edges unevenly.
  Four of the twelve edges are affected; every other point of the surface
  lies in exactly one face square.
  - The points of the surface that lie in no face square are exactly those
    of the top/left edge (x = y = scale) and the top/back edge (y = scale,
    z = -scale). A ray from inside the cube that leaves through either edge
    leaves FragColor transparent black.
  - Only points of the bottom/front edge (y = -scale, z = scale) and the
    bottom/left edge (x = scale, y = -scale) lie in two face squares.
    - On the bottom/front edge this holds strictly between its ends. Its end
      x = -scale lies only in the front square.
    - On the bottom/left edge it holds for z > -scale. Its end z = -scale
      lies only in the back square.
    - A ray that leaves through such a point passes two range tests. The
      bottom block runs last, so the bottom texture is sampled.
  - In general, a ray from inside the cube that heads up and leaves through
    a point of the top plane lying in no face square is not sampled by any
    block.
- The top and bottom texture quads are cyclic shifts of the default quad,
  one corner forward and one corner back. Both go round the unit square in
  the same direction as the default quad. Their signed area (the shoelace
  sum) equals the default quad's, +2, while the default quad mirrored in u
  would have -2. So neither is a mirror image of it, and neither reverses
  its winding.
- Composing the constructor's wiring with the shading's sampler binding
  sends each image to exactly one sampler: `SamplerImage` and `SideOf` are
  mutually inverse.

## Model

| member | source | states |
|---|---|---|
| ReflectionShading.FragmentMain | ReflectionShading.cs:37-77 | the colour `main` leaves is the fold of the six blocks, in program order, from transparent black, each overwriting it only when its coordinate passes the range test |
| ReflectionShading.InRange | ReflectionShading.cs:47 | a block's coordinate is kept iff it lies in [0,1) x [0,1), and is then kept unchanged |
| ReflectionShading.TransparentIffNoneSamples | ReflectionShading.cs:44-76 | FragColor stays transparent black iff no block's coordinate passes its range test |
| ReflectionShading.LastSamplingBlockWins | ReflectionShading.cs:45-76 | if block k samples and no later block does, the output is block k's sample, whatever earlier blocks did |
| ReflectionShading.SampledComesFromLastBlock | ReflectionShading.cs:45-76 | a sampled output names a block that sampled exactly that coordinate and after which no block sampled |
| ReflectionShading.FragmentOutcome | ReflectionShading.cs:44-76 | the shader's output is transparent iff no side accepts; a sampled output is in the unit square and is what its side accepted; the last accepting side determines the output |
| ReflectionShading.FrontBlock | ReflectionShading.cs:45-48 | the front block yields a candidate coordinate exactly when t > 0; when the plane point p.xy + t r.xy is the origin it reads the texture centre (0.5, 0.5) |
| ReflectionShading.BackBlock | ReflectionShading.cs:49-54 | the back block yields a candidate coordinate exactly when t < 0; it recomputes t as (scale + p.z)/r.z, and when p.xy minus that multiple of r.xy is the origin it reads (0.5, 0.5) |
| ReflectionShading.LeftBlock | ReflectionShading.cs:55-59 | the left block yields a candidate coordinate exactly when f > 0; when the plane point p.yz + f r.yz is the origin it reads (0.5, 0.5) |
| ReflectionShading.RightBlock | ReflectionShading.cs:60-65 | the right block yields a candidate coordinate exactly when f < 0; it recomputes f as (scale + p.x)/r.x, and when p.yz minus that multiple of r.yz is the origin it reads (0.5, 0.5) |
| ReflectionShading.TopBlock | ReflectionShading.cs:66-70 | the top block yields a candidate coordinate exactly when g > 0; when the plane point p.xz + g r.xz is the origin it reads (0.5, 0.5) |
| ReflectionShading.BottomBlock | ReflectionShading.cs:71-76 | the bottom block yields a candidate coordinate exactly when g < 0; it recomputes g as (scale + p.y)/r.y, and when p.xz minus that multiple of r.xz is the origin it reads (0.5, 0.5) |
| ReflectionShading.AxisBlocksExclusive | ReflectionShading.cs:41-76 | per axis the `> 0` and `< 0` blocks never both run, and a zero parameter runs neither |
| ReflectionShading.FrontCentre | ReflectionShading.cs:41-46 | a ray that meets the front plane at its centre makes the front block compute (0.5, 0.5); a corollary of FrontBlock's contract with t written out, which CentreRay lifts to the whole shader |
| ReflectionShading.NewShading | ReflectionShading.cs:79-92 | the constructor binds textures[k] to the k-th sampler of left, right, top, bottom, front, back, binds every side, and sets `scale` to its argument |
| ReflectionShading.SamplerBindingIsBijection | ReflectionShading.cs:84-89 | the binding list names each of the six samplers exactly once, so each sampler reads exactly one of the six textures |
| ReflectionGeometry.FrameRightHanded | ReflectionShading.cs:45-76 | for each side, texture u cross texture v is the outward normal of the plane that side is read on, so no texture appears mirrored from outside |
| ReflectionGeometry.FrameCoordinates | ReflectionShading.cs:45-76 | the per-side normal, u and v components are dot products with that side's frame vectors |
| ReflectionGeometry.RemapFlip | ReflectionShading.cs:52-68 | the shader's `1 - u` and its factor -0.5 both mirror a coordinate about the face centre |
| ReflectionGeometry.ToUnitIsRemap | ReflectionShading.cs:46-73 | the affine step `0.5 * v / scale + 0.5` is Remap of each plane coordinate, and with factor -0.5 it is Remap of the negated coordinate (RemapInUnit gives the range) |
| ReflectionGeometry.FrontMeetsFace | ReflectionShading.cs:41-47 | the front block runs iff the ray heads towards z = scale, and then yields the coordinate of the hit point in the front frame |
| ReflectionGeometry.BackMeetsFace | ReflectionShading.cs:49-53 | the back block, with t recomputed as (scale + p.z)/r.z and u mirrored, is the lookup on z = -scale |
| ReflectionGeometry.LeftMeetsFace | ReflectionShading.cs:55-58 | the left block, factor -0.5 on yz and the swap to (v, 1 - u), is the lookup on x = scale |
| ReflectionGeometry.RightMeetsFace | ReflectionShading.cs:60-64 | the right block, with f recomputed and the swap to (v, u), is the lookup on x = -scale |
| ReflectionGeometry.TopMeetsFace | ReflectionShading.cs:66-69 | the top block, factor -0.5 on xz and u mirrored, is the lookup on y = scale |
| ReflectionGeometry.BottomMeetsFace | ReflectionShading.cs:71-75 | the bottom block, with g recomputed and no swap, is the lookup on y = -scale |
| ReflectionGeometry.BlockMeetsFace | ReflectionShading.cs:41-76 | for a fragment inside the cube, every block computes the reference lookup of its side |
| ReflectionGeometry.HitPointOnPlane | ReflectionShading.cs:41-43 | the point reached with the ray parameter lies on the side's plane |
| ReflectionGeometry.HitAhead | ReflectionShading.cs:41-45 | from inside the cube, a side's ray parameter is positive iff the ray heads towards that side |
| ReflectionGeometry.RemapInUnit | ReflectionShading.cs:46-47 | the remapped coordinate lies in [0, 1) iff the plane coordinate lies in [-scale, scale) |
| ReflectionGeometry.FaceUvInUnitSquare | ReflectionShading.cs:47-75 | the range test keeps exactly the points of the half-open face square |
| ReflectionGeometry.AcceptedIffHitInFace | ReflectionShading.cs:45-76 | for a fragment inside the cube, a block samples iff the ray heads towards its side and meets the plane inside the face square, and it samples at the hit point's coordinate |
| ReflectionGeometry.ShaderIsCubeLookup | ReflectionShading.cs:37-77 | inside the cube, `main` yields transparent black iff the ray meets no face square, and otherwise samples a side it heads towards at the hit point's coordinate |
| ReflectionGeometry.FaceCentre | ReflectionShading.cs:46 | the centre of every face maps to texture coordinate (0.5, 0.5) |
| ReflectionGeometry.SeamsAround | ReflectionShading.cs:46-64 | going round the vertical axis, each side's u = 1 edge meets the next side's u = 0 edge at the same v |
| ReflectionGeometry.SeamBelongsToNextSide | ReflectionShading.cs:47-64 | a point of a vertical seam never lies in the square of the side before it, and lies in the next side's square iff -scale <= y < scale |
| ReflectionGeometry.TopLeftEdgeInNoFace | ReflectionShading.cs:55-69 | the edge x = y = scale lies in no side's face square |
| ReflectionGeometry.TopBackEdgeInNoFace | ReflectionShading.cs:49-69 | the edge y = scale, z = -scale lies in no side's face square |
| ReflectionGeometry.BottomFrontEdgeInTwoSquares | ReflectionShading.cs:45-75 | on the edge y = -scale, z = scale the front square holds exactly -scale <= x < scale and the bottom square exactly -scale < x <= scale |
| ReflectionGeometry.BottomLeftEdgeInTwoSquares | ReflectionShading.cs:55-75 | on the edge x = scale, y = -scale both the left and the bottom square hold exactly -scale < z <= scale |
| ReflectionGeometry.FaceSquareInCube | ReflectionShading.cs:45-76 | a point of a side's plane that passes that side's range test lies in the closed cube |
| ReflectionGeometry.NoNearerAt | ReflectionShading.cs:41-43 | a point of the ray that is not beyond the plane the ray heads towards comes no later than the point on that plane |
| ReflectionGeometry.RayLeavesCubeOnce | ReflectionShading.cs:41-43 | from inside the cube, any two planes the ray heads towards and meets within the closed cube are met at the same point |
| ReflectionGeometry.SampledIsExit | ReflectionShading.cs:37-77 | from inside the cube, the sampled side is where the ray leaves: its hit point is ahead, in the closed cube, and no plane the ray heads towards is met earlier |
| ReflectionGeometry.CentreRay | ReflectionShading.cs:37-77 | from inside the cube, a ray that meets a side's plane at the centre of its square yields that side's texture at (0.5, 0.5) |
| ReflectionGeometry.OnlyTopEdgesInNoSquare | ReflectionShading.cs:45-76 | a point of the cube's surface lies in no face square iff it is on the top/left or the top/back edge |
| ReflectionGeometry.OnlyBottomEdgesInTwoSquares | ReflectionShading.cs:45-76 | a point in the squares of two different sides lies on the bottom/front or the bottom/left edge |
| ReflectionGeometry.FrontBottomEdgePoint | ReflectionShading.cs:41-72 | a ray heading down that meets the bottom plane at z = scale heads towards the front plane and meets it at the same point |
| ReflectionGeometry.LeftBottomEdgePoint | ReflectionShading.cs:42-72 | a ray heading down that meets the bottom plane at x = scale heads towards the left plane and meets it at the same point |
| ReflectionGeometry.ExitOutsideSquaresIsTransparent | ReflectionShading.cs:37-77 | from inside the cube, a ray heading up that leaves through a point of the top plane lying in no face square yields transparent black |
| ReflectionGeometry.TopLeftEdgeRayIsTransparent | ReflectionShading.cs:37-77 | a ray from inside the cube that leaves through the top/left edge yields transparent black |
| ReflectionGeometry.TopBackEdgeRayIsTransparent | ReflectionShading.cs:37-77 | a ray from inside the cube that leaves through the top/back edge yields transparent black |
| ReflectionGeometry.BottomFrontEdgeRaySamplesBottom | ReflectionShading.cs:44-76 | a ray that leaves through the inner part of the bottom/front edge passes the front block's test, yet the output is the bottom texture at the bottom hit point |
| ReflectionGeometry.BottomLeftEdgeRaySamplesBottom | ReflectionShading.cs:44-76 | a ray that leaves through the bottom/left edge (z > -scale) passes the left block's test, yet the output is the bottom texture at the bottom hit point |
| CubeMapRendering.DefaultUvWalksUnitSquare | CubeMapRendering.cs:166-172 | the default quad has eight coordinates, all 0 or 1, and lists the four unit-square corners once each, going round the square |
| CubeMapRendering.RotatedOnce | CubeMapRendering.cs:92-106 | shifting a quad by one corner moves corner i+1 to place i and corner 0 to the end |
| CubeMapRendering.RotatedOnceKeepsCorners | CubeMapRendering.cs:92-106 | one shift keeps the set of corners, the 0/1 coordinates and the walk around the square |
| CubeMapRendering.RotationKeepsCorners | CubeMapRendering.cs:92-106 | any number of shifts keeps the corners, the 0/1 coordinates and the walk around the square |
| CubeMapRendering.RotationsCompose | CubeMapRendering.cs:92-106 | shifting by k and then by m is shifting by k + m |
| CubeMapRendering.FullTurn | CubeMapRendering.cs:92-106 | four shifts bring a quad back to itself |
| CubeMapRendering.OverridesRotateDefault | CubeMapRendering.cs:90-107 | the top list is the default quad shifted one corner forward and the bottom list one corner back; each undoes the other, and both go once round the unit square |
| CubeMapRendering.RotationKeepsWinding | CubeMapRendering.cs:92-106 | listing a quad from any other corner keeps its signed area |
| CubeMapRendering.MirrorReversesWinding | CubeMapRendering.cs:92-106 | mirroring a quad in u negates its signed area |
| CubeMapRendering.OverridesKeepWinding | CubeMapRendering.cs:90-107 | the default quad has signed area +2, the top and bottom lists have the same, and the default quad mirrored in u has -2 |
| CubeMapRendering.TextureUvFor | CubeMapRendering.cs:89-107 | the coordinates GetFace draws with; a well-formed quad of eight coordinates stays one |
| CubeMapRendering.TextureUvKeepsUnitQuad | CubeMapRendering.cs:90-107 | whatever the name, the face is drawn with its own coordinates or with a quad that goes once round the unit square, so a face starting with such a quad keeps one |
| CubeMapRendering.GetFace | CubeMapRendering.cs:79-113 | the part drawn has the given name, the face's positions and triangles, and the texture made from the image, which is also the texture handed back; its coordinates stay a quad of eight |
| CubeMapRendering.TextureUvChoice | CubeMapRendering.cs:89-107 | the name "top" selects the forward shift of the default quad, "bottom" the backward shift, and every other name keeps the face's own coordinates |
| CubeMapRendering.NewFace | CubeMapRendering.cs:162-173 | a new face keeps the positions and triangles it is given and gets the default quad, eight 0/1 coordinates in unit-square order |
| CubeMapRendering.CutFace | CubeMapRendering.cs:135-151 | one pass of the outer loop copies floats 12k..12k+11 and indices 0..5 into new arrays and builds face k; both arms of the test on face 4 build the same face |
| CubeMapRendering.GetFacesOfCube | CubeMapRendering.cs:130-154 | returns a new array of exactly six faces; face k holds positions[12k..12k+12) and triangles[0..6), twelve and six entries, and the default quad |
| CubeMapRendering.FacesTileBuffer | CubeMapRendering.cs:135-146 | different faces read disjoint, ordered parts of the position buffer and the same six triangle indices |
| CubeMapRendering.FaceNamesSelectOverrides | CubeMapRendering.cs:39-44 | the six GetFace calls use six distinct names and six distinct images; only face 4 is "top" and only face 5 is "bottom" |
| CubeMapRendering.TextureOrderIsPermutation | CubeMapRendering.cs:46 | the textures array lists the texture of each GetFace call exactly once |
| CubeMapRendering.SetUpScene | CubeMapRendering.cs:38-47 | the constructor draws face k with image k under name k, passes the textures in the order of line 46 with the cube's scale, and each sampler then reads the image SamplerImage names |
| CubeMapRendering.ScenePartsDrawn | CubeMapRendering.cs:39-44 | part k has name k, the texture of image k, the corners of face k and the first six indices; top and bottom use the shifted quads, the other four the default quad |
| CubeMapRendering.SamplersReadWiredImages | CubeMapRendering.cs:46-47 | the textures order composed with the shading's binding gives left the front image, right the back image, front the left image, back the right image, top the top image and bottom the bottom image |
| CubeMapRendering.SamplersSeeEveryImageOnce | CubeMapRendering.cs:39-46 | every image is read by exactly one sampler: SideOf and SamplerImage are mutually inverse |

## Left out

- Loading the images and flipping them with ImageSharp (CubeMapRendering.cs:24-35) are file I/O and a foreign library. An image is named by the file it comes from.
- The graphics framework's calls are foreign code, so they are not modelled. This covers `CreateTexture`, `ColorTextureMaterial`, `CreateShading`, `Geometry.CreateWithUv`, `CreateSurface`, `CreateVisual`, `Scale`/`Translate` and `Scene.Add`. A texture handle is the image it was made from. A visual part is the data `GetFace` passes on.
- The contents of `Cube.Positions`, `Cube.Triangles` and the sphere's geometry are not part of this model. The cube's buffers are inputs.
- `Console.WriteLine` debug output (CubeMapRendering.cs:49-50) is not modelled.
- The vertex shader (ReflectionShading.cs:7-21) is not modelled: it is matrix products run by the GPU.
- `normalize` and `reflect` (ReflectionShading.cs:39-40) involve square roots. `reflected` is an input.
- `texture()` sampling is the value `Sampled(side, uv)`. Floating-point rounding is not modelled: all arithmetic is exact over the reals. Per-fragment GPU parallelism is not modelled.
- Program.cs (window, camera, entry point) is not part of this model.
- FragmentMain: requires `scale > 0` and every component of `reflected` non-zero. GLSL's infinities and NaN from a division by zero are not modelled.
- BlockMeetsFace, AcceptedIffHitInFace, ShaderIsCubeLookup: these are stated only for fragments strictly inside the cube. On or outside a plane the shader's guards no longer mean "the ray heads towards that side". FragmentOutcome holds for every fragment.
- GetFacesOfCube: a Face holds sequences rather than arrays. No code changes a face's arrays after the constructor, so the faces are values. "Every face has arrays of its own, shared with no other face or input buffer" is therefore implied by value semantics rather than stated as freshness of each array.
- GetFacesOfCube: the two inner copy loops of each pass sit in the helper method CutFace. They are otherwise unchanged.
- SetUpScene: requires at least 72 positions and 6 triangle indices, because the C# code indexes that far. It models neither the scaling and translation of the parts nor the scale of the sphere (CubeMapRendering.cs:52-76).
- NewShading: requires at least six textures, because the constructor indexes textures[0..5].
