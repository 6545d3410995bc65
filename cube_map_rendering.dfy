/**
 * The scene set-up of CubeMapRendering.cs: the cube is cut into six faces,
 * each face gets its image, its name and its texture coordinates, and the
 * six textures are handed to the reflection shading of the sphere.
 *
 * Loading and flipping the images, creating textures, shadings, surfaces
 * and visuals are calls into libraries whose code is not part of this
 * model: an image is named by the file it was loaded from, a texture
 * handle by the image it was made from, and a visual part by the data
 * GetFace passes to the library.
 */
module CubeMapRendering {
  import opened ReflectionShading

  /** C#'s `ushort`: the element type of a triangle index buffer. */
  newtype ushort = x: int | 0 <= x < 0x1_0000

  /** The half-extent of the cube, also passed to the sphere's shading. */
  const Scale: real := 5.0

  // ---------------------------------------------------------------------
  // Texture coordinates of a quad
  // ---------------------------------------------------------------------

  /** The texture coordinates every new Face gets: corners (0,0), (1,0), (1,1), (0,1). */
  const DefaultUv: seq<real> := [0.0, 0.0, 1.0, 0.0, 1.0, 1.0, 0.0, 1.0]

  /** The coordinates GetFace gives the face named "top". */
  const TopUv: seq<real> := [1.0, 0.0, 1.0, 1.0, 0.0, 1.0, 0.0, 0.0]

  /** The coordinates GetFace gives the face named "bottom". */
  const BottomUv: seq<real> := [0.0, 1.0, 0.0, 0.0, 1.0, 0.0, 1.0, 1.0]

  /** A quad's texture coordinates: four (u, v) pairs, one per corner. */
  predicate IsQuadUv(uv: seq<real>)
  {
    |uv| == 8
  }

  /** Corner i of a quad, as a (u, v) pair. */
  function Corner(uv: seq<real>, i: nat): (real, real)
    requires IsQuadUv(uv) && i < 4
  {
    (uv[2 * i], uv[2 * i + 1])
  }

  /** The corners of the unit square, in the order the default quad lists them. */
  const UnitSquare: seq<(real, real)> := [(0.0, 0.0), (1.0, 0.0), (1.0, 1.0), (0.0, 1.0)]

  /** The same quad listed from its second corner: corner i becomes corner (i + 1) mod 4. */
  function RotatedOnce(uv: seq<real>): (r: seq<real>)
    requires IsQuadUv(uv)
    ensures IsQuadUv(r)
    ensures Corner(r, 0) == Corner(uv, 1) && Corner(r, 1) == Corner(uv, 2)
    ensures Corner(r, 2) == Corner(uv, 3) && Corner(r, 3) == Corner(uv, 0)
  {
    uv[2..] + uv[..2]
  }

  /** The quad shifted k corners forward: corner i becomes corner (i + k) mod 4. */
  function Rotated(uv: seq<real>, k: nat): (r: seq<real>)
    requires IsQuadUv(uv)
    ensures IsQuadUv(r)
  {
    if k == 0 then uv else RotatedOnce(Rotated(uv, k - 1))
  }

  /** Every coordinate of uv is 0 or 1. */
  predicate UnitCoordinates(uv: seq<real>)
  {
    forall j :: 0 <= j < |uv| ==> uv[j] == 0.0 || uv[j] == 1.0
  }

  /** The corners of uv are corners of the unit square, and every corner of the square is one of them. */
  predicate CoversUnitSquare(uv: seq<real>)
    requires IsQuadUv(uv)
  {
    && (forall i :: 0 <= i < 4 ==> Corner(uv, i) in UnitSquare)
    && (forall c :: c in UnitSquare ==> exists i :: 0 <= i < 4 && Corner(uv, i) == c)
  }

  /** Two corners are joined by an edge of the unit square: they differ in exactly one coordinate. */
  predicate Adjacent(c: (real, real), d: (real, real))
  {
    (c.0 == d.0) != (c.1 == d.1)
  }

  /** The quad goes once around the unit square: consecutive corners, the last and the first included, share an edge. */
  predicate WalksAround(uv: seq<real>)
    requires IsQuadUv(uv)
  {
    && Adjacent(Corner(uv, 0), Corner(uv, 1)) && Adjacent(Corner(uv, 1), Corner(uv, 2))
    && Adjacent(Corner(uv, 2), Corner(uv, 3)) && Adjacent(Corner(uv, 3), Corner(uv, 0))
  }

  /** A quad of 0/1 coordinates that lists every corner of the unit square, once around. */
  predicate UnitQuad(uv: seq<real>)
  {
    IsQuadUv(uv) && UnitCoordinates(uv) && CoversUnitSquare(uv) && WalksAround(uv)
  }

  /** The default quad lists the four corners of the unit square, once around. */
  lemma DefaultUvWalksUnitSquare()
    ensures IsQuadUv(DefaultUv) && UnitCoordinates(DefaultUv)
    ensures forall i :: 0 <= i < 4 ==> Corner(DefaultUv, i) == UnitSquare[i]
    ensures CoversUnitSquare(DefaultUv) && WalksAround(DefaultUv)
  {
    forall c | c in UnitSquare ensures exists i :: 0 <= i < 4 && Corner(DefaultUv, i) == c {
      var i :| 0 <= i < 4 && UnitSquare[i] == c;
      assert Corner(DefaultUv, i) == c;
    }
  }

  /** One step of rotation keeps the corners, the 0/1 coordinates and the walk around the square. */
  lemma RotatedOnceKeepsCorners(uv: seq<real>)
    requires IsQuadUv(uv)
    ensures CoversUnitSquare(RotatedOnce(uv)) <==> CoversUnitSquare(uv)
    ensures UnitCoordinates(RotatedOnce(uv)) <==> UnitCoordinates(uv)
    ensures WalksAround(RotatedOnce(uv)) <==> WalksAround(uv)
  {
    RotatedOnceCoordinates(uv);
    RotatedOnceCovers(uv);
  }

  /** One step of rotation lists the same four corners. */
  lemma RotatedOnceCovers(uv: seq<real>)
    requires IsQuadUv(uv)
    ensures CoversUnitSquare(RotatedOnce(uv)) <==> CoversUnitSquare(uv)
  {
    var r := RotatedOnce(uv);
    if CoversUnitSquare(uv) {
      forall c | c in UnitSquare ensures exists i :: 0 <= i < 4 && Corner(r, i) == c {
        var i :| 0 <= i < 4 && Corner(uv, i) == c;
        assert Corner(r, if i == 0 then 3 else i - 1) == c;
      }
    }
    if CoversUnitSquare(r) {
      forall c | c in UnitSquare ensures exists i :: 0 <= i < 4 && Corner(uv, i) == c {
        var i :| 0 <= i < 4 && Corner(r, i) == c;
        assert Corner(uv, if i == 3 then 0 else i + 1) == c;
      }
    }
  }

  /** One step of rotation moves coordinate j + 2 to place j, wrapping around. */
  lemma RotatedOnceCoordinates(uv: seq<real>)
    requires IsQuadUv(uv)
    ensures UnitCoordinates(RotatedOnce(uv)) <==> UnitCoordinates(uv)
  {
    var r := RotatedOnce(uv);
    if UnitCoordinates(r) {
      forall j | 0 <= j < 8 ensures uv[j] == 0.0 || uv[j] == 1.0 {
        assert uv[j] == r[if j < 2 then j + 6 else j - 2];
      }
    }
    if UnitCoordinates(uv) {
      forall j | 0 <= j < 8 ensures r[j] == 0.0 || r[j] == 1.0 {
        assert r[j] == uv[if j < 6 then j + 2 else j - 6];
      }
    }
  }

  /** Rotation by any number of steps keeps the corners, the 0/1 coordinates and the walk around the square. */
  lemma {:induction false} RotationKeepsCorners(uv: seq<real>, k: nat)
    requires IsQuadUv(uv)
    ensures CoversUnitSquare(Rotated(uv, k)) <==> CoversUnitSquare(uv)
    ensures UnitCoordinates(Rotated(uv, k)) <==> UnitCoordinates(uv)
    ensures WalksAround(Rotated(uv, k)) <==> WalksAround(uv)
  {
    if k > 0 {
      RotationKeepsCorners(uv, k - 1);
      RotatedOnceKeepsCorners(Rotated(uv, k - 1));
    }
  }

  /** Rotating by k and then by m is rotating by k + m. */
  lemma {:induction false} RotationsCompose(uv: seq<real>, k: nat, m: nat)
    requires IsQuadUv(uv)
    ensures Rotated(Rotated(uv, k), m) == Rotated(uv, k + m)
  {
    if m > 0 {
      RotationsCompose(uv, k, m - 1);
    }
  }

  /** Four steps of rotation bring every quad back to itself. */
  lemma FullTurn(uv: seq<real>)
    requires IsQuadUv(uv)
    ensures Rotated(uv, 4) == uv
  {
    var r := Rotated(uv, 4);
    assert Rotated(uv, 1) == uv[2..] + uv[..2];
    assert Rotated(uv, 2) == uv[4..] + uv[..4];
    assert Rotated(uv, 3) == uv[6..] + uv[..6];
    assert r == uv[..] + uv[..0];
  }

  /**
   * The two overrides of GetFace are cyclic shifts of the default quad:
   * "top" starts one corner later, "bottom" one corner earlier, so each
   * undoes the other and all three lists go once around the same four corners.
   */
  lemma OverridesRotateDefault()
    ensures TopUv == Rotated(DefaultUv, 1)
    ensures BottomUv == Rotated(DefaultUv, 3)
    ensures Rotated(TopUv, 3) == DefaultUv && Rotated(BottomUv, 1) == DefaultUv
    ensures CoversUnitSquare(TopUv) && CoversUnitSquare(BottomUv)
    ensures UnitCoordinates(TopUv) && UnitCoordinates(BottomUv)
    ensures WalksAround(TopUv) && WalksAround(BottomUv)
  {
    assert Rotated(DefaultUv, 1) == TopUv;
    assert Rotated(DefaultUv, 2) == [1.0, 1.0, 0.0, 1.0, 0.0, 0.0, 1.0, 0.0];
    assert Rotated(DefaultUv, 3) == BottomUv;
    RotationsCompose(DefaultUv, 1, 3);
    RotationsCompose(DefaultUv, 3, 1);
    FullTurn(DefaultUv);
    DefaultUvWalksUnitSquare();
    RotationKeepsCorners(DefaultUv, 1);
    RotationKeepsCorners(DefaultUv, 3);
  }

  // ---------------------------------------------------------------------
  // Winding of a quad
  // ---------------------------------------------------------------------

  /** The 2D cross product of two corners. */
  function Cross2(c: (real, real), d: (real, real)): real
  {
    c.0 * d.1 - d.0 * c.1
  }

  /**
   * Twice the signed area of a quad (the shoelace formula): positive when
   * its corners go counter-clockwise, negative when they go clockwise.
   */
  function Winding(uv: seq<real>): real
    requires IsQuadUv(uv)
  {
    Cross2(Corner(uv, 0), Corner(uv, 1)) + Cross2(Corner(uv, 1), Corner(uv, 2))
    + Cross2(Corner(uv, 2), Corner(uv, 3)) + Cross2(Corner(uv, 3), Corner(uv, 0))
  }

  /** The quad mirrored horizontally: u becomes 1 - u at every corner. */
  function MirroredU(uv: seq<real>): (m: seq<real>)
    requires IsQuadUv(uv)
    ensures IsQuadUv(m)
    ensures forall i :: 0 <= i < 4 ==> Corner(m, i) == (1.0 - Corner(uv, i).0, Corner(uv, i).1)
  {
    [1.0 - uv[0], uv[1], 1.0 - uv[2], uv[3], 1.0 - uv[4], uv[5], 1.0 - uv[6], uv[7]]
  }

  /** Listing a quad from another corner keeps its winding. */
  lemma {:induction false} RotationKeepsWinding(uv: seq<real>, k: nat)
    requires IsQuadUv(uv)
    ensures Winding(Rotated(uv, k)) == Winding(uv)
  {
    if k > 0 {
      RotationKeepsWinding(uv, k - 1);
      var r := Rotated(uv, k - 1);
      assert Winding(RotatedOnce(r)) == Winding(r);
    }
  }

  /** Mirroring a quad reverses its winding. */
  lemma MirrorReversesWinding(uv: seq<real>)
    requires IsQuadUv(uv)
    ensures Winding(MirroredU(uv)) == -Winding(uv)
  {
    var m := MirroredU(uv);
    forall i, j | 0 <= i < 4 && 0 <= j < 4
      ensures Cross2(Corner(m, i), Corner(m, j))
           == Corner(uv, j).1 - Corner(uv, i).1 - Cross2(Corner(uv, i), Corner(uv, j))
    {
    }
  }

  /**
   * The default quad and both overrides go counter-clockwise round the
   * unit square; the default quad mirrored in u would go clockwise.
   */
  lemma OverridesKeepWinding()
    ensures Winding(DefaultUv) == 2.0
    ensures Winding(TopUv) == Winding(DefaultUv) && Winding(BottomUv) == Winding(DefaultUv)
    ensures Winding(MirroredU(DefaultUv)) == -2.0
  {
    OverridesRotateDefault();
    RotationKeepsWinding(DefaultUv, 1);
    RotationKeepsWinding(DefaultUv, 3);
    MirrorReversesWinding(DefaultUv);
  }

  /**
   * The UV choice of GetFace: the face named "top" is drawn with the
   * default quad shifted forward by one corner, "bottom" with it shifted
   * back by one, and every other face keeps the coordinates it has.
   */
  function TextureUvFor(name: string, faceUv: seq<real>): (uv: seq<real>)
    ensures IsQuadUv(faceUv) ==> IsQuadUv(uv)
  {
    if name == "top" then TopUv
    else if name == "bottom" then BottomUv
    else faceUv
  }

  /**
   * Whatever the name, GetFace draws a face either with its own coordinates
   * or with a quad that goes once around the unit square; so a face that
   * starts with such a quad keeps one.
   */
  lemma TextureUvKeepsUnitQuad(name: string, faceUv: seq<real>)
    ensures TextureUvFor(name, faceUv) == faceUv || UnitQuad(TextureUvFor(name, faceUv))
    ensures UnitQuad(faceUv) ==> UnitQuad(TextureUvFor(name, faceUv))
  {
    OverridesRotateDefault();
    assert UnitQuad(TopUv) && UnitQuad(BottomUv);
    if name == "top" {
      assert TextureUvFor(name, faceUv) == TopUv;
    } else if name == "bottom" {
      assert TextureUvFor(name, faceUv) == BottomUv;
    } else {
      assert TextureUvFor(name, faceUv) == faceUv;
    }
  }

  /**
   * The UV choice as the rotations it makes: "top" gets the default quad
   * one corner forward, "bottom" one corner back, any other name keeps the
   * face's own coordinates.
   */
  lemma TextureUvChoice(name: string, faceUv: seq<real>)
    ensures name == "top" ==> TextureUvFor(name, faceUv) == Rotated(DefaultUv, 1)
    ensures name == "bottom" ==> TextureUvFor(name, faceUv) == Rotated(DefaultUv, 3)
    ensures name != "top" && name != "bottom" ==> TextureUvFor(name, faceUv) == faceUv
  {
    OverridesRotateDefault();
  }

  // ---------------------------------------------------------------------
  // Faces
  // ---------------------------------------------------------------------

  /**
   * One face of the cube: the four corners (twelve floats), the two
   * triangles (six indices) and the texture coordinate of each corner
   * (eight floats). Nothing changes a face after it is made, so it is a value.
   */
  datatype Face = Face(Positions: seq<real>, Triangles: seq<ushort>, TextureUv: seq<real>)

  /** The Face constructor: a new face keeps its corners and triangles and gets the default quad. */
  function NewFace(positions: seq<real>, triangles: seq<ushort>): (face: Face)
    ensures face.Positions == positions && face.Triangles == triangles
    ensures IsQuadUv(face.TextureUv) && UnitCoordinates(face.TextureUv)
    ensures forall i :: 0 <= i < 4 ==> Corner(face.TextureUv, i) == UnitSquare[i]
  {
    Face(positions, triangles, DefaultUv)
  }

  /** Face k of the cube: floats 12k .. 12k+11 of the position buffer and the first six indices. */
  function CubeFace(positions: seq<real>, triangles: seq<ushort>, k: nat): Face
    requires 12 * k + 12 <= |positions| && 6 <= |triangles|
  {
    NewFace(positions[12 * k .. 12 * k + 12], triangles[..6])
  }

  /**
   * One pass of the outer loop of GetFacesOfCube: copies the face's twelve
   * floats and the first six indices into new arrays and makes a Face of
   * them. Both arms of the test on face 4 build the same face.
   */
  method CutFace(positions: array<real>, triangles: array<ushort>, faceIndex: nat) returns (face: Face)
    requires 12 * faceIndex + 12 <= positions.Length && triangles.Length >= 6
    ensures face == CubeFace(positions[..], triangles[..], faceIndex)
  {
    var facePositions := new real[12];
    var currentPositionsModifier := faceIndex * 12;
    for i := 0 to 12
      modifies facePositions
      invariant facePositions[..i] == positions[currentPositionsModifier .. currentPositionsModifier + i]
    {
      facePositions[i] := positions[i + currentPositionsModifier];
    }

    var faceTriangles := new ushort[6];
    for i := 0 to 6
      modifies faceTriangles
      invariant faceTriangles[..i] == triangles[..i]
    {
      faceTriangles[i] := triangles[i];
    }
    assert facePositions[..] == facePositions[..12];
    assert facePositions[..] == positions[..][12 * faceIndex .. 12 * faceIndex + 12];
    if faceIndex == 4 {
      face := NewFace(facePositions[..], faceTriangles[..]);
    } else {
      face := NewFace(facePositions[..], faceTriangles[..]);
    }
  }

  /**
   * GetFacesOfCube: cuts the cube's position buffer into six faces of four
   * corners each, and gives every face the first six indices of the
   * triangle buffer, whatever the face index.
   */
  method GetFacesOfCube(positions: array<real>, triangles: array<ushort>) returns (faces: array<Face>)
    requires positions.Length >= 72 && triangles.Length >= 6
    ensures fresh(faces) && faces.Length == 6
    ensures forall k :: 0 <= k < 6 ==> faces[k] == CubeFace(positions[..], triangles[..], k)
    ensures forall k :: 0 <= k < 6 ==> |faces[k].Positions| == 12 && |faces[k].Triangles| == 6
  {
    faces := new Face[6](_ => Face([], [], []));
    for faceIndex := 0 to 6
      invariant forall k :: 0 <= k < faceIndex ==> faces[k] == CubeFace(positions[..], triangles[..], k)
    {
      faces[faceIndex] := CutFace(positions, triangles, faceIndex);
    }
  }

  /**
   * Faces j and k of the cube read disjoint parts of the position buffer,
   * and the same part of the triangle buffer.
   */
  lemma FacesTileBuffer(positions: seq<real>, triangles: seq<ushort>, j: nat, k: nat)
    requires |positions| >= 72 && |triangles| >= 6 && j < k < 6
    ensures CubeFace(positions, triangles, j).Triangles == CubeFace(positions, triangles, k).Triangles
    ensures CubeFace(positions, triangles, j).TextureUv == CubeFace(positions, triangles, k).TextureUv
    ensures forall i :: 0 <= i < 12 ==>
      CubeFace(positions, triangles, j).Positions[i] == positions[12 * j + i] &&
      CubeFace(positions, triangles, k).Positions[i] == positions[12 * k + i] &&
      12 * j + i < 12 * k
  {
  }

  // ---------------------------------------------------------------------
  // Images, textures and the wiring of the constructor
  // ---------------------------------------------------------------------

  /** The six images of the cube map, named by the file each is loaded from. */
  datatype Image = FrontImage | BackImage | LeftImage | RightImage | TopImage | BottomImage

  /** A texture handle, named by the image it was created from. */
  datatype Texture = TextureOf(image: Image)

  /** The data GetFace hands to the graphics library for one face. */
  datatype VisualPart = VisualPart(name: string, positions: seq<real>, uvs: seq<real>,
                                   triangles: seq<ushort>, texture: Texture)

  /**
   * GetFace: makes a texture of the image and draws the face with it,
   * under the given name, with the UV choice of TextureUvFor.
   */
  function GetFace(image: Image, face: Face, name: string): (drawn: (VisualPart, Texture))
    ensures drawn.0.texture == drawn.1 == TextureOf(image)
    ensures drawn.0.name == name
    ensures drawn.0.positions == face.Positions && drawn.0.triangles == face.Triangles
    ensures IsQuadUv(face.TextureUv) ==> IsQuadUv(drawn.0.uvs)
  {
    var texture := TextureOf(image);
    (VisualPart(name, face.Positions, TextureUvFor(name, face.TextureUv), face.Triangles, texture), texture)
  }

  /** The image passed to the k-th GetFace call. */
  const FaceImages: seq<Image> := [LeftImage, FrontImage, RightImage, BackImage, TopImage, BottomImage]

  /** The name passed to the k-th GetFace call. */
  const FaceNames: seq<string> := ["left", "front", "right", "back", "top", "bottom"]

  /** textures[i] is the texture made by GetFace call TextureOrder[i]. */
  const TextureOrder: seq<nat> := [1, 3, 4, 5, 0, 2]

  /**
   * The image the shader's sampler on each side ends up reading, written
   * out side by side as an independent reference for the wiring.
   */
  function SamplerImage(side: Side): Image
  {
    match side
    case Left => FrontImage
    case Right => BackImage
    case Top => TopImage
    case Bottom => BottomImage
    case Front => LeftImage
    case Back => RightImage
  }

  /**
   * The six GetFace calls use six distinct names, so only the fifth face
   * is drawn as "top" and only the sixth as "bottom"; they use six
   * distinct images.
   */
  lemma FaceNamesSelectOverrides()
    ensures |FaceNames| == 6 && |FaceImages| == 6
    ensures forall j, k :: 0 <= j < k < 6 ==> FaceNames[j] != FaceNames[k] && FaceImages[j] != FaceImages[k]
    ensures forall k :: 0 <= k < 6 ==> (FaceNames[k] == "top" <==> k == 4)
    ensures forall k :: 0 <= k < 6 ==> (FaceNames[k] == "bottom" <==> k == 5)
  {
    assert FaceNames[0] == "left" && FaceNames[1] == "front" && FaceNames[2] == "right";
    assert FaceNames[3] == "back" && FaceNames[4] == "top" && FaceNames[5] == "bottom";
    assert "left"[0] == 'l' && "front"[0] == 'f' && "right"[0] == 'r';
    assert "back"[0] == 'b' && "top"[0] == 't' && "bottom"[0] == 'b' && |"back"| != |"bottom"|;
  }

  /** The textures array lists each of the six GetFace calls exactly once. */
  lemma TextureOrderIsPermutation()
    ensures |TextureOrder| == 6
    ensures forall i :: 0 <= i < 6 ==> TextureOrder[i] < 6
    ensures forall i, j :: 0 <= i < j < 6 ==> TextureOrder[i] != TextureOrder[j]
    ensures forall k: nat :: k < 6 ==> k in TextureOrder
  {
    assert TextureOrder[4] == 0 && TextureOrder[0] == 1 && TextureOrder[5] == 2;
    assert TextureOrder[1] == 3 && TextureOrder[2] == 4 && TextureOrder[3] == 5;
  }

  /** Part k of the scene: face k of the cube drawn by GetFace call k. */
  function ScenePart(positions: seq<real>, triangles: seq<ushort>, k: nat): VisualPart
    requires |positions| >= 72 && |triangles| >= 6 && k < 6
  {
    GetFace(FaceImages[k], CubeFace(positions, triangles, k), FaceNames[k]).0
  }

  /** The textures array of the constructor: entry i is the texture of GetFace call TextureOrder[i]. */
  function SceneTextures(): (textures: seq<Texture>)
    ensures |textures| == 6
  {
    seq(6, i requires 0 <= i < 6 => TextureOf(FaceImages[TextureOrder[i]]))
  }

  /**
   * The constructor of CubeMapRendering, without the image loading, the
   * scaling and translation of the parts and the debug output: it cuts the
   * cube into faces, draws face k with image FaceImages[k] under name
   * FaceNames[k], and gives the sphere's shading the textures in the order
   * TextureOrder together with the cube's scale.
   */
  method SetUpScene(cubePositions: array<real>, cubeTriangles: array<ushort>)
    returns (parts: seq<VisualPart>, textures: seq<Texture>, sphere: Shading<Texture>)
    requires cubePositions.Length >= 72 && cubeTriangles.Length >= 6
    ensures |parts| == 6
    ensures forall k :: 0 <= k < 6 ==> parts[k] == ScenePart(cubePositions[..], cubeTriangles[..], k)
    ensures textures == SceneTextures() && sphere == NewShading(textures, Scale)
    ensures forall side :: side in sphere.samplers && sphere.samplers[side] == TextureOf(SamplerImage(side))
  {
    var faces := GetFacesOfCube(cubePositions, cubeTriangles);
    var faceFront := GetFace(LeftImage, faces[0], "left");
    var faceBack := GetFace(FrontImage, faces[1], "front");
    var faceLeft := GetFace(RightImage, faces[2], "right");
    var faceRight := GetFace(BackImage, faces[3], "back");
    var faceTop := GetFace(TopImage, faces[4], "top");
    var faceBottom := GetFace(BottomImage, faces[5], "bottom");

    textures := [faceBack.1, faceRight.1, faceTop.1, faceBottom.1, faceFront.1, faceLeft.1];
    sphere := NewShading(textures, Scale);
    parts := [faceFront.0, faceBack.0, faceLeft.0, faceRight.0, faceTop.0, faceBottom.0];

    ghost var p, t := cubePositions[..], cubeTriangles[..];
    assert parts[0] == ScenePart(p, t, 0) && parts[1] == ScenePart(p, t, 1);
    assert parts[2] == ScenePart(p, t, 2) && parts[3] == ScenePart(p, t, 3);
    assert parts[4] == ScenePart(p, t, 4) && parts[5] == ScenePart(p, t, 5);
    assert textures == SceneTextures();
    SamplersReadWiredImages(textures);
  }

  /**
   * What the scene draws: part k carries the name and the texture of
   * GetFace call k and the corners of face k of the cube; the top part is
   * drawn with the default quad shifted one corner forward, the bottom part
   * with it shifted one corner back, and the other four with the default quad.
   */
  lemma ScenePartsDrawn(positions: seq<real>, triangles: seq<ushort>)
    requires |positions| >= 72 && |triangles| >= 6
    ensures forall k :: 0 <= k < 6 ==>
      var part := ScenePart(positions, triangles, k);
      && part.name == FaceNames[k]
      && part.texture == TextureOf(FaceImages[k])
      && part.positions == positions[12 * k .. 12 * k + 12]
      && part.triangles == triangles[..6]
    ensures ScenePart(positions, triangles, 4).uvs == Rotated(DefaultUv, 1)
    ensures ScenePart(positions, triangles, 5).uvs == Rotated(DefaultUv, 3)
    ensures forall k :: 0 <= k < 4 ==> ScenePart(positions, triangles, k).uvs == DefaultUv
  {
    FaceNamesSelectOverrides();
    forall k | 0 <= k < 6 ensures ScenePart(positions, triangles, k).uvs == TextureUvFor(FaceNames[k], DefaultUv) { }
    TextureUvChoice(FaceNames[4], DefaultUv);
    TextureUvChoice(FaceNames[5], DefaultUv);
    forall k | 0 <= k < 4 ensures ScenePart(positions, triangles, k).uvs == DefaultUv {
      TextureUvChoice(FaceNames[k], DefaultUv);
    }
  }

  /**
   * Handing the sphere's shading the textures in the order TextureOrder
   * makes each side's sampler read the image SamplerImage gives it.
   */
  lemma SamplersReadWiredImages(textures: seq<Texture>)
    requires textures == SceneTextures()
    ensures forall side :: side in NewShading(textures, Scale).samplers
    ensures forall side :: NewShading(textures, Scale).samplers[side] == TextureOf(SamplerImage(side))
  {
    var sphere := NewShading(textures, Scale);
    SamplerBindingIsBijection(textures, Scale);
    forall side ensures sphere.samplers[side] == TextureOf(SamplerImage(side)) {
      match side
      case Left => assert sphere.samplers[SamplerBinding[0]] == textures[0];
      case Right => assert sphere.samplers[SamplerBinding[1]] == textures[1];
      case Top => assert sphere.samplers[SamplerBinding[2]] == textures[2];
      case Bottom => assert sphere.samplers[SamplerBinding[3]] == textures[3];
      case Front => assert sphere.samplers[SamplerBinding[4]] == textures[4];
      case Back => assert sphere.samplers[SamplerBinding[5]] == textures[5];
    }
  }

  /** The side whose sampler reads the image. */
  function SideOf(image: Image): Side
  {
    match image
    case FrontImage => Left
    case BackImage => Right
    case TopImage => Top
    case BottomImage => Bottom
    case LeftImage => Front
    case RightImage => Back
  }

  /**
   * Every image of the cube map is read by exactly one sampler of the
   * sphere's shader: SideOf undoes SamplerImage both ways.
   */
  lemma SamplersSeeEveryImageOnce()
    ensures forall side :: SideOf(SamplerImage(side)) == side
    ensures forall image :: SamplerImage(SideOf(image)) == image
  {
  }
}
