/**
 * What the fragment shader of ReflectionShading.cs computes, stated as
 * geometry: the reflected ray, cast from the fragment, meets one of the six
 * planes of a cube of half-extent `scale` centred at the origin, and the
 * point where it meets the plane is mapped linearly onto that side's
 * texture. This module gives that lookup an independent definition, from
 * each side's frame (outward normal, texture u and v directions), and proves
 * that the shader's six blocks compute it.
 */
module ReflectionGeometry {
  import opened ReflectionShading

  // ---------------------------------------------------------------------
  // Vectors and the frame of each side
  // ---------------------------------------------------------------------

  function Dot(a: Vec3, b: Vec3): real {
    a.x * b.x + a.y * b.y + a.z * b.z
  }

  function Cross(a: Vec3, b: Vec3): Vec3 {
    Vec3(a.y * b.z - a.z * b.y, a.z * b.x - a.x * b.z, a.x * b.y - a.y * b.x)
  }

  /**
   * The outward normal of the plane each sampler is read on: `front` lies
   * on z = scale, `left` on x = scale and `top` on y = scale, the others
   * opposite them.
   */
  function Normal(side: Side): Vec3 {
    match side
    case Front => Vec3(0.0, 0.0, 1.0)
    case Back => Vec3(0.0, 0.0, -1.0)
    case Left => Vec3(1.0, 0.0, 0.0)
    case Right => Vec3(-1.0, 0.0, 0.0)
    case Top => Vec3(0.0, 1.0, 0.0)
    case Bottom => Vec3(0.0, -1.0, 0.0)
  }

  /** The direction in which the texture's u coordinate grows on each side. */
  function UDir(side: Side): Vec3 {
    match side
    case Front => Vec3(1.0, 0.0, 0.0)
    case Back => Vec3(-1.0, 0.0, 0.0)
    case Left => Vec3(0.0, 0.0, -1.0)
    case Right => Vec3(0.0, 0.0, 1.0)
    case Top => Vec3(1.0, 0.0, 0.0)
    case Bottom => Vec3(-1.0, 0.0, 0.0)
  }

  /** The direction in which the texture's v coordinate grows on each side. */
  function VDir(side: Side): Vec3 {
    match side
    case Front | Back | Left | Right => Vec3(0.0, 1.0, 0.0)
    case Top | Bottom => Vec3(0.0, 0.0, -1.0)
  }

  /** How far a point or direction goes along the outward normal of `side`. */
  function Along(v: Vec3, side: Side): real {
    match side
    case Front => v.z
    case Back => -v.z
    case Left => v.x
    case Right => -v.x
    case Top => v.y
    case Bottom => -v.y
  }

  /** The coordinate of q along the u direction of `side`. */
  function UCoord(q: Vec3, side: Side): real {
    match side
    case Front | Top => q.x
    case Back | Bottom => -q.x
    case Left => -q.z
    case Right => q.z
  }

  /** The coordinate of q along the v direction of `side`. */
  function VCoord(q: Vec3, side: Side): real {
    match side
    case Front | Back | Left | Right => q.y
    case Top | Bottom => -q.z
  }

  /**
   * The u and v directions of each side span its plane and turn the right
   * way round: u cross v is the outward normal, so every texture appears
   * unmirrored when its side is seen from outside the cube.
   */
  lemma FrameRightHanded(side: Side)
    ensures Cross(UDir(side), VDir(side)) == Normal(side)
  {
  }

  /** Along, UCoord and VCoord are the components of a point in that frame. */
  lemma FrameCoordinates(v: Vec3, side: Side)
    ensures Along(v, side) == Dot(v, Normal(side))
    ensures UCoord(v, side) == Dot(v, UDir(side))
    ensures VCoord(v, side) == Dot(v, VDir(side))
  {
  }

  /** A fragment strictly inside the cube. */
  predicate Inside(p: Vec3, scale: real) {
    -scale < p.x < scale && -scale < p.y < scale && -scale < p.z < scale
  }

  // ---------------------------------------------------------------------
  // The reference lookup
  // ---------------------------------------------------------------------

  /** The ray parameter at which p + mu * r meets the plane of `side`. */
  function HitParam(p: Vec3, r: Vec3, side: Side, scale: real): real
    requires ValidInputs(r, scale)
  {
    (scale - Along(p, side)) / Along(r, side)
  }

  /** The point the ray from p along r reaches at parameter mu. */
  function PointAt(p: Vec3, r: Vec3, mu: real): Vec3 {
    Vec3(p.x + mu * r.x, p.y + mu * r.y, p.z + mu * r.z)
  }

  /** The point where the ray from p along r meets the plane of `side`. */
  function HitPoint(p: Vec3, r: Vec3, side: Side, scale: real): Vec3
    requires ValidInputs(r, scale)
  {
    PointAt(p, r, HitParam(p, r, side, scale))
  }

  /** A coordinate in [-scale, scale], as a texture coordinate in [0, 1]. */
  function Remap(c: real, scale: real): real
    requires scale > 0.0
  {
    0.5 * c / scale + 0.5
  }

  /** The texture coordinate of a point q of the plane of `side`. */
  function FaceUv(side: Side, q: Vec3, scale: real): Uv
    requires scale > 0.0
  {
    Uv(Remap(UCoord(q, side), scale), Remap(VCoord(q, side), scale))
  }

  /**
   * The reference lookup: the texture coordinate at which the ray from p
   * along r meets the plane of `side`, if it heads towards that plane.
   */
  function FaceLookup(side: Side, p: Vec3, r: Vec3, scale: real): Option<Uv>
    requires ValidInputs(r, scale)
  {
    if Along(r, side) > 0.0 then Some(FaceUv(side, HitPoint(p, r, side, scale), scale)) else None
  }

  /** The texture coordinate of q, coordinate by coordinate. */
  lemma FaceUvAxis(side: Side, q: Vec3, scale: real)
    requires scale > 0.0
    ensures side == Front ==> FaceUv(side, q, scale) == Uv(Remap(q.x, scale), Remap(q.y, scale))
    ensures side == Back ==> FaceUv(side, q, scale) == Uv(Remap(-q.x, scale), Remap(q.y, scale))
    ensures side == Left ==> FaceUv(side, q, scale) == Uv(Remap(-q.z, scale), Remap(q.y, scale))
    ensures side == Right ==> FaceUv(side, q, scale) == Uv(Remap(q.z, scale), Remap(q.y, scale))
    ensures side == Top ==> FaceUv(side, q, scale) == Uv(Remap(q.x, scale), Remap(-q.z, scale))
    ensures side == Bottom ==> FaceUv(side, q, scale) == Uv(Remap(-q.x, scale), Remap(-q.z, scale))
  {
    match side
    case Front =>
    case Back => assert UCoord(q, side) == -q.x;
    case Left => assert UCoord(q, side) == -q.z;
    case Right =>
    case Top => assert VCoord(q, side) == -q.z;
    case Bottom => assert UCoord(q, side) == -q.x && VCoord(q, side) == -q.z;
  }

  /** The half-open square of the plane of `side` that the range test keeps. */
  predicate InFace(side: Side, q: Vec3, scale: real) {
    -scale <= UCoord(q, side) < scale && -scale <= VCoord(q, side) < scale
  }

  // ---------------------------------------------------------------------
  // Division by a non-zero component
  // ---------------------------------------------------------------------

  lemma DivSign(a: real, b: real)
    requires a > 0.0 && b != 0.0
    ensures a / b > 0.0 <==> b > 0.0
    ensures a / b < 0.0 <==> b < 0.0
  {
    if b > 0.0 {
      assert a / b * b == a;
    } else {
      assert a / b * b == a;
    }
  }

  lemma DivMul(a: real, b: real)
    requires b != 0.0
    ensures a / b * b == a
  {
  }

  lemma DivNeg(a: real, b: real)
    requires b != 0.0
    ensures a / -b == -(a / b)
    ensures -a / b == -(a / b)
  {
    assert a / -b * -b == a;
    assert -a / b * b == -a;
    assert a / b * b == a;
  }

  lemma MulNeg(a: real, b: real, c: real)
    requires a == -b
    ensures a * c == -(b * c)
  {
  }

  /** The shader's `1 - u` and its factor -0.5 both mirror a coordinate. */
  lemma RemapFlip(c: real, scale: real)
    requires scale > 0.0
    ensures 1.0 - Remap(c, scale) == Remap(-c, scale)
    ensures -0.5 * c / scale + 0.5 == Remap(-c, scale)
  {
    DivNeg(0.5 * c, scale);
    assert 0.5 * -c == -(0.5 * c);
    assert -0.5 * c == -(0.5 * c);
  }

  /** The shader's scaling to [0, 1], with factor 0.5 or -0.5, is Remap. */
  lemma ToUnitIsRemap(v: Uv, scale: real)
    requires scale > 0.0
    ensures ToUnit(0.5, v, scale) == Uv(Remap(v.x, scale), Remap(v.y, scale))
    ensures ToUnit(-0.5, v, scale) == Uv(Remap(-v.x, scale), Remap(-v.y, scale))
  {
    RemapFlip(v.x, scale);
    RemapFlip(v.y, scale);
  }

  // ---------------------------------------------------------------------
  // Each block computes the reference lookup
  // ---------------------------------------------------------------------

  lemma FrontMeetsFace(p: Vec3, r: Vec3, scale: real)
    requires ValidInputs(r, scale) && p.z < scale
    ensures FrontBlock(p, r, scale, (scale - p.z) / r.z) == FaceLookup(Front, p, r, scale)
  {
    var t := (scale - p.z) / r.z;
    assert t > 0.0 <==> Along(r, Front) > 0.0 by {
      DivSign(scale - p.z, r.z);
    }
    if t > 0.0 {
      var q := HitPoint(p, r, Front, scale);
      assert AddScaled(XY(p), t, XY(r)) == XY(q);
      ToUnitIsRemap(XY(q), scale);
      FaceUvAxis(Front, q, scale);
    }
  }

  lemma BackMeetsFace(p: Vec3, r: Vec3, scale: real)
    requires ValidInputs(r, scale) && p.z < scale
    ensures BackBlock(p, r, scale, (scale - p.z) / r.z) == FaceLookup(Back, p, r, scale)
  {
    var t := (scale - p.z) / r.z;
    assert t < 0.0 <==> Along(r, Back) > 0.0 by {
      DivSign(scale - p.z, r.z);
    }
    if t < 0.0 {
      var t' := (scale + p.z) / r.z;
      var q := HitPoint(p, r, Back, scale);
      var mu := HitParam(p, r, Back, scale);
      assert mu == -t' by {
        DivNeg(scale + p.z, r.z);
      }
      MulNeg(mu, t', r.x);
      MulNeg(mu, t', r.y);
      assert q == Vec3(p.x + mu * r.x, p.y + mu * r.y, p.z + mu * r.z);
      assert XY(q) == Uv(p.x - t' * r.x, p.y - t' * r.y);
      assert SubScaled(XY(p), t', XY(r)) == XY(q);
      ToUnitIsRemap(XY(q), scale);
      RemapFlip(q.x, scale);
      FaceUvAxis(Back, q, scale);
    }
  }

  lemma LeftMeetsFace(p: Vec3, r: Vec3, scale: real)
    requires ValidInputs(r, scale) && p.x < scale
    ensures LeftBlock(p, r, scale, (scale - p.x) / r.x) == FaceLookup(Left, p, r, scale)
  {
    var f := (scale - p.x) / r.x;
    assert f > 0.0 <==> Along(r, Left) > 0.0 by {
      DivSign(scale - p.x, r.x);
    }
    if f > 0.0 {
      var q := HitPoint(p, r, Left, scale);
      assert AddScaled(YZ(p), f, YZ(r)) == YZ(q);
      ToUnitIsRemap(YZ(q), scale);
      RemapFlip(q.y, scale);
      FaceUvAxis(Left, q, scale);
    }
  }

  lemma RightMeetsFace(p: Vec3, r: Vec3, scale: real)
    requires ValidInputs(r, scale) && p.x < scale
    ensures RightBlock(p, r, scale, (scale - p.x) / r.x) == FaceLookup(Right, p, r, scale)
  {
    var f := (scale - p.x) / r.x;
    assert f < 0.0 <==> Along(r, Right) > 0.0 by {
      DivSign(scale - p.x, r.x);
    }
    if f < 0.0 {
      var f' := (scale + p.x) / r.x;
      var q := HitPoint(p, r, Right, scale);
      var mu := HitParam(p, r, Right, scale);
      assert mu == -f' by {
        DivNeg(scale + p.x, r.x);
      }
      MulNeg(mu, f', r.y);
      MulNeg(mu, f', r.z);
      assert q == Vec3(p.x + mu * r.x, p.y + mu * r.y, p.z + mu * r.z);
      assert YZ(q) == Uv(p.y - f' * r.y, p.z - f' * r.z);
      assert SubScaled(YZ(p), f', YZ(r)) == YZ(q);
      ToUnitIsRemap(YZ(q), scale);
      FaceUvAxis(Right, q, scale);
    }
  }

  lemma TopMeetsFace(p: Vec3, r: Vec3, scale: real)
    requires ValidInputs(r, scale) && p.y < scale
    ensures TopBlock(p, r, scale, (scale - p.y) / r.y) == FaceLookup(Top, p, r, scale)
  {
    var g := (scale - p.y) / r.y;
    assert g > 0.0 <==> Along(r, Top) > 0.0 by {
      DivSign(scale - p.y, r.y);
    }
    if g > 0.0 {
      var q := HitPoint(p, r, Top, scale);
      assert AddScaled(XZ(p), g, XZ(r)) == XZ(q);
      ToUnitIsRemap(XZ(q), scale);
      RemapFlip(q.x, scale);
      FaceUvAxis(Top, q, scale);
    }
  }

  lemma BottomMeetsFace(p: Vec3, r: Vec3, scale: real)
    requires ValidInputs(r, scale) && p.y < scale
    ensures BottomBlock(p, r, scale, (scale - p.y) / r.y) == FaceLookup(Bottom, p, r, scale)
  {
    var g := (scale - p.y) / r.y;
    assert g < 0.0 <==> Along(r, Bottom) > 0.0 by {
      DivSign(scale - p.y, r.y);
    }
    if g < 0.0 {
      var g' := (scale + p.y) / r.y;
      var q := HitPoint(p, r, Bottom, scale);
      var mu := HitParam(p, r, Bottom, scale);
      assert mu == -g' by {
        DivNeg(scale + p.y, r.y);
      }
      MulNeg(mu, g', r.x);
      MulNeg(mu, g', r.z);
      assert q == Vec3(p.x + mu * r.x, p.y + mu * r.y, p.z + mu * r.z);
      assert XZ(q) == Uv(p.x - g' * r.x, p.z - g' * r.z);
      assert SubScaled(XZ(p), g', XZ(r)) == XZ(q);
      ToUnitIsRemap(XZ(q), scale);
      FaceUvAxis(Bottom, q, scale);
    }
  }

  /**
   * For a fragment inside the cube, the block of each side computes the
   * reference lookup: it runs exactly when the reflected ray heads towards
   * that side's plane, and then yields the texture coordinate of the point
   * where the ray meets the plane.
   */
  lemma BlockMeetsFace(side: Side, p: Vec3, r: Vec3, scale: real)
    requires ValidInputs(r, scale) && Inside(p, scale)
    ensures BranchUv(side, p, r, scale) == FaceLookup(side, p, r, scale)
  {
    match side
    case Front => FrontMeetsFace(p, r, scale);
    case Back => BackMeetsFace(p, r, scale);
    case Left => LeftMeetsFace(p, r, scale);
    case Right => RightMeetsFace(p, r, scale);
    case Top => TopMeetsFace(p, r, scale);
    case Bottom => BottomMeetsFace(p, r, scale);
  }

  // ---------------------------------------------------------------------
  // Properties of the reference lookup
  // ---------------------------------------------------------------------

  /** Along is linear along a ray. */
  lemma AlongOnRay(p: Vec3, r: Vec3, mu: real, side: Side)
    ensures Along(PointAt(p, r, mu), side)
         == Along(p, side) + mu * Along(r, side)
  {
    match side
    case Front =>
    case Back => MulNeg(-mu, mu, r.z);
    case Left =>
    case Right => MulNeg(-mu, mu, r.x);
    case Top =>
    case Bottom => MulNeg(-mu, mu, r.y);
  }

  /** The hit point lies on the plane of its side. */
  lemma HitPointOnPlane(p: Vec3, r: Vec3, side: Side, scale: real)
    requires ValidInputs(r, scale)
    ensures Along(HitPoint(p, r, side, scale), side) == scale
  {
    var mu := HitParam(p, r, side, scale);
    AlongOnRay(p, r, mu, side);
    DivMul(scale - Along(p, side), Along(r, side));
  }

  /** From inside the cube, the plane a ray heads towards lies ahead of it. */
  lemma HitAhead(p: Vec3, r: Vec3, side: Side, scale: real)
    requires ValidInputs(r, scale) && Inside(p, scale)
    ensures HitParam(p, r, side, scale) > 0.0 <==> Along(r, side) > 0.0
  {
    DivSign(scale - Along(p, side), Along(r, side));
  }

  /** Remap takes exactly [-scale, scale) onto [0, 1). */
  lemma RemapInUnit(c: real, scale: real)
    requires scale > 0.0
    ensures 0.0 <= Remap(c, scale) < 1.0 <==> -scale <= c < scale
  {
    var e := 0.5 * c / scale;
    assert e * scale == 0.5 * c;
    assert Remap(c, scale) == e + 0.5;
    MulMonotone(-0.5, e, scale);
    MulMonotone(e, 0.5, scale);
    assert -0.5 <= e <==> -scale <= c;
    assert e < 0.5 <==> c < scale;
  }

  /** Multiplying by a positive number keeps the order. */
  lemma MulMonotone(a: real, b: real, s: real)
    requires s > 0.0
    ensures a <= b <==> a * s <= b * s
    ensures a < b <==> a * s < b * s
  {
    assert b * s - a * s == (b - a) * s;
  }

  /** The range test keeps exactly the points of the half-open face square. */
  lemma FaceUvInUnitSquare(side: Side, q: Vec3, scale: real)
    requires scale > 0.0
    ensures InUnitSquare(FaceUv(side, q, scale)) <==> InFace(side, q, scale)
  {
    RemapInUnit(UCoord(q, side), scale);
    RemapInUnit(VCoord(q, side), scale);
  }

  /**
   * For a fragment inside the cube, the block of `side` samples exactly when
   * the reflected ray heads towards that side and meets its plane inside
   * the half-open face square, and it samples at the hit point's coordinate.
   */
  lemma AcceptedIffHitInFace(side: Side, p: Vec3, r: Vec3, scale: real)
    requires ValidInputs(r, scale) && Inside(p, scale)
    ensures Accepted(side, p, r, scale).Some?
        <==> Along(r, side) > 0.0 && InFace(side, HitPoint(p, r, side, scale), scale)
    ensures Accepted(side, p, r, scale).Some?
        ==> Accepted(side, p, r, scale).value == FaceUv(side, HitPoint(p, r, side, scale), scale)
  {
    BlockMeetsFace(side, p, r, scale);
    FaceUvInUnitSquare(side, HitPoint(p, r, side, scale), scale);
  }

  /**
   * For a fragment inside the cube, the shader is a cube-map lookup: it
   * leaves FragColor transparent black exactly when the reflected ray meets
   * no side's plane inside that side's half-open square, and otherwise it
   * samples a side the ray heads towards, at the texture coordinate of the
   * point where the ray meets it.
   */
  lemma ShaderIsCubeLookup(p: Vec3, r: Vec3, scale: real)
    requires ValidInputs(r, scale) && Inside(p, scale)
    ensures ShaderColor(p, r, scale) == TransparentBlack <==>
      forall side :: !(Along(r, side) > 0.0 && InFace(side, HitPoint(p, r, side, scale), scale))
    ensures ShaderColor(p, r, scale).Sampled? ==>
      && Along(r, ShaderColor(p, r, scale).sampler) > 0.0
      && InFace(ShaderColor(p, r, scale).sampler, HitPoint(p, r, ShaderColor(p, r, scale).sampler, scale), scale)
      && ShaderColor(p, r, scale).uv
         == FaceUv(ShaderColor(p, r, scale).sampler, HitPoint(p, r, ShaderColor(p, r, scale).sampler, scale), scale)
  {
    FragmentOutcome(p, r, scale);
    forall side
      ensures Accepted(side, p, r, scale).Some?
          <==> Along(r, side) > 0.0 && InFace(side, HitPoint(p, r, side, scale), scale)
      ensures Accepted(side, p, r, scale).Some?
          ==> Accepted(side, p, r, scale).value == FaceUv(side, HitPoint(p, r, side, scale), scale)
    {
      AcceptedIffHitInFace(side, p, r, scale);
    }
  }

  /** The centre of side's square: scale along its outward normal. */
  function Centre(side: Side, scale: real): Vec3
  {
    Vec3(scale * Normal(side).x, scale * Normal(side).y, scale * Normal(side).z)
  }

  /** The centre of each side's square is read at the centre of its texture. */
  lemma FaceCentre(side: Side, scale: real)
    requires scale > 0.0
    ensures Along(Centre(side, scale), side) == scale && FaceUv(side, Centre(side, scale), scale) == Uv(0.5, 0.5)
  {
    var centre := Centre(side, scale);
    assert UCoord(centre, side) == 0.0 && VCoord(centre, side) == 0.0;
    assert 0.5 * 0.0 / scale == 0.0;
  }

  // ---------------------------------------------------------------------
  // Seams between the sides around the vertical axis
  // ---------------------------------------------------------------------

  /** The side that follows `side` as u grows, around the y axis. */
  function NextAround(side: Side): (next: Side)
    requires side != Top && side != Bottom
    ensures next != Top && next != Bottom && next != side
  {
    match side
    case Front => Left
    case Left => Back
    case Back => Right
    case Right => Front
  }

  /**
   * Going round the y axis, each side's texture ends (u = 1) where the next
   * side's texture begins (u = 0), at the same height v: the four textures
   * form one continuous panorama.
   */
  lemma SeamsAround(side: Side, q: Vec3, scale: real)
    requires scale > 0.0 && side != Top && side != Bottom
    requires Along(q, side) == scale && Along(q, NextAround(side)) == scale
    ensures UCoord(q, side) == scale && UCoord(q, NextAround(side)) == -scale
    ensures VCoord(q, side) == VCoord(q, NextAround(side))
    ensures Remap(scale, scale) == 1.0 && Remap(-scale, scale) == 0.0
  {
    assert 0.5 * scale / scale == 0.5 by {
      DivMul(0.5 * scale, scale);
    }
    assert 0.5 * -scale / scale == -0.5 by {
      DivNeg(0.5 * scale, scale);
    }
  }

  /**
   * The range test keeps u = 0 and drops u = 1, so a point of a vertical
   * seam never lies in the face square of the side before it, and lies in
   * the square of the side after it exactly when -scale <= y < scale. At
   * the seam's ends other squares decide what is sampled (see the edge
   * lemmas below).
   */
  lemma SeamBelongsToNextSide(side: Side, q: Vec3, scale: real)
    requires scale > 0.0 && side != Top && side != Bottom
    requires Along(q, side) == scale && Along(q, NextAround(side)) == scale
    ensures !InFace(side, q, scale)
    ensures InFace(NextAround(side), q, scale) <==> -scale <= q.y < scale
  {
    SeamsAround(side, q, scale);
  }

  /**
   * The edge between the left and the top planes (x = y = scale) lies in
   * the face square of no side: the left square drops v = 1 and the top
   * square drops u = 1, so a ray that meets the cube there samples nothing.
   */
  lemma TopLeftEdgeInNoFace(q: Vec3, scale: real)
    requires scale > 0.0 && q.x == scale && q.y == scale
    ensures forall side :: Along(q, side) == scale ==> !InFace(side, q, scale)
  {
  }

  // ---------------------------------------------------------------------
  // Where a ray leaves the cube: edges of the cube
  // ---------------------------------------------------------------------

  /** A point of the closed cube. */
  predicate InCube(q: Vec3, scale: real) {
    -scale <= q.x <= scale && -scale <= q.y <= scale && -scale <= q.z <= scale
  }

  /** Inside the cube, a point lies below every side's plane; in the closed cube, on or below it. */
  lemma BelowPlanes(q: Vec3, scale: real)
    ensures Inside(q, scale) ==> forall side :: Along(q, side) < scale
    ensures InCube(q, scale) ==> forall side :: Along(q, side) <= scale
  {
    forall side ensures Inside(q, scale) ==> Along(q, side) < scale
      ensures InCube(q, scale) ==> Along(q, side) <= scale
    {
      match side
      case Front => case Back => case Left => case Right => case Top => case Bottom =>
    }
  }

  /** A point of a side's plane that lies in its face square lies in the closed cube. */
  lemma FaceSquareInCube(side: Side, q: Vec3, scale: real)
    requires scale > 0.0 && Along(q, side) == scale && InFace(side, q, scale)
    ensures InCube(q, scale)
  {
    match side
    case Front => case Back => case Left => case Right => case Top => case Bottom =>
  }

  /** Of two points on a ray that heads towards a plane, the one on the plane is the farther. */
  lemma ParamOrder(base: real, rate: real, onPlane: real, other: real, scale: real)
    requires rate > 0.0 && base + onPlane * rate == scale && base + other * rate <= scale
    ensures other <= onPlane
  {
    MulMonotone(other, onPlane, rate);
  }

  /** The ray parameter of a side's plane, in the form without division. */
  lemma OnPlaneParam(p: Vec3, r: Vec3, a: Side, scale: real)
    requires ValidInputs(r, scale)
    ensures Along(p, a) + HitParam(p, r, a, scale) * Along(r, a) == scale
  {
    HitPointOnPlane(p, r, a, scale);
    AlongOnRay(p, r, HitParam(p, r, a, scale), a);
  }

  /** Two sides met at the same ray parameter are met at the same point. */
  lemma SameParamSamePoint(p: Vec3, r: Vec3, a: Side, b: Side, scale: real)
    requires ValidInputs(r, scale)
    requires HitParam(p, r, a, scale) <= HitParam(p, r, b, scale) <= HitParam(p, r, a, scale)
    ensures HitPoint(p, r, a, scale) == HitPoint(p, r, b, scale)
  {
    assert HitParam(p, r, a, scale) == HitParam(p, r, b, scale);
  }

  /**
   * A point of a ray that heads towards a's plane and is not beyond that
   * plane comes no later along the ray than the point on the plane.
   */
  lemma NoNearerAt(p: Vec3, r: Vec3, a: Side, mu: real, scale: real)
    requires ValidInputs(r, scale) && Along(r, a) > 0.0
    requires Along(PointAt(p, r, mu), a) <= scale
    ensures mu <= HitParam(p, r, a, scale)
  {
    OnPlaneParam(p, r, a, scale);
    AlongOnRay(p, r, mu, a);
    ParamOrder(Along(p, a), Along(r, a), HitParam(p, r, a, scale), mu, scale);
  }

  /**
   * A ray from inside the cube leaves it at a single point: any two planes
   * it heads towards and meets within the closed cube are met at the same
   * point.
   */
  lemma RayLeavesCubeOnce(p: Vec3, r: Vec3, a: Side, b: Side, scale: real)
    requires ValidInputs(r, scale) && Inside(p, scale)
    requires Along(r, a) > 0.0 && Along(r, b) > 0.0
    requires InCube(HitPoint(p, r, a, scale), scale) && InCube(HitPoint(p, r, b, scale), scale)
    ensures HitPoint(p, r, a, scale) == HitPoint(p, r, b, scale)
  {
    BelowPlanes(HitPoint(p, r, a, scale), scale);
    BelowPlanes(HitPoint(p, r, b, scale), scale);
    NoNearerAt(p, r, a, HitParam(p, r, b, scale), scale);
    NoNearerAt(p, r, b, HitParam(p, r, a, scale), scale);
    SameParamSamePoint(p, r, a, b, scale);
  }

  /**
   * The side the shader samples is the side through which the ray leaves
   * the cube: its hit point lies in the closed cube, ahead of the fragment,
   * and no plane the ray heads towards is met earlier.
   */
  lemma SampledIsExit(p: Vec3, r: Vec3, scale: real)
    requires ValidInputs(r, scale) && Inside(p, scale)
    requires ShaderColor(p, r, scale).Sampled?
    ensures HitParam(p, r, ShaderColor(p, r, scale).sampler, scale) > 0.0
    ensures InCube(HitPoint(p, r, ShaderColor(p, r, scale).sampler, scale), scale)
    ensures forall b :: Along(r, b) > 0.0 ==>
      HitParam(p, r, ShaderColor(p, r, scale).sampler, scale) <= HitParam(p, r, b, scale)
  {
    var s := ShaderColor(p, r, scale).sampler;
    var q := HitPoint(p, r, s, scale);
    ShaderIsCubeLookup(p, r, scale);
    HitAhead(p, r, s, scale);
    HitPointOnPlane(p, r, s, scale);
    FaceSquareInCube(s, q, scale);
    BelowPlanes(q, scale);
    forall b | Along(r, b) > 0.0 ensures HitParam(p, r, s, scale) <= HitParam(p, r, b, scale) {
      NoNearerAt(p, r, b, HitParam(p, r, s, scale), scale);
    }
  }

  /** The centre of a side's square lies on no other side's plane. */
  lemma CentreOnOwnPlaneOnly(s: Side, b: Side, scale: real)
    requires scale > 0.0 && b != s
    ensures Along(Centre(s, scale), b) < scale
  {
  }

  /**
   * A ray from inside the cube that meets a side's plane at the centre of
   * its square is read from that side's texture at (0.5, 0.5).
   */
  lemma CentreRay(p: Vec3, r: Vec3, s: Side, scale: real)
    requires ValidInputs(r, scale) && Inside(p, scale) && Along(r, s) > 0.0
    requires HitPoint(p, r, s, scale) == Centre(s, scale)
    ensures ShaderColor(p, r, scale) == Sampled(s, Uv(0.5, 0.5))
  {
    FaceCentre(s, scale);
    FaceUvInUnitSquare(s, Centre(s, scale), scale);
    FaceSquareInCube(s, Centre(s, scale), scale);
    AcceptedIffHitInFace(s, p, r, scale);
    forall b | b != s ensures Accepted(b, p, r, scale) == None {
      AcceptedIffHitInFace(b, p, r, scale);
      if Accepted(b, p, r, scale).Some? {
        HitPointOnPlane(p, r, b, scale);
        FaceSquareInCube(b, HitPoint(p, r, b, scale), scale);
        RayLeavesCubeOnce(p, r, s, b, scale);
        CentreOnOwnPlaneOnly(s, b, scale);
        assert false;
      }
    }
    FragmentOutcome(p, r, scale);
  }

  /** A ray heading down that meets the bottom plane at z = scale meets the front plane at the same point. */
  lemma FrontBottomEdgePoint(p: Vec3, r: Vec3, scale: real)
    requires ValidInputs(r, scale) && Inside(p, scale) && Along(r, Bottom) > 0.0
    requires HitPoint(p, r, Bottom, scale).z == scale
    ensures Along(r, Front) > 0.0 && HitPoint(p, r, Front, scale) == HitPoint(p, r, Bottom, scale)
  {
    var mb := HitParam(p, r, Bottom, scale);
    AlongOnRay(p, r, HitParam(p, r, Bottom, scale), Front);
    HitAhead(p, r, Bottom, scale);
    PositiveRate(mb, Along(r, Front));
    DivCancel(mb, Along(r, Front));
    SameParamSamePoint(p, r, Front, Bottom, scale);
  }

  /** A ray heading down that meets the bottom plane at x = scale meets the left plane at the same point. */
  lemma LeftBottomEdgePoint(p: Vec3, r: Vec3, scale: real)
    requires ValidInputs(r, scale) && Inside(p, scale) && Along(r, Bottom) > 0.0
    requires HitPoint(p, r, Bottom, scale).x == scale
    ensures Along(r, Left) > 0.0 && HitPoint(p, r, Left, scale) == HitPoint(p, r, Bottom, scale)
  {
    var mb := HitParam(p, r, Bottom, scale);
    AlongOnRay(p, r, HitParam(p, r, Bottom, scale), Left);
    HitAhead(p, r, Bottom, scale);
    PositiveRate(mb, Along(r, Left));
    DivCancel(mb, Along(r, Left));
    SameParamSamePoint(p, r, Left, Bottom, scale);
  }

  /** A positive ray parameter and a positive product give a positive rate. */
  lemma PositiveRate(m: real, rate: real)
    requires m > 0.0 && m * rate > 0.0
    ensures rate > 0.0
  {
    MulMonotone(rate, 0.0, m);
  }

  lemma DivCancel(m: real, x: real)
    requires x != 0.0
    ensures m * x / x == m
  {
    DivMul(m * x, x);
    assert (m * x / x - m) * x == 0.0;
  }

  /**
   * A ray from inside the cube that heads up and leaves the cube through a
   * point of the top plane that lies in no face square leaves FragColor
   * transparent black.
   */
  lemma ExitOutsideSquaresIsTransparent(p: Vec3, r: Vec3, scale: real)
    requires ValidInputs(r, scale) && Inside(p, scale) && Along(r, Top) > 0.0
    requires InCube(HitPoint(p, r, Top, scale), scale)
    requires forall side :: Along(HitPoint(p, r, Top, scale), side) == scale ==> !InFace(side, HitPoint(p, r, Top, scale), scale)
    ensures ShaderColor(p, r, scale) == TransparentBlack
  {
    ShaderIsCubeLookup(p, r, scale);
    forall side | Along(r, side) > 0.0 ensures !InFace(side, HitPoint(p, r, side, scale), scale) {
      HitPointOnPlane(p, r, side, scale);
      if InFace(side, HitPoint(p, r, side, scale), scale) {
        FaceSquareInCube(side, HitPoint(p, r, side, scale), scale);
        RayLeavesCubeOnce(p, r, Top, side, scale);
        assert false;
      }
    }
  }

  /**
   * The edge between the top and the back planes (y = scale, z = -scale)
   * lies in the face square of no side: both squares drop v = 1 there.
   */
  lemma TopBackEdgeInNoFace(q: Vec3, scale: real)
    requires scale > 0.0 && q.y == scale && q.z == -scale
    ensures forall side :: Along(q, side) == scale ==> !InFace(side, q, scale)
  {
  }

  /** A ray that leaves the cube through the top/left edge samples nothing. */
  lemma TopLeftEdgeRayIsTransparent(p: Vec3, r: Vec3, scale: real)
    requires ValidInputs(r, scale) && Inside(p, scale) && Along(r, Top) > 0.0
    requires HitPoint(p, r, Top, scale).x == scale && -scale <= HitPoint(p, r, Top, scale).z <= scale
    ensures ShaderColor(p, r, scale) == TransparentBlack
  {
    HitPointOnPlane(p, r, Top, scale);
    TopLeftEdgeInNoFace(HitPoint(p, r, Top, scale), scale);
    ExitOutsideSquaresIsTransparent(p, r, scale);
  }

  /** A ray that leaves the cube through the top/back edge samples nothing. */
  lemma TopBackEdgeRayIsTransparent(p: Vec3, r: Vec3, scale: real)
    requires ValidInputs(r, scale) && Inside(p, scale) && Along(r, Top) > 0.0
    requires HitPoint(p, r, Top, scale).z == -scale && -scale <= HitPoint(p, r, Top, scale).x <= scale
    ensures ShaderColor(p, r, scale) == TransparentBlack
  {
    HitPointOnPlane(p, r, Top, scale);
    TopBackEdgeInNoFace(HitPoint(p, r, Top, scale), scale);
    ExitOutsideSquaresIsTransparent(p, r, scale);
  }

  /**
   * The edge between the front and the bottom planes (y = -scale,
   * z = scale) lies in both face squares, except at its two ends.
   */
  lemma BottomFrontEdgeInTwoSquares(q: Vec3, scale: real)
    requires scale > 0.0 && q.y == -scale && q.z == scale
    ensures InFace(Front, q, scale) <==> -scale <= q.x < scale
    ensures InFace(Bottom, q, scale) <==> -scale < q.x <= scale
  {
  }

  /**
   * The edge between the left and the bottom planes (x = scale,
   * y = -scale) lies in both face squares, except at its end z = -scale.
   */
  lemma BottomLeftEdgeInTwoSquares(q: Vec3, scale: real)
    requires scale > 0.0 && q.x == scale && q.y == -scale
    ensures InFace(Left, q, scale) <==> -scale < q.z <= scale
    ensures InFace(Bottom, q, scale) <==> -scale < q.z <= scale
  {
  }

  /**
   * A ray that leaves the cube through the front/bottom edge passes both
   * the front and the bottom block's range test; the bottom block runs
   * last, so FragColor is read from the bottom texture.
   */
  lemma BottomFrontEdgeRaySamplesBottom(p: Vec3, r: Vec3, scale: real)
    requires ValidInputs(r, scale) && Inside(p, scale) && Along(r, Bottom) > 0.0
    requires HitPoint(p, r, Bottom, scale).z == scale && -scale < HitPoint(p, r, Bottom, scale).x < scale
    ensures Accepted(Front, p, r, scale).Some?
    ensures ShaderColor(p, r, scale) == Sampled(Bottom, FaceUv(Bottom, HitPoint(p, r, Bottom, scale), scale))
  {
    var q := HitPoint(p, r, Bottom, scale);
    HitPointOnPlane(p, r, Bottom, scale);
    FrontBottomEdgePoint(p, r, scale);
    BottomFrontEdgeInTwoSquares(q, scale);
    AcceptedIffHitInFace(Front, p, r, scale);
    AcceptedIffHitInFace(Bottom, p, r, scale);
    FragmentOutcome(p, r, scale);
    assert BranchOrder[5] == Bottom;
  }

  /**
   * A ray that leaves the cube through the left/bottom edge passes both
   * the left and the bottom block's range test, and FragColor is read from
   * the bottom texture.
   */
  lemma BottomLeftEdgeRaySamplesBottom(p: Vec3, r: Vec3, scale: real)
    requires ValidInputs(r, scale) && Inside(p, scale) && Along(r, Bottom) > 0.0
    requires HitPoint(p, r, Bottom, scale).x == scale && -scale < HitPoint(p, r, Bottom, scale).z <= scale
    ensures Accepted(Left, p, r, scale).Some?
    ensures ShaderColor(p, r, scale) == Sampled(Bottom, FaceUv(Bottom, HitPoint(p, r, Bottom, scale), scale))
  {
    var q := HitPoint(p, r, Bottom, scale);
    HitPointOnPlane(p, r, Bottom, scale);
    LeftBottomEdgePoint(p, r, scale);
    BottomLeftEdgeInTwoSquares(q, scale);
    AcceptedIffHitInFace(Left, p, r, scale);
    AcceptedIffHitInFace(Bottom, p, r, scale);
    FragmentOutcome(p, r, scale);
    assert BranchOrder[5] == Bottom;
  }

  /**
   * Of the points of the cube's surface, exactly those of the top/left
   * and the top/back edges lie in no face square.
   */
  lemma OnlyTopEdgesInNoSquare(q: Vec3, scale: real)
    requires scale > 0.0 && InCube(q, scale)
    requires q.x == scale || q.x == -scale || q.y == scale || q.y == -scale || q.z == scale || q.z == -scale
    ensures (forall side :: Along(q, side) == scale ==> !InFace(side, q, scale))
        <==> q.y == scale && (q.x == scale || q.z == -scale)
  {
    if q.y == scale && q.x == scale {
      TopLeftEdgeInNoFace(q, scale);
    } else if q.y == scale && q.z == -scale {
      TopBackEdgeInNoFace(q, scale);
    } else if Along(q, Front) == scale && InFace(Front, q, scale) {
    } else if Along(q, Back) == scale && InFace(Back, q, scale) {
    } else if Along(q, Left) == scale && InFace(Left, q, scale) {
    } else if Along(q, Right) == scale && InFace(Right, q, scale) {
    } else if Along(q, Top) == scale && InFace(Top, q, scale) {
    } else if Along(q, Bottom) == scale && InFace(Bottom, q, scale) {
    } else {
      assert false;
    }
  }

  /** Only points of the bottom/front and the bottom/left edges lie in two face squares. */
  lemma OnlyBottomEdgesInTwoSquares(a: Side, b: Side, q: Vec3, scale: real)
    requires scale > 0.0 && a != b
    requires Along(q, a) == scale && InFace(a, q, scale)
    requires Along(q, b) == scale && InFace(b, q, scale)
    ensures q.y == -scale && (q.z == scale || q.x == scale)
  {
  }
}
