/**
 * The reflection shading of the sphere (ReflectionShading.cs).
 *
 * The fragment shader receives the world-space point on the sphere and the
 * reflected view direction at that point, and decides which of the six cube
 * textures the reflected ray reads, and at which texture coordinate. The
 * model works over exact reals: `normalize` and `reflect` are not modelled
 * (the reflected direction is an input), IEEE rounding is not modelled, and
 * sampling a texture is replaced by the name of the sampler and the
 * coordinate it is read at.
 */
module ReflectionShading {

  datatype Option<T> = None | Some(value: T)

  datatype Vec3 = Vec3(x: real, y: real, z: real)

  datatype Uv = Uv(x: real, y: real)

  /** The six sampler uniforms of the shader; each names one side of the cube. */
  datatype Side = Front | Back | Left | Right | Top | Bottom

  const AllSides: set<Side> := {Front, Back, Left, Right, Top, Bottom}

  /** The value of FragColor: transparent black, or a texel of one sampler. */
  datatype FragColor = TransparentBlack | Sampled(sampler: Side, uv: Uv)

  /** The range test every block applies before it samples: [0,1) x [0,1). */
  predicate InUnitSquare(uv: Uv) {
    0.0 <= uv.x < 1.0 && 0.0 <= uv.y < 1.0
  }

  /** The six `if` blocks of the fragment shader, in program order. */
  const BranchOrder: seq<Side> := [Front, Back, Left, Right, Top, Bottom]

  /**
   * What the model needs of the shader's inputs: a positive cube half-extent
   * and a reflected direction without a zero component, so that every
   * division in the shader is by a non-zero number.
   */
  predicate ValidInputs(reflected: Vec3, scale: real) {
    scale > 0.0 && reflected.x != 0.0 && reflected.y != 0.0 && reflected.z != 0.0
  }

  // ---------------------------------------------------------------------
  // The shader's blocks
  // ---------------------------------------------------------------------

  // Each block, as a function of the ray parameter its guard tests. A
  // negative block tests the parameter as first computed (towards the plane
  // z = scale, x = scale or y = scale) and only then recomputes it, towards
  // the opposite plane. None: the guard does not hold.

  // The vec2 arithmetic the blocks use, component by component.

  /** The swizzle `.xy`. */
  function XY(v: Vec3): Uv { Uv(v.x, v.y) }

  /** The swizzle `.yz`. */
  function YZ(v: Vec3): Uv { Uv(v.y, v.z) }

  /** The swizzle `.xz`. */
  function XZ(v: Vec3): Uv { Uv(v.x, v.z) }

  /** `a + t * b` on vec2. */
  function AddScaled(a: Uv, t: real, b: Uv): Uv {
    Uv(a.x + t * b.x, a.y + t * b.y)
  }

  /** `a - t * b` on vec2. */
  function SubScaled(a: Uv, t: real, b: Uv): Uv {
    Uv(a.x - t * b.x, a.y - t * b.y)
  }

  /** `k * v / scale + 0.5` on vec2: a point of the plane, as a texture coordinate. */
  function ToUnit(k: real, v: Uv, scale: real): Uv
    requires scale != 0.0
  {
    Uv(k * v.x / scale + 0.5, k * v.y / scale + 0.5)
  }

  /** `if (t > 0)`: the block that samples `front`. */
  function FrontBlock(p: Vec3, r: Vec3, scale: real, t: real): (sample: Option<Uv>)
    requires ValidInputs(r, scale)
    ensures sample.Some? <==> t > 0.0
    ensures t > 0.0 && AddScaled(XY(p), t, XY(r)) == Uv(0.0, 0.0) ==> sample == Some(Uv(0.5, 0.5))
  {
    if t > 0.0 then Some(ToUnit(0.5, AddScaled(XY(p), t, XY(r)), scale))
    else None
  }

  /** `if (t < 0)`: the block that samples `back`. */
  function BackBlock(p: Vec3, r: Vec3, scale: real, t: real): (sample: Option<Uv>)
    requires ValidInputs(r, scale)
    ensures sample.Some? <==> t < 0.0
    ensures t < 0.0 && SubScaled(XY(p), (scale + p.z) / r.z, XY(r)) == Uv(0.0, 0.0) ==> sample == Some(Uv(0.5, 0.5))
  {
    if t < 0.0 then
      var t' := (scale + p.z) / r.z;
      var uv := ToUnit(0.5, SubScaled(XY(p), t', XY(r)), scale);
      Some(Uv(1.0 - uv.x, uv.y))
    else None
  }

  /** `if (f > 0)`: the block that samples `left`. */
  function LeftBlock(p: Vec3, r: Vec3, scale: real, f: real): (sample: Option<Uv>)
    requires ValidInputs(r, scale)
    ensures sample.Some? <==> f > 0.0
    ensures f > 0.0 && AddScaled(YZ(p), f, YZ(r)) == Uv(0.0, 0.0) ==> sample == Some(Uv(0.5, 0.5))
  {
    if f > 0.0 then
      var uv := ToUnit(-0.5, AddScaled(YZ(p), f, YZ(r)), scale);
      Some(Uv(uv.y, 1.0 - uv.x))
    else None
  }

  /** `if (f < 0)`: the block that samples `right`. */
  function RightBlock(p: Vec3, r: Vec3, scale: real, f: real): (sample: Option<Uv>)
    requires ValidInputs(r, scale)
    ensures sample.Some? <==> f < 0.0
    ensures f < 0.0 && SubScaled(YZ(p), (scale + p.x) / r.x, YZ(r)) == Uv(0.0, 0.0) ==> sample == Some(Uv(0.5, 0.5))
  {
    if f < 0.0 then
      var f' := (scale + p.x) / r.x;
      var uv := ToUnit(0.5, SubScaled(YZ(p), f', YZ(r)), scale);
      Some(Uv(uv.y, uv.x))
    else None
  }

  /** `if (g > 0)`: the block that samples `top`. */
  function TopBlock(p: Vec3, r: Vec3, scale: real, g: real): (sample: Option<Uv>)
    requires ValidInputs(r, scale)
    ensures sample.Some? <==> g > 0.0
    ensures g > 0.0 && AddScaled(XZ(p), g, XZ(r)) == Uv(0.0, 0.0) ==> sample == Some(Uv(0.5, 0.5))
  {
    if g > 0.0 then
      var uv := ToUnit(-0.5, AddScaled(XZ(p), g, XZ(r)), scale);
      Some(Uv(1.0 - uv.x, uv.y))
    else None
  }

  /** `if (g < 0)`: the block that samples `bottom`. */
  function BottomBlock(p: Vec3, r: Vec3, scale: real, g: real): (sample: Option<Uv>)
    requires ValidInputs(r, scale)
    ensures sample.Some? <==> g < 0.0
    ensures g < 0.0 && SubScaled(XZ(p), (scale + p.y) / r.y, XZ(r)) == Uv(0.0, 0.0) ==> sample == Some(Uv(0.5, 0.5))
  {
    if g < 0.0 then
      var g' := (scale + p.y) / r.y;
      var uv := ToUnit(-0.5, SubScaled(XZ(p), g', XZ(r)), scale);
      Some(Uv(uv.x, uv.y))
    else None
  }

  /**
   * The texture coordinate the block of `side` computes for a fragment, with
   * t, f and g as the shader first computes them; None if its guard fails.
   */
  function BranchUv(side: Side, p: Vec3, r: Vec3, scale: real): Option<Uv>
    requires ValidInputs(r, scale)
  {
    match side
    case Front => FrontBlock(p, r, scale, (scale - p.z) / r.z)
    case Back => BackBlock(p, r, scale, (scale - p.z) / r.z)
    case Left => LeftBlock(p, r, scale, (scale - p.x) / r.x)
    case Right => RightBlock(p, r, scale, (scale - p.x) / r.x)
    case Top => TopBlock(p, r, scale, (scale - p.y) / r.y)
    case Bottom => BottomBlock(p, r, scale, (scale - p.y) / r.y)
  }

  /** Keeps a coordinate only when it passes the range test. */
  function InRange(uv: Option<Uv>): (a: Option<Uv>)
    ensures a.Some? <==> uv.Some? && InUnitSquare(uv.value)
    ensures a.Some? ==> a == uv
  {
    match uv
    case Some(c) => if InUnitSquare(c) then uv else None
    case None => None
  }

  /** The coordinate the block of `side` samples at, if it samples at all. */
  function Accepted(side: Side, p: Vec3, r: Vec3, scale: real): Option<Uv>
    requires ValidInputs(r, scale)
  {
    InRange(BranchUv(side, p, r, scale))
  }

  /** What each block samples, in program order: entry k is the block of BranchOrder[k]. */
  function Samples(p: Vec3, r: Vec3, scale: real): (s: seq<Option<Uv>>)
    requires ValidInputs(r, scale)
    ensures |s| == |BranchOrder|
  {
    seq(6, k requires 0 <= k < 6 => Accepted(BranchOrder[k], p, r, scale))
  }

  // ---------------------------------------------------------------------
  // Overwriting FragColor, block after block
  // ---------------------------------------------------------------------

  /**
   * The colour left in FragColor after the first n blocks have run, one
   * after the other, from transparent black; block k is named order[k] and
   * samples at samples[k], if anywhere.
   */
  function ColorAfter(order: seq<Side>, samples: seq<Option<Uv>>, n: nat): (c: FragColor)
    requires |order| == |samples| && n <= |samples|
    decreases n
  {
    if n == 0 then TransparentBlack
    else
      match samples[n - 1]
      case Some(uv) => Sampled(order[n - 1], uv)
      case None => ColorAfter(order, samples, n - 1)
  }

  /** The colour the whole shader leaves for a fragment: all six blocks, in order. */
  function ShaderColor(p: Vec3, r: Vec3, scale: real): FragColor
    requires ValidInputs(r, scale)
  {
    ColorAfter(BranchOrder, Samples(p, r, scale), 6)
  }

  /**
   * The fragment shader's `main`, with `reflected` given. FragColor starts
   * as transparent black and each of the six blocks overwrites it when the
   * coordinate it computes lies in [0,1) x [0,1).
   */
  method FragmentMain(surfacePosition: Vec3, reflected: Vec3, scale: real) returns (fragColor: FragColor)
    requires ValidInputs(reflected, scale)
    ensures fragColor == ShaderColor(surfacePosition, reflected, scale)
  {
    ghost var p, r := surfacePosition, reflected;
    ghost var samples := Samples(p, r, scale);
    var t := (scale - surfacePosition.z) / reflected.z;
    var f := (scale - surfacePosition.x) / reflected.x;
    var g := (scale - surfacePosition.y) / reflected.y;
    fragColor := TransparentBlack;
    if t > 0.0 {
      var uv := ToUnit(0.5, AddScaled(XY(surfacePosition), t, XY(reflected)), scale);
      if InUnitSquare(uv) { fragColor := Sampled(Front, uv); }
    }
    assert fragColor == ColorAfter(BranchOrder, samples, 1);
    if t < 0.0 {
      t := (scale + surfacePosition.z) / reflected.z;
      var uv := ToUnit(0.5, SubScaled(XY(surfacePosition), t, XY(reflected)), scale);
      uv := Uv(1.0 - uv.x, uv.y);
      if InUnitSquare(uv) { fragColor := Sampled(Back, uv); }
    }
    assert fragColor == ColorAfter(BranchOrder, samples, 2);
    if f > 0.0 {
      var uv := ToUnit(-0.5, AddScaled(YZ(surfacePosition), f, YZ(reflected)), scale);
      uv := Uv(uv.y, 1.0 - uv.x);
      if InUnitSquare(uv) { fragColor := Sampled(Left, uv); }
    }
    assert fragColor == ColorAfter(BranchOrder, samples, 3);
    if f < 0.0 {
      f := (scale + surfacePosition.x) / reflected.x;
      var uv := ToUnit(0.5, SubScaled(YZ(surfacePosition), f, YZ(reflected)), scale);
      uv := Uv(uv.y, uv.x);
      if InUnitSquare(uv) { fragColor := Sampled(Right, uv); }
    }
    assert fragColor == ColorAfter(BranchOrder, samples, 4);
    if g > 0.0 {
      var uv := ToUnit(-0.5, AddScaled(XZ(surfacePosition), g, XZ(reflected)), scale);
      uv := Uv(1.0 - uv.x, uv.y);
      if InUnitSquare(uv) { fragColor := Sampled(Top, uv); }
    }
    assert fragColor == ColorAfter(BranchOrder, samples, 5);
    if g < 0.0 {
      g := (scale + surfacePosition.y) / reflected.y;
      var uv := ToUnit(-0.5, SubScaled(XZ(surfacePosition), g, XZ(reflected)), scale);
      uv := Uv(uv.x, uv.y);
      if InUnitSquare(uv) { fragColor := Sampled(Bottom, uv); }
    }
  }

  // ---------------------------------------------------------------------
  // The last block that samples wins
  // ---------------------------------------------------------------------

  /** FragColor stays transparent black exactly when none of the first n blocks samples. */
  lemma {:induction false} TransparentIffNoneSamples(order: seq<Side>, samples: seq<Option<Uv>>, n: nat)
    requires |order| == |samples| && n <= |samples|
    ensures ColorAfter(order, samples, n) == TransparentBlack <==> forall k :: 0 <= k < n ==> samples[k] == None
    decreases n
  {
    if n > 0 {
      TransparentIffNoneSamples(order, samples, n - 1);
    }
  }

  /**
   * When block k samples and no later block up to n does, FragColor is what
   * block k sampled, whatever the earlier blocks did.
   */
  lemma {:induction false} LastSamplingBlockWins(order: seq<Side>, samples: seq<Option<Uv>>, n: nat, k: nat)
    requires |order| == |samples| && n <= |samples|
    requires k < n && samples[k].Some?
    requires forall j :: k < j < n ==> samples[j] == None
    ensures ColorAfter(order, samples, n) == Sampled(order[k], samples[k].value)
    decreases n
  {
    if k < n - 1 {
      LastSamplingBlockWins(order, samples, n - 1, k);
    }
  }

  /**
   * A sampled colour comes from a block that samples and after which no
   * block up to n samples.
   */
  lemma {:induction false} SampledComesFromLastBlock(order: seq<Side>, samples: seq<Option<Uv>>, n: nat)
    requires |order| == |samples| && n <= |samples|
    requires ColorAfter(order, samples, n).Sampled?
    ensures exists k :: (0 <= k < n && order[k] == ColorAfter(order, samples, n).sampler
                         && samples[k] == Some(ColorAfter(order, samples, n).uv)
                         && forall j :: k < j < n ==> samples[j] == None)
    decreases n
  {
    if samples[n - 1].None? {
      SampledComesFromLastBlock(order, samples, n - 1);
    } else {
      assert order[n - 1] == ColorAfter(order, samples, n).sampler;
    }
  }

  /** Where `side` stands in BranchOrder. */
  function SideIndex(side: Side): (k: nat)
    ensures k < |BranchOrder| && BranchOrder[k] == side
  {
    match side
    case Front => 0
    case Back => 1
    case Left => 2
    case Right => 3
    case Top => 4
    case Bottom => 5
  }

  /**
   * The shader's output: transparent black exactly when no block samples;
   * otherwise the texel of the last block that samples.
   */
  lemma FragmentOutcome(p: Vec3, r: Vec3, scale: real)
    requires ValidInputs(r, scale)
    ensures ShaderColor(p, r, scale) == TransparentBlack <==> forall side :: Accepted(side, p, r, scale) == None
    ensures ShaderColor(p, r, scale).Sampled? ==>
      && InUnitSquare(ShaderColor(p, r, scale).uv)
      && Accepted(ShaderColor(p, r, scale).sampler, p, r, scale) == Some(ShaderColor(p, r, scale).uv)
    ensures forall k ::
              0 <= k < 6 && Accepted(BranchOrder[k], p, r, scale).Some?
              && (forall j :: k < j < 6 ==> Accepted(BranchOrder[j], p, r, scale) == None)
              ==> ShaderColor(p, r, scale) == Sampled(BranchOrder[k], Accepted(BranchOrder[k], p, r, scale).value)
  {
    var samples := Samples(p, r, scale);
    TransparentIffNoneSamples(BranchOrder, samples, 6);
    forall side ensures samples[SideIndex(side)] == Accepted(side, p, r, scale) {
    }
    forall k | 0 <= k < 6 && samples[k].Some? && (forall j :: k < j < 6 ==> samples[j] == None)
      ensures ColorAfter(BranchOrder, samples, 6) == Sampled(BranchOrder[k], samples[k].value)
    {
      LastSamplingBlockWins(BranchOrder, samples, 6, k);
    }
  }

  // ---------------------------------------------------------------------
  // Guards
  // ---------------------------------------------------------------------

  /**
   * For each axis the `> 0` and `< 0` blocks never both run, and neither
   * runs when the fragment lies on that axis' positive plane (parameter 0).
   */
  lemma AxisBlocksExclusive(p: Vec3, r: Vec3, scale: real)
    requires ValidInputs(r, scale)
    ensures BranchUv(Front, p, r, scale).Some? ==> BranchUv(Back, p, r, scale).None?
    ensures BranchUv(Left, p, r, scale).Some? ==> BranchUv(Right, p, r, scale).None?
    ensures BranchUv(Top, p, r, scale).Some? ==> BranchUv(Bottom, p, r, scale).None?
    ensures p.z == scale ==> BranchUv(Front, p, r, scale).None? && BranchUv(Back, p, r, scale).None?
    ensures p.x == scale ==> BranchUv(Left, p, r, scale).None? && BranchUv(Right, p, r, scale).None?
    ensures p.y == scale ==> BranchUv(Top, p, r, scale).None? && BranchUv(Bottom, p, r, scale).None?
  {
  }

  /**
   * A ray that meets the front plane at its centre, (0, 0, scale), is read
   * at the middle of the front texture: FrontBlock's centre case, with t
   * as the shader computes it.
   */
  lemma FrontCentre(p: Vec3, r: Vec3, scale: real)
    requires ValidInputs(r, scale)
    requires (scale - p.z) / r.z > 0.0
    requires p.x + (scale - p.z) / r.z * r.x == 0.0 && p.y + (scale - p.z) / r.z * r.y == 0.0
    ensures BranchUv(Front, p, r, scale) == Some(Uv(0.5, 0.5))
  {
    var t := (scale - p.z) / r.z;
    assert AddScaled(XY(p), t, XY(r)) == Uv(0.0, 0.0);
  }

  // ---------------------------------------------------------------------
  // The constructor: one texture per sampler, and the scale uniform
  // ---------------------------------------------------------------------

  /** The samplers the constructor binds textures[0], ..., textures[5] to. */
  const SamplerBinding: seq<Side> := [Left, Right, Top, Bottom, Front, Back]

  /** The uniforms of a constructed shading: the texture bound to each sampler, and `scale`. */
  datatype Shading<T> = Shading(samplers: map<Side, T>, scale: real)

  /** The constructor's binding list, and `Set("scale", scale)`. */
  function NewShading<T>(textures: seq<T>, scale: real): (s: Shading<T>)
    requires |textures| >= 6
    ensures s.scale == scale
    ensures s.samplers.Keys == AllSides
    ensures forall k :: 0 <= k < |SamplerBinding| ==> s.samplers[SamplerBinding[k]] == textures[k]
  {
    Shading(map[Left := textures[0], Right := textures[1], Top := textures[2],
                Bottom := textures[3], Front := textures[4], Back := textures[5]], scale)
  }

  /** Where the texture of each sampler stands in the constructor's argument. */
  function BindingIndex(side: Side): (k: nat)
    ensures k < |SamplerBinding| && SamplerBinding[k] == side
  {
    match side
    case Left => 0
    case Right => 1
    case Top => 2
    case Bottom => 3
    case Front => 4
    case Back => 5
  }

  /**
   * The binding list names every sampler exactly once, so the six textures
   * go to six different samplers and no sampler is left unbound: each
   * sampler reads the texture at its BindingIndex, and only that one.
   */
  lemma SamplerBindingIsBijection<T>(textures: seq<T>, scale: real)
    requires |textures| >= 6
    ensures |SamplerBinding| == |AllSides|
    ensures forall j, k :: 0 <= j < k < |SamplerBinding| ==> SamplerBinding[j] != SamplerBinding[k]
    ensures forall side :: side in AllSides
    ensures forall side :: NewShading(textures, scale).samplers[side] == textures[BindingIndex(side)]
    ensures forall k :: 0 <= k < |SamplerBinding| ==> BindingIndex(SamplerBinding[k]) == k
  {
    forall side ensures side in AllSides {
      match side
      case Front =>
      case Back =>
      case Left =>
      case Right =>
      case Top =>
      case Bottom =>
    }
    forall side ensures NewShading(textures, scale).samplers[side] == textures[BindingIndex(side)] {
      var k := BindingIndex(side);
      assert SamplerBinding[k] == side;
    }
  }
}
