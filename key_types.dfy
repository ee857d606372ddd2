/**
 The inputs the program-key builder reads: the GL capabilities it consults,
 the colour-component flags of texture configs and swizzles, coordinate
 transforms and the processors (primitive, fragment, transfer) whose keys
 are serialised. The draw state and the capability object are read-only
 collaborators, so every entity here is a value.
 */
module KeyTypes {

  datatype Option<+T> = None | Some(value: T)

  /** The capability queries of GrGLCaps / GrDrawTargetCaps that the key depends on. */
  datatype GLCaps = GLCaps(
    textureSwizzleSupport: bool,
    textureRedSupport: bool,
    pathRenderingSupport: bool,
    dstReadInShaderSupport: bool)

  /** Colour-component flags: one bit per channel, as GrColorComponentFlags declares them. */
  const RFlag: bv32 := 1
  const GFlag: bv32 := 2
  const BFlag: bv32 := 4
  const AFlag: bv32 := 8
  const RGBFlags: bv32 := RFlag | GFlag | BFlag

  /** Where a coordinate transform takes its input coordinates from (GrCoordSet). */
  datatype CoordSet = Local | Device

  /** Shader precision qualifiers (GrSLPrecision), in declaration order. */
  datatype Precision = Low | Medium | High

  /** The enum value of a precision; High is the largest. */
  function PrecisionValue(p: Precision): (v: bv32)
    ensures v <= 2
    ensures v == 2 <==> p == High
    ensures v == 0 <==> p == Low
  {
    match p
    case Low => 0
    case Medium => 1
    case High => 2
  }

  /**
   A coordinate transform as the key sees it: whether the stage reports it as
   a perspective transform, its source coordinates and its precision.
   */
  datatype CoordTransform = CoordTransform(perspective: bool, source: CoordSet, precision: Precision)

  /** One texture binding: the config's component mask and the shader swizzle's component mask. */
  datatype TextureAccess = TextureAccess(configComponentMask: bv32, swizzleMask: bv32)

  /**
   A processor: its class identifier, the 32-bit words its own
   getGLProcessorKey appends (opaque here), its texture bindings and its
   coordinate transforms (only fragment stages have transforms that are keyed).
   */
  datatype Processor = Processor(
    classID: bv32,
    fragment: seq<bv32>,
    textures: seq<TextureAccess>,
    transforms: seq<CoordTransform>)

  /** `1 << t` on a C++ int is defined for t <= 30, so at most 31 textures. */
  const MaxTextures: nat := 31

  /** Six 5-bit transform fields fill bits 0..29 of a uint32_t. */
  const MaxTransforms: nat := 6
}
