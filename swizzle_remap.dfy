/**
 The swizzle remap rule: whether a texture read must be rewritten in the
 generated shader because the backend cannot swizzle texture channels itself.
 */
module SwizzleRemap {
  import opened KeyTypes

  /**
   Without native texture swizzling, an alpha-only texture needs a shader
   remap when the backend stores single-channel textures in red and the
   swizzle reads alpha ('a' must become 'r'), or when the swizzle reads any of
   r, g, b (alpha is smeared across all four channels).
   */
  function SwizzleRequiresAlphaRemapping(caps: GLCaps, configComponentMask: bv32, swizzleComponentMask: bv32): (r: bool)
    ensures caps.textureSwizzleSupport ==> !r
    ensures configComponentMask != AFlag ==> !r
    ensures !caps.textureSwizzleSupport && configComponentMask == AFlag ==>
      (r <==> (caps.textureRedSupport && swizzleComponentMask & AFlag != 0) || swizzleComponentMask & RGBFlags != 0)
    ensures r ==> swizzleComponentMask & (RGBFlags | AFlag) != 0
  {
    if caps.textureSwizzleSupport then
      false
    else if AFlag == configComponentMask then
      if caps.textureRedSupport && AFlag & swizzleComponentMask != 0 then
        true
      else
        RGBFlags & swizzleComponentMask != 0
    else
      false
  }

  /** The policy table for the four characteristic cases. */
  lemma SwizzlePolicyTable(caps: GLCaps, config: bv32, swizzle: bv32)
    ensures SwizzleRequiresAlphaRemapping(caps.(textureSwizzleSupport := true), config, swizzle) == false
    ensures !caps.textureSwizzleSupport && caps.textureRedSupport ==>
      SwizzleRequiresAlphaRemapping(caps, AFlag, AFlag)
    ensures !caps.textureSwizzleSupport ==> SwizzleRequiresAlphaRemapping(caps, AFlag, RFlag)
    ensures SwizzleRequiresAlphaRemapping(caps, RGBFlags | AFlag, swizzle) == false
    ensures !caps.textureRedSupport ==> SwizzleRequiresAlphaRemapping(caps, AFlag, AFlag) == false
  {
  }
}
