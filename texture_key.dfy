/**
 The per-processor texture key: bit t is set when texture t has to be
 remapped in the shader because the backend cannot swizzle it.
 */
module TextureKeys {
  import opened KeyTypes
  import opened Bits
  import opened SwizzleRemap

  /** Whether reading the texture needs a shader remap under these capabilities. */
  predicate NeedsRemap(caps: GLCaps, tex: TextureAccess)
  {
    SwizzleRequiresAlphaRemapping(caps, tex.configComponentMask, tex.swizzleMask)
  }

  /** What texture t adds to the key: its bit when it needs a remap, nothing otherwise. */
  function RemapBit(caps: GLCaps, tex: TextureAccess, t: nat): bv32
    requires t < 32
  {
    if NeedsRemap(caps, tex) then Bit(t) else 0
  }

  /** The key of a list of textures: the key of all but the last, with the last one's bit added. */
  function TextureKey(caps: GLCaps, texs: seq<TextureAccess>): (key: bv32)
    requires |texs| <= MaxTextures
    ensures (forall i :: 0 <= i < |texs| ==> !NeedsRemap(caps, texs[i])) ==> key == 0
  {
    if texs == [] then 0
    else
      var init := texs[..|texs| - 1];
      assert forall i :: 0 <= i < |init| ==> init[i] == texs[i];
      TextureKey(caps, init) | RemapBit(caps, texs[|texs| - 1], |texs| - 1)
  }
}

/**
 What the texture key promises: exactly the bits of the textures that need a
 remap are set, and none at or above the number of textures; gen_texture_key's
 loop computes it.
 */
module TextureKeyLayout {
  import opened KeyTypes
  import opened Bits
  import opened SwizzleRemap
  import opened TextureKeys

  /** n textures set no bit at or above bit n. */
  lemma {:induction false} TextureKeyBound(caps: GLCaps, texs: seq<TextureAccess>, n: nat)
    requires |texs| == n <= MaxTextures
    ensures Below(TextureKey(caps, texs), n)
  {
    if n > 0 {
      TextureKeyBound(caps, texs[..n - 1], n - 1);
      RemapBitValues(caps, texs[n - 1], n - 1);
      BelowAfter(TextureKey(caps, texs[..n - 1]), RemapBit(caps, texs[n - 1], n - 1), n - 1, n);
    }
  }

  /** A texture contributes its own bit or nothing. */
  lemma RemapBitValues(caps: GLCaps, tex: TextureAccess, t: nat)
    requires t < 32
    ensures BitOrNone(RemapBit(caps, tex, t), t)
  {
  }

  /** A texture contributes its bit exactly when it needs a remap. */
  lemma RemapBitSet(caps: GLCaps, tex: TextureAccess, t: nat)
    requires t < 32
    ensures RemapBit(caps, tex, t) != 0 <==> NeedsRemap(caps, tex)
  {
    BitNonZero(t);
  }

  /** Bit t of the key is set exactly when texture t needs a remap. */
  lemma {:induction false} TextureKeyBit(caps: GLCaps, texs: seq<TextureAccess>, n: nat, t: nat)
    requires |texs| == n <= MaxTextures && t < n
    ensures HasBit(TextureKey(caps, texs), t) <==> NeedsRemap(caps, texs[t])
  {
    if t == n - 1 {
      TextureKeyBitLast(caps, texs, n);
    } else {
      TextureKeyBit(caps, texs[..n - 1], n - 1, t);
      TextureKeyBitKept(caps, texs, n, t);
      assert texs[..n - 1][t] == texs[t];
    }
  }

  /** The last texture's bit is set exactly when it needs a remap. */
  lemma TextureKeyBitLast(caps: GLCaps, texs: seq<TextureAccess>, n: nat)
    requires 0 < |texs| == n <= MaxTextures
    ensures HasBit(TextureKey(caps, texs), n - 1) <==> NeedsRemap(caps, texs[n - 1])
  {
    RemapBitValues(caps, texs[n - 1], n - 1);
    RemapBitSet(caps, texs[n - 1], n - 1);
    TextureKeyBound(caps, texs[..n - 1], n - 1);
    HasBitAdded(TextureKey(caps, texs[..n - 1]), RemapBit(caps, texs[n - 1], n - 1), n - 1);
  }

  /** The last texture leaves the bits of the textures before it as they were. */
  lemma TextureKeyBitKept(caps: GLCaps, texs: seq<TextureAccess>, n: nat, t: nat)
    requires |texs| == n <= MaxTextures && t < n - 1
    ensures HasBit(TextureKey(caps, texs), t) <==> HasBit(TextureKey(caps, texs[..n - 1]), t)
  {
    RemapBitValues(caps, texs[n - 1], n - 1);
    HasBitKept(TextureKey(caps, texs[..n - 1]), RemapBit(caps, texs[n - 1], n - 1), t, n - 1);
  }

  /** A processor without textures has texture key 0. */
  lemma TextureKeyEmpty(caps: GLCaps)
    ensures TextureKey(caps, []) == 0
  {
  }

  /** No bit at or above the number of textures is set. */
  lemma TextureKeyHighClear(caps: GLCaps, texs: seq<TextureAccess>, s: nat)
    requires |texs| <= MaxTextures && |texs| <= s < 32
    ensures !HasBit(TextureKey(caps, texs), s)
  {
    TextureKeyBound(caps, texs, |texs|);
    BelowClear(TextureKey(caps, texs), |texs|, s);
  }

  /** Up to 16 textures fit the 16 bits the meta key allots to the texture key. */
  lemma TextureKeyFitsU16(caps: GLCaps, texs: seq<TextureAccess>)
    requires |texs| <= 16
    ensures TextureKey(caps, texs) <= 0xFFFF
  {
    TextureKeyBound(caps, texs, |texs|);
    BelowFitsU16(TextureKey(caps, texs), |texs|);
  }

  /** A texture that needs a remap adds its bit to the key of the textures before it. */
  lemma TextureKeyAddsBit(caps: GLCaps, texs: seq<TextureAccess>, t: nat)
    requires t < |texs| <= MaxTextures && NeedsRemap(caps, texs[t])
    ensures TextureKey(caps, texs[..t + 1]) == TextureKey(caps, texs[..t]) | Bit(t)
  {
    assert texs[..t + 1][..t] == texs[..t];
  }

  /** A texture that needs no remap leaves the key of the textures before it unchanged. */
  lemma TextureKeyAddsNothing(caps: GLCaps, texs: seq<TextureAccess>, t: nat)
    requires t < |texs| <= MaxTextures && !NeedsRemap(caps, texs[t])
    ensures TextureKey(caps, texs[..t + 1]) == TextureKey(caps, texs[..t])
  {
    assert texs[..t + 1][..t] == texs[..t];
  }

  /**
   gen_texture_key: sets bit t for every texture t whose swizzle needs a
   shader remap.
   */
  method GenTextureKey(proc: Processor, caps: GLCaps) returns (key: bv32)
    requires |proc.textures| <= MaxTextures
    ensures key == TextureKey(caps, proc.textures)
  {
    key := 0;
    var numTextures := |proc.textures|;
    for t := 0 to numTextures
      invariant key == TextureKey(caps, proc.textures[..t])
    {
      var access := proc.textures[t];
      var configComponentMask := access.configComponentMask;
      if SwizzleRequiresAlphaRemapping(caps, configComponentMask, access.swizzleMask) {
        TextureKeyAddsBit(caps, proc.textures, t);
        BitShift(t);
        key := key | (1 << t);
      } else {
        TextureKeyAddsNothing(caps, proc.textures, t);
      }
    }
    assert proc.textures[..numTextures] == proc.textures;
  }
}
