/**
 The meta key a processor's own key fragment is followed by: two words holding
 its texture key, its transform key, its class ID and the builder's size when
 the trailer is written, each in 16 bits.
 */
module MetaKeys {
  import opened KeyTypes

  /** SK_MaxU16, the largest value a 16-bit half holds. */
  const MaxU16: bv32 := 0xFFFF

  /** The bits that must be clear in the texture key, the transform key and the class ID. */
  const MetaKeyInvalidMask: bv32 := !MaxU16

  /** The four 16-bit parts of a meta key, as they sit in the trailer words. */
  datatype MetaKey = MetaKey(textureKey: bv32, transformKey: bv32, classID: bv32, processorKeySize: bv32)

  /** Every part has its upper 16 bits clear. */
  predicate Fits(m: MetaKey)
  {
    (m.textureKey | m.transformKey | m.classID) & MetaKeyInvalidMask == 0 && m.processorKeySize <= MaxU16
  }

  /** The mask test accepts exactly the meta keys whose parts each fit in 16 bits. */
  lemma FitsExactly(m: MetaKey)
    ensures Fits(m) <==>
      m.textureKey <= MaxU16 && m.transformKey <= MaxU16 && m.classID <= MaxU16 && m.processorKeySize <= MaxU16
  {
  }

  /** The first trailer word: the texture key over the transform key. */
  function Word0(m: MetaKey): bv32
  {
    (m.textureKey << 16) | m.transformKey
  }

  /** The second trailer word: the class ID over the size. */
  function Word1(m: MetaKey): bv32
  {
    (m.classID << 16) | m.processorKeySize
  }

  /** The two trailer words of a meta key. */
  function Encode(m: MetaKey): (ws: seq<bv32>)
    requires Fits(m)
    ensures |ws| == 2
  {
    [Word0(m), Word1(m)]
  }

  /** The four parts read back from two trailer words by shifting and masking. */
  function Decode(w0: bv32, w1: bv32): MetaKey
  {
    MetaKey(w0 >> 16, w0 & MaxU16, w1 >> 16, w1 & MaxU16)
  }

  /** The halves of the first word are the texture key and the transform key. */
  lemma Word0Halves(m: MetaKey)
    requires Fits(m)
    ensures Word0(m) >> 16 == m.textureKey && Word0(m) & MaxU16 == m.transformKey
  {
    FitsExactly(m);
  }

  /** The halves of the second word are the class ID and the size. */
  lemma Word1Halves(m: MetaKey)
    requires Fits(m)
    ensures Word1(m) >> 16 == m.classID && Word1(m) & MaxU16 == m.processorKeySize
  {
    FitsExactly(m);
  }

  /** Shifting and masking the two words recovers all four parts. */
  lemma DecodeEncode(m: MetaKey)
    requires Fits(m)
    ensures Decode(Word0(m), Word1(m)) == m
  {
    Word0Halves(m);
    Word1Halves(m);
  }

  /** Every pair of words is the trailer of the meta key it decodes to. */
  lemma EncodeDecode(w0: bv32, w1: bv32)
    ensures Fits(Decode(w0, w1)) && Encode(Decode(w0, w1)) == [w0, w1]
  {
    WordRebuilt(w0);
    WordRebuilt(w1);
  }

  /** A word is its upper half shifted back over its lower half. */
  lemma WordRebuilt(w: bv32)
    ensures ((w >> 16) << 16) | (w & MaxU16) == w
    ensures w >> 16 <= MaxU16 && w & MaxU16 <= MaxU16
  {
  }

  /** Distinct meta keys that fit have distinct trailers. */
  lemma EncodeInjective(m: MetaKey, n: MetaKey)
    requires Fits(m) && Fits(n) && Encode(m) == Encode(n)
    ensures m == n
  {
    DecodeEncode(m);
    DecodeEncode(n);
  }

  /**
   get_meta_key's decision and output: None when the texture key, the
   transform key or the class ID has a bit above bit 15, or when the size the
   builder reports exceeds SK_MaxU16; otherwise the two trailer words, with the
   size narrowed to 16 bits.
   */
  function Trailer(textureKey: bv32, transformKey: bv32, classID: bv32, processorKeySize: nat): (r: Option<seq<bv32>>)
    ensures r.Some? ==> |r.value| == 2 && processorKeySize <= 0xFFFF
  {
    if (textureKey | transformKey | classID) & MetaKeyInvalidMask != 0 then None
    else if processorKeySize > 0xFFFF then None
    else Some(Encode(MetaKey(textureKey, transformKey, classID, (processorKeySize as bv16) as bv32)))
  }

  /** The trailer is written exactly when all four values fit in 16 bits, and it is always two words. */
  lemma TrailerWritten(textureKey: bv32, transformKey: bv32, classID: bv32, processorKeySize: nat)
    ensures Trailer(textureKey, transformKey, classID, processorKeySize).Some? <==>
      textureKey <= MaxU16 && transformKey <= MaxU16 && classID <= MaxU16 && processorKeySize <= 0xFFFF
    ensures Trailer(textureKey, transformKey, classID, processorKeySize).Some? ==>
      |Trailer(textureKey, transformKey, classID, processorKeySize).value| == 2
  {
    FitsExactly(MetaKey(textureKey, transformKey, classID, 0));
  }

  /** A written trailer decodes to the four values it was built from. */
  lemma TrailerRoundTrip(textureKey: bv32, transformKey: bv32, classID: bv32, processorKeySize: nat)
    requires Trailer(textureKey, transformKey, classID, processorKeySize).Some?
    ensures var ws := Trailer(textureKey, transformKey, classID, processorKeySize).value;
      Decode(ws[0], ws[1]) ==
      MetaKey(textureKey, transformKey, classID, (processorKeySize as bv16) as bv32)
  {
    var m := MetaKey(textureKey, transformKey, classID, (processorKeySize as bv16) as bv32);
    NarrowSize(processorKeySize);
    DecodeEncode(m);
  }

  /** A written trailer is the encoding of the meta key it was built from. */
  lemma TrailerEncodes(textureKey: bv32, transformKey: bv32, classID: bv32, processorKeySize: nat)
    requires Trailer(textureKey, transformKey, classID, processorKeySize).Some?
    ensures processorKeySize <= 0xFFFF
    ensures var m := MetaKey(textureKey, transformKey, classID, (processorKeySize as bv16) as bv32);
      Fits(m) && Trailer(textureKey, transformKey, classID, processorKeySize).value == Encode(m)
  {
    NarrowSize(processorKeySize);
  }

  /** Two words that are a meta key's trailer, found anywhere in a sequence, decode to that meta key. */
  lemma DecodeAt(ws: seq<bv32>, at: nat, m: MetaKey)
    requires Fits(m) && at + 2 <= |ws| && ws[at..at + 2] == Encode(m)
    ensures Decode(ws[at], ws[at + 1]) == m
  {
    assert ws[at] == ws[at..at + 2][0];
    assert ws[at + 1] == ws[at..at + 2][1];
    DecodeEncode(m);
  }

  /** A written trailer, found anywhere in a sequence, decodes to the values it was built from. */
  lemma TrailerDecodesAt(ws: seq<bv32>, at: nat, textureKey: bv32, transformKey: bv32, classID: bv32, processorKeySize: nat)
    requires Trailer(textureKey, transformKey, classID, processorKeySize).Some?
    requires at + 2 <= |ws| && ws[at..at + 2] == Trailer(textureKey, transformKey, classID, processorKeySize).value
    ensures processorKeySize <= 0xFFFF
    ensures Decode(ws[at], ws[at + 1]) == MetaKey(textureKey, transformKey, classID, (processorKeySize as bv16) as bv32)
  {
    TrailerEncodes(textureKey, transformKey, classID, processorKeySize);
    DecodeAt(ws, at, MetaKey(textureKey, transformKey, classID, (processorKeySize as bv16) as bv32));
  }

  /**
   SkToU16 is a checked narrowing, modelled by Dafny's `as bv16`, which is
   only defined for values below 2^16; the narrowed size then fits the
   trailer's 16-bit half.
   */
  lemma NarrowSize(size: nat)
    requires size <= 0xFFFF
    ensures (size as bv16) as bv32 <= MaxU16
  {
  }

  /** SkToU16 keeps the sizes at the ends of the allowed range and the one a single-word processor records. */
  lemma NarrowSizeExamples()
    ensures (0 as bv16) as bv32 == 0
    ensures (12 as bv16) as bv32 == 12
    ensures (0xFFFF as bv16) as bv32 == 0xFFFF
  {
  }
}

/** get_meta_key: the trailer is appended through the shared key builder, or nothing is. */
module MetaKeyEmitter {
  import opened KeyTypes
  import opened KeyBytes
  import opened KeyBuilder
  import opened TextureKeys
  import opened TextureKeyLayout
  import opened MetaKeys

  /**
   Appends the processor's meta key and reports true, or reports false and
   leaves the key and the builder as they were. The size recorded is the
   builder's size before the trailer, bytes appended through it so far.
   */
  method GetMetaKey(proc: Processor, caps: GLCaps, transformKey: bv32, b: ProcessorKeyBuilder) returns (ok: bool)
    requires |proc.textures| <= MaxTextures
    modifies b, b.desc
    ensures var trailer := Trailer(TextureKey(caps, proc.textures), transformKey, proc.classID, old(b.Size()));
      && ok == trailer.Some?
      && (ok ==> b.desc.key == old(b.desc.key) + WordsBytes(trailer.value) && b.count == old(b.count) + 2)
      && (!ok ==> b.desc.key == old(b.desc.key) && b.count == old(b.count))
    ensures b.desc.header == old(b.desc.header)
  {
    var processorKeySize := b.Size();
    var textureKey := GenTextureKey(proc, caps);
    var classID := proc.classID;
    if (textureKey | transformKey | classID) & MetaKeyInvalidMask != 0 {
      return false;
    }
    if processorKeySize > 0xFFFF {
      return false;
    }
    var m := MetaKey(textureKey, transformKey, classID, (processorKeySize as bv16) as bv32);  // SkToU16
    NarrowSize(processorKeySize);
    b.Add32n([(textureKey << 16) | transformKey, (classID << 16) | m.processorKeySize]);
    return true;
  }
}
