# GL program key builder

This project models how Skia's GL backend builds the key under which it caches compiled shader
programs (`GrGLProgramDescBuilder::Build` in `src/gpu/gl/GrGLProgramDesc.cpp`), and proves what that key
promises.

A build runs in five steps:

1. It resets the descriptor's byte key and reserves `kProcessorKeysOffset` bytes for the header.
2. It creates one `GrProcessorKeyBuilder` over the key.
3. It keys each processor in turn, in this order: the primitive processor, every fragment stage, then
   the transfer processor.
   - The processor appends its own key words through the builder.
   - `get_meta_key` then appends a two-word trailer. The trailer packs four values, 16 bits each:
     - the processor's texture-remap mask (`gen_texture_key`, which applies
       `swizzle_requires_alpha_remapping` to each texture);
     - its transform key (`gen_transform_key`: one 5-bit field per coordinate transform);
     - its class ID;
     - the builder's size at that point.
4. If any of these values does not fit in 16 bits, the key is emptied and the build fails.
5. Otherwise the header is zeroed and filled with:
   - the NVPR flag;
   - the dst-read and fragment-position sub-keys;
   - the colour and coverage effect counts.

The model is layered like the source:

- `SwizzleRemap`: the remap rule.
- `TransformKeys` and `TransformKeyLayout`:
  - the transform key as a pure function over 5-bit fields (`BitFields`);
  - its layout lemmas;
  - the loop method `GenTransformKey`, proved equal to the function.
- `TextureKeys` and `TextureKeyLayout`:
  - the texture key as a pure function;
  - bit-by-bit lemmas (`Bits`);
  - the loop method `GenTextureKey`.
- `MetaKeys`: the trailer's encoding and decoding, and the fit test.
- `MetaKeyEmitter.GetMetaKey`: the imperative emitter. It works on the shared builder.
- `KeyBuilder`: the two mutable objects, as classes.
  - The descriptor (`ProgramDesc`) holds the key bytes and the header record.
  - The builder (`ProcessorKeyBuilder`) appends words to that key and counts them.
- `KeyBytes`: the serialisation of words into key bytes, with its round trip.
- `KeyLayout.Emit`: a pure specification of the words a run of processors appends. It yields `None`
  when a trailer does not fit.
- `ProgramDescBuilder.Build`: the imperative orchestrator, proved against `Emit` and `FilledHeader`.

The size field in each trailer is the number of bytes appended through the shared builder so far, up
to the end of this processor's own key words. The code reads `b->size()` from the single builder that
line 162 creates and every processor shares. So the field is not the length of this processor's
fragment alone. The header bytes reserved before the builder exists are not counted.

## Model

| member | source | states |
|---|---|---|
| SwizzleRemap.SwizzleRequiresAlphaRemapping | src/gpu/gl/GrGLProgramDesc.cpp:21-41 | never a remap with native texture swizzling or a config that is not exactly alpha-only; for an alpha-only config without swizzling, a remap exactly when (red textures and the swizzle reads alpha) or the swizzle reads any of r, g, b; a remap implies the swizzle reads some channel |
| SwizzleRemap.SwizzlePolicyTable | src/gpu/gl/GrGLProgramDesc.cpp:24-39 | the characteristic cases: swizzle support disables remapping, alpha-to-red with red textures, colour reads of an alpha texture, full RGBA configs never remap, alpha swizzle without red textures does not remap |
| TransformKeys.TransformConstants | src/gpu/gl/GrGLProgramDesc.cpp:47-58 | the enum's derivations: the matrix-type mask, the precision shift, the two coordinate flags and the 5-bit field width follow from the field widths |
| TransformKeys.PrecisionFits | src/gpu/gl/GrGLProgramDesc.cpp:60 | every precision value fits the 2-bit precision field |
| TransformKeys.TransformField | src/gpu/gl/GrGLProgramDesc.cpp:75-89 | one transform's field fits in kTransformKeyBits (5) bits |
| TransformKeys.TransformFieldLayout | src/gpu/gl/GrGLProgramDesc.cpp:75-89 | bit 0 set iff perspective; bits 1-2 the precision; bit 3 set iff local source without explicit local coords; bit 4 set iff device source (so explicit local coords set neither flag) |
| TransformKeys.TransformFieldInjective | src/gpu/gl/GrGLProgramDesc.cpp:75-89 | under one explicit-local-coords setting, equal fields come from equal transforms |
| TransformKeys.TransformKey | src/gpu/gl/GrGLProgramDesc.cpp:70-97 | the stage's transform key: the pack of its transforms' 5-bit fields, field t at bit 5t; a stage without transforms has key 0 (the layout is stated by TransformKeyField, TransformKeyBound and TransformKeyInjective) |
| TransformKeyLayout.TransformKeyBound | src/gpu/gl/GrGLProgramDesc.cpp:70-97 | n transforms set no bit at or above bit 5n |
| TransformKeyLayout.TransformKeyEmpty | src/gpu/gl/GrGLProgramDesc.cpp:71-73 | a stage without transforms has transform key 0 |
| TransformKeyLayout.TransformKeyField | src/gpu/gl/GrGLProgramDesc.cpp:70-97 | bits [5t, 5t+5) of the key are exactly transform t's field |
| TransformKeyLayout.TransformKeyInjective | src/gpu/gl/GrGLProgramDesc.cpp:70-97 | for equally many transforms and one explicit-local-coords setting, equal keys come from equal transforms |
| TransformKeyLayout.TransformKeyFitsU16 | src/gpu/gl/GrGLProgramDesc.cpp:129-134 | up to three transforms always pass the meta key's 16-bit budget |
| BitFields.PackDisjoint | src/gpu/gl/GrGLProgramDesc.cpp:91-94 | the field of transform t, shifted to bit 5t, does not overlap the fields of the transforms before it |
| TransformKeyLayout.BuildTransformField | src/gpu/gl/GrGLProgramDesc.cpp:74-89 | the loop body's flag-by-flag construction yields the transform's field |
| TransformKeyLayout.GenTransformKey | src/gpu/gl/GrGLProgramDesc.cpp:70-97 | gen_transform_key's accumulation loop returns the key of the stage's transforms |
| Bits.BitShift | src/gpu/gl/GrGLProgramDesc.cpp:106 | `1 << t` is the single bit t |
| TextureKeyLayout.RemapBitSet | src/gpu/gl/GrGLProgramDesc.cpp:105-107 | a texture contributes a non-zero bit exactly when it needs a remap |
| TextureKeys.TextureKey | src/gpu/gl/GrGLProgramDesc.cpp:99-110 | the processor's texture key: the OR of bit t over the textures t that need a remap; when no texture needs one the key is 0 (the bit-by-bit statement is TextureKeyBit) |
| TextureKeyLayout.TextureKeyBit | src/gpu/gl/GrGLProgramDesc.cpp:99-110 | bit t of the texture key is set iff texture t needs a remap |
| TextureKeyLayout.TextureKeyBound | src/gpu/gl/GrGLProgramDesc.cpp:99-110 | n textures leave the key below bit n |
| TextureKeyLayout.TextureKeyHighClear | src/gpu/gl/GrGLProgramDesc.cpp:99-110 | no bit at or above the number of textures is set |
| TextureKeyLayout.TextureKeyEmpty | src/gpu/gl/GrGLProgramDesc.cpp:100 | a processor without textures has texture key 0 |
| TextureKeyLayout.TextureKeyFitsU16 | src/gpu/gl/GrGLProgramDesc.cpp:129-134 | up to 16 textures always pass the meta key's 16-bit budget |
| TextureKeyLayout.TextureKeyAddsBit | src/gpu/gl/GrGLProgramDesc.cpp:105-107 | a texture that needs a remap adds exactly its bit to the key of the textures before it |
| TextureKeyLayout.TextureKeyAddsNothing | src/gpu/gl/GrGLProgramDesc.cpp:105-107 | a texture that needs no remap leaves the key of the textures before it unchanged |
| TextureKeyLayout.GenTextureKey | src/gpu/gl/GrGLProgramDesc.cpp:99-110 | gen_texture_key's loop returns the texture key of the processor's textures |
| MetaKeys.FitsExactly | src/gpu/gl/GrGLProgramDesc.cpp:131-132 | the invalid-mask test passes exactly when the texture key, the transform key and the class ID each fit in 16 bits |
| MetaKeys.Encode | src/gpu/gl/GrGLProgramDesc.cpp:139-141 | a trailer is exactly two words |
| MetaKeys.Word0Halves | src/gpu/gl/GrGLProgramDesc.cpp:140 | the first word's upper half is the texture key and its lower half the transform key |
| MetaKeys.Word1Halves | src/gpu/gl/GrGLProgramDesc.cpp:141 | the second word's upper half is the class ID and its lower half the size |
| MetaKeys.DecodeEncode | src/gpu/gl/GrGLProgramDesc.cpp:139-141 | shifting and masking the two words recovers all four values |
| MetaKeys.EncodeDecode | src/gpu/gl/GrGLProgramDesc.cpp:139-141 | every pair of words is the trailer of the meta key it decodes to |
| MetaKeys.EncodeInjective | src/gpu/gl/GrGLProgramDesc.cpp:139-141 | distinct meta keys that fit have distinct trailers |
| MetaKeys.NarrowSize | src/gpu/gl/GrGLProgramDesc.cpp:141 | a size that passed the 0xFFFF check can be narrowed (Dafny's `as bv16`, like SkToU16, is defined only for values that fit) and then fits the trailer's 16-bit half |
| MetaKeys.NarrowSizeExamples | src/gpu/gl/GrGLProgramDesc.cpp:141 | narrowing leaves the sizes 0, 12 and 0xFFFF unchanged |
| MetaKeys.Trailer | src/gpu/gl/GrGLProgramDesc.cpp:129-141 | get_meta_key's decision and output: a trailer is written only for a size of at most SK_MaxU16, and it is always two words (TrailerWritten gives the full condition) |
| KeyLayout.StageTrailer | src/gpu/gl/GrGLProgramDesc.cpp:125-141 | a processor's trailer at a builder count: when written it is two words, and the size it records, 4 × (the count plus the processor's own words), is at most SK_MaxU16 |
| MetaKeys.TrailerWritten | src/gpu/gl/GrGLProgramDesc.cpp:125-142 | a trailer is written iff the texture key, the transform key, the class ID and the size all fit in 16 bits, and it is two words |
| MetaKeys.TrailerRoundTrip | src/gpu/gl/GrGLProgramDesc.cpp:125-142 | a written trailer decodes to the four values it was built from |
| MetaKeys.TrailerEncodes | src/gpu/gl/GrGLProgramDesc.cpp:135-141 | a written trailer's size passed the 16-bit check, and the trailer is the encoding of its meta key |
| MetaKeys.DecodeAt | src/gpu/gl/GrGLProgramDesc.cpp:139-141 | a trailer found anywhere in a word sequence decodes to its meta key |
| MetaKeys.TrailerDecodesAt | src/gpu/gl/GrGLProgramDesc.cpp:125-142 | a written trailer found anywhere in a word sequence decodes to the texture key, transform key, class ID and size it was built from |
| MetaKeyEmitter.GetMetaKey | src/gpu/gl/GrGLProgramDesc.cpp:121-143 | returns true exactly when the trailer fits, and then appends exactly its two words and counts them; on false the key and the builder's count are unchanged; the size recorded is the builder's size before the trailer; the header is never touched |
| KeyBytes.WordsRoundTrip | src/gpu/gl/GrGLProgramDesc.cpp:139-141 | the words written into the key are read back from its bytes |
| KeyBytes.WordsBytesInjective | src/gpu/gl/GrGLProgramDesc.cpp:139-141 | distinct word sequences leave distinct key bytes |
| KeyBuilder.ProcessorKeyBuilder.constructor | src/gpu/gl/GrGLProgramDesc.cpp:162 | the builder is bound to the descriptor's key and has appended nothing |
| KeyBuilder.ProcessorKeyBuilder.Size | src/gpu/gl/GrGLProgramDesc.cpp:125 | `size()` is 4 × the words appended through the builder: a multiple of four whose quarter is the builder's count |
| KeyBuilder.ProcessorKeyBuilder.Add32n | src/gpu/gl/GrGLProgramDesc.cpp:139-141 | the words are appended to the end of the key in order, the count grows by their number, and the header is untouched |
| KeyLayout.Emit | src/gpu/gl/GrGLProgramDesc.cpp:164-187 | a successful run is as long as all its processors' chunks together |
| KeyLayout.StageTrailerAt | src/gpu/gl/GrGLProgramDesc.cpp:125 | a processor's trailer is get_meta_key's trailer for the builder's size after that processor's own words |
| KeyLayout.EmitStep | src/gpu/gl/GrGLProgramDesc.cpp:171-180 | one more processor extends the run before it by its fragment and trailer, or the run fails |
| KeyLayout.EmitStepSucceeds | src/gpu/gl/GrGLProgramDesc.cpp:171-180 | the first k processors succeed iff the first k - 1 do and processor k - 1's trailer fits |
| KeyLayout.EmitSucceedsUpTo | src/gpu/gl/GrGLProgramDesc.cpp:164-187 | the first k processors succeed iff each of their trailers fits |
| KeyLayout.EmitSucceeds | src/gpu/gl/GrGLProgramDesc.cpp:164-187 | a run succeeds iff every processor's trailer fits at the place its chunk starts |
| KeyLayout.TrailerFitsExactly | src/gpu/gl/GrGLProgramDesc.cpp:129-137 | a processor's trailer fits iff its texture key, transform key, class ID and the builder's byte count after its words are each at most 0xFFFF |
| KeyLayout.EmitSucceedsWhenSmall | src/gpu/gl/GrGLProgramDesc.cpp:164-187 | processors with at most 16 textures and 16-bit transform keys and class IDs, whose words come to at most 0xFFFF bytes, always build |
| KeyLayout.EmitChunk | src/gpu/gl/GrGLProgramDesc.cpp:164-187 | in a successful run, processor i's fragment and then its trailer lie at the word where its chunk starts |
| KeyLayout.EmitPrefix | src/gpu/gl/GrGLProgramDesc.cpp:164-187 | every prefix of a successful run succeeds and is the run's leading words |
| KeyLayout.EmitFailureSticky | src/gpu/gl/GrGLProgramDesc.cpp:166-186 | once a prefix of the run fails, the whole run fails |
| KeyLayout.StartBound | src/gpu/gl/GrGLProgramDesc.cpp:164-187 | chunk offsets grow along the run |
| ProgramDescBuilder.FragmentStages | src/gpu/gl/GrGLProgramDesc.cpp:171-180 | each fragment stage is keyed with the transform key of its transforms under the draw's local-coordinate setting |
| ProgramDescBuilder.Stages | src/gpu/gl/GrGLProgramDesc.cpp:164-187 | the processors in keying order: primitive first with transform key 0, fragment stages in order with their transform keys, transfer last with transform key 0 |
| ProgramDescBuilder.Reserved | src/gpu/gl/GrGLProgramDesc.cpp:159-160 | the reservation is kProcessorKeysOffset bytes |
| ProgramDescBuilder.KeyReadBack | src/gpu/gl/GrGLProgramDesc.cpp:159-162 | a built key is the reservation followed by whole words that read back as exactly the words appended through the builder |
| ProgramDescBuilder.FilledHeader | src/gpu/gl/GrGLProgramDesc.cpp:195-228 | NVPR iff path-rendering support and a path-rendering draw; the dst-read and fragment-position keys when those features are used, 0 otherwise; the two effect counts of the draw state |
| ProgramDescBuilder.HeaderFields | src/gpu/gl/GrGLProgramDesc.cpp:195-228 | NVPR iff path-rendering support and a path-rendering draw; the dst-read key is non-zero iff the destination is read; the fragment-position key is 0 when fragment position is not read; the effect counts are the draw state's |
| ProgramDescBuilder.HeaderCanonical | src/gpu/gl/GrGLProgramDesc.cpp:150-153 | sub-keys of unused features, and the processors themselves, do not change the header |
| ProgramDescBuilder.AppendStage | src/gpu/gl/GrGLProgramDesc.cpp:164-166 | one processor's turn: succeeds iff its trailer fits at the builder's count, and then appends its words and trailer, counting both; on failure only its own words were appended and counted; the header is untouched |
| ProgramDescBuilder.KeyHoldsInitially | src/gpu/gl/GrGLProgramDesc.cpp:159-162 | right after the reservation the key holds the empty run |
| ProgramDescBuilder.KeyStep | src/gpu/gl/GrGLProgramDesc.cpp:164-186 | a processor's turn succeeds exactly when the run through it does, and then the key holds that run; when it fails, the whole run fails |
| ProgramDescBuilder.KeyTurn | src/gpu/gl/GrGLProgramDesc.cpp:164-186 | one processor's turn against the whole run: afterwards the key holds the run through that processor, or the whole run fails and the key and count hold only the processor's own words beyond what they held before; the header is untouched |
| ProgramDescBuilder.KeyComplete | src/gpu/gl/GrGLProgramDesc.cpp:182-188 | after the last processor the key is the reservation followed by the whole run, and the builder counts exactly its words |
| ProgramDescBuilder.AppendProcessorKeys | src/gpu/gl/GrGLProgramDesc.cpp:164-187 | the primitive processor, the fragment stages and the transfer processor take their turns; the result is true iff the whole run succeeds, and then the key is the reservation followed by the run and the builder counts exactly the run's words; the header is untouched (see Left out) |
| ProgramDescBuilder.AppendFragmentStages | src/gpu/gl/GrGLProgramDesc.cpp:171-180 | the fragment-stage loop either extends the key through the last fragment stage or meets a failure that fails the whole run; the header is untouched |
| ProgramDescBuilder.FillHeader | src/gpu/gl/GrGLProgramDesc.cpp:192-228 | the zeroed header is filled to exactly the canonical header, and nothing is appended to the key after the header view is taken |
| ProgramDescBuilder.Build | src/gpu/gl/GrGLProgramDesc.cpp:145-231 | returns true iff every trailer fits; on success the key is the reservation followed by each processor's words and trailer in keying order, and the header is filled; on failure the key is empty (the header record is left as it was; see Left out) |
| ProgramDescBuilder.ScenarioKey | src/gpu/gl/GrGLProgramDesc.cpp:145-231 | a concrete draw builds a seven-word key whose third word is the fragment stage's own word, and its header holds only the effect counts |
| ProgramDescBuilder.ScenarioMetaKey | src/gpu/gl/GrGLProgramDesc.cpp:121-143 | in that draw the fragment stage's trailer decodes to texture bit 0, transform key 0, class ID 7 and size 12, the running byte count of the shared builder |
| ProgramDescBuilder.ScenarioTextureKeys | src/gpu/gl/GrGLProgramDesc.cpp:99-110 | in that draw only the fragment stage's alpha-only texture read through 'r' sets a texture bit |
| ProgramDescBuilder.ScenarioTrailers | src/gpu/gl/GrGLProgramDesc.cpp:139-141 | the fragment stage's trailer is the words 0x10000 and 0x7000C |

## Left out

- `desc->finalize()` (the checksum over the key) is left out: its code is not part of this model.
- The header's byte layout is modelled as a record field of the descriptor, beside the key bytes.
  `kHeaderOffset`, `kHeaderSize`, padding, `atOffset` and the `memset` are not modelled, so the header
  does not alias the reserved bytes. In the source the header lives inside the key, so the `reset()` on
  a failed build discards it. In the model the record survives a failed build unchanged.
- `kProcessorKeysOffset` is a parameter of `Build`. Its value is declared outside this file. The
  requirement that it is a multiple of four is the file's static assert.
- The reserved bytes that `push_back_n` leaves uninitialised are modelled as zero bytes.
- Each processor's own `getGLProcessorKey` is opaque. Its output is the processor's `fragment`, a given
  sequence of 32-bit words.
- Inputs taken as values:
  - the results of `GrGLFragmentShaderBuilder::KeyForDstRead` and `KeyForFragmentPosition`
    (`ShaderKeys`);
  - `GrPixelConfigComponentMask` (a texture's `configComponentMask`);
  - `GrGpu::IsPathRenderingDrawType` (`isPathRendering`);
  - `isPerspectiveCoordTransform` (a transform's `perspective`);
  - the capability queries (`GLCaps`).
- `GrProcessorKeyBuilder` and `GrProgramDesc` are not part of this model. The builder is modelled by
  the behaviour this file relies on: `size()` is four times the words appended through it, and
  `add32n` together with the writes into the words it returns is one append.
- Words are laid into the key bytes least significant byte first, as on the little-endian hosts the
  renderer runs on. Big-endian hosts are not modelled.
- The `SkASSERT`s become preconditions of `Build`: no geometry processor under NVPR; a dst copy or
  in-shader dst reads when the destination is read; a non-zero dst-read key. The non-overlap assert
  in `gen_transform_key` is proved, not assumed.
- ProgramDescBuilder.AppendFragmentStages: the key and the builder's count after a failing stage are
  not stated. `Build` empties the key at once (line 177), so nothing reads them.
- ProgramDescBuilder.AppendProcessorKeys: the key and the builder's count after a failing turn are
  not stated (each turn's own failure state is, in `KeyTurn`). `Build` empties the key at once
  (lines 167, 177 and 185) and then drops the builder, so nothing reads them.
- MetaKeys.NarrowSize: states that the narrowed size fits its 16-bit half, not that it equals the size
  for every size. Dafny's `as bv16` is a checked conversion that is defined only for values below 2^16,
  so it cannot truncate. The identity itself is shown for the sizes 0, 12 and 0xFFFF
  (NarrowSizeExamples).
- KeyHeader: its fields are unbounded naturals. The widths of `GLKeyHeader`'s fields are declared
  outside this file.
- TextureKeyLayout.GenTextureKey: requires at most 31 textures (so does `TextureKeys.TextureKey`).
  In the source `1 << t` on a 32-bit `int` runs only for a texture that needs a remap, so a processor
  with more textures is well defined as long as none at index 31 or above needs one; the model
  excludes those inputs.
- TransformKeyLayout.GenTransformKey: requires at most 6 transforms (so does
  `TransformKeys.TransformKey`). Six 5-bit fields fill bits 0-29. In the source a seventh transform's
  field is shifted by 30 bits, which is defined on a `uint32_t` but drops the field's top three bits;
  an eighth is shifted by 35 bits, which is undefined. The model excludes both.
- The rendering, batch tracker and render-target arguments (`getBatchTracker`, `getRenderTarget`,
  `gpu`) are read only by code outside this model.
