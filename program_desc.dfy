/**
 GrGLProgramDescBuilder::Build: resets the descriptor's key, reserves the
 region up to the processor keys, appends the primitive processor's, each
 fragment stage's and the transfer processor's key chunk through one shared
 key builder, and fills the header; a meta key that does not fit empties the
 key and fails the build.
 */
module ProgramDescBuilder {
  import opened KeyTypes
  import opened KeyBytes
  import opened KeyBuilder
  import opened TransformKeys
  import opened TransformKeyLayout
  import opened MetaKeyEmitter
  import opened KeyLayout
  import opened MetaKeys
  import opened TextureKeys
  import opened TextureKeyLayout
  import opened Bits

  /** The parts of the optimised draw state that the key reads. */
  datatype OptDrawState = OptDrawState(
    primitiveProcessor: Processor,
    fragmentStages: seq<Processor>,
    xferProcessor: Processor,
    hasGeometryProcessor: bool,
    hasDstCopy: bool,
    numColorStages: nat,
    numCoverageStages: nat)

  /** GrProgramDesc::DescInfo: what the program needs beyond the processors. */
  datatype DescInfo = DescInfo(requiresLocalCoordAttrib: bool, readsDst: bool, readsFragPosition: bool)

  /**
   What GrGLFragmentShaderBuilder::KeyForDstRead and KeyForFragmentPosition
   return for this draw.
   */
  datatype ShaderKeys = ShaderKeys(dstReadKey: nat, fragPosKey: nat)

  /** Every processor's textures fit the texture key and every fragment stage's transforms fit the transform key. */
  predicate ProcessorsFit(state: OptDrawState)
  {
    && |state.primitiveProcessor.textures| <= MaxTextures
    && |state.xferProcessor.textures| <= MaxTextures
    && forall s :: 0 <= s < |state.fragmentStages| ==>
         |state.fragmentStages[s].textures| <= MaxTextures && |state.fragmentStages[s].transforms| <= MaxTransforms
  }

  /** Each fragment stage with the transform key Build computes for it. */
  function FragmentStages(fragmentStages: seq<Processor>, requiresLocalCoordAttrib: bool): (stages: seq<Stage>)
    requires forall s :: 0 <= s < |fragmentStages| ==> |fragmentStages[s].transforms| <= MaxTransforms
    ensures |stages| == |fragmentStages|
    ensures forall s :: 0 <= s < |fragmentStages| ==>
      stages[s] == Stage(fragmentStages[s], TransformKey(fragmentStages[s].transforms, requiresLocalCoordAttrib))
  {
    if fragmentStages == [] then []
    else
      [Stage(fragmentStages[0], TransformKey(fragmentStages[0].transforms, requiresLocalCoordAttrib))]
      + FragmentStages(fragmentStages[1..], requiresLocalCoordAttrib)
  }

  /**
   The processors in the order Build keys them: the primitive processor with
   transform key 0, the fragment stages in order with their transform keys,
   the transfer processor with transform key 0.
   */
  function Stages(state: OptDrawState, requiresLocalCoordAttrib: bool): (stages: seq<Stage>)
    requires ProcessorsFit(state)
    ensures |stages| == |state.fragmentStages| + 2 && Bounded(stages)
    ensures stages[0] == Stage(state.primitiveProcessor, 0)
    ensures forall s :: 0 <= s < |state.fragmentStages| ==>
      stages[s + 1] == Stage(state.fragmentStages[s], TransformKey(state.fragmentStages[s].transforms, requiresLocalCoordAttrib))
    ensures stages[|stages| - 1] == Stage(state.xferProcessor, 0)
  {
    [Stage(state.primitiveProcessor, 0)]
    + FragmentStages(state.fragmentStages, requiresLocalCoordAttrib)
    + [Stage(state.xferProcessor, 0)]
  }

  /** The bytes push_back_n reserves ahead of the processor keys. */
  function Reserved(n: nat): (bytes: seq<bv8>)
    ensures |bytes| == n && forall i :: 0 <= i < n ==> bytes[i] == 0
  {
    seq(n, _ => 0)
  }

  /** The header Build writes: the NVPR flag and the keys of the features the program uses, canonical zeros otherwise. */
  function FilledHeader(state: OptDrawState, info: DescInfo, isPathRendering: bool, caps: GLCaps, keys: ShaderKeys): (h: KeyHeader)
    ensures h.useNvpr <==> caps.pathRenderingSupport && isPathRendering
    ensures h.dstReadKey == if info.readsDst then keys.dstReadKey else 0
    ensures h.fragPosKey == if info.readsFragPosition then keys.fragPosKey else 0
    ensures h.colorEffectCnt == state.numColorStages && h.coverageEffectCnt == state.numCoverageStages
  {
    KeyHeader(
      caps.pathRenderingSupport && isPathRendering,
      if info.readsDst then keys.dstReadKey else 0,
      if info.readsFragPosition then keys.fragPosKey else 0,
      state.numColorStages,
      state.numCoverageStages)
  }

  /**
   The NVPR flag is set exactly for a path-rendering draw on a backend with
   path rendering; the dst-read key is non-zero exactly when the program reads
   the destination; the fragment-position key is zero when fragment position
   is not read; the effect counts are the draw state's.
   */
  lemma HeaderFields(state: OptDrawState, info: DescInfo, isPathRendering: bool, caps: GLCaps, keys: ShaderKeys)
    requires info.readsDst ==> keys.dstReadKey != 0
    ensures var h := FilledHeader(state, info, isPathRendering, caps, keys);
      && (h.useNvpr <==> caps.pathRenderingSupport && isPathRendering)
      && (h.dstReadKey != 0 <==> info.readsDst)
      && (!info.readsFragPosition ==> h.fragPosKey == 0)
      && h.colorEffectCnt == state.numColorStages
      && h.coverageEffectCnt == state.numCoverageStages
  {
  }

  /**
   The header is a canonical cache key: sub-keys of features the program
   does not use, and every other part of the state, leave it unchanged.
   */
  lemma HeaderCanonical(state: OptDrawState, info: DescInfo, isPathRendering: bool, caps: GLCaps, keys: ShaderKeys, other: ShaderKeys)
    requires info.readsDst ==> keys.dstReadKey == other.dstReadKey
    requires info.readsFragPosition ==> keys.fragPosKey == other.fragPosKey
    ensures FilledHeader(state, info, isPathRendering, caps, keys) == FilledHeader(state, info, isPathRendering, caps, other)
    ensures FilledHeader(state, info, isPathRendering, caps, keys) ==
      FilledHeader(state.(primitiveProcessor := state.xferProcessor, fragmentStages := []), info, isPathRendering, caps, keys)
  {
  }

  /**
   A key is read back by skipping the reserved bytes and reading 32-bit words:
   the words are exactly the ones appended through the builder.
   */
  lemma KeyReadBack(offset: nat, ws: seq<bv32>)
    ensures var key := Reserved(offset) + WordsBytes(ws);
      && |key| == offset + 4 * |ws|
      && key[..offset] == Reserved(offset)
      && |key[offset..]| % 4 == 0
      && BytesWords(key[offset..]) == ws
  {
    SplitAppend(Reserved(offset), WordsBytes(ws));
    WordsBytesAligned(ws);
    WordsRoundTrip(ws);
  }

  /**
   One processor's turn in Build: its getGLProcessorKey words, then
   get_meta_key. On success the key has grown by the processor's chunk.
   */
  method AppendStage(caps: GLCaps, s: Stage, b: ProcessorKeyBuilder) returns (ok: bool)
    requires |s.proc.textures| <= MaxTextures
    modifies b, b.desc
    ensures ok == StageTrailer(caps, s, old(b.count)).Some?
    ensures ok ==> b.desc.key == old(b.desc.key) + WordsBytes(s.proc.fragment + StageTrailer(caps, s, old(b.count)).value)
    ensures ok ==> b.count == old(b.count) + ChunkLength(s)
    ensures !ok ==> b.desc.key == old(b.desc.key) + WordsBytes(s.proc.fragment)
    ensures !ok ==> b.count == old(b.count) + |s.proc.fragment|
    ensures b.desc.header == old(b.desc.header)
  {
    ghost var key0 := b.desc.key;
    b.Add32n(s.proc.fragment);
    StageTrailerAt(caps, s, old(b.count), b.Size());
    ok := GetMetaKey(s.proc, caps, s.transformKey, b);
    if ok {
      ghost var trailer := StageTrailer(caps, s, old(b.count)).value;
      WordsBytesAppend(s.proc.fragment, trailer);
      AppendAssoc(key0, WordsBytes(s.proc.fragment), WordsBytes(trailer));
    }
  }

  /** A concatenation splits back into its two parts. */
  lemma SplitAppend(a: seq<bv8>, b: seq<bv8>)
    ensures (a + b)[..|a|] == a && (a + b)[|a|..] == b
  {
  }

  /** Byte sequences concatenate associatively. */
  lemma AppendAssoc(a: seq<bv8>, b: seq<bv8>, c: seq<bv8>)
    ensures a + b + c == a + (b + c)
  {
  }

  /**
   The key after the first k processors: the reserved bytes followed by their
   successful run, with the builder counting the run's words.
   */
  ghost predicate KeyHolds(caps: GLCaps, stages: seq<Stage>, k: nat, offset: nat, key: seq<bv8>, count: nat)
    requires Bounded(stages) && k <= |stages|
  {
    && Bounded(stages[..k])
    && Emit(caps, stages[..k]).Some?
    && count == |Emit(caps, stages[..k]).value|
    && key == Reserved(offset) + WordsBytes(Emit(caps, stages[..k]).value)
  }

  /** No processor has been keyed yet right after the reservation. */
  lemma KeyHoldsInitially(caps: GLCaps, stages: seq<Stage>, offset: nat)
    requires Bounded(stages)
    ensures KeyHolds(caps, stages, 0, offset, [] + Reserved(offset), 0)
  {
    assert stages[..0] == [];
    assert [] + Reserved(offset) + WordsBytes([]) == Reserved(offset);
  }

  /** After the last processor's turn the key holds the whole run. */
  lemma KeyComplete(caps: GLCaps, stages: seq<Stage>, offset: nat, key: seq<bv8>, count: nat)
    requires Bounded(stages) && KeyHolds(caps, stages, |stages|, offset, key, count)
    ensures Emit(caps, stages).Some? && key == Reserved(offset) + WordsBytes(Emit(caps, stages).value)
    ensures count == |Emit(caps, stages).value|
  {
    assert stages[..|stages|] == stages;
  }

  /** Processor k's turn either extends the key by its chunk or is the run's first failure, which fails the whole run. */
  lemma KeyStep(caps: GLCaps, stages: seq<Stage>, k: nat, offset: nat, key: seq<bv8>, count: nat,
                ok: bool, key': seq<bv8>, count': nat)
    requires Bounded(stages) && k < |stages| && KeyHolds(caps, stages, k, offset, key, count)
    requires ok == StageTrailer(caps, stages[k], count).Some?
    requires ok ==> key' == key + WordsBytes(stages[k].proc.fragment + StageTrailer(caps, stages[k], count).value)
    requires ok ==> count' == count + ChunkLength(stages[k])
    ensures Bounded(stages[..k + 1])
    ensures ok == Emit(caps, stages[..k + 1]).Some?
    ensures ok ==> KeyHolds(caps, stages, k + 1, offset, key', count')
    ensures !ok ==> Emit(caps, stages).None?
  {
    EmitStep(caps, stages, k);
    EmitFailureSticky(caps, stages, k + 1);
    if ok {
      var prefix := Emit(caps, stages[..k]).value;
      var chunk := stages[k].proc.fragment + StageTrailer(caps, stages[k], count).value;
      assert prefix + stages[k].proc.fragment + StageTrailer(caps, stages[k], count).value == prefix + chunk;
      WordsBytesAppend(prefix, chunk);
      AppendAssoc(Reserved(offset), WordsBytes(prefix), WordsBytes(chunk));
    }
  }

  /**
   Processor k's turn seen against the whole run: afterwards the key holds
   the run through processor k, or the whole run fails.
   */
  method KeyTurn(caps: GLCaps, ghost stages: seq<Stage>, ghost k: nat, ghost offset: nat, s: Stage,
                 b: ProcessorKeyBuilder) returns (ok: bool)
    requires Bounded(stages) && k < |stages| && stages[k] == s
    requires KeyHolds(caps, stages, k, offset, b.desc.key, b.count)
    modifies b, b.desc
    ensures ok ==> KeyHolds(caps, stages, k + 1, offset, b.desc.key, b.count)
    ensures !ok ==> Emit(caps, stages).None?
    ensures !ok ==> b.desc.key == old(b.desc.key) + WordsBytes(s.proc.fragment)
    ensures !ok ==> b.count == old(b.count) + |s.proc.fragment|
    ensures b.desc.header == old(b.desc.header)
  {
    ghost var key := b.desc.key;
    ghost var count := b.count;
    ok := AppendStage(caps, s, b);
    KeyStep(caps, stages, k, offset, key, count, ok, b.desc.key, b.count);
  }

  /**
   Build: on success the key is the reserved bytes followed by the run of the
   primitive processor, the fragment stages and the transfer processor, and
   the header is filled; when a meta key does not fit the key is empty and
   the header untouched.
   */
  method Build(state: OptDrawState, info: DescInfo, isPathRendering: bool, caps: GLCaps, keys: ShaderKeys,
               processorKeysOffset: nat, desc: ProgramDesc) returns (ok: bool)
    requires processorKeysOffset % 4 == 0
    requires ProcessorsFit(state)
    requires caps.pathRenderingSupport && isPathRendering ==> !state.hasGeometryProcessor
    requires info.readsDst ==> (state.hasDstCopy || caps.dstReadInShaderSupport) && keys.dstReadKey != 0
    modifies desc
    ensures var run := Emit(caps, Stages(state, info.requiresLocalCoordAttrib));
      && ok == run.Some?
      && (ok ==> desc.key == Reserved(processorKeysOffset) + WordsBytes(run.value))
      && (!ok ==> desc.key == [])
    ensures ok ==> desc.header == FilledHeader(state, info, isPathRendering, caps, keys)
    ensures !ok ==> desc.header == old(desc.header)
  {
    var requiresLocalCoordAttrib := info.requiresLocalCoordAttrib;
    ghost var stages := Stages(state, requiresLocalCoordAttrib);

    desc.key := [];
    desc.key := desc.key + Reserved(processorKeysOffset);
    var b := new ProcessorKeyBuilder(desc);
    KeyHoldsInitially(caps, stages, processorKeysOffset);

    ok := AppendProcessorKeys(state, requiresLocalCoordAttrib, caps, stages, processorKeysOffset, b);
    if !ok {
      desc.key := [];
      return;
    }

    FillHeader(state, info, isPathRendering, caps, keys, desc);
  }

  /**
   The processor keys of Build: the primitive processor, the fragment stages
   and the transfer processor take their turns in order; the run succeeds
   exactly when the whole run of their chunks does, and then the key holds it
   after the reserved bytes.
   */
  method AppendProcessorKeys(state: OptDrawState, requiresLocalCoordAttrib: bool, caps: GLCaps,
                             ghost stages: seq<Stage>, ghost offset: nat, b: ProcessorKeyBuilder) returns (ok: bool)
    requires ProcessorsFit(state) && stages == Stages(state, requiresLocalCoordAttrib)
    requires KeyHolds(caps, stages, 0, offset, b.desc.key, b.count)
    modifies b, b.desc
    ensures ok == Emit(caps, stages).Some?
    ensures ok ==> b.desc.key == Reserved(offset) + WordsBytes(Emit(caps, stages).value)
    ensures ok ==> b.count == |Emit(caps, stages).value|
    ensures b.desc.header == old(b.desc.header)
  {
    ok := KeyTurn(caps, stages, 0, offset, Stage(state.primitiveProcessor, 0), b);
    if !ok {
      return;
    }

    ok := AppendFragmentStages(state, requiresLocalCoordAttrib, caps, stages, offset, b);
    if !ok {
      return;
    }

    ok := KeyTurn(caps, stages, |state.fragmentStages| + 1, offset, Stage(state.xferProcessor, 0), b);
    if !ok {
      return;
    }
    KeyComplete(caps, stages, offset, b.desc.key, b.count);
  }

  /**
   The loop of Build over the fragment stages: each stage's turn, with its
   transform key, until one meta key does not fit.
   */
  method AppendFragmentStages(state: OptDrawState, requiresLocalCoordAttrib: bool, caps: GLCaps,
                              ghost stages: seq<Stage>, ghost offset: nat, b: ProcessorKeyBuilder) returns (ok: bool)
    requires ProcessorsFit(state) && stages == Stages(state, requiresLocalCoordAttrib)
    requires KeyHolds(caps, stages, 1, offset, b.desc.key, b.count)
    modifies b, b.desc
    ensures ok ==> KeyHolds(caps, stages, |state.fragmentStages| + 1, offset, b.desc.key, b.count)
    ensures !ok ==> Emit(caps, stages).None?
    ensures b.desc.header == old(b.desc.header)
  {
    ok := true;
    for s := 0 to |state.fragmentStages|
      invariant KeyHolds(caps, stages, s + 1, offset, b.desc.key, b.count)
      invariant b.desc.header == old(b.desc.header)
    {
      var fp := state.fragmentStages[s];
      var transformKey := GenTransformKey(fp, requiresLocalCoordAttrib);
      ok := KeyTurn(caps, stages, s + 1, offset, Stage(fp, transformKey), b);
      if !ok {
        return;
      }
    }
  }

  /**
   The header fill at the end of Build: the header is zeroed, then written
   field by field; the key bytes are not touched.
   */
  method FillHeader(state: OptDrawState, info: DescInfo, isPathRendering: bool, caps: GLCaps, keys: ShaderKeys,
                    desc: ProgramDesc)
    requires caps.pathRenderingSupport && isPathRendering ==> !state.hasGeometryProcessor
    requires info.readsDst ==> (state.hasDstCopy || caps.dstReadInShaderSupport) && keys.dstReadKey != 0
    modifies desc
    ensures desc.header == FilledHeader(state, info, isPathRendering, caps, keys)
    ensures desc.key == old(desc.key)
  {
    desc.header := ZeroHeader;
    if caps.pathRenderingSupport && isPathRendering {
      desc.header := desc.header.(useNvpr := true);
    } else {
      desc.header := desc.header.(useNvpr := false);
    }
    if info.readsDst {
      desc.header := desc.header.(dstReadKey := keys.dstReadKey);
    } else {
      desc.header := desc.header.(dstReadKey := 0);
    }
    if info.readsFragPosition {
      desc.header := desc.header.(fragPosKey := keys.fragPosKey);
    } else {
      desc.header := desc.header.(fragPosKey := 0);
    }
    desc.header := desc.header.(colorEffectCnt := state.numColorStages);
    desc.header := desc.header.(coverageEffectCnt := state.numCoverageStages);
  }

  /** The capabilities of the scenario: no texture swizzling, red textures, path rendering or in-shader dst reads. */
  const ScenarioCaps := GLCaps(false, false, false, false)

  /**
   The scenario's draw state: a primitive processor (class ID 1), one
   fragment stage (class ID 7, one fragment word, one alpha-only texture read
   through an 'r' swizzle) and a transfer processor (class ID 2), with one
   colour and no coverage stage.
   */
  function ScenarioState(): OptDrawState
  {
    OptDrawState(
      Processor(1, [], [], []),
      [Processor(7, [0xCAFE], [TextureAccess(AFlag, RFlag)], [])],
      Processor(2, [], [], []),
      false, false, 1, 0)
  }

  /**
   The scenario's key is built: seven words, the fragment stage's own word at
   word 2; a draw that reads neither the destination nor the fragment
   position and does not path-render gets a header holding only the effect
   counts.
   */
  lemma ScenarioKey(keys: ShaderKeys)
    ensures var run := Emit(ScenarioCaps, Stages(ScenarioState(), false));
      && run.Some?
      && |run.value| == 7
      && run.value[2] == 0xCAFE
    ensures FilledHeader(ScenarioState(), DescInfo(false, false, false), false, ScenarioCaps, keys) == KeyHeader(false, 0, 0, 1, 0)
  {
    var stages := Stages(ScenarioState(), false);
    TransformKeyEmpty(false);
    assert stages[1] == Stage(ScenarioState().fragmentStages[0], 0);
    assert Start(stages, 1) == 2 && Start(stages, 2) == 5 && Start(stages, 3) == 7;
    EmitSucceedsWhenSmall(ScenarioCaps, stages);
    EmitChunk(ScenarioCaps, stages, 1);
    assert Emit(ScenarioCaps, stages).value[2] == Emit(ScenarioCaps, stages).value[2..3][0];
  }

  /**
   The fragment stage's trailer in the scenario's key carries texture bit 0,
   transform key 0, class ID 7 and the builder's byte count after its
   fragment, 12: the primitive processor's two trailer words and the stage's
   own word.
   */
  lemma ScenarioMetaKey()
    ensures var run := Emit(ScenarioCaps, Stages(ScenarioState(), false));
      && run.Some? && |run.value| == 7
      && Decode(run.value[3], run.value[4]) == MetaKey(1, 0, 7, 12)
  {
    var stages := Stages(ScenarioState(), false);
    var state := ScenarioState();
    ScenarioKey(ShaderKeys(0, 0));
    TransformKeyEmpty(false);
    assert stages[1] == Stage(state.fragmentStages[0], 0);
    assert Start(stages, 1) == 2 && Start(stages, 2) == 5;
    EmitChunk(ScenarioCaps, stages, 1);
    ScenarioTextureKeys(ScenarioCaps, state.primitiveProcessor, state.fragmentStages[0], state.xferProcessor);
    StageTrailerAt(ScenarioCaps, stages[1], 2, 12);
    ScenarioTrailers();
    TrailerDecodesAt(Emit(ScenarioCaps, stages).value, 3, 1, 0, 7, 12);
  }

  /** The scenario's texture keys: only the fragment stage's alpha-only texture needs a remap. */
  lemma ScenarioTextureKeys(caps: GLCaps, pp: Processor, fp: Processor, xp: Processor)
    requires caps == GLCaps(false, false, false, false)
    requires pp.textures == [] && xp.textures == [] && fp.textures == [TextureAccess(AFlag, RFlag)]
    ensures TextureKey(caps, pp.textures) == 0 && TextureKey(caps, xp.textures) == 0
    ensures TextureKey(caps, fp.textures) == 1
  {
    TextureKeyEmpty(caps);
    assert fp.textures[..0] == [];
    BitShift(0);
  }

  /** The scenario fragment stage's trailer, word by word. */
  lemma ScenarioTrailers()
    ensures Trailer(1, 0, 7, 12) == Some([0x1_0000, 0x7_000C])
    ensures ((12 as bv16) as bv32) == 12
  {
  }
}
