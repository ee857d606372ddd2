/**
 The words a run of processors appends through the shared key builder: each
 processor's own key fragment followed by its meta-key trailer, whose size
 field is the builder's size once the fragment is in. The run stops at the
 first processor whose meta key does not fit.
 */
module KeyLayout {
  import opened KeyTypes
  import opened TextureKeys
  import opened MetaKeys
  import opened TextureKeyLayout

  /** A processor as Build hands it to get_meta_key, with the transform key passed alongside it. */
  datatype Stage = Stage(proc: Processor, transformKey: bv32)

  /** Every processor has few enough textures for its texture key. */
  predicate Bounded(stages: seq<Stage>)
  {
    forall i :: 0 <= i < |stages| ==> |stages[i].proc.textures| <= MaxTextures
  }

  /** The words one processor contributes: its fragment and two trailer words. */
  function ChunkLength(s: Stage): nat
  {
    |s.proc.fragment| + 2
  }

  /** The word at which processor i's chunk starts, counted from the first word the builder appended. */
  function Start(stages: seq<Stage>, i: nat): nat
    requires i <= |stages|
  {
    if i == 0 then 0 else Start(stages, i - 1) + ChunkLength(stages[i - 1])
  }

  /** The texture key of a processor. */
  function StageTextureKey(caps: GLCaps, s: Stage): bv32
    requires |s.proc.textures| <= MaxTextures
  {
    TextureKey(caps, s.proc.textures)
  }

  /** The meta-key trailer of a processor whose fragment starts at word `at`. */
  function StageTrailer(caps: GLCaps, s: Stage, at: nat): (r: Option<seq<bv32>>)
    requires |s.proc.textures| <= MaxTextures
    ensures r.Some? ==> |r.value| == 2 && 4 * (at + |s.proc.fragment|) <= 0xFFFF
  {
    Trailer(StageTextureKey(caps, s), s.transformKey, s.proc.classID, 4 * (at + |s.proc.fragment|))
  }

  /**
   The words appended for a run of processors, or None when one of them is
   rejected; a successful run is as long as all its chunks together.
   */
  function Emit(caps: GLCaps, stages: seq<Stage>): (r: Option<seq<bv32>>)
    requires Bounded(stages)
    ensures r.Some? ==> |r.value| == Start(stages, |stages|)
  {
    if stages == [] then Some([])
    else
      var n := |stages| - 1;
      assert Bounded(stages[..n]);
      var prefix := Emit(caps, stages[..n]);
      StartPrefix(stages, n, n);
      if prefix.None? then None
      else
        match StageTrailer(caps, stages[n], Start(stages, n))
        case None => None
        case Some(trailer) => Some(prefix.value + stages[n].proc.fragment + trailer)
  }

  /** Chunk offsets depend only on the processors before them. */
  lemma {:induction false} StartPrefix(stages: seq<Stage>, k: nat, i: nat)
    requires i <= k <= |stages|
    ensures Start(stages[..k], i) == Start(stages, i)
  {
    if i > 0 {
      StartPrefix(stages, k, i - 1);
      assert stages[..k][i - 1] == stages[i - 1];
    }
  }

  /** A run of one more processor extends the run before it by that processor's chunk, or fails. */
  lemma EmitStep(caps: GLCaps, stages: seq<Stage>, k: nat)
    requires Bounded(stages) && k < |stages|
    ensures Bounded(stages[..k]) && Bounded(stages[..k + 1])
    ensures Emit(caps, stages[..k]).Some? ==> |Emit(caps, stages[..k]).value| == Start(stages, k)
    ensures Emit(caps, stages[..k + 1]) ==
      if Emit(caps, stages[..k]).None? || StageTrailer(caps, stages[k], Start(stages, k)).None? then None
      else Some(Emit(caps, stages[..k]).value + stages[k].proc.fragment + StageTrailer(caps, stages[k], Start(stages, k)).value)
  {
    assert Bounded(stages[..k]);
    assert Bounded(stages[..k + 1]);
    assert stages[..k + 1][..k] == stages[..k];
    assert stages[..k + 1][k] == stages[k];
    StartPrefix(stages, k + 1, k);
    StartPrefix(stages, k, k);
  }

  /** Processor i's trailer fits at the place its chunk starts. */
  predicate TrailerFits(caps: GLCaps, stages: seq<Stage>, i: nat)
    requires Bounded(stages) && i < |stages|
  {
    StageTrailer(caps, stages[i], Start(stages, i)).Some?
  }

  /** A run succeeds exactly when every processor's trailer fits at the place its chunk starts. */
  lemma EmitSucceeds(caps: GLCaps, stages: seq<Stage>)
    requires Bounded(stages)
    ensures Emit(caps, stages).Some? <==> forall i :: 0 <= i < |stages| ==> TrailerFits(caps, stages, i)
  {
    EmitSucceedsUpTo(caps, stages, |stages|);
    assert stages[..|stages|] == stages;
  }

  /** The trailers of the first k processors all fit. */
  predicate FitsUpTo(caps: GLCaps, stages: seq<Stage>, k: nat)
    requires Bounded(stages) && k <= |stages|
  {
    forall i :: 0 <= i < k ==> TrailerFits(caps, stages, i)
  }

  /** The trailers of the first k processors fit when those of the first k - 1 do and processor k - 1's does. */
  lemma FitsUpToStep(caps: GLCaps, stages: seq<Stage>, k: nat)
    requires Bounded(stages) && 0 < k <= |stages|
    ensures FitsUpTo(caps, stages, k) <==> FitsUpTo(caps, stages, k - 1) && TrailerFits(caps, stages, k - 1)
  {
  }

  /** The first k processors' run succeeds exactly when each of their trailers fits. */
  lemma {:induction false} EmitSucceedsUpTo(caps: GLCaps, stages: seq<Stage>, k: nat)
    requires Bounded(stages) && k <= |stages|
    ensures Bounded(stages[..k])
    ensures Emit(caps, stages[..k]).Some? <==> FitsUpTo(caps, stages, k)
  {
    assert Bounded(stages[..k]);
    if k > 0 {
      EmitSucceedsUpTo(caps, stages, k - 1);
      EmitStepSucceeds(caps, stages, k);
      FitsUpToStep(caps, stages, k);
    }
  }

  /** The first k processors' run succeeds when the run of the first k - 1 does and processor k - 1's trailer fits. */
  lemma EmitStepSucceeds(caps: GLCaps, stages: seq<Stage>, k: nat)
    requires Bounded(stages) && 0 < k <= |stages|
    ensures Bounded(stages[..k - 1]) && Bounded(stages[..k])
    ensures Emit(caps, stages[..k]).Some? <==> Emit(caps, stages[..k - 1]).Some? && TrailerFits(caps, stages, k - 1)
  {
    assert Bounded(stages[..k - 1]);
    assert stages[..k][..k - 1] == stages[..k - 1];
    EmitLast(caps, stages[..k]);
    TrailerFitsPrefix(caps, stages, k, k - 1);
  }

  /** A non-empty run succeeds when the run before its last processor does and that processor's trailer fits. */
  lemma EmitLast(caps: GLCaps, stages: seq<Stage>)
    requires Bounded(stages) && stages != []
    ensures Bounded(stages[..|stages| - 1])
    ensures Emit(caps, stages).Some? <==>
      Emit(caps, stages[..|stages| - 1]).Some? && TrailerFits(caps, stages, |stages| - 1)
  {
    var n := |stages| - 1;
    assert Bounded(stages[..n]);
    StartPrefix(stages, n, n);
  }

  /** Whether a trailer fits does not depend on the processors after it. */
  lemma TrailerFitsPrefix(caps: GLCaps, stages: seq<Stage>, k: nat, i: nat)
    requires Bounded(stages) && i < k <= |stages|
    ensures Bounded(stages[..k])
    ensures TrailerFits(caps, stages[..k], i) == TrailerFits(caps, stages, i)
  {
    assert Bounded(stages[..k]);
    assert stages[..k][i] == stages[i];
    StartPrefix(stages, k, i);
  }

  /**
   Processor i's chunk lies in `ws` at Start(stages, i): its fragment, then
   its trailer.
   */
  predicate ChunkAt(caps: GLCaps, stages: seq<Stage>, ws: seq<bv32>, i: nat)
    requires Bounded(stages) && i < |stages|
  {
    var at := Start(stages, i);
    var mid := at + |stages[i].proc.fragment|;
    && Start(stages, i + 1) <= |ws|
    && ws[at..mid] == stages[i].proc.fragment
    && StageTrailer(caps, stages[i], at).Some?
    && ws[mid..Start(stages, i + 1)] == StageTrailer(caps, stages[i], at).value
  }

  /** In a successful run, every processor's chunk lies at the place it starts. */
  lemma {:induction false} EmitChunk(caps: GLCaps, stages: seq<Stage>, i: nat)
    requires Bounded(stages) && i < |stages| && Emit(caps, stages).Some?
    ensures ChunkAt(caps, stages, Emit(caps, stages).value, i)
  {
    var n := |stages| - 1;
    EmitLastValue(caps, stages);
    if i == n {
      ChunkAtLast(caps, stages);
    } else {
      EmitChunk(caps, stages[..n], i);
      ChunkAtExtended(caps, stages, n, Emit(caps, stages[..n]).value, Emit(caps, stages).value, i);
    }
  }

  /** A successful non-empty run is the run before its last processor followed by that processor's chunk. */
  lemma EmitLastValue(caps: GLCaps, stages: seq<Stage>)
    requires Bounded(stages) && stages != [] && Emit(caps, stages).Some?
    ensures Bounded(stages[..|stages| - 1]) && Emit(caps, stages[..|stages| - 1]).Some?
    ensures var n := |stages| - 1;
      && StageTrailer(caps, stages[n], Start(stages, n)).Some?
      && Emit(caps, stages).value ==
           Emit(caps, stages[..n]).value + stages[n].proc.fragment + StageTrailer(caps, stages[n], Start(stages, n)).value
  {
    assert Bounded(stages[..|stages| - 1]);
  }

  /** The last processor's chunk ends a successful run. */
  lemma ChunkAtLast(caps: GLCaps, stages: seq<Stage>)
    requires Bounded(stages) && stages != [] && Emit(caps, stages).Some?
    ensures ChunkAt(caps, stages, Emit(caps, stages).value, |stages| - 1)
  {
    var n := |stages| - 1;
    EmitLastValue(caps, stages);
    var prefix := Emit(caps, stages[..n]).value;
    var fragment := stages[n].proc.fragment;
    var trailer := StageTrailer(caps, stages[n], Start(stages, n)).value;
    StartPrefix(stages, n, n);
    assert |prefix| == Start(stages, n);
    AppendSlices(prefix, fragment, trailer);
  }

  /** The three parts of a concatenation, as slices of it. */
  lemma AppendSlices(p: seq<bv32>, q: seq<bv32>, r: seq<bv32>)
    ensures (p + q + r)[|p|..|p| + |q|] == q
    ensures (p + q + r)[|p| + |q|..|p| + |q| + |r|] == r
  {
  }

  /** A chunk found in a shorter run stays where it is in any longer run extending it. */
  lemma ChunkAtExtended(caps: GLCaps, stages: seq<Stage>, k: nat, ws: seq<bv32>, longer: seq<bv32>, i: nat)
    requires Bounded(stages) && i < k <= |stages|
    requires Bounded(stages[..k]) && ChunkAt(caps, stages[..k], ws, i)
    requires |ws| <= |longer| && longer[..|ws|] == ws
    ensures ChunkAt(caps, stages, longer, i)
  {
    StartPrefix(stages, k, i);
    StartPrefix(stages, k, i + 1);
    assert stages[..k][i] == stages[i];
    SliceOfPrefix(ws, longer, Start(stages, i), Start(stages, i) + |stages[i].proc.fragment|);
    SliceOfPrefix(ws, longer, Start(stages, i) + |stages[i].proc.fragment|, Start(stages, i + 1));
  }

  /** A slice that lies within a prefix is the same slice of the prefix. */
  lemma SliceOfPrefix(ws: seq<bv32>, longer: seq<bv32>, a: nat, b: nat)
    requires |ws| <= |longer| && longer[..|ws|] == ws && a <= b <= |ws|
    ensures longer[a..b] == ws[a..b]
  {
    assert forall j :: a <= j < b ==> longer[j] == longer[..|ws|][j];
  }

  /** Chunk offsets grow along the run. */
  lemma {:induction false} StartBound(stages: seq<Stage>, i: nat, k: nat)
    requires i <= k <= |stages|
    ensures Start(stages, i) <= Start(stages, k)
  {
    if i < k {
      StartBound(stages, i, k - 1);
    }
  }

  /** A successful run's prefix runs are successful and lie at its start. */
  lemma {:induction false} EmitPrefix(caps: GLCaps, stages: seq<Stage>, k: nat)
    requires Bounded(stages) && k <= |stages| && Emit(caps, stages).Some?
    ensures Bounded(stages[..k]) && Emit(caps, stages[..k]).Some?
    ensures Start(stages, k) <= |Emit(caps, stages).value|
    ensures Emit(caps, stages[..k]).value == Emit(caps, stages).value[..Start(stages, k)]
  {
    var n := |stages| - 1;
    assert Bounded(stages[..k]);
    if k == |stages| {
      assert stages[..k] == stages;
    } else {
      EmitLastValue(caps, stages);
      assert stages[..n][..k] == stages[..k];
      EmitPrefix(caps, stages[..n], k);
      StartPrefix(stages, n, k);
      StartPrefix(stages, n, n);
      StartBound(stages, k, n);
      PrefixOfAppend(Emit(caps, stages[..n]).value, stages[n].proc.fragment, StageTrailer(caps, stages[n], Start(stages, n)).value,
        Start(stages, k));
    }
  }

  /** A leading slice that lies within the first part of a concatenation is that part's leading slice. */
  lemma PrefixOfAppend(p: seq<bv32>, q: seq<bv32>, r: seq<bv32>, m: nat)
    requires m <= |p|
    ensures (p + q + r)[..m] == p[..m]
  {
  }

  /** A processor's trailer is get_meta_key's trailer for the builder size after its fragment. */
  lemma StageTrailerAt(caps: GLCaps, s: Stage, at: nat, size: nat)
    requires |s.proc.textures| <= MaxTextures && size == 4 * (at + |s.proc.fragment|)
    ensures StageTrailer(caps, s, at) == Trailer(TextureKey(caps, s.proc.textures), s.transformKey, s.proc.classID, size)
  {
  }

  /** Once a prefix of the run fails, the whole run fails. */
  lemma EmitFailureSticky(caps: GLCaps, stages: seq<Stage>, k: nat)
    requires Bounded(stages) && k <= |stages|
    ensures Bounded(stages[..k])
    ensures Emit(caps, stages[..k]).None? ==> Emit(caps, stages).None?
  {
    assert Bounded(stages[..k]);
    if Emit(caps, stages).Some? {
      EmitPrefix(caps, stages, k);
    }
  }

  /**
   Processor i's trailer fits exactly when its texture key, its transform key,
   its class ID and the builder's byte count after its fragment each fit in
   16 bits.
   */
  lemma TrailerFitsExactly(caps: GLCaps, stages: seq<Stage>, i: nat)
    requires Bounded(stages) && i < |stages|
    ensures TrailerFits(caps, stages, i) <==>
      && StageTextureKey(caps, stages[i]) <= MaxU16
      && stages[i].transformKey <= MaxU16
      && stages[i].proc.classID <= MaxU16
      && 4 * (Start(stages, i) + |stages[i].proc.fragment|) <= 0xFFFF
  {
    TrailerWritten(StageTextureKey(caps, stages[i]), stages[i].transformKey, stages[i].proc.classID,
      4 * (Start(stages, i) + |stages[i].proc.fragment|));
  }

  /** A processor small enough for every 16-bit part of its meta key. */
  predicate SmallStage(s: Stage)
  {
    |s.proc.textures| <= 16 && s.transformKey <= MaxU16 && s.proc.classID <= MaxU16
  }

  /**
   A run of small processors whose words come to at most SK_MaxU16 bytes
   always succeeds: only oversized processors or keys make a build fail.
   */
  lemma EmitSucceedsWhenSmall(caps: GLCaps, stages: seq<Stage>)
    requires Bounded(stages) && forall i :: 0 <= i < |stages| ==> SmallStage(stages[i])
    requires 4 * Start(stages, |stages|) <= 0xFFFF
    ensures Emit(caps, stages).Some?
  {
    forall i | 0 <= i < |stages|
      ensures TrailerFits(caps, stages, i)
    {
      TrailerFitsExactly(caps, stages, i);
      TextureKeyFitsU16(caps, stages[i].proc.textures);
      StartBound(stages, i + 1, |stages|);
    }
    EmitSucceeds(caps, stages);
  }
}
