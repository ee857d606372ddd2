/**
 The per-stage transform key: one 5-bit field per coordinate transform,
 field t at bits [5t, 5t+5), holding a matrix-type bit, a 2-bit precision
 and two coordinate-source flags.
 */
module TransformKeys {
  import opened KeyTypes
  import opened BitFields

  // The enum's values, written out; TransformConstants shows how the source derives them.
  const MatrixTypeKeyBits: bv32 := 1
  const MatrixTypeKeyMask: bv32 := 1
  const PrecisionBits: bv32 := 2
  const PrecisionShift: bv32 := 1
  const PositionCoordsFlag: bv32 := 8
  const DeviceCoordsFlag: bv32 := 16
  const TransformKeyBits: bv32 := 5

  /** The enum's derivations: masks and flags follow from the field widths. */
  lemma TransformConstants()
    ensures MatrixTypeKeyMask == (1 << MatrixTypeKeyBits) - 1
    ensures PrecisionShift == MatrixTypeKeyBits
    ensures PositionCoordsFlag == 1 << (PrecisionShift + PrecisionBits)
    ensures DeviceCoordsFlag == PositionCoordsFlag + PositionCoordsFlag
    ensures TransformKeyBits == MatrixTypeKeyBits + PrecisionBits + 2
  {
  }

  /** Matrix types the vertex code is specialised for. */
  const NoPerspMatrixType: bv32 := 0
  const GeneralMatrixType: bv32 := 1

  /** Every precision fits its 2-bit field (the static assert on kHigh_GrSLPrecision). */
  lemma PrecisionFits(p: Precision)
    ensures PrecisionValue(p) < 1 << PrecisionBits
  {
  }

  /** The field of one transform, before it is shifted into its slot. */
  function TransformField(tr: CoordTransform, useExplicitLocalCoords: bool): (key: bv32)
    ensures key < 32
  {
    var matrixType := if tr.perspective then GeneralMatrixType else NoPerspMatrixType;
    var coords := if tr.source == Local && !useExplicitLocalCoords then PositionCoordsFlag
                  else if tr.source == Device then DeviceCoordsFlag
                  else 0;
    matrixType | coords | (PrecisionValue(tr.precision) << 1)  // kPrecisionShift
  }

  /**
   The field's layout: bit 0 is the matrix type, bits 1-2 the precision, bit 3
   marks position-derived local coordinates and bit 4 device coordinates;
   explicit local coordinates set neither flag.
   */
  lemma TransformFieldLayout(tr: CoordTransform, useExplicitLocalCoords: bool)
    ensures var key := TransformField(tr, useExplicitLocalCoords);
      && (key & MatrixTypeKeyMask == 1 <==> tr.perspective)
      && (key >> 1) & 3 == PrecisionValue(tr.precision)
      && (key & PositionCoordsFlag != 0 <==> tr.source == Local && !useExplicitLocalCoords)
      && (key & DeviceCoordsFlag != 0 <==> tr.source == Device)
  {
  }

  /** Under one explicit-local-coords setting, the field determines the transform. */
  lemma TransformFieldInjective(a: CoordTransform, b: CoordTransform, useExplicitLocalCoords: bool)
    requires TransformField(a, useExplicitLocalCoords) == TransformField(b, useExplicitLocalCoords)
    ensures a == b
  {
    var k := TransformField(a, useExplicitLocalCoords);
    TransformFieldLayout(a, useExplicitLocalCoords);
    TransformFieldLayout(b, useExplicitLocalCoords);
    assert a.perspective == b.perspective;
    assert PrecisionValue(a.precision) == PrecisionValue(b.precision);
    assert (k & DeviceCoordsFlag != 0) == (a.source == Device) == (b.source == Device);
  }

  /** The five-bit fields of a stage's transforms, in order. */
  function TransformFields(ts: seq<CoordTransform>, useExplicitLocalCoords: bool): (fs: seq<bv5>)
    ensures |fs| == |ts|
    ensures forall t :: 0 <= t < |ts| ==> fs[t] as bv32 == TransformField(ts[t], useExplicitLocalCoords)
  {
    if ts == [] then []
    else
      NarrowWiden(TransformField(ts[0], useExplicitLocalCoords));
      [TransformField(ts[0], useExplicitLocalCoords) as bv5] + TransformFields(ts[1..], useExplicitLocalCoords)
  }

  /**
   The key of a stage's transforms: transform t's field shifted to bit
   kTransformKeyBits * t, all OR-ed together.
   */
  function TransformKey(ts: seq<CoordTransform>, useExplicitLocalCoords: bool): (key: bv32)
    requires |ts| <= MaxTransforms
    ensures ts == [] ==> key == 0
  {
    Pack(TransformFields(ts, useExplicitLocalCoords))
  }
}

/**
 What the transform key promises: each transform's field sits in its own
 5-bit slot, the key determines the transforms, and gen_transform_key's loop
 computes it.
 */
module TransformKeyLayout {
  import opened KeyTypes
  import opened BitFields
  import opened TransformKeys

  /** n transforms occupy the low 5n bits. */
  lemma TransformKeyBound(ts: seq<CoordTransform>, e: bool)
    requires |ts| <= MaxTransforms
    ensures TransformKey(ts, e) < FieldsLimit(|ts|)
  {
    PackBound(TransformFields(ts, e), |ts|);
  }

  /** A stage without transforms has transform key 0. */
  lemma TransformKeyEmpty(e: bool)
    ensures TransformKey([], e) == 0
  {
  }

  /** Up to three transforms fit the 16 bits the meta key allots to the transform key. */
  lemma TransformKeyFitsU16(ts: seq<CoordTransform>, e: bool)
    requires |ts| <= 3
    ensures TransformKey(ts, e) <= 0xFFFF
  {
    TransformKeyBound(ts, e);
    // The split only steers the solver: each branch fixes FieldsLimit(|ts|) to a constant.
    if |ts| == 0 {
    } else if |ts| == 1 {
    } else if |ts| == 2 {
    } else {
    }
  }

  /** Field t of the key, bits [5t, 5t+5), is exactly transform t's field. */
  lemma TransformKeyField(ts: seq<CoordTransform>, e: bool, t: nat)
    requires t < |ts| <= MaxTransforms
    ensures FieldAt(TransformKey(ts, e), t) == TransformField(ts[t], e)
  {
    PackField(TransformFields(ts, e), t);
  }

  /** For a fixed number of transforms and a fixed explicit-local-coords setting the key is injective. */
  lemma TransformKeyInjective(ts: seq<CoordTransform>, us: seq<CoordTransform>, e: bool)
    requires |ts| == |us| <= MaxTransforms
    requires TransformKey(ts, e) == TransformKey(us, e)
    ensures ts == us
  {
    PackInjective(TransformFields(ts, e), TransformFields(us, e));
    forall t | 0 <= t < |ts|
      ensures ts[t] == us[t]
    {
      TransformFieldInjective(ts[t], us[t], e);
    }
  }

  /** The body of gen_transform_key's loop before the shift: one transform's field, built flag by flag. */
  method BuildTransformField(coordTransform: CoordTransform, useExplicitLocalCoords: bool) returns (key: bv32)
    ensures key == TransformField(coordTransform, useExplicitLocalCoords)
  {
    key := 0;
    if coordTransform.perspective {
      key := key | GeneralMatrixType;
    } else {
      key := key | NoPerspMatrixType;
    }
    if coordTransform.source == Local && !useExplicitLocalCoords {
      key := key | PositionCoordsFlag;
    } else if coordTransform.source == Device {
      key := key | DeviceCoordsFlag;
    }
    key := key | (PrecisionValue(coordTransform.precision) << 1);  // kPrecisionShift
  }

  /**
   gen_transform_key: accumulates each transform's shifted field into
   totalKey; each new field is disjoint from the ones before it.
   */
  method GenTransformKey(stage: Processor, useExplicitLocalCoords: bool) returns (totalKey: bv32)
    requires |stage.transforms| <= MaxTransforms
    ensures totalKey == TransformKey(stage.transforms, useExplicitLocalCoords)
  {
    ghost var fields := TransformFields(stage.transforms, useExplicitLocalCoords);
    totalKey := 0;
    var numTransforms := |stage.transforms|;
    for t := 0 to numTransforms
      invariant totalKey == Pack(fields[..t])
    {
      var key := BuildTransformField(stage.transforms[t], useExplicitLocalCoords);
      PackSnoc(fields, t);
      PackDisjoint(fields, t, key);
      var shifted := key << FieldOffset(t);  // kTransformKeyBits * t
      assert totalKey & shifted == 0;  // the fields of different transforms do not overlap
      WithFieldShifted(totalKey, key, shifted, t);
      totalKey := totalKey | shifted;
    }
    assert fields[..numTransforms] == fields;
  }
}
