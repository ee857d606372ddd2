/**
 Bit-vector facts about 5-bit fields packed into a 32-bit key. A key of n
 fields is the first field OR-ed with the key of the remaining fields shifted
 up by five bits; these lemmas take the pieces as plain parameters so that
 each proof stays small.
 */
module BitFields {

  /** 2^(5n): the first value that does not fit in n five-bit fields, for the seven counts a uint32_t holds. */
  function FieldsLimit(n: nat): (limit: bv32)
    requires n <= 6
    ensures limit != 0
  {
    if n == 0 then 1
    else if n == 1 then 1 << 5
    else if n == 2 then 1 << 10
    else if n == 3 then 1 << 15
    else if n == 4 then 1 << 20
    else if n == 5 then 1 << 25
    else 1 << 30
  }

  /** 5n, the bit offset of field n, tabulated like FieldsLimit. */
  function FieldOffset(n: nat): (s: bv32)
    requires n <= 6
    ensures s <= 30
  {
    if n == 0 then 0
    else if n == 1 then 5
    else if n == 2 then 10
    else if n == 3 then 15
    else if n == 4 then 20
    else if n == 5 then 25
    else 30
  }

  /** The offset table holds 5n. */
  lemma OffsetValue(n: nat)
    requires n <= 6
    ensures FieldOffset(n) as int == 5 * n
  {
  }

  /** Consecutive offsets are five bits apart. */
  lemma OffsetStep(n: nat)
    requires n < 6
    ensures FieldOffset(n + 1) == FieldOffset(n) + 5
  {
  }

  /** Below six fields there is room for one more: the limit is at most 2^25. */
  lemma LimitSmall(n: nat)
    requires n < 6
    ensures FieldsLimit(n) <= 1 << 25
  {
  }

  /** Putting a field below n fields gives n + 1 fields. */
  lemma ConsBound(f: bv5, rest: bv32, n: nat)
    requires 0 < n <= 6 && rest < FieldsLimit(n - 1)
    ensures (f as bv32) | (rest << 5) < FieldsLimit(n)
  {
  }

  /** The field and the fields above it can be read back from a consed key. */
  lemma ConsFields(f: bv5, rest: bv32)
    requires rest <= 1 << 25
    ensures ((f as bv32) | (rest << 5)) & 31 == f as bv32
    ensures ((f as bv32) | (rest << 5)) >> 5 == rest
  {
  }

  /** Shifting right by five, then by s, is shifting by s + 5. */
  lemma ShiftRightTwice(k: bv32, s: bv32)
    requires s <= 27
    ensures (k >> 5) >> s == k >> (s + 5)
  {
  }

  /** Shifting a key with a field at offset s up five bits moves that field to s + 5. */
  lemma ShiftLeftOr(a: bv32, b: bv32, s: bv32)
    requires s <= 27
    ensures (a | (b << s)) << 5 == (a << 5) | (b << (s + 5))
  {
  }

  /** A value below 32 survives narrowing to five bits. */
  lemma NarrowWiden(x: bv32)
    requires x < 32
    ensures (x as bv5) as bv32 == x
  {
  }

  /**
   Up to six five-bit fields packed into one word, field i at bits
   [5i, 5i+5): the first field below the packing of the others shifted up by five.
   */
  function Pack(fs: seq<bv5>): bv32
  {
    if fs == [] then 0 else (fs[0] as bv32) | (Pack(fs[1..]) << 5)
  }

  /** Six fields fill at most 30 bits: n fields stay below 2^(5n). */
  lemma {:induction false} PackBound(fs: seq<bv5>, n: nat)
    requires |fs| == n <= 6
    ensures Pack(fs) < FieldsLimit(n)
  {
    if fs != [] {
      PackBound(fs[1..], n - 1);
      ConsBound(fs[0], Pack(fs[1..]), n);
    }
  }

  /** The low field of a packed word is the first entry, and the rest is the packing of the others. */
  lemma {:induction false} PackCons(fs: seq<bv5>)
    requires 0 < |fs| <= 6
    ensures Pack(fs) & 31 == fs[0] as bv32
    ensures Pack(fs) >> 5 == Pack(fs[1..])
  {
    PackBound(fs[1..], |fs| - 1);
    LimitSmall(|fs| - 1);
    ConsFields(fs[0], Pack(fs[1..]));
  }

  /** The five-bit field in slot t of a key, bits [5t, 5t+5). */
  function FieldAt(key: bv32, t: nat): bv32
    requires t <= 6
  {
    (key >> FieldOffset(t)) & 31
  }

  /** Field t of a packed word is entry t. */
  lemma {:induction false} PackField(fs: seq<bv5>, t: nat)
    requires t < |fs| <= 6
    ensures FieldAt(Pack(fs), t) == fs[t] as bv32
  {
    PackCons(fs);
    if t > 0 {
      var u := t - 1;
      PackField(fs[1..], u);
      assert fs[1..][u] == fs[t];
      OffsetStep(u);
      assert u + 1 == t;
      ShiftRightTwice(Pack(fs), FieldOffset(u));
    }
  }

  /** key with field OR-ed into slot t, where gen_transform_key puts transform t. */
  function WithField(key: bv32, field: bv32, t: nat): bv32
    requires t <= 6
  {
    key | (field << FieldOffset(t))
  }

  /** OR-ing in a field already shifted to bit 5t is WithField. */
  lemma WithFieldShifted(acc: bv32, field: bv32, shifted: bv32, t: nat)
    requires t <= 6 && shifted == field << FieldOffset(t)
    ensures acc | shifted == WithField(acc, field, t)
  {
  }

  /** Packing the first t + 1 entries adds entry t at bit 5t to the packing of the first t. */
  lemma {:induction false} PackSnoc(fs: seq<bv5>, t: nat)
    requires t < |fs| <= 6
    ensures Pack(fs[..t + 1]) == WithField(Pack(fs[..t]), fs[t] as bv32, t)
  {
    if t > 0 {
      assert fs[..t + 1][1..] == fs[1..][..t];
      assert fs[..t][1..] == fs[1..][..t - 1];
      PackSnoc(fs[1..], t - 1);
      OffsetStep(t - 1);
      ShiftLeftOr(Pack(fs[1..][..t - 1]), fs[t] as bv32, FieldOffset(t - 1));
    }
  }

  /** Slot t is still free in the packing of the first t entries: anything shifted to bit 5t does not overlap it. */
  lemma PackDisjoint(fs: seq<bv5>, t: nat, field: bv32)
    requires t < |fs| <= 6
    ensures Pack(fs[..t]) & (field << FieldOffset(t)) == 0
  {
    PackBound(fs[..t], t);
    // The split only steers the solver: each branch fixes FieldsLimit(t) and FieldOffset(t) to constants.
    if t == 0 {
    } else if t == 1 {
    } else if t == 2 {
    } else if t == 3 {
    } else if t == 4 {
    } else {
    }
  }

  /** Equally long field lists with equal packings are equal. */
  lemma PackInjective(fs: seq<bv5>, gs: seq<bv5>)
    requires |fs| == |gs| <= 6
    requires Pack(fs) == Pack(gs)
    ensures fs == gs
  {
    forall t | 0 <= t < |fs|
      ensures fs[t] == gs[t]
    {
      PackAgreesAt(fs, gs, t);
    }
  }

  /** Equal packings of equally long lists agree at every entry. */
  lemma PackAgreesAt(fs: seq<bv5>, gs: seq<bv5>, t: nat)
    requires t < |fs| == |gs| <= 6
    requires Pack(fs) == Pack(gs)
    ensures fs[t] == gs[t]
  {
    PackField(fs, t);
    PackField(gs, t);
    WidenInjective(fs[t], gs[t]);
  }

  /** Widening a five-bit field is injective. */
  lemma WidenInjective(a: bv5, b: bv5)
    requires a as bv32 == b as bv32
    ensures a == b
  {
  }
}
