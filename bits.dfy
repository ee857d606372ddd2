/**
 Single bits of a 32-bit word. `Bit(t)` is `1 << t` defined by doubling, so
 that proofs about it step through constant shifts; `BitShift` ties it to the
 shift by a variable amount that the source writes.
 */
module Bits {

  /** The word with only bit t set. */
  function Bit(t: nat): bv32
    requires t < 32
  {
    if t == 0 then 1 else Bit(t - 1) << 1
  }

  /** Bit(t) is `1 << t`. */
  lemma BitShift(t: nat)
    requires t < 32
    ensures 1 << t == Bit(t)
  {
    // The split states no fact of its own; it only steers the solver through the shift by a variable amount.
    if t == 0 {

    } else if t == 1 {

    } else if t == 2 {

    } else if t == 3 {

    } else if t == 4 {

    } else if t == 5 {
    } else if t == 30 {
    } else {
    }
  }

  /** A word with at most one bit set. */
  predicate AtMostOneBit(b: bv32)
  {
    b & (b - 1) == 0
  }

  lemma AtMostOneBitDoubled(b: bv32)
    requires AtMostOneBit(b)
    ensures AtMostOneBit(b << 1)
  {
  }

  lemma AtMostOneBitLow(b: bv32)
    requires AtMostOneBit(b) && b << 1 != 0
    ensures b < 0x8000_0000
  {
  }

  /** Doubling never sets more than one bit. */
  lemma {:induction false} BitSingle(t: nat)
    requires t < 32
    ensures AtMostOneBit(Bit(t))
  {
    if t > 0 {
      BitSingle(t - 1);
      AtMostOneBitDoubled(Bit(t - 1));
    }
  }

  /** Once the bit has been shifted out it stays out. */
  lemma {:induction false} BitLost(t: nat, s: nat)
    requires t <= s < 32 && Bit(t) == 0
    ensures Bit(s) == 0
  {
    if t < s {
      BitLost(t, s - 1);
    }
  }

  /** Bit 31 is the last one a uint32_t holds, so no Bit(t) is zero. */
  lemma BitNonZero(t: nat)
    requires t < 32
    ensures Bit(t) != 0
  {
    BitShift(31);
    if Bit(t) == 0 {
      BitLost(t, 31);
    }
  }

  /** Below bit 31 the bit is set and below the sign bit. */
  lemma BitRange(t: nat)
    requires t < 31
    ensures 0 < Bit(t) < 0x8000_0000
  {
    BitSingle(t);
    BitNonZero(t);
    BitNonZero(t + 1);
    AtMostOneBitLow(Bit(t));
  }

  lemma Doubled(b: bv32)
    requires 0 < b < 0x8000_0000
    ensures b < b << 1
  {
  }

  /** Higher bits are larger. */
  lemma {:induction false} BitBelow(s: nat, t: nat)
    requires s < t < 32
    ensures Bit(s) < Bit(t)
  {
    BitRange(t - 1);
    Doubled(Bit(t - 1));
    if s < t - 1 {
      BitBelow(s, t - 1);
    }
  }

  /** A word below a single bit does not contain it. */
  lemma BelowFree(k: bv32, b: bv32)
    requires AtMostOneBit(b) && k < b
    ensures k & b == 0
  {
  }

  /** Distinct bits do not overlap. */
  lemma BitsDisjoint(s: nat, t: nat)
    requires s < t < 32
    ensures Bit(s) & Bit(t) == 0
  {
    BitBelow(s, t);
    BitSingle(t);
    BelowFree(Bit(s), Bit(t));
  }

  /** k has no bit at or above bit t. */
  predicate Below(k: bv32, t: nat)
    requires t < 32
  {
    k < Bit(t)
  }

  /** b is bit t or nothing. */
  predicate BitOrNone(b: bv32, t: nat)
    requires t < 32
  {
    b == 0 || b == Bit(t)
  }

  /** Adding bit t, or nothing, to a word below bit t stays below bit t + 1. */
  lemma BelowAfter(k: bv32, b: bv32, t: nat, u: nat)
    requires u == t + 1 < 32 && Below(k, t) && BitOrNone(b, t)
    ensures Below(k | b, u)
  {
    BitRange(t);
    BitSingle(t);
  }

  /** Bit t of k is set. */
  predicate HasBit(k: bv32, t: nat)
    requires t < 32
  {
    k & Bit(t) != 0
  }

  /** A word below bit t gains bit t exactly when bit t is what is added. */
  lemma HasBitAdded(k: bv32, b: bv32, t: nat)
    requires t < 32 && Below(k, t) && BitOrNone(b, t)
    ensures HasBit(k | b, t) <==> b != 0
  {
    BitFacts(t);
  }

  /** Bit t is set and is a single bit. */
  lemma BitFacts(t: nat)
    requires t < 32
    ensures Bit(t) != 0 && AtMostOneBit(Bit(t))
  {
    BitSingle(t);
    BitNonZero(t);
  }

  /** Adding bit t, or nothing, leaves every lower bit s as it was. */
  lemma HasBitKept(k: bv32, b: bv32, s: nat, t: nat)
    requires s < t < 32 && BitOrNone(b, t)
    ensures HasBit(k | b, s) <==> HasBit(k, s)
  {
    if b != 0 {
      BitsDisjoint(s, t);
    }
  }

  /** A word below bit n has no bit at or above n. */
  lemma BelowClear(k: bv32, n: nat, s: nat)
    requires n <= s < 32 && Below(k, n)
    ensures !HasBit(k, s)
  {
    if n < s {
      BitBelow(n, s);
    }
    BitSingle(s);
  }

  /** A word below bit 16 or lower fits in 16 bits. */
  lemma BelowFitsU16(k: bv32, n: nat)
    requires n <= 16 && Below(k, n)
    ensures k <= 0xFFFF
  {
    if n < 16 {
      BitBelow(n, 16);
    }
    BitShift(16);
  }
}
