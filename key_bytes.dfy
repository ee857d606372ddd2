/**
 The key is a byte array; the key builder writes 32-bit words into it. A word
 occupies four bytes, least significant byte first (the byte order of the
 little-endian hosts the renderer runs on).
 */
module KeyBytes {

  /** The four bytes of a word, low byte first. */
  function WordBytes(w: bv32): (bytes: seq<bv8>)
    ensures |bytes| == 4
  {
    [(w & 0xFF) as bv8, ((w >> 8) & 0xFF) as bv8, ((w >> 16) & 0xFF) as bv8, (w >> 24) as bv8]
  }

  /** The word stored in four bytes, low byte first. */
  function BytesWord(bytes: seq<bv8>): bv32
    requires |bytes| == 4
  {
    (bytes[0] as bv32) | ((bytes[1] as bv32) << 8) | ((bytes[2] as bv32) << 16) | ((bytes[3] as bv32) << 24)
  }

  /** Reading back the bytes of a word gives the word. */
  lemma WordRoundTrip(w: bv32)
    ensures BytesWord(WordBytes(w)) == w
  {
  }

  /** The bytes of a sequence of words, one word after the other. */
  function WordsBytes(ws: seq<bv32>): (bytes: seq<bv8>)
    ensures |bytes| == 4 * |ws|
  {
    if ws == [] then [] else WordBytes(ws[0]) + WordsBytes(ws[1..])
  }

  /** The words stored in a byte sequence whose length is a multiple of four. */
  function BytesWords(bytes: seq<bv8>): (ws: seq<bv32>)
    requires |bytes| % 4 == 0
    ensures 4 * |ws| == |bytes|
  {
    if bytes == [] then [] else [BytesWord(bytes[..4])] + BytesWords(bytes[4..])
  }

  /** Serialised words always make a whole number of words. */
  lemma WordsBytesAligned(ws: seq<bv32>)
    ensures |WordsBytes(ws)| % 4 == 0
  {
    var n := |ws|;
    assert (4 * n) % 4 == 0;
  }

  /** Serialising a concatenation serialises each part. */
  lemma {:induction false} WordsBytesAppend(a: seq<bv32>, b: seq<bv32>)
    ensures WordsBytes(a + b) == WordsBytes(a) + WordsBytes(b)
  {
    if a == [] {
      assert a + b == b;
    } else {
      assert (a + b)[1..] == a[1..] + b;
      WordsBytesAppend(a[1..], b);
    }
  }

  /** Reading back serialised words gives the words. */
  lemma {:induction false} WordsRoundTrip(ws: seq<bv32>)
    ensures BytesWords(WordsBytes(ws)) == ws
  {
    if ws != [] {
      var bytes := WordsBytes(ws);
      assert bytes[..4] == WordBytes(ws[0]);
      assert bytes[4..] == WordsBytes(ws[1..]);
      WordRoundTrip(ws[0]);
      WordsRoundTrip(ws[1..]);
    }
  }

  /** Distinct word sequences serialise to distinct bytes. */
  lemma WordsBytesInjective(a: seq<bv32>, b: seq<bv32>)
    requires WordsBytes(a) == WordsBytes(b)
    ensures a == b
  {
    WordsRoundTrip(a);
    WordsRoundTrip(b);
  }
}
