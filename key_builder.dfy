/**
 The mutable state the key is built in: the program descriptor, whose key is
 a growable byte array with a header record in its reserved leading region,
 and the processor key builder, which appends 32-bit words to that array and
 counts them. GrProgramDesc and GrProcessorKeyBuilder are declared outside
 src/gpu/gl/GrGLProgramDesc.cpp; they are modelled here by the behaviour that
 file relies on.
 */
module KeyBuilder {
  import opened KeyBytes

  /**
   The header stored in the reserved region: the NVPR flag, the dst-read and
   fragment-position keys, and the colour and coverage effect counts.
   */
  datatype KeyHeader = KeyHeader(
    useNvpr: bool,
    dstReadKey: nat,
    fragPosKey: nat,
    colorEffectCnt: nat,
    coverageEffectCnt: nat)

  /** The header after memset(header, 0, kHeaderSize). */
  const ZeroHeader := KeyHeader(false, 0, 0, 0, 0)

  /** A program descriptor: the key bytes and the header record in their reserved region. */
  class ProgramDesc {
    var key: seq<bv8>
    var header: KeyHeader

    constructor()
      ensures key == [] && header == ZeroHeader
    {
      key := [];
      header := ZeroHeader;
    }
  }

  /**
   A key builder bound to one descriptor's key. It appends whole words and
   counts every word appended through it; size() is that count in bytes.
   */
  class ProcessorKeyBuilder {
    const desc: ProgramDesc
    var count: nat

    constructor(desc: ProgramDesc)
      ensures this.desc == desc && count == 0
    {
      this.desc := desc;
      count := 0;
    }

    /** size(): the bytes appended through this builder so far. */
    function Size(): (size: nat)
      reads this
      ensures size % 4 == 0 && size / 4 == count
    {
      4 * count
    }

    /** add32n followed by the writes into the words it returns: the words go to the end of the key. */
    method Add32n(words: seq<bv32>)
      modifies this, desc
      ensures desc.key == old(desc.key) + WordsBytes(words)
      ensures count == old(count) + |words|
      ensures desc.header == old(desc.header)
    {
      count := count + |words|;
      desc.key := desc.key + WordsBytes(words);
    }
  }
}
