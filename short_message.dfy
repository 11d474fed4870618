/**
 * The 32-bit short-message word that carries one MIDI event to the local output device:
 * the status byte in bits 0-7, the first data byte in bits 8-15, the second in bits 16-23.
 */
module ShortMessage {

  function Pack(status: bv8, data1: bv8, data2: bv8): bv32
  {
    ((data2 as bv32) << 16) | ((data1 as bv32) << 8) | (status as bv32)
  }
  /** The three bytes of a word, read back at their fixed offsets. */
  function Unpack(w: bv32): (bv8, bv8, bv8)
  {
    ((w & 0xFF) as bv8, ((w >> 8) & 0xFF) as bv8, ((w >> 16) & 0xFF) as bv8)
  }
  /** The word is the little-endian number status + data1 * 2^8 + data2 * 2^16, so it fits in 24 bits. */
  lemma PackValue(status: bv8, data1: bv8, data2: bv8)
    ensures Pack(status, data1, data2) == (status as bv32) + (data1 as bv32) * 0x100 + (data2 as bv32) * 0x1_0000
    ensures Pack(status, data1, data2) < 0x100_0000
  {
  }
  /** Unpacking a packed word gives back the three bytes. */
  lemma UnpackPack(status: bv8, data1: bv8, data2: bv8)
    ensures Unpack(Pack(status, data1, data2)) == (status, data1, data2)
  {
  }
  /** Note On (0x90) of note 0x40 at velocity 0x7F packs to 0x7F4090. */
  lemma PackExample()
    ensures Pack(0x90, 0x40, 0x7F) == 0x7F4090
  {
  }

  /** Converting a number in the byte range to a byte and back changes nothing. */
  lemma ByteRoundTrip(x: int)
    requires 0 <= x < 256
    ensures (x as bv8) as int == x
  {
    assert x % 256 == x;
  }
}
