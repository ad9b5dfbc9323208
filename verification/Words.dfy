/** 32-bit words, and the bytes in which this machine keeps them, least significant first. */
module Words {

  type Byte = bv8
  type Word = bv32

  // Addition modulo 2^32
  function Add(x: Word, y: Word): Word {
    x + y
  }

  function Rotl(x: Word, n: bv32): Word
    requires 0 < n < 32
  {
    (x << n) | (x >> (32 - n))
  }

  function LittleEndian(b0: Byte, b1: Byte, b2: Byte, b3: Byte): Word {
    (b3 as Word << 24) | (b2 as Word << 16) | (b1 as Word << 8) | (b0 as Word)
  }

  function StoredBytes(w: Word): (b: seq<Byte>)
    ensures |b| == 4
  {
    [(w & 0xFF) as Byte, ((w >> 8) & 0xFF) as Byte, ((w >> 16) & 0xFF) as Byte, ((w >> 24) & 0xFF) as Byte]
  }

  lemma LoadStored(w: Word)
    ensures var b := StoredBytes(w); LittleEndian(b[0], b[1], b[2], b[3]) == w
  {
  }

  // The word loaded from position p
  function LoadAt(b: seq<Byte>, p: nat): Word
    requires p + 4 <= |b|
  {
    LittleEndian(b[p], b[p + 1], b[p + 2], b[p + 3])
  }
}
