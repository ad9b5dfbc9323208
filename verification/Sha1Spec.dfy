/** SHA-1 as FIPS 180-4 defines it on a whole message (sections 4.1.1, 4.2.1, 5.1.1, 5.3.1 and 6.1.2),
    and HMAC as section 2 of RFC 2104 defines it. */
module Sha1Spec {
  import opened Words

  const BLOCK_BYTES: nat := 64
  const SHA1_LEN: nat := 20
  const MAX_MESSAGE: nat := 0x2000_0000_0000_0000   // 2^61 bytes, so that the bit length fits 64 bits

  datatype Hash = Hash(a: Word, b: Word, c: Word, d: Word, e: Word)

  function Ch(x: Word, y: Word, z: Word): Word {
    (x & y) ^ (!x & z)
  }

  function Parity(x: Word, y: Word, z: Word): Word {
    x ^ y ^ z
  }

  function Maj(x: Word, y: Word, z: Word): Word {
    (x & y) ^ (x & z) ^ (y & z)
  }

  function Mix(x: Word, y: Word, z: Word, w: Word): Word {
    x ^ y ^ z ^ w
  }

  // Section 4.1.1
  function Logical(t: nat, x: Word, y: Word, z: Word): Word
    requires t < 80
  {
    if t < 20 then Ch(x, y, z) else if t < 40 then Parity(x, y, z) else if t < 60 then Maj(x, y, z) else Parity(x, y, z)
  }

  // Section 4.2.1
  function Constant(t: nat): Word
    requires t < 80
  {
    if t < 20 then 0x5a827999 else if t < 40 then 0x6ed9eba1 else if t < 60 then 0x8f1bbcdc else 0xca62c1d6
  }

  // At the bits of m: where x is set Ch takes y, and where it is not, z.
  lemma ChChooses(x: Word, y: Word, z: Word, m: Word)
    ensures x & m == m ==> Ch(x, y, z) & m == y & m
    ensures x & m == 0 ==> Ch(x, y, z) & m == z & m
  {
  }

  // Where two agree Maj is with them, whichever two.
  lemma MajAgrees(x: Word, y: Word, z: Word, m: Word)
    requires x & m == y & m
    ensures Maj(x, y, z) & m == x & m
  {
  }

  lemma MajTurns(x: Word, y: Word, z: Word)
    ensures Maj(x, y, z) == Maj(y, z, x)
  {
  }

  // Where x and y agree Parity is z, and where they differ it is the opposite.
  lemma ParityDecides(x: Word, y: Word, z: Word, m: Word)
    ensures x & m == y & m ==> Parity(x, y, z) & m == z & m
    ensures x & m == !y & m ==> Parity(x, y, z) & m == !z & m
  {
  }

  // The constants are the roots of 2, 3, 5 and 10, times 2^30 and rounded down.
  lemma ConstantsAreRoots(t: nat)
    requires t < 80
    ensures var k, c := if t < 20 then 2 else if t < 40 then 3 else if t < 60 then 5 else 10, Constant(t) as int;
            c * c <= k * 0x1000_0000_0000_0000 < (c + 1) * (c + 1)
  {
  }

  // Section 5.3.1
  const IV: Hash := Hash(0x67452301, 0xefcdab89, 0x98badcfe, 0x10325476, 0xc3d2e1f0)

  // Four bytes as a word, most significant first.
  function BigEndian(b0: Byte, b1: Byte, b2: Byte, b3: Byte): Word {
    (b0 as Word << 24) | (b1 as Word << 16) | (b2 as Word << 8) | (b3 as Word)
  }

  function WordAt(block: seq<Byte>, t: nat): Word
    requires |block| == BLOCK_BYTES && t < 16
  {
    BigEndian(block[4 * t], block[4 * t + 1], block[4 * t + 2], block[4 * t + 3])
  }

  // Section 6.1.2, step 1
  function Schedule(block: seq<Byte>, t: nat): Word
    requires |block| == BLOCK_BYTES && t < 80
  {
    if t < 16 then WordAt(block, t)
    else Rotl(Mix(Schedule(block, t - 3), Schedule(block, t - 8), Schedule(block, t - 14), Schedule(block, t - 16)), 1)
  }

  // Section 6.1.2, step 3, for one t
  function Round(h: Hash, t: nat, w: Word): Hash
    requires t < 80
  {
    Hash(Add(Add(Add(Add(Rotl(h.a, 5), Logical(t, h.b, h.c, h.d)), h.e), Constant(t)), w), h.a, Rotl(h.b, 30), h.c, h.d)
  }

  function Rounds(h: Hash, block: seq<Byte>, t: nat): Hash
    requires |block| == BLOCK_BYTES && t <= 80
  {
    if t == 0 then h else Round(Rounds(h, block, t - 1), t - 1, Schedule(block, t - 1))
  }

  // Section 6.1.2, step 4
  function Compress(h: Hash, block: seq<Byte>): Hash
    requires |block| == BLOCK_BYTES
  {
    var r := Rounds(h, block, 80);
    Hash(Add(r.a, h.a), Add(r.b, h.b), Add(r.c, h.c), Add(r.d, h.d), Add(r.e, h.e))
  }

  function Blocks(h: Hash, m: seq<Byte>): Hash
    requires |m| % BLOCK_BYTES == 0
    decreases |m|
  {
    if m == [] then h else Blocks(Compress(h, m[..BLOCK_BYTES]), m[BLOCK_BYTES..])
  }

  function Zeros(n: nat): (z: seq<Byte>)
    ensures |z| == n && forall i :: 0 <= i < n ==> z[i] == 0
  {
    seq(n, _ => 0)
  }

  // A word as four bytes, most significant first.
  function WordBytes(w: Word): (b: seq<Byte>)
    ensures |b| == 4
  {
    [((w >> 24) & 0xFF) as Byte, ((w >> 16) & 0xFF) as Byte, ((w >> 8) & 0xFF) as Byte, (w & 0xFF) as Byte]
  }

  // A number below 2^64 as two words, most significant first.
  function Bytes64(n: nat): (b: seq<Byte>)
    requires n < 0x1_0000_0000_0000_0000
    ensures |b| == 8
  {
    WordBytes((n / 0x1_0000_0000) as Word) + WordBytes((n % 0x1_0000_0000) as Word)
  }

  // Section 5.1.1, in bytes: z zero bytes after the byte 0x80, then the length in bits.
  ghost predicate IsPadding(l: nat, z: nat) {
    (l + 1 + z) % BLOCK_BYTES == BLOCK_BYTES - 8
  }

  function PaddingZeros(l: nat): (z: nat) {
    var r := l % BLOCK_BYTES;
    if r < BLOCK_BYTES - 8 then BLOCK_BYTES - 9 - r else 2 * BLOCK_BYTES - 9 - r
  }

  lemma SameRemainder(l: nat, z: nat)
    ensures (l + 1 + z) % BLOCK_BYTES == (l % BLOCK_BYTES + 1 + z) % BLOCK_BYTES
  {
  }

  // The smallest solution.
  lemma PaddingIsSmallest(l: nat)
    ensures IsPadding(l, PaddingZeros(l))
    ensures forall z: nat :: IsPadding(l, z) ==> PaddingZeros(l) <= z
  {
    forall z: nat | IsPadding(l, z) ensures PaddingZeros(l) <= z {
      SameRemainder(l, z);
    }
  }

  function Padded(m: seq<Byte>): (p: seq<Byte>)
    requires |m| < MAX_MESSAGE
    ensures |p| == |m| + 1 + PaddingZeros(|m|) + 8
  {
    m + [0x80] + Zeros(PaddingZeros(|m|)) + Bytes64(8 * |m|)
  }

  function HashBytes(h: Hash): (d: seq<Byte>)
    ensures |d| == SHA1_LEN
  {
    WordBytes(h.a) + WordBytes(h.b) + WordBytes(h.c) + WordBytes(h.d) + WordBytes(h.e)
  }

  function Sha1(m: seq<Byte>): (d: seq<Byte>)
    requires |m| < MAX_MESSAGE
    ensures |d| == SHA1_LEN
  {
    PaddingIsSmallest(|m|);
    HashBytes(Blocks(IV, Padded(m)))
  }

  // ------------------------------------------------------------------------------------------
  // HMAC
  // ------------------------------------------------------------------------------------------

  function HmacKey(key: seq<Byte>): (k: seq<Byte>)
    requires |key| < MAX_MESSAGE
    ensures |k| == BLOCK_BYTES
  {
    var k := if |key| > BLOCK_BYTES then Sha1(key) else key;
    k + Zeros(BLOCK_BYTES - |k|)
  }

  function XorAll(k: seq<Byte>, x: Byte): (r: seq<Byte>)
    ensures |r| == |k| && forall i :: 0 <= i < |k| ==> r[i] == k[i] ^ x
  {
    seq(|k|, i requires 0 <= i < |k| => k[i] ^ x)
  }

  function Hmac(key: seq<Byte>, text: seq<Byte>): seq<Byte>
    requires |key| < MAX_MESSAGE && |text| + BLOCK_BYTES < MAX_MESSAGE
  {
    Sha1(XorAll(HmacKey(key), 0x5C) + Sha1(XorAll(HmacKey(key), 0x36) + text))
  }

  // The two pads by their bytes, for a key of one block at most.
  lemma HmacPads(key: seq<Byte>, text: seq<Byte>, inner: seq<Byte>, outer: seq<Byte>)
    requires |key| <= 64 && |text| + 64 < MAX_MESSAGE && |inner| == 64 == |outer|
    requires forall i :: 0 <= i < 64 ==> inner[i] == if i < |key| then key[i] ^ 0x36 else 0x36
    requires forall i :: 0 <= i < 64 ==> outer[i] == if i < |key| then key[i] ^ 0x5C else 0x5C
    ensures Hmac(key, text) == Sha1(outer + Sha1(inner + text))
  {
    hide Sha1;
    forall i | 0 <= i < 64
      ensures XorAll(HmacKey(key), 0x36)[i] == inner[i] && XorAll(HmacKey(key), 0x5C)[i] == outer[i]
    {
      assert HmacKey(key)[i] == if i < |key| then key[i] else 0;
    }
    assert XorAll(HmacKey(key), 0x36) == inner && XorAll(HmacKey(key), 0x5C) == outer;
  }

  // A longer key does what its digest does.
  lemma HmacOfLongKey(key: seq<Byte>, text: seq<Byte>)
    requires 64 < |key| < MAX_MESSAGE && |text| + 64 < MAX_MESSAGE
    ensures Hmac(key, text) == Hmac(Sha1(key), text)
  {
    hide Sha1;
    assert HmacKey(key) == HmacKey(Sha1(key));
  }

  // Bytes of a word, and words of a length
  lemma WordOfBytes(w: Word)
    ensures var b := WordBytes(w); BigEndian(b[0], b[1], b[2], b[3]) == w
  {
  }

  lemma LengthBytes(n: nat)
    requires n < 0x1_0000_0000_0000_0000
    ensures var b := Bytes64(n);
            && BigEndian(b[0], b[1], b[2], b[3]) == (n / 0x1_0000_0000) as Word
            && BigEndian(b[4], b[5], b[6], b[7]) == (n % 0x1_0000_0000) as Word
  {
    hide WordBytes, BigEndian;
    WordOfBytes((n / 0x1_0000_0000) as Word);
    WordOfBytes((n % 0x1_0000_0000) as Word);
  }
}
