/** The kernel's SHA-1: a context with a 64-byte buffer that is filled, compressed and padded in place. */
module Sha1 {
  import opened Words
  import opened Sha1Spec
  import opened Sha1Stream

  function Reverse32(v: Word): Word {
    ((v & 0x000000FF) << 24) | ((v & 0x0000FF00) << 8) | ((v & 0x00FF0000) >> 8) | ((v & 0xFF000000) >> 24)
  }

  lemma ReverseIsBigEndian(b0: Byte, b1: Byte, b2: Byte, b3: Byte)
    ensures Reverse32(LittleEndian(b0, b1, b2, b3)) == BigEndian(b0, b1, b2, b3)
  {
  }

  lemma ReversedBytes(w: Word)
    ensures StoredBytes(Reverse32(w)) == WordBytes(w)
  {
  }

  // sha1_f, in the order in which the source tests t.
  function SourceLogical(t: nat, x: Word, y: Word, z: Word): (r: Word)
    requires t < 80
    ensures r == Logical(t, x, y, z)
  {
    if t <= 19 then Ch(x, y, z)
    else if t <= 39 || t >= 60 then Parity(x, y, z)
    else Maj(x, y, z)
  }

  method StoreWord(b: array<Byte>, p: nat, w: Word)
    requires p + 4 <= b.Length
    modifies b
    ensures b[p..p + 4] == StoredBytes(w) && LoadAt(b[..], p) == w
    ensures forall x :: 0 <= x < b.Length && !(p <= x < p + 4) ==> b[x] == old(b[x])
  {
    hide LittleEndian, StoredBytes;
    LoadStored(w);
    var s := StoredBytes(w);
    b[p] := s[0];
    b[p + 1] := s[1];
    b[p + 2] := s[2];
    b[p + 3] := s[3];
    assert b[p..p + 4] == s;
  }

  lemma SameWord(a: seq<Byte>, b: seq<Byte>, p: nat)
    requires p + 4 <= |a| == |b| && forall x :: p <= x < p + 4 ==> a[x] == b[x]
    ensures LoadAt(a, p) == LoadAt(b, p)
  {
  }

  lemma ReversedWord(a: seq<Byte>, p: nat, t: nat)
    requires p + BLOCK_BYTES <= |a| && t < 16
    ensures Reverse32(LoadAt(a, p + 4 * t)) == WordAt(a[p..p + BLOCK_BYTES], t)
  {
    hide LittleEndian, BigEndian, Reverse32;
    ReverseIsBigEndian(a[p + 4 * t], a[p + 4 * t + 1], a[p + 4 * t + 2], a[p + 4 * t + 3]);
  }

  // The first n words from p on, loaded from a, are those of block m read most significant byte first.
  ghost predicate Reversed(a: seq<Byte>, p: nat, m: seq<Byte>, n: nat)
    requires p + BLOCK_BYTES <= |a| && |m| == BLOCK_BYTES && n <= 16
  {
    forall t {:trigger WordAt(m, t)} :: 0 <= t < n ==> LoadAt(a, p + 4 * t) == WordAt(m, t)
  }

  lemma ReversedAt(a: seq<Byte>, p: nat, m: seq<Byte>, n: nat, t: nat)
    requires p + BLOCK_BYTES <= |a| && |m| == BLOCK_BYTES && t < n <= 16 && Reversed(a, p, m, n)
    ensures LoadAt(a, p + 4 * t) == WordAt(m, t)
  {
  }

  // The words from p on, in place, from little to big endian.
  method ReverseWords(b: array<Byte>, p: nat)
    requires p + BLOCK_BYTES <= b.Length
    modifies b
    ensures forall x :: 0 <= x < b.Length && !(p <= x < p + BLOCK_BYTES) ==> b[x] == old(b[x])
    ensures Reversed(b[..], p, old(b[p..p + BLOCK_BYTES]), 16)
  {
    hide LoadAt, WordAt, Reverse32, StoredBytes;
    ghost var b0 := b[..];
    var i := 0;
    while i < 16
      invariant i <= 16 && |b0| == b.Length
      invariant forall x :: 0 <= x < b.Length && !(p <= x < p + 4 * i) ==> b[x] == b0[x]
      invariant Reversed(b[..], p, b0[p..p + BLOCK_BYTES], i)
    {
      ghost var b1 := b[..];
      SameWord(b1, b0, p + 4 * i);
      ReversedWord(b0, p, i);
      StoreWord(b, p + 4 * i, Reverse32(LoadAt(b[..], p + 4 * i)));
      forall t | 0 <= t < i ensures LoadAt(b[..], p + 4 * t) == WordAt(b0[p..p + BLOCK_BYTES], t) {
        SameWord(b[..], b1, p + 4 * t);
        ReversedAt(b1, p, b0[p..p + BLOCK_BYTES], i, t);
      }
      i := i + 1;
    }
    assert b0[p..p + BLOCK_BYTES] == old(b[p..p + BLOCK_BYTES]);
  }

  // ARRAY_NUM: whole bytes that hold this many bits
  function ArrayNum(bits: nat): nat {
    bits / 8 + if bits % 8 == 0 then 0 else 1
  }

  // Two blocks hold the first active bytes of m, the byte 0x80, zeros, the bit length l, and zeros.
  ghost predicate PaddedInto(p: seq<Byte>, m: seq<Byte>, active: nat, l: nat)
    requires |p| == 2 * BLOCK_BYTES && |m| == BLOCK_BYTES && active < BLOCK_BYTES && l < 0x1_0000_0000_0000_0000
  {
    var end := active + 1 + PaddingZeros(active);
    && end + 8 <= |p|
    && (forall x :: 0 <= x < active ==> p[x] == m[x])
    && p[active] == 0x80
    && (forall x :: active < x < end ==> p[x] == 0)
    && p[end..end + 8] == Bytes64(l)
    && (forall x :: end + 8 <= x < |p| ==> p[x] == 0)
  }

  lemma PaddedIs(p: seq<Byte>, m: seq<Byte>, active: nat, l: nat, c: Ctx)
    requires |p| == 2 * BLOCK_BYTES && |m| == BLOCK_BYTES && active < BLOCK_BYTES && l < 0x1_0000_0000_0000_0000
    requires PaddedInto(p, m, active, l)
    requires c.buffer == m[..active] && c.len < MAX_MESSAGE && l == 8 * c.len
    ensures FinalBlocks(c) <= p
    ensures |FinalBlocks(c)| == if (active * 8 + 1) % 512 < 448 then BLOCK_BYTES else 2 * BLOCK_BYTES
  {
    hide Bytes64;
    var end := active + 1 + PaddingZeros(active);
    assert p[..end + 8] == p[..active] + [p[active]] + p[active + 1..end] + p[end..end + 8];
    assert p[..active] == m[..active];
    assert p[active + 1..end] == Zeros(PaddingZeros(active));
    assert FinalBlocks(c) == p[..end + 8];
  }

  // The number of zero bits as the source computes it
  function ZeroBits(activeL: nat): nat {
    var rest := (activeL + 1) % 512;
    if rest < 448 then 448 - rest else 512 - rest + 448
  }

  lemma PadPositions(activeL: nat)
    requires activeL % 8 == 0 && activeL / 8 < BLOCK_BYTES
    ensures ArrayNum(activeL) == activeL / 8
    ensures ZeroBits(activeL) / 8 == PaddingZeros(activeL / 8)
    ensures activeL / 8 + PaddingZeros(activeL / 8) + 9 <= 2 * BLOCK_BYTES
  {
  }

  // The two reversed 32-bit stores at the end of pad_sha1_message
  method StoreLength(block: array<Byte>, at: nat, l: nat)
    requires at + 8 <= block.Length && l < 0x1_0000_0000_0000_0000
    modifies block
    ensures block[..][at..at + 8] == Bytes64(l)
    ensures forall x :: 0 <= x < block.Length && !(at <= x < at + 8) ==> block[x] == old(block[x])
  {
    hide Reverse32, StoredBytes, WordBytes, LoadAt;
    var hi, lo := (l / 0x1_0000_0000) as Word, (l % 0x1_0000_0000) as Word;
    ReversedBytes(hi);
    ReversedBytes(lo);
    StoreWord(block, at, Reverse32(hi));
    ghost var b := block[..];
    StoreWord(block, at + 4, Reverse32(lo));
    assert block[at..at + 4] == b[at..at + 4];
    assert block[..][at..at + 8] == block[at..at + 4] + block[at + 4..at + 8];
  }

  // pad_sha1_message
  method PadMessage(m: array<Byte>, l: nat, activeL: nat, block: array<Byte>)
    requires m.Length == BLOCK_BYTES && block.Length == 2 * BLOCK_BYTES && m != block
    requires l < 0x1_0000_0000_0000_0000 && activeL % 8 == 0 && activeL / 8 < BLOCK_BYTES
    modifies block
    ensures PaddedInto(block[..], m[..], activeL / 8, l)
  {
    hide Bytes64, PaddingZeros, ArrayNum, ZeroBits;
    PadPositions(activeL);
    var active, k := activeL / 8, ZeroBits(activeL);
    Clear(block, 0, 2 * BLOCK_BYTES);
    forall i | 0 <= i < active {
      block[i] := m[i];
    }
    block[ArrayNum(activeL)] := 0x80;
    Clear(block, ArrayNum(activeL) + 2, k / 8);
    StoreLength(block, active + k / 8 + 1, l);
  }

  // The first n words of a digest, each most significant byte first
  ghost predicate WordsWritten(d: seq<Byte>, w: seq<Word>, n: nat)
    requires |d| == SHA1_LEN && |w| == 5 && n <= 5
  {
    forall x :: 0 <= x < n ==> d[4 * x..4 * x + 4] == WordBytes(w[x])
  }

  lemma WriteNext(d: seq<Byte>, e: seq<Byte>, w: seq<Word>, n: nat)
    requires |d| == |e| == SHA1_LEN && |w| == 5 && n < 5 && WordsWritten(d, w, n)
    requires e[4 * n..4 * n + 4] == StoredBytes(Reverse32(w[n]))
    requires forall x :: 0 <= x < SHA1_LEN && !(4 * n <= x < 4 * n + 4) ==> e[x] == d[x]
    ensures WordsWritten(e, w, n + 1)
  {
    hide WordBytes, Reverse32, StoredBytes;
    ReversedBytes(w[n]);
    forall x | 0 <= x < n ensures e[4 * x..4 * x + 4] == WordBytes(w[x]) {
      assert e[4 * x..4 * x + 4] == d[4 * x..4 * x + 4];
    }
  }

  lemma DigestWritten(d: seq<Byte>, h: Hash)
    requires |d| == SHA1_LEN && WordsWritten(d, [h.a, h.b, h.c, h.d, h.e], 5)
    ensures d == HashBytes(h)
  {
    hide WordBytes;
    var w := [h.a, h.b, h.c, h.d, h.e];
    assert d[0..4] == WordBytes(w[0]) && d[4 * 1..4 * 1 + 4] == WordBytes(w[1]);
    assert d[4 * 2..4 * 2 + 4] == WordBytes(w[2]) && d[4 * 3..4 * 3 + 4] == WordBytes(w[3]);
    assert d[4 * 4..4 * 4 + 4] == WordBytes(w[4]);
    assert d == d[0..4] + d[4..8] + d[8..12] + d[12..16] + d[16..20];
  }

  // The stored words of a digest, one after another
  method CopyWords(h: array<Word>, digest: array<Byte>, ghost w: seq<Word>)
    requires h.Length == |w| == 5 && digest.Length == SHA1_LEN
    requires forall x :: 0 <= x < 5 ==> h[x] == Reverse32(w[x])
    modifies digest
    ensures WordsWritten(digest[..], w, 5)
  {
    hide Reverse32, StoredBytes, WordBytes, LoadAt;
    var i := 0;
    while i < 5
      invariant i <= 5 && WordsWritten(digest[..], w, i)
    {
      ghost var d := digest[..];
      StoreWord(digest, 4 * i, h[i]);
      WriteNext(d, digest[..], w, i);
      i := i + 1;
    }
  }

  class Context {
    const h: array<Word>
    const block: array<Byte>
    var activeLen: nat
    var len: nat

    ghost predicate Valid()
      reads this, h, block
    {
      && h.Length == 5 && block.Length == BLOCK_BYTES && activeLen < BLOCK_BYTES
      && forall i :: activeLen <= i < BLOCK_BYTES ==> block[i] == 0
    }

    function Hashed(): Hash
      reads this, h
      requires h.Length == 5
    {
      Hash(h[0], h[1], h[2], h[3], h[4])
    }

    ghost function Value(): Ctx
      reads this, h, block
      requires Valid()
    {
      Ctx(Hashed(), block[..activeLen], len)
    }

    constructor ()
      ensures Valid() && fresh(h) && fresh(block) && Value() == Init()
    {
      h := new Word[5];
      block := new Byte[BLOCK_BYTES];
      activeLen, len := 0, 0;
      new;
      SHA1_Init();
    }

    method SHA1_Init()
      requires h.Length == 5 && block.Length == BLOCK_BYTES
      modifies this, h, block
      ensures Valid() && Value() == Init()
    {
      h[0] := 0x67452301;
      h[1] := 0xefcdab89;
      h[2] := 0x98badcfe;
      h[3] := 0x10325476;
      h[4] := 0xc3d2e1f0;
      len := 0;
      activeLen := 0;
      Clear(block, 0, BLOCK_BYTES);
    }

    // add_block, on the 64 bytes of b from p on; those bytes are overwritten.
    method AddBlock(b: array<Byte>, p: nat)
      requires h.Length == 5 && p + BLOCK_BYTES <= b.Length
      modifies h, b
      ensures Hashed() == Compress(old(Hashed()), old(b[p..p + BLOCK_BYTES]))
      ensures forall x :: 0 <= x < b.Length && !(p <= x < p + BLOCK_BYTES) ==> b[x] == old(b[x])
    {
      hide Rotl, Logical, Constant, WordAt, Mix, Add, Round, LoadAt, Schedule, Reversed;
      ghost var m, h0 := b[p..p + BLOCK_BYTES], Hashed();
      ReverseWords(b, p);

      var w := new Word[80];
      var t := 0;
      while t < 16
        invariant t <= 16 && forall x :: 0 <= x < t ==> w[x] == Schedule(m, x)
        invariant Reversed(b[..], p, m, 16) && Hashed() == h0
        invariant forall x :: 0 <= x < b.Length && !(p <= x < p + BLOCK_BYTES) ==> b[x] == old(b[x])
      {
        ReversedAt(b[..], p, m, 16, t);
        ScheduleIs(m, t);
        w[t] := LoadAt(b[..], p + 4 * t);
        t := t + 1;
      }
      while t < 80
        invariant 16 <= t <= 80 && forall x :: 0 <= x < t ==> w[x] == Schedule(m, x)
        invariant Hashed() == h0
        invariant forall x :: 0 <= x < b.Length && !(p <= x < p + BLOCK_BYTES) ==> b[x] == old(b[x])
      {
        ScheduleIs(m, t);
        w[t] := Rotl(Mix(w[t - 3], w[t - 8], w[t - 14], w[t - 16]), 1);
        t := t + 1;
      }
      RunRounds(w, m);
    }

    // The last two steps of add_block: the eighty rounds, and the sums.
    method RunRounds(w: array<Word>, ghost m: seq<Byte>)
      requires h.Length == 5 && w.Length == 80 && |m| == BLOCK_BYTES && w != h
      requires forall x :: 0 <= x < 80 ==> w[x] == Schedule(m, x)
      modifies h
      ensures Hashed() == Compress(old(Hashed()), m)
    {
      hide Rotl, Add, Logical, SourceLogical, Constant, Round, Schedule;
      ghost var h0 := Hashed();
      var a, b, c, d, e := h[0], h[1], h[2], h[3], h[4];
      var t := 0;
      while t < 80
        invariant t <= 80 && Hash(a, b, c, d, e) == Rounds(h0, m, t) && Hashed() == h0
      {
        RoundIs(Hash(a, b, c, d, e), t, w[t]);
        var tt := Add(Add(Add(Add(Rotl(a, 5), SourceLogical(t, b, c, d)), e), Constant(t)), w[t]);
        e := d;
        d := c;
        c := Rotl(b, 30);
        b := a;
        a := tt;
        t := t + 1;
      }
      SumIs(h0, m, Hash(a, b, c, d, e));
      assert Hashed() == h0;
      h[0] := Add(a, h[0]);
      h[1] := Add(b, h[1]);
      h[2] := Add(c, h[2]);
      h[3] := Add(d, h[3]);
      h[4] := Add(e, h[4]);
    }

    // The memcpy of SHA1_Update and the two counters.
    method Append(data: seq<Byte>, pos: nat, n: nat)
      requires block.Length == BLOCK_BYTES && pos + n <= |data| && activeLen + n <= BLOCK_BYTES
      modifies this, block
      ensures activeLen == old(activeLen) + n && len == old(len) + n
      ensures block[..activeLen] == old(block[..activeLen]) + data[pos..pos + n]
      ensures forall x :: activeLen <= x < BLOCK_BYTES ==> block[x] == old(block[x])
    {
      forall i | 0 <= i < n {
        block[activeLen + i] := data[pos + i];
      }
      len := len + n;
      activeLen := activeLen + n;
    }

    // A full buffer: compressed, cleared and empty again.
    method AbsorbBlock()
      requires h.Length == 5 && block.Length == BLOCK_BYTES && activeLen == BLOCK_BYTES
      modifies this, h, block
      ensures Valid() && Value() == Ctx(Compress(old(Hashed()), old(block[..activeLen])), [], old(len))
    {
      hide Compress;
      assert block[0..0 + BLOCK_BYTES] == block[..activeLen];
      AddBlock(block, 0);
      Clear(block, 0, BLOCK_BYTES);
      activeLen := 0;
    }

    method SHA1_Update(data: seq<Byte>)
      requires Valid()
      modifies this, h, block
      ensures Valid() && Value() == Update(old(Value()), data)
    {
      hide Compress, Update;
      var pos := 0;
      ghost var c0 := Value();
      assert data[0..] == data;
      UpdateNothing(c0);
      while pos < |data|
        invariant pos <= |data| && Valid() && Update(c0, data) == Update(Value(), data[pos..])
      {
        ghost var c, rest := Value(), data[pos..];
        UpdateStep(c, rest);
        var left := |data| - pos;
        var n := if activeLen + left > BLOCK_BYTES then BLOCK_BYTES - activeLen else left;
        assert rest[..n] == data[pos..pos + n] && rest[n..] == data[pos + n..];
        Append(data, pos, n);
        if BLOCK_BYTES != activeLen {
          return;
        }
        AbsorbBlock();
        pos := pos + n;
      }
      UpdateNothing(Value());
      assert data[pos..] == [];
    }

    // SHA1_Final. The context is spent afterwards: its chaining value is left byte-reversed.
    method SHA1_Final(digest: array<Byte>)
      requires Valid() && len < MAX_MESSAGE && digest.Length == SHA1_LEN && digest != block
      modifies h, digest
      ensures digest[..] == Final(old(Value()))
      ensures activeLen == old(activeLen) && len == old(len) && block[..] == old(block[..])
    {
      hide Compress, Bytes64, WordBytes, Zeros, Blocks, PaddingZeros;
      ghost var c := Value();
      var padded := new Byte[2 * BLOCK_BYTES];
      PadMessage(block, len * 8, activeLen * 8, padded);
      ghost var p := FinalBlocks(c);
      PaddedIs(padded[..], block[..], activeLen, len * 8, c);
      assert padded[0..0 + BLOCK_BYTES] == p[..BLOCK_BYTES];
      AddBlock(padded, 0);
      if (activeLen * 8 + 1) % 512 >= 448 {
        assert padded[BLOCK_BYTES..BLOCK_BYTES + BLOCK_BYTES] == p[BLOCK_BYTES..];
        AddBlock(padded, BLOCK_BYTES);
        TwoBlocks(c.h, p);
      } else {
        assert p[..BLOCK_BYTES] == p;
        OneBlock(c.h, p);
      }
      assert Hashed() == Blocks(c.h, p);
      WriteDigest(digest);
    }

    // The last two loops of SHA1_Final.
    method WriteDigest(digest: array<Byte>)
      requires h.Length == 5 && digest.Length == SHA1_LEN
      modifies h, digest
      ensures digest[..] == HashBytes(old(Hashed()))
    {
      hide Reverse32, HashBytes;
      ghost var h0, w := Hashed(), h[..];
      var i := 0;
      while i < 5
        invariant i <= 5 && forall x :: 0 <= x < 5 ==> h[x] == if x < i then Reverse32(w[x]) else w[x]
      {
        h[i] := Reverse32(h[i]);
        i := i + 1;
      }
      CopyWords(h, digest, w);
      assert w == [h0.a, h0.b, h0.c, h0.d, h0.e];
      DigestWritten(digest[..], h0);
    }
  }

  lemma UpdateNothing(c: Ctx)
    requires |c.buffer| < BLOCK_BYTES
    ensures Update(c, []) == c
  {
  }

  lemma RoundIs(s: Hash, t: nat, w: Word)
    requires t < 80
    ensures Round(s, t, w) ==
            Hash(Add(Add(Add(Add(Rotl(s.a, 5), Logical(t, s.b, s.c, s.d)), s.e), Constant(t)), w),
                 s.a, Rotl(s.b, 30), s.c, s.d)
  {
    hide Rotl, Add, Logical, Constant;
  }

  lemma SumIs(h: Hash, m: seq<Byte>, r: Hash)
    requires |m| == BLOCK_BYTES && r == Rounds(h, m, 80)
    ensures Compress(h, m) == Hash(Add(r.a, h.a), Add(r.b, h.b), Add(r.c, h.c), Add(r.d, h.d), Add(r.e, h.e))
  {
    hide Rounds, Add;
  }

  lemma ScheduleIs(m: seq<Byte>, t: nat)
    requires |m| == BLOCK_BYTES && t < 80
    ensures t < 16 ==> Schedule(m, t) == WordAt(m, t)
    ensures 16 <= t ==>
              Schedule(m, t) ==
              Rotl(Mix(Schedule(m, t - 3), Schedule(m, t - 8), Schedule(m, t - 14), Schedule(m, t - 16)), 1)
  {
    hide Rotl, Mix, WordAt;
  }

  // memset(b + p, 0, n)
  method Clear(b: array<Byte>, p: nat, n: nat)
    requires p + n <= b.Length
    modifies b
    ensures forall x :: 0 <= x < b.Length ==> b[x] == if p <= x < p + n then 0 else old(b[x])
  {
    forall x | p <= x < p + n {
      b[x] := 0;
    }
  }

  // SHA1_Init, SHA1_Update, SHA1_Final.
  method DigestOf(m: seq<Byte>, output: array<Byte>)
    requires |m| < MAX_MESSAGE && output.Length == SHA1_LEN
    modifies output
    ensures output[..] == Sha1Spec.Sha1(m)
  {
    hide Tracks, Update, Final, Sha1Spec.Sha1;
    var ctx := new Context();
    InitTracks();
    UpdateTracks(ctx.Value(), [], m);
    ctx.SHA1_Update(m);
    assert [] + m == m;
    BufferIsShort(ctx.Value(), m);
    FinalIsSha1(ctx.Value(), m);
    ctx.SHA1_Final(output);
  }

  // The same with two updates.
  method DigestOfTwo(a: seq<Byte>, b: seq<Byte>, output: array<Byte>)
    requires |a| + |b| < MAX_MESSAGE && output.Length == SHA1_LEN
    modifies output
    ensures output[..] == Sha1Spec.Sha1(a + b)
  {
    hide Tracks, Update, Final, Sha1Spec.Sha1;
    var ctx := new Context();
    InitTracks();
    UpdateTracks(ctx.Value(), [], a);
    ctx.SHA1_Update(a);
    assert [] + a == a;
    UpdateTracks(ctx.Value(), a, b);
    ctx.SHA1_Update(b);
    BufferIsShort(ctx.Value(), a + b);
    FinalIsSha1(ctx.Value(), a + b);
    ctx.SHA1_Final(output);
  }

  lemma PadsAre(key: seq<Byte>, short: seq<Byte>, x: Byte, pad: seq<Byte>)
    requires |key| < MAX_MESSAGE && short == if |key| > BLOCK_BYTES then Sha1Spec.Sha1(key) else key
    requires |pad| == BLOCK_BYTES && |short| <= BLOCK_BYTES
    requires forall i :: 0 <= i < BLOCK_BYTES ==> pad[i] == if i < |short| then x ^ short[i] else x
    ensures pad == XorAll(HmacKey(key), x)
  {
    hide Sha1Spec.Sha1;
    forall i | 0 <= i < BLOCK_BYTES ensures pad[i] == XorAll(HmacKey(key), x)[i] {
      var k := HmacKey(key)[i];
      assert k == if i < |short| then short[i] else 0;
      XorFacts(x, k);
    }
  }

  lemma XorFacts(x: Byte, k: Byte)
    ensures x ^ k == k ^ x && 0 ^ x == x
  {
  }

  method SHA1_HMAC(message: seq<Byte>, key: seq<Byte>, output: array<Byte>)
    requires |key| < MAX_MESSAGE && |message| + BLOCK_BYTES < MAX_MESSAGE && output.Length == SHA1_LEN
    modifies output
    ensures output[..] == Hmac(key, message)
  {
    hide Sha1Spec.Sha1, XorAll, HmacKey;
    var k := key;
    if |key| > BLOCK_BYTES {
      var hashedKey := new Byte[SHA1_LEN];
      DigestOf(key, hashedKey);
      k := hashedKey[..];
    }
    var iPad := new Byte[BLOCK_BYTES];
    var oPad := new Byte[BLOCK_BYTES];
    forall i | 0 <= i < BLOCK_BYTES { iPad[i] := 0x36; }
    forall i | 0 <= i < BLOCK_BYTES { oPad[i] := 0x5C; }
    var i := 0;
    while i < |k|
      invariant i <= |k| <= BLOCK_BYTES
      invariant forall x :: 0 <= x < BLOCK_BYTES ==> iPad[x] == if x < i then 0x36 ^ k[x] else 0x36
      invariant forall x :: 0 <= x < BLOCK_BYTES ==> oPad[x] == if x < i then 0x5C ^ k[x] else 0x5C
    {
      iPad[i] := iPad[i] ^ k[i];
      oPad[i] := oPad[i] ^ k[i];
      i := i + 1;
    }
    PadsAre(key, k, 0x36, iPad[..]);
    PadsAre(key, k, 0x5C, oPad[..]);
    DigestOfTwo(iPad[..], message, output);
    DigestOfTwo(oPad[..], output[..], output);
  }
}
