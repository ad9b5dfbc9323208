/** The buffered form of SHA-1 as a function on its context: what each call does to it, and why the
    digest does not depend on how the message was cut. */
module Sha1Stream {
  import opened Words
  import opened Sha1Spec

  // The chaining value, the bytes waiting for a full block, and the number of bytes so far.
  datatype Ctx = Ctx(h: Hash, buffer: seq<Byte>, len: nat)

  function Init(): Ctx {
    Ctx(IV, [], 0)
  }

  // SHA1_Update
  function Update(c: Ctx, data: seq<Byte>): (r: Ctx)
    requires |c.buffer| < BLOCK_BYTES
    ensures |r.buffer| < BLOCK_BYTES && r.len == c.len + |data|
    decreases |data|
  {
    if data == [] then c
    else
      var n := if |c.buffer| + |data| > BLOCK_BYTES then BLOCK_BYTES - |c.buffer| else |data|;
      var b := c.buffer + data[..n];
      if |b| < BLOCK_BYTES then Ctx(c.h, b, c.len + n)
      else Update(Ctx(Compress(c.h, b), [], c.len + n), data[n..])
  }

  // pad_sha1_message on the buffered bytes: one block, or two if the length no longer fits the first.
  function FinalBlocks(c: Ctx): (p: seq<Byte>)
    requires |c.buffer| < BLOCK_BYTES && c.len < MAX_MESSAGE
    ensures |p| == if |c.buffer| < BLOCK_BYTES - 8 then BLOCK_BYTES else 2 * BLOCK_BYTES
  {
    c.buffer + [0x80] + Zeros(PaddingZeros(|c.buffer|)) + Bytes64(8 * c.len)
  }

  // SHA1_Final
  function Final(c: Ctx): (d: seq<Byte>)
    requires |c.buffer| < BLOCK_BYTES && c.len < MAX_MESSAGE
  {
    HashBytes(Blocks(c.h, FinalBlocks(c)))
  }

  // The context after message m, however it got there.
  ghost predicate Tracks(c: Ctx, m: seq<Byte>) {
    var n := |m| / BLOCK_BYTES * BLOCK_BYTES;
    c.len == |m| && c.buffer == m[n..] && c.h == Blocks(IV, m[..n])
  }

  // ------------------------------------------------------------------------------------------
  // Blocks
  // ------------------------------------------------------------------------------------------

  lemma {:induction false} BlocksConcat(h: Hash, a: seq<Byte>, b: seq<Byte>)
    requires |a| % BLOCK_BYTES == 0 && |b| % BLOCK_BYTES == 0
    ensures Blocks(h, a + b) == Blocks(Blocks(h, a), b)
    decreases |a|
  {
    if a == [] {
      assert a + b == b;
    } else {
      BlocksConcat(Compress(h, a[..BLOCK_BYTES]), a[BLOCK_BYTES..], b);
      assert (a + b)[..BLOCK_BYTES] == a[..BLOCK_BYTES];
      assert (a + b)[BLOCK_BYTES..] == a[BLOCK_BYTES..] + b;
    }
  }

  lemma OneBlock(h: Hash, b: seq<Byte>)
    requires |b| == BLOCK_BYTES
    ensures Blocks(h, b) == Compress(h, b)
  {
    assert b[..BLOCK_BYTES] == b && b[BLOCK_BYTES..] == [];
  }

  lemma TwoBlocks(h: Hash, b: seq<Byte>)
    requires |b| == 2 * BLOCK_BYTES
    ensures Blocks(h, b) == Compress(Compress(h, b[..BLOCK_BYTES]), b[BLOCK_BYTES..])
  {
    OneBlock(Compress(h, b[..BLOCK_BYTES]), b[BLOCK_BYTES..]);
  }

  // ------------------------------------------------------------------------------------------
  // Updating
  // ------------------------------------------------------------------------------------------

  lemma UpdateStep(c: Ctx, d: seq<Byte>)
    requires |c.buffer| < BLOCK_BYTES && d != []
    ensures var n := if |c.buffer| + |d| > BLOCK_BYTES then BLOCK_BYTES - |c.buffer| else |d|;
            var b := c.buffer + d[..n];
            if |c.buffer| + n != BLOCK_BYTES then d[..n] == d && Update(c, d) == Ctx(c.h, b, c.len + n)
            else |b| == BLOCK_BYTES && Update(c, d) == Update(Ctx(Compress(c.h, b), [], c.len + n), d[n..])
  {
  }

  lemma InitTracks()
    ensures Tracks(Init(), [])
  {
  }

  // A full buffer is a block of the message.
  lemma BlockTracks(c: Ctx, m: seq<Byte>, d: seq<Byte>)
    requires Tracks(c, m) && |c.buffer| + |d| == BLOCK_BYTES
    ensures Tracks(Ctx(Compress(c.h, c.buffer + d), [], c.len + |d|), m + d)
  {
    var n := |m| / BLOCK_BYTES * BLOCK_BYTES;
    assert |m| - n == |c.buffer| && |m + d| == n + BLOCK_BYTES;
    WholeBlocks(n);
    assert (m + d)[..n + BLOCK_BYTES] == m[..n] + (c.buffer + d);
    BlocksConcat(IV, m[..n], c.buffer + d);
    OneBlock(c.h, c.buffer + d);
  }

  lemma WholeBlocks(n: nat)
    requires n % BLOCK_BYTES == 0
    ensures (n + BLOCK_BYTES) / BLOCK_BYTES * BLOCK_BYTES == n + BLOCK_BYTES
  {
  }

  lemma PartTracks(c: Ctx, m: seq<Byte>, d: seq<Byte>)
    requires Tracks(c, m) && |c.buffer| + |d| < BLOCK_BYTES
    ensures Tracks(Ctx(c.h, c.buffer + d, c.len + |d|), m + d)
  {
    var n := |m| / BLOCK_BYTES * BLOCK_BYTES;
    SameBlocks(|m|, |d|);
    assert (m + d)[..n] == m[..n] && (m + d)[n..] == m[n..] + d;
  }

  lemma SameBlocks(m: nat, d: nat)
    requires m % BLOCK_BYTES + d < BLOCK_BYTES
    ensures (m + d) / BLOCK_BYTES == m / BLOCK_BYTES
  {
  }

  lemma {:induction false} UpdateTracks(c: Ctx, m: seq<Byte>, data: seq<Byte>)
    requires Tracks(c, m)
    ensures |c.buffer| < BLOCK_BYTES && Tracks(Update(c, data), m + data)
    decreases |data|
  {
    hide Tracks, Compress;
    BufferIsShort(c, m);
    if data == [] {
      assert m + data == m;
    } else {
      var n := if |c.buffer| + |data| > BLOCK_BYTES then BLOCK_BYTES - |c.buffer| else |data|;
      assert data == data[..n] + data[n..] && m + data == (m + data[..n]) + data[n..];
      if |c.buffer| + n < BLOCK_BYTES {
        PartTracks(c, m, data[..n]);
        assert data[n..] == [] && m + data == m + data[..n];
      } else {
        BlockTracks(c, m, data[..n]);
        UpdateTracks(Ctx(Compress(c.h, c.buffer + data[..n]), [], c.len + n), m + data[..n], data[n..]);
      }
    }
  }

  lemma BufferIsShort(c: Ctx, m: seq<Byte>)
    requires Tracks(c, m)
    ensures |c.buffer| == |m| % BLOCK_BYTES < BLOCK_BYTES && c.len == |m|
  {
  }

  // ------------------------------------------------------------------------------------------
  // Finishing
  // ------------------------------------------------------------------------------------------

  lemma SamePadding(l: nat)
    ensures PaddingZeros(l % BLOCK_BYTES) == PaddingZeros(l)
  {
  }

  lemma FinalIsSha1(c: Ctx, m: seq<Byte>)
    requires Tracks(c, m) && |m| < MAX_MESSAGE
    ensures |c.buffer| < BLOCK_BYTES && c.len < MAX_MESSAGE && Final(c) == Sha1(m)
  {
    hide Bytes64, PaddingZeros;
    BufferIsShort(c, m);
    var n := |m| / BLOCK_BYTES * BLOCK_BYTES;
    SamePadding(|m|);
    PaddingIsSmallest(|m|);
    var p := FinalBlocks(c);
    assert m == m[..n] + m[n..];
    assert Padded(m) == m[..n] + p;
    BlocksConcat(IV, m[..n], p);
  }

  // ------------------------------------------------------------------------------------------
  // Every way of cutting a message
  // ------------------------------------------------------------------------------------------

  function Concat(pieces: seq<seq<Byte>>): seq<Byte> {
    if pieces == [] then [] else Concat(pieces[..|pieces| - 1]) + pieces[|pieces| - 1]
  }

  function UpdateAll(pieces: seq<seq<Byte>>): (c: Ctx)
    ensures |c.buffer| < BLOCK_BYTES
  {
    if pieces == [] then Init() else Update(UpdateAll(pieces[..|pieces| - 1]), pieces[|pieces| - 1])
  }

  lemma {:induction false} UpdateAllTracks(pieces: seq<seq<Byte>>)
    ensures Tracks(UpdateAll(pieces), Concat(pieces))
    decreases |pieces|
  {
    if pieces == [] {
      InitTracks();
    } else {
      UpdateAllTracks(pieces[..|pieces| - 1]);
      UpdateTracks(UpdateAll(pieces[..|pieces| - 1]), Concat(pieces[..|pieces| - 1]), pieces[|pieces| - 1]);
    }
  }

  // Init, any sequence of Updates, Final: the digest of the concatenation.
  lemma {:induction false} StreamingIsSha1(pieces: seq<seq<Byte>>)
    requires |Concat(pieces)| < MAX_MESSAGE
    ensures UpdateAll(pieces).len < MAX_MESSAGE && Final(UpdateAll(pieces)) == Sha1(Concat(pieces))
  {
    UpdateAllTracks(pieces);
    FinalIsSha1(UpdateAll(pieces), Concat(pieces));
  }
}
