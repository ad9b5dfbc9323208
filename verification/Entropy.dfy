/** The entropy pool beside the generator: a SHA-1 context, the size of what it was given, and a state of 64
    bits that takes bytes quickly. */
module Entropy {
  import opened Words
  import opened CsprngModel
  import G = Csprng
  import H = Sha1
  import T = Sha1Stream
  import S = Sha1Spec
  import M = EntropyModel

  class Pool {
    const generator: G.Generator
    const hashPool: H.Context
    var size: nat
    var fast: bv64
    ghost var message: seq<Byte>   // what has gone into the hash pool since it was last started

    ghost predicate Valid()
      reads this, generator, hashPool, hashPool.h, hashPool.block
    {
      && generator.Valid() && hashPool.Valid() && generator.block != hashPool.h
      && T.Tracks(hashPool.Value(), message) && size < M.U32
    }

    ghost function Value(): M.Entropy
      reads this, generator, generator.block
      requires generator.Valid()
    {
      M.Entropy(generator.block[..], message, size, fast)
    }

    // csprng_init, and what is zero before it
    constructor ()
      ensures Valid() && fresh(generator) && fresh(generator.block)
      ensures fresh(hashPool) && fresh(hashPool.h) && fresh(hashPool.block)
      ensures Value() == M.START.now && generator.events == []
    {
      generator := new G.Generator();
      hashPool := new H.Context();
      size, fast, message := 0, 0, [];
      new;
      T.InitTracks();
    }

    // SHA1_Update on the pool
    method Hash(data: seq<Byte>)
      requires Valid()
      modifies this`message, hashPool, hashPool.h, hashPool.block
      ensures Valid() && message == old(message) + data
    {
      hide T.Tracks, T.Update;
      T.UpdateTracks(hashPool.Value(), message, data);
      hashPool.SHA1_Update(data);
      message := message + data;
    }

    // add_hash_pool.  Its steps on the generator and those on the pool do not meet: here the pool is finished
    // and started again before the generator makes the key.
    method AddHashPool()
      requires Valid() && |message| < S.MAX_MESSAGE
      modifies this`message, generator`events, generator.block, hashPool, hashPool.h, hashPool.block
      ensures Valid() && Value() == M.Stirred(old(Value())).0
      ensures generator.events == old(generator.events) + M.Stirred(old(Value())).1
    {
      hide T.Tracks, T.Final, S.Sha1, CsprngModel.AddHashPool;
      var digest := new Byte[HASH_LEN];
      T.FinalIsSha1(hashPool.Value(), message);
      hashPool.SHA1_Final(digest);
      hashPool.SHA1_Init();
      T.InitTracks();
      message := [];
      Hash(digest[..]);
      var fed := generator.AddHashPool(digest[..]);
      Hash(fed);
      assert [] + digest[..] == digest[..];
    }

    // xorshift64
    method XorShift64()
      modifies this`fast
      ensures fast == M.XorShift(old(fast))
    {
      hide M.First, M.Second, M.Third;
      fast := M.First(fast);
      fast := M.Second(fast);
      fast := M.Third(fast);
    }

    // csprng_add_entropy
    method AddEntropy(buffer: seq<Byte>)
      requires Valid() && |message| + 8 + |buffer| < S.MAX_MESSAGE
      modifies this, generator`events, generator.block, hashPool, hashPool.h, hashPool.block
      ensures Valid() && Value() == M.Added(old(Value()), buffer).0
      ensures generator.events == old(generator.events) + M.Added(old(Value()), buffer).1
    {
      hide T.Tracks, M.XorShift, M.FastBytes, S.Sha1, CsprngModel.AddHashPool;
      ghost var m, x, before := message, fast, generator.events;
      Hash(M.FastBytes(fast));
      XorShift64();
      Hash(buffer);
      assert message == m + (M.FastBytes(x) + buffer);
      size := (size + |buffer|) % M.U32;
      assert before + [] == before;
      if size >= 2 * HASH_LEN {
        AddHashPool();
      }
    }

    // csprng_add_entropy_fast
    method AddEntropyFast(buffer: seq<Byte>)
      modifies this`fast
      ensures fast == M.Mixed(old(fast), buffer, 0)
    {
      hide M.XorShift, M.Xor, M.Placed;
      var i := 0;
      while i < |buffer|
        invariant i <= |buffer| && M.Mixed(fast, buffer, i) == M.Mixed(old(fast), buffer, 0)
      {
        fast := M.Xor(fast, M.Placed(buffer[i], i));
        if i % 8 == 0 {
          XorShift64();
        }
        i := i + 1;
      }
      XorShift64();
    }
  }
}
