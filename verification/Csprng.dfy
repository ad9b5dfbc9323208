/** The kernel's random generator: one ChaCha state of sixteen words that every request updates in place. */
module Csprng {
  import opened Words
  import opened Prelude
  import opened ChaCha
  import opened CsprngModel

  // out, events and state of r after bytes and events that came before
  function After(out: seq<Byte>, events: seq<Event>, r: Outcome): Outcome {
    Outcome(r.state, out + r.out, events + r.events)
  }

  lemma AfterNothing(r: Outcome)
    ensures After([], [], r) == r
  {
    assert [] + r.out == r.out && [] + r.events == r.events;
  }

  lemma AfterStep(out: seq<Byte>, events: seq<Event>, s: State, len: nat)
    requires len > 0
    ensures var n := Min(BLOCK_BYTES, len);
            var ready := if s[COUNT] == TURN then MixKey(Bump(s)) else Outcome(s, [], []);
            After(out, events, Random(s, len)) ==
            After(out + KeyBlock(ready.state)[..n], events + ready.events + [Used(ready.state)],
                  Random(Bump(ready.state), len - n))
  {
    hide Random, MixKey, KeyBlock, Succ;
    RandomStep(s, len);
    var n := Min(BLOCK_BYTES, len);
    var ready := if s[COUNT] == TURN then MixKey(Bump(s)) else Outcome(s, [], []);
    var rest := Random(Bump(ready.state), len - n);
    assert out + (KeyBlock(ready.state)[..n] + rest.out) == (out + KeyBlock(ready.state)[..n]) + rest.out;
    assert events + (ready.events + [Used(ready.state)] + rest.events)
        == (events + ready.events + [Used(ready.state)]) + rest.events;
  }

  lemma FoldedOneMore(key: seq<Byte>, hash: seq<Byte>, i: nat)
    requires |key| == KEY_BYTES && i < |hash|
    ensures var k := Folded(key, hash[..i]);
            Folded(key, hash[..i + 1]) == k[i % 8 * 4 := XorByte(k[i % 8 * 4], hash[i])]
  {
    hide XorByte;
    assert hash[..i + 1][..i] == hash[..i];
  }

  class Generator {
    const block: array<Word>
    ghost var events: seq<Event>   // everything that has happened to the block

    ghost predicate Valid()
      reads this
    {
      block.Length == 16
    }

    constructor ()
      ensures Valid() && fresh(block) && block[..] == BOOT && events == []
    {
      block := new Word[16](i requires 0 <= i < 16 => BOOT[i]);
      events := [];
      new;
      assert block[..] == BOOT;
    }

    // internal_chacha_block[COUNT]++
    method BumpCount()
      requires Valid()
      modifies block
      ensures block[..] == Bump(old(block[..]))
    {
      block[COUNT] := Succ(block[COUNT]);
    }

    // memcpy of b over the words from p on
    method WriteWords(p: nat, b: seq<Byte>)
      requires Valid() && |b| % 4 == 0 && p + |b| / 4 <= 16
      modifies this`events, block
      ensures block[..] == Written(old(block[..]), p, b) && events == old(events) + [Wrote(p, b)]
    {
      hide LoadAt;
      events := events + [Wrote(p, b)];
      var n := |b| / 4;
      forall i | p <= i < p + n {
        block[i] := LoadAt(b, 4 * (i - p));
      }
      assert block[..] == Written(old(block[..]), p, b);
    }

    // chacha_block into bytes, and the step of the counter
    method MakeBlock() returns (randData: seq<Byte>)
      requires Valid()
      modifies this`events, block
      ensures randData == KeyBlock(old(block[..])) && block[..] == Bump(old(block[..]))
      ensures events == old(events) + [Used(old(block[..]))]
    {
      hide Block, StateBytes, Bump;
      var words := new Word[16];
      ChaChaBlock(words, block);
      events := events + [Used(block[..])];
      randData := StateBytes(words[..]);
      BumpCount();
    }

    method MixChacha()
      requires Valid()
      modifies this`events, block
      ensures block[..] == MixKey(old(block[..])).state && block[COUNT] == 0
      ensures events == old(events) + MixKey(old(block[..])).events
      decreases Level(block[..], BLOCK_BYTES), BLOCK_BYTES, 1
    {
      hide Random, MixKey, Written, Level;
      ghost var s := block[..];
      var randData := new Byte[BLOCK_BYTES];
      MixStep(s);
      GetRandom(randData);
      WriteWords(KEY, randData[..KEY_BYTES]);
      WriteWords(NONCE, randData[KEY_BYTES..KEY_BYTES + NONCE_BYTES]);
      block[COUNT] := 0;
      assert randData[..][..KEY_BYTES] == randData[..KEY_BYTES];
      assert randData[..][KEY_BYTES..KEY_BYTES + NONCE_BYTES] == randData[KEY_BYTES..KEY_BYTES + NONCE_BYTES];
    }

    method GetRandom(buffer: array<Byte>)
      requires Valid()
      modifies this`events, block, buffer
      ensures block[..] == Random(old(block[..]), buffer.Length).state
      ensures buffer[..] == Random(old(block[..]), buffer.Length).out
      ensures events == old(events) + Random(old(block[..]), buffer.Length).events
      decreases Level(block[..], buffer.Length), buffer.Length, 0
    {
      hide Random, MixKey, KeyBlock, Bump, After;
      ghost var s, before := block[..], events;
      ghost var done: seq<Event> := [];
      var at := 0;
      AfterNothing(Random(s, buffer.Length));
      while at < buffer.Length
        invariant at <= buffer.Length && events == before + done
        invariant Random(s, buffer.Length) == After(buffer[..at], done, Random(block[..], buffer.Length - at))
        invariant Level(s, buffer.Length) == 0 ==> at == buffer.Length || (at == 0 && block[..] == s)
      {
        ghost var turn, front := block[..], buffer[..at];
        var len := buffer.Length - at;
        LevelFalls(turn, len);
        AfterStep(front, done, turn, len);
        if COUNT_MAX - 1 == block[COUNT] {
          BumpCount();
          MixChacha();
        }
        ghost var ready := if turn[COUNT] == TURN then MixKey(Bump(turn)) else Outcome(turn, [], []);
        assert block[..] == ready.state;
        done := done + ready.events + [Used(ready.state)];
        var readLen := if BLOCK_BYTES < len then BLOCK_BYTES else len;
        var randData := MakeBlock();
        forall i | 0 <= i < readLen {
          buffer[at + i] := randData[i];
        }
        assert buffer[..at + readLen] == front + randData[..readLen];
        assert readLen == Min(BLOCK_BYTES, len);
        assert block[..] == Bump(ready.state);
        at := at + readLen;
      }
      assert buffer[..at] == buffer[..];
      Finished(s, buffer.Length, buffer[..], done, block[..]);
    }

    // The steps of add_hash_pool on the generator, given the digest of the pool; fed goes back into the pool.
    method AddHashPool(hash: seq<Byte>) returns (fed: seq<Byte>)
      requires Valid() && |hash| == HASH_LEN
      modifies this`events, block
      ensures var r := CsprngModel.AddHashPool(old(block[..]), hash);
              block[..] == r.state && fed == r.out && events == old(events) + r.events
    {
      hide Random, MixKey, Written, Folded;
      ghost var s, before := block[..], events;
      var key := new Byte[KEY_BYTES];
      GetRandom(key);
      ghost var made := Random(s, KEY_BYTES);
      FoldedNothing(key[..]);
      var i := 0;
      while i < HASH_LEN
        invariant i <= HASH_LEN && key[..] == Folded(made.out, hash[..i])
        invariant block[..] == made.state && events == before + made.events
      {
        FoldedOneMore(made.out, hash, i);
        key[i % 8 * 4] := XorByte(key[i % 8 * 4], hash[i]);
        i := i + 1;
      }
      assert hash[..HASH_LEN] == hash;
      var random := new Byte[BLOCK_BYTES];
      GetRandom(random);
      WriteWords(KEY, key[..]);
      MixChacha();
      fed := random[..];
      ghost var r := CsprngModel.AddHashPool(s, hash);
      assert events == before + r.events;
    }
  }

  lemma FoldedNothing(key: seq<Byte>)
    requires |key| == KEY_BYTES
    ensures Folded(key, []) == key
  {
  }

  lemma Finished(s: State, len: nat, out: seq<Byte>, done: seq<Event>, last: State)
    requires |out| == len && Random(s, len) == After(out, done, Random(last, 0))
    ensures Random(s, len) == Outcome(last, out, done)
  {
    hide Random;
    RandomNothing(last);
    assert out + [] == out && done + [] == done;
  }
}
