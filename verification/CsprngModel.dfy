/** The random generator as functions on its ChaCha state: what a request returns, how the generator changes
    its own key before the counter runs out, and which inputs the block function ever sees. */
module CsprngModel {
  import opened Words
  import opened Prelude
  import opened ChaCha

  const KEY: nat := 4
  const COUNT: nat := 12
  const NONCE: nat := 13
  const KEY_BYTES: nat := 32
  const NONCE_BYTES: nat := 8
  const BLOCK_BYTES: nat := 64
  const HASH_LEN: nat := 20

  const COUNT_MAX: Word := 0xFFFF_FFFF
  const TURN: Word := 0xFFFF_FFFE   // COUNT_MAX - 1

  function Succ(c: Word): Word {
    c + 1
  }

  function Bump(s: State): State {
    s[COUNT := Succ(s[COUNT])]
  }

  // ------------------------------------------------------------------------------------------
  // Words and bytes, least significant byte first
  // ------------------------------------------------------------------------------------------

  function StateBytes(s: seq<Word>): (b: seq<Byte>)
    ensures |b| == 4 * |s|
  {
    if s == [] then [] else StoredBytes(s[0]) + StateBytes(s[1..])
  }

  // memcpy of n words' bytes over the state, from word p on
  function Written(s: State, p: nat, b: seq<Byte>): (t: State)
    requires |b| % 4 == 0 && p + |b| / 4 <= 16
    ensures forall i :: 0 <= i < 16 && !(p <= i < p + |b| / 4) ==> t[i] == s[i]
  {
    var n := |b| / 4;
    seq(16, i requires 0 <= i < 16 => if p <= i < p + n then LoadAt(b, 4 * (i - p)) else s[i])
  }

  function KeyBlock(s: State): (b: seq<Byte>)
    ensures |b| == BLOCK_BYTES
  {
    StateBytes(Block(s))
  }

  // ------------------------------------------------------------------------------------------
  // Requests
  // ------------------------------------------------------------------------------------------

  // What happens to the state, in order: an input of the block function, or bytes copied over its words from p on.
  datatype Event = Used(input: State) | Wrote(p: nat, bytes: seq<Byte>)

  datatype Outcome = Outcome(state: State, out: seq<Byte>, events: seq<Event>)

  // A request made with the counter at its last value, for one block at most, meets no turn.
  function Level(s: State, len: nat): nat {
    if len == 0 || (s[COUNT] == COUNT_MAX && len <= BLOCK_BYTES) then 0 else 1
  }

  // csprng_get_random
  function Random(s: State, len: nat): (r: Outcome)
    ensures |r.out| == len
    decreases Level(s, len), len, 0
  {
    if len == 0 then Outcome(s, [], [])
    else
      LevelFalls(s, len);
      var ready := if s[COUNT] == TURN then MixKey(Bump(s)) else Outcome(s, [], []);
      var n := Min(BLOCK_BYTES, len);
      var rest := Random(Bump(ready.state), len - n);
      Outcome(rest.state, KeyBlock(ready.state)[..n] + rest.out, ready.events + [Used(ready.state)] + rest.events)
  }

  // mix_chacha
  function MixKey(s: State): (r: Outcome)
    ensures r.state[COUNT] == 0
    decreases Level(s, BLOCK_BYTES), BLOCK_BYTES, 1
  {
    var r := Random(s, BLOCK_BYTES);
    Outcome(Remixed(r.state, r.out), [], r.events + Copies(r.out))
  }

  // The two copies of mix_chacha
  function Copies(b: seq<Byte>): (events: seq<Event>)
    requires |b| == BLOCK_BYTES
  {
    [Wrote(KEY, b[..KEY_BYTES]), Wrote(NONCE, b[KEY_BYTES..KEY_BYTES + NONCE_BYTES])]
  }

  function Remixed(s: State, b: seq<Byte>): (t: State)
    requires |b| == BLOCK_BYTES
    ensures t[COUNT] == 0
  {
    Written(Written(s, KEY, b[..KEY_BYTES]), NONCE, b[KEY_BYTES..KEY_BYTES + NONCE_BYTES])[COUNT := 0]
  }

  lemma LevelFalls(s: State, len: nat)
    requires len > 0
    ensures s[COUNT] == TURN ==> Level(s, len) == 1 && Level(Bump(s), BLOCK_BYTES) == 0
    ensures Level(s, len) == 0 ==> len == Min(BLOCK_BYTES, len)
  {
    SuccOfTurn(s[COUNT]);
  }

  // add_hash_pool, with the digest of the pool as an argument: the new key is folded from random bytes and
  // the digest, and a block of random bytes goes back into the pool.
  function AddHashPool(s: State, hash: seq<Byte>): (r: Outcome)
    requires |hash| == HASH_LEN
    ensures |r.out| == BLOCK_BYTES
  {
    var key := Random(s, KEY_BYTES);
    var fed := Random(key.state, BLOCK_BYTES);
    var folded := Folded(key.out, hash);
    var mixed := MixKey(Written(fed.state, KEY, folded));
    Outcome(mixed.state, fed.out, key.events + fed.events + [Wrote(KEY, folded)] + mixed.events)
  }

  // The source folds byte i of the digest into byte i % 8 * 4 of the key.
  function Folded(key: seq<Byte>, hash: seq<Byte>): (r: seq<Byte>)
    requires |key| == KEY_BYTES
    ensures |r| == KEY_BYTES
  {
    if hash == [] then key
    else
      var k := Folded(key, hash[..|hash| - 1]);
      var at := (|hash| - 1) % 8 * 4;
      k[at := XorByte(k[at], hash[|hash| - 1])]
  }

  function XorByte(x: Byte, y: Byte): Byte {
    x ^ y
  }

  // b with the byte at position p, if that is among the first n.
  function FoldOne(b: Byte, hash: seq<Byte>, p: nat, n: nat): Byte
    requires n <= |hash|
  {
    if p < n then XorByte(b, hash[p]) else b
  }

  lemma FoldPlace(i: nat, j: nat)
    requires i < HASH_LEN && j < KEY_BYTES
    ensures i % 8 * 4 == j <==> j % 4 == 0 && (i == j / 4 || i == j / 4 + 8 || i == j / 4 + 16)
  {
  }

  lemma {:induction false} FoldedSteps(key: seq<Byte>, hash: seq<Byte>, j: nat, n: nat)
    requires |key| == KEY_BYTES && n <= |hash| == HASH_LEN && j < KEY_BYTES
    ensures Folded(key, hash[..n])[j] ==
            if j % 4 != 0 then key[j]
            else FoldOne(FoldOne(FoldOne(key[j], hash, j / 4, n), hash, j / 4 + 8, n), hash, j / 4 + 16, n)
    decreases n
  {
    hide XorByte;
    assert hash[..0] == [];
    if n > 0 {
      FoldedSteps(key, hash, j, n - 1);
      FoldPlace(n - 1, j);
      assert hash[..n][..n - 1] == hash[..n - 1] && hash[..n][n - 1] == hash[n - 1];
    }
  }

  function Together(k: Byte, x: Byte, y: Byte, z: Byte): Byte {
    k ^ x ^ y ^ z
  }

  lemma Xors(k: Byte, x: Byte, y: Byte, z: Byte)
    ensures XorByte(XorByte(XorByte(k, x), y), z) == Together(k, x, y, z)
    ensures XorByte(XorByte(k, x), y) == Together(k, x, y, 0)
  {
  }

  // Three quarters of the key take nothing from the digest, and every fourth byte takes all there is for it.
  lemma FoldedReaches(key: seq<Byte>, hash: seq<Byte>, j: nat)
    requires |key| == 32 && |hash| == 20 && j < 32
    ensures Folded(key, hash)[j] ==
            if j % 4 != 0 then key[j]
            else Together(key[j], hash[j / 4], hash[j / 4 + 8], if j < 16 then hash[j / 4 + 16] else 0)
  {
    hide XorByte, Folded, Together;
    FoldedSteps(key, hash, j, 20);
    assert hash[..20] == hash;
    if j % 4 == 0 { Xors(key[j], hash[j / 4], hash[j / 4 + 8], if j < 16 then hash[j / 4 + 16] else 0); }
  }

  // ------------------------------------------------------------------------------------------
  // No counter value twice under one key and nonce
  // ------------------------------------------------------------------------------------------

  // The counter values used since the last change of key or nonce.
  function Epoch(events: seq<Event>): set<Word> {
    if events == [] then {}
    else match events[|events| - 1] {
      case Wrote(_, _) => {}
      case Used(x) => Epoch(events[..|events| - 1]) + {x[COUNT]}
    }
  }

  predicate NoReuse(events: seq<Event>) {
    events == [] ||
    (var front, last := events[..|events| - 1], events[|events| - 1];
     NoReuse(front) && (last.Used? ==> last.input[COUNT] !in Epoch(front)))
  }

  predicate Below(c: Word, d: Word) {
    c < d
  }

  // Every counter value used under the present key and nonce is below the present one.
  ghost predicate Fresh(s: State, events: seq<Event>) {
    NoReuse(events) && forall c :: c in Epoch(events) ==> Below(c, s[COUNT])
  }

  lemma Snoc(events: seq<Event>, e: Event)
    ensures (events + [e])[..|events + [e]| - 1] == events && (events + [e])[|events + [e]| - 1] == e
  {
  }

  lemma AfterWrite(events: seq<Event>, e: Event, s: State)
    requires NoReuse(events) && e.Wrote?
    ensures Fresh(s, events + [e])
  {
    Snoc(events, e);
  }

  lemma OneMoreIsAbove(c: Word)
    ensures c == 0xFFFF_FFFF || c < c + 1
  {
  }

  lemma OneMoreStaysAbove(c: Word, d: Word)
    requires d < c
    ensures c == 0xFFFF_FFFF || d < c + 1
  {
  }

  lemma SuccIs(c: Word)
    ensures Succ(c) == c + 1
  {
  }

  lemma SuccIsAbove(c: Word, d: Word)
    requires c != COUNT_MAX && (d == c || Below(d, c))
    ensures Below(d, Succ(c))
  {
    hide Succ;
    SuccIs(c);
    if d == c { OneMoreIsAbove(c); } else { OneMoreStaysAbove(c, d); }
  }

  lemma SuccOfTurn(c: Word)
    ensures Succ(c) == COUNT_MAX <==> c == TURN
  {
  }

  lemma NotBelowItself(c: Word)
    ensures !Below(c, c)
  {
  }

  lemma AfterUse(s: State, events: seq<Event>)
    requires Fresh(s, events)
    ensures NoReuse(events + [Used(s)])
    ensures s[COUNT] != COUNT_MAX ==> Fresh(Bump(s), events + [Used(s)])
  {
    hide Succ, Below;
    Snoc(events, Used(s));
    NotBelowItself(s[COUNT]);
    if s[COUNT] != COUNT_MAX {
      forall d | d in Epoch(events + [Used(s)]) ensures Below(d, Succ(s[COUNT])) {
        SuccIsAbove(s[COUNT], d);
      }
    }
  }

  // Skipping a counter value keeps freshness.
  lemma AfterSkip(s: State, events: seq<Event>)
    requires Fresh(s, events) && s[COUNT] != COUNT_MAX
    ensures Fresh(Bump(s), events)
  {
    hide Succ, Below;
    forall d | d in Epoch(events) ensures Below(d, Succ(s[COUNT])) {
      SuccIsAbove(s[COUNT], d);
    }
  }

  lemma RandomStep(s: State, len: nat)
    requires len > 0
    ensures var n := Min(BLOCK_BYTES, len);
            var ready := if s[COUNT] == TURN then MixKey(Bump(s)) else Outcome(s, [], []);
            var rest := Random(Bump(ready.state), len - n);
            Random(s, len) == Outcome(rest.state, KeyBlock(ready.state)[..n] + rest.out,
                                      ready.events + [Used(ready.state)] + rest.events)
  {
    hide KeyBlock, MixKey, Succ;
  }

  lemma RandomNothing(s: State)
    ensures Random(s, 0) == Outcome(s, [], [])
  {
  }

  lemma MixStep(s: State)
    ensures var r := Random(s, BLOCK_BYTES); MixKey(s) == Outcome(Remixed(r.state, r.out), [], r.events + Copies(r.out))
  {
    hide Random, Remixed;
  }

  // After mix_chacha key and nonce are the first forty bytes of the block that was asked for, the count is zero,
  // and no other word has changed since.
  lemma MixKeyIs(s: State)
    ensures var r, t := Random(s, 64), MixKey(s).state;
            && (forall i :: 0 <= i < 8 ==> t[4 + i] == LoadAt(r.out, 4 * i))
            && t[13] == LoadAt(r.out, 32) && t[14] == LoadAt(r.out, 36) && t[12] == 0
            && t[..4] == r.state[..4] && t[15] == r.state[15]
  {
    hide Random, MixKey, LittleEndian;
    MixStep(s);
    var r, t := Random(s, 64), MixKey(s).state;
    forall i | 0 <= i < 8 ensures t[4 + i] == LoadAt(r.out, 4 * i) {
      assert LoadAt(r.out[..32], 4 * i) == LoadAt(r.out, 4 * i);
    }
    assert LoadAt(r.out[32..40], 0) == LoadAt(r.out, 32) && LoadAt(r.out[32..40], 4) == LoadAt(r.out, 36);
  }

  // add_hash_pool changes the key from a state whose key is the random bytes with the digest folded in, and
  // hands on the block that was made before.
  lemma AddHashPoolIs(s: State, hash: seq<Byte>) returns (w: State)
    requires |hash| == HASH_LEN
    ensures var key := Random(s, 32); var fed := Random(key.state, 64); var r := AddHashPool(s, hash);
            && (forall i :: 0 <= i < 8 ==> w[4 + i] == LoadAt(Folded(key.out, hash), 4 * i))
            && (forall i :: 0 <= i < 16 && !(4 <= i < 12) ==> w[i] == fed.state[i])
            && r.state == MixKey(w).state && r.out == fed.out
  {
    hide Random, MixKey, LittleEndian, Folded;
    var key := Random(s, 32);
    w := Written(Random(key.state, 64).state, KEY, Folded(key.out, hash));
  }

  // The words of a block lie one after another in its bytes.
  lemma {:induction false} WordsInBytes(s: seq<Word>, i: nat)
    requires i < |s|
    ensures LoadAt(StateBytes(s), 4 * i) == s[i]
    decreases i
  {
    hide StoredBytes, LittleEndian;
    var b := StateBytes(s);
    LoadStored(s[0]);
    assert b == StoredBytes(s[0]) + StateBytes(s[1..]);
    if i == 0 {
      assert b[0] == StoredBytes(s[0])[0] && b[1] == StoredBytes(s[0])[1];
      assert b[2] == StoredBytes(s[0])[2] && b[3] == StoredBytes(s[0])[3];
    } else {
      WordsInBytes(s[1..], i - 1);
      var c, j := StateBytes(s[1..]), 4 * (i - 1);
      assert b[j + 4] == c[j] && b[j + 5] == c[j + 1] && b[j + 6] == c[j + 2] && b[j + 7] == c[j + 3];
    }
  }

  lemma BlockInBytes(s: State, i: nat)
    requires i < 16
    ensures LoadAt(KeyBlock(s), 4 * i) == Block(s)[i]
  {
    hide Block, LoadAt;
    WordsInBytes(Block(s), i);
  }

  // With the counter at its last value the generator may still make one block.
  ghost predicate MayAsk(s: State, len: nat) {
    s[COUNT] == COUNT_MAX ==> len <= BLOCK_BYTES
  }

  lemma {:induction false} RandomIsFresh(s: State, len: nat, events: seq<Event>)
    requires Fresh(s, events) && MayAsk(s, len)
    ensures var r := Random(s, len);
            && NoReuse(events + r.events)
            && (s[COUNT] != COUNT_MAX ==> Fresh(r.state, events + r.events) && r.state[COUNT] != COUNT_MAX)
    decreases Level(s, len), len, 0
  {
    hide Fresh, NoReuse, Random, MixKey, Succ, KeyBlock, Remixed, Epoch;
    FreshIsNoReuse(s, events);
    if len == 0 {
      RandomNothing(s);
      assert events + [] == events;
    } else {
      RandomStep(s, len);
      LevelFalls(s, len);
      var turned, before := s, events;
      if s[COUNT] == TURN {
        SuccOfTurn(s[COUNT]);
        AfterSkip(s, events);
        MixIsFresh(Bump(s), events);
        turned, before := MixKey(Bump(s)).state, events + MixKey(Bump(s)).events;
      } else {
        assert events + [] == events;
      }
      AfterUse(turned, before);
      var n := Min(BLOCK_BYTES, len);
      var rest := Random(Bump(turned), len - n);
      assert events + Random(s, len).events == before + [Used(turned)] + rest.events;
      if s[COUNT] == COUNT_MAX {
        RandomNothing(Bump(turned));
        assert before + [Used(turned)] + rest.events == before + [Used(turned)];
      } else {
        SuccOfTurn(turned[COUNT]);
        RandomIsFresh(Bump(turned), len - n, before + [Used(turned)]);
      }
    }
  }

  lemma FreshIsNoReuse(s: State, events: seq<Event>)
    requires Fresh(s, events)
    ensures NoReuse(events)
  {
  }

  lemma {:induction false} MixIsFresh(s: State, events: seq<Event>)
    requires Fresh(s, events)
    ensures Fresh(MixKey(s).state, events + MixKey(s).events) && MixKey(s).state[COUNT] == 0
    decreases Level(s, BLOCK_BYTES), BLOCK_BYTES, 1
  {
    hide Fresh, NoReuse, Random, MixKey, Remixed;
    MixStep(s);
    RandomIsFresh(s, BLOCK_BYTES, events);
    var r := Random(s, BLOCK_BYTES);
    var before, copies := events + r.events, Copies(r.out);
    AfterWrite(before, copies[0], s);
    FreshIsNoReuse(s, before + [copies[0]]);
    AfterWrite(before + [copies[0]], copies[1], MixKey(s).state);
    assert events + MixKey(s).events == before + [copies[0]] + [copies[1]];
  }

  lemma AddHashPoolIsFresh(s: State, hash: seq<Byte>, events: seq<Event>)
    requires |hash| == HASH_LEN && Fresh(s, events) && s[COUNT] != COUNT_MAX
    ensures var r := AddHashPool(s, hash);
            Fresh(r.state, events + r.events) && r.state[COUNT] != COUNT_MAX
  {
    hide Fresh, NoReuse, Random, MixKey, Written, Folded;
    var key := Random(s, KEY_BYTES);
    var fed := Random(key.state, BLOCK_BYTES);
    var folded := Folded(key.out, hash);
    var keyed := Written(fed.state, KEY, folded);
    var e1 := events + key.events;
    var e2 := e1 + fed.events;
    RandomIsFresh(s, KEY_BYTES, events);
    RandomIsFresh(key.state, BLOCK_BYTES, e1);
    FreshIsNoReuse(fed.state, e2);
    AfterWrite(e2, Wrote(KEY, folded), keyed);
    MixIsFresh(keyed, e2 + [Wrote(KEY, folded)]);
    assert events + AddHashPool(s, hash).events == e2 + [Wrote(KEY, folded)] + MixKey(keyed).events;
  }

  // At the turn the last counter value is spent on the new key and nonce, and nothing else.
  lemma TurnSpendsTheLast(s: State)
    requires s[COUNT] == TURN
    ensures var b := KeyBlock(Bump(s));
            MixKey(Bump(s)).events == [Used(Bump(s)), Wrote(4, b[..32]), Wrote(13, b[32..40])]
    ensures Bump(s)[COUNT] == COUNT_MAX
    ensures MixKey(Bump(s)).state == Remixed(Bump(Bump(s)), KeyBlock(Bump(s)))
  {
    hide Random, MixKey, KeyBlock, Remixed, Succ;
    SuccOfTurn(s[COUNT]);
    MixStep(Bump(s));
    RandomStep(Bump(s), BLOCK_BYTES);
    RandomNothing(Bump(Bump(s)));
    assert KeyBlock(Bump(s))[..BLOCK_BYTES] + [] == KeyBlock(Bump(s));
    var b := KeyBlock(Bump(s));
    assert [] + [Used(Bump(s))] + [] + Copies(b) == [Used(Bump(s))] + Copies(b);
  }

  // ------------------------------------------------------------------------------------------
  // Runs
  // ------------------------------------------------------------------------------------------

  datatype Call = GetRandom(len: nat) | Pool(hash: seq<Byte>)

  function Apply(s: State, call: Call): Outcome {
    match call
    case GetRandom(len) => Random(s, len)
    case Pool(hash) => if |hash| == HASH_LEN then AddHashPool(s, hash) else Outcome(s, [], [])
  }

  function Events(s: State, calls: seq<Call>): seq<Event>
    decreases |calls|
  {
    if calls == [] then [] else Apply(s, calls[0]).events + Events(Apply(s, calls[0]).state, calls[1..])
  }

  // The state the kernel boots with: the constants, and zeros.
  const BOOT: State := [0x61707865, 0x3320646e, 0x79622d32, 0x6b206574, 0, 0, 0, 0, 0, 0, 0, 0, 0, 0, 0, 0]

  lemma ApplyIsFresh(s: State, call: Call, events: seq<Event>)
    requires Fresh(s, events) && s[COUNT] != COUNT_MAX
    ensures var r := Apply(s, call); Fresh(r.state, events + r.events) && r.state[COUNT] != COUNT_MAX
  {
    hide Fresh, Random, AddHashPool;
    match call {
      case GetRandom(len) => RandomIsFresh(s, len, events);
      case Pool(hash) =>
        if |hash| == HASH_LEN {
          AddHashPoolIsFresh(s, hash, events);
        } else {
          assert events + [] == events;
        }
    }
  }

  lemma {:induction false} RunIsFresh(s: State, calls: seq<Call>, events: seq<Event>)
    requires Fresh(s, events) && s[COUNT] != COUNT_MAX
    ensures NoReuse(events + Events(s, calls))
    decreases |calls|
  {
    hide Fresh, NoReuse, Apply;
    if calls == [] {
      FreshIsNoReuse(s, events);
      assert events + [] == events;
    } else {
      var r := Apply(s, calls[0]);
      ApplyIsFresh(s, calls[0], events);
      RunIsFresh(r.state, calls[1..], events + r.events);
      assert events + Events(s, calls) == (events + r.events) + Events(r.state, calls[1..]);
    }
  }

  // Positions i and j lie under one key and nonce.
  ghost predicate SameEpoch(events: seq<Event>, i: nat, j: nat)
    requires i < j < |events|
  {
    forall k :: i < k < j ==> events[k].Used?
  }

  lemma {:induction false} EpochHas(events: seq<Event>, i: nat)
    requires i < |events| && events[i].Used? && forall k :: i < k < |events| ==> events[k].Used?
    ensures events[i].input[COUNT] in Epoch(events)
    decreases |events|
  {
    if i < |events| - 1 {
      EpochHas(events[..|events| - 1], i);
    }
  }

  lemma {:induction false} NoReuseMeans(events: seq<Event>, i: nat, j: nat)
    requires NoReuse(events) && i < j < |events| && events[i].Used? && events[j].Used? && SameEpoch(events, i, j)
    ensures events[i].input[COUNT] != events[j].input[COUNT]
    decreases |events|
  {
    var front := events[..|events| - 1];
    if j < |events| - 1 {
      NoReuseMeans(front, i, j);
    } else {
      EpochHas(front, i);
    }
  }

  // Over every run of the generator from boot: two inputs of the block function with no change of key or
  // nonce between them have different counters, across the turn of the counter too.
  lemma {:induction false} EveryRunUsesCountersOnce(calls: seq<Call>, i: nat, j: nat)
    requires i < j < |Events(BOOT, calls)| && SameEpoch(Events(BOOT, calls), i, j)
    requires Events(BOOT, calls)[i].Used? && Events(BOOT, calls)[j].Used?
    ensures Events(BOOT, calls)[i].input[COUNT] != Events(BOOT, calls)[j].input[COUNT]
  {
    hide NoReuse, Events, SameEpoch;
    BootIsFresh();
    RunIsFresh(BOOT, calls, []);
    assert [] + Events(BOOT, calls) == Events(BOOT, calls);
    NoReuseMeans(Events(BOOT, calls), i, j);
  }

  lemma BootIsFresh()
    ensures Fresh(BOOT, []) && BOOT[COUNT] != COUNT_MAX
  {
  }

  // ------------------------------------------------------------------------------------------
  // Successive blocks
  // ------------------------------------------------------------------------------------------

  // The state from which the next block is made.
  function Ready(s: State): State {
    if s[COUNT] == TURN then MixKey(Bump(s)).state else s
  }

  // The next n inputs of the block function that make output.
  function Inputs(s: State, n: nat): (r: seq<State>)
    ensures |r| == n
    decreases n
  {
    if n == 0 then [] else [Ready(s)] + Inputs(Bump(Ready(s)), n - 1)
  }

  function Keystream(inputs: seq<State>): (b: seq<Byte>)
    ensures |b| == BLOCK_BYTES * |inputs|
  {
    if inputs == [] then [] else KeyBlock(inputs[0]) + Keystream(inputs[1..])
  }

  function BlocksFor(len: nat): (n: nat)
    ensures BLOCK_BYTES * n >= len
  {
    (len + BLOCK_BYTES - 1) / BLOCK_BYTES
  }

  // A request returns the keystream of just enough blocks, the last one cut.
  lemma {:induction false} RandomIsKeystream(s: State, len: nat)
    ensures Random(s, len).out == Keystream(Inputs(s, BlocksFor(len)))[..len]
    decreases len
  {
    hide Random, KeyBlock, Ready, MixKey, Succ;
    if len == 0 {
      RandomNothing(s);
    } else {
      var n, x := Min(BLOCK_BYTES, len), Ready(s);
      RandomReady(s, len);
      RandomIsKeystream(Bump(x), len - n);
      assert BlocksFor(len) == 1 + BlocksFor(len - n);
      var inputs, rest := Inputs(s, BlocksFor(len)), Inputs(Bump(x), BlocksFor(len - n));
      assert inputs[0] == x && inputs[1..] == rest;
      assert Keystream(inputs)[..len] == KeyBlock(x)[..n] + Keystream(rest)[..len - n];
    }
  }

  lemma RandomReady(s: State, len: nat)
    requires len > 0
    ensures var n := Min(BLOCK_BYTES, len);
            Random(s, len).out == KeyBlock(Ready(s))[..n] + Random(Bump(Ready(s)), len - n).out
    ensures Random(s, len).state == Random(Bump(Ready(s)), len - Min(BLOCK_BYTES, len)).state
  {
    hide Random, KeyBlock, MixKey, Succ;
    RandomStep(s, len);
  }

  // The counter of each input is one more than that of the input before, under the same key and nonce;
  // at the turn the key and nonce are new and the counter starts at zero.
  lemma {:induction false} InputsAreSuccessive(s: State, n: nat, i: nat)
    requires i + 1 < n
    ensures Inputs(s, n)[i + 1] == Ready(Bump(Inputs(s, n)[i]))
    ensures var x, y := Inputs(s, n)[i], Inputs(s, n)[i + 1];
            if Succ(x[COUNT]) == TURN then y[COUNT] == 0 else y == x[COUNT := Succ(x[COUNT])]
    decreases n
  {
    hide MixKey, Succ;
    if i == 0 {
      assert Inputs(s, n)[1] == Inputs(Bump(Ready(s)), n - 1)[0];
    } else {
      InputsAreSuccessive(Bump(Ready(s)), n - 1, i - 1);
    }
  }

  // Asking twice is asking once, if the first request ends with a block.
  lemma {:induction false} RequestsJoin(s: State, a: nat, b: nat)
    requires a % BLOCK_BYTES == 0
    ensures var first := Random(s, a);
            && Random(s, a + b).out == first.out + Random(first.state, b).out
            && Random(s, a + b).state == Random(first.state, b).state
    decreases a
  {
    hide Random, KeyBlock, Ready, MixKey, Succ;
    if a == 0 {
      RandomNothing(s);
      assert [] + Random(s, b).out == Random(s, b).out;
    } else {
      RandomReady(s, a);
      RandomReady(s, a + b);
      assert Min(BLOCK_BYTES, a) == BLOCK_BYTES == Min(BLOCK_BYTES, a + b);
      RequestsJoin(Bump(Ready(s)), a - BLOCK_BYTES, b);
    }
  }
}
