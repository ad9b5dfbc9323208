/** The entropy pool of the random generator: what is hashed into it, when it is stirred into the key, and
    that nothing given to it is lost. */
module EntropyModel {
  import opened Words
  import opened ChaCha
  import opened CsprngModel
  import opened CsprngTrace
  import S = Sha1Spec

  const U32: nat := 0x1_0000_0000
  const ENOUGH: nat := 2 * HASH_LEN

  // The generator's state, what has gone into the hash pool since it was last started, hash_pool_size and
  // entropy_fast_state
  datatype Entropy = Entropy(state: State, message: seq<Byte>, size: nat, fast: bv64)

  // ------------------------------------------------------------------------------------------
  // The fast state
  // ------------------------------------------------------------------------------------------

  function First(x: bv64): bv64 {
    x ^ (x << 13)
  }

  function Second(x: bv64): bv64 {
    x ^ (x >> 7)
  }

  function Third(x: bv64): bv64 {
    x ^ (x << 17)
  }

  // xorshift64
  function XorShift(x: bv64): bv64 {
    Third(Second(First(x)))
  }

  function Unfirst(y: bv64): bv64 {
    y ^ (y << 13) ^ (y << 26) ^ (y << 39) ^ (y << 52)
  }

  function Unsecond(y: bv64): bv64 {
    y ^ (y >> 7) ^ (y >> 14) ^ (y >> 21) ^ (y >> 28) ^ (y >> 35) ^ (y >> 42) ^ (y >> 49) ^ (y >> 56) ^ (y >> 63)
  }

  function Unthird(y: bv64): bv64 {
    y ^ (y << 17) ^ (y << 34) ^ (y << 51)
  }

  function Unshift(y: bv64): bv64 {
    Unfirst(Unsecond(Unthird(y)))
  }

  lemma FirstBits(x: bv64)
    ensures (x ^ (x << 13)) ^ ((x ^ (x << 13)) << 13) ^ ((x ^ (x << 13)) << 26) ^ ((x ^ (x << 13)) << 39)
            ^ ((x ^ (x << 13)) << 52) == x
  {
  }

  lemma FirstUndone(x: bv64)
    ensures Unfirst(First(x)) == x
  {
    FirstBits(x);
    assert First(x) == x ^ (x << 13);
  }

  lemma SecondBits(x: bv64)
    ensures (x ^ (x >> 7)) ^ ((x ^ (x >> 7)) >> 7) ^ ((x ^ (x >> 7)) >> 14) ^ ((x ^ (x >> 7)) >> 21)
            ^ ((x ^ (x >> 7)) >> 28) ^ ((x ^ (x >> 7)) >> 35) ^ ((x ^ (x >> 7)) >> 42) ^ ((x ^ (x >> 7)) >> 49)
            ^ ((x ^ (x >> 7)) >> 56) ^ ((x ^ (x >> 7)) >> 63) == x
  {
  }

  lemma SecondUndone(x: bv64)
    ensures Unsecond(Second(x)) == x
  {
    SecondBits(x);
    assert Second(x) == x ^ (x >> 7);
  }

  lemma ThirdBits(x: bv64)
    ensures (x ^ (x << 17)) ^ ((x ^ (x << 17)) << 17) ^ ((x ^ (x << 17)) << 34) ^ ((x ^ (x << 17)) << 51) == x
  {
  }

  lemma ThirdUndone(x: bv64)
    ensures Unthird(Third(x)) == x
  {
    ThirdBits(x);
    assert Third(x) == x ^ (x << 17);
  }

  // The step can be undone, so that no two states become one, and leads to zero from zero only.
  lemma XorShiftUndone(x: bv64)
    ensures Unshift(XorShift(x)) == x
    ensures XorShift(x) == 0 <==> x == 0
  {
    hide First, Second, Third, Unfirst, Unsecond, Unthird;
    FirstUndone(x);
    SecondUndone(First(x));
    ThirdUndone(Second(First(x)));
    ShiftsOfZero();
  }

  // These words fix the shifts.
  lemma XorShiftOfWords()
    ensures XorShift(1) == 0x0000000040822041 && XorShift(0x8000_0000_0000_0000) == 0x8100000000000000
    ensures XorShift(0x0123_4567_89ab_cdef) == 0x3f2800d6569e01b4
  {
  }

  lemma ShiftsOfZero()
    ensures XorShift(0) == 0 && Unshift(0) == 0
  {
  }

  // The bytes given to csprng_add_entropy_fast are xor-ed in from byte i on, with a step at every eighth.
  function Mixed(x: bv64, b: seq<Byte>, i: nat): bv64
    requires i <= |b|
    decreases |b| - i
  {
    if i == |b| then XorShift(x)
    else
      var y := Xor(x, Placed(b[i], i));
      Mixed(if i % 8 == 0 then XorShift(y) else y, b, i + 1)
  }

  function Placed(b: Byte, i: nat): bv64 {
    Up(b as bv64, i % 8)
  }

  // x << (8 * n)
  function Up(x: bv64, n: nat): bv64 {
    if n == 0 then x else Up(x, n - 1) << 8
  }

  function Xor(x: bv64, z: bv64): bv64 {
    x ^ z
  }

  lemma XorTwice(x: bv64, z: bv64)
    ensures Xor(Xor(x, z), z) == x
  {
  }

  lemma NextByte(x: bv64)
    ensures FastBytes(x << 8) == [0] + FastBytes(x)[..7]
  {
  }

  lemma LowByte(b: Byte)
    ensures FastBytes(b as bv64) == [b, 0, 0, 0, 0, 0, 0, 0]
  {
  }

  lemma {:induction false} UpAt(b: Byte, n: nat, j: nat)
    requires n < 8 && j < 8
    ensures FastBytes(Up(b as bv64, n))[j] == if j == n then b else 0
  {
    hide FastBytes;
    if n == 0 {
      LowByte(b);
    } else {
      NextByte(Up(b as bv64, n - 1));
      if 0 < j { UpAt(b, n - 1, j - 1); }
    }
  }

  // Byte i goes to position i % 8 of the eight bytes, and to no other.
  lemma PlacedAt(b: Byte, i: nat, j: nat)
    requires j < 8
    ensures FastBytes(Placed(b, i))[j] == if j == i % 8 then b else 0
  {
    hide FastBytes, Up;
    UpAt(b, i % 8, j);
  }

  lemma MixedStep(x: bv64, b: seq<Byte>, q: nat, k: nat)
    requires k < 8 && 8 * q + k < |b|
    ensures var y := Xor(x, Placed(b[8 * q + k], k));
            Mixed(x, b, 8 * q + k) == Mixed(if k == 0 then XorShift(y) else y, b, 8 * q + k + 1)
  {
    hide XorShift, Xor, Up;
    assert (8 * q + k) % 8 == k && k % 8 == k;
  }

  // Eight bytes at a time: the first, a step, and the other seven
  lemma MixedEight(x: bv64, b: seq<Byte>, q: nat)
    requires 8 * q + 8 <= |b|
    ensures var i := 8 * q;
            var x1 := XorShift(Xor(x, Placed(b[i], 0)));
            var x4 := Xor(Xor(Xor(x1, Placed(b[i + 1], 1)), Placed(b[i + 2], 2)), Placed(b[i + 3], 3));
            var x6 := Xor(Xor(x4, Placed(b[i + 4], 4)), Placed(b[i + 5], 5));
            Mixed(x, b, i) == Mixed(Xor(Xor(x6, Placed(b[i + 6], 6)), Placed(b[i + 7], 7)), b, i + 8)
  {
    hide XorShift, Xor, Placed, Mixed;
    var i := 8 * q;
    var x1 := XorShift(Xor(x, Placed(b[i], 0)));
    var x2 := Xor(x1, Placed(b[i + 1], 1));
    var x3 := Xor(x2, Placed(b[i + 2], 2));
    var x4 := Xor(x3, Placed(b[i + 3], 3));
    var x5 := Xor(x4, Placed(b[i + 4], 4));
    var x6 := Xor(x5, Placed(b[i + 5], 5));
    MixedStep(x, b, q, 0);
    MixedStep(x1, b, q, 1);
    MixedStep(x2, b, q, 2);
    MixedStep(x3, b, q, 3);
    MixedStep(x4, b, q, 4);
    MixedStep(x5, b, q, 5);
    MixedStep(x6, b, q, 6);
    MixedStep(Xor(x6, Placed(b[i + 6], 6)), b, q, 7);
  }

  // Whatever is mixed in, different states stay different: what the state had gathered is not lost.
  lemma {:induction false} MixingKeepsApart(x: bv64, y: bv64, b: seq<Byte>, i: nat)
    requires i <= |b| && x != y
    ensures Mixed(x, b, i) != Mixed(y, b, i)
    decreases |b| - i
  {
    hide XorShift, Placed, Xor;
    if i == |b| {
      XorShiftUndone(x);
      XorShiftUndone(y);
    } else {
      var z := Placed(b[i], i);
      XorTwice(x, z);
      XorTwice(y, z);
      var u, v := Xor(x, z), Xor(y, z);
      XorShiftUndone(u);
      XorShiftUndone(v);
      if i % 8 == 0 {
        MixingKeepsApart(XorShift(u), XorShift(v), b, i + 1);
      } else {
        MixingKeepsApart(u, v, b, i + 1);
      }
    }
  }

  // ------------------------------------------------------------------------------------------
  // The hash pool
  // ------------------------------------------------------------------------------------------

  function FastBytes(x: bv64): (b: seq<Byte>)
    ensures |b| == 8
  {
    [(x & 0xFF) as Byte, ((x >> 8) & 0xFF) as Byte, ((x >> 16) & 0xFF) as Byte, ((x >> 24) & 0xFF) as Byte,
     ((x >> 32) & 0xFF) as Byte, ((x >> 40) & 0xFF) as Byte, ((x >> 48) & 0xFF) as Byte, ((x >> 56) & 0xFF) as Byte]
  }

  // The eight bytes, least significant first
  lemma FastBytesMean(x: bv64)
    ensures var b := FastBytes(x);
            x == (b[0] as bv64) | ((b[1] as bv64) << 8) | ((b[2] as bv64) << 16) | ((b[3] as bv64) << 24)
                 | ((b[4] as bv64) << 32) | ((b[5] as bv64) << 40) | ((b[6] as bv64) << 48) | ((b[7] as bv64) << 56)
  {
  }

  // What one call gives: the fast state, and the caller's bytes.
  function Gift(e: Entropy, b: seq<Byte>): (g: seq<Byte>)
    ensures |g| == 8 + |b|
  {
    FastBytes(e.fast) + b
  }

  // csprng_add_entropy up to its test; hash_pool_size has 32 bits.
  function Fed(e: Entropy, b: seq<Byte>): Entropy {
    Entropy(e.state, e.message + Gift(e, b), (e.size + |b|) % U32, XorShift(e.fast))
  }

  // add_hash_pool: the digest goes into the key, and starts the pool again with a block of the keystream.
  function Stirred(e: Entropy): (r: (Entropy, seq<Event>))
    requires |e.message| < S.MAX_MESSAGE
  {
    var hash := S.Sha1(e.message);
    var o := AddHashPool(e.state, hash);
    (Entropy(o.state, hash + o.out, e.size, e.fast), o.events)
  }

  // csprng_add_entropy
  function Added(e: Entropy, b: seq<Byte>): (Entropy, seq<Event>)
    requires |e.message| + 8 + |b| < S.MAX_MESSAGE
  {
    if Fed(e, b).size >= ENOUGH then Stirred(Fed(e, b)) else (Fed(e, b), [])
  }

  // ------------------------------------------------------------------------------------------
  // Runs
  // ------------------------------------------------------------------------------------------

  datatype Use = Give(bytes: seq<Byte>) | GiveFast(bytes: seq<Byte>) | Ask(len: nat)

  // With everything the block function saw, the messages that were hashed, and all bytes given, in order
  datatype System = System(now: Entropy, events: seq<Event>, hashed: seq<seq<Byte>>, given: seq<Byte>)

  const START: System := System(Entropy(BOOT, [], 0, 0), [], [], [])

  predicate Allowed(s: System, use: Use) {
    use.Give? ==> |s.now.message| + 8 + |use.bytes| < S.MAX_MESSAGE
  }

  function Next(s: System, use: Use): System
    requires Allowed(s, use)
  {
    match use
    case Give(b) =>
      var (e, events) := Added(s.now, b);
      var fed := Fed(s.now, b);
      System(e, s.events + events, if fed.size >= ENOUGH then s.hashed + [fed.message] else s.hashed,
             s.given + Gift(s.now, b))
    case GiveFast(b) => s.(now := s.now.(fast := Mixed(s.now.fast, b, 0)))
    case Ask(len) =>
      var r := Random(s.now.state, len);
      s.(now := s.now.(state := r.state), events := s.events + r.events)
  }

  // A message that starts with the digest of the one before, and a block
  ghost predicate Follows(before: seq<Byte>, m: seq<Byte>) {
    |before| < S.MAX_MESSAGE && HASH_LEN + BLOCK_BYTES <= |m| && m[..HASH_LEN] == S.Sha1(before)
  }

  // Each message, down to m, starts with the digest of the one before it.
  ghost predicate Chained(hashed: seq<seq<Byte>>, m: seq<Byte>)
    decreases |hashed|
  {
    hashed == [] ||
    var n := |hashed| - 1; Follows(hashed[n], m) && Chained(hashed[..n], hashed[n])
  }

  // What was given, as it stands in the messages behind those starts
  ghost function Bodies(hashed: seq<seq<Byte>>, m: seq<Byte>): seq<Byte>
    requires Chained(hashed, m)
    decreases |hashed|
  {
    if hashed == [] then m
    else var n := |hashed| - 1; Bodies(hashed[..n], hashed[n]) + m[HASH_LEN + BLOCK_BYTES..]
  }

  // Nothing given is lost or hashed twice, every digest depends on all before it, no counter is used twice, and
  // the state is what the events have made of it.
  ghost predicate Sound(s: System) {
    && Chained(s.hashed, s.now.message) && Bodies(s.hashed, s.now.message) == s.given
    && Fresh(s.now.state, s.events) && s.now.state[COUNT] != COUNT_MAX
    && Traced(BOOT, s.events, s.now.state)
    && s.now.size < U32
  }

  lemma FeedingKeeps(hashed: seq<seq<Byte>>, m: seq<Byte>, x: seq<Byte>)
    requires Chained(hashed, m)
    ensures Chained(hashed, m + x) && Bodies(hashed, m + x) == Bodies(hashed, m) + x
  {
    if hashed != [] {
      var n := |hashed| - 1;
      assert (m + x)[..HASH_LEN] == m[..HASH_LEN];
      assert (m + x)[HASH_LEN + BLOCK_BYTES..] == m[HASH_LEN + BLOCK_BYTES..] + x;
      assert Bodies(hashed[..n], hashed[n]) + (m[HASH_LEN + BLOCK_BYTES..] + x)
          == Bodies(hashed[..n], hashed[n]) + m[HASH_LEN + BLOCK_BYTES..] + x;
    }
  }

  lemma StirringKeeps(hashed: seq<seq<Byte>>, m: seq<Byte>, block: seq<Byte>)
    requires Chained(hashed, m) && |m| < S.MAX_MESSAGE && |block| == BLOCK_BYTES
    ensures var m' := S.Sha1(m) + block;
            Chained(hashed + [m], m') && Bodies(hashed + [m], m') == Bodies(hashed, m)
  {
    hide S.Sha1;
    var m' := S.Sha1(m) + block;
    assert (hashed + [m])[..|hashed|] == hashed;
    assert m'[..HASH_LEN] == S.Sha1(m) && m'[HASH_LEN + BLOCK_BYTES..] == [];
    assert Bodies(hashed, m) + [] == Bodies(hashed, m);
  }

  lemma StepIsSound(s: System, use: Use)
    requires Sound(s) && Allowed(s, use)
    ensures Sound(Next(s, use))
  {
    hide Chained, Bodies, Fresh, Random, AddHashPool, S.Sha1, XorShift, Mixed, Traced;
    match use {
      case Give(b) =>
        var fed := Fed(s.now, b);
        FeedingKeeps(s.hashed, s.now.message, Gift(s.now, b));
        if fed.size >= ENOUGH {
          var hash := S.Sha1(fed.message);
          StirringKeeps(s.hashed, fed.message, AddHashPool(s.now.state, hash).out);
          AddHashPoolIsFresh(s.now.state, hash, s.events);
          AddHashPoolIsTraced(s.now.state, hash);
          var r := AddHashPool(s.now.state, hash);
          TracedJoin(BOOT, s.events, s.now.state, r.events, r.state);
        } else {
          assert s.events + [] == s.events;
        }
      case GiveFast(b) =>
      case Ask(len) =>
        RandomIsFresh(s.now.state, len, s.events);
        RandomIsTraced(s.now.state, len);
        var r := Random(s.now.state, len);
        TracedJoin(BOOT, s.events, s.now.state, r.events, r.state);
    }
  }

  ghost predicate AllAllowed(s: System, uses: seq<Use>)
    decreases |uses|
  {
    uses == [] || (Allowed(s, uses[0]) && AllAllowed(Next(s, uses[0]), uses[1..]))
  }

  function NextAll(s: System, uses: seq<Use>): System
    requires AllAllowed(s, uses)
    decreases |uses|
  {
    if uses == [] then s else NextAll(Next(s, uses[0]), uses[1..])
  }

  lemma {:induction false} RunIsSound(s: System, uses: seq<Use>)
    requires Sound(s) && AllAllowed(s, uses)
    ensures Sound(NextAll(s, uses))
    decreases |uses|
  {
    hide Sound, Next, Allowed;
    if uses != [] {
      StepIsSound(s, uses[0]);
      RunIsSound(Next(s, uses[0]), uses[1..]);
    }
  }

  // What the calls of a run give, from this fast state on
  function GivenBy(fast: bv64, uses: seq<Use>): seq<Byte>
    decreases |uses|
  {
    if uses == [] then [] else GivenOnce(fast, uses[0]) + GivenBy(FastAfter(fast, uses[0]), uses[1..])
  }

  function GivenOnce(fast: bv64, use: Use): seq<Byte> {
    if use.Give? then FastBytes(fast) + use.bytes else []
  }

  function FastAfter(fast: bv64, use: Use): bv64 {
    if use.Give? then XorShift(fast) else if use.GiveFast? then Mixed(fast, use.bytes, 0) else fast
  }

  lemma StepIsGiven(s: System, use: Use)
    requires Allowed(s, use)
    ensures Next(s, use).given == s.given + GivenOnce(s.now.fast, use)
    ensures Next(s, use).now.fast == FastAfter(s.now.fast, use)
  {
    hide Random, AddHashPool, S.Sha1, Mixed, XorShift, FastBytes;
    assert s.given + [] == s.given;
  }

  lemma {:induction false} RunIsGiven(s: System, uses: seq<Use>)
    requires AllAllowed(s, uses)
    ensures NextAll(s, uses).given == s.given + GivenBy(s.now.fast, uses)
    decreases |uses|
  {
    hide Next, Allowed, GivenOnce, FastAfter;
    if uses == [] {
      assert s.given + [] == s.given;
    } else {
      StepIsGiven(s, uses[0]);
      var t := Next(s, uses[0]);
      RunIsGiven(t, uses[1..]);
      var g, rest := GivenOnce(s.now.fast, uses[0]), GivenBy(t.now.fast, uses[1..]);
      assert (s.given + g) + rest == s.given + (g + rest);
    }
  }

  // From boot, over every run.
  lemma EveryRunLosesNothing(uses: seq<Use>)
    requires AllAllowed(START, uses)
    ensures Sound(NextAll(START, uses)) && NextAll(START, uses).given == GivenBy(0, uses)
  {
    hide Sound, NextAll, AllAllowed, GivenBy;
    assert Sound(START) by { StartIsSound(); }
    RunIsSound(START, uses);
    RunIsGiven(START, uses);
    assert [] + GivenBy(0, uses) == GivenBy(0, uses);
  }

  // A stirring folds the digest of exactly the message into the key from which the new one is made, and the
  // next message starts with that digest and the block that was made in between.
  lemma StirringTakesTheDigest(e: Entropy) returns (w: State)
    requires |e.message| < S.MAX_MESSAGE
    ensures var key := Random(e.state, 32); var fed := Random(key.state, 64); var r := Stirred(e).0;
            && (forall i :: 0 <= i < 8 ==> w[4 + i] == LoadAt(Folded(key.out, S.Sha1(e.message)), 4 * i))
            && (forall i :: 0 <= i < 16 && !(4 <= i < 12) ==> w[i] == fed.state[i])
            && r.state == MixKey(w).state && r.message == S.Sha1(e.message) + fed.out
  {
    hide Random, MixKey, LittleEndian, Folded, AddHashPool;
    w := AddHashPoolIs(e.state, S.Sha1(e.message));
  }

  lemma StartIsSound()
    ensures Sound(START)
  {
    BootIsFresh();
    TracedNothing(BOOT, BOOT);
  }

  // ------------------------------------------------------------------------------------------
  // When the pool is stirred
  // ------------------------------------------------------------------------------------------

  function Gifts(uses: seq<Use>): nat {
    if uses == [] then 0 else (if uses[0].Give? then 1 else 0) + Gifts(uses[1..])
  }

  function BytesGiven(uses: seq<Use>): nat {
    if uses == [] then 0 else (if uses[0].Give? then |uses[0].bytes| else 0) + BytesGiven(uses[1..])
  }

  // hash_pool_size counts what was given since boot: stirring does not start it again.
  lemma {:induction false} SizeIsTotal(s: System, uses: seq<Use>)
    requires s.now.size < 0x1_0000_0000 && AllAllowed(s, uses)
    ensures NextAll(s, uses).now.size == (s.now.size + BytesGiven(uses)) % 0x1_0000_0000
    decreases |uses|
  {
    hide Random, AddHashPool, S.Sha1, Mixed, XorShift;
    if uses != [] {
      SizeIsTotal(Next(s, uses[0]), uses[1..]);
      ModAdds(s.now.size, if uses[0].Give? then |uses[0].bytes| else 0, BytesGiven(uses[1..]));
    }
  }

  lemma ModAdds(a: nat, b: nat, c: nat)
    ensures ((a + b) % U32 + c) % U32 == (a + (b + c)) % U32
  {
  }

  // A call stirs if and only if the count with its bytes, in 32 bits, is at least 40.
  lemma StirsIff(s: System, b: seq<Byte>)
    requires Allowed(s, Give(b))
    ensures Next(s, Give(b)).hashed ==
            if (s.now.size + |b|) % 0x1_0000_0000 >= 40 then s.hashed + [s.now.message + FastBytes(s.now.fast) + b]
            else s.hashed
  {
    hide FastBytes, XorShift, S.Sha1, AddHashPool;
    assert s.now.message + (FastBytes(s.now.fast) + b) == s.now.message + FastBytes(s.now.fast) + b;
  }

  // So from the moment that it reaches twice the length of a digest every call stirs, with however few bytes,
  // until the count wraps.
  lemma {:induction false} EveryGiftStirs(s: System, uses: seq<Use>)
    requires 40 <= s.now.size && s.now.size + BytesGiven(uses) < 0x1_0000_0000 && AllAllowed(s, uses)
    ensures |NextAll(s, uses).hashed| == |s.hashed| + Gifts(uses)
    decreases |uses|
  {
    hide Random, AddHashPool, S.Sha1, Mixed, XorShift;
    if uses != [] {
      EveryGiftStirs(Next(s, uses[0]), uses[1..]);
    }
  }
}
