/** The events of the random generator are what happens to its state: each input is the state of its time, and
    each write is in every later input. */
module CsprngTrace {
  import opened Words
  import opened Prelude
  import opened ChaCha
  import opened CsprngModel

  // The same in every word but the count
  ghost predicate SameKeyed(s: State, t: State) {
    forall i :: 0 <= i < 16 && i != 12 ==> s[i] == t[i]
  }

  // The bytes go to words of the key or of the nonce.
  ghost predicate Inside(p: nat, b: seq<Byte>) {
    |b| % 4 == 0 && ((4 <= p && p + |b| / 4 <= 12) || (13 <= p && p + |b| / 4 <= 15))
  }

  // From s the events lead to t: inputs show the state, writes change it, and nothing else does but the count.
  ghost predicate Traced(s: State, e: seq<Event>, t: State)
    decreases |e|
  {
    if e == [] then SameKeyed(s, t)
    else
      match e[0]
      case Used(x) => SameKeyed(s, x) && Traced(s, e[1..], t)
      case Wrote(p, b) => Inside(p, b) && Traced(Written(s, p, b), e[1..], t)
  }

  // ------------------------------------------------------------------------------------------
  // Traces one after another
  // ------------------------------------------------------------------------------------------

  lemma {:induction false} TracedFrom(s: State, s': State, e: seq<Event>, t: State)
    requires SameKeyed(s, s') && Traced(s, e, t)
    ensures Traced(s', e, t)
    decreases |e|
  {
    if e != [] {
      match e[0] {
        case Used(_) => TracedFrom(s, s', e[1..], t);
        case Wrote(p, b) => TracedFrom(Written(s, p, b), Written(s', p, b), e[1..], t);
      }
    }
  }

  lemma {:induction false} TracedJoin(s: State, e: seq<Event>, t: State, f: seq<Event>, u: State)
    requires Traced(s, e, t) && Traced(t, f, u)
    ensures Traced(s, e + f, u)
    decreases |e|
  {
    hide SameKeyed, Written;
    if e == [] {
      assert e + f == f;
      Turned(s, t);
      TracedFrom(t, s, f, u);
    } else {
      assert (e + f)[0] == e[0] && (e + f)[1..] == e[1..] + f;
      match e[0] {
        case Used(_) => TracedJoin(s, e[1..], t, f, u);
        case Wrote(p, b) => TracedJoin(Written(s, p, b), e[1..], t, f, u);
      }
    }
  }

  lemma Itself(s: State)
    ensures SameKeyed(s, s)
  {
  }

  lemma Turned(s: State, t: State)
    requires SameKeyed(s, t)
    ensures SameKeyed(t, s)
  {
  }

  lemma TracedUse(x: State, s: State)
    requires SameKeyed(x, s)
    ensures Traced(x, [Used(x)], s)
  {
    assert [Used(x)][1..] == [];
  }

  lemma TracedWrite(s: State, p: nat, b: seq<Byte>)
    requires Inside(p, b)
    ensures Traced(s, [Wrote(p, b)], Written(s, p, b))
  {
    assert [Wrote(p, b)][1..] == [];
  }

  lemma TracedNothing(s: State, t: State)
    requires SameKeyed(s, t)
    ensures Traced(s, [], t)
  {
  }

  // ------------------------------------------------------------------------------------------
  // The generator is traced
  // ------------------------------------------------------------------------------------------

  lemma BumpKeeps(s: State)
    ensures SameKeyed(s, Bump(s))
  {
  }

  lemma {:induction false} RandomIsTraced(s: State, len: nat)
    ensures Traced(s, Random(s, len).events, Random(s, len).state)
    decreases Level(s, len), len, 0
  {
    hide Traced, SameKeyed, Random, MixKey, Succ, KeyBlock;
    BumpKeeps(s);
    Itself(s);
    TracedNothing(s, s);
    if len == 0 {
      RandomNothing(s);
    } else {
      RandomStep(s, len);
      LevelFalls(s, len);
      var ready := if s[COUNT] == TURN then MixKey(Bump(s)) else Outcome(s, [], []);
      if s[COUNT] == TURN {
        MixIsTraced(Bump(s));
        Turned(s, Bump(s));
        TracedFrom(Bump(s), s, ready.events, ready.state);
      }
      BumpKeeps(ready.state);
      TracedUse(ready.state, Bump(ready.state));
      TracedJoin(s, ready.events, ready.state, [Used(ready.state)], Bump(ready.state));
      var rest := Random(Bump(ready.state), len - Min(BLOCK_BYTES, len));
      RandomIsTraced(Bump(ready.state), len - Min(BLOCK_BYTES, len));
      TracedJoin(s, ready.events + [Used(ready.state)], Bump(ready.state), rest.events, rest.state);
    }
  }

  lemma {:induction false} MixIsTraced(s: State)
    ensures Traced(s, MixKey(s).events, MixKey(s).state)
    decreases Level(s, BLOCK_BYTES), BLOCK_BYTES, 1
  {
    hide Traced, SameKeyed, Random, MixKey, Written;
    var r := Random(s, BLOCK_BYTES);
    MixStep(s);
    RandomIsTraced(s, BLOCK_BYTES);
    var key, nonce := r.out[..KEY_BYTES], r.out[KEY_BYTES..KEY_BYTES + NONCE_BYTES];
    var keyed := Written(r.state, KEY, key);
    TracedWrite(r.state, KEY, key);
    TracedWrite(keyed, NONCE, nonce);
    TracedJoin(s, r.events, r.state, [Wrote(KEY, key)], keyed);
    CountIsFree(Written(keyed, NONCE, nonce));
    TracedJoin(s, r.events + [Wrote(KEY, key)], keyed, [Wrote(NONCE, nonce)], Written(keyed, NONCE, nonce));
    TracedNothing(Written(keyed, NONCE, nonce), MixKey(s).state);
    TracedJoin(s, r.events + [Wrote(KEY, key)] + [Wrote(NONCE, nonce)], Written(keyed, NONCE, nonce), [],
               MixKey(s).state);
    assert MixKey(s).events == r.events + [Wrote(KEY, key)] + [Wrote(NONCE, nonce)] + [];
  }

  lemma CountIsFree(s: State)
    ensures SameKeyed(s, s[COUNT := 0])
  {
  }

  lemma AddHashPoolIsTraced(s: State, hash: seq<Byte>)
    requires |hash| == HASH_LEN
    ensures Traced(s, AddHashPool(s, hash).events, AddHashPool(s, hash).state)
  {
    hide Traced, SameKeyed, Random, MixKey, Written, Folded;
    var key := Random(s, KEY_BYTES);
    var fed := Random(key.state, BLOCK_BYTES);
    var folded := Folded(key.out, hash);
    var keyed := Written(fed.state, KEY, folded);
    var mixed := MixKey(keyed);
    RandomIsTraced(s, KEY_BYTES);
    RandomIsTraced(key.state, BLOCK_BYTES);
    TracedWrite(fed.state, KEY, folded);
    MixIsTraced(keyed);
    TracedJoin(s, key.events, key.state, fed.events, fed.state);
    TracedJoin(s, key.events + fed.events, fed.state, [Wrote(KEY, folded)], keyed);
    TracedJoin(s, key.events + fed.events + [Wrote(KEY, folded)], keyed, mixed.events, mixed.state);
  }

  // The state after a run of calls
  function StateAfter(s: State, calls: seq<Call>): State
    decreases |calls|
  {
    if calls == [] then s else StateAfter(Apply(s, calls[0]).state, calls[1..])
  }

  lemma ApplyIsTraced(s: State, call: Call)
    ensures Traced(s, Apply(s, call).events, Apply(s, call).state)
  {
    hide Random, AddHashPool;
    match call {
      case GetRandom(len) => RandomIsTraced(s, len);
      case Pool(hash) => if |hash| == HASH_LEN { AddHashPoolIsTraced(s, hash); }
    }
  }

  lemma {:induction false} RunIsTraced(s: State, calls: seq<Call>)
    ensures Traced(s, Events(s, calls), StateAfter(s, calls))
    decreases |calls|
  {
    hide Traced, SameKeyed, Apply;
    if calls == [] {
      Itself(s);
      TracedNothing(s, s);
    } else {
      var r := Apply(s, calls[0]);
      ApplyIsTraced(s, calls[0]);
      RunIsTraced(r.state, calls[1..]);
      TracedJoin(s, r.events, r.state, Events(r.state, calls[1..]), StateAfter(r.state, calls[1..]));
    }
  }

  // ------------------------------------------------------------------------------------------
  // What a trace says of its inputs
  // ------------------------------------------------------------------------------------------

  // The write does not reach word w.
  ghost predicate Spares(e: Event, w: nat) {
    e.Wrote? ==> !(e.p <= w < e.p + |e.bytes| / 4)
  }

  lemma {:induction false} WordStays(s: State, e: seq<Event>, t: State, j: nat, w: nat)
    requires Traced(s, e, t) && j < |e| && e[j].Used? && w < 16 && w != 12
    requires forall k :: 0 <= k < j ==> Spares(e[k], w)
    ensures e[j].input[w] == s[w]
    decreases j
  {
    if 0 < j {
      assert Spares(e[0], w);
      forall k | 0 <= k < j - 1 ensures Spares(e[1..][k], w) { assert Spares(e[k + 1], w); }
      var s' := if e[0].Used? then s else Written(s, e[0].p, e[0].bytes);
      WordStays(s', e[1..], t, j - 1, w);
    }
  }

  // Two inputs with no write between them agree in every word but the count.
  lemma {:induction false} InputsAgree(s: State, e: seq<Event>, t: State, i: nat, j: nat)
    requires Traced(s, e, t) && i < j < |e| && e[i].Used? && e[j].Used? && SameEpoch(e, i, j)
    ensures SameKeyed(e[i].input, e[j].input)
    decreases i
  {
    if i == 0 {
      forall w | 0 <= w < 16 && w != 12 ensures e[0].input[w] == e[j].input[w] { WordStays(s, e, t, j, w); }
    } else {
      InputsAgree(if e[0].Used? then s else Written(s, e[0].p, e[0].bytes), e[1..], t, i - 1, j - 1);
    }
  }

  // What a write copies is in every later input, until another write goes there.
  lemma {:induction false} WriteIsSeen(s: State, e: seq<Event>, t: State, i: nat, j: nat, k: nat)
    requires Traced(s, e, t) && i < j < |e| && e[i].Wrote? && e[j].Used? && k < |e[i].bytes| / 4
    requires forall l :: i < l < j ==> Spares(e[l], e[i].p + k)
    ensures e[i].p + k < 16 && 4 * k + 4 <= |e[i].bytes|
    ensures e[j].input[e[i].p + k] == LoadAt(e[i].bytes, 4 * k)
    decreases i
  {
    hide LoadAt;
    if i == 0 {
      var w := e[0].p + k;
      forall l | 0 <= l < j - 1 ensures Spares(e[1..][l], w) { assert Spares(e[l + 1], w); }
      WordStays(Written(s, e[0].p, e[0].bytes), e[1..], t, j - 1, w);
    } else {
      forall l | i - 1 < l < j - 1 ensures Spares(e[1..][l], e[i].p + k) { assert Spares(e[l + 1], e[i].p + k); }
      WriteIsSeen(if e[0].Used? then s else Written(s, e[0].p, e[0].bytes), e[1..], t, i - 1, j - 1, k);
    }
  }

  lemma {:induction false} NoneReaches(s: State, e: seq<Event>, t: State, k: nat, w: nat)
    requires Traced(s, e, t) && k < |e| && (w < 4 || w == 12 || w == 15)
    ensures Spares(e[k], w)
    decreases k
  {
    if 0 < k { NoneReaches(if e[0].Used? then s else Written(s, e[0].p, e[0].bytes), e[1..], t, k - 1, w); }
  }

  // Over every run from boot: each input starts with "expand 32-byte k" and ends with a zero word; two with no
  // write between them differ in their count, and in nothing else.
  lemma EveryRunIsTraced(calls: seq<Call>, i: nat, j: nat)
    requires i < j < |Events(BOOT, calls)| && Events(BOOT, calls)[i].Used? && Events(BOOT, calls)[j].Used?
    ensures Events(BOOT, calls)[j].input[..4] == [0x61707865, 0x3320646e, 0x79622d32, 0x6b206574]
    ensures Events(BOOT, calls)[j].input[15] == 0
    ensures SameEpoch(Events(BOOT, calls), i, j) ==>
              && SameKeyed(Events(BOOT, calls)[i].input, Events(BOOT, calls)[j].input)
              && Events(BOOT, calls)[i].input[12] != Events(BOOT, calls)[j].input[12]
  {
    hide Traced, Events, StateAfter, SameKeyed, SameEpoch;
    var e, t := Events(BOOT, calls), StateAfter(BOOT, calls);
    RunIsTraced(BOOT, calls);
    forall w | w < 4 || w == 15 ensures 0 <= w ==> e[j].input[w] == BOOT[w] {
      if 0 <= w {
        forall k | 0 <= k < j ensures Spares(e[k], w) { NoneReaches(BOOT, e, t, k, w); }
        WordStays(BOOT, e, t, j, w);
      }
    }
    if SameEpoch(e, i, j) {
      InputsAgree(BOOT, e, t, i, j);
      EveryRunUsesCountersOnce(calls, i, j);
    }
  }
}
