/** The client's view of the heap: a finite map from payload pointer to payload bytes. */
module HeapLive {
  import opened HeapModel
  import opened HeapInvariant

  function LiveOne(b: Block): map<nat, seq<u8>> {
    if b.free then map[] else map[Ptr(b) := b.data]
  }

  function Live(c: seq<Block>): map<nat, seq<u8>> {
    if c == [] then map[] else LiveOne(c[0]) + Live(c[1..])
  }

  // Position of the block whose payload starts at p.
  function IndexOf(c: seq<Block>, p: nat): (i: nat)
    ensures i <= |c|
    ensures i < |c| ==> Ptr(c[i]) == p
    ensures forall j :: 0 <= j < i ==> Ptr(c[j]) != p
  {
    if c == [] || Ptr(c[0]) == p then 0 else 1 + IndexOf(c[1..], p)
  }

  lemma {:induction false} LiveConcat(a: seq<Block>, b: seq<Block>)
    ensures Live(a + b) == Live(a) + Live(b)
  {
    if a == [] {
      assert a + b == b;
    } else {
      LiveConcat(a[1..], b);
      assert (a + b)[1..] == a[1..] + b;
      MapAssoc(LiveOne(a[0]), Live(a[1..]), Live(b));
    }
  }

  lemma MapAssoc<V>(a: map<nat, V>, b: map<nat, V>, c: map<nat, V>)
    ensures (a + b) + c == a + (b + c)
  {
  }

  lemma LiveStretch(a: seq<Block>, mid: seq<Block>, b: seq<Block>)
    ensures Live(a + mid + b) == Live(a) + Live(mid) + Live(b)
  {
    LiveConcat(a + mid, b);
    LiveConcat(a, mid);
  }

  lemma {:induction false} LiveKey(c: seq<Block>, p: nat) returns (i: nat)
    requires p in Live(c)
    ensures i < |c| && !c[i].free && Ptr(c[i]) == p
  {
    if p in LiveOne(c[0]) && p !in Live(c[1..]) {
      i := 0;
    } else {
      i := LiveKey(c[1..], p);
      i := i + 1;
    }
  }

  // In a valid heap no two blocks share a pointer, so the pointer of block i names it alone.
  lemma PointerIsUnique(h: Heap, i: nat)
    requires Inv(h) && i < |h.chain|
    ensures Ptr(h.chain[i]) !in Live(h.chain[..i])
    ensures Ptr(h.chain[i]) !in Live(h.chain[i + 1..])
    ensures IndexOf(h.chain, Ptr(h.chain[i])) == i
    ensures Ptr(h.chain[i]) in Live(h.chain) <==> !h.chain[i].free
    ensures !h.chain[i].free ==> Live(h.chain)[Ptr(h.chain[i])] == h.chain[i].data
  {
    var p := Ptr(h.chain[i]);
    if p in Live(h.chain[..i]) {
      var j := LiveKey(h.chain[..i], p);
      BlocksAreDisjoint(h, j, i);
      assert false;
    }
    if p in Live(h.chain[i + 1..]) {
      var j := LiveKey(h.chain[i + 1..], p);
      BlocksAreDisjoint(h, i, i + 1 + j);
      assert false;
    }
    var k := IndexOf(h.chain, p);
    if k < i { BlocksAreDisjoint(h, k, i); }
    assert h.chain == h.chain[..i] + [h.chain[i]] + h.chain[i + 1..];
    LiveStretch(h.chain[..i], [h.chain[i]], h.chain[i + 1..]);
    LiveSingle(h.chain[i]);
  }

  lemma LiveSingle(b: Block)
    ensures Live([b]) == LiveOne(b)
  {
    assert [b][1..] == [];
  }

  // A live pointer is the payload of a block in use, and its bytes are that block's bytes.
  lemma LiveBlock(h: Heap, p: nat)
    requires Inv(h) && p in Live(h.chain)
    ensures var i := IndexOf(h.chain, p);
            && i < |h.chain| && !h.chain[i].free && Ptr(h.chain[i]) == p
            && Live(h.chain)[p] == h.chain[i].data && |h.chain[i].data| == h.chain[i].size
  {
    var i := LiveKey(h.chain, p);
    PointerIsUnique(h, i);
    assert BlockOk(h.chain[i], h.regions);
  }

  // Map algebra: a key that occurs at most in the middle.
  lemma PutMiddle<V>(a: map<nat, V>, m: map<nat, V>, b: map<nat, V>, p: nat, v: V)
    requires m.Keys <= {p} && p !in b
    ensures a + map[p := v] + b == (a + m + b)[p := v]
  {
    var l, r := a + map[p := v] + b, (a + m + b)[p := v];
    assert l.Keys == a.Keys + {p} + b.Keys == r.Keys;
    forall k | k in l.Keys ensures l[k] == r[k] {
      if k != p && k !in b { assert k in a; }
    }
  }

  lemma DropMiddle<V>(a: map<nat, V>, m: map<nat, V>, b: map<nat, V>, p: nat)
    requires m.Keys <= {p} && p !in a && p !in b
    ensures a + map[] + b == (a + m + b) - {p}
  {
    var l, r := a + map[] + b, (a + m + b) - {p};
    assert l.Keys == a.Keys + b.Keys == r.Keys;
  }

  lemma ReplaceLive(h: Heap, i: nat, b: Block)
    requires Inv(h) && i < |h.chain| && b.addr == h.chain[i].addr
    ensures Live(Replace(h, i, b).chain) ==
            if b.free then Live(h.chain) - {Ptr(b)} else Live(h.chain)[Ptr(b) := b.data]
  {
    hide Inv;
    PointerIsUnique(h, i);
    var x, y := h.chain[..i], h.chain[i + 1..];
    assert h.chain == x + [h.chain[i]] + y;
    LiveStretch(x, [h.chain[i]], y);
    LiveStretch(x, [b], y);
    LiveSingle(b);
    LiveSingle(h.chain[i]);
    if b.free {
      DropMiddle(Live(x), LiveOne(h.chain[i]), Live(y), Ptr(b));
    } else {
      PutMiddle(Live(x), LiveOne(h.chain[i]), Live(y), Ptr(b), b.data);
    }
  }

  lemma LiveFree(a: Block, b: Block)
    requires a.free && b.free
    ensures Live([a, b]) == map[]
  {
    assert [a, b][1..] == [b];
    LiveSingle(b);
  }

  lemma TryMergeLive(h: Heap, i: nat)
    ensures Live(TryMerge(h, i).chain) == Live(h.chain)
  {
    if CanMerge(h.chain, i) {
      var a, b := h.chain[i], h.chain[i + 1];
      assert h.chain == h.chain[..i] + [a, b] + h.chain[i + 2..];
      LiveStretch(h.chain[..i], [a, b], h.chain[i + 2..]);
      LiveStretch(h.chain[..i], [Merged(a, b)], h.chain[i + 2..]);
      LiveFree(a, b);
      LiveSingle(Merged(a, b));
    }
  }

  lemma SplitLive(h: Heap, i: nat, n: nat, data: seq<u8>)
    requires Inv(h) && i < |h.chain| && h.chain[i].free && h.chain[i].size >= n + HEADER
    ensures Ptr(h.chain[i]) !in Live(h.chain)
    ensures Live(Split(h, i, n, data).chain) == Live(h.chain)[Ptr(h.chain[i]) := data]
  {
    hide Inv;
    PointerIsUnique(h, i);
    var x, y, s := h.chain[..i], h.chain[i + 1..], Split(h, i, n, data).chain;
    assert h.chain == x + [h.chain[i]] + y;
    assert s == x + [s[i], s[i + 1]] + y;
    LiveStretch(x, [h.chain[i]], y);
    LiveStretch(x, [s[i], s[i + 1]], y);
    LiveSingle(h.chain[i]);
    LivePair(s[i], s[i + 1]);
    PutMiddle(Live(x), map[], Live(y), Ptr(h.chain[i]), data);
  }

  lemma LivePair(a: Block, b: Block)
    requires !a.free && b.free
    ensures Live([a, b]) == map[Ptr(a) := a.data]
  {
    assert [a, b][1..] == [b];
    LiveSingle(b);
  }

  // Allocation adds one fresh pointer and leaves every other allocation as it was.
  lemma AllocateLive(h: Heap, i: nat, n: nat, data: seq<u8>)
    requires Inv(h) && i < |h.chain| && h.chain[i].free && h.chain[i].size >= n + HEADER
    ensures Ptr(h.chain[i]) !in Live(h.chain)
    ensures Live(Allocate(h, i, n, data).chain) == Live(h.chain)[Ptr(h.chain[i]) := data]
  {
    hide Inv;
    SplitLive(h, i, n, data);
    TryMergeLive(Split(h, i, n, data), i + 1);
  }

  lemma ReleaseLive(h: Heap, i: nat)
    requires Inv(h) && i < |h.chain| && !h.chain[i].free
    ensures Live(Release(h, i).chain) == Live(h.chain) - {Ptr(h.chain[i])}
  {
    hide Inv;
    var b := h.chain[i].(free := true, data := []);
    ReplaceLive(h, i, b);
    TryMergeLive(Replace(h, i, b), i);
  }

  lemma {:induction false} AbsorbLive(c: seq<Block>)
    requires 0 < |c|
    ensures Live(Absorb(c)) == Live(c)
    decreases |c|
  {
    if CanMerge(c, 0) {
      var m := [Merged(c[0], c[1])] + c[2..];
      AbsorbLive(m);
      assert c[1..][1..] == c[2..] && m[1..] == c[2..];
    }
  }

  lemma {:induction false} WalkLive(c: seq<Block>, need: nat)
    ensures Live(Walk(c, need).0) == Live(c)
    decreases |c|
  {
    if c == [] || (c[0].free && c[0].size >= need) { return; }
    var m := if c[0].free then Absorb(c) else c;
    if c[0].free {
      AbsorbLive(c);
      if m[0].size >= need { return; }
    }
    WalkLive(m[1..], need);
    var w := Walk(m[1..], need).0;
    assert ([m[0]] + w)[1..] == w;
  }

  lemma GrowLive(h: Heap, p: nat, n: nat)
    requires Inv(h) && HEADER <= n
    ensures Live(Grow(h, p, n).chain) == Live(h.chain)
  {
    var k := |h.chain| - 1;
    if GrowsInPlace(h, p) {
      ReplaceLive(h, k, h.chain[k].(size := h.chain[k].size + n - HEADER));
      PointerIsUnique(h, k);
    } else {
      var b := Last(Grow(h, p, n).chain);
      LiveConcat(h.chain, [b]);
      LiveSingle(b);
    }
  }
}
