/** The exact account of every byte obtained from ksbrk. */
module HeapLedger {
  import opened HeapModel
  import opened HeapInvariant

  function Footprint(c: seq<Block>): nat {
    if c == [] then 0 else HEADER + c[0].size + Footprint(c[1..])
  }

  // Bytes obtained = bytes in the chain + a header for each merge and growth in place + bytes cut.
  ghost predicate Balanced(h: Heap) {
    Granted(h.regions) == Footprint(h.chain) + HEADER * (h.merges + h.growths) + h.cut
  }

  lemma {:induction false} FootprintConcat(a: seq<Block>, b: seq<Block>)
    ensures Footprint(a + b) == Footprint(a) + Footprint(b)
  {
    if a == [] {
      assert a + b == b;
    } else {
      FootprintConcat(a[1..], b);
      assert (a + b)[1..] == a[1..] + b;
    }
  }

  lemma FootprintStretch(a: seq<Block>, mid: seq<Block>, b: seq<Block>)
    ensures Footprint(a + mid + b) == Footprint(a) + Footprint(mid) + Footprint(b)
  {
    FootprintConcat(a + mid, b);
    FootprintConcat(a, mid);
  }

  lemma FootprintOne(b: Block)
    ensures Footprint([b]) == HEADER + b.size
  {
  }

  lemma FootprintTwo(a: Block, b: Block)
    ensures Footprint([a, b]) == HEADER + a.size + HEADER + b.size
  {
    assert [a, b][1..] == [b];
    FootprintOne(b);
  }

  lemma ReplaceFootprint(h: Heap, i: nat, b: Block)
    requires i < |h.chain|
    ensures Footprint(Replace(h, i, b).chain) + h.chain[i].size == Footprint(h.chain) + b.size
  {
    assert h.chain == h.chain[..i] + [h.chain[i]] + h.chain[i + 1..];
    FootprintStretch(h.chain[..i], [h.chain[i]], h.chain[i + 1..]);
    FootprintStretch(h.chain[..i], [b], h.chain[i + 1..]);
    FootprintOne(b);
    FootprintOne(h.chain[i]);
  }

  lemma TryMergeBalanced(h: Heap, i: nat)
    requires Balanced(h)
    ensures Balanced(TryMerge(h, i))
  {
    if CanMerge(h.chain, i) {
      var a, b := h.chain[i], h.chain[i + 1];
      assert h.chain == h.chain[..i] + [a, b] + h.chain[i + 2..];
      FootprintStretch(h.chain[..i], [a, b], h.chain[i + 2..]);
      FootprintStretch(h.chain[..i], [Merged(a, b)], h.chain[i + 2..]);
      FootprintTwo(a, b);
      FootprintOne(Merged(a, b));
    }
  }

  // A split conserves the sum exactly.
  lemma SplitFootprint(h: Heap, i: nat, n: nat, data: seq<u8>)
    requires i < |h.chain| && h.chain[i].size >= n + HEADER
    ensures Footprint(Split(h, i, n, data).chain) == Footprint(h.chain)
  {
    var s := Split(h, i, n, data).chain;
    assert h.chain == h.chain[..i] + [h.chain[i]] + h.chain[i + 1..];
    assert s == h.chain[..i] + [s[i], s[i + 1]] + h.chain[i + 1..];
    FootprintStretch(h.chain[..i], [h.chain[i]], h.chain[i + 1..]);
    FootprintStretch(h.chain[..i], [s[i], s[i + 1]], h.chain[i + 1..]);
    FootprintOne(h.chain[i]);
    FootprintTwo(s[i], s[i + 1]);
  }

  lemma AllocateBalanced(h: Heap, i: nat, n: nat, data: seq<u8>)
    requires Balanced(h) && i < |h.chain| && h.chain[i].size >= n + HEADER
    ensures Balanced(Allocate(h, i, n, data))
  {
    SplitFootprint(h, i, n, data);
    TryMergeBalanced(Split(h, i, n, data), i + 1);
  }

  lemma ReleaseBalanced(h: Heap, i: nat)
    requires Balanced(h) && i < |h.chain|
    ensures Balanced(Release(h, i))
  {
    var b := h.chain[i].(free := true, data := []);
    ReplaceFootprint(h, i, b);
    TryMergeBalanced(Replace(h, i, b), i);
  }

  lemma ShrinkBalanced(h: Heap, i: nat, n: nat)
    requires Balanced(h) && i < |h.chain| && n <= h.chain[i].size <= |h.chain[i].data|
    ensures Balanced(Shrink(h, i, n))
  {
    var b := h.chain[i];
    ReplaceFootprint(h, i, b.(size := n, data := b.data[..n]));
  }

  lemma FillBalanced(h: Heap, i: nat, data: seq<u8>)
    requires Balanced(h) && i < |h.chain|
    ensures Balanced(Fill(h, i, data))
  {
    ReplaceFootprint(h, i, h.chain[i].(data := data));
  }

  lemma {:induction false} AbsorbFootprint(c: seq<Block>)
    requires 0 < |c|
    ensures Footprint(c) == Footprint(Absorb(c)) + HEADER * (|c| - |Absorb(c)|)
    decreases |c|
  {
    if CanMerge(c, 0) {
      var m := [Merged(c[0], c[1])] + c[2..];
      AbsorbFootprint(m);
      assert c[1..][1..] == c[2..] && m[1..] == c[2..];
    }
  }

  lemma {:induction false} WalkFootprint(c: seq<Block>, need: nat)
    ensures Footprint(c) == Footprint(Walk(c, need).0) + HEADER * (|c| - |Walk(c, need).0|)
    decreases |c|
  {
    if c == [] || (c[0].free && c[0].size >= need) { return; }
    var m := if c[0].free then Absorb(c) else c;
    if c[0].free {
      AbsorbFootprint(c);
      if m[0].size >= need { return; }
    }
    WalkFootprint(m[1..], need);
    var w := Walk(m[1..], need).0;
    assert ([m[0]] + w)[1..] == w;
  }

  lemma FindBalanced(h: Heap, need: nat)
    requires Balanced(h)
    ensures Balanced(Find(h, need).0)
  {
    WalkFootprint(h.chain, need);
  }

  lemma GrowBalanced(h: Heap, p: nat, n: nat)
    requires Inv(h) && Balanced(h) && HEADER <= n && GrantOk(h, p, n)
    ensures Balanced(Grow(h, p, n))
  {
    GrowKeepsInv(h, p, n);
    var k := |h.chain| - 1;
    if GrowsInPlace(h, p) {
      ReplaceFootprint(h, k, h.chain[k].(size := h.chain[k].size + n - HEADER));
    } else {
      var b := Last(Grow(h, p, n).chain);
      FootprintConcat(h.chain, [b]);
      FootprintOne(b);
    }
  }

  lemma InitialBalanced(p: nat)
    ensures Balanced(Initial(p))
  {
    var h := Initial(p);
    FootprintOne(h.chain[0]);
    GrantedAppend([], h.regions[0]);
    assert [] + h.regions == h.regions;
  }
}
