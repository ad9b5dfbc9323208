/** Every operation on the chain keeps the heap invariant, and what the invariant means. */
module HeapInvariant {
  import opened HeapModel

  // ------------------------------------------------------------------------------------------
  // What the invariant says about positions in the chain
  // ------------------------------------------------------------------------------------------

  ghost predicate Before(a: Block, b: Block) {
    a.region < b.region || (a.region == b.region && End(a) <= b.addr)
  }

  lemma {:induction false} LinkedIsOrdered(c: seq<Block>, i: nat, j: nat)
    requires Linked(c) && i < j < |c|
    ensures Before(c[i], c[j])
    ensures c[i].region == c[j].region ==> !c[i].fin
    decreases j
  {
    assert Link(c[j - 1], c[j]);
    if i < j - 1 {
      LinkedIsOrdered(c, i, j - 1);
      assert Link(c[i], c[i + 1]);
      if i + 1 < j - 1 { LinkedIsOrdered(c, i + 1, j - 1); }
    }
  }

  ghost predicate BlocksApart(a: Block, b: Block) {
    End(a) <= b.addr || End(b) <= a.addr
  }

  // Headers and payloads of different blocks never overlap.
  lemma {:induction false} BlocksAreDisjoint(h: Heap, i: nat, j: nat)
    requires Inv(h) && i < j < |h.chain|
    ensures BlocksApart(h.chain[i], h.chain[j])
    ensures h.chain[i].addr != h.chain[j].addr
  {
    LinkedIsOrdered(h.chain, i, j);
    assert BlockOk(h.chain[i], h.regions) && BlockOk(h.chain[j], h.regions);
    if h.chain[i].region != h.chain[j].region {
      assert Apart(h.regions[h.chain[i].region], h.regions[h.chain[j].region]);
    }
  }

  // IS_FINAL marks exactly the last block of each region, and that block is free.
  lemma {:induction false} FinalIsTheFence(h: Heap, i: nat)
    requires Inv(h) && i < |h.chain|
    ensures h.chain[i].fin <==> forall j :: i < j < |h.chain| ==> h.chain[j].region != h.chain[i].region
    ensures h.chain[i].fin ==> h.chain[i].free
  {
    assert BlockOk(h.chain[i], h.regions);
    if i + 1 < |h.chain| {
      assert Link(h.chain[i], h.chain[i + 1]);
      if h.chain[i].fin {
        forall j | i < j < |h.chain| ensures h.chain[j].region != h.chain[i].region {
          LinkedIsOrdered(h.chain, i, j);
        }
      }
    }
  }

  // No merge joins blocks of two regions.
  lemma MergeStaysInRegion(h: Heap, i: nat)
    requires Inv(h) && CanMerge(h.chain, i)
    ensures h.chain[i].region == h.chain[i + 1].region < |h.regions|
    ensures h.regions[h.chain[i].region].lo <= h.chain[i].addr
    ensures End(Merged(h.chain[i], h.chain[i + 1])) + HEADER <= End(h.chain[i + 1]) <= h.regions[h.chain[i].region].hi
  {
    assert Link(h.chain[i], h.chain[i + 1]);
    assert BlockOk(h.chain[i], h.regions) && BlockOk(h.chain[i + 1], h.regions);
  }

  // Every region has its final block: regions are never lost.
  lemma {:induction false} EveryRegionHasAFence(h: Heap, r: nat) returns (i: nat)
    requires Inv(h) && r < |h.regions|
    ensures i < |h.chain| && h.chain[i].region == r && h.chain[i].fin
  {
    i := |h.chain| - 1;
    while h.chain[i].region != r
      invariant i < |h.chain| && h.chain[i].region >= r
      invariant h.chain[i].region == r ==> h.chain[i].fin
      decreases i
    {
      assert i != 0;
      i := i - 1;
      assert Link(h.chain[i], h.chain[i + 1]);
    }
  }

  // ------------------------------------------------------------------------------------------
  // Replacing a stretch of the chain
  // ------------------------------------------------------------------------------------------

  // New blocks "mid'" may stand where "mid" stood.
  ghost predicate Refits(mid: seq<Block>, mid': seq<Block>, regions: seq<Region>) {
    && 0 < |mid| && 0 < |mid'|
    && Linked(mid') && AllOk(mid', regions)
    && mid'[0].addr == mid[0].addr && mid'[0].region == mid[0].region
    && Last(mid').fin == Last(mid).fin && Last(mid').region == Last(mid).region
    && End(Last(mid')) <= End(Last(mid))
  }

  lemma LinkedStretch(a: seq<Block>, mid: seq<Block>, mid': seq<Block>, b: seq<Block>, regions: seq<Region>)
    requires Linked(a + mid + b) && AllOk(a + mid + b, regions)
    requires Refits(mid, mid', regions)
    ensures Linked(a + mid' + b) && AllOk(a + mid' + b, regions)
  {
    var c, d := a + mid + b, a + mid' + b;
    var n, n' := |a| + |mid|, |a| + |mid'|;
    forall i | 0 <= i < |d| - 1 ensures Link(d[i], d[i + 1]) {
      if i < |a| {
        assert Link(c[i], c[i + 1]);
      } else if i < n' - 1 {
        assert Link(mid'[i - |a|], mid'[i - |a| + 1]);
      } else {
        assert Link(c[i - n' + n], c[i - n' + n + 1]);
      }
    }
    forall i | 0 <= i < |d| ensures BlockOk(d[i], regions) {
      if i < |a| {
        assert BlockOk(c[i], regions);
      } else if n' <= i {
        assert BlockOk(c[i - n' + n], regions);
      }
    }
  }

  lemma StretchKeepsInv(h: Heap, h': Heap, a: seq<Block>, mid: seq<Block>, mid': seq<Block>, b: seq<Block>)
    requires Inv(h) && h.chain == a + mid + b && h'.chain == a + mid' + b && h'.regions == h.regions
    requires Refits(mid, mid', h.regions)
    ensures Inv(h')
  {
    LinkedStretch(a, mid, mid', b, h.regions);
    assert h'.chain[0].region == 0 by {
      if a == [] { assert h'.chain[0] == mid'[0] && h.chain[0] == mid[0]; }
      else { assert h'.chain[0] == a[0] && h.chain[0] == a[0]; }
    }
    assert Last(h'.chain).fin && Last(h'.chain).region == |h.regions| - 1 by {
      if b == [] { assert Last(h'.chain) == Last(mid') && Last(h.chain) == Last(mid); }
      else { assert Last(h'.chain) == Last(b) && Last(h.chain) == Last(b); }
    }
  }

  lemma ReplaceKeepsInv(h: Heap, i: nat, b: Block)
    requires Inv(h) && i < |h.chain|
    requires Refits([h.chain[i]], [b], h.regions)
    ensures Inv(Replace(h, i, b))
  {
    assert h.chain == h.chain[..i] + [h.chain[i]] + h.chain[i + 1..];
    StretchKeepsInv(h, Replace(h, i, b), h.chain[..i], [h.chain[i]], [b], h.chain[i + 1..]);
  }

  // ------------------------------------------------------------------------------------------
  // Each operation keeps the invariant
  // ------------------------------------------------------------------------------------------

  lemma MergedRefits(a: Block, b: Block, regions: seq<Region>)
    requires Mergeable(a, b) && Link(a, b) && BlockOk(a, regions) && BlockOk(b, regions)
    ensures Refits([a, b], [Merged(a, b)], regions)
  {
  }

  lemma MergeKeepsInv(h: Heap, i: nat)
    requires Inv(h) && CanMerge(h.chain, i)
    ensures Inv(Merge(h, i))
  {
    var a, b := h.chain[i], h.chain[i + 1];
    assert Link(a, b) && BlockOk(a, h.regions) && BlockOk(b, h.regions);
    MergedRefits(a, b, h.regions);
    assert h.chain == h.chain[..i] + [a, b] + h.chain[i + 2..];
    StretchKeepsInv(h, Merge(h, i), h.chain[..i], [a, b], [Merged(a, b)], h.chain[i + 2..]);
  }

  lemma TryMergeKeepsInv(h: Heap, i: nat)
    requires Inv(h)
    ensures Inv(TryMerge(h, i))
  {
    if CanMerge(h.chain, i) { MergeKeepsInv(h, i); }
  }

  lemma AllocateKeepsInv(h: Heap, i: nat, n: nat, data: seq<u8>)
    requires Inv(h) && i < |h.chain| && h.chain[i].free && h.chain[i].size >= n + HEADER && |data| == n
    ensures Inv(Split(h, i, n, data)) && Inv(Allocate(h, i, n, data))
  {
    var b, s := h.chain[i], Split(h, i, n, data);
    var used, rest := s.chain[i], s.chain[i + 1];
    assert BlockOk(b, h.regions);
    assert h.chain == h.chain[..i] + [b] + h.chain[i + 1..];
    assert Link(used, rest) && BlockOk(used, h.regions) && BlockOk(rest, h.regions);
    StretchKeepsInv(h, s, h.chain[..i], [b], [used, rest], h.chain[i + 1..]);
    TryMergeKeepsInv(s, i + 1);
  }

  lemma ReleaseKeepsInv(h: Heap, i: nat)
    requires Inv(h) && i < |h.chain| && !h.chain[i].free
    ensures Inv(Replace(h, i, h.chain[i].(free := true, data := []))) && Inv(Release(h, i))
  {
    assert BlockOk(h.chain[i], h.regions);
    var b := h.chain[i].(free := true, data := []);
    ReplaceKeepsInv(h, i, b);
    TryMergeKeepsInv(Replace(h, i, b), i);
  }

  lemma ShrinkKeepsInv(h: Heap, i: nat, n: nat)
    requires Inv(h) && i < |h.chain| && !h.chain[i].free && n <= h.chain[i].size
    ensures |h.chain[i].data| == h.chain[i].size && Inv(Shrink(h, i, n))
  {
    assert BlockOk(h.chain[i], h.regions);
    ReplaceKeepsInv(h, i, h.chain[i].(size := n, data := h.chain[i].data[..n]));
  }

  lemma FillKeepsInv(h: Heap, i: nat, data: seq<u8>)
    requires Inv(h) && i < |h.chain| && !h.chain[i].free && |data| == h.chain[i].size
    ensures Inv(Fill(h, i, data))
  {
    assert BlockOk(h.chain[i], h.regions);
    ReplaceKeepsInv(h, i, h.chain[i].(data := data));
  }

  // ------------------------------------------------------------------------------------------
  // The first-fit walk keeps the invariant
  // ------------------------------------------------------------------------------------------

  // What a walk may do to a stretch of the chain: it refits it, region by region.
  ghost predicate Chained(c: seq<Block>, regions: seq<Region>) {
    0 < |c| && Linked(c) && AllOk(c, regions)
  }

  lemma TailChained(c: seq<Block>, regions: seq<Region>)
    requires Chained(c, regions) && 1 < |c|
    ensures Chained(c[1..], regions) && Link(c[0], c[1])
  {
    forall i | 0 <= i < |c| - 2 ensures Link(c[1..][i], c[1..][i + 1]) {
      assert Link(c[i + 1], c[i + 2]);
    }
  }

  lemma MergeHeadRefits(c: seq<Block>, regions: seq<Region>)
    requires Chained(c, regions) && CanMerge(c, 0)
    ensures Refits(c, [Merged(c[0], c[1])] + c[2..], regions)
  {
    var m := [Merged(c[0], c[1])];
    assert Link(c[0], c[1]);
    MergedRefits(c[0], c[1], regions);
    assert c == [] + [c[0], c[1]] + c[2..] && m + c[2..] == [] + m + c[2..];
    LinkedStretch([], [c[0], c[1]], m, c[2..], regions);
  }

  lemma {:induction false} AbsorbRefits(c: seq<Block>, regions: seq<Region>)
    requires Chained(c, regions)
    ensures Refits(c, Absorb(c), regions)
    decreases |c|
  {
    if CanMerge(c, 0) {
      MergeHeadRefits(c, regions);
      AbsorbRefits([Merged(c[0], c[1])] + c[2..], regions);
    }
  }

  lemma BehindRefits(b: Block, c: seq<Block>, c': seq<Block>, regions: seq<Region>)
    requires Chained([b] + c, regions) && (if c == [] then c' == [] else Refits(c, c', regions))
    ensures Refits([b] + c, [b] + c', regions)
  {
    if c != [] {
      assert [b] + c + [] == [b] + c && [b] + c' + [] == [b] + c';
      LinkedStretch([b], c, c', [], regions);
      assert Last([b] + c) == Last(c) && Last([b] + c') == Last(c');
    }
  }

  lemma {:induction false} WalkRefits(c: seq<Block>, need: nat, regions: seq<Region>)
    requires Chained(c, regions)
    ensures Refits(c, Walk(c, need).0, regions)
    decreases |c|
  {
    if c[0].free && c[0].size >= need {
      return;
    }
    var m := if c[0].free then Absorb(c) else c;
    if c[0].free {
      AbsorbRefits(c, regions);
      AbsorbKeepsHead(c);
      if m[0].size >= need { return; }
    }
    assert m == [m[0]] + m[1..];
    if 1 < |m| {
      TailChained(m, regions);
      WalkRefits(m[1..], need, regions);
    }
    BehindRefits(m[0], m[1..], Walk(m[1..], need).0, regions);
  }

  lemma FindKeepsInv(h: Heap, need: nat)
    requires Inv(h)
    ensures Inv(Find(h, need).0)
  {
    var c := Walk(h.chain, need).0;
    WalkRefits(h.chain, need, h.regions);
    assert c[0].region == h.chain[0].region;
  }

  // ------------------------------------------------------------------------------------------
  // Growing keeps the invariant
  // ------------------------------------------------------------------------------------------

  // Memory that continues the last block also continues the last region.
  lemma GrowthContinuesRegion(h: Heap, p: nat, n: nat)
    requires Inv(h) && HEADER <= n && GrantOk(h, p, n) && GrowsInPlace(h, p)
    ensures Last(h.regions).hi == p
  {
    assert BlockOk(Last(h.chain), h.regions);
    assert Apart(h.regions[|h.regions| - 1], Region(p, p + n));
  }

  lemma GrantedAppend(rs: seq<Region>, r: Region)
    ensures Granted(rs + [r]) == Granted(rs) + r.hi - r.lo
  {
    assert (rs + [r])[..|rs|] == rs;
  }

  lemma GrantedUpdateLast(rs: seq<Region>, r: Region)
    requires 0 < |rs| && r.lo == Last(rs).lo
    ensures Granted(rs[|rs| - 1 := r]) == Granted(rs) + r.hi - Last(rs).hi
  {
    assert rs[|rs| - 1 := r][..|rs| - 1] == rs[..|rs| - 1];
  }

  lemma GrowInPlaceKeepsInv(h: Heap, p: nat, n: nat)
    requires Inv(h) && HEADER <= n && GrantOk(h, p, n) && GrowsInPlace(h, p)
    ensures Inv(Grow(h, p, n))
    ensures Granted(Grow(h, p, n).regions) == Granted(h.regions) + n
  {
    var h', k, q := Grow(h, p, n), |h.chain| - 1, |h.regions| - 1;
    var r, s := Region(h.regions[q].lo, p + n), Region(p, p + n);
    GrowthContinuesRegion(h, p, n);
    GrantedUpdateLast(h.regions, r);
    assert h'.regions == h.regions[q := r];
    forall i, j | 0 <= i < j < |h'.regions| ensures Apart(h'.regions[i], h'.regions[j]) {
      assert Apart(h.regions[i], h.regions[j]);
      assert Apart(h.regions[i], s);
    }
    assert h'.chain == h.chain[..k] + [h'.chain[k]];
    forall i | 0 <= i < |h'.chain| - 1 ensures Link(h'.chain[i], h'.chain[i + 1]) {
      assert Link(h.chain[i], h.chain[i + 1]);
    }
    forall i | 0 <= i < |h'.chain| ensures BlockOk(h'.chain[i], h'.regions) {
      assert BlockOk(h.chain[i], h.regions);
    }
    assert h'.chain[0].region == h.chain[0].region;
  }

  lemma GrowByRegionKeepsInv(h: Heap, p: nat, n: nat)
    requires Inv(h) && HEADER <= n && GrantOk(h, p, n) && !GrowsInPlace(h, p)
    ensures Inv(Grow(h, p, n))
    ensures Granted(Grow(h, p, n).regions) == Granted(h.regions) + n
  {
    var h', k := Grow(h, p, n), |h.chain| - 1;
    var s := Region(p, p + n);
    GrantedAppend(h.regions, s);
    forall i | 0 <= i < |h.regions| ensures Apart(h'.regions[i], s) {
      assert Apart(h.regions[i], s);
    }
    forall i | 0 <= i < |h'.chain| - 1 ensures Link(h'.chain[i], h'.chain[i + 1]) {
      if i < k { assert Link(h.chain[i], h.chain[i + 1]); }
    }
    forall i | 0 <= i < |h'.chain| ensures BlockOk(h'.chain[i], h'.regions) {
      if i <= k { assert BlockOk(h.chain[i], h.regions); }
    }
    assert h'.chain[0] == h.chain[0];
  }

  lemma GrowKeepsInv(h: Heap, p: nat, n: nat)
    requires Inv(h) && HEADER <= n && GrantOk(h, p, n)
    ensures Inv(Grow(h, p, n))
    ensures Granted(Grow(h, p, n).regions) == Granted(h.regions) + n
  {
    if GrowsInPlace(h, p) { GrowInPlaceKeepsInv(h, p, n); } else { GrowByRegionKeepsInv(h, p, n); }
  }

  lemma InitialInv(p: nat)
    requires 0 < p && p + NEW_ALLOC_SIZE <= U64
    ensures Inv(Initial(p))
  {
    var rs := [Region(p, p + NEW_ALLOC_SIZE)];
    assert rs == [] + rs;
    GrantedAppend([], rs[0]);
    assert BlockOk(Initial(p).chain[0], rs);
  }

  lemma RegionWithinGranted(rs: seq<Region>, i: nat)
    requires i < |rs| && forall k :: 0 <= k < |rs| ==> rs[k].lo <= rs[k].hi
    ensures rs[i].hi - rs[i].lo <= Granted(rs) && 0 <= Granted(rs[..|rs| - 1])
  {
    GrantedNonNegative(rs[..|rs| - 1]);
    if i < |rs| - 1 { RegionWithinGranted(rs[..|rs| - 1], i); }
  }

  lemma GrantedNonNegative(rs: seq<Region>)
    requires forall k :: 0 <= k < |rs| ==> rs[k].lo <= rs[k].hi
    ensures 0 <= Granted(rs)
  {
    if rs != [] { GrantedNonNegative(rs[..|rs| - 1]); }
  }

  // Sizes fit the header's 32-bit field, addresses its 64-bit link.
  lemma FieldsFit(h: Heap, i: nat)
    requires Inv(h) && i < |h.chain|
    ensures h.chain[i].size + HEADER < U32 && 0 < h.chain[i].addr && End(h.chain[i]) <= U64
  {
    assert BlockOk(h.chain[i], h.regions);
    RegionWithinGranted(h.regions, h.chain[i].region);
  }

  // ------------------------------------------------------------------------------------------
  // What allocating and freeing merge
  // ------------------------------------------------------------------------------------------

  // The chain after an allocation: the rest behind it takes in the free block that followed in its region.
  lemma AllocateMerges(h: Heap, i: nat, n: nat, data: seq<u8>)
    requires i < |h.chain| && h.chain[i].free && h.chain[i].size >= n + HEADER
    ensures var c, d := h.chain, Allocate(h, i, n, data).chain;
            var merged := i + 1 < |c| && !c[i].fin && c[i + 1].free;
            && |d| == (if merged then |c| else |c| + 1) && d[..i] == c[..i]
            && d[i] == Block(c[i].addr, n, false, false, c[i].region, data)
            && d[i + 1].addr == c[i].addr + 24 + n && d[i + 1].free
            && d[i + 1].size == c[i].size - n - 24 + (if merged then c[i + 1].size else 0)
            && d[i + 1].fin == (c[i].fin || (merged && c[i + 1].fin))
            && d[i + 2..] == if merged then c[i + 2..] else c[i + 1..]
  {
    var c, s := h.chain, Split(h, i, n, data).chain;
    assert s[..i] == c[..i] && s[i + 2..] == c[i + 1..];
    assert i + 2 < |s| ==> s[i + 2] == c[i + 1];
    var d := Allocate(h, i, n, data).chain;
    if CanMerge(s, i + 1) {
      assert d == s[..i + 1] + [Merged(s[i + 1], s[i + 2])] + s[i + 3..];
      assert s[i + 3..] == c[i + 2..];
    }
  }

  // So if no two neighbours could be merged but those at the block it cuts from, none can be afterwards.
  lemma AllocateCompacts(h: Heap, i: nat, n: nat, data: seq<u8>)
    requires i < |h.chain| && h.chain[i].free && h.chain[i].size >= n + HEADER
    requires forall j :: 0 <= j < |h.chain| && j != i ==> !CanMerge(h.chain, j)
    ensures var d := Allocate(h, i, n, data).chain; forall j :: 0 <= j < |d| ==> !CanMerge(d, j)
  {
    AllocateMerges(h, i, n, data);
    var c, d := h.chain, Allocate(h, i, n, data).chain;
    var more := if |d| == |c| then 0 else 1;
    forall j | 0 <= j < |d| ensures !CanMerge(d, j) {
      if j + 1 < i {
        assert d[j] == d[..i][j] && d[j + 1] == d[..i][j + 1] && !CanMerge(c, j);
      } else if i + 2 <= j {
        var l := j - more;
        assert d[i + 2..][j - i - 2] == d[j];
        if j + 1 < |d| { assert d[i + 2..][j - i - 1] == d[j + 1] && !CanMerge(c, l); }
      } else if j == i + 1 && j + 1 < |d| {
        assert d[i + 2] == d[i + 2..][0];
        if more == 0 { assert !CanMerge(c, i + 1); }
      }
    }
  }

  // Freeing merges forwards only: afterwards exactly a free block of the region before can still be merged.
  lemma ReleaseCompacts(h: Heap, i: nat)
    requires i < |h.chain| && !h.chain[i].free && !h.chain[i].fin
    requires forall j :: 0 <= j < |h.chain| ==> !CanMerge(h.chain, j)
    ensures var d := Release(h, i).chain;
            forall j :: 0 <= j < |d| ==> (CanMerge(d, j) <==> j + 1 == i && h.chain[j].free && !h.chain[j].fin)
  {
    var c, f := h.chain, Replace(h, i, h.chain[i].(free := true, data := [])).chain;
    assert f == c[i := c[i].(free := true, data := [])];
    var d := Release(h, i).chain;
    if CanMerge(f, i) {
      assert d == f[..i] + [Merged(f[i], f[i + 1])] + f[i + 2..];
      assert !CanMerge(c, i + 1);
      forall j | 0 <= j < |d| ensures CanMerge(d, j) <==> j + 1 == i && c[j].free && !c[j].fin {
        assert j < i ==> d[j] == c[j] && !CanMerge(c, j);
        if i < j { assert d[j] == c[j + 1] && !CanMerge(c, j + 1); }
        if i <= j && j + 1 < |d| { assert d[j + 1] == c[j + 2]; }
      }
    } else {
      forall j | 0 <= j < |d| ensures CanMerge(d, j) <==> j + 1 == i && c[j].free && !c[j].fin {
        assert !CanMerge(c, j);
      }
    }
  }
}
