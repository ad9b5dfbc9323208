/** The allocator's interface as functions on the heap, and what holds over every run of calls. */
module HeapRun {
  import opened Prelude
  import opened HeapModel
  import opened HeapInvariant
  import opened HeapSearch
  import opened HeapLedger
  import opened HeapLive

  const NULL: nat := 0
  const SIZE_MAX: nat := U64 - 1
  const MUL_NO_OVERFLOW: nat := U32

  // The guard shared by kreallocarray, krecalloc and kcalloc.
  predicate MulRejected(n: nat, e: nat) {
    (n >= MUL_NO_OVERFLOW || e >= MUL_NO_OVERFLOW) && n > 0 && SIZE_MAX / n < e
  }

  function Zeros(n: nat): (z: seq<u8>)
    ensures |z| == n && forall i :: 0 <= i < n ==> z[i] == 0
  {
    seq(n, _ => 0)
  }

  // ------------------------------------------------------------------------------------------
  // The interface.  "grant" is ksbrk's answer if it is asked; the last component is the pointer
  // returned.  "data" stands for the bytes the new payload holds on return.
  // ------------------------------------------------------------------------------------------

  ghost function TakeFound(f: Heap, r: Option<nat>, s: nat, data: seq<u8>): (Heap, nat)
    requires r.Some? ==> r.value < |f.chain| && f.chain[r.value].size >= s + HEADER
  {
    if r.Some? then (Allocate(f, r.value, s, data), Ptr(f.chain[r.value])) else (f, NULL)
  }

  ghost function Kmalloc(h: Heap, s: nat, grant: Option<nat>, data: seq<u8>): (Heap, nat) {
    if U32 <= s + HEADER then (Find(h, Need(s)).0, NULL)
    else
      var (f, r) := Find(h, s + HEADER);
      if r.Some? || grant.None? || f.chain == [] || f.regions == [] then
        TakeFound(f, r, s, data)
      else
        var (f', r') := Find(Grow(f, grant.value, GrantSize(s)), s + HEADER);
        TakeFound(f', r', s, data)
  }

  ghost function Kfree(h: Heap, p: nat): Heap {
    var i := IndexOf(h.chain, p);
    if p == NULL || i == |h.chain| then h else Release(h, i)
  }

  // The payload of a live pointer, and storing into it.
  ghost function Payload(h: Heap, p: nat): seq<u8> {
    var i := IndexOf(h.chain, p);
    if i < |h.chain| then h.chain[i].data else []
  }

  ghost function Poke(h: Heap, p: nat, data: seq<u8>): Heap {
    var i := IndexOf(h.chain, p);
    if i < |h.chain| then Fill(h, i, data) else h
  }

  ghost function Krealloc(h: Heap, p: nat, s: nat, grant: Option<nat>, noise: seq<u8>): (Heap, nat)
    requires |noise| == s
  {
    var i := IndexOf(h.chain, p);
    if p == NULL || i == |h.chain| then
      Kmalloc(h, s, grant, noise)
    else
      var old_ := Payload(h, p);
      if |old_| == s then (h, p)
      else if |old_| > s then
        (if h.chain[i].size == |old_| then Shrink(h, i, s) else h, p)
      else
        var (h1, r) := Kmalloc(h, s, grant, noise);
        if r == NULL then (h1, NULL) else (Kfree(Poke(h1, r, old_ + noise[|old_|..]), p), r)
  }

  ghost function Kreallocarray(h: Heap, p: nat, n: nat, e: nat, grant: Option<nat>, noise: seq<u8>): (Heap, nat)
    requires MulRejected(n, e) || |noise| == n * e
  {
    if MulRejected(n, e) then (h, NULL) else Krealloc(h, p, n * e, grant, noise)
  }

  ghost function Kcalloc(h: Heap, n: nat, e: nat, grant: Option<nat>): (Heap, nat) {
    if MulRejected(n, e) then (h, NULL) else Kmalloc(h, n * e, grant, Zeros(n * e))
  }

  ghost function Krecalloc(h: Heap, p: nat, n: nat, e: nat, grant: Option<nat>): (Heap, nat) {
    if MulRejected(n, e) then (h, NULL)
    else if p == NULL then Kcalloc(h, n, e, grant)
    else
      var (h1, r) := Kmalloc(h, n * e, grant, Recalloced(Payload(h, p), n * e));
      if r == NULL then (h1, NULL) else (Kfree(h1, p), r)
  }

  // The first bytes of the old payload, then zeros.
  function Recalloced(old_: seq<u8>, s: nat): (d: seq<u8>)
    ensures |d| == s
    ensures forall i :: 0 <= i < s ==> d[i] == if i < |old_| then old_[i] else 0
  {
    old_[..Min(|old_|, s)] + Zeros(s - Min(|old_|, s))
  }

  // ------------------------------------------------------------------------------------------
  // The overflow guard
  // ------------------------------------------------------------------------------------------

  lemma MulMonotone(a: nat, b: nat, c: nat, d: nat)
    requires a <= c && b <= d
    ensures a * b <= c * d
  {
    assert a * b <= a * d && a * d <= c * d;
  }

  // The guard rejects exactly the products that do not fit a size_t.
  lemma {:induction false} MulRejectedIsOverflow(n: nat, e: nat)
    requires n < U64 && e < U64
    ensures MulRejected(n, e) <==> n * e > SIZE_MAX
  {
    if n > 0 {
      var q := SIZE_MAX / n;
      assert n * q <= SIZE_MAX < n * (q + 1);
      if q < e {
        MulMonotone(n, q + 1, n, e);
        if n < MUL_NO_OVERFLOW && e < MUL_NO_OVERFLOW {
          MulMonotone(n, e, U32 - 1, U32 - 1);
        }
      } else {
        MulMonotone(n, e, n, q);
      }
    }
  }

  // ------------------------------------------------------------------------------------------
  // Each call refines a map update
  // ------------------------------------------------------------------------------------------

  ghost predicate Good(h: Heap) {
    Inv(h) && Balanced(h)
  }

  // The 32-bit search is made for less than the request, and finds a block.
  ghost predicate Overruns(h: Heap, s: nat) {
    U32 <= s + HEADER && Find(h, Need(s)).1.Some?
  }

  // Exactly then the block that the search finds does not hold the request and a header.
  lemma OverrunsIff(h: Heap, s: nat)
    requires Good(h) && Find(h, Need(s)).1.Some?
    ensures var (f, r) := Find(h, Need(s));
            r.value < |f.chain| && f.chain[r.value].free && (f.chain[r.value].size < s + HEADER <==> Overruns(h, s))
  {
    hide Inv;
    var (f, r) := Find(h, Need(s));
    FindRefines(h, Need(s));
    FieldsFit(f, r.value);
    WrappedRequestOverruns(s, f.chain[r.value].size);
  }

  ghost predicate GrantAllowed(h: Heap, s: nat, grant: Option<nat>) {
    !Overruns(h, s) && (grant.Some? ==> GrantOk(h, grant.value, GrantSize(s)))
  }

  // Of 4 GiB there is neither a run in the heap nor an answer of ksbrk.
  lemma TooLarge(h: Heap, s: nat, grant: Option<nat>)
    requires Good(h) && U32 <= s + HEADER && (grant.Some? ==> GrantOk(h, grant.value, GrantSize(s)))
    ensures !HasRoom(h, s) && grant.None?
  {
    hide Inv, HasRoom;
    GrantSizeSuffices(s);
    FindIffRoom(h, s);
    var (f, r) := Find(h, s + HEADER);
    FindRefines(h, s + HEADER);
    if r.Some? { FieldsFit(f, r.value); }
    GrantedIsNatural(h);
  }

  lemma GrantedIsNatural(h: Heap)
    requires Inv(h)
    ensures 0 <= Granted(h.regions)
  {
    GrantedNonNegative(h.regions);
  }

  // The allocation adds one fresh pointer, or fails and changes no allocation.
  ghost predicate Adds(h: Heap, h': Heap, r: nat, data: seq<u8>) {
    if r == NULL then Live(h'.chain) == Live(h.chain)
    else r !in Live(h.chain) && Live(h'.chain) == Live(h.chain)[r := data]
  }

  lemma TakeFoundRefines(f: Heap, r: Option<nat>, s: nat, data: seq<u8>)
    requires Good(f) && |data| == s
    requires r.Some? ==> r.value < |f.chain| && f.chain[r.value].free && f.chain[r.value].size >= s + HEADER
    ensures var (h', p) := TakeFound(f, r, s, data);
            && Good(h') && Adds(f, h', p, data)
            && (p == NULL <==> r.None?) && h'.regions == f.regions
  {
    if r.Some? {
      AllocateKeepsInv(f, r.value, s, data);
      AllocateBalanced(f, r.value, s, data);
      AllocateLive(f, r.value, s, data);
    }
  }

  lemma FindRefines(h: Heap, need: nat)
    requires Good(h)
    ensures var f := Find(h, need).0; Good(f) && Live(f.chain) == Live(h.chain) && f.regions == h.regions
  {
    FindKeepsInv(h, need);
    FindBalanced(h, need);
    WalkLive(h.chain, need);
  }

  // kmalloc fails exactly when no run of free blocks is large enough and ksbrk gives nothing.
  ghost predicate HasRun(c: seq<Block>, need: nat) {
    exists k :: 0 <= k < |c| && Fits(c, k, need)
  }

  ghost predicate HasRoom(h: Heap, s: nat) {
    HasRun(h.chain, s + HEADER)
  }

  lemma FindIffRoom(h: Heap, s: nat)
    ensures Find(h, s + HEADER).1.Some? <==> HasRoom(h, s)
  {
    var k := WalkFindsFirstFit(h.chain, s + HEADER);
  }

  lemma KmallocRefines(h: Heap, s: nat, grant: Option<nat>, data: seq<u8>)
    requires Good(h) && GrantAllowed(h, s, grant) && |data| == s
    ensures var (h', r) := Kmalloc(h, s, grant, data);
            && Good(h') && Adds(h, h', r, data)
            && (r == NULL <==> !HasRoom(h, s) && grant.None?)
  {
    hide Balanced, Live, Walk, Allocate, Linked, AllOk, RegionsOk, HasRoom;
    if U32 <= s + HEADER {
      TooLarge(h, s, grant);
      FindRefines(h, Need(s));
      return;
    }
    var (f, r) := Find(h, s + HEADER);
    FindRefines(h, s + HEADER);
    FindIffRoom(h, s);
    if r.Some? || grant.None? {
      TakeFoundRefines(f, r, s, data);
    } else {
      var p, n := grant.value, GrantSize(s);
      GrantSizeSuffices(s);
      GrowKeepsInv(f, p, n);
      GrowBalanced(f, p, n);
      GrowLive(f, p, n);
      var g := Grow(f, p, n);
      FindRefines(g, s + HEADER);
      RetrySucceeds(f, p, s);
      var (f', r') := Find(g, s + HEADER);
      TakeFoundRefines(f', r', s, data);
    }
  }

  // The chain after a growth that does not continue the last block, and an allocation from it
  lemma ServedFromGrowth(h: Heap, p: nat, s: nat, data: seq<u8>) returns (used: Block, rest: Block)
    requires Good(h) && s + HEADER < U32 && Find(h, s + HEADER).1.None? && |data| == s
    requires GrantOk(h, p, GrantSize(s)) && !GrowsInPlace(Find(h, s + HEADER).0, p)
    ensures var f := Find(h, s + HEADER).0; var (h1, r) := Kmalloc(h, s, Some(p), data);
            && r == p + 24 && h1.chain == f.chain + [used, rest]
            && !used.free && rest.free && rest.size == GrantSize(s) - 48 - s
            && (forall i :: 0 <= i < |f.chain| ==>
                  (f.chain[i].free ==> f.chain[i].size < s + HEADER) && !CanMerge(f.chain + [used, rest], i))
  {
    hide Balanced, GrantSize, Walk, Allocate, Grow, CanMerge, Linked, AllOk, RegionsOk, Granted;
    var need, n := s + HEADER, GrantSize(s);
    var f := Find(h, need).0;
    GrantSizeSuffices(s);
    FindRefines(h, need);
    FailedWalkCompacts(h.chain, need);
    var b := GrownIsFound(f, p, n, need);
    used, rest := GrownIsSplit(f, Grow(f, p, n), b, s, data);
  }

  // Memory that follows blocks which are too small and compact is what the next search finds.
  lemma GrownIsFound(f: Heap, p: nat, n: nat, need: nat) returns (b: Block)
    requires 0 < |f.chain| && 0 < |f.regions| && HEADER + need <= n && !GrowsInPlace(f, p)
    requires forall i :: 0 <= i < |f.chain| ==> (f.chain[i].free ==> f.chain[i].size < need) && !CanMerge(f.chain, i)
    requires Last(f.chain).fin
    ensures b == Block(p, n - HEADER, true, true, |f.regions|, [])
    ensures var g := Grow(f, p, n); g.chain == f.chain + [b] && Find(g, need) == (g, Some(|f.chain|))
  {
    hide Walk;
    b := Block(p, n - HEADER, true, true, |f.regions|, []);
    forall i | 0 <= i < |f.chain| ensures !CanMerge(f.chain + [b], i) {
      assert !CanMerge(f.chain, i);
    }
    OneBlockWalk(b, need);
    WalkPast(f.chain, [b], need);
  }

  lemma GrownIsSplit(f: Heap, g: Heap, b: Block, s: nat, data: seq<u8>) returns (used: Block, rest: Block)
    requires 0 < |f.chain| && Last(f.chain).fin && g.chain == f.chain + [b] && b.free && b.size >= s + HEADER
    requires forall i :: 0 <= i < |f.chain| ==> !CanMerge(f.chain, i)
    ensures Allocate(g, |f.chain|, s, data).chain == f.chain + [used, rest]
    ensures !used.free && rest.free && rest.size == b.size - 24 - s
    ensures forall i :: 0 <= i < |f.chain| ==> !CanMerge(f.chain + [used, rest], i)
  {
    hide Allocate;
    AllocateMerges(g, |f.chain|, s, data);
    var d := Allocate(g, |f.chain|, s, data).chain;
    used, rest := d[|f.chain|], d[|f.chain| + 1];
    assert d[..|f.chain|] == g.chain[..|f.chain|] == f.chain;
    assert d == f.chain + [used, rest];
    forall i | 0 <= i < |f.chain| ensures !CanMerge(f.chain + [used, rest], i) {
      assert !CanMerge(f.chain, i);
    }
  }

  lemma OneBlockWalk(b: Block, need: nat)
    requires b.free
    ensures Walk([b], need) == ([b], if b.size >= need then Some(0) else None)
  {
    assert [b][1..] == [] && Walk([], need) == ([], None);
    assert [b] + [] == [b];
  }

  // It leaves enough for a second request of the same size if and only if twice the request and three headers
  // are no more than the growth; so always up to 256 KiB.
  lemma GrowthServesTwice(h: Heap, p: nat, s: nat, data: seq<u8>, data': seq<u8>)
    requires Good(h) && s + HEADER < U32 && Find(h, s + HEADER).1.None? && |data| == s == |data'|
    requires GrantOk(h, p, GrantSize(s)) && !GrowsInPlace(Find(h, s + HEADER).0, p)
    ensures var (h1, r) := Kmalloc(h, s, Some(p), data);
            r == p + 24 && (Kmalloc(h1, s, None, data').1 != NULL <==> 2 * s + 72 <= GrantSize(s))
    ensures s <= 0x40000 ==> 2 * s + 72 <= GrantSize(s)
  {
    hide Inv, Balanced, GrantSize, Walk, Allocate;
    var used, rest := ServedFromGrowth(h, p, s, data);
    var c := Find(h, s + HEADER).0.chain;
    WalkPast(c, [used, rest], s + HEADER);
    assert [used, rest][1..] == [rest];
    UsedIsPassed(used, rest, s + HEADER);
    OneBlockWalk(rest, s + HEADER);
    GrantSizeIs(s);
  }

  lemma UsedIsPassed(used: Block, rest: Block, need: nat)
    requires !used.free
    ensures Walk([used, rest], need) == Behind(used, Walk([rest], need))
  {
    assert [used, rest][1..] == [rest];
  }

  // A failed kmalloc does not depend on the bytes; a successful one holds whatever is stored last.
  lemma KmallocFails(h: Heap, s: nat, grant: Option<nat>, data: seq<u8>, data': seq<u8>)
    requires Kmalloc(h, s, grant, data).1 == NULL
    ensures Kmalloc(h, s, grant, data') == Kmalloc(h, s, grant, data)
  {
  }

  // Changing a block does not disturb a merge further down the chain.
  lemma MergeBeyond(h: Heap, k: nat, j: nat, b: Block)
    requires k < j < |h.chain|
    ensures TryMerge(Replace(h, k, b), j) == Replace(TryMerge(h, j), k, b)
  {
    var g := Replace(h, k, b);
    assert g.chain == h.chain[k := b];
    if CanMerge(h.chain, j) {
      assert Merge(g, j).chain == Replace(Merge(h, j), k, b).chain;
    }
  }

  lemma MergeKeepsFront(h: Heap, k: nat, j: nat)
    requires k < j < |h.chain|
    ensures k < |TryMerge(h, j).chain| && TryMerge(h, j).chain[k] == h.chain[k]
  {
  }

  // Splitting with other bytes is splitting and then replacing the block in use.
  lemma SplitRefilled(f: Heap, k: nat, s: nat, data: seq<u8>, data': seq<u8>)
    requires k < |f.chain| && f.chain[k].size >= s + HEADER
    ensures k + 1 < |Split(f, k, s, data).chain| == |Split(f, k, s, data').chain|
    ensures var sp, b := Split(f, k, s, data), Split(f, k, s, data').chain[k];
            && b == sp.chain[k].(data := data') && !sp.chain[k].free
            && Ptr(sp.chain[k]) == Ptr(f.chain[k]) && Replace(sp, k, b) == Split(f, k, s, data')
  {
    var sp, b := Split(f, k, s, data), Split(f, k, s, data').chain[k];
    assert Replace(sp, k, b).chain == Split(f, k, s, data').chain;
  }

  lemma RefilledTake(f: Heap, r: Option<nat>, s: nat, data: seq<u8>, data': seq<u8>)
    requires Good(f) && r.Some? && |data| == s == |data'|
    requires r.value < |f.chain| && f.chain[r.value].free && f.chain[r.value].size >= s + HEADER
    ensures var (h, p) := TakeFound(f, r, s, data); (Poke(h, p, data'), p) == TakeFound(f, r, s, data')
  {
    hide Inv, Balanced, Live, Split, TryMerge, Replace;
    var k := r.value;
    var h := TakeFound(f, r, s, data).0;
    SplitRefilled(f, k, s, data, data');
    var sp, b := Split(f, k, s, data), Split(f, k, s, data').chain[k];
    AllocateKeepsInv(f, k, s, data);
    MergeKeepsFront(sp, k, k + 1);
    MergeBeyond(sp, k, k + 1, b);
    PointerIsUnique(h, k);
  }

  lemma RefilledAllocation(h: Heap, s: nat, grant: Option<nat>, data: seq<u8>, data': seq<u8>)
    requires Good(h) && GrantAllowed(h, s, grant) && |data| == s == |data'|
    requires Kmalloc(h, s, grant, data).1 != NULL
    ensures var (h', p) := Kmalloc(h, s, grant, data); (Poke(h', p, data'), p) == Kmalloc(h, s, grant, data')
  {
    hide Inv, Balanced, Allocate, Poke;
    var (f, r) := Find(h, s + HEADER);
    FindRefines(h, s + HEADER);
    if r.Some? {
      RefilledTake(f, r, s, data, data');
    } else {
      var g := Grow(f, grant.value, GrantSize(s));
      GrantSizeSuffices(s);
      GrowKeepsInv(f, grant.value, GrantSize(s));
      GrowBalanced(f, grant.value, GrantSize(s));
      FindRefines(g, s + HEADER);
      var (f', r') := Find(g, s + HEADER);
      RefilledTake(f', r', s, data, data');
    }
  }

  lemma KfreeRefines(h: Heap, p: nat)
    requires Good(h) && (p == NULL || p in Live(h.chain))
    ensures Good(Kfree(h, p)) && Live(Kfree(h, p).chain) == if p == NULL then Live(h.chain) else Live(h.chain) - {p}
  {
    if p != NULL {
      LiveBlock(h, p);
      var i := IndexOf(h.chain, p);
      ReleaseKeepsInv(h, i);
      ReleaseBalanced(h, i);
      ReleaseLive(h, i);
    }
  }

  lemma PokeRefines(h: Heap, p: nat, data: seq<u8>)
    requires Good(h) && p in Live(h.chain) && |data| == |Live(h.chain)[p]|
    ensures Good(Poke(h, p, data)) && Live(Poke(h, p, data).chain) == Live(h.chain)[p := data]
  {
    LiveBlock(h, p);
    var i := IndexOf(h.chain, p);
    FillKeepsInv(h, i, data);
    FillBalanced(h, i, data);
    ReplaceLive(h, i, h.chain[i].(data := data));
  }

  lemma ShrinkRefines(h: Heap, p: nat, s: nat)
    requires Good(h) && p in Live(h.chain) && s <= |Live(h.chain)[p]|
    ensures var i := IndexOf(h.chain, p);
            && i < |h.chain| && h.chain[i].size == |h.chain[i].data| && h.chain[i].data == Live(h.chain)[p]
            && Good(Shrink(h, i, s))
            && Live(Shrink(h, i, s).chain) == Live(h.chain)[p := Live(h.chain)[p][..s]]
  {
    hide Inv, Balanced, Live;
    LiveBlock(h, p);
    var i := IndexOf(h.chain, p);
    var b := h.chain[i];
    ShrinkKeepsInv(h, i, s);
    ShrinkBalanced(h, i, s);
    ReplaceLive(h, i, b.(size := s, data := b.data[..s]));
  }

  // krealloc keeps the first min(old, new) bytes; failure leaves the old block live and unchanged.
  ghost function Realloced(live: map<nat, seq<u8>>, p: nat, s: nat, noise: seq<u8>, r: nat): map<nat, seq<u8>>
    requires |noise| == s && (p == NULL || p in live)
  {
    if p == NULL then (if r == NULL then live else live[r := noise])
    else if r == NULL then live
    else if s <= |live[p]| then live[p := live[p][..s]]
    else live[r := live[p] + noise[|live[p]|..]] - {p}
  }

  // The copy and the kfree at the end of krealloc, once kmalloc has returned r.
  lemma MoveRefines(live: map<nat, seq<u8>>, h: Heap, p: nat, r: nat, noise: seq<u8>, d: seq<u8>)
    requires Good(h) && p in live && r !in live && Live(h.chain) == live[r := noise] && |d| == |noise|
    ensures Good(Kfree(Poke(h, r, d), p))
    ensures Live(Kfree(Poke(h, r, d), p).chain) == live[r := d] - {p}
  {
    hide Inv, Balanced;
    PokeRefines(h, r, d);
    assert live[r := noise][r := d] == live[r := d];
    NullIsNotLive(h);
    KfreeRefines(Poke(h, r, d), p);
  }

  lemma KreallocMoves(h: Heap, p: nat, s: nat, grant: Option<nat>, noise: seq<u8>)
    requires Good(h) && GrantAllowed(h, s, grant) && |noise| == s
    requires p != NULL && p in Live(h.chain) && |Live(h.chain)[p]| < s
    ensures var (h', r) := Krealloc(h, p, s, grant, noise);
            && Good(h') && Live(h'.chain) == Realloced(Live(h.chain), p, s, noise, r)
            && (r !in Live(h.chain) || r == NULL)
            && (r == NULL <==> !HasRoom(h, s) && grant.None?)
  {
    hide Inv, Balanced, Live, HasRoom, GrantAllowed;
    LiveBlock(h, p);
    KmallocRefines(h, s, grant, noise);
    var (h1, r) := Kmalloc(h, s, grant, noise);
    if r != NULL {
      MoveRefines(Live(h.chain), h1, p, r, noise, Payload(h, p) + noise[|Payload(h, p)|..]);
    }
  }

  lemma KreallocRefines(h: Heap, p: nat, s: nat, grant: Option<nat>, noise: seq<u8>)
    requires Good(h) && GrantAllowed(h, s, grant) && |noise| == s && (p == NULL || p in Live(h.chain))
    ensures var (h', r) := Krealloc(h, p, s, grant, noise);
            && Good(h') && Live(h'.chain) == Realloced(Live(h.chain), p, s, noise, r)
            && (if p != NULL && s <= |Live(h.chain)[p]| then r == p
                else r !in Live(h.chain) || r == NULL)
            && (r == NULL <==> (p == NULL || |Live(h.chain)[p]| < s) && !HasRoom(h, s) && grant.None?)
  {
    hide Inv, Balanced;
    if p == NULL {
      KmallocRefines(h, s, grant, noise);
    } else {
      LiveBlock(h, p);
      if |Live(h.chain)[p]| < s {
        KreallocMoves(h, p, s, grant, noise);
      } else {
        ShrinkRefines(h, p, s);
        var old_ := Live(h.chain)[p];
        assert |old_| == s ==> old_[..s] == old_ && Live(h.chain)[p := old_] == Live(h.chain);
      }
    }
  }

  lemma NullIsNotLive(h: Heap)
    requires Inv(h)
    ensures NULL !in Live(h.chain)
  {
    if NULL in Live(h.chain) { var i := LiveKey(h.chain, NULL); }
  }

  // krecalloc keeps the first min(old, new) bytes and zeroes the rest.
  lemma KrecallocRefines(h: Heap, p: nat, n: nat, e: nat, grant: Option<nat>)
    requires Good(h) && n < U64 && e < U64 && (p == NULL || p in Live(h.chain))
    requires n * e <= SIZE_MAX ==> GrantAllowed(h, n * e, grant)
    ensures var (h', r) := Krecalloc(h, p, n, e, grant);
            && Good(h')
            && (n * e > SIZE_MAX ==> r == NULL && h' == h)
            && (n * e <= SIZE_MAX ==> (r == NULL <==> !HasRoom(h, n * e) && grant.None?))
            && (r == NULL ==> Live(h'.chain) == Live(h.chain))
            && (r != NULL ==> r !in Live(h.chain))
            && (r != NULL && p == NULL ==> Live(h'.chain) == Live(h.chain)[r := Zeros(n * e)])
            && (r != NULL && p != NULL ==>
                  Live(h'.chain) == Live(h.chain)[r := Recalloced(Live(h.chain)[p], n * e)] - {p})
  {
    hide Inv, Balanced;
    MulRejectedIsOverflow(n, e);
    if !MulRejected(n, e) {
      if p == NULL {
        KmallocRefines(h, n * e, grant, Zeros(n * e));
      } else {
        LiveBlock(h, p);
        var d := Recalloced(Payload(h, p), n * e);
        KmallocRefines(h, n * e, grant, d);
        var (h1, r) := Kmalloc(h, n * e, grant, d);
        if r != NULL { KfreeRefines(h1, p); }
      }
    }
  }

  // ------------------------------------------------------------------------------------------
  // Every run
  // ------------------------------------------------------------------------------------------

  datatype Call =
    | Malloc(s: nat, noise: seq<u8>, grant: Option<nat>)
    | FreeCall(p: nat)
    | Realloc(p: nat, s: nat, noise: seq<u8>, grant: Option<nat>)
    | ReallocArray(p: nat, n: nat, e: nat, noise: seq<u8>, grant: Option<nat>)
    | Calloc(n: nat, e: nat, grant: Option<nat>)
    | Recalloc(p: nat, n: nat, e: nat, grant: Option<nat>)
    | Store(p: nat, data: seq<u8>)

  ghost predicate SizesAllowed(h: Heap, n: nat, e: nat, grant: Option<nat>) {
    n < U64 && e < U64 && (n * e <= SIZE_MAX ==> GrantAllowed(h, n * e, grant))
  }

  // What a client and ksbrk must respect: live or null pointers, fresh grants, no overrun.
  ghost predicate Allowed(h: Heap, call: Call) {
    match call
    case Malloc(s, noise, grant) => |noise| == s && GrantAllowed(h, s, grant)
    case FreeCall(p) => p == NULL || p in Live(h.chain)
    case Realloc(p, s, noise, grant) => |noise| == s && GrantAllowed(h, s, grant) && (p == NULL || p in Live(h.chain))
    case ReallocArray(p, n, e, noise, grant) =>
      SizesAllowed(h, n, e, grant) && (n * e <= SIZE_MAX ==> |noise| == n * e) && (p == NULL || p in Live(h.chain))
    case Calloc(n, e, grant) => SizesAllowed(h, n, e, grant)
    case Recalloc(p, n, e, grant) => SizesAllowed(h, n, e, grant) && (p == NULL || p in Live(h.chain))
    case Store(p, data) => p in Live(h.chain) && |data| == |Live(h.chain)[p]|
  }

  ghost function Step(h: Heap, call: Call): (Heap, nat)
    requires Allowed(h, call)
  {
    match call
    case Malloc(s, noise, grant) => Kmalloc(h, s, grant, noise)
    case FreeCall(p) => (Kfree(h, p), NULL)
    case Realloc(p, s, noise, grant) => Krealloc(h, p, s, grant, noise)
    case ReallocArray(p, n, e, noise, grant) =>
      MulRejectedIsOverflow(n, e);
      Kreallocarray(h, p, n, e, grant, noise)
    case Calloc(n, e, grant) => Kcalloc(h, n, e, grant)
    case Recalloc(p, n, e, grant) => Krecalloc(h, p, n, e, grant)
    case Store(p, data) => (Poke(h, p, data), NULL)
  }

  // What the client sees: a map from pointers to bytes, updated by each call given its answer r.
  ghost function Client(live: map<nat, seq<u8>>, call: Call, r: nat): map<nat, seq<u8>> {
    match call
    case Malloc(s, noise, _) => if r == NULL then live else live[r := noise]
    case FreeCall(p) => live - {p}
    case Realloc(p, s, noise, _) =>
      if |noise| == s && (p == NULL || p in live) then Realloced(live, p, s, noise, r) else live
    case ReallocArray(p, n, e, noise, _) =>
      if r != NULL && |noise| == n * e && (p == NULL || p in live) then Realloced(live, p, n * e, noise, r) else live
    case Calloc(n, e, _) => if r == NULL then live else live[r := Zeros(n * e)]
    case Recalloc(p, n, e, _) =>
      if r == NULL then live
      else if p == NULL || p !in live then live[r := Zeros(n * e)]
      else live[r := Recalloced(live[p], n * e)] - {p}
    case Store(p, data) => live[p := data]
  }

  // A pointer handed out is not one already in use, except that krealloc may return its argument.
  ghost predicate Fresh(live: map<nat, seq<u8>>, call: Call, r: nat) {
    r in live ==> (call.Realloc? || call.ReallocArray?) && r == call.p
  }

  // After the call the heap is well formed, and the client's map has changed as the call says.
  ghost predicate Refined(h: Heap, call: Call)
    requires Allowed(h, call)
  {
    var (h', r) := Step(h, call);
    Good(h') && Live(h'.chain) == Client(Live(h.chain), call, r) && Fresh(Live(h.chain), call, r)
  }

  lemma ReallocArrayRefines(h: Heap, p: nat, n: nat, e: nat, noise: seq<u8>, grant: Option<nat>)
    requires Good(h) && Allowed(h, ReallocArray(p, n, e, noise, grant))
    ensures Refined(h, ReallocArray(p, n, e, noise, grant))
  {
    hide Inv, Balanced, Krealloc, GrantAllowed, Live, HasRoom, MulRejected;
    NullIsNotLive(h);
    MulRejectedIsOverflow(n, e);
    if !MulRejected(n, e) { KreallocRefines(h, p, n * e, grant, noise); }
  }

  lemma CallocRefines(h: Heap, n: nat, e: nat, grant: Option<nat>)
    requires Good(h) && Allowed(h, Calloc(n, e, grant))
    ensures Refined(h, Calloc(n, e, grant))
  {
    hide Inv, Balanced, Kmalloc, GrantAllowed, Live, HasRoom, MulRejected;
    NullIsNotLive(h);
    MulRejectedIsOverflow(n, e);
    if !MulRejected(n, e) { KmallocRefines(h, n * e, grant, Zeros(n * e)); }
  }

  lemma RecallocRefines(h: Heap, p: nat, n: nat, e: nat, grant: Option<nat>)
    requires Good(h) && Allowed(h, Recalloc(p, n, e, grant))
    ensures Refined(h, Recalloc(p, n, e, grant))
  {
    hide Inv, Balanced, Krecalloc, Recalloced, GrantAllowed, Live, HasRoom, MulRejected;
    NullIsNotLive(h);
    KrecallocRefines(h, p, n, e, grant);
  }

  lemma StepRefines(h: Heap, call: Call)
    requires Good(h) && Allowed(h, call)
    ensures Refined(h, call)
  {
    hide Inv, Balanced, Kmalloc, Krealloc, Kreallocarray, Kcalloc, Krecalloc, Kfree, Poke, Realloced, GrantAllowed,
         Live, HasRoom;
    NullIsNotLive(h);
    match call
    case Malloc(s, noise, grant) => KmallocRefines(h, s, grant, noise);
    case FreeCall(p) => KfreeRefines(h, p);
    case Realloc(p, s, noise, grant) => KreallocRefines(h, p, s, grant, noise);
    case ReallocArray(p, n, e, noise, grant) => ReallocArrayRefines(h, p, n, e, noise, grant);
    case Calloc(n, e, grant) => CallocRefines(h, n, e, grant);
    case Recalloc(p, n, e, grant) => RecallocRefines(h, p, n, e, grant);
    case Store(p, data) => PokeRefines(h, p, data);
  }

  ghost predicate RunAllowed(h: Heap, calls: seq<Call>)
    decreases |calls|
  {
    calls == [] || (Allowed(h, calls[0]) && RunAllowed(Step(h, calls[0]).0, calls[1..]))
  }

  // The heap and the client's map after a run.
  ghost function Run(h: Heap, live: map<nat, seq<u8>>, calls: seq<Call>): (Heap, map<nat, seq<u8>>)
    requires RunAllowed(h, calls)
    decreases |calls|
  {
    if calls == [] then (h, live)
    else
      var (h', r) := Step(h, calls[0]);
      Run(h', Client(live, calls[0], r), calls[1..])
  }

  // From kmalloc_init on, every run keeps the heap well formed and in balance, and the live blocks
  // hold exactly what the client's own bookkeeping says they hold.
  lemma {:induction false} EveryRunIsSafe(p: nat, calls: seq<Call>)
    requires 0 < p && p + NEW_ALLOC_SIZE <= U64 && RunAllowed(Initial(p), calls)
    ensures var (h, live) := Run(Initial(p), map[], calls);
            && Inv(h) && Balanced(h) && Live(h.chain) == live
  {
    InitialInv(p);
    InitialBalanced(p);
    LiveSingle(Initial(p).chain[0]);
    RunIsSafe(Initial(p), calls);
  }

  lemma {:induction false} RunIsSafe(h: Heap, calls: seq<Call>)
    requires Good(h) && RunAllowed(h, calls)
    ensures var (h', live) := Run(h, Live(h.chain), calls);
            && Good(h') && Live(h'.chain) == live
    decreases |calls|
  {
    if calls != [] {
      StepRefines(h, calls[0]);
      RunIsSafe(Step(h, calls[0]).0, calls[1..]);
    }
  }
}
