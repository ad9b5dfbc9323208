/** The kernel allocator: pointers and headers in a flat byte memory (the non-debug build).
    "heap" is the chain that the bytes describe; every method ties it to the functions of HeapRun. */
module Kmalloc {
  import opened Prelude
  import opened HeapModel
  import opened HeapInvariant
  import opened HeapSearch
  import opened HeapLedger
  import opened HeapLive
  import opened HeapRun
  import opened HeapBytes

  predicate FreeBit(flags: nat) {
    flags % 2 == 1
  }

  predicate FinalBit(flags: nat) {
    flags / 2 % 2 == 1
  }

  class Allocator {
    var mem: seq<u8>
    var head: nat
    var final: nat
    var totalHeapSize: nat
    ghost var heap: Heap
    ghost const boot: seq<u8>   // memory before the heap was made

    ghost predicate ValidBut(skip: set<int>)
      reads this
    {
      && |mem| == U64
      && Good(heap)
      && Rep(mem, heap.chain, skip) && Untouched(boot, mem, heap.regions)
      && head == heap.chain[0].addr && final == Last(heap.chain).addr
      && totalHeapSize == Granted(heap.regions) - HEADER * (|heap.regions| + heap.growths)
    }

    ghost predicate Valid()
      reads this
    {
      ValidBut({})
    }

    // kmalloc_init, given the memory that ksbrk returned at p.
    constructor (p: nat, initial: seq<u8>)
      requires |initial| == U64 && 0 < p && p + NEW_ALLOC_SIZE <= U64
      ensures Valid() && heap == Initial(p) && boot == initial
    {
      hide Load, SetHeader, SetMagic, Inv, Balanced, Untouched;
      boot := initial;
      var m := SetHeader(SetMagic(initial, p, MAGIC), p, NEW_ALLOC_SIZE - HEADER, IS_FREE + IS_FINAL, 0);
      mem := m;
      head := p;
      final := p;
      totalHeapSize := NEW_ALLOC_SIZE - HEADER;
      heap := Initial(p);
      InitialInv(p);
      InitialBalanced(p);
      FirstUntouched(initial, m, p, NEW_ALLOC_SIZE);
      GrantedAppend([], Region(p, p + NEW_ALLOC_SIZE));
      assert [] + [Region(p, p + NEW_ALLOC_SIZE)] == [Region(p, p + NEW_ALLOC_SIZE)];
    }

    // The kernel's own magic-value assertions appear as assertions here.
    method NextHeader(a: nat, ghost k: nat, ghost skip: set<int>) returns (n: nat)
      requires ValidBut(skip) && k < |heap.chain| && a == heap.chain[k].addr && k !in skip && k + 1 !in skip
      ensures n == Next(heap.chain, k)
    {
      FieldsFit(heap, k);
      assert BlockAt(mem, heap.chain[k], Next(heap.chain, k));
      assert Load(mem, a).magic == MAGIC;
      n := Load(mem, a).next;
      if n != 0 {
        FieldsFit(heap, k + 1);
        assert BlockAt(mem, heap.chain[k + 1], Next(heap.chain, k + 1));
        assert Load(mem, n).magic == MAGIC;
      }
    }

    method NextCloseHeader(a: nat, ghost k: nat, ghost skip: set<int>) returns (n: nat)
      requires ValidBut(skip) && k < |heap.chain| && a == heap.chain[k].addr && k !in skip && k + 1 !in skip
      ensures n == if heap.chain[k].fin then 0 else Next(heap.chain, k)
    {
      FieldsFit(heap, k);
      assert BlockAt(mem, heap.chain[k], Next(heap.chain, k));
      if FinalBit(Load(mem, a).flags) {
        return 0;
      }
      n := NextHeader(a, k, skip);
    }

    // The tests of merge_headers: the header to merge with, or nothing.
    method MergePartner(b: nat, ghost k: nat, ghost skip: set<int>) returns (n: nat)
      requires ValidBut(skip) && k < |heap.chain| && b == heap.chain[k].addr && forall x :: x in skip ==> x < k
      ensures n != 0 <==> CanMerge(heap.chain, k)
      ensures n != 0 ==> n == heap.chain[k + 1].addr
    {
      hide Load, Balanced, Linked, AllOk, RegionsOk, Granted, Untouched, Flags, FreeBit, FinalBit;
      FieldsFit(heap, k);
      assert BlockAt(mem, heap.chain[k], Next(heap.chain, k));
      FlagBits(heap.chain[k]);
      if !FreeBit(Load(mem, b).flags) {
        return 0;
      }
      n := NextCloseHeader(b, k, skip);
      if k + 1 < |heap.chain| { FieldsFit(heap, k + 1); }
      if n == 0 {
        return 0;
      }
      assert BlockAt(mem, heap.chain[k + 1], Next(heap.chain, k + 1));
      FlagBits(heap.chain[k + 1]);
      if !FreeBit(Load(mem, n).flags) {
        return 0;
      }
    }

    method MergeHeaders(b: nat, ghost k: nat, ghost skip: set<int>) returns (merged: bool)
      requires ValidBut(skip) && k < |heap.chain| && b == heap.chain[k].addr && forall x :: x in skip ==> x < k
      modifies this`mem, this`final, this`heap
      ensures ValidBut(skip)
      ensures merged == CanMerge(old(heap).chain, k) && heap == TryMerge(old(heap), k)
      ensures OnlyIn(old(mem), mem, b, b + HEADER)
    {
      hide Load, SetHeader, Balanced, Linked, AllOk, RegionsOk, Granted, Untouched, Flags, FreeBit, FinalBit;
      var n := MergePartner(b, k, skip);
      if n == 0 {
        return false;
      }
      FieldsFit(heap, k);
      FieldsFit(heap, k + 1);
      assert BlockAt(mem, heap.chain[k], Next(heap.chain, k));
      assert BlockAt(mem, heap.chain[k + 1], Next(heap.chain, k + 1));
      TryMergeBalanced(heap, k);
      MergeKeepsInv(heap, k);
      FieldsFit(Merge(heap, k), k);
      if k + 2 < |heap.chain| { FieldsFit(heap, k + 2); }
      MergedFlags(heap.chain[k], heap.chain[k + 1]);
      var h, m := Load(mem, b), Load(mem, n);
      var flags := if FinalBit(m.flags) && !FinalBit(h.flags) then h.flags + IS_FINAL else h.flags;
      ghost var was := mem;
      mem := SetHeader(mem, b, h.size + m.size, flags, m.next);
      MergeStores(heap, was, mem, k, skip);
      StoreUntouched(heap, k, boot, was, mem, b, b + HEADER);
      if k + 2 < |heap.chain| { BlocksAreDisjoint(heap, k + 1, |heap.chain| - 1); }
      if n == final {
        final := b;
      }
      heap := Merge(heap, k);
      merged := true;
    }

    // find_free_entry: the argument and the sum are 32 bits wide.
    method FindFreeEntry(s: nat) returns (p: nat, ghost k: nat)
      requires Valid() && s < U32
      modifies this`mem, this`final, this`heap
      ensures Valid()
      ensures (p == NULL <==> Find(old(heap), Need(s)).1.None?)
      ensures heap == Find(old(heap), Need(s)).0
      ensures p != NULL ==> k < |heap.chain| && p == heap.chain[k].addr && Some(k) == Find(old(heap), Need(s)).1
    {
      hide Inv, Balanced, Load, Mergeable, CanMerge, Walk, Absorb, Find, Follows, After, Rep;
      var need := (s + HEADER) % U32;
      assert need == Need(s);
      ghost var h0 := heap;
      p := head;
      k := 0;
      FirstBlock(heap);
      WalkStart(h0, need);
      while p != NULL
        invariant Valid() && Follows(h0, heap)
        invariant if p == NULL then k == |heap.chain| else k < |heap.chain| && p == heap.chain[k].addr
        invariant Walk(h0.chain, need) == After(heap.chain[..k], Walk(heap.chain[k..], need))
        decreases |heap.chain| - k
      {
        var h := ReadHeader(p, k);
        assert h.magic == MAGIC;
        ghost var h1 := heap;
        if FreeBit(h.flags) {
          if h.size >= need {
            FoundAt(h0, h1, heap, k, need);
            return;
          }
          MergeAll(p, k);
          FollowsTwice(h0, h1, heap);
          h := ReadHeader(p, k);
          if h.size >= need {
            FoundAt(h0, h1, heap, k, need);
            return;
          }
        }
        StepPast(h1.chain, heap.chain, k, need);
        p := NextHeader(p, k, {});
        k := k + 1;
        if k < |heap.chain| { FieldsFit(heap, k); }
      }
      FoundNone(h0, heap, k, need);
    }

    method ReadHeader(p: nat, ghost k: nat) returns (h: Header)
      requires Valid() && k < |heap.chain| && p == heap.chain[k].addr
      ensures h == Header(MAGIC, heap.chain[k].size, Flags(heap.chain[k]), Next(heap.chain, k)) && p != NULL
      ensures p + HEADER <= |mem| && h == Load(mem, p)
    {
      hide Load;
      FieldsFit(heap, k);
      assert BlockAt(mem, heap.chain[k], Next(heap.chain, k));
      h := Load(mem, p);
    }

    // add_heap_memory; "grant" is ksbrk's answer.
    method AddHeapMemory(s: nat, grant: Option<nat>) returns (ok: bool)
      requires Valid() && (grant.Some? ==> GrantOk(heap, grant.value, GrantSize(s)))
      modifies this
      ensures Valid() && ok == grant.Some?
      ensures heap == if ok then Grow(old(heap), grant.value, GrantSize(s)) else old(heap)
    {
      hide Load, SetHeader, SetMagic, SetSize, SetNext, Balanced, GrantSize, Inv, Rep, OnlyIn, Grow, Untouched;
      var size := GrantSize(s);
      GrantSizeSuffices(s);
      if grant.None? {
        return false;
      }
      var p := grant.value;
      FirstBlock(heap);
      ghost var h, k, was := heap, |heap.chain| - 1, mem;
      GrowFacts(h, p, size);
      var l := ReadHeader(final, k);
      totalHeapSize := totalHeapSize + size - HEADER;
      heap := Grow(h, p, size);
      if FreeBit(l.flags) && p == final + HEADER + l.size {
        mem := SetSize(mem, final, l.size + size - HEADER);
        GrowStores(h, was, mem, p, size);
        GrewInPlace(h, p, size, boot, was, mem);
        return true;
      }
      mem := SetHeader(SetMagic(mem, p, MAGIC), p, size - HEADER, IS_FREE + IS_FINAL, 0);
      ghost var m := mem;
      mem := SetNext(mem, final, p);
      StoreTwice(was, SetMagic(was, p, MAGIC), m, p);
      AppendStores(h, was, m, mem, p, size);
      GrewByRegion(h, p, size, boot, was, m, mem);
      final := p;
      return true;
    }

    // int_kmalloc.  "noise" is the random fill should the retry go through kmalloc; "data" is what
    // the payload holds on return.  The measure says that the retry happens at most once.
    method IntKmalloc(s: nat, grant: Option<nat>, noise: seq<u8>) returns (rc: nat, ghost data: seq<u8>)
      requires Valid() && GrantAllowed(heap, s, grant) && |noise| == s
      modifies this
      ensures Valid() && |data| == s
      ensures (heap, rc) == HeapRun.Kmalloc(old(heap), s, grant, data)
      decreases if HasRoom(heap, s) then 0 else 1, 0
    {
      hide Inv, Balanced, Rep, HasRoom, GrantSize, Grow, Find, Allocate;
      FirstBlock(heap);
      FindIffRoom(heap, s);
      FindRefines(heap, Need(s));
      FindFacts(heap, Need(s));
      NeedIs(s);
      if U32 <= s + HEADER { TooLarge(heap, s, grant); }
      var entry, k := FindFreeEntry(s % U32);
      data := noise;
      if entry == NULL {
        ghost var f := heap;
        FirstBlock(f);
        var ok := AddHeapMemory(s, grant);
        if !ok {
          return NULL, data;
        }
        RetrySucceeds(f, grant.value, s);
        FindIffRoom(heap, s);
        KmallocAgain(f, grant.value, s, noise);
        rc := Kmalloc(s, None, noise);
        return rc, data;
      }
      rc, data := TakeEntry(entry, s, k);
    }

    // The rest of int_kmalloc: cut s bytes off the free entry that was found.
    method TakeEntry(entry: nat, n: nat, ghost k: nat) returns (rc: nat, ghost data: seq<u8>)
      requires Valid() && k < |heap.chain| && entry == heap.chain[k].addr
      requires heap.chain[k].free && heap.chain[k].size >= n + HEADER
      modifies this`mem, this`final, this`heap
      ensures Valid() && |data| == n && rc == Ptr(old(heap).chain[k])
      ensures heap == Allocate(old(heap), k, n, data)
    {
      hide Inv, Balanced, Rep, Load, SetHeader, SetMagic, OnlyIn, Merge, CanMerge, Untouched;
      ghost var h, was := heap, mem;
      TakeFacts(h, k, n);
      rc := entry + HEADER;
      var e := ReadHeader(entry, k);
      var newEntry := rc + n;
      mem := SetHeader(SetMagic(mem, newEntry, MAGIC), newEntry, e.size - n - HEADER, e.flags, e.next);
      data := mem[rc..rc + n];
      StoreTwice(was, SetMagic(was, newEntry, MAGIC), mem, newEntry);
      if entry == final {
        final := newEntry;
      }
      SplitStores(h, was, mem, k, n, data);
      StoreUntouched(h, k, boot, was, mem, newEntry, newEntry + HEADER);
      SplitFacts(h, k, n, data);
      heap := Split(h, k, n, data);
      ghost var split := mem;
      var merged := MergeHeaders(newEntry, k + 1, {k});
      ghost var m1 := mem;
      MergeBehind(h, k, n, data);
      mem := SetHeader(SetMagic(mem, entry, MAGIC), entry, n, 0, newEntry);
      StoreTwice(m1, SetMagic(m1, entry, MAGIC), mem, entry);
      EntryStores(heap, split, m1, mem, k);
      StoreUntouched(heap, k, boot, m1, mem, entry, entry + HEADER);
    }

    method Kmalloc(s: nat, grant: Option<nat>, noise: seq<u8>) returns (rc: nat)
      requires Valid() && GrantAllowed(heap, s, grant) && |noise| == s
      modifies this
      ensures Valid()
      ensures (heap, rc) == HeapRun.Kmalloc(old(heap), s, grant, noise)
      decreases if HasRoom(heap, s) then 0 else 1, 1
    {
      hide Inv, Balanced, Rep, HasRoom, GrantSize, Grow, Find, Allocate, HeapRun.Kmalloc;
      ghost var h, data := heap, noise;
      rc, data := IntKmalloc(s, grant, noise);
      KmallocRefines(h, s, grant, data);
      if rc == NULL {
        KmallocFails(h, s, grant, data, noise);
        return NULL;
      }
      StorePayload(rc, noise);
      assert noise + data[s..] == noise;
      RefilledAllocation(h, s, grant, data, noise);
    }

    // A store of bytes at the start of a live payload: prng_get_pseudorandom, memset, memcpy, or the
    // client itself.
    method StorePayload(p: nat, data: seq<u8>)
      requires Valid() && p in Live(heap.chain) && |data| <= |Live(heap.chain)[p]|
      modifies this`mem, this`heap
      ensures Valid()
      ensures heap == Poke(old(heap), p, data + Live(old(heap).chain)[p][|data|..])
    {
      hide Inv, Balanced, Rep, Live, Load, Untouched;
      LiveBlock(heap, p);
      ghost var h, was, k := heap, mem, IndexOf(heap.chain, p);
      ghost var d := data + Live(h.chain)[p][|data|..];
      FieldsFit(h, k);
      PokeRefines(h, p, d);
      mem := Write(mem, p, data);
      PayloadStores(h, was, mem, k, data);
      StoreUntouched(h, k, boot, was, mem, p, p + |data|);
      PokeFacts(h, p, d);
      heap := Poke(h, p, d);
    }

    // memcpy's source: the first n bytes of a live payload.
    method LoadPayload(p: nat, n: nat) returns (data: seq<u8>)
      requires Valid() && p in Live(heap.chain) && n <= |Live(heap.chain)[p]|
      ensures data == Live(heap.chain)[p][..n]
    {
      hide Inv, Balanced, Live, Load;
      LiveBlock(heap, p);
      ghost var k := IndexOf(heap.chain, p);
      assert BlockAt(mem, heap.chain[k], Next(heap.chain, k));
      data := mem[p..p + n];
      assert data == mem[p..End(heap.chain[k])][..n];
    }

    method GetMemSize(p: nat) returns (size: nat)
      requires Valid() && (p == NULL || p in Live(heap.chain))
      ensures size == if p == NULL then 0 else |Live(heap.chain)[p]|
    {
      hide Inv, Balanced, Rep, Live, Load;
      if p == NULL {
        return 0;
      }
      LiveBlock(heap, p);
      var h := ReadHeader(p - HEADER, IndexOf(heap.chain, p));
      size := h.size;
    }

    method Kfree(p: nat, noise: seq<u8>)
      requires Valid() && (p != NULL ==> p in Live(heap.chain) && |noise| == |Live(heap.chain)[p]|)
      modifies this`mem, this`final, this`heap
      ensures Valid()
      ensures heap == HeapRun.Kfree(old(heap), p)
    {
      hide Inv, Balanced, Rep, Live, Load, OnlyIn, SetFlags, TryMerge, Poke, Untouched;
      if p == NULL {
        return;
      }
      LiveBlock(heap, p);
      ghost var h0, k := heap, IndexOf(heap.chain, p);
      var a := p - HEADER;
      var h := ReadHeader(a, k);
      assert h.magic == MAGIC && !FreeBit(h.flags);
      StorePayload(p, noise);
      ghost var d := noise + Live(h0.chain)[p][|noise|..];
      PokeFacts(h0, p, d);
      ghost var h1, was := heap, mem;
      h := ReadHeader(a, k);
      FreeFacts(h1, k);
      mem := SetFlags(mem, a, h.flags + IS_FREE);
      heap := Replace(h1, k, h1.chain[k].(free := true, data := []));
      FreeStores(h1, was, mem, k);
      StoreUntouched(h1, k, boot, was, mem, a, a + HEADER);
      var merged := MergeHeaders(a, k, {});
      ReleasedAfterFill(h0, k, d);
    }

    method Krealloc(p: nat, s: nat, grant: Option<nat>, noise: seq<u8>, scrub: seq<u8>) returns (rc: nat)
      requires Valid() && GrantAllowed(heap, s, grant) && |noise| == s
      requires p != NULL ==> p in Live(heap.chain) && |scrub| == |Live(heap.chain)[p]|
      modifies this
      ensures Valid()
      ensures (heap, rc) == HeapRun.Krealloc(old(heap), p, s, grant, noise)
    {
      hide Inv, Balanced, Rep, Live, Load, OnlyIn, SetSize, Untouched, HeapRun.Kmalloc, HeapRun.Kfree, Poke, HasRoom,
           Shrink;
      if p == NULL {
        rc := Kmalloc(s, grant, noise);
        return;
      }
      var l := GetMemSize(p);
      LiveBlock(heap, p);
      ghost var h0, k, was := heap, IndexOf(heap.chain, p), mem;
      if l == s {
        return p;
      }
      if l > s {
        ShrinkRefines(h0, p, s);
        ShrinkFacts(h0, k, s);
        var h := ReadHeader(p - HEADER, k);
        mem := SetSize(mem, p - HEADER, s);
        ShrinkStores(h0, was, mem, k, s);
        StoreUntouched(h0, k, boot, was, mem, p - HEADER, p);
        heap := Shrink(h0, k, s);
        return p;
      }
      KmallocRefines(heap, s, grant, noise);
      rc := Kmalloc(s, grant, noise);
      if rc == NULL {
        return;
      }
      var bytes := LoadPayload(p, Min(l, s));
      assert bytes == Payload(h0, p);
      StorePayload(rc, bytes);
      PokeRefines(HeapRun.Kmalloc(h0, s, grant, noise).0, rc, bytes + noise[|bytes|..]);
      Kfree(p, scrub);
    }

    method Kreallocarray(p: nat, n: nat, e: nat, grant: Option<nat>, noise: seq<u8>, scrub: seq<u8>) returns (rc: nat)
      requires Valid() && SizesAllowed(heap, n, e, grant) && (n * e <= SIZE_MAX ==> |noise| == n * e)
      requires p != NULL ==> p in Live(heap.chain) && |scrub| == |Live(heap.chain)[p]|
      modifies this
      ensures Valid() && (MulRejected(n, e) <==> n * e > SIZE_MAX)
      ensures (heap, rc) == Step(old(heap), ReallocArray(p, n, e, noise, grant))
    {
      hide Inv, Balanced, Rep, Live, HeapRun.Krealloc, GrantAllowed;
      MulRejectedIsOverflow(n, e);
      if (n >= MUL_NO_OVERFLOW || e >= MUL_NO_OVERFLOW) && n > 0 && SIZE_MAX / n < e {
        return NULL;
      }
      rc := Krealloc(p, n * e % U64, grant, noise, scrub);
    }

    method Kallocarray(n: nat, e: nat, grant: Option<nat>, noise: seq<u8>) returns (rc: nat)
      requires Valid() && SizesAllowed(heap, n, e, grant) && (n * e <= SIZE_MAX ==> |noise| == n * e)
      modifies this
      ensures Valid()
      ensures (heap, rc) == Step(old(heap), ReallocArray(NULL, n, e, noise, grant))
    {
      rc := Kreallocarray(NULL, n, e, grant, noise, []);
    }

    method Kcalloc(n: nat, e: nat, grant: Option<nat>, noise: seq<u8>) returns (rc: nat)
      requires Valid() && SizesAllowed(heap, n, e, grant) && (n * e <= SIZE_MAX ==> |noise| == n * e)
      modifies this
      ensures Valid()
      ensures (heap, rc) == HeapRun.Kcalloc(old(heap), n, e, grant)
    {
      hide Inv, Balanced, Rep, Live, HeapRun.Kmalloc, Poke, HasRoom;
      MulRejectedIsOverflow(n, e);
      if (n >= MUL_NO_OVERFLOW || e >= MUL_NO_OVERFLOW) && n > 0 && SIZE_MAX / n < e {
        return NULL;
      }
      var s := n * e % U64;
      rc := AllocateZeroed(s, grant, noise);
    }

    // int_kmalloc followed by memset, as in kcalloc and krecalloc.
    method AllocateZeroed(s: nat, grant: Option<nat>, noise: seq<u8>) returns (rc: nat)
      requires Valid() && GrantAllowed(heap, s, grant) && |noise| == s
      modifies this
      ensures Valid()
      ensures (heap, rc) == HeapRun.Kmalloc(old(heap), s, grant, Zeros(s))
    {
      hide Inv, Balanced, Rep, Live, HeapRun.Kmalloc, Poke, HasRoom;
      ghost var h, data := heap, noise;
      rc, data := IntKmalloc(s, grant, noise);
      KmallocRefines(h, s, grant, data);
      if rc == NULL {
        KmallocFails(h, s, grant, data, Zeros(s));
        return;
      }
      StorePayload(rc, Zeros(s));
      assert Zeros(s) + data[s..] == Zeros(s);
      RefilledAllocation(h, s, grant, data, Zeros(s));
    }

    method Krecalloc(p: nat, n: nat, e: nat, grant: Option<nat>, noise: seq<u8>, scrub: seq<u8>) returns (rc: nat)
      requires Valid() && SizesAllowed(heap, n, e, grant) && (n * e <= SIZE_MAX ==> |noise| == n * e)
      requires p != NULL ==> p in Live(heap.chain) && |scrub| == |Live(heap.chain)[p]|
      modifies this
      ensures Valid()
      ensures (heap, rc) == HeapRun.Krecalloc(old(heap), p, n, e, grant)
    {
      hide Inv, Balanced, Rep, Live, HeapRun.Kmalloc, HeapRun.Kfree, HeapRun.Kcalloc, Poke, HasRoom, Recalloced,
           GrantAllowed;
      MulRejectedIsOverflow(n, e);
      if (n >= MUL_NO_OVERFLOW || e >= MUL_NO_OVERFLOW) && n > 0 && SIZE_MAX / n < e {
        return NULL;
      }
      if p == NULL {
        rc := Kcalloc(n, e, grant, noise);
        return;
      }
      var s := n * e % U64;
      ghost var h := heap;
      LiveBlock(h, p);
      KmallocRefines(h, s, grant, Zeros(s));
      ghost var d := Recalloced(Payload(h, p), s);
      rc := AllocateZeroed(s, grant, noise);
      if rc == NULL {
        KmallocFails(h, s, grant, Zeros(s), d);
        return;
      }
      var l := GetMemSize(p);
      var bytes := LoadPayload(p, Min(l, s));
      StorePayload(rc, bytes);
      RecallocedIs(Payload(h, p), s, bytes);
      RefilledAllocation(h, s, grant, Zeros(s), d);
      KmallocRefines(h, s, grant, d);
      Kfree(p, scrub);
    }

    // The inner loop of find_free_entry: merge until merge_headers declines.
    method MergeAll(p: nat, ghost k: nat)
      requires Valid() && k < |heap.chain| && p == heap.chain[k].addr
      modifies this`mem, this`final, this`heap
      ensures Valid() && Follows(old(heap), heap) && k < |heap.chain| <= |old(heap).chain|
      ensures heap.chain[..k] == old(heap).chain[..k] && heap.chain[k..] == Absorb(old(heap).chain[k..])
      ensures heap.chain[k].addr == p
    {
      hide Balanced, Linked, AllOk, RegionsOk, Granted, Load, Mergeable;
      ghost var c1 := heap.chain;
      var more := true;
      while more
        invariant Valid() && Follows(old(heap), heap)
        invariant k < |heap.chain| <= |c1| && heap.chain[k].addr == p
        invariant heap.chain[..k] == c1[..k] && Absorb(heap.chain[k..]) == Absorb(c1[k..])
        invariant !more ==> !CanMerge(heap.chain, k)
        decreases |heap.chain|, more
      {
        ghost var h := heap;
        more := MergeHeaders(p, k, {});
        if more { MergedSuffix(h, k); }
      }
      assert Absorb(heap.chain[k..]) == heap.chain[k..];
    }
  }

  // kmalloc_init: without memory there is no heap.
  method KmallocInit(initial: seq<u8>, grant: Option<nat>) returns (a: Allocator?)
    requires |initial| == U64 && (grant.Some? ==> 0 < grant.value && grant.value + NEW_ALLOC_SIZE <= U64)
    ensures a == null <==> grant.None?
    ensures a != null ==> fresh(a) && a.Valid() && a.heap == Initial(grant.value) && a.boot == initial
  {
    if grant.None? {
      return null;
    }
    a := new Allocator(grant.value, initial);
  }

  ghost predicate Follows(h: Heap, g: Heap) {
    && |g.chain| <= |h.chain|
    && g == h.(chain := g.chain, merges := h.merges + |h.chain| - |g.chain|)
  }

  lemma MergedSuffix(h: Heap, k: nat)
    requires CanMerge(h.chain, k)
    ensures var g := Merge(h, k).chain;
            g[..k] == h.chain[..k] && Absorb(g[k..]) == Absorb(h.chain[k..])
  {
    var g := Merge(h, k).chain;
    assert g[k..] == [Merged(h.chain[k..][0], h.chain[k..][1])] + h.chain[k..][2..];
  }

  // A walk's answer for a chain whose first blocks "pre" have been passed.
  ghost function After(pre: seq<Block>, r: (seq<Block>, Option<nat>)): (seq<Block>, Option<nat>) {
    (pre + r.0, if r.1.Some? then Some(|pre| + r.1.value) else None)
  }

  // c is c1 with the run at position k merged, if the walk does that.
  ghost predicate Visited(c1: seq<Block>, c: seq<Block>, k: nat, need: nat) {
    && k < |c1| && k < |c| && c[..k] == c1[..k]
    && c[k..] == if c1[k].free && c1[k].size < need then Absorb(c1[k..]) else c1[k..]
  }

  lemma StepPast(c1: seq<Block>, c: seq<Block>, k: nat, need: nat)
    requires Visited(c1, c, k, need) && (c1[k].free ==> c1[k].size < need && c[k].size < need)
    ensures After(c1[..k], Walk(c1[k..], need)) == After(c[..k + 1], Walk(c[k + 1..], need))
  {
    hide Absorb;
    assert c[k..][1..] == c[k + 1..] && c[k..][0] == c[k];
    if c1[k].free { AbsorbKeepsHead(c1[k..]); }
    assert Walk(c1[k..], need) == Behind(c[k], Walk(c[k + 1..], need));
    var w := Walk(c[k + 1..], need).0;
    assert c[..k] + ([c[k]] + w) == c[..k + 1] + w;
  }

  lemma StopAt(c1: seq<Block>, c: seq<Block>, k: nat, need: nat)
    requires Visited(c1, c, k, need) && c1[k].free && c[k].size >= need
    ensures After(c1[..k], Walk(c1[k..], need)) == (c, Some(k))
  {
    assert c == c[..k] + c[k..];
    assert c1[k..][0] == c1[k] && c[k..][0] == c[k];
    assert Walk(c1[k..], need) == (c[k..], Some(0));
  }

  lemma StoreTwice(mem: seq<u8>, m: seq<u8>, m': seq<u8>, a: nat)
    requires OnlyIn(mem, m, a, a + HEADER) && OnlyIn(m, m', a, a + HEADER)
    ensures OnlyIn(mem, m', a, a + HEADER)
  {
  }

  lemma GrewInPlace(h: Heap, p: nat, n: nat, boot: seq<u8>, was: seq<u8>, m: seq<u8>)
    requires Inv(h) && HEADER <= n && GrantOk(h, p, n) && Untouched(boot, was, h.regions)
    requires OnlyIn(was, m, Last(h.chain).addr, Last(h.chain).addr + HEADER)
    ensures 0 < |h.regions| && Untouched(boot, m, Grow(h, p, n).regions)
  {
    hide Inv, Untouched, Grow, GrantOk;
    GrowUntouched(h, p, n, boot, was, m);
  }

  lemma GrewByRegion(h: Heap, p: nat, n: nat, boot: seq<u8>, was: seq<u8>, m: seq<u8>, m': seq<u8>)
    requires Inv(h) && HEADER <= n && GrantOk(h, p, n) && Untouched(boot, was, h.regions)
    requires OnlyIn(was, m, p, p + HEADER) && OnlyIn(m, m', Last(h.chain).addr, Last(h.chain).addr + HEADER)
    ensures 0 < |h.regions| && Untouched(boot, m', Grow(h, p, n).regions)
  {
    hide Inv, Untouched, Grow, GrantOk;
    GrowUntouched(h, p, n, boot, was, m');
  }

  lemma FlagBits(b: Block)
    ensures FreeBit(Flags(b)) == b.free && FinalBit(Flags(b)) == b.fin && Flags(b) < 256
  {
  }

  lemma MergedFlags(a: Block, b: Block)
    requires a.free && b.free
    ensures Flags(Merged(a, b)) == if FinalBit(Flags(b)) && !FinalBit(Flags(a)) then Flags(a) + IS_FINAL else Flags(a)
    ensures Flags(Merged(a, b)) < 256
  {
  }

  // What add_heap_memory relies on: 32-bit sizes, the new last block, and the running total.
  lemma GrowFacts(h: Heap, p: nat, n: nat)
    requires Good(h) && 0 < |h.chain| && 0 < |h.regions| && HEADER <= n && GrantOk(h, p, n)
    ensures var g, l := Grow(h, p, n), Last(h.chain);
            && Good(g) && 0 < |g.chain| && g.chain[0].addr == h.chain[0].addr
            && Last(g.chain).addr == (if GrowsInPlace(h, p) then l.addr else p)
            && Granted(g.regions) == Granted(h.regions) + n
            && |g.regions| + g.growths == |h.regions| + h.growths + 1
            && n < U32 && l.addr + HEADER <= U64 && l.free
            && (GrowsInPlace(h, p) ==> l.size + n - HEADER < U32)
  {
    GrowKeepsInv(h, p, n);
    GrowBalanced(h, p, n);
    FieldsFit(h, |h.chain| - 1);
    FinalIsTheFence(h, |h.chain| - 1);
    FieldsFit(Grow(h, p, n), |Grow(h, p, n).chain| - 1);
    GrantedNonNegative(h.regions);
  }

  lemma FindFacts(h: Heap, need: nat)
    ensures var f := Find(h, need).0; f.regions == h.regions && f.growths == h.growths
    ensures var (f, r) := Find(h, need);
            r.Some? ==> r.value < |f.chain| && f.chain[r.value].free && f.chain[r.value].size >= need
  {
  }

  // Once the heap has grown, kmalloc needs no further memory.
  lemma KmallocAgain(f: Heap, p: nat, s: nat, data: seq<u8>)
    requires 0 < |f.chain| && 0 < |f.regions|
    requires Find(Grow(f, p, GrantSize(s)), s + HEADER).1.Some?
    requires s + HEADER < U32
    ensures GrantAllowed(Grow(f, p, GrantSize(s)), s, None)
    ensures HeapRun.Kmalloc(Grow(f, p, GrantSize(s)), s, None, data) ==
            var (f', r') := Find(Grow(f, p, GrantSize(s)), s + HEADER); TakeFound(f', r', s, data)
  {
  }

  lemma TakeFacts(h: Heap, k: nat, n: nat)
    requires Inv(h) && k < |h.chain| && h.chain[k].free && h.chain[k].size >= n + HEADER
    ensures h.chain[k].size < U32 && Ptr(h.chain[k]) + n + HEADER <= End(h.chain[k]) <= U64
    ensures 0 < h.chain[k].addr && Next(h.chain, k) < U64
    ensures h.chain[k].addr == Last(h.chain).addr <==> k == |h.chain| - 1
  {
    FieldsFit(h, k);
    if k + 1 < |h.chain| {
      FieldsFit(h, k + 1);
      BlocksAreDisjoint(h, k, |h.chain| - 1);
    }
  }

  lemma SplitFacts(h: Heap, k: nat, n: nat, data: seq<u8>)
    requires Good(h) && k < |h.chain| && h.chain[k].free && h.chain[k].size >= n + HEADER && |data| == n
    ensures var s := Split(h, k, n, data);
            && Good(s) && k + 1 < |s.chain| && s.chain[0].addr == h.chain[0].addr
            && s.chain[k + 1].addr == Ptr(h.chain[k]) + n
            && Last(s.chain).addr == if k == |h.chain| - 1 then s.chain[k + 1].addr else Last(h.chain).addr
  {
    AllocateKeepsInv(h, k, n, data);
    SplitFootprint(h, k, n, data);
  }

  lemma MergeBehind(h: Heap, k: nat, n: nat, data: seq<u8>)
    requires Inv(h) && k < |h.chain| && h.chain[k].free && h.chain[k].size >= n + HEADER && |data| == n
    ensures var s, a := Split(h, k, n, data), Allocate(h, k, n, data);
            && k + 1 < |a.chain| && a.chain[k] == s.chain[k] && a.chain[k + 1].addr == s.chain[k + 1].addr
            && s.chain[k] == Block(h.chain[k].addr, n, false, false, h.chain[k].region, data)
  {
  }

  lemma PokeFacts(h: Heap, p: nat, d: seq<u8>)
    requires Inv(h) && p in Live(h.chain) && |d| == |Live(h.chain)[p]|
    ensures var k, g := IndexOf(h.chain, p), Poke(h, p, d);
            && k < |h.chain| && g == Fill(h, k, d) && 0 < |h.chain| && |g.chain| == |h.chain|
            && g.chain[k] == h.chain[k].(data := d) && g.regions == h.regions && g.growths == h.growths
            && g.chain[0].addr == h.chain[0].addr && Last(g.chain).addr == Last(h.chain).addr
  {
    LiveBlock(h, p);
  }

  lemma FreeFacts(h: Heap, k: nat)
    requires Good(h) && k < |h.chain| && !h.chain[k].free
    ensures var g := Replace(h, k, h.chain[k].(free := true, data := []));
            && Good(g) && 0 < |h.chain| && |g.chain| == |h.chain|
            && g.chain[k].addr == h.chain[k].addr
            && g.chain[0].addr == h.chain[0].addr && Last(g.chain).addr == Last(h.chain).addr
  {
    ReleaseKeepsInv(h, k);
    ReplaceFootprint(h, k, h.chain[k].(free := true, data := []));
  }

  lemma ShrinkFacts(h: Heap, k: nat, n: nat)
    requires Inv(h) && k < |h.chain| && !h.chain[k].free && n <= h.chain[k].size == |h.chain[k].data|
    ensures var g := Shrink(h, k, n);
            && 0 < |h.chain| && |g.chain| == |h.chain| && g.regions == h.regions && g.growths == h.growths
            && g.chain[0].addr == h.chain[0].addr && Last(g.chain).addr == Last(h.chain).addr
            && n < U32
  {
    FieldsFit(h, k);
  }

  lemma ReleasedAfterFill(h: Heap, k: nat, d: seq<u8>)
    requires k < |h.chain|
    ensures var g := Fill(h, k, d);
            TryMerge(Replace(g, k, g.chain[k].(free := true, data := [])), k) == Release(h, k)
  {
    var g := Fill(h, k, d);
    assert Replace(g, k, g.chain[k].(free := true, data := [])).chain ==
           Replace(h, k, h.chain[k].(free := true, data := [])).chain;
  }

  lemma RecallocedIs(old_: seq<u8>, s: nat, bytes: seq<u8>)
    requires bytes == old_[..Min(|old_|, s)]
    ensures bytes + Zeros(s)[|bytes|..] == Recalloced(old_, s)
  {
  }

  lemma FollowsTwice(h0: Heap, h1: Heap, h: Heap)
    requires Follows(h0, h1) && Follows(h1, h)
    ensures Follows(h0, h)
  {
  }

  lemma FirstBlock(h: Heap)
    requires Inv(h)
    ensures 0 < |h.chain| && 0 < h.chain[0].addr && 0 < |h.regions|
  {
    FieldsFit(h, 0);
  }

  lemma WalkStart(h: Heap, need: nat)
    ensures Follows(h, h)
    ensures After(h.chain[..0], Walk(h.chain[0..], need)) == Walk(h.chain, need)
  {
    var c := h.chain;
    assert c[0..] == c;
    var w := Walk(c, need).0;
    assert c[..0] + w == w;
  }

  lemma FoundAt(h0: Heap, h1: Heap, h: Heap, k: nat, need: nat)
    requires Follows(h0, h) && Visited(h1.chain, h.chain, k, need) && h1.chain[k].free && h.chain[k].size >= need
    requires Walk(h0.chain, need) == After(h1.chain[..k], Walk(h1.chain[k..], need))
    ensures Find(h0, need) == (h, Some(k))
  {
    StopAt(h1.chain, h.chain, k, need);
  }

  lemma FoundNone(h0: Heap, h: Heap, k: nat, need: nat)
    requires Follows(h0, h) && k == |h.chain|
    requires Walk(h0.chain, need) == After(h.chain[..k], Walk(h.chain[k..], need))
    ensures Find(h0, need) == (h, None)
  {
    assert h.chain[k..] == [] && h.chain[..k] + [] == h.chain;
  }
}
