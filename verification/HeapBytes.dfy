/** Block headers as bytes: 24 bytes each, little-endian, in one flat memory. */
module HeapBytes {
  import opened HeapModel
  import opened HeapInvariant

  const MAGIC: nat := 0xdde5_1ab9_4102_68b1
  const IS_FREE: nat := 1
  const IS_FINAL: nat := 2

  // Field offsets inside a header; bytes 13 to 15 are padding.
  const AT_SIZE: nat := 8
  const AT_FLAGS: nat := 12
  const AT_NEXT: nat := 16

  datatype Header = Header(magic: nat, size: nat, flags: nat, next: nat)

  function Pow256(n: nat): nat {
    if n == 0 then 1 else 256 * Pow256(n - 1)
  }

  function Bytes(v: nat, n: nat): (b: seq<u8>)
    ensures |b| == n
  {
    if n == 0 then [] else [v % 256] + Bytes(v / 256, n - 1)
  }

  function Value(b: seq<u8>): nat {
    if b == [] then 0 else b[0] + 256 * Value(b[1..])
  }

  lemma {:induction false} ValueOfBytes(v: nat, n: nat)
    requires v < Pow256(n)
    ensures Value(Bytes(v, n)) == v
  {
    if n != 0 {
      ValueOfBytes(v / 256, n - 1);
      assert Bytes(v, n)[1..] == Bytes(v / 256, n - 1);
    }
  }

  lemma Widths()
    ensures Pow256(1) == 256 && Pow256(4) == U32 && Pow256(8) == U64
  {
    assert Pow256(2) == 0x1_0000 && Pow256(3) == 0x100_0000;
    assert Pow256(5) == 0x100_0000_0000 && Pow256(6) == 0x1_0000_0000_0000;
    assert Pow256(7) == 0x100_0000_0000_0000;
  }

  function Write(mem: seq<u8>, a: nat, b: seq<u8>): (m: seq<u8>)
    requires a + |b| <= |mem|
    ensures |m| == |mem|
    ensures m[a..a + |b|] == b
  {
    mem[..a] + b + mem[a + |b|..]
  }

  lemma WriteElsewhere(mem: seq<u8>, a: nat, b: seq<u8>, lo: nat, hi: nat)
    requires a + |b| <= |mem| && lo <= hi <= |mem| && (hi <= a || a + |b| <= lo)
    ensures Write(mem, a, b)[lo..hi] == mem[lo..hi]
  {
    var m := Write(mem, a, b);
    forall x | lo <= x < hi ensures m[x] == mem[x] {
    }
  }

  function Load(mem: seq<u8>, a: nat): Header
    requires a + HEADER <= |mem|
  {
    Header(Value(mem[a..a + 8]), Value(mem[a + AT_SIZE..a + AT_SIZE + 4]),
           Value(mem[a + AT_FLAGS..a + AT_FLAGS + 1]), Value(mem[a + AT_NEXT..a + AT_NEXT + 8]))
  }

  // Storing one field of the header at a.
  function SetMagic(mem: seq<u8>, a: nat, v: nat): (m: seq<u8>)
    requires a + HEADER <= |mem| && v < U64
    ensures |m| == |mem| && Load(m, a) == Load(mem, a).(magic := v)
    ensures OnlyIn(mem, m, a, a + HEADER)
  {
    Widths();
    ValueOfBytes(v, 8);
    WriteElsewhere(mem, a, Bytes(v, 8), a + AT_SIZE, a + AT_SIZE + 4);
    WriteElsewhere(mem, a, Bytes(v, 8), a + AT_FLAGS, a + AT_FLAGS + 1);
    WriteElsewhere(mem, a, Bytes(v, 8), a + AT_NEXT, a + AT_NEXT + 8);
    Write(mem, a, Bytes(v, 8))
  }

  function SetSize(mem: seq<u8>, a: nat, v: nat): (m: seq<u8>)
    requires a + HEADER <= |mem| && v < U32
    ensures |m| == |mem| && Load(m, a) == Load(mem, a).(size := v)
    ensures OnlyIn(mem, m, a, a + HEADER)
  {
    Widths();
    ValueOfBytes(v, 4);
    WriteElsewhere(mem, a + AT_SIZE, Bytes(v, 4), a, a + 8);
    WriteElsewhere(mem, a + AT_SIZE, Bytes(v, 4), a + AT_FLAGS, a + AT_FLAGS + 1);
    WriteElsewhere(mem, a + AT_SIZE, Bytes(v, 4), a + AT_NEXT, a + AT_NEXT + 8);
    Write(mem, a + AT_SIZE, Bytes(v, 4))
  }

  function SetFlags(mem: seq<u8>, a: nat, v: nat): (m: seq<u8>)
    requires a + HEADER <= |mem| && v < 256
    ensures |m| == |mem| && Load(m, a) == Load(mem, a).(flags := v)
    ensures OnlyIn(mem, m, a, a + HEADER)
  {
    Widths();
    ValueOfBytes(v, 1);
    WriteElsewhere(mem, a + AT_FLAGS, Bytes(v, 1), a, a + 8);
    WriteElsewhere(mem, a + AT_FLAGS, Bytes(v, 1), a + AT_SIZE, a + AT_SIZE + 4);
    WriteElsewhere(mem, a + AT_FLAGS, Bytes(v, 1), a + AT_NEXT, a + AT_NEXT + 8);
    Write(mem, a + AT_FLAGS, Bytes(v, 1))
  }

  function SetNext(mem: seq<u8>, a: nat, v: nat): (m: seq<u8>)
    requires a + HEADER <= |mem| && v < U64
    ensures |m| == |mem| && Load(m, a) == Load(mem, a).(next := v)
    ensures OnlyIn(mem, m, a, a + HEADER)
  {
    Widths();
    ValueOfBytes(v, 8);
    WriteElsewhere(mem, a + AT_NEXT, Bytes(v, 8), a, a + 8);
    WriteElsewhere(mem, a + AT_NEXT, Bytes(v, 8), a + AT_SIZE, a + AT_SIZE + 4);
    WriteElsewhere(mem, a + AT_NEXT, Bytes(v, 8), a + AT_FLAGS, a + AT_FLAGS + 1);
    Write(mem, a + AT_NEXT, Bytes(v, 8))
  }

  // m differs from mem at most in [lo, hi).
  ghost predicate OnlyIn(mem: seq<u8>, m: seq<u8>, lo: nat, hi: nat) {
    |m| == |mem| && forall x :: 0 <= x < |mem| && !(lo <= x < hi) ==> m[x] == mem[x]
  }

  // All stores into the header at a that the allocator makes, as one.
  function SetHeader(mem: seq<u8>, a: nat, size: nat, flags: nat, next: nat): (m: seq<u8>)
    requires a + HEADER <= |mem| && size < U32 && flags < 256 && next < U64
    ensures |m| == |mem| && Load(m, a) == Header(Load(mem, a).magic, size, flags, next)
    ensures OnlyIn(mem, m, a, a + HEADER)
  {
    SetNext(SetFlags(SetSize(mem, a, size), a, flags), a, next)
  }

  lemma OutsideSame(mem: seq<u8>, m: seq<u8>, lo: nat, hi: nat, x: nat, y: nat)
    requires OnlyIn(mem, m, lo, hi) && x <= y <= |mem| && (y <= lo || hi <= x)
    ensures m[x..y] == mem[x..y]
    ensures x + HEADER <= y ==> Load(m, x) == Load(mem, x)
  {
    assert m[x..y] == mem[x..y];
    if x + HEADER <= y {
      assert m[x..x + 8] == mem[x..x + 8];
      assert m[x + AT_SIZE..x + AT_SIZE + 4] == mem[x + AT_SIZE..x + AT_SIZE + 4];
      assert m[x + AT_FLAGS..x + AT_FLAGS + 1] == mem[x + AT_FLAGS..x + AT_FLAGS + 1];
      assert m[x + AT_NEXT..x + AT_NEXT + 8] == mem[x + AT_NEXT..x + AT_NEXT + 8];
    }
  }

  // ------------------------------------------------------------------------------------------
  // Memory represents a chain
  // ------------------------------------------------------------------------------------------

  function Flags(b: Block): nat {
    (if b.free then IS_FREE else 0) + (if b.fin then IS_FINAL else 0)
  }

  function Next(c: seq<Block>, i: nat): nat {
    if i + 1 < |c| then c[i + 1].addr else 0
  }

  ghost predicate BlockAt(mem: seq<u8>, b: Block, next: nat) {
    && End(b) <= |mem|
    && Load(mem, b.addr) == Header(MAGIC, b.size, Flags(b), next)
    && (!b.free ==> mem[Ptr(b)..End(b)] == b.data)
  }

  // Every block of the chain is represented, except those at the positions in "skip".
  ghost predicate Rep(mem: seq<u8>, c: seq<Block>, skip: set<int>) {
    forall i {:trigger BlockAt(mem, c[i], Next(c, i))} ::
      0 <= i < |c| && i !in skip ==> BlockAt(mem, c[i], Next(c, i))
  }

  lemma BlockKept(mem: seq<u8>, m: seq<u8>, lo: nat, hi: nat, b: Block, next: nat)
    requires OnlyIn(mem, m, lo, hi) && BlockAt(mem, b, next) && (End(b) <= lo || hi <= b.addr)
    ensures BlockAt(m, b, next)
  {
    OutsideSame(mem, m, lo, hi, b.addr, End(b));
    OutsideSame(mem, m, lo, hi, Ptr(b), End(b));
  }

  // A store into block k leaves every other block's header and payload alone.
  lemma StoreInside(h: Heap, mem: seq<u8>, m: seq<u8>, k: nat, skip: set<int>)
    requires Inv(h) && k < |h.chain| && Rep(mem, h.chain, skip)
    requires OnlyIn(mem, m, h.chain[k].addr, End(h.chain[k]))
    ensures Rep(m, h.chain, skip + {k})
  {
    forall i | 0 <= i < |h.chain| && i !in skip + {k} ensures BlockAt(m, h.chain[i], Next(h.chain, i)) {
      assert BlockAt(mem, h.chain[i], Next(h.chain, i));
      if i < k { BlocksAreDisjoint(h, i, k); } else { BlocksAreDisjoint(h, k, i); }
      BlockKept(mem, m, h.chain[k].addr, End(h.chain[k]), h.chain[i], Next(h.chain, i));
    }
  }

  // So does a store into memory that belongs to no region.
  lemma StoreOutside(h: Heap, mem: seq<u8>, m: seq<u8>, lo: nat, hi: nat)
    requires Inv(h) && Rep(mem, h.chain, {}) && OnlyIn(mem, m, lo, hi)
    requires forall i :: 0 <= i < |h.regions| ==> Apart(h.regions[i], Region(lo, hi))
    ensures Rep(m, h.chain, {})
  {
    forall i | 0 <= i < |h.chain| ensures BlockAt(m, h.chain[i], Next(h.chain, i)) {
      assert BlockAt(mem, h.chain[i], Next(h.chain, i));
      assert BlockOk(h.chain[i], h.regions);
      assert Apart(h.regions[h.chain[i].region], Region(lo, hi));
      BlockKept(mem, m, lo, hi, h.chain[i], Next(h.chain, i));
    }
  }

  // Rewriting block k in place completes the representation of Replace(h, k, b).
  lemma RepReplaced(h: Heap, m: seq<u8>, k: nat, b: Block, skip: set<int>)
    requires k < |h.chain| && Rep(m, h.chain, skip + {k}) && b.addr == h.chain[k].addr
    requires BlockAt(m, b, Next(h.chain, k))
    ensures Rep(m, Replace(h, k, b).chain, skip - {k})
  {
    var c, d := h.chain, Replace(h, k, b).chain;
    forall i | 0 <= i < |d| && i !in skip - {k} ensures BlockAt(m, d[i], Next(d, i)) {
      assert Next(d, i) == Next(c, i);
      if i != k { assert BlockAt(m, c[i], Next(c, i)); }
    }
  }

  lemma RepMerged(h: Heap, m: seq<u8>, k: nat, skip: set<int>)
    requires CanMerge(h.chain, k) && Rep(m, h.chain, skip + {k}) && (forall x :: x in skip ==> x < k)
    requires BlockAt(m, Merged(h.chain[k], h.chain[k + 1]), Next(h.chain, k + 1))
    ensures Rep(m, Merge(h, k).chain, skip)
  {
    var c, d := h.chain, Merge(h, k).chain;
    forall i | 0 <= i < |d| && i !in skip ensures BlockAt(m, d[i], Next(d, i)) {
      if i < k {
        assert BlockAt(m, c[i], Next(c, i)) && Next(d, i) == Next(c, i);
      } else if i == k {
        assert d[k] == Merged(c[k], c[k + 1]) && Next(d, k) == Next(c, k + 1);
      } else {
        assert BlockAt(m, c[i + 1], Next(c, i + 1)) && Next(d, i) == Next(c, i + 1);
      }
    }
  }

  // merge_headers' three stores into the first header, and what they represent.
  lemma MergeStores(h: Heap, mem: seq<u8>, m: seq<u8>, k: nat, skip: set<int>)
    requires Inv(h) && CanMerge(h.chain, k) && |mem| == U64
    requires Rep(mem, h.chain, skip) && forall x :: x in skip ==> x < k
    requires OnlyIn(mem, m, h.chain[k].addr, h.chain[k].addr + HEADER)
    requires h.chain[k].addr + HEADER <= |m|
    requires var a, b := h.chain[k], h.chain[k + 1];
             Load(m, a.addr) == Header(MAGIC, a.size + b.size, Flags(Merged(a, b)), Next(h.chain, k + 1))
    ensures Inv(Merge(h, k)) && Rep(m, Merge(h, k).chain, skip)
  {
    MergeKeepsInv(h, k);
    FieldsFit(h, k);
    FieldsFit(Merge(h, k), k);
    StoreInside(h, mem, m, k, skip);
    RepMerged(h, m, k, skip);
  }

  // After a split the new header must be in place; the old one may still wait to be rewritten.
  lemma RepSplit(h: Heap, m: seq<u8>, k: nat, n: nat, data: seq<u8>)
    requires k < |h.chain| && h.chain[k].size >= n + HEADER && Rep(m, h.chain, {k})
    requires BlockAt(m, Split(h, k, n, data).chain[k + 1], Next(h.chain, k))
    ensures Rep(m, Split(h, k, n, data).chain, {k})
  {
    var c, d := h.chain, Split(h, k, n, data).chain;
    forall i | 0 <= i < |d| && i != k ensures BlockAt(m, d[i], Next(d, i)) {
      if i < k {
        assert BlockAt(m, c[i], Next(c, i)) && Next(d, i) == Next(c, i);
      } else if i == k + 1 {
        assert Next(d, i) == Next(c, k);
      } else {
        assert BlockAt(m, c[i - 1], Next(c, i - 1)) && Next(d, i) == Next(c, i - 1);
      }
    }
  }

  // A new header written at the split point, inside the payload of the free block k.
  lemma SplitStores(h: Heap, mem: seq<u8>, m: seq<u8>, k: nat, n: nat, data: seq<u8>)
    requires Inv(h) && |mem| == U64 && Rep(mem, h.chain, {}) && k < |h.chain| && h.chain[k].free
    requires h.chain[k].size >= n + HEADER && |data| == n
    requires var a := Ptr(h.chain[k]) + n;
             && a + HEADER <= |m| && OnlyIn(mem, m, a, a + HEADER)
             && Load(m, a) == Header(MAGIC, h.chain[k].size - n - HEADER, Flags(h.chain[k]), Next(h.chain, k))
    ensures Inv(Split(h, k, n, data)) && Rep(m, Split(h, k, n, data).chain, {k})
  {
    hide Load;
    AllocateKeepsInv(h, k, n, data);
    FieldsFit(h, k);
    var b, a := h.chain[k], Ptr(h.chain[k]) + n;
    WidenStore(mem, m, a, a + HEADER, b.addr, End(b));
    StoreInside(h, mem, m, k, {});
    RepSplit(h, m, k, n, data);
  }

  lemma WidenStore(mem: seq<u8>, m: seq<u8>, lo: nat, hi: nat, lo': nat, hi': nat)
    requires OnlyIn(mem, m, lo, hi) && lo' <= lo && hi <= hi'
    ensures OnlyIn(mem, m, lo', hi')
  {
  }

  // Stores into block k's own header and payload that make it block b.
  lemma ReplaceStores(h: Heap, mem: seq<u8>, m: seq<u8>, k: nat, b: Block)
    requires Inv(h) && k < |h.chain| && b.addr == h.chain[k].addr
    requires Rep(mem, h.chain, {}) || Rep(mem, h.chain, {k})
    requires OnlyIn(mem, m, h.chain[k].addr, End(h.chain[k])) && BlockAt(m, b, Next(h.chain, k))
    ensures Rep(m, Replace(h, k, b).chain, {})
  {
    if Rep(mem, h.chain, {}) {
      StoreInside(h, mem, m, k, {});
      RepReplaced(h, m, k, b, {});
    } else {
      StoreInside(h, mem, m, k, {k});
      assert {k} + {k} == {k} && {k} - {k} == {};
      RepReplaced(h, m, k, b, {k});
    }
  }

  // add_heap_memory's new region: a header at p and a link to it from the old last block.
  lemma AppendStores(h: Heap, mem: seq<u8>, m: seq<u8>, m': seq<u8>, p: nat, n: nat)
    requires Inv(h) && |mem| == U64 && Rep(mem, h.chain, {}) && HEADER <= n && GrantOk(h, p, n)
    requires !GrowsInPlace(h, p)
    requires OnlyIn(mem, m, p, p + HEADER)
    requires p + HEADER <= |m| && Load(m, p) == Header(MAGIC, n - HEADER, IS_FREE + IS_FINAL, 0)
    requires var l := Last(h.chain);
             && l.addr + HEADER <= |m'| && OnlyIn(m, m', l.addr, l.addr + HEADER)
             && Load(m', l.addr) == Load(m, l.addr).(next := p)
    ensures Rep(m', Grow(h, p, n).chain, {})
  {
    hide Load;
    var k, c, d := |h.chain| - 1, h.chain, Grow(h, p, n).chain;
    FieldsFit(h, k);
    assert BlockOk(c[k], h.regions);
    assert Apart(h.regions[c[k].region], Region(p, p + n));
    WidenStore(mem, m, p, p + HEADER, p, p + n);
    StoreOutside(h, mem, m, p, p + n);
    StoreInside(h, m, m', k, {});
    assert BlockAt(m, c[k], Next(c, k));
    OutsideSame(m, m', c[k].addr, c[k].addr + HEADER, Ptr(c[k]), End(c[k]));
    OutsideSame(m, m', c[k].addr, c[k].addr + HEADER, p, p + HEADER);
    forall i | 0 <= i < |d| ensures BlockAt(m', d[i], Next(d, i)) {
      if i < k { assert BlockAt(m', c[i], Next(c, i)) && Next(d, i) == Next(c, i); }
    }
  }

  // add_heap_memory's growth in place: one store into the last block's size.
  lemma GrowStores(h: Heap, mem: seq<u8>, m: seq<u8>, p: nat, n: nat)
    requires Inv(h) && |mem| == U64 && Rep(mem, h.chain, {}) && HEADER <= n && GrantOk(h, p, n)
    requires GrowsInPlace(h, p)
    requires var l := Last(h.chain);
             && l.addr + HEADER <= |m| && OnlyIn(mem, m, l.addr, l.addr + HEADER)
             && Load(m, l.addr) == Header(MAGIC, l.size + n - HEADER, Flags(l), 0)
    ensures Rep(m, Grow(h, p, n).chain, {})
  {
    hide Load;
    var k := |h.chain| - 1;
    var l, g := h.chain[k], Grow(h, p, n);
    GrowKeepsInv(h, p, n);
    FieldsFit(g, k);
    WidenStore(mem, m, l.addr, l.addr + HEADER, l.addr, End(l));
    ReplaceStores(h, mem, m, k, g.chain[k]);
  }

  lemma PayloadStores(h: Heap, mem: seq<u8>, m: seq<u8>, k: nat, data: seq<u8>)
    requires Inv(h) && |mem| == U64 && Rep(mem, h.chain, {}) && k < |h.chain| && !h.chain[k].free
    requires |data| <= h.chain[k].size && End(h.chain[k]) <= |mem| && m == Write(mem, Ptr(h.chain[k]), data)
    ensures |h.chain[k].data| == h.chain[k].size
    ensures Rep(m, Fill(h, k, data + h.chain[k].data[|data|..]).chain, {})
  {
    hide Load;
    var b := h.chain[k];
    assert BlockOk(b, h.regions);
    assert BlockAt(mem, b, Next(h.chain, k));
    OutsideSame(mem, m, Ptr(b), End(b), b.addr, Ptr(b));
    var d := data + b.data[|data|..];
    assert mem[Ptr(b)..End(b)] == b.data;
    forall x | 0 <= x < b.size ensures m[Ptr(b)..End(b)][x] == d[x] {
      if |data| <= x { assert b.data[x] == mem[Ptr(b)..End(b)][x]; }
    }
    assert m[Ptr(b)..End(b)] == d;
    ReplaceStores(h, mem, m, k, b.(data := d));
  }

  lemma FreeStores(h: Heap, mem: seq<u8>, m: seq<u8>, k: nat)
    requires Inv(h) && |mem| == U64 && Rep(mem, h.chain, {}) && k < |h.chain| && !h.chain[k].free
    requires h.chain[k].addr + HEADER <= |m| && OnlyIn(mem, m, h.chain[k].addr, h.chain[k].addr + HEADER)
    requires Load(m, h.chain[k].addr) == Load(mem, h.chain[k].addr).(flags := Flags(h.chain[k]) + IS_FREE)
    ensures Rep(m, Replace(h, k, h.chain[k].(free := true, data := [])).chain, {})
  {
    hide Load;
    var b := h.chain[k];
    FieldsFit(h, k);
    assert BlockAt(mem, b, Next(h.chain, k));
    WidenStore(mem, m, b.addr, b.addr + HEADER, b.addr, End(b));
    ReplaceStores(h, mem, m, k, b.(free := true, data := []));
  }

  lemma ShrinkStores(h: Heap, mem: seq<u8>, m: seq<u8>, k: nat, n: nat)
    requires Inv(h) && |mem| == U64 && Rep(mem, h.chain, {}) && k < |h.chain| && !h.chain[k].free
    requires n <= h.chain[k].size == |h.chain[k].data|
    requires h.chain[k].addr + HEADER <= |m| && OnlyIn(mem, m, h.chain[k].addr, h.chain[k].addr + HEADER)
    requires Load(m, h.chain[k].addr) == Load(mem, h.chain[k].addr).(size := n)
    ensures Rep(m, Shrink(h, k, n).chain, {})
  {
    hide Load;
    var b := h.chain[k];
    FieldsFit(h, k);
    assert BlockAt(mem, b, Next(h.chain, k));
    OutsideSame(mem, m, b.addr, b.addr + HEADER, Ptr(b), End(b));
    assert m[Ptr(b)..Ptr(b) + n] == m[Ptr(b)..End(b)][..n];
    WidenStore(mem, m, b.addr, b.addr + HEADER, b.addr, End(b));
    ReplaceStores(h, mem, m, k, b.(size := n, data := b.data[..n]));
  }

  // The stores into the header of an entry that has been split, once the new header behind it may
  // have been merged (split and m1 are memory before and after that merge).
  lemma EntryStores(h: Heap, split: seq<u8>, m1: seq<u8>, m: seq<u8>, k: nat)
    requires Inv(h) && k + 1 < |h.chain| && Rep(m1, h.chain, {k}) && |split| == U64
    requires !h.chain[k].free && !h.chain[k].fin && h.chain[k + 1].addr == End(h.chain[k])
    requires End(h.chain[k]) <= U64
    requires split[Ptr(h.chain[k])..End(h.chain[k])] == h.chain[k].data
    requires OnlyIn(split, m1, End(h.chain[k]), End(h.chain[k]) + HEADER)
    requires OnlyIn(m1, m, h.chain[k].addr, Ptr(h.chain[k]))
    requires Load(m, h.chain[k].addr) == Header(MAGIC, h.chain[k].size, 0, End(h.chain[k]))
    ensures Rep(m, h.chain, {})
  {
    hide Load;
    var b := h.chain[k];
    OutsideSame(split, m1, End(b), End(b) + HEADER, Ptr(b), End(b));
    OutsideSame(m1, m, b.addr, Ptr(b), Ptr(b), End(b));
    WidenStore(m1, m, b.addr, Ptr(b), b.addr, End(b));
    ReplaceStores(h, m1, m, k, b);
    assert Replace(h, k, b) == h;
  }

  // ------------------------------------------------------------------------------------------
  // Memory outside the heap
  // ------------------------------------------------------------------------------------------

  ghost predicate Inside(rs: seq<Region>, x: nat) {
    exists i :: 0 <= i < |rs| && rs[i].lo <= x < rs[i].hi
  }

  // Memory that ksbrk has not handed out is as it was in "was".
  ghost predicate Untouched(was: seq<u8>, mem: seq<u8>, rs: seq<Region>) {
    |was| == |mem| && forall x :: 0 <= x < |mem| && !Inside(rs, x) ==> mem[x] == was[x]
  }

  lemma StoreUntouched(h: Heap, k: nat, was: seq<u8>, mem: seq<u8>, m: seq<u8>, lo: nat, hi: nat)
    requires Inv(h) && k < |h.chain| && Untouched(was, mem, h.regions)
    requires OnlyIn(mem, m, lo, hi) && h.chain[k].addr <= lo && hi <= End(h.chain[k])
    ensures Untouched(was, m, h.regions)
  {
    hide Linked, RegionsOk, Granted;
    var i := h.chain[k].region;
    assert BlockOk(h.chain[k], h.regions);
    forall x: nat | lo <= x < hi ensures Inside(h.regions, x) {
      assert h.regions[i].lo <= x < h.regions[i].hi;
    }
  }

  lemma GrownInside(h: Heap, p: nat, n: nat, x: nat)
    requires Inv(h) && HEADER <= n && GrantOk(h, p, n)
    ensures 0 < |h.regions| && (Inside(h.regions, x) || p <= x < p + n ==> Inside(Grow(h, p, n).regions, x))
  {
    hide Linked, AllOk, Granted;
    var g := Grow(h, p, n);
    if GrowsInPlace(h, p) {
      GrowthContinuesRegion(h, p, n);
      assert g.regions[|h.regions| - 1] == Region(Last(h.regions).lo, p + n);
    } else {
      assert g.regions[|h.regions|] == Region(p, p + n);
    }
    if i :| 0 <= i < |h.regions| && h.regions[i].lo <= x < h.regions[i].hi {
      assert g.regions[i].lo <= x < g.regions[i].hi;
    }
  }

  lemma LastInside(h: Heap, x: nat)
    requires Inv(h)
    ensures 0 < |h.chain| && (Last(h.chain).addr <= x < Ptr(Last(h.chain)) ==> Inside(h.regions, x))
  {
    hide Linked, RegionsOk, Granted;
    var l := Last(h.chain);
    assert BlockOk(h.chain[|h.chain| - 1], h.regions);
    assert h.regions[l.region].lo <= l.addr && End(l) <= h.regions[l.region].hi;
  }

  // Growth writes into the last block and the new memory only.
  lemma GrowUntouched(h: Heap, p: nat, n: nat, was: seq<u8>, mem: seq<u8>, m: seq<u8>)
    requires Inv(h) && HEADER <= n && GrantOk(h, p, n) && Untouched(was, mem, h.regions) && |m| == |mem|
    requires forall x :: 0 <= x < |m| && !(p <= x < p + n) && !(Last(h.chain).addr <= x < Ptr(Last(h.chain))) ==>
               m[x] == mem[x]
    ensures 0 < |h.regions| && Untouched(was, m, Grow(h, p, n).regions)
  {
    hide Inv, Grow, GrantOk, Inside;
    GrownInside(h, p, n, p);
    LastInside(h, p);
    forall x: nat | x < |m| && !Inside(Grow(h, p, n).regions, x) ensures m[x] == was[x] {
      GrownInside(h, p, n, x);
      LastInside(h, x);
    }
  }

  lemma FirstUntouched(was: seq<u8>, m: seq<u8>, p: nat, n: nat)
    requires |was| == |m| && OnlyIn(was, m, p, p + n)
    ensures Untouched(was, m, [Region(p, p + n)])
  {
    var rs := [Region(p, p + n)];
    forall x: nat | x < |m| && !Inside(rs, x) ensures m[x] == was[x] {
      assert !(rs[0].lo <= x < rs[0].hi);
    }
  }

  // ------------------------------------------------------------------------------------------
  // The header as 24 bytes
  // ------------------------------------------------------------------------------------------

  // Four bytes of m from position i on, the least significant first
  function Four(m: seq<u8>, i: nat): nat
    requires i + 4 <= |m|
  {
    m[i] as int + 0x100 * (m[i + 1] as int) + 0x1_0000 * (m[i + 2] as int) + 0x100_0000 * (m[i + 3] as int)
  }

  lemma ValueOfFour(b: seq<u8>)
    requires |b| == 4
    ensures Value(b) == Four(b, 0)
  {
    assert Value(b) == b[0] + 256 * Value(b[1..]) && Value(b[1..]) == b[1] + 256 * Value(b[2..]);
    assert b[1..][1..] == b[2..] && b[2..][1..] == b[3..] && b[3..][1..] == [];
    assert Value(b[2..]) == b[2] + 256 * Value(b[3..]) && Value(b[3..]) == b[3] + 256 * Value([]);
  }

  lemma ValueOfEight(b: seq<u8>)
    requires |b| == 8
    ensures Value(b) == Value(b[..4]) + U32 * Value(b[4..])
  {
    ValueSplits(b, 4);
    Widths();
  }

  lemma {:induction false} ValueSplits(b: seq<u8>, n: nat)
    requires n <= |b|
    ensures Value(b) == Value(b[..n]) + Pow256(n) * Value(b[n..])
    decreases n
  {
    if n > 0 {
      ValueSplits(b[1..], n - 1);
      assert b[..n][1..] == b[1..][..n - 1] && b[1..][n - 1..] == b[n..];
      Distributes(Value(b[1..][..n - 1]), Pow256(n - 1), Value(b[n..]));
    }
  }

  lemma Distributes(x: nat, y: nat, z: nat)
    ensures 256 * (x + y * z) == 256 * x + (256 * y) * z
  {
  }

  lemma FourAt(mem: seq<u8>, a: nat)
    requires a + 4 <= |mem|
    ensures Value(mem[a..a + 4]) == Four(mem, a)
  {
    ValueOfFour(mem[a..a + 4]);
  }

  lemma EightAt(mem: seq<u8>, a: nat)
    requires a + 8 <= |mem|
    ensures Value(mem[a..a + 8]) == Four(mem, a) + U32 * Four(mem, a + 4)
  {
    hide Value, Four;
    ValueOfEight(mem[a..a + 8]);
    FourAt(mem, a);
    FourAt(mem, a + 4);
    assert mem[a..a + 8][..4] == mem[a..a + 4] && mem[a..a + 8][4..] == mem[a + 4..a + 8];
  }

  // Eight bytes of magic, four of size, one of flags, three that nothing uses, and eight of the link, each with
  // its least significant byte first.
  lemma HeaderBytes(mem: seq<u8>, b: Block, next: nat)
    requires BlockAt(mem, b, next)
    ensures var a := b.addr;
            && a + 24 <= |mem|
            && Four(mem, a) + 0x1_0000_0000 * Four(mem, a + 4) == 0xdde5_1ab9_4102_68b1
            && Four(mem, a + 8) == b.size
            && mem[a + 12] == (if b.free then 1 else 0) + (if b.fin then 2 else 0)
            && Four(mem, a + 16) + 0x1_0000_0000 * Four(mem, a + 20) == next
  {
    hide Value, Four;
    var a := b.addr;
    EightAt(mem, a);
    FourAt(mem, a + 8);
    OneByte(mem[a + 12..a + 13]);
    EightAt(mem, a + 16);
  }

  lemma OneByte(b: seq<u8>)
    requires |b| == 1
    ensures Value(b) == b[0]
  {
    assert b[1..] == [];
  }
}
