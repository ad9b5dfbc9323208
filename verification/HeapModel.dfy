/** The kernel heap as a value: the chain of blocks that the allocator's headers describe, the
    regions obtained from ksbrk, and what each allocator operation does to them.  The imperative
    allocator in Kmalloc.dfy works on bytes and pointers and is proved to follow these functions. */
module HeapModel {
  import opened Prelude

  const HEADER: nat := 24
  const NEW_ALLOC_SIZE: nat := 0x40000
  const PAGE: nat := 0x1000
  const U32: nat := 0x1_0000_0000
  const U64: nat := 0x1_0000_0000_0000_0000

  type u8 = x: int | 0 <= x < 256

  // A block is a header and its payload; "data" is the payload of a block that is in use.
  datatype Block = Block(addr: nat, size: nat, free: bool, fin: bool, region: nat, data: seq<u8>)

  datatype Region = Region(lo: nat, hi: nat)

  // "merges", "growths" and "cut" count what the ledger needs: merges of two blocks, growths of
  // the last block in place, and payload bytes given up by shrinking.
  datatype Heap = Heap(chain: seq<Block>, regions: seq<Region>, merges: nat, growths: nat, cut: nat)

  function End(b: Block): nat {
    b.addr + HEADER + b.size
  }

  function Ptr(b: Block): nat {
    b.addr + HEADER
  }

  // ------------------------------------------------------------------------------------------
  // The invariant
  // ------------------------------------------------------------------------------------------

  ghost predicate BlockOk(b: Block, regions: seq<Region>) {
    && b.region < |regions|
    && regions[b.region].lo <= b.addr
    && End(b) <= regions[b.region].hi
    && (b.fin ==> b.free)
    && |b.data| == if b.free then 0 else b.size
  }

  ghost predicate Link(a: Block, b: Block) {
    if a.fin then b.region == a.region + 1 else b.region == a.region && End(a) <= b.addr
  }

  ghost predicate Linked(c: seq<Block>) {
    forall i, j {:trigger Link(c[i], c[j])} :: 0 <= i < j < |c| && j == i + 1 ==> Link(c[i], c[j])
  }

  ghost predicate AllOk(c: seq<Block>, regions: seq<Region>) {
    forall i {:trigger BlockOk(c[i], regions)} :: 0 <= i < |c| ==> BlockOk(c[i], regions)
  }

  ghost predicate Apart(r: Region, s: Region) {
    r.hi <= s.lo || s.hi <= r.lo
  }

  ghost predicate RegionsOk(rs: seq<Region>) {
    && (forall i :: 0 <= i < |rs| ==> 0 < rs[i].lo < rs[i].hi <= U64)
    && (forall i, j {:trigger Apart(rs[i], rs[j])} :: 0 <= i < j < |rs| ==> Apart(rs[i], rs[j]))
  }

  function Granted(rs: seq<Region>): int {
    if rs == [] then 0 else Granted(rs[..|rs| - 1]) + rs[|rs| - 1].hi - rs[|rs| - 1].lo
  }

  ghost predicate Inv(h: Heap) {
    && 0 < |h.chain|
    && h.chain[0].region == 0
    && Last(h.chain).fin && Last(h.chain).region == |h.regions| - 1
    && Linked(h.chain)
    && AllOk(h.chain, h.regions)
    && RegionsOk(h.regions)
    && Granted(h.regions) < U32
  }

  function Last<T>(s: seq<T>): T
    requires 0 < |s|
  {
    s[|s| - 1]
  }

  // ------------------------------------------------------------------------------------------
  // Operations on the chain
  // ------------------------------------------------------------------------------------------

  predicate Mergeable(a: Block, b: Block) {
    a.free && !a.fin && b.free
  }

  // merge_headers: the second header's own 24 bytes are not added to the size.
  function Merged(a: Block, b: Block): Block {
    a.(size := a.size + b.size, fin := a.fin || b.fin)
  }

  predicate CanMerge(c: seq<Block>, i: nat) {
    i + 1 < |c| && Mergeable(c[i], c[i + 1])
  }

  function Merge(h: Heap, i: nat): Heap
    requires CanMerge(h.chain, i)
  {
    h.(chain := h.chain[..i] + [Merged(h.chain[i], h.chain[i + 1])] + h.chain[i + 2..], merges := h.merges + 1)
  }

  function TryMerge(h: Heap, i: nat): Heap {
    if CanMerge(h.chain, i) then Merge(h, i) else h
  }

  // Merge the first block with its successors for as long as that is possible.
  function Absorb(c: seq<Block>): (r: seq<Block>)
    requires 0 < |c|
    ensures 0 < |r| <= |c|
    decreases |c|
  {
    if CanMerge(c, 0) then Absorb([Merged(c[0], c[1])] + c[2..]) else c
  }

  // The first-fit walk.  The chain is merged as a side effect; the index is that of the block found.
  function Walk(c: seq<Block>, need: nat): (r: (seq<Block>, Option<nat>))
    ensures |r.0| <= |c|
    ensures r.1.Some? ==> r.1.value < |r.0| && r.0[r.1.value].free && r.0[r.1.value].size >= need
    decreases |c|
  {
    if c == [] then
      ([], None)
    else if !c[0].free then
      Behind(c[0], Walk(c[1..], need))
    else if c[0].size >= need then
      (c, Some(0))
    else
      var m := Absorb(c);
      AbsorbKeepsHead(c);
      if m[0].size >= need then (m, Some(0)) else Behind(m[0], Walk(m[1..], need))
  }

  function Behind(b: Block, r: (seq<Block>, Option<nat>)): (seq<Block>, Option<nat>) {
    ([b] + r.0, if r.1.Some? then Some(r.1.value + 1) else None)
  }

  function Find(h: Heap, need: nat): (Heap, Option<nat>) {
    var (c, r) := Walk(h.chain, need);
    (h.(chain := c, merges := h.merges + |h.chain| - |c|), r)
  }

  // Cut n bytes for an allocation off a free block; the rest stays free behind a new header.
  function Split(h: Heap, i: nat, n: nat, data: seq<u8>): Heap
    requires i < |h.chain| && h.chain[i].size >= n + HEADER
  {
    var b := h.chain[i];
    var used := Block(b.addr, n, false, false, b.region, data);
    var rest := Block(b.addr + HEADER + n, b.size - n - HEADER, b.free, b.fin, b.region, []);
    h.(chain := h.chain[..i] + [used, rest] + h.chain[i + 1..])
  }

  function Allocate(h: Heap, i: nat, n: nat, data: seq<u8>): Heap
    requires i < |h.chain| && h.chain[i].size >= n + HEADER
  {
    TryMerge(Split(h, i, n, data), i + 1)
  }

  function Replace(h: Heap, i: nat, b: Block): Heap
    requires i < |h.chain|
  {
    h.(chain := h.chain[..i] + [b] + h.chain[i + 1..])
  }

  function Release(h: Heap, i: nat): Heap
    requires i < |h.chain|
  {
    TryMerge(Replace(h, i, h.chain[i].(free := true, data := [])), i)
  }

  function Shrink(h: Heap, i: nat, n: nat): Heap
    requires i < |h.chain| && n <= h.chain[i].size <= |h.chain[i].data|
  {
    var b := h.chain[i];
    Replace(h, i, b.(size := n, data := b.data[..n])).(cut := h.cut + b.size - n)
  }

  function Fill(h: Heap, i: nat, data: seq<u8>): Heap
    requires i < |h.chain|
  {
    Replace(h, i, h.chain[i].(data := data))
  }

  // add_heap_memory's request to ksbrk, for an allocation of s bytes.
  function GrantSize(s: nat): nat {
    var m := if s + HEADER > NEW_ALLOC_SIZE then s + HEADER else NEW_ALLOC_SIZE;
    m + (PAGE - m % PAGE) + NEW_ALLOC_SIZE
  }

  // What the heap relies on when ksbrk answers: p starts a fresh range of n bytes, and the heap stays
  // below 4 GiB.  HeapGrants shows both of the code behind ksbrk.
  ghost predicate GrantOk(h: Heap, p: nat, n: nat) {
    && 0 < p && p + n <= U64
    && (forall i :: 0 <= i < |h.regions| ==> Apart(h.regions[i], Region(p, p + n)))
    && Granted(h.regions) + n < U32
  }

  predicate GrowsInPlace(h: Heap, p: nat) {
    0 < |h.chain| && Last(h.chain).free && p == End(Last(h.chain))
  }

  function Grow(h: Heap, p: nat, n: nat): Heap
    requires 0 < |h.chain| && 0 < |h.regions| && HEADER <= n
  {
    var k := |h.chain| - 1;
    var b := h.chain[k];
    var q := |h.regions| - 1;
    if GrowsInPlace(h, p) then
      Replace(h, k, b.(size := b.size + n - HEADER)).(regions := h.regions[q := Region(h.regions[q].lo, p + n)],
                                                      growths := h.growths + 1)
    else
      h.(chain := h.chain + [Block(p, n - HEADER, true, true, |h.regions|, [])],
         regions := h.regions + [Region(p, p + n)])
  }

  function Initial(p: nat): Heap {
    Heap([Block(p, NEW_ALLOC_SIZE - HEADER, true, true, 0, [])], [Region(p, p + NEW_ALLOC_SIZE)], 0, 0, 0)
  }

  lemma {:induction false} AbsorbKeepsHead(c: seq<Block>)
    requires 0 < |c|
    ensures var m := Absorb(c); m[0].free == c[0].free && m[0].addr == c[0].addr
    decreases |c|
  {
    if CanMerge(c, 0) {
      AbsorbKeepsHead([Merged(c[0], c[1])] + c[2..]);
    }
  }
}
