/** A small directory, in which two growths of the heap go wrong. */
module MmuExample {
  import opened Prelude
  import F = Frames
  import opened PageTables
  import opened Mmu

  const K: nat := KERNEL_START

  // A table whose only entry, i, has value e and leads to page q.
  function One(i: nat, e: nat, q: nat): (d: Dir)
    requires i < 512
    ensures |d.physical| == 512 == |d.next|
    ensures forall j :: 0 <= j < 512 ==>
              d.physical[j] == (if j == i then e else 0) && d.next[j] == (if j == i then q else 0)
  {
    Dir(seq(512, j => if j == i then e else 0), seq(512, j => if j == i then q else 0))
  }

  // Frames 0 to 6 hold the root, a PDPT, a PDT and a page table, at the first seven pages of slot 511.
  function Pages(): (s: seq<nat>)
    ensures |s| == 512 && forall i :: 0 <= i < 512 ==> s[i] == if i < 7 then i * PAGE_SIZE + 3 else 0
  {
    seq(512, i requires 0 <= i => if i < 7 then i * PAGE_SIZE + 3 else 0)
  }

  function Small(): Tables {
    Tables(map[K := One(511, 0x2003, K + 2), K + 2 := One(0, 0x4003, K + 4), K + 4 := One(0, 0x6003, K + 6)],
           map[K + 6 := Pages()])
  }

  function SmallHome(): map<nat, Home> {
    map[K := Home(K, 0, 0), K + 2 := Home(KERNEL, 1, 511), K + 4 := Home(KERNEL, 2, 511 * 512),
        K + 6 := Home(KERNEL, 3, 511 * 512 * 512)]
  }

  // The place of the only table at level k.
  function Place(k: nat): nat {
    if k == 0 then 0 else if k == 1 then 511 else if k == 2 then 511 * 512 else 511 * 512 * 512
  }

  lemma {:induction false} SmallAt(k: nat, g: nat)
    requires k <= 3 && g < Pow512(k)
    ensures At(Small(), K, k, g) == if g == Place(k) then Some(K + 2 * k) else None
  {
    hide Small, Pages;
    LevelSizes();
    SmallDirs();
    assert Present(0x2003) && Present(0x4003) && Present(0x6003) && !Present(0);
    if 0 < k {
      Prefix(k, g);
      SmallAt(k - 1, g / 512);
    }
  }

  lemma SmallDirs()
    ensures var t := Small();
            && t.dirs.Keys == {K, K + 2, K + 4} && t.pts.Keys == {K + 6} && t.pts[K + 6] == Pages()
            && t.dirs[K] == One(511, 0x2003, K + 2) && t.dirs[K + 2] == One(0, 0x4003, K + 4)
            && t.dirs[K + 4] == One(0, 0x6003, K + 6)
  {
  }

  lemma SmallIsTree()
    ensures StoreOk(Small(), SmallHome()) && TreeOk(Small(), SmallHome(), K) && At(Small(), K, 1, KERNEL_SLOT).Some?
  {
    hide At, Pages;
    LevelSizes();
    SmallDirs();
    forall k: nat, g: nat | k <= 3 && g < Pow512(k) ensures TableOk(Small(), SmallHome(), K, k, g) {
      SmallAt(k, g);
      PlaceIsShared(k);
    }
    SmallAt(1, 511);
  }

  lemma PlaceIsShared(k: nat)
    requires k <= 3
    ensures Owner(K, k, Place(k)) == if k == 0 then K else KERNEL
  {
    assert k == 3 ==> Slot(3, 511 * 512 * 512) == Slot(2, 511 * 512) == Slot(1, 511);
    assert k == 2 ==> Slot(2, 511 * 512) == Slot(1, 511);
  }

  lemma SmallLeaf(v: nat)
    requires v < PAGES
    ensures Leaf(Small(), K, v) == if K <= v < K + 7 then (v - K) * PAGE_SIZE + 3 else 0
    ensures Mapped(Small(), K, v) <==> K <= v < K + 7
  {
    hide Small, At, Leaf, TreeOk, StoreOk, SmallHome, Pow512;
    Levels(v);
    SmallIsTree();
    SmallAt(3, v / 512);
    SmallDirs();
    LeafStep(Small(), SmallHome(), K, v);
    InFirstGroup(v);
    SmallEntry(v % 512);
  }

  lemma InFirstGroup(v: nat)
    ensures v / 512 == Place(3) <==> K <= v < K + 512
    ensures K <= v < K + 512 ==> v % 512 == v - K
  {
  }

  lemma SmallEntry(i: nat)
    requires i < 512
    ensures Pages()[i] == (if i < 7 then i * PAGE_SIZE + 3 else 0) && (Present(Pages()[i]) <==> i < 7)
  {
  }

  // Only the seven frames are taken.
  function Bitmap(): (ws: seq<bv64>)
    ensures |ws| == F.NUM_OF_FRAMES
  {
    seq(F.NUM_OF_FRAMES, i => if i == 0 then 0x7F else 0)
  }

  lemma BitmapTakes(f: nat)
    requires f < F.FRAMES
    ensures F.Taken(Bitmap(), f) <==> f < 7
  {
    hide F.Off;
    LowSeven(F.Off(f % 64));
  }

  lemma LowSeven(j: bv64)
    requires j < 64
    ensures F.Bit(0x7F, j) <==> j < 7
    ensures !F.Bit(0, j)
  {
  }

  lemma SmallTablePage(v: nat)
    requires TablePage(SmallHome(), v)
    ensures K <= v < K + 7
  {
  }

  lemma SmallTablesMapped()
    ensures TablesMapped(Small(), SmallHome(), K, Bitmap())
  {
    hide Small, Leaf, Mapped, Bitmap, F.Taken, FrameOf, TablePage, SmallHome;
    forall v: nat | TablePage(SmallHome(), v)
      ensures K <= v < K + 7 && Mapped(Small(), K, v)
      ensures FrameOf(Leaf(Small(), K, v)) == v - K && Settled(Bitmap(), v - K)
    {
      SmallTablePage(v);
      SmallLeaf(v);
      BitmapTakes(v - K);
      assert FrameOf((v - K) * PAGE_SIZE + 3) == v - K by { FrameOfPage(v - K); }
    }
  }

  lemma FrameOfPage(f: nat)
    ensures FrameOf(f * PAGE_SIZE + 3) == f
  {
  }

  // The heap ends at the last page of the first group, which has the only table: 512 pages end under no
  // table, and for 1024 pages the kernel stops.
  lemma GrowthsGoWrong()
    ensures StoreOk(Small(), SmallHome()) && TreeOk(Small(), SmallHome(), K) && At(Small(), K, 1, KERNEL_SLOT).Some?
    ensures TablesMapped(Small(), SmallHome(), K, Bitmap()) && F.FreeRun(Bitmap(), 7, F.FRAMES - 7)
    ensures Bare(Small(), K, K + 511, K + 4000)
    ensures !Lands(Small(), K, K + 511, K + 511, 512) && !Stops(Small(), K, K + 511, K + 511, 512)
    ensures Stops(Small(), K, K + 511, K + 511, 1024)
  {
    hide Small, Leaf, Mapped, At, Lands, Stops, TablesMapped, TreeOk, StoreOk, Bitmap, F.Taken;
    SmallIsTree();
    SmallTablesMapped();
    forall f | 7 <= f < F.FRAMES ensures !F.Taken(Bitmap(), f) { BitmapTakes(f); }
    LevelSizes();
    forall v | K + 511 <= v < K + 4000 ensures !Mapped(Small(), K, v) { SmallLeaf(v); }
    SmallAt(3, Place(3));
    assert Served(Small(), K, K + 511);
    forall g {:trigger HasPt(Small(), K, g)} | Place(3) < g <= (K + 4000) / 512 + 1 ensures !HasPt(Small(), K, g) {
      SmallAt(3, g);
    }
    GrowthFails(Small(), K, K + 511, K + 4000);
  }

  // The first of them succeeds.  The next growth, of any number of pages, starts with a search that takes
  // frame after frame for a table that it cannot place, until none is left.
  method GrowthRunsDry(frames: F.FrameMap, n: nat) returns (first: bool, second: bool)
    requires frames.Valid() && frames.words[..] == Bitmap() && 1 <= n
    modifies frames.words
    ensures first && !second && forall f: nat :: !F.FreeRun(frames.words[..], f, 1)
  {
    hide Small, Leaf, Mapped, At, Lands, Stops, TablesMapped, TreeOk, StoreOk, Bitmap, Bare, Frontier, Plan, Obtained,
         F.FreeRun, OutOfFrames, SmallHome, Free, TablesMade, StuckPt, TablesAre, Handed, FirstWindow;
    GrowthsGoWrong();
    StartsAtFrontier();
    var m := new Mmu(frames, Small(), K, K + 511, map[], SmallHome());
    var r; ghost var added, f', p, last;
    first, r, added, f' := m.Ksbrk(512, K + 511, K + 4000);
    OnlyTableMissing(m.t, m.active, m.heapEnd);
    second, r, added, p, last := m.FindFreeRegion(n, m.heapEnd, 0);
    NoneIsFree(m.Words());
  }

  lemma NoneIsFree(ws: seq<bv64>)
    requires |ws| == F.NUM_OF_FRAMES && Free(ws) == 0
    ensures forall f: nat :: !F.FreeRun(ws, f, 1)
  {
    F.NoneLeft(ws, F.FRAMES);
  }

  lemma StartsAtFrontier()
    ensures Bare(Small(), K, K + 511, K + 4000) ==> Frontier(Small(), K, K + 511, K + 511, K + 4000)
    ensures var g := Plan(Small(), K, K + 511, K + 511, 512);
            && g.region == K + 512 && Served(Small(), K, K + 511)
            && TablesMade(Small(), K, g.first, 512) + 512 <= Free(Bitmap())
  {
    hide Small, Leaf, Mapped, At, Lands, Stops, TablesMapped, TreeOk, StoreOk, Bitmap, F.Taken, Plan, Frontier,
         TablesMade;
    GrowthsGoWrong();
    GrowthFails(Small(), K, K + 511, K + 4000);
    LevelSizes();
    SmallAt(3, Place(3));
    forall f | 0 <= f < F.FRAMES ensures F.Taken(Bitmap(), f) <==> f < 7 { BitmapTakes(f); }
    F.FreeAbove(Bitmap(), 7, F.FRAMES);
  }

  lemma OnlyTableMissing(t: Tables, r: nat, end: nat)
    requires end == K + 1024 && Served(t, r, K + 511) && !Served(t, r, end)
    ensures StuckPt(t, r, end)
  {
    assert end / 512 / 512 == (K + 511) / 512 / 512;
    assert At(t, r, 2, (K + 511) / 512 / 512).Some? && At(t, r, 1, (K + 511) / 512 / 512 / 512).Some?;
    assert Need(t, r, end / 512) == 1 && StuckAt(t, r, end, end);
  }
}
