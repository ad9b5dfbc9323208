/** The directory after boot, with a heap of h pages: whether the processor finds the tables of its clone
    depends on h. */
module CloneExample {
  import opened Prelude
  import F = Frames
  import opened PageTables
  import opened Mmu
  import opened MmuHardware
  import opened MmuCopy
  import opened MmuClone

  // The kernel's first page, and the group of its first 512 pages
  const K: nat := KERNEL_START
  const G: nat := 511 * 512 * 512

  // boot.s puts the root, a PDPT, a PDT and a page table into frames 257 to 263, which lie at the pages of
  // the same numbers.  mmu_init adds a page table at page 511, the stack a PDPT, a PDT and a page table at
  // pages 512 to 516, and the first growth of the heap a page table at page 517.
  const ROOT: nat := K + 257

  // Entry i of the directory table at page x leads to the table at this page, or to none (0).
  function Leads(x: nat, i: nat): nat {
    if x == 257 && i == 511 then 259
    else if x == 259 && i == 0 then 261
    else if x == 261 && i == 0 then 263
    else if x == 261 && i == 1 then 511
    else if x == 261 && i == 2 then 517
    else if x == 257 && i == 510 then 512
    else if x == 512 && i == 511 then 514
    else if x == 514 && i == 511 then 516
    else 0
  }

  // The frame of the kernel's page x: seven were taken for the stack before page 517 was mapped.
  function FrameAt(x: nat): nat {
    if x < 517 then x else x + 7
  }

  function DirAt(x: nat): (d: Dir)
    ensures WellSized(d)
    ensures forall i :: 0 <= i < 512 ==>
              && d.physical[i] == (if Leads(x, i) == 0 then 0 else FrameAt(Leads(x, i)) * PAGE_SIZE + 3)
              && d.next[i] == (if Leads(x, i) == 0 then 0 else K + Leads(x, i))
  {
    Dir(seq(512, i requires 0 <= i => if Leads(x, i) == 0 then 0 else FrameAt(Leads(x, i)) * PAGE_SIZE + 3),
        seq(512, i requires 0 <= i => if Leads(x, i) == 0 then 0 else K + Leads(x, i)))
  }

  // The page after the heap
  function End(h: nat): nat {
    K + 518 + h
  }

  // The frame of page v: the kernel's pages up to the end of the heap, and seven of stack below them
  function PageFrame(v: nat): nat {
    if v < K then K + 516 - v else FrameAt(v - K)
  }

  function PageEntry(h: nat, v: nat): nat {
    if K - 7 <= v < End(h) then PageFrame(v) * PAGE_SIZE + 3 else 0
  }

  function PtAt(h: nat, g: nat): (s: seq<nat>)
    ensures |s| == 512 && forall i :: 0 <= i < 512 ==> s[i] == PageEntry(h, g * 512 + i)
  {
    seq<nat>(512, i requires 0 <= i => PageEntry(h, g * 512 + i))
  }

  function Boot(h: nat): Tables {
    Tables(map[ROOT := DirAt(257), K + 259 := DirAt(259), K + 261 := DirAt(261), K + 512 := DirAt(512),
               K + 514 := DirAt(514)],
           map[K + 263 := PtAt(h, G), K + 511 := PtAt(h, G + 1), K + 517 := PtAt(h, G + 2), K + 516 := PtAt(h, G - 1)])
  }

  function BootHome(): map<nat, Home> {
    map[ROOT := Home(ROOT, 0, 0), K + 259 := Home(KERNEL, 1, 511), K + 261 := Home(KERNEL, 2, 511 * 512),
        K + 263 := Home(KERNEL, 3, G), K + 511 := Home(KERNEL, 3, G + 1), K + 517 := Home(KERNEL, 3, G + 2),
        K + 512 := Home(ROOT, 1, 510), K + 514 := Home(ROOT, 2, 511 * 512 - 1), K + 516 := Home(ROOT, 3, G - 1)]
  }

  // ------------------------------------------------------------------------------------------
  // Walks
  // ------------------------------------------------------------------------------------------

  predicate IsDir(x: nat) {
    x == 257 || x == 259 || x == 261 || x == 512 || x == 514
  }

  lemma BootTables(h: nat)
    ensures var t := Boot(h);
            && t.dirs.Keys == {ROOT, K + 259, K + 261, K + 512, K + 514}
            && t.pts.Keys == {K + 263, K + 511, K + 517, K + 516}
            && t.pts[K + 263] == PtAt(h, G) && t.pts[K + 511] == PtAt(h, G + 1)
            && t.pts[K + 517] == PtAt(h, G + 2) && t.pts[K + 516] == PtAt(h, G - 1)
    ensures forall x: nat :: IsDir(x) ==> K + x in Boot(h).dirs && Boot(h).dirs[K + x] == DirAt(x)
  {
  }

  lemma BootChild(h: nat, x: nat, i: nat)
    requires IsDir(x) && i < 512
    ensures Child(Boot(h), Some(K + x), i) == if Leads(x, i) == 0 then None else Some(K + Leads(x, i))
  {
    hide Boot, Leads, FrameAt;
    BootTables(h);
  }

  // The table at level k for prefix g
  function Place(k: nat, g: nat): Option<nat> {
    if k == 0 then Some(ROOT)
    else if k == 1 then if g == 511 then Some(K + 259) else if g == 510 then Some(K + 512) else None
    else if k == 2 then
      if g == 511 * 512 then Some(K + 261) else if g == 511 * 512 - 1 then Some(K + 514) else None
    else if g == G then Some(K + 263) else if g == G + 1 then Some(K + 511) else if g == G + 2 then Some(K + 517)
    else if g == G - 1 then Some(K + 516) else None
  }

  lemma {:induction false} BootAt(h: nat, k: nat, g: nat)
    requires k <= 3 && g < Pow512(k)
    ensures At(Boot(h), ROOT, k, g) == Place(k, g)
  {
    hide Boot, Pow512, At;
    LevelSizes();
    if k == 0 {
      RootIs(h);
    } else {
      Prefix(k, g);
      BootAt(h, k - 1, g / 512);
      AtIsChild(Boot(h), ROOT, k, g);
      PlaceStep(h, k, g);
    }
  }

  lemma RootIs(h: nat)
    ensures At(Boot(h), ROOT, 0, 0) == Some(ROOT) && Pow512(0) == 1
  {
  }

  lemma PlaceStep(h: nat, k: nat, g: nat)
    requires 0 < k <= 3 && g < Pow512(k)
    ensures Place(k, g) == Child(Boot(h), Place(k - 1, g / 512), g % 512)
  {
    hide Boot, Child, Pow512;
    LevelSizes();
    assert Child(Boot(h), None, g % 512) == None by { NoChild(h, g % 512); }
    if k == 1 {
      BootChild(h, 257, g);
    } else if k == 2 {
      BootChild(h, 259, g % 512);
      BootChild(h, 512, g % 512);
    } else {
      BootChild(h, 261, g % 512);
      BootChild(h, 514, g % 512);
    }
  }

  lemma NoChild(h: nat, i: nat)
    ensures Child(Boot(h), None, i) == None
  {
  }

  lemma BootStore(h: nat)
    ensures StoreOk(Boot(h), BootHome())
    ensures BootHome().Keys == {ROOT, K + 259, K + 261, K + 263, K + 511, K + 517, K + 512, K + 514, K + 516}
  {
    hide Boot;
    BootTables(h);
    forall p | p in Boot(h).dirs ensures WellSized(Boot(h).dirs[p]) { assert IsDir(p - K); }
  }

  lemma BootIsTree(h: nat)
    ensures StoreOk(Boot(h), BootHome()) && TreeOk(Boot(h), BootHome(), ROOT) && UserOk(Boot(h), BootHome(), ROOT)
    ensures At(Boot(h), ROOT, 1, KERNEL_SLOT).Some?
  {
    hide Boot, At, Pow512, StoreOk, PtAt, BootHome;
    LevelSizes();
    BootTables(h);
    BootStore(h);
    forall k: nat, g: nat | k <= 3 && g < Pow512(k) ensures TableOk(Boot(h), BootHome(), ROOT, k, g) {
      BootAt(h, k, g);
      if Place(k, g).Some? { PlaceIsHome(k, g); }
    }
    BootAt(h, 1, 511);
  }

  lemma PlaceIsHome(k: nat, g: nat)
    requires k <= 3 && g < Pow512(k) && Place(k, g).Some?
    ensures var p := Place(k, g).value; p in BootHome() && BootHome()[p] == Home(Owner(ROOT, k, g), k, g)
  {
    assert k == 0 ==> g == 0;
    assert k == 3 ==> Slot(3, g) == Slot(2, g / 512) == Slot(1, g / 512 / 512);
    assert k == 2 ==> Slot(2, g) == Slot(1, g / 512);
  }

  // Exactly the last seven pages below the kernel and the kernel's up to the end of the heap are mapped.
  lemma BootLeaf(h: nat, v: nat)
    requires 1 <= h <= 400 && v < PAGES
    ensures Leaf(Boot(h), ROOT, v) == PageEntry(h, v)
    ensures Mapped(Boot(h), ROOT, v) <==> K - 7 <= v < End(h)
    ensures K - 7 <= v < End(h) ==> FrameOf(Leaf(Boot(h), ROOT, v)) == PageFrame(v) < 525 + h
  {
    hide Boot, At, Leaf, TreeOk, StoreOk, BootHome, Pow512;
    Levels(v);
    BootIsTree(h);
    BootTables(h);
    BootAt(h, 3, v / 512);
    LeafStep(Boot(h), BootHome(), ROOT, v);
    assert v == v / 512 * 512 + v % 512;
  }

  // ------------------------------------------------------------------------------------------
  // Its frames
  // ------------------------------------------------------------------------------------------

  lemma BootTablePage(v: nat)
    requires TablePage(BootHome(), v)
    ensures K + 257 <= v <= K + 263 || K + 511 <= v <= K + 517
  {
  }

  lemma BootTablesMapped(h: nat, ws: seq<bv64>)
    requires 1 <= h <= 400 && F.TakenTo(ws, 525 + h)
    ensures TablesMapped(Boot(h), BootHome(), ROOT, ws)
  {
    hide Boot, BootHome, Leaf, Mapped, F.Taken, FrameOf, TablePage;
    forall v: nat | TablePage(BootHome(), v)
      ensures K + 257 <= v <= K + 517 && Mapped(Boot(h), ROOT, v)
      ensures FrameOf(Leaf(Boot(h), ROOT, v)) == FrameAt(v - K) && Settled(ws, FrameOf(Leaf(Boot(h), ROOT, v)))
    {
      BootTablePage(v);
      BootLeaf(h, v);
    }
  }

  lemma BootIsSource(h: nat, s: Snap)
    requires 1 <= h <= 400 && F.TakenTo(s.ws, 525 + h) && s.t == Boot(h) && s.home == BootHome()
    ensures SourceOk(s, ROOT)
  {
    hide Boot, BootHome, Leaf, Mapped, F.Taken, FrameOf, StoreOk, UserOk;
    BootIsTree(h);
    forall v | 0 <= v < KERNEL_START && Mapped(s.t, ROOT, v) ensures Settled(s.ws, FrameOf(Leaf(s.t, ROOT, v))) {
      BootLeaf(h, v);
    }
  }

  lemma {:induction false} SomeBitmap(n: nat) returns (ws: seq<bv64>)
    requires n <= F.FRAMES
    ensures F.TakenTo(ws, n)
  {
    hide F.WithBit, F.OneChanged;
    if n == 0 {
      ws := seq(F.NUM_OF_FRAMES, _ => 0);
      forall f | 0 <= f < F.FRAMES ensures !F.Taken(ws, f) { NoBit(F.Off(f % 64)); }
    } else {
      var rest := SomeBitmap(n - 1);
      ws := rest[(n - 1) / 64 := F.WithBit(rest[(n - 1) / 64], F.Off((n - 1) % 64), true)];
      OneMore(rest, ws, n);
    }
  }

  lemma NoBit(j: bv64)
    requires j < 64
    ensures !F.Bit(0, j)
  {
  }

  lemma OneMore(ws: seq<bv64>, ws': seq<bv64>, n: nat)
    requires 0 < n <= F.FRAMES && F.TakenTo(ws, n - 1)
    requires ws' == ws[(n - 1) / 64 := F.WithBit(ws[(n - 1) / 64], F.Off((n - 1) % 64), true)]
    ensures F.TakenTo(ws', n)
  {
    hide F.WithBit, F.Taken;
    F.StoreBit(ws, n - 1, true);
  }

  // ------------------------------------------------------------------------------------------
  // Room for the clone
  // ------------------------------------------------------------------------------------------

  // The end of the group that has the last page table
  const TOP: nat := K + 1536

  lemma BootServed(h: nat, g: nat)
    requires G <= g < G + 512
    ensures HasPt(Boot(h), ROOT, g) <==> g < G + 3
  {
    hide Boot, At, Pow512;
    LevelSizes();
    BootAt(h, 3, g);
  }

  lemma BootFrontier(h: nat)
    requires 1 <= h <= 400
    ensures Frontier(Boot(h), ROOT, End(h), End(h), TOP) && Window(Boot(h), ROOT, End(h), TOP - End(h))
  {
    hide Boot, HasPt, Leaf, Mapped;
    BootServed(h, G + 1);
    assert End(h) / 512 == G + 1;
    forall v | End(h) <= v < TOP ensures !Mapped(Boot(h), ROOT, v) { BootLeaf(h, v); }
  }

  // The page for the struct needs no table.
  lemma BootPlan(h: nat)
    requires 1 <= h <= 400
    ensures Plan(Boot(h), ROOT, End(h), End(h), 1) == Growth(End(h), 0, End(h))
    ensures TablesMade(Boot(h), ROOT, End(h), 1) == 0
    ensures forall y: nat {:trigger TableThere(Boot(h), ROOT, End(h), 1, y)} :: G <= y < G + 512 ==>
              (TableThere(Boot(h), ROOT, End(h), 1, y) <==> y < G + 3)
  {
    hide Boot, HasPt, Mapped;
    BootServed(h, G + 1);
    BootServed(h, G + 2);
    FitsAtOnce(Boot(h), ROOT, End(h), End(h), 1);
    assert End(h) / 512 == G + 1 && Past(End(h), 1) == G + 2;
    assert MissingIn(Boot(h), ROOT, G + 1, G + 2) == 0;
    forall y: nat | G <= y < G + 512 ensures TableThere(Boot(h), ROOT, End(h), 1, y) <==> y < G + 3 {
      BootServed(h, y);
    }
  }

  lemma BootPool(h: nat)
    requires 1 <= h <= 400
    ensures PoolAfter(Boot(h), ROOT, End(h), End(h), TOP, Pool(End(h) + 1, TOP, true))
  {
    hide Boot, Mapped, TableThere, Plan;
    BootFrontier(h);
    BootPlan(h);
    assert (End(h) + 1) / 512 == G + 1 && (TOP + 511) / 512 == G + 3 && TOP / 512 == G + 3;
  }

  lemma BootChildren(h: nat)
    ensures var t := Boot(h);
            && OnlyChild(t, 0, ROOT, 510) && t.dirs[ROOT].next[510] == K + 512
            && OnlyChild(t, 1, K + 512, 511) && t.dirs[K + 512].next[511] == K + 514
            && t.dirs[K + 512].physical[511] == 514 * PAGE_SIZE + 3
            && OnlyChild(t, 2, K + 514, 511) && t.dirs[K + 514].next[511] == K + 516
  {
    hide Boot;
    BootTables(h);
    assert IsDir(257) && IsDir(512) && IsDir(514);
    forall x: nat, i: nat | IsDir(x) && i < 512 ensures HasChild(Boot(h), K + x, i) <==> Leads(x, i) != 0 {
      assert Boot(h).dirs[K + x] == DirAt(x);
    }
  }

  // Tables and frames for the copy, and what decides about its entries
  lemma BootCopy(h: nat)
    requires 1 <= h <= 400
    ensures FramesFor(Boot(h), 0, ROOT, Interval(0, 526 + h))
    ensures PagesFor(Boot(h), 0, ROOT, End(h) + 1, TOP)
    ensures Fits(Boot(h), 0, ROOT, 0, Interval(0, 528 + h)) <==> (530 + h) % 4 >= 2
  {
    hide Boot, OnlyChild, Includes, LowInt, Interval, F.Gets, F.Grab, F.Pick, FramesSuffice, PagesSuffice, Cost, Fits,
         Copying;
    var t, n := Boot(h), 526 + h;
    BootChildren(h);
    GrabAfter(n, 2);
    GrabAfter(n + 2, 2);
    GrabAfter(n + 4, 2);
    GrabAfter(n + 6, 1);
    OnlyChildMeans(t, 0, ROOT, 510, Interval(0, n + 2));
    OnlyChildMeans(t, 1, K + 512, 511, Interval(0, n + 4));
    OnlyChildMeans(t, 2, K + 514, 511, Interval(0, n + 6));
    PagesGet(t, K + 516, 0, n + 7);
    SufficeAll(t, 3, K + 516, Interval(0, n + 7), 0, 0);
    CostSuffices(t, 0, ROOT, 0, End(h) + 3, TOP);
    assert LowInt(514 * PAGE_SIZE + 3) / PAGE_SIZE == 514 by { SmallLowInt(514 * PAGE_SIZE + 3); }
    Includes514(530 + h);
  }

  lemma SmallLowInt(e: nat)
    requires e < 0x8000_0000
    ensures LowInt(e) == e
  {
  }

  lemma BootTaken(h: nat, ws: seq<bv64>)
    requires 1 <= h <= 400 && F.TakenTo(ws, 525 + h)
    ensures TakenByGrowth(Boot(h), ws, ROOT, End(h), End(h)) == Interval(0, 526 + h)
    ensures TakenAtStart(Boot(h), ws, ROOT, End(h), End(h)) == Interval(0, 528 + h)
    ensures Free(ws) == F.FRAMES - 525 - h
  {
    hide Boot, Plan, TablesMade, Interval, F.Grab, F.Taken;
    BootPlan(h);
    HeldTo(ws, 525 + h);
    GrabAfter(525 + h, 1);
    GrabAfter(526 + h, 2);
    F.FreeAbove(ws, 525 + h, F.FRAMES);
    assert F.GrabMany(F.Held(ws), 1) == F.Grab(F.GrabMany(F.Held(ws), 0), 1);
  }

  lemma HeldTo(ws: seq<bv64>, n: nat)
    requires F.TakenTo(ws, n) && n <= F.FRAMES
    ensures F.Held(ws) == Interval(0, n)
  {
    hide F.Taken, Interval;
  }

  // ------------------------------------------------------------------------------------------
  // Its clone
  // ------------------------------------------------------------------------------------------

  // The clone is made, and the processor finds its tables if and only if h leaves 0 or 1 when divided by 4:
  // with the 64 pages of kmalloc_init it does, after a first growth by 130 pages it does not.
  method CloneAfterBoot(frames: F.FrameMap, h: nat)
    returns (m: Mmu, ok: bool, q: nat, physical: nat, ghost mem: Memory)
    requires frames.Valid() && 1 <= h <= 400 && F.TakenTo(frames.words[..], 525 + h)
    modifies frames.words
    ensures fresh(m) && m.active == ROOT && ok && m.Valid() && m.Directory(q) && TableFrame(m.t, ROOT, q) == physical
    ensures Holds(mem, m.t, m.home, ROOT) && (HardwareFollows(mem, physical, m.t, ROOT, q) <==> h % 4 < 2)
    ensures forall x: Memory {:trigger Holds(x, m.t, m.home, ROOT)} :: Holds(x, m.t, m.home, ROOT) ==>
              (HardwareFollows(x, physical, m.t, ROOT, q) <==> h % 4 < 2)
  {
    hide Boot, BootHome, Leaf, Mapped, At, TreeOk, StoreOk, TablesMapped, SourceOk, F.TakenTo, Plan, TablesMade, Free,
         FramesFor, PagesFor, Fits, TakenAtStart, TakenByGrowth, PoolAfter, Frontier, HardwareFollows, Holds, Interval,
         DeepCopy, Evolves, Copied, TableFrame, UserOk, Window, OutOfFrames;
    ghost var ws := frames.words[..];
    BootIsTree(h);
    BootTablesMapped(h, ws);
    BootFrontier(h);
    BootPlan(h);
    BootPool(h);
    BootCopy(h);
    BootTaken(h, ws);
    BootRoot(h);
    m := new Mmu(frames, Boot(h), ROOT, End(h), map[], BootHome());
    BootIsSource(h, Now(m));
    var page;
    ok, page, q, physical := CloneDirectory(m, ROOT, End(h), TOP, Pool(End(h) + 1, TOP, true));
    mem := SomeMemoryHolds(m.t, m.home, ROOT, m.Words());
  }

  lemma BootRoot(h: nat)
    ensures SameSlot(Boot(h), ROOT, ROOT)
  {
    hide Boot;
    BootTables(h);
    assert IsDir(257);
  }
}
