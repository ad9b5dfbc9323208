/** mmu_clone_directory: a deep copy of everything below slot 511. */
module MmuClone {
  import opened Prelude
  import F = Frames
  import opened PageTables
  import opened Mmu
  import opened MmuHardware
  import opened MmuCopy

  // ------------------------------------------------------------------------------------------
  // Cloning
  // ------------------------------------------------------------------------------------------

  // safe_allocation of a table at level k, zeroed, for directory "own" (for a root, the table itself).
  method NewTable(m: Mmu, k: nat, ghost g: nat, ghost own: nat, ghost b: Pool) returns (ok: bool, a: nat, f: nat)
    requires m.Valid() && k <= 3 && PoolOk(m.t, m.active, m.heapEnd, b) && (b.tight || b.next + Size(k) <= b.end)
    modifies m`t, m`home, m.frames.words
    ensures !ok && b.next + Size(k) <= b.end ==> OutOfFrames(m.Words())
    ensures ok <==> F.Gets(F.Held(old(m.Words())), Size(k)) && b.next + Size(k) <= b.end
    ensures ok ==> m.Valid() && a !in old(m.home) && KERNEL_START <= a < PAGES && a != m.active
    ensures ok ==> m.home == old(m.home)[a := Home(if k == 0 then a else own, k, g)]
    ensures ok ==> if k == 3 then a in m.t.pts && m.t.pts[a] == ZeroTable()
                   else a in m.t.dirs && m.t.dirs[a] == Dir(ZeroTable(), ZeroTable())
    ensures ok ==> Evolves(old(Now(m)), Now(m), m.active) && PoolOk(m.t, m.active, m.heapEnd, Less(b, Size(k)))
    ensures ok ==> Mapped(m.t, m.active, a) && TableFrame(m.t, m.active, a) == f
    ensures ok ==> f == F.Pick(F.Held(old(m.Words())), Size(k))
    ensures ok ==> F.Held(m.Words()) == F.Grab(F.Held(old(m.Words())), Size(k))
  {
    hide TreeOk, StoreOk, UserSame, TablesMapped, RangeMapped, OutOfFrames, Leaf, Mapped, Covered, FirstWindow, At,
         F.IsLowestRun, F.Marked, F.Held, F.Pick, F.Grab, Evolves, HomeGrows, OwnSame, MappingKept, NewRoom, TablePage,
         PoolOk, Stuck, LastPage, F.Gets, Free;
    ghost var s, w := Now(m), b.next;
    a, f := 0, 0;
    if b.next + Size(k) <= b.end {
      PoolEnough(m.t, m.active, m.heapEnd, b, Size(k));
    } else {
      PoolShort(m.t, m.active, m.heapEnd, b, Size(k));
    }
    ok, a, f := m.SafeAllocation(Size(k), w);
    if !ok {
      return;
    }
    ghost var t1, ws1, h := m.t, m.Words(), Home(if k == 0 then a else own, k, g);
    PoolAfterRange(s.t, t1, m.active, m.heapEnd, b, a, Size(k), f * PAGE_SIZE);
    CoveredRange(s.t, m.active, m.heapEnd, w, a, Size(k));
    RoomIsMade(s.t, s.home, s.ws, t1, ws1, m.active, m.heapEnd, w, a, f, k);
    RoomIsNew(t1, s.home, m.active, ws1, a, k, f);
    NewPageIsFresh(s.t, s.home, s.ws, t1, m.active, m.heapEnd, w, a, Size(k), f);
    AddedTableOwn(t1, s.home, m.active, a, k);
    AddTableEffects(t1, s.home, m.active, ws1, a, k, h, f);
    F.RunIsGrabbed(s.ws, ws1, f, Size(k));
    AddTablePool(t1, s.home, m.active, m.heapEnd, Less(b, Size(k)), a, k);
    NewTableEvolves(s, t1, ws1, AddTable(t1, k, a), s.home[a := h], m.active, f, Size(k));
    m.t := AddTable(m.t, k, a);
    m.home := m.home[a := h];
  }

  // An empty table at a fresh pointer belongs to no walk yet.
  lemma AddedTableOwn(t: Tables, home: map<nat, Home>, r: nat, a: nat, k: nat)
    requires StoreOk(t, home) && a !in home
    ensures OwnSame(t, home, AddTable(t, k, a), r) && UserSame(t, home, AddTable(t, k, a))
  {
  }

  lemma AddedTableStore(t: Tables, home: map<nat, Home>, a: nat, k: nat, h: Home)
    requires StoreOk(t, home) && a !in home
    ensures StoreOk(AddTable(t, k, a), home[a := h])
  {
    var t' := AddTable(t, k, a);
    assert home[a := h].Keys == t'.dirs.Keys + t'.pts.Keys;
  }

  lemma AddTableEffects(t: Tables, home: map<nat, Home>, r: nat, ws: seq<bv64>, a: nat, k: nat, h: Home, f: nat)
    requires StoreOk(t, home) && TreeOk(t, home, r) && TablesMapped(t, home, r, ws) && At(t, r, 1, KERNEL_SLOT).Some?
    requires NewRoom(t, home, r, ws, a, k, f) && h.k == k
    ensures var t', home' := AddTable(t, k, a), home[a := h];
            && StoreOk(t', home') && TreeOk(t', home', r) && TablesMapped(t', home', r, ws)
            && At(t', r, 1, KERNEL_SLOT).Some?
            && HomeGrows(home, home') && MappingKept(t, t', r) && Leaf(t', r, a) == Leaf(t, r, a) && Mapped(t', r, a)
  {
    hide StoreOk, TreeOk, OwnSame, AddTable, Leaf, At, NewRoom, TablesMapped;
    LevelSizes();
    RoomIsNew(t, home, r, ws, a, k, f);
    var t', home' := AddTable(t, k, a), home[a := h];
    AddedTableOwn(t, home, r, a, k);
    AddedTableStore(t, home, a, k, h);
    OwnTreeSame(t, home, t', home', r);
    assert At(t', r, 1, KERNEL_SLOT) == At(t, r, 1, KERNEL_SLOT);
    RoomTaken(t, t', home, r, ws, a, h, f);
    assert Leaf(t', r, a) == Leaf(t, r, a);
  }

  lemma AddTablePool(t: Tables, home: map<nat, Home>, r: nat, start: nat, b: Pool, a: nat, k: nat)
    requires StoreOk(t, home) && TreeOk(t, home, r) && a !in home && PoolOk(t, r, start, b)
    ensures PoolOk(AddTable(t, k, a), r, start, b)
  {
    hide StoreOk, TreeOk, OwnSame, AddTable, PoolOk;
    AddedTableOwn(t, home, r, a, k);
    OwnTreeSame(t, home, AddTable(t, k, a), home, r);
    PoolSame(t, AddTable(t, k, a), r, start, b);
  }

  // The first page of a new allocation holds no table yet.
  lemma NewPageIsFresh(t: Tables, home: map<nat, Home>, ws: seq<bv64>, t1: Tables, r: nat, start: nat, w: nat,
                       a: nat, n: nat, f: nat)
    requires StoreOk(t, home) && TreeOk(t, home, r) && TablesMapped(t, home, r, ws)
    requires KERNEL_START <= start && a <= w && w + n <= PAGES && 1 <= n
    requires FirstWindow(t, r, start, a, n) && RangeMapped(t, t1, r, a, n, f * PAGE_SIZE)
    ensures a !in home && KERNEL_START <= a < PAGES && a != r
    ensures Mapped(t1, r, a) && FrameOf(Leaf(t1, r, a)) == f && MappingKept(t, t1, r)
  {
    hide Leaf, At;
    LevelSizes();
    RangeMappedAt(t, t1, r, a, n, f * PAGE_SIZE, a);
    assert f * PAGE_SIZE + 0 * PAGE_SIZE == f * PAGE_SIZE;
    assert !Mapped(t, r, a);
    FreeHoldsNone(t, home, r, ws, a);
    RootAt(t, r);
    assert TableOk(t, home, r, 0, 0);
    forall v | 0 <= v < PAGES && Mapped(t, r, v) ensures Leaf(t1, r, v) == Leaf(t, r, v) {
      RangeMappedAt(t, t1, r, a, n, f * PAGE_SIZE, v);
    }
  }

  lemma NewTableEvolves(s: Snap, t1: Tables, ws1: seq<bv64>, t2: Tables, h2: map<nat, Home>, r: nat, f: nat, n: nat)
    requires UserSame(s.t, s.home, t1) && UserSame(t1, s.home, t2) && HomeGrows(s.home, h2)
    requires MappingKept(s.t, t1, r) && MappingKept(t1, t2, r) && 0 < n
    requires |s.ws| == F.NUM_OF_FRAMES == |ws1| && F.IsLowestRun(s.ws, f, n) && F.Marked(s.ws, ws1, f, n)
    ensures Evolves(s, Snap(t2, h2, s.ram, ws1, s.tag), r)
  {
    hide UserSame, MappingKept, HomeGrows;
    HomeSame(s.home);
    UserSameTwice(s.t, s.home, t1, s.home, t2);
    MappingKeptTwice(s.t, t1, t2, r);
    RunGrows(s.ws, ws1, f, n);
  }

  lemma HomeSame(home: map<nat, Home>)
    ensures HomeGrows(home, home)
  {
  }

  // A store into a page table of a directory that is not active.
  method SetPage(m: Mmu, q: nat, l: nat, e: nat)
    requires m.Valid() && q in m.t.pts && l < 512 && q in m.home && m.home[q].own !in {m.active, KERNEL}
    modifies m`t
    ensures m.Valid() && q in m.t.pts && m.t.dirs == old(m.t).dirs
    ensures Put(old(m.t).pts, m.t.pts, q, l, e)
    ensures OnlyWrote(old(m.t), m.t, m.home, m.active, q)
  {
    hide TreeOk, Leaf, At, TablesMapped, OwnSame, OnlyWrote;
    var s: seq<nat> := m.t.pts[q][l := e];
    ghost var t := m.t;
    WriteIsForeign(t, t.(pts := t.pts[q := s]), m.home, m.active, m.Words(), q);
    m.t := m.t.(pts := m.t.pts[q := s]);
  }

  ghost predicate Put(p: map<nat, seq<nat>>, p': map<nat, seq<nat>>, q: nat, l: nat, e: nat) {
    && q in p && q in p' && |p[q]| == 512 == |p'[q]| && l < 512 && p'.Keys == p.Keys
    && p'[q] == p[q][l := e] && forall x :: x in p && x != q ==> p'[x] == p[x]
  }

  // The same for a directory table: hardware entry and pointer.
  method SetEntry(m: Mmu, q: nat, i: nat, e: nat, child: nat)
    requires m.Valid() && q in m.t.dirs && i < 512 && q in m.home && m.home[q].own !in {m.active, KERNEL}
    modifies m`t
    ensures m.Valid() && q in m.t.dirs && m.t.pts == old(m.t).pts && q in old(m.t).dirs
    ensures WellSized(old(m.t).dirs[q]) && m.t.dirs == old(m.t).dirs[q := m.t.dirs[q]] && WellSized(m.t.dirs[q])
    ensures m.t.dirs[q].physical == old(m.t).dirs[q].physical[i := e]
    ensures m.t.dirs[q].next == old(m.t).dirs[q].next[i := child]
    ensures OnlyWrote(old(m.t), m.t, m.home, m.active, q)
  {
    hide TreeOk, Leaf, At, TablesMapped, OwnSame, OnlyWrote;
    var physical: seq<nat> := m.t.dirs[q].physical[i := e];
    var next: seq<nat> := m.t.dirs[q].next[i := child];
    ghost var t := m.t;
    WriteIsForeign(t, t.(dirs := t.dirs[q := Dir(physical, next)]), m.home, m.active, m.Words(), q);
    m.t := m.t.(dirs := m.t.dirs[q := Dir(physical, next)]);
  }

  // Only table q changed, and the active directory r sees no difference.
  ghost predicate OnlyWrote(t: Tables, t': Tables, home: map<nat, Home>, r: nat, q: nat) {
    && t'.dirs.Keys == t.dirs.Keys && t'.pts.Keys == t.pts.Keys
    && (forall p :: p in t.dirs && p != q ==> t'.dirs[p] == t.dirs[p])
    && (forall p :: p in t.pts && p != q ==> t'.pts[p] == t.pts[p])
    && (forall k: nat, g: nat {:trigger At(t', r, k, g)} :: k <= 3 && g < Pow512(k) ==>
          At(t', r, k, g) == At(t, r, k, g))
    && (forall v {:trigger Leaf(t', r, v)} :: 0 <= v < PAGES ==> Leaf(t', r, v) == Leaf(t, r, v))
  }

  lemma WriteIsForeign(t: Tables, t': Tables, home: map<nat, Home>, r: nat, ws: seq<bv64>, q: nat)
    requires StoreOk(t, home) && TreeOk(t, home, r) && TablesMapped(t, home, r, ws) && At(t, r, 1, KERNEL_SLOT).Some?
    requires |ws| == F.NUM_OF_FRAMES
    requires q in home && home[q].own !in {r, KERNEL}
    requires t'.dirs.Keys == t.dirs.Keys && t'.pts.Keys == t.pts.Keys
    requires (forall p :: p in t.dirs && p != q ==> t'.dirs[p] == t.dirs[p]) && (q in t'.dirs ==> WellSized(t'.dirs[q]))
    requires (forall p :: p in t.pts && p != q ==> t'.pts[p] == t.pts[p]) && (q in t'.pts ==> |t'.pts[q]| == 512)
    ensures StoreOk(t', home) && TreeOk(t', home, r) && TablesMapped(t', home, r, ws) && At(t', r, 1, KERNEL_SLOT).Some?
    ensures OnlyWrote(t, t', home, r, q)
  {
    hide TreeOk, Leaf, At, TablesMapped, TablePage;
    LevelSizes();
    HomeSame(home);
    OwnTreeSame(t, home, t', home, r);
    assert At(t', r, 1, KERNEL_SLOT) == At(t, r, 1, KERNEL_SLOT);
    forall v: nat | TablePage(home, v) ensures Leaf(t', r, v) == Leaf(t, r, v) {
      TablePageIs(t, home, r, ws, v);
    }
    TablesStay(t, t', home, r, ws, ws);
  }

  // Writing table q, which did not exist in state s, is still an evolution from s.
  lemma WriteEvolves(s: Snap, b: Snap, t': Tables, r: nat, q: nat)
    requires Evolves(s, b, r) && OnlyWrote(b.t, t', b.home, r, q) && q !in s.home
    ensures Evolves(s, b.(t := t'), r)
  {
    hide FramesGrow, HomeGrows, Leaf, At;
    assert MappingKept(s.t, t', r) by {
      forall v | 0 <= v < PAGES && Mapped(s.t, r, v) ensures Leaf(t', r, v) == Leaf(s.t, r, v) {
        assert Leaf(b.t, r, v) == Leaf(s.t, r, v);
        assert Leaf(t', r, v) == Leaf(b.t, r, v);
      }
    }
    forall f | 0 <= f && Settled(s.ws, f)
      ensures RamAt(b.ram, f) == RamAt(s.ram, f) && (f in s.tag ==> f in b.tag && b.tag[f] == s.tag[f])
    {
      assert RamAt(b.ram, f) == RamAt(s.ram, f);
    }
  }

  // Nor does it disturb finished copies below q's level.
  lemma WriteKeeps(b: Snap, t': Tables, r: nat, q: nat, own: nat, k: nat)
    requires |b.ws| == F.NUM_OF_FRAMES && OnlyWrote(b.t, t', b.home, r, q) && q in b.home && b.home[q].k < k
    ensures Keeps(b, b.(t := t'), r, own, k)
  {
  }

  lemma WritePool(t: Tables, t': Tables, home: map<nat, Home>, r: nat, q: nat, start: nat, b: Pool)
    requires PoolOk(t, r, start, b) && OnlyWrote(t, t', home, r, q)
    ensures PoolOk(t', r, start, b)
  {
    hide PoolOk;
    PoolSame(t, t', r, start, b);
  }

  // One page entered in table q and copied: what the whole step means since state s.
  lemma PageStepEvolves(s: Snap, b: Snap, t3: Tables, t4: Tables, ws: seq<bv64>, r: nat, q: nat, f: nat, page: Page,
                        v: nat)
    requires Evolves(s, b, r) && q !in s.home && OnlyWrote(b.t, t3, b.home, r, q)
    requires UserSame(t3, b.home, t4) && SameMapping(t3, t4, r)
    requires FramesGrow(b.ws, ws) && f < F.FRAMES && !F.Taken(b.ws, f)
    ensures Evolves(s, Snap(t4, b.home, b.ram[f := page], ws, b.tag[f := v]), r)
    ensures RamKept(b, Snap(t4, b.home, b.ram[f := page], ws, b.tag[f := v]))
  {
    hide OnlyWrote, UserSame, FramesGrow, HomeGrows, Leaf, SameMapping;
    var c := b.(t := t3);
    WriteEvolves(s, b, t3, r, q);
    var d := Snap(t4, b.home, b.ram[f := page], ws, b.tag[f := v]);
    HomeSame(b.home);
    assert MappingKept(t3, t4, r) by {
      forall x | 0 <= x < PAGES && Mapped(t3, r, x) ensures Leaf(t4, r, x) == Leaf(t3, r, x) {
        SameMappingAt(t3, t4, r, x);
      }
    }
    forall x | 0 <= x && Settled(b.ws, x)
      ensures RamAt(d.ram, x) == RamAt(b.ram, x) && (x in b.tag ==> x in d.tag && d.tag[x] == b.tag[x])
    {
      assert x != f;
    }
    EvolvesTwice(s, c, d, r);
  }

  lemma SameMappingAt(t: Tables, t': Tables, r: nat, v: nat)
    requires SameMapping(t, t', r) && v < PAGES && Mapped(t, r, v)
    ensures Leaf(t', r, v) == Leaf(t, r, v)
  {
  }

  // The entries copied so far, after one more.
  lemma PagesStep(s0: Snap, p: seq<nat>, b: Snap, d: Snap, q: seq<nat>, q': seq<nat>, g: nat, n: nat)
    requires n < |p| && n < |q| && |q'| == |q| && PagesCopied(s0, p, b, q, g, n)
    requires FramesGrow(b.ws, d.ws) && RamKept(b, d) && forall l :: 0 <= l < n ==> q'[l] == q[l]
    requires PageCopied(s0, p[n], d, q'[n], g * 512 + n)
    ensures PagesCopied(s0, p, d, q', g, n + 1)
  {
    hide FramesGrow, RamKept, PageCopied;
    forall l | 0 <= l < n + 1 ensures PageCopied(s0, p[l], d, q'[l], g * 512 + l) {
      if l < n {
        assert PageCopied(s0, p[l], b, q[l], g * 512 + l);
        PageCopiedKept(s0, p[l], b, d, q[l], g * 512 + l);
      }
    }
  }

  lemma NewPageCopied(s0: Snap, b: Snap, d: Snap, active: nat, e0: nat, f: nat, v: nat)
    requires Evolves(s0, b, active) && Present(e0) && Settled(s0.ws, FrameOf(e0))
    requires |d.ws| == F.NUM_OF_FRAMES && f < F.FRAMES && !F.Taken(b.ws, f) && F.Taken(d.ws, f)
    requires d.ram == b.ram[f := RamAt(b.ram, FrameOf(e0))] && d.tag == b.tag[f := v]
    ensures PageCopied(s0, e0, d, NewEntry(e0, f), v)
  {
    hide UserSame, HomeGrows, MappingKept, FrameOf, NewEntry, Present, F.Taken, Settled;
    EntryParts(e0, f);
    assert RamAt(b.ram, FrameOf(e0)) == RamAt(s0.ram, FrameOf(e0));
    assert !F.Taken(s0.ws, f);
  }

  lemma UserTableSame(t: Tables, home: map<nat, Home>, t': Tables, q: nat)
    requires UserSame(t, home, t') && q in home && home[q].own != KERNEL
    ensures q in t.pts ==> q in t'.pts && t'.pts[q] == t.pts[q]
    ensures q in t.dirs ==> q in t'.dirs && t'.dirs[q] == t.dirs[q]
  {
  }

  lemma SourceTableSame(s0: Snap, b: Snap, active: nat, p: nat)
    requires Evolves(s0, b, active) && p in s0.home && s0.home[p].own != KERNEL
    ensures p in s0.t.pts ==> p in b.t.pts && b.t.pts[p] == s0.t.pts[p]
    ensures p in s0.t.dirs ==> p in b.t.dirs && b.t.dirs[p] == s0.t.dirs[p]
  {
    UserTableSame(s0.t, s0.home, b.t, p);
  }

  lemma NewSince(s0: Snap, b: Snap, active: nat, q: nat)
    requires Evolves(s0, b, active) && q !in b.home
    ensures q !in s0.home
  {
  }

  lemma PutAt(p: map<nat, seq<nat>>, p': map<nat, seq<nat>>, q: nat, i: nat, e: nat)
    requires Put(p, p', q, i, e)
    ensures q in p && q in p' && |p[q]| == 512 == |p'[q]| && i < 512 && p'[q][i] == e
    ensures forall l :: 0 <= l < 512 && l != i ==> p'[q][l] == p[q][l]
  {
  }

  lemma NothingCopied(s0: Snap, p: seq<nat>, s: Snap, q: seq<nat>, g: nat)
    ensures PagesCopied(s0, p, s, q, g, 0)
  {
  }

  lemma SkippedPage(s0: Snap, p: seq<nat>, s: Snap, q: seq<nat>, g: nat, n: nat)
    requires n < |p| && n < |q| && PagesCopied(s0, p, s, q, g, n) && !Present(p[n]) && q[n] == 0
    ensures PagesCopied(s0, p, s, q, g, n + 1)
  {
  }

  // The body of clone_pt's loop, for a present entry e0: a frame, an entry for it, and the page's bytes.
  method ClonePage(m: Mmu, q: nat, i: nat, e0: nat, ghost b0: Snap, ghost s0: Snap, ghost v: nat, ghost pool: Pool)
    returns (ok: bool)
    requires m.Valid() && q in m.t.pts && i < 512 && q in m.home && m.home[q].own !in {m.active, KERNEL} && q < PAGES
    requires Evolves(b0, Now(m), m.active) && q !in b0.home && Evolves(s0, Now(m), m.active) && q !in s0.home
    requires Present(e0) && Settled(s0.ws, FrameOf(e0)) && Mapped(m.t, m.active, q)
    requires PoolOk(m.t, m.active, m.heapEnd, pool) && (pool.tight || pool.next + 2 <= pool.end)
    modifies m`t, m`home, m`ram, m`tag, m.frames.words
    ensures !ok ==> OutOfFrames(m.Words())
    ensures ok <==> F.Gets(F.Held(old(m.Words())), 1) && pool.next + 2 <= pool.end
    ensures ok ==> m.Valid() && m.home == old(m.home) && q in old(m.t).pts
    ensures ok ==> q in m.t.pts && |m.t.pts[q]| == 512 == |old(m.t).pts[q]|
    ensures ok ==> forall l :: 0 <= l < 512 && l != i ==> m.t.pts[q][l] == old(m.t).pts[q][l]
    ensures ok ==> PageCopied(s0, e0, Now(m), m.t.pts[q][i], v)
    ensures ok ==> FramesGrow(old(Now(m)).ws, Now(m).ws) && RamKept(old(Now(m)), Now(m))
    ensures ok ==> Evolves(b0, Now(m), m.active) && Evolves(s0, Now(m), m.active)
    ensures ok ==> PoolOk(m.t, m.active, m.heapEnd, pool)
    ensures ok ==> Leaf(m.t, m.active, q) == Leaf(old(m.t), m.active, q)
    ensures ok ==> F.Held(m.Words()) == F.Grab(F.Held(old(m.Words())), 1)
  {
    hide TreeOk, UserOk, UserSame, TablesMapped, OutOfFrames, Leaf, Mapped, Covered, At, F.IsLowestRun, F.Marked,
         Evolves, HomeGrows, FramesGrow, RamKept, OnlyWrote, SameMapping, PageCopied, PagesCopied, F.Taken, StoreOk,
         Put, Settled, F.Held, F.Grab, TablePage, Pow512, FrameOf, PageAddress, NewEntry, MappingKept,
         PoolOk, Stuck, LastPage, F.Gets;
    ghost var b := Now(m);
    ok := false;
    var r := m.frames.GetFrame(true, 1);
    if r.None? {
      NoRunNoPair(m.Words(), 1);
      Refused(m.Words(), 1);
      return;
    }
    OneTaken(b.ws, m.Words(), r.value);
    TablesStay(m.t, m.t, m.home, m.active, b.ws, m.Words());
    F.RunIsGrabbed(b.ws, m.Words(), r.value, 1);
    var e := NewEntry(e0, r.value);
    EntryParts(e0, r.value);
    AddressFrame(e);
    SetPage(m, q, i, e);
    ghost var t3 := m.t;
    PutAt(b.t.pts, t3.pts, q, i, e);
    m.tag := m.tag[r.value := v];
    WritePool(b.t, t3, m.home, m.active, q, m.heapEnd, pool);
    if pool.next + 2 <= pool.end {
      PoolEnough(t3, m.active, m.heapEnd, pool, 2);
    } else {
      PoolShort(t3, m.active, m.heapEnd, pool, 2);
    }
    ok := m.CopyFrame(PageAddress(e), e0, pool.next);
    if !ok {
      return;
    }
    ghost var d := Now(m);
    UserTableSame(t3, m.home, m.t, q);
    PageStepEvolves(b0, b, t3, m.t, d.ws, m.active, q, r.value, RamAt(b.ram, FrameOf(e0)), v);
    PageStepEvolves(s0, b, t3, m.t, d.ws, m.active, q, r.value, RamAt(b.ram, FrameOf(e0)), v);
    NewPageCopied(s0, b, d, m.active, e0, r.value, v);
    PoolSameMapping(t3, m.t, m.active, m.heapEnd, pool);
    WroteLeaf(b.t, t3, m.t, m.home, m.active, q);
  }

  lemma OneTaken(ws: seq<bv64>, ws': seq<bv64>, f: nat)
    requires |ws| == F.NUM_OF_FRAMES == |ws'| && F.IsLowestRun(ws, f, 1) && F.Marked(ws, ws', f, 1)
    ensures FramesGrow(ws, ws') && f < F.FRAMES && !F.Taken(ws, f) && F.Taken(ws', f)
  {
    RunGrows(ws, ws', f, 1);
  }

  lemma WroteLeaf(t: Tables, t3: Tables, t4: Tables, home: map<nat, Home>, r: nat, q: nat)
    requires OnlyWrote(t, t3, home, r, q) && SameMapping(t3, t4, r) && Mapped(t, r, q) && q < PAGES
    ensures Leaf(t4, r, q) == Leaf(t, r, q)
  {
    hide Leaf;
    assert Leaf(t3, r, q) == Leaf(t, r, q);
    SameMappingAt(t3, t4, r, q);
  }

  // clone_pt
  method ClonePt(m: Mmu, p: nat, ghost s0: Snap, ghost r0: nat, ghost own: nat, ghost g: nat, ghost pool: Pool)
    returns (ok: bool, q: nat, f: nat)
    requires m.Valid() && SourceOk(s0, r0) && Evolves(s0, Now(m), m.active)
    requires g < Pow512(3) && User(3, g) && At(s0.t, r0, 3, g) == Some(p) && own !in {m.active, KERNEL}
    requires PoolOk(m.t, m.active, m.heapEnd, pool) && (pool.tight || PagesFor(s0.t, 3, p, pool.next, pool.end))
    modifies m`t, m`home, m`ram, m`tag, m.frames.words
    ensures !ok && PagesFor(s0.t, 3, p, pool.next, pool.end) ==> OutOfFrames(m.Words())
    ensures ok <==> FramesFor(s0.t, 3, p, F.Held(old(m.Words()))) && PagesFor(s0.t, 3, p, pool.next, pool.end)
    ensures ok ==> m.Valid() && q !in old(m.home) && Copied(s0, 3, p, Now(m), m.active, q, own, g)
    ensures ok ==> Evolves(old(Now(m)), Now(m), m.active) && PoolOk(m.t, m.active, m.heapEnd, Less(pool, 1))
    ensures ok ==> TableFrame(m.t, m.active, q) == f
    ensures ok ==> Foreseen(s0.t, 3, p, m.t, m.active, q, f, F.Held(old(m.Words())), F.Held(m.Words()))
  {
    hide TreeOk, SourceOk, UserOk, UserSame, TablesMapped, OutOfFrames, Leaf, Mapped, Covered, At, F.IsLowestRun,
         F.Marked, Evolves, HomeGrows, FramesGrow, RamKept, OnlyWrote, SameMapping, PageCopied, PagesCopied, Pow512,
         User, F.Taken, StoreOk, Put, F.Held, F.Pick, F.Grab, Copying, TablePage, PoolOk, F.Gets,
         FramesSuffice, PagesSuffice;
    ghost var b0 := Now(m);
    ok, q, f := NewTable(m, 3, g, own, pool);
    if !ok {
      return;
    }
    EvolvesTwice(s0, b0, Now(m), m.active);
    SourcePages(s0, r0, g, 0);
    ghost var orig := s0.t.pts[p];
    NothingCopied(s0, orig, Now(m), m.t.pts[q], g);
    NewSince(s0, b0, m.active, q);
    ghost var taken := F.Held(m.Words());
    var i := 0;
    while i < 512
      invariant ok && i <= 512 && m.Valid() && q in m.home && m.home[q] == Home(own, 3, g) && Mapped(m.t, m.active, q)
      invariant TableFrame(m.t, m.active, q) == f && q in m.t.pts && |m.t.pts[q]| == 512 && q < PAGES
      invariant Copying(s0.t, 3, p, i, F.Held(m.Words())) == Copying(s0.t, 3, p, 0, taken)
      invariant Evolves(b0, Now(m), m.active) && Evolves(s0, Now(m), m.active)
      invariant PagesCopied(s0, orig, Now(m), m.t.pts[q], g, i)
      invariant forall l :: i <= l < 512 ==> m.t.pts[q][l] == 0
      invariant PoolOk(m.t, m.active, m.heapEnd, Less(pool, 1))
      invariant FramesSuffice(s0.t, 3, p, i, F.Held(m.Words())) == FramesSuffice(s0.t, 3, p, 0, taken)
      invariant PagesSuffice(s0.t, 3, p, i, pool.next + 1, pool.end) ==
                PagesSuffice(s0.t, 3, p, 0, pool.next + 1, pool.end)
    {
      ghost var b := Now(m);
      SourcePages(s0, r0, g, i);
      SourceTableSame(s0, b, m.active, p);
      var e0 := m.t.pts[p][i];
      LowBits(e0);
      CopyingPage(s0.t, p, i, F.Held(m.Words()));
      SufficePage(s0.t, p, i, F.Held(m.Words()), pool.next + 1, pool.end);
      if !Present(e0 % PAGE_SIZE) {
        SkippedPage(s0, orig, b, m.t.pts[q], g, i);
        i := i + 1;
        continue;
      }
      ok := ClonePage(m, q, i, e0, b0, s0, g * 512 + i, Less(pool, 1));
      if !ok {
        return;
      }
      PagesStep(s0, orig, b, Now(m), b.t.pts[q], m.t.pts[q], g, i);
      SameLeafSameMapped(b.t, m.t, m.active, q);
      i := i + 1;
    }
    AllCopied(s0.t, 3, p, F.Held(m.Words()));
    SufficeAll(s0.t, 3, p, F.Held(m.Words()), pool.next + 1, pool.end);
  }

  // ------------------------------------------------------------------------------------------
  // The frames that were foreseen
  // ------------------------------------------------------------------------------------------

  // Table p of the state t0 was copied to q, in frame f, and the taken frames went from s to s', all as
  // the tables and frames of before tell; so they tell whether the processor finds the copy's tables.
  ghost predicate Foreseen(t0: Tables, k: nat, p: nat, t: Tables, r: nat, q: nat, f: nat, s: set<nat>, s': set<nat>)
    requires k <= 3
  {
    && f == F.Pick(s, Size(k)) && s' == Copying(t0, k, p, 0, F.Grab(s, Size(k)))
    && (Points(t, r, k, q) <==> Fits(t0, k, p, 0, F.Grab(s, Size(k))))
  }

  // The same for the entries below n.
  ghost predicate ForeseenSoFar(t0: Tables, k: nat, p: nat, t: Tables, r: nat, q: Dir, n: nat, s: set<nat>,
                                s': set<nat>)
    requires k < 3 && n <= 512 && WellSized(q)
  {
    && Copying(t0, k, p, n, s') == Copying(t0, k, p, 0, s)
    && (AllPoint(t, r, k, q, n) && Fits(t0, k, p, n, s') <==> Fits(t0, k, p, 0, s))
  }

  lemma CopyingPage(t: Tables, p: nat, i: nat, s: set<nat>)
    requires i < 512
    ensures Copying(t, 3, p, i, s) == Copying(t, 3, p, i + 1, if HasPage(t, p, i) then F.Grab(s, 1) else s)
  {
  }

  lemma AllCopied(t: Tables, k: nat, p: nat, s: set<nat>)
    requires k <= 3
    ensures Copying(t, k, p, Limit(k), s) == s && Fits(t, k, p, Limit(k), s)
  {
  }

  lemma ForeseenNone(t0: Tables, k: nat, p: nat, t: Tables, r: nat, q: Dir, s: set<nat>)
    requires k < 3 && WellSized(q)
    ensures ForeseenSoFar(t0, k, p, t, r, q, 0, s, s)
  {
    hide Copying, Fits;
  }

  lemma ForeseenAll(t0: Tables, k: nat, p: nat, t: Tables, r: nat, q: nat, f: nat, s: set<nat>, s': set<nat>)
    requires k < 3 && q in t.dirs && WellSized(t.dirs[q]) && f == F.Pick(s, Size(k))
    requires ForeseenSoFar(t0, k, p, t, r, t.dirs[q], Limit(k), F.Grab(s, Size(k)), s')
    ensures Foreseen(t0, k, p, t, r, q, f, s, s')
  {
    hide Copying, Fits, AllPoint, F.Pick, F.Grab;
    AllCopied(t0, k, p, s');
  }

  lemma ForeseenAbsent(t0: Tables, k: nat, p: nat, t: Tables, r: nat, q: Dir, n: nat, s: set<nat>, s': set<nat>)
    requires k < 3 && n < Limit(k) && WellSized(q) && ForeseenSoFar(t0, k, p, t, r, q, n, s, s')
    requires !HasChild(t0, p, n) && q.physical[n] == 0
    ensures ForeseenSoFar(t0, k, p, t, r, q, n + 1, s, s')
  {
    hide F.Pick, F.Grab, Includes;
    assert !Present(q.physical[n]);
    MorePoint(t, r, k, q, n);
  }

  lemma MorePoint(t: Tables, r: nat, k: nat, q: Dir, n: nat)
    requires k < 3 && n < 512 && WellSized(q)
    ensures AllPoint(t, r, k, q, n + 1) <==> AllPoint(t, r, k, q, n) && EntryPoints(t, r, k, q, n)
  {
    hide EntryPoints;
  }

  // The finished children lead where they did, whatever else goes on.
  lemma AllPointKept(s0: Snap, k: nat, p: Dir, s: Snap, s': Snap, active: nat, q: Dir, own: nat, g: nat, n: nat)
    requires k < 3 && n <= 512 && WellSized(p) && WellSized(q)
    requires ChildrenCopied(s0, k, p, s, active, q, own, g, n) && Keeps(s, s', active, own, k + 1)
    ensures AllPoint(s'.t, active, k, q, n) <==> AllPoint(s.t, active, k, q, n)
  {
    hide Keeps, ChildCopied, EntryPoints;
    forall i | 0 <= i < n ensures EntryPoints(s'.t, active, k, q, i) <==> EntryPoints(s.t, active, k, q, i) {
      assert ChildCopied(s0, k, p, s, active, q, own, g, i);
      EntryPointsKept(s0, k, p, s, s', active, q, own, g, i, k + 1);
    }
  }

  lemma SameEntriesPoint(t: Tables, r: nat, k: nat, q: Dir, q': Dir, n: nat)
    requires k < 3 && n <= 512 && WellSized(q) && WellSized(q')
    requires forall i :: 0 <= i < n ==> q'.physical[i] == q.physical[i] && q'.next[i] == q.next[i]
    ensures AllPoint(t, r, k, q', n) <==> AllPoint(t, r, k, q, n)
  {
    hide Points;
    forall i | 0 <= i < n ensures EntryPoints(t, r, k, q', i) <==> EntryPoints(t, r, k, q, i) {
    }
  }

  // One more child.
  lemma ForeseenChild(t0: Tables, k: nat, p: nat, t: Tables, t': Tables, r: nat, q: Dir, q': Dir, n: nat, child: nat,
                      f: nat, s: set<nat>, s1: set<nat>, s2: set<nat>)
    requires k < 3 && n < Limit(k) && WellSized(q) && WellSized(q') && ForeseenSoFar(t0, k, p, t, r, q, n, s, s1)
    requires HasChild(t0, p, n) && Foreseen(t0, k + 1, t0.dirs[p].next[n], t', r, child, f, s1, s2)
    requires AllPoint(t', r, k, q', n) <==> AllPoint(t, r, k, q, n)
    requires q'.next[n] == child && q'.physical[n] == ChildEntry(k, t0.dirs[p].physical[n], f)
    requires TableFrame(t', r, child) == f
    ensures ForeseenSoFar(t0, k, p, t', r, q', n + 1, s, s2)
  {
    hide ChildEntry, Includes, Points, AllPoint, TableFrame, F.Pick, F.Grab, LowInt;
    HardwareAgreesIff(t0.dirs[p].physical[n], f);
    ChildEntryPresent(k, t0.dirs[p].physical[n], f);
    MorePoint(t', r, k, q', n);
  }

  ghost predicate ChildrenCopied(s0: Snap, k: nat, p: Dir, s: Snap, active: nat, q: Dir, own: nat, g: nat, n: nat)
    requires k < 3 && n <= 512 && WellSized(p) && WellSized(q)
  {
    forall i {:trigger ChildCopied(s0, k, p, s, active, q, own, g, i)} :: 0 <= i < n ==>
      ChildCopied(s0, k, p, s, active, q, own, g, i)
  }

  lemma ChildrenKept(s0: Snap, k: nat, p: Dir, s: Snap, s': Snap, active: nat, q: Dir, own: nat, g: nat, n: nat)
    requires k < 3 && n <= 512 && WellSized(p) && WellSized(q)
    requires ChildrenCopied(s0, k, p, s, active, q, own, g, n) && Keeps(s, s', active, own, k + 1)
    ensures ChildrenCopied(s0, k, p, s', active, q, own, g, n)
  {
    hide Keeps, ChildCopied;
    forall i | 0 <= i < n ensures ChildCopied(s0, k, p, s', active, q, own, g, i) {
      ChildKept(s0, k, p, s, s', active, q, own, g, i, k + 1);
    }
  }

  // One more child, entered in table q, which becomes q'.
  lemma ChildrenStep(s0: Snap, k: nat, p: Dir, s: Snap, active: nat, q: Dir, q': Dir, own: nat, g: nat, n: nat)
    requires k < 3 && n < 512 && WellSized(p) && WellSized(q) && WellSized(q')
    requires ChildrenCopied(s0, k, p, s, active, q, own, g, n) && ChildCopied(s0, k, p, s, active, q', own, g, n)
    requires forall i :: 0 <= i < n ==> q'.physical[i] == q.physical[i] && q'.next[i] == q.next[i]
    ensures ChildrenCopied(s0, k, p, s, active, q', own, g, n + 1)
  {
    hide Copied, ChildEntry;
    forall i | 0 <= i < n + 1 ensures ChildCopied(s0, k, p, s, active, q', own, g, i) {
      if i < n { assert ChildCopied(s0, k, p, s, active, q, own, g, i); }
    }
  }

  lemma NoChildrenCopied(s0: Snap, k: nat, p: Dir, s: Snap, active: nat, q: Dir, own: nat, g: nat)
    requires k < 3 && WellSized(p) && WellSized(q)
    ensures ChildrenCopied(s0, k, p, s, active, q, own, g, 0)
  {
  }

  lemma AllChildren(s0: Snap, k: nat, p: nat, s: Snap, active: nat, q: nat, own: nat, g: nat)
    requires k < 3 && p in s0.t.dirs && q in s.t.dirs && WellSized(s0.t.dirs[p]) && WellSized(s.t.dirs[q])
    requires q in s.home && s.home[q] == Home(own, k, g) && Mapped(s.t, active, q) && q < PAGES
    requires ChildrenCopied(s0, k, s0.t.dirs[p], s, active, s.t.dirs[q], own, g, Limit(k))
    ensures Copied(s0, k, p, s, active, q, own, g)
  {
    hide ChildCopied;
  }

  // The copy of one child, entered in its parent: what it means for the parent's table.
  lemma ChildDone(s0: Snap, k: nat, dp: Dir, b: Snap, c: Snap, t': Tables, active: nat, q: nat, own: nat, g: nat,
                  n: nat, child: nat, f: nat)
    requires k < 3 && n < 512 && WellSized(dp) && q in b.t.dirs && WellSized(b.t.dirs[q]) && own != KERNEL
    requires q in b.home && b.home[q] == Home(own, k, g) && q in c.home && c.home[q] == Home(own, k, g)
    requires Evolves(b, c, active) && OnlyWrote(c.t, t', c.home, active, q) && q in t'.dirs && WellSized(t'.dirs[q])
    requires ChildrenCopied(s0, k, dp, b, active, b.t.dirs[q], own, g, n)
    requires Present(dp.physical[n]) && Copied(s0, k + 1, dp.next[n], c, active, child, own, g * 512 + n)
    requires t'.dirs[q].physical == b.t.dirs[q].physical[n := ChildEntry(k, dp.physical[n], f)]
    requires t'.dirs[q].next == b.t.dirs[q].next[n := child] && TableFrame(c.t, active, child) == f
    ensures ChildrenCopied(s0, k, dp, c.(t := t'), active, t'.dirs[q], own, g, n + 1)
  {
    hide Evolves, OnlyWrote, ChildrenCopied, Keeps, ChildEntry, UserSame, Leaf;
    var d := c.(t := t');
    EvolvesKeeps(b, c, active, own, k + 1);
    ChildrenKept(s0, k, dp, b, c, active, b.t.dirs[q], own, g, n);
    FramesSized(b, c, active);
    WriteKeeps(c, t', active, q, own, k + 1);
    ChildrenKept(s0, k, dp, c, d, active, b.t.dirs[q], own, g, n);
    CopiedKept(s0, k + 1, dp.next[n], c, d, active, child, own, g * 512 + n, k + 1);
    ChildLeafKept(s0, k + 1, dp.next[n], c, d, active, child, own, g * 512 + n, k + 1);
    ChildEntryPresent(k, dp.physical[n], f);
    ChildrenStep(s0, k, dp, d, active, b.t.dirs[q], t'.dirs[q], own, g, n);
  }

  lemma StillForeseen(s0: Snap, k: nat, p: nat, s: Snap, s': Snap, active: nat, q: nat, own: nat, g: nat, f: nat,
                      taken: set<nat>)
    requires 0 < k <= 3 && Copied(s0, k, p, s, active, q, own, g)
    requires Keeps(s, s', active, own, k) && TableFrame(s.t, active, q) == f
    requires |s.ws| == F.NUM_OF_FRAMES && Foreseen(s0.t, k, p, s.t, active, q, f, taken, F.Held(s.ws))
    ensures Foreseen(s0.t, k, p, s'.t, active, q, f, taken, F.Held(s.ws)) && TableFrame(s'.t, active, q) == f
  {
    hide Copied, Keeps, Points, Fits, Copying, F.Held, Leaf;
    PointsKept(s0, k, p, s, s', active, q, own, g, k);
    ChildLeafKept(s0, k, p, s, s', active, q, own, g, k);
  }

  // And what it means for the processor's walk.
  lemma ChildForeseen(s0: Snap, k: nat, p: nat, b: Snap, c: Snap, t': Tables, active: nat, q: nat, own: nat, g: nat,
                      n: nat, child: nat, f: nat, taken: set<nat>)
    requires k < 3 && n < Limit(k) && HasChild(s0.t, p, n) && q in b.t.dirs && WellSized(b.t.dirs[q]) && own != KERNEL
    requires q in b.home && b.home[q] == Home(own, k, g) && q in c.home && c.home[q] == Home(own, k, g)
    requires Evolves(b, c, active) && OnlyWrote(c.t, t', c.home, active, q) && q in t'.dirs && WellSized(t'.dirs[q])
    requires ChildrenCopied(s0, k, s0.t.dirs[p], b, active, b.t.dirs[q], own, g, n)
    requires Copied(s0, k + 1, s0.t.dirs[p].next[n], c, active, child, own, g * 512 + n)
    requires t'.dirs[q].physical == b.t.dirs[q].physical[n := ChildEntry(k, s0.t.dirs[p].physical[n], f)]
    requires t'.dirs[q].next == b.t.dirs[q].next[n := child] && TableFrame(c.t, active, child) == f
    requires |b.ws| == F.NUM_OF_FRAMES == |c.ws|
    requires ForeseenSoFar(s0.t, k, p, b.t, active, b.t.dirs[q], n, taken, F.Held(b.ws))
    requires Foreseen(s0.t, k + 1, s0.t.dirs[p].next[n], c.t, active, child, f, F.Held(b.ws), F.Held(c.ws))
    ensures ForeseenSoFar(s0.t, k, p, t', active, t'.dirs[q], n + 1, taken, F.Held(c.ws))
  {
    hide Evolves, OnlyWrote, ChildrenCopied, Keeps, ChildEntry, UserSame, Leaf, ForeseenSoFar, Foreseen, F.Held,
         Points, AllPoint, Fits, Copying, Copied, TableFrame;
    var d, dp := c.(t := t'), s0.t.dirs[p];
    EvolvesKeeps(b, c, active, own, k + 1);
    ChildrenKept(s0, k, dp, b, c, active, b.t.dirs[q], own, g, n);
    AllPointKept(s0, k, dp, b, c, active, b.t.dirs[q], own, g, n);
    WriteKeeps(c, t', active, q, own, k + 1);
    AllPointKept(s0, k, dp, c, d, active, b.t.dirs[q], own, g, n);
    StillForeseen(s0, k + 1, dp.next[n], c, d, active, child, own, g * 512 + n, f, F.Held(b.ws));
    SameEntriesPoint(t', active, k, b.t.dirs[q], t'.dirs[q], n);
    ForeseenChild(s0.t, k, p, b.t, t', active, b.t.dirs[q], t'.dirs[q], n, child, f, taken, F.Held(b.ws), F.Held(c.ws));
  }

  lemma FramesSized(b: Snap, c: Snap, active: nat)
    requires Evolves(b, c, active)
    ensures |c.ws| == F.NUM_OF_FRAMES
  {
  }

  // What the entries from i on still need, with the frames of "held" taken and the pages of "now" left, is
  // what decides about the whole table.
  ghost predicate NeedsSoFar(t: Tables, k: nat, p: nat, i: nat, taken: set<nat>, pool: Pool, held: set<nat>, now: Pool)
    requires k < 3 && i <= 512
  {
    && now.tight == pool.tight && now.end == pool.end
    && now.next + Cost(t, k, p, i) == pool.next + Size(k) + Cost(t, k, p, 0)
    && FramesSuffice(t, k, p, i, held) == FramesSuffice(t, k, p, 0, taken)
    && PagesSuffice(t, k, p, i, now.next, pool.end) == PagesSuffice(t, k, p, 0, pool.next + Size(k), pool.end)
  }

  lemma NeedsAtFirst(t: Tables, k: nat, p: nat, taken: set<nat>, pool: Pool)
    requires k < 3
    ensures NeedsSoFar(t, k, p, 0, taken, pool, taken, Less(pool, Size(k)))
  {
    hide FramesSuffice, PagesSuffice, Cost;
  }

  lemma NeedsNext(t: Tables, k: nat, p: nat, i: nat, taken: set<nat>, pool: Pool, held: set<nat>, now: Pool)
    requires k < 3 && i < Limit(k) && NeedsSoFar(t, k, p, i, taken, pool, held, now)
    ensures !HasChild(t, p, i) ==> NeedsSoFar(t, k, p, i + 1, taken, pool, held, now)
    ensures HasChild(t, p, i) ==>
              var c := t.dirs[p].next[i];
              && (FramesSuffice(t, k, p, 0, taken) ==> FramesFor(t, k + 1, c, held))
              && (PagesSuffice(t, k, p, 0, pool.next + Size(k), pool.end) ==> PagesFor(t, k + 1, c, now.next, pool.end))
              && (FramesFor(t, k + 1, c, held) && PagesFor(t, k + 1, c, now.next, pool.end) ==>
                    NeedsSoFar(t, k, p, i + 1, taken, pool, Copying(t, k + 1, c, 0, F.Grab(held, Size(k + 1))),
                               Less(now, Size(k + 1) + Cost(t, k + 1, c, 0))))
  {
    hide HasChild, FramesSuffice, PagesSuffice, FramesFor, PagesFor, Copying, Cost, F.Grab;
    SufficeStep(t, k, p, i, held, now.next, pool.end);
  }

  lemma NeedsMet(t: Tables, k: nat, p: nat, taken: set<nat>, pool: Pool, held: set<nat>, now: Pool)
    requires k < 3 && NeedsSoFar(t, k, p, Limit(k), taken, pool, held, now)
    ensures FramesSuffice(t, k, p, 0, taken) && PagesSuffice(t, k, p, 0, pool.next + Size(k), pool.end)
    ensures now == Less(pool, Size(k) + Cost(t, k, p, 0))
  {
    SufficeAll(t, k, p, held, now.next, pool.end);
  }

  // clone_pdt (k == 2), clone_pdpt (k == 1) and mmu_clone_directory's own loop (k == 0).
  method CloneDir(m: Mmu, k: nat, p: nat, ghost s0: Snap, ghost r0: nat, ghost owner: nat, ghost g: nat,
                  ghost pool: Pool)
    returns (ok: bool, q: nat, f: nat)
    requires m.Valid() && SourceOk(s0, r0) && Evolves(s0, Now(m), m.active)
    requires k < 3 && g < Pow512(k) && User(k, g) && At(s0.t, r0, k, g) == Some(p)
    requires 0 < k ==> owner !in {m.active, KERNEL}
    requires PoolOk(m.t, m.active, m.heapEnd, pool) && (pool.tight || PagesFor(s0.t, k, p, pool.next, pool.end))
    modifies m`t, m`home, m`ram, m`tag, m.frames.words
    ensures !ok && PagesFor(s0.t, k, p, pool.next, pool.end) ==> OutOfFrames(m.Words())
    ensures ok <==> FramesFor(s0.t, k, p, F.Held(old(m.Words()))) && PagesFor(s0.t, k, p, pool.next, pool.end)
    ensures ok ==> m.Valid() && q !in old(m.home) && q !in {m.active, KERNEL}
    ensures ok ==> Copied(s0, k, p, Now(m), m.active, q, if k == 0 then q else owner, g)
    ensures ok ==> Evolves(old(Now(m)), Now(m), m.active)
    ensures ok ==> PoolOk(m.t, m.active, m.heapEnd, Less(pool, Size(k) + Cost(s0.t, k, p, 0)))
    ensures ok ==> TableFrame(m.t, m.active, q) == f
    ensures ok ==> Foreseen(s0.t, k, p, m.t, m.active, q, f, F.Held(old(m.Words())), F.Held(m.Words()))
    decreases 3 - k, 1
  {
    hide TreeOk, SourceOk, UserOk, UserSame, TablesMapped, OutOfFrames, Leaf, Mapped, At, Evolves, HomeGrows,
         FramesGrow, RamKept, OnlyWrote, Copied, ChildCopied, ChildrenCopied, ChildEntry, Pow512, User, StoreOk, Cost,
         Foreseen, ForeseenSoFar, F.Held, F.Pick, F.Grab, TablePage, TableFrame, Points, Fits, Copying, AllPoint,
         MappingKept, Settled, PoolOk, FramesSuffice, PagesSuffice, F.Gets, HasChild, NeedsSoFar;
    ghost var b0 := Now(m);
    ok, q, f := NewTable(m, k, g, owner, pool);
    if !ok {
      return;
    }
    ghost var own, now := if k == 0 then q else owner, Less(pool, Size(k));
    EvolvesTwice(s0, b0, Now(m), m.active);
    SourceChild(s0, r0, k, g, 0);
    ghost var dp := s0.t.dirs[p];
    NoChildrenCopied(s0, k, dp, Now(m), m.active, m.t.dirs[q], own, g);
    NewSince(s0, b0, m.active, q);
    ghost var taken := F.Held(m.Words());
    assert NeedsSoFar(s0.t, k, p, 0, taken, pool, taken, now) by { NeedsAtFirst(s0.t, k, p, taken, pool); }
    ForeseenNone(s0.t, k, p, m.t, m.active, m.t.dirs[q], taken);
    var i := 0;
    while i < Limit(k)
      invariant ok && i <= Limit(k) && m.Valid() && q in m.home && m.home[q] == Home(own, k, g)
      invariant Mapped(m.t, m.active, q) && q in m.t.dirs && WellSized(m.t.dirs[q]) && q < PAGES
      invariant TableFrame(m.t, m.active, q) == f
      invariant ForeseenSoFar(s0.t, k, p, m.t, m.active, m.t.dirs[q], i, taken, F.Held(m.Words()))
      invariant Evolves(b0, Now(m), m.active) && Evolves(s0, Now(m), m.active)
      invariant ChildrenCopied(s0, k, dp, Now(m), m.active, m.t.dirs[q], own, g, i)
      invariant forall l :: i <= l < 512 ==> m.t.dirs[q].physical[l] == 0
      invariant PoolOk(m.t, m.active, m.heapEnd, now) && now.tight == pool.tight && now.end == pool.end
      invariant NeedsSoFar(s0.t, k, p, i, taken, pool, F.Held(m.Words()), now)
    {
      ghost var b := Now(m);
      SourceChild(s0, r0, k, g, i);
      SourceTableSame(s0, b, m.active, p);
      ChildThere(s0.t, p, i);
      NeedsNext(s0.t, k, p, i, taken, pool, F.Held(m.Words()), now);
      var e0, from := m.t.dirs[p].physical[i], m.t.dirs[p].next[i];
      LowBits(e0);
      if !Present(e0) {
        AbsentChild(s0, k, dp, b, m.active, m.t.dirs[q], own, g, i);
        ForeseenAbsent(s0.t, k, p, m.t, m.active, m.t.dirs[q], i, taken, F.Held(m.Words()));
        i := i + 1;
        continue;
      }
      ok := CloneEntry(m, k, q, i, e0, from, s0, r0, own, g, b0, p, taken, now);
      if !ok {
        return;
      }
      now := Less(now, Size(k + 1) + Cost(s0.t, k + 1, from, 0));
      i := i + 1;
    }
    NeedsMet(s0.t, k, p, taken, pool, F.Held(m.Words()), now);
    ForeseenAll(s0.t, k, p, m.t, m.active, q, f, F.Held(b0.ws), F.Held(m.Words()));
    AllChildren(s0, k, p, Now(m), m.active, q, own, g);
  }

  // The rest of such a loop's body, for a present entry e0: the table below, and an entry for it.
  method CloneEntry(m: Mmu, k: nat, q: nat, i: nat, e0: nat, from: nat, ghost s0: Snap, ghost r0: nat, ghost own: nat,
                    ghost g: nat, ghost b0: Snap, ghost p: nat, ghost taken: set<nat>, ghost pool: Pool)
    returns (ok: bool)
    requires m.Valid() && SourceOk(s0, r0) && k < 3 && g < Pow512(k) && User(k, g) && At(s0.t, r0, k, g) == Some(p)
    requires i < Limit(k) && own !in {m.active, KERNEL} && HasChild(s0.t, p, i)
    requires e0 == s0.t.dirs[p].physical[i] && from == s0.t.dirs[p].next[i]
    requires q in m.home && m.home[q] == Home(own, k, g) && q in m.t.dirs && WellSized(m.t.dirs[q])
    requires Mapped(m.t, m.active, q) && q < PAGES && q !in s0.home && q !in b0.home
    requires Evolves(b0, Now(m), m.active) && Evolves(s0, Now(m), m.active)
    requires ForeseenSoFar(s0.t, k, p, m.t, m.active, m.t.dirs[q], i, taken, F.Held(m.Words()))
    requires ChildrenCopied(s0, k, s0.t.dirs[p], Now(m), m.active, m.t.dirs[q], own, g, i)
    requires PoolOk(m.t, m.active, m.heapEnd, pool) && (pool.tight || PagesFor(s0.t, k + 1, from, pool.next, pool.end))
    modifies m`t, m`home, m`ram, m`tag, m.frames.words
    ensures !ok && PagesFor(s0.t, k + 1, from, pool.next, pool.end) ==> OutOfFrames(m.Words())
    ensures ok <==>
              && FramesFor(s0.t, k + 1, from, F.Held(old(m.Words())))
              && PagesFor(s0.t, k + 1, from, pool.next, pool.end)
    ensures ok ==> m.Valid() && q in m.home && m.home[q] == Home(own, k, g) && q in m.t.dirs && WellSized(m.t.dirs[q])
    ensures ok ==> Mapped(m.t, m.active, q) && TableFrame(m.t, m.active, q) == old(TableFrame(m.t, m.active, q))
    ensures ok ==> q in old(m.t).dirs && WellSized(old(m.t).dirs[q]) &&
                   forall l :: i < l < 512 ==> m.t.dirs[q].physical[l] == old(m.t).dirs[q].physical[l]
    ensures ok ==> Evolves(b0, Now(m), m.active) && Evolves(s0, Now(m), m.active)
    ensures ok ==> ForeseenSoFar(s0.t, k, p, m.t, m.active, m.t.dirs[q], i + 1, taken, F.Held(m.Words()))
    ensures ok ==> F.Held(m.Words()) == Copying(s0.t, k + 1, from, 0, F.Grab(F.Held(old(m.Words())), Size(k + 1)))
    ensures ok ==> ChildrenCopied(s0, k, s0.t.dirs[p], Now(m), m.active, m.t.dirs[q], own, g, i + 1)
    ensures ok ==> PoolOk(m.t, m.active, m.heapEnd, Less(pool, Size(k + 1) + Cost(s0.t, k + 1, from, 0)))
    decreases 3 - k, 0
  {
    hide TreeOk, SourceOk, UserOk, UserSame, TablesMapped, OutOfFrames, Leaf, Mapped, At, Evolves, HomeGrows,
         FramesGrow, RamKept, OnlyWrote, Copied, ChildCopied, ChildrenCopied, ChildEntry, Pow512, User, StoreOk, Cost,
         Foreseen, ForeseenSoFar, F.Held, F.Pick, F.Grab, TablePage, TableFrame, Points, Fits, Copying, AllPoint,
         MappingKept, Settled, PoolOk, FramesFor, PagesFor;
    ghost var b, dp := Now(m), s0.t.dirs[p];
    SourceChild(s0, r0, k, g, i);
    var child, frame;
    ok, child, frame := CloneTable(m, k + 1, from, s0, r0, own, g * 512 + i, pool);
    if !ok {
      return;
    }
    ghost var c := Now(m);
    UserTableKept(b, c, m.active, q);
    SetEntry(m, q, i, ChildEntry(k, e0, frame), child);
    ChildDone(s0, k, dp, b, c, m.t, m.active, q, own, g, i, child, frame);
    ChildForeseen(s0, k, p, b, c, m.t, m.active, q, own, g, i, child, frame, taken);
    ForeseenTaken(s0.t, k + 1, from, c.t, m.active, child, frame, F.Held(b.ws), F.Held(c.ws));
    EvolvesTwice(b0, b, c, m.active);
    EvolvesTwice(s0, b, c, m.active);
    WriteEvolves(b0, c, m.t, m.active, q);
    WriteEvolves(s0, c, m.t, m.active, q);
    WritePool(c.t, m.t, m.home, m.active, q, m.heapEnd, Less(pool, Size(k + 1) + Cost(s0.t, k + 1, from, 0)));
    OwnLeafKept(b, c, m.t, m.active, q);
  }

  // A table below the root: a page table, or another directory table.
  method CloneTable(m: Mmu, k: nat, p: nat, ghost s0: Snap, ghost r0: nat, ghost own: nat, ghost g: nat,
                    ghost pool: Pool)
    returns (ok: bool, q: nat, f: nat)
    requires m.Valid() && SourceOk(s0, r0) && Evolves(s0, Now(m), m.active)
    requires 0 < k <= 3 && g < Pow512(k) && User(k, g)
    requires At(s0.t, r0, k, g) == Some(p) && own !in {m.active, KERNEL}
    requires PoolOk(m.t, m.active, m.heapEnd, pool) && (pool.tight || PagesFor(s0.t, k, p, pool.next, pool.end))
    modifies m`t, m`home, m`ram, m`tag, m.frames.words
    ensures !ok && PagesFor(s0.t, k, p, pool.next, pool.end) ==> OutOfFrames(m.Words())
    ensures ok <==> FramesFor(s0.t, k, p, F.Held(old(m.Words()))) && PagesFor(s0.t, k, p, pool.next, pool.end)
    ensures ok ==> m.Valid() && Copied(s0, k, p, Now(m), m.active, q, own, g)
    ensures ok ==> Evolves(old(Now(m)), Now(m), m.active)
    ensures ok ==> PoolOk(m.t, m.active, m.heapEnd, Less(pool, Size(k) + Cost(s0.t, k, p, 0)))
    ensures ok ==> TableFrame(m.t, m.active, q) == f
    ensures ok ==> Foreseen(s0.t, k, p, m.t, m.active, q, f, F.Held(old(m.Words())), F.Held(m.Words()))
    decreases 3 - k, 2
  {
    hide TreeOk, SourceOk, UserOk, UserSame, TablesMapped, OutOfFrames, Leaf, Mapped, At, Evolves, HomeGrows,
         FramesGrow, RamKept, OnlyWrote, Copied, Pow512, User, StoreOk, Foreseen, F.Held, TablePage, TableFrame,
         PoolOk, FramesFor, PagesFor;
    if k == 3 {
      SufficeAll(s0.t, 3, p, {}, 0, 0);
      ok, q, f := ClonePt(m, p, s0, r0, own, g, pool);
    } else {
      ok, q, f := CloneDir(m, k, p, s0, r0, own, g, pool);
    }
  }

  lemma ChildThere(t: Tables, p: nat, i: nat)
    requires p in t.dirs && WellSized(t.dirs[p]) && i < 512
    ensures HasChild(t, p, i) <==> Present(t.dirs[p].physical[i])
  {
  }

  lemma ForeseenTaken(t0: Tables, k: nat, p: nat, t: Tables, r: nat, q: nat, f: nat, s: set<nat>, s': set<nat>)
    requires k <= 3 && Foreseen(t0, k, p, t, r, q, f, s, s')
    ensures s' == Copying(t0, k, p, 0, F.Grab(s, Size(k)))
  {
    hide Copying, F.Grab, F.Pick, Points, Fits;
  }

  lemma AbsentChild(s0: Snap, k: nat, p: Dir, s: Snap, active: nat, q: Dir, own: nat, g: nat, n: nat)
    requires k < 3 && n < 512 && WellSized(p) && WellSized(q) && ChildrenCopied(s0, k, p, s, active, q, own, g, n)
    requires !Present(p.physical[n]) && q.physical[n] == 0
    ensures ChildrenCopied(s0, k, p, s, active, q, own, g, n + 1)
  {
  }

  lemma UserTableKept(b: Snap, c: Snap, active: nat, q: nat)
    requires Evolves(b, c, active) && q in b.home && b.home[q].own != KERNEL
    ensures q in c.home && c.home[q] == b.home[q]
    ensures q in b.t.dirs ==> q in c.t.dirs && c.t.dirs[q] == b.t.dirs[q]
  {
    UserTableSame(b.t, b.home, c.t, q);
  }

  // The new table's own page stays mapped to its frame.
  lemma OwnLeafKept(b: Snap, c: Snap, t': Tables, active: nat, q: nat)
    requires Evolves(b, c, active) && OnlyWrote(c.t, t', c.home, active, q) && Mapped(b.t, active, q) && q < PAGES
    ensures TableFrame(t', active, q) == TableFrame(b.t, active, q) && Mapped(t', active, q)
  {
    hide Leaf;
    assert Leaf(c.t, active, q) == Leaf(b.t, active, q);
    assert Leaf(t', active, q) == Leaf(c.t, active, q);
  }

  // ------------------------------------------------------------------------------------------
  // mmu_clone_directory
  // ------------------------------------------------------------------------------------------

  // Entering the shared slot does not disturb the copy.
  lemma ShareKeepsCopy(s0: Snap, r0: nat, c: Snap, t': Tables, active: nat, q: nat)
    requires Copied(s0, 0, r0, c, active, q, q, 0) && q != KERNEL && |c.ws| == F.NUM_OF_FRAMES
    requires OnlyWrote(c.t, t', c.home, active, q) && q in c.t.dirs && q in t'.dirs && WellSized(t'.dirs[q])
    requires forall i :: 0 <= i < KERNEL_SLOT ==>
               t'.dirs[q].physical[i] == c.t.dirs[q].physical[i] && t'.dirs[q].next[i] == c.t.dirs[q].next[i]
    ensures Copied(s0, 0, r0, c.(t := t'), active, q, q, 0)
  {
    hide OnlyWrote, Keeps, ChildCopied;
    var d, dp, n := c.(t := t'), s0.t.dirs[r0], KERNEL_SLOT;
    WriteKeeps(c, t', active, q, q, 1);
    ChildrenKept(s0, 0, dp, c, d, active, c.t.dirs[q], q, 0, n);
    SameChildren(s0, 0, dp, d, active, c.t.dirs[q], t'.dirs[q], q, 0, n);
    RootStaysMapped(c.t, t', c.home, active, q);
    AllChildren(s0, 0, r0, d, active, q, q, 0);
  }

  lemma RootStaysMapped(t: Tables, t': Tables, home: map<nat, Home>, active: nat, q: nat)
    requires OnlyWrote(t, t', home, active, q) && Mapped(t, active, q) && q < PAGES
    ensures Mapped(t', active, q) && TableFrame(t', active, q) == TableFrame(t, active, q)
  {
    assert Leaf(t', active, q) == Leaf(t, active, q);
  }

  lemma SameChildren(s0: Snap, k: nat, p: Dir, s: Snap, active: nat, q: Dir, q': Dir, own: nat, g: nat, n: nat)
    requires k < 3 && n <= 512 && WellSized(p) && WellSized(q) && WellSized(q')
    requires ChildrenCopied(s0, k, p, s, active, q, own, g, n)
    requires forall i :: 0 <= i < n ==> q'.physical[i] == q.physical[i] && q'.next[i] == q.next[i]
    ensures ChildrenCopied(s0, k, p, s, active, q', own, g, n)
  {
    hide Copied, ChildEntry;
    forall i | 0 <= i < n ensures ChildCopied(s0, k, p, s, active, q', own, g, i) {
      assert ChildCopied(s0, k, p, s, active, q, own, g, i);
    }
  }

  lemma KsbrkEvolves(s0: Snap, s: Snap, active: nat, added: set<nat>, r: nat, n: nat)
    requires UserSame(s0.t, s0.home, s.t) && HomeGrows(s0.home, s.home) && FramesGrow(s0.ws, s.ws)
    requires s.ram == s0.ram && s.tag == s0.tag && Obtained(s0.t, s0.ws, s.t, s.ws, active, added, r, n)
    ensures Evolves(s0, s, active)
  {
    hide UserSame, HomeGrows, FramesGrow, Obtained, Leaf;
    forall v | 0 <= v < PAGES && Mapped(s0.t, active, v) ensures Leaf(s.t, active, v) == Leaf(s0.t, active, v) {
      ObtainedAt(s0.t, s0.ws, s.t, s.ws, active, added, r, n, v);
    }
  }

  // What the tables and pages of before say of the pages that the copy may use, once ksbrk has grown the
  // heap by the page of the struct.
  ghost predicate PoolAfter(t: Tables, r: nat, start: nat, f: nat, top: nat, b: Pool) {
    var g := Plan(t, r, start, f, 1);
    && b.next == (if g.region + 1 > f then g.region + 1 else f)
    && b.next <= b.end <= PAGES && Window(t, r, b.next, b.end - b.next)
    && (forall y {:trigger TableThere(t, r, g.first, 1, y)} ::
          g.region + 1 < b.end && (g.region + 1) / 512 <= y < (b.end + 511) / 512 ==> TableThere(t, r, g.first, 1, y))
    && (b.tight ==>
          && b.end <= top && !TableThere(t, r, g.first, 1, b.end / 512)
          && forall v {:trigger Mapped(t, r, v)} :: g.region + 1 <= v < f ==> Mapped(t, r, v))
  }

  lemma PoolAfterKsbrk(s0: Snap, s: Snap, active: nat, start: nat, f: nat, top: nat, added: set<nat>, r: nat, b: Pool)
    requires Frontier(s0.t, active, start, f, top) && PoolAfter(s0.t, active, start, f, top, b)
    requires r == Plan(s0.t, active, start, f, 1).region && start <= r && Within(added, start, r)
    requires Obtained(s0.t, s0.ws, s.t, s.ws, active, added, r, 1) && ServedKept(s0.t, s.t, active)
    requires TablesAre(s0.t, s.t, active, Plan(s0.t, active, start, f, 1).first, 1)
    ensures PoolOk(s.t, active, r + 1, b)
  {
    hide Obtained, Leaf, Mapped, Plan, HasPt, TableThere, Frontier, TablesAre, ServedKept;
    FrontierFacts(s0.t, active, start, f, top);
    var first := Plan(s0.t, active, start, f, 1).first;
    forall v | b.next <= v < b.next + (b.end - b.next) ensures !Mapped(s.t, active, v) {
      assert !Mapped(s0.t, active, v);
      GrowthKeeps(s0, s, active, added, r, v);
    }
    forall v | r + 1 <= v < b.next + (b.end - b.next) ensures Served(s.t, active, v) {
      assert (r + 1) / 512 <= v / 512 < (b.end + 511) / 512;
      assert TableThere(s0.t, active, first, 1, v / 512);
      TablesServe(s0.t, s.t, active, first, v);
    }
    if b.tight {
      TablesServe(s0.t, s.t, active, first, b.end);
      OnlyPtMissing(s0.t, s.t, active, start, f, top, b.end);
      forall v | r + 1 <= v < b.next ensures Mapped(s.t, active, v) {
        assert Mapped(s0.t, active, v);
        GrowthKeeps(s0, s, active, added, r, v);
      }
    }
  }

  // Past the pages that the growth took, nothing is mapped or unmapped.
  lemma GrowthKeeps(s0: Snap, s: Snap, active: nat, added: set<nat>, r: nat, v: nat)
    requires Obtained(s0.t, s0.ws, s.t, s.ws, active, added, r, 1) && r + 1 <= v < PAGES && v !in added
    ensures Mapped(s.t, active, v) == Mapped(s0.t, active, v)
  {
    ObtainedAt(s0.t, s0.ws, s.t, s.ws, active, added, r, 1, v);
    SameLeafSameMapped(s0.t, s.t, active, v);
  }

  lemma TablesServe(t: Tables, t': Tables, r: nat, first: nat, v: nat)
    requires TablesAre(t, t', r, first, 1) && v < PAGES
    ensures Served(t', r, v) <==> TableThere(t, r, first, 1, v / 512)
  {
    hide TableThere, HasPt;
    Levels(v);
    TablesAreAt(t, t', r, first, 1, v / 512);
  }

  lemma OnlyPtMissing(t: Tables, t': Tables, r: nat, start: nat, f: nat, top: nat, v: nat)
    requires Frontier(t, r, start, f, top) && ServedKept(t, t', r) && start <= v <= top && !Served(t', r, v)
    ensures Need(t', r, v / 512) == 1
  {
    FrontierFacts(t, r, start, f, top);
    assert Served(t, r, start);
    assert Served(t', r, start);
    assert start / 512 / 512 == v / 512 / 512;
  }

  // In the usual state the copy's pages end with the group of the table that the growth makes.
  lemma BarePool(t: Tables, r: nat, f: nat, top: nat)
    requires Bare(t, r, f, top) && (f / 512 + 2) * 512 <= top
    ensures PoolAfter(t, r, f, f, top, Pool(f + 2, (f / 512 + 2) * 512, true))
    ensures TablesMade(t, r, Plan(t, r, f, f, 1).first, 1) == 1
  {
    hide Plan, TableThere, Mapped, HasPt, MissingIn, Bare;
    var u := (f / 512 + 2) * 512;
    BareGrowth(t, r, f, top, 1);
    BareBounds(t, r, f, top, 1);
    assert Shifted(f % 512, 1) == 1;
    forall y: nat | f / 512 <= y <= f / 512 + 2 ensures TableThere(t, r, f, 1, y) <==> y <= f / 512 + 1 {
      BareTables(t, r, f, top, 1, y);
    }
    BareMissing(t, r, f, top, f / 512 + 1);
    assert Past(f, 1) == f / 512 + 1;
    WindowAfter(t, r, f, top, 2, u - f - 2);
  }

  // The frames that are taken after ksbrk: those of before, one for the page of the struct and one for each
  // table that ksbrk makes.
  ghost function TakenByGrowth(t: Tables, ws: seq<bv64>, active: nat, start: nat, f: nat): set<nat>
    requires |ws| == F.NUM_OF_FRAMES
  {
    F.GrabMany(F.Held(ws), TablesMade(t, active, Plan(t, active, start, f, 1).first, 1) + 1)
  }

  // And when the copying of the tables below the root starts.
  ghost function TakenAtStart(t: Tables, ws: seq<bv64>, active: nat, start: nat, f: nat): set<nat>
    requires |ws| == F.NUM_OF_FRAMES
  {
    F.Grab(TakenByGrowth(t, ws, active, start, f), Size(0))
  }

  // Directory r is cloned, which succeeds if and only if there are frames and pages for it.  The result is
  // the page that holds the new struct mmu_directory, and its two fields: the new root and the root's
  // frame.  Whether the processor finds the clone's tables is decided by the tables and the bitmap of
  // before.
  method CloneDirectory(m: Mmu, r: nat, ghost f: nat, ghost top: nat, ghost pool: Pool)
    returns (ok: bool, page: nat, q: nat, physical: nat)
    requires m.Valid() && SourceOk(Now(m), r) && Frontier(m.t, m.active, m.heapEnd, f, top) && f + 2 < top
    requires PoolAfter(m.t, m.active, m.heapEnd, f, top, pool)
    requires pool.tight || PagesFor(m.t, 0, r, pool.next, pool.end)
    modifies m`t, m`home, m`ram, m`tag, m`heapEnd, m.frames.words
    ensures !ok && PagesFor(old(m.t), 0, r, pool.next, pool.end) ==> OutOfFrames(m.Words())
    ensures ok <==>
              && TablesMade(old(m.t), m.active, Plan(old(m.t), m.active, old(m.heapEnd), f, 1).first, 1) + 1
                 <= old(Free(m.Words()))
              && FramesFor(old(m.t), 0, r, TakenByGrowth(old(m.t), old(m.Words()), m.active, old(m.heapEnd), f))
              && PagesFor(old(m.t), 0, r, pool.next, pool.end)
    ensures ok ==> m.Valid() && q !in old(m.home) && DeepCopy(old(Now(m)), r, Now(m), q)
    ensures ok ==> Evolves(old(Now(m)), Now(m), m.active) && TableFrame(m.t, m.active, q) == physical
    ensures ok ==> Copied(old(Now(m)), 0, r, Now(m), m.active, q, q, 0)
    ensures ok ==> SameFlags(old(m.t), r, m.t, q)
    ensures ok ==> SourceOk(Now(m), q) && SameSlot(m.t, q, r)
    ensures ok && old(SameSlot(m.t, r, m.active)) ==> m.Directory(q) && SameSlot(m.t, q, m.active)
    ensures ok ==>
              forall mem: Memory {:trigger Holds(mem, m.t, m.home, m.active)} :: Holds(mem, m.t, m.home, m.active) ==>
                (HardwareFollows(mem, physical, m.t, m.active, q) <==>
                 Fits(old(m.t), 0, r, 0, TakenAtStart(old(m.t), old(m.Words()), m.active, old(m.heapEnd), f)))
  {
    hide TreeOk, UserOk, UserSame, TablesMapped, OutOfFrames, Leaf, Mapped, Covered, At, Evolves, HomeGrows, FramesGrow,
         SourceOk, RamKept, OnlyWrote, Copied, ChildCopied, ChildrenCopied, Pow512, StoreOk, Cost, Obtained, Frontier,
         ServedKept, Within, DeepCopy, Plan, Stops, Lands, TablesMade, Foreseen, F.Held, F.Grab, F.GrabMany, TablePage,
         TableFrame, Handed, Fits, HardwareFollows, Holds, TakenAtStart, TakenByGrowth, PoolOk, PoolAfter, FramesFor,
         PagesFor, Free, TablesAre, SameFlags;
    ghost var s0, start := Now(m), m.heapEnd;
    q, physical := 0, 0;
    RootIsSource(s0, r);
    ShortGrowth(m.t, m.active, m.heapEnd, f, top, 1);
    ghost var added, f';
    ok, page, added, f' := m.Ksbrk(1, f, top);
    if !ok {
      return;
    }
    ghost var s1 := Now(m);
    KsbrkEvolves(s0, s1, m.active, added, page, 1);
    PoolAfterKsbrk(s0, s1, m.active, start, f, top, added, page, pool);
    GrowthTakes(s0.t, s0.ws, s1.ws, m.active, start, f);
    ok, q, physical := CloneDir(m, 0, r, s0, r, 0, 0, pool);
    if !ok {
      return;
    }
    ghost var c := Now(m);
    EvolvesTwice(s0, s1, c, m.active);
    RootIsThere(s0, r, c, m.active, q);
    NewSince(s0, s1, m.active, q);
    SetEntry(m, q, KERNEL_SLOT, m.t.dirs[r].physical[KERNEL_SLOT], m.t.dirs[r].next[KERNEL_SLOT]);
    ghost var d := Now(m);
    ShareKeepsCopy(s0, r, c, m.t, m.active, q);
    WriteEvolves(s0, c, m.t, m.active, q);
    OtherRootSame(c.t, m.t, c.home, m.active, q, r);
    CopyIsDeep(s0, r, d, m.active, q);
    CopiedFlags(s0, r, d, m.active, q);
    RootStaysMapped(c.t, m.t, c.home, m.active, q);
    CopyIsSource(s0, r, d, m.active, q);
    if SameSlot(s0.t, r, m.active) { SlotCarries(s0, c, d, r, m.active, q); }
    HardwareForeseen(s0, s1, c, d, r, m.active, q, physical, start, f);
  }

  lemma GrowthTakes(t: Tables, ws: seq<bv64>, ws': seq<bv64>, active: nat, start: nat, f: nat)
    requires Handed(ws, ws', TablesMade(t, active, Plan(t, active, start, f, 1).first, 1) + 1)
    ensures |ws| == F.NUM_OF_FRAMES == |ws'| && F.Held(ws') == TakenByGrowth(t, ws, active, start, f)
  {
    hide Plan, TablesMade, F.Held, F.GrabMany;
  }

  lemma RootIsSource(s: Snap, r: nat)
    requires SourceOk(s, r)
    ensures At(s.t, r, 0, 0) == Some(r) && 0 < Pow512(0) && User(0, 0)
    ensures r in s.home && s.home[r].own == r && r != KERNEL && r in s.t.dirs && WellSized(s.t.dirs[r])
  {
    RootAt(s.t, r);
    SourceChild(s, r, 0, 0, 0);
  }

  lemma RootIsThere(s0: Snap, r: nat, c: Snap, active: nat, q: nat)
    requires Evolves(s0, c, active) && r in s0.home && s0.home[r].own != KERNEL
    requires r in s0.t.dirs && WellSized(s0.t.dirs[r])
    requires Copied(s0, 0, r, c, active, q, q, 0)
    ensures r in c.t.dirs && WellSized(c.t.dirs[r]) && |c.ws| == F.NUM_OF_FRAMES
    ensures q in c.t.dirs && WellSized(c.t.dirs[q]) && q in c.home
    ensures c.home[q].own == q && Mapped(c.t, active, q) && q < PAGES
  {
    hide ChildCopied;
    UserTableSame(s0.t, s0.home, c.t, r);
  }

  lemma OtherRootSame(t: Tables, t': Tables, home: map<nat, Home>, active: nat, q: nat, r: nat)
    requires OnlyWrote(t, t', home, active, q) && r in t.dirs && r != q
    ensures r in t'.dirs && t'.dirs[r] == t.dirs[r]
  {
  }

  // The active root keeps its last entry, which the clone of a root that shares it has too.
  lemma SlotCarries(s0: Snap, c: Snap, d: Snap, r: nat, active: nat, q: nat)
    requires SameSlot(s0.t, r, active) && SourceOk(s0, r) && TreeOk(s0.t, s0.home, active) && Evolves(s0, d, active)
    requires Copied(s0, 0, r, d, active, q, q, 0) && q != KERNEL && SameSlot(d.t, q, r) && |d.ws| == F.NUM_OF_FRAMES
    requires TreeOk(d.t, d.home, active) && At(d.t, active, 1, KERNEL_SLOT).Some?
    requires TablesMapped(d.t, d.home, active, d.ws)
    ensures SameSlot(d.t, q, active) && TreeOk(d.t, d.home, q) && At(d.t, q, 1, KERNEL_SLOT).Some?
    ensures TablesMapped(d.t, d.home, q, d.ws)
  {
    hide Copied, TablesMapped, At;
    RootIsSource(s0, r);
    RootAt(s0.t, active);
    assert TableOk(s0.t, s0.home, active, 0, 0);
    UserTableSame(s0.t, s0.home, d.t, r);
    UserTableSame(s0.t, s0.home, d.t, active);
    CopyIsDirectory(s0, r, d, active, q);
  }

  // What was foreseen when the tables had been copied holds of the finished clone.
  lemma HardwareForeseen(s0: Snap, s1: Snap, c: Snap, d: Snap, r: nat, active: nat, q: nat, f: nat, start: nat,
                         front: nat)
    requires SourceOk(s0, r) && Copied(s0, 0, r, c, active, q, q, 0) && Copied(s0, 0, r, d, active, q, q, 0)
    requires OnlyWrote(c.t, d.t, c.home, active, q) && q in c.t.dirs && q in d.t.dirs && q != KERNEL
    requires d == c.(t := d.t) && |s0.ws| == F.NUM_OF_FRAMES == |s1.ws| && |c.ws| == F.NUM_OF_FRAMES
    requires forall i :: 0 <= i < KERNEL_SLOT ==>
               d.t.dirs[q].physical[i] == c.t.dirs[q].physical[i] && d.t.dirs[q].next[i] == c.t.dirs[q].next[i]
    requires F.Held(s1.ws) == TakenByGrowth(s0.t, s0.ws, active, start, front)
    requires Foreseen(s0.t, 0, r, c.t, active, q, f, F.Held(s1.ws), F.Held(c.ws)) && TableFrame(d.t, active, q) == f
    ensures forall mem: Memory {:trigger Holds(mem, d.t, d.home, active)} :: Holds(mem, d.t, d.home, active) ==>
              (HardwareFollows(mem, f, d.t, active, q) <==>
               Fits(s0.t, 0, r, 0, TakenAtStart(s0.t, s0.ws, active, start, front)))
  {
    hide SourceOk, OnlyWrote, ChildCopied, Holds, HardwareFollows, Fits, TableFrame, Plan, TablesMade, AllPoint, Keeps,
         F.Grab, F.Pick, F.Held, F.GrabMany, Leaf, TakenByGrowth, Copying;
    var dp := s0.t.dirs[r];
    WriteKeeps(c, d.t, active, q, q, 1);
    AllPointKept(s0, 0, dp, c, d, active, c.t.dirs[q], q, 0, KERNEL_SLOT);
    SameEntriesPoint(d.t, active, 0, c.t.dirs[q], d.t.dirs[q], KERNEL_SLOT);
    assert Points(d.t, active, 0, q) <==> Points(c.t, active, 0, q);
    forall mem: Memory | Holds(mem, d.t, d.home, active)
      ensures HardwareFollows(mem, f, d.t, active, q) <==> Points(d.t, active, 0, q)
    {
      HardwareFollowsIff(mem, s0, r, d, active, q);
    }
  }
}
