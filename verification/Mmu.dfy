/** The memory management unit's software side: frames, the active directory and the pages that
    the kernel maps for itself.  Addresses are page numbers; an entry is a frame number times 4096
    plus flags. */
module Mmu {
  import opened Prelude
  import F = Frames
  import opened PageTables

  const PAGE_SIZE: nat := 4096

  type Page = seq<bv8>

  function FrameOf(e: nat): nat {
    e / PAGE_SIZE
  }

  // e & ~0xFFF
  function PageAddress(e: nat): (a: nat)
    ensures a == FrameOf(e) * PAGE_SIZE
  {
    e - e % PAGE_SIZE
  }

  // frame | 0x3
  function WithFlags3(e: nat): (p: nat)
    ensures Present(p) && FrameOf(p) == FrameOf(e)
    ensures p / 4 == e / 4 && p % 4 == 3 && (e % PAGE_SIZE == 0 ==> p == e + 3)
  {
    e - e % 4 + 3
  }

  // ------------------------------------------------------------------------------------------
  // Free pages
  // ------------------------------------------------------------------------------------------

  ghost predicate Window(t: Tables, r: nat, v: nat, n: nat) {
    forall x {:trigger Mapped(t, r, x)} :: v <= x < v + n ==> !Mapped(t, r, x)
  }

  // Page v lies under a table.
  ghost predicate Served(t: Tables, r: nat, v: nat) {
    HasPt(t, r, v / 512)
  }

  ghost predicate TablesCover(t: Tables, r: nat, lo: nat, hi: nat) {
    forall v {:trigger Served(t, r, v)} :: lo <= v < hi ==> Served(t, r, v)
  }

  // A reserve: k free pages at w, and every page from the start of the scan to their end lies under
  // a table that is already present.
  ghost predicate Covered(t: Tables, r: nat, start: nat, w: nat, k: nat) {
    start <= w && w + k <= PAGES && Window(t, r, w, k) && TablesCover(t, r, start, w + k)
  }

  // A directory table takes two pages, its second half being the pointers, and a page table one.
  function Size(k: nat): nat {
    if k < 3 then 2 else 1
  }

  // Page v holds a table, or the second half of one.
  predicate TablePage(home: map<nat, Home>, v: nat) {
    v in home || (0 < v && v - 1 in home && home[v - 1].k < 3)
  }

  // A frame that allocation leaves alone: it is taken, or it is not managed by the bitmap.
  ghost predicate Settled(ws: seq<bv64>, f: nat) {
    |ws| == F.NUM_OF_FRAMES && (f < F.FRAMES ==> F.Taken(ws, f))
  }

  // The pages of tables lie in the kernel's slot, each mapped to a settled frame of its own.
  ghost predicate TablesMapped(t: Tables, home: map<nat, Home>, r: nat, ws: seq<bv64>) {
    && (forall v: nat {:trigger TablePage(home, v)} :: TablePage(home, v) ==>
          KERNEL_START <= v < PAGES && Mapped(t, r, v) && Settled(ws, FrameOf(Leaf(t, r, v))))
    && (forall v: nat, u: nat {:trigger TablePage(home, v), TablePage(home, u)} ::
          v < u && TablePage(home, v) && TablePage(home, u) ==> FrameOf(Leaf(t, r, v)) != FrameOf(Leaf(t, r, u)))
  }

  // The pages of a new table at a for level k: they hold none yet, and are mapped in order to the
  // frames from f, which no table has.
  ghost predicate NewRoom(t: Tables, home: map<nat, Home>, r: nat, ws: seq<bv64>, a: nat, k: nat, f: nat) {
    && (forall v: nat {:trigger TablePage(home, v)} :: a <= v < a + Size(k) ==> !TablePage(home, v))
    && NewPage(t, r, ws, a, f) && (k < 3 ==> NewPage(t, r, ws, a + 1, f + 1))
    && (forall v: nat {:trigger TablePage(home, v)} :: TablePage(home, v) ==>
          !(f <= FrameOf(Leaf(t, r, v)) < f + Size(k)))
  }

  ghost predicate NewPage(t: Tables, r: nat, ws: seq<bv64>, v: nat, f: nat) {
    KERNEL_START <= v < PAGES && Mapped(t, r, v) && FrameOf(Leaf(t, r, v)) == f && Settled(ws, f)
  }

  lemma RoomTaken(t: Tables, t': Tables, home: map<nat, Home>, r: nat, ws: seq<bv64>, a: nat, h: Home, f: nat)
    requires TablesMapped(t, home, r, ws) && NewRoom(t, home, r, ws, a, h.k, f)
    requires forall v {:trigger Leaf(t', r, v)} :: 0 <= v < PAGES ==> Leaf(t', r, v) == Leaf(t, r, v)
    ensures TablesMapped(t', home[a := h], r, ws)
  {
    hide Leaf, Settled, FrameOf;
    var home' := home[a := h];
    forall v: nat ensures TablePage(home', v) <==> TablePage(home, v) || a <= v < a + Size(h.k) {
      assert !TablePage(home, a);
    }
    forall v: nat | TablePage(home', v)
      ensures KERNEL_START <= v < PAGES && Mapped(t', r, v) && Settled(ws, FrameOf(Leaf(t', r, v)))
      ensures Leaf(t', r, v) == Leaf(t, r, v)
    {
      assert TablePage(home, v) || v == a || v == a + 1;
      assert Leaf(t', r, v) == Leaf(t, r, v);
    }
  }

  // Tables keep their frames while others are taken.
  lemma TablesStay(t: Tables, t': Tables, home: map<nat, Home>, r: nat, ws: seq<bv64>, ws': seq<bv64>)
    requires TablesMapped(t, home, r, ws) && FramesGrow(ws, ws')
    requires forall v: nat {:trigger Leaf(t', r, v)} :: TablePage(home, v) ==> Leaf(t', r, v) == Leaf(t, r, v)
    ensures TablesMapped(t', home, r, ws')
  {
    hide Leaf, FrameOf, TablePage;
    forall v: nat | TablePage(home, v)
      ensures KERNEL_START <= v < PAGES && Mapped(t', r, v) && Settled(ws', FrameOf(Leaf(t', r, v)))
      ensures Leaf(t', r, v) == Leaf(t, r, v)
    {
      assert Leaf(t', r, v) == Leaf(t, r, v);
      SettledStays(ws, ws', FrameOf(Leaf(t, r, v)));
    }
  }

  lemma SettledStays(ws: seq<bv64>, ws': seq<bv64>, f: nat)
    requires FramesGrow(ws, ws') && Settled(ws, f)
    ensures Settled(ws', f)
  {
  }

  // A page without an entry holds no table.
  lemma FreeHoldsNone(t: Tables, home: map<nat, Home>, r: nat, ws: seq<bv64>, v: nat)
    requires TablesMapped(t, home, r, ws) && !Mapped(t, r, v)
    ensures !TablePage(home, v)
  {
  }

  // From start on, no page is free before the first one that lies under no table: a search for a free
  // page comes to that one, and to make its table the same search is needed.
  ghost predicate Stuck(t: Tables, r: nat, start: nat) {
    exists u: nat :: StuckAt(t, r, start, u)
  }

  ghost predicate StuckAt(t: Tables, r: nat, start: nat, u: nat) {
    start <= u < PAGES && !Served(t, r, u) && forall v {:trigger Mapped(t, r, v)} :: start <= v < u ==> Mapped(t, r, v)
  }

  // And only its page table is missing there.
  ghost predicate StuckPt(t: Tables, r: nat, start: nat) {
    exists u: nat :: StuckAt(t, r, start, u) && Need(t, r, u / 512) == 1
  }

  lemma StuckPtIsStuck(t: Tables, r: nat, start: nat)
    ensures StuckPt(t, r, start) ==> Stuck(t, r, start)
  {
    hide StuckAt;
  }

  lemma NeedsOnlyPt(t: Tables, r: nat, g: nat)
    ensures Need(t, r, g) == 1 ==> !HasPt(t, r, g) && At(t, r, 2, g / 512).Some?
  {
  }

  lemma StuckPtIs(t: Tables, r: nat, start: nat, u: nat, x: nat)
    requires StuckAt(t, r, start, u) && StuckPt(t, r, start) && start <= x <= u && !HasPt(t, r, x / 512)
    ensures x == u && Need(t, r, x / 512) == 1
  {
    hide HasPt, Leaf, Need;
    var y: nat :| StuckAt(t, r, start, y) && Need(t, r, y / 512) == 1;
    if x < u { MappedIsServed(t, r, x); }
    if u < y { MappedIsServed(t, r, u); }
    if y < u { MappedIsServed(t, r, y); }
  }

  // From start on, only one page is free before the first one under no table, the last one.
  ghost predicate LastPage(t: Tables, r: nat, start: nat) {
    exists u: nat :: LastPageAt(t, r, start, u)
  }

  ghost predicate LastPageAt(t: Tables, r: nat, start: nat, u: nat) {
    && start <= u && u + 2 <= PAGES && !Served(t, r, u + 1) && Need(t, r, (u + 1) / 512) == 1
    && Served(t, r, u) && !Mapped(t, r, u) && forall v {:trigger Mapped(t, r, v)} :: start <= v < u ==> Mapped(t, r, v)
  }

  lemma MappedIsServed(t: Tables, r: nat, v: nat)
    requires Mapped(t, r, v)
    ensures Served(t, r, v)
  {
  }

  // A reserve rules both out.
  lemma CoveredIsEnough(t: Tables, r: nat, start: nat, w: nat, k: nat)
    requires Covered(t, r, start, w, k)
    ensures 0 < k ==> !Stuck(t, r, start)
    ensures 1 < k ==> !LastPage(t, r, start)
  {
    hide Covered, StuckAt, LastPageAt;
    forall u: nat | StuckAt(t, r, start, u) ensures k == 0 { CoveredNotStuck(t, r, start, w, k, u); }
    forall u: nat | LastPageAt(t, r, start, u) ensures k <= 1 { CoveredNotLast(t, r, start, w, k, u); }
  }

  lemma StuckNotLast(t: Tables, r: nat, start: nat)
    ensures !Stuck(t, r, start) || !LastPage(t, r, start)
  {
    hide HasPt, Leaf, Need;
    forall u: nat, x: nat | StuckAt(t, r, start, u) && LastPageAt(t, r, start, x) ensures false {
      if u < x { MappedIsServed(t, r, u); }
    }
  }

  lemma CoveredNotStuck(t: Tables, r: nat, start: nat, w: nat, k: nat, u: nat)
    requires Covered(t, r, start, w, k) && StuckAt(t, r, start, u)
    ensures k == 0
  {
    hide HasPt, Leaf;
    assert 0 < k ==> !Mapped(t, r, w);
  }

  lemma CoveredNotLast(t: Tables, r: nat, start: nat, w: nat, k: nat, u: nat)
    requires Covered(t, r, start, w, k) && LastPageAt(t, r, start, u)
    ensures k <= 1
  {
    hide HasPt, Leaf, Need;
    assert 0 < k ==> !Mapped(t, r, w);
  }

  // Pages that allocate_pt takes for the tables missing on the way to group g.
  function Need(t: Tables, r: nat, g: nat): nat {
    (if At(t, r, 1, g / 512 / 512).None? then 2 else 0)
    + (if At(t, r, 2, g / 512).None? then 2 else 0)
    + (if At(t, r, 3, g).None? then 1 else 0)
  }

  // Exactly the pages of "added" became mapped, each with the flags 3; every other page kept its entry.
  ghost predicate Added(t: Tables, t': Tables, r: nat, added: set<nat>) {
    && (forall v :: v in added ==> v < PAGES)
    && forall v {:trigger Leaf(t', r, v)} :: 0 <= v < PAGES ==>
         if v in added then Gained(t, t', r, v) else Leaf(t', r, v) == Leaf(t, r, v)
  }

  // Page v became mapped: present, writable, and no other flag.
  ghost predicate Gained(t: Tables, t': Tables, r: nat, v: nat) {
    !Mapped(t, r, v) && Mapped(t', r, v) && Leaf(t', r, v) % PAGE_SIZE == 3
  }

  // The entry that leads to each new table is the frame of the table's page, with the flags 3; the
  // entries of all other tables are as before.
  ghost predicate Entered(t: Tables, t': Tables, r: nat) {
    forall k: nat, h: nat {:trigger EntryAt(t', r, k, h)} ::
      0 < k <= 3 && h < Pow512(k) && At(t', r, k, h).Some? ==> EnteredAt(t, t', r, k, h)
  }

  ghost predicate EnteredAt(t: Tables, t': Tables, r: nat, k: nat, h: nat)
    requires 0 < k && At(t', r, k, h).Some?
  {
    if At(t, r, k, h).Some? then EntryAt(t', r, k, h) == EntryAt(t, r, k, h)
    else
      var q := At(t', r, k, h).value;
      q < PAGES && Mapped(t', r, q) && EntryAt(t', r, k, h) == FrameOf(Leaf(t', r, q)) * PAGE_SIZE + 3
  }

  ghost predicate HomeGrows(h: map<nat, Home>, h': map<nat, Home>) {
    forall p :: p in h ==> p in h' && h'[p] == h[p]
  }

  ghost predicate FramesGrow(ws: seq<bv64>, ws': seq<bv64>) {
    && |ws| == F.NUM_OF_FRAMES == |ws'|
    && forall f {:trigger F.Taken(ws', f)} :: 0 <= f < F.FRAMES && F.Taken(ws, f) ==> F.Taken(ws', f)
  }

  // Exactly k frames were handed out, each the lowest one that was free.
  ghost predicate Handed(ws: seq<bv64>, ws': seq<bv64>, k: nat) {
    && |ws| == F.NUM_OF_FRAMES == |ws'| && F.Held(ws') == F.GrabMany(F.Held(ws), k)
    && Free(ws) == Free(ws') + k
  }

  // The number of free frames
  function Free(ws: seq<bv64>): nat {
    if |ws| == F.NUM_OF_FRAMES then F.FreeBelow(ws, F.FRAMES) else 0
  }

  lemma HandedNone(ws: seq<bv64>)
    requires |ws| == F.NUM_OF_FRAMES
    ensures Handed(ws, ws, 0)
  {
  }

  lemma HandedOne(ws: seq<bv64>, ws': seq<bv64>, f: nat)
    requires |ws| == F.NUM_OF_FRAMES == |ws'| && F.IsLowestRun(ws, f, 1) && F.Marked(ws, ws', f, 1)
    ensures Handed(ws, ws', 1)
  {
    hide F.Held, F.Grab;
    F.RunIsGrabbed(ws, ws', f, 1);
    F.OneFewer(ws, ws', f);
    assert F.GrabMany(F.Held(ws), 0) == F.Held(ws);
  }

  lemma HandedLeaves(ws: seq<bv64>, ws': seq<bv64>, k: nat)
    requires Handed(ws, ws', k)
    ensures Free(ws) == Free(ws') + k
  {
  }

  lemma NoneFree(ws: seq<bv64>)
    requires |ws| == F.NUM_OF_FRAMES && forall f: nat :: !F.FreeRun(ws, f, 1)
    ensures Free(ws) == 0
  {
    F.NoneBelow(ws, F.FRAMES);
  }

  // A refused request, told from the bitmap before it.
  lemma Refused(ws: seq<bv64>, n: nat)
    requires |ws| == F.NUM_OF_FRAMES && forall f: nat :: !F.FreeRun(ws, f, n)
    ensures !F.Gets(F.Held(ws), n) && (n == 1 ==> Free(ws) == 0)
  {
    hide F.FreeRun, F.Held, F.Gets;
    F.GetsIfRun(ws, n);
    if n == 1 { NoneFree(ws); }
  }

  lemma HandedTwice(a: seq<bv64>, b: seq<bv64>, c: seq<bv64>, k: nat, l: nat)
    requires Handed(a, b, k) && Handed(b, c, l)
    ensures Handed(a, c, k + l)
  {
    hide F.Held, F.Grab, Free;
    F.GrabAgain(F.Held(a), k, l);
  }

  lemma FreeFalls(ws: seq<bv64>, ws': seq<bv64>)
    requires FramesGrow(ws, ws')
    ensures Free(ws') <= Free(ws)
  {
    F.FallsBelow(ws, ws', F.FRAMES);
  }

  lemma RunTaken(ws: seq<bv64>, ws': seq<bv64>, f: nat, n: nat)
    requires |ws| == F.NUM_OF_FRAMES == |ws'| && 0 < n && F.IsLowestRun(ws, f, n) && F.Marked(ws, ws', f, n)
    ensures Free(ws') < Free(ws)
  {
    hide F.Taken;
    assert F.Taken(ws', f) && !F.Taken(ws, f);
    F.FallsBelow(ws, ws', F.FRAMES);
  }

  // No two neighbouring frames are free.
  ghost predicate OutOfFrames(ws: seq<bv64>) {
    |ws| == F.NUM_OF_FRAMES && forall f: nat :: !F.FreeRun(ws, f, 2)
  }

  // Tables found before are still found, and only the groups in "groups" gained one.
  ghost predicate WalkGrows(t: Tables, t': Tables, r: nat, g: nat) {
    && (forall k: nat, h: nat {:trigger At(t', r, k, h)} :: k <= 3 && h < Pow512(k) && At(t, r, k, h).Some? ==>
          At(t', r, k, h) == At(t, r, k, h))
    && (forall h: nat {:trigger At(t', r, 3, h)} :: h < Pow512(3) && h != g ==> At(t', r, 3, h) == At(t, r, 3, h))
    && Entered(t, t', r)
  }

  class Mmu {
    const frames: F.FrameMap
    var t: Tables
    var active: nat
    var heapEnd: nat
    var ram: map<nat, Page>
    ghost var home: map<nat, Home>
    ghost var tag: map<nat, nat>

    ghost function Words(): seq<bv64>
      reads frames, frames.words
    {
      frames.words[..]
    }

    ghost predicate Valid()
      reads this, frames, frames.words
    {
      && frames.Valid()
      && StoreOk(t, home) && Directory(active)
      && KERNEL_START <= heapEnd < PAGES
    }

    // What a directory must be to become active.
    ghost predicate Directory(r: nat)
      reads this, frames, frames.words
    {
      TreeOk(t, home, r) && At(t, r, 1, KERNEL_SLOT).Some? && TablesMapped(t, home, r, Words())
    }

    // The state that mmu_init leaves behind.
    constructor (frames: F.FrameMap, t: Tables, active: nat, heapEnd: nat, ram: map<nat, Page>,
                 ghost home: map<nat, Home>)
      requires frames.Valid() && StoreOk(t, home) && TreeOk(t, home, active)
      requires At(t, active, 1, KERNEL_SLOT).Some? && KERNEL_START <= heapEnd < PAGES
      requires TablesMapped(t, home, active, frames.words[..])
      ensures Valid() && this.frames == frames && this.t == t && this.active == active
      ensures this.heapEnd == heapEnd && this.ram == ram && this.home == home
    {
      this.frames := frames;
      this.t := t;
      this.active := active;
      this.heapEnd := heapEnd;
      this.ram := ram;
      this.home := home;
      this.tag := map[];
    }

    // mmu_set_directory: another directory becomes active, and the old one can become so again.
    method SetDirectory(r: nat)
      requires Valid() && Directory(r)
      modifies this`active
      ensures Valid() && active == r && Directory(old(active))
    {
      hide TablesMapped, TreeOk, StoreOk, At;
      active := r;
    }

    // mmu_virtual_to_physical, on an address split into page and offset.
    method VirtualToPhysical(v: nat, offset: nat) returns (r: Option<nat>)
      requires Valid() && v < PAGES && offset < PAGE_SIZE
      ensures r == if Mapped(t, active, v) then Some(PageAddress(Leaf(t, active, v)) + offset) else None
    {
      hide TreeOk, Present, Pow512, PageAddress, At, Leaf;
      LeafStep(t, home, active, v);
      Levels(v);
      WalkStep(t, home, active, 1, v / 512 / 512 / 512);
      WalkStep(t, home, active, 2, v / 512 / 512);
      WalkStep(t, home, active, 3, v / 512);
      var i1, i2, i3, i4 := v / 512 / 512 / 512 % 512, v / 512 / 512 % 512, v / 512 % 512, v % 512;
      var pml4t := t.dirs[active];
      if !Present(pml4t.physical[i1]) {
        return None;
      }
      var pdpt := t.dirs[pml4t.next[i1]];
      if !Present(pdpt.physical[i2]) {
        return None;
      }
      var pdt := t.dirs[pdpt.next[i2]];
      if !Present(pdt.physical[i3]) {
        return None;
      }
      var p := t.pts[pdt.next[i3]][i4];
      if !Present(p) {
        return None;
      }
      return Some(PageAddress(p) + offset);
    }

    // A store through the pointer that get_page returns.
    method WriteLeaf(v: nat, e: nat)
      requires Valid() && v < PAGES && HasPt(t, active, v / 512)
      requires !TablePage(home, v)
      modifies this`t
      ensures Valid() && OnePage(old(t), t, active, v, e)
      ensures KERNEL_START <= v ==> UserSame(old(t), home, t)
    {
      LevelSizes();
      assert TableOk(t, home, active, 3, v / 512);
      ghost var t0 := t;
      var p := At(t, active, 3, v / 512).value;
      SetLeafKeepsTree(t, home, active, p, v % 512, e);
      SetLeafIsOnePage(t, home, active, v, e);
      if KERNEL_START <= v { KernelTablesAreShared(t, home, active, v); }
      LeafLeavesTables(t, SetLeaf(t, p, v % 512, e), home, active, Words(), v, e);
      t := SetLeaf(t, p, v % 512, e);
    }

    // Enter a zeroed table, mapped at page a, at level k for prefix g.
    method InstallTable(k: nat, g: nat, a: nat, f: nat)
      requires Valid() && 0 < k <= 3 && g < Pow512(k)
      requires At(t, active, k, g).None? && At(t, active, k - 1, g / 512).Some?
      requires NewRoom(t, home, active, Words(), a, k, f)
      modifies this`t, this`home
      ensures Valid()
      ensures OneTable(old(t), t, active, k, g, a) && OneEntry(old(t), t, active, k, g, f * PAGE_SIZE + 3)
      ensures var p := old(At(t, active, k - 1, g / 512)).value;
              && p in t.dirs && g % 512 < |t.dirs[p].physical|
              && t.dirs[p].physical[g % 512] == f * PAGE_SIZE + 3
      ensures a !in old(home) && home == old(home)[a := Home(Owner(active, k, g), k, g)]
      ensures !User(k, g) ==> UserSame(old(t), old(home), t)
    {
      hide TreeOk, Present, StoreOk, OneTable, OneEntry, Install, Leaf, UserSame, TablesMapped, At, User, NewRoom;
      RoomIsNew(t, home, active, Words(), a, k, f);
      InstallStores(t, home, active, k, g, a, WithFlags3(f * PAGE_SIZE));
      var p := At(t, active, k - 1, g / 512).value;
      var e := WithFlags3(f * PAGE_SIZE);
      ghost var t0 := t;
      InstallKeepsTree(t, home, active, k, g, a, e);
      InstallIsOneTable(t, home, active, k, g, a, e);
      InstallIsOneEntry(t, home, active, k, g, a, e);
      if !User(k, g) { InstallIsShared(t, home, active, k, g, a, e); }
      NewTableMapped(t, Install(t, p, k, g, a, e), home, active, Words(), k, g, a, Home(Owner(active, k, g), k, g), f);
      t := Install(t, p, k, g, a, e);
      home := home[a := Home(Owner(active, k, g), k, g)];
    }

    // mmu_find_free_virtual_region, for n pages.  Every table that the scan meets missing is made, from
    // the first free pages; the region returned may contain them.  Any page needs at most m pages for
    // its tables, w starts a reserve of as many, and the n pages from w on are free.
    method FindFreeRegion(n: nat, ghost w: nat, ghost m: nat)
      returns (ok: bool, r: nat, ghost added: set<nat>, ghost p: nat, ghost last: nat)
      requires Valid() && (Ready(t, active, heapEnd, w, m, n) || (0 < n && Stuck(t, active, heapEnd)))
      modifies this`t, this`home, frames.words
      ensures !ok ==> OutOfFrames(Words())
      ensures ok ==> Valid() && r <= w && FirstWindow(old(t), active, heapEnd, r, n)
      ensures ok ==> TablesCover(t, active, heapEnd, r + n) && UserSame(old(t), old(home), t)
      ensures ok ==> GrownIn(old(View(t, home, Words())), View(t, home, Words()), active, added, r / 512, Past(r, n))
      ensures ok ==> var j := MissingIn(old(t), active, r / 512, Past(r, n));
                && Spent(old(t), active, heapEnd, w, m, j, last, added, p)
                && (j == 0 ==> View(t, home, Words()) == old(View(t, home, Words())))
      ensures ok && m <= 1 ==> Handed(old(Words()), Words(), |added|)
      ensures 0 < n && old(Stuck(t, active, heapEnd)) ==> !ok
      ensures 0 < n && old(StuckPt(t, active, heapEnd)) ==> Free(Words()) == 0
      ensures m == 0 && (n == 0 || !old(Stuck(t, active, heapEnd))) ==> ok
      ensures !ok && m == 1 && !old(Stuck(t, active, heapEnd)) ==>
                && FirstWindow(old(t), active, heapEnd, r, n)
                && old(Free(Words())) < MissingIn(old(t), active, r / 512, Past(r, n))
      decreases Free(Words()), 6
    {
      hide TablesMapped, TreeOk, StoreOk, HasPt, Mapped, Need, OutOfFrames, UserSame, FramesGrow, Added, WalkGrows,
           HomeGrows, Ready, Scan, Spent, TablesCover, Window, GrownIn, FirstWindow, TookFirst, Covered, MissingIn,
           Handed, At, Leaf, Within, PageAfter, Past, NoneBefore, Grown, TablePage, WithFlags3, PageAddress,
           Free, Stuck, StuckAt, StuckPt, Going;
      StuckPtIsStuck(t, active, heapEnd);
      ghost var v0, j, stuck := View(t, home, Words()), 0, 0 < n && Stuck(t, active, heapEnd);
      ok, r := true, heapEnd;
      ghost var end := ScanBound(t, active, heapEnd, w, m, n);
      while true
        invariant Valid() && heapEnd <= r <= end && View(t, home, Words()) == v0
        invariant NoneBefore(t, active, heapEnd, r, n)
        decreases end - r
      {
        var isFree, i := true, 0;
        added, p, last, j := {}, heapEnd, 0, 0;
        GoingStart(stuck, end, v0, active, heapEnd, w, m, n, r);
        GrownNot(t, home, Words(), active, 0);
        while i < n
          invariant Valid() && i <= n && isFree && UserSame(v0.t, v0.home, t)
          invariant Going(stuck, end, v0, View(t, home, Words()), active, heapEnd, w, m, n, r, i, j, last, added, p)
        {
          ghost var v1, missing := View(t, home, Words()), !HasPt(t, active, (r + i) / 512);
          GoingPage(stuck, end, v0, v1, active, heapEnd, w, m, n, r, i, j, last, added, p);
          var free, physical; ghost var more, entry;
          ok, free, physical, more, entry := Check(r + i, false, false, 0, if missing then w + m * j else heapEnd);
          if !ok {
            GoingFails(stuck, end, v0, v1, active, heapEnd, w, m, n, r, i, j, last, added, p);
            return;
          }
          if !free {
            GoingBreaks(stuck, end, v0, v1, active, heapEnd, w, m, n, r, i, j, last, added, p);
            isFree := false;
            break;
          }
          UserSameTwice(v0.t, v0.home, v1.t, v1.home, t);
          GoingOn(stuck, end, v0, v1, View(t, home, Words()), active, heapEnd, w, m, n, r, i, j, last, added, p, more);
          if missing {
            p := if m <= 1 && more != {} then PageAfter(more) else p;
            added, j, last := added + more, j + 1, (r + i) / 512;
          }
          i := i + 1;
        }
        if isFree {
          GoingDone(stuck, end, v0, View(t, home, Words()), active, heapEnd, w, m, n, r, j, last, added, p);
          return;
        }
        PassOne(t, active, heapEnd, r, n);
        r := r + 1;
      }
    }

    // check_virtual_region_is_free.  "entry" is the frame entered for the page, when one is.
    method Check(v: nat, allocate: bool, useFrame: bool, frame: nat, ghost w: nat)
      returns (ok: bool, free: bool, physical: nat, ghost added: set<nat>, ghost entry: nat)
      requires Valid() && v < PAGES
      requires || Covered(t, active, heapEnd, w, Need(t, active, v / 512))
               || (Stuck(t, active, heapEnd) && !HasPt(t, active, v / 512))
      modifies this`t, this`home, frames.words
      ensures !ok ==> OutOfFrames(Words())
      ensures ok ==> Valid() && free == !Mapped(old(t), active, v) && HasPt(t, active, v / 512)
      ensures ok ==> |added| == old(Need(t, active, v / 512)) && v !in added
      ensures ok ==> Within(added, heapEnd, w + old(Need(t, active, v / 512)))
      ensures ok && allocate && free ==>
                && Leaf(t, active, v) == WithFlags3(entry) && physical == PageAddress(Leaf(t, active, v))
                && GrownBut(old(t), old(home), old(Words()), t, home, Words(), active, added, v, v / 512)
                && (entry % PAGE_SIZE == 0 ==>
                      Grown(old(t), old(home), old(Words()), t, home, Words(), active, added + {v}, v / 512))
                && (if useFrame then entry == frame else Fresh(old(Words()), Words(), entry))
      ensures ok && allocate && free && old(HasPt(t, active, v / 512)) ==>
                OnePage(old(t), t, active, v, WithFlags3(entry))
      ensures ok && !(allocate && free) ==>
                Grown(old(t), old(home), old(Words()), t, home, Words(), active, added, v / 512)
      ensures ok && !(allocate && free) && old(HasPt(t, active, v / 512)) ==>
                t == old(t) && home == old(home) && Words() == old(Words())
      ensures ok && old(HasPt(t, active, v / 512)) ==> added == {} && t.dirs == old(t).dirs && home == old(home)
      ensures ok && allocate && free && useFrame && old(HasPt(t, active, v / 512)) ==> Words() == old(Words())
      ensures ok && old(Need(t, active, v / 512)) <= 1 ==> TookFirst(old(t), active, heapEnd, added)
      ensures ok && old(Need(t, active, v / 512)) <= 1 ==>
                Handed(old(Words()), Words(), |added| + if allocate && free && !useFrame then 1 else 0)
      ensures ok && KERNEL_START <= v ==> UserSame(old(t), old(home), t)
      ensures old(HasPt(t, active, v / 512)) && (!allocate || useFrame || old(Mapped(t, active, v))) ==> ok
      ensures old(Stuck(t, active, heapEnd)) && !old(HasPt(t, active, v / 512)) ==> !ok
      ensures old(StuckPt(t, active, heapEnd)) && old(Need(t, active, v / 512)) == 1 ==> Free(Words()) == 0
      ensures !ok && old(Need(t, active, v / 512)) <= 1 && !old(Stuck(t, active, heapEnd)) && !allocate ==>
                old(Free(Words())) == 0
      ensures !ok && old(HasPt(t, active, v / 512)) ==> old(Free(Words())) == 0
      decreases Free(Words()), 5
    {
      hide TablesMapped, TreeOk, StoreOk, Grown, Need, Covered, OutOfFrames, UserSame, FramesGrow, Added, WalkGrows,
           HomeGrows, Within, TookFirst, Handed, TablePage, Fresh, F.IsLowestRun, F.Marked, Pow512, User,
           Free, StuckPt, Stuck, At, WithFlags3, PageAddress, Leaf;
      StuckPtIsStuck(t, active, heapEnd);
      NeedsOnlyPt(t, active, v / 512);
      ghost var t0, home0, ws0 := t, home, Words();
      Levels(v);
      UserBelowKernel(v);
      physical, entry := 0, 0;
      ok, free, added := AllocatePt(v / 512, w);
      if !ok {
        return;
      }
      ghost var t1, home1, ws1 := t, home, Words();
      CheckFacts(t0, home0, ws0, t1, home1, ws1, active, heapEnd, w, added, v);
      LeafStep(t, home, active, v);
      free := !Present(t.pts[At(t, active, 3, v / 512).value][v % 512]);
      if free {
        if !allocate {
          return;
        }
        FreeHoldsNone(t, home, active, Words(), v);
        var e := frame;
        if !useFrame {
          var f := frames.GetFrame(true, 1);
          if f.None? {
            NoRunNoPair(Words(), 1);
            Refused(Words(), 1);
            ok := false;
            return;
          }
          e := f.value * PAGE_SIZE;
          RunGrows(ws1, Words(), f.value, 1);
          TablesStay(t, t, home, active, ws1, Words());
          FreshEarlier(ws0, ws1, Words(), e);
          HandedOne(ws1, Words(), f.value);
          if Need(t0, active, v / 512) <= 1 { HandedTwice(ws0, ws1, Words(), |added|, 1); }
        }
        entry := e;
        WriteLeaf(v, WithFlags3(e));
        GrownByPage(t0, home0, ws0, t1, home1, ws1, t, Words(), active, added, v, WithFlags3(e));
        if KERNEL_START <= v { UserSameTwice(t0, home0, t1, home1, t); }
        physical := PageAddress(WithFlags3(e));
        return;
      }
      physical := PageAddress(t.pts[At(t, active, 3, v / 512).value][v % 512]);
    }

    // allocate_pt, for group g: make its PT, and the PDPT and PDT on the way if they are missing.
    method AllocatePt(g: nat, ghost w: nat) returns (ok: bool, created: bool, ghost added: set<nat>)
      requires Valid() && g < Pow512(3)
      requires Covered(t, active, heapEnd, w, Need(t, active, g)) || (Stuck(t, active, heapEnd) && !HasPt(t, active, g))
      modifies this`t, this`home, frames.words
      ensures !ok ==> OutOfFrames(Words())
      ensures old(Stuck(t, active, heapEnd)) && !old(HasPt(t, active, g)) ==> !ok
      ensures old(StuckPt(t, active, heapEnd)) && old(Need(t, active, g)) == 1 ==> Free(Words()) == 0
      ensures ok ==> Valid() && HasPt(t, active, g) && created == !old(HasPt(t, active, g))
      ensures ok ==> |added| == old(Need(t, active, g)) && Within(added, heapEnd, w + old(Need(t, active, g)))
      ensures ok ==> Grown(old(t), old(home), old(Words()), t, home, Words(), active, added, g)
      ensures ok && !created ==> t == old(t) && home == old(home) && Words() == old(Words())
      ensures ok && old(Need(t, active, g)) <= 1 ==> TookFirst(old(t), active, heapEnd, added)
      ensures ok && old(Need(t, active, g)) <= 1 ==> Handed(old(Words()), Words(), |added|)
      ensures old(HasPt(t, active, g)) ==> ok
      ensures !ok && old(Need(t, active, g)) <= 1 && !old(Stuck(t, active, heapEnd)) ==> old(Free(Words())) == 0
      ensures ok && !User(3, g) ==> UserSame(old(t), old(home), t)
      decreases Free(Words()), 4
    {
      hide TablesMapped, TreeOk, StoreOk, Grown, Covered, OutOfFrames, UserSame, FramesGrow, Added, WalkGrows,
           HomeGrows, Within, At, Need, User, OnlyTable, TookFirst, Handed, Free, Stuck, StuckPt;
      StuckPtIsStuck(t, active, heapEnd);
      NeedsOnlyPt(t, active, g);
      TookNothing(t, active, heapEnd);
      HandedNone(Words());
      ghost var t0, home0, ws0 := t, home, Words();
      ghost var c := Missing(t, active, 1, g / 512 / 512) + Missing(t, active, 2, g / 512);
      ghost var c3 := Missing(t, active, 3, g);
      created := false;
      NeedIsMissing(t, home, active, heapEnd, w, g);
      ok, added := AllocateDirs(g, w);
      if !ok || At(t, active, 3, g).Some? {
        return;
      }
      FreeFallsGrown(t0, home0, ws0, t, home, Words(), active, added, g);
      ghost var t2, home2, ws2, a2, a3 := t, home, Words(), added, {};
      created := true;
      ok, a3 := EnsureTable(3, g, g, w + c);
      if !ok { return; }
      GrownTwice(t0, home0, ws0, t2, home2, ws2, t, home, Words(), active, a2, a3, g);
      added := a2 + a3;
      WithinTwice(a2, a3, heapEnd, w, c, c3);
      if !User(3, g) { UserSameTwice(t0, home0, t2, home2, t); }
    }

    // allocate_pt's first two steps: the PDPT and the PDT.
    method AllocateDirs(g: nat, ghost w: nat) returns (ok: bool, ghost added: set<nat>)
      requires Valid() && g < Pow512(3)
      requires Covered(t, active, heapEnd, w, Need(t, active, g)) || Stuck(t, active, heapEnd)
      modifies this`t, this`home, frames.words
      ensures !ok ==> OutOfFrames(Words())
      ensures old(Stuck(t, active, heapEnd)) && !old(At(t, active, 2, g / 512).Some?) ==> !ok
      ensures ok ==> Valid() && At(t, active, 2, g / 512).Some? && At(t, active, 3, g) == old(At(t, active, 3, g))
      ensures ok ==> |added| == old(Missing(t, active, 1, g / 512 / 512) + Missing(t, active, 2, g / 512))
      ensures ok ==> Within(added, heapEnd, w + |added|)
      ensures ok && !old(Stuck(t, active, heapEnd)) ==>
                Covered(t, active, heapEnd, w + |added|, Missing(t, active, 3, g))
      ensures ok ==> Grown(old(t), old(home), old(Words()), t, home, Words(), active, added, g)
      ensures old(At(t, active, 2, g / 512)).Some? ==> ok && t == old(t) && home == old(home) && Words() == old(Words())
      ensures ok && !User(3, g) ==> UserSame(old(t), old(home), t)
      decreases Free(Words()), 3
    {
      hide TablesMapped, TreeOk, StoreOk, Grown, Covered, OutOfFrames, UserSame, FramesGrow, Added, WalkGrows,
           HomeGrows, Within, At, Need, User, OnlyTable, Stuck, Free;
      ghost var t0, home0, ws0, a1, a2 := t, home, Words(), {}, {};
      ghost var c1, c2 := Missing(t, active, 1, g / 512 / 512), Missing(t, active, 2, g / 512);
      ghost var c3 := Missing(t, active, 3, g);
      ghost var room := Covered(t, active, heapEnd, w, Need(t, active, g));
      NeedIsMissing(t, home, active, heapEnd, w, g);
      ok, a1 := EnsureTable(1, g / 512 / 512, g, w);
      added := a1;
      if !ok { return; }
      ghost var t1, home1, ws1 := t, home, Words();
      OtherTables(t0, t1, active, 1, g / 512 / 512, 2, g / 512);
      OtherTables(t0, t1, active, 1, g / 512 / 512, 3, g);
      FreeFallsGrown(t0, home0, ws0, t1, home1, ws1, active, a1, g);
      if room {
        StageDone(t0, home0, ws0, t1, home1, ws1, active, a1, g, heapEnd, w, c1, c2 + c3);
        CoveredLess(t1, active, heapEnd, w + c1, c2, c3);
      }
      ok, a2 := EnsureTable(2, g / 512, g, w + c1);
      if !ok { return; }
      ghost var t2, home2, ws2 := t, home, Words();
      OtherTables(t1, t2, active, 2, g / 512, 3, g);
      if room { StageDone(t1, home1, ws1, t2, home2, ws2, active, a2, g, heapEnd, w + c1, c2, c3); }
      GrownTwice(t0, home0, ws0, t1, home1, ws1, t2, home2, ws2, active, a1, a2, g);
      WithinTwice(a1, a2, heapEnd, w, c1, c2);
      added := a1 + a2;
      if !User(3, g) { UserSameTwice(t0, home0, t1, home1, t2); }
    }

    // One step of allocate_pt: if the table at level k for the prefix of g is missing, make it.
    method EnsureTable(k: nat, h: nat, ghost g: nat, ghost w: nat) returns (ok: bool, ghost added: set<nat>)
      requires Valid() && 0 < k <= 3 && h < Pow512(k) && At(t, active, k - 1, h / 512).Some?
      requires k == 3 ==> h == g
      requires Covered(t, active, heapEnd, w, Missing(t, active, k, h)) || Stuck(t, active, heapEnd)
      modifies this`t, this`home, frames.words
      ensures !ok ==> OutOfFrames(Words())
      ensures ok ==> Valid() && At(t, active, k, h).Some?
      ensures ok ==> |added| == old(Missing(t, active, k, h))
      ensures ok ==> Within(added, heapEnd, w + old(Missing(t, active, k, h)))
      ensures ok ==> Grown(old(t), old(home), old(Words()), t, home, Words(), active, added, g)
      ensures ok ==> OnlyTable(old(t), t, active, k, h)
      ensures old(At(t, active, k, h)).Some? ==> ok && t == old(t) && home == old(home) && Words() == old(Words())
      ensures old(Stuck(t, active, heapEnd)) && old(At(t, active, k, h)).None? ==> !ok
      ensures k == 3 && old(StuckPt(t, active, heapEnd)) && old(At(t, active, k, h)).None? ==> Free(Words()) == 0
      ensures !ok && k == 3 && !old(Stuck(t, active, heapEnd)) ==> old(Free(Words())) == 0
      ensures ok && k == 3 ==> TookFirst(old(t), active, heapEnd, added) && Handed(old(Words()), Words(), |added|)
      ensures ok && !User(k, h) ==> UserSame(old(t), old(home), t)
      decreases Free(Words()), 2
    {
      hide TablesMapped, TreeOk, StoreOk, Grown, OutOfFrames, UserSame, FramesGrow, Added, WalkGrows, HomeGrows,
           Within, OnlyTable, User, RangeMapped, Covered, FirstWindow, F.IsLowestRun, F.Marked, OneTable, Interval,
           TookFirst, NewRoom, Handed, Free, F.Held, F.Gets, Stuck, StuckPt, LastPage, OneEntry, Leaf, FrameOf;
      StuckPtIsStuck(t, active, heapEnd);
      ghost var t0, home0, ws0 := t, home, Words();
      TookNothing(t, active, heapEnd);
      HandedNone(Words());
      added := {};
      ok := true;
      if Covered(t, active, heapEnd, w, Size(k)) { CoveredIsEnough(t, active, heapEnd, w, Size(k)); }
      StuckNotLast(t, active, heapEnd);
      if At(t, active, k, h).Some? {
        NothingGrown(t, home, Words(), active, g, k, h, heapEnd, w);
        return;
      }
      var a, f;
      ok, a, f := SafeAllocation(Size(k), w);
      if !ok { return; }
      ghost var t1, ws1 := t, Words();
      added := Interval(a, Size(k));
      if k == 3 {
        TookOne(t0, active, heapEnd, a);
        HandedOne(ws0, ws1, f);
      }
      CoveredRange(t0, active, heapEnd, w, a, Size(k));
      RangeIsAdded(t0, t1, active, a, Size(k), f * PAGE_SIZE);
      NewPagesFacts(t0, home0, ws0, t1, ws1, active, heapEnd, w, a, f, Size(k));
      RoomIsMade(t0, home0, ws0, t1, ws1, active, heapEnd, w, a, f, k);
      RoomIsNew(t, home, active, Words(), a, k, f);
      InstallTable(k, h, a, f);
      TableGrown(t0, home0, ws0, t1, t, home, ws1, active, added, k, h, g, a);
      if !User(k, h) { UserSameTwice(t0, home0, t1, home0, t); }
    }

    // safe_allocation of n pages: contiguous frames, mapped at the first free region, zeroed.
    method SafeAllocation(n: nat, ghost w: nat) returns (ok: bool, a: nat, f: nat)
      requires Valid() && 1 <= n <= 2
      requires || Covered(t, active, heapEnd, w, n)
               || Stuck(t, active, heapEnd) || (n == 2 && LastPage(t, active, heapEnd))
      modifies this`t, this`home, frames.words
      ensures !ok ==> OutOfFrames(Words()) || (n == 2 && old(LastPage(t, active, heapEnd)))
      ensures ok <==>
                && F.Gets(F.Held(old(Words())), n)
                && !old(Stuck(t, active, heapEnd)) && !(n == 2 && old(LastPage(t, active, heapEnd)))
      ensures !ok && n == 1 && !old(Stuck(t, active, heapEnd)) ==> old(Free(Words())) == 0
      ensures n == 1 && old(StuckPt(t, active, heapEnd)) ==> Free(Words()) == 0
      ensures ok ==> Valid() && home == old(home) && t.dirs == old(t).dirs && UserSame(old(t), home, t)
      ensures ok ==> FirstWindow(old(t), active, heapEnd, a, n) && a <= w
      ensures ok ==> F.IsLowestRun(old(Words()), f, n) && F.Marked(old(Words()), Words(), f, n)
      ensures ok ==> RangeMapped(old(t), t, active, a, n, f * PAGE_SIZE)
      ensures ok ==> forall v :: a <= v < a + n ==> Leaf(t, active, v) == (f + (v - a)) * PAGE_SIZE + 3
      decreases Free(Words()), 1
    {
      hide TablesMapped, TreeOk, StoreOk, UserSame, FramesGrow, WalkGrows, HomeGrows, HasPt, Added, FirstWindow,
           Window, Covered, TablesCover, Leaf, Need, OutOfFrames, F.IsLowestRun, F.Marked, Within, Mapped, Ready,
           GrownIn, Free, F.Held, F.Gets, Stuck, StuckPt, LastPage, Spent, Served, LastPageAt, At, MissingIn,
           Past, TablePage, Fresh, Handed, PageAddress, RangeMapped;
      ok, a, f := false, 0, 0;
      StuckPtIsStuck(t, active, heapEnd);
      var r := frames.GetFrame(true, n);
      if r.None? {
        NoRunNoPair(Words(), n);
        Refused(Words(), n);
        return;
      }
      f := r.value;
      RunGrows(old(Words()), Words(), f, n);
      RunTaken(old(Words()), Words(), f, n);
      F.RunIsGrabbed(old(Words()), Words(), f, n);
      TablesStay(t, t, home, active, old(Words()), Words());
      ghost var added, p, last;
      ghost var v0, room := View(t, home, Words()), Covered(t, active, heapEnd, w, n);
      ghost var u := SearchPlace(t, active, heapEnd, w, n);
      ok, a, added, p, last := FindFreeRegion(n, u, if room then 0 else 1);
      if !ok {
        return;
      }
      if room {
        WindowStarts(t, active, heapEnd, a, n);
      } else {
        LastPageTaken(v0, View(t, home, Words()), active, heapEnd, u, a, last, added, p);
      }
      FreeFalls(v0.ws, Words()) by { GrownFrames(v0, View(t, home, Words()), active, added, a / 512, Past(a, n)); }
      ok := MapRange(a, f * PAGE_SIZE, n, w);
    }

    // The mapping loop of safe_allocation and mmu_map_frames: e is the first frame's address.
    method MapRange(a: nat, e: nat, n: nat, ghost w: nat) returns (ok: bool)
      requires Valid()
      requires || (Covered(t, active, heapEnd, w, n) && FirstWindow(t, active, heapEnd, a, n) && a <= w)
               || (0 < n && KERNEL_START <= a < PAGES && Served(t, active, a) && Mapped(t, active, a))
      modifies this`t, this`home, frames.words
      ensures ok <==> n == 0 || !old(Mapped(t, active, a))
      ensures ok ==> Valid() && home == old(home) && t.dirs == old(t).dirs && UserSame(old(t), home, t)
      ensures ok ==> Words() == old(Words()) && RangeMapped(old(t), t, active, a, n, e)
      ensures ok && e % PAGE_SIZE == 0 ==> forall v :: a <= v < a + n ==>
                Leaf(t, active, v) == e + (v - a) * PAGE_SIZE + 3
      decreases Free(Words()), 8
    {
      hide TablesMapped, TreeOk, StoreOk, UserSame, Added, FirstWindow, Covered, Leaf, OutOfFrames, Mapped,
           RangeMapped, Served, Free;
      ghost var t0, home0, ws0 := t, home, Words();
      ghost var room := Covered(t, active, heapEnd, w, n) && FirstWindow(t, active, heapEnd, a, n) && a <= w;
      NothingMapped(t, home, active, a, e);
      if room { WindowIsFree(t, active, heapEnd, w, a, n); }
      ok := true;
      var i := 0;
      while i < n
        invariant ok && i <= n && Valid() && home == home0 && t.dirs == t0.dirs && Words() == ws0
        invariant RangeMapped(t0, t, active, a, i, e) && UserSame(t0, home0, t)
        invariant !room ==> i == 0 && t == t0
      {
        if room { NextPage(t0, t, active, heapEnd, w, a, i, n, e); }
        ghost var t1, entry := t, 0;
        ok, entry := MapPage(a + i, true, e + i * PAGE_SIZE);
        if !ok {
          return;
        }
        PageMapped(t0, home0, t1, t, active, a, i, e);
        i := i + 1;
      }
      if e % PAGE_SIZE == 0 { RangeHas(t0, t, active, a, n, e); }
    }

    // An allocating check_virtual_region_is_free of a kernel page under a present table; its answer is
    // asserted to be true, and is false for a page that is mapped already.
    method MapPage(v: nat, useFrame: bool, frame: nat) returns (ok: bool, ghost entry: nat)
      requires Valid() && KERNEL_START <= v < PAGES && Served(t, active, v)
      modifies this`t, this`home, frames.words
      ensures !ok ==> OutOfFrames(Words()) || old(Mapped(t, active, v))
      ensures ok ==> !old(Mapped(t, active, v))
      ensures ok ==> Valid() && home == old(home) && t.dirs == old(t).dirs && UserSame(old(t), home, t)
      ensures ok ==> OnePage(old(t), t, active, v, WithFlags3(entry))
      ensures ok && entry % PAGE_SIZE == 0 ==> Leaf(t, active, v) == entry + 3
      ensures ok && useFrame ==> entry == frame && Words() == old(Words())
      ensures ok && !useFrame ==> Fresh(old(Words()), Words(), entry) && FramesGrow(old(Words()), Words())
      ensures ok && !useFrame ==> Handed(old(Words()), Words(), 1)
      ensures !ok && !old(Mapped(t, active, v)) ==> !useFrame && old(Free(Words())) == 0
      decreases Free(Words()), 7
    {
      hide TablesMapped, TreeOk, StoreOk, UserSame, FramesGrow, WalkGrows, HomeGrows, Added, Leaf, Need, OutOfFrames,
           Mapped, Fresh, Handed, Free;
      ServedNeedsNothing(t, active, heapEnd, v);
      var free, physical; ghost var more;
      ok, free, physical, more, entry := Check(v, true, useFrame, frame, heapEnd);
      if ok {
        ok := free;
        assert {} + {v} == {v};
      }
    }

    // mmu_map_frames: map n pages at the first free region to the frames from address e.
    method MapFrames(e: nat, n: nat, ghost w: nat) returns (ok: bool, a: nat)
      requires Valid() && 0 < n && (Covered(t, active, heapEnd, w, n) || Stuck(t, active, heapEnd))
      modifies this`t, this`home, frames.words
      ensures ok <==> !old(Stuck(t, active, heapEnd))
      ensures !ok ==> OutOfFrames(Words())
      ensures ok ==> Valid() && home == old(home) && t.dirs == old(t).dirs && UserSame(old(t), home, t)
      ensures ok ==> FirstWindow(old(t), active, heapEnd, a, n) && a <= w
      ensures ok ==> Words() == old(Words()) && RangeMapped(old(t), t, active, a, n, e)
      ensures ok && e % PAGE_SIZE == 0 ==> forall v :: a <= v < a + n ==>
                Leaf(t, active, v) == e + (v - a) * PAGE_SIZE + 3
    {
      hide TablesMapped, TreeOk, StoreOk, UserSame, FramesGrow, WalkGrows, HomeGrows, HasPt, Added, FirstWindow,
           Window, Covered, TablesCover, Leaf, Need, OutOfFrames, Within, Mapped, Ready, GrownIn, Stuck;
      ghost var added, p, last;
      if Covered(t, active, heapEnd, w, n) {
        CoveredIsReady(t, active, heapEnd, w, n);
        CoveredIsEnough(t, active, heapEnd, w, n);
      }
      ok, a, added, p, last := FindFreeRegion(n, w, 0);
      if !ok {
        return;
      }
      WindowStarts(t, active, heapEnd, a, n);
      ok := MapRange(a, e, n, w);
    }

    // mmu_unmap_frames: exactly the pages of the range lose their entries.
    method UnmapFrames(a: nat, n: nat)
      requires Valid() && a + n <= PAGES
      requires forall v {:trigger Served(t, active, v)} :: a <= v < a + n ==>
                 Served(t, active, v) && !TablePage(home, v)
      modifies this`t
      ensures Valid() && t.dirs == old(t).dirs && RangeCleared(old(t), t, active, a, n)
      ensures KERNEL_START <= a ==> UserSame(old(t), home, t)
    {
      hide TreeOk, StoreOk, UserSame, Leaf, TablesMapped, OnePage;
      ghost var t0 := t;
      GrownNot(t, home, Words(), active, 0);
      var i := 0;
      while i < n
        invariant i <= n && Valid() && t.dirs == t0.dirs && RangeCleared(t0, t, active, a, i)
        invariant KERNEL_START <= a ==> UserSame(t0, home, t)
      {
        ghost var t1 := t;
        assert Served(t0, active, a + i);
        SameDirsSameAt(t0, t, active, 3, (a + i) / 512);
        WriteLeaf(a + i, 0);
        PageCleared(t0, t1, t, active, a, i);
        if KERNEL_START <= a { UserSameTwice(t0, home, t1, home, t); }
        i := i + 1;
      }
    }

    // copy_frame: map both frames, copy a page, unmap them again.
    method CopyFrame(dst: nat, src: nat, ghost w: nat) returns (ok: bool)
      requires Valid()
      requires Covered(t, active, heapEnd, w, 2) || Stuck(t, active, heapEnd) || LastPage(t, active, heapEnd)
      modifies this`t, this`home, this`ram, frames.words
      ensures ok <==> !old(Stuck(t, active, heapEnd)) && !old(LastPage(t, active, heapEnd))
      ensures !ok ==> OutOfFrames(Words())
      ensures ok ==> Valid() && home == old(home) && t.dirs == old(t).dirs && Words() == old(Words())
      ensures ok ==> UserSame(old(t), home, t) && SameMapping(old(t), t, active)
      ensures ok ==> ram == old(ram)[FrameOf(dst) := RamAt(old(ram), FrameOf(src))]
    {
      hide TreeOk, StoreOk, UserSame, Leaf, TablesMapped, OnePage, RangeMapped, RangeCleared, SameMapping, Covered,
           FirstWindow, Served, Mapped, PageAddress, FrameOf, OutOfFrames, Stuck, LastPage;
      ghost var t0, room := t, Covered(t, active, heapEnd, w, 2);
      ghost var x := FirstPlace(t, active, heapEnd, w);
      var d, s;
      ok, d := MapFrames(dst, 1, x);
      if !ok {
        return;
      }
      ghost var t1 := t;
      if room {
        OneMapped(t0, t1, active, heapEnd, w, d, dst, 1);
        CoveredIsEnough(t1, active, heapEnd, w + 1, 1);
      } else {
        LastPageGone(t0, t1, active, heapEnd, x, d, dst);
      }
      ok, s := MapFrames(src, 1, w + 1);
      if !ok {
        return;
      }
      ghost var t2 := t;
      OneMapped(t1, t2, active, heapEnd, w + 1, s, src, 0);
      BothMapped(t0, t1, t2, home, Words(), active, heapEnd, w, d, s, dst, src);
      var pd := VirtualToPhysical(d, 0);
      var ps := VirtualToPhysical(s, 0);
      assert pd == Some(PageAddress(dst)) && ps == Some(PageAddress(src));
      ram := ram[FrameOf(dst) := RamAt(ram, FrameOf(src))];
      UnmapFrames(d, 1);
      ghost var t3 := t;
      StillServed(t2, t3, active, s);
      UnmapFrames(s, 1);
      Unmapped(t0, t1, t2, t3, t, active, d, s, dst, src);
      UserSameTwice(t0, home, t1, home, t2);
      UserSameTwice(t0, home, t2, home, t3);
      UserSameTwice(t0, home, t3, home, t);
    }

    // allocate_next_pt: the table of page v's group, and the one after it in the same PDT.
    method AllocateNextPt(v: nat, ghost w: nat) returns (ok: bool, ghost added: set<nat>)
      requires Valid() && KERNEL_START <= v && v + 512 < PAGES && v / 512 % 512 < 511
      requires Served(t, active, v) && Covered(t, active, heapEnd, w, if HasPt(t, active, v / 512 + 1) then 0 else 1)
      modifies this`t, this`home, frames.words
      ensures !ok ==> OutOfFrames(Words())
      ensures ok ==> Valid() && HasPt(t, active, v / 512 + 1) && UserSame(old(t), old(home), t)
      ensures ok ==> |added| == (if old(HasPt(t, active, v / 512 + 1)) then 0 else 1) && Within(added, heapEnd, w + 1)
      ensures ok ==> Grown(old(t), old(home), old(Words()), t, home, Words(), active, added, v / 512 + 1)
      ensures ok && added == {} ==> t == old(t) && home == old(home) && Words() == old(Words())
      ensures ok ==> TookFirst(old(t), active, heapEnd, added) && Handed(old(Words()), Words(), |added|)
      ensures !ok ==> old(Free(Words())) == 0 && !old(HasPt(t, active, v / 512 + 1))
    {
      hide TreeOk, StoreOk, UserSame, TablesMapped, Grown, OutOfFrames, Need, At, TookFirst, Handed, Free, Stuck;
      NextGroup(t, active, heapEnd, w, v);
      if !HasPt(t, active, v / 512 + 1) { CoveredIsEnough(t, active, heapEnd, w, 1); }
      UserBelowKernel(v);
      UserBelowKernel(v + 512);
      var created;
      ok, created, added := AllocatePt(v / 512, heapEnd);
      if !ok { return; }
      assert !created && added == {};
      ok, created, added := AllocatePt(v / 512 + 1, w);
    }

    // ksbrk's search for a region: once, then again after the next table has been made.  If the second
    // search still meets a missing table, the first page of its region goes to that table.
    method FindHeapRegion(n: nat, ghost f: nat, ghost top: nat) returns (ok: bool, r: nat, ghost added: set<nat>)
      requires Valid() && Frontier(t, active, heapEnd, f, top) && 1 <= n && f + n + Extra(n) < top
      modifies this`t, this`home, this`heapEnd, frames.words
      ensures !ok ==> OutOfFrames(Words())
      ensures ok ==> Valid() && heapEnd == r == Plan(old(t), active, old(heapEnd), f, n).region && Served(t, active, r)
      ensures ok ==> UserSame(old(t), old(home), t) && HomeGrows(old(home), home) && FramesGrow(old(Words()), Words())
      ensures ok && Stops(old(t), active, old(heapEnd), f, n) ==> Mapped(t, active, r)
      ensures ok && !Stops(old(t), active, old(heapEnd), f, n) ==>
                && Window(t, active, r, n) && TablesCover(t, active, r, r + n)
                && Added(old(t), t, active, added) && |added| <= Extra(n) && Within(added, old(heapEnd), r)
                && Entered(old(t), t, active)
                && TablesAre(old(t), t, active, Plan(old(t), active, old(heapEnd), f, n).first, n)
                && |added| == TablesMade(old(t), active, Plan(old(t), active, old(heapEnd), f, n).first, n)
                && Handed(old(Words()), Words(), |added|)
      ensures !ok && !Stops(old(t), active, old(heapEnd), f, n) ==>
                old(Free(Words())) < TablesMade(old(t), active, Plan(old(t), active, old(heapEnd), f, n).first, n)
    {
      hide TreeOk, StoreOk, UserSame, TablesMapped, Grown, OutOfFrames, Need, Covered, At, Added, Frontier,
           FirstWindow, Window, HomeGrows, FramesGrow, Within, TablesCover, HasPt, Mapped, Served, User, WalkGrows,
           Ready, GrownIn, Spent, TookFirst, Plan, Stops, TablesAre, TablesMade, MissingIn, Halfway, Handed, Free,
           Stuck;
      ghost var v0, start := View(t, home, Words()), heapEnd;
      ghost var added1, added2, added3, p, last;
      added := {};
      FirstScanReady(t, active, start, f, top, n);
      ReadyIsEnough(t, active, start, f, 1, n);
      ok, r, added1, p, last := FindFreeRegion(n, f, 1);
      if !ok {
        FirstStuck(v0.t, active, start, f, top, n, r);
        return;
      }
      ghost var v1, r1 := View(t, home, Words()), r;
      heapEnd := r;
      AfterFirstScan(v0, v1, active, start, f, top, n, r1, last, added1, p);
      ok, added2 := AllocateNextPt(r, r1);
      if !ok {
        NextStuck(v0, v1, active, start, f, top, n, r1, last, added1, p);
        return;
      }
      ghost var v2 := View(t, home, Words());
      AfterNextPt(v0, v1, v2, active, start, f, top, n, r1, last, added1, added2, p);
      added := added1 + added2;
      HandedTwice(v0.ws, v1.ws, v2.ws, |added1|, |added2|);
      UserSameTwice(v0.t, v0.home, v1.t, v1.home, v2.t);
      ReadyIsEnough(t, active, r1, Second(v0.t, active, start, f, r1, n), 1, n);
      ok, r, added3, p, last := FindFreeRegion(n, Second(v0.t, active, start, f, r1, n), 1);
      if !ok {
        SecondStuck(v0, v2, active, start, f, top, n, r1, r, added);
        return;
      }
      heapEnd := r;
      UserSameTwice(v0.t, v0.home, v2.t, v2.home, t);
      AfterSecondScan(v0, v2, View(t, home, Words()), active, start, f, top, n, r1, r, last, added, added3, p);
    }

    // ksbrk of n pages.  Everything from page f up to "top" is free.
    method Ksbrk(n: nat, ghost f: nat, ghost top: nat) returns (ok: bool, r: nat, ghost added: set<nat>, ghost f': nat)
      requires Valid() && Frontier(t, active, heapEnd, f, top) && 1 <= n && f + n + Extra(n) < top
      modifies this`t, this`home, this`heapEnd, frames.words
      ensures !ok ==> OutOfFrames(Words()) || Stops(old(t), active, old(heapEnd), f, n)
      ensures ok <==>
                && !Stops(old(t), active, old(heapEnd), f, n)
                && TablesMade(old(t), active, Plan(old(t), active, old(heapEnd), f, n).first, n) + n
                   <= old(Free(Words()))
      ensures ok ==> Valid() && heapEnd == r + n && r == Plan(old(t), active, old(heapEnd), f, n).region
      ensures ok ==> old(heapEnd) <= r && |added| <= Extra(n)
      ensures ok ==> Within(added, old(heapEnd), r) && UserSame(old(t), old(home), t)
      ensures ok ==> Obtained(old(t), old(Words()), t, Words(), active, added, r, n)
      ensures ok ==> forall v :: r <= v < r + n || v in added ==> Leaf(t, active, v) % PAGE_SIZE == 3
      ensures ok ==> |added| == TablesMade(old(t), active, Plan(old(t), active, old(heapEnd), f, n).first, n)
      ensures ok ==> Handed(old(Words()), Words(), |added| + n)
      ensures ok ==> HomeGrows(old(home), home) && FramesGrow(old(Words()), Words())
      ensures ok ==> ServedKept(old(t), t, active)
      ensures ok ==> TablesAre(old(t), t, active, Plan(old(t), active, old(heapEnd), f, n).first, n)
      ensures ok ==> f' == (if r + n > f then r + n else f) && f' <= f + n + Extra(n)
      ensures ok ==> (Served(t, active, heapEnd) <==> Lands(old(t), active, old(heapEnd), f, n))
      ensures ok ==> (Frontier(t, active, heapEnd, f', top) <==> Served(t, active, heapEnd))
    {
      hide TreeOk, StoreOk, UserSame, TablesMapped, OutOfFrames, At, Added, Window, Frontier, Plan, Stops, Lands,
           TablesAre, Obtained, HomeGrows, FramesGrow, Within, TablesCover, HasPt, Mapped, Served, ServedKept,
           TablesMade, Handed, Free, Gained;
      ghost var t0, home0, ws0, start := t, home, Words(), heapEnd;
      f' := f;
      PlanBounds(t0, active, start, f, top, n);
      ok, r, added := FindHeapRegion(n, f, top);
      if !ok { return; }
      ghost var t2, home2, ws2, stops := t, home, Words(), Stops(t0, active, start, f, n);
      if !stops { RegionReady(t0, ws0, t2, home2, ws2, active, added, r); }
      NothingMapped(t2, home2, active, 0, 0);
      FramesGrowNot(ws0, ws2);
      var i := 0;
      while i < n
        invariant ok && i <= n && Valid() && heapEnd == r + i && home == home2 && t.dirs == t2.dirs
        invariant UserSame(t2, home2, t) && FramesGrow(ws2, Words())
        invariant if stops then i == 0 && t == t2 else Obtained(t0, ws0, t, Words(), active, added, r, i)
        invariant !stops ==> Handed(ws0, Words(), |added| + i)
      {
        if !stops { RegionPage(t0, ws0, t2, ws2, t, Words(), active, added, r, i, n); }
        ghost var t3, ws3, entry := t, Words(), 0;
        ok, entry := MapPage(heapEnd, false, 0);
        if !ok {
          if !stops { HandedLeaves(ws0, ws3, |added| + i); }
          return;
        }
        PageObtained(t0, ws0, t3, ws3, t, Words(), active, added, r, i, entry);
        FramesGrowTwice(ws2, ws3, Words());
        HandedTwice(ws0, ws3, Words(), |added| + i, 1);
        UserSameTwice(t2, home2, t3, home2, t);
        heapEnd := heapEnd + 1;
        i := i + 1;
      }
      f' := if r + n > f then r + n else f;
      HandedLeaves(ws0, Words(), |added| + n);
      ObtainedFlags(t0, ws0, t, Words(), active, added, r, n);
      Grew(t0, ws0, t2, t, Words(), active, start, f, top, n, added, r);
      UserSameTwice(t0, home0, t2, home2, t);
      FramesGrowTwice(ws0, ws2, Words());
    }

    // ksbrk of no pages, which the boot code calls to have the next table made.
    method KsbrkNothing(ghost f: nat, ghost top: nat) returns (ok: bool, ghost added: set<nat>, ghost f': nat)
      requires Valid() && Frontier(t, active, heapEnd, f, top) && f + 1 < top
      modifies this`t, this`home, this`heapEnd, frames.words
      ensures !ok ==> OutOfFrames(Words())
      ensures ok <==> old(HasPt(t, active, heapEnd / 512 + 1)) || 1 <= old(Free(Words()))
      ensures ok ==> Valid() && heapEnd == old(heapEnd) && HasPt(t, active, heapEnd / 512 + 1)
      ensures ok ==> |added| <= 1 && UserSame(old(t), old(home), t)
      ensures ok ==> Grown(old(t), old(home), old(Words()), t, home, Words(), active, added, heapEnd / 512 + 1)
      ensures ok ==> f <= f' <= f + 1 && Frontier(t, active, heapEnd, f', top)
    {
      hide TreeOk, StoreOk, UserSame, TablesMapped, Grown, OutOfFrames, Need, At, Frontier, TookFirst, GrownIn, Spent,
           Ready, Handed, Free;
      ghost var t0, home0, ws0, start, p, last := t, home, Words(), heapEnd, 0, 0;
      var r;
      f' := f;
      EmptyScanReady(t, active, heapEnd, f, top);
      ok, r, added, p, last := FindFreeRegion(0, heapEnd, 0);
      if !ok { return; }
      EmptyScan(t0, active, start, r, last, added, p);
      heapEnd := r;
      NextTableReady(t, active, heapEnd, f, top);
      ok, added := AllocateNextPt(heapEnd, f);
      if !ok { return; }
      f' := if added == {} then f else f + 1;
      HandedLeaves(ws0, Words(), |added|);
      TableAhead(t0, home0, ws0, t, home, Words(), active, start, f, f', top, added);
    }
  }

  function RamAt(ram: map<nat, Page>, f: nat): Page {
    if f in ram then ram[f] else []
  }

  // Pages a to a + n have no entry any more; every other page kept its own.
  ghost predicate RangeCleared(t: Tables, t': Tables, r: nat, a: nat, n: nat) {
    forall v {:trigger Leaf(t', r, v)} :: 0 <= v < PAGES ==>
      Leaf(t', r, v) == if a <= v < a + n then 0 else Leaf(t, r, v)
  }

  // The same pages are mapped, with the same entries.
  ghost predicate SameMapping(t: Tables, t': Tables, r: nat) {
    forall v {:trigger Leaf(t', r, v)} {:trigger Mapped(t', r, v)} :: 0 <= v < PAGES ==>
      Mapped(t', r, v) == Mapped(t, r, v) && (Mapped(t, r, v) ==> Leaf(t', r, v) == Leaf(t, r, v))
  }

  lemma RangeClearedAt(t: Tables, t': Tables, r: nat, a: nat, n: nat, v: nat)
    requires RangeCleared(t, t', r, a, n) && v < PAGES
    ensures Leaf(t', r, v) == if a <= v < a + n then 0 else Leaf(t, r, v)
  {
  }

  lemma PageCleared(t0: Tables, t1: Tables, t2: Tables, r: nat, a: nat, i: nat)
    requires RangeCleared(t0, t1, r, a, i) && OnePage(t1, t2, r, a + i, 0)
    ensures RangeCleared(t0, t2, r, a, i + 1)
  {
    forall v | 0 <= v < PAGES ensures Leaf(t2, r, v) == if a <= v < a + i + 1 then 0 else Leaf(t0, r, v) {
      RangeClearedAt(t0, t1, r, a, i, v);
      assert Leaf(t2, r, v) == (if v == a + i then 0 else Leaf(t1, r, v));
    }
  }

  // One page mapped at the front of a reserve: it is served, and the rest of the reserve remains.
  lemma OneMapped(t0: Tables, t1: Tables, r: nat, start: nat, w: nat, a: nat, e: nat, rest: nat)
    requires FirstWindow(t0, r, start, a, 1) && a <= w && Covered(t0, r, start, w, 1 + rest)
    requires RangeMapped(t0, t1, r, a, 1, e) && t1.dirs == t0.dirs
    ensures Served(t1, r, a) && a < PAGES && Leaf(t1, r, a) == WithFlags3(e) && !Mapped(t0, r, a)
    ensures Covered(t1, r, start, w + 1, rest)
  {
    hide RangeMapped, Leaf;
    forall v | start <= v < w + 1 + rest ensures Served(t1, r, v) {
      assert Served(t0, r, v);
      SameDirsSameAt(t0, t1, r, 3, v / 512);
    }
    assert start <= a < w + 1 + rest;
    RangeMappedAt(t0, t1, r, a, 1, e, a);
    assert e + 0 * PAGE_SIZE == e;
    forall v | w + 1 <= v < w + 1 + rest ensures !Mapped(t1, r, v) {
      assert !Mapped(t0, r, v);
      RangeMappedAt(t0, t1, r, a, 1, e, v);
      SameLeafSameMapped(t0, t1, r, v);
    }
  }

  lemma BothMapped(t0: Tables, t1: Tables, t2: Tables, home: map<nat, Home>, ws: seq<bv64>, r: nat, start: nat,
                   w: nat, d: nat, s: nat, dst: nat, src: nat)
    requires RangeMapped(t0, t1, r, d, 1, dst) && RangeMapped(t1, t2, r, s, 1, src)
    requires t1.dirs == t0.dirs && t2.dirs == t0.dirs && TablesMapped(t0, home, r, ws)
    requires FirstWindow(t0, r, start, d, 1) && FirstWindow(t1, r, start, s, 1)
    requires Served(t1, r, d) && Served(t2, r, s) && d < PAGES && s < PAGES && KERNEL_START <= start
    requires Leaf(t1, r, d) == WithFlags3(dst) && Leaf(t2, r, s) == WithFlags3(src)
    requires !Mapped(t0, r, d) && !Mapped(t1, r, s)
    ensures d != s && !TablePage(home, d) && !TablePage(home, s) && KERNEL_START <= d && KERNEL_START <= s
    ensures Served(t2, r, d) && Leaf(t2, r, d) == WithFlags3(dst) && Mapped(t2, r, d) && Mapped(t2, r, s)
    ensures PageAddress(Leaf(t2, r, d)) == PageAddress(dst) && PageAddress(Leaf(t2, r, s)) == PageAddress(src)
  {
    RangeMappedAt(t1, t2, r, s, 1, src, d);
    RangeMappedAt(t0, t1, r, d, 1, dst, s);
    SameLeafSameMapped(t0, t1, r, s);
    FreeHoldsNone(t0, home, r, ws, d);
    FreeHoldsNone(t0, home, r, ws, s);
    SameDirsSameAt(t1, t2, r, 3, d / 512);
  }

  lemma StillServed(t: Tables, t': Tables, r: nat, v: nat)
    requires t'.dirs == t.dirs && Served(t, r, v)
    ensures Served(t', r, v)
  {
    SameDirsSameAt(t, t', r, 3, v / 512);
  }

  lemma Unmapped(t0: Tables, t1: Tables, t2: Tables, t3: Tables, t4: Tables, r: nat, d: nat, s: nat, dst: nat, src: nat)
    requires RangeMapped(t0, t1, r, d, 1, dst) && RangeMapped(t1, t2, r, s, 1, src)
    requires RangeCleared(t2, t3, r, d, 1) && RangeCleared(t3, t4, r, s, 1)
    ensures SameMapping(t0, t4, r)
  {
    hide RangeMapped, RangeCleared, Leaf;
    assert !Present(0);
    forall v | 0 <= v < PAGES
      ensures Mapped(t4, r, v) == Mapped(t0, r, v) && (Mapped(t0, r, v) ==> Leaf(t4, r, v) == Leaf(t0, r, v))
    {
      RangeMappedAt(t0, t1, r, d, 1, dst, v);
      RangeMappedAt(t1, t2, r, s, 1, src, v);
      RangeClearedAt(t2, t3, r, d, 1, v);
      RangeClearedAt(t3, t4, r, s, 1, v);
      if v != d && v != s { SameLeafSameMapped(t0, t4, r, v); }
    }
  }

  // Pages a to a + n, free before, are mapped in order to the frames from f; no other entry changed.
  ghost predicate RangeMapped(t: Tables, t': Tables, r: nat, a: nat, n: nat, e: nat) {
    forall v {:trigger Leaf(t', r, v)} :: 0 <= v < PAGES ==>
      if a <= v < a + n then !Mapped(t, r, v) && Leaf(t', r, v) == WithFlags3(e + (v - a) * PAGE_SIZE)
      else Leaf(t', r, v) == Leaf(t, r, v)
  }

  lemma RangeMappedAt(t: Tables, t': Tables, r: nat, a: nat, n: nat, e: nat, v: nat)
    requires RangeMapped(t, t', r, a, n, e) && v < PAGES
    ensures if a <= v < a + n then !Mapped(t, r, v) && Leaf(t', r, v) == WithFlags3(e + (v - a) * PAGE_SIZE)
            else Leaf(t', r, v) == Leaf(t, r, v)
  {
  }

  // To page-aligned addresses the pages are mapped with the flags 3.
  lemma RangeHas(t: Tables, t': Tables, r: nat, a: nat, n: nat, e: nat)
    requires RangeMapped(t, t', r, a, n, e) && (0 < n ==> a + n <= PAGES) && e % PAGE_SIZE == 0
    ensures forall v :: a <= v < a + n ==> Leaf(t', r, v) == e + (v - a) * PAGE_SIZE + 3
  {
    hide Leaf, RangeMapped;
    forall v | a <= v < a + n ensures Leaf(t', r, v) == e + (v - a) * PAGE_SIZE + 3 {
      RangeMappedAt(t, t', r, a, n, e, v);
      Aligned(e, v - a);
    }
  }

  lemma Aligned(e: nat, i: nat)
    requires e % PAGE_SIZE == 0
    ensures (e + i * PAGE_SIZE) % PAGE_SIZE == 0
  {
  }

  lemma RangeIsAdded(t: Tables, t': Tables, r: nat, a: nat, n: nat, e: nat)
    requires RangeMapped(t, t', r, a, n, e) && a + n <= PAGES && e % PAGE_SIZE == 0
    ensures Added(t, t', r, Interval(a, n)) && |Interval(a, n)| == n
  {
    hide Leaf, RangeMapped;
    forall v | 0 <= v < PAGES
      ensures if v in Interval(a, n) then Gained(t, t', r, v) else Leaf(t', r, v) == Leaf(t, r, v)
    {
      RangeMappedAt(t, t', r, a, n, e, v);
      if a <= v < a + n { FlagsAre3(e, v - a); }
    }
  }

  lemma FlagsAre3(e: nat, i: nat)
    requires e % PAGE_SIZE == 0
    ensures WithFlags3(e + i * PAGE_SIZE) % PAGE_SIZE == 3
  {
    Aligned(e, i);
  }

  lemma ServedNeedsNothing(t: Tables, r: nat, start: nat, v: nat)
    requires Served(t, r, v) && start <= PAGES
    ensures HasPt(t, r, v / 512) && Need(t, r, v / 512) == 0 && Covered(t, r, start, start, 0)
  {
    HasPtNeedsNothing(t, r, v / 512);
  }

  // ------------------------------------------------------------------------------------------
  // Growing the kernel's heap
  // ------------------------------------------------------------------------------------------

  // Pages from f up to top are free; tables are present up to f; all of it is served by one PDT, and
  // not by its last entry.
  ghost predicate Frontier(t: Tables, r: nat, start: nat, f: nat, top: nat) {
    && start <= f < top && top + 512 < PAGES && KERNEL_START <= start
    && TablesCover(t, r, start, f + 1) && Window(t, r, f, top - f)
    && start / 512 / 512 == top / 512 / 512 && top / 512 % 512 < 510
  }

  // Pages r to r + n are newly mapped, each to a frame of its own that was free; apart from them only
  // the pages of "added" are new.
  ghost predicate Obtained(t: Tables, ws: seq<bv64>, t': Tables, ws': seq<bv64>, rt: nat, added: set<nat>, r: nat,
                           n: nat)
  {
    && FramesGrow(ws, ws') && Entered(t, t', rt)
    && (forall v {:trigger Leaf(t', rt, v)} :: 0 <= v < PAGES ==>
          if r <= v < r + n then
            Gained(t, t', rt, v) && v !in added && FreshFrame(ws, ws', FrameOf(Leaf(t', rt, v)))
          else if v in added then Gained(t, t', rt, v)
          else Leaf(t', rt, v) == Leaf(t, rt, v))
    && (forall v, u {:trigger Leaf(t', rt, v), Leaf(t', rt, u)} :: r <= v < u < r + n && u < PAGES ==>
          FrameOf(Leaf(t', rt, v)) != FrameOf(Leaf(t', rt, u)))
    && (forall v :: v in added ==> v < PAGES)
  }

  ghost predicate FreshFrame(ws: seq<bv64>, ws': seq<bv64>, f: nat)
    requires |ws| == F.NUM_OF_FRAMES == |ws'|
  {
    f < F.FRAMES && !F.Taken(ws, f) && F.Taken(ws', f)
  }

  lemma FramesGrowTwice(a: seq<bv64>, b: seq<bv64>, c: seq<bv64>)
    requires FramesGrow(a, b) && FramesGrow(b, c)
    ensures FramesGrow(a, c)
  {
    forall f | 0 <= f < F.FRAMES && F.Taken(a, f) ensures F.Taken(c, f) {
      assert F.Taken(b, f);
    }
  }

  lemma NextGroup(t: Tables, r: nat, start: nat, w: nat, v: nat)
    requires v + 512 < PAGES && v / 512 % 512 < 511 && Served(t, r, v) && start <= w
    requires Covered(t, r, start, w, if HasPt(t, r, v / 512 + 1) then 0 else 1) && start <= PAGES
    ensures v / 512 < Pow512(3) && v / 512 + 1 < Pow512(3) && (v + 512) / 512 == v / 512 + 1
    ensures HasPt(t, r, v / 512) && Need(t, r, v / 512) == 0 && Covered(t, r, start, start, 0)
    ensures Need(t, r, v / 512 + 1) == if HasPt(t, r, v / 512 + 1) then 0 else 1
  {
    LevelSizes();
    HasPtNeedsNothing(t, r, v / 512);
    var g := v / 512;
    assert (g + 1) / 512 == g / 512;
    assert At(t, r, 2, g / 512).Some? && At(t, r, 1, g / 512 / 512).Some?;
  }

  // A directory table as it lies in memory: 512 entries, then 512 pointers.
  function Flat(d: Dir): (w: seq<nat>)
    ensures |w| == |d.physical| + |d.next|
    ensures forall i :: 0 <= i < |d.physical| ==> w[i] == d.physical[i]
    ensures forall i :: 0 <= i < |d.next| ==> w[|d.physical| + i] == d.next[i] * PAGE_SIZE
  {
    d.physical + seq(|d.next|, i requires 0 <= i < |d.next| => d.next[i] * PAGE_SIZE)
  }

  // The table whose pointer for entry 0 is page f
  function FirstPointer(t: Tables, p: nat, f: nat): Tables
    requires p in t.dirs && 0 < |t.dirs[p].next|
  {
    var next: seq<nat> := t.dirs[p].next[0 := f];
    t.(dirs := t.dirs[p := t.dirs[p].(next := next)])
  }

  // allocate_next_pt in the last group of a PDT tests and stores entry 512, which is the pointer for
  // entry 0.  The test finds it absent whatever is there, so a table is made; the store keeps all 512
  // entries, and leaves a pointer into page f.  No table lies there: if entry 0 had one it is lost.
  lemma NextPtAtLastEntry(t: Tables, home: map<nat, Home>, r: nat, ws: seq<bv64>, v: nat, f: nat)
    requires StoreOk(t, home) && TreeOk(t, home, r) && TablesMapped(t, home, r, ws)
    requires v < PAGES && Served(t, r, v) && v / 512 % 512 == 511 && f < F.FRAMES
    ensures At(t, r, 2, v / 512 / 512).Some?
    ensures var p, e := At(t, r, 2, v / 512 / 512).value, WithFlags3(f * PAGE_SIZE);
            && p in t.dirs && |t.dirs[p].physical| == 512 == |t.dirs[p].next|
            && !Present(Flat(t.dirs[p])[v / 512 % 512 + 1])
            && (forall i :: 0 <= i < 512 ==> Flat(t.dirs[p])[512 := e][i] == t.dirs[p].physical[i])
            && FrameOf(Flat(t.dirs[p])[512 := e][512]) == f && !TablePage(home, f)
            && (HasPt(t, r, v / 512 - 511) ==>
                  At(FirstPointer(t, p, f), r, 3, v / 512 - 511) == Some(f) && !TreeOk(FirstPointer(t, p, f), home, r))
  {
    hide TablesMapped, TablePage;
    Levels(v);
    var g := v / 512;
    assert TableOk(t, home, r, 2, g / 512);
    var p := At(t, r, 2, g / 512).value;
    FrameIsNoTable(t, home, r, ws, f);
    EvenPointer(t.dirs[p].next[0]);
    if HasPt(t, r, g - 511) { LostTable(t, home, r, g - 511, p, f); }
  }

  lemma EvenPointer(p: nat)
    ensures !Present(p * PAGE_SIZE)
  {
  }

  lemma FrameIsNoTable(t: Tables, home: map<nat, Home>, r: nat, ws: seq<bv64>, f: nat)
    requires TablesMapped(t, home, r, ws) && f < F.FRAMES
    ensures !TablePage(home, f) && f !in home
  {
  }

  lemma LostTable(t: Tables, home: map<nat, Home>, r: nat, g: nat, p: nat, f: nat)
    requires StoreOk(t, home) && TreeOk(t, home, r) && g < Pow512(3) && g % 512 == 0 && HasPt(t, r, g)
    requires At(t, r, 2, g / 512) == Some(p) && p in t.dirs && 0 < |t.dirs[p].next| && f !in home
    ensures At(FirstPointer(t, p, f), r, 3, g) == Some(f) && !TreeOk(FirstPointer(t, p, f), home, r)
  {
    LevelSizes();
    var t' := FirstPointer(t, p, f);
    PointerBelow(t, home, r, 2, g / 512, p, f, 2, g / 512);
    assert !TableOk(t', home, r, 3, g);
  }

  // The pointer of table p changes no walk to p's level or above.
  lemma {:induction false} PointerBelow(t: Tables, home: map<nat, Home>, r: nat, k: nat, h: nat, p: nat, f: nat,
                                        j: nat, g: nat)
    requires TreeOk(t, home, r) && k <= 3 && h < Pow512(k)
    requires At(t, r, k, h) == Some(p) && p in t.dirs && 0 < |t.dirs[p].next|
    requires j <= k && g < Pow512(j)
    ensures At(FirstPointer(t, p, f), r, j, g) == At(t, r, j, g)
  {
    if 0 < j {
      Prefix(j, g);
      PointerBelow(t, home, r, k, h, p, f, j - 1, g / 512);
      assert TableOk(t, home, r, j - 1, g / 512) && TableOk(t, home, r, k, h);
    }
  }

  // Pages under a table remain so.
  ghost predicate ServedKept(t: Tables, t': Tables, r: nat) {
    forall v {:trigger Served(t', r, v)} :: 0 <= v < PAGES && Served(t, r, v) ==> Served(t', r, v)
  }

  // ------------------------------------------------------------------------------------------
  // Where a growth of n pages ends up
  // ------------------------------------------------------------------------------------------

  // The lowest place from lo to hi at which n free pages start, or hi.
  ghost function FirstFit(t: Tables, r: nat, lo: nat, hi: nat, n: nat): (a: nat)
    ensures lo <= a && (lo <= hi ==> a <= hi)
    decreases hi - lo
  {
    if hi <= lo || Window(t, r, lo, n) then lo else FirstFit(t, r, lo + 1, hi, n)
  }

  // The lowest such place from lo on; from f on there is one.
  ghost function FitFrom(t: Tables, r: nat, f: nat, lo: nat, n: nat): nat {
    FirstFit(t, r, lo, if f > lo then f else lo, n)
  }

  // The place after the k lowest free pages from lo on.
  ghost function SpendTo(t: Tables, r: nat, lo: nat, k: nat, hi: nat): (p: nat)
    ensures lo <= p
    decreases hi - lo
  {
    if k == 0 || hi <= lo then lo else SpendTo(t, r, lo + 1, if Mapped(t, r, lo) then k else k - 1, hi)
  }

  // More groups than n pages can reach beyond their first one
  function Extra(n: nat): nat {
    (n + 511) / 512
  }

  // Pages of the region at r1 that go to tables before ksbrk searches again: the first search makes the
  // tables that the region needs, from the first free pages, and if it needs none the next table is made.
  ghost function Shift(t: Tables, r: nat, start: nat, r1: nat, n: nat): nat {
    var j := MissingIn(t, r, r1 / 512, Past(r1, n));
    var p := SpendTo(t, r, start, j, PAGES);
    if j == 0 then (if HasPt(t, r, r1 / 512 + 1) then 0 else 1) else if p > r1 then p - r1 else 0
  }

  // Tables that are made for the first region, or after it.
  ghost function TablesMade(t: Tables, r: nat, r1: nat, n: nat): nat {
    var j := MissingIn(t, r, r1 / 512, Past(r1, n));
    if j == 0 && !HasPt(t, r, r1 / 512 + 1) then 1 else j
  }

  // The region of the first search, the shift, and the region of the second search.
  datatype Growth = Growth(first: nat, shift: nat, region: nat)

  ghost function Plan(t: Tables, r: nat, start: nat, f: nat, n: nat): Growth {
    var r1 := FirstFit(t, r, start, f, n);
    var c := Shift(t, r, start, r1, n);
    Growth(r1, c, FitFrom(t, r, f, r1 + c, n))
  }

  // Group g has a table once the first search and allocate_next_pt are done.
  ghost predicate TableThere(t: Tables, r: nat, r1: nat, n: nat, g: nat) {
    HasPt(t, r, g) || r1 / 512 <= g < Past(r1, n) || g == r1 / 512 + 1
  }

  // The last page of the second region has no table: the kernel stops at ksbrk's assertion.
  ghost predicate Stops(t: Tables, r: nat, start: nat, f: nat, n: nat)
    requires 1 <= n
  {
    var g := Plan(t, r, start, f, n);
    !TableThere(t, r, g.first, n, (g.region + n - 1) / 512)
  }

  // The page after the second region has a table, as the next growth needs.
  ghost predicate Lands(t: Tables, r: nat, start: nat, f: nat, n: nat) {
    var g := Plan(t, r, start, f, n);
    TableThere(t, r, g.first, n, (g.region + n) / 512)
  }

  // Exactly these groups have a table.
  ghost predicate TablesAre(t: Tables, t': Tables, r: nat, r1: nat, n: nat) {
    forall g: nat {:trigger HasPt(t', r, g)} :: g < Pow512(3) ==> (HasPt(t', r, g) <==> TableThere(t, r, r1, n, g))
  }

  lemma TablesAreAt(t: Tables, t': Tables, r: nat, r1: nat, n: nat, g: nat)
    requires TablesAre(t, t', r, r1, n) && g < Pow512(3)
    ensures HasPt(t', r, g) <==> TableThere(t, r, r1, n, g)
  {
  }

  lemma {:induction false} FirstFitIs(t: Tables, r: nat, lo: nat, hi: nat, n: nat, a: nat)
    requires FirstWindow(t, r, lo, a, n) && a <= hi
    ensures FirstFit(t, r, lo, hi, n) == a
    decreases hi - lo
  {
    hide Mapped;
    if lo < a {
      assert !Window(t, r, lo, n);
      FirstFitIs(t, r, lo + 1, hi, n, a);
    }
  }

  lemma {:induction false} FirstFitFits(t: Tables, r: nat, lo: nat, hi: nat, n: nat)
    requires Window(t, r, hi, n) && lo <= hi
    ensures FirstWindow(t, r, lo, FirstFit(t, r, lo, hi, n), n)
    decreases hi - lo
  {
    hide Mapped;
    if lo < hi && !Window(t, r, lo, n) {
      FirstFitFits(t, r, lo + 1, hi, n);
    }
  }

  lemma {:induction false} TakenToIs(t: Tables, r: nat, start: nat, added: set<nat>, p: nat)
    requires TakenTo(t, r, start, added, p)
    ensures SpendTo(t, r, start, |added|, PAGES) == p
    decreases p - start
  {
    hide Mapped;
    if p == start {
      assert added == {};
    } else if Mapped(t, r, start) {
      assert start !in added;
      TakenToIs(t, r, start + 1, added, p);
      assert |added| > 0;
    } else {
      assert start in added;
      TakenToIs(t, r, start + 1, added - {start}, p);
    }
  }

  // Once a run of free pages is reached, every page counts.
  lemma {:induction false} SpendsRun(t: Tables, r: nat, lo: nat, k: nat, hi: nat, r1: nat)
    requires lo <= r1 && forall v {:trigger Mapped(t, r, v)} :: r1 <= v < r1 + k ==> !Mapped(t, r, v)
    ensures SpendTo(t, r, lo, k, hi) <= r1 + k
    decreases hi - lo
  {
    hide Mapped;
    if k != 0 && lo < hi {
      if lo < r1 {
        SpendsRun(t, r, lo + 1, if Mapped(t, r, lo) then k else k - 1, hi, r1);
      } else {
        SpendsRun(t, r, lo + 1, k - 1, hi, r1 + 1);
      }
    }
  }

  lemma {:induction false} MissingMeans(t: Tables, r: nat, lo: nat, hi: nat) returns (g: nat)
    requires MissingIn(t, r, lo, hi) > 0
    ensures lo <= g < hi && !HasPt(t, r, g)
    decreases hi
  {
    if HasPt(t, r, hi - 1) { g := MissingMeans(t, r, lo, hi - 1); } else { g := hi - 1; }
  }

  lemma {:induction false} NoneMissing(t: Tables, r: nat, lo: nat, hi: nat)
    ensures MissingIn(t, r, lo, hi) == 0 <==> forall g {:trigger HasPt(t, r, g)} :: lo <= g < hi ==> HasPt(t, r, g)
    decreases hi
  {
    if lo < hi {
      NoneMissing(t, r, lo, hi - 1);
      if !HasPt(t, r, hi - 1) { assert MissingIn(t, r, lo, hi) > 0; }
    }
  }

  // The first group has its table, so at most the others are missing.
  lemma {:induction false} MissingTail(t: Tables, r: nat, lo: nat, hi: nat)
    requires HasPt(t, r, lo) && lo < hi
    ensures MissingIn(t, r, lo, hi) <= hi - lo - 1
    decreases hi
  {
    if lo + 1 < hi { MissingTail(t, r, lo, hi - 1); }
  }

  // ------------------------------------------------------------------------------------------
  // The frontier
  // ------------------------------------------------------------------------------------------

  lemma UpperTables(t: Tables, r: nat, start: nat, f: nat, top: nat, v: nat)
    requires Frontier(t, r, start, f, top) && start <= v <= top
    ensures v / 512 < Pow512(3) && v / 512 % 512 < 510 && v + 512 < PAGES && KERNEL_START <= v
    ensures At(t, r, 2, v / 512 / 512).Some? && At(t, r, 1, v / 512 / 512 / 512).Some?
    ensures Need(t, r, v / 512) == if HasPt(t, r, v / 512) then 0 else 1
  {
    LevelSizes();
    assert Served(t, r, f);
    assert start / 512 <= v / 512 <= top / 512 && f / 512 / 512 == v / 512 / 512 == top / 512 / 512;
    assert At(t, r, 2, f / 512 / 512).Some? && At(t, r, 1, f / 512 / 512 / 512).Some?;
  }

  lemma FrontierFacts(t: Tables, r: nat, start: nat, f: nat, top: nat)
    requires Frontier(t, r, start, f, top)
    ensures KERNEL_START <= start <= f < top && top + 512 < PAGES && start / 512 / 512 == top / 512 / 512
    ensures TablesCover(t, r, start, f + 1) && Window(t, r, f, top - f)
  {
  }

  lemma FirstScanReady(t: Tables, r: nat, start: nat, f: nat, top: nat, n: nat)
    requires Frontier(t, r, start, f, top) && 1 <= n && f + n < top
    ensures Ready(t, r, start, f, 1, n)
  {
    hide Mapped, HasPt, Need;
    FrontierFacts(t, r, start, f, top);
    forall v | start <= v < f + n ensures Need(t, r, v / 512) <= 1 {
      UpperTables(t, r, start, f, top, v);
    }
    assert Window(t, r, f, 1);
  }

  lemma FrontierServes(t: Tables, r: nat, start: nat, f: nat, top: nat, g: nat)
    requires Frontier(t, r, start, f, top) && start / 512 <= g <= f / 512
    ensures HasPt(t, r, g)
  {
    var v := if 512 * g < start then start else 512 * g;
    assert v / 512 == g && start <= v <= f;
    assert Served(t, r, v);
  }

  // What the plan says in every state that the frontier allows.
  lemma PlanBounds(t: Tables, r: nat, start: nat, f: nat, top: nat, n: nat)
    requires Frontier(t, r, start, f, top) && 1 <= n && f + n + Extra(n) < top
    ensures var g := Plan(t, r, start, f, n);
            && start <= g.first <= f && g.shift <= Extra(n) && g.first + g.shift <= g.region
            && (g.region <= f || g.region == g.first + g.shift)
            && FirstWindow(t, r, start, g.first, n)
    ensures KERNEL_START <= start && f + n + Extra(n) < PAGES
  {
    hide Mapped, HasPt, Frontier, MissingIn, Past;
    FrontierFacts(t, r, start, f, top);
    assert Window(t, r, f, n);
    FirstFitFits(t, r, start, f, n);
    var r1 := FirstFit(t, r, start, f, n);
    ShiftBounds(t, r, start, f, top, r1, n);
  }

  // If the first search meets a missing table, all pages from its region on are free.
  lemma ShiftBounds(t: Tables, r: nat, start: nat, f: nat, top: nat, r1: nat, n: nat)
    requires Frontier(t, r, start, f, top) && 1 <= n
    requires f + n + Extra(n) < top && start <= r1 <= f && Window(t, r, r1, n)
    ensures var j := MissingIn(t, r, r1 / 512, Past(r1, n));
            && Shift(t, r, start, r1, n) <= Extra(n) && j <= Extra(n)
            && (j > 0 ==> r1 + n > f && r1 / 512 + 1 < Past(r1, n) && SpendTo(t, r, start, j, PAGES) <= r1 + j
                          && Shift(t, r, start, r1, n) <= j && f / 512 + 1 < Past(r1, n))
            && (j == 0 ==> Shift(t, r, start, r1, n) == 0 || r1 / 512 == f / 512)
            && (r1 + n > f ==> Window(t, r, r1, top - r1))
  {
    hide Mapped, HasPt, Frontier, MissingIn;
    var j := MissingIn(t, r, r1 / 512, Past(r1, n));
    FrontierFacts(t, r, start, f, top);
    FrontierServes(t, r, start, f, top, r1 / 512);
    MissingTail(t, r, r1 / 512, Past(r1, n));
    assert (r1 + n - 1) / 512 - r1 / 512 <= Extra(n);
    if r1 + n > f {
      forall v | r1 <= v < top ensures !Mapped(t, r, v) {
        if v < r1 + n { assert !Mapped(t, r, v); } else { assert f <= v < f + (top - f); }
      }
    }
    if j > 0 {
      var g := MissingMeans(t, r, r1 / 512, Past(r1, n));
      if g <= f / 512 { FrontierServes(t, r, start, f, top, g); }
      SpendsRun(t, r, start, j, PAGES, r1);
    } else if r1 / 512 < f / 512 {
      FrontierServes(t, r, start, f, top, r1 / 512 + 1);
    }
  }

  lemma CoverKept(t: Tables, t': Tables, r: nat, start: nat, hi: nat, g: nat)
    requires TablesCover(t, r, start, hi) && WalkGrows(t, t', r, g) && hi <= PAGES
    ensures TablesCover(t', r, start, hi)
  {
    LevelSizes();
    forall v | start <= v < hi ensures Served(t', r, v) {
      assert Served(t, r, v);
      WalkGrowsAt(t, t', r, g, 3, v / 512);
    }
  }

  // ------------------------------------------------------------------------------------------
  // After the first search, after the next table, after the second search
  // ------------------------------------------------------------------------------------------

  ghost predicate FirstDone(a: View, b: View, rt: nat, start: nat, f: nat, r1: nat, n: nat, last: nat,
                            added: set<nat>, p: nat)
  {
    var j := MissingIn(a.t, rt, r1 / 512, Past(r1, n));
    && FirstWindow(a.t, rt, start, r1, n) && r1 <= f && TablesCover(b.t, rt, start, r1 + n)
    && GrownIn(a, b, rt, added, r1 / 512, Past(r1, n))
    && Spent(a.t, rt, start, f, 1, j, last, added, p) && (j == 0 ==> b == a)
  }

  lemma FirstTables(a: View, b: View, rt: nat, start: nat, f: nat, top: nat, r1: nat, n: nat, last: nat,
                    added: set<nat>, p: nat, g: nat)
    requires Frontier(a.t, rt, start, f, top) && FirstDone(a, b, rt, start, f, r1, n, last, added, p)
    requires 1 <= n && g < Pow512(3)
    ensures HasPt(b.t, rt, g) <==> HasPt(a.t, rt, g) || r1 / 512 <= g < Past(r1, n)
  {
    hide Mapped, HasPt, Frontier, MissingIn, FirstWindow, Spent, GrownIn;
    FirstParts(a, b, rt, start, f, r1, n, last, added, p);
    KeptAt(a, b, rt, added, r1 / 512, Past(r1, n), g);
    if r1 / 512 <= g < Past(r1, n) {
      var v := if 512 * g < r1 then r1 else 512 * g;
      assert v / 512 == g && start <= v < r1 + n;
      assert Served(b.t, rt, v);
    }
  }

  lemma AfterFirstScan(a: View, b: View, rt: nat, start: nat, f: nat, top: nat, n: nat, r1: nat, last: nat,
                       added: set<nat>, p: nat)
    requires Frontier(a.t, rt, start, f, top) && 1 <= n && f + n + Extra(n) < top
    requires FirstDone(a, b, rt, start, f, r1, n, last, added, p)
    ensures KERNEL_START <= r1 && r1 + 512 < PAGES && r1 / 512 % 512 < 511 && Served(b.t, rt, r1)
    ensures Covered(b.t, rt, r1, r1, if HasPt(b.t, rt, r1 / 512 + 1) then 0 else 1)
  {
    hide Mapped, Frontier, MissingIn, Spent, GrownIn, HasPt;
    UpperTables(a.t, rt, start, f, top, r1) by { FrontierFacts(a.t, rt, start, f, top); }
    assert Served(b.t, rt, r1);
    ShiftBounds(a.t, rt, start, f, top, r1, n);
    assert r1 / 512 + 1 < Pow512(3) by { LevelSizes(); }
    FirstTables(a, b, rt, start, f, top, r1, n, last, added, p, r1 / 512 + 1);
    if !HasPt(b.t, rt, r1 / 512 + 1) {
      assert b == a && !Mapped(a.t, rt, r1);
    }
  }

  // The state before the second search: which groups have tables, and which pages went to them.
  ghost predicate Halfway(a: View, c: View, rt: nat, start: nat, r1: nat, n: nat, added: set<nat>) {
    var s := Shift(a.t, rt, start, r1, n);
    && Added(a.t, c.t, rt, added) && HomeGrows(a.home, c.home) && FramesGrow(a.ws, c.ws)
    && TablesAre(a.t, c.t, rt, r1, n) && |added| <= Extra(n) && |added| == TablesMade(a.t, rt, r1, n)
    && Within(added, start, r1 + s) && (forall v :: r1 <= v < r1 + s ==> v in added)
    && (forall k: nat, h: nat {:trigger At(c.t, rt, k, h)} :: k <= 3 && h < Pow512(k) && At(a.t, rt, k, h).Some? ==>
          At(c.t, rt, k, h) == At(a.t, rt, k, h))
    && Entered(a.t, c.t, rt)
  }

  // Where the second search has a reserve.
  ghost function Second(t: Tables, r: nat, start: nat, f: nat, r1: nat, n: nat): nat {
    var s := Shift(t, r, start, r1, n);
    if s == 0 || r1 + n > f then r1 + s else f
  }

  lemma AfterNextPt(a: View, b: View, c: View, rt: nat, start: nat, f: nat, top: nat, n: nat, r1: nat, last: nat,
                    added: set<nat>, more: set<nat>, p: nat)
    requires Frontier(a.t, rt, start, f, top) && 1 <= n && f + n + Extra(n) < top
    requires FirstDone(a, b, rt, start, f, r1, n, last, added, p)
    requires Grown(b.t, b.home, b.ws, c.t, c.home, c.ws, rt, more, r1 / 512 + 1) && HasPt(c.t, rt, r1 / 512 + 1)
    requires |more| == (if HasPt(b.t, rt, r1 / 512 + 1) then 0 else 1) && (more == {} ==> c == b)
    requires TookFirst(b.t, rt, r1, more)
    ensures |added + more| == |added| + |more|
    ensures Halfway(a, c, rt, start, r1, n, added + more) && Ready(c.t, rt, r1, Second(a.t, rt, start, f, r1, n), 1, n)
    ensures HomeGrows(a.home, b.home) && HomeGrows(a.home, c.home)
  {
    hide Mapped, HasPt, Frontier, MissingIn, Added, HomeGrows, FramesGrow, WalkGrows, WalkGrowsIn, TookFirst, Ready,
         Need, Shift, Second, FirstDone, GrownIn;
    FirstParts(a, b, rt, start, f, r1, n, last, added, p);
    AddedTwice(a.t, b.t, c.t, rt, added, more);
    EnteredAfter(a.t, b.t, c.t, rt, r1 / 512, Past(r1, n), more, r1 / 512 + 1);
    FramesGrowTwice(a.ws, b.ws, c.ws);
    HomeGrowsOn(a.home, b.home, c.home);
    HalfwayTables(a, b, c, rt, start, f, top, n, r1, last, added, more, p);
    HalfwayPages(a, b, rt, start, f, top, n, r1, last, added, more, p);
    HalfwayReady(a, c, rt, start, f, top, n, r1, added + more);
  }

  lemma HomeGrowsOn(a: map<nat, Home>, b: map<nat, Home>, c: map<nat, Home>)
    requires HomeGrows(a, b) && HomeGrows(b, c)
    ensures HomeGrows(a, c)
  {
  }

  lemma FirstParts(a: View, b: View, rt: nat, start: nat, f: nat, r1: nat, n: nat, last: nat, added: set<nat>, p: nat)
    requires FirstDone(a, b, rt, start, f, r1, n, last, added, p)
    ensures Added(a.t, b.t, rt, added) && HomeGrows(a.home, b.home) && FramesGrow(a.ws, b.ws)
    ensures WalkGrowsIn(a.t, b.t, rt, r1 / 512, Past(r1, n)) && start <= r1 <= f && Window(a.t, rt, r1, n)
    ensures TablesCover(b.t, rt, start, r1 + n)
  {
    hide Added, WalkGrowsIn, HomeGrows, FramesGrow, MissingIn, Spent, Mapped;
  }

  lemma HalfwayTables(a: View, b: View, c: View, rt: nat, start: nat, f: nat, top: nat, n: nat, r1: nat, last: nat,
                      added: set<nat>, more: set<nat>, p: nat)
    requires Frontier(a.t, rt, start, f, top) && 1 <= n && FirstDone(a, b, rt, start, f, r1, n, last, added, p)
    requires WalkGrows(b.t, c.t, rt, r1 / 512 + 1) && HasPt(c.t, rt, r1 / 512 + 1)
    requires WalkGrowsIn(a.t, b.t, rt, r1 / 512, Past(r1, n))
    ensures TablesAre(a.t, c.t, rt, r1, n)
    ensures forall k: nat, h: nat {:trigger At(c.t, rt, k, h)} :: k <= 3 && h < Pow512(k) && At(a.t, rt, k, h).Some? ==>
              At(c.t, rt, k, h) == At(a.t, rt, k, h)
  {
    hide Frontier, FirstDone, WalkGrows, WalkGrowsIn, At, Past, Pow512;
    forall g: nat | g < Pow512(3) ensures HasPt(c.t, rt, g) <==> TableThere(a.t, rt, r1, n, g) {
      FirstTables(a, b, rt, start, f, top, r1, n, last, added, p, g);
      WalkGrowsAt(b.t, c.t, rt, r1 / 512 + 1, 3, g);
    }
    forall k: nat, h: nat | k <= 3 && h < Pow512(k) && At(a.t, rt, k, h).Some?
      ensures At(c.t, rt, k, h) == At(a.t, rt, k, h)
    {
      WalkGrowsInAt(a.t, b.t, rt, r1 / 512, Past(r1, n), k, h);
      WalkGrowsAt(b.t, c.t, rt, r1 / 512 + 1, k, h);
    }
  }

  // The pages taken so far: those below the region first, then the region's own.
  lemma HalfwayPages(a: View, b: View, rt: nat, start: nat, f: nat, top: nat, n: nat, r1: nat, last: nat,
                     added: set<nat>, more: set<nat>, p: nat)
    requires Frontier(a.t, rt, start, f, top) && 1 <= n && f + n + Extra(n) < top
    requires FirstDone(a, b, rt, start, f, r1, n, last, added, p)
    requires |more| == (if HasPt(b.t, rt, r1 / 512 + 1) then 0 else 1) && TookFirst(b.t, rt, r1, more)
    requires |added + more| == |added| + |more|
    ensures var s := Shift(a.t, rt, start, r1, n);
            && |added + more| <= Extra(n) && |added + more| == TablesMade(a.t, rt, r1, n)
            && Within(added + more, start, r1 + s)
            && (forall v :: r1 <= v < r1 + s ==> v in added + more)
  {
    hide Mapped, HasPt, Frontier, MissingIn, GrownIn, TookFirst, TablesCover;
    var j := MissingIn(a.t, rt, r1 / 512, Past(r1, n));
    ShiftBounds(a.t, rt, start, f, top, r1, n);
    LevelSizes();
    UpperTables(a.t, rt, start, f, top, r1) by { FrontierFacts(a.t, rt, start, f, top); }
    FirstTables(a, b, rt, start, f, top, r1, n, last, added, p, r1 / 512 + 1);
    if j == 0 {
      NoneMissingNext(a.t, rt, r1, n);
      if !HasPt(a.t, rt, r1 / 512 + 1) {
        assert !Mapped(a.t, rt, r1);
        TookThis(b.t, rt, r1, more);
      } else {
        assert more == {};
      }
    } else {
      assert more == {};
      assert added + more == added;
      TakenToIs(a.t, rt, start, added, p);
      var s := Shift(a.t, rt, start, r1, n);
      forall v | r1 <= v < r1 + s ensures v in added {
        assert r1 <= v < r1 + (top - r1);
        assert !Mapped(a.t, rt, v);
      }
    }
  }

  lemma NoneMissingNext(t: Tables, r: nat, r1: nat, n: nat)
    requires MissingIn(t, r, r1 / 512, Past(r1, n)) == 0
    ensures r1 / 512 <= r1 / 512 + 1 < Past(r1, n) ==> HasPt(t, r, r1 / 512 + 1)
  {
    NoneMissing(t, r, r1 / 512, Past(r1, n));
  }

  lemma TookThis(t: Tables, r: nat, r1: nat, more: set<nat>)
    requires |more| == 1 && TookFirst(t, r, r1, more) && !Mapped(t, r, r1)
    ensures more == {r1}
  {
    var q := PageAfterIs(more);
    assert FirstWindow(t, r, r1, q, 1);
    if r1 < q { OneIsMapped(t, r, r1, r1, q); }
  }

  lemma HalfwayReady(a: View, c: View, rt: nat, start: nat, f: nat, top: nat, n: nat, r1: nat, added: set<nat>)
    requires Frontier(a.t, rt, start, f, top) && 1 <= n
    requires f + n + Extra(n) < top && start <= r1 <= f && Window(a.t, rt, r1, n)
    requires Halfway(a, c, rt, start, r1, n, added)
    ensures Ready(c.t, rt, r1, Second(a.t, rt, start, f, r1, n), 1, n)
  {
    hide Mapped, HasPt, Frontier, MissingIn, Added, HomeGrows, FramesGrow, Need, Shift, Halfway;
    FrontierFacts(a.t, rt, start, f, top);
    ShiftBounds(a.t, rt, start, f, top, r1, n);
    var w, s := Second(a.t, rt, start, f, r1, n), Shift(a.t, rt, start, r1, n);
    assert w <= f + Extra(n);
    forall v | w <= v < w + n ensures !Mapped(c.t, rt, v) {
      if s == 0 { assert !Mapped(a.t, rt, v); }
      else if r1 + n > f { assert r1 <= v < r1 + (top - r1); assert !Mapped(a.t, rt, v); }
      else { assert f <= v < f + (top - f); assert !Mapped(a.t, rt, v); }
      HalfwayFree(a, c, rt, start, r1, n, added, v);
    }
    assert !Mapped(c.t, rt, w);
    forall v | r1 <= v < w + 1 ensures Served(c.t, rt, v) {
      HalfwayServed(a, c, rt, start, f, top, n, r1, added, v);
    }
    forall v | r1 <= v < w + n ensures Need(c.t, rt, v / 512) <= 1 {
      UpperTables(a.t, rt, start, f, top, v);
      HalfwayNeed(a, c, rt, start, r1, n, added, v);
    }
  }

  // From the shifted region on, pages are free if and only if they were before.
  lemma HalfwayFree(a: View, c: View, rt: nat, start: nat, r1: nat, n: nat, added: set<nat>, v: nat)
    requires Halfway(a, c, rt, start, r1, n, added) && v < PAGES
    ensures v >= r1 + Shift(a.t, rt, start, r1, n) ==> Mapped(c.t, rt, v) == Mapped(a.t, rt, v)
    ensures r1 <= v < r1 + Shift(a.t, rt, start, r1, n) ==> Mapped(c.t, rt, v)
  {
    hide Mapped, HasPt, Added, HomeGrows, FramesGrow, Shift, TablesAre, Leaf;
    AddedAt(a.t, c.t, rt, added, v);
    if v !in added { SameLeafSameMapped(a.t, c.t, rt, v); }
  }

  lemma HalfwayServed(a: View, c: View, rt: nat, start: nat, f: nat, top: nat, n: nat, r1: nat, added: set<nat>, v: nat)
    requires Frontier(a.t, rt, start, f, top) && 1 <= n
    requires f + n + Extra(n) < top && start <= r1 <= f && Window(a.t, rt, r1, n)
    requires Halfway(a, c, rt, start, r1, n, added) && r1 <= v <= Second(a.t, rt, start, f, r1, n)
    ensures Served(c.t, rt, v)
  {
    hide Mapped, HasPt, Frontier, MissingIn, Added, HomeGrows, FramesGrow, Need, Shift, Window;
    ShiftBounds(a.t, rt, start, f, top, r1, n);
    UpperTables(a.t, rt, start, f, top, v) by { FrontierFacts(a.t, rt, start, f, top); }
    TablesAreAt(a.t, c.t, rt, r1, n, v / 512);
    if v <= f { FrontierServes(a.t, rt, start, f, top, v / 512); }
    else {
      assert v <= r1 + Extra(n);
      if n == 1 { assert v <= r1 + 1; } else { assert Extra(n) <= n - 1; }
    }
  }

  lemma HalfwayNeed(a: View, c: View, rt: nat, start: nat, r1: nat, n: nat, added: set<nat>, v: nat)
    requires Halfway(a, c, rt, start, r1, n, added) && v / 512 < Pow512(3)
    requires At(a.t, rt, 2, v / 512 / 512).Some? && At(a.t, rt, 1, v / 512 / 512 / 512).Some?
    ensures Need(c.t, rt, v / 512) <= 1
  {
    hide Added, HomeGrows, FramesGrow, Shift, TablesAre;
    LevelSizes();
  }

  lemma AfterSecondScan(a: View, c: View, d: View, rt: nat, start: nat, f: nat, top: nat, n: nat, r1: nat, r: nat,
                        last: nat, added: set<nat>, more: set<nat>, p: nat)
    requires Frontier(a.t, rt, start, f, top) && 1 <= n && f + n + Extra(n) < top
    requires FirstWindow(a.t, rt, start, r1, n) && r1 <= f && Halfway(a, c, rt, start, r1, n, added)
    requires FirstWindow(c.t, rt, r1, r, n) && r <= Second(a.t, rt, start, f, r1, n) && TablesCover(d.t, rt, r1, r + n)
    requires GrownIn(c, d, rt, more, r / 512, Past(r, n))
    requires var j := MissingIn(c.t, rt, r / 512, Past(r, n));
             Spent(c.t, rt, r1, Second(a.t, rt, start, f, r1, n), 1, j, last, more, p) && (j == 0 ==> d == c)
    ensures Plan(a.t, rt, start, f, n) == Growth(r1, Shift(a.t, rt, start, r1, n), r) && Served(d.t, rt, r)
    ensures KERNEL_START <= r < PAGES
    ensures HomeGrows(a.home, d.home) && FramesGrow(a.ws, d.ws)
    ensures Stops(a.t, rt, start, f, n) ==> Mapped(d.t, rt, r)
    ensures !Stops(a.t, rt, start, f, n) ==>
              && Window(d.t, rt, r, n) && TablesCover(d.t, rt, r, r + n)
              && Added(a.t, d.t, rt, added) && |added| <= Extra(n) && Within(added, start, r) && Entered(a.t, d.t, rt)
              && TablesAre(a.t, d.t, rt, r1, n) && |added| == TablesMade(a.t, rt, r1, n) && d.ws == c.ws
  {
    hide Mapped, HasPt, Frontier, MissingIn, Added, HomeGrows, FramesGrow, Need, Shift, WalkGrowsIn, Spent, TablesAre,
         Second, Halfway, TableThere, FirstFit, FirstWindow;
    PlanIs(a, c, rt, start, f, top, n, r1, r, added);
    HalfwayParts(a, c, rt, start, r1, n, added);
    HomeGrowsOn(a.home, c.home, d.home);
    FramesGrowTwice(a.ws, c.ws, d.ws);
    assert Served(d.t, rt, r);
    FirstFitIs(a.t, rt, start, f, n, r1);
    WindowIs(a.t, rt, start, r1, n);
    SecondMissing(a, c, rt, start, f, top, n, r1, r, added);
    WindowIs(c.t, rt, r1, r, n);
    FrontierFacts(a.t, rt, start, f, top);
    assert !Mapped(c.t, rt, r);
    if Stops(a.t, rt, start, f, n) {
      SecondTakes(a, c, d, rt, start, r1, n, r, last, added, more, p, Second(a.t, rt, start, f, r1, n));
    } else {
      forall v | r <= v < r + n ensures Served(d.t, rt, v) {
        assert r1 <= v < r + n;
      }
    }
  }

  // The searches that fail for lack of frames
  lemma FirstStuck(t: Tables, rt: nat, start: nat, f: nat, top: nat, n: nat, r: nat)
    requires Frontier(t, rt, start, f, top) && 1 <= n && f + n + Extra(n) < top && FirstWindow(t, rt, start, r, n)
    requires MissingIn(t, rt, r / 512, Past(r, n)) > 0
    ensures Plan(t, rt, start, f, n).first == r
    ensures TablesMade(t, rt, r, n) == MissingIn(t, rt, r / 512, Past(r, n))
  {
    hide Mapped, HasPt, MissingIn, Frontier, Shift, FitFrom;
    FrontierFacts(t, rt, start, f, top);
    assert Window(t, rt, f, n);
    FirstIsBefore(t, rt, start, r, f, n);
    FirstFitIs(t, rt, start, f, n, r);
  }

  lemma NextStuck(a: View, b: View, rt: nat, start: nat, f: nat, top: nat, n: nat, r1: nat, last: nat,
                  added: set<nat>, p: nat)
    requires Frontier(a.t, rt, start, f, top) && 1 <= n && f + n + Extra(n) < top
    requires FirstDone(a, b, rt, start, f, r1, n, last, added, p) && !HasPt(b.t, rt, r1 / 512 + 1)
    ensures b == a && Plan(a.t, rt, start, f, n).first == r1 && TablesMade(a.t, rt, r1, n) == 1
  {
    hide Mapped, HasPt, MissingIn, Frontier, Shift, FitFrom, Spent, GrownIn;
    WindowIs(a.t, rt, start, r1, n);
    ShiftBounds(a.t, rt, start, f, top, r1, n);
    UpperTables(a.t, rt, start, f, top, r1) by { FrontierFacts(a.t, rt, start, f, top); }
    LevelSizes();
    FirstTables(a, b, rt, start, f, top, r1, n, last, added, p, r1 / 512 + 1);
    FirstFitIs(a.t, rt, start, f, n, r1);
  }

  lemma SecondStuck(a: View, c: View, rt: nat, start: nat, f: nat, top: nat, n: nat, r1: nat, r: nat, added: set<nat>)
    requires Frontier(a.t, rt, start, f, top) && 1 <= n && f + n + Extra(n) < top
    requires FirstWindow(a.t, rt, start, r1, n) && r1 <= f && Halfway(a, c, rt, start, r1, n, added)
    requires FirstWindow(c.t, rt, r1, r, n) && MissingIn(c.t, rt, r / 512, Past(r, n)) > 0
    ensures Stops(a.t, rt, start, f, n)
  {
    hide Mapped, HasPt, MissingIn, Frontier, Shift, Halfway, FirstFit, FirstWindow, Stops, TableThere;
    HalfwayReady(a, c, rt, start, f, top, n, r1, added) by { WindowIs(a.t, rt, start, r1, n); }
    FirstIsBefore(c.t, rt, r1, r, Second(a.t, rt, start, f, r1, n), n);
    PlanIs(a, c, rt, start, f, top, n, r1, r, added);
    FirstFitIs(a.t, rt, start, f, n, r1);
    WindowIs(a.t, rt, start, r1, n);
    SecondMissing(a, c, rt, start, f, top, n, r1, r, added);
  }

  lemma FirstIsBefore(t: Tables, r: nat, start: nat, a: nat, w: nat, n: nat)
    requires FirstWindow(t, r, start, a, n) && start <= w && Window(t, r, w, n)
    ensures a <= w
  {
  }

  lemma WindowIs(t: Tables, r: nat, start: nat, a: nat, n: nat)
    requires FirstWindow(t, r, start, a, n)
    ensures Window(t, r, a, n) && start <= a
  {
  }

  lemma HalfwayParts(a: View, c: View, rt: nat, start: nat, r1: nat, n: nat, added: set<nat>)
    requires Halfway(a, c, rt, start, r1, n, added)
    ensures Added(a.t, c.t, rt, added) && HomeGrows(a.home, c.home) && FramesGrow(a.ws, c.ws)
    ensures TablesAre(a.t, c.t, rt, r1, n) && |added| <= Extra(n)
    ensures Within(added, start, r1 + Shift(a.t, rt, start, r1, n))
    ensures |added| == TablesMade(a.t, rt, r1, n) && Entered(a.t, c.t, rt)
  {
    hide Added, HomeGrows, FramesGrow, TablesAre, TablesMade, Within, Shift;
  }

  // The second search ends where the plan says.
  lemma PlanIs(a: View, c: View, rt: nat, start: nat, f: nat, top: nat, n: nat, r1: nat, r: nat, added: set<nat>)
    requires Frontier(a.t, rt, start, f, top) && 1 <= n && f + n + Extra(n) < top
    requires FirstWindow(a.t, rt, start, r1, n) && r1 <= f && Halfway(a, c, rt, start, r1, n, added)
    requires FirstWindow(c.t, rt, r1, r, n) && r <= Second(a.t, rt, start, f, r1, n)
    ensures Plan(a.t, rt, start, f, n) == Growth(r1, Shift(a.t, rt, start, r1, n), r)
    ensures r1 + Shift(a.t, rt, start, r1, n) <= r
    ensures r == r1 + Shift(a.t, rt, start, r1, n) || r <= f
  {
    hide Mapped, HasPt, Frontier, MissingIn, Halfway, Shift;
    var s := Shift(a.t, rt, start, r1, n);
    FrontierFacts(a.t, rt, start, f, top);
    ShiftBounds(a.t, rt, start, f, top, r1, n);
    FirstFitIs(a.t, rt, start, f, n, r1);
    assert !Mapped(c.t, rt, r);
    HalfwayFree(a, c, rt, start, r1, n, added, r);
    forall o | r1 + s <= o <= r ensures Window(a.t, rt, o, n) == Window(c.t, rt, o, n) {
      forall v | o <= v < o + n ensures Mapped(a.t, rt, v) == Mapped(c.t, rt, v) {
        HalfwayFree(a, c, rt, start, r1, n, added, v);
      }
    }
    FirstFitIs(a.t, rt, r1 + s, if f > r1 + s then f else r1 + s, n, r);
  }

  // The second search meets a missing table if and only if the last page's group has none.
  lemma SecondMissing(a: View, c: View, rt: nat, start: nat, f: nat, top: nat, n: nat, r1: nat, r: nat, added: set<nat>)
    requires Frontier(a.t, rt, start, f, top) && 1 <= n && f + n + Extra(n) < top
    requires start <= r1 <= f && Window(a.t, rt, r1, n) && Halfway(a, c, rt, start, r1, n, added)
    requires r1 + Shift(a.t, rt, start, r1, n) <= r && (r == r1 + Shift(a.t, rt, start, r1, n) || r <= f)
    requires Plan(a.t, rt, start, f, n) == Growth(r1, Shift(a.t, rt, start, r1, n), r)
    requires r1 == FirstFit(a.t, rt, start, f, n)
    ensures MissingIn(c.t, rt, r / 512, Past(r, n)) == if Stops(a.t, rt, start, f, n) then 1 else 0
    ensures r < top && (Stops(a.t, rt, start, f, n) ==> r == r1 + Shift(a.t, rt, start, r1, n))
  {
    hide Mapped, HasPt, Frontier, Halfway, Shift, Window, TableThere, TablesAre, FirstFit, MissingIn, Past, Extra,
         Plan, Stops;
    StopsIs(a.t, rt, start, f, n);
    PastIs(r, n);
    InGap(a.t, rt, start, f, top, n, r1, r);
    SecondTables(a, c, rt, start, f, top, n, r1, r, added);
    OnlyLastMissing(c.t, rt, r / 512, (r + n - 1) / 512);
  }

  lemma SecondTables(a: View, c: View, rt: nat, start: nat, f: nat, top: nat, n: nat, r1: nat, r: nat, added: set<nat>)
    requires Frontier(a.t, rt, start, f, top) && 1 <= n && f + n + Extra(n) < top
    requires start <= r1 <= f && Window(a.t, rt, r1, n) && Halfway(a, c, rt, start, r1, n, added)
    requires r1 + Shift(a.t, rt, start, r1, n) <= r && (r == r1 + Shift(a.t, rt, start, r1, n) || r <= f)
    requires r == FitFrom(a.t, rt, f, r1 + Shift(a.t, rt, start, r1, n), n)
    ensures forall g {:trigger HasPt(c.t, rt, g)} :: r / 512 <= g < (r + n - 1) / 512 ==> HasPt(c.t, rt, g)
    ensures HasPt(c.t, rt, (r + n - 1) / 512) <==> TableThere(a.t, rt, r1, n, (r + n - 1) / 512)
  {
    hide Mapped, HasPt, Frontier, Halfway, Shift, Window, TableThere, TablesAre, FirstFit, MissingIn, Extra;
    var last := (r + n - 1) / 512;
    HalfwayParts(a, c, rt, start, r1, n, added);
    LastBound(a.t, rt, start, f, top, n, r1, r);
    TablesAreAt(a.t, c.t, rt, r1, n, last);
    forall g {:trigger HasPt(c.t, rt, g)} | r / 512 <= g < last ensures HasPt(c.t, rt, g) {
      TablesAreAt(a.t, c.t, rt, r1, n, g);
      BeforeLast(a.t, rt, start, f, top, n, r1, r, g);
    }
  }

  lemma LastBound(t: Tables, rt: nat, start: nat, f: nat, top: nat, n: nat, r1: nat, r: nat)
    requires Frontier(t, rt, start, f, top) && 1 <= n
    requires f + n + Extra(n) < top && start <= r1 <= f && Window(t, rt, r1, n)
    requires r1 + Shift(t, rt, start, r1, n) <= r && (r == r1 + Shift(t, rt, start, r1, n) || r <= f)
    ensures (r + n - 1) / 512 < Pow512(3) && n < 512 * 512
  {
    hide Mapped, HasPt, Frontier, Shift, Window, MissingIn;
    FrontierFacts(t, rt, start, f, top);
    ShiftBounds(t, rt, start, f, top, r1, n);
    UpperTables(t, rt, start, f, top, r + n - 1);
    SpanBounds(start, top, f, n);
  }

  lemma PastIs(r: nat, n: nat)
    requires 1 <= n
    ensures Past(r, n) == (r + n - 1) / 512 + 1
  {
  }

  lemma StopsIs(t: Tables, r: nat, start: nat, f: nat, n: nat)
    requires 1 <= n
    ensures Stops(t, r, start, f, n) <==>
            !TableThere(t, r, Plan(t, r, start, f, n).first, n, (Plan(t, r, start, f, n).region + n - 1) / 512)
    ensures var g := Plan(t, r, start, f, n);
            && g.first == FirstFit(t, r, start, f, n) && g.shift == Shift(t, r, start, g.first, n)
            && g.region == FitFrom(t, r, f, g.first + g.shift, n)
  {
    hide FirstFit, FitFrom, Shift, TableThere, HasPt, Mapped;
  }

  lemma OnlyLastMissing(t: Tables, r: nat, lo: nat, last: nat)
    requires forall g {:trigger HasPt(t, r, g)} :: lo <= g < last ==> HasPt(t, r, g)
    requires lo <= last
    ensures MissingIn(t, r, lo, last + 1) == if HasPt(t, r, last) then 0 else 1
  {
    hide HasPt;
    NoneMissing(t, r, lo, last);
  }

  lemma WindowAfter(t: Tables, r: nat, r1: nat, top: nat, s: nat, n: nat)
    requires r1 + s + n <= top
    ensures Window(t, r, r1, top - r1) ==> Window(t, r, r1 + s, n)
  {
    hide Mapped;
  }

  // All groups of the second region but the last have their tables.
  lemma BeforeLast(t: Tables, rt: nat, start: nat, f: nat, top: nat, n: nat, r1: nat, r: nat, g: nat)
    requires Frontier(t, rt, start, f, top) && 1 <= n
    requires f + n + Extra(n) < top && start <= r1 <= f && Window(t, rt, r1, n)
    requires r1 + Shift(t, rt, start, r1, n) <= r && (r == r1 + Shift(t, rt, start, r1, n) || r <= f)
    requires r == FitFrom(t, rt, f, r1 + Shift(t, rt, start, r1, n), n)
    requires r / 512 <= g < (r + n - 1) / 512 && n < 512 * 512
    ensures TableThere(t, rt, r1, n, g)
  {
    hide Mapped, HasPt, Frontier, Shift, Window, MissingIn, FirstFit;
    ShiftBounds(t, rt, start, f, top, r1, n);
    InGap(t, rt, start, f, top, n, r1, r);
    if g <= f / 512 {
      FrontierServes(t, rt, start, f, top, g);
    } else if r == r1 + Shift(t, rt, start, r1, n) {
      assert r <= r1 + 512;
    }
  }

  // A region that is not just shifted lies, like the first one, before the frontier, in the groups of
  // its first page and the next one.
  lemma InGap(t: Tables, rt: nat, start: nat, f: nat, top: nat, n: nat, r1: nat, r: nat)
    requires Frontier(t, rt, start, f, top) && 1 <= n
    requires f + n + Extra(n) < top && start <= r1 <= f && Window(t, rt, r1, n)
    requires r1 + Shift(t, rt, start, r1, n) <= r
    requires r == FitFrom(t, rt, f, r1 + Shift(t, rt, start, r1, n), n)
    ensures r != r1 + Shift(t, rt, start, r1, n) ==>
              TableThere(t, rt, r1, n, (r + n - 1) / 512) && r <= f && r1 / 512 == f / 512 && r1 + n <= f
    ensures r < top
  {
    hide Mapped, HasPt, Frontier, MissingIn, Shift;
    var s := Shift(t, rt, start, r1, n);
    FrontierFacts(t, rt, start, f, top);
    ShiftBounds(t, rt, start, f, top, r1, n);
    WindowAfter(t, rt, r1, top, s, n);
  }

  lemma SpanBounds(start: nat, top: nat, f: nat, n: nat)
    requires start <= f && f + n < top && start / 512 / 512 == top / 512 / 512
    ensures n < 512 * 512
  {
  }

  // The table that the second search makes goes into the first page of its own region.
  lemma SecondTakes(a: View, c: View, d: View, rt: nat, start: nat, r1: nat, n: nat, r: nat, last: nat,
                    added: set<nat>, more: set<nat>, p: nat, w: nat)
    requires Halfway(a, c, rt, start, r1, n, added)
    requires r == r1 + Shift(a.t, rt, start, r1, n) && !Mapped(c.t, rt, r) && r < PAGES
    requires GrownIn(c, d, rt, more, r / 512, Past(r, n)) && Spent(c.t, rt, r1, w, 1, 1, last, more, p)
    ensures Mapped(d.t, rt, r)
  {
    hide Mapped, Halfway, WalkGrowsIn, HomeGrows, FramesGrow, Added, HasPt, Need, Shift;
    var q := PageAfterIs(more);
    assert q in more && r1 <= q && !Mapped(c.t, rt, q);
    if q < r { HalfwayFree(a, c, rt, start, r1, n, added, q); }
    if r < q { assert r in more; }
    AddedAt(c.t, d.t, rt, more, r);
  }

  lemma EmptyScanReady(t: Tables, r: nat, start: nat, f: nat, top: nat)
    requires Frontier(t, r, start, f, top)
    ensures Ready(t, r, start, start, 0, 0)
  {
  }

  lemma EmptyScan(t: Tables, rt: nat, start: nat, r: nat, last: nat, added: set<nat>, p: nat)
    requires FirstWindow(t, rt, start, r, 0)
    requires Spent(t, rt, start, start, 0, MissingIn(t, rt, r / 512, Past(r, 0)), last, added, p)
    ensures r == start && MissingIn(t, rt, r / 512, Past(r, 0)) == 0
  {
    assert Window(t, rt, start, 0);
  }

  lemma NextTableReady(t: Tables, r: nat, start: nat, f: nat, top: nat)
    requires Frontier(t, r, start, f, top)
    ensures KERNEL_START <= start && start + 512 < PAGES && start / 512 % 512 < 511 && Served(t, r, start)
    ensures Covered(t, r, start, f, if HasPt(t, r, start / 512 + 1) then 0 else 1)
  {
    hide Mapped, HasPt;
    UpperTables(t, r, start, f, top, start);
    assert Served(t, r, start);
  }

  lemma TableAhead(t0: Tables, h0: map<nat, Home>, w0: seq<bv64>, t: Tables, h: map<nat, Home>, ws: seq<bv64>,
                   rt: nat, start: nat, f: nat, f': nat, top: nat, added: set<nat>)
    requires Frontier(t0, rt, start, f, top) && f + 1 < top && f' == (if added == {} then f else f + 1)
    requires Grown(t0, h0, w0, t, h, ws, rt, added, start / 512 + 1) && Within(added, start, f + 1)
    requires HasPt(t, rt, start / 512 + 1) && |added| == (if HasPt(t0, rt, start / 512 + 1) then 0 else 1)
    ensures Frontier(t, rt, start, f', top)
  {
    hide Mapped, HasPt, Added, WalkGrows, HomeGrows, FramesGrow, Leaf;
    CoverKept(t0, t, rt, start, f + 1, start / 512 + 1);
    if added != {} {
      if start / 512 < f / 512 { FrontierServes(t0, rt, start, f, top, start / 512 + 1); }
      assert Served(t, rt, f);
      assert (f + 1) / 512 == f / 512 || (f + 1) / 512 == f / 512 + 1;
      assert Served(t, rt, f + 1);
    }
    forall v | f' <= v < top ensures !Mapped(t, rt, v) {
      assert f <= v < f + (top - f);
      assert !Mapped(t0, rt, v) && v !in added;
      AddedAt(t0, t, rt, added, v);
      SameLeafSameMapped(t0, t, rt, v);
    }
  }

  // ------------------------------------------------------------------------------------------
  // Which growths land, and which stop the kernel
  // ------------------------------------------------------------------------------------------

  // A growth of at most 511 pages always lands, and so does a longer one that ends, with one page more,
  // in the group of the old end or the next one.
  lemma ShortGrowth(t: Tables, r: nat, start: nat, f: nat, top: nat, n: nat)
    requires Frontier(t, r, start, f, top) && 1 <= n && f + n + Extra(n) < top
    requires n <= 511 || (f + 1 + n) / 512 <= start / 512 + 1
    ensures Lands(t, r, start, f, n) && !Stops(t, r, start, f, n)
  {
    hide Mapped, HasPt, Frontier, Shift, Window, MissingIn, FirstFit, FirstWindow;
    PlanBounds(t, r, start, f, top, n);
    var g := Plan(t, r, start, f, n);
    WindowIs(t, r, start, g.first, n);
    ShiftBounds(t, r, start, f, top, g.first, n);
    SmallShift(t, r, start, f, top, g.first, n);
    InGap(t, r, start, f, top, n, g.first, g.region);
    assert (g.region + n) / 512 <= g.first / 512 + 1;
  }

  lemma SmallShift(t: Tables, r: nat, start: nat, f: nat, top: nat, r1: nat, n: nat)
    requires Frontier(t, r, start, f, top) && 1 <= n
    requires f + n + Extra(n) < top && start <= r1 <= f && Window(t, r, r1, n)
    requires n <= 511 || (f + 1 + n) / 512 <= start / 512 + 1
    ensures Shift(t, r, start, r1, n) <= 1
  {
    hide Mapped, HasPt, Frontier, Window, MissingIn;
    ShiftBounds(t, r, start, f, top, r1, n);
    FrontierServes(t, r, start, f, top, r1 / 512);
    MissingTail(t, r, r1 / 512, Past(r1, n));
    assert (r1 + n - 1) / 512 <= r1 / 512 + 1;
  }

  // The usual state: the heap ends where the free pages start, and no table is present beyond.
  ghost predicate Bare(t: Tables, r: nat, f: nat, top: nat) {
    Frontier(t, r, f, f, top) && forall g {:trigger HasPt(t, r, g)} :: f / 512 < g <= top / 512 + 1 ==> !HasPt(t, r, g)
  }

  // Tables that n pages need when they start at offset s of a group that has one
  function Made(s: nat, n: nat): nat
    requires 1 <= n
  {
    (s + n - 1) / 512
  }

  // Pages that go to tables before the second search: those for the first region, or that for the next table
  function Shifted(s: nat, n: nat): nat
    requires 1 <= n
  {
    if Made(s, n) == 0 then 1 else Made(s, n)
  }

  // The growth ends under the last table made.
  predicate LandsFrom(s: nat, n: nat)
    requires 1 <= n
  {
    (s + Shifted(s, n) + n) / 512 <= Shifted(s, n)
  }

  // Its last page lies past that table.
  predicate StopsFrom(s: nat, n: nat)
    requires 1 <= n
  {
    (s + Shifted(s, n) + n - 1) / 512 > Shifted(s, n)
  }

  // In that state the offset of heap_end in its group decides.
  lemma BareGrowth(t: Tables, r: nat, f: nat, top: nat, n: nat)
    requires Bare(t, r, f, top) && 1 <= n && f + n + Extra(n) < top
    ensures Plan(t, r, f, f, n) == Growth(f, Shifted(f % 512, n), f + Shifted(f % 512, n))
    ensures Lands(t, r, f, f, n) <==> LandsFrom(f % 512, n)
    ensures Stops(t, r, f, f, n) <==> StopsFrom(f % 512, n)
    ensures TablesMade(t, r, f, n) == Shifted(f % 512, n)
  {
    hide Mapped, HasPt, Window, MissingIn, SpendTo, FirstFit, Frontier, TableThere, TablesMade;
    var s, c := f % 512, Shifted(f % 512, n);
    FrontierFacts(t, r, f, f, top);
    FrontierServes(t, r, f, f, top, f / 512);
    WindowAfter(t, r, f, top, 0, n);
    FitsAtOnce(t, r, f, f, n);
    BareShift(t, r, f, top, n);
    WindowAfter(t, r, f, top, c, n);
    FitsAtOnce(t, r, f + c, f + c, n);
    BareTables(t, r, f, top, n, (f + c + n) / 512);
    BareTables(t, r, f, top, n, (f + c + n - 1) / 512);
  }

  lemma FitsAtOnce(t: Tables, r: nat, lo: nat, hi: nat, n: nat)
    requires hi <= lo
    ensures FirstFit(t, r, lo, hi, n) == lo
  {
  }

  lemma BareTables(t: Tables, r: nat, f: nat, top: nat, n: nat, g: nat)
    requires Bare(t, r, f, top) && 1 <= n && f / 512 <= g <= top / 512
    ensures TableThere(t, r, f, n, g) <==> g <= f / 512 + Shifted(f % 512, n)
  {
    hide Frontier;
    FrontierServes(t, r, f, f, top, f / 512);
    assert Past(f, n) == f / 512 + Made(f % 512, n) + 1;
    assert f / 512 < g ==> !HasPt(t, r, g);
  }

  lemma BareShift(t: Tables, r: nat, f: nat, top: nat, n: nat)
    requires Bare(t, r, f, top) && 1 <= n && f + n + Extra(n) < top
    ensures Shift(t, r, f, f, n) == Shifted(f % 512, n) && TablesMade(t, r, f, n) == Shifted(f % 512, n)
  {
    hide Mapped, Window, Frontier, HasPt, MissingIn, SpendTo, Past, Made, Bare, Extra;
    var j := Made(f % 512, n);
    PastFrom(f, n);
    BareBounds(t, r, f, top, n);
    BareMissing(t, r, f, top, f / 512 + j + 1);
    BareSpends(t, r, f, top, j);
  }

  lemma PastFrom(f: nat, n: nat)
    requires 1 <= n
    ensures Past(f, n) == f / 512 + Made(f % 512, n) + 1
  {
  }

  lemma BareBounds(t: Tables, r: nat, f: nat, top: nat, n: nat)
    requires Bare(t, r, f, top) && 1 <= n && f + n + Extra(n) < top
    ensures var j := Made(f % 512, n); f + j <= top <= PAGES && Window(t, r, f, top - f) && f / 512 + j <= top / 512
    ensures !HasPt(t, r, f / 512 + 1)
  {
    hide Mapped, Window, Frontier, HasPt;
    FrontierFacts(t, r, f, f, top);
    assert f / 512 < f / 512 + 1 <= top / 512 + 1;
  }

  lemma {:induction false} BareMissing(t: Tables, r: nat, f: nat, top: nat, hi: nat)
    requires Bare(t, r, f, top) && f / 512 < hi <= top / 512 + 1
    ensures MissingIn(t, r, f / 512, hi) == hi - f / 512 - 1
    decreases hi
  {
    hide HasPt, Frontier;
    if hi - 1 == f / 512 {
      FrontierServes(t, r, f, f, top, f / 512);
    } else {
      BareMissing(t, r, f, top, hi - 1);
      assert !HasPt(t, r, hi - 1);
    }
  }

  lemma {:induction false} BareSpends(t: Tables, r: nat, lo: nat, top: nat, k: nat)
    requires lo + k <= top <= PAGES && Window(t, r, lo, top - lo)
    ensures SpendTo(t, r, lo, k, PAGES) == lo + k
    decreases k
  {
    hide Mapped;
    if k > 0 {
      assert !Mapped(t, r, lo);
      WindowAfter(t, r, lo, top, 1, top - lo - 1);
      BareSpends(t, r, lo + 1, top, k - 1);
    }
  }

  // From every offset a growth lands if and only if it is at most 511 pages long.
  lemma GrowthStaysCovered(n: nat)
    requires 1 <= n < 512 * 510
    ensures n <= 511 <==> forall s: nat {:trigger LandsFrom(s, n)} :: s < 512 ==> LandsFrom(s, n) && !StopsFrom(s, n)
  {
    if n >= 512 {
      var s := BadOffset(n);
    }
  }

  // For 512 pages the last offset; for more, the one from which they end with a group.
  lemma BadOffset(n: nat) returns (s: nat)
    requires 512 <= n < 512 * 510
    ensures s < 512 && !LandsFrom(s, n)
  {
    s := if n == 512 then 511 else (512 - n % 512) % 512;
    if n > 512 {
      var q := (s + n) / 512;
      assert s + n == 512 * q && 2 <= q <= 510;
      assert Made(s, n) == q - 1;
    }
  }

  // heap_end at the last page of a group, and no table beyond: 512 pages end under no table, and 1024
  // pages stop the kernel at ksbrk's own assertion.
  lemma GrowthFails(t: Tables, r: nat, f: nat, top: nat)
    requires Bare(t, r, f, top) && f % 512 == 511 && f + 1026 < top
    ensures Plan(t, r, f, f, 512) == Growth(f, 1, f + 1)
    ensures !Stops(t, r, f, f, 512) && !Lands(t, r, f, f, 512)
    ensures Stops(t, r, f, f, 1024) && TablesMade(t, r, f, 512) == 1
  {
    hide Bare, Plan, Stops, Lands, TablesMade;
    BareGrowth(t, r, f, top, 512);
    BareGrowth(t, r, f, top, 1024);
  }

  // A search for one page finds a reserve, if any page is free, exactly when it does not get stuck.
  lemma StuckOrRoom(t: Tables, r: nat, start: nat)
    ensures (exists w: nat :: Covered(t, r, start, w, 1)) <==>
            !Stuck(t, r, start) && exists v: nat :: start <= v < PAGES && !Mapped(t, r, v)
  {
    hide Mapped, HasPt, Covered, Stuck;
    forall w: nat | Covered(t, r, start, w, 1)
      ensures !Stuck(t, r, start) && start <= w < PAGES && !Mapped(t, r, w)
    {
      CoveredIsEnough(t, r, start, w, 1);
      assert start <= w < PAGES && !Mapped(t, r, w) by { CoveredIsFree(t, r, start, w); }
    }
    if v: nat :| start <= v < PAGES && !Mapped(t, r, v) {
      RoomOrStuck(t, r, start, v);
    }
  }

  lemma CoveredIsFree(t: Tables, r: nat, start: nat, w: nat)
    requires Covered(t, r, start, w, 1)
    ensures start <= w < PAGES && !Mapped(t, r, w)
  {
  }

  lemma RoomOrStuck(t: Tables, r: nat, start: nat, v: nat)
    requires start <= v < PAGES && !Mapped(t, r, v)
    ensures Stuck(t, r, start) || exists w: nat :: Covered(t, r, start, w, 1)
  {
    hide Mapped, HasPt;
    var w := FirstFree(t, r, start, v);
    forall x | start <= x < w ensures Served(t, r, x) { MappedIsServed(t, r, x); }
    if Served(t, r, w) {
      assert Covered(t, r, start, w, 1);
    } else {
      assert StuckAt(t, r, start, w);
    }
  }

  lemma {:induction false} FirstFree(t: Tables, r: nat, start: nat, v: nat) returns (w: nat)
    requires start <= v && !Mapped(t, r, v)
    ensures start <= w <= v && !Mapped(t, r, w) && forall x :: start <= x < w ==> Mapped(t, r, x)
    decreases v - start
  {
    hide Mapped;
    w := start;
    if Mapped(t, r, start) { w := FirstFree(t, r, start + 1, v); }
  }

  // With heap_end under no table there is no reserve, however far one looks.
  lemma UnservedHasNoReserve(t: Tables, r: nat, end: nat, w: nat, k: nat)
    requires 0 < k
    ensures !Served(t, r, end) ==> !Covered(t, r, end, w, k)
  {
    hide HasPt;
  }

  // ------------------------------------------------------------------------------------------
  // The loop of ksbrk
  // ------------------------------------------------------------------------------------------

  lemma FramesGrowNot(ws: seq<bv64>, ws': seq<bv64>)
    requires FramesGrow(ws, ws')
    ensures FramesGrow(ws', ws')
  {
  }

  lemma RegionPage(t0: Tables, w0: seq<bv64>, t2: Tables, w2: seq<bv64>, t: Tables, ws: seq<bv64>,
                   rt: nat, a: set<nat>, r: nat, i: nat, n: nat)
    requires Obtained(t0, w0, t2, w2, rt, a, r, 0) && Obtained(t0, w0, t, ws, rt, a, r, i) && t.dirs == t2.dirs
    requires Window(t2, rt, r, n) && TablesCover(t2, rt, r, r + n) && i < n && r + n <= PAGES
    ensures Served(t, rt, r + i) && !Mapped(t, rt, r + i) && r + i !in a
  {
    hide Obtained, Leaf;
    var v := r + i;
    assert !Mapped(t2, rt, v) && Served(t2, rt, v);
    StillServed(t2, t, rt, v);
    ObtainedAt(t0, w0, t2, w2, rt, a, r, 0, v);
    ObtainedAt(t0, w0, t, ws, rt, a, r, i, v);
    SameLeafSameMapped(t2, t, rt, v);
  }

  // What a growth leaves behind for the next one.
  lemma Grew(t0: Tables, w0: seq<bv64>, t2: Tables, t: Tables, ws: seq<bv64>,
             rt: nat, start: nat, f: nat, top: nat, n: nat, a: set<nat>, r: nat)
    requires Frontier(t0, rt, start, f, top) && 1 <= n
    requires f + n + Extra(n) < top && r == Plan(t0, rt, start, f, n).region
    requires Obtained(t0, w0, t, ws, rt, a, r, n) && t.dirs == t2.dirs && Within(a, start, r)
    requires TablesAre(t0, t2, rt, Plan(t0, rt, start, f, n).first, n)
    ensures ServedKept(t0, t, rt) && (Served(t, rt, r + n) <==> Lands(t0, rt, start, f, n))
    ensures TablesAre(t0, t, rt, Plan(t0, rt, start, f, n).first, n)
    ensures var f' := if r + n > f then r + n else f;
            f' <= f + n + Extra(n) && (Frontier(t, rt, r + n, f', top) <==> Served(t, rt, r + n))
  {
    hide Obtained, Mapped, HasPt, Plan, TablesAre, Within, Window, TableThere, Served, Frontier, Extra;
    var f' := if r + n > f then r + n else f;
    PlanBounds(t0, rt, start, f, top, n);
    FrontierFacts(t0, rt, start, f, top);
    forall v | 0 <= v < PAGES && Served(t0, rt, v) ensures Served(t, rt, v) {
      GrewServes(t0, t2, t, rt, Plan(t0, rt, start, f, n).first, n, v);
    }
    GrewServes(t0, t2, t, rt, Plan(t0, rt, start, f, n).first, n, r + n);
    TablesStayAre(t0, t2, t, rt, Plan(t0, rt, start, f, n).first, n);
    GrewFree(t0, w0, t, ws, rt, f, top, n, a, r, f', start);
    GrewFrontier(t0, t, rt, start, f, top, r + n, f');
  }

  lemma GrewFree(t0: Tables, w0: seq<bv64>, t: Tables, ws: seq<bv64>, rt: nat, f: nat, top: nat, n: nat, a: set<nat>,
                 r: nat, f': nat, start: nat)
    requires f <= f' <= top < PAGES && r + n <= f' && Window(t0, rt, f, top - f)
    requires Obtained(t0, w0, t, ws, rt, a, r, n) && Within(a, start, r)
    ensures Window(t, rt, f', top - f')
  {
    hide Obtained, Mapped;
    forall v | f' <= v < f' + (top - f') ensures !Mapped(t, rt, v) {
      assert !Mapped(t0, rt, v);
      ObtainedAt(t0, w0, t, ws, rt, a, r, n, v);
      SameLeafSameMapped(t0, t, rt, v);
    }
  }

  lemma GrewFrontier(t0: Tables, t: Tables, rt: nat, start: nat, f: nat, top: nat, end: nat, f': nat)
    requires Frontier(t0, rt, start, f, top) && ServedKept(t0, t, rt)
    requires start <= end && f' == (if end > f then end else f) < top
    requires Window(t, rt, f', top - f')
    ensures Frontier(t, rt, end, f', top) <==> Served(t, rt, end)
  {
    hide Mapped, HasPt, Window;
    if Served(t, rt, end) {
      forall v | end <= v < f' + 1 ensures Served(t, rt, v) {
        if v <= f { assert Served(t0, rt, v); }
      }
    }
    assert start / 512 <= end / 512 <= top / 512;
    if Frontier(t, rt, end, f', top) {
      assert end <= end < f' + 1;
    }
  }

  lemma TablesStayAre(t0: Tables, t2: Tables, t: Tables, rt: nat, r1: nat, n: nat)
    requires TablesAre(t0, t2, rt, r1, n) && t.dirs == t2.dirs
    ensures TablesAre(t0, t, rt, r1, n)
  {
    hide TableThere;
    forall g: nat | g < Pow512(3) ensures HasPt(t, rt, g) <==> TableThere(t0, rt, r1, n, g) {
      SameDirsSameAt(t2, t, rt, 3, g);
      TablesAreAt(t0, t2, rt, r1, n, g);
    }
  }

  lemma GrewServes(t0: Tables, t2: Tables, t: Tables, rt: nat, r1: nat, n: nat, v: nat)
    requires TablesAre(t0, t2, rt, r1, n) && t.dirs == t2.dirs && v < PAGES
    ensures Served(t, rt, v) <==> TableThere(t0, rt, r1, n, v / 512)
    ensures Served(t0, rt, v) ==> Served(t, rt, v)
  {
    LevelSizes();
    TablesAreAt(t0, t2, rt, r1, n, v / 512);
    SameDirsSameAt(t2, t, rt, 3, v / 512);
  }

  lemma RegionReady(t0: Tables, w0: seq<bv64>, t2: Tables, h2: map<nat, Home>, w2: seq<bv64>, rt: nat, a: set<nat>,
                    r: nat)
    requires Added(t0, t2, rt, a) && FramesGrow(w0, w2) && Entered(t0, t2, rt)
    ensures Obtained(t0, w0, t2, w2, rt, a, r, 0) && UserSame(t2, h2, t2) && FramesGrow(w2, w2)
  {
    forall v | 0 <= v < PAGES
      ensures if v in a then Gained(t0, t2, rt, v) else Leaf(t2, rt, v) == Leaf(t0, rt, v)
    {
      AddedAt(t0, t2, rt, a, v);
    }
  }

  lemma ObtainedAt(t0: Tables, w0: seq<bv64>, t: Tables, ws: seq<bv64>, rt: nat, a: set<nat>, r: nat, n: nat, v: nat)
    requires Obtained(t0, w0, t, ws, rt, a, r, n) && v < PAGES
    ensures FramesGrow(w0, ws)
    ensures if r <= v < r + n then
              Gained(t0, t, rt, v) && v !in a && FreshFrame(w0, ws, FrameOf(Leaf(t, rt, v)))
            else if v in a then Gained(t0, t, rt, v)
            else Leaf(t, rt, v) == Leaf(t0, rt, v)
  {
  }

  lemma ObtainedFlags(t0: Tables, w0: seq<bv64>, t: Tables, ws: seq<bv64>, rt: nat, a: set<nat>, r: nat, n: nat)
    requires Obtained(t0, w0, t, ws, rt, a, r, n) && r + n <= PAGES
    ensures forall v :: r <= v < r + n || v in a ==> Leaf(t, rt, v) % PAGE_SIZE == 3
  {
    hide Leaf, Mapped, Entered;
    forall v | r <= v < r + n || v in a ensures Leaf(t, rt, v) % PAGE_SIZE == 3 {
      assert v < PAGES;
      ObtainedAt(t0, w0, t, ws, rt, a, r, n, v);
    }
  }

  lemma PageObtained(t0: Tables, w0: seq<bv64>, t1: Tables, w1: seq<bv64>, t2: Tables, w2: seq<bv64>,
                     rt: nat, a: set<nat>, r: nat, i: nat, e: nat)
    requires Obtained(t0, w0, t1, w1, rt, a, r, i)
    requires OnePage(t1, t2, rt, r + i, WithFlags3(e)) && r + i !in a && !Mapped(t1, rt, r + i)
    requires Fresh(w1, w2, e) && FramesGrow(w1, w2) && r + i < PAGES
    ensures Obtained(t0, w0, t2, w2, rt, a, r, i + 1)
  {
    hide Leaf, OnePage, Entered;
    FramesGrowTwice(w0, w1, w2);
    EnteredPage(t0, t1, t2, rt, r + i, WithFlags3(e));
    forall v | 0 <= v < PAGES
      ensures if r <= v < r + i + 1 then
                Gained(t0, t2, rt, v) && v !in a && FreshFrame(w0, w2, FrameOf(Leaf(t2, rt, v)))
              else if v in a then Gained(t0, t2, rt, v)
              else Leaf(t2, rt, v) == Leaf(t0, rt, v)
    {
      ObtainedAt(t0, w0, t1, w1, rt, a, r, i, v);
      OnePageAt(t1, t2, rt, r + i, WithFlags3(e), v);
    }
    forall v, u | r <= v < u < r + i + 1 && u < PAGES ensures FrameOf(Leaf(t2, rt, v)) != FrameOf(Leaf(t2, rt, u)) {
      ObtainedAt(t0, w0, t1, w1, rt, a, r, i, v);
      OnePageAt(t1, t2, rt, r + i, WithFlags3(e), v);
      OnePageAt(t1, t2, rt, r + i, WithFlags3(e), u);
    }
  }

  // Pages that the table at level k takes if it is missing.
  function Missing(t: Tables, r: nat, k: nat, h: nat): nat {
    if At(t, r, k, h).Some? then 0 else Size(k)
  }

  // entry is the address of a frame that was free and is now taken.
  ghost predicate Fresh(ws: seq<bv64>, ws': seq<bv64>, entry: nat) {
    && |ws| == F.NUM_OF_FRAMES == |ws'| && entry % PAGE_SIZE == 0 && FrameOf(entry) < F.FRAMES
    && !F.Taken(ws, FrameOf(entry)) && F.Taken(ws', FrameOf(entry))
  }

  ghost predicate FirstWindow(t: Tables, r: nat, start: nat, a: nat, n: nat) {
    && start <= a && Window(t, r, a, n)
    && forall o {:trigger Window(t, r, o, n)} :: start <= o < a ==> !Window(t, r, o, n)
  }

  // If a page was taken, it was the first free one.
  ghost predicate TookFirst(t: Tables, r: nat, start: nat, added: set<nat>) {
    forall a :: a in added ==> FirstWindow(t, r, start, a, 1)
  }

  lemma TookNothing(t: Tables, r: nat, start: nat)
    ensures TookFirst(t, r, start, {})
  {
  }

  lemma TookOne(t: Tables, r: nat, start: nat, a: nat)
    requires FirstWindow(t, r, start, a, 1)
    ensures TookFirst(t, r, start, Interval(a, 1))
  {
    hide FirstWindow;
    assert forall v :: v in Interval(a, 1) ==> v == a;
  }

  ghost predicate Within(s: set<nat>, lo: nat, hi: nat) {
    forall v :: v in s ==> lo <= v < hi
  }

  // The state has gained the pages "added", and tables on the way to group g only.
  ghost predicate Grown(t: Tables, home: map<nat, Home>, ws: seq<bv64>, t': Tables, home': map<nat, Home>,
                        ws': seq<bv64>, r: nat, added: set<nat>, g: nat)
  {
    Added(t, t', r, added) && WalkGrows(t, t', r, g) && HomeGrows(home, home') && FramesGrow(ws, ws')
  }

  lemma GrownNot(t: Tables, home: map<nat, Home>, ws: seq<bv64>, r: nat, g: nat)
    requires |ws| == F.NUM_OF_FRAMES
    ensures Grown(t, home, ws, t, home, ws, r, {}, g) && UserSame(t, home, t)
  {
    NoneEntered(t, r);
  }

  lemma NoneEntered(t: Tables, r: nat)
    ensures Entered(t, t, r)
  {
    hide EntryAt, At;
    forall k: nat, h: nat | 0 < k <= 3 && h < Pow512(k) && At(t, r, k, h).Some? ensures EnteredAt(t, t, r, k, h) {
    }
  }

  // Apart from the place (k, h), every walk ends where it did.
  ghost predicate OnlyTable(t: Tables, t': Tables, r: nat, k: nat, h: nat) {
    forall j: nat, l: nat {:trigger At(t', r, j, l)} :: j <= 3 && l < Pow512(j) && !(j == k && l == h) ==>
      At(t', r, j, l) == At(t, r, j, l)
  }

  // ------------------------------------------------------------------------------------------
  // Frames
  // ------------------------------------------------------------------------------------------

  lemma NoRunNoPair(ws: seq<bv64>, n: nat)
    requires |ws| == F.NUM_OF_FRAMES && 1 <= n <= 2 && forall f: nat :: !F.FreeRun(ws, f, n)
    ensures OutOfFrames(ws)
  {
    forall f: nat ensures !F.FreeRun(ws, f, 2) {
      assert !F.FreeRun(ws, f, n);
      ShorterRun(ws, f);
    }
  }

  lemma ShorterRun(ws: seq<bv64>, f: nat)
    requires |ws| == F.NUM_OF_FRAMES
    ensures F.FreeRun(ws, f, 2) ==> F.FreeRun(ws, f, 1)
  {
  }

  lemma RunGrows(ws: seq<bv64>, ws': seq<bv64>, f: nat, n: nat)
    requires |ws| == F.NUM_OF_FRAMES == |ws'| && 0 < n && F.IsLowestRun(ws, f, n) && F.Marked(ws, ws', f, n)
    ensures FramesGrow(ws, ws') && Fresh(ws, ws', f * PAGE_SIZE)
  {
  }

  lemma FreshEarlier(ws0: seq<bv64>, ws1: seq<bv64>, ws2: seq<bv64>, e: nat)
    requires FramesGrow(ws0, ws1) && Fresh(ws1, ws2, e)
    ensures Fresh(ws0, ws2, e)
  {
  }

  // ------------------------------------------------------------------------------------------
  // Composing steps
  // ------------------------------------------------------------------------------------------

  lemma UserSameTwice(t0: Tables, h0: map<nat, Home>, t1: Tables, h1: map<nat, Home>, t2: Tables)
    requires UserSame(t0, h0, t1) && HomeGrows(h0, h1) && UserSame(t1, h1, t2)
    ensures UserSame(t0, h0, t2)
  {
  }

  lemma AddedTwice(t0: Tables, t1: Tables, t2: Tables, r: nat, a: set<nat>, b: set<nat>)
    requires Added(t0, t1, r, a) && Added(t1, t2, r, b)
    ensures Added(t0, t2, r, a + b) && a !! b && |a + b| == |a| + |b|
  {
    hide Leaf, Present;
    forall v | v in a ensures v !in b {
      AddedAt(t0, t1, r, a, v);
      AddedAt(t1, t2, r, b, v);
    }
    forall v | 0 <= v < PAGES
      ensures if v in a + b then Gained(t0, t2, r, v) else Leaf(t2, r, v) == Leaf(t0, r, v)
    {
      AddedAt(t0, t1, r, a, v);
      AddedAt(t1, t2, r, b, v);
    }
  }

  lemma GrownTwice(t0: Tables, h0: map<nat, Home>, w0: seq<bv64>, t1: Tables, h1: map<nat, Home>, w1: seq<bv64>,
                   t2: Tables, h2: map<nat, Home>, w2: seq<bv64>, r: nat, a: set<nat>, b: set<nat>, g: nat)
    requires Grown(t0, h0, w0, t1, h1, w1, r, a, g) && Grown(t1, h1, w1, t2, h2, w2, r, b, g)
    ensures Grown(t0, h0, w0, t2, h2, w2, r, a + b, g) && HomeGrows(h0, h1) && HomeGrows(h0, h2) && a !! b
    ensures |a + b| == |a| + |b|
  {
    hide Added, Leaf, Mapped;
    AddedTwice(t0, t1, t2, r, a, b);
    EnteredTwice(t0, t1, t2, r, b, g);
    forall k: nat, h: nat | k <= 3 && h < Pow512(k) && At(t0, r, k, h).Some?
      ensures At(t2, r, k, h) == At(t0, r, k, h)
    {
      WalkGrowsAt(t0, t1, r, g, k, h);
      WalkGrowsAt(t1, t2, r, g, k, h);
    }
    forall h: nat | h < Pow512(3) && h != g ensures At(t2, r, 3, h) == At(t0, r, 3, h) {
      WalkGrowsAt(t0, t1, r, g, 3, h);
      WalkGrowsAt(t1, t2, r, g, 3, h);
    }
    forall f | 0 <= f < F.FRAMES && F.Taken(w0, f) ensures F.Taken(w2, f) {
      assert F.Taken(w1, f);
    }
  }

  lemma AddedAt(t: Tables, t': Tables, r: nat, a: set<nat>, v: nat)
    requires Added(t, t', r, a) && v < PAGES
    ensures if v in a then Gained(t, t', r, v) else Leaf(t', r, v) == Leaf(t, r, v)
  {
  }

  lemma AddedBound(t: Tables, t': Tables, r: nat, a: set<nat>, v: nat)
    requires Added(t, t', r, a) && v in a
    ensures v < PAGES
  {
  }

  lemma WalkGrowsAt(t: Tables, t': Tables, r: nat, g: nat, k: nat, h: nat)
    requires WalkGrows(t, t', r, g) && k <= 3 && h < Pow512(k)
    ensures At(t, r, k, h).Some? ==> At(t', r, k, h) == At(t, r, k, h)
    ensures k == 3 && h != g ==> At(t', r, k, h) == At(t, r, k, h)
  {
  }

  lemma WithinTwice(a: set<nat>, b: set<nat>, lo: nat, w: nat, c: nat, d: nat)
    requires Within(a, lo, w + c) && Within(b, lo, w + c + d)
    ensures Within(a + b, lo, w + c + d)
  {
  }

  lemma CoveredLess(t: Tables, r: nat, start: nat, w: nat, k: nat, more: nat)
    requires Covered(t, r, start, w, k + more)
    ensures Covered(t, r, start, w, k)
  {
  }

  // Pages taken from the front of a reserve leave the rest of it.
  lemma StageDone(t0: Tables, h0: map<nat, Home>, w0: seq<bv64>, t1: Tables, h1: map<nat, Home>, w1: seq<bv64>,
                  r: nat, a: set<nat>, g: nat, start: nat, w: nat, c: nat, rest: nat)
    requires Grown(t0, h0, w0, t1, h1, w1, r, a, g) && Within(a, start, w + c)
    requires Covered(t0, r, start, w, c + rest)
    ensures Covered(t1, r, start, w + c, rest)
  {
    forall x | w + c <= x < w + c + rest ensures !Mapped(t1, r, x) {
      assert x !in a && !Mapped(t0, r, x);
      AddedAt(t0, t1, r, a, x);
    }
    forall x | start <= x < w + c + rest ensures Served(t1, r, x) {
      LevelSizes();
      assert Served(t0, r, x);
      WalkGrowsAt(t0, t1, r, g, 3, x / 512);
    }
  }

  lemma NeedIsMissing(t: Tables, home: map<nat, Home>, r: nat, start: nat, w: nat, g: nat)
    requires g < Pow512(3)
    ensures g / 512 < Pow512(2) && g / 512 / 512 < Pow512(1) && At(t, r, 0, g / 512 / 512 / 512) == Some(r)
    ensures Need(t, r, g) == Missing(t, r, 1, g / 512 / 512) + Missing(t, r, 2, g / 512) + Missing(t, r, 3, g)
    ensures At(t, r, 2, g / 512).Some? ==> At(t, r, 1, g / 512 / 512).Some?
    ensures Need(t, r, g) <= 1 ==> At(t, r, 2, g / 512).Some?
    ensures HasPt(t, r, g) ==> At(t, r, 2, g / 512).Some? && At(t, r, 1, g / 512 / 512).Some?
    ensures Covered(t, r, start, w, Need(t, r, g)) ==> Covered(t, r, start, w, Missing(t, r, 1, g / 512 / 512))
    ensures !User(3, g) <==> !User(2, g / 512)
    ensures !User(3, g) <==> !User(1, g / 512 / 512)
  {
    LevelSizes();
    if Covered(t, r, start, w, Need(t, r, g)) {
      CoveredLess(t, r, start, w, Missing(t, r, 1, g / 512 / 512), Missing(t, r, 2, g / 512) + Missing(t, r, 3, g));
    }
  }

  lemma OtherTables(t: Tables, t': Tables, r: nat, k: nat, h: nat, j: nat, l: nat)
    requires OnlyTable(t, t', r, k, h) && j <= 3 && l < Pow512(j) && j != k
    ensures At(t', r, j, l) == At(t, r, j, l)
  {
  }

  lemma NothingGrown(t: Tables, home: map<nat, Home>, ws: seq<bv64>, r: nat, g: nat, k: nat, h: nat, start: nat, w: nat)
    requires |ws| == F.NUM_OF_FRAMES
    ensures Grown(t, home, ws, t, home, ws, r, {}, g) && UserSame(t, home, t) && OnlyTable(t, t, r, k, h)
    ensures Within({}, start, w)
  {
    NoneEntered(t, r);
  }

  // The pages that safe_allocation mapped: new, in the kernel's slot, and home to no table yet.
  lemma NewPagesFacts(t0: Tables, h0: map<nat, Home>, w0: seq<bv64>, t1: Tables, w1: seq<bv64>,
                      r: nat, start: nat, w: nat, a: nat, f: nat, n: nat)
    requires 1 <= n <= 2 && KERNEL_START <= start && w + n <= PAGES && a <= w
    requires FirstWindow(t0, r, start, a, n) && Added(t0, t1, r, Interval(a, n)) && t1.dirs == t0.dirs
    requires F.NUM_OF_FRAMES == |w0| == |w1| && F.IsLowestRun(w0, f, n) && F.Marked(w0, w1, f, n)
    ensures FramesGrow(w0, w1) && Within(Interval(a, n), start, w + n) && |Interval(a, n)| == n
    ensures forall k: nat, h: nat :: At(t1, r, k, h) == At(t0, r, k, h)
  {
    RunGrows(w0, w1, f, n);
    forall k: nat, h: nat ensures At(t1, r, k, h) == At(t0, r, k, h) {
      SameDirsSameAt(t0, t1, r, k, h);
    }
  }

  // What safe_allocation leaves is room for a table.
  lemma RoomIsMade(t0: Tables, home: map<nat, Home>, w0: seq<bv64>, t1: Tables, w1: seq<bv64>,
                   r: nat, start: nat, w: nat, a: nat, f: nat, k: nat)
    requires KERNEL_START <= start && w + Size(k) <= PAGES && a <= w && FirstWindow(t0, r, start, a, Size(k))
    requires RangeMapped(t0, t1, r, a, Size(k), f * PAGE_SIZE) && TablesMapped(t0, home, r, w0)
    requires F.NUM_OF_FRAMES == |w0| == |w1| && F.IsLowestRun(w0, f, Size(k)) && F.Marked(w0, w1, f, Size(k))
    ensures NewRoom(t1, home, r, w1, a, k, f)
    ensures TablesMapped(t1, home, r, w1)
  {
    hide Leaf, RangeMapped, TablesMapped, F.IsLowestRun, F.Marked, FirstWindow, FramesGrow, TablePage, FrameOf,
         Settled, Mapped;
    RunGrows(w0, w1, f, Size(k));
    WindowIs(t0, r, start, a, Size(k));
    RunPage(t0, w0, t1, w1, r, a, f, Size(k), a);
    RunPage(t0, w0, t1, w1, r, a, f, Size(k), a + Size(k) - 1);
    forall v: nat | TablePage(home, v)
      ensures Leaf(t1, r, v) == Leaf(t0, r, v) && !(f <= FrameOf(Leaf(t1, r, v)) < f + Size(k))
      ensures !(a <= v < a + Size(k))
    {
      TablePageIs(t0, home, r, w0, v);
      RangeMappedAt(t0, t1, r, a, Size(k), f * PAGE_SIZE, v);
      RunIsFree(w0, f, Size(k), FrameOf(Leaf(t0, r, v)));
    }
    TablesStay(t0, t1, home, r, w0, w1);
  }

  lemma RunPage(t0: Tables, w0: seq<bv64>, t1: Tables, w1: seq<bv64>, r: nat, a: nat, f: nat, n: nat, v: nat)
    requires RangeMapped(t0, t1, r, a, n, f * PAGE_SIZE) && a <= v < a + n && v < PAGES
    requires F.NUM_OF_FRAMES == |w0| == |w1| && F.Marked(w0, w1, f, n)
    ensures Mapped(t1, r, v) && FrameOf(Leaf(t1, r, v)) == f + (v - a) && Settled(w1, f + (v - a))
  {
    hide Leaf, RangeMapped;
    RangeMappedAt(t0, t1, r, a, n, f * PAGE_SIZE, v);
    assert f * PAGE_SIZE + (v - a) * PAGE_SIZE == (f + (v - a)) * PAGE_SIZE;
  }

  lemma TablePageIs(t: Tables, home: map<nat, Home>, r: nat, ws: seq<bv64>, v: nat)
    requires TablesMapped(t, home, r, ws) && TablePage(home, v)
    ensures KERNEL_START <= v < PAGES && Mapped(t, r, v) && Settled(ws, FrameOf(Leaf(t, r, v)))
  {
  }

  lemma RunIsFree(ws: seq<bv64>, f: nat, n: nat, x: nat)
    requires |ws| == F.NUM_OF_FRAMES && F.IsLowestRun(ws, f, n) && Settled(ws, x)
    ensures !(f <= x < f + n)
  {
  }

  lemma TableGrown(t0: Tables, h0: map<nat, Home>, w0: seq<bv64>, t1: Tables, t2: Tables, h2: map<nat, Home>,
                   w2: seq<bv64>, r: nat, a: set<nat>, k: nat, h: nat, g: nat, q: nat)
    requires Added(t0, t1, r, a) && OneTable(t1, t2, r, k, h, q) && FramesGrow(w0, w2) && HomeGrows(h0, h2)
    requires (forall j: nat, l: nat :: At(t1, r, j, l) == At(t0, r, j, l)) && At(t0, r, k, h).None?
    requires 0 < k <= 3 && h < Pow512(k) && (k == 3 ==> h == g)
    requires t1.dirs == t0.dirs && q < PAGES && Mapped(t1, r, q)
    requires OneEntry(t1, t2, r, k, h, FrameOf(Leaf(t1, r, q)) * PAGE_SIZE + 3)
    ensures Grown(t0, h0, w0, t2, h2, w2, r, a, g) && OnlyTable(t0, t2, r, k, h) && At(t2, r, k, h).Some?
  {
    forall v | 0 <= v < PAGES
      ensures if v in a then Gained(t0, t2, r, v) else Leaf(t2, r, v) == Leaf(t0, r, v)
    {
      AddedAt(t0, t1, r, a, v);
      assert Leaf(t2, r, v) == Leaf(t1, r, v);
    }
    assert At(t2, r, k, h) == Some(q);
    OneEntered(t0, t1, t2, r, k, h, q);
  }

  // A new table's entry, in tables that pages alone have been added to
  lemma OneEntered(t0: Tables, t1: Tables, t2: Tables, r: nat, k: nat, h: nat, q: nat)
    requires OneTable(t1, t2, r, k, h, q) && t1.dirs == t0.dirs && q < PAGES && Mapped(t1, r, q)
    requires 0 < k <= 3 && h < Pow512(k) && At(t0, r, k, h).None?
    requires OneEntry(t1, t2, r, k, h, FrameOf(Leaf(t1, r, q)) * PAGE_SIZE + 3)
    ensures Entered(t0, t2, r)
  {
    hide EntryAt, At, Leaf, Present, Pow512;
    forall j: nat, l: nat | 0 < j <= 3 && l < Pow512(j) && At(t2, r, j, l).Some?
      ensures EnteredAt(t0, t2, r, j, l)
    {
      SameDirsSameAt(t0, t1, r, j, l);
      SameDirsSameEntry(t0, t1, r, j, l);
      assert Leaf(t2, r, q) == Leaf(t1, r, q);
    }
  }

  // The entries made by two steps
  lemma EnteredTwice(t0: Tables, t1: Tables, t2: Tables, r: nat, b: set<nat>, g: nat)
    requires Entered(t0, t1, r) && Added(t1, t2, r, b) && WalkGrows(t1, t2, r, g)
    requires forall k: nat, h: nat {:trigger At(t1, r, k, h)} :: k <= 3 && h < Pow512(k) && At(t0, r, k, h).Some? ==>
               At(t1, r, k, h) == At(t0, r, k, h)
    ensures Entered(t0, t2, r)
  {
    hide EntryAt, At, Leaf, Present, Pow512, Added;
    forall k: nat, h: nat | 0 < k <= 3 && h < Pow512(k) && At(t2, r, k, h).Some?
      ensures EnteredAt(t0, t2, r, k, h)
    {
      EnteredIs(t1, t2, r, k, h);
      if At(t1, r, k, h).Some? {
        WalkGrowsAt(t1, t2, r, g, k, h);
        EnteredIs(t0, t1, r, k, h);
        var q := At(t1, r, k, h).value;
        if q < PAGES { AddedAt(t1, t2, r, b, q); }
      }
    }
  }

  lemma EnteredIs(t: Tables, t': Tables, r: nat, k: nat, h: nat)
    requires Entered(t, t', r) && 0 < k <= 3 && h < Pow512(k) && At(t', r, k, h).Some?
    ensures EnteredAt(t, t', r, k, h)
  {
    hide EntryAt, At;
    var e := EntryAt(t', r, k, h);
  }

  lemma EnteredAfter(t0: Tables, t1: Tables, t2: Tables, r: nat, lo: nat, hi: nat, b: set<nat>, g: nat)
    requires WalkGrowsIn(t0, t1, r, lo, hi) && Added(t1, t2, r, b) && WalkGrows(t1, t2, r, g)
    ensures Entered(t0, t2, r)
  {
    hide Entered, Added;
    EnteredTwice(t0, t1, t2, r, b, g);
  }

  // An entry for a page leaves those for tables alone.
  lemma EnteredPage(t0: Tables, t1: Tables, t2: Tables, r: nat, v: nat, e: nat)
    requires Entered(t0, t1, r) && OnePage(t1, t2, r, v, e) && !Mapped(t1, r, v)
    ensures Entered(t0, t2, r)
  {
    hide EntryAt, At, Leaf, Present, Pow512;
    forall k: nat, h: nat | 0 < k <= 3 && h < Pow512(k) && At(t2, r, k, h).Some?
      ensures EnteredAt(t0, t2, r, k, h)
    {
      assert At(t2, r, k, h) == At(t1, r, k, h);
      SameDirsSameEntry(t1, t2, r, k, h);
      EnteredIs(t0, t1, r, k, h);
      var q := At(t1, r, k, h).value;
      if q < PAGES && Mapped(t1, r, q) { OnePageAt(t1, t2, r, v, e, q); }
    }
  }

  lemma OnePageAt(t: Tables, t': Tables, r: nat, v: nat, e: nat, w: nat)
    requires OnePage(t, t', r, v, e) && w < PAGES
    ensures Leaf(t', r, w) == if w == v then e else Leaf(t, r, w)
  {
  }

  // One page of a mapping loop: it is still free, and needs no table.
  lemma NextPage(t0: Tables, t: Tables, r: nat, start: nat, w: nat, a: nat, i: nat, n: nat, e: nat)
    requires a <= w && i < n && FirstWindow(t0, r, start, a, n) && Covered(t0, r, start, w, n)
    requires RangeMapped(t0, t, r, a, i, e) && t.dirs == t0.dirs
    ensures Served(t, r, a + i) && !Mapped(t, r, a + i) && start <= a + i < PAGES
  {
    hide RangeMapped, Leaf, Mapped;
    assert Served(t0, r, a + i) && !Mapped(t0, r, a + i);
    SameDirsSameAt(t0, t, r, 3, (a + i) / 512);
    RangeMappedAt(t0, t, r, a, i, e, a + i);
    SameLeafSameMapped(t0, t, r, a + i);
  }

  lemma SameLeafSameMapped(t: Tables, t': Tables, r: nat, v: nat)
    requires Leaf(t, r, v) == Leaf(t', r, v)
    ensures Mapped(t, r, v) == Mapped(t', r, v)
  {
  }

  lemma PageMapped(t0: Tables, h: map<nat, Home>, t1: Tables, t2: Tables, r: nat, a: nat, i: nat, e: nat)
    requires RangeMapped(t0, t1, r, a, i, e) && a + i < PAGES && !Mapped(t1, r, a + i)
    requires OnePage(t1, t2, r, a + i, WithFlags3(e + i * PAGE_SIZE))
    requires UserSame(t0, h, t1) && UserSame(t1, h, t2)
    ensures RangeMapped(t0, t2, r, a, i + 1, e) && UserSame(t0, h, t2)
  {
    hide UserSame, OnePage, Leaf, Present;
    UserSameTwice(t0, h, t1, h, t2);
    forall v | 0 <= v < PAGES
      ensures if a <= v < a + i + 1 then !Mapped(t0, r, v) && Leaf(t2, r, v) == WithFlags3(e + (v - a) * PAGE_SIZE)
              else Leaf(t2, r, v) == Leaf(t0, r, v)
    {
      RangeMappedAt(t0, t1, r, a, i, e, v);
      OnePageAt(t1, t2, r, a + i, WithFlags3(e + i * PAGE_SIZE), v);
    }
  }

  lemma NothingMapped(t: Tables, h: map<nat, Home>, r: nat, a: nat, e: nat)
    ensures RangeMapped(t, t, r, a, 0, e) && UserSame(t, h, t)
  {
  }

  // ------------------------------------------------------------------------------------------
  // What Check and the scan rely on
  // ------------------------------------------------------------------------------------------

  // The page asked for is not among those taken for its tables.
  lemma CheckFacts(t0: Tables, h0: map<nat, Home>, w0: seq<bv64>, t1: Tables, h1: map<nat, Home>, w1: seq<bv64>,
                   r: nat, start: nat, w: nat, a: set<nat>, v: nat)
    requires v < PAGES && Covered(t0, r, start, w, Need(t0, r, v / 512))
    requires Grown(t0, h0, w0, t1, h1, w1, r, a, v / 512)
    requires |a| == Need(t0, r, v / 512) && Within(a, start, w + Need(t0, r, v / 512))
    ensures v !in a && Leaf(t1, r, v) == Leaf(t0, r, v)
    ensures HasPt(t0, r, v / 512) ==> a == {}
    ensures HomeGrows(h0, h1) && FramesGrow(w0, w1)
  {
    LevelSizes();
    if HasPt(t0, r, v / 512) {
      NeedIsMissing(t0, h0, r, start, w, v / 512);
      assert a == {};
    }
    if !Served(t0, r, v) { assert v !in a; }
    AddedAt(t0, t1, r, a, v);
  }

  // The same, but for the entry of page x.
  ghost predicate GrownBut(t: Tables, home: map<nat, Home>, ws: seq<bv64>, t': Tables, home': map<nat, Home>,
                           ws': seq<bv64>, r: nat, added: set<nat>, x: nat, g: nat)
  {
    && (forall v :: v in added ==> v < PAGES)
    && (forall v {:trigger Leaf(t', r, v)} :: 0 <= v < PAGES && v != x ==>
          if v in added then Gained(t, t', r, v) else Leaf(t', r, v) == Leaf(t, r, v))
    && WalkGrows(t, t', r, g) && HomeGrows(home, home') && FramesGrow(ws, ws')
  }

  lemma GrownByPage(t0: Tables, h0: map<nat, Home>, w0: seq<bv64>, t1: Tables, h1: map<nat, Home>, w1: seq<bv64>,
                    t2: Tables, w2: seq<bv64>, r: nat, a: set<nat>, v: nat, e: nat)
    requires Grown(t0, h0, w0, t1, h1, w1, r, a, v / 512) && FramesGrow(w1, w2)
    requires OnePage(t1, t2, r, v, e) && v < PAGES && v !in a && !Mapped(t0, r, v) && Present(e)
    ensures GrownBut(t0, h0, w0, t2, h1, w2, r, a, v, v / 512)
    ensures e % PAGE_SIZE == 3 ==> Grown(t0, h0, w0, t2, h1, w2, r, a + {v}, v / 512)
    ensures Leaf(t2, r, v) == e && HasPt(t2, r, v / 512) == HasPt(t1, r, v / 512)
  {
    assert Leaf(t2, r, v) == e;
    forall x | 0 <= x < PAGES
      ensures x != v ==> if x in a then Gained(t0, t2, r, x) else Leaf(t2, r, x) == Leaf(t0, r, x)
      ensures x == v ==> !Mapped(t0, r, x) && Mapped(t2, r, x) && Leaf(t2, r, x) == e
    {
      AddedAt(t0, t1, r, a, x);
      assert Leaf(t2, r, x) == (if x == v then e else Leaf(t1, r, x));
    }
    EnteredPage(t0, t1, t2, r, v, e);
    forall k: nat, h: nat | k <= 3 && h < Pow512(k) && At(t0, r, k, h).Some?
      ensures At(t2, r, k, h) == At(t0, r, k, h)
    {
      WalkGrowsAt(t0, t1, r, v / 512, k, h);
      assert At(t2, r, k, h) == At(t1, r, k, h);
    }
    forall h: nat | h < Pow512(3) && h != v / 512 ensures At(t2, r, 3, h) == At(t0, r, 3, h) {
      WalkGrowsAt(t0, t1, r, v / 512, 3, h);
      assert At(t2, r, 3, h) == At(t1, r, 3, h);
    }
    forall f | 0 <= f < F.FRAMES && F.Taken(w0, f) ensures F.Taken(w2, f) {
      assert F.Taken(w1, f);
    }
  }

  lemma HasPtNeedsNothing(t: Tables, r: nat, g: nat)
    requires HasPt(t, r, g)
    ensures Need(t, r, g) == 0
  {
  }

  // ------------------------------------------------------------------------------------------
  // The scan
  // ------------------------------------------------------------------------------------------

  datatype View = View(t: Tables, home: map<nat, Home>, ws: seq<bv64>)

  // The group after those of the i pages from r on.
  function Past(r: nat, i: nat): nat {
    if i == 0 then r / 512 else (r + i - 1) / 512 + 1
  }

  // The number of groups from lo to hi that have no table.
  function MissingIn(t: Tables, r: nat, lo: nat, hi: nat): (n: nat)
    ensures n <= if lo < hi then hi - lo else 0
    decreases hi
  {
    if hi <= lo then 0 else MissingIn(t, r, lo, hi - 1) + if HasPt(t, r, hi - 1) then 0 else 1
  }

  // Tables found before are still found, and only groups from lo to hi gained one.
  ghost predicate WalkGrowsIn(t: Tables, t': Tables, r: nat, lo: nat, hi: nat) {
    && (forall k: nat, h: nat {:trigger At(t', r, k, h)} :: k <= 3 && h < Pow512(k) && At(t, r, k, h).Some? ==>
          At(t', r, k, h) == At(t, r, k, h))
    && (forall h: nat {:trigger At(t', r, 3, h)} :: h < Pow512(3) && !(lo <= h < hi) ==>
          At(t', r, 3, h) == At(t, r, 3, h))
    && Entered(t, t', r)
  }

  lemma WalkGrowsInAt(t: Tables, t': Tables, r: nat, lo: nat, hi: nat, k: nat, h: nat)
    requires WalkGrowsIn(t, t', r, lo, hi) && k <= 3 && h < Pow512(k)
    ensures At(t, r, k, h).Some? ==> At(t', r, k, h) == At(t, r, k, h)
    ensures k == 3 && !(lo <= h < hi) ==> At(t', r, k, h) == At(t, r, k, h)
  {
  }

  // The state has gained the pages "added", and tables of groups from lo to hi only.
  ghost predicate GrownIn(a: View, b: View, r: nat, added: set<nat>, lo: nat, hi: nat) {
    Added(a.t, b.t, r, added) && WalkGrowsIn(a.t, b.t, r, lo, hi) && HomeGrows(a.home, b.home) && FramesGrow(a.ws, b.ws)
  }

  // No page from lo to hi needs more than m pages for its tables.
  ghost predicate Needs(t: Tables, r: nat, lo: nat, hi: nat, m: nat) {
    forall v {:trigger Served(t, r, v)} :: lo <= v < hi ==> Need(t, r, v / 512) <= m
  }

  // What a scan for n pages needs: a reserve of m pages at w, as many as any page's tables take, and
  // n free pages from there on.
  ghost predicate Ready(t: Tables, r: nat, start: nat, w: nat, m: nat, n: nat) {
    Covered(t, r, start, w, m) && w + n <= PAGES && Window(t, r, w, n) && Needs(t, r, start, w + n, m) && m <= 5
  }

  // The pages of "added" are exactly the free ones from start to p.
  ghost predicate TakenTo(t: Tables, r: nat, start: nat, added: set<nat>, p: nat) {
    && start <= p <= PAGES && (p == start || p - 1 in added)
    && (forall v {:trigger v in added} {:trigger Mapped(t, r, v)} :: v in added <==> start <= v < p && !Mapped(t, r, v))
  }

  // Pages taken for j tables, the last of them that of group "last".
  ghost predicate Spent(t: Tables, r: nat, start: nat, w: nat, m: nat, j: nat, last: nat, added: set<nat>, p: nat) {
    && |added| <= m * j && Within(added, start, w + m * j)
    && (m <= 1 ==> |added| == j && TakenTo(t, r, start, added, p))
    && (j == 0 ==> added == {})
    && (j == 1 ==> |added| == Need(t, r, last) && !HasPt(t, r, last))
  }

  // The scan from r on has passed i pages and made j tables, from state a to state b.
  ghost predicate Scan(a: View, b: View, rt: nat, start: nat, w: nat, m: nat, n: nat,
                       r: nat, i: nat, j: nat, last: nat, added: set<nat>, p: nat)
  {
    && Ready(a.t, rt, start, w, m, n) && start <= r <= w && i <= n
    && TablesCover(b.t, rt, start, w + m) && TablesCover(b.t, rt, start, r) && TablesCover(b.t, rt, r, r + i)
    && Window(a.t, rt, r, i)
    && GrownIn(a, b, rt, added, r / 512, Past(r, i))
    && j == MissingIn(a.t, rt, r / 512, Past(r, i)) && Spent(a.t, rt, start, w, m, j, last, added, p)
    && (j == 0 ==> b == a)
    && (j > 0 ==> 512 * last < r + i && w + m + 512 * (j - 1) <= 512 * last)
  }

  lemma CoveredIsReady(t: Tables, r: nat, start: nat, w: nat, n: nat)
    requires Covered(t, r, start, w, n)
    ensures Ready(t, r, start, w, 0, n)
    ensures forall j: nat, last: nat, added: set<nat>, p: nat :: Spent(t, r, start, w, 0, j, last, added, p) ==> j == 0
  {
    hide Mapped, Need;
    forall v | start <= v < w + n ensures Need(t, r, v / 512) == 0 {
      assert Served(t, r, v);
      HasPtNeedsNothing(t, r, v / 512);
    }
  }

  lemma ReadyFacts(t: Tables, r: nat, start: nat, w: nat, m: nat, n: nat)
    requires Ready(t, r, start, w, m, n)
    ensures start <= w && NoneBefore(t, r, start, start, n)
  {
  }

  // No window of n free pages starts from lo to hi.
  ghost predicate NoneBefore(t: Tables, r: nat, lo: nat, hi: nat, n: nat) {
    forall o {:trigger Window(t, r, o, n)} :: lo <= o < hi ==> !Window(t, r, o, n)
  }

  lemma PassOne(t: Tables, r: nat, lo: nat, hi: nat, n: nat)
    requires NoneBefore(t, r, lo, hi, n) && !Window(t, r, hi, n)
    ensures NoneBefore(t, r, lo, hi + 1, n)
  {
  }

  lemma ScanStart(a: View, rt: nat, start: nat, w: nat, m: nat, n: nat, r: nat)
    requires Ready(a.t, rt, start, w, m, n) && start <= r <= w && |a.ws| == F.NUM_OF_FRAMES && start <= PAGES
    ensures Scan(a, a, rt, start, w, m, n, r, 0, 0, 0, {}, start)
  {
    hide Needs;
    NoneEntered(a.t, rt);
  }

  // Page r + i is reached with all tables below it; if it has none itself, the reserve pays for it.
  lemma ScanPage(a: View, b: View, rt: nat, start: nat, w: nat, m: nat, n: nat,
                 r: nat, i: nat, j: nat, last: nat, added: set<nat>, p: nat)
    requires Scan(a, b, rt, start, w, m, n, r, i, j, last, added, p) && i < n
    ensures r + i < PAGES && Need(b.t, rt, (r + i) / 512) <= m && HomeGrows(a.home, b.home)
    ensures HasPt(b.t, rt, (r + i) / 512) ==> Covered(b.t, rt, start, start, Need(b.t, rt, (r + i) / 512))
    ensures !HasPt(b.t, rt, (r + i) / 512) ==>
              Covered(b.t, rt, start, w + m * j, Need(b.t, rt, (r + i) / 512)) && !Stuck(b.t, rt, start)
  {
    var v := r + i;
    var y := v / 512;
    LevelSizes();
    assert y < Pow512(3) && y / 512 < Pow512(2) && y / 512 / 512 < Pow512(1);
    NeedFalls(a, b, rt, added, r / 512, Past(r, i), y);
    assert Need(a.t, rt, y) <= m by { ScanNeeds(a.t, rt, start, w, m, n, v); }
    if HasPt(b.t, rt, y) {
      HasPtNeedsNothing(b.t, rt, y);
    } else {
      ScanMissing(a, b, rt, start, w, m, n, r, i, j, last, added, p);
      ReserveLeft(a, b, rt, start, w, m, n, r, i, j, last, added, p);
      MissingNeeds(b.t, rt, y);
      CoveredIsEnough(b.t, rt, start, w + m * j, Need(b.t, rt, y));
    }
  }

  lemma ScanNeeds(t: Tables, rt: nat, start: nat, w: nat, m: nat, n: nat, v: nat)
    requires Ready(t, rt, start, w, m, n) && start <= v < w + n
    ensures Need(t, rt, v / 512) <= m
  {
    hide Need, Covered, Window, HasPt;
    assert Served(t, rt, v) || !Served(t, rt, v);
  }

  lemma NeedFalls(a: View, b: View, rt: nat, added: set<nat>, lo: nat, hi: nat, y: nat)
    requires GrownIn(a, b, rt, added, lo, hi)
    requires y < Pow512(3) && y / 512 < Pow512(2) && y / 512 / 512 < Pow512(1)
    ensures Need(b.t, rt, y) <= Need(a.t, rt, y)
  {
    hide Added, WalkGrowsIn, HomeGrows, FramesGrow, At;
    WalkGrowsInAt(a.t, b.t, rt, lo, hi, 1, y / 512 / 512);
    WalkGrowsInAt(a.t, b.t, rt, lo, hi, 2, y / 512);
    WalkGrowsInAt(a.t, b.t, rt, lo, hi, 3, y);
  }

  // A missing table is that of a new group, past the reserve and past every table made before.
  lemma ScanMissing(a: View, b: View, rt: nat, start: nat, w: nat, m: nat, n: nat,
                    r: nat, i: nat, j: nat, last: nat, added: set<nat>, p: nat)
    requires Scan(a, b, rt, start, w, m, n, r, i, j, last, added, p) && i < n && !HasPt(b.t, rt, (r + i) / 512)
    ensures var v := r + i;
            && v % 512 == 0 && 0 < i && Past(r, i) == v / 512 && w + m + 512 * j <= v && 0 < m
            && !HasPt(a.t, rt, v / 512) && v < PAGES && v / 512 < Pow512(3)
    ensures w + m * j + m <= r + i && m * j + m == m * (j + 1)
  {
    hide GrownIn, Need, HasPt, Window, Spent;
    var v := r + i;
    LevelSizes();
    assert !Served(b.t, rt, v);
    if m == 0 { ScanNeedsNothing(a, b, rt, start, w, m, n, r, i, j, last, added, p); }
    assert w + m <= v;
    if 0 < i { SameGroup(b.t, rt, r, i); }
    assert 0 < i;
    KeptAt(a, b, rt, added, r / 512, Past(r, i), v / 512);
    Multiply(m, j);
  }

  lemma SameGroup(t: Tables, rt: nat, r: nat, i: nat)
    requires TablesCover(t, rt, r, r + i) && 0 < i
    ensures (r + i) % 512 != 0 ==> HasPt(t, rt, (r + i) / 512) && Past(r, i) == (r + i) / 512 + 1
    ensures (r + i) % 512 == 0 ==> Past(r, i) == (r + i) / 512
  {
    hide HasPt;
    assert Served(t, rt, r + i - 1);
  }

  lemma ScanNeedsNothing(a: View, b: View, rt: nat, start: nat, w: nat, m: nat, n: nat,
                         r: nat, i: nat, j: nat, last: nat, added: set<nat>, p: nat)
    requires Scan(a, b, rt, start, w, m, n, r, i, j, last, added, p) && i < n && m == 0
    ensures HasPt(b.t, rt, (r + i) / 512)
  {
    hide Scan, Ready;
    ScanParts(a, b, rt, start, w, m, n, r, i, j, last, added, p);
    var y := (r + i) / 512;
    LevelSizes();
    ScanNeeds(a.t, rt, start, w, m, n, r + i);
    KeptAt(a, b, rt, added, r / 512, Past(r, i), y);
  }

  lemma ScanParts(a: View, b: View, rt: nat, start: nat, w: nat, m: nat, n: nat,
                  r: nat, i: nat, j: nat, last: nat, added: set<nat>, p: nat)
    requires Scan(a, b, rt, start, w, m, n, r, i, j, last, added, p)
    ensures Ready(a.t, rt, start, w, m, n) && start <= r <= w && i <= n && w + n <= PAGES
    ensures GrownIn(a, b, rt, added, r / 512, Past(r, i)) && Spent(a.t, rt, start, w, m, j, last, added, p)
  {
  }

  lemma KeptAt(a: View, b: View, rt: nat, added: set<nat>, lo: nat, hi: nat, y: nat)
    requires GrownIn(a, b, rt, added, lo, hi) && y < Pow512(3)
    ensures HasPt(a.t, rt, y) ==> HasPt(b.t, rt, y)
    ensures !(lo <= y < hi) ==> HasPt(a.t, rt, y) == HasPt(b.t, rt, y)
  {
    WalkGrowsInAt(a.t, b.t, rt, lo, hi, 3, y);
  }

  lemma Multiply(m: nat, j: nat)
    requires m <= 512
    ensures m * j <= 512 * j && m * (j + 1) == m * j + m
  {
  }

  lemma ReserveLeft(a: View, b: View, rt: nat, start: nat, w: nat, m: nat, n: nat,
                    r: nat, i: nat, j: nat, last: nat, added: set<nat>, p: nat)
    requires Scan(a, b, rt, start, w, m, n, r, i, j, last, added, p) && i < n && !HasPt(b.t, rt, (r + i) / 512)
    requires Need(b.t, rt, (r + i) / 512) <= m
    ensures Covered(b.t, rt, start, w + m * j, Need(b.t, rt, (r + i) / 512))
  {
    hide Need, HasPt, Mapped, Leaf;
    ScanMissing(a, b, rt, start, w, m, n, r, i, j, last, added, p);
    var k := Need(b.t, rt, (r + i) / 512);
    forall x | w + m * j <= x < w + m * j + k ensures !Mapped(b.t, rt, x) {
      assert !Mapped(a.t, rt, x) && x !in added;
      AddedAt(a.t, b.t, rt, added, x);
      SameLeafSameMapped(a.t, b.t, rt, x);
    }
    forall x | start <= x < w + m * j + k ensures Served(b.t, rt, x) {
      if r <= x { assert r <= x < r + i; }
    }
  }

  lemma GrownFrames(a: View, b: View, r: nat, added: set<nat>, lo: nat, hi: nat)
    requires GrownIn(a, b, r, added, lo, hi)
    ensures FramesGrow(a.ws, b.ws)
  {
  }

  lemma ReadyIsEnough(t: Tables, r: nat, start: nat, w: nat, m: nat, n: nat)
    requires Ready(t, r, start, w, m, n)
    ensures 0 < m ==> !Stuck(t, r, start)
  {
    hide Covered, Window, Needs, Stuck;
    CoveredIsEnough(t, r, start, w, m);
  }

  // Where a scan ends at the latest.
  lemma ScanBound(t: Tables, r: nat, start: nat, w: nat, m: nat, n: nat) returns (end: nat)
    requires Ready(t, r, start, w, m, n) || (0 < n && Stuck(t, r, start))
    ensures start <= end && NoneBefore(t, r, start, start, n)
    ensures if 0 < n && Stuck(t, r, start) then StuckAt(t, r, start, end) else end == w
  {
    end := w;
    if 0 < n && Stuck(t, r, start) { end :| StuckAt(t, r, start, end); }
  }

  // A scan on its way: one that will get stuck has passed nothing yet at this place.
  ghost predicate Going(stuck: bool, end: nat, a: View, b: View, rt: nat, start: nat, w: nat, m: nat, n: nat,
                        r: nat, i: nat, j: nat, last: nat, added: set<nat>, p: nat)
  {
    && Free(b.ws) <= Free(a.ws) && (m <= 1 ==> Handed(a.ws, b.ws, |added|))
    && if stuck then StuckAt(a.t, rt, start, end) && start <= r <= end && i == 0 && b == a
       else Scan(a, b, rt, start, w, m, n, r, i, j, last, added, p) && end == w
  }

  lemma GoingStart(stuck: bool, end: nat, a: View, rt: nat, start: nat, w: nat, m: nat, n: nat, r: nat)
    requires |a.ws| == F.NUM_OF_FRAMES && start <= r <= end
    requires start <= PAGES && (stuck <==> 0 < n && Stuck(a.t, rt, start))
    requires if stuck then StuckAt(a.t, rt, start, end) else end == w && Ready(a.t, rt, start, w, m, n)
    ensures Going(stuck, end, a, a, rt, start, w, m, n, r, 0, 0, 0, {}, start)
  {
    hide Ready, StuckAt, Stuck, Scan, Free, Handed;
    HandedNone(a.ws);
    if !stuck { ScanStart(a, rt, start, w, m, n, r); }
  }

  lemma GoingPage(stuck: bool, end: nat, a: View, b: View, rt: nat, start: nat, w: nat, m: nat, n: nat,
                  r: nat, i: nat, j: nat, last: nat, added: set<nat>, p: nat)
    requires Going(stuck, end, a, b, rt, start, w, m, n, r, i, j, last, added, p) && i < n
    ensures Free(b.ws) <= Free(a.ws) && r + i < PAGES
    ensures var y := (r + i) / 512;
            && (HasPt(b.t, rt, y) ==> Covered(b.t, rt, start, start, Need(b.t, rt, y)))
            && (!HasPt(b.t, rt, y) && stuck ==> Stuck(b.t, rt, start))
            && (!HasPt(b.t, rt, y) && stuck && StuckPt(b.t, rt, start) ==> Need(b.t, rt, y) == 1)
            && (!HasPt(b.t, rt, y) && !stuck ==>
                  !Stuck(b.t, rt, start) && Covered(b.t, rt, start, w + m * j, Need(b.t, rt, y)))
    ensures !stuck ==> Need(b.t, rt, (r + i) / 512) <= m && HomeGrows(a.home, b.home)
    ensures stuck ==> b == a
  {
    hide Ready, Scan, Free, Handed, Need, Covered, HasPt, Mapped, HomeGrows, Stuck, StuckAt, StuckPt;
    if stuck {
      StuckPage(a.t, rt, start, end, r);
      if !HasPt(a.t, rt, r / 512) && StuckPt(a.t, rt, start) { StuckPtIs(a.t, rt, start, end, r); }
    } else {
      ScanPage(a, b, rt, start, w, m, n, r, i, j, last, added, p);
    }
  }

  lemma StuckPage(t: Tables, r: nat, start: nat, u: nat, x: nat)
    requires StuckAt(t, r, start, u) && start <= x <= u
    ensures x < PAGES && Stuck(t, r, start)
    ensures x < u ==> Mapped(t, r, x) && HasPt(t, r, x / 512) && Covered(t, r, start, start, Need(t, r, x / 512))
    ensures x == u ==> !HasPt(t, r, x / 512)
  {
    hide Leaf, Need;
    if x < u {
      MappedIsServed(t, r, x);
      HasPtNeedsNothing(t, r, x / 512);
    }
  }

  lemma GoingFails(stuck: bool, end: nat, a: View, b: View, rt: nat, start: nat, w: nat, m: nat, n: nat,
                   r: nat, i: nat, j: nat, last: nat, added: set<nat>, p: nat)
    requires Going(stuck, end, a, b, rt, start, w, m, n, r, i, j, last, added, p) && i < n
    requires !stuck ==> NoneBefore(a.t, rt, start, r, n) && !HasPt(b.t, rt, (r + i) / 512)
    ensures !stuck ==> m > 0
    ensures !stuck && m == 1 && Free(b.ws) == 0 ==>
              FirstWindow(a.t, rt, start, r, n) && Free(a.ws) < MissingIn(a.t, rt, r / 512, Past(r, n))
  {
    hide Scan, NoneBefore, FirstWindow, HasPt, MissingIn, StuckAt, Free;
    if !stuck { ScanStuck(a, b, rt, start, w, m, n, r, i, j, last, added, p); }
  }

  lemma GoingBreaks(stuck: bool, end: nat, a: View, b: View, rt: nat, start: nat, w: nat, m: nat, n: nat,
                    r: nat, i: nat, j: nat, last: nat, added: set<nat>, p: nat)
    requires Going(stuck, end, a, b, rt, start, w, m, n, r, i, j, last, added, p) && i < n
    requires Mapped(b.t, rt, r + i)
    ensures b == a && !Window(a.t, rt, r, n) && r < end && HasPt(b.t, rt, (r + i) / 512)
  {
    hide Scan, Free, Handed, HasPt, Leaf;
    if stuck {
      MappedIsServed(b.t, rt, r);
    } else {
      ScanBreaks(a, b, rt, start, w, m, n, r, i, j, last, added, p);
    }
  }

  lemma GoingOn(stuck: bool, end: nat, a: View, b: View, c: View, rt: nat, start: nat, w: nat, m: nat, n: nat,
                r: nat, i: nat, j: nat, last: nat, added: set<nat>, p: nat, more: set<nat>)
    requires Going(stuck, end, a, b, rt, start, w, m, n, r, i, j, last, added, p) && i < n && !Mapped(b.t, rt, r + i)
    requires Grown(b.t, b.home, b.ws, c.t, c.home, c.ws, rt, more, (r + i) / 512) && HasPt(c.t, rt, (r + i) / 512)
    requires |more| == Need(b.t, rt, (r + i) / 512) && (stuck ==> HasPt(b.t, rt, (r + i) / 512))
    requires !stuck ==> Need(b.t, rt, (r + i) / 512) <= m
    requires !HasPt(b.t, rt, (r + i) / 512) ==> Within(more, start, w + m * j + |more|)
    requires HasPt(b.t, rt, (r + i) / 512) ==> c == b
    requires |more| <= 1 ==> TookFirst(b.t, rt, start, more) && Handed(b.ws, c.ws, |more|)
    ensures if HasPt(b.t, rt, (r + i) / 512) then
              Going(stuck, end, a, c, rt, start, w, m, n, r, i + 1, j, last, added, p)
            else
              Going(stuck, end, a, c, rt, start, w, m, n, r, i + 1, j + 1, (r + i) / 512, added + more,
                    if m <= 1 && more != {} then PageAfter(more) else p)
  {
    hide Scan, Free, Handed, HasPt, Leaf, Mapped, Need, Grown, Within, TookFirst, StuckAt;
    if stuck {
      StuckPage(a.t, rt, start, end, r);
    } else if HasPt(b.t, rt, (r + i) / 512) {
      ScanServed(a, b, rt, start, w, m, n, r, i, j, last, added, p);
    } else {
      ScanMade(a, b, c, rt, start, w, m, n, r, i, j, last, added, p, more);
      FreeFallsGrown(b.t, b.home, b.ws, c.t, c.home, c.ws, rt, more, (r + i) / 512);
      if m <= 1 { HandedTwice(a.ws, b.ws, c.ws, |added|, |more|); }
    }
  }

  lemma GoingDone(stuck: bool, end: nat, a: View, b: View, rt: nat, start: nat, w: nat, m: nat, n: nat,
                  r: nat, j: nat, last: nat, added: set<nat>, p: nat)
    requires Going(stuck, end, a, b, rt, start, w, m, n, r, n, j, last, added, p) && NoneBefore(a.t, rt, start, r, n)
    requires stuck ==> 0 < n
    ensures !stuck && r <= w && (m <= 1 ==> Handed(a.ws, b.ws, |added|))
    ensures FirstWindow(a.t, rt, start, r, n) && TablesCover(b.t, rt, start, r + n)
    ensures GrownIn(a, b, rt, added, r / 512, Past(r, n)) && Spent(a.t, rt, start, w, m, j, last, added, p)
    ensures j == MissingIn(a.t, rt, r / 512, Past(r, n)) && (j == 0 ==> b == a)
  {
    hide Scan, Free, Handed, StuckAt, NoneBefore, FirstWindow, TablesCover, GrownIn, Spent, MissingIn;
    ScanDone(a, b, rt, start, w, m, n, r, j, last, added, p);
    ScanParts(a, b, rt, start, w, m, n, r, n, j, last, added, p);
  }

  lemma FreeFallsGrown(t0: Tables, h0: map<nat, Home>, w0: seq<bv64>, t1: Tables, h1: map<nat, Home>, w1: seq<bv64>,
                       r: nat, a: set<nat>, g: nat)
    requires Grown(t0, h0, w0, t1, h1, w1, r, a, g)
    ensures Free(w1) <= Free(w0)
  {
    FreeFalls(w0, w1);
  }

  lemma WindowIsFree(t: Tables, r: nat, start: nat, w: nat, a: nat, n: nat)
    requires Covered(t, r, start, w, n) && FirstWindow(t, r, start, a, n) && a <= w
    ensures start <= a && a + n <= w + n <= PAGES && (0 < n ==> !Mapped(t, r, a))
  {
  }

  lemma WindowStarts(t: Tables, r: nat, start: nat, a: nat, n: nat)
    requires FirstWindow(t, r, start, a, n) && 0 < n
    ensures !Mapped(t, r, a) && start <= a
  {
  }

  // Where safe_allocation's search has its reserve, or only the last page, which it then takes for a table.
  lemma SearchPlace(t: Tables, r: nat, start: nat, w: nat, n: nat) returns (u: nat)
    requires 1 <= n <= 2 && (Covered(t, r, start, w, n) || Stuck(t, r, start) || (n == 2 && LastPage(t, r, start)))
    ensures Covered(t, r, start, w, n) ==>
              && u == w && Ready(t, r, start, w, 0, n) && !Stuck(t, r, start) && (n == 2 ==> !LastPage(t, r, start))
              && forall j: nat, last: nat, added: set<nat>, p: nat :: Spent(t, r, start, w, 0, j, last, added, p) ==>
                    j == 0
    ensures !Covered(t, r, start, w, n) && !Stuck(t, r, start) ==>
              n == 2 && LastPageAt(t, r, start, u) && Ready(t, r, start, u, 1, 2)
  {
    hide Stuck, LastPage, Ready, Covered, LastPageAt, Spent;
    u := w;
    if Covered(t, r, start, w, n) {
      CoveredIsReady(t, r, start, w, n);
      CoveredIsEnough(t, r, start, w, n);
    } else if !Stuck(t, r, start) {
      u := LastPageReady(t, r, start);
    }
  }

  lemma LastPageReady(t: Tables, r: nat, start: nat) returns (u: nat)
    requires LastPage(t, r, start)
    ensures LastPageAt(t, r, start, u) && Ready(t, r, start, u, 1, 2) && Covered(t, r, start, u, 1)
  {
    hide Leaf, HasPt, Need;
    u :| LastPageAt(t, r, start, u);
    if Mapped(t, r, u + 1) { MappedIsServed(t, r, u + 1); }
    forall v | start <= v < u + 1 ensures Served(t, r, v) {
      if v < u { MappedIsServed(t, r, v); }
    }
    forall v | start <= v < u + 2 ensures Need(t, r, v / 512) <= 1 {
      if v <= u {
        assert Served(t, r, v);
        HasPtNeedsNothing(t, r, v / 512);
      }
    }
  }

  lemma LastPageTaken(b: View, c: View, r: nat, start: nat, u: nat, a: nat, last: nat, added: set<nat>, p: nat)
    requires LastPageAt(b.t, r, start, u) && FirstWindow(b.t, r, start, a, 2)
    requires GrownIn(b, c, r, added, a / 512, Past(a, 2)) && TablesCover(c.t, r, start, a + 2)
    requires Spent(b.t, r, start, u, 1, MissingIn(b.t, r, a / 512, Past(a, 2)), last, added, p)
    ensures a == u && Mapped(c.t, r, a) && Served(c.t, r, a) && start <= a < PAGES
  {
    hide Leaf, HasPt, Need, MissingIn, WalkGrowsIn, HomeGrows, FramesGrow;
    var t0, t1 := b.t, c.t;
    assert !Mapped(t0, r, a) && !Mapped(t0, r, a + 1);
    if Mapped(t0, r, u + 1) { MappedIsServed(t0, r, u + 1); }
    assert Window(t0, r, u, 2);
    assert a == u;
    assert Served(t1, r, a);
    LastGroupMissing(t0, r, u);
    assert u in added;
    AddedAt(t0, t1, r, added, u);
  }

  lemma LastGroupMissing(t: Tables, r: nat, u: nat)
    requires !Served(t, r, u + 1)
    ensures MissingIn(t, r, u / 512, Past(u, 2)) > 0
  {
    NoneMissing(t, r, u / 512, Past(u, 2));
    assert u / 512 <= (u + 1) / 512 < Past(u, 2);
  }

  // Where copy_frame's first page goes.
  lemma FirstPlace(t: Tables, r: nat, start: nat, w: nat) returns (x: nat)
    requires Covered(t, r, start, w, 2) || Stuck(t, r, start) || LastPage(t, r, start)
    ensures Covered(t, r, start, x, 1) || Stuck(t, r, start)
    ensures Covered(t, r, start, w, 2) ==> x == w && !Stuck(t, r, start) && !LastPage(t, r, start)
    ensures !Covered(t, r, start, w, 2) && !Stuck(t, r, start) ==> LastPageAt(t, r, start, x)
  {
    hide Stuck, LastPage, Covered, LastPageAt;
    x := w;
    if Covered(t, r, start, w, 2) {
      CoveredLess(t, r, start, w, 1, 1);
      CoveredIsEnough(t, r, start, w, 2);
    } else if !Stuck(t, r, start) {
      x := LastPageReady(t, r, start);
    }
  }

  // With the last page mapped there is none.
  lemma LastPageGone(t0: Tables, t1: Tables, r: nat, start: nat, u: nat, d: nat, e: nat)
    requires LastPageAt(t0, r, start, u) && FirstWindow(t0, r, start, d, 1) && RangeMapped(t0, t1, r, d, 1, e)
    requires t1.dirs == t0.dirs
    ensures Stuck(t1, r, start)
  {
    hide RangeMapped, Leaf, Need;
    assert Window(t0, r, u, 1);
    assert !Mapped(t0, r, d);
    assert d == u;
    forall v | start <= v < u + 1 ensures Mapped(t1, r, v) {
      RangeMappedAt(t0, t1, r, d, 1, e, v);
      if v < u { SameLeafSameMapped(t0, t1, r, v); }
    }
    SameDirsSameAt(t0, t1, r, 3, (u + 1) / 512);
    assert StuckAt(t1, r, start, u + 1);
  }

  // A table that cannot be made: the region would have been the one from r on, and needs more tables
  // than there are frames.
  lemma ScanStuck(a: View, b: View, rt: nat, start: nat, w: nat, m: nat, n: nat,
                  r: nat, i: nat, j: nat, last: nat, added: set<nat>, p: nat)
    requires Scan(a, b, rt, start, w, m, n, r, i, j, last, added, p) && i < n && !HasPt(b.t, rt, (r + i) / 512)
    requires NoneBefore(a.t, rt, start, r, n)
    ensures m > 0
    ensures FirstWindow(a.t, rt, start, r, n) && j < MissingIn(a.t, rt, r / 512, Past(r, n))
    ensures m == 1 && Handed(a.ws, b.ws, |added|) && Free(b.ws) == 0 ==> Free(a.ws) == j
  {
    hide GrownIn, Need, HasPt, Mapped, Free, MissingIn, F.Held, F.GrabMany;
    ScanParts(a, b, rt, start, w, m, n, r, i, j, last, added, p);
    ScanMissing(a, b, rt, start, w, m, n, r, i, j, last, added, p);
    forall x | r <= x < r + n ensures !Mapped(a.t, rt, x) {
      assert r <= x < r + i || w <= x < w + n;
    }
    MissingMore(a.t, rt, r / 512, Past(r, i), Past(r, n));
  }

  lemma {:induction false} MissingMore(t: Tables, r: nat, lo: nat, mid: nat, hi: nat)
    requires lo <= mid < hi && !HasPt(t, r, mid)
    ensures MissingIn(t, r, lo, mid) < MissingIn(t, r, lo, hi)
    decreases hi
  {
    hide HasPt;
    if mid + 1 < hi { MissingMore(t, r, lo, mid, hi - 1); }
  }

  // A page that is not free ends the scan before any table was made.
  lemma ScanBreaks(a: View, b: View, rt: nat, start: nat, w: nat, m: nat, n: nat,
                   r: nat, i: nat, j: nat, last: nat, added: set<nat>, p: nat)
    requires Scan(a, b, rt, start, w, m, n, r, i, j, last, added, p) && i < n && Mapped(b.t, rt, r + i)
    ensures j == 0 && b == a && !Window(a.t, rt, r, n) && r < w && HasPt(b.t, rt, (r + i) / 512)
  {
    hide Need, HasPt, Leaf, Mapped;
    var v := r + i;
    if !HasPt(b.t, rt, v / 512) { ScanMissing(a, b, rt, start, w, m, n, r, i, j, last, added, p); }
    if 0 < j { PastTaken(a, b, rt, start, w, m, n, r, i, j, last, added, p); }
    if v !in added && w <= v {
      assert !Mapped(a.t, rt, v);
      AddedAt(a.t, b.t, rt, added, v);
      SameLeafSameMapped(a.t, b.t, rt, v);
    }
    assert j == 0 ==> added == {} && Mapped(a.t, rt, v);
  }

  // Once a table has been made, the scan is past all pages taken.
  lemma PastTaken(a: View, b: View, rt: nat, start: nat, w: nat, m: nat, n: nat,
                  r: nat, i: nat, j: nat, last: nat, added: set<nat>, p: nat)
    requires Scan(a, b, rt, start, w, m, n, r, i, j, last, added, p) && 0 < j
    ensures w + m * j <= r + i && r + i !in added
  {
    hide GrownIn, TablesCover, Window, MissingIn, Covered, Needs;
    Multiply(m, j - 1);
  }

  lemma ScanFree(a: View, b: View, rt: nat, start: nat, w: nat, m: nat, n: nat,
                 r: nat, i: nat, j: nat, last: nat, added: set<nat>, p: nat)
    requires Scan(a, b, rt, start, w, m, n, r, i, j, last, added, p) && i < n && !Mapped(b.t, rt, r + i)
    ensures Window(a.t, rt, r, i + 1)
  {
    hide Need, HasPt, Leaf, Mapped;
    if 0 < j { PastTaken(a, b, rt, start, w, m, n, r, i, j, last, added, p); }
    AddedAt(a.t, b.t, rt, added, r + i);
    if r + i !in added { SameLeafSameMapped(a.t, b.t, rt, r + i); }
  }

  lemma ScanServed(a: View, b: View, rt: nat, start: nat, w: nat, m: nat, n: nat,
                   r: nat, i: nat, j: nat, last: nat, added: set<nat>, p: nat)
    requires Scan(a, b, rt, start, w, m, n, r, i, j, last, added, p) && i < n && !Mapped(b.t, rt, r + i)
    requires HasPt(b.t, rt, (r + i) / 512)
    ensures Scan(a, b, rt, start, w, m, n, r, i + 1, j, last, added, p)
  {
    hide Need, HasPt, Leaf, Mapped, Spent, Ready, Added, HomeGrows, FramesGrow;
    ScanFree(a, b, rt, start, w, m, n, r, i, j, last, added, p);
    ScanParts(a, b, rt, start, w, m, n, r, i, j, last, added, p);
    LevelSizes();
    KeptAt(a, b, rt, added, r / 512, Past(r, i), (r + i) / 512);
    WiderIn(a, b, rt, added, r / 512, Past(r, i), Past(r, i + 1));
    forall x | r <= x < r + i + 1 ensures Served(b.t, rt, x) {
      if x < r + i { assert Served(b.t, rt, x); }
    }
  }

  lemma WiderIn(a: View, b: View, rt: nat, added: set<nat>, lo: nat, hi: nat, hi': nat)
    requires GrownIn(a, b, rt, added, lo, hi) && hi <= hi'
    ensures GrownIn(a, b, rt, added, lo, hi')
  {
  }

  // The page after the one taken
  ghost function PageAfter(more: set<nat>): nat
    requires more != {}
  {
    var a :| a in more;
    a + 1
  }

  lemma PageAfterIs(more: set<nat>) returns (a: nat)
    requires |more| == 1
    ensures more == {a} && PageAfter(more) == a + 1
  {
    a :| a in more;
    assert |more - {a}| == 0;
    assert more == {a};
  }

  lemma ScanMade(a: View, b: View, c: View, rt: nat, start: nat, w: nat, m: nat, n: nat,
                 r: nat, i: nat, j: nat, last: nat, added: set<nat>, p: nat, more: set<nat>)
    requires Scan(a, b, rt, start, w, m, n, r, i, j, last, added, p) && i < n && !Mapped(b.t, rt, r + i)
    requires !HasPt(b.t, rt, (r + i) / 512) && HasPt(c.t, rt, (r + i) / 512) && Need(b.t, rt, (r + i) / 512) <= m
    requires Grown(b.t, b.home, b.ws, c.t, c.home, c.ws, rt, more, (r + i) / 512)
    requires |more| == Need(b.t, rt, (r + i) / 512) && Within(more, start, w + m * j + |more|)
    requires |more| <= 1 ==> TookFirst(b.t, rt, start, more)
    ensures |added + more| == |added| + |more|
    ensures Scan(a, c, rt, start, w, m, n, r, i + 1, j + 1, (r + i) / 512, added + more,
                 if m <= 1 && more != {} then PageAfter(more) else p)
  {
    hide Need, HasPt, Leaf, Mapped, Spent, Ready, Added, HomeGrows, FramesGrow, TookFirst, Grown, GrownIn;
    var y := (r + i) / 512;
    ScanFree(a, b, rt, start, w, m, n, r, i, j, last, added, p);
    ScanParts(a, b, rt, start, w, m, n, r, i, j, last, added, p);
    ScanMissing(a, b, rt, start, w, m, n, r, i, j, last, added, p);
    GrownInTwice(a, b, c, rt, added, more, r / 512, y);
    SpentMore(a, b, c, rt, start, w, m, j, last, added, p, more, r / 512, y);
    MadeServes(b, c, rt, more, start, w + m, y);
    MadeServes(b, c, rt, more, start, r, y);
    MadeServes(b, c, rt, more, r, r + i, y);
    assert Past(r, i + 1) == y + 1;
    forall x | r <= x < r + i + 1 ensures Served(c.t, rt, x) {
      if x == r + i { assert Served(c.t, rt, x); }
    }
  }

  lemma MadeServes(b: View, c: View, rt: nat, more: set<nat>, lo: nat, hi: nat, y: nat)
    requires Grown(b.t, b.home, b.ws, c.t, c.home, c.ws, rt, more, y) && TablesCover(b.t, rt, lo, hi) && hi <= PAGES
    ensures TablesCover(c.t, rt, lo, hi)
  {
    hide Added, HomeGrows, FramesGrow;
    CoverKept(b.t, c.t, rt, lo, hi, y);
  }

  lemma GrownInTwice(a: View, b: View, c: View, rt: nat, added: set<nat>, more: set<nat>, lo: nat, y: nat)
    requires GrownIn(a, b, rt, added, lo, y) && lo <= y && Grown(b.t, b.home, b.ws, c.t, c.home, c.ws, rt, more, y)
    ensures GrownIn(a, c, rt, added + more, lo, y + 1) && |added + more| == |added| + |more|
  {
    hide Added, Leaf, Mapped;
    AddedTwice(a.t, b.t, c.t, rt, added, more);
    EnteredAfter(a.t, b.t, c.t, rt, lo, y, more, y);
    FramesGrowTwice(a.ws, b.ws, c.ws);
    forall k: nat, h: nat | k <= 3 && h < Pow512(k) && At(a.t, rt, k, h).Some?
      ensures At(c.t, rt, k, h) == At(a.t, rt, k, h)
    {
      WalkGrowsInAt(a.t, b.t, rt, lo, y, k, h);
      WalkGrowsAt(b.t, c.t, rt, y, k, h);
    }
    forall h: nat | h < Pow512(3) && !(lo <= h < y + 1) ensures At(c.t, rt, 3, h) == At(a.t, rt, 3, h) {
      WalkGrowsInAt(a.t, b.t, rt, lo, y, 3, h);
      WalkGrowsAt(b.t, c.t, rt, y, 3, h);
    }
  }

  lemma SpentMore(a: View, b: View, c: View, rt: nat, start: nat, w: nat, m: nat,
                  j: nat, last: nat, added: set<nat>, p: nat, more: set<nat>, lo: nat, y: nat)
    requires Spent(a.t, rt, start, w, m, j, last, added, p)
    requires GrownIn(a, b, rt, added, lo, y) && |added + more| == |added| + |more|
    requires Grown(b.t, b.home, b.ws, c.t, c.home, c.ws, rt, more, y) && m <= 5 && start <= PAGES
    requires !HasPt(b.t, rt, y) && !HasPt(a.t, rt, y) && Need(b.t, rt, y) <= m && |more| == Need(b.t, rt, y)
    requires Within(more, start, w + m * j + |more|) && (j == 0 ==> b == a)
    requires |more| <= 1 ==> TookFirst(b.t, rt, start, more)
    ensures Spent(a.t, rt, start, w, m, j + 1, y, added + more, if m <= 1 && more != {} then PageAfter(more) else p)
  {
    hide Need, GrownIn, Grown, HasPt, TakenTo;
    Multiply(m, j);
    if m <= 1 {
      MissingNeeds(b.t, rt, y);
      var q := PageAfterIs(more);
      TakenOneMore(a, b, c, rt, start, added, p, q, lo, y);
    }
    if j == 0 { assert added + more == more; }
  }

  lemma MissingNeeds(t: Tables, r: nat, g: nat)
    requires !HasPt(t, r, g)
    ensures Need(t, r, g) >= 1
  {
  }

  // The first free page after the free pages taken so far.
  lemma TakenOneMore(a: View, b: View, c: View, rt: nat, start: nat, added: set<nat>, p: nat, q: nat, lo: nat, y: nat)
    requires TakenTo(a.t, rt, start, added, p) && GrownIn(a, b, rt, added, lo, y)
    requires Grown(b.t, b.home, b.ws, c.t, c.home, c.ws, rt, {q}, y) && TookFirst(b.t, rt, start, {q})
    ensures TakenTo(a.t, rt, start, added + {q}, q + 1)
  {
    hide Leaf, Mapped, WalkGrowsIn, WalkGrows, HomeGrows, FramesGrow, Added;
    assert FirstWindow(b.t, rt, start, q, 1);
    AddedTwice(a.t, b.t, c.t, rt, added, {q});
    AddedBound(b.t, c.t, rt, {q}, q);
    AddedAt(b.t, c.t, rt, {q}, q);
    AddedAt(a.t, b.t, rt, added, q);
    if q !in added { SameLeafSameMapped(a.t, b.t, rt, q); }
    assert q !in added && !Mapped(a.t, rt, q) && p <= q;
    forall v: nat ensures v in added + {q} <==> start <= v < q + 1 && !Mapped(a.t, rt, v) {
      if start <= v < q {
        OneIsMapped(b.t, rt, v, start, q);
        AddedAt(a.t, b.t, rt, added, v);
        if v !in added { SameLeafSameMapped(a.t, b.t, rt, v); }
      }
    }
  }

  lemma OneIsMapped(t: Tables, r: nat, v: nat, start: nat, q: nat)
    requires FirstWindow(t, r, start, q, 1) && start <= v < q
    ensures Mapped(t, r, v)
  {
    assert !Window(t, r, v, 1);
  }

  lemma ScanDone(a: View, b: View, rt: nat, start: nat, w: nat, m: nat, n: nat,
                 r: nat, j: nat, last: nat, added: set<nat>, p: nat)
    requires Scan(a, b, rt, start, w, m, n, r, n, j, last, added, p) && NoneBefore(a.t, rt, start, r, n)
    ensures FirstWindow(a.t, rt, start, r, n) && TablesCover(b.t, rt, start, r + n)
    ensures GrownIn(a, b, rt, added, r / 512, Past(r, n)) && Spent(a.t, rt, start, w, m, j, last, added, p)
    ensures j == MissingIn(a.t, rt, r / 512, Past(r, n)) && (j == 0 ==> b == a)
  {
    hide Ready, GrownIn, Spent, MissingIn, HasPt, Mapped;
    forall x | start <= x < r + n ensures Served(b.t, rt, x) {
      if r <= x { assert r <= x < r + n; }
    }
  }

  lemma CoveredRange(t: Tables, r: nat, start: nat, w: nat, a: nat, n: nat)
    requires Covered(t, r, start, w, n) && FirstWindow(t, r, start, a, n) && a <= w
    ensures start <= a && a + n <= w + n <= PAGES
  {
  }

  // Only the table at (k, g) is new, at pointer q; every page keeps its entry.
  ghost predicate OneTable(t: Tables, t': Tables, r: nat, k: nat, g: nat, q: nat) {
    && (forall j: nat, h: nat {:trigger At(t', r, j, h)} :: j <= 3 && h < Pow512(j) ==>
          At(t', r, j, h) == if j == k && h == g then Some(q) else At(t, r, j, h))
    && forall v {:trigger Leaf(t', r, v)} :: 0 <= v < PAGES ==> Leaf(t', r, v) == Leaf(t, r, v)
  }

  lemma InstallIsOneTable(t: Tables, home: map<nat, Home>, r: nat, k: nat, g: nat, q: nat, e: nat)
    requires StoreOk(t, home) && TreeOk(t, home, r) && q !in home && Present(e)
    requires 0 < k <= 3 && g < Pow512(k) && At(t, r, k, g).None? && At(t, r, k - 1, g / 512).Some?
    ensures var p := At(t, r, k - 1, g / 512).value;
            && p in t.dirs && |t.dirs[p].physical| == 512 == |t.dirs[p].next|
            && OneTable(t, Install(t, p, k, g, q, e), r, k, g, q)
  {
    hide TreeOk, Present, Install;
    InstallAt(t, home, r, k, g, q, e, k, g);
    var t' := Install(t, At(t, r, k - 1, g / 512).value, k, g, q, e);
    forall j: nat, h: nat | j <= 3 && h < Pow512(j)
      ensures At(t', r, j, h) == if j == k && h == g then Some(q) else At(t, r, j, h)
    {
      InstallAt(t, home, r, k, g, q, e, j, h);
    }
    forall v | 0 <= v < PAGES ensures Leaf(t', r, v) == Leaf(t, r, v) {
      InstallKeepsLeaves(t, home, r, k, g, q, e, v);
    }
  }

  // Of the entries that lead to tables only the one for (k, g) changed, to e.
  ghost predicate OneEntry(t: Tables, t': Tables, r: nat, k: nat, g: nat, e: nat) {
    forall j: nat, h: nat {:trigger EntryAt(t', r, j, h)} :: 0 < j <= 3 && h < Pow512(j) ==>
      EntryAt(t', r, j, h) == if j == k && h == g then e else EntryAt(t, r, j, h)
  }

  lemma InstallIsOneEntry(t: Tables, home: map<nat, Home>, r: nat, k: nat, g: nat, q: nat, e: nat)
    requires StoreOk(t, home) && TreeOk(t, home, r) && q !in home && Present(e)
    requires 0 < k <= 3 && g < Pow512(k) && At(t, r, k, g).None? && At(t, r, k - 1, g / 512).Some?
    ensures var p := At(t, r, k - 1, g / 512).value;
            && p in t.dirs && |t.dirs[p].physical| == 512 == |t.dirs[p].next|
            && OneEntry(t, Install(t, p, k, g, q, e), r, k, g, e)
  {
    hide TreeOk, StoreOk, Present, Install, EntryAt, At;
    InstallAt(t, home, r, k, g, q, e, k, g);
    var t' := Install(t, At(t, r, k - 1, g / 512).value, k, g, q, e);
    forall j: nat, h: nat | 0 < j <= 3 && h < Pow512(j)
      ensures EntryAt(t', r, j, h) == if j == k && h == g then e else EntryAt(t, r, j, h)
    {
      InstallEntry(t, home, r, k, g, q, e, j, h);
    }
  }

  lemma NewTableMapped(t: Tables, t': Tables, home: map<nat, Home>, r: nat, ws: seq<bv64>,
                       k: nat, g: nat, q: nat, h: Home, f: nat)
    requires TablesMapped(t, home, r, ws) && OneTable(t, t', r, k, g, q) && NewRoom(t, home, r, ws, q, h.k, f)
    requires At(t, r, 1, KERNEL_SLOT).Some? && At(t, r, k, g).None?
    ensures TablesMapped(t', home[q := h], r, ws) && At(t', r, 1, KERNEL_SLOT).Some?
  {
    hide TablesMapped, NewRoom, Leaf;
    LevelSizes();
    assert At(t', r, 1, KERNEL_SLOT) == At(t, r, 1, KERNEL_SLOT);
    RoomTaken(t, t', home, r, ws, q, h, f);
  }

  lemma RoomIsNew(t: Tables, home: map<nat, Home>, r: nat, ws: seq<bv64>, a: nat, k: nat, f: nat)
    requires NewRoom(t, home, r, ws, a, k, f)
    ensures a !in home && KERNEL_START <= a && a + Size(k) <= PAGES && Mapped(t, r, a) && FrameOf(Leaf(t, r, a)) == f
  {
    assert !TablePage(home, a);
  }

  lemma LeafLeavesTables(t: Tables, t': Tables, home: map<nat, Home>, r: nat, ws: seq<bv64>, v: nat, e: nat)
    requires |ws| == F.NUM_OF_FRAMES && TablesMapped(t, home, r, ws) && OnePage(t, t', r, v, e) && !TablePage(home, v)
    ensures TablesMapped(t', home, r, ws)
  {
    hide Leaf, TablePage;
    forall u: nat | TablePage(home, u) ensures Leaf(t', r, u) == Leaf(t, r, u) {
      assert Leaf(t', r, u) == (if u == v then e else Leaf(t, r, u));
    }
    TablesStay(t, t', home, r, ws, ws);
  }

  // A table entered under slot 511 leaves the tables below that slot alone.
  lemma InstallIsShared(t: Tables, home: map<nat, Home>, r: nat, k: nat, g: nat, q: nat, e: nat)
    requires StoreOk(t, home) && TreeOk(t, home, r) && q !in home && Present(e)
    requires 0 < k <= 3 && g < Pow512(k) && At(t, r, k, g).None? && At(t, r, k - 1, g / 512).Some?
    requires !User(k, g) && At(t, r, 1, KERNEL_SLOT).Some?
    ensures var p := At(t, r, k - 1, g / 512).value;
            && p in t.dirs && |t.dirs[p].physical| == 512 == |t.dirs[p].next|
            && UserSame(t, home, Install(t, p, k, g, q, e))
  {
    assert k != 1;
    Prefix(k, g);
    assert TableOk(t, home, r, k - 1, g / 512);
  }

  // Only the entry of page v changed, to e.
  ghost predicate OnePage(t: Tables, t': Tables, r: nat, v: nat, e: nat) {
    && t'.dirs == t.dirs
    && (forall k: nat, h: nat {:trigger At(t', r, k, h)} :: At(t', r, k, h) == At(t, r, k, h))
    && forall w {:trigger Leaf(t', r, w)} :: 0 <= w < PAGES ==> Leaf(t', r, w) == if w == v then e else Leaf(t, r, w)
  }

  lemma SetLeafIsOnePage(t: Tables, home: map<nat, Home>, r: nat, v: nat, e: nat)
    requires StoreOk(t, home) && TreeOk(t, home, r) && v < PAGES && HasPt(t, r, v / 512)
    ensures var p := At(t, r, 3, v / 512).value;
            p in t.pts && |t.pts[p]| == 512 && OnePage(t, SetLeaf(t, p, v % 512, e), r, v, e)
  {
    SetLeafChangesOnePage(t, home, r, v, e, v);
    var t' := SetLeaf(t, At(t, r, 3, v / 512).value, v % 512, e);
    forall k: nat, h: nat ensures At(t', r, k, h) == At(t, r, k, h) {
      SameDirsSameAt(t, t', r, k, h);
    }
    forall w | 0 <= w < PAGES ensures Leaf(t', r, w) == if w == v then e else Leaf(t, r, w) {
      SetLeafChangesOnePage(t, home, r, v, e, w);
    }
  }
}
