/** The 4-level page tables as values: tables are found by pointer, and a walk from a root gives
    every virtual page its entry.  Installing a table and storing an entry are the two updates. */
module PageTables {
  import opened Prelude

  const KERNEL: nat := 0
  const KERNEL_SLOT: nat := 511
  const PAGES: nat := 512 * 512 * 512 * 512
  const KERNEL_START: nat := 511 * 512 * 512 * 512

  // PML4T, PDPT and PDT alike: hardware entries and the software's own pointers to the next tables.
  datatype Dir = Dir(physical: seq<nat>, next: seq<nat>)

  // All tables, by the virtual page at which they start.
  datatype Tables = Tables(dirs: map<nat, Dir>, pts: map<nat, seq<nat>>)

  // Which table a pointer denotes: the table at level k (0 for the root, 3 for a PT) that serves
  // pages with prefix g, in the directory "own" (KERNEL for the shared slot 511).
  datatype Home = Home(own: nat, k: nat, g: nat)

  predicate Present(e: nat) {
    e % 2 == 1
  }

  function Entry(s: seq<nat>, i: nat): nat {
    if i < |s| then s[i] else 0
  }

  // The table at level k for prefix g.
  function At(t: Tables, r: nat, k: nat, g: nat): Option<nat> {
    if k == 0 then Some(r)
    else
      match At(t, r, k - 1, g / 512)
      case None => None
      case Some(p) =>
        if p in t.dirs && Present(Entry(t.dirs[p].physical, g % 512)) then Some(Entry(t.dirs[p].next, g % 512))
        else None
  }

  // The entry, in the table above, that leads to the table at level k for prefix g; 0 where no table
  // is above.
  function EntryAt(t: Tables, r: nat, k: nat, g: nat): (e: nat)
    requires 0 < k
    ensures Present(e) <==> At(t, r, k, g).Some?
  {
    match At(t, r, k - 1, g / 512)
    case None => 0
    case Some(p) => if p in t.dirs then Entry(t.dirs[p].physical, g % 512) else 0
  }

  function HasPt(t: Tables, r: nat, g: nat): bool {
    At(t, r, 3, g).Some?
  }

  // The entry of virtual page v; 0 where no table serves it.
  function Leaf(t: Tables, r: nat, v: nat): nat {
    match At(t, r, 3, v / 512)
    case None => 0
    case Some(p) => if p in t.pts then Entry(t.pts[p], v % 512) else 0
  }

  predicate Mapped(t: Tables, r: nat, v: nat) {
    Present(Leaf(t, r, v))
  }

  function Pow512(k: nat): nat {
    if k == 0 then 1 else 512 * Pow512(k - 1)
  }

  // The PML4 slot of a prefix at level k.
  function Slot(k: nat, g: nat): nat {
    if k <= 1 then g else Slot(k - 1, g / 512)
  }

  function Owner(r: nat, k: nat, g: nat): nat {
    if 0 < k && Slot(k, g) == KERNEL_SLOT then KERNEL else r
  }

  ghost predicate TableOk(t: Tables, home: map<nat, Home>, r: nat, k: nat, g: nat) {
    At(t, r, k, g).Some? ==>
      var p := At(t, r, k, g).value;
      && (if k < 3 then p in t.dirs else p in t.pts)
      && p in home && home[p] == Home(Owner(r, k, g), k, g)
  }

  ghost predicate TreeOk(t: Tables, home: map<nat, Home>, r: nat) {
    && r != KERNEL
    && forall k: nat, g: nat {:trigger At(t, r, k, g)} :: k <= 3 && g < Pow512(k) ==> TableOk(t, home, r, k, g)
  }

  ghost predicate StoreOk(t: Tables, home: map<nat, Home>) {
    && t.dirs.Keys !! t.pts.Keys
    && home.Keys == t.dirs.Keys + t.pts.Keys
    && (forall p :: p in t.dirs ==> |t.dirs[p].physical| == 512 && |t.dirs[p].next| == 512)
    && (forall p :: p in t.pts ==> |t.pts[p]| == 512)
  }

  function ZeroTable(): (z: seq<nat>)
    ensures |z| == 512 && forall i :: 0 <= i < 512 ==> z[i] == 0
  {
    seq(512, _ => 0)
  }

  // One level of a walk in a well-formed tree.
  lemma WalkStep(t: Tables, home: map<nat, Home>, r: nat, k: nat, g: nat)
    requires StoreOk(t, home) && TreeOk(t, home, r) && 0 < k <= 3 && g < Pow512(k)
    ensures match At(t, r, k - 1, g / 512)
            case None => At(t, r, k, g).None?
            case Some(p) =>
              && p in t.dirs && |t.dirs[p].physical| == 512 == |t.dirs[p].next|
              && At(t, r, k, g) ==
                 if Present(t.dirs[p].physical[g % 512]) then Some(t.dirs[p].next[g % 512]) else None
    ensures k == 3 && At(t, r, 3, g).Some? ==>
              At(t, r, 3, g).value in t.pts && |t.pts[At(t, r, 3, g).value]| == 512
    ensures At(t, r, 0, 0) == Some(r)
  {
    Prefix(k, g);
    assert TableOk(t, home, r, k - 1, g / 512);
    assert TableOk(t, home, r, k, g);
  }

  lemma LeafStep(t: Tables, home: map<nat, Home>, r: nat, v: nat)
    requires StoreOk(t, home) && TreeOk(t, home, r) && v < PAGES
    ensures match At(t, r, 3, v / 512)
            case None => Leaf(t, r, v) == 0 && !Mapped(t, r, v)
            case Some(p) => p in t.pts && |t.pts[p]| == 512 && Leaf(t, r, v) == t.pts[p][v % 512]
  {
    LevelSizes();
    assert TableOk(t, home, r, 3, v / 512);
  }

  // The levels of the walk for page v.
  lemma Levels(v: nat)
    requires v < PAGES
    ensures Pow512(1) == 512 && Pow512(2) == 512 * 512 && Pow512(3) == 512 * 512 * 512
    ensures v / 512 < Pow512(3) && v / 512 / 512 < Pow512(2) && v / 512 / 512 / 512 < Pow512(1)
    ensures v / 512 / 512 / 512 / 512 == 0
  {
    LevelSizes();
  }

  // ------------------------------------------------------------------------------------------
  // Storing a leaf entry
  // ------------------------------------------------------------------------------------------

  function SetLeaf(t: Tables, p: nat, i: nat, e: nat): Tables
    requires p in t.pts && i < |t.pts[p]|
  {
    var s: seq<nat> := t.pts[p][i := e];
    t.(pts := t.pts[p := s])
  }

  lemma {:induction false} SameDirsSameAt(t: Tables, t': Tables, r: nat, k: nat, g: nat)
    requires t'.dirs == t.dirs
    ensures At(t', r, k, g) == At(t, r, k, g)
  {
    if 0 < k { SameDirsSameAt(t, t', r, k - 1, g / 512); }
  }

  lemma SameDirsSameEntry(t: Tables, t': Tables, r: nat, k: nat, g: nat)
    requires t'.dirs == t.dirs && 0 < k
    ensures EntryAt(t', r, k, g) == EntryAt(t, r, k, g)
  {
    SameDirsSameAt(t, t', r, k - 1, g / 512);
  }

  lemma Prefix(k: nat, g: nat)
    requires 0 < k && g < Pow512(k)
    ensures g / 512 < Pow512(k - 1)
  {
  }

  lemma LevelSizes()
    ensures Pow512(1) == 512 && Pow512(2) == 512 * 512 && Pow512(3) == 512 * 512 * 512
  {
    assert Pow512(0) == 1;
  }

  // Storing the entry of page v changes the translation of v and of no other page.
  lemma SetLeafChangesOnePage(t: Tables, home: map<nat, Home>, r: nat, v: nat, e: nat, w: nat)
    requires StoreOk(t, home) && TreeOk(t, home, r) && v < PAGES && w < PAGES && HasPt(t, r, v / 512)
    ensures var p := At(t, r, 3, v / 512).value;
            && p in t.pts && |t.pts[p]| == 512
            && Leaf(SetLeaf(t, p, v % 512, e), r, w) == if w == v then e else Leaf(t, r, w)
  {
    LevelSizes();
    var p := At(t, r, 3, v / 512).value;
    assert TableOk(t, home, r, 3, v / 512);
    assert TableOk(t, home, r, 3, w / 512);
    SameDirsSameAt(t, SetLeaf(t, p, v % 512, e), r, 3, w / 512);
  }

  lemma SetLeafKeepsTree(t: Tables, home: map<nat, Home>, r: nat, p: nat, i: nat, e: nat)
    requires StoreOk(t, home) && TreeOk(t, home, r) && p in t.pts && i < 512
    ensures StoreOk(SetLeaf(t, p, i, e), home) && TreeOk(SetLeaf(t, p, i, e), home, r)
  {
    var t' := SetLeaf(t, p, i, e);
    assert t'.pts.Keys == t.pts.Keys;
    forall k: nat, g: nat | k <= 3 && g < Pow512(k) ensures TableOk(t', home, r, k, g) {
      SameDirsSameAt(t, t', r, k, g);
      assert TableOk(t, home, r, k, g);
    }
  }

  // ------------------------------------------------------------------------------------------
  // Installing an empty table
  // ------------------------------------------------------------------------------------------

  function SetDir(t: Tables, p: nat, i: nat, e: nat, q: nat): Tables
    requires p in t.dirs && i < |t.dirs[p].physical| && i < |t.dirs[p].next|
  {
    var physical: seq<nat> := t.dirs[p].physical[i := e];
    var next: seq<nat> := t.dirs[p].next[i := q];
    t.(dirs := t.dirs[p := Dir(physical, next)])
  }

  // The new table, zeroed, at a fresh pointer q; level k tells its kind.
  function AddTable(t: Tables, k: nat, q: nat): Tables {
    if k < 3 then t.(dirs := t.dirs[q := Dir(ZeroTable(), ZeroTable())]) else t.(pts := t.pts[q := ZeroTable()])
  }

  // Add table q at (k, g) and enter it in its parent p.
  function Install(t: Tables, p: nat, k: nat, g: nat, q: nat, e: nat): Tables
    requires p in t.dirs && g % 512 < |t.dirs[p].physical| && g % 512 < |t.dirs[p].next|
  {
    AddTable(SetDir(t, p, g % 512, e, q), k, q)
  }

  // One step of a walk from the table found so far.
  function Child(t: Tables, a: Option<nat>, i: nat): Option<nat> {
    match a
    case None => None
    case Some(p) =>
      if p in t.dirs && Present(Entry(t.dirs[p].physical, i)) then Some(Entry(t.dirs[p].next, i)) else None
  }

  lemma AtIsChild(t: Tables, r: nat, k: nat, g: nat)
    requires 0 < k
    ensures At(t, r, k, g) == Child(t, At(t, r, k - 1, g / 512), g % 512)
  {
    hide Present, Entry;
  }

  lemma InstallChild(t: Tables, home: map<nat, Home>, p: nat, k: nat, g: nat, q: nat, e: nat, a: nat, i: nat)
    requires StoreOk(t, home) && q !in home && Present(e) && p in t.dirs && p in home && i < 512
    requires a == q ==> k < 3
    ensures |t.dirs[p].physical| == 512 == |t.dirs[p].next|
    ensures Child(Install(t, p, k, g, q, e), Some(a), i) ==
            if a == q then None else if a == p && i == g % 512 then Some(q) else Child(t, Some(a), i)
  {
    assert !Present(0);
    hide Present;
  }

  // What a walk finds after the installation: the new table at its own place, nothing new elsewhere.
  lemma {:induction false} InstallAt(t: Tables, home: map<nat, Home>, r: nat, k: nat, g: nat, q: nat, e: nat, j: nat,
                                     h: nat)
    requires StoreOk(t, home) && TreeOk(t, home, r) && q !in home && Present(e)
    requires 0 < k <= 3 && g < Pow512(k) && At(t, r, k, g).None? && At(t, r, k - 1, g / 512).Some?
    requires j <= 3 && h < Pow512(j)
    ensures var p := At(t, r, k - 1, g / 512).value;
            && p in t.dirs && |t.dirs[p].physical| == 512 == |t.dirs[p].next|
            && At(Install(t, p, k, g, q, e), r, j, h) == if j == k && h == g then Some(q) else At(t, r, j, h)
    decreases j
  {
    hide Owner, Present, Slot, At, Child, Install, StoreOk, Pow512;
    Prefix(k, g);
    TreeAt(t, home, r, k - 1, g / 512);
    var p := At(t, r, k - 1, g / 512).value;
    InstallChild(t, home, p, k, g, q, e, p, 0);
    var t' := Install(t, p, k, g, q, e);
    if 0 == j {
      AtRoot(t, r, h);
      AtRoot(t', r, h);
    } else {
      Prefix(j, h);
      InstallAt(t, home, r, k, g, q, e, j - 1, h / 512);
      AtIsChild(t', r, j, h);
      AtIsChild(t, r, j, h);
      var a := At(t', r, j - 1, h / 512);
      if a.Some? {
        InstallChild(t, home, p, k, g, q, e, a.value, h % 512);
        TreeAt(t, home, r, j - 1, h / 512);
      }
      NoChild(t, h % 512);
      NoChild(t', h % 512);
    }
  }

  // Of the entries that lead to tables, only the new one's changes.
  lemma InstallEntry(t: Tables, home: map<nat, Home>, r: nat, k: nat, g: nat, q: nat, e: nat, j: nat, h: nat)
    requires StoreOk(t, home) && TreeOk(t, home, r) && q !in home && Present(e)
    requires 0 < k <= 3 && g < Pow512(k) && At(t, r, k, g).None? && At(t, r, k - 1, g / 512).Some?
    requires 0 < j <= 3 && h < Pow512(j)
    ensures var p := At(t, r, k - 1, g / 512).value;
            && p in t.dirs && |t.dirs[p].physical| == 512 == |t.dirs[p].next|
            && EntryAt(Install(t, p, k, g, q, e), r, j, h) ==
               if j == k && h == g then e else EntryAt(t, r, j, h)
  {
    hide Owner, Present, Slot, At, StoreOk, Pow512;
    Prefix(k, g);
    Prefix(j, h);
    TreeAt(t, home, r, k - 1, g / 512);
    TreeAt(t, home, r, j - 1, h / 512);
    InstallAt(t, home, r, k, g, q, e, j - 1, h / 512);
    var p := At(t, r, k - 1, g / 512).value;
    InstallChild(t, home, p, k, g, q, e, p, 0);
    InstallKeepsStore(t, home, p, k, g, q, e, Home(Owner(r, k, g), k, g));
  }

  // The entry lies in the table above, at the last nine bits of the prefix.
  lemma InstallStores(t: Tables, home: map<nat, Home>, r: nat, k: nat, g: nat, q: nat, e: nat)
    requires StoreOk(t, home) && TreeOk(t, home, r) && q !in home
    requires 0 < k <= 3 && g < Pow512(k) && At(t, r, k - 1, g / 512).Some?
    ensures var p := At(t, r, k - 1, g / 512).value;
            && p in t.dirs && |t.dirs[p].physical| == 512 == |t.dirs[p].next|
            && var t' := Install(t, p, k, g, q, e);
               p in t'.dirs && |t'.dirs[p].physical| == 512 && t'.dirs[p].physical[g % 512] == e
  {
    Prefix(k, g);
    TreeAt(t, home, r, k - 1, g / 512);
  }

  lemma EntryIs(t: Tables, home: map<nat, Home>, r: nat, k: nat, g: nat)
    requires StoreOk(t, home) && TreeOk(t, home, r) && 0 < k <= 3 && g < Pow512(k)
    ensures match At(t, r, k - 1, g / 512)
            case None => EntryAt(t, r, k, g) == 0
            case Some(p) =>
              && p in t.dirs && |t.dirs[p].physical| == 512
              && EntryAt(t, r, k, g) == t.dirs[p].physical[g % 512]
  {
    Prefix(k, g);
    TreeAt(t, home, r, k - 1, g / 512);
  }

  lemma AtRoot(t: Tables, r: nat, g: nat)
    ensures At(t, r, 0, g) == Some(r)
  {
  }

  lemma NoChild(t: Tables, i: nat)
    ensures Child(t, None, i) == None
  {
  }

  // A table that a walk finds is known to be at that place, and at no other.
  lemma TreeAt(t: Tables, home: map<nat, Home>, r: nat, k: nat, g: nat)
    requires TreeOk(t, home, r) && k <= 3 && g < Pow512(k)
    ensures At(t, r, k, g).Some? ==>
              var p := At(t, r, k, g).value;
              (if k < 3 then p in t.dirs else p in t.pts) && p in home && home[p] == Home(Owner(r, k, g), k, g)
  {
    hide Owner, At;
    assert TableOk(t, home, r, k, g);
  }

  lemma InstallKeepsStore(t: Tables, home: map<nat, Home>, p: nat, k: nat, g: nat, q: nat, e: nat, h: Home)
    requires StoreOk(t, home) && q !in home && p in t.dirs
    ensures |t.dirs[p].physical| == 512 == |t.dirs[p].next|
    ensures var t' := Install(t, p, k, g, q, e);
            && StoreOk(t', home[q := h])
            && (if k < 3 then q in t'.dirs else q in t'.pts)
            && (forall x :: x in t.dirs ==> x in t'.dirs) && (forall x :: x in t.pts ==> x in t'.pts)
  {
    var t' := Install(t, p, k, g, q, e);
    assert t'.dirs.Keys + t'.pts.Keys == home[q := h].Keys;
  }

  lemma InstallKeepsTree(t: Tables, home: map<nat, Home>, r: nat, k: nat, g: nat, q: nat, e: nat)
    requires StoreOk(t, home) && TreeOk(t, home, r) && q !in home && Present(e)
    requires 0 < k <= 3 && g < Pow512(k) && At(t, r, k, g).None? && At(t, r, k - 1, g / 512).Some?
    ensures var p := At(t, r, k - 1, g / 512).value;
            && p in t.dirs && |t.dirs[p].physical| == 512 == |t.dirs[p].next| && p in home
            && home[p] == Home(Owner(r, k - 1, g / 512), k - 1, g / 512)
            && StoreOk(Install(t, p, k, g, q, e), home[q := Home(Owner(r, k, g), k, g)])
            && TreeOk(Install(t, p, k, g, q, e), home[q := Home(Owner(r, k, g), k, g)], r)
  {
    hide Owner, Slot, Present, At, Install, StoreOk, Pow512;
    var p := At(t, r, k - 1, g / 512).value;
    InstallAt(t, home, r, k, g, q, e, k, g);
    Prefix(k, g);
    TreeAt(t, home, r, k - 1, g / 512);
    InstallKeepsStore(t, home, p, k, g, q, e, Home(Owner(r, k, g), k, g));
    var t', home' := Install(t, p, k, g, q, e), home[q := Home(Owner(r, k, g), k, g)];
    forall j: nat, h: nat | j <= 3 && h < Pow512(j) ensures TableOk(t', home', r, j, h) {
      InstallAt(t, home, r, k, g, q, e, j, h);
      TreeAt(t, home, r, j, h);
    }
  }

  // An empty table serves no page: installing it changes no translation.
  lemma InstallKeepsLeaves(t: Tables, home: map<nat, Home>, r: nat, k: nat, g: nat, q: nat, e: nat, v: nat)
    requires StoreOk(t, home) && TreeOk(t, home, r) && q !in home && Present(e) && v < PAGES
    requires 0 < k <= 3 && g < Pow512(k) && At(t, r, k, g).None? && At(t, r, k - 1, g / 512).Some?
    ensures var p := At(t, r, k - 1, g / 512).value;
            && p in t.dirs && |t.dirs[p].physical| == 512 == |t.dirs[p].next|
            && Leaf(Install(t, p, k, g, q, e), r, v) == Leaf(t, r, v)
  {
    LevelSizes();
    InstallAt(t, home, r, k, g, q, e, 3, v / 512);
    assert TableOk(t, home, r, 3, v / 512);
  }

  // ------------------------------------------------------------------------------------------
  // Other directories
  // ------------------------------------------------------------------------------------------

  // A place in the part of the address space that directories do not share.
  predicate User(k: nat, g: nat) {
    k == 0 || Slot(k, g) != KERNEL_SLOT
  }

  // Tables outside the shared slot keep their contents.
  ghost predicate UserSame(t: Tables, home: map<nat, Home>, t': Tables) {
    && (forall p :: p in t.dirs && p in home && home[p].own != KERNEL ==> p in t'.dirs && t'.dirs[p] == t.dirs[p])
    && (forall p :: p in t.pts && p in home && home[p].own != KERNEL ==> p in t'.pts && t'.pts[p] == t.pts[p])
  }

  // The part of a directory below slot 511 is well formed.
  ghost predicate UserOk(t: Tables, home: map<nat, Home>, r: nat) {
    && r != KERNEL
    && forall k: nat, g: nat {:trigger At(t, r, k, g)} :: k <= 3 && g < Pow512(k) && User(k, g) ==>
          TableOk(t, home, r, k, g)
  }

  lemma UserPrefix(k: nat, g: nat)
    requires 0 < k && User(k, g)
    ensures User(k - 1, g / 512)
  {
  }

  // A directory's own pages keep their translations whatever happens to slot 511.
  lemma {:induction false} UserWalkSame(t: Tables, home: map<nat, Home>, t': Tables, r: nat, k: nat, g: nat)
    requires UserOk(t, home, r) && UserSame(t, home, t') && k <= 3 && g < Pow512(k) && User(k, g)
    ensures At(t', r, k, g) == At(t, r, k, g)
  {
    if 0 < k {
      UserPrefix(k, g);
      Prefix(k, g);
      UserWalkSame(t, home, t', r, k - 1, g / 512);
      assert TableOk(t, home, r, k - 1, g / 512);
    }
  }

  lemma UserLeafSame(t: Tables, home: map<nat, Home>, t': Tables, r: nat, v: nat)
    requires UserOk(t, home, r) && UserSame(t, home, t') && v < KERNEL_START
    ensures User(3, v / 512) && Leaf(t', r, v) == Leaf(t, r, v)
  {
    LevelSizes();
    UserBelowKernel(v);
    UserWalkSame(t, home, t', r, 3, v / 512);
    assert TableOk(t, home, r, 3, v / 512);
  }

  // A table that serves the shared slot is no directory's own.
  lemma KernelTablesAreShared(t: Tables, home: map<nat, Home>, r: nat, v: nat)
    requires TreeOk(t, home, r) && KERNEL_START <= v < PAGES && HasPt(t, r, v / 512)
    ensures var p := At(t, r, 3, v / 512).value; p in home && home[p].own == KERNEL
  {
    LevelSizes();
    UserBelowKernel(v);
    assert TableOk(t, home, r, 3, v / 512);
  }

  lemma UserBelowKernel(v: nat)
    requires v < PAGES
    ensures User(3, v / 512) <==> v < KERNEL_START
  {
    assert Slot(3, v / 512) == Slot(2, v / 512 / 512) == Slot(1, v / 512 / 512 / 512) == v / 512 / 512 / 512;
  }
}
