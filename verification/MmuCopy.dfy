/** What it means for one directory to be a deep copy of another below slot 511. */
module MmuCopy {
  import opened Prelude
  import F = Frames
  import opened PageTables
  import opened Mmu
  import opened MmuHardware

  // ------------------------------------------------------------------------------------------
  // States, and what cloning may change in them
  // ------------------------------------------------------------------------------------------

  datatype Snap = Snap(t: Tables, home: map<nat, Home>, ram: map<nat, Page>, ws: seq<bv64>, tag: map<nat, nat>)

  ghost function Now(m: Mmu): Snap
    reads m, m.frames, m.frames.words
  {
    Snap(m.t, m.home, m.ram, m.Words(), m.tag)
  }

  ghost predicate RamKept(s: Snap, s': Snap) {
    forall f {:trigger RamAt(s'.ram, f)} {:trigger f in s'.tag} :: 0 <= f && Settled(s.ws, f) ==>
      RamAt(s'.ram, f) == RamAt(s.ram, f) && (f in s.tag ==> f in s'.tag && s'.tag[f] == s.tag[f])
  }

  // Mapped pages of directory r keep their entries.
  ghost predicate MappingKept(t: Tables, t': Tables, r: nat) {
    forall v {:trigger Leaf(t', r, v)} :: 0 <= v < PAGES && Mapped(t, r, v) ==> Leaf(t', r, v) == Leaf(t, r, v)
  }

  // Settled frames, existing tables outside slot 511 and the active directory's pages are unchanged.
  ghost predicate Evolves(s: Snap, s': Snap, active: nat) {
    && UserSame(s.t, s.home, s'.t) && HomeGrows(s.home, s'.home) && FramesGrow(s.ws, s'.ws)
    && RamKept(s, s') && MappingKept(s.t, s'.t, active)
  }

  lemma RamKeptTwice(a: Snap, b: Snap, c: Snap)
    requires RamKept(a, b) && RamKept(b, c) && FramesGrow(a.ws, b.ws)
    ensures RamKept(a, c)
  {
    hide Settled;
    forall f | 0 <= f && Settled(a.ws, f)
      ensures RamAt(c.ram, f) == RamAt(a.ram, f) && (f in a.tag ==> f in c.tag && c.tag[f] == a.tag[f])
    {
      SettledStays(a.ws, b.ws, f);
      assert RamAt(b.ram, f) == RamAt(a.ram, f);
    }
  }

  lemma MappingKeptTwice(a: Tables, b: Tables, c: Tables, r: nat)
    requires MappingKept(a, b, r) && MappingKept(b, c, r)
    ensures MappingKept(a, c, r)
  {
    forall v | 0 <= v < PAGES && Mapped(a, r, v) ensures Leaf(c, r, v) == Leaf(a, r, v) {
      assert Leaf(b, r, v) == Leaf(a, r, v);
    }
  }

  lemma EvolvesTwice(a: Snap, b: Snap, c: Snap, active: nat)
    requires Evolves(a, b, active) && Evolves(b, c, active)
    ensures Evolves(a, c, active)
  {
    hide UserSame, HomeGrows, FramesGrow, RamKept, MappingKept;
    UserSameTwice(a.t, a.home, b.t, b.home, c.t);
    RamKeptTwice(a, b, c);
    MappingKeptTwice(a.t, b.t, c.t, active);
    FramesGrowTwice(a.ws, b.ws, c.ws);
    HomeGrowsTwice(a.home, b.home, c.home);
  }

  lemma HomeGrowsTwice(a: map<nat, Home>, b: map<nat, Home>, c: map<nat, Home>)
    requires HomeGrows(a, b) && HomeGrows(b, c)
    ensures HomeGrows(a, c)
  {
  }

  // ------------------------------------------------------------------------------------------
  // Directories other than the one being built
  // ------------------------------------------------------------------------------------------

  // Tables of directory r and of slot 511 are the same in t'.
  ghost predicate OwnSame(t: Tables, home: map<nat, Home>, t': Tables, r: nat) {
    && (forall p :: p in t.dirs && p in home && home[p].own in {r, KERNEL} ==> p in t'.dirs && t'.dirs[p] == t.dirs[p])
    && (forall p :: p in t.pts && p in home && home[p].own in {r, KERNEL} ==> p in t'.pts && t'.pts[p] == t.pts[p])
  }

  lemma {:induction false} OwnAtSame(t: Tables, home: map<nat, Home>, t': Tables, r: nat, k: nat, g: nat)
    requires TreeOk(t, home, r) && OwnSame(t, home, t', r) && k <= 3 && g < Pow512(k)
    ensures At(t', r, k, g) == At(t, r, k, g)
  {
    if 0 < k {
      Prefix(k, g);
      OwnAtSame(t, home, t', r, k - 1, g / 512);
      assert TableOk(t, home, r, k - 1, g / 512);
    }
  }

  lemma OwnTreeSame(t: Tables, home: map<nat, Home>, t': Tables, home': map<nat, Home>, r: nat)
    requires TreeOk(t, home, r) && OwnSame(t, home, t', r) && HomeGrows(home, home')
    ensures TreeOk(t', home', r)
    ensures forall k: nat, g: nat {:trigger At(t', r, k, g)} :: k <= 3 && g < Pow512(k) ==>
              At(t', r, k, g) == At(t, r, k, g)
    ensures forall v {:trigger Leaf(t', r, v)} :: 0 <= v < PAGES ==> Leaf(t', r, v) == Leaf(t, r, v)
  {
    forall k: nat, g: nat | k <= 3 && g < Pow512(k)
      ensures TableOk(t', home', r, k, g) && At(t', r, k, g) == At(t, r, k, g)
    {
      OwnAtSame(t, home, t', r, k, g);
      assert TableOk(t, home, r, k, g);
    }
    LevelSizes();
    forall v | 0 <= v < PAGES ensures Leaf(t', r, v) == Leaf(t, r, v) {
      OwnAtSame(t, home, t', r, 3, v / 512);
      assert TableOk(t, home, r, 3, v / 512);
    }
  }

  // ------------------------------------------------------------------------------------------
  // The pages that cloning may use
  // ------------------------------------------------------------------------------------------

  // Free pages from "next" to "end"; if tight, there are no others before the first missing table.
  datatype Pool = Pool(next: nat, end: nat, tight: bool)

  function Less(b: Pool, n: nat): Pool {
    b.(next := b.next + n)
  }

  ghost predicate PoolOk(t: Tables, r: nat, start: nat, b: Pool) {
    && b.next <= b.end && Covered(t, r, start, b.next, b.end - b.next)
    && (b.tight ==>
          && b.end < PAGES && !Served(t, r, b.end) && Need(t, r, b.end / 512) == 1
          && forall v {:trigger Mapped(t, r, v)} :: start <= v < b.next ==> Mapped(t, r, v))
  }

  // With too few pages left, a request finds none, or only the last.
  lemma PoolShort(t: Tables, r: nat, start: nat, b: Pool, n: nat)
    requires PoolOk(t, r, start, b) && b.tight && 1 <= n <= 2 && b.end < b.next + n
    ensures Stuck(t, r, start) || (n == 2 && LastPage(t, r, start))
  {
    hide HasPt, Leaf, Need;
    if b.next == b.end {
      assert StuckAt(t, r, start, b.end);
    } else {
      assert Served(t, r, b.next) && !Mapped(t, r, b.next);
      assert LastPageAt(t, r, start, b.next);
    }
  }

  lemma PoolEnough(t: Tables, r: nat, start: nat, b: Pool, n: nat)
    requires PoolOk(t, r, start, b) && 1 <= n && b.next + n <= b.end
    ensures Covered(t, r, start, b.next, n) && !Stuck(t, r, start) && (n > 1 ==> !LastPage(t, r, start))
  {
    hide Covered, Stuck, LastPage, Served, Need, Mapped;
    CoveredLess(t, r, start, b.next, n, b.end - b.next - n);
    CoveredIsEnough(t, r, start, b.next, n);
  }

  // A pool does not depend on anything but the active directory's translations.
  lemma PoolSame(t: Tables, t': Tables, r: nat, start: nat, b: Pool)
    requires PoolOk(t, r, start, b)
    requires forall k: nat, g: nat {:trigger At(t', r, k, g)} :: k <= 3 && g < Pow512(k) ==>
               At(t', r, k, g) == At(t, r, k, g)
    requires forall v {:trigger Leaf(t', r, v)} :: 0 <= v < PAGES ==> Leaf(t', r, v) == Leaf(t, r, v)
    ensures PoolOk(t', r, start, b)
  {
    hide Leaf, At;
    LevelSizes();
    forall v | b.next <= v < b.next + (b.end - b.next) ensures !Mapped(t', r, v) {
      assert !Mapped(t, r, v);
      assert Leaf(t', r, v) == Leaf(t, r, v);
    }
    forall v | start <= v < b.next + (b.end - b.next) ensures Served(t', r, v) {
      assert Served(t, r, v);
      assert At(t', r, 3, v / 512) == At(t, r, 3, v / 512);
    }
    if b.tight {
      SameNeed(t, t', r, b.end);
      forall v | start <= v < b.next ensures Mapped(t', r, v) {
        assert Mapped(t, r, v);
        assert Leaf(t', r, v) == Leaf(t, r, v);
      }
    }
  }

  lemma SameNeed(t: Tables, t': Tables, r: nat, v: nat)
    requires v < PAGES
    requires forall k: nat, g: nat {:trigger At(t', r, k, g)} :: k <= 3 && g < Pow512(k) ==>
               At(t', r, k, g) == At(t, r, k, g)
    ensures Need(t', r, v / 512) == Need(t, r, v / 512) && Served(t', r, v) == Served(t, r, v)
  {
    hide At;
    Levels(v);
    assert At(t', r, 1, v / 512 / 512 / 512) == At(t, r, 1, v / 512 / 512 / 512);
    assert At(t', r, 2, v / 512 / 512) == At(t, r, 2, v / 512 / 512);
    assert At(t', r, 3, v / 512) == At(t, r, 3, v / 512);
  }

  // Pages taken by safe_allocation come off the front of the pool.
  lemma PoolAfterRange(t: Tables, t': Tables, r: nat, start: nat, b: Pool, a: nat, n: nat, e: nat)
    requires PoolOk(t, r, start, b) && 1 <= n && b.next + n <= b.end && FirstWindow(t, r, start, a, n) && a <= b.next
    requires RangeMapped(t, t', r, a, n, e) && t'.dirs == t.dirs
    ensures PoolOk(t', r, start, Less(b, n))
  {
    hide RangeMapped, Leaf, HasPt;
    forall v | b.next + n <= v < b.end ensures !Mapped(t', r, v) {
      assert !Mapped(t, r, v);
      RangeMappedAt(t, t', r, a, n, e, v);
      SameLeafSameMapped(t, t', r, v);
    }
    forall v | start <= v < b.end ensures Served(t', r, v) {
      assert Served(t, r, v);
      StillServed(t, t', r, v);
    }
    if b.tight {
      SameDirsNeed(t, t', r, b.end);
      assert !Mapped(t, r, a);
      assert a == b.next;
      forall v | start <= v < b.next + n ensures Mapped(t', r, v) {
        RangeMappedAt(t, t', r, a, n, e, v);
        if v < b.next { SameLeafSameMapped(t, t', r, v); }
      }
    }
  }

  lemma SameDirsNeed(t: Tables, t': Tables, r: nat, v: nat)
    requires t'.dirs == t.dirs && v < PAGES
    ensures Need(t', r, v / 512) == Need(t, r, v / 512) && Served(t', r, v) == Served(t, r, v)
  {
    hide At;
    forall k: nat, g: nat | k <= 3 && g < Pow512(k) ensures At(t', r, k, g) == At(t, r, k, g) {
      SameDirsSameAt(t, t', r, k, g);
    }
    SameNeed(t, t', r, v);
  }

  // The same pages are in use.
  lemma PoolSameMapping(t: Tables, t': Tables, r: nat, start: nat, b: Pool)
    requires PoolOk(t, r, start, b) && SameMapping(t, t', r) && t'.dirs == t.dirs
    ensures PoolOk(t', r, start, b)
  {
    hide Leaf, HasPt;
    forall v | b.next <= v < b.end ensures !Mapped(t', r, v) {
      assert !Mapped(t, r, v);
      SameMappingSays(t, t', r, v);
    }
    forall v | start <= v < b.end ensures Served(t', r, v) {
      assert Served(t, r, v);
      StillServed(t, t', r, v);
    }
    if b.tight {
      SameDirsNeed(t, t', r, b.end);
      forall v | start <= v < b.next ensures Mapped(t', r, v) {
        assert Mapped(t, r, v);
        SameMappingSays(t, t', r, v);
      }
    }
  }

  lemma SameMappingSays(t: Tables, t': Tables, r: nat, v: nat)
    requires SameMapping(t, t', r) && v < PAGES
    ensures Mapped(t', r, v) == Mapped(t, r, v)
  {
  }

  // ------------------------------------------------------------------------------------------
  // What it means for a table to be a copy
  // ------------------------------------------------------------------------------------------

  // A page entry: same presence and flags, the same bytes in a frame that was free, tagged with its page.
  ghost predicate PageCopied(s0: Snap, e0: nat, s: Snap, e: nat, v: nat) {
    && (Present(e) <==> Present(e0)) && (!Present(e) ==> e == 0)
    && (Present(e) ==>
          && |s0.ws| == F.NUM_OF_FRAMES == |s.ws| && FrameOf(e) < F.FRAMES
          && e % PAGE_SIZE == e0 % PAGE_SIZE
          && !F.Taken(s0.ws, FrameOf(e)) && F.Taken(s.ws, FrameOf(e))
          && RamAt(s.ram, FrameOf(e)) == RamAt(s0.ram, FrameOf(e0))
          && FrameOf(e) in s.tag && s.tag[FrameOf(e)] == v)
  }

  // Table q (level k, prefix g) of directory "own" is a copy of table p of state s0.
  ghost predicate Copied(s0: Snap, k: nat, p: nat, s: Snap, active: nat, q: nat, own: nat, g: nat)
    requires k <= 3
    decreases 3 - k
  {
    && q in s.home && s.home[q] == Home(own, k, g) && Mapped(s.t, active, q) && q < PAGES
    && if k == 3 then
         && p in s0.t.pts && q in s.t.pts && |s0.t.pts[p]| == 512 == |s.t.pts[q]|
         && PagesCopied(s0, s0.t.pts[p], s, s.t.pts[q], g, 512)
       else
         && p in s0.t.dirs && q in s.t.dirs && WellSized(s0.t.dirs[p]) && WellSized(s.t.dirs[q])
         && forall i :: 0 <= i < Limit(k) ==> ChildCopied(s0, k, s0.t.dirs[p], s, active, s.t.dirs[q], own, g, i)
  }

  ghost predicate PagesCopied(s0: Snap, p: seq<nat>, s: Snap, q: seq<nat>, g: nat, n: nat)
    requires n <= |p| && n <= |q|
  {
    forall l {:trigger q[l]} :: 0 <= l < n ==> PageCopied(s0, p[l], s, q[l], g * 512 + l)
  }

  ghost predicate ChildCopied(s0: Snap, k: nat, p: Dir, s: Snap, active: nat, q: Dir, own: nat, g: nat, i: nat)
    requires k < 3 && i < 512 && WellSized(p) && WellSized(q)
    decreases 3 - k, 0
  {
    && (Present(q.physical[i]) <==> Present(p.physical[i]))
    && (!Present(q.physical[i]) ==> q.physical[i] == 0)
    && (Present(q.physical[i]) ==>
          && Copied(s0, k + 1, p.next[i], s, active, q.next[i], own, g * 512 + i)
          && q.physical[i] == ChildEntry(k, p.physical[i], TableFrame(s.t, active, q.next[i])))
  }

  // From level k on, the tables of directory "own" are the same.
  ghost predicate BelowSame(t: Tables, home: map<nat, Home>, t': Tables, own: nat, k: nat) {
    && (forall p :: p in t.dirs && p in home && home[p].own == own && home[p].k >= k ==>
          p in t'.dirs && t'.dirs[p] == t.dirs[p])
    && (forall p :: p in t.pts && p in home && home[p].own == own && home[p].k >= k ==>
          p in t'.pts && t'.pts[p] == t.pts[p])
  }

  ghost predicate Keeps(s: Snap, s': Snap, active: nat, own: nat, k: nat) {
    && BelowSame(s.t, s.home, s'.t, own, k) && HomeGrows(s.home, s'.home) && FramesGrow(s.ws, s'.ws)
    && RamKept(s, s') && MappingKept(s.t, s'.t, active)
  }

  lemma EvolvesKeeps(s: Snap, s': Snap, active: nat, own: nat, k: nat)
    requires Evolves(s, s', active) && own != KERNEL
    ensures Keeps(s, s', active, own, k)
  {
  }

  lemma PageCopiedKept(s0: Snap, e0: nat, s: Snap, s': Snap, e: nat, v: nat)
    requires PageCopied(s0, e0, s, e, v) && FramesGrow(s.ws, s'.ws) && RamKept(s, s')
    ensures PageCopied(s0, e0, s', e, v)
  {
    if Present(e) {
      assert Settled(s.ws, FrameOf(e));
      assert RamAt(s'.ram, FrameOf(e)) == RamAt(s.ram, FrameOf(e));
    }
  }

  // A finished copy stays a copy.
  lemma {:induction false} CopiedKept(s0: Snap, k: nat, p: nat, s: Snap, s': Snap, active: nat, q: nat, own: nat,
                                      g: nat, j: nat)
    requires k <= 3 && j <= k && Copied(s0, k, p, s, active, q, own, g) && Keeps(s, s', active, own, j)
    ensures Copied(s0, k, p, s', active, q, own, g)
    decreases 3 - k
  {
    hide RamKept, FramesGrow, PageCopied, ChildEntry;
    assert Leaf(s'.t, active, q) == Leaf(s.t, active, q);
    if k == 3 {
      assert s'.t.pts[q] == s.t.pts[q];
      forall l | 0 <= l < 512 ensures PageCopied(s0, s0.t.pts[p][l], s', s'.t.pts[q][l], g * 512 + l) {
        PageCopiedKept(s0, s0.t.pts[p][l], s, s', s.t.pts[q][l], g * 512 + l);
      }
    } else {
      var dp, dq := s0.t.dirs[p], s.t.dirs[q];
      assert s'.t.dirs[q] == dq;
      forall i | 0 <= i < Limit(k) ensures ChildCopied(s0, k, dp, s', active, dq, own, g, i) {
        ChildKept(s0, k, dp, s, s', active, dq, own, g, i, j);
      }
    }
  }

  lemma {:induction false} ChildKept(s0: Snap, k: nat, p: Dir, s: Snap, s': Snap, active: nat, q: Dir, own: nat,
                                     g: nat, i: nat, j: nat)
    requires k < 3 && j <= k + 1 && i < 512 && WellSized(p) && WellSized(q)
    requires ChildCopied(s0, k, p, s, active, q, own, g, i) && Keeps(s, s', active, own, j)
    ensures ChildCopied(s0, k, p, s', active, q, own, g, i)
    decreases 3 - k, 0
  {
    hide Keeps, ChildEntry;
    if Present(q.physical[i]) {
      CopiedKept(s0, k + 1, p.next[i], s, s', active, q.next[i], own, g * 512 + i, j);
      ChildLeafKept(s0, k + 1, p.next[i], s, s', active, q.next[i], own, g * 512 + i, j);
    }
  }

  lemma ChildLeafKept(s0: Snap, k: nat, p: nat, s: Snap, s': Snap, active: nat, q: nat, own: nat, g: nat, j: nat)
    requires k <= 3 && Copied(s0, k, p, s, active, q, own, g) && Keeps(s, s', active, own, j)
    ensures Leaf(s'.t, active, q) == Leaf(s.t, active, q)
  {
  }

  // Nor does it change whether the copy's entries lead to its tables.
  lemma {:induction false} PointsKept(s0: Snap, k: nat, p: nat, s: Snap, s': Snap, active: nat, q: nat, own: nat,
                                      g: nat, j: nat)
    requires k <= 3 && j <= k && Copied(s0, k, p, s, active, q, own, g) && Keeps(s, s', active, own, j)
    ensures Points(s'.t, active, k, q) <==> Points(s.t, active, k, q)
    decreases 3 - k
  {
    hide RamKept, FramesGrow, ChildEntry, ChildCopied, EntryPoints;
    if k < 3 {
      var d := s.t.dirs[q];
      assert s'.t.dirs[q] == d;
      forall i | 0 <= i < Limit(k) ensures EntryPoints(s'.t, active, k, d, i) <==> EntryPoints(s.t, active, k, d, i) {
        EntryPointsKept(s0, k, s0.t.dirs[p], s, s', active, d, own, g, i, j);
      }
    }
  }

  lemma {:induction false} EntryPointsKept(s0: Snap, k: nat, p: Dir, s: Snap, s': Snap, active: nat, q: Dir, own: nat,
                                           g: nat, i: nat, j: nat)
    requires k < 3 && j <= k + 1 && i < 512 && WellSized(p) && WellSized(q)
    requires ChildCopied(s0, k, p, s, active, q, own, g, i) && Keeps(s, s', active, own, j)
    ensures EntryPoints(s'.t, active, k, q, i) <==> EntryPoints(s.t, active, k, q, i)
    decreases 3 - k, 0
  {
    hide Keeps, ChildEntry, Copied;
    if Present(q.physical[i]) {
      PointsKept(s0, k + 1, p.next[i], s, s', active, q.next[i], own, g * 512 + i, j);
      ChildLeafKept(s0, k + 1, p.next[i], s, s', active, q.next[i], own, g * 512 + i, j);
    }
  }

  // ------------------------------------------------------------------------------------------
  // The source directory and the pages its copy takes
  // ------------------------------------------------------------------------------------------

  // The directory below slot 511 is well formed, and every frame it maps is taken (or not managed).
  ghost predicate SourceOk(s: Snap, r: nat) {
    && StoreOk(s.t, s.home) && UserOk(s.t, s.home, r)
    && forall v {:trigger Leaf(s.t, r, v)} :: 0 <= v < KERNEL_START && Mapped(s.t, r, v) ==>
          Settled(s.ws, FrameOf(Leaf(s.t, r, v)))
  }

  // Entry i of a user table leads to a user table.
  lemma SourceChild(s: Snap, r: nat, k: nat, g: nat, i: nat)
    requires SourceOk(s, r) && k < 3 && g < Pow512(k) && User(k, g) && i < Limit(k) && At(s.t, r, k, g).Some?
    ensures var p := At(s.t, r, k, g).value; var c := g * 512 + i;
            && p in s.t.dirs && WellSized(s.t.dirs[p]) && p in s.home && s.home[p].own == r && r != KERNEL
            && c < Pow512(k + 1) && User(k + 1, c) && c / 512 == g
            && At(s.t, r, k + 1, c) == if Present(s.t.dirs[p].physical[i]) then Some(s.t.dirs[p].next[i]) else None
  {
    assert TableOk(s.t, s.home, r, k, g);
    var c := g * 512 + i;
    assert c / 512 == g && c % 512 == i;
    assert Pow512(k + 1) == 512 * Pow512(k);
    assert User(k + 1, c);
  }

  lemma SourcePages(s: Snap, r: nat, g: nat, l: nat)
    requires SourceOk(s, r) && g < Pow512(3) && User(3, g) && At(s.t, r, 3, g).Some? && l < 512
    ensures var p := At(s.t, r, 3, g).value;
            && p in s.t.pts && |s.t.pts[p]| == 512 && p in s.home && s.home[p].own == r && r != KERNEL
            && g * 512 + l < KERNEL_START && Leaf(s.t, r, g * 512 + l) == s.t.pts[p][l]
            && (Present(s.t.pts[p][l]) ==> Settled(s.ws, FrameOf(s.t.pts[p][l])))
  {
    LevelSizes();
    assert TableOk(s.t, s.home, r, 3, g);
    var v := g * 512 + l;
    assert v / 512 == g && v % 512 == l;
    UserBelowKernel(v);
    assert Leaf(s.t, r, v) == s.t.pts[At(s.t, r, 3, g).value][l];
  }

  // ------------------------------------------------------------------------------------------
  // What a directory's copy means page by page
  // ------------------------------------------------------------------------------------------

  // Walks in the copy end at copies of what walks in the original end at.
  lemma {:induction false} CopiedWalk(s0: Snap, r0: nat, s: Snap, active: nat, q: nat, k: nat, g: nat)
    requires SourceOk(s0, r0) && Copied(s0, 0, r0, s, active, q, q, 0)
    requires k <= 3 && g < Pow512(k) && User(k, g)
    ensures match At(s0.t, r0, k, g)
            case None => At(s.t, q, k, g).None?
            case Some(p) => At(s.t, q, k, g).Some? && Copied(s0, k, p, s, active, At(s.t, q, k, g).value, q, g)
  {
    hide SourceOk, Copied, Present;
    if 0 < k {
      Prefix(k, g);
      UserPrefix(k, g);
      CopiedWalk(s0, r0, s, active, q, k - 1, g / 512);
      if At(s0.t, r0, k - 1, g / 512).Some? {
        var i := g % 512;
        assert g == g / 512 * 512 + i;
        assert k == 1 ==> i == g && i != KERNEL_SLOT by { if k == 1 { assert Pow512(1) == 512 && Slot(1, g) == g; } }
        SourceChild(s0, r0, k - 1, g / 512, i);
        var p, c := At(s0.t, r0, k - 1, g / 512).value, At(s.t, q, k - 1, g / 512).value;
        CopiedChild(s0, k - 1, p, s, active, c, q, g / 512, i);
      }
    }
  }

  lemma CopiedChild(s0: Snap, k: nat, p: nat, s: Snap, active: nat, q: nat, own: nat, g: nat, i: nat)
    requires k < 3 && Copied(s0, k, p, s, active, q, own, g) && i < Limit(k)
    ensures p in s0.t.dirs && q in s.t.dirs && WellSized(s0.t.dirs[p]) && WellSized(s.t.dirs[q])
    ensures Present(s.t.dirs[q].physical[i]) <==> Present(s0.t.dirs[p].physical[i])
    ensures Present(s.t.dirs[q].physical[i]) ==>
              Copied(s0, k + 1, s0.t.dirs[p].next[i], s, active, s.t.dirs[q].next[i], own, g * 512 + i)
  {
    assert ChildCopied(s0, k, s0.t.dirs[p], s, active, s.t.dirs[q], own, g, i);
  }

  // Below slot 511, the entries that lead to the clone's tables have the flags of those that lead to the
  // original's, and are zero where there is no table.
  ghost predicate SameFlags(t0: Tables, r0: nat, t: Tables, q: nat) {
    forall k: nat, g: nat {:trigger EntryAt(t, q, k, g)} :: 0 < k <= 3 && g < Pow512(k) && User(k, g) ==>
      EntryAt(t, q, k, g) % PAGE_SIZE == (if At(t0, r0, k, g).Some? then EntryAt(t0, r0, k, g) % PAGE_SIZE else 0)
      && (At(t0, r0, k, g).None? ==> EntryAt(t, q, k, g) == 0)
  }

  lemma CopiedFlags(s0: Snap, r0: nat, s: Snap, active: nat, q: nat)
    requires SourceOk(s0, r0) && Copied(s0, 0, r0, s, active, q, q, 0)
    ensures SameFlags(s0.t, r0, s.t, q)
  {
    hide SourceOk, Copied, EntryAt, At, Pow512, User;
    forall k: nat, g: nat | 0 < k <= 3 && g < Pow512(k) && User(k, g)
      ensures EntryAt(s.t, q, k, g) % PAGE_SIZE ==
              (if At(s0.t, r0, k, g).Some? then EntryAt(s0.t, r0, k, g) % PAGE_SIZE else 0)
      ensures At(s0.t, r0, k, g).None? ==> EntryAt(s.t, q, k, g) == 0
    {
      CopiedEntry(s0, r0, s, active, q, k, g);
    }
  }

  lemma CopiedEntry(s0: Snap, r0: nat, s: Snap, active: nat, q: nat, k: nat, g: nat)
    requires SourceOk(s0, r0) && Copied(s0, 0, r0, s, active, q, q, 0)
    requires 0 < k <= 3 && g < Pow512(k) && User(k, g)
    ensures if At(s0.t, r0, k, g).Some? then EntryAt(s.t, q, k, g) % PAGE_SIZE == EntryAt(s0.t, r0, k, g) % PAGE_SIZE
            else EntryAt(s.t, q, k, g) == 0
  {
    hide SourceOk, Copied, Present, At, User, Pow512;
    Prefix(k, g);
    UserPrefix(k, g);
    CopiedWalk(s0, r0, s, active, q, k - 1, g / 512);
    if At(s0.t, r0, k - 1, g / 512).Some? {
      var i := g % 512;
      assert g == g / 512 * 512 + i;
      UserLimit(k, g);
      SourceChild(s0, r0, k - 1, g / 512, i);
      var p, c := At(s0.t, r0, k - 1, g / 512).value, At(s.t, q, k - 1, g / 512).value;
      ChildFlags(s0, k - 1, p, s, active, c, q, g / 512, i);
    }
  }

  lemma UserLimit(k: nat, g: nat)
    requires 0 < k <= 3 && g < Pow512(k) && User(k, g)
    ensures g % 512 < Limit(k - 1)
  {
    if k == 1 { assert Pow512(1) == 512 && Slot(1, g) == g; }
  }

  lemma ChildFlags(s0: Snap, k: nat, p: nat, s: Snap, active: nat, q: nat, own: nat, g: nat, i: nat)
    requires k < 3 && Copied(s0, k, p, s, active, q, own, g) && i < Limit(k)
    ensures p in s0.t.dirs && q in s.t.dirs && WellSized(s0.t.dirs[p]) && WellSized(s.t.dirs[q])
    ensures if Present(s0.t.dirs[p].physical[i]) then
              s.t.dirs[q].physical[i] % PAGE_SIZE == s0.t.dirs[p].physical[i] % PAGE_SIZE
            else s.t.dirs[q].physical[i] == 0
  {
    hide ChildEntry, Present;
    assert ChildCopied(s0, k, s0.t.dirs[p], s, active, s.t.dirs[q], own, g, i);
    FlagsKept(k, s0.t.dirs[p].physical[i], TableFrame(s.t, active, s.t.dirs[q].next[i]));
  }

  // Every page below slot 511: same presence, same flags, same bytes, in a frame of its own.
  lemma CopiedPages(s0: Snap, r0: nat, s: Snap, active: nat, q: nat, v: nat)
    requires SourceOk(s0, r0) && Copied(s0, 0, r0, s, active, q, q, 0) && v < KERNEL_START
    ensures PageCopied(s0, Leaf(s0.t, r0, v), s, Leaf(s.t, q, v), v)
  {
    hide PageCopied;
    LevelSizes();
    UserBelowKernel(v);
    CopiedWalk(s0, r0, s, active, q, 3, v / 512);
    AbsentPageCopied(s0, s, v);
    if At(s0.t, r0, 3, v / 512).Some? {
      var p, c := At(s0.t, r0, 3, v / 512).value, At(s.t, q, 3, v / 512).value;
      assert v == v / 512 * 512 + v % 512;
      assert PageCopied(s0, s0.t.pts[p][v % 512], s, s.t.pts[c][v % 512], v / 512 * 512 + v % 512);
    }
  }

  lemma AbsentPageCopied(s0: Snap, s: Snap, v: nat)
    ensures PageCopied(s0, 0, s, 0, v)
  {
  }

  // Two pages of the copy never share a frame.
  lemma CopiedFramesDiffer(s0: Snap, s: Snap, e0: nat, e0': nat, e: nat, e': nat, v: nat, v': nat)
    requires PageCopied(s0, e0, s, e, v) && PageCopied(s0, e0', s, e', v') && v != v' && Present(e) && Present(e')
    ensures FrameOf(e) != FrameOf(e')
  {
  }

  // Two roots have the same last entry.
  predicate SameSlot(t: Tables, q: nat, r: nat) {
    && q in t.dirs && r in t.dirs && WellSized(t.dirs[q]) && WellSized(t.dirs[r])
    && t.dirs[q].physical[KERNEL_SLOT] == t.dirs[r].physical[KERNEL_SLOT]
    && t.dirs[q].next[KERNEL_SLOT] == t.dirs[r].next[KERNEL_SLOT]
  }

  // So they agree on all of slot 511.
  lemma {:induction false} SharedSlot(t: Tables, q: nat, r: nat, k: nat, g: nat)
    requires SameSlot(t, q, r)
    requires 0 < k && !User(k, g) && g < Pow512(k)
    ensures At(t, q, k, g) == At(t, r, k, g)
  {
    Prefix(k, g);
    if 1 < k {
      SharedSlot(t, q, r, k - 1, g / 512);
    } else {
      assert g == KERNEL_SLOT && At(t, q, 0, g / 512) == Some(q) && At(t, r, 0, g / 512) == Some(r);
    }
  }

  lemma SharedPages(t: Tables, q: nat, r: nat, v: nat)
    requires SameSlot(t, q, r)
    requires KERNEL_START <= v < PAGES
    ensures Leaf(t, q, v) == Leaf(t, r, v)
  {
    LevelSizes();
    UserBelowKernel(v);
    SharedSlot(t, q, r, 3, v / 512);
  }

  // q is a deep copy, made between states s0 and s, of directory r below slot 511 and shares that slot.
  ghost predicate DeepCopy(s0: Snap, r: nat, s: Snap, q: nat) {
    && (forall v {:trigger Leaf(s.t, q, v)} :: 0 <= v < KERNEL_START ==>
          PageCopied(s0, Leaf(s0.t, r, v), s, Leaf(s.t, q, v), v))
    && (forall v {:trigger Leaf(s.t, r, v)} :: 0 <= v < KERNEL_START ==> Leaf(s.t, r, v) == Leaf(s0.t, r, v))
    && (forall v {:trigger Leaf(s.t, q, v)} :: KERNEL_START <= v < PAGES ==> Leaf(s.t, q, v) == Leaf(s.t, r, v))
  }

  lemma CopyIsDeep(s0: Snap, r: nat, s: Snap, active: nat, q: nat)
    requires SourceOk(s0, r) && Evolves(s0, s, active) && Copied(s0, 0, r, s, active, q, q, 0)
    requires SameSlot(s.t, q, r)
    ensures DeepCopy(s0, r, s, q)
  {
    hide Copied, PageCopied, Leaf, SameSlot;
    forall v | 0 <= v < KERNEL_START
      ensures PageCopied(s0, Leaf(s0.t, r, v), s, Leaf(s.t, q, v), v) && Leaf(s.t, r, v) == Leaf(s0.t, r, v)
    {
      CopiedPages(s0, r, s, active, q, v);
      UserLeafSame(s0.t, s0.home, s.t, r, v);
    }
    forall v | KERNEL_START <= v < PAGES ensures Leaf(s.t, q, v) == Leaf(s.t, r, v) {
      SharedPages(s.t, q, r, v);
    }
  }

  // ------------------------------------------------------------------------------------------
  // A copy is itself a directory
  // ------------------------------------------------------------------------------------------

  // The table of the copy that a walk below slot 511 ends at.
  lemma CopyTable(s0: Snap, r0: nat, s: Snap, active: nat, q: nat, k: nat, g: nat)
    requires SourceOk(s0, r0) && Copied(s0, 0, r0, s, active, q, q, 0) && k <= 3 && g < Pow512(k) && User(k, g)
    ensures At(s.t, q, k, g).Some? ==>
              var p := At(s.t, q, k, g).value;
              && p in s.home && s.home[p] == Home(q, k, g)
              && (if k < 3 then p in s.t.dirs && WellSized(s.t.dirs[p]) else p in s.t.pts && |s.t.pts[p]| == 512)
  {
    hide SourceOk, PagesCopied, ChildCopied, Leaf, At;
    CopiedWalk(s0, r0, s, active, q, k, g);
  }

  lemma CopyIsUserOk(s0: Snap, r0: nat, s: Snap, active: nat, q: nat)
    requires SourceOk(s0, r0) && Copied(s0, 0, r0, s, active, q, q, 0) && q != KERNEL
    ensures UserOk(s.t, s.home, q)
  {
    hide SourceOk, Copied, At;
    forall k: nat, g: nat | k <= 3 && g < Pow512(k) && User(k, g) ensures TableOk(s.t, s.home, q, k, g) {
      CopyTable(s0, r0, s, active, q, k, g);
    }
  }

  // It can be cloned again,
  lemma CopyIsSource(s0: Snap, r0: nat, s: Snap, active: nat, q: nat)
    requires SourceOk(s0, r0) && Copied(s0, 0, r0, s, active, q, q, 0) && q != KERNEL && StoreOk(s.t, s.home)
    ensures SourceOk(s, q)
  {
    hide Copied, StoreOk, UserOk, Leaf;
    CopyIsUserOk(s0, r0, s, active, q);
    forall v | 0 <= v < KERNEL_START && Mapped(s.t, q, v) ensures Settled(s.ws, FrameOf(Leaf(s.t, q, v))) {
      CopiedPages(s0, r0, s, active, q, v);
    }
  }

  // and it can become the active directory.
  lemma CopyIsDirectory(s0: Snap, r0: nat, s: Snap, active: nat, q: nat)
    requires SourceOk(s0, r0) && Copied(s0, 0, r0, s, active, q, q, 0) && q != KERNEL
    requires SameSlot(s.t, q, active) && TreeOk(s.t, s.home, active) && At(s.t, active, 1, KERNEL_SLOT).Some?
    requires TablesMapped(s.t, s.home, active, s.ws) && |s.ws| == F.NUM_OF_FRAMES
    ensures TreeOk(s.t, s.home, q) && At(s.t, q, 1, KERNEL_SLOT).Some? && TablesMapped(s.t, s.home, q, s.ws)
  {
    hide SourceOk, Copied, At, SameSlot, Leaf, TablePage;
    CopyIsUserOk(s0, r0, s, active, q);
    forall k: nat, g: nat | k <= 3 && g < Pow512(k) ensures TableOk(s.t, s.home, q, k, g) {
      assert TableOk(s.t, s.home, active, k, g);
      if User(k, g) { assert TableOk(s.t, s.home, q, k, g); } else { SharedSlot(s.t, q, active, k, g); }
    }
    LevelSizes();
    SharedSlot(s.t, q, active, 1, KERNEL_SLOT);
    SharedTablesMapped(s.t, s.home, q, active, s.ws);
  }

  lemma SharedTablesMapped(t: Tables, home: map<nat, Home>, q: nat, r: nat, ws: seq<bv64>)
    requires SameSlot(t, q, r) && TablesMapped(t, home, r, ws)
    ensures TablesMapped(t, home, q, ws)
  {
    hide SameSlot, Leaf, TablePage;
    forall v: nat | TablePage(home, v) ensures Leaf(t, q, v) == Leaf(t, r, v) {
      SharedPages(t, q, r, v);
    }
  }

  // A switch between directories that share slot 511 keeps the heap's frontier and every reserve.
  lemma SharedReserve(t: Tables, q: nat, r: nat, start: nat, w: nat, k: nat)
    requires SameSlot(t, q, r) && KERNEL_START <= start && Covered(t, r, start, w, k)
    ensures Covered(t, q, start, w, k)
  {
    hide SameSlot, Leaf, At;
    forall v | w <= v < w + k ensures !Mapped(t, q, v) {
      assert !Mapped(t, r, v);
      SharedPages(t, q, r, v);
    }
    forall v | start <= v < w + k ensures Served(t, q, v) { SharedServed(t, q, r, v); }
  }

  lemma SharedServed(t: Tables, q: nat, r: nat, v: nat)
    requires SameSlot(t, q, r) && KERNEL_START <= v < PAGES
    ensures Served(t, q, v) == Served(t, r, v)
  {
    LevelSizes();
    UserBelowKernel(v);
    SharedSlot(t, q, r, 3, v / 512);
  }

  lemma SharedFrontier(t: Tables, q: nat, r: nat, start: nat, f: nat, top: nat)
    requires SameSlot(t, q, r) && Frontier(t, r, start, f, top)
    ensures Frontier(t, q, start, f, top)
  {
    hide SameSlot, Leaf, At, Mapped;
    forall v | f <= v < f + (top - f) ensures !Mapped(t, q, v) {
      assert !Mapped(t, r, v);
      SharedPages(t, q, r, v);
      SameLeaf(t, q, r, v);
    }
    forall v | start <= v < f + 1 ensures Served(t, q, v) { SharedServed(t, q, r, v); }
  }

  lemma SameLeaf(t: Tables, q: nat, r: nat, v: nat)
    requires Leaf(t, q, v) == Leaf(t, r, v)
    ensures Mapped(t, q, v) == Mapped(t, r, v)
  {
  }

  // ------------------------------------------------------------------------------------------
  // What the processor finds in a copy
  // ------------------------------------------------------------------------------------------

  // One level of both walks, from a table that both have reached.
  lemma BothStep(mem: Memory, x: nat, t: Tables, home: map<nat, Home>, r: nat, q: nat, k: nat, g: nat)
    requires Holds(mem, t, home, r) && 0 < k && SameWalk(mem, x, t, r, q, k - 1, g / 512)
    requires At(t, q, k - 1, g / 512).Some? ==>
               var p := At(t, q, k - 1, g / 512).value; p in home && p in t.dirs && WellSized(t.dirs[p])
    ensures match At(t, q, k - 1, g / 512)
            case None => At(t, q, k, g).None? && HardwareAt(mem, x, k, g).None?
            case Some(p) =>
              if !Present(t.dirs[p].physical[g % 512]) then At(t, q, k, g).None? && HardwareAt(mem, x, k, g).None?
              else
                && At(t, q, k, g) == Some(t.dirs[p].next[g % 512])
                && HardwareAt(mem, x, k, g) == Some(FrameOf(t.dirs[p].physical[g % 512]))
  {
    hide TableFrame, FrameOf, Present, Holds;
    if At(t, q, k - 1, g / 512).Some? {
      ReadsTable(mem, t, home, r, At(t, q, k - 1, g / 512).value, g % 512);
    }
  }

  lemma {:induction false} PointsFollow(mem: Memory, s0: Snap, r0: nat, s: Snap, active: nat, q: nat, k: nat, g: nat)
    requires SourceOk(s0, r0) && Copied(s0, 0, r0, s, active, q, q, 0) && Holds(mem, s.t, s.home, active)
    requires Points(s.t, active, 0, q) && k <= 3 && g < Pow512(k) && User(k, g)
    ensures SameWalk(mem, TableFrame(s.t, active, q), s.t, active, q, k, g)
    ensures At(s.t, q, k, g).Some? ==> Points(s.t, active, k, At(s.t, q, k, g).value)
  {
    hide SourceOk, Copied, Holds, TableFrame, FrameOf, Present;
    if 0 < k {
      Prefix(k, g);
      UserPrefix(k, g);
      PointsFollow(mem, s0, r0, s, active, q, k - 1, g / 512);
      CopyTable(s0, r0, s, active, q, k - 1, g / 512);
      BothStep(mem, TableFrame(s.t, active, q), s.t, s.home, active, q, k, g);
      if At(s.t, q, k - 1, g / 512).Some? {
        BelowLimit(k, g);
        assert EntryPoints(s.t, active, k - 1, s.t.dirs[At(s.t, q, k - 1, g / 512).value], g % 512);
      }
    }
  }

  lemma BelowLimit(k: nat, g: nat)
    requires 0 < k && g < Pow512(k) && User(k, g)
    ensures g % 512 < Limit(k - 1)
  {
    if k == 1 { assert Pow512(1) == 512 && Slot(1, g) == g; }
  }

  lemma {:induction false} FollowPoints(mem: Memory, s0: Snap, r0: nat, s: Snap, active: nat, q: nat, k: nat, g: nat)
    requires SourceOk(s0, r0) && Copied(s0, 0, r0, s, active, q, q, 0) && Holds(mem, s.t, s.home, active)
    requires HardwareFollows(mem, TableFrame(s.t, active, q), s.t, active, q)
    requires k <= 3 && g < Pow512(k) && User(k, g) && At(s.t, q, k, g).Some?
    ensures Points(s.t, active, k, At(s.t, q, k, g).value)
    decreases 3 - k
  {
    hide SourceOk, Copied, Holds, TableFrame, FrameOf, Present, HardwareFollows, At, User, HardwareAt, Pow512;
    if k < 3 {
      CopyTable(s0, r0, s, active, q, k, g);
      var p := At(s.t, q, k, g).value;
      var d := s.t.dirs[p];
      FollowsAt(mem, TableFrame(s.t, active, q), s.t, active, q, k, g);
      forall i | 0 <= i < Limit(k) ensures EntryPoints(s.t, active, k, d, i) {
        var c := g * 512 + i;
        UserChild(k, g, i);
        BothStep(mem, TableFrame(s.t, active, q), s.t, s.home, active, q, k + 1, c);
        FollowsAt(mem, TableFrame(s.t, active, q), s.t, active, q, k + 1, c);
        if Present(d.physical[i]) { FollowPoints(mem, s0, r0, s, active, q, k + 1, c); }
      }
      TablePoints(s.t, active, k, p);
    }
  }

  lemma UserChild(k: nat, g: nat, i: nat)
    requires k < 3 && g < Pow512(k) && User(k, g) && i < Limit(k)
    ensures var c := g * 512 + i; c / 512 == g && c % 512 == i && c < Pow512(k + 1) && User(k + 1, c)
  {
    assert Pow512(k + 1) == 512 * Pow512(k);
  }

  // Every place below slot 511 is on the way to some page.
  lemma FollowsAt(mem: Memory, x: nat, t: Tables, r: nat, q: nat, k: nat, g: nat)
    requires HardwareFollows(mem, x, t, r, q) && x == TableFrame(t, r, q) && k <= 3 && g < Pow512(k) && User(k, g)
    ensures SameWalk(mem, x, t, r, q, k, g)
  {
    hide TableFrame, FrameOf, Present;
    LevelSizes();
    if 0 < k {
      var v := if k == 1 then g * 512 * 512 * 512 else if k == 2 then g * 512 * 512 else g * 512;
      assert k == 1 ==> v / 512 == g * 512 * 512 && v / 512 / 512 == g * 512 && v / 512 / 512 / 512 == g;
      assert k == 2 ==> v / 512 == g * 512 && v / 512 / 512 == g;
      assert v < PAGES;
      SlotIs(3, v / 512);
      SlotIs(k, g);
      UserBelowKernel(v);
      assert SamePath(mem, x, t, r, q, v);
    } else {
      RootAt(t, q);
      assert g == 0;
    }
  }

  lemma SlotIs(k: nat, g: nat)
    requires 0 < k <= 3
    ensures Slot(k, g) == if k == 1 then g else if k == 2 then g / 512 else g / 512 / 512
  {
    assert k == 3 ==> Slot(3, g) == Slot(2, g / 512) == Slot(1, g / 512 / 512);
    assert k == 2 ==> Slot(2, g) == Slot(1, g / 512);
  }

  lemma RootAt(t: Tables, r: nat)
    ensures At(t, r, 0, 0) == Some(r)
  {
  }

  // Whatever else is in memory: the processor finds the copy's tables on the way to every page below
  // slot 511 if and only if every entry holds the frame of the table it points to.
  lemma HardwareFollowsIff(mem: Memory, s0: Snap, r0: nat, s: Snap, active: nat, q: nat)
    requires SourceOk(s0, r0) && Copied(s0, 0, r0, s, active, q, q, 0) && Holds(mem, s.t, s.home, active)
    ensures HardwareFollows(mem, TableFrame(s.t, active, q), s.t, active, q) <==> Points(s.t, active, 0, q)
  {
    hide SourceOk, Copied, Holds, TableFrame, SameWalk, Points;
    var x := TableFrame(s.t, active, q);
    RootAt(s.t, q);
    assert 0 < Pow512(0) && User(0, 0);
    if Points(s.t, active, 0, q) {
      forall v | 0 <= v < KERNEL_START ensures SamePath(mem, x, s.t, active, q, v) {
        Levels(v);
        UserBelowKernel(v);
        UserPrefix(3, v / 512);
        UserPrefix(2, v / 512 / 512);
        PointsFollow(mem, s0, r0, s, active, q, 1, v / 512 / 512 / 512);
        PointsFollow(mem, s0, r0, s, active, q, 2, v / 512 / 512);
        PointsFollow(mem, s0, r0, s, active, q, 3, v / 512);
      }
    }
    if HardwareFollows(mem, x, s.t, active, q) {
      FollowPoints(mem, s0, r0, s, active, q, 0, 0);
    }
  }

  // Then the processor translates every page as the software does.
  lemma HardwareTranslates(mem: Memory, s0: Snap, r0: nat, s: Snap, active: nat, q: nat, v: nat)
    requires SourceOk(s0, r0) && Copied(s0, 0, r0, s, active, q, q, 0) && Holds(mem, s.t, s.home, active)
    requires StoreOk(s.t, s.home)
    requires HardwareFollows(mem, TableFrame(s.t, active, q), s.t, active, q) && v < KERNEL_START
    ensures HardwareLeaf(mem, TableFrame(s.t, active, q), v) == Leaf(s.t, q, v)
  {
    hide SourceOk, Copied, Holds, TableFrame, HardwareFollows, At, HardwareAt, StoreOk;
    Levels(v);
    UserBelowKernel(v);
    FollowsAt(mem, TableFrame(s.t, active, q), s.t, active, q, 3, v / 512);
    CopyTable(s0, r0, s, active, q, 3, v / 512);
    if At(s.t, q, 3, v / 512).Some? {
      PageTableEntries(s.t, s.home, At(s.t, q, 3, v / 512).value);
      ReadsTable(mem, s.t, s.home, active, At(s.t, q, 3, v / 512).value, v % 512);
    }
  }

  lemma PageTableEntries(t: Tables, home: map<nat, Home>, p: nat)
    requires StoreOk(t, home) && p in t.pts
    ensures Entries(t, p) == t.pts[p]
  {
    assert p in t.pts.Keys;
  }
}
