/** What the processor finds: walks through the entries as they lie in frames, without the pointers.
    The entries that cloning makes are given here, and which frames its requests get. */
module MmuHardware {
  import opened Prelude
  import F = Frames
  import opened PageTables
  import opened Mmu

  // ------------------------------------------------------------------------------------------
  // Entries of directory tables
  // ------------------------------------------------------------------------------------------

  function BitOr(a: nat, b: nat): nat {
    if a == 0 then b else if b == 0 then a
    else (if a % 2 == 1 || b % 2 == 1 then 1 else 0) + 2 * BitOr(a / 2, b / 2)
  }

  // A 64-bit entry stored in an int and widened again.
  function LowInt(e: nat): nat {
    var l := e % 0x1_0000_0000;
    if l < 0x8000_0000 then l else l + 0xFFFF_FFFF_0000_0000
  }

  // An entry for frame f with the flags of e0
  function NewEntry(e0: nat, f: nat): nat {
    f * PAGE_SIZE + e0 % PAGE_SIZE
  }

  // The entry that cloning makes for a child table in frame f.  A PDPT's entry (k == 1) is or-ed with
  // the whole original entry where the others take its low 12 bits.
  function ChildEntry(k: nat, e0: nat, f: nat): nat {
    if k == 1 then BitOr(f * PAGE_SIZE, LowInt(e0)) else NewEntry(e0, f)
  }

  function Bit(n: nat, i: nat): nat {
    if i == 0 then n % 2 else Bit(n / 2, i - 1)
  }

  // Every bit set in b is set in a.
  ghost predicate Includes(a: nat, b: nat) {
    forall i: nat :: Bit(b, i) == 1 ==> Bit(a, i) == 1
  }

  lemma {:induction false} BitOrKeeps(a: nat, b: nat)
    ensures BitOr(a, b) == a <==> Includes(a, b)
  {
    if a == 0 {
      if b != 0 {
        var i := SomeBit(b);
        NoBits(i);
      } else {
        forall i: nat ensures Bit(b, i) == 0 { NoBits(i); }
      }
    } else if b == 0 {
      forall i: nat ensures Bit(b, i) == 0 { NoBits(i); }
    } else {
      BitOrKeeps(a / 2, b / 2);
      IncludesHalf(a, b);
    }
  }

  // One bit at a time
  lemma IncludesHalf(a: nat, b: nat)
    ensures Includes(a, b) <==> (b % 2 == 1 ==> a % 2 == 1) && Includes(a / 2, b / 2)
  {
    if Includes(a, b) {
      assert Bit(b, 0) == 1 ==> Bit(a, 0) == 1;
      forall i: nat ensures Bit(b / 2, i) == 1 ==> Bit(a / 2, i) == 1 {
        assert Bit(b, i + 1) == 1 ==> Bit(a, i + 1) == 1;
      }
    }
    if Includes(a / 2, b / 2) && (b % 2 == 1 ==> a % 2 == 1) {
      forall i: nat ensures Bit(b, i) == 1 ==> Bit(a, i) == 1 {
        if 0 < i { assert Bit(b / 2, i - 1) == 1 ==> Bit(a / 2, i - 1) == 1; }
      }
    }
  }

  lemma {:induction false} SomeBit(b: nat) returns (i: nat)
    requires b != 0
    ensures Bit(b, i) == 1
  {
    if b % 2 == 1 {
      i := 0;
    } else {
      i := SomeBit(b / 2);
      i := i + 1;
    }
  }

  lemma {:induction false} NoBits(i: nat)
    ensures Bit(0, i) == 0
  {
    if 0 < i { NoBits(i - 1); }
  }

  lemma HalfOr(a: nat, b: nat)
    ensures BitOr(a, b) / 2 == BitOr(a / 2, b / 2)
    ensures BitOr(a, b) % 2 == if a % 2 == 1 || b % 2 == 1 then 1 else 0
  {
  }

  function Shr(n: nat, i: nat): nat {
    if i == 0 then n else Shr(n / 2, i - 1)
  }

  lemma {:induction false} ShiftOr(a: nat, b: nat, n: nat)
    ensures Shr(BitOr(a, b), n) == BitOr(Shr(a, n), Shr(b, n))
  {
    if n != 0 {
      HalfOr(a, b);
      ShiftOr(a / 2, b / 2, n - 1);
    }
  }

  lemma ShiftPage(n: nat)
    ensures Shr(n, 12) == n / PAGE_SIZE
  {
    ShiftFour(n, 8);
    ShiftFour(n / 16, 4);
    ShiftFour(n / 256, 0);
    assert n / 16 / 16 == n / 256 && n / 256 / 16 == n / 4096;
  }

  lemma ShiftFour(n: nat, i: nat)
    ensures Shr(n, i + 4) == Shr(n / 16, i)
  {
    assert Shr(n, i + 4) == Shr(n / 2, i + 3) == Shr(n / 2 / 2, i + 2);
    assert Shr(n / 2 / 2, i + 2) == Shr(n / 2 / 2 / 2, i + 1) == Shr(n / 2 / 2 / 2 / 2, i);
  }

  // The hardware would find the clone's table through a PDPT entry if and only if the frame bits of
  // the original entry are among those of the new frame; with the mask it always does.
  lemma HardwareAgreesIff(e0: nat, f: nat)
    ensures FrameOf(ChildEntry(1, e0, f)) == f <==> Includes(f, LowInt(e0) / PAGE_SIZE)
    ensures FrameOf(ChildEntry(0, e0, f)) == f == FrameOf(ChildEntry(2, e0, f))
  {
    FrameOr(e0, f);
    BitOrKeeps(f, LowInt(e0) / PAGE_SIZE);
  }

  lemma FrameOr(e0: nat, f: nat)
    ensures FrameOf(ChildEntry(1, e0, f)) == BitOr(f, LowInt(e0) / PAGE_SIZE)
  {
    ShiftOr(f * PAGE_SIZE, LowInt(e0), 12);
    ShiftPage(f * PAGE_SIZE);
    ShiftPage(LowInt(e0));
    ShiftPage(BitOr(f * PAGE_SIZE, LowInt(e0)));
  }

  lemma ChildEntryPresent(k: nat, e0: nat, f: nat)
    requires Present(e0)
    ensures Present(ChildEntry(k, e0, f))
  {
    hide BitOr, LowInt;
    LowIntParity(e0);
    if k == 1 { HalfOr(f * PAGE_SIZE, LowInt(e0)); } else { EntryParts(e0, f); }
  }

  lemma LowIntParity(e: nat)
    ensures LowInt(e) % 2 == e % 2
  {
    assert e == e / 0x1_0000_0000 * 0x1_0000_0000 + e % 0x1_0000_0000;
  }

  // Whatever the level, the clone's entry has the flags of the original's.
  lemma FlagsKept(k: nat, e0: nat, f: nat)
    ensures ChildEntry(k, e0, f) % PAGE_SIZE == e0 % PAGE_SIZE
  {
    hide BitOr, LowInt;
    if k == 1 {
      PagePower(f);
      LowBitsOr(f * PAGE_SIZE, LowInt(e0), 12);
      LowIntFlags(e0);
    }
  }

  lemma PagePower(f: nat)
    ensures Power(12) == PAGE_SIZE && f * PAGE_SIZE % Power(12) == 0
  {
    assert Power(4) == 16 && Power(8) == 256;
  }

  // Storing an entry in an int keeps its low 32 bits, and so its flags; the 32 bits above them are all
  // equal to the highest of these.
  lemma LowIntFlags(e: nat)
    ensures LowInt(e) % 0x1_0000_0000 == e % 0x1_0000_0000 && LowInt(e) % PAGE_SIZE == e % PAGE_SIZE
    ensures LowInt(e) / 0x8000_0000 == 0 || LowInt(e) / 0x8000_0000 == 0x1_FFFF_FFFF
  {
    assert e == e / 0x1_0000_0000 * 0x1_0000_0000 + e % 0x1_0000_0000;
  }

  // Or-ing multiples of a power of two changes nothing below it.
  lemma {:induction false} LowBitsOr(a: nat, b: nat, n: nat)
    requires 0 < Power(n) && a % Power(n) == 0
    ensures BitOr(a, b) % Power(n) == b % Power(n)
  {
    if 0 < n {
      var m := Power(n - 1);
      hide BitOr;
      HalfOr(a, b);
      DoubleMod(a / 2, a % 2, m);
      DoubleMod(b / 2, b % 2, m);
      DoubleMod(BitOr(a, b) / 2, BitOr(a, b) % 2, m);
      assert a / 2 % m == 0 && a % 2 == 0;
      LowBitsOr(a / 2, b / 2, n - 1);
    }
  }

  lemma DoubleMod(x: nat, c: nat, m: nat)
    requires c < 2 && 0 < m
    ensures (2 * x + c) % (2 * m) == 2 * (x % m) + c
  {
    Remainder(2 * x + c, 2 * m, x / m, 2 * (x % m) + c) by { assert x == x / m * m + x % m; }
  }

  lemma Remainder(n: nat, d: nat, q: nat, r: nat)
    requires r < d && n == q * d + r
    ensures n % d == r
  {
    var k := n / d - q;
    assert k * d == n / d * d - q * d == r - n % d;
    Multiples(k, d);
  }

  lemma Multiples(k: int, d: nat)
    ensures k >= 1 ==> k * d >= d
    ensures k <= -1 ==> k * d + d <= 0
  {
  }

  // A bit of the or is set if and only if one of the two is.
  lemma {:induction false} BitOfOr(a: nat, b: nat, i: nat)
    ensures Bit(BitOr(a, b), i) == 1 <==> Bit(a, i) == 1 || Bit(b, i) == 1
  {
    HalfOr(a, b);
    if i != 0 { BitOfOr(a / 2, b / 2, i - 1); }
  }

  lemma EntryParts(e0: nat, f: nat)
    ensures var e := NewEntry(e0, f);
            FrameOf(e) == f && e % PAGE_SIZE == e0 % PAGE_SIZE && (Present(e) <==> Present(e0))
  {
    LowBits(e0);
    LowBits(NewEntry(e0, f));
  }

  lemma AddressFrame(e: nat)
    ensures FrameOf(PageAddress(e)) == FrameOf(e)
  {
  }

  lemma LowBits(e: nat)
    ensures Present(e % PAGE_SIZE) <==> Present(e)
  {
    assert e == e / PAGE_SIZE * PAGE_SIZE + e % PAGE_SIZE;
  }

  // ------------------------------------------------------------------------------------------
  // Walks of the processor
  // ------------------------------------------------------------------------------------------

  // Words of physical memory, by frame.
  type Memory = map<nat, seq<nat>>

  function Read(mem: Memory, f: nat, i: nat): nat {
    if f in mem then Entry(mem[f], i) else 0
  }

  // The frame that the processor takes for the table at level k for prefix g, from a root in frame x
  function HardwareAt(mem: Memory, x: nat, k: nat, g: nat): Option<nat> {
    if k == 0 then Some(x)
    else
      match HardwareAt(mem, x, k - 1, g / 512)
      case None => None
      case Some(f) => if Present(Read(mem, f, g % 512)) then Some(FrameOf(Read(mem, f, g % 512))) else None
  }

  function HardwareLeaf(mem: Memory, x: nat, v: nat): nat {
    match HardwareAt(mem, x, 3, v / 512)
    case None => 0
    case Some(f) => Read(mem, f, v % 512)
  }

  // The entries of a table
  function Entries(t: Tables, p: nat): seq<nat> {
    if p in t.dirs then t.dirs[p].physical else if p in t.pts then t.pts[p] else []
  }

  // The frame of the table at page p
  function TableFrame(t: Tables, r: nat, p: nat): nat {
    FrameOf(Leaf(t, r, p))
  }

  // Each table lies in the frame that its page is mapped to; the rest of the memory is arbitrary.
  ghost predicate Holds(mem: Memory, t: Tables, home: map<nat, Home>, r: nat) {
    forall p {:trigger p in home} :: p in home ==>
      TableFrame(t, r, p) in mem && Entries(t, p) <= mem[TableFrame(t, r, p)]
  }

  // The processor's walk for (k, g) ends in the frame of the table that the software's walk ends at.
  ghost predicate SameWalk(mem: Memory, x: nat, t: Tables, r: nat, q: nat, k: nat, g: nat) {
    HardwareAt(mem, x, k, g) ==
    match At(t, q, k, g)
    case None => None
    case Some(p) => Some(TableFrame(t, r, p))
  }

  // On the way to page v both walks pass the same tables.
  ghost predicate SamePath(mem: Memory, x: nat, t: Tables, r: nat, q: nat, v: nat) {
    && SameWalk(mem, x, t, r, q, 1, v / 512 / 512 / 512)
    && SameWalk(mem, x, t, r, q, 2, v / 512 / 512)
    && SameWalk(mem, x, t, r, q, 3, v / 512)
  }

  // The processor finds the tables of directory q on the way to every page below slot 511.
  ghost predicate HardwareFollows(mem: Memory, x: nat, t: Tables, r: nat, q: nat) {
    forall v {:trigger SamePath(mem, x, t, r, q, v)} :: 0 <= v < KERNEL_START ==> SamePath(mem, x, t, r, q, v)
  }

  // Tables in frames of their own can be in memory together.
  lemma SomeMemoryHolds(t: Tables, home: map<nat, Home>, r: nat, ws: seq<bv64>) returns (mem: Memory)
    requires TablesMapped(t, home, r, ws)
    ensures Holds(mem, t, home, r)
  {
    mem := FillMemory(t, home, r, ws, home.Keys);
  }

  lemma {:induction false} FillMemory(t: Tables, home: map<nat, Home>, r: nat, ws: seq<bv64>, ps: set<nat>)
    returns (mem: Memory)
    requires TablesMapped(t, home, r, ws) && ps <= home.Keys
    ensures forall p {:trigger p in ps} :: p in ps ==>
              TableFrame(t, r, p) in mem && mem[TableFrame(t, r, p)] == Entries(t, p)
    decreases ps
  {
    mem := map[];
    if ps != {} {
      var q :| q in ps;
      var rest := FillMemory(t, home, r, ws, ps - {q});
      mem := rest[TableFrame(t, r, q) := Entries(t, q)];
      forall p | p in ps ensures TableFrame(t, r, p) in mem && mem[TableFrame(t, r, p)] == Entries(t, p) {
        if p != q {
          assert p in ps - {q};
          FramesDiffer(t, home, r, ws, p, q);
        }
      }
    }
  }

  lemma FramesDiffer(t: Tables, home: map<nat, Home>, r: nat, ws: seq<bv64>, p: nat, q: nat)
    requires TablesMapped(t, home, r, ws) && p in home && q in home && p != q
    ensures TableFrame(t, r, p) != TableFrame(t, r, q)
  {
    assert TablePage(home, p) && TablePage(home, q);
  }

  // The processor reads a table's entries.
  lemma ReadsTable(mem: Memory, t: Tables, home: map<nat, Home>, r: nat, p: nat, i: nat)
    requires Holds(mem, t, home, r) && p in home && i < |Entries(t, p)|
    ensures Read(mem, TableFrame(t, r, p), i) == Entries(t, p)[i]
  {
  }

  // ------------------------------------------------------------------------------------------
  // The frames that cloning will get
  // ------------------------------------------------------------------------------------------

  // The last slot of the root is not copied but shared.
  function Limit(k: nat): nat {
    if k == 0 then KERNEL_SLOT else 512
  }

  predicate WellSized(d: Dir) {
    |d.physical| == 512 == |d.next|
  }

  // Entry i of table p leads to a table.
  predicate HasChild(t: Tables, p: nat, i: nat) {
    p in t.dirs && WellSized(t.dirs[p]) && i < 512 && Present(t.dirs[p].physical[i])
  }

  predicate HasPage(t: Tables, p: nat, i: nat) {
    p in t.pts && i < |t.pts[p]| && Present(t.pts[p][i])
  }

  // The frames that are taken once entries i and up of table p at level k are copied, if those of s
  // were taken before.
  ghost function Copying(t: Tables, k: nat, p: nat, i: nat, s: set<nat>): set<nat>
    requires k <= 3 && i <= 512
    decreases 3 - k, 512 - i
  {
    if i >= Limit(k) then s
    else if k == 3 then Copying(t, 3, p, i + 1, if HasPage(t, p, i) then F.Grab(s, 1) else s)
    else if !HasChild(t, p, i) then Copying(t, k, p, i + 1, s)
    else Copying(t, k, p, i + 1, Copying(t, k + 1, t.dirs[p].next[i], 0, F.Grab(s, Size(k + 1))))
  }

  // Pages needed for copies of the tables under entries i and up.
  function Cost(t: Tables, k: nat, p: nat, i: nat): nat
    requires k <= 3 && i <= 512
    decreases 3 - k, 512 - i
  {
    if k == 3 || i >= Limit(k) then 0
    else (if HasChild(t, p, i) then Size(k + 1) + Cost(t, k + 1, t.dirs[p].next[i], 0) else 0) + Cost(t, k, p, i + 1)
  }

  // There are frames for all of it, if those of s are taken before.
  ghost predicate FramesSuffice(t: Tables, k: nat, p: nat, i: nat, s: set<nat>)
    requires k <= 3 && i <= 512
    decreases 3 - k, 512 - i
  {
    if i >= Limit(k) then true
    else if k == 3 then
      (HasPage(t, p, i) ==> F.Gets(s, 1)) && FramesSuffice(t, 3, p, i + 1, if HasPage(t, p, i) then F.Grab(s, 1) else s)
    else if !HasChild(t, p, i) then FramesSuffice(t, k, p, i + 1, s)
    else
      && F.Gets(s, Size(k + 1))
      && FramesSuffice(t, k + 1, t.dirs[p].next[i], 0, F.Grab(s, Size(k + 1)))
      && FramesSuffice(t, k, p, i + 1, Copying(t, k + 1, t.dirs[p].next[i], 0, F.Grab(s, Size(k + 1))))
  }

  // And pages, if those from w to u are free: one table after the other, and two for each page's copy,
  // which are free again when it is made.
  ghost predicate PagesSuffice(t: Tables, k: nat, p: nat, i: nat, w: nat, u: nat)
    requires k <= 3 && i <= 512
    decreases 3 - k, 512 - i
  {
    if i >= Limit(k) then true
    else if k == 3 then (HasPage(t, p, i) ==> w + 2 <= u) && PagesSuffice(t, 3, p, i + 1, w, u)
    else if !HasChild(t, p, i) then PagesSuffice(t, k, p, i + 1, w, u)
    else
      && w + Size(k + 1) <= u
      && PagesSuffice(t, k + 1, t.dirs[p].next[i], 0, w + Size(k + 1), u)
      && PagesSuffice(t, k, p, i + 1, w + Size(k + 1) + Cost(t, k + 1, t.dirs[p].next[i], 0), u)
  }

  // For table p itself and all below it
  ghost predicate FramesFor(t: Tables, k: nat, p: nat, s: set<nat>)
    requires k <= 3
  {
    F.Gets(s, Size(k)) && FramesSuffice(t, k, p, 0, F.Grab(s, Size(k)))
  }

  ghost predicate PagesFor(t: Tables, k: nat, p: nat, w: nat, u: nat)
    requires k <= 3
  {
    w + Size(k) <= u && PagesSuffice(t, k, p, 0, w + Size(k), u)
  }

  lemma SufficeStep(t: Tables, k: nat, p: nat, i: nat, s: set<nat>, w: nat, u: nat)
    requires k < 3 && i < Limit(k)
    ensures !HasChild(t, p, i) ==>
              && FramesSuffice(t, k, p, i, s) == FramesSuffice(t, k, p, i + 1, s)
              && PagesSuffice(t, k, p, i, w, u) == PagesSuffice(t, k, p, i + 1, w, u)
              && Cost(t, k, p, i) == Cost(t, k, p, i + 1)
    ensures HasChild(t, p, i) ==>
              var c := t.dirs[p].next[i];
              && FramesSuffice(t, k, p, i, s) ==
                 (&& FramesFor(t, k + 1, c, s)
                  && FramesSuffice(t, k, p, i + 1, Copying(t, k + 1, c, 0, F.Grab(s, Size(k + 1)))))
              && PagesSuffice(t, k, p, i, w, u) ==
                 (&& PagesFor(t, k + 1, c, w, u)
                  && PagesSuffice(t, k, p, i + 1, w + Size(k + 1) + Cost(t, k + 1, c, 0), u))
              && Cost(t, k, p, i) == Size(k + 1) + Cost(t, k + 1, c, 0) + Cost(t, k, p, i + 1)
  {
    hide F.Gets, F.Grab, Copying, HasChild;
  }

  lemma SufficePage(t: Tables, p: nat, i: nat, s: set<nat>, w: nat, u: nat)
    requires i < 512
    ensures FramesSuffice(t, 3, p, i, s) ==
            ((HasPage(t, p, i) ==> F.Gets(s, 1)) &&
             FramesSuffice(t, 3, p, i + 1, if HasPage(t, p, i) then F.Grab(s, 1) else s))
    ensures PagesSuffice(t, 3, p, i, w, u) ==
            ((HasPage(t, p, i) ==> w + 2 <= u) && PagesSuffice(t, 3, p, i + 1, w, u))
  {
    hide F.Gets, F.Grab, HasPage;
  }

  lemma SufficeAll(t: Tables, k: nat, p: nat, s: set<nat>, w: nat, u: nat)
    requires k <= 3
    ensures FramesSuffice(t, k, p, Limit(k), s) && PagesSuffice(t, k, p, Limit(k), w, u) && Cost(t, k, p, Limit(k)) == 0
    ensures Cost(t, 3, p, 0) == 0 && Fits(t, 3, p, 0, s)
  {
  }

  // Two pages more than the tables take are always enough.
  lemma {:induction false} CostSuffices(t: Tables, k: nat, p: nat, i: nat, w: nat, u: nat)
    requires k <= 3 && i <= 512 && w + Cost(t, k, p, i) + 2 <= u
    ensures PagesSuffice(t, k, p, i, w, u)
    decreases 3 - k, 512 - i
  {
    if i < Limit(k) {
      if k == 3 {
        CostSuffices(t, 3, p, i + 1, w, u);
      } else if !HasChild(t, p, i) {
        CostSuffices(t, k, p, i + 1, w, u);
      } else {
        var c := t.dirs[p].next[i];
        CostSuffices(t, k + 1, c, 0, w + Size(k + 1), u);
        CostSuffices(t, k, p, i + 1, w + Size(k + 1) + Cost(t, k + 1, c, 0), u);
      }
    }
  }

  // For each PDPT entry copied: its frame bits are among those of the frame that the new PDT gets.
  ghost predicate Fits(t: Tables, k: nat, p: nat, i: nat, s: set<nat>)
    requires k <= 3 && i <= 512
    decreases 3 - k, 512 - i
  {
    if i >= Limit(k) || k == 3 then true
    else if !HasChild(t, p, i) then Fits(t, k, p, i + 1, s)
    else
      && (k == 1 ==> Includes(F.Pick(s, Size(2)), LowInt(t.dirs[p].physical[i]) / PAGE_SIZE))
      && Fits(t, k + 1, t.dirs[p].next[i], 0, F.Grab(s, Size(k + 1)))
      && Fits(t, k, p, i + 1, Copying(t, k + 1, t.dirs[p].next[i], 0, F.Grab(s, Size(k + 1))))
  }

  // Entry i of a table at level k holds the frame of the table it points to, and so do all below.
  ghost predicate EntryPoints(t: Tables, r: nat, k: nat, d: Dir, i: nat)
    requires k < 3 && i < 512 && WellSized(d)
    decreases 3 - k, 0
  {
    Present(d.physical[i]) ==>
      FrameOf(d.physical[i]) == TableFrame(t, r, d.next[i]) && Points(t, r, k + 1, d.next[i])
  }

  ghost predicate AllPoint(t: Tables, r: nat, k: nat, d: Dir, n: nat)
    requires k < 3 && n <= 512 && WellSized(d)
    decreases 3 - k, 1
  {
    forall i :: 0 <= i < n ==> EntryPoints(t, r, k, d, i)
  }

  ghost predicate Points(t: Tables, r: nat, k: nat, q: nat)
    requires k <= 3
    decreases 3 - k, 2
  {
    k < 3 ==> q in t.dirs && WellSized(t.dirs[q]) && AllPoint(t, r, k, t.dirs[q], Limit(k))
  }

  lemma TablePoints(t: Tables, r: nat, k: nat, q: nat)
    requires k < 3 && q in t.dirs && WellSized(t.dirs[q])
    requires forall i :: 0 <= i < Limit(k) ==> EntryPoints(t, r, k, t.dirs[q], i)
    ensures Points(t, r, k, q)
  {
    assert AllPoint(t, r, k, t.dirs[q], Limit(k)) by { hide Points; }
  }

  // ------------------------------------------------------------------------------------------
  // What decides
  // ------------------------------------------------------------------------------------------

  // The new PDT's frame does not matter if and only if the old entry has no frame bits at all.
  lemma WhateverFrame(e0: nat)
    ensures (forall f: nat :: FrameOf(ChildEntry(1, e0, f)) == f) <==> LowInt(e0) / PAGE_SIZE == 0
  {
    HardwareAgreesIff(e0, 0);
    if LowInt(e0) / PAGE_SIZE == 0 {
      forall f: nat ensures FrameOf(ChildEntry(1, e0, f)) == f {
        HardwareAgreesIff(e0, f);
        forall i: nat ensures Bit(0, i) == 0 { NoBits(i); }
      }
    } else {
      var i := SomeBit(LowInt(e0) / PAGE_SIZE);
      NoBits(i);
    }
  }

  // A PDT of frame 5 copied to frame 8: the processor goes to frame 13.
  lemma FrameFiveToEight()
    ensures FrameOf(ChildEntry(1, 0x5003, 8)) == 13
    ensures !Includes(8, LowInt(0x5003) / PAGE_SIZE)
  {
    hide ChildEntry;
    FrameOr(0x5003, 8);
    HardwareAgreesIff(0x5003, 8);
    assert BitOr(8, 5) == 13;
  }

  lemma {:induction false} PickAfter(n: nat, lo: nat, k: nat)
    requires lo <= n && 0 < k && n + k <= F.FRAMES
    ensures F.PickFrom(Interval(0, n), lo, k) == n
    decreases n - lo
  {
    hide Interval;
    if lo < n {
      assert lo in Interval(lo, k) && lo in Interval(0, n);
      PickAfter(n, lo + 1, k);
    }
  }

  lemma GrabAfter(n: nat, k: nat)
    requires 0 < k && n + k <= F.FRAMES
    ensures F.Pick(Interval(0, n), k) == n && F.Grab(Interval(0, n), k) == Interval(0, n + k)
    ensures F.Gets(Interval(0, n), k)
  {
    hide Interval, F.PickFrom;
    PickAfter(n, 0, k);
  }

  // ------------------------------------------------------------------------------------------
  // Tables with one table below
  // ------------------------------------------------------------------------------------------

  // Entry i is the only one of table p that is copied.
  ghost predicate OnlyChild(t: Tables, k: nat, p: nat, i: nat)
    requires k < 3
  {
    i < Limit(k) && HasChild(t, p, i) && forall b :: 0 <= b < Limit(k) && b != i ==> !HasChild(t, p, b)
  }

  lemma {:induction false} Skips(t: Tables, k: nat, p: nat, a: nat, i: nat, s: set<nat>)
    requires k < 3 && a <= i <= Limit(k) && forall b :: a <= b < i ==> !HasChild(t, p, b)
    ensures FramesSuffice(t, k, p, a, s) == FramesSuffice(t, k, p, i, s)
    ensures Fits(t, k, p, a, s) == Fits(t, k, p, i, s)
    ensures Cost(t, k, p, a) == Cost(t, k, p, i)
    decreases i - a
  {
    hide HasChild;
    if a < i { Skips(t, k, p, a + 1, i, s); }
  }

  lemma OnlyChildMeans(t: Tables, k: nat, p: nat, i: nat, s: set<nat>)
    requires k < 3 && OnlyChild(t, k, p, i)
    ensures FramesSuffice(t, k, p, 0, s) == FramesFor(t, k + 1, t.dirs[p].next[i], s)
    ensures Cost(t, k, p, 0) == Size(k + 1) + Cost(t, k + 1, t.dirs[p].next[i], 0)
    ensures Fits(t, k, p, 0, s) ==
            ((k == 1 ==> Includes(F.Pick(s, Size(2)), LowInt(t.dirs[p].physical[i]) / PAGE_SIZE)) &&
             Fits(t, k + 1, t.dirs[p].next[i], 0, F.Grab(s, Size(k + 1))))
  {
    hide Includes, LowInt, F.Gets, F.Grab, F.Pick, Copying;
    var after := Copying(t, k + 1, t.dirs[p].next[i], 0, F.Grab(s, Size(k + 1)));
    Skips(t, k, p, 0, i, s);
    Skips(t, k, p, i + 1, Limit(k), after);
    SufficeStep(t, k, p, i, s, 0, 0);
    SufficeAll(t, k, p, after, 0, 0);
  }

  // With the frames from n on free there are enough for any page table.
  lemma {:induction false} PagesGet(t: Tables, p: nat, i: nat, n: nat)
    requires i <= 512 && n + 512 - i <= F.FRAMES
    ensures FramesSuffice(t, 3, p, i, Interval(0, n))
    decreases 512 - i
  {
    hide F.Gets, F.Grab, HasPage, Interval;
    if i < 512 {
      SufficePage(t, p, i, Interval(0, n), 0, 0);
      GrabAfter(n, 1);
      PagesGet(t, p, i + 1, if HasPage(t, p, i) then n + 1 else n);
    }
  }

  // The bits of a frame number 514 are bits 1 and 9.
  lemma Includes514(n: nat)
    requires 512 <= n < 1024
    ensures Includes(n, 514) <==> n % 4 >= 2
  {
    hide Includes;
    IncludesHalf(n, 514);
    IncludesHalf(n / 2, 257);
    IncludesPower(n / 4, 7);
  }

  // A number from 2^k up, below 2^(k+1), has bit k.
  lemma {:induction false} IncludesPower(n: nat, k: nat)
    requires Power(k) <= n < 2 * Power(k)
    ensures Includes(n, Power(k))
  {
    hide Includes;
    IncludesHalf(n, Power(k));
    if k == 0 {
      assert Includes(0, 0) by { NoBitsIncluded(); }
    } else {
      IncludesPower(n / 2, k - 1);
    }
  }

  lemma NoBitsIncluded()
    ensures Includes(0, 0)
  {
  }

  function Power(k: nat): (p: nat)
    ensures p > 0
  {
    if k == 0 then 1 else 2 * Power(k - 1)
  }
}
