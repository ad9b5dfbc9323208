/** ksbrk's answers as the heap sees them: what the heap model trusts of ksbrk is what the memory
    management unit provides. */
module HeapGrants {
  import F = Frames
  import H = HeapModel
  import I = HeapInvariant
  import S = HeapSearch
  import opened PageTables
  import opened Mmu

  // The address of a page in the upper half of the address space, where bits 48 to 63 are set
  function Address(v: nat): (a: nat)
    requires KERNEL_START <= v <= PAGES
    ensures 0 < a <= H.U64
  {
    v * PAGE_SIZE + (H.U64 - PAGES * PAGE_SIZE)
  }

  // All memory of the heap lies below page "end".
  ghost predicate Below(h: H.Heap, end: nat)
    requires KERNEL_START <= end <= PAGES
  {
    forall i :: 0 <= i < |h.regions| ==> h.regions[i].hi <= Address(end)
  }

  // ksbrk may have served others in between.
  lemma BelowStays(h: H.Heap, end: nat, end': nat)
    requires KERNEL_START <= end <= end' <= PAGES && Below(h, end)
    ensures Below(h, end')
  {
    AddressGrows(end, end');
  }

  lemma AddressGrows(v: nat, u: nat)
    requires KERNEL_START <= v <= u <= PAGES
    ensures Address(u) == Address(v) + (u - v) * PAGE_SIZE
  {
  }

  // An answer at or past the old end is fresh memory for the heap, and leaves the heap below the new end.
  lemma AnswerIsFresh(h: H.Heap, end: nat, r: nat, n: nat)
    requires KERNEL_START <= end <= r && r + n <= PAGES && 0 < n && Below(h, end)
    requires 0 < |h.chain| && 0 < |h.regions| && H.Granted(h.regions) + n * PAGE_SIZE < H.U32
    ensures H.GrantOk(h, Address(r), n * PAGE_SIZE)
    ensures Below(H.Grow(h, Address(r), n * PAGE_SIZE), r + n)
  {
    hide Address;
    AddressGrows(end, r);
    AddressGrows(r, r + n);
    BelowStays(h, end, r + n);
    forall i | 0 <= i < |h.regions| ensures H.Apart(h.regions[i], H.Region(Address(r), Address(r) + n * PAGE_SIZE)) {
      assert h.regions[i].hi <= Address(end);
    }
  }

  // ------------------------------------------------------------------------------------------
  // One answer after another
  // ------------------------------------------------------------------------------------------

  // ksbrk, with the heap's end at page "from", answered with n pages from r on.
  datatype Answer = Answer(from: nat, r: nat, n: nat)

  // Answers one after another, with anything else that moves the end forward in between.
  ghost predicate Successive(answers: seq<Answer>) {
    && (forall i :: 0 <= i < |answers| ==> answers[i].from <= answers[i].r)
    && (forall i, j {:trigger answers[i], answers[j]} :: 0 <= i < j < |answers| && j == i + 1 ==>
          answers[i].r + answers[i].n <= answers[j].from)
  }

  // No two answers share a page.
  lemma {:induction false} AnswersApart(answers: seq<Answer>, i: nat, j: nat)
    requires Successive(answers) && i < j < |answers|
    ensures answers[i].r + answers[i].n <= answers[j].r
    decreases j - i
  {
    assert answers[j - 1].r + answers[j - 1].n <= answers[j].from;
    if i + 1 < j { AnswersApart(answers, i, j - 1); }
  }

  // The answers so far, of which the last ends at or below page "end".
  ghost predicate Given(answers: seq<Answer>, end: nat) {
    && Successive(answers)
    && (0 < |answers| ==> answers[|answers| - 1].r + answers[|answers| - 1].n <= end)
  }

  // One more answer shares no page with any before it.
  lemma AnswerAdded(answers: seq<Answer>, a: Answer)
    requires Given(answers, a.from) && a.from <= a.r
    ensures Given(answers + [a], a.r + a.n)
    ensures forall i :: 0 <= i < |answers| ==> answers[i].r + answers[i].n <= a.r
  {
    forall i | 0 <= i < |answers| ensures answers[i].r + answers[i].n <= a.r {
      AnswersApart(answers + [a], i, |answers|);
    }
  }

  // ------------------------------------------------------------------------------------------
  // What the heap asks for
  // ------------------------------------------------------------------------------------------

  // The heap's memory lies in frames that are taken.
  ghost predicate Backed(h: H.Heap, ws: seq<bv64>) {
    H.Granted(h.regions) + Free(ws) * PAGE_SIZE <= F.FRAMES * PAGE_SIZE
  }

  // 16384 frames hold 64 MiB, so what ksbrk can still give does not take the heap to 4 GiB.
  lemma BackedIsSmall(h: H.Heap, ws: seq<bv64>, n: nat)
    requires Backed(h, ws) && n <= Free(ws)
    ensures H.Granted(h.regions) + n * PAGE_SIZE < H.U32
  {
  }

  lemma StaysBacked(h: H.Heap, ws: seq<bv64>, ws': seq<bv64>, p: nat, n: nat, k: nat)
    requires Backed(h, ws) && Handed(ws, ws', k + n) && 0 < n
    requires H.Inv(h) && H.GrantOk(h, p, n * PAGE_SIZE)
    ensures Backed(H.Grow(h, p, n * PAGE_SIZE), ws')
  {
    hide H.Inv, H.GrantOk, H.Grow, Free, Handed, H.Granted;
    I.GrowKeepsInv(h, p, n * PAGE_SIZE);
    HandedLeaves(ws, ws', k + n);
  }

  // ksbrk as add_heap_memory calls it, for an allocation of s bytes.
  method HeapSbrk(m: Mmu, ghost h: H.Heap, s: nat, ghost answers: seq<Answer>, ghost f: nat, ghost top: nat)
    returns (ok: bool, p: nat, ghost a: Answer, ghost f': nat)
    requires m.Valid() && Frontier(m.t, m.active, m.heapEnd, f, top) && Below(h, m.heapEnd)
    requires Given(answers, m.heapEnd)
    requires var n := H.GrantSize(s) / PAGE_SIZE; f + n + Extra(n) < top
    requires H.Inv(h) && Backed(h, m.Words())
    modifies m`t, m`home, m`heapEnd, m.frames.words
    ensures var n := H.GrantSize(s) / PAGE_SIZE;
            ok <==>
              && !old(Stops(m.t, m.active, m.heapEnd, f, n))
              && old(TablesMade(m.t, m.active, Plan(m.t, m.active, m.heapEnd, f, n).first, n)) + n
                 <= old(Free(m.Words()))
    ensures ok ==> Given(answers + [a], m.heapEnd) && a.from == old(m.heapEnd)
    ensures ok ==> KERNEL_START <= a.r <= PAGES && p == Address(a.r) && a.n * PAGE_SIZE == H.GrantSize(s)
    ensures ok ==> forall i :: 0 <= i < |answers| ==> answers[i].r + answers[i].n <= a.r
    ensures ok ==> m.Valid() && H.GrantOk(h, p, H.GrantSize(s)) && Below(H.Grow(h, p, H.GrantSize(s)), m.heapEnd)
    ensures ok ==> Backed(H.Grow(h, p, H.GrantSize(s)), m.Words())
    ensures ok ==> p + H.GrantSize(s) == Address(m.heapEnd)
    ensures ok ==> forall v :: 0 <= v < PAGES && KERNEL_START <= v && p <= Address(v) < p + H.GrantSize(s) ==>
                     !old(Mapped(m.t, m.active, v)) && Mapped(m.t, m.active, v)
    ensures ok ==> (Served(m.t, m.active, m.heapEnd) <==> Frontier(m.t, m.active, m.heapEnd, f', top))
  {
    hide TreeOk, StoreOk, TablesMapped, Frontier, Plan, Stops, Lands, Obtained, OutOfFrames, Mapped, Served, Handed,
         UserSame, At, TablesMade, ServedKept, HomeGrows, FramesGrow, Address, Below, H.Grow, H.GrantOk, Free,
         TablesAre, Given, Backed, H.Inv;
    ghost var t0, start, ws0 := m.t, m.heapEnd, m.Words();
    HeapIsThere(h);
    S.GrantSizeSuffices(s);
    var n := H.GrantSize(s) / PAGE_SIZE;
    assert n * PAGE_SIZE == H.GrantSize(s) && 0 < n;
    var r; ghost var added;
    ok, r, added, f' := m.Ksbrk(n, f, top);
    p := 0;
    a := Answer(start, r, n);
    if ok {
      AnswerAdded(answers, a);
      BackedIsSmall(h, ws0, n);
      AnswerIsFresh(h, start, r, n);
      p := Address(r);
      StaysBacked(h, ws0, m.Words(), p, n, |added|);
      AddressGrows(r, r + n);
      forall v | 0 <= v < PAGES && KERNEL_START <= v && p <= Address(v) < p + H.GrantSize(s)
        ensures !Mapped(t0, m.active, v) && Mapped(m.t, m.active, v)
      {
        AddressWithin(r, n, v);
        ObtainedAt(t0, ws0, m.t, m.Words(), m.active, added, r, n, v);
      }
    }
  }

  lemma HeapIsThere(h: H.Heap)
    requires H.Inv(h)
    ensures 0 < |h.chain| && 0 < |h.regions|
  {
    assert H.BlockOk(h.chain[0], h.regions);
  }

  lemma AddressWithin(r: nat, n: nat, v: nat)
    requires KERNEL_START <= r && r + n <= PAGES && KERNEL_START <= v <= PAGES
    requires Address(r) <= Address(v) < Address(r) + n * PAGE_SIZE
    ensures r <= v < r + n
  {
  }

  // A grant whose size does not fit 32 bits needs more frames than there are: ksbrk stops instead.
  lemma TruncatedGrantFails(ws: seq<bv64>, s: nat)
    requires s + H.HEADER < H.U32 && H.GrantSize(s) - H.HEADER >= H.U32
    ensures Free(ws) < H.GrantSize(s) / PAGE_SIZE
  {
    hide H.GrantSize;
    S.GrantSizeSuffices(s);
    if |ws| == F.NUM_OF_FRAMES { F.FreeAtMost(ws, F.FRAMES); }
  }
}
