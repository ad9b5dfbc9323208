/** The first-fit walk: which block it finds, when it finds none, and why a retry after growing succeeds. */
module HeapSearch {
  import opened Prelude
  import opened HeapModel

  // A run is a maximal stretch of free neighbours inside one region.
  ghost predicate RunStart(c: seq<Block>, k: nat) {
    k < |c| && c[k].free && (k == 0 || !Mergeable(c[k - 1], c[k]))
  }

  // Length and total payload of the run at the front of c.
  function RunLength(c: seq<Block>): (n: nat)
    requires 0 < |c|
    ensures 1 <= n <= |c|
  {
    if CanMerge(c, 0) then 1 + RunLength(c[1..]) else 1
  }

  function RunTotal(c: seq<Block>): nat
    requires 0 < |c|
  {
    if CanMerge(c, 0) then c[0].size + RunTotal(c[1..]) else c[0].size
  }

  ghost predicate Fits(c: seq<Block>, k: nat, need: nat) {
    RunStart(c, k) && RunTotal(c[k..]) >= need
  }

  lemma {:induction false} RunIsMergeable(c: seq<Block>, k: nat)
    requires 0 < |c| && 0 < k < |c| && k <= RunLength(c)
    ensures Mergeable(c[k - 1], c[k]) <==> k < RunLength(c)
  {
    if 1 < k {
      RunIsMergeable(c[1..], k - 1);
    }
  }

  // Merging the first two blocks of a run leaves its total and its end as they were.
  lemma MergedHeadRun(c: seq<Block>)
    requires CanMerge(c, 0)
    ensures var m := [Merged(c[0], c[1])] + c[2..]; var n := RunLength(c);
            && RunTotal(m) == RunTotal(c) && RunLength(m) == n - 1 && 2 <= n
            && m[n - 1..] == c[n..] && m[n - 2].fin == c[n - 1].fin
  {
    var m, n := [Merged(c[0], c[1])] + c[2..], RunLength(c);
    assert c[1..][1..] == c[2..] == m[1..];
    assert CanMerge(m, 0) <==> CanMerge(c[1..], 0);
    assert m[n - 1..] == c[n..];
    if n == 2 {
      assert !CanMerge(c[1..], 0);
    } else {
      assert m[n - 2] == c[n - 1];
    }
  }

  // Repeated merging turns the run at the front into one block that holds the run's total.
  lemma {:induction false} AbsorbIsRun(c: seq<Block>)
    requires 0 < |c|
    ensures var n := RunLength(c);
            Absorb(c) == [c[0].(size := RunTotal(c), fin := c[n - 1].fin)] + c[n..]
    decreases |c|
  {
    if CanMerge(c, 0) {
      hide RunLength, RunTotal;
      MergedHeadRun(c);
      AbsorbIsRun([Merged(c[0], c[1])] + c[2..]);
    }
  }

  lemma {:induction false} AbsorbStops(c: seq<Block>)
    requires 0 < |c|
    ensures !CanMerge(Absorb(c), 0)
    decreases |c|
  {
    if CanMerge(c, 0) { AbsorbStops([Merged(c[0], c[1])] + c[2..]); }
  }

  lemma SuffixRunStart(c: seq<Block>, n: nat, k: nat)
    requires 0 < n < |c| && !Mergeable(c[n - 1], c[n]) && k < |c| - n
    ensures RunStart(c[n..], k) <==> RunStart(c, n + k)
    ensures c[n..][k..] == c[n + k..]
  {
  }

  lemma SkipRun(c: seq<Block>, n: nat, k: nat)
    requires 0 < |c| && n == if c[0].free then RunLength(c) else 1
    requires k < |c| - n
    ensures RunStart(c[n..], k) <==> RunStart(c, n + k)
    ensures c[n..][k..] == c[n + k..]
  {
    if c[0].free { RunIsMergeable(c, n); }
    SuffixRunStart(c, n, k);
  }

  // No run that starts before position k is large enough.
  ghost predicate NoFitBefore(c: seq<Block>, need: nat, k: nat) {
    forall i {:trigger RunStart(c, i)} :: 0 <= i < k && RunStart(c, i) ==> RunTotal(c[i..]) < need
  }

  // A run that is too small may be skipped.
  lemma SmallRunIsSkipped(c: seq<Block>, n: nat, rest: seq<Block>, need: nat, j: nat)
    requires 0 < |c| && n == (if c[0].free then RunLength(c) else 1) && rest == c[n..] && j <= |rest|
    requires c[0].free ==> RunTotal(c) < need
    requires NoFitBefore(rest, need, j)
    ensures NoFitBefore(c, need, n + j)
  {
    hide Mergeable, CanMerge, RunTotal;
    forall i | 0 <= i < n + j && RunStart(c, i) ensures RunTotal(c[i..]) < need {
      if i == 0 {
        assert c[0..] == c;
      } else if i < n {
        RunIsMergeable(c, i);
      } else {
        SkipRun(c, n, i - n);
      }
    }
  }

  // The answer is the block that starts the lowest run which is large enough; there is no answer
  // only if no run is (then k is the length of the chain).
  lemma {:induction false} WalkFindsFirstFit(c: seq<Block>, need: nat) returns (k: nat)
    ensures k <= |c| && (Walk(c, need).1.None? <==> k == |c|)
    ensures NoFitBefore(c, need, k)
    ensures Walk(c, need).1.Some? ==>
              Fits(c, k, need) && Walk(c, need).0[Walk(c, need).1.value].addr == c[k].addr
    decreases |c|
  {
    hide Mergeable, CanMerge, RunLength, RunTotal, NoFitBefore;
    k := 0;
    NothingBeforeZero(c, need);
    if c == [] { return; }
    assert c[0..] == c;
    if c[0].free {
      AbsorbIsRun(c);
      if c[0].size >= need || RunTotal(c) >= need {
        RunTotalCoversHead(c);
        return;
      }
    }
    var n := if c[0].free then RunLength(c) else 1;
    var rest := c[n..];
    assert Walk(c, need).1 == Behind(c[0], Walk(rest, need)).1;
    var j := WalkFindsFirstFit(rest, need);
    k := n + j;
    SmallRunIsSkipped(c, n, rest, need, j);
    if j < |rest| { SkipRun(c, n, j); }
  }

  lemma NothingBeforeZero(c: seq<Block>, need: nat)
    ensures NoFitBefore(c, need, 0)
  {
  }

  lemma RunTotalCoversHead(c: seq<Block>)
    requires 0 < |c|
    ensures c[0].size <= RunTotal(c)
  {
  }

  lemma {:induction false} WalkKeepsHead(c: seq<Block>, need: nat)
    requires 0 < |c|
    ensures var w := Walk(c, need).0; 0 < |w| && w[0].free == c[0].free
  {
    if c[0].free { AbsorbKeepsHead(c); }
  }

  // Nothing found: no free block is large enough and no two neighbours could still be merged.
  lemma {:induction false} FailedWalkCompacts(c: seq<Block>, need: nat)
    requires Walk(c, need).1.None?
    ensures var w := Walk(c, need).0;
            && (forall i :: 0 <= i < |w| && w[i].free ==> w[i].size < need)
            && (forall i :: 0 <= i < |w| ==> !CanMerge(w, i))
    decreases |c|
  {
    if c != [] {
      var m := if c[0].free then Absorb(c) else c;
      var w := Walk(m[1..], need).0;
      FailedWalkCompacts(m[1..], need);
      assert Walk(c, need).0 == [m[0]] + w;
      if c[0].free {
        AbsorbStops(c);
      }
      if 1 < |m| { WalkKeepsHead(m[1..], need); }
      forall i | 0 <= i < |w| + 1 ensures !CanMerge([m[0]] + w, i) {
        if 0 < i { assert !CanMerge(w, i - 1); }
      }
    }
  }

  lemma {:induction false} LargeBlockIsFound(c: seq<Block>, k: nat, need: nat)
    requires k < |c| && c[k].free && c[k].size >= need
    ensures Walk(c, need).1.Some?
  {
    var j := WalkFindsFirstFit(c, need);
    var i: int := k;
    while !RunStart(c, i)
      invariant 0 <= i < |c| && c[i].free && RunTotal(c[i..]) >= need
      decreases i
    {
      assert CanMerge(c[i - 1..], 0) && c[i - 1..][1..] == c[i..];
      i := i - 1;
    }
  }

  lemma GrantSizeSuffices(s: nat)
    ensures s + HEADER + HEADER <= GrantSize(s)
    ensures GrantSize(s) % PAGE == 0
  {
  }

  // Behind the 256 KiB that are always added stands the smallest number of whole pages that is more than the
  // request with its header, and more than 256 KiB.
  lemma GrantSizeIs(s: nat)
    ensures var m := GrantSize(s) - 0x40000;
            && m % 0x1000 == 0 && m > s + 24 && m > 0x40000
            && forall x: nat :: x % 0x1000 == 0 && x > s + 24 && x > 0x40000 ==> m <= x
  {
    var m, big := GrantSize(s) - 0x40000, if s + 24 > 0x40000 then s + 24 else 0x40000;
    forall x: nat | x % 0x1000 == 0 && x > big ensures m <= x { NextPage(big, x); }
  }

  lemma NextPage(a: nat, x: nat)
    requires x % 0x1000 == 0 && x > a
    ensures a + (0x1000 - a % 0x1000) <= x
  {
    assert a == a / 0x1000 * 0x1000 + a % 0x1000 && x == x / 0x1000 * 0x1000;
  }

  lemma WalkOn(c: seq<Block>, need: nat)
    requires c != [] && !CanMerge(c, 0) && (c[0].free ==> c[0].size < need)
    ensures Walk(c, need) == Behind(c[0], Walk(c[1..], need))
  {
  }

  lemma LaterMerge(c: seq<Block>, i: nat)
    requires c != []
    ensures CanMerge(c[1..], i) == CanMerge(c, i + 1)
  {
  }

  // A walk goes past blocks that are too small and cannot be merged.
  lemma {:induction false} WalkPast(w: seq<Block>, tail: seq<Block>, need: nat)
    requires forall i :: 0 <= i < |w| ==> !CanMerge(w + tail, i) && (w[i].free ==> w[i].size < need)
    ensures Walk(w + tail, need) ==
            (w + Walk(tail, need).0,
             if Walk(tail, need).1.Some? then Some(|w| + Walk(tail, need).1.value) else None)
    decreases |w|
  {
    hide Walk, CanMerge;
    if w == [] {
      assert w + tail == tail && w + Walk(tail, need).0 == Walk(tail, need).0;
    } else {
      var c := w + tail;
      assert c[0] == w[0] && c[1..] == w[1..] + tail;
      assert !CanMerge(c, 0);
      WalkOn(c, need);
      forall i | 0 <= i < |w| - 1 ensures !CanMerge(w[1..] + tail, i) { LaterMerge(c, i); }
      WalkPast(w[1..], tail, need);
      assert [w[0]] + (w[1..] + Walk(tail, need).0) == w + Walk(tail, need).0;
    }
  }

  // After add_heap_memory the second search succeeds, so int_kmalloc recurs at most once.
  lemma RetrySucceeds(h: Heap, p: nat, s: nat)
    requires 0 < |h.chain| && 0 < |h.regions|
    ensures Find(Grow(h, p, GrantSize(s)), s + HEADER).1.Some?
  {
    var g := Grow(h, p, GrantSize(s));
    LargeBlockIsFound(g.chain, |g.chain| - 1, s + HEADER);
  }

  // find_free_entry takes the request and adds the header size in 32 bits.
  function Need(s: nat): nat {
    (s % U32 + HEADER) % U32
  }

  lemma NeedIs(s: nat)
    ensures s + HEADER < U32 ==> Need(s) == s + HEADER
    ensures Need(s % U32) == Need(s)
  {
  }

  // A block that passes its test holds the split exactly when that sum did not wrap around.
  lemma WrappedRequestOverruns(s: nat, size: nat)
    requires size < U32 && size >= Need(s)
    ensures size >= s + HEADER <==> s + HEADER < U32
  {
    if s + HEADER < U32 {
      assert s % U32 == s;
    }
  }

  // The heap as it is after kmalloc_init serves such requests, from a block smaller than they are.
  lemma FreshHeapServesWrapped(p: nat, s: nat)
    requires U32 <= s + HEADER
    ensures Find(Initial(p), Need(s)).1 == Some(0) <==> Need(s) <= NEW_ALLOC_SIZE - HEADER
    ensures Initial(p).chain[0].size < s
    ensures U32 - HEADER <= s < U32 ==> Find(Initial(p), Need(s)).1 == Some(0)
  {
    var need := Need(s);
    assert Walk([], need) == ([], None);
    if U32 - HEADER <= s < U32 { assert need == s + HEADER - U32; }
  }

  // The size of a new block is stored in 32 bits.  If it does not fit, what is stored is too small
  // for the request that asked for it, and the retry would ask for memory again.
  lemma TruncatedGrantIsTooSmall(s: nat)
    requires s + HEADER < U32
    ensures (GrantSize(s) - HEADER) % U32 >= s + HEADER <==> GrantSize(s) - HEADER < U32
  {
    GrantSizeSuffices(s);
    if GrantSize(s) - HEADER >= U32 {
      assert (GrantSize(s) - HEADER) % U32 == GrantSize(s) - HEADER - U32;
    }
  }
}
