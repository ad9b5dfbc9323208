/** Physical page frames: a bitmap of 256 words of 64 bits and its run allocator. */
module Frames {
  import opened Prelude

  const NUM_OF_FRAMES: nat := 256
  const FRAMES: nat := 16384

  // The number of a bit inside a word, as a machine word.
  function Off(n: nat): (j: bv64)
    requires n < 64
    ensures j < 64 && j as int == n
  {
    if n == 0 then 0 else Next(Off(n - 1))
  }

  function Next(j: bv64): (k: bv64)
    requires j < 64
    ensures k as int == j as int + 1
  {
    j + 1
  }

  predicate Bit(w: bv64, j: bv64)
    requires j < 64
  {
    w & (1 << j) != 0
  }

  // set_frame's update of a word
  function WithMask(w: bv64, m: bv64, state: bool): bv64 {
    if state then w | m else w & !m
  }

  // The same, with the intended 64-bit mask
  function WithBit(w: bv64, j: bv64, state: bool): bv64
    requires j < 64
  {
    WithMask(w, 1 << j, state)
  }

  lemma WithBitIsOneBit(w: bv64, j: bv64, state: bool, k: bv64)
    requires j < 64 && k < 64
    ensures Bit(WithBit(w, j, state), k) == if j == k then state else Bit(w, k)
  {
    if state { SetBit(w, j, k); } else { ClearBit(w, j, k); }
  }

  lemma SetBit(w: bv64, j: bv64, k: bv64)
    requires j < 64 && k < 64
    ensures Bit(w | (1 << j), k) <==> j == k || Bit(w, k)
  {
  }

  lemma ClearBit(w: bv64, j: bv64, k: bv64)
    requires j < 64 && k < 64
    ensures Bit(w & !(1 << j), k) <==> j != k && Bit(w, k)
  {
  }

  lemma FullWord(j: bv64)
    requires j < 64
    ensures Bit(0xFFFF_FFFF_FFFF_FFFF, j)
  {
  }

  // The source writes the literal 1 as an int.  As a 32-bit shift whose count is taken modulo 32,
  // sign-extended to 64 bits, it is the intended mask exactly for the low 31 bits of a word.
  function IntShift(j: bv64): bv64
    requires j < 64
  {
    var m: bv64 := 1 << (j % 32);
    if j % 32 == 31 then m | 0xFFFF_FFFF_0000_0000 else m
  }

  lemma IntShiftIsIntended(j: bv64)
    requires j < 64
    ensures IntShift(j) == 1 << j <==> j < 31
  {
  }

  // ------------------------------------------------------------------------------------------
  // The allocator
  // ------------------------------------------------------------------------------------------

  // Frame f is taken in the bitmap ws.
  predicate Taken(ws: seq<bv64>, f: nat)
    requires |ws| == NUM_OF_FRAMES && f < FRAMES
  {
    Bit(ws[f / 64], Off(f % 64))
  }

  ghost predicate FreeRun(ws: seq<bv64>, f: nat, n: nat)
    requires |ws| == NUM_OF_FRAMES
  {
    f + n <= FRAMES && forall x {:trigger Taken(ws, x)} :: f <= x < f + n ==> !Taken(ws, x)
  }

  // The lowest-addressed run of n free frames.
  ghost predicate IsLowestRun(ws: seq<bv64>, f: nat, n: nat)
    requires |ws| == NUM_OF_FRAMES
  {
    FreeRun(ws, f, n) && forall g: nat :: g < f ==> !FreeRun(ws, g, n)
  }

  // ws' is ws with exactly the frames from f to f + n marked as well.
  ghost predicate Marked(ws: seq<bv64>, ws': seq<bv64>, f: nat, n: nat)
    requires |ws| == NUM_OF_FRAMES == |ws'|
  {
    forall x {:trigger Taken(ws', x)} :: 0 <= x < FRAMES ==> (Taken(ws', x) <==> Taken(ws, x) || f <= x < f + n)
  }

  // Where the scan stands: the last "run" frames below "cur" are free, they cannot be extended
  // downwards, and no run of n frames ends at or below cur.
  ghost predicate Scanned(ws: seq<bv64>, cur: nat, run: nat, n: nat)
    requires |ws| == NUM_OF_FRAMES
  {
    && run <= cur <= FRAMES && run < n
    && FreeRun(ws, cur - run, run)
    && (cur - run == 0 || Taken(ws, cur - run - 1))
    && forall g: nat :: g + n <= cur ==> !FreeRun(ws, g, n)
  }

  lemma ScanStart(ws: seq<bv64>, n: nat)
    requires |ws| == NUM_OF_FRAMES && 0 < n
    ensures Scanned(ws, 0, 0, n)
  {
  }

  lemma ScanBounds(ws: seq<bv64>, cur: nat, run: nat, n: nat)
    requires |ws| == NUM_OF_FRAMES && Scanned(ws, cur, run, n)
    ensures run <= cur <= FRAMES && run < n
    ensures cur == FRAMES ==> forall g: nat :: !FreeRun(ws, g, n)
  {
  }

  lemma ScanTaken(ws: seq<bv64>, cur: nat, run: nat, n: nat)
    requires |ws| == NUM_OF_FRAMES && Scanned(ws, cur, run, n) && cur < FRAMES && Taken(ws, cur)
    ensures Scanned(ws, cur + 1, 0, n)
  {
  }

  lemma ScanFree(ws: seq<bv64>, cur: nat, run: nat, n: nat)
    requires |ws| == NUM_OF_FRAMES && Scanned(ws, cur, run, n) && cur < FRAMES && !Taken(ws, cur)
    ensures if run + 1 < n then Scanned(ws, cur + 1, run + 1, n) else IsLowestRun(ws, cur - run, n)
  {
    forall g: nat | g < cur - run ensures !FreeRun(ws, g, n) {
      if g + n > cur - run { assert Taken(ws, cur - run - 1); }
    }
  }

  lemma WordOf(i: nat, k: nat)
    requires k < 64
    ensures (i * 64 + k) / 64 == i && (i * 64 + k) % 64 == k
  {
  }

  lemma {:induction false} ScanFullWord(ws: seq<bv64>, i: nat, run: nat, n: nat)
    requires |ws| == NUM_OF_FRAMES && i < NUM_OF_FRAMES && Scanned(ws, i * 64, run, n)
    requires ws[i] == 0xFFFF_FFFF_FFFF_FFFF
    ensures Scanned(ws, (i + 1) * 64, 0, n)
  {
    hide Bit, Off, Scanned;
    var k, r: nat := 0, run;
    while k < 64
      invariant 0 <= k <= 64 && (k > 0 ==> r == 0)
      invariant Scanned(ws, i * 64 + k, r, n)
    {
      WordOf(i, k);
      FullWord(Off(k));
      assert Taken(ws, i * 64 + k);
      ScanTaken(ws, i * 64 + k, r, n);
      k, r := k + 1, 0;
    }
  }

  lemma OffDiffers(a: nat, b: nat)
    requires a < 64 && b < 64 && a != b
    ensures Off(a) != Off(b)
  {
    assert Off(a) as int == a && Off(b) as int == b;
  }

  ghost predicate OneChanged(ws: seq<bv64>, ws': seq<bv64>, f: nat, state: bool)
    requires |ws| == NUM_OF_FRAMES == |ws'|
  {
    forall x {:trigger Taken(ws', x)} :: 0 <= x < FRAMES ==> Taken(ws', x) == if x == f then state else Taken(ws, x)
  }

  // Storing into f's word changes f's bit only.
  lemma StoreBit(ws: seq<bv64>, f: nat, state: bool)
    requires |ws| == NUM_OF_FRAMES && f < FRAMES
    ensures OneChanged(ws, ws[f / 64 := WithBit(ws[f / 64], Off(f % 64), state)], f, state)
  {
    hide Bit, Off, WithBit;
    var w := WithBit(ws[f / 64], Off(f % 64), state);
    forall x | 0 <= x < FRAMES ensures Taken(ws[f / 64 := w], x) == (if x == f then state else Taken(ws, x)) {
      if x / 64 == f / 64 {
        WithBitIsOneBit(ws[f / 64], Off(f % 64), state, Off(x % 64));
        if x != f { OffDiffers(x % 64, f % 64); }
      }
    }
  }

  // ------------------------------------------------------------------------------------------
  // The mask as it is written
  // ------------------------------------------------------------------------------------------

  const ONES: bv64 := 0xFFFF_FFFF_FFFF_FFFF

  // set_frame's update of a word, with the int shift of the source
  function WithIntBit(w: bv64, j: bv64, state: bool): bv64
    requires j < 64
  {
    WithMask(w, IntShift(j), state)
  }

  function StoreAsWritten(ws: seq<bv64>, f: nat, state: bool): (ws': seq<bv64>)
    requires |ws| == NUM_OF_FRAMES && f < FRAMES
    ensures |ws'| == NUM_OF_FRAMES
  {
    ws[f / 64 := WithIntBit(ws[f / 64], Off(f % 64), state)]
  }

  // get_frame's test of a bit, and so of frame f, with the int shift of the source
  predicate IntBit(w: bv64, j: bv64)
    requires j < 64
  {
    w & IntShift(j) != 0
  }

  predicate TakenAsWritten(ws: seq<bv64>, f: nat)
    requires |ws| == NUM_OF_FRAMES && f < FRAMES
  {
    IntBit(ws[f / 64], Off(f % 64))
  }

  // A bit that the mask for j gets wrong, when j is not among the low 31
  function WrongBit(j: bv64): bv64 {
    if j == 31 then 32 else if j == 63 then 31 else j
  }

  lemma WrongStore(j: bv64, state: bool)
    requires 31 <= j < 64
    ensures WrongBit(j) < 64
    ensures Bit(WithIntBit(if state then 0 else ONES, j, state), WrongBit(j)) !=
            if WrongBit(j) == j then state else !state
  {
    if state {
      assert Bit(0 | IntShift(j), WrongBit(j)) != (WrongBit(j) == j);
      assert !Bit(0, WrongBit(j));
    } else {
      assert Bit(ONES & !IntShift(j), WrongBit(j)) != (WrongBit(j) != j);
    }
  }

  // A word with one bit for which the test of bit j is wrong
  function WrongWord(j: bv64): bv64
    requires 31 <= j < 64
  {
    if j == 31 then 0x1_0000_0000 else if j == 63 then 0x8000_0000 else 1 << j
  }

  lemma WrongTest(j: bv64)
    requires 31 <= j < 64
    ensures IntBit(WrongWord(j), j) != Bit(WrongWord(j), j)
  {
  }

  lemma RightTest(w: bv64, j: bv64)
    requires j < 31
    ensures IntBit(w, j) == Bit(w, j)
  {
    IntShiftIsIntended(j);
  }

  lemma OffOf(n: nat, j: bv64)
    requires j < 64 && n == j as int
    ensures n < 64 && Off(n) == j
  {
    assert Off(n) as int == j as int;
  }

  // As it is written, set_frame changes exactly the frame it names, in every bitmap, if and only if the
  // frame is one of the first 31 of its word.
  lemma SetFrameAsWritten(f: nat, state: bool)
    requires f < FRAMES
    ensures f % 64 < 31 <==>
            forall ws {:trigger StoreAsWritten(ws, f, state)} :: |ws| == NUM_OF_FRAMES ==>
              OneChanged(ws, StoreAsWritten(ws, f, state), f, state)
  {
    hide Bit, Off, WithBit, WithIntBit, IntShift;
    var j := Off(f % 64);
    IntShiftIsIntended(j);
    if f % 64 < 31 {
      forall ws: seq<bv64> | |ws| == NUM_OF_FRAMES ensures OneChanged(ws, StoreAsWritten(ws, f, state), f, state) {
        SameStore(ws[f / 64], j, state);
        StoreBit(ws, f, state);
      }
    } else {
      var ws: seq<bv64> := seq(NUM_OF_FRAMES, _ => if state then 0 else ONES);
      var x := WrongFrame(f, state, ws);
      assert Taken(StoreAsWritten(ws, f, state), x) != (if x == f then state else Taken(ws, x));
    }
  }

  lemma WrongFrame(f: nat, state: bool, ws: seq<bv64>) returns (x: nat)
    requires f < FRAMES && 31 <= f % 64 && |ws| == NUM_OF_FRAMES && ws[f / 64] == if state then 0 else ONES
    ensures x < FRAMES && Taken(StoreAsWritten(ws, f, state), x) != if x == f then state else Taken(ws, x)
  {
    hide Bit, Off, WithIntBit, WrongOffset, StoreAsWritten;
    var i, o := f / 64, f % 64;
    WrongStoreAt(o, state);
    x := i * 64 + WrongOffset(o);
    WordOf(i, WrongOffset(o));
    StoredWord(ws, f, state);
  }

  lemma StoredWord(ws: seq<bv64>, f: nat, state: bool)
    requires |ws| == NUM_OF_FRAMES && f < FRAMES
    ensures StoreAsWritten(ws, f, state)[f / 64] == WithIntBit(ws[f / 64], Off(f % 64), state)
  {
  }

  function WrongOffset(o: nat): (x: nat)
    ensures o < 64 ==> x < 64
  {
    if o == 31 then 32 else if o == 63 then 31 else o
  }

  lemma WrongStoreAt(o: nat, state: bool)
    requires 31 <= o < 64
    ensures var w, x := if state then 0 else ONES, WrongOffset(o);
            Bit(WithIntBit(w, Off(o), state), Off(x)) != if x == o then state else Bit(w, Off(x))
  {
    hide Bit, Off, WithIntBit;
    WrongStore(Off(o), state);
    OffOf(31, 31);
    OffOf(32, 32);
    OffOf(63, 63);
    PlainBit(Off(WrongOffset(o)));
  }

  lemma PlainBit(j: bv64)
    requires j < 64
    ensures Bit(ONES, j) && !Bit(0, j)
  {
  }

  lemma SameStore(w: bv64, j: bv64, state: bool)
    requires j < 31
    ensures WithIntBit(w, j, state) == WithBit(w, j, state)
  {
    hide WithMask, IntShift;
    IntShiftIsIntended(j);
  }

  // And get_frame reads exactly those right in every bitmap.
  lemma GetFrameAsWritten(f: nat)
    requires f < FRAMES
    ensures f % 64 < 31 <==>
            forall ws {:trigger TakenAsWritten(ws, f)} :: |ws| == NUM_OF_FRAMES ==>
              TakenAsWritten(ws, f) == Taken(ws, f)
  {
    hide Off, IntBit, Bit, WrongWord;
    var j := Off(f % 64);
    if f % 64 >= 31 {
      WrongTest(j);
      var ws: seq<bv64> := seq(NUM_OF_FRAMES, _ => WrongWord(j));
      assert TakenAsWritten(ws, f) != Taken(ws, f);
    } else {
      forall ws: seq<bv64> | |ws| == NUM_OF_FRAMES ensures TakenAsWritten(ws, f) == Taken(ws, f) {
        RightTest(ws[f / 64], j);
      }
    }
  }

  // Releasing frame 32 of a full bitmap frees frame 0 and leaves 32 taken.
  lemma ReleaseOf32()
    ensures var ws: seq<bv64> := seq(NUM_OF_FRAMES, _ => ONES);
            var ws' := StoreAsWritten(ws, 32, false);
            Taken(ws, 0) && Taken(ws, 32) && !Taken(ws', 0) && Taken(ws', 32)
  {
    hide Off;
    OffOf(0, 0);
    OffOf(32, 32);
    assert WithIntBit(ONES, 32, false) == 0xFFFF_FFFF_FFFF_FFFE;
  }

  lemma TakenAt(ws: seq<bv64>, i: nat, j: nat)
    requires |ws| == NUM_OF_FRAMES && i < NUM_OF_FRAMES && j < 64
    ensures Taken(ws, i * 64 + j) == Bit(ws[i], Off(j))
  {
    WordOf(i, j);
  }

  // The number of free frames below n
  function FreeBelow(ws: seq<bv64>, n: nat): nat
    requires |ws| == NUM_OF_FRAMES && n <= FRAMES
  {
    if n == 0 then 0 else FreeBelow(ws, n - 1) + if Taken(ws, n - 1) then 0 else 1
  }

  lemma {:induction false} FewerBelow(ws: seq<bv64>, ws': seq<bv64>, f: nat, n: nat)
    requires |ws| == NUM_OF_FRAMES == |ws'| && n <= FRAMES && f < FRAMES && !Taken(ws, f) && Marked(ws, ws', f, 1)
    ensures FreeBelow(ws, n) == FreeBelow(ws', n) + if f < n then 1 else 0
    decreases n
  {
    hide Taken;
    if n > 0 { FewerBelow(ws, ws', f, n - 1); }
  }

  lemma {:induction false} FallsBelow(ws: seq<bv64>, ws': seq<bv64>, n: nat)
    requires |ws| == NUM_OF_FRAMES == |ws'| && n <= FRAMES
    requires forall x {:trigger Taken(ws', x)} :: 0 <= x < FRAMES && Taken(ws, x) ==> Taken(ws', x)
    ensures FreeBelow(ws', n) <= FreeBelow(ws, n)
    ensures (exists x :: 0 <= x < n && !Taken(ws, x) && Taken(ws', x)) ==> FreeBelow(ws', n) < FreeBelow(ws, n)
    decreases n
  {
    hide Taken;
    if n > 0 { FallsBelow(ws, ws', n - 1); }
  }

  // Handing out a frame leaves one fewer.
  lemma OneFewer(ws: seq<bv64>, ws': seq<bv64>, f: nat)
    requires |ws| == NUM_OF_FRAMES == |ws'| && IsLowestRun(ws, f, 1) && Marked(ws, ws', f, 1)
    ensures FreeBelow(ws', FRAMES) + 1 == FreeBelow(ws, FRAMES)
  {
    hide Taken;
    FewerBelow(ws, ws', f, FRAMES);
  }

  // ------------------------------------------------------------------------------------------
  // The bitmap as a set: which frames the next requests get
  // ------------------------------------------------------------------------------------------

  ghost function Held(ws: seq<bv64>): set<nat>
    requires |ws| == NUM_OF_FRAMES
  {
    set f: nat | f < FRAMES && Taken(ws, f)
  }

  // The lowest place, from lo on, of n frames that are not in s
  ghost function PickFrom(s: set<nat>, lo: nat, n: nat): (f: nat)
    ensures lo <= f
    decreases FRAMES - lo
  {
    if lo + n > FRAMES || Interval(lo, n) !! s then lo else PickFrom(s, lo + 1, n)
  }

  ghost function Pick(s: set<nat>, n: nat): nat {
    PickFrom(s, 0, n)
  }

  ghost function Grab(s: set<nat>, n: nat): set<nat> {
    s + Interval(Pick(s, n), n)
  }

  // A request for n frames is served.
  ghost predicate Gets(s: set<nat>, n: nat) {
    Pick(s, n) + n <= FRAMES
  }

  // After k requests for one frame each
  ghost function GrabMany(s: set<nat>, k: nat): set<nat> {
    if k == 0 then s else Grab(GrabMany(s, k - 1), 1)
  }

  lemma {:induction false} GrabAgain(s: set<nat>, a: nat, b: nat)
    ensures GrabMany(GrabMany(s, a), b) == GrabMany(s, a + b)
    decreases b
  {
    hide Grab;
    if b > 0 { GrabAgain(s, a, b - 1); }
  }

  lemma FreeIsApart(ws: seq<bv64>, f: nat, n: nat)
    requires |ws| == NUM_OF_FRAMES && f + n <= FRAMES
    ensures FreeRun(ws, f, n) <==> Interval(f, n) !! Held(ws)
  {
    hide Taken;
    if Interval(f, n) !! Held(ws) {
      forall x | f <= x < f + n ensures !Taken(ws, x) { assert x in Interval(f, n); }
    }
  }

  lemma {:induction false} PickIsLowest(ws: seq<bv64>, lo: nat, f: nat, n: nat)
    requires |ws| == NUM_OF_FRAMES && IsLowestRun(ws, f, n) && lo <= f
    ensures PickFrom(Held(ws), lo, n) == f
    decreases f - lo
  {
    hide Taken, Held, Interval;
    FreeIsApart(ws, lo, n);
    if lo < f { PickIsLowest(ws, lo + 1, f, n); }
  }

  // An allocating request takes the lowest run: the new set of taken frames.
  lemma RunIsGrabbed(ws: seq<bv64>, ws': seq<bv64>, f: nat, n: nat)
    requires |ws| == NUM_OF_FRAMES == |ws'| && IsLowestRun(ws, f, n) && Marked(ws, ws', f, n)
    ensures Pick(Held(ws), n) == f && Held(ws') == Grab(Held(ws), n) && Gets(Held(ws), n)
  {
    hide Taken, PickFrom;
    PickIsLowest(ws, 0, f, n);
    forall x: nat ensures x in Held(ws') <==> x in Held(ws) || x in Interval(f, n) {
      if x < FRAMES { assert Taken(ws', x) <==> Taken(ws, x) || f <= x < f + n; }
    }
  }

  lemma {:induction false} PickFits(s: set<nat>, lo: nat, n: nat)
    ensures var f := PickFrom(s, lo, n); f + n <= FRAMES ==> Interval(f, n) !! s
    decreases FRAMES - lo
  {
    hide Interval;
    if lo + n <= FRAMES && !(Interval(lo, n) !! s) { PickFits(s, lo + 1, n); }
  }

  // A request is refused if and only if there is no run of n free frames.
  lemma GetsIfRun(ws: seq<bv64>, n: nat)
    requires |ws| == NUM_OF_FRAMES
    ensures Gets(Held(ws), n) <==> exists f: nat :: FreeRun(ws, f, n)
  {
    hide Taken, Held, PickFrom, Interval, FreeRun;
    var s, p := Held(ws), Pick(Held(ws), n);
    PickFits(s, 0, n);
    if p + n <= FRAMES { FreeIsApart(ws, p, n); }
    forall f: nat | FreeRun(ws, f, n) ensures Gets(s, n) {
      RunBound(ws, f, n);
      FreeIsApart(ws, f, n);
      PickReaches(s, 0, f, n);
    }
  }

  lemma RunBound(ws: seq<bv64>, f: nat, n: nat)
    requires |ws| == NUM_OF_FRAMES && FreeRun(ws, f, n)
    ensures f + n <= FRAMES
  {
  }

  lemma {:induction false} PickReaches(s: set<nat>, lo: nat, f: nat, n: nat)
    requires lo <= f && f + n <= FRAMES && Interval(f, n) !! s
    ensures PickFrom(s, lo, n) <= f
    decreases f - lo
  {
    hide Interval;
    if lo < f { PickReaches(s, lo + 1, f, n); }
  }

  lemma {:induction false} NoneBelow(ws: seq<bv64>, n: nat)
    requires |ws| == NUM_OF_FRAMES && n <= FRAMES && forall f: nat :: !FreeRun(ws, f, 1)
    ensures FreeBelow(ws, n) == 0
    decreases n
  {
    hide Taken, FreeRun;
    if n > 0 {
      NoneBelow(ws, n - 1);
      OneIsRun(ws, n - 1);
    }
  }

  lemma {:induction false} NoneLeft(ws: seq<bv64>, n: nat)
    requires |ws| == NUM_OF_FRAMES && n <= FRAMES && FreeBelow(ws, n) == 0
    ensures forall f: nat :: f < n ==> !FreeRun(ws, f, 1)
    decreases n
  {
    hide Taken, FreeRun;
    if n > 0 {
      NoneLeft(ws, n - 1);
      OneIsRun(ws, n - 1);
    }
  }

  // Exactly the frames below a are taken.
  ghost predicate TakenTo(ws: seq<bv64>, a: nat) {
    |ws| == NUM_OF_FRAMES && forall f {:trigger Taken(ws, f)} :: 0 <= f < FRAMES ==> (Taken(ws, f) <==> f < a)
  }

  lemma {:induction false} FreeAbove(ws: seq<bv64>, a: nat, n: nat)
    requires TakenTo(ws, a) && n <= FRAMES
    ensures FreeBelow(ws, n) == if n <= a then 0 else n - a
    decreases n
  {
    hide Taken;
    if n > 0 { FreeAbove(ws, a, n - 1); }
  }

  lemma {:induction false} FreeAtMost(ws: seq<bv64>, n: nat)
    requires |ws| == NUM_OF_FRAMES && n <= FRAMES
    ensures FreeBelow(ws, n) <= n
    decreases n
  {
    hide Taken;
    if n > 0 { FreeAtMost(ws, n - 1); }
  }

  lemma OneIsRun(ws: seq<bv64>, f: nat)
    requires |ws| == NUM_OF_FRAMES && f < FRAMES
    ensures FreeRun(ws, f, 1) <==> !Taken(ws, f)
  {
    hide Bit, Off;
  }

  class FrameMap {
    const words: array<bv64>

    ghost predicate Valid()
      reads this
    {
      words.Length == NUM_OF_FRAMES
    }

    // set_frame, on a frame number; the intended 64-bit mask is used.
    method SetFrame(f: nat, state: bool) returns (ok: bool)
      requires Valid()
      modifies words
      ensures ok == (f < FRAMES)
      ensures !ok ==> words[..] == old(words[..])
      ensures ok ==> OneChanged(old(words[..]), words[..], f, state)
    {
      var index := f / 64;
      if index >= NUM_OF_FRAMES {
        return false;
      }
      hide Bit, Off, WithBit, OneChanged;
      ghost var ws := words[..];
      StoreBit(ws, f, state);
      words[index] := WithBit(words[index], Off(f % 64), state);
      assert words[..] == ws[index := words[index]];
      return true;
    }

    // get_frame.  None stands for the failed assertion that stops the kernel.
    method GetFrame(allocate: bool, count: nat) returns (r: Option<nat>)
      requires Valid() && 0 < count
      modifies words
      ensures r.None? ==> forall f: nat :: !FreeRun(old(words[..]), f, count)
      ensures r.Some? ==> IsLowestRun(old(words[..]), r.value, count)
      ensures r.Some? && allocate ==> Marked(old(words[..]), words[..], r.value, count)
      ensures r.None? || !allocate ==> words[..] == old(words[..])
    {
      hide Bit, Off, Scanned, Taken;
      ghost var ws := words[..];
      ScanStart(ws, count);
      var left, start, i := count, 0, 0;
      while i < NUM_OF_FRAMES
        invariant words[..] == ws && i <= NUM_OF_FRAMES && 0 < left <= count
        invariant Scanned(ws, i * 64, count - left, count)
        invariant left < count ==> start == i * 64 - (count - left)
      {
        ScanBounds(ws, i * 64, count - left, count);
        if words[i] == 0xFFFF_FFFF_FFFF_FFFF {
          ScanFullWord(ws, i, count - left, count);
          left := count;
          i := i + 1;
          continue;
        }
        var j := 0;
        while j < 64
          invariant j <= 64 && words[..] == ws && 0 < left <= count
          invariant Scanned(ws, i * 64 + j, count - left, count)
          invariant left < count ==> start == i * 64 + j - (count - left)
        {
          ghost var cur := i * 64 + j;
          ScanBounds(ws, cur, count - left, count);
          TakenAt(ws, i, j);
          if Bit(words[i], Off(j)) {
            ScanTaken(ws, cur, count - left, count);
            left := count;
            j := j + 1;
            continue;
          }
          if left == count {
            start := i * 64 + j;
          }
          ScanFree(ws, cur, count - left, count);
          left := left - 1;
          if left == 0 {
            if allocate {
              MarkRun(start, count);
            }
            return Some(start);
          }
          j := j + 1;
        }
        i := i + 1;
      }
      ScanBounds(ws, FRAMES, count - left, count);
      return None;
    }

    // get_frame's last loop.
    method MarkRun(f: nat, n: nat)
      requires Valid() && f + n <= FRAMES
      modifies words
      ensures Marked(old(words[..]), words[..], f, n)
    {
      var i := 0;
      while i < n
        invariant i <= n && Marked(old(words[..]), words[..], f, i)
      {
        var ok := SetFrame(f + i, true);
        i := i + 1;
      }
    }
  }

  // ------------------------------------------------------------------------------------------
  // Every later run
  // ------------------------------------------------------------------------------------------

  datatype Grant = Grant(frame: nat, count: nat)

  // A run of allocating get_frame calls: bitmaps[k] becomes bitmaps[k + 1] when grants[k] is served.
  ghost predicate Run(bitmaps: seq<seq<bv64>>, grants: seq<Grant>) {
    && |bitmaps| == |grants| + 1
    && (forall k :: 0 <= k < |bitmaps| ==> |bitmaps[k]| == NUM_OF_FRAMES)
    && (forall k {:trigger grants[k]} :: 0 <= k < |grants| ==>
          IsLowestRun(bitmaps[k], grants[k].frame, grants[k].count)
          && Marked(bitmaps[k], bitmaps[k + 1], grants[k].frame, grants[k].count))
  }

  lemma {:induction false} TakenForGood(bitmaps: seq<seq<bv64>>, grants: seq<Grant>, a: nat, b: nat, x: nat)
    requires Run(bitmaps, grants) && a <= b <= |grants| && x < FRAMES && Taken(bitmaps[a], x)
    ensures Taken(bitmaps[b], x)
    decreases b - a
  {
    if a < b {
      var g := grants[a];
      assert Taken(bitmaps[a + 1], x);
      TakenForGood(bitmaps, grants, a + 1, b, x);
    }
  }

  // No frame is handed out twice, and none that was taken at the start is handed out at all.
  lemma {:induction false} NoFrameTwice(bitmaps: seq<seq<bv64>>, grants: seq<Grant>, a: nat, b: nat, x: nat)
    requires Run(bitmaps, grants) && b < |grants|
    requires grants[b].frame <= x < grants[b].frame + grants[b].count
    ensures x < FRAMES && !Taken(bitmaps[0], x)
    ensures a < b ==> !(grants[a].frame <= x < grants[a].frame + grants[a].count)
  {
    assert !Taken(bitmaps[b], x);
    if Taken(bitmaps[0], x) { TakenForGood(bitmaps, grants, 0, b, x); }
    if a < b && grants[a].frame <= x < grants[a].frame + grants[a].count {
      assert Taken(bitmaps[a + 1], x);
      TakenForGood(bitmaps, grants, a + 1, b, x);
    }
  }
}
