/** A read of the ring that the keyboard's interrupt handler may break into between any two of its steps.
    The handler's write runs to completion; the reader goes on with what it had loaded before. */
module RingInterrupt {
  import opened Prelude
  import opened RingModel

  // Where the reader stands: outside ringbuffer_read; before the test of its loop; about to load the write
  // pointer for the first test that chooses the number of bytes to move, for the second, and for their
  // difference; or moving n bytes, some of them copied.  Lost, it has no number of bytes, or a wrapped one.
  datatype Reader =
    | Idle
    | Testing(len: nat, keep: bool)
    | Choosing(len: nat, keep: bool)
    | Comparing(len: nat, keep: bool)
    | Measuring(len: nat, keep: bool)
    | Copying(len: nat, keep: bool, n: nat, copied: seq<Byte>)
    | Lost

  // The ring, the reader, all bytes accepted and all bytes that the reader has removed, in order.
  datatype System = System(ring: Ring, reader: Reader, accepted: seq<Byte>, removed: seq<Byte>)

  // keep says whether the caller gave a destination.
  datatype Step = Call(len: nat, keep: bool) | Reading | Interrupt(data: seq<Byte>)

  // After the test of the loop and before the number of bytes is known
  predicate Between(s: System) {
    s.reader.Choosing? || s.reader.Comparing? || s.reader.Measuring?
  }

  // Past the first test, with the write pointer behind the read pointer: the next step gets lost.
  predicate Doomed(s: System) {
    s.reader.Lost? || ((s.reader.Comparing? || s.reader.Measuring?) && s.ring.write < s.ring.read)
  }

  ghost predicate Sound(s: System) {
    && Valid(s.ring)
    && s.accepted == s.removed + Contents(s.ring)
    && (Between(s) ==> 0 < s.reader.len && 0 < Run(s.ring))
    && (s.reader.Copying? ==>
          && 0 < s.reader.n <= Run(s.ring) && s.reader.n <= s.reader.len
          && s.reader.copied <= Contents(s.ring) && |s.reader.copied| <= s.reader.n
          && (!s.reader.keep ==> s.reader.copied == []))
  }

  // The bytes the reader has handed over, up to the last one copied.
  function Delivered(s: System): seq<Byte> {
    if s.reader.Copying? then s.removed + s.reader.copied else s.removed
  }

  // The next step of the reader.
  function Read(s: System): System
    requires Sound(s)
  {
    match s.reader
    case Idle => s
    case Testing(len, keep) =>
      if len == 0 || s.ring.read == s.ring.write then s.(reader := Idle) else s.(reader := Choosing(len, keep))
    case Choosing(len, keep) =>
      if s.ring.read >= s.ring.write then s.(reader := Copying(len, keep, Min(len, |s.ring.buffer| - s.ring.read), []))
      else s.(reader := Comparing(len, keep))
    case Comparing(len, keep) =>
      if s.ring.read < s.ring.write then s.(reader := Measuring(len, keep)) else s.(reader := Lost)
    case Measuring(len, keep) =>
      if s.ring.read < s.ring.write then s.(reader := Copying(len, keep, Min(len, s.ring.write - s.ring.read), []))
      else s.(reader := Lost)
    case Copying(len, keep, n, copied) =>
      if keep && |copied| < n then
        s.(reader := Copying(len, keep, n, copied + [s.ring.buffer[s.ring.read + |copied|]]))
      else
        var moved := if keep then copied else s.ring.buffer[s.ring.read..s.ring.read + n];
        System(Advanced(s.ring, n), Testing(len - n, keep), s.accepted, s.removed + moved)
    case Lost => s
  }

  function Next(s: System, step: Step): System
    requires Sound(s)
  {
    match step
    case Call(len, keep) => if s.reader.Idle? then s.(reader := Testing(len, keep)) else s
    case Reading => Read(s)
    case Interrupt(data) =>
      var (r, n) := Put(s.ring, data);
      System(r, s.reader, s.accepted + data[..n], s.removed)
  }

  function NextAll(s: System, steps: seq<Step>): (t: System)
    requires Sound(s)
    ensures Sound(t)
    decreases |steps|
  {
    if steps == [] then s
    else
      StepIsSafe(s, steps[0]);
      NextAll(Next(s, steps[0]), steps[1..])
  }

  // ------------------------------------------------------------------------------------------
  // Safety
  // ------------------------------------------------------------------------------------------

  lemma CopyIsFront(r: Ring, n: nat, k: nat)
    requires Valid(r) && k < n <= Run(r)
    ensures k < |Contents(r)| && r.buffer[r.read + k] == Contents(r)[k]
  {
  }

  lemma SomeRun(r: Ring)
    requires Valid(r)
    ensures r.read == r.write <==> Run(r) == 0
    ensures Run(r) == if r.read <= r.write then r.write - r.read else |r.buffer| - r.read
  {
  }

  lemma CopyIsSafe(s: System)
    requires Sound(s) && s.reader.Copying?
    ensures Sound(Read(s)) && Delivered(s) <= Delivered(Read(s))
  {
    hide Contents, Advanced, Run;
    var n, copied, c := s.reader.n, s.reader.copied, Contents(s.ring);
    RunIsFront(s.ring, n);
    if s.reader.keep && |copied| < n {
      CopyIsFront(s.ring, n, |copied|);
      assert copied + [c[|copied|]] == c[..|copied| + 1];
    } else {
      AdvancedDrops(s.ring, n);
      assert copied == c[..|copied|];
      assert c == c[..n] + c[n..];
    }
  }

  lemma ReadIsSafe(s: System)
    requires Sound(s)
    ensures Sound(Read(s)) && Delivered(s) <= Delivered(Read(s))
  {
    hide Contents, Advanced, Run;
    SomeRun(s.ring);
    match s.reader {
      case Idle =>
      case Testing(len, keep) =>
      case Choosing(len, keep) =>
      case Comparing(len, keep) =>
      case Measuring(len, keep) =>
      case Lost =>
      case Copying(_, _, _, _) => CopyIsSafe(s);
    }
  }

  lemma RunGrows(r: Ring, data: seq<Byte>)
    requires Valid(r) && data != [] && Room(r) > 0
    ensures Run(r) <= Run(Chunk(r, data))
  {
    WrapIs(r.write + Min(|data|, Room(r)), |r.buffer|);
  }

  // What the reader found readable stays readable while more is written.
  lemma {:induction false} PutKeepsRun(r: Ring, data: seq<Byte>)
    requires Valid(r)
    ensures Run(r) <= Run(Put(r, data).0)
    decreases |data|
  {
    hide Chunk, Run, Room;
    if data != [] && Room(r) != 0 {
      RunGrows(r, data);
      PutKeepsRun(Chunk(r, data), data[Min(|data|, Room(r))..]);
    }
  }

  lemma InterruptIsSafe(s: System, data: seq<Byte>)
    requires Sound(s)
    ensures Sound(Next(s, Interrupt(data))) && Delivered(Next(s, Interrupt(data))) == Delivered(s)
  {
    hide Contents, Put, Run;
    PutAppends(s.ring, data);
    PutKeepsRun(s.ring, data);
    var n := Put(s.ring, data).1;
    assert s.accepted + data[..n] == s.removed + (Contents(s.ring) + data[..n]);
  }

  lemma StepIsSafe(s: System, step: Step)
    requires Sound(s)
    ensures Sound(Next(s, step)) && Delivered(s) <= Delivered(Next(s, step))
  {
    match step {
      case Call(len, keep) =>
      case Reading => ReadIsSafe(s);
      case Interrupt(data) => InterruptIsSafe(s, data);
    }
  }

  lemma PrefixIsKept(a: seq<Byte>, b: seq<Byte>, c: seq<Byte>)
    requires a <= b && b <= c
    ensures a <= c
  {
  }

  // Wherever the interrupts fall, what is read is a prefix of what was accepted, byte for byte in order.
  lemma {:induction false} EveryScheduleIsFifo(s: System, steps: seq<Step>)
    requires Sound(s)
    ensures Delivered(NextAll(s, steps)) <= NextAll(s, steps).accepted
    ensures Delivered(s) <= Delivered(NextAll(s, steps))
    decreases |steps|
  {
    hide Sound, Next, Delivered;
    if steps == [] {
      DeliveredIsAccepted(s);
    } else {
      StepIsSafe(s, steps[0]);
      EveryScheduleIsFifo(Next(s, steps[0]), steps[1..]);
      PrefixIsKept(Delivered(s), Delivered(Next(s, steps[0])), Delivered(NextAll(s, steps)));
    }
  }

  lemma DeliveredIsAccepted(s: System)
    requires Sound(s)
    ensures Delivered(s) <= s.accepted
  {
    hide Contents, Run;
  }

  // An interrupt overwrites no unread byte, wherever the reader stands.
  lemma InterruptKeepsUnread(s: System, data: seq<Byte>, p: nat)
    requires Sound(s) && Unread(s.ring, p)
    ensures var t := Next(s, Interrupt(data));
            && Unread(t.ring, p) && p < |s.ring.buffer| == |t.ring.buffer| && t.ring.buffer[p] == s.ring.buffer[p]
  {
    PutKeepsUnread(s.ring, data, p);
  }

  // ------------------------------------------------------------------------------------------
  // The steps are those of ringbuffer_read
  // ------------------------------------------------------------------------------------------

  // The reader run to its end, without interrupts.
  function Alone(s: System): System
    requires Sound(s)
    decreases if s.reader.Idle? || s.reader.Lost? then 0 else 1 + s.reader.len,
              if s.reader.Testing? then 4 else if s.reader.Choosing? then 3 else if s.reader.Comparing? then 2
              else if s.reader.Measuring? then 1 else 0,
              if s.reader.Copying? then |s.ring.buffer| + s.reader.n - |s.reader.copied| else 0
  {
    ReadIsSafe(s);
    if s.reader.Idle? || s.reader.Lost? then s else Alone(Read(s))
  }

  lemma AloneStep(s: System)
    requires Sound(s) && !s.reader.Idle? && !s.reader.Lost?
    ensures Sound(Read(s)) && Alone(s) == Alone(Read(s))
  {
    hide Sound, Read;
    ReadIsSafe(s);
  }

  // All tests see the same write pointer.
  lemma AloneChooses(s: System)
    requires Sound(s) && s.reader.Choosing?
    ensures var t := s.(reader := Copying(s.reader.len, s.reader.keep, Min(s.reader.len, Run(s.ring)), []));
            Sound(t) && Alone(s) == Alone(t)
  {
    hide Contents, Advanced, Run, Alone;
    SomeRun(s.ring);
    AloneStep(s);
    if s.ring.read < s.ring.write {
      AloneStep(Read(s));
      AloneStep(Read(Read(s)));
    }
  }

  lemma {:induction false} AloneCopies(s: System)
    requires Sound(s) && s.reader.Copying?
    ensures var r, n := s.ring, s.reader.n;
            var after := Testing(s.reader.len - n, s.reader.keep);
            var t := System(Advanced(r, n), after, s.accepted, s.removed + Contents(r)[..n]);
            n <= |Contents(r)| && Sound(t) && Alone(s) == Alone(t)
    decreases s.reader.n - |s.reader.copied|
  {
    hide Contents, Advanced, Run, Alone;
    var n, copied, c := s.reader.n, s.reader.copied, Contents(s.ring);
    AloneStep(s);
    RunIsFront(s.ring, n);
    if s.reader.keep && |copied| < n {
      AloneCopies(Read(s));
    } else {
      assert copied == c[..|copied|];
    }
  }

  // With no interrupt the steps remove and hand over exactly what one call does.
  lemma {:induction false} AloneIsTake(s: System)
    requires Sound(s) && s.reader.Testing?
    ensures var (r, out) := Take(s.ring, s.reader.len);
            Alone(s) == System(r, Idle, s.accepted, s.removed + out)
    decreases s.reader.len
  {
    hide Contents, Advanced, Run, Alone, Take;
    var r, len := s.ring, s.reader.len;
    AloneStep(s);
    if len == 0 {
      TakeNothing(r);
      AloneEnds(s);
    } else if Run(r) == 0 {
      TakeStep(r, len);
      AloneEnds(s);
    } else {
      var n := Min(len, Run(r));
      TakeStep(r, len);
      RunIsFront(r, n);
      AloneChooses(Read(s));
      AloneCopies(s.(reader := Copying(len, s.reader.keep, n, [])));
      var out := Take(Advanced(r, n), len - n).1;
      AloneIsTake(System(Advanced(r, n), Testing(len - n, s.reader.keep), s.accepted, s.removed + Contents(r)[..n]));
      assert s.removed + (Contents(r)[..n] + out) == (s.removed + Contents(r)[..n]) + out;
    }
  }

  lemma AloneEnds(s: System)
    requires Sound(s) && s.reader.Testing? && (s.reader.len == 0 || s.ring.read == s.ring.write)
    ensures Alone(s) == System(s.ring, Idle, s.accepted, s.removed + [])
  {
    hide Contents, Run;
    assert s.removed + [] == s.removed;
    AloneStep(s);
  }

  // ------------------------------------------------------------------------------------------
  // One load of the write pointer
  // ------------------------------------------------------------------------------------------

  // A write that starts behind the read pointer stays behind it.
  lemma {:induction false} PutStaysBehind(r: Ring, data: seq<Byte>)
    requires Valid(r) && r.write < r.read
    ensures var t := Put(r, data).0; t.read == r.read && t.write < t.read
    decreases |data|
  {
    hide Chunk;
    PutAppends(r, data);
    if data != [] && Room(r) > 0 {
      ChunkMoves(r, data);
      PutStaysBehind(Chunk(r, data), data[Min(|data|, Room(r))..]);
    }
  }

  // One that starts at or after it stays there if it does not reach the end, or if the slot that is never
  // filled is the last.
  lemma {:induction false} PutStaysAfter(r: Ring, data: seq<Byte>)
    requires Valid(r) && |r.buffer| > 0 && r.read <= r.write && (r.read == 0 || |data| < |r.buffer| - r.write)
    ensures var t := Put(r, data).0; t.read == r.read && t.write >= r.write
    decreases |data|
  {
    hide Chunk;
    if data != [] && Room(r) > 0 {
      ChunkMoves(r, data);
      PutStaysAfter(Chunk(r, data), data[Min(|data|, Room(r))..]);
    }
  }

  lemma ChunkMoves(r: Ring, data: seq<Byte>)
    requires Valid(r) && data != [] && Room(r) > 0
    ensures var n := Min(|data|, Room(r)); var s := Chunk(r, data);
            && s.read == r.read && |s.buffer| == |r.buffer|
            && s.write == if r.write + n == |r.buffer| then 0 else r.write + n
  {
    WrapIs(r.write + Min(|data|, Room(r)), |r.buffer|);
  }

  // With a write between the two tests of the write pointer one of them succeeds, as ringbuffer_read needs,
  // unless the bytes reach the end of the buffer and the read pointer is neither at its start nor at or past
  // the write pointer.
  lemma TwoLoadsMiss(r: Ring, data: seq<Byte>)
    requires Valid(r) && |r.buffer| > 0
    ensures var t := Put(r, data).0;
            (r.read >= r.write || t.read < t.write) <==>
            !(0 < r.read < r.write && |data| >= |r.buffer| - r.write)
  {
    hide Chunk;
    if r.read < r.write {
      if r.read == 0 || |data| < |r.buffer| - r.write {
        PutStaysAfter(r, data);
      } else {
        ChunkMoves(r, data);
        PutStaysBehind(Chunk(r, data), data[Min(|data|, Room(r))..]);
      }
    }
  }

  // This interrupt comes after the first test and takes the write pointer around the end.
  predicate Wraps(s: System, step: Step) {
    && (s.reader.Comparing? || s.reader.Measuring?) && step.Interrupt?
    && 0 < s.ring.read < s.ring.write && |step.data| >= |s.ring.buffer| - s.ring.write
  }

  ghost predicate WrapsOnce(s: System, steps: seq<Step>)
    requires Sound(s)
    decreases |steps|
  {
    StepIsSafe(s, if steps == [] then Reading else steps[0]);
    steps != [] && (Wraps(s, steps[0]) || WrapsOnce(Next(s, steps[0]), steps[1..]))
  }

  lemma StepDooms(s: System, step: Step)
    requires Sound(s)
    ensures Sound(Next(s, step)) && (Doomed(Next(s, step)) <==> Doomed(s) || Wraps(s, step))
  {
    hide Contents, Run, Put, Advanced;
    StepIsSafe(s, step);
    SomeRun(s.ring);
    SomeRun(Next(s, step).ring);
    if step.Interrupt? && |s.ring.buffer| > 0 {
      TwoLoadsMiss(s.ring, step.data);
      PutAppends(s.ring, step.data);
      if s.ring.write < s.ring.read { PutStaysBehind(s.ring, step.data); }
    }
  }

  // A read gets lost if and only if some interrupt comes in so.  Lost, it is at its next step.
  lemma {:induction false} LostIffWraps(s: System, steps: seq<Step>)
    requires Sound(s)
    ensures Doomed(NextAll(s, steps)) <==> Doomed(s) || WrapsOnce(s, steps)
    ensures Read(NextAll(s, steps)).reader.Lost? <==> Doomed(NextAll(s, steps))
    decreases |steps|
  {
    hide Sound, Next, Wraps, Doomed;
    if steps == [] {
      LostIsDoomed(s);
    } else {
      StepDooms(s, steps[0]);
      LostIffWraps(Next(s, steps[0]), steps[1..]);
    }
  }

  lemma LostIsDoomed(s: System)
    requires Sound(s)
    ensures Read(s).reader.Lost? <==> Doomed(s)
  {
    hide Contents, Run;
    SomeRun(s.ring);
  }

  // The keyboard's ring of 384 bytes: an event of three bytes that comes in between the tests makes both
  // fail exactly if it reaches the end of a ring whose read pointer has left the start.
  lemma KeyboardReadMisses(r: Ring, event: seq<Byte>)
    requires Valid(r) && |r.buffer| == 384 && |event| == 3
    ensures var t := Put(r, event).0;
            !(r.read >= r.write) && !(t.read < t.write) <==> 0 < r.read < r.write && 381 <= r.write
  {
    hide Put;
    TwoLoadsMiss(r, event);
  }

  // So with one event read and 126 waiting, although the next one goes in whole; and with one byte read and
  // 381 waiting.
  lemma KeyboardExample(buffer: seq<Byte>, event: seq<Byte>)
    requires |buffer| == 384 && |event| == 3
    ensures var r := Ring(buffer, 3, 381); var (t, n) := Put(r, event);
            |Contents(r)| == 3 * 126 && n == 3 && !(r.read >= r.write) && !(t.read < t.write)
    ensures var r := Ring(buffer, 1, 382); var (t, n) := Put(r, event);
            |Contents(r)| == 381 && n == 2 && !(r.read >= r.write) && !(t.read < t.write)
  {
    hide Put;
    PutAppends(Ring(buffer, 3, 381), event);
    PutAppends(Ring(buffer, 1, 382), event);
    KeyboardReadMisses(Ring(buffer, 3, 381), event);
    KeyboardReadMisses(Ring(buffer, 1, 382), event);
  }
}
