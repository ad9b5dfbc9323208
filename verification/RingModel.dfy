/** The byte ring as a value: its two pointers, what it holds, and what one call does to it. */
module RingModel {
  import opened Prelude

  const U32: nat := 0x1_0000_0000

  type Byte = bv8

  datatype Ring = Ring(buffer: seq<Byte>, read: nat, write: nat)

  ghost predicate Valid(r: Ring) {
    && |r.buffer| < U32
    && if |r.buffer| == 0 then r.read == r.write == 0 else r.read < |r.buffer| && r.write < |r.buffer|
  }

  // The bytes accepted and not yet read, oldest first.
  function Contents(r: Ring): seq<Byte>
    requires Valid(r)
  {
    if r.write < r.read then r.buffer[r.read..] + r.buffer[..r.write] else r.buffer[r.read..r.write]
  }

  // One slot is never filled.
  function Capacity(r: Ring): nat {
    if |r.buffer| == 0 then 0 else |r.buffer| - 1
  }

  // Position p is one of those that hold unread bytes.
  ghost predicate Unread(r: Ring, p: nat) {
    if r.write < r.read then r.read <= p < |r.buffer| || p < r.write else r.read <= p < r.write
  }

  function Stored(b: seq<Byte>, p: nat, data: seq<Byte>): (r: seq<Byte>)
    requires p + |data| <= |b|
    ensures |r| == |b| && r[p..p + |data|] == data
    ensures forall x :: 0 <= x < |b| ==> r[x] == if p <= x < p + |data| then data[x - p] else b[x]
  {
    b[..p] + data + b[p + |data|..]
  }

  function Wrapped(p: nat, size: nat): nat
    requires size > 0
  {
    p % size
  }

  lemma WrapIs(p: nat, size: nat)
    requires p <= size && size > 0
    ensures Wrapped(p, size) == if p == size then 0 else p
  {
  }

  // ------------------------------------------------------------------------------------------
  // Writing
  // ------------------------------------------------------------------------------------------

  // The contiguous room after the write pointer, as ringbuffer_write computes it.
  function Room(r: Ring): (n: nat)
    requires Valid(r)
    ensures r.write + n <= |r.buffer|
  {
    if r.write >= r.read then
      var left := |r.buffer| - r.write;
      if r.read == 0 && left > 0 then left - 1 else left
    else r.read - r.write - 1
  }

  // One turn of the loop in ringbuffer_write.
  function Chunk(r: Ring, data: seq<Byte>): (s: Ring)
    requires Valid(r) && data != [] && Room(r) > 0
    ensures Valid(s)
  {
    var n := Min(|data|, Room(r));
    Ring(Stored(r.buffer, r.write, data[..n]), r.read, Wrapped(r.write + n, |r.buffer|))
  }

  // The ring after ringbuffer_write, and the number of bytes accepted.
  function Put(r: Ring, data: seq<Byte>): (res: (Ring, nat))
    requires Valid(r)
    ensures Valid(res.0) && res.1 <= |data|
    decreases |data|
  {
    if data == [] || Room(r) == 0 then (r, 0)
    else Sum(Min(|data|, Room(r)), Put(Chunk(r, data), data[Min(|data|, Room(r))..]))
  }

  function Sum(n: nat, r: (Ring, nat)): (Ring, nat) {
    (r.0, n + r.1)
  }

  lemma PutStep(r: Ring, data: seq<Byte>)
    requires Valid(r) && data != []
    ensures Room(r) == 0 ==> Put(r, data) == (r, 0)
    ensures Room(r) > 0 ==> Put(r, data) == Sum(Min(|data|, Room(r)), Put(Chunk(r, data), data[Min(|data|, Room(r))..]))
  {
    hide Chunk, Room, Valid, Sum;
  }

  lemma PutNothing(r: Ring)
    requires Valid(r)
    ensures Put(r, []) == (r, 0)
  {
  }

  lemma ChunkAppends(r: Ring, data: seq<Byte>)
    requires Valid(r) && data != [] && Room(r) > 0
    ensures var n := Min(|data|, Room(r)); var s := Chunk(r, data);
            && n > 0 && |s.buffer| == |r.buffer| && s.read == r.read
            && Contents(s) == Contents(r) + data[..n]
            && |Contents(s)| <= Capacity(r)
  {
    var n := Min(|data|, Room(r));
    WrapIs(r.write + n, |r.buffer|);
  }

  // A chunk lands only on positions that hold nothing unread.
  lemma ChunkKeepsUnread(r: Ring, data: seq<Byte>, p: nat)
    requires Valid(r) && data != [] && Room(r) > 0 && Unread(r, p)
    ensures p < |r.buffer| && Chunk(r, data).buffer[p] == r.buffer[p] && Unread(Chunk(r, data), p)
  {
    WrapIs(r.write + Min(|data|, Room(r)), |r.buffer|);
  }

  // No room means full, not merely at the end of the buffer.
  lemma NoRoomIsFull(r: Ring)
    requires Valid(r)
    ensures Room(r) == 0 <==> |Contents(r)| == Capacity(r)
    ensures |Contents(r)| <= Capacity(r)
  {
  }

  // A write appends the longest prefix that fits.
  lemma {:induction false} PutAppends(r: Ring, data: seq<Byte>)
    requires Valid(r)
    ensures var (s, n) := Put(r, data);
            && n == Min(|data|, Capacity(r) - |Contents(r)|)
            && |s.buffer| == |r.buffer| && s.read == r.read
            && Contents(s) == Contents(r) + data[..n]
    decreases |data|
  {
    hide Contents, Chunk, Room, Valid, Capacity, Put;
    NoRoomIsFull(r);
    if data == [] {
      PutNothing(r);
      assert Contents(r) + data[..0] == Contents(r);
    } else if Room(r) == 0 {
      PutStep(r, data);
      assert Contents(r) + data[..0] == Contents(r);
    } else {
      var n := Min(|data|, Room(r));
      ChunkAppends(r, data);
      PutStep(r, data);
      PutAppends(Chunk(r, data), data[n..]);
      var m := Put(Chunk(r, data), data[n..]).1;
      SameCapacity(r, Chunk(r, data));
      assert data[..n] + data[n..][..m] == data[..n + m];
      assert Contents(r) + data[..n + m] == (Contents(r) + data[..n]) + data[n..][..m];
    }
  }

  lemma SameCapacity(r: Ring, s: Ring)
    requires |r.buffer| == |s.buffer|
    ensures Capacity(r) == Capacity(s)
  {
  }

  lemma {:induction false} PutKeepsUnread(r: Ring, data: seq<Byte>, p: nat)
    requires Valid(r) && Unread(r, p)
    ensures p < |r.buffer| == |Put(r, data).0.buffer| && Put(r, data).0.buffer[p] == r.buffer[p]
    ensures Unread(Put(r, data).0, p)
    decreases |data|
  {
    if data != [] && Room(r) != 0 {
      ChunkKeepsUnread(r, data, p);
      PutKeepsUnread(Chunk(r, data), data[Min(|data|, Room(r))..], p);
    }
  }

  // ------------------------------------------------------------------------------------------
  // Reading
  // ------------------------------------------------------------------------------------------

  // The contiguous run of bytes to read, as ringbuffer_read computes it from one load of the write pointer.
  function Run(r: Ring): (n: nat)
    requires Valid(r)
    ensures r.read + n <= |r.buffer|
  {
    if r.read == r.write then 0 else if r.read >= r.write then |r.buffer| - r.read else r.write - r.read
  }

  function Advanced(r: Ring, n: nat): (s: Ring)
    requires Valid(r) && |r.buffer| > 0
    ensures Valid(s)
  {
    Ring(r.buffer, Wrapped(r.read + n, |r.buffer|), r.write)
  }

  // The ring after ringbuffer_read, and the bytes handed over.
  function Take(r: Ring, len: nat): (res: (Ring, seq<Byte>))
    requires Valid(r)
    ensures Valid(res.0) && |res.1| <= len
    decreases len
  {
    if len == 0 || Run(r) == 0 then (r, [])
    else
      var n := Min(len, Run(r));
      Append(r.buffer[r.read..r.read + n], Take(Advanced(r, n), len - n))
  }

  function Append(s: seq<Byte>, r: (Ring, seq<Byte>)): (Ring, seq<Byte>) {
    (r.0, s + r.1)
  }

  lemma TakeStep(r: Ring, len: nat)
    requires Valid(r) && len > 0
    ensures r.read == r.write <==> Run(r) == 0
    ensures Run(r) == 0 ==> Take(r, len) == (r, [])
    ensures Run(r) > 0 ==>
              var n := Min(len, Run(r));
              Take(r, len) == Append(r.buffer[r.read..r.read + n], Take(Advanced(r, n), len - n))
  {
    hide Append, Advanced;
  }

  lemma TakeNothing(r: Ring)
    requires Valid(r)
    ensures Take(r, 0) == (r, [])
  {
  }

  lemma RunIsFront(r: Ring, n: nat)
    requires Valid(r) && n <= Run(r)
    ensures n <= |Contents(r)| && r.buffer[r.read..r.read + n] == Contents(r)[..n]
    ensures Run(r) == 0 <==> Contents(r) == []
  {
  }

  lemma AdvancedDrops(r: Ring, n: nat)
    requires Valid(r) && 0 < n <= Run(r)
    ensures n <= |Contents(r)| && Contents(Advanced(r, n)) == Contents(r)[n..]
  {
    WrapIs(r.read + n, |r.buffer|);
  }

  // A read removes bytes from the front, as many as asked for and there.
  lemma {:induction false} TakeRemoves(r: Ring, len: nat)
    requires Valid(r)
    ensures var (s, out) := Take(r, len);
            var n := Min(len, |Contents(r)|);
            && s.buffer == r.buffer && s.write == r.write
            && out == Contents(r)[..n] && Contents(s) == Contents(r)[n..]
    decreases len
  {
    hide Contents, Advanced, Run, Valid, Take;
    RunIsFront(r, 0);
    var c := Contents(r);
    if len == 0 {
      TakeNothing(r);
    } else if Run(r) == 0 {
      TakeStep(r, len);
    } else {
      var n := Min(len, Run(r));
      TakeStep(r, len);
      RunIsFront(r, n);
      AdvancedDrops(r, n);
      KeepsBuffer(r, n);
      TakeRemoves(Advanced(r, n), len - n);
      var m := Min(len - n, |c| - n);
      assert c[..n] + c[n..][..m] == c[..n + m] && c[n..][m..] == c[n + m..];
    }
  }

  lemma KeepsBuffer(r: Ring, n: nat)
    requires Valid(r) && |r.buffer| > 0
    ensures Advanced(r, n).buffer == r.buffer && Advanced(r, n).write == r.write
  {
  }

  // ------------------------------------------------------------------------------------------
  // Runs
  // ------------------------------------------------------------------------------------------

  datatype Op = Write(data: seq<Byte>) | Read(len: nat)

  // A ring with all bytes it has accepted and all bytes it has given up, in order.
  datatype Trace = Trace(ring: Ring, accepted: seq<Byte>, removed: seq<Byte>)

  function Apply(t: Trace, op: Op): (u: Trace)
    requires Valid(t.ring)
    ensures Valid(u.ring)
  {
    match op
    case Write(data) => var (r, n) := Put(t.ring, data); Trace(r, t.accepted + data[..n], t.removed)
    case Read(len) => var (r, out) := Take(t.ring, len); Trace(r, t.accepted, t.removed + out)
  }

  function ApplyAll(t: Trace, ops: seq<Op>): (u: Trace)
    requires Valid(t.ring)
    ensures Valid(u.ring)
  {
    if ops == [] then t else Apply(ApplyAll(t, ops[..|ops| - 1]), ops[|ops| - 1])
  }

  // Bytes leave in the order in which they were accepted, none lost, none twice, none invented.
  ghost predicate Fifo(t: Trace)
    requires Valid(t.ring)
  {
    t.accepted == t.removed + Contents(t.ring)
  }

  lemma ApplyKeepsFifo(t: Trace, op: Op)
    requires Valid(t.ring) && Fifo(t)
    ensures Fifo(Apply(t, op))
    ensures |Apply(t, op).ring.buffer| == |t.ring.buffer|
  {
    hide Contents, Put, Take;
    match op {
      case Write(data) => PutAppends(t.ring, data);
      case Read(len) => TakeRemoves(t.ring, len);
    }
  }

  // Over every run, the ring is a bounded first-in first-out sequence.
  lemma {:induction false} EveryRunIsFifo(t: Trace, ops: seq<Op>)
    requires Valid(t.ring) && Fifo(t)
    ensures Fifo(ApplyAll(t, ops)) && |ApplyAll(t, ops).ring.buffer| == |t.ring.buffer|
    ensures ApplyAll(t, ops).removed <= ApplyAll(t, ops).accepted
    ensures |Contents(ApplyAll(t, ops).ring)| <= Capacity(t.ring)
    decreases |ops|
  {
    hide Contents, Apply;
    if ops != [] {
      EveryRunIsFifo(t, ops[..|ops| - 1]);
      ApplyKeepsFifo(ApplyAll(t, ops[..|ops| - 1]), ops[|ops| - 1]);
    }
    NoRoomIsFull(ApplyAll(t, ops).ring);
  }

  // An event of several bytes goes in whole exactly when there is room for all of it.
  lemma EventIsWhole(r: Ring, event: seq<Byte>)
    requires Valid(r)
    ensures Put(r, event).1 == |event| <==> |Contents(r)| + |event| <= Capacity(r)
  {
    PutAppends(r, event);
  }

  // The keyboard's queue of 128 three-byte events holds 383 bytes: after 127 events a part of one more.
  lemma KeyboardEventIsCut(r: Ring, event: seq<Byte>)
    requires Valid(r) && |r.buffer| == 384 && |event| == 3 && |Contents(r)| == 381
    ensures Put(r, event).1 == 2 && Contents(Put(r, event).0) == Contents(r) + event[..2]
  {
    PutAppends(r, event);
  }
}
