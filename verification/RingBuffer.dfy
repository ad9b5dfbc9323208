/** The ring buffer as the kernel keeps it: one array and two 32-bit pointers, updated in place. */
module RingBuffer {
  import opened Prelude
  import opened RingModel

  // Every operation on this type is checked to stay below 2^32.
  newtype u32 = x: int | 0 <= x < 0x1_0000_0000

  function Smaller(a: u32, b: u32): u32 {
    if a < b then a else b
  }

  class Buffer {
    var buffer: array<Byte>
    var bufferSize: u32
    var readPtr: u32
    var writePtr: u32

    ghost function Value(): Ring
      reads this, buffer
    {
      Ring(buffer[..], readPtr as nat, writePtr as nat)
    }

    ghost predicate Sound()
      reads this, buffer
    {
      buffer.Length == bufferSize as nat && Valid(Value())
    }

    // ringbuffer_init.  What memory from kmalloc holds is arbitrary; if there is none, a ring of size 0
    // is left.
    constructor (memory: Option<array<Byte>>)
      requires memory.Some? ==> memory.value.Length < U32
      ensures Sound() && Contents(Value()) == []
      ensures if memory.Some? then buffer == memory.value else bufferSize == 0
    {
      readPtr, writePtr := 0, 0;
      match memory {
        case Some(a) =>
          buffer := a;
          bufferSize := a.Length as u32;
        case None =>
          buffer := new Byte[0];
          bufferSize := 0;
      }
    }

    method Used() returns (c: u32)
      requires Sound()
      ensures c as nat == |Contents(Value())|
    {
      if writePtr < readPtr {
        c := bufferSize - readPtr;
        c := c + writePtr;
        return;
      }
      return writePtr - readPtr;
    }

    // The capacity of a ring without any memory wraps around.
    method GetCapacity() returns (c: u32)
      requires Sound()
      ensures c as nat == Capacity(Value()) <==> bufferSize > 0
      ensures bufferSize == 0 ==> c == 0xFFFF_FFFF
    {
      c := if bufferSize == 0 then 0xFFFF_FFFF else bufferSize - 1;
    }

    method Unused() returns (c: u32)
      requires Sound()
      ensures c as nat + |Contents(Value())| == Capacity(Value()) <==> bufferSize > 0
      ensures bufferSize == 0 ==> c == 0xFFFF_FFFF
    {
      NoRoomIsFull(Value());
      var capacity := GetCapacity();
      var used := Used();
      return capacity - used;
    }

    method IsEmpty() returns (empty: bool)
      requires Sound()
      ensures empty <==> Contents(Value()) == []
    {
      return writePtr == readPtr;
    }

    // buffer_left: the contiguous room after the write pointer
    method BufferLeft() returns (left: u32)
      requires Sound()
      ensures left as nat == Room(Value())
    {
      if writePtr >= readPtr {
        left := bufferSize - writePtr;
        if 0 == readPtr && left > 0 {
          left := left - 1;
        }
      } else {
        left := readPtr - writePtr - 1;
      }
    }

    // One memcpy into the ring
    method CopyIn(data: seq<Byte>, from: nat, n: nat)
      requires writePtr as nat + n <= buffer.Length && from + n <= |data|
      modifies buffer
      ensures buffer[..] == Stored(old(buffer[..]), writePtr as nat, data[from..from + n])
    {
      ghost var b := buffer[..];
      forall i | 0 <= i < n {
        buffer[writePtr as nat + i] := data[from + i];
      }
      assert buffer[..] == Stored(b, writePtr as nat, data[from..from + n]);
    }

    // One turn of the loop in ringbuffer_write
    method StoreChunk(data: seq<Byte>, from: nat, len: u32, left: u32)
      requires Sound() && |data| - from == len as nat > 0 && left as nat == Room(Value()) > 0
      modifies this`writePtr, buffer
      ensures Sound() && Value() == Chunk(old(Value()), data[from..])
    {
      hide Room, Stored;
      ghost var rest := data[from..];
      var n := Smaller(len, left);
      n := Smaller(n, bufferSize - writePtr);
      assert rest[..n as nat] == data[from..from + n as nat];
      CopyIn(data, from, n as nat);
      WrapIs(writePtr as nat + n as nat, bufferSize as nat);
      writePtr := (writePtr + n) % bufferSize;
    }

    method Write(data: seq<Byte>) returns (written: u32)
      requires Sound() && |data| < U32
      modifies this`writePtr, buffer
      ensures Sound() && (Value(), written as nat) == Put(old(Value()), data)
      ensures written as nat == Min(|data|, Capacity(old(Value())) - |Contents(old(Value()))|)
      ensures Contents(Value()) == old(Contents(Value())) + data[..written]
    {
      hide Contents, Capacity, Put, Chunk, Room, Valid;
      ghost var r := Value();
      PutAppends(r, data);
      var from: nat := 0;
      var len := |data| as u32;
      assert data[0..] == data;
      while len > 0
        invariant from + len as nat == |data| && Sound()
        invariant Put(r, data) == Sum(from, Put(Value(), data[from..]))
      {
        var left := BufferLeft();
        PutStep(Value(), data[from..]);
        if 0 == left {
          break;
        }
        var n := Smaller(len, left);
        assert data[from..][n as nat..] == data[from + n as nat..];
        StoreChunk(data, from, len, left);
        from := from + n as nat;
        len := len - n;
      }
      PutNothing(Value());
      assert data[|data|..] == [];
      return |data| as u32 - len;
    }

    // read_len: the contiguous run of bytes after the read pointer, not empty
    method ReadLeft() returns (left: u32)
      requires Sound() && readPtr != writePtr
      ensures left as nat == Run(Value())
    {
      if readPtr >= writePtr {
        left := bufferSize - readPtr;
      } else {
        left := writePtr - readPtr;
      }
    }

    // One memcpy out of the ring, if there is a destination
    method LoadChunk(destination: array?<Byte>, at: nat, n: u32)
      requires Sound() && destination != buffer && n as nat <= Run(Value())
      requires destination != null ==> at + n as nat <= destination.Length
      modifies destination
      ensures destination != null ==>
                destination[..] == Stored(old(destination[..]), at, buffer[readPtr..readPtr as nat + n as nat])
    {
      if destination != null {
        ghost var d := destination[..];
        forall i | 0 <= i < n as nat {
          destination[at + i] := buffer[readPtr as nat + i];
        }
        assert destination[..] == Stored(d, at, buffer[readPtr..readPtr as nat + n as nat]);
      }
    }

    method StepRead(n: u32)
      requires Sound() && 0 < n as nat <= Run(Value())
      modifies this`readPtr
      ensures Sound() && Value() == Advanced(old(Value()), n as nat)
    {
      WrapIs(readPtr as nat + n as nat, bufferSize as nat);
      readPtr := (readPtr + n) % bufferSize;
    }

    method Read(destination: array?<Byte>, wanted: u32) returns (got: u32)
      requires Sound() && destination != buffer
      requires destination != null ==> wanted as nat <= destination.Length
      modifies this`readPtr, destination
      ensures Sound() && Value() == Take(old(Value()), wanted as nat).0
      ensures got as nat == Min(wanted as nat, |Contents(old(Value()))|)
      ensures Contents(Value()) == old(Contents(Value()))[got..]
      ensures destination != null ==> destination[..got] == old(Contents(Value()))[..got]
      ensures destination != null ==> destination[got..] == old(destination[got..])
    {
      hide Contents, Take, Advanced, Append, Run, Valid, Stored, Front;
      ghost var r := Value();
      ghost var d0 := if destination == null then [] else destination[..];
      var len := wanted;
      ghost var done: seq<Byte> := [];
      AppendNothing(Take(r, wanted as nat));
      FrontNothing(d0);
      while len > 0
        invariant len <= wanted && Sound() && |done| == wanted as nat - len as nat
        invariant Take(r, wanted as nat) == Append(done, Take(Value(), len as nat))
        invariant destination != null ==> destination[..] == Front(d0, done) && |d0| == destination.Length
      {
        ghost var v := Value();
        TakeStep(v, len as nat);
        if readPtr == writePtr {
          break;
        }
        var n := ReadLeft();
        n := Smaller(len, n);
        ghost var chunk := v.buffer[v.read..v.read + n as nat];
        LoadChunk(destination, (wanted - len) as nat, n);
        if destination != null {
          FrontGrows(d0, done, chunk);
        }
        StepRead(n);
        AppendAppend(done, chunk, Take(Value(), (len - n) as nat));
        done := done + chunk;
        len := len - n;
      }
      TakeNothing(Value());
      ReadEnds(r, wanted as nat, done, Take(Value(), len as nat), d0);
      return wanted - len;
    }
  }

  // d with its front overwritten
  function Front(d: seq<Byte>, front: seq<Byte>): (r: seq<Byte>)
    ensures |front| <= |d| ==> |r| == |d|
  {
    if |front| <= |d| then front + d[|front|..] else d
  }

  lemma FrontNothing(d: seq<Byte>)
    ensures Front(d, []) == d
  {
  }

  lemma FrontGrows(d: seq<Byte>, front: seq<Byte>, more: seq<Byte>)
    requires |front| + |more| <= |d|
    ensures Stored(Front(d, front), |front|, more) == Front(d, front + more)
  {
  }

  // When nothing more is taken, what was copied is all that was taken.
  lemma ReadEnds(r: Ring, wanted: nat, done: seq<Byte>, last: (Ring, seq<Byte>), d: seq<Byte>)
    requires Valid(r) && Take(r, wanted) == Append(done, last) && last.1 == []
    ensures Take(r, wanted) == (last.0, done) && |done| == Min(wanted, |Contents(r)|)
    ensures done == Contents(r)[..|done|] && Contents(last.0) == Contents(r)[|done|..]
    ensures |done| <= |d| ==> Front(d, done)[..|done|] == done && Front(d, done)[|done|..] == d[|done|..]
  {
    hide Take, Contents;
    TakeRemoves(r, wanted);
    assert done + last.1 == done;
  }

  lemma AppendNothing(r: (Ring, seq<Byte>))
    ensures Append([], r) == r
  {
    assert [] + r.1 == r.1;
  }

  lemma AppendAppend(a: seq<Byte>, b: seq<Byte>, r: (Ring, seq<Byte>))
    ensures Append(a, Append(b, r)) == Append(a + b, r)
  {
    assert a + (b + r.1) == (a + b) + r.1;
  }
}
