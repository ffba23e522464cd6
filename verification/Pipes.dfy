/** pipe.c: a bounded byte queue with waiting readers and writers. */
module Pipes {
  import opened Sequences
  import opened Blocks

  const MIN := 0x1000
  const MAX := 0x10000

  /** Buffer sizes that doubling can reach. */
  predicate IsSize(n: nat) { n == MIN || n == 2 * MIN || n == 4 * MIN || n == 8 * MIN || n == MAX }

  datatype Side = ReadSide | WriteSide

  /** A wake-up: all of a queue, with one result. */
  datatype Wakeup = Wakeup(who: seq<nat>, result: int)

  datatype Op = Put(data: seq<Byte>) | Get(length: nat) | Close(side: Side) | Await(waitFor: Side, thread: nat)

  class Pipe {
    var buffer: array?<Byte>
    var size: nat
    var readPos: nat
    var writePos: nat
    var writeable: bool
    var readers: seq<nat>
    var writers: seq<nat>

    ghost var accepted: seq<Byte>    // all that Write took
    ghost var delivered: seq<Byte>   // all that Read gave out
    ghost var dropped: seq<Byte>     // what was discarded when the read side was closed

    ghost predicate Valid()
      reads this, buffer
    {
      Quiet(false, false)
    }

    /** The invariant, but that readers have yet to be told of new data, or writers of new room. */
    ghost predicate Quiet(news: bool, room: bool)
      reads this, buffer
    {
      && readPos <= writePos <= size <= MAX
      && (if buffer == null then size == 0 else buffer.Length == size && IsSize(size))
      && (writeable || readPos < writePos ==> buffer != null)
      && (readers != [] ==> writeable && (readPos == writePos || news))
      && (writers != [] ==> writeable && (writePos - readPos == MAX || room))
      && accepted == delivered + Contents() + dropped
      && (dropped != [] ==> !writeable && readPos == writePos)
    }

    /** The bytes in the pipe. */
    ghost function Contents(): seq<Byte>
      reads this, buffer
      requires readPos <= writePos && if buffer == null then writePos == 0 else writePos <= buffer.Length
    {
      if buffer == null then [] else buffer[readPos..writePos]
    }

    constructor ()
      ensures Valid() && writeable && Contents() == [] && accepted == [] && delivered == [] && dropped == []
      ensures fresh(buffer)
    {
      buffer := new Byte[MIN];
      size, readPos, writePos, writeable, readers, writers := MIN, 0, 0, true, [], [];
      accepted, delivered, dropped := [], [], [];
    }

    /** Out of space at the end of the buffer: move the data to the beginning, then double the size until the
        new data fits. */
    method MakeRoom(length: nat)
      requires Valid() && buffer != null && writePos - readPos + length <= MAX
      modifies this`buffer, this`size, this`readPos, this`writePos, buffer
      ensures Valid() && buffer != null && (buffer == old(buffer) || fresh(buffer))
      ensures Contents() == old(Contents()) && writePos - readPos == old(writePos - readPos)
              && length <= size - writePos
    {
      if length > size - writePos {
        if readPos != 0 {
          Compact();
        }
        if length > size - writePos {
          var n := size * 2;
          while n < writePos + length
            invariant IsSize(n) && size < n
            decreases MAX - n
          {
            n := n * 2;
          }
          Resize(n);
        }
      }
    }

    method Compact()
      requires Valid() && buffer != null
      modifies this`readPos, this`writePos, buffer
      ensures Valid() && Contents() == old(Contents()) && readPos == 0 && writePos == old(writePos - readPos)
    {
      MemMove(buffer, 0, readPos, writePos - readPos);
      writePos, readPos := writePos - readPos, 0;
      assert Contents() == old(Contents());
    }

    /** heapReAlloc to a larger size. */
    method Resize(n: nat)
      requires Valid() && buffer != null && IsSize(n) && size < n
      modifies this`buffer, this`size
      ensures Valid() && fresh(buffer) && size == n && Contents() == old(Contents())
    {
      var b := new Byte[n];
      MemCopy(b, 0, buffer[..]);
      assert b[..size] == buffer[..];
      assert b[readPos..writePos] == buffer[readPos..writePos];
      buffer, size := b, n;
    }

    /** __pipeWrite: as many bytes as fit, or -1 once the pipe is closed. */
    method Write(data: seq<Byte>) returns (n: int, woken: Wakeup)
      requires Valid()
      modifies this, buffer
      ensures Valid() && (buffer == old(buffer) || fresh(buffer))
      ensures writeable == old(writeable) && delivered == old(delivered) && dropped == old(dropped)
              && writers == old(writers)
      ensures !writeable ==> n == -1 && Contents() == old(Contents()) && accepted == old(accepted) && woken.who == []
      ensures writeable ==>
                && n == (if |data| <= MAX - |old(Contents())| then |data| else MAX - |old(Contents())|)
                && Contents() == old(Contents()) + data[..n] && accepted == old(accepted) + data[..n]
                && woken == Wakeup(if Contents() == [] then [] else old(readers), |Contents()|)
    {
      woken := Wakeup([], 0);
      if !writeable {
        return -1, woken;
      }
      var used := writePos - readPos;
      var length := |data|;
      if length > MAX - used {
        length := MAX - used;
      }
      MakeRoom(length);
      Append(data[..length]);
      woken := WakeReaders();
      return length, woken;
    }

    /** Readers are woken if the buffer is not empty any more. */
    method WakeReaders() returns (woken: Wakeup)
      requires Quiet(true, false) && buffer != null && writeable
      modifies this`readers
      ensures Valid() && woken == Wakeup(if readPos == writePos then [] else old(readers), writePos - readPos)
    {
      woken := Wakeup(if readPos < writePos then readers else [], writePos - readPos);
      if readPos < writePos {
        readers := [];
      }
    }

    method Append(data: seq<Byte>)
      requires Valid() && buffer != null && |data| <= size - writePos && writePos - readPos + |data| <= MAX && writeable
      modifies this`writePos, this`accepted, buffer
      ensures Quiet(true, false) && Contents() == old(Contents()) + data && accepted == old(accepted) + data
      ensures writePos == old(writePos) + |data|
    {
      MemCopy(buffer, writePos, data);
      writePos := writePos + |data|;
      accepted := accepted + data;
      assert Contents() == old(Contents()) + data;
    }

    /** __pipeRead: up to `length` bytes from the front, or -1 if there are none and never will be. */
    method Read(length: nat) returns (n: int, data: seq<Byte>, woken: Wakeup)
      requires Valid()
      modifies this
      ensures Valid() && (buffer == old(buffer) || buffer == null)
      ensures writeable == old(writeable) && accepted == old(accepted) && dropped == old(dropped)
              && readers == old(readers)
      ensures n == -1 <==> !writeable && old(Contents()) == []
      ensures n == -1 ==> data == [] && Contents() == [] && delivered == old(delivered) && woken.who == []
      ensures n != -1 ==>
                && n == (if length <= |old(Contents())| then length else |old(Contents())|)
                && data == old(Contents())[..n] && Contents() == old(Contents())[n..]
                && delivered == old(delivered) + data
                && woken == Wakeup(if |Contents()| < MAX then old(writers) else [],
                                   if writeable then MAX - |Contents()| else 0)
    {
      var used := writePos - readPos;
      woken := Wakeup([], 0);
      if !writeable && used == 0 {
        return -1, [], woken;
      }
      n := if length > used then used else length;
      data := Take(n);
      woken := WakeWriters();
    }

    /** Writers are woken if the buffer is not full any more. */
    method WakeWriters() returns (woken: Wakeup)
      requires Quiet(false, true)
      modifies this`writers
      ensures Valid()
      ensures woken == Wakeup(if writePos - readPos < MAX then old(writers) else [],
                              if writeable then MAX - (writePos - readPos) else 0)
    {
      var used := writePos - readPos;
      woken := Wakeup(if used < MAX then writers else [], if writeable then MAX - used else 0);
      if used < MAX {
        writers := [];
      }
    }

    /** Bytes leave at the front; an empty buffer starts again at its beginning, and is freed if nothing can
        be written any more. */
    method Take(n: nat) returns (data: seq<Byte>)
      requires Valid() && buffer != null && n <= writePos - readPos
      modifies this`buffer, this`size, this`readPos, this`writePos, this`delivered
      ensures Quiet(false, true) && (buffer == old(buffer) || buffer == null)
      ensures data == old(Contents())[..n] && Contents() == old(Contents())[n..] && delivered == old(delivered) + data
    {
      data := buffer[readPos..readPos + n];
      delivered := delivered + data;
      readPos := readPos + n;
      if readPos == writePos {
        if !writeable {
          buffer, size := null, 0;
        }
        readPos, writePos := 0, 0;
      }
    }

    /** __pipeShutdown: writing ends; reading ends too if the read side is closed or nothing is left. */
    method Shutdown(side: Side) returns (woken: seq<Wakeup>)
      requires Valid()
      modifies this
      ensures Valid() && !writeable && accepted == old(accepted) && delivered == old(delivered)
      ensures buffer == old(buffer) || buffer == null
      ensures if side.WriteSide? then Contents() == old(Contents()) && dropped == old(dropped)
              else Contents() == [] && dropped == old(Contents()) + old(dropped)
      ensures readers == [] && writers == []
      ensures forall w :: w in woken ==> w.result == -1
      ensures (forall x :: x in old(writers) ==> exists w :: w in woken && x in w.who)
      ensures (forall x :: x in old(readers) ==> exists w :: w in woken && x in w.who)
    {
      writeable := false;
      woken := [Wakeup(writers, -1)];
      assert Wakeup(writers, -1) in woken;
      writers := [];
      if side.WriteSide? && writePos != readPos {
        return;
      }
      woken := woken + [Wakeup(readers, -1)];
      assert Wakeup(readers, -1) in woken;
      dropped := Contents() + dropped;
      readers, buffer, size, readPos, writePos := [], null, 0, 0, 0;
    }

    /** __pipeGetStatus. */
    method GetStatus(side: Side) returns (r: int)
      requires Valid()
      ensures r == -1 <==> !writeable && (side.WriteSide? || Contents() == [])
      ensures r != -1 ==> r == if side.WriteSide? then MAX - |Contents()| else |Contents()|
    {
      var used := writePos - readPos;
      if !writeable && (side.WriteSide? || used == 0) {
        return -1;
      }
      return if side.WriteSide? then MAX - used else used;
    }

    /** __pipeWait on behalf of thread t: an answer at once, or t hangs at the head of a queue. */
    method Wait(side: Side, t: nat) returns (r: Option<int>)
      requires Valid()
      modifies `readers, `writers
      ensures Valid()
      ensures side.ReadSide? ==> writers == old(writers) && (r.None? <==> writeable && Contents() == [])
      ensures side.WriteSide? ==> readers == old(readers) && (r.None? <==> writeable && |Contents()| == MAX)
      ensures r.None? && side.ReadSide? ==> readers == [t] + old(readers)
      ensures r.None? && side.WriteSide? ==> writers == [t] + old(writers)
      ensures r.Some? ==> readers == old(readers) && writers == old(writers)
      ensures r.Some? ==> r.value == if !writeable && (side.WriteSide? || Contents() == []) then -1
                                     else if side.WriteSide? then MAX - |Contents()| else |Contents()|
    {
      var used := writePos - readPos;
      if side.WriteSide? {
        if !writeable {
          return Some(-1);
        }
        if used >= MAX {
          writers := [t] + writers;
          return None;
        }
        return Some(MAX - used);
      }
      if !writeable && used == 0 {
        return Some(-1);
      }
      if used == 0 {
        readers := [t] + readers;
        return None;
      }
      return Some(used);
    }

    /** A bounded queue over every run: what was read, then what is buffered, then what was discarded when
        the read side was closed, is what was accepted. */
    method Run(ops: seq<Op>) returns (put: seq<Byte>, got: seq<Byte>)
      requires Valid() && accepted == [] && delivered == [] && dropped == []
      modifies this, buffer
      ensures Valid() && put == got + Contents() + dropped
      ensures dropped != [] ==> !writeable && Close(ReadSide) in ops
      ensures |Contents()| <= MAX
    {
      put, got := [], [];
      for i := 0 to |ops|
        invariant Valid() && (buffer == null || buffer == old(buffer) || fresh(buffer))
        invariant put == accepted && got == delivered && (dropped != [] ==> Close(ReadSide) in ops)
      {
        match ops[i]
        case Put(data) =>
          var n, _ := Write(data);
          if n > 0 { put := put + data[..n]; }
        case Get(length) =>
          var _, data, _ := Read(length);
          got := got + data;
        case Close(side) =>
          var _ := Shutdown(side);
        case Await(side, t) =>
          var _ := Wait(side, t);
      }
    }
  }
}
