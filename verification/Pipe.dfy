/** The pipe as the kernel runs it: the loops of Pipe_read and Pipe_write between taking and
    releasing the lock, over a bounded ring buffer. */
module Pipes {
  import opened Bytes
  import opened PipeState

  class PipeResource {
    const capacity: nat
    var buffer: seq<byte>
    var readOpen: bool
    var writeOpen: bool
    var readers: map<CallId, ReadCall>
    var writers: map<CallId, WriteCall>
    /** History; nothing in the source corresponds to these and no branch reads them. */
    ghost var written: seq<(CallId, byte)>
    ghost var read: seq<(CallId, byte)>

    ghost function State(): PipeState.Pipe
      reads this
    {
      PipeState.Pipe(capacity, buffer, readOpen, writeOpen, readers, writers, written, read)
    }

    constructor (bufferSize: nat)
      ensures State() == Created(bufferSize)
    {
      capacity := if bufferSize >= 1 then bufferSize else 1;
      buffer, readOpen, writeOpen := [], true, true;
      readers, writers := map[], map[];
      written, read := [], [];
    }

    /** RingBuffer_GetBytes. */
    method GetBytes(count: nat) returns (bytes: seq<byte>)
      modifies this`buffer
      ensures bytes == old(buffer)[..Min(|old(buffer)|, count)]
      ensures buffer == old(buffer)[Min(|old(buffer)|, count)..]
    {
      var n := Min(|buffer|, count);
      bytes := buffer[..n];
      buffer := buffer[n..];
    }

    /** RingBuffer_PutBytes; the result is the number of bytes that had room. */
    method PutBytes(bytes: seq<byte>) returns (n: nat)
      requires |buffer| <= capacity
      modifies this`buffer
      ensures n == Min(capacity - |old(buffer)|, |bytes|) && buffer == old(buffer) + bytes[..n]
    {
      n := Min(capacity - |buffer|, |bytes|);
      buffer := buffer + bytes[..n];
    }

    method WakeAllReaders()
      modifies this`readers
      ensures State() == WakeReaders(old(State()))
    {
      readers := map id | id in readers :: WokenReader(readers[id]);
    }

    method WakeAllWriters()
      modifies this`writers
      ensures State() == WakeWriters(old(State()))
    {
      writers := map id | id in writers :: WokenWriter(writers[id]);
    }

    /** The loop of Pipe_read until the call returns or waits. */
    method Read(id: CallId)
      requires id in readers && readers[id].phase.Ready?
      modifies this
      ensures State() == ReadSection(old(State()), id)
    {
      hide Tagged, WakeWriters;
      ghost var p, c := State(), readers[id];
      ghost var n := if |c.got| < c.wanted then Min(|p.buffer|, c.wanted - |c.got|) else 0;
      while |readers[id].got| < readers[id].wanted && readOpen
        invariant State() == p || (|c.got| < c.wanted && p.readOpen && State() == Taken(p, id, n))
        decreases |buffer|
      {
        ghost var before := State();
        var chunk := GetBytes(readers[id].wanted - |readers[id].got|);
        readers := readers[id := readers[id].(got := readers[id].got + chunk)];
        read := read + Tagged(id, chunk);
        assert before == p ==> State() == Taken(p, id, n);
        if |chunk| == 0 {
          TakenNothing(before, id);
          assert State() == Taken(before, id, 0);
          if !writeOpen { break; }
          WakeAllWriters();
          readers := readers[id := readers[id].(phase := Asleep)];
          return;
        }
      }
      readers := readers[id := readers[id].(phase := Returned(EOK))];
    }

    /** Moves as many of a call's remaining bytes into the buffer as fit. */
    method SendBytes(id: CallId) returns (chunkSize: nat)
      requires id in writers && writers[id].sent <= |writers[id].data| && |buffer| <= capacity
      modifies this
      ensures chunkSize == Min(Room(old(State())), |old(writers)[id].data| - old(writers)[id].sent)
      ensures State() == Put(old(State()), id, chunkSize) && |buffer| <= capacity
    {
      var w := writers[id];
      chunkSize := PutBytes(w.data[w.sent..]);
      ghost var chunk := w.data[w.sent..w.sent + chunkSize];
      assert w.data[w.sent..][..chunkSize] == chunk;
      writers := writers[id := w.(sent := w.sent + chunkSize)];
      written := written + Tagged(id, chunk);
    }

    /** The loop of Pipe_write until the call returns or waits. */
    method Write(id: CallId)
      requires id in writers && writers[id].phase.Ready? && |buffer| <= capacity
      modifies this
      ensures State() == WriteSection(old(State()), id)
    {
      hide Tagged, WakeReaders;
      ghost var p, c := State(), writers[id];
      ghost var n := if c.sent < |c.data| then Min(Room(p), |c.data| - c.sent) else 0;
      var error := EOK;
      while writers[id].sent < |writers[id].data| && writeOpen
        invariant error == EOK && |buffer| <= capacity
        invariant State() == p || (c.sent < |c.data| && p.writeOpen && State() == Put(p, id, n))
        decreases capacity - |buffer|
      {
        ghost var before := State();
        var chunkSize := SendBytes(id);
        assert before == p ==> State() == Put(p, id, n);
        if chunkSize == 0 {
          PutNothing(before, id);
          assert State() == Put(before, id, 0);
          if !readOpen {
            error := if writers[id].sent == 0 then EPIPE else EOK;
            break;
          }
          WakeAllReaders();
          writers := writers[id := writers[id].(phase := Asleep)];
          return;
        }
      }
      writers := writers[id := writers[id].(phase := Returned(error))];
    }

    /** The end of a wait that was interrupted. */
    method Interrupt(id: CallId, reader: bool)
      requires if reader then id in readers else id in writers
      modifies this`readers, this`writers
      ensures State() == if reader then InterruptRead(old(State()), id) else InterruptWrite(old(State()), id)
    {
      if reader {
        var error := if readers[id].got == [] then EINTR else EOK;
        readers := readers[id := readers[id].(phase := Returned(error))];
      } else {
        var error := if writers[id].sent == 0 then EINTR else EOK;
        writers := writers[id := writers[id].(phase := Returned(error))];
      }
    }

    method Close(readSide: bool)
      modifies this`readOpen, this`writeOpen, this`readers, this`writers
      ensures State() == PipeState.Close(old(State()), readSide)
    {
      if readSide { readOpen := false; } else { writeOpen := false; }
      WakeAllReaders();
      WakeAllWriters();
    }
  }

  lemma TakenNothing(p: PipeState.Pipe, id: CallId)
    requires id in p.readers
    ensures Taken(p, id, 0) == p
  {
    assert p.readers[id].got + p.buffer[..0] == p.readers[id].got;
    assert p.readers[id := p.readers[id]] == p.readers;
    assert p.read + Tagged(id, p.buffer[..0]) == p.read;
  }

  lemma PutNothing(p: PipeState.Pipe, id: CallId)
    requires id in p.writers && p.writers[id].sent <= |p.writers[id].data|
    ensures Put(p, id, 0) == p
  {
    var c := p.writers[id];
    assert c.data[c.sent..c.sent] == [];
    assert p.buffer + c.data[c.sent..c.sent] == p.buffer;
    assert p.writers[id := c] == p.writers;
    assert p.written + Tagged(id, []) == p.written;
  }
}
