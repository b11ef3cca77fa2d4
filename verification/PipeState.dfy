/** A pipe with any number of readers and writers, and what each critical section under its
    lock does (Kernel/Sources/Pipe.c, Kernel/Sources/dispatcher/ConditionVariable.c). */
module PipeState {
  import opened Bytes

  type CallId = nat

  datatype Error = EOK | EINTR | EPIPE

  /** Where a call is whenever the lock is free: about to take the lock, blocked in the wait
      on its side's condition variable, or back at its caller. */
  datatype Phase = Ready | Asleep | Returned(error: Error)

  datatype ReadCall = ReadCall(wanted: int, got: seq<byte>, phase: Phase)

  datatype WriteCall = WriteCall(data: seq<byte>, sent: nat, phase: Phase)

  /** `written` and `read` record the bytes that entered and left the buffer, each with the
      call that moved it. */
  datatype Pipe = Pipe(
    capacity: nat,
    buffer: seq<byte>,
    readOpen: bool,
    writeOpen: bool,
    readers: map<CallId, ReadCall>,
    writers: map<CallId, WriteCall>,
    written: seq<(CallId, byte)>,
    read: seq<(CallId, byte)>)

  function Min(a: int, b: int): int { if a <= b then a else b }

  function Tagged(id: CallId, bytes: seq<byte>): (r: seq<(CallId, byte)>)
    ensures |r| == |bytes|
  {
    seq(|bytes|, i requires 0 <= i < |bytes| => (id, bytes[i]))
  }

  // ---- Condition variables ------------------------------------------------------

  function WokenReader(c: ReadCall): ReadCall {
    if c.phase.Asleep? then c.(phase := Ready) else c
  }

  function WokenWriter(c: WriteCall): WriteCall {
    if c.phase.Asleep? then c.(phase := Ready) else c
  }

  /** A broadcast wakes all calls that wait on the reader side. */
  function WakeReaders(p: Pipe): Pipe {
    p.(readers := map id | id in p.readers :: WokenReader(p.readers[id]))
  }

  function WakeWriters(p: Pipe): Pipe {
    p.(writers := map id | id in p.writers :: WokenWriter(p.writers[id]))
  }

  // ---- Critical sections --------------------------------------------------------

  function Created(bufferSize: nat): Pipe {
    Pipe(if bufferSize >= 1 then bufferSize else 1, [], true, true, map[], map[], [], [])
  }

  /** A call without anything to do returns without taking the lock. */
  function BeginRead(p: Pipe, id: CallId, wanted: int): Pipe {
    p.(readers := p.readers[id := ReadCall(wanted, [], if wanted > 0 then Ready else Returned(EOK))])
  }

  function BeginWrite(p: Pipe, id: CallId, data: seq<byte>): Pipe {
    p.(writers := p.writers[id := WriteCall(data, 0, if data != [] then Ready else Returned(EOK))])
  }

  function SetReader(p: Pipe, id: CallId, c: ReadCall): Pipe {
    p.(readers := p.readers[id := c])
  }

  function SetWriter(p: Pipe, id: CallId, c: WriteCall): Pipe {
    p.(writers := p.writers[id := c])
  }

  /** Moves `n` bytes from the buffer to a reader. */
  function Taken(p: Pipe, id: CallId, n: nat): Pipe
    requires id in p.readers && n <= |p.buffer|
  {
    var c := p.readers[id];
    SetReader(p, id, c.(got := c.got + p.buffer[..n]))
      .(buffer := p.buffer[n..], read := p.read + Tagged(id, p.buffer[..n]))
  }

  /** Moves the next `n` bytes of a writer into the buffer. */
  function Put(p: Pipe, id: CallId, n: nat): Pipe
    requires id in p.writers && p.writers[id].sent + n <= |p.writers[id].data|
  {
    var c := p.writers[id];
    var chunk := c.data[c.sent..c.sent + n];
    SetWriter(p, id, c.(sent := c.sent + n)).(buffer := p.buffer + chunk, written := p.written + Tagged(id, chunk))
  }

  /** Pipe_read from taking the lock to releasing it: the call gets what there is, and if
      that is not enough it either returns, because one side is closed, or wakes all
      writers and goes to sleep. */
  function ReadSection(p: Pipe, id: CallId): Pipe
    requires id in p.readers
  {
    var c := p.readers[id];
    if |c.got| >= c.wanted || !p.readOpen then SetReader(p, id, c.(phase := Returned(EOK)))
    else
      var q := Taken(p, id, Min(|p.buffer|, c.wanted - |c.got|));
      var d := q.readers[id];
      if |d.got| >= d.wanted || !q.writeOpen then SetReader(q, id, d.(phase := Returned(EOK)))
      else SetReader(WakeWriters(q), id, d.(phase := Asleep))
  }

  /** The number of bytes the buffer has room for. */
  function Room(p: Pipe): nat {
    if |p.buffer| <= p.capacity then p.capacity - |p.buffer| else 0
  }

  /** Pipe_write from taking the lock to releasing it. */
  function WriteSection(p: Pipe, id: CallId): Pipe
    requires id in p.writers
  {
    var c := p.writers[id];
    if c.sent >= |c.data| || !p.writeOpen then SetWriter(p, id, c.(phase := Returned(EOK)))
    else
      var q := Put(p, id, Min(Room(p), |c.data| - c.sent));
      var d := q.writers[id];
      if d.sent >= |d.data| then SetWriter(q, id, d.(phase := Returned(EOK)))
      else if !q.readOpen then SetWriter(q, id, d.(phase := Returned(if d.sent == 0 then EPIPE else EOK)))
      else SetWriter(WakeReaders(q), id, d.(phase := Asleep))
  }

  /** The wait of a sleeping call is interrupted. */
  function InterruptRead(p: Pipe, id: CallId): Pipe
    requires id in p.readers
  {
    var c := p.readers[id];
    SetReader(p, id, c.(phase := Returned(if c.got == [] then EINTR else EOK)))
  }

  function InterruptWrite(p: Pipe, id: CallId): Pipe
    requires id in p.writers
  {
    var c := p.writers[id];
    SetWriter(p, id, c.(phase := Returned(if c.sent == 0 then EINTR else EOK)))
  }

  /** Pipe_close: both sides are woken whichever is closed. */
  function Close(p: Pipe, readSide: bool): Pipe {
    WakeWriters(WakeReaders(if readSide then p.(readOpen := false) else p.(writeOpen := false)))
  }
}
