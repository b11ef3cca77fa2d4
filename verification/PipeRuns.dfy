/** The pipe is a faithful byte stream, and no reader and writer ever sleep at once, in
    every run of readers and writers. */
module PipeRuns {
  import opened Bytes
  import opened PipeState

  // ---- The streams --------------------------------------------------------------

  function Untagged(s: seq<(CallId, byte)>): (r: seq<byte>)
    ensures |r| == |s|
  {
    seq(|s|, i requires 0 <= i < |s| => s[i].1)
  }

  /** The bytes that one call has moved. */
  function Of(s: seq<(CallId, byte)>, id: CallId): seq<byte> {
    if s == [] then []
    else Of(s[..|s| - 1], id) + (if s[|s| - 1].0 == id then [s[|s| - 1].1] else [])
  }

  lemma {:induction false} OfAppended(s: seq<(CallId, byte)>, id: CallId, bytes: seq<byte>, other: CallId)
    ensures Of(s + Tagged(id, bytes), other) == Of(s, other) + (if other == id then bytes else [])
  {
    var t := Tagged(id, bytes);
    if bytes == [] {
      assert s + t == s;
      assert Of(s, other) + [] == Of(s, other);
    } else {
      var n := |bytes| - 1;
      OfAppended(s, id, bytes[..n], other);
      assert (s + t)[..|s + t| - 1] == s + Tagged(id, bytes[..n]);
      assert bytes == bytes[..n] + [bytes[n]];
      assert Of(s, other) + (bytes[..n] + [bytes[n]]) == (Of(s, other) + bytes[..n]) + [bytes[n]];
    }
  }

  // ---- The invariant ------------------------------------------------------------

  ghost predicate StreamOk(p: Pipe) {
    && 1 <= p.capacity && |p.buffer| <= p.capacity
    && Untagged(p.read) + p.buffer == Untagged(p.written)
  }

  ghost predicate ReaderOk(p: Pipe, id: CallId) {
    if id in p.readers then
      && p.readers[id].got == Of(p.read, id)
      && (|p.readers[id].got| <= p.readers[id].wanted || p.readers[id].got == [])
      && (p.readers[id].phase == Returned(EINTR) ==> p.readers[id].got == [])
      && p.readers[id].phase != Returned(EPIPE)
    else Of(p.read, id) == []
  }

  ghost predicate WriterOk(p: Pipe, id: CallId) {
    if id in p.writers then
      && p.writers[id].sent <= |p.writers[id].data|
      && p.writers[id].data[..p.writers[id].sent] == Of(p.written, id)
      && (p.writers[id].phase.Returned? && p.writers[id].phase.error != EOK ==> p.writers[id].sent == 0)
    else Of(p.written, id) == []
  }

  predicate ReaderAsleep(p: Pipe, id: CallId) {
    id in p.readers && p.readers[id].phase.Asleep?
  }

  predicate WriterAsleep(p: Pipe, id: CallId) {
    id in p.writers && p.writers[id].phase.Asleep?
  }

  ghost predicate NotBothAsleep(p: Pipe) {
    forall r, w :: !(ReaderAsleep(p, r) && WriterAsleep(p, w))
  }

  ghost predicate Inv(p: Pipe) {
    && StreamOk(p) && NotBothAsleep(p)
    && (forall id :: ReaderOk(p, id))
    && (forall id :: WriterOk(p, id))
  }

  // ---- Steps --------------------------------------------------------------------

  lemma TakenReaderOk(p: Pipe, id: CallId, n: nat, other: CallId)
    requires ReaderOk(p, other) && id in p.readers && n <= |p.buffer|
    requires n <= p.readers[id].wanted - |p.readers[id].got| && !p.readers[id].phase.Returned?
    ensures ReaderOk(Taken(p, id, n), other)
  {
    OfAppended(p.read, id, p.buffer[..n], other);
  }

  lemma TakenStream(p: Pipe, id: CallId, n: nat)
    requires StreamOk(p) && id in p.readers && n <= |p.buffer|
    ensures StreamOk(Taken(p, id, n))
  {
    var chunk := p.buffer[..n];
    assert Untagged(p.read + Tagged(id, chunk)) == Untagged(p.read) + chunk;
    assert p.buffer == chunk + p.buffer[n..];
    assert (Untagged(p.read) + chunk) + p.buffer[n..] == Untagged(p.read) + (chunk + p.buffer[n..]);
  }

  lemma TakenInv(p: Pipe, id: CallId, n: nat)
    requires Inv(p) && id in p.readers && n <= |p.buffer| && n <= p.readers[id].wanted - |p.readers[id].got|
    requires !p.readers[id].phase.Returned?
    ensures Inv(Taken(p, id, n))
  {
    var q := Taken(p, id, n);
    TakenStream(p, id, n);
    forall other ensures ReaderOk(q, other) {
      assert ReaderOk(p, other);
      TakenReaderOk(p, id, n, other);
    }
    forall other ensures WriterOk(q, other) {
      assert WriterOk(p, other);
    }
    forall r, w ensures !(ReaderAsleep(q, r) && WriterAsleep(q, w)) {
      assert !(ReaderAsleep(p, r) && WriterAsleep(p, w));
    }
  }

  lemma PutWriterOk(p: Pipe, id: CallId, n: nat, other: CallId)
    requires WriterOk(p, other) && id in p.writers && n <= |p.writers[id].data| - p.writers[id].sent
    requires !p.writers[id].phase.Returned?
    ensures WriterOk(Put(p, id, n), other)
  {
    var c := p.writers[id];
    var chunk := c.data[c.sent..c.sent + n];
    OfAppended(p.written, id, chunk, other);
    assert c.data[..c.sent + n] == c.data[..c.sent] + chunk;
  }

  lemma PutStream(p: Pipe, id: CallId, n: nat)
    requires StreamOk(p) && id in p.writers && n <= |p.writers[id].data| - p.writers[id].sent
    requires |p.buffer| + n <= p.capacity
    ensures StreamOk(Put(p, id, n))
  {
    var c := p.writers[id];
    var chunk := c.data[c.sent..c.sent + n];
    assert Untagged(p.written + Tagged(id, chunk)) == Untagged(p.written) + chunk;
    assert (Untagged(p.read) + p.buffer) + chunk == Untagged(p.read) + (p.buffer + chunk);
  }

  lemma PutInv(p: Pipe, id: CallId, n: nat)
    requires Inv(p) && id in p.writers && n <= |p.writers[id].data| - p.writers[id].sent
    requires |p.buffer| + n <= p.capacity && !p.writers[id].phase.Returned?
    ensures Inv(Put(p, id, n))
  {
    var q := Put(p, id, n);
    PutStream(p, id, n);
    forall other ensures WriterOk(q, other) {
      assert WriterOk(p, other);
      PutWriterOk(p, id, n, other);
    }
    forall other ensures ReaderOk(q, other) {
      assert ReaderOk(p, other);
    }
    forall r, w ensures !(ReaderAsleep(q, r) && WriterAsleep(q, w)) {
      assert !(ReaderAsleep(p, r) && WriterAsleep(p, w));
    }
  }

  lemma WakeWritersInv(p: Pipe)
    requires Inv(p)
    ensures Inv(WakeWriters(p)) && forall w :: !WriterAsleep(WakeWriters(p), w)
  {
    var q := WakeWriters(p);
    forall other ensures WriterOk(q, other) { assert WriterOk(p, other); }
    forall other ensures ReaderOk(q, other) { assert ReaderOk(p, other); }
  }

  lemma WakeReadersInv(p: Pipe)
    requires Inv(p)
    ensures Inv(WakeReaders(p)) && forall r :: !ReaderAsleep(WakeReaders(p), r)
  {
    var q := WakeReaders(p);
    forall other ensures WriterOk(q, other) { assert WriterOk(p, other); }
    forall other ensures ReaderOk(q, other) { assert ReaderOk(p, other); }
  }

  /** A reader may go to sleep once no writer sleeps. */
  lemma ReaderPhaseInv(p: Pipe, id: CallId, phase: Phase)
    requires Inv(p) && id in p.readers && phase != Returned(EPIPE)
    requires phase == Returned(EINTR) ==> p.readers[id].got == []
    requires phase.Asleep? ==> forall w :: !WriterAsleep(p, w)
    ensures Inv(SetReader(p, id, p.readers[id].(phase := phase)))
  {
    var q := SetReader(p, id, p.readers[id].(phase := phase));
    forall other ensures ReaderOk(q, other) { assert ReaderOk(p, other); }
    forall other ensures WriterOk(q, other) { assert WriterOk(p, other); }
    forall r, w ensures !(ReaderAsleep(q, r) && WriterAsleep(q, w)) {
      assert !(ReaderAsleep(p, r) && WriterAsleep(p, w));
      assert WriterAsleep(q, w) == WriterAsleep(p, w);
    }
  }

  lemma WriterPhaseInv(p: Pipe, id: CallId, phase: Phase)
    requires Inv(p) && id in p.writers
    requires phase.Returned? && phase.error != EOK ==> p.writers[id].sent == 0
    requires phase.Asleep? ==> forall r :: !ReaderAsleep(p, r)
    ensures Inv(SetWriter(p, id, p.writers[id].(phase := phase)))
  {
    var q := SetWriter(p, id, p.writers[id].(phase := phase));
    forall other ensures WriterOk(q, other) { assert WriterOk(p, other); }
    forall other ensures ReaderOk(q, other) { assert ReaderOk(p, other); }
    forall r, w ensures !(ReaderAsleep(q, r) && WriterAsleep(q, w)) {
      assert !(ReaderAsleep(p, r) && WriterAsleep(p, w));
      assert ReaderAsleep(q, r) == ReaderAsleep(p, r);
    }
  }

  lemma ReadSectionInv(p: Pipe, id: CallId)
    requires Inv(p) && id in p.readers && p.readers[id].phase.Ready?
    ensures Inv(ReadSection(p, id))
  {
    var c := p.readers[id];
    if |c.got| >= c.wanted || !p.readOpen {
      ReaderPhaseInv(p, id, Returned(EOK));
    } else {
      var n := Min(|p.buffer|, c.wanted - |c.got|);
      var q := Taken(p, id, n);
      TakenInv(p, id, n);
      var d := q.readers[id];
      if |d.got| >= d.wanted || !q.writeOpen {
        ReaderPhaseInv(q, id, Returned(EOK));
      } else {
        WakeWritersInv(q);
        ReaderPhaseInv(WakeWriters(q), id, Asleep);
      }
    }
  }

  lemma WriteSectionInv(p: Pipe, id: CallId)
    requires Inv(p) && id in p.writers && p.writers[id].phase.Ready?
    ensures Inv(WriteSection(p, id))
  {
    var c := p.writers[id];
    assert WriterOk(p, id);
    if c.sent >= |c.data| || !p.writeOpen {
      WriterPhaseInv(p, id, Returned(EOK));
    } else {
      var n := Min(Room(p), |c.data| - c.sent);
      var q := Put(p, id, n);
      PutInv(p, id, n);
      var d := q.writers[id];
      if d.sent >= |d.data| {
        WriterPhaseInv(q, id, Returned(EOK));
      } else if !q.readOpen {
        WriterPhaseInv(q, id, Returned(if d.sent == 0 then EPIPE else EOK));
      } else {
        WakeReadersInv(q);
        WriterPhaseInv(WakeReaders(q), id, Asleep);
      }
    }
  }

  datatype Step =
    | SBeginRead(id: CallId, wanted: int)
    | SBeginWrite(id: CallId, data: seq<byte>)
    | SRead(id: CallId)
    | SWrite(id: CallId)
    | SInterruptRead(id: CallId)
    | SInterruptWrite(id: CallId)
    | SClose(readSide: bool)

  predicate Enabled(p: Pipe, st: Step) {
    match st
    case SBeginRead(id, _) => id !in p.readers
    case SBeginWrite(id, _) => id !in p.writers
    case SRead(id) => id in p.readers && p.readers[id].phase.Ready?
    case SWrite(id) => id in p.writers && p.writers[id].phase.Ready?
    case SInterruptRead(id) => ReaderAsleep(p, id)
    case SInterruptWrite(id) => WriterAsleep(p, id)
    case SClose(_) => true
  }

  function Apply(p: Pipe, st: Step): Pipe
    requires Enabled(p, st)
  {
    match st
    case SBeginRead(id, wanted) => BeginRead(p, id, wanted)
    case SBeginWrite(id, data) => BeginWrite(p, id, data)
    case SRead(id) => ReadSection(p, id)
    case SWrite(id) => WriteSection(p, id)
    case SInterruptRead(id) => InterruptRead(p, id)
    case SInterruptWrite(id) => InterruptWrite(p, id)
    case SClose(readSide) => Close(p, readSide)
  }

  lemma BeginInv(p: Pipe, id: CallId, wanted: int, data: seq<byte>)
    requires Inv(p)
    ensures id !in p.readers ==> Inv(BeginRead(p, id, wanted))
    ensures id !in p.writers ==> Inv(BeginWrite(p, id, data))
  {
    forall q | q == BeginRead(p, id, wanted) && id !in p.readers ensures Inv(q) {
      forall other ensures ReaderOk(q, other) { assert ReaderOk(p, other); }
      forall other ensures WriterOk(q, other) { assert WriterOk(p, other); }
      forall r, w ensures !(ReaderAsleep(q, r) && WriterAsleep(q, w)) {
        assert !(ReaderAsleep(p, r) && WriterAsleep(p, w));
      }
    }
    forall q | q == BeginWrite(p, id, data) && id !in p.writers ensures Inv(q) {
      forall other ensures ReaderOk(q, other) { assert ReaderOk(p, other); }
      forall other ensures WriterOk(q, other) { assert WriterOk(p, other); }
      forall r, w ensures !(ReaderAsleep(q, r) && WriterAsleep(q, w)) {
        assert !(ReaderAsleep(p, r) && WriterAsleep(p, w));
      }
    }
  }

  lemma CloseInv(p: Pipe, readSide: bool)
    requires Inv(p)
    ensures Inv(Close(p, readSide))
  {
    var q := if readSide then p.(readOpen := false) else p.(writeOpen := false);
    forall other ensures ReaderOk(q, other) { assert ReaderOk(p, other); }
    forall other ensures WriterOk(q, other) { assert WriterOk(p, other); }
    forall r, w ensures !(ReaderAsleep(q, r) && WriterAsleep(q, w)) {
      assert !(ReaderAsleep(p, r) && WriterAsleep(p, w));
    }
    WakeReadersInv(q);
    WakeWritersInv(WakeReaders(q));
  }

  lemma StepKeepsInv(p: Pipe, st: Step)
    requires Inv(p) && Enabled(p, st)
    ensures Inv(Apply(p, st))
  {
    match st
    case SBeginRead(id, wanted) => BeginInv(p, id, wanted, []);
    case SBeginWrite(id, data) => BeginInv(p, id, 0, data);
    case SRead(id) => ReadSectionInv(p, id);
    case SWrite(id) => WriteSectionInv(p, id);
    case SInterruptRead(id) => ReaderPhaseInv(p, id, Returned(if p.readers[id].got == [] then EINTR else EOK));
    case SInterruptWrite(id) => WriterPhaseInv(p, id, Returned(if p.writers[id].sent == 0 then EINTR else EOK));
    case SClose(readSide) => CloseInv(p, readSide);
  }

  // ---- Runs ---------------------------------------------------------------------

  /** A run: the creation of a pipe and critical sections of any calls, in any order. */
  datatype Run = Create(bufferSize: nat) | Then(before: Run, step: Step)

  function Final(run: Run): Pipe {
    match run
    case Create(bufferSize) => Created(bufferSize)
    case Then(before, step) => if Enabled(Final(before), step) then Apply(Final(before), step) else Final(before)
  }

  ghost predicate Valid(run: Run) {
    run.Then? ==> Valid(run.before) && Enabled(Final(run.before), run.step)
  }

  lemma {:induction false} ReachableInv(run: Run)
    requires Valid(run)
    ensures Inv(Final(run))
  {
    if run.Then? {
      ReachableInv(run.before);
      StepKeepsInv(Final(run.before), run.step);
    }
  }

  /** The bytes read so far, in order, followed by those in the buffer, are the bytes
      written so far, in order; the buffer never holds more than its capacity. */
  lemma BytesAreConserved(run: Run)
    requires Valid(run)
    ensures var p := Final(run);
            Untagged(p.read) + p.buffer == Untagged(p.written) && |p.buffer| <= p.capacity
  {
    ReachableInv(run);
  }

  /** Each reader has got exactly the bytes that left the buffer on its behalf, at most as
      many as it wanted; each writer has sent a prefix of its data, in order. */
  lemma CallsGetTheirBytes(run: Run, id: CallId)
    requires Valid(run)
    ensures var p := Final(run);
            && (id in p.readers ==>
                  && p.readers[id].got == Of(p.read, id)
                  && (|p.readers[id].got| <= p.readers[id].wanted || p.readers[id].got == []))
            && (id in p.writers ==>
                  && p.writers[id].sent <= |p.writers[id].data|
                  && Of(p.written, id) == p.writers[id].data[..p.writers[id].sent])
  {
    ReachableInv(run);
    assert ReaderOk(Final(run), id) && WriterOk(Final(run), id);
  }

  /** No state has both a sleeping reader and a sleeping writer: the pipe cannot be stuck
      with calls on both sides waiting for each other. */
  lemma NeverBothAsleep(run: Run, r: CallId, w: CallId)
    requires Valid(run)
    ensures !(ReaderAsleep(Final(run), r) && WriterAsleep(Final(run), w))
  {
    ReachableInv(run);
  }

  /** Errors are reported only by calls that have not moved any bytes. */
  lemma ErrorsMoveNothing(run: Run, id: CallId)
    requires Valid(run)
    ensures var p := Final(run);
            && (id in p.readers && p.readers[id].phase.Returned? && p.readers[id].phase.error != EOK ==>
                  p.readers[id].phase.error == EINTR && Of(p.read, id) == [])
            && (id in p.writers && p.writers[id].phase.Returned? && p.writers[id].phase.error != EOK ==>
                  Of(p.written, id) == [])
  {
    ReachableInv(run);
    assert ReaderOk(Final(run), id) && WriterOk(Final(run), id);
  }

  /** How a critical section of a reader ends: it returns with all it wanted, or it returns
      with less because a side is closed and, unless it is the reader's own, the buffer is
      empty, or it sleeps with the buffer empty, both sides open and every writer awake. */
  lemma ReadSectionEnds(p: Pipe, id: CallId)
    requires id in p.readers && p.readers[id].phase.Ready?
    ensures var q := ReadSection(p, id); var c := q.readers[id];
            && (c.phase == Returned(EOK) || c.phase.Asleep?)
            && (c.phase.Returned? ==> |c.got| >= c.wanted || !q.readOpen || (!q.writeOpen && q.buffer == []))
            && (c.phase.Asleep? ==>
                  |c.got| < c.wanted && q.buffer == [] && q.readOpen && q.writeOpen && forall w :: !WriterAsleep(q, w))
  {
  }

  /** The same for a writer: it sleeps only with the buffer full. */
  lemma WriteSectionEnds(p: Pipe, id: CallId)
    requires id in p.writers && p.writers[id].phase.Ready?
    ensures var q := WriteSection(p, id); var c := q.writers[id];
            && (c.phase.Returned? || c.phase.Asleep?)
            && (c.phase.Returned? ==>
                  c.sent >= |c.data| || !q.writeOpen || (!q.readOpen && |q.buffer| >= q.capacity))
            && (c.phase == Returned(EPIPE) ==> c.sent == 0 && !q.readOpen)
            && (c.phase.Asleep? ==>
                  c.sent < |c.data| && |q.buffer| >= q.capacity && q.readOpen && q.writeOpen
                  && forall r :: !ReaderAsleep(q, r))
  {
  }
}
