/** The ends of a pipe: what closing a side does to the calls on either side, how much a call
    moves and how it returns, and which sleeping calls nobody wakes (Kernel/Sources/Pipe.c:99-203). */
module PipeEnds {
  import opened Bytes
  import opened PipeState
  import opened PipeRuns

  // ---- Closed sides -------------------------------------------------------------

  /** Somebody has closed the read side, or the write side. */
  predicate Closed(run: Run, readSide: bool) {
    run.Then? && (run.step == SClose(readSide) || Closed(run.before, readSide))
  }

  lemma StepKeepsSides(p: Pipe, st: Step)
    requires Enabled(p, st)
    ensures Apply(p, st).readOpen <==> p.readOpen && st != SClose(true)
    ensures Apply(p, st).writeOpen <==> p.writeOpen && st != SClose(false)
  {
  }

  /** In every run a side is open exactly if nobody has closed it. */
  lemma {:induction false} SidesAreOpen(run: Run)
    requires Valid(run)
    ensures Final(run).readOpen <==> !Closed(run, true)
    ensures Final(run).writeOpen <==> !Closed(run, false)
  {
    if run.Then? {
      SidesAreOpen(run.before);
      StepKeepsSides(Final(run.before), run.step);
    }
  }

  ghost predicate NobodySleeps(p: Pipe) {
    forall id :: !ReaderAsleep(p, id) && !WriterAsleep(p, id)
  }

  /** Closing a side wakes every call, on both sides, and moves no bytes. */
  lemma CloseWakesEverybody(p: Pipe, readSide: bool)
    ensures var q := Close(p, readSide);
            && NobodySleeps(q)
            && q.readOpen == (p.readOpen && !readSide) && q.writeOpen == (p.writeOpen && readSide)
            && q.buffer == p.buffer && q.capacity == p.capacity && q.read == p.read && q.written == p.written
            && q.readers.Keys == p.readers.Keys && q.writers.Keys == p.writers.Keys
            && (forall id | id in p.readers ::
                  q.readers[id] == p.readers[id].(phase := if p.readers[id].phase.Asleep? then Ready
                                                           else p.readers[id].phase))
            && (forall id | id in p.writers ::
                  q.writers[id] == p.writers[id].(phase := if p.writers[id].phase.Asleep? then Ready
                                                           else p.writers[id].phase))
  {
  }

  ghost predicate OpenOrAwake(p: Pipe) {
    (p.readOpen && p.writeOpen) || NobodySleeps(p)
  }

  lemma StepLetsNobodySleep(p: Pipe, st: Step)
    requires Enabled(p, st) && OpenOrAwake(p)
    ensures OpenOrAwake(Apply(p, st))
  {
    var q := Apply(p, st);
    if st.SClose? {
      CloseWakesEverybody(p, st.readSide);
    } else if NobodySleeps(p) && !(q.readOpen && q.writeOpen) {
      forall id ensures !ReaderAsleep(q, id) && !WriterAsleep(q, id) {
        assert !ReaderAsleep(p, id) && !WriterAsleep(p, id);
      }
    }
  }

  /** In every run, once a side has been closed no call sleeps on either side any more. */
  lemma {:induction false} NobodySleepsOnClosedPipe(run: Run)
    requires Valid(run) && (Closed(run, true) || Closed(run, false))
    ensures NobodySleeps(Final(run))
  {
    SidesAreOpen(run);
    ClosedOrAwake(run);
  }

  lemma {:induction false} ClosedOrAwake(run: Run)
    requires Valid(run)
    ensures OpenOrAwake(Final(run))
  {
    if run.Then? {
      ClosedOrAwake(run.before);
      StepLetsNobodySleep(Final(run.before), run.step);
    }
  }

  /** Once the write side is closed no more bytes enter the buffer; once the read side is
      closed none leave it. */
  lemma NothingMovesThroughClosedSide(p: Pipe, st: Step)
    requires Enabled(p, st)
    ensures !p.writeOpen ==> Apply(p, st).written == p.written
    ensures !p.readOpen ==> Apply(p, st).read == p.read
  {
  }

  // ---- What a call gets ---------------------------------------------------------

  /** One section of a read call, completely: it takes as many bytes as it wants and there are,
      from the front of the buffer, and returns exactly if it has them all or a side is
      closed. */
  lemma ReadGets(run: Run, id: CallId)
    requires Valid(run) && Enabled(Final(run), SRead(id))
    ensures var p, q := Final(run), Apply(Final(run), SRead(id)); var c, d := p.readers[id], q.readers[id];
            var n := if p.readOpen && |c.got| < c.wanted then
                       (if |p.buffer| <= c.wanted - |c.got| then |p.buffer| else c.wanted - |c.got|)
                     else 0;
            && d.wanted == c.wanted && d.got == c.got + p.buffer[..n] && q.buffer == p.buffer[n..]
            && (d.phase == Returned(EOK) <==> |d.got| >= c.wanted || !p.readOpen || !p.writeOpen)
            && (d.phase != Returned(EOK) ==> d.phase.Asleep?)
            && q.readOpen == p.readOpen && q.writeOpen == p.writeOpen
            && (forall u | u in p.readers && u != id :: u in q.readers && q.readers[u] == p.readers[u])
  {
    ReachableInv(run);
    var p := Final(run);
    assert ReaderOk(p, id);
    assert p.readers[id].got + p.buffer[..0] == p.readers[id].got && p.buffer[0..] == p.buffer;
  }

  /** End of file: when the write side is closed and the read side is not, a read gets what is
      left of the bytes, as many as it wants, and returns without an error. */
  lemma EndOfFile(run: Run, id: CallId)
    requires Valid(run) && Closed(run, false) && !Closed(run, true) && Enabled(Final(run), SRead(id))
    requires |Final(run).readers[id].got| < Final(run).readers[id].wanted
    ensures var p, q := Final(run), Apply(Final(run), SRead(id)); var c, d := p.readers[id], q.readers[id];
            && d.phase == Returned(EOK)
            && d.got + q.buffer == c.got + p.buffer
            && (|d.got| == c.wanted || q.buffer == [])
  {
    hide ReadSection, Valid;
    SidesAreOpen(run);
    ReadGets(run, id);
    var p := Final(run);
    var c := p.readers[id];
    Regrouped(c.got, p.buffer, if |p.buffer| <= c.wanted - |c.got| then |p.buffer| else c.wanted - |c.got|);
  }

  lemma Regrouped(got: seq<byte>, buffer: seq<byte>, n: nat)
    requires n <= |buffer|
    ensures (got + buffer[..n]) + buffer[n..] == got + buffer
  {
    assert buffer == buffer[..n] + buffer[n..];
  }

  /** One section of a write call, completely: it sends as many bytes as it has and there is
      room for, and returns exactly if it has sent them all or a side is closed. */
  lemma WriteSends(run: Run, id: CallId)
    requires Valid(run) && Enabled(Final(run), SWrite(id))
    ensures var p, q := Final(run), Apply(Final(run), SWrite(id)); var c, d := p.writers[id], q.writers[id];
            && c.sent <= |c.data| && |p.buffer| <= p.capacity
            && var room := p.capacity - |p.buffer|;
               var n := if !p.writeOpen then 0 else if room <= |c.data| - c.sent then room else |c.data| - c.sent;
               && d.data == c.data && d.sent == c.sent + n && q.buffer == p.buffer + c.data[c.sent..c.sent + n]
               && (d.phase.Returned? <==> d.sent == |c.data| || !p.readOpen || !p.writeOpen)
               && (!d.phase.Returned? ==> d.phase.Asleep?)
               && (d.phase == Returned(EPIPE) <==> d.sent < |c.data| && p.writeOpen && !p.readOpen && d.sent == 0)
               && d.phase != Returned(EINTR)
               && q.readOpen == p.readOpen && q.writeOpen == p.writeOpen
               && (forall u | u in p.writers && u != id :: u in q.writers && q.writers[u] == p.writers[u])
  {
    ReachableInv(run);
    assert WriterOk(Final(run), id);
    assert Final(run).buffer + [] == Final(run).buffer;
  }

  /** A broken pipe: when the read side is closed and the write side is not, a write that finds
      no room fails with EPIPE if it has sent nothing, and otherwise ends short without an
      error. */
  lemma BrokenPipe(run: Run, id: CallId)
    requires Valid(run) && Closed(run, true) && !Closed(run, false) && Enabled(Final(run), SWrite(id))
    requires |Final(run).buffer| == Final(run).capacity
    requires Final(run).writers[id].sent < |Final(run).writers[id].data|
    ensures var p, q := Final(run), Apply(Final(run), SWrite(id)); var c, d := p.writers[id], q.writers[id];
            && d.sent == c.sent && q.buffer == p.buffer
            && d.phase == Returned(if c.sent == 0 then EPIPE else EOK)
  {
    SidesAreOpen(run);
    WriteSends(run, id);
    assert Final(run).buffer + [] == Final(run).buffer;
  }

  /** An interrupted wait fails with EINTR if the call has moved nothing, and otherwise ends
      short without an error; bytes stay where they are. */
  lemma InterruptReports(p: Pipe, id: CallId)
    ensures ReaderAsleep(p, id) ==>
              var q := Apply(p, SInterruptRead(id));
              && q.readers[id] == p.readers[id].(phase := Returned(if |p.readers[id].got| == 0 then EINTR else EOK))
              && q.buffer == p.buffer && q.writers == p.writers
    ensures WriterAsleep(p, id) ==>
              var q := Apply(p, SInterruptWrite(id));
              && q.writers[id] == p.writers[id].(phase := Returned(if p.writers[id].sent == 0 then EINTR else EOK))
              && q.buffer == p.buffer && q.readers == p.readers
  {
  }

  /** A new call has moved nothing; it returns at once exactly if it has nothing to move. */
  lemma CallsBegin(p: Pipe, id: CallId, wanted: int, data: seq<byte>)
    ensures id !in p.readers ==>
              var q := Apply(p, SBeginRead(id, wanted));
              q == p.(readers := q.readers) && q.readers == p.readers[id := q.readers[id]]
              && q.readers[id].wanted == wanted && q.readers[id].got == []
              && q.readers[id].phase == if wanted <= 0 then Returned(EOK) else Ready
    ensures id !in p.writers ==>
              var q := Apply(p, SBeginWrite(id, data));
              q == p.(writers := q.writers) && q.writers == p.writers[id := q.writers[id]]
              && q.writers[id].data == data && q.writers[id].sent == 0
              && q.writers[id].phase == if |data| == 0 then Returned(EOK) else Ready
  {
  }

  // ---- Sleepers that nobody wakes -------------------------------------------------

  /** A reader sleeps although there are bytes for it. */
  ghost predicate ReaderLeft(p: Pipe) {
    p.buffer != [] && exists id :: ReaderAsleep(p, id)
  }

  /** A writer sleeps although there is room for its bytes. */
  ghost predicate WriterLeft(p: Pipe) {
    |p.buffer| < p.capacity && exists id :: WriterAsleep(p, id)
  }

  /** A write that puts all its bytes into an empty buffer and returns, beside a sleeping reader. */
  ghost predicate WriteWakesNobody(p: Pipe, st: Step)
    requires Enabled(p, st)
  {
    && st.SWrite? && (exists r :: ReaderAsleep(p, r))
    && p.writeOpen && p.writers[st.id].sent < |p.writers[st.id].data|
    && |p.writers[st.id].data| - p.writers[st.id].sent <= p.capacity - |p.buffer|
  }

  /** A read that takes all it wants from a full buffer and returns, beside a sleeping writer. */
  ghost predicate ReadWakesNobody(p: Pipe, st: Step)
    requires Enabled(p, st)
  {
    && st.SRead? && (exists w :: WriterAsleep(p, w))
    && p.readOpen && |p.readers[st.id].got| < p.readers[st.id].wanted
    && p.readers[st.id].wanted - |p.readers[st.id].got| <= |p.buffer|
  }

  /** A reader is left asleep beside bytes by exactly those writes that complete while a reader
      sleeps: they return without waking anybody. */
  lemma ReaderIsLeftExactly(run: Run, st: Step)
    requires Valid(run) && Enabled(Final(run), st) && !ReaderLeft(Final(run))
    ensures ReaderLeft(Apply(Final(run), st)) <==> WriteWakesNobody(Final(run), st)
  {
    ReachableInv(run);
    ClosedOrAwake(run);
    var p, q := Final(run), Apply(Final(run), st);
    match st
    case SWrite(id) => WriteLeaves(p, id);
    case SRead(id) => ReadEmpties(p, id);
    case SClose(readSide) => CloseWakesEverybody(p, readSide);
    case _ =>
      assert q.buffer == p.buffer;
      forall r | ReaderAsleep(q, r) ensures ReaderAsleep(p, r) { }
  }

  lemma WriteLeaves(p: Pipe, id: CallId)
    requires Inv(p) && Enabled(p, SWrite(id)) && !ReaderLeft(p) && OpenOrAwake(p)
    ensures ReaderLeft(WriteSection(p, id)) <==> WriteWakesNobody(p, SWrite(id))
  {
    assert WriterOk(p, id);
    var q := WriteSection(p, id);
    if r :| ReaderAsleep(p, r) {
      assert p.buffer == [];
      if WriteWakesNobody(p, SWrite(id)) {
        assert |q.buffer| > 0 && ReaderAsleep(q, r);
      } else if p.writers[id].sent < |p.writers[id].data| {
        forall u ensures !ReaderAsleep(q, u) { }
      }
    } else {
      forall u ensures !ReaderAsleep(q, u) {
        assert !ReaderAsleep(p, u);
      }
    }
  }

  lemma ReadEmpties(p: Pipe, id: CallId)
    requires Inv(p) && Enabled(p, SRead(id)) && !ReaderLeft(p)
    ensures !ReaderLeft(ReadSection(p, id))
  {
    var q := ReadSection(p, id);
    if r :| ReaderAsleep(q, r) {
      if r != id { assert ReaderAsleep(p, r); }
    }
  }

  /** A writer is left asleep beside room by exactly those reads that complete while a writer
      sleeps. */
  lemma WriterIsLeftExactly(run: Run, st: Step)
    requires Valid(run) && Enabled(Final(run), st) && !WriterLeft(Final(run))
    ensures WriterLeft(Apply(Final(run), st)) <==> ReadWakesNobody(Final(run), st)
  {
    ReachableInv(run);
    ClosedOrAwake(run);
    var p, q := Final(run), Apply(Final(run), st);
    match st
    case SRead(id) => ReadLeaves(p, id);
    case SWrite(id) => WriteFills(p, id);
    case SClose(readSide) => CloseWakesEverybody(p, readSide);
    case _ =>
      assert q.buffer == p.buffer;
      forall w | WriterAsleep(q, w) ensures WriterAsleep(p, w) { }
  }

  lemma ReadLeaves(p: Pipe, id: CallId)
    requires Inv(p) && Enabled(p, SRead(id)) && !WriterLeft(p) && OpenOrAwake(p)
    ensures WriterLeft(ReadSection(p, id)) <==> ReadWakesNobody(p, SRead(id))
  {
    assert ReaderOk(p, id);
    var q := ReadSection(p, id);
    if w :| WriterAsleep(p, w) {
      assert |p.buffer| == p.capacity;
      if ReadWakesNobody(p, SRead(id)) {
        assert |q.buffer| < p.capacity && WriterAsleep(q, w);
      } else {
        assert |p.readers[id].got| < p.readers[id].wanted ==> forall u :: !WriterAsleep(q, u);
      }
    } else {
      forall u ensures !WriterAsleep(q, u) {
        assert !WriterAsleep(p, u);
      }
    }
  }

  lemma WriteFills(p: Pipe, id: CallId)
    requires Inv(p) && Enabled(p, SWrite(id)) && !WriterLeft(p)
    ensures !WriterLeft(WriteSection(p, id))
  {
    assert WriterOk(p, id);
    var q := WriteSection(p, id);
    if w :| WriterAsleep(q, w) {
      if w != id { assert WriterAsleep(p, w); }
    }
  }

  /** A reader asks for two bytes and goes to sleep; a writer sends two and returns. */
  function Forgotten(bufferSize: nat): Run {
    Then(Then(Then(Then(Create(bufferSize), SBeginRead(1, 2)), SRead(1)), SBeginWrite(1, [97, 98])), SWrite(1))
  }

  /** The reader sleeps on beside the bytes it has asked for, and the writer has returned. */
  lemma ReaderIsForgotten(bufferSize: nat)
    requires bufferSize >= 2
    ensures Valid(Forgotten(bufferSize))
    ensures var p := Final(Forgotten(bufferSize));
            && ReaderAsleep(p, 1) && p.readers[1].wanted == 2 && p.buffer == [97, 98]
            && p.writers[1].phase == Returned(EOK) && p.readOpen && p.writeOpen
  {
    var created := Create(bufferSize);
    assert Valid(created) && Final(created) == Created(bufferSize);
    NextStep(created, SBeginRead(1, 2));
    var asked := Then(created, SBeginRead(1, 2));
    NextStep(asked, SRead(1));
    var asleep := Then(asked, SRead(1));
    assert Final(asleep).readers[1] == ReadCall(2, [], Asleep) && Final(asleep).buffer == [];
    NextStep(asleep, SBeginWrite(1, [97, 98]));
    var sending := Then(asleep, SBeginWrite(1, [97, 98]));
    assert [97, 98][0..2] == [97, 98];
    NextStep(sending, SWrite(1));
  }

  lemma NextStep(run: Run, st: Step)
    requires Valid(run) && Enabled(Final(run), st)
    ensures Valid(Then(run, st)) && Final(Then(run, st)) == Apply(Final(run), st)
  {
  }
}
