/** One reader and one writer that make any number of calls, each after the one before it
    has returned: what the reader gets is, in order, what the writer has sent. */
module PipeStreams {
  import opened Bytes
  import opened PipeState
  import opened PipeRuns

  /** The read calls of a run in the order they were made. */
  function ReadCalls(run: Run): seq<CallId> {
    match run
    case Create(_) => []
    case Then(before, step) => ReadCalls(before) + (if step.SBeginRead? then [step.id] else [])
  }

  function WriteCalls(run: Run): seq<CallId> {
    match run
    case Create(_) => []
    case Then(before, step) => WriteCalls(before) + (if step.SBeginWrite? then [step.id] else [])
  }

  /** Every read call is made after all earlier ones have returned. */
  ghost predicate OneReader(run: Run) {
    run.Then? ==>
      && OneReader(run.before)
      && (run.step.SBeginRead? ==>
            forall id | id in Final(run.before).readers :: Final(run.before).readers[id].phase.Returned?)
  }

  ghost predicate OneWriter(run: Run) {
    run.Then? ==>
      && OneWriter(run.before)
      && (run.step.SBeginWrite? ==>
            forall id | id in Final(run.before).writers :: Final(run.before).writers[id].phase.Returned?)
  }

  /** The bytes that the calls have got, one call after the other. */
  function Received(readers: map<CallId, ReadCall>, ids: seq<CallId>): seq<byte>
    requires forall id | id in ids :: id in readers
  {
    if ids == [] then [] else Received(readers, ids[..|ids| - 1]) + readers[ids[|ids| - 1]].got
  }

  /** The bytes that the calls have sent, one call after the other. */
  function Sent(writers: map<CallId, WriteCall>, ids: seq<CallId>): seq<byte>
    requires forall id | id in ids :: id in writers && writers[id].sent <= |writers[id].data|
  {
    if ids == [] then []
    else
      var c := writers[ids[|ids| - 1]];
      Sent(writers, ids[..|ids| - 1]) + c.data[..c.sent]
  }

  /** The bytes that the calls were given. */
  function Given(writers: map<CallId, WriteCall>, ids: seq<CallId>): seq<byte>
    requires forall id | id in ids :: id in writers
  {
    if ids == [] then [] else Given(writers, ids[..|ids| - 1]) + writers[ids[|ids| - 1]].data
  }

  lemma {:induction false} ReceivedSame(a: map<CallId, ReadCall>, b: map<CallId, ReadCall>, ids: seq<CallId>)
    requires forall id | id in ids :: id in a && id in b && b[id].got == a[id].got
    ensures Received(a, ids) == Received(b, ids)
  {
    if ids != [] { ReceivedSame(a, b, ids[..|ids| - 1]); }
  }

  lemma {:induction false} SentSame(a: map<CallId, WriteCall>, b: map<CallId, WriteCall>, ids: seq<CallId>)
    requires forall id | id in ids :: id in a && a[id].sent <= |a[id].data|
    requires forall id | id in ids :: id in b && b[id].sent == a[id].sent && b[id].data == a[id].data
    ensures Sent(a, ids) == Sent(b, ids)
  {
    if ids != [] { SentSame(a, b, ids[..|ids| - 1]); }
  }

  // ---- What a step does to the calls --------------------------------------------

  /** The calls are the same ones and have got the same bytes; those that had returned
      still have. */
  ghost predicate ReadersKept(p: Pipe, q: Pipe) {
    && q.readers.Keys == p.readers.Keys && q.read == p.read
    && forall id | id in p.readers ::
         && q.readers[id].got == p.readers[id].got
         && (p.readers[id].phase.Returned? ==> q.readers[id].phase.Returned?)
  }

  ghost predicate WritersKept(p: Pipe, q: Pipe) {
    && q.writers.Keys == p.writers.Keys && q.written == p.written
    && forall id | id in p.writers ::
         && q.writers[id].sent == p.writers[id].sent && q.writers[id].data == p.writers[id].data
         && (p.writers[id].phase.Returned? ==> q.writers[id].phase.Returned?)
  }

  /** Reader `id` has got `bytes` more; nothing else has happened to the readers. */
  ghost predicate ReaderGot(p: Pipe, q: Pipe, id: CallId, bytes: seq<byte>)
    requires id in p.readers
  {
    && q.readers.Keys == p.readers.Keys && q.read == p.read + Tagged(id, bytes)
    && q.readers[id].got == p.readers[id].got + bytes
    && forall other | other in p.readers && other != id :: q.readers[other] == p.readers[other]
  }

  /** Writer `id` has sent the next `bytes` of its data. */
  ghost predicate WriterSent(p: Pipe, q: Pipe, id: CallId, bytes: seq<byte>)
    requires id in p.writers
  {
    && q.writers.Keys == p.writers.Keys && q.written == p.written + Tagged(id, bytes)
    && q.writers[id].data == p.writers[id].data
    && p.writers[id].sent <= q.writers[id].sent <= |p.writers[id].data|
    && p.writers[id].data[p.writers[id].sent..q.writers[id].sent] == bytes
    && forall other | other in p.writers && other != id :: q.writers[other] == p.writers[other]
  }

  lemma ReadSectionMoves(p: Pipe, id: CallId) returns (bytes: seq<byte>)
    requires id in p.readers
    ensures ReaderGot(p, ReadSection(p, id), id, bytes) && WritersKept(p, ReadSection(p, id))
  {
    var c := p.readers[id];
    if |c.got| >= c.wanted || !p.readOpen {
      bytes := [];
      assert p.read + Tagged(id, []) == p.read && c.got + [] == c.got;
    } else {
      bytes := p.buffer[..Min(|p.buffer|, c.wanted - |c.got|)];
    }
  }

  lemma WriteSectionMoves(p: Pipe, id: CallId) returns (bytes: seq<byte>)
    requires id in p.writers && p.writers[id].sent <= |p.writers[id].data|
    ensures WriterSent(p, WriteSection(p, id), id, bytes) && ReadersKept(p, WriteSection(p, id))
  {
    hide Tagged;
    var c := p.writers[id];
    if c.sent >= |c.data| || !p.writeOpen {
      bytes := [];
      assert p.written + Tagged(id, []) == p.written;
    } else {
      bytes := c.data[c.sent..c.sent + Min(Room(p), |c.data| - c.sent)];
    }
  }

  lemma OtherStepsKeepReaders(p: Pipe, st: Step)
    requires Inv(p) && Enabled(p, st) && !st.SBeginRead? && !st.SRead?
    ensures ReadersKept(p, Apply(p, st))
  {
    if st.SWrite? {
      assert WriterOk(p, st.id);
      var _ := WriteSectionMoves(p, st.id);
    }
  }

  lemma OtherStepsKeepWriters(p: Pipe, st: Step)
    requires Inv(p) && Enabled(p, st) && !st.SBeginWrite? && !st.SWrite?
    ensures WritersKept(p, Apply(p, st))
  {
    if st.SRead? { var _ := ReadSectionMoves(p, st.id); }
  }

  // ---- The reader ---------------------------------------------------------------

  /** The calls are the ones listed, only the last may still be going on, and what has left
      the buffer is what they have got, call by call. */
  ghost predicate ReaderInOrder(p: Pipe, ids: seq<CallId>) {
    && (forall id :: id in p.readers <==> id in ids)
    && (forall id | id in p.readers && !p.readers[id].phase.Returned? :: id == ids[|ids| - 1])
    && (forall i | 0 <= i < |ids| - 1 :: ids[i] != ids[|ids| - 1])
    && Untagged(p.read) == Received(p.readers, ids)
  }

  lemma ReaderGoesOn(p: Pipe, q: Pipe, ids: seq<CallId>, id: CallId, bytes: seq<byte>)
    requires ReaderInOrder(p, ids) && id in p.readers && !p.readers[id].phase.Returned?
    requires ReaderGot(p, q, id, bytes)
    ensures ReaderInOrder(q, ids)
  {
    var n := |ids| - 1;
    assert ids[n] == id;
    ReceivedSame(p.readers, q.readers, ids[..n]);
    assert Untagged(q.read) == Untagged(p.read) + bytes;
    assert Received(q.readers, ids) == Received(p.readers, ids[..n]) + (p.readers[id].got + bytes);
  }

  lemma ReaderBegins(p: Pipe, q: Pipe, ids: seq<CallId>, id: CallId, wanted: int)
    requires ReaderInOrder(p, ids) && id !in p.readers && q == BeginRead(p, id, wanted)
    requires forall other | other in p.readers :: p.readers[other].phase.Returned?
    ensures ReaderInOrder(q, ids + [id])
  {
    ReceivedSame(p.readers, q.readers, ids);
    assert (ids + [id])[..|ids|] == ids;
  }

  lemma ReaderStep(p: Pipe, st: Step, ids: seq<CallId>)
    requires Inv(p) && Enabled(p, st) && ReaderInOrder(p, ids)
    requires st.SBeginRead? ==> forall id | id in p.readers :: p.readers[id].phase.Returned?
    ensures ReaderInOrder(Apply(p, st), ids + (if st.SBeginRead? then [st.id] else []))
  {
    if st.SBeginRead? {
      ReaderBegins(p, Apply(p, st), ids, st.id, st.wanted);
    } else if st.SRead? {
      var bytes := ReadSectionMoves(p, st.id);
      ReaderGoesOn(p, Apply(p, st), ids, st.id, bytes);
      assert ids + [] == ids;
    } else {
      ReaderIsKept(p, Apply(p, st), st, ids);
    }
  }

  lemma {:induction false} ReaderStaysInOrder(run: Run)
    requires Valid(run) && OneReader(run)
    ensures ReaderInOrder(Final(run), ReadCalls(run))
  {
    match run
    case Create(_) =>
    case Then(before, step) =>
      ReaderStaysInOrder(before);
      ReachableInv(before);
      ReaderStep(Final(before), step, ReadCalls(before));
  }

  lemma ReaderIsKept(p: Pipe, q: Pipe, step: Step, ids: seq<CallId>)
    requires Inv(p) && Enabled(p, step) && !step.SBeginRead? && !step.SRead?
    requires q == Apply(p, step) && ReaderInOrder(p, ids)
    ensures ReaderInOrder(q, ids + [])
  {
    OtherStepsKeepReaders(p, step);
    ReceivedSame(p.readers, q.readers, ids);
    assert ids + [] == ids;
  }

  // ---- The writer ---------------------------------------------------------------

  ghost predicate WriterInOrder(p: Pipe, ids: seq<CallId>) {
    && (forall id :: id in p.writers <==> id in ids)
    && (forall id | id in p.writers :: p.writers[id].sent <= |p.writers[id].data|)
    && (forall id | id in p.writers && !p.writers[id].phase.Returned? :: id == ids[|ids| - 1])
    && (forall i | 0 <= i < |ids| - 1 :: ids[i] != ids[|ids| - 1])
    && Untagged(p.written) == Sent(p.writers, ids)
  }

  lemma WriterGoesOn(p: Pipe, q: Pipe, ids: seq<CallId>, id: CallId, bytes: seq<byte>)
    requires WriterInOrder(p, ids) && id in p.writers && !p.writers[id].phase.Returned?
    requires WriterSent(p, q, id, bytes)
    ensures WriterInOrder(q, ids)
  {
    var n := |ids| - 1;
    assert ids[n] == id;
    SentSame(p.writers, q.writers, ids[..n]);
    assert Untagged(q.written) == Untagged(p.written) + bytes;
    var c, d := p.writers[id], q.writers[id];
    assert c.data[..d.sent] == c.data[..c.sent] + c.data[c.sent..d.sent];
    assert Sent(q.writers, ids) == Sent(p.writers, ids[..n]) + (c.data[..c.sent] + bytes);
  }

  lemma WriterBegins(p: Pipe, q: Pipe, ids: seq<CallId>, id: CallId, data: seq<byte>)
    requires WriterInOrder(p, ids) && id !in p.writers && q == BeginWrite(p, id, data)
    requires forall other | other in p.writers :: p.writers[other].phase.Returned?
    ensures WriterInOrder(q, ids + [id])
  {
    SentSame(p.writers, q.writers, ids);
    assert (ids + [id])[..|ids|] == ids;
    assert data[..0] == [];
  }

  lemma WriterIsKept(p: Pipe, q: Pipe, step: Step, ids: seq<CallId>)
    requires Inv(p) && Enabled(p, step) && !step.SBeginWrite? && !step.SWrite?
    requires q == Apply(p, step) && WriterInOrder(p, ids)
    ensures WriterInOrder(q, ids + [])
  {
    OtherStepsKeepWriters(p, step);
    SentSame(p.writers, q.writers, ids);
    assert ids + [] == ids;
  }

  lemma WriterStep(p: Pipe, st: Step, ids: seq<CallId>)
    requires Inv(p) && Enabled(p, st) && WriterInOrder(p, ids)
    requires st.SBeginWrite? ==> forall id | id in p.writers :: p.writers[id].phase.Returned?
    ensures WriterInOrder(Apply(p, st), ids + (if st.SBeginWrite? then [st.id] else []))
  {
    if st.SBeginWrite? {
      WriterBegins(p, Apply(p, st), ids, st.id, st.data);
    } else if st.SWrite? {
      var bytes := WriteSectionMoves(p, st.id);
      WriterGoesOn(p, Apply(p, st), ids, st.id, bytes);
      assert ids + [] == ids;
    } else {
      WriterIsKept(p, Apply(p, st), st, ids);
    }
  }

  lemma {:induction false} WriterStaysInOrder(run: Run)
    requires Valid(run) && OneWriter(run)
    ensures WriterInOrder(Final(run), WriteCalls(run))
  {
    match run
    case Create(_) =>
    case Then(before, step) =>
      WriterStaysInOrder(before);
      ReachableInv(before);
      WriterStep(Final(before), step, WriteCalls(before));
  }

  // ---- The stream ---------------------------------------------------------------

  /** Each write call but the last has sent all it was given. */
  predicate AllSent(writers: map<CallId, WriteCall>, ids: seq<CallId>) {
    forall i | 0 <= i < |ids| - 1 ::
      ids[i] in writers && writers[ids[i]].sent == |writers[ids[i]].data|
  }

  lemma {:induction false} SentIsGiven(writers: map<CallId, WriteCall>, ids: seq<CallId>)
    requires forall id | id in ids :: id in writers && writers[id].sent == |writers[id].data|
    ensures Sent(writers, ids) == Given(writers, ids)
  {
    if ids != [] {
      SentIsGiven(writers, ids[..|ids| - 1]);
      var c := writers[ids[|ids| - 1]];
      assert c.data[..c.sent] == c.data;
    }
  }

  lemma SentIsPrefix(writers: map<CallId, WriteCall>, ids: seq<CallId>)
    requires forall id | id in ids :: id in writers && writers[id].sent <= |writers[id].data|
    requires AllSent(writers, ids)
    ensures Sent(writers, ids) <= Given(writers, ids)
  {
    if ids != [] {
      var n := |ids| - 1;
      forall id | id in ids[..n] ensures writers[id].sent == |writers[id].data| {
        var i :| 0 <= i < n && ids[i] == id;
      }
      SentIsGiven(writers, ids[..n]);
    }
  }

  /** With one reader and one writer, each making any number of calls one after the other,
      what the reader has got so far and what is in the buffer is what the writer has sent
      so far; it is a prefix of what the writer was given, unless a write call has given up
      before its end. */
  lemma SingleStream(run: Run)
    requires Valid(run) && OneReader(run) && OneWriter(run)
    ensures var p := Final(run);
            && (forall id | id in ReadCalls(run) :: id in p.readers)
            && (forall id | id in WriteCalls(run) :: id in p.writers && p.writers[id].sent <= |p.writers[id].data|)
            && Received(p.readers, ReadCalls(run)) + p.buffer == Sent(p.writers, WriteCalls(run))
            && (AllSent(p.writers, WriteCalls(run)) ==>
                  Received(p.readers, ReadCalls(run)) <= Given(p.writers, WriteCalls(run)))
  {
    ReaderStaysInOrder(run);
    WriterStaysInOrder(run);
    BytesAreConserved(run);
    var p := Final(run);
    if AllSent(p.writers, WriteCalls(run)) { SentIsPrefix(p.writers, WriteCalls(run)); }
  }
}
