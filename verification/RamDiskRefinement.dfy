/** The RAM disk behaves as a flat array of blocks that starts out as zeros. */
module RamDiskRefinement {
  import opened Arithmetic
  import opened Bytes
  import opened Sequences
  import opened RamDiskState

  ghost predicate Aligned(first: nat, m: nat) {
    exists k: nat :: first == k * m
  }

  /** Extents are in ascending order, apart from each other, and start on the disk, and the
      numbers of their blocks do not wrap around. */
  ghost predicate Sparse(d: Disk) {
    && Sized(d) && Allocatable(d)
    && (forall i | 0 <= i < |d.extents| ::
          d.extents[i].first < d.blockCount && d.extents[i].first + d.extentBlockCount < UINT32_RANGE)
    && (forall i, j | 0 <= i < j < |d.extents| :: d.extents[i].first + d.extentBlockCount <= d.extents[j].first)
  }

  ghost predicate ExtentsAligned(d: Disk) {
    forall i | 0 <= i < |d.extents| :: Aligned(d.extents[i].first, d.extentBlockCount)
  }

  /** The block number behind the disk's last extent fits 32 bits. */
  predicate Addressable(d: Disk)
    requires d.extentBlockCount >= 1
  {
    d.blockCount >= 1 ==> RoundDown(d.blockCount - 1, d.extentBlockCount) + d.extentBlockCount < UINT32_RANGE
  }

  /** Two aligned extents are the same or apart. */
  lemma AlignedApart(a: nat, b: nat, m: nat)
    requires Aligned(a, m) && Aligned(b, m) && a < b
    ensures a + m <= b
  {
    var k: nat :| a == k * m;
    var l: nat :| b == l * m;
    if l <= k { MulMonotone(l, k, m); } else { MulMonotone(k + 1, l, m); }
    assert (k + 1) * m == k * m + m;
  }

  lemma RoundDownAligned(n: nat, m: nat)
    requires m >= 1
    ensures Aligned(RoundDown(n, m), m)
  {
    assert RoundDown(n, m) == (n / m) * m;
  }

  lemma RoundDownMonotone(n: nat, l: nat, m: nat)
    requires m >= 1 && n <= l
    ensures RoundDown(n, m) <= RoundDown(l, m)
  {
    RoundDownAligned(n, m);
    RoundDownAligned(l, m);
    if RoundDown(l, m) < RoundDown(n, m) { AlignedApart(RoundDown(l, m), RoundDown(n, m), m); }
  }

  /** On a sparse disk an extent covers its blocks and no others. */
  lemma CoversExactly(d: Disk, i: nat, lba: nat)
    requires Sparse(d) && i < |d.extents|
    ensures Covers(d, d.extents[i], lba) <==> d.extents[i].first <= lba < d.extents[i].first + d.extentBlockCount
  {
  }

  /** The extent that holds a block is found, wherever it is in the list. */
  lemma FindsExtent(d: Disk, lba: nat, i: nat)
    requires Sparse(d) && i < |d.extents|
    requires d.extents[i].first <= lba < d.extents[i].first + d.extentBlockCount
    ensures Search(d, lba, 0) == i && Present(d, lba)
  {
    CoversExactly(d, i, lba);
  }

  lemma NoExtent(d: Disk, lba: nat)
    requires Sparse(d)
    requires forall i | 0 <= i < |d.extents| :: !(d.extents[i].first <= lba < d.extents[i].first + d.extentBlockCount)
    ensures !Present(d, lba)
  {
    var r := Search(d, lba, 0);
    if r < |d.extents| { CoversExactly(d, r, lba); }
  }

  // ---- Writing ------------------------------------------------------------------

  /** A new extent starting at `first` lies behind the extents before it and ends before
      those after it. */
  lemma PlacedApart(d: Disk, lba: nat, first: nat, k: nat)
    requires Sparse(d) && ExtentsAligned(d) && !Present(d, lba) && k < |d.extents|
    requires Aligned(first, d.extentBlockCount) && first <= lba < first + d.extentBlockCount
    ensures if k < Search(d, lba, 0) then d.extents[k].first + d.extentBlockCount <= first
            else first + d.extentBlockCount <= d.extents[k].first
  {
    var f, i := d.extents[k].first, Search(d, lba, 0);
    CoversExactly(d, k, lba);
    if k < i {
      assert f < first;
      AlignedApart(f, first, d.extentBlockCount);
    } else {
      assert lba < d.extents[i].first <= f;
      AlignedApart(first, f, d.extentBlockCount);
    }
  }

  lemma InsertedSparse(d: Disk, r: Disk, i: nat, e: Extent)
    requires Sparse(d) && i <= |d.extents| && r == d.(extents := r.extents)
    requires IsInsertion(d.extents, i, e, r.extents)
    requires |e.data| == DataSize(d)
    requires e.first < d.blockCount && e.first + d.extentBlockCount < UINT32_RANGE
    requires forall k | 0 <= k < i :: d.extents[k].first + d.extentBlockCount <= e.first
    requires forall k | i <= k < |d.extents| :: e.first + d.extentBlockCount <= d.extents[k].first
    ensures Sparse(r)
  {
    hide RoomFor;
    forall k | 0 <= k < |r.extents|
      ensures r.extents[k] == if k < i then d.extents[k] else if k == i then e else d.extents[k - 1]
    {
    }
  }

  lemma AddExtentSparse(d: Disk, lba: nat)
    requires Sparse(d) && ExtentsAligned(d) && Addressable(d) && lba < d.blockCount && !Present(d, lba)
    ensures var r, i := AddExtent(d, lba), Search(d, lba, 0);
            && Sparse(r) && ExtentsAligned(r) && |r.extents| == |d.extents| + 1
            && r.extents[i].first <= lba < r.extents[i].first + d.extentBlockCount
  {
    hide RoomFor, RoundDown, Covers;
    var m, i := d.extentBlockCount, Search(d, lba, 0);
    var e := Extent(RoundDown(lba, m), Zeros(DataSize(d)));
    RoundDownAligned(lba, m);
    RoundDownMonotone(lba, d.blockCount - 1, m);
    forall k | 0 <= k < |d.extents|
      ensures if k < i then d.extents[k].first + m <= e.first else e.first + m <= d.extents[k].first
    {
      PlacedApart(d, lba, e.first, k);
    }
    InsertAtInserts(d.extents, i, e);
    InsertedSparse(d, AddExtent(d, lba), i, e);
  }

  lemma WriteAtSparse(d: Disk, i: nat, lba: nat, block: seq<byte>)
    requires Sparse(d) && i < |d.extents| && |block| == d.blockSize
    requires d.extents[i].first <= lba < d.extents[i].first + d.extentBlockCount
    requires InExtent(d, d.extents[i], lba)
    ensures Sparse(WriteAt(d, i, lba, block))
    ensures ExtentsAligned(d) ==> ExtentsAligned(WriteAt(d, i, lba, block))
  {
    var r := WriteAt(d, i, lba, block);
    assert forall k | 0 <= k < |d.extents| :: r.extents[k].first == d.extents[k].first;
  }

  /** The bytes of block `lba` in its extent's data. */
  function Slice(e: Extent, lba: nat, blockSize: nat): (r: seq<byte>)
    requires 0 <= Offset(e, lba, blockSize) && Offset(e, lba, blockSize) + blockSize <= |e.data|
    ensures |r| == blockSize
  {
    e.data[Offset(e, lba, blockSize)..Offset(e, lba, blockSize) + blockSize]
  }

  lemma OffsetsApart(e: Extent, a: nat, b: nat, blockSize: nat)
    requires e.first <= a && e.first <= b && a != b
    ensures || Offset(e, a, blockSize) + blockSize <= Offset(e, b, blockSize)
            || Offset(e, b, blockSize) + blockSize <= Offset(e, a, blockSize)
  {
    if a < b { MulMonotone(a - e.first + 1, b - e.first, blockSize); }
    else { MulMonotone(b - e.first + 1, a - e.first, blockSize); }
  }

  /** Overwriting one block of an extent leaves the other blocks of the extent alone. */
  lemma OverwriteOther(e: Extent, e': Extent, lba: nat, block: seq<byte>, other: nat, n: nat)
    requires e.first <= lba && e.first <= other && |block| == n && |e.data| == |e'.data| && e.first == e'.first
    requires 0 <= Offset(e, lba, n) && Offset(e, lba, n) + n <= |e.data|
    requires 0 <= Offset(e, other, n) && Offset(e, other, n) + n <= |e.data|
    requires e'.data == Overwritten(e.data, Offset(e, lba, n), block)
    ensures Slice(e', other, n) == if other == lba then block else Slice(e, other, n)
  {
    if other != lba { OffsetsApart(e, lba, other, n); }
  }

  /** What a block reads as, said about the extents without the search. */
  lemma ReadsSlice(d: Disk, lba: nat, i: nat)
    requires Sparse(d) && lba < d.blockCount && i < |d.extents|
    requires d.extents[i].first <= lba < d.extents[i].first + d.extentBlockCount
    ensures 0 <= Offset(d.extents[i], lba, d.blockSize)
    ensures Offset(d.extents[i], lba, d.blockSize) + d.blockSize <= |d.extents[i].data|
    ensures GetBlock(d, lba) == Ok(Slice(d.extents[i], lba, d.blockSize))
  {
    FindsExtent(d, lba, i);
    OffsetInside(d, d.extents[i], lba);
  }

  lemma OverwriteSame(d: Disk, i: nat, lba: nat, block: seq<byte>, other: nat)
    requires Sparse(d) && i < |d.extents| && |block| == d.blockSize
    requires d.extents[i].first <= lba < d.extents[i].first + d.extentBlockCount
    requires InExtent(d, d.extents[i], lba)
    requires d.extents[i].first <= other < d.extents[i].first + d.extentBlockCount
    ensures var e, e' := d.extents[i], WriteAt(d, i, lba, block).extents[i];
            && 0 <= Offset(e, other, d.blockSize) && Offset(e, other, d.blockSize) + d.blockSize <= |e.data|
            && |e.data| == |e'.data| && e.first == e'.first
            && Slice(e', other, d.blockSize) == if other == lba then block else Slice(e, other, d.blockSize)
  {
    OffsetInside(d, d.extents[i], lba);
    OffsetInside(d, d.extents[i], other);
    OverwriteOther(d.extents[i], WriteAt(d, i, lba, block).extents[i], lba, block, other, d.blockSize);
  }

  /** A write changes the block it is for and no other. */
  lemma WriteAtReads(d: Disk, i: nat, lba: nat, block: seq<byte>, other: nat)
    requires Sparse(d) && i < |d.extents| && |block| == d.blockSize
    requires d.extents[i].first <= lba < d.extents[i].first + d.extentBlockCount
    requires InExtent(d, d.extents[i], lba)
    requires other < d.blockCount
    ensures GetBlock(WriteAt(d, i, lba, block), other) == if other == lba then Ok(block) else GetBlock(d, other)
  {
    var r := WriteAt(d, i, lba, block);
    WriteAtSparse(d, i, lba, block);
    if k :| 0 <= k < |d.extents| && d.extents[k].first <= other < d.extents[k].first + d.extentBlockCount {
      ReadsSlice(d, other, k);
      ReadsSlice(r, other, k);
      if k == i { OverwriteSame(d, i, lba, block, other); }
    } else {
      NoExtent(d, other);
      NoExtent(r, other);
    }
  }

  /** A new extent changes no block: its own blocks read as zeros before and after. */
  lemma InsertedReads(d: Disk, r: Disk, i: nat, e: Extent, lba: nat)
    requires Sparse(d) && Sparse(r) && r == d.(extents := r.extents) && lba < d.blockCount
    requires IsInsertion(d.extents, i, e, r.extents) && e.data == Zeros(DataSize(d))
    ensures GetBlock(r, lba) == GetBlock(d, lba)
  {
    hide Search, Covers, RoomFor, Present;
    if k :| 0 <= k < |d.extents| && d.extents[k].first <= lba < d.extents[k].first + d.extentBlockCount {
      ReadsSlice(d, lba, k);
      ReadsSlice(r, lba, if k < i then k else k + 1);
    } else {
      NoExtent(d, lba);
      if e.first <= lba < e.first + d.extentBlockCount {
        ReadsSlice(r, lba, i);
        OffsetInside(d, e, lba);
        assert Slice(e, lba, d.blockSize) == Zeros(d.blockSize);
      } else {
        forall k | 0 <= k < |r.extents|
          ensures !(r.extents[k].first <= lba < r.extents[k].first + d.extentBlockCount)
        {
          assert k != i ==> r.extents[k] == d.extents[if k < i then k else k - 1];
        }
        NoExtent(r, lba);
      }
    }
  }

  lemma AddExtentReads(d: Disk, lba: nat, other: nat)
    requires Sparse(d) && other < d.blockCount && Sparse(AddExtent(d, lba))
    ensures GetBlock(AddExtent(d, lba), other) == GetBlock(d, other)
  {
    var i := Search(d, lba, 0);
    var e := Extent(RoundDown(lba, d.extentBlockCount), Zeros(DataSize(d)));
    InsertAtInserts(d.extents, i, e);
    InsertedReads(d, AddExtent(d, lba), i, e, other);
  }

  /** On a sparse disk a write that gets an extent stays inside it. */
  lemma PutIsInside(d: Disk, lba: nat, block: seq<byte>, memory: bool)
    requires Sparse(d) && ExtentsAligned(d) && Addressable(d) && |block| == d.blockSize
    requires lba < d.blockCount && (Present(d, lba) || memory)
    ensures var p, i := if Present(d, lba) then d else AddExtent(d, lba), Search(d, lba, 0);
            && Sparse(p) && ExtentsAligned(p) && i < |p.extents| && p == d.(extents := p.extents)
            && p.extents[i].first <= lba < p.extents[i].first + p.extentBlockCount
            && InExtent(p, p.extents[i], lba) && PutBlock(d, lba, block, memory) == Ok(WriteAt(p, i, lba, block))
  {
    var p, i := if Present(d, lba) then d else AddExtent(d, lba), Search(d, lba, 0);
    if Present(d, lba) { CoversBelow(d, d.extents[i], lba); } else { AddExtentSparse(d, lba); }
    OffsetInside(p, p.extents[i], lba);
  }

  /** The disk after a successful write: well formed, and every block but the written one
      reads as before. */
  lemma PutKeeps(d: Disk, lba: nat, block: seq<byte>, memory: bool)
    requires Sparse(d) && ExtentsAligned(d) && Addressable(d) && |block| == d.blockSize
    requires PutBlock(d, lba, block, memory).Ok?
    ensures var r := PutBlock(d, lba, block, memory).value;
            && Sparse(r) && ExtentsAligned(r) && r == d.(extents := r.extents)
            && forall other: nat | other < d.blockCount ::
                 GetBlock(r, other) == if other == lba then Ok(block) else GetBlock(d, other)
  {
    PutIsInside(d, lba, block, memory);
    var r, i := PutBlock(d, lba, block, memory).value, Search(d, lba, 0);
    var p := if Present(d, lba) then d else AddExtent(d, lba);
    WriteAtSparse(p, i, lba, block);
    forall other: nat | other < d.blockCount
      ensures GetBlock(r, other) == if other == lba then Ok(block) else GetBlock(d, other)
    {
      WriteAtReads(p, i, lba, block, other);
      if !Present(d, lba) { AddExtentReads(d, lba, other); }
    }
  }

  /** On a sparse disk no write leaves its extent, and no read either. */
  lemma NeverStray(d: Disk, lba: nat, block: seq<byte>, memory: bool)
    requires Sparse(d) && ExtentsAligned(d) && Addressable(d) && |block| == d.blockSize
    ensures PutBlock(d, lba, block, memory) != Err(Stray) && GetBlock(d, lba) != Err(Stray)
  {
    if lba < d.blockCount {
      if Present(d, lba) || memory { PutIsInside(d, lba, block, memory); }
      if Present(d, lba) { ReadsSomething(d, lba); }
    }
  }

  lemma ReadsSomething(d: Disk, lba: nat)
    requires Sparse(d) && lba < d.blockCount && Present(d, lba)
    ensures GetBlock(d, lba).Ok?
  {
    var i := Search(d, lba, 0);
    CoversBelow(d, d.extents[i], lba);
    OffsetInside(d, d.extents[i], lba);
  }

  // ---- Runs ---------------------------------------------------------------------

  datatype Op = Get(lba: nat) | Put(lba: nat, block: seq<byte>, memory: bool)

  datatype Outcome = Read(block: seq<byte>) | Written | Failed(error: Error)

  ghost predicate BlocksFit(ops: seq<Op>, blockSize: nat) {
    forall op | op in ops :: op.Put? ==> |op.block| == blockSize
  }

  function AfterOp(d: Disk, op: Op): (r: Disk)
    requires Sized(d) && (op.Put? ==> |op.block| == d.blockSize)
    ensures Sized(r)
  {
    if op.Put? && PutBlock(d, op.lba, op.block, op.memory).Ok?
    then PutBlock(d, op.lba, op.block, op.memory).value else d
  }

  function OutcomeOf(d: Disk, op: Op): Outcome
    requires Sized(d) && (op.Put? ==> |op.block| == d.blockSize)
  {
    match op
    case Get(lba) => (match GetBlock(d, lba) case Ok(b) => Read(b) case Err(e) => Failed(e))
    case Put(lba, block, memory) =>
      (match PutBlock(d, lba, block, memory) case Ok(_) => Written case Err(e) => Failed(e))
  }

  /** What an array of blocks may answer: a read returns the block, a write is done unless
      there is no such block or no memory. */
  predicate Allowed(flat: seq<seq<byte>>, op: Op, outcome: Outcome) {
    match op
    case Get(lba) => outcome == (if lba < |flat| then Read(flat[lba]) else Failed(EIO))
    case Put(lba, _, memory) =>
      && (lba >= |flat| <==> outcome == Failed(EIO))
      && (outcome == Written || outcome == Failed(EIO) || (outcome == Failed(ENOMEM) && !memory))
  }

  /** A write that was reported as done replaces its block; nothing else changes anything. */
  function FlatAfter(flat: seq<seq<byte>>, op: Op, outcome: Outcome): seq<seq<byte>> {
    if op.Put? && op.lba < |flat| && outcome == Written then flat[op.lba := op.block] else flat
  }

  /** The reference: an array of blocks. */
  ghost predicate FlatRun(flat: seq<seq<byte>>, ops: seq<Op>, outcomes: seq<Outcome>)
    decreases ops
  {
    && |ops| == |outcomes|
    && (ops != [] ==>
          && Allowed(flat, ops[0], outcomes[0])
          && FlatRun(FlatAfter(flat, ops[0], outcomes[0]), ops[1..], outcomes[1..]))
  }

  function Outcomes(d: Disk, ops: seq<Op>): (r: seq<Outcome>)
    requires Sized(d) && BlocksFit(ops, d.blockSize)
    decreases ops
  {
    if ops == [] then []
    else
      assert ops[0] in ops;
      [OutcomeOf(d, ops[0])] + Outcomes(AfterOp(d, ops[0]), ops[1..])
  }

  /** The disk after any sequence of reads and writes. */
  function After(d: Disk, ops: seq<Op>): (r: Disk)
    requires Sized(d) && BlocksFit(ops, d.blockSize)
    decreases ops
  {
    if ops == [] then d
    else
      assert ops[0] in ops;
      After(AfterOp(d, ops[0]), ops[1..])
  }

  /** The extents of a disk stay sorted, apart from each other and aligned. */
  lemma {:induction false} StaysSparse(d: Disk, ops: seq<Op>)
    requires Sparse(d) && ExtentsAligned(d) && Addressable(d) && BlocksFit(ops, d.blockSize)
    ensures Sparse(After(d, ops)) && ExtentsAligned(After(d, ops))
    decreases ops
  {
    if ops != [] {
      assert ops[0] in ops;
      var op := ops[0];
      if op.Put? && PutBlock(d, op.lba, op.block, op.memory).Ok? {
        PutKeeps(d, op.lba, op.block, op.memory);
      }
      StaysSparse(AfterOp(d, op), ops[1..]);
    }
  }

  /** The disk stores the blocks of `flat`. */
  ghost predicate Stores(d: Disk, flat: seq<seq<byte>>)
    requires Sized(d)
  {
    |flat| == d.blockCount && forall lba: nat | lba < |flat| :: GetBlock(d, lba) == Ok(flat[lba])
  }

  lemma OpRefinesFlat(d: Disk, flat: seq<seq<byte>>, op: Op)
    requires Sparse(d) && ExtentsAligned(d) && Addressable(d) && Stores(d, flat)
    requires op.Put? ==> |op.block| == d.blockSize
    ensures Allowed(flat, op, OutcomeOf(d, op))
    ensures var r := AfterOp(d, op);
            && Sparse(r) && ExtentsAligned(r) && Addressable(r) && r.blockSize == d.blockSize
            && Stores(r, FlatAfter(flat, op, OutcomeOf(d, op)))
  {
    hide Search, Covers, RoomFor, RoundDown, RamDiskState.WriteAt, AddExtent;
    if op.Put? {
      NeverStray(d, op.lba, op.block, op.memory);
      if PutBlock(d, op.lba, op.block, op.memory).Ok? { PutKeeps(d, op.lba, op.block, op.memory); }
    }
  }

  lemma {:induction false} RunRefinesFlat(d: Disk, flat: seq<seq<byte>>, ops: seq<Op>)
    requires Sparse(d) && ExtentsAligned(d) && Addressable(d)
    requires Stores(d, flat) && BlocksFit(ops, d.blockSize)
    ensures FlatRun(flat, ops, Outcomes(d, ops))
    decreases ops
  {
    hide Stores, ExtentsAligned, Addressable, AfterOp, OutcomeOf, Allowed, FlatAfter;
    if ops != [] {
      assert ops[0] in ops;
      var r := AfterOp(d, ops[0]);
      OpRefinesFlat(d, flat, ops[0]);
      RunRefinesFlat(r, FlatAfter(flat, ops[0], OutcomeOf(d, ops[0])), ops[1..]);
      assert Outcomes(d, ops)[1..] == Outcomes(r, ops[1..]);
    }
  }

  /** Any sequence of reads and writes on a new disk behaves as on an array of zeroed
      blocks. */
  lemma NewDiskIsFlat(blockSize: nat, blockCount: nat, extentBlockCount: nat, headerSize: nat, ops: seq<Op>)
    requires blockCount >= 1 && extentBlockCount >= 1 && BlocksFit(ops, blockSize)
    requires Addressable(Created(blockSize, blockCount, extentBlockCount, headerSize))
    requires Allocatable(Created(blockSize, blockCount, extentBlockCount, headerSize))
    ensures var d := Created(blockSize, blockCount, extentBlockCount, headerSize);
            FlatRun(seq(blockCount, _ => Zeros(blockSize)), ops, Outcomes(d, ops))
  {
    var d := Created(blockSize, blockCount, extentBlockCount, headerSize);
    RunRefinesFlat(d, seq(blockCount, _ => Zeros(blockSize)), ops);
  }

  // ---- Disks too large for 32-bit block numbers ---------------------------------

  /** The first write to a disk puts its block into the first extent. */
  lemma FirstWrite(d: Disk, lba: nat, block: seq<byte>)
    requires d.extentBlockCount >= 1 && d.extents == [] && lba < d.blockCount && |block| == d.blockSize
    ensures var p := AddExtent(d, lba);
            && p == d.(extents := [Extent(RoundDown(lba, d.extentBlockCount), Zeros(DataSize(d)))])
            && PutBlock(d, lba, block, true)
               == if InExtent(p, p.extents[0], lba) then Ok(WriteAt(p, 0, lba, block)) else Err(Stray)
  {
    assert Search(d, lba, 0) == 0;
  }

  /** On a disk that is not addressable the last block cannot be read back: its extent is
      never found, so it reads as zeros after any write. */
  lemma NotAddressableLosesWrites(blockSize: nat, blockCount: nat, extentBlockCount: nat, headerSize: nat,
                                  block: seq<byte>)
    requires 1 <= blockCount < UINT32_RANGE && extentBlockCount >= 1 && |block| == blockSize
    requires !Addressable(Created(blockSize, blockCount, extentBlockCount, headerSize))
    requires Allocatable(Created(blockSize, blockCount, extentBlockCount, headerSize))
    ensures var d := Created(blockSize, blockCount, extentBlockCount, headerSize);
            var r := PutBlock(d, blockCount - 1, block, true);
            r.Ok? && GetBlock(r.value, blockCount - 1) == Ok(Zeros(blockSize))
  {
    var d := Created(blockSize, blockCount, extentBlockCount, headerSize);
    var lba, m := blockCount - 1, d.extentBlockCount;
    var first := RoundDown(lba, m);
    WrapsBelow(first + m, first);
    FirstWrite(d, lba, block);
    OffsetInside(d, Extent(first, Zeros(DataSize(d))), lba);
    var r := PutBlock(d, lba, block, true).value;
    assert |r.extents| == 1 && r.extents[0].first == first;
    assert !Covers(r, r.extents[0], lba);
  }

  lemma WrapsBelow(end: nat, first: nat)
    requires UINT32_RANGE <= end && first < UINT32_RANGE && end - first < UINT32_RANGE
    ensures Wrap32(end) < first || (Wrap32(end) == 0 && first == 0)
  {
    assert end < 2 * UINT32_RANGE;
    assert end % UINT32_RANGE == end - UINT32_RANGE;
  }

  lemma LostWriteShows(d: Disk, flat: seq<seq<byte>>, blockSize: nat, blockCount: nat, extentBlockCount: nat,
                       headerSize: nat)
    requires 1 <= blockCount < UINT32_RANGE && extentBlockCount >= 1 && blockSize >= 1
    requires d == Created(blockSize, blockCount, extentBlockCount, headerSize)
    requires !Addressable(d) && Allocatable(d) && |flat| == blockCount
    ensures exists ops: seq<Op> :: BlocksFit(ops, blockSize) && !FlatRun(flat, ops, Outcomes(d, ops))
  {
    hide *;
    var lba, block := blockCount - 1, Zeros(blockSize)[0 := 1];
    NotAddressableLosesWrites(blockSize, blockCount, extentBlockCount, headerSize, block);
    assert block != Zeros(blockSize) by { assert block[0] != Zeros(blockSize)[0]; }
    var ops := [Put(lba, block, true), Get(lba)];
    assert BlocksFit(ops, blockSize) by { BothFit(lba, block); }
    SizedWhenCreated(blockSize, blockCount, extentBlockCount, headerSize);
    LostWriteOutcomes(d, lba, block);
    NoSuchRun(flat, lba, block, Zeros(blockSize));
  }

  lemma BothFit(lba: nat, block: seq<byte>)
    ensures BlocksFit([Put(lba, block, true), Get(lba)], |block|)
  {
  }

  lemma SizedWhenCreated(blockSize: nat, blockCount: nat, extentBlockCount: nat, headerSize: nat)
    requires blockCount >= 1 && extentBlockCount >= 1
    ensures Sized(Created(blockSize, blockCount, extentBlockCount, headerSize))
    ensures Created(blockSize, blockCount, extentBlockCount, headerSize).blockSize == blockSize
    ensures Created(blockSize, blockCount, extentBlockCount, headerSize).blockCount == blockCount
  {
  }

  lemma LostWriteOutcomes(d: Disk, lba: nat, block: seq<byte>)
    requires Sized(d) && |block| == d.blockSize && PutBlock(d, lba, block, true).Ok?
    requires GetBlock(PutBlock(d, lba, block, true).value, lba) == Ok(Zeros(d.blockSize))
    requires BlocksFit([Put(lba, block, true), Get(lba)], d.blockSize)
    ensures Outcomes(d, [Put(lba, block, true), Get(lba)]) == [Written, Read(Zeros(d.blockSize))]
  {
    hide RamDiskState.GetBlock, RamDiskState.PutBlock;
    TwoOutcomes(d, Put(lba, block, true), Get(lba));
  }

  lemma TwoOutcomes(d: Disk, op: Op, next: Op)
    requires Sized(d) && BlocksFit([op, next], d.blockSize)
    ensures op.Put? ==> |op.block| == d.blockSize
    ensures next.Put? ==> |next.block| == d.blockSize == AfterOp(d, op).blockSize
    ensures AfterOp(d, op).blockSize == d.blockSize
    ensures Outcomes(d, [op, next]) == [OutcomeOf(d, op), OutcomeOf(AfterOp(d, op), next)]
  {
    hide Search, Covers, DataSize;
    assert op in [op, next] && next in [op, next];
    var r := AfterOp(d, op);
    assert [op, next][1..] == [next] && [next][1..] == [];
    assert Outcomes(r, [next]) == [OutcomeOf(r, next)] + Outcomes(AfterOp(r, next), []);
  }

  /** A flat array does not read as anything else than what has been written last. */
  lemma NoSuchRun(flat: seq<seq<byte>>, lba: nat, block: seq<byte>, other: seq<byte>)
    requires lba < |flat| && block != other
    ensures !FlatRun(flat, [Put(lba, block, true), Get(lba)], [Written, Read(other)])
  {
    assert [Put(lba, block, true), Get(lba)][1..] == [Get(lba)] && [Written, Read(other)][1..] == [Read(other)];
    assert !FlatRun(flat[lba := block], [Get(lba)], [Read(other)]);
  }

  // ---- Extents too large for 32-bit sizes ---------------------------------------

  /** A size that has wrapped around leaves too little room for the data. */
  lemma WrappedSizeIsSmall(d: Disk)
    requires DATA_OFFSET <= d.headerSize < UINT32_RANGE && !Allocatable(d)
    ensures DataSize(d) < d.extentBlockCount * d.blockSize && DataSize(d) < UINT32_RANGE
  {
    var data := d.extentBlockCount * d.blockSize;
    var n := d.headerSize + data;
    if n < 2 * UINT32_RANGE { assert n % UINT32_RANGE == n - UINT32_RANGE; }
  }

  /** The block that crosses the end of the memory of the first extent. */
  lemma CrossingBlock(d: Disk) returns (lba: nat)
    requires DATA_OFFSET <= d.headerSize < UINT32_RANGE && !Allocatable(d) && d.blockSize >= 1
    ensures lba < d.extentBlockCount && lba * d.blockSize <= DataSize(d) < lba * d.blockSize + d.blockSize
    ensures DataSize(d) < UINT32_RANGE
  {
    WrappedSizeIsSmall(d);
    lba := DataSize(d) / d.blockSize;
    assert DataSize(d) == lba * d.blockSize + DataSize(d) % d.blockSize;
    if lba >= d.extentBlockCount { MulMonotone(d.extentBlockCount, lba, d.blockSize); }
  }

  lemma InFirstExtent(lba: nat, m: nat)
    requires lba < m
    ensures RoundDown(lba, m) == 0
  {
    DivisionUnique(lba, m, 0, lba);
  }

  /** On a disk whose extents are too large the first write to that block leaves the memory
      that was allocated for its extent. */
  lemma NotAllocatableStrays(blockSize: nat, blockCount: nat, extentBlockCount: nat, headerSize: nat,
                             block: seq<byte>) returns (lba: nat)
    requires blockCount >= 1 && extentBlockCount >= 1 && blockSize >= 1 && |block| == blockSize
    requires DATA_OFFSET <= headerSize < UINT32_RANGE
    requires !Allocatable(Created(blockSize, blockCount, extentBlockCount, headerSize))
    ensures lba < blockCount
    ensures PutBlock(Created(blockSize, blockCount, extentBlockCount, headerSize), lba, block, true) == Err(Stray)
  {
    var d := Created(blockSize, blockCount, extentBlockCount, headerSize);
    lba := CrossingBlock(d);
    InFirstExtent(lba, d.extentBlockCount);
    FirstWrite(d, lba, block);
  }

  lemma StrayShows(d: Disk, flat: seq<seq<byte>>, blockSize: nat, blockCount: nat, extentBlockCount: nat,
                   headerSize: nat)
    requires blockCount >= 1 && extentBlockCount >= 1 && blockSize >= 1
    requires DATA_OFFSET <= headerSize < UINT32_RANGE
    requires d == Created(blockSize, blockCount, extentBlockCount, headerSize) && !Allocatable(d)
    requires |flat| == blockCount
    ensures exists ops: seq<Op> :: BlocksFit(ops, blockSize) && !FlatRun(flat, ops, Outcomes(d, ops))
  {
    var block := Zeros(blockSize);
    var lba := NotAllocatableStrays(blockSize, blockCount, extentBlockCount, headerSize, block);
    var ops := [Put(lba, block, true)];
    assert Outcomes(d, ops)[0] == Failed(Stray);
    assert !FlatRun(flat, ops, Outcomes(d, ops));
    assert BlocksFit(ops, blockSize);
  }

  /** 2^23 blocks of 512 bytes in one extent: the block numbers fit, but the size of the
      extent wraps around to that of its header, and the write of block 0 strays. */
  lemma OneLargeExtentStrays(headerSize: nat, block: seq<byte>)
    requires DATA_OFFSET <= headerSize < DATA_OFFSET + 512 && |block| == 512
    ensures var d := Created(512, 0x80_0000, 0x80_0000, headerSize);
            && Addressable(d) && AllocationSize(d.extentBlockCount * d.blockSize, headerSize) == headerSize
            && PutBlock(d, 0, block, true) == Err(Stray)
  {
    var d := Created(512, 0x80_0000, 0x80_0000, headerSize);
    assert d.extentBlockCount * d.blockSize == UINT32_RANGE;
    assert (headerSize + UINT32_RANGE) % UINT32_RANGE == headerSize;
    InFirstExtent(0, d.extentBlockCount);
    InFirstExtent(d.blockCount - 1, d.extentBlockCount);
    FirstWrite(d, 0, block);
  }

  // ---- The exact condition ------------------------------------------------------

  /** A disk behaves as a flat array for all reads and writes if and only if the number of
      the block behind its last extent and the size of an extent fit 32 bits. */
  lemma FlatExactlyIfItFits(blockSize: nat, blockCount: nat, extentBlockCount: nat, headerSize: nat)
    requires 1 <= blockCount < UINT32_RANGE && extentBlockCount >= 1 && blockSize >= 1
    requires DATA_OFFSET <= headerSize < UINT32_RANGE
    ensures var d := Created(blockSize, blockCount, extentBlockCount, headerSize);
            Addressable(d) && Allocatable(d) <==>
            forall ops: seq<Op> | BlocksFit(ops, blockSize) ::
              FlatRun(seq(blockCount, _ => Zeros(blockSize)), ops, Outcomes(d, ops))
  {
    var d := Created(blockSize, blockCount, extentBlockCount, headerSize);
    var flat := seq(blockCount, _ => Zeros(blockSize));
    if Addressable(d) && Allocatable(d) {
      forall ops: seq<Op> | BlocksFit(ops, blockSize) ensures FlatRun(flat, ops, Outcomes(d, ops)) {
        NewDiskIsFlat(blockSize, blockCount, extentBlockCount, headerSize, ops);
      }
    } else if Allocatable(d) {
      LostWriteShows(d, flat, blockSize, blockCount, extentBlockCount, headerSize);
    } else {
      StrayShows(d, flat, blockSize, blockCount, extentBlockCount, headerSize);
    }
  }
}
