/** The RAM disk as the kernel runs it: a list of extent objects whose data is overwritten
    in place, proved against the functions of RamDiskState. */
module RamDisks {
  import opened Bytes
  import opened Sequences
  import opened RamDiskState

  class DiskExtent {
    const firstBlockIndex: nat
    const data: array<byte>

    /** kalloc_cleared: all data of a new extent is zero. */
    constructor (firstBlockIndex: nat, size: nat)
      ensures this.firstBlockIndex == firstBlockIndex
      ensures fresh(data) && data[..] == Zeros(size)
    {
      this.firstBlockIndex := firstBlockIndex;
      data := new byte[size](_ => 0);
      new;
      assert data[..] == Zeros(size);
    }

    ghost function Value(): Extent
      reads data
    {
      Extent(firstBlockIndex, data[..])
    }
  }

  ghost function Arrays(extents: seq<DiskExtent>): set<array<byte>> {
    set e | e in extents :: e.data
  }

  ghost function Values(extents: seq<DiskExtent>): (r: seq<Extent>)
    reads Arrays(extents)
    ensures |r| == |extents|
    ensures forall i | 0 <= i < |extents| :: r[i] == extents[i].Value()
  {
    seq(|extents|, i requires 0 <= i < |extents| reads Arrays(extents) => extents[i].Value())
  }

  /** No two extents share their data. */
  ghost predicate Separate(extents: seq<DiskExtent>) {
    forall i, j | 0 <= i < j < |extents| :: extents[i].data != extents[j].data
  }

  lemma ValuesInsert(extents: seq<DiskExtent>, pos: nat, e: DiskExtent)
    requires pos <= |extents|
    ensures Values(InsertAt(extents, pos, e)) == InsertAt(Values(extents), pos, e.Value())
  {
    var r := InsertAt(extents, pos, e);
    InsertAtInserts(extents, pos, e);
    InsertAtInserts(Values(extents), pos, e.Value());
    forall k | 0 <= k < |r| ensures Values(r)[k] == InsertAt(Values(extents), pos, e.Value())[k] {
      assert r[k] == if k < pos then extents[k] else if k == pos then e else extents[k - 1];
    }
  }

  lemma SeparateInsert(extents: seq<DiskExtent>, pos: nat, e: DiskExtent)
    requires Separate(extents) && pos <= |extents| && e.data !in Arrays(extents)
    ensures Separate(InsertAt(extents, pos, e))
  {
    var r := InsertAt(extents, pos, e);
    forall k | 0 <= k < |extents| ensures extents[k].data != e.data {
      assert extents[k] in extents;
    }
    InsertAtInserts(extents, pos, e);
    forall k | 0 <= k < |r| ensures r[k] == if k < pos then extents[k] else if k == pos then e else extents[k - 1] {
    }
  }

  class RamDisk {
    const blockSize: nat
    const blockCount: nat
    const extentBlockCount: nat
    const headerSize: nat
    var extents: seq<DiskExtent>

    ghost function State(): Disk
      reads this, Arrays(extents)
    {
      Disk(blockSize, blockCount, extentBlockCount, headerSize, Values(extents))
    }

    ghost predicate Valid()
      reads this, Arrays(extents)
    {
      Separate(extents) && Sized(State())
    }

    constructor (blockSize: nat, blockCount: nat, extentBlockCount: nat, headerSize: nat)
      requires blockCount >= 1 && extentBlockCount >= 1
      ensures Valid() && State() == Created(blockSize, blockCount, extentBlockCount, headerSize) && extents == []
    {
      this.blockSize, this.blockCount, this.headerSize := blockSize, blockCount, headerSize;
      this.extentBlockCount := if extentBlockCount <= blockCount then extentBlockCount else blockCount;
      extents := [];
    }

    /** The extent of a block, if there is one, and the place in the list where it is or
        would have to be. */
    method GetDiskExtentForBlockIndex(lba: nat) returns (extent: DiskExtent?, pos: nat)
      requires Valid()
      ensures pos == Search(State(), lba, 0)
      ensures extent != null <==> Present(State(), lba)
      ensures extent != null ==> pos < |extents| && extents[pos] == extent
    {
      extent, pos := null, 0;
      while pos < |extents|
        invariant 0 <= pos <= |extents| && extent == null
        invariant Search(State(), lba, 0) == Search(State(), lba, pos)
      {
        var firstBlockIndex := extents[pos].firstBlockIndex;
        if lba >= firstBlockIndex && lba < Wrap32(firstBlockIndex + extentBlockCount) {
          extent := extents[pos];
          break;
        } else if lba < firstBlockIndex {
          break;
        }
        pos := pos + 1;
      }
    }

    /** Where a block lies in the data of an extent, in 32 bits. */
    function OffsetIn(extent: DiskExtent, lba: nat): (offset: nat)
      ensures offset == WrappedOffset(Extent(extent.firstBlockIndex, []), lba, blockSize)
    {
      if lba >= extent.firstBlockIndex then Wrap32((lba - extent.firstBlockIndex) * blockSize)
      else
        assert (lba - extent.firstBlockIndex) * blockSize <= 0;
        0
    }

    /** Reads a whole block into `buffer`, or nothing; a copy that would leave the memory of
        the extent is not made, but reported. */
    method GetBlock(buffer: array<byte>, lba: nat) returns (error: Option<Error>)
      requires Valid() && buffer.Length == blockSize && buffer !in Arrays(extents)
      modifies buffer
      ensures match RamDiskState.GetBlock(old(State()), lba)
              case Ok(block) => error == None && buffer[..] == block
              case Err(e) => error == Some(e) && buffer[..] == old(buffer[..])
    {
      if lba >= blockCount { return Some(EIO); }
      ghost var expected := RamDiskState.GetBlock(State(), lba);
      var extent, pos := GetDiskExtentForBlockIndex(lba);
      if extent != null {
        var offset := OffsetIn(extent, lba);
        if offset + blockSize > extent.data.Length { return Some(Stray); }
        assert expected == Ok(extent.data[offset..offset + blockSize]);
        Copy(buffer, 0, extent.data, offset, blockSize);
        assert buffer[..] == buffer[0..0 + blockSize];
      } else {
        assert expected == Ok(Zeros(blockSize));
        Clear(buffer);
      }
      return None;
    }

    /** Writes a whole block, or nothing; `memory` says whether a new extent could be
        allocated. */
    method PutBlock(buffer: array<byte>, lba: nat, memory: bool) returns (error: Option<Error>)
      requires Valid() && buffer.Length == blockSize && buffer !in Arrays(extents)
      modifies this`extents, Arrays(extents)
      ensures Valid()
      ensures match RamDiskState.PutBlock(old(State()), lba, old(buffer[..]), memory)
              case Ok(r) => error == None && State() == r
              case Err(e) => error == Some(e) && (e != Stray ==> State() == old(State()))
    {
      hide Search, RoundDown, Zeros, Covers, AddExtent, RamDiskState.WriteAt;
      if lba >= blockCount { return Some(EIO); }
      ghost var d := State();
      var extent, pos := GetDiskExtentForBlockIndex(lba);
      if extent == null {
        if !memory { return Some(ENOMEM); }
        extent := AddExtentAt(RoundDown(lba, extentBlockCount), pos, lba);
      }
      if OffsetIn(extent, lba) + blockSize > extent.data.Length { return Some(Stray); }
      WriteBlock(extent, pos, buffer, lba);
      return None;
    }

    /** Puts a cleared extent into the list, at the place that the search for block `lba`
        has found. */
    method AddExtentAt(firstBlockIndex: nat, pos: nat, ghost lba: nat) returns (extent: DiskExtent)
      requires Valid() && pos == Search(State(), lba, 0)
      requires firstBlockIndex == RoundDown(lba, extentBlockCount)
      modifies this`extents
      ensures Valid() && fresh(extent.data) && extent.firstBlockIndex == firstBlockIndex
      ensures extents == old(extents[..pos]) + [extent] + old(extents[pos..])
      ensures State() == AddExtent(old(State()), lba)
    {
      hide RoomFor, Search, RoundDown, Zeros;
      ghost var before := Values(extents);
      extent := new DiskExtent(firstBlockIndex, RoomFor(extentBlockCount * blockSize, headerSize));
      assert Values(extents) == before;
      assert extent.data !in Arrays(extents);
      ValuesInsert(extents, pos, extent);
      SeparateInsert(extents, pos, extent);
      extents := extents[..pos] + [extent] + extents[pos..];
    }

    method WriteBlock(extent: DiskExtent, pos: nat, buffer: array<byte>, lba: nat)
      requires Valid() && pos < |extents| && extents[pos] == extent
      requires InExtent(State(), extent.Value(), lba)
      requires buffer.Length == blockSize && buffer != extent.data
      modifies extent.data
      ensures Valid() && State() == WriteAt(old(State()), pos, lba, buffer[..])
    {
      ghost var before := Values(extents);
      ghost var d := State();
      var offset := OffsetIn(extent, lba);
      assert buffer[..] == buffer[0..0 + blockSize];
      Copy(extent.data, offset, buffer, 0, blockSize);
      assert Values(extents) == before[pos := extent.Value()];
      assert State() == WriteAt(d, pos, lba, buffer[..]);
    }
  }

  /** memset with zero. */
  method Clear(buffer: array<byte>)
    modifies buffer
    ensures buffer[..] == Zeros(buffer.Length)
  {
    var i := 0;
    while i < buffer.Length
      invariant 0 <= i <= buffer.Length && forall k | 0 <= k < i :: buffer[k] == 0
    {
      buffer[i] := 0;
      i := i + 1;
    }
  }

  /** memcpy between two arrays. */
  method Copy(target: array<byte>, at: nat, source: array<byte>, from: nat, n: nat)
    requires target != source && at + n <= target.Length && from + n <= source.Length
    modifies target
    ensures target[..] == Overwritten(old(target[..]), at, source[from..from + n])
  {
    ghost var before := target[..];
    var i := 0;
    while i < n
      invariant 0 <= i <= n
      invariant target[at..at + i] == source[from..from + i]
      invariant target[..at] == before[..at] && target[at + i..] == before[at + i..]
    {
      target[at + i] := source[from + i];
      assert target[at..at + (i + 1)] == target[at..at + i] + [source[from + i]];
      i := i + 1;
    }
    assert target[..] == target[..at] + target[at..at + n] + target[at + n..];
  }
}
