/** The RAM disk as values: a sorted list of extents that are allocated when a block in
    them is first written (Kernel/Sources/driver/RamDisk.c). */
module RamDiskState {
  import opened Bytes
  import opened Sequences

  datatype Extent = Extent(first: nat, data: seq<byte>)

  /** `headerSize` is the size of the DiskExtent structure less one, which is what the
      source adds to the size of the data; it depends on the padding. */
  datatype Disk = Disk(blockSize: nat, blockCount: nat, extentBlockCount: nat, headerSize: nat, extents: seq<Extent>)

  /** `Stray` stands for a copy that leaves the memory of its extent; the source does not
      notice it, and what happens then is undefined. */
  datatype Error = EIO | ENOMEM | Stray

  datatype Result<T> = Ok(value: T) | Err(error: Error)

  predicate Covers(d: Disk, e: Extent, lba: nat) {
    e.first <= lba < Wrap32(e.first + d.extentBlockCount)
  }

  /** Where the search for the extent of a block ends: at that extent, or at the place in
      the list where it would have to be added. */
  function Search(d: Disk, lba: nat, i: nat): (r: nat)
    requires i <= |d.extents|
    ensures i <= r <= |d.extents|
    ensures forall k | i <= k < r :: !Covers(d, d.extents[k], lba) && d.extents[k].first <= lba
    ensures r < |d.extents| ==> Covers(d, d.extents[r], lba) || lba < d.extents[r].first
    decreases |d.extents| - i
  {
    if i == |d.extents| || Covers(d, d.extents[i], lba) || lba < d.extents[i].first then i
    else Search(d, lba, i + 1)
  }

  predicate Present(d: Disk, lba: nat) {
    var i := Search(d, lba, 0);
    i < |d.extents| && Covers(d, d.extents[i], lba)
  }

  /** Where a block lies in the data of its extent. */
  function Offset(e: Extent, lba: nat, blockSize: nat): int {
    (lba - e.first) * blockSize
  }

  /** The same as 32-bit arithmetic computes it. */
  function WrappedOffset(e: Extent, lba: nat, blockSize: nat): nat {
    var offset := Offset(e, lba, blockSize);
    if offset >= 0 then Wrap32(offset) else 0
  }

  // ---- The memory of an extent --------------------------------------------------

  /** Offset of the data in a DiskExtent, behind a pointer and a block number. */
  const DATA_OFFSET := 8

  /** The size that is asked of kalloc_cleared for `n` bytes of data, in 32 bits. */
  function AllocationSize(n: nat, headerSize: nat): nat {
    Wrap32(headerSize + n)
  }

  /** How much of the data the allocated memory has room for. */
  function RoomFor(n: nat, headerSize: nat): nat {
    var size := AllocationSize(n, headerSize);
    if size >= DATA_OFFSET + n then n else if size >= DATA_OFFSET then size - DATA_OFFSET else 0
  }

  function DataSize(d: Disk): nat {
    RoomFor(d.extentBlockCount * d.blockSize, d.headerSize)
  }

  /** The size of an extent fits 32 bits. */
  predicate Allocatable(d: Disk) {
    DATA_OFFSET <= d.headerSize && d.headerSize + d.extentBlockCount * d.blockSize < UINT32_RANGE
  }

  /** The copy of a block stays in the memory of the extent. */
  predicate InExtent(d: Disk, e: Extent, lba: nat) {
    WrappedOffset(e, lba, d.blockSize) + d.blockSize <= DataSize(d)
  }

  /** All extents hold as many bytes as have been allocated for them. */
  predicate Sized(d: Disk) {
    d.extentBlockCount >= 1 && forall e | e in d.extents :: |e.data| == DataSize(d)
  }

  lemma OffsetInside(d: Disk, e: Extent, lba: nat)
    requires Allocatable(d) && e.first <= lba < e.first + d.extentBlockCount
    ensures 0 <= Offset(e, lba, d.blockSize) == WrappedOffset(e, lba, d.blockSize)
    ensures Offset(e, lba, d.blockSize) + d.blockSize <= d.extentBlockCount * d.blockSize == DataSize(d)
    ensures InExtent(d, e, lba)
  {
    var k, m := lba - e.first, d.extentBlockCount - 1 - (lba - e.first);
    assert d.extentBlockCount * d.blockSize == k * d.blockSize + d.blockSize + m * d.blockSize;
  }

  lemma CoversBelow(d: Disk, e: Extent, lba: nat)
    requires Covers(d, e, lba)
    ensures e.first <= lba < e.first + d.extentBlockCount
  {
  }

  function GetBlock(d: Disk, lba: nat): Result<seq<byte>>
    requires Sized(d)
  {
    if lba >= d.blockCount then Err(EIO)
    else if Present(d, lba) then
      var e := d.extents[Search(d, lba, 0)];
      var offset := WrappedOffset(e, lba, d.blockSize);
      if InExtent(d, e, lba) then Ok(e.data[offset..offset + d.blockSize]) else Err(Stray)
    else Ok(Zeros(d.blockSize))
  }

  function Overwritten(data: seq<byte>, offset: nat, block: seq<byte>): (r: seq<byte>)
    requires offset + |block| <= |data|
    ensures |r| == |data| && r[offset..offset + |block|] == block
    ensures forall p | 0 <= p < |data| && (p < offset || offset + |block| <= p) :: r[p] == data[p]
  {
    data[..offset] + block + data[offset + |block|..]
  }

  /** The largest multiple of `m` up to `n`. */
  function RoundDown(n: nat, m: nat): (r: nat)
    requires m >= 1
    ensures r <= n < r + m
  {
    n / m * m
  }

  /** AddExtentAfter_Locked: a cleared extent that starts at the block's multiple of the
      extent size. */
  function AddExtent(d: Disk, lba: nat): (r: Disk)
    requires Sized(d)
    ensures Sized(r)
  {
    var e := Extent(RoundDown(lba, d.extentBlockCount), Zeros(DataSize(d)));
    InsertAtMembers(d.extents, Search(d, lba, 0), e);
    d.(extents := InsertAt(d.extents, Search(d, lba, 0), e))
  }

  function WriteAt(d: Disk, i: nat, lba: nat, block: seq<byte>): (r: Disk)
    requires Sized(d) && i < |d.extents| && |block| == d.blockSize && InExtent(d, d.extents[i], lba)
    ensures Sized(r)
  {
    var e := d.extents[i];
    d.(extents := d.extents[i := e.(data := Overwritten(e.data, WrappedOffset(e, lba, d.blockSize), block))])
  }

  /** `memory` says whether the allocation of a new extent succeeds. */
  function PutBlock(d: Disk, lba: nat, block: seq<byte>, memory: bool): (r: Result<Disk>)
    requires Sized(d) && |block| == d.blockSize
    ensures r.Ok? ==> Sized(r.value)
  {
    if lba >= d.blockCount then Err(EIO)
    else
      var i := Search(d, lba, 0);
      if !Present(d, lba) && !memory then Err(ENOMEM)
      else
        var p := if Present(d, lba) then d else AddExtent(d, lba);
        if InExtent(p, p.extents[i], lba) then Ok(WriteAt(p, i, lba, block)) else Err(Stray)
  }

  /** RamDisk_Create. */
  function Created(blockSize: nat, blockCount: nat, extentBlockCount: nat, headerSize: nat): Disk {
    Disk(blockSize, blockCount, if extentBlockCount <= blockCount then extentBlockCount else blockCount,
         headerSize, [])
  }
}
