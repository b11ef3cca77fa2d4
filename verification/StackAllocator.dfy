/** The stack allocator as the shell runs it, proved against the functions of
    StackAllocation. */
module StackAllocators {
  import opened Sequences
  import opened StackAllocation

  class StackAllocator {
    const alignment: nat
    const pageSize: nat
    const pageCacheBytesCapacity: nat
    var pages: seq<Page>
    var cache: seq<Page>
    var pageCacheBytesCount: int
    var tosPtr: int
    var tosPageEndPtr: int
    /** History; nothing in the source corresponds to it. */
    ghost var live: seq<Page>
    ghost var lost: seq<Page>
    ghost var blocks: seq<Block>

    ghost function State(): Allocator
      reads this
    {
      Allocator(alignment, pageSize, pageCacheBytesCapacity, pages, cache, pageCacheBytesCount,
                tosPtr, tosPageEndPtr, live, lost, blocks)
    }

    constructor (alignment: nat, pageSize: nat, pageCacheCapacity: nat)
      requires alignment == 8 || alignment == 16
      ensures State() == Created(alignment, pageSize, pageCacheCapacity) && Inv(State())
    {
      this.alignment := alignment;
      this.pageSize := if pageSize < 4 * alignment then 4 * alignment else pageSize;
      pageCacheBytesCapacity := pageCacheCapacity;
      pages, cache, pageCacheBytesCount, tosPtr, tosPageEndPtr := [], [], 0, 0, 0;
      live, lost, blocks := [], [], [];
    }

    /** The first page of the cache that is big enough. */
    method SearchCache(nbytes: nat) returns (i: nat)
      ensures i == FindCached(cache, nbytes, 0)
    {
      i := 0;
      while i < |cache|
        invariant 0 <= i <= |cache| && FindCached(cache, nbytes, 0) == FindCached(cache, nbytes, i)
      {
        if cache[i].capacity >= nbytes { break; }
        i := i + 1;
      }
    }

    /** Puts a page from the cache or from malloc on top; false if there is no memory. */
    method AllocateBackingStore(nbytes: nat, base: Option<int>) returns (ok: bool)
      requires alignment >= 1
      modifies this
      ensures ok <==> Backed(old(State()), nbytes, base).Some?
      ensures State() == if ok then Backed(old(State()), nbytes, base).value else old(State())
    {
      hide FindCached, Ceil;
      var i := SearchCache(nbytes);
      var page;
      if i < |cache| {
        page := cache[i];
        cache := cache[..i] + cache[i + 1..];
        pageCacheBytesCount := pageCacheBytesCount - page.capacity;
      } else {
        var rawPageSize := if nbytes > pageSize then nbytes else pageSize;
        if base == None { return false; }
        page := Page(base.value, Ceil(rawPageSize, alignment));
      }
      if pages != [] {
        pages := [pages[0], page];
      } else {
        pages := [page];
      }
      live := live + [page];
      tosPtr := page.base + alignment;
      tosPageEndPtr := page.base + pageSize;
      return true;
    }

    /** The address of a block; `None` if there is no memory, and no block for no bytes. */
    method Alloc(nbytes: nat, base: Option<int>) returns (ok: bool, addr: Option<int>)
      requires alignment >= 1 && (live == [] ==> tosPtr == tosPageEndPtr == 0)
      modifies this
      ensures ok <==> StackAllocation.Alloc(old(State()), nbytes, base).Some?
      ensures State() == if ok then StackAllocation.Alloc(old(State()), nbytes, base).value else old(State())
      ensures ok && nbytes > 0 ==>
                addr.Some? && |blocks| == |old(blocks)| + 1
                && blocks[|old(blocks)|].addr == addr.value && blocks[|old(blocks)|].size >= nbytes
    {
      hide FindCached, Backed, TopPage;
      if nbytes == 0 { return true, None; }
      var alignedByteCount := Ceil(nbytes, alignment);
      if tosPtr + alignedByteCount > tosPageEndPtr {
        ghost var before := State();
        var backed := AllocateBackingStore(nbytes, base);
        if !backed { return false, None; }
        BackedTop(before, nbytes, base);
      }
      addr := Some(tosPtr);
      blocks := blocks + [Block(tosPtr, alignedByteCount, live[|live| - 1])];
      tosPtr := tosPtr + alignedByteCount;
      return true, addr;
    }

    method DeallocAll()
      modifies this
      ensures State() == StackAllocation.DeallocAll(old(State()))
    {
      tosPtr, tosPageEndPtr := 0, 0;
      while pages != []
        invariant Recycled(cache, pageCacheBytesCount, pageCacheBytesCapacity, pages)
                  == old(Recycled(cache, pageCacheBytesCount, pageCacheBytesCapacity, pages))
        invariant tosPtr == tosPageEndPtr == 0
        decreases |pages|
        modifies this`pages, this`cache, this`pageCacheBytesCount
      {
        var cur := pages[0];
        pages := pages[1..];
        if pageCacheBytesCount + cur.capacity < pageCacheBytesCapacity {
          cache := [cur] + cache;
          pageCacheBytesCount := pageCacheBytesCount + cur.capacity;
        }
      }
      lost := lost + (if |live| > 2 then live[1..|live| - 1] else []);
      live, blocks := [], [];
    }
  }
}
