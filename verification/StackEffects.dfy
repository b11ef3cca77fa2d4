/** What an allocation takes and what DeallocAll keeps (Commands/shell/StackAllocator.c:61-168). */
module StackEffects {
  import opened Arithmetic
  import opened Sequences
  import opened StackAllocation

  /** The least multiple of the alignment that is not below `nbytes`. */
  ghost predicate IsRounded(size: int, nbytes: nat, alignment: nat) {
    alignment >= 1 && size % alignment == 0 && nbytes <= size < nbytes + alignment
  }

  lemma RoundedUnique(a: int, b: int, nbytes: nat, alignment: nat)
    requires IsRounded(a, nbytes, alignment) && IsRounded(b, nbytes, alignment)
    ensures a == b
  {
    if a < b { MultiplesDiffer(a, b, alignment); }
    if b < a { MultiplesDiffer(b, a, alignment); }
  }

  lemma MultiplesDiffer(a: int, b: int, n: nat)
    requires n >= 1 && a < b && a % n == 0 && b % n == 0
    ensures b - a >= n
  {
    assert a == a / n * n && b == b / n * n;
    if b / n <= a / n { MulMonotone(b / n, a / n, n); }
    MulMonotone(a / n + 1, b / n, n);
    assert (a / n + 1) * n == a / n * n + n;
  }

  /** The page at index `i` is the first in the cache that is big enough. */
  ghost predicate FirstBigEnough(cache: seq<Page>, nbytes: nat, i: nat) {
    i < |cache| && cache[i].capacity >= nbytes && forall k: nat | k < i :: cache[k].capacity < nbytes
  }

  /** The block that has been handed out: of the rounded size, at the top of the page in use. */
  ghost predicate HandedOut(s: Allocator, r: Allocator, top: int, size: int, page: Page) {
    && |r.blocks| == |s.blocks| + 1 && r.blocks[..|s.blocks|] == s.blocks
    && r.blocks[|s.blocks|].addr == top && r.blocks[|s.blocks|].size == size && r.blocks[|s.blocks|].page == page
    && r.tosPtr == top + size
  }

  /** An allocation: nothing for nothing; from the page in use if the rounded size fits; else from
      the first cached page that is big enough; else from a new page that is no smaller than the
      request and the page size; and none exactly if malloc is asked and has no memory. */
  lemma AllocEffect(s: Allocator, nbytes: nat, base: Option<int>, size: int)
    requires Inv(s) && IsRounded(size, nbytes, s.alignment)
    ensures var r := Alloc(s, nbytes, base);
            if nbytes == 0 then r == Some(s)
            else if s.tosPtr + size <= s.tosEnd then
              && s.live != [] && r.Some? && HandedOut(s, r.value, s.tosPtr, size, s.live[|s.live| - 1])
              && r.value.live == s.live && r.value.cache == s.cache && r.value.tosEnd == s.tosEnd
            else if exists i: nat :: FirstBigEnough(s.cache, nbytes, i) then
              && r.Some?
              && exists i: nat ::
                   && FirstBigEnough(s.cache, nbytes, i)
                   && r.value.live == s.live + [s.cache[i]] && r.value.cache == s.cache[..i] + s.cache[i + 1..]
                   && r.value.cacheBytes == s.cacheBytes - s.cache[i].capacity
                   && HandedOut(s, r.value, s.cache[i].base + s.alignment, size, s.cache[i])
                   && r.value.tosEnd == s.cache[i].base + s.pageSize
            else if base.None? then r.None?
            else
              && r.Some? && |r.value.live| == |s.live| + 1 && r.value.live[..|s.live|] == s.live
              && r.value.cache == s.cache
              && var page := r.value.live[|s.live|];
                 && page.base == base.value
                 && IsRounded(page.capacity, if nbytes > s.pageSize then nbytes else s.pageSize, s.alignment)
                 && HandedOut(s, r.value, page.base + s.alignment, size, page)
                 && r.value.tosEnd == page.base + s.pageSize
  {
    hide HeapOk, BlocksOk, PageOk;
    RoundedUnique(size, Ceil(nbytes, s.alignment), nbytes, s.alignment);
    var i := FindCached(s.cache, nbytes, 0);
    if i < |s.cache| { assert FirstBigEnough(s.cache, nbytes, i); }
  }

  /** DeallocAll walks at most two pages.  Each goes to the front of the cache, if that stays below
      its capacity, and back to malloc otherwise; all blocks are gone. */
  lemma DeallocEffect(s: Allocator)
    requires Inv(s)
    ensures var r := DeallocAll(s);
            && r.pages == [] && r.live == [] && r.blocks == [] && r.tosPtr == 0 && r.tosEnd == 0
            && |s.pages| <= 2
            && (|s.pages| == 0 ==> r.cache == s.cache && r.cacheBytes == s.cacheBytes)
            && (|s.pages| >= 1 ==>
                  var p := s.pages[0];
                  var kept := s.cacheBytes + p.capacity < s.cacheCapacity;
                  var cache, bytes := if kept then [p] + s.cache else s.cache,
                                      if kept then s.cacheBytes + p.capacity else s.cacheBytes;
                  if |s.pages| == 1 then r.cache == cache && r.cacheBytes == bytes
                  else if bytes + s.pages[1].capacity < s.cacheCapacity then
                    r.cache == [s.pages[1]] + cache && r.cacheBytes == bytes + s.pages[1].capacity
                  else r.cache == cache && r.cacheBytes == bytes)
  {
    hide HeapOk, BlocksOk, TopOk;
    var pages := s.pages;
    if |pages| >= 1 {
      RecycleOne(s.cache, s.cacheBytes, s.cacheCapacity, pages);
      if |pages| == 2 {
        var kept := s.cacheBytes + pages[0].capacity < s.cacheCapacity;
        RecycleOne(if kept then [pages[0]] + s.cache else s.cache,
                   if kept then s.cacheBytes + pages[0].capacity else s.cacheBytes, s.cacheCapacity, pages[1..]);
      }
    }
  }

  lemma RecycleOne(cache: seq<Page>, bytes: int, capacity: nat, pages: seq<Page>)
    requires pages != []
    ensures Recycled(cache, bytes, capacity, pages) ==
            if bytes + pages[0].capacity < capacity
            then Recycled([pages[0]] + cache, bytes + pages[0].capacity, capacity, pages[1..])
            else Recycled(cache, bytes, capacity, pages[1..])
    ensures |pages| == 1 ==> pages[1..] == []
  {
  }
}
