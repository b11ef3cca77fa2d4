/** The shell's stack allocator (Commands/shell/StackAllocator.c) over an address space in
    which malloc hands out regions that overlap no region in use. */
module StackAllocation {
  import opened Arithmetic
  import opened Sequences

  /** A page: a header of one alignment unit, then `capacity` bytes of payload. */
  datatype Page = Page(base: int, capacity: nat)

  /** A block that has been handed out, with the page it was cut from. */
  datatype Block = Block(addr: int, size: nat, page: Page)

  /** `pages` is the list from `bos`.  The history: `live` are the pages taken since the last
      DeallocAll, `lost` those of earlier rounds that were on no list any more when their
      round ended, `blocks` the blocks handed out in this round. */
  datatype Allocator = Allocator(
    alignment: nat,
    pageSize: nat,
    cacheCapacity: nat,
    pages: seq<Page>,
    cache: seq<Page>,
    cacheBytes: int,
    tosPtr: int,
    tosEnd: int,
    live: seq<Page>,
    lost: seq<Page>,
    blocks: seq<Block>)

  /** __Ceil_PowerOf2. */
  function Ceil(n: nat, alignment: nat): (r: nat)
    requires alignment >= 1
    ensures r % alignment == 0 && n <= r < n + alignment
  {
    var r := (n + alignment - 1) / alignment * alignment;
    CeilBounds(n + alignment - 1, alignment);
    r
  }

  lemma CeilBounds(m: nat, a: nat)
    requires a >= 1
    ensures m / a * a <= m < m / a * a + a && (m / a * a) % a == 0
  {
    assert m == m / a * a + m % a;
    DivisionUnique(m / a * a, a, m / a, 0);
  }

  lemma SumAligned(x: nat, y: nat, a: nat)
    requires a >= 1 && x % a == 0 && y % a == 0
    ensures (x + y) % a == 0
  {
    assert x == x / a * a && y == y / a * a;
    assert x + y == (x / a + y / a) * a;
    DivisionUnique(x + y, a, x / a + y / a, 0);
  }

  function Created(alignment: nat, pageSize: nat, cacheCapacity: nat): Allocator {
    Allocator(alignment, if pageSize < 4 * alignment then 4 * alignment else pageSize, cacheCapacity,
              [], [], 0, 0, 0, [], [], [])
  }

  /** The first cached page that is big enough, or the length of the cache. */
  function FindCached(cache: seq<Page>, nbytes: nat, i: nat): (r: nat)
    requires i <= |cache|
    ensures i <= r <= |cache| && (r < |cache| ==> cache[r].capacity >= nbytes)
    ensures forall k | i <= k < r :: cache[k].capacity < nbytes
    decreases |cache| - i
  {
    if i == |cache| || cache[i].capacity >= nbytes then i else FindCached(cache, nbytes, i + 1)
  }

  /** Puts a page on top of the stack.  `tos` keeps pointing at the first page, so its link
      is overwritten and a page that was linked there is on no list any more. */
  function AddPage(s: Allocator, page: Page): Allocator {
    s.(pages := if s.pages == [] then [page] else [s.pages[0], page],
       live := s.live + [page],
       tosPtr := page.base + s.alignment,
       tosEnd := page.base + s.pageSize)
  }

  function NewPageCapacity(s: Allocator, nbytes: nat): nat
    requires s.alignment >= 1
  {
    Ceil(if nbytes > s.pageSize then nbytes else s.pageSize, s.alignment)
  }

  function Uncached(s: Allocator, i: nat): Allocator
    requires i < |s.cache|
  {
    s.(cache := s.cache[..i] + s.cache[i + 1..], cacheBytes := s.cacheBytes - s.cache[i].capacity)
  }

  /** AllocateBackingStore; `base` is what malloc returns if a page has to be allocated. */
  function Backed(s: Allocator, nbytes: nat, base: Option<int>): Option<Allocator>
    requires s.alignment >= 1
  {
    var i := FindCached(s.cache, nbytes, 0);
    if i < |s.cache| then
      Some(AddPage(Uncached(s, i), s.cache[i]))
    else match base
         case None => None
         case Some(b) => Some(AddPage(s, Page(b, NewPageCapacity(s, nbytes))))
  }

  function Cut(s: Allocator, size: nat): Allocator
    requires s.live != []
  {
    s.(tosPtr := s.tosPtr + size, blocks := s.blocks + [Block(s.tosPtr, size, s.live[|s.live| - 1])])
  }

  /** Whether a request needs a new page. */
  predicate NeedsPage(s: Allocator, nbytes: nat)
    requires s.alignment >= 1
  {
    s.tosPtr + Ceil(nbytes, s.alignment) > s.tosEnd
  }

  /** Alloc; `None` if there is no memory.  A request for nothing gets no block. */
  function Alloc(s: Allocator, nbytes: nat, base: Option<int>): Option<Allocator>
    requires s.alignment >= 1 && (s.live == [] ==> s.tosPtr == s.tosEnd == 0)
  {
    if nbytes == 0 then Some(s)
    else if NeedsPage(s, nbytes) then
      match Backed(s, nbytes, base)
      case None => None
      case Some(r) => Some(Cut(r, Ceil(nbytes, s.alignment)))
    else Some(Cut(s, Ceil(nbytes, s.alignment)))
  }

  /** The pages on the list go to the cache as long as there is room there. */
  function Recycled(cache: seq<Page>, bytes: int, capacity: nat, pages: seq<Page>): (seq<Page>, int)
    decreases |pages|
  {
    if pages == [] then (cache, bytes)
    else if bytes + pages[0].capacity < capacity then
      Recycled([pages[0]] + cache, bytes + pages[0].capacity, capacity, pages[1..])
    else Recycled(cache, bytes, capacity, pages[1..])
  }

  function DeallocAll(s: Allocator): Allocator {
    var (cache, bytes) := Recycled(s.cache, s.cacheBytes, s.cacheCapacity, s.pages);
    s.(pages := [], cache := cache, cacheBytes := bytes, tosPtr := 0, tosEnd := 0, live := [], blocks := [],
       lost := s.lost + (if |s.live| > 2 then s.live[1..|s.live| - 1] else []))
  }

  // ---- The invariant ------------------------------------------------------------

  ghost predicate Apart(p: Page, q: Page, alignment: nat) {
    p.base + alignment + p.capacity <= q.base || q.base + alignment + q.capacity <= p.base
  }

  /** All regions in use: live, cached and lost pages. */
  ghost function Heap(s: Allocator): multiset<Page> {
    multiset(s.live) + multiset(s.cache) + multiset(s.lost)
  }

  ghost predicate PageOk(p: Page, alignment: nat, pageSize: nat) {
    p.base > 0 && alignment >= 1 && p.base % alignment == 0 && p.capacity % alignment == 0 && p.capacity >= pageSize
  }

  ghost predicate HeapOk(heap: multiset<Page>, alignment: nat, pageSize: nat) {
    && (forall p | p in heap :: PageOk(p, alignment, pageSize) && heap[p] == 1)
    && (forall p, q | p in heap && q in heap && p != q :: Apart(p, q, alignment))
  }

  function Capacities(pages: seq<Page>): nat {
    if pages == [] then 0 else pages[0].capacity + Capacities(pages[1..])
  }

  /** The list is the first and the latest of the live pages. */
  ghost predicate ListOk(s: Allocator) {
    s.pages == if |s.live| <= 1 then s.live else [s.live[0], s.live[|s.live| - 1]]
  }

  ghost predicate TopOk(s: Allocator)
    requires s.alignment >= 1
  {
    if s.live == [] then s.tosPtr == s.tosEnd == 0 && s.blocks == []
    else
      var top := s.live[|s.live| - 1];
      && top.base + s.alignment <= s.tosPtr <= top.base + s.alignment + top.capacity
      && s.tosPtr % s.alignment == 0 && s.tosEnd == top.base + s.pageSize
      && forall b | b in s.blocks :: b.page == top ==> b.addr + b.size <= s.tosPtr
  }

  /** An aligned block inside the payload of a live page. */
  ghost predicate BlockOk(s: Allocator, b: Block)
    requires s.alignment >= 1
  {
    && b.page in s.live && b.addr % s.alignment == 0
    && b.page.base + s.alignment <= b.addr && b.addr + b.size <= b.page.base + s.alignment + b.page.capacity
  }

  ghost predicate Disjoint(b: Block, c: Block) {
    b.addr + b.size <= c.addr || c.addr + c.size <= b.addr
  }

  ghost predicate BlocksOk(s: Allocator)
    requires s.alignment >= 1
  {
    && (forall b | b in s.blocks :: BlockOk(s, b))
    && (forall i, j | 0 <= i < j < |s.blocks| :: Disjoint(s.blocks[i], s.blocks[j]))
  }

  ghost predicate Inv(s: Allocator) {
    && s.alignment >= 1 && HeapOk(Heap(s), s.alignment, s.pageSize)
    && ListOk(s) && TopOk(s) && BlocksOk(s) && s.cacheBytes == Capacities(s.cache)
  }

  // ---- Taking pages -------------------------------------------------------------

  lemma {:induction false} CapacitiesWithout(pages: seq<Page>, i: nat)
    requires i < |pages|
    ensures Capacities(pages[..i] + pages[i + 1..]) + pages[i].capacity == Capacities(pages)
  {
    if i == 0 {
      assert pages[..0] + pages[1..] == pages[1..];
    } else {
      CapacitiesWithout(pages[1..], i - 1);
      assert (pages[..i] + pages[i + 1..])[1..] == pages[1..][..i - 1] + pages[1..][i..];
    }
  }

  lemma MultisetWithout(pages: seq<Page>, i: nat)
    requires i < |pages|
    ensures multiset(pages) == multiset(pages[..i] + pages[i + 1..]) + multiset{pages[i]}
  {
    assert pages == pages[..i] + [pages[i]] + pages[i + 1..];
  }

  /** A region that malloc may return for a page of the given capacity. */
  ghost predicate Fresh(s: Allocator, base: int, capacity: nat) {
    && s.alignment >= 1 && base > 0 && base % s.alignment == 0
    && forall p | p in Heap(s) :: Apart(Page(base, capacity), p, s.alignment)
  }

  /** `page` is in use, but by no block: it may become the top page. */
  lemma AddPageInv(s: Allocator, page: Page)
    requires s.alignment >= 1 && ListOk(s) && BlocksOk(s) && (s.live == [] ==> s.blocks == [])
    requires s.cacheBytes == Capacities(s.cache)
    requires HeapOk(Heap(s) + multiset{page}, s.alignment, s.pageSize)
    ensures Inv(AddPage(s, page))
    ensures AddPage(s, page).live != [] && AddPage(s, page).live[|s.live|] == page
  {
    hide Apart, Capacities, HeapOk, Heap, BlockOk, ListOk, TopOk;
    var r := AddPage(s, page);
    AddPageHeap(s, page);
    AddPageTop(s, page);
    forall b | b in r.blocks ensures BlockOk(r, b) {
      OldBlockElsewhere(s, page, b);
    }
  }

  lemma AddPageHeap(s: Allocator, page: Page)
    ensures Heap(AddPage(s, page)) == Heap(s) + multiset{page}
  {
    assert multiset(s.live + [page]) == multiset(s.live) + multiset{page};
  }

  /** The new page is on top: no block has been cut from it. */
  lemma AddPageTop(s: Allocator, page: Page)
    requires s.alignment >= 1 && ListOk(s) && BlocksOk(s)
    requires HeapOk(Heap(s) + multiset{page}, s.alignment, s.pageSize)
    ensures ListOk(AddPage(s, page)) && TopOk(AddPage(s, page))
  {
    hide Apart, BlockOk, Heap;
    assert page in Heap(s) + multiset{page};
    assert PageOk(page, s.alignment, s.pageSize);
    DivisionUnique(s.alignment, s.alignment, 1, 0);
    SumAligned(page.base, s.alignment, s.alignment);
    forall b | b in s.blocks ensures b.page != page {
      OldBlockElsewhere(s, page, b);
    }
  }

  lemma OldBlockElsewhere(s: Allocator, page: Page, b: Block)
    requires s.alignment >= 1 && BlocksOk(s) && b in s.blocks
    requires HeapOk(Heap(s) + multiset{page}, s.alignment, s.pageSize)
    ensures BlockOk(AddPage(s, page), b) && b.page != page
  {
    hide Apart;
    assert BlockOk(s, b);
    assert b.page in Heap(s);
    assert (Heap(s) + multiset{page})[page] == 1;
  }

  lemma UncachedHeap(s: Allocator, i: nat)
    requires i < |s.cache|
    ensures Heap(Uncached(s, i)) + multiset{s.cache[i]} == Heap(s)
  {
    MultisetWithout(s.cache, i);
  }

  lemma FromCacheInv(s: Allocator, i: nat)
    requires Inv(s) && i < |s.cache|
    ensures Inv(AddPage(Uncached(s, i), s.cache[i]))
  {
    hide Apart, HeapOk, Heap, Capacities;
    var p := Uncached(s, i);
    CapacitiesWithout(s.cache, i);
    UncachedHeap(s, i);
    forall b | b in p.blocks ensures BlockOk(p, b) {
      assert BlockOk(s, b);
    }
    AddPageInv(p, s.cache[i]);
  }

  lemma FreshPage(s: Allocator, page: Page)
    requires Inv(s) && Fresh(s, page.base, page.capacity)
    requires page.capacity % s.alignment == 0 && page.capacity >= s.pageSize
    ensures HeapOk(Heap(s) + multiset{page}, s.alignment, s.pageSize)
  {
    var heap := Heap(s) + multiset{page};
    forall p | p in Heap(s) ensures p != page {
      assert Apart(Page(page.base, page.capacity), p, s.alignment);
    }
    forall p | p in heap ensures PageOk(p, s.alignment, s.pageSize) && heap[p] == 1 {
      assert p in Heap(s) || p == page;
    }
    forall p, q | p in heap && q in heap && p != q ensures Apart(p, q, s.alignment) {
      if p == page { assert Apart(page, q, s.alignment); } else if q == page { assert Apart(page, p, s.alignment); }
    }
  }

  lemma FromMallocInv(s: Allocator, nbytes: nat, base: int)
    requires Inv(s) && Fresh(s, base, NewPageCapacity(s, nbytes))
    ensures Inv(AddPage(s, Page(base, NewPageCapacity(s, nbytes))))
  {
    var page := Page(base, NewPageCapacity(s, nbytes));
    FreshPage(s, page);
    AddPageInv(s, page);
  }

  /** The page that a request for more memory puts on top. */
  function TopPage(s: Allocator, nbytes: nat, base: Option<int>): Page
    requires s.alignment >= 1 && Backed(s, nbytes, base).Some?
  {
    var i := FindCached(s.cache, nbytes, 0);
    if i < |s.cache| then s.cache[i] else Page(base.value, NewPageCapacity(s, nbytes))
  }

  lemma BackedTop(s: Allocator, nbytes: nat, base: Option<int>)
    requires s.alignment >= 1 && Backed(s, nbytes, base).Some?
    ensures var r, page := Backed(s, nbytes, base).value, TopPage(s, nbytes, base);
            && r.live == s.live + [page] && page.capacity >= nbytes
            && r.alignment == s.alignment && r.blocks == s.blocks && r.tosPtr == page.base + s.alignment
  {
  }

  lemma BackedInv(s: Allocator, nbytes: nat, base: Option<int>)
    requires Inv(s) && (base.Some? ==> Fresh(s, base.value, NewPageCapacity(s, nbytes)))
    requires Backed(s, nbytes, base).Some?
    ensures Inv(Backed(s, nbytes, base).value)
  {
    var i := FindCached(s.cache, nbytes, 0);
    var r := Backed(s, nbytes, base).value;
    if i < |s.cache| {
      assert r == AddPage(Uncached(s, i), s.cache[i]);
      FromCacheInv(s, i);
    } else {
      assert r == AddPage(s, Page(base.value, NewPageCapacity(s, nbytes)));
      FromMallocInv(s, nbytes, base.value);
    }
  }

  // ---- Cutting blocks -----------------------------------------------------------

  /** Aligned numbers that do not fit exactly leave room for a whole unit. */
  lemma CeilFits(n: nat, capacity: nat, a: nat)
    requires a >= 1 && n <= capacity && capacity % a == 0
    ensures Ceil(n, a) <= capacity
  {
    if Ceil(n, a) > capacity { MultiplesApart(capacity, Ceil(n, a), a); }
  }

  lemma MultiplesApart(x: nat, y: nat, a: nat)
    requires a >= 1 && x % a == 0 && y % a == 0 && x < y
    ensures x + a <= y
  {
    var k, l := x / a, y / a;
    assert x == k * a && y == l * a;
    assert k < l by { if l <= k { MulMonotone(l, k, a); } }
    MulMonotone(k + 1, l, a);
    assert (k + 1) * a == k * a + a;
  }

  /** Where the next block is cut lies behind all blocks of the top page, and outside of all
      other pages in use. */
  lemma CutApart(s: Allocator, size: nat, b: Block)
    requires Inv(s) && s.live != [] && b in s.blocks
    requires s.tosPtr + size <= s.live[|s.live| - 1].base + s.alignment + s.live[|s.live| - 1].capacity
    ensures BlockOk(s, b) && Disjoint(b, Block(s.tosPtr, size, s.live[|s.live| - 1]))
  {
    hide Capacities, ListOk;
    var top := s.live[|s.live| - 1];
    assert BlockOk(s, b);
    if b.page != top {
      assert b.page in Heap(s) && top in Heap(s);
      assert Apart(b.page, top, s.alignment);
    }
  }

  lemma TopPositive(s: Allocator)
    requires Inv(s) && s.live != []
    ensures s.tosPtr > 0
  {
    var top := s.live[|s.live| - 1];
    assert top in Heap(s) && PageOk(top, s.alignment, s.pageSize);
  }

  /** A block cut from the top page is aligned, inside the page, and apart from all others. */
  lemma CutInv(s: Allocator, size: nat)
    requires Inv(s) && s.live != [] && size % s.alignment == 0
    requires s.tosPtr + size <= s.live[|s.live| - 1].base + s.alignment + s.live[|s.live| - 1].capacity
    ensures Inv(Cut(s, size))
  {
    hide Apart, Capacities, HeapOk;
    var r, block := Cut(s, size), Block(s.tosPtr, size, s.live[|s.live| - 1]);
    TopPositive(s);
    SumAligned(s.tosPtr, size, s.alignment);
    forall b | b in s.blocks ensures BlockOk(r, b) && Disjoint(b, block) {
      CutApart(s, size, b);
    }
    forall i, j | 0 <= i < j < |r.blocks| ensures Disjoint(r.blocks[i], r.blocks[j]) {
      if j < |s.blocks| { assert Disjoint(s.blocks[i], s.blocks[j]); } else { assert s.blocks[i] in s.blocks; }
    }
  }

  lemma AllocInv(s: Allocator, nbytes: nat, base: Option<int>)
    requires Inv(s) && (base.Some? ==> Fresh(s, base.value, NewPageCapacity(s, nbytes)))
    requires Alloc(s, nbytes, base).Some?
    ensures Inv(Alloc(s, nbytes, base).value)
  {
    if nbytes > 0 {
      if NeedsPage(s, nbytes) {
        BackedInv(s, nbytes, base);
        BackedTop(s, nbytes, base);
        var r := Backed(s, nbytes, base).value;
        var top := r.live[|r.live| - 1];
        assert top in Heap(r) && PageOk(top, r.alignment, r.pageSize);
        CeilFits(nbytes, top.capacity, s.alignment);
        CutInv(r, Ceil(nbytes, s.alignment));
      } else {
        var top := s.live[|s.live| - 1];
        assert top in Heap(s) && PageOk(top, s.alignment, s.pageSize);
        CutInv(s, Ceil(nbytes, s.alignment));
      }
    }
  }

  // ---- Giving pages back --------------------------------------------------------

  lemma {:induction false} RecycledKeeps(cache: seq<Page>, bytes: int, capacity: nat, pages: seq<Page>)
    requires bytes == Capacities(cache)
    ensures var (c, b) := Recycled(cache, bytes, capacity, pages);
            && b == Capacities(c) && multiset(c) <= multiset(cache) + multiset(pages)
            && (b < capacity || b == bytes)
    decreases |pages|
  {
    if pages != [] {
      assert pages == [pages[0]] + pages[1..];
      if bytes + pages[0].capacity < capacity {
        var more := [pages[0]] + cache;
        assert more[1..] == cache;
        RecycledKeeps(more, bytes + pages[0].capacity, capacity, pages[1..]);
        assert multiset(more) == multiset{pages[0]} + multiset(cache);
      } else {
        RecycledKeeps(cache, bytes, capacity, pages[1..]);
      }
    }
  }

  lemma EndsAndMiddle(pages: seq<Page>)
    requires |pages| > 2
    ensures multiset(pages) == multiset([pages[0], pages[|pages| - 1]]) + multiset(pages[1..|pages| - 1])
  {
    var n := |pages|;
    assert pages == [pages[0]] + pages[1..n - 1] + [pages[n - 1]];
    assert multiset([pages[0], pages[n - 1]]) == multiset([pages[0]]) + multiset([pages[n - 1]]);
  }

  lemma LiveSplit(s: Allocator)
    requires ListOk(s)
    ensures multiset(s.live) == multiset(s.pages) + multiset(if |s.live| > 2 then s.live[1..|s.live| - 1] else [])
  {
    var n := |s.live|;
    if n > 2 {
      EndsAndMiddle(s.live);
    } else if n == 2 {
      assert s.live == [s.live[0], s.live[1]];
    }
  }

  lemma SubheapOk(heap: multiset<Page>, part: multiset<Page>, alignment: nat, pageSize: nat)
    requires HeapOk(heap, alignment, pageSize) && part <= heap
    ensures HeapOk(part, alignment, pageSize)
  {
    forall p | p in part ensures p in heap && part[p] == 1 {
      assert part[p] <= heap[p];
    }
  }

  lemma DeallocAllInv(s: Allocator)
    requires Inv(s)
    ensures Inv(DeallocAll(s)) && DeallocAll(s).blocks == []
  {
    var r := DeallocAll(s);
    RecycledKeeps(s.cache, s.cacheBytes, s.cacheCapacity, s.pages);
    LiveSplit(s);
    assert Heap(r) <= Heap(s);
    SubheapOk(Heap(s), Heap(r), s.alignment, s.pageSize);
  }

  // ---- Runs ---------------------------------------------------------------------

  datatype Step = SAlloc(nbytes: nat, base: Option<int>) | SDeallocAll

  datatype Run = Create(alignment: nat, pageSize: nat, cacheCapacity: nat) | Then(before: Run, step: Step)

  function Apply(s: Allocator, st: Step): Allocator {
    match st
    case SAlloc(nbytes, base) =>
      if s.alignment >= 1 && (s.live == [] ==> s.tosPtr == s.tosEnd == 0) && Alloc(s, nbytes, base).Some?
      then Alloc(s, nbytes, base).value else s
    case SDeallocAll => DeallocAll(s)
  }

  function Final(run: Run): Allocator {
    match run
    case Create(alignment, pageSize, cacheCapacity) => Created(alignment, pageSize, cacheCapacity)
    case Then(before, step) => Apply(Final(before), step)
  }

  /** malloc returns regions apart from all regions in use, or nothing. */
  ghost predicate Valid(run: Run) {
    match run
    case Create(alignment, _, _) => alignment == 8 || alignment == 16
    case Then(before, step) =>
      && Valid(before)
      && match step
         case SAlloc(nbytes, Some(b)) =>
           var s := Final(before);
           s.alignment >= 1 && Fresh(s, b, NewPageCapacity(s, nbytes))
         case _ => true
  }

  lemma {:induction false} ReachableInv(run: Run)
    requires Valid(run)
    ensures Inv(Final(run))
  {
    match run
    case Create(_, _, _) =>
    case Then(before, step) =>
      ReachableInv(before);
      var s := Final(before);
      match step
      case SAlloc(nbytes, base) => if Alloc(s, nbytes, base).Some? { AllocInv(s, nbytes, base); }
      case SDeallocAll => DeallocAllInv(s);
  }

  /** Every block handed out since the last DeallocAll is aligned and lies in the payload of
      a page in use, and no two of them overlap; the cache's byte count is the sum of its
      pages. */
  lemma BlocksAreSafe(run: Run)
    requires Valid(run)
    ensures var s := Final(run);
            && s.alignment >= 1 && s.cacheBytes == Capacities(s.cache)
            && (forall b | b in s.blocks ::
                  && b.addr % s.alignment == 0 && b.page in s.live
                  && b.page.base + s.alignment <= b.addr
                  && b.addr + b.size <= b.page.base + s.alignment + b.page.capacity)
            && (forall i, j | 0 <= i < |s.blocks| && 0 <= j < |s.blocks| && i != j ::
                  s.blocks[i].addr + s.blocks[i].size <= s.blocks[j].addr
                  || s.blocks[j].addr + s.blocks[j].size <= s.blocks[i].addr)
  {
    ReachableInv(run);
    var s := Final(run);
    forall b | b in s.blocks ensures BlockOk(s, b) { }
    forall i, j | 0 <= i < |s.blocks| && 0 <= j < |s.blocks| && i != j
      ensures Disjoint(s.blocks[i], s.blocks[j]) || Disjoint(s.blocks[j], s.blocks[i])
    {
      if i < j { assert Disjoint(s.blocks[i], s.blocks[j]); } else { assert Disjoint(s.blocks[j], s.blocks[i]); }
    }
  }

  // ---- Lost pages ---------------------------------------------------------------

  /** DeallocAll walks the list from `bos`.  In every run that list holds all the pages taken
      since the last DeallocAll exactly if there are at most two of them. */
  lemma AllPagesWalkedExactly(run: Run)
    requires Valid(run)
    ensures var s := Final(run); multiset(s.pages) == multiset(s.live) <==> |s.live| <= 2
  {
    ReachableInv(run);
    var s := Final(run);
    LiveSplit(s);
    assert |multiset(s.live)| == |s.live| && |multiset(s.pages)| == |s.pages|;
  }

  /** A page that is walked goes to the cache or back to malloc; a page that is not walked is
      in neither place and on no list afterwards. */
  lemma LostPageIsNowhere(run: Run, i: nat)
    requires Valid(run) && 0 < i < |Final(run).live| - 1
    ensures var s, r := Final(run), DeallocAll(Final(run));
            s.live[i] !in s.pages && s.live[i] !in r.pages && s.live[i] !in r.cache
  {
    ReachableInv(run);
    var s, page := Final(run), Final(run).live[i];
    LiveSplit(s);
    assert s.live[1..|s.live| - 1][i - 1] == page;
    assert page in multiset(s.live[1..|s.live| - 1]);
    assert Heap(s)[page] == 1;
    RecycledKeeps(s.cache, s.cacheBytes, s.cacheCapacity, s.pages);
    var c := Recycled(s.cache, s.cacheBytes, s.cacheCapacity, s.pages).0;
    assert multiset(c)[page] <= multiset(s.cache)[page] + multiset(s.pages)[page] == 0;
    assert page !in multiset(c) && page !in multiset(s.pages);
  }

  /** Requests that each need a page of their own, at the given addresses. */
  function LargeBlocks(bases: seq<int>): Run {
    if bases == [] then Create(8, 32, 10_000)
    else Then(LargeBlocks(bases[..|bases| - 1]), SAlloc(100, Some(bases[|bases| - 1])))
  }

  lemma OneLargeBlock(s: Allocator, base: int)
    requires s.alignment == 8 && s.pageSize == 32 && s.cache == [] && s.tosPtr + 104 > s.tosEnd
    requires s.live == [] ==> s.tosPtr == s.tosEnd == 0
    ensures NewPageCapacity(s, 100) == 104
    ensures var page := Page(base, 104); var r := Apply(s, SAlloc(100, Some(base)));
            && r.live == s.live + [page] && r.pages == (if s.pages == [] then [page] else [s.pages[0], page])
            && r.cache == [] && r.alignment == 8 && r.pageSize == 32 && r.lost == s.lost
            && r.cacheBytes == s.cacheBytes && r.cacheCapacity == s.cacheCapacity
            && r.tosPtr == base + 112 && r.tosEnd == base + 32
  {
    assert Ceil(100, 8) == 104;
  }

  /** The state after the requests, one more of them at a time. */
  lemma MoreLargeBlocks(bases: seq<int>, base: int, live: seq<Page>)
    requires AfterLarge(bases, live) && base > 0 && base % 8 == 0
    requires forall p | p in live :: Apart(Page(base, 104), p, 8)
    ensures AfterLarge(bases + [base], live + [Page(base, 104)])
  {
    var s := Final(LargeBlocks(bases));
    assert (bases + [base])[..|bases|] == bases;
    OneLargeBlock(s, base);
    assert multiset(s.live) + multiset(s.cache) + multiset(s.lost) == multiset(live);
    assert Fresh(s, base, 104);
  }

  ghost predicate AfterLarge(bases: seq<int>, live: seq<Page>) {
    && Valid(LargeBlocks(bases))
    && var s := Final(LargeBlocks(bases));
       && s.alignment == 8 && s.pageSize == 32 && s.cacheCapacity == 10_000
       && s.cache == [] && s.cacheBytes == 0 && s.lost == [] && s.live == live
       && s.pages == (if |live| <= 1 then live else [live[0], live[|live| - 1]])
       && if live == [] then s.tosPtr == s.tosEnd == 0 else s.tosPtr >= s.tosEnd
  }

  lemma ThreePagesTaken()
    ensures AfterLarge([8, 1000, 2000], [Page(8, 104), Page(1000, 104), Page(2000, 104)])
  {
    hide LargeBlocks, Final, Valid;
    FirstPageTaken();
    MoreLargeBlocks([8], 1000, [Page(8, 104)]);
    assert [8] + [1000] == [8, 1000] && [Page(8, 104)] + [Page(1000, 104)] == [Page(8, 104), Page(1000, 104)];
    MoreLargeBlocks([8, 1000], 2000, [Page(8, 104), Page(1000, 104)]);
    assert [8, 1000] + [2000] == [8, 1000, 2000];
    assert [Page(8, 104), Page(1000, 104)] + [Page(2000, 104)] == [Page(8, 104), Page(1000, 104), Page(2000, 104)];
  }

  lemma FirstPageTaken()
    ensures AfterLarge([8], [Page(8, 104)])
  {
    MoreLargeBlocks([], 8, []);
    assert [] + [8] == [8] && [] + [Page(8, 104)] == [Page(8, 104)];
  }

  /** The second of three pages is lost: DeallocAll puts the other two into a cache that has
      room for all of them. */
  lemma SecondPageIsLost()
    ensures var run := LargeBlocks([8, 1000, 2000]); var s, r := Final(run), DeallocAll(Final(run));
            && Valid(run)
            && s.live == [Page(8, 104), Page(1000, 104), Page(2000, 104)]
            && r.cache == [Page(2000, 104), Page(8, 104)] && r.cacheBytes == 208 < r.cacheCapacity
            && r.live == [] && r.pages == []
  {
    hide LargeBlocks, Final, Valid;
    ThreePagesTaken();
    TwoRecycled(Page(8, 104), Page(2000, 104), 10_000);
  }

  lemma TwoRecycled(p: Page, q: Page, capacity: nat)
    requires p.capacity + q.capacity < capacity
    ensures Recycled([], 0, capacity, [p, q]) == ([q, p], p.capacity + q.capacity)
  {
    assert [p, q][1..] == [q] && [q][1..] == [];
    assert [p] + [] == [p] && [q] + [p] == [q, p];
    assert Recycled([p], p.capacity, capacity, [q]) == Recycled([q, p], p.capacity + q.capacity, capacity, []);
  }
}
