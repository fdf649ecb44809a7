/**
 `free_pages_ok`, `RMQUEUE`, `EXPAND` and `__get_free_pages` of `mm/page_alloc.c`, changing the
 free lists, bitmaps and free-page count in place.
 */
module PageAlloc {
  import opened Common
  import opened Bits
  import opened Buddy

  /** A free list holds the first pages of blocks, head first. */
  type Lists = seq<seq<nat>>

  ghost predicate ListsOk(free: Lists)
  {
    && |free| == NR_MEM_LISTS
    && (forall k, m :: 0 <= k <= TOP && m in free[k] ==> m == Shl(Shr(m, k), k))
    && (forall k, x, y :: 0 <= k <= TOP && 0 <= x < y < |free[k]| ==> free[k][x] != free[k][y])
  }

  ghost function BlocksOf(free: Lists): (B: Blocks)
    ensures |B| == |free|
  {
    seq(|free|, k requires 0 <= k < |free| => set m | m in free[k] :: Shr(m, k))
  }

  /** Pages on the lists from order `k` on. */
  function Total(free: Lists, k: nat): nat
    requires k <= |free|
    decreases |free| - k
  {
    if k == |free| then 0 else Shl(|free[k]|, k) + Total(free, k + 1)
  }

  /** `map_nr & ~((1 << k) - 1)`. */
  function Floor(m: nat, k: nat): nat
  {
    Shl(Shr(m, k), k)
  }

  /** `add_mem_queue`. */
  function Enqueued(free: Lists, k: nat, m: nat): Lists
    requires k < |free|
  {
    free[k := [m] + free[k]]
  }

  /** `remove_mem_queue`. */
  function Unlinked(s: seq<nat>, m: nat): (r: seq<nat>)
    requires m in s
    ensures |r| == |s| - 1
  {
    if s[0] == m then s[1..] else [s[0]] + Unlinked(s[1..], m)
  }

  function Dequeued(free: Lists, k: nat, m: nat): Lists
    requires k < |free| && m in free[k]
  {
    free[k := Unlinked(free[k], m)]
  }

  lemma {:induction false} UnlinkedMeans(s: seq<nat>, m: nat)
    requires m in s && forall x, y :: 0 <= x < y < |s| ==> s[x] != s[y]
    ensures forall x, y :: 0 <= x < y < |Unlinked(s, m)| ==> Unlinked(s, m)[x] != Unlinked(s, m)[y]
    ensures forall e :: e in Unlinked(s, m) <==> e in s && e != m
  {
    if s[0] == m {
      assert s == [m] + s[1..];
    } else {
      UnlinkedMeans(s[1..], m);
      assert s == [s[0]] + s[1..];
      var u := Unlinked(s[1..], m);
      assert Unlinked(s, m) == [s[0]] + u;
      forall y | 0 <= y < |u| ensures u[y] != s[0] {
        assert u[y] in u;
      }
    }
  }

  lemma {:induction false} TotalUpdate(free: Lists, k: nat, l: seq<nat>, from: nat)
    requires from <= k < |free|
    ensures Total(free[k := l], from) + Shl(|free[k]|, k) == Total(free, from) + Shl(|l|, k)
    decreases k - from
  {
    if from < k {
      TotalUpdate(free, k, l, from + 1);
    } else {
      SameTail(free, free[k := l], k + 1);
    }
  }

  lemma {:induction false} SameTail(f: Lists, g: Lists, k: nat)
    requires |f| == |g| && k <= |f| && forall i :: k <= i < |f| ==> f[i] == g[i]
    ensures Total(f, k) == Total(g, k)
    decreases |f| - k
  {
    if k < |f| {
      SameTail(f, g, k + 1);
    }
  }

  lemma SameBlocks(free: Lists, free': Lists, k: nat, b: set<nat>)
    requires k < |free| == |free'| && (forall j :: 0 <= j < |free| && j != k ==> free'[j] == free[j])
    requires BlocksOf(free')[k] == b
    ensures BlocksOf(free') == BlocksOf(free)[k := b]
  {
    forall j | 0 <= j < |free| && j != k ensures BlocksOf(free')[j] == BlocksOf(free)[j] {
    }
  }

  lemma Dequeue(free: Lists, k: nat, m: nat)
    requires ListsOk(free) && k <= TOP && m in free[k]
    ensures ListsOk(Dequeued(free, k, m)) && Shr(m, k) in BlocksOf(free)[k]
    ensures BlocksOf(Dequeued(free, k, m)) == BlocksOf(free)[k := BlocksOf(free)[k] - {Shr(m, k)}]
    ensures Total(Dequeued(free, k, m), 0) + Pow2(k) == Total(free, 0)
  {
    hide Shl, Shr, Total;
    UnlinkedMeans(free[k], m);
    TotalUpdate(free, k, Unlinked(free[k], m), 0);
    ShlAdd(|free[k]| - 1, 1, k);
    var B, B' := BlocksOf(free)[k], BlocksOf(Dequeued(free, k, m))[k];
    forall i ensures i in B' <==> i in B && i != Shr(m, k) {
      if i in B && i != Shr(m, k) {
        var e :| e in free[k] && Shr(e, k) == i;
        assert e in Unlinked(free[k], m);
      }
    }
    SameBlocks(free, Dequeued(free, k, m), k, B - {Shr(m, k)});
  }

  lemma Enqueue(free: Lists, k: nat, m: nat)
    requires ListsOk(free) && k <= TOP && m == Shl(Shr(m, k), k) && Shr(m, k) !in BlocksOf(free)[k]
    ensures ListsOk(Enqueued(free, k, m))
    ensures BlocksOf(Enqueued(free, k, m)) == BlocksOf(free)[k := BlocksOf(free)[k] + {Shr(m, k)}]
    ensures Total(Enqueued(free, k, m), 0) == Total(free, 0) + Pow2(k)
  {
    hide Shl, Shr, Total;
    assert m !in free[k];
    TotalUpdate(free, k, [m] + free[k], 0);
    ShlAdd(|free[k]|, 1, k);
    var B, B' := BlocksOf(free)[k], BlocksOf(Enqueued(free, k, m))[k];
    forall i ensures i in B' <==> i in B || i == Shr(m, k) {
      assert forall e :: e in [m] + free[k] <==> e == m || e in free[k];
    }
    SameBlocks(free, Enqueued(free, k, m), k, B + {Shr(m, k)});
  }

  /** First page of a listed block number. */
  lemma Listed(free: Lists, k: nat, i: nat)
    requires ListsOk(free) && k <= TOP && i in BlocksOf(free)[k]
    ensures Shl(i, k) in free[k]
  {
    var m :| m in free[k] && Shr(m, k) == i;
  }

  /** Handed-out blocks, first page to order, overlap neither free blocks nor each other. */
  ghost predicate OwnedOk(owned: map<nat, nat>, B: Blocks)
    requires |B| == NR_MEM_LISTS
  {
    && (forall m :: m in owned ==> owned[m] <= TOP && m == Floor(m, owned[m]) && Pending(B, owned[m], Shr(m, owned[m])))
    && (forall m, n :: m in owned && n in owned && m != n ==> BlocksApart(owned, m, n))
  }

  ghost predicate BlocksApart(owned: map<nat, nat>, m: nat, n: nat)
    requires m in owned && n in owned
  {
    !Overlap(owned[m], Shr(m, owned[m]), owned[n], Shr(n, owned[n]))
  }

  /** Every allocated block has a user, unless it is reserved, and reserved blocks are allocated. */
  ghost predicate CountsOk(count: map<nat, nat>, reserved: set<nat>, owned: map<nat, nat>)
  {
    count.Keys == owned.Keys && (forall m :: m in count && m !in reserved ==> count[m] >= 1) && reserved <= owned.Keys
  }

  /** An owned block stays clear of free blocks that gain only the pages of a block it does
      not overlap. */
  lemma StaysPending(B: Blocks, B': Blocks, k: nat, i: nat, k': nat, j: nat)
    requires |B| == NR_MEM_LISTS && |B'| == NR_MEM_LISTS && Pending(B, k', j) && k <= TOP
    requires forall p: nat :: FreePage(B', p) ==> FreePage(B, p) || Shr(p, k) == i
    requires !Overlap(k, i, k', j)
    ensures Pending(B', k', j)
  {
    forall o, b | 0 <= o <= TOP && b in B'[o] ensures !Overlap(k', j, o, b) {
      if Overlap(k', j, o, b) {
        OverlapMeans(k', j, o, b);
        var p :| Shr(p, k') == j && Shr(p, o) == b;
        assert FreePage(B', p);
        if FreePage(B, p) {
          var o' :| 0 <= o' < |B| && Shr(p, o') in B[o'];
          OverlapAt(p, k', o');
          assert false;
        } else {
          OverlapAt(p, k, k');
          assert false;
        }
      }
    }
  }

  /** No block of the list may be used: all must do for DMA and none does. */
  predicate NoneUsable(s: seq<nat>, dma: bool, dmaPages: set<nat>)
  {
    forall m :: m in s ==> dma && m !in dmaPages
  }

  lemma NothingUsable(s: seq<nat>, dmaPages: set<nat>)
    ensures NoneUsable(s, false, dmaPages) <==> s == []
  {
    if s != [] {
      assert s[0] in s;
    }
  }

  /** The bitmap of the largest order after block `m` has been taken: one bit is flipped if no smaller list has a
      block that may be used, and freeing does not flip it back. */
  ghost function TopBits(bits: set<nat>, free: Lists, order: nat, dma: bool, dmaPages: set<nat>, m: nat): set<nat>
    requires |free| == NR_MEM_LISTS
  {
    if forall o :: order <= o < TOP ==> NoneUsable(free[o], dma, dmaPages) then Toggle(bits, Shr(m, 1 + TOP)) else bits
  }

  datatype Priority = GFP_ATOMIC | GFP_NFS | GFP_BUFFER | GFP_IO | GFP_OTHER

  /** Pages that a request leaves in reserve: a few for NFS, and for buffers and I/O, if there are many, an
      eighth and twelve fewer than for others. */
  function Reserve(priority: Priority, minFree: nat): (r: int)
    ensures priority == GFP_NFS ==> r == 5
    ensures priority == GFP_ATOMIC || priority == GFP_OTHER || (priority != GFP_NFS && minFree < 48) ==> r == minFree
    ensures (priority == GFP_BUFFER || priority == GFP_IO) && minFree >= 48 ==> 0 <= 8 * (r + 12) - 7 * minFree < 8
  {
    var r := if priority == GFP_NFS then 5 else minFree;
    if (priority == GFP_BUFFER || priority == GFP_IO) && r >= 48 then r - (12 + r / 8) else r
  }

  /** The pages from `lo` up to `hi`. */
  function Range(lo: nat, hi: nat): (s: set<nat>)
    ensures forall p: nat :: p in s <==> lo <= p < hi
    decreases hi - lo
  {
    if lo >= hi then {} else {lo} + Range(lo + 1, hi)
  }

  /** All these pages as blocks of order 0. */
  function Single(lo: nat, hi: nat): map<nat, nat>
  {
    map p | p in Range(lo, hi) :: 0
  }

  lemma NextPage(lo: nat, hi: nat)
    requires lo < hi
    ensures lo in Single(lo, hi) && Single(lo, hi)[lo] == 0 && Single(lo, hi) - {lo} == Single(lo + 1, hi)
    ensures Range(lo, hi) - {lo} == Range(lo + 1, hi)
  {
  }

  lemma NoPages(n: nat)
    ensures Range(n, n) == {} && Single(n, n) == map[]
  {
  }

  const MAX_SHRINK_RATIO := 30

  /** The Mach server may lower `min_free_pages` rather than fail: not below the initial value, and to let the
      buffer cache grow only if much more than all memory is asked to be kept free. */
  predicate MayLower(priority: Priority, minFree: nat, initialMin: nat, pages: nat): (r: bool)
    ensures r <==> minFree > initialMin && (priority == GFP_BUFFER ==> 7 * minFree > 10 * pages)
  {
    minFree > initialMin && (priority != GFP_BUFFER || minFree > pages * 100 / (100 - MAX_SHRINK_RATIO))
  }

  /** A block of free pages is handed out: it stays clear of all others that are. */
  lemma Granted(B: Blocks, C: Blocks, owned: map<nat, nat>, m: nat, order: nat)
    requires |B| == NR_MEM_LISTS && |C| == NR_MEM_LISTS && OwnedOk(owned, B) && order <= TOP && m == Floor(m, order)
    requires Pending(C, order, Shr(m, order)) && Grows(C, B, order, Shr(m, order))
    ensures m !in owned && Whole(B, order, Shr(m, order)) && OwnedOk(owned[m := order], C)
  {
    hide Shl, Shr, Low, FreePage, Pending, Overlap, Floor;
    assert Whole(B, order, Shr(m, order));
    forall n | n in owned
      ensures !Overlap(order, Shr(m, order), owned[n], Shr(n, owned[n])) && !Overlap(owned[n], Shr(n, owned[n]), order, Shr(m, order))
      ensures n != m && Pending(C, owned[n], Shr(n, owned[n]))
    {
      WholeApart(B, order, Shr(m, order), owned[n], Shr(n, owned[n]));
      OverlapAt(m, order, owned[n]);
      StaysPending(B, C, order, Shr(m, order), owned[n], Shr(n, owned[n]));
    }
    var owned' := owned[m := order];
    forall n, n' | n in owned' && n' in owned' && n != n' ensures BlocksApart(owned', n, n') {
      if n != m && n' != m {
        assert BlocksApart(owned, n, n');
      }
    }
  }

  class FreeArea {
    var free: Lists
    var maps: Maps
    var nrFree: int
    var count: map<nat, nat>      // users of each allocated block
    var reserved: set<nat>        // blocks that are never freed
    ghost var owned: map<nat, nat> // allocated blocks, with their orders

    ghost predicate Ok()
      reads this
    {
      ListsOk(free) && Inv(BlocksOf(free), maps)
    }

    ghost predicate Valid()
      reads this
    {
      Ok() && nrFree == Total(free, 0) && OwnedOk(owned, BlocksOf(free)) && CountsOk(count, reserved, owned)
    }

    /** `free_area_init`: all pages are reserved and none is free. */
    constructor (pages: nat)
      ensures Valid() && nrFree == 0 && reserved == Range(0, pages)
      ensures owned == count == Single(0, pages)
      ensures maps[TOP] == {} && forall p: nat :: !FreePage(BlocksOf(free), p)
    {
      free, maps, nrFree := seq(NR_MEM_LISTS, _ => []), seq(NR_MEM_LISTS, _ => {}), 0;
      owned, count, reserved := Single(0, pages), Single(0, pages), Range(0, pages);
      new;
      EmptyTotal(free, 0);
      forall p: nat ensures Shr(p, 0) == p && Shl(p, 0) == p {
      }
    }

    /** A reserved page is given to the allocator. */
    method GiveOver(m: nat)
      requires Valid() && m in owned && owned[m] == 0
      modifies this
      ensures Valid() && reserved == old(reserved) - {m} && owned == old(owned) - {m} && nrFree == old(nrFree) + 1
      ensures |maps| == NR_MEM_LISTS && maps[TOP] == old(maps)[TOP]
      ensures forall p: nat :: FreePage(BlocksOf(free), p) <==> FreePage(old(BlocksOf(free)), p) || p == m
    {
      hide Shl, Shr, FreePage, ListsOk, DisjointOk, OwnedOk, Total;
      PowZero();
      reserved := reserved - {m};
      count := count[m := 1];
      FreePages(m, 0);
      forall p: nat ensures Shr(p, 0) == p {
        ShrZero(p);
      }
    }

    /** The loop of `mem_init` that gives all pages to the allocator, one by one. */
    method MemInit(pages: nat)
      requires Valid() && nrFree == 0 && reserved == Range(0, pages) && owned == Single(0, pages)
      requires forall p: nat :: !FreePage(BlocksOf(free), p)
      modifies this
      ensures Valid() && owned == map[] && reserved == {} && nrFree == pages && maps[TOP] == old(maps)[TOP]
      ensures forall p: nat :: FreePage(BlocksOf(free), p) <==> p < pages
    {
      BlocksSize(free);
      hide Valid, FreePage, Range, Single, BlocksOf;
      var tmp := 0;
      while tmp < pages
        invariant 0 <= tmp <= pages && Valid() && nrFree == tmp && |maps| == NR_MEM_LISTS && maps[TOP] == old(maps)[TOP]
        invariant reserved == Range(tmp, pages) && owned == Single(tmp, pages)
        invariant forall p: nat :: FreePage(BlocksOf(free), p) <==> p < tmp
      {
        NextPage(tmp, pages);
        GiveOver(tmp);
        tmp := tmp + 1;
      }
      NoPages(pages);
    }

    /** `free_pages_ok`: merge with free buddies, as told by one bit per pair, as long as
        there are any. */
    method FreePagesOk(mapNr: nat, order: nat)
      requires Ok() && order <= TOP && Pending(BlocksOf(free), order, Shr(mapNr, order))
      requires nrFree == Total(free, 0)
      modifies this`free, this`maps, this`nrFree
      ensures Ok() && nrFree == Total(free, 0) == old(nrFree) + Pow2(order) && maps[TOP] == old(maps)[TOP]
      ensures Grows(old(BlocksOf(free)), BlocksOf(free), order, Shr(mapNr, order))
    {
      hide Shl, Shr, Low, Total, FreePage;
      var k, index, m := order, Shr(mapNr, 1 + order), Floor(mapNr, order);
      ghost var i := Shr(mapNr, order);
      ShrShl(i, order);
      ShrUp(mapNr, order);
      nrFree := nrFree + Pow2(order);
      ghost var before := maps;
      while k < TOP
        invariant order <= k <= TOP && Ok() && before == maps && nrFree == Total(free, 0) + Pow2(k) == old(nrFree) + Pow2(order)
        invariant maps[TOP] == old(maps)[TOP]
        invariant m == Shl(i, k) && index == i / 2 && Pending(BlocksOf(free), k, i)
        invariant forall p: nat :: FreePage(old(BlocksOf(free)), p) || Shr(p, order) == Shr(mapNr, order) <==>
                             FreePage(BlocksOf(free), p) || Shr(p, k) == i
      {
        NotListed(BlocksOf(free), k, i);
        var was := index in maps[k];
        before := maps;
        maps := maps[k := Toggle(maps[k], index)];
        if !was {
          break;
        }
        ghost var B := BlocksOf(free);
        assert Mate(i) in B[k];
        Listed(free, k, Mate(i));
        var mate := Flip(m, k);
        FlipIs(i, k);
        assert Mate(i) / 2 == index;
        Remove(B, before, k, Mate(i));
        Dequeue(free, k, mate);
        before := maps;
        free := Dequeued(free, k, mate);
        PendingWith(B, BlocksOf(free), k, i, k, Mate(i));
        PendingUp(BlocksOf(free), k, i);
        Pow2Step(k);
        MateOver(i, k);
        k, index, m := k + 1, index / 2, Floor(m, k + 1);
        i := i / 2;
      }
      NotListed(BlocksOf(free), k, i);
      Add(BlocksOf(free), before, k, i);
      ShrShl(i, k);
      Enqueue(free, k, m);
      free := Enqueued(free, k, m);
    }

    /** One round of `EXPAND`: the lower half of a block goes to the list below. */
    method FreeLowerHalf(m: nat, high: nat, ghost i: nat)
      requires Ok() && high < TOP && m == Shl(i, high + 1) && Pending(BlocksOf(free), high + 1, i)
      modifies this`free, this`maps
      ensures Ok() && Pending(BlocksOf(free), high, 2 * i + 1) && Shl(2 * i + 1, high) == m + Pow2(high)
      ensures maps[TOP] == old(maps)[TOP]
      ensures Total(free, 0) == old(Total(free, 0)) + Pow2(high)
      ensures forall p: nat :: FreePage(old(BlocksOf(free)), p) || Shr(p, high + 1) == i <==>
                         FreePage(BlocksOf(free), p) || Shr(p, high) == 2 * i + 1
    {
      hide Shl, Shr, Low, Total, FreePage;
      ghost var B := BlocksOf(free);
      PendingDown(B, high, i);
      HalfNames(i, high);
      NotListed(B, high, 2 * i);
      NotListed(B, high, 2 * i + 1);
      Add(B, maps, high, 2 * i);
      Enqueue(free, high, m);
      MarkIndex(m, high, i);
      free := Enqueued(free, high, m);
      maps := maps[high := Toggle(maps[high], Shr(m, 1 + high))];
      UpperPending(B, BlocksOf(free), high, 2 * i);
    }

    /** `EXPAND`: halve a block down to order `low`, freeing the lower half each time. */
    method Expand(m0: nat, low: nat, high0: nat) returns (m: nat)
      requires Ok() && low <= high0 <= TOP && m0 == Floor(m0, high0) && Pending(BlocksOf(free), high0, Shr(m0, high0))
      modifies this`free, this`maps
      ensures Ok() && m == Floor(m, low) && Pending(BlocksOf(free), low, Shr(m, low))
      ensures |maps| == |old(maps)| == NR_MEM_LISTS && maps[TOP] == old(maps)[TOP]
      ensures Total(free, 0) + Pow2(low) == old(Total(free, 0)) + Pow2(high0)
      ensures forall p: nat :: FreePage(old(BlocksOf(free)), p) || Shr(p, high0) == Shr(m0, high0) <==>
                         FreePage(BlocksOf(free), p) || Shr(p, low) == Shr(m, low)
      ensures Shr(m, high0) == Shr(m0, high0)
    {
      hide Shl, Shr, Low, Total, FreePage, Pending, Ok, BlocksOf;
      var high, size := high0, Pow2(high0);
      m := m0;
      ghost var i := Shr(m0, high0);
      ShrZero(i);
      BlocksSize(free);
      while high > low
        invariant low <= high <= high0 && Ok() && size == Pow2(high)
        invariant |maps| == |old(maps)| == NR_MEM_LISTS && maps[TOP] == old(maps)[TOP]
        invariant |BlocksOf(free)| == NR_MEM_LISTS && m == Shl(i, high) && Pending(BlocksOf(free), high, i)
        invariant Total(free, 0) + Pow2(high) == old(Total(free, 0)) + Pow2(high0)
        invariant forall p: nat :: FreePage(old(BlocksOf(free)), p) || Shr(p, high0) == Shr(m0, high0) <==>
                             FreePage(BlocksOf(free), p) || Shr(p, high) == i
        invariant Shr(i, high0 - high) == Shr(m0, high0)
      {
        UpperHalf(i, high0 - high);
        high := high - 1;
        Pow2Step(high);
        size := size / 2;
        FreeLowerHalf(m, high, i);
        BlocksSize(free);
        m, i := m + size, 2 * i + 1;
      }
      ShrShl(i, low);
      ShrShr(m, low, high0 - low);
    }

    /** `RMQUEUE`: the first block that may be used on the first list, from order `order` up,
        that has one. */
    method RmQueue(order: nat, dma: bool, dmaPages: set<nat>) returns (r: Option<nat>, ghost k: nat, ghost m: nat)
      requires Ok() && order <= TOP && nrFree == Total(free, 0)
      modifies this`free, this`maps, this`nrFree
      ensures Ok() && nrFree == Total(free, 0) == old(nrFree) - (if r.Some? then Pow2(order) else 0)
      ensures r.None? ==> free == old(free) && maps == old(maps)
      ensures r.None? ==> forall k :: order <= k <= TOP ==> NoneUsable(free[k], dma, dmaPages)
      ensures r.Some? ==> r.value == Floor(r.value, order) && Pending(BlocksOf(free), order, Shr(r.value, order))
      ensures r.Some? ==> Grows(BlocksOf(free), old(BlocksOf(free)), order, Shr(r.value, order))
      ensures r.Some? ==> order <= k <= TOP && m in old(free)[k] && (dma ==> m in dmaPages) && Shr(r.value, k) == Shr(m, k)
      ensures r.Some? ==> forall o :: order <= o < k ==> NoneUsable(old(free)[o], dma, dmaPages)
      ensures r.Some? ==> maps[TOP] == if k == TOP then Toggle(old(maps)[TOP], Shr(m, 1 + TOP)) else old(maps)[TOP]
    {
      hide Shl, Shr, Low, Total, FreePage, Pending, Inv;
      k, m := 0, 0;
      var newOrder := order;
      while newOrder < NR_MEM_LISTS
        invariant order <= newOrder <= NR_MEM_LISTS && free == old(free) && maps == old(maps) && nrFree == old(nrFree)
        invariant forall o :: order <= o < newOrder ==> NoneUsable(free[o], dma, dmaPages)
      {
        var j := 0;
        while j < |free[newOrder]|
          invariant 0 <= j <= |free[newOrder]| && free == old(free) && maps == old(maps) && nrFree == old(nrFree)
          invariant forall x :: 0 <= x < j ==> dma && free[newOrder][x] !in dmaPages
        {
          var mapNr := free[newOrder][j];
          if !dma || mapNr in dmaPages {
            var ret := Take(newOrder, mapNr, order);
            k, m := newOrder, mapNr;
            return Some(ret), k, m;
          }
          j := j + 1;
        }
        assert NoneUsable(free[newOrder], dma, dmaPages);
        newOrder := newOrder + 1;
      }
      r := None;
    }

    /** Take block `m` off list `k` and split it. */
    method Take(k: nat, m: nat, order: nat) returns (ret: nat)
      requires Ok() && order <= k <= TOP && m in free[k] && nrFree == Total(free, 0)
      modifies this`free, this`maps, this`nrFree
      ensures Ok() && nrFree == Total(free, 0) == old(nrFree) - Pow2(order)
      ensures ret == Floor(ret, order) && Pending(BlocksOf(free), order, Shr(ret, order))
      ensures Grows(BlocksOf(free), old(BlocksOf(free)), order, Shr(ret, order)) && Shr(ret, k) == Shr(m, k)
      ensures maps[TOP] == if k == TOP then Toggle(old(maps)[TOP], Shr(m, 1 + TOP)) else old(maps)[TOP]
    {
      hide Shl, Shr, Low, Total, FreePage, Pending, Inv;
      BlocksSize(free);
      Dequeue(free, k, m);
      Remove(BlocksOf(free), maps, k, Shr(m, k));
      ShrUp(m, k);
      free := Dequeued(free, k, m);
      maps := maps[k := Toggle(maps[k], Shr(m, 1 + k))];
      nrFree := nrFree - Pow2(order);
      ret := Expand(m, order, k);
    }

    /** With no restriction, `RMQUEUE` falls through exactly when no aligned run of `1 << order`
        free pages exists. */
    lemma NoRunLeft(order: nat)
      requires Ok() && order <= TOP
      ensures (forall k :: order <= k <= TOP ==> free[k] == []) <==> forall i: nat :: !Whole(BlocksOf(free), order, i)
    {
      var B := BlocksOf(free);
      if forall k :: order <= k <= TOP ==> free[k] == [] {
        forall i: nat | Whole(B, order, i) ensures false {
          var k := Covered(B, maps, order, i);
        }
      } else {
        var k :| order <= k <= TOP && free[k] != [];
        var m := free[k][0];
        assert Shr(m, k) in B[k];
        ShrShr(m, order, k - order);
        PartOfFree(B, order, Shr(m, order), k);
      }
    }

    /** `free_pages` of a block with the order it was allocated with: the last user gives it back. */
    method FreePages(m: nat, order: nat)
      requires Valid() && m in owned && owned[m] == order
      modifies this
      ensures Valid() && reserved == old(reserved)
      ensures m in reserved ==> free == old(free) && maps == old(maps) && owned == old(owned) && count == old(count)
      ensures m !in reserved && old(count)[m] > 1 ==>
        free == old(free) && maps == old(maps) && owned == old(owned) && count == old(count)[m := old(count)[m] - 1]
      ensures m !in reserved && old(count)[m] == 1 ==> owned == old(owned) - {m} && count == old(count) - {m}
      ensures m !in reserved && old(count)[m] == 1 ==> nrFree == old(nrFree) + Pow2(order) && maps[TOP] == old(maps)[TOP]
      ensures m !in reserved && old(count)[m] == 1 ==> Grows(old(BlocksOf(free)), BlocksOf(free), order, Shr(m, order))
    {
      hide Shl, Shr, Low, Total, FreePage, Pending, Inv, Overlap, OwnedOk, Grows;
      if m in reserved {
        return;
      }
      count := count[m := count[m] - 1];
      if count[m] == 0 {
        count := count - {m};
        Release(m, order);
      }
    }

    /** The last user of a block is gone. */
    method Release(m: nat, order: nat)
      requires Ok() && nrFree == Total(free, 0) && OwnedOk(owned, BlocksOf(free)) && m in owned && owned[m] == order
      modifies this`free, this`maps, this`nrFree, this`owned
      ensures Ok() && nrFree == Total(free, 0) && OwnedOk(owned, BlocksOf(free)) && owned == old(owned) - {m}
      ensures nrFree == old(nrFree) + Pow2(order) && maps[TOP] == old(maps)[TOP]
      ensures Grows(old(BlocksOf(free)), BlocksOf(free), order, Shr(m, order))
    {
      hide Shl, Shr, Low, Total, FreePage, Pending, Inv, Overlap;
      ghost var B := BlocksOf(free);
      FreePagesOk(m, order);
      forall n | n in owned && n != m ensures Pending(BlocksOf(free), owned[n], Shr(n, owned[n])) {
        assert BlocksApart(owned, m, n);
        StaysPending(B, BlocksOf(free), order, Shr(m, order), owned[n], Shr(n, owned[n]));
      }
      owned := owned - {m};
      assert forall n, n' :: n in owned && n' in owned && n != n' ==> BlocksApart(old(owned), n, n');
    }

    /** One try of `RMQUEUE`, with the books on who has what. */
    method TryQueues(order: nat, dma: bool, dmaPages: set<nat>) returns (r: Option<nat>)
      requires Valid() && order <= TOP
      modifies this
      ensures Valid()
      ensures reserved == old(reserved) && count == if r.Some? then old(count)[r.value := 1] else old(count)
      ensures nrFree == old(nrFree) - if r.Some? then Pow2(order) else 0
      ensures r.None? ==> free == old(free) && maps == old(maps) && owned == old(owned)
      ensures r.None? ==> forall k :: order <= k <= TOP ==> NoneUsable(free[k], dma, dmaPages)
      ensures r.None? && !dma ==> forall i: nat :: !Whole(BlocksOf(free), order, i)
      ensures r.Some? ==> r.value == Floor(r.value, order) && Whole(old(BlocksOf(free)), order, Shr(r.value, order))
      ensures r.Some? ==> Grows(BlocksOf(free), old(BlocksOf(free)), order, Shr(r.value, order))
      ensures r.Some? ==> r.value !in old(owned) && owned == old(owned)[r.value := order]
      ensures r.Some? ==> maps[TOP] == TopBits(old(maps)[TOP], old(free), order, dma, dmaPages, r.value)
    {
      hide Shl, Shr, Low, Total, FreePage, Pending, Inv, Overlap;
      ghost var B := BlocksOf(free);
      ghost var k, head;
      r, k, head := RmQueue(order, dma, dmaPages);
      if r.None? {
        NoRunLeft(order);
        if !dma {
          forall k | order <= k <= TOP ensures free[k] == [] {
            NothingUsable(free[k], dmaPages);
          }
        }
      } else {
        var m := r.value;
        ShrUp(m, k);
        ShrUp(head, k);
        assert k < TOP ==> !NoneUsable(old(free)[k], dma, dmaPages);
        Granted(B, BlocksOf(free), owned, m, order);
        owned, count := owned[m := order], count[m := 1];
      }
    }

    /** `__get_free_pages`: no order too large; then, as long as too few pages are left for the priority,
        `reclaims` lists the pages that successive calls of `try_to_free_page` release; and `min_free_pages` is
        lowered towards its initial value before the request fails. */
    method GetFreePages(priority: Priority, minFree0: nat, initialMin: nat, pages: nat, order: nat, dma: bool,
                        dmaPages: set<nat>, reclaims: seq<nat>)
      returns (r: Option<nat>, minFree: nat, ghost reserve: int, ghost n: nat, ghost gone: set<nat>)
      requires Valid() && (forall j :: 0 <= j < |reclaims| ==> reclaims[j] in owned && owned[reclaims[j]] == 0)
      requires forall i, j :: 0 <= i < j < |reclaims| ==> reclaims[i] != reclaims[j]
      modifies this
      ensures Valid() && reserved == old(reserved)
      ensures n <= |reclaims| && gone <= old(owned).Keys && forall m :: m in gone ==> m in reclaims[..n]
      ensures owned == if r.Some? then (old(owned) - gone)[r.value := order] else old(owned) - gone
      ensures forall p: nat :: FreePage(BlocksOf(free), p) || (r.Some? && Shr(p, order) == Shr(r.value, order)) <==>
                         FreePage(old(BlocksOf(free)), p) || p in gone
      ensures r.Some? ==> order <= TOP && r.value == Floor(r.value, order) && r.value !in old(owned) - gone && count[r.value] == 1
      ensures r.Some? ==> priority == GFP_ATOMIC || nrFree + Pow2(order) > reserve
      ensures reserve <= Reserve(priority, minFree0) && minFree <= minFree0 && (minFree < minFree0 ==> minFree >= initialMin)
      ensures order > TOP ==> r.None? && n == 0 && minFree == minFree0
      ensures r.None? && order <= TOP ==> !MayLower(priority, minFree, initialMin, pages)
      ensures r.None? && order <= TOP ==>
        if priority == GFP_ATOMIC || nrFree > reserve
        then (forall k :: order <= k <= TOP ==> NoneUsable(free[k], dma, dmaPages)) &&
             (!dma ==> forall i: nat :: !Whole(BlocksOf(free), order, i))
        else priority == GFP_BUFFER || n == |reclaims|
      ensures reclaims == [] && r.None? ==> free == old(free) && maps == old(maps) && count == old(count)
      ensures reclaims == [] && r.Some? ==>
        Grows(BlocksOf(free), old(BlocksOf(free)), order, Shr(r.value, order)) && count == old(count)[r.value := 1]
      ensures reclaims == [] && r.Some? ==> maps[TOP] == TopBits(old(maps)[TOP], old(free), order, dma, dmaPages, r.value)
    {
      hide Valid, Shl, Shr, FreePage, Whole, NoneUsable, TopBits, BlocksOf, Reserve;
      n, gone, minFree := 0, {}, minFree0;
      var left := Reserve(priority, minFree0);
      reserve := left;
      if order >= NR_MEM_LISTS {
        return None, minFree, reserve, n, gone;
      }
      var i := 0;
      assert old(owned) - {} == old(owned);
      while true
        invariant 0 <= i <= |reclaims| && n == i && reserve == left && left <= Reserve(priority, minFree0)
        invariant minFree <= minFree0 && (minFree < minFree0 ==> minFree >= initialMin)
        invariant Valid() && reserved == old(reserved) && owned == old(owned) - gone && gone <= old(owned).Keys
        invariant (forall m :: m in gone ==> m in reclaims[..i]) && (forall j :: i <= j < |reclaims| ==> reclaims[j] in owned)
        invariant forall p: nat :: FreePage(BlocksOf(free), p) <==> FreePage(old(BlocksOf(free)), p) || p in gone
        invariant reclaims == [] ==> free == old(free) && maps == old(maps) && count == old(count)
        decreases |reclaims| - i, minFree
      {
        if minFree < left {
          left := minFree;
          reserve := left;
        }
        if priority == GFP_ATOMIC || nrFree > left {
          r := TryQueues(order, dma, dmaPages);
          if r.Some? {
            return r, minFree, reserve, n, gone;
          }
        } else if priority != GFP_BUFFER && i < |reclaims| {
          ghost var g := Reclaim(reclaims[i]);
          gone := gone + g;
          assert reclaims[..i + 1] == reclaims[..i] + [reclaims[i]];
          i, n := i + 1, i + 1;
          continue;
        }
        if !MayLower(priority, minFree, initialMin, pages) {
          return None, minFree, reserve, n, gone;
        }
        minFree := minFree - 1;
        left := if left > 0 then left - 1 else left;
        reserve := left;
      }
    }

    /** `try_to_free_page` finds a page: one of its users lets it go. */
    method Reclaim(m: nat) returns (ghost gone: set<nat>)
      requires Valid() && m in owned && owned[m] == 0
      modifies this
      ensures Valid() && reserved == old(reserved) && gone <= {m} && owned == old(owned) - gone
      ensures forall p: nat :: FreePage(BlocksOf(free), p) <==> FreePage(old(BlocksOf(free)), p) || p in gone
    {
      hide Shl, Shr, Low, Total, FreePage, Pending, Inv, Overlap, OwnedOk;
      gone := if m !in reserved && count[m] == 1 then {m} else {};
      assert old(owned) - {} == old(owned);
      FreePages(m, 0);
      forall p: nat ensures Shr(p, 0) == p {
        ShrZero(p);
      }
    }

    /** Allocating a block and freeing it again leaves lists and bitmaps as they were, up to the order
        within a list, and but for the bitmap of the largest order: there one bit is flipped exactly if the block
        came from the list of the largest order. */
    method GetAndFree(priority: Priority, minFree0: nat, initialMin: nat, pages: nat, order: nat, dma: bool, dmaPages: set<nat>)
      returns (r: Option<nat>, minFree: nat)
      requires Valid()
      modifies this
      ensures Valid() && owned == old(owned) && count == old(count) && BlocksOf(free) == old(BlocksOf(free))
      ensures forall k :: 0 <= k < TOP ==> maps[k] == old(maps)[k]
      ensures maps[TOP] == if r.Some? then TopBits(old(maps)[TOP], old(free), order, dma, dmaPages, r.value) else old(maps)[TOP]
      ensures r.None? && order <= TOP && priority == GFP_ATOMIC && !dma ==> forall i: nat :: !Whole(BlocksOf(free), order, i)
    {
      hide Shl, Shr, Low, Total, FreePage, Pending, Overlap, Grows, Whole, OwnedOk, NoneUsable, Toggle;
      ghost var B, maps0 := BlocksOf(free), maps;
      ghost var reserve, n, gone;
      r, minFree, reserve, n, gone := GetFreePages(priority, minFree0, initialMin, pages, order, dma, dmaPages, []);
      assert gone == {} && old(owned) - gone == old(owned);
      if r.Some? {
        ghost var C, maps1 := BlocksOf(free), maps;
        FreePages(r.value, order);
        AllocateFree(B, maps0, C, maps1, BlocksOf(free), maps, order, Shr(r.value, order));
        assert count == old(count)[r.value := 1] - {r.value};
      }
    }

    lemma BlocksSize(f: Lists)
      requires f == free && (Ok() || Valid())
      ensures |BlocksOf(f)| == NR_MEM_LISTS && |maps| == NR_MEM_LISTS
    {
    }
  }

  lemma PowZero()
    ensures Pow2(0) == 1
  {
  }

  lemma UpperHalf(i: nat, n: nat)
    ensures Shr(2 * i + 1, n + 1) == Shr(i, n)
  {
  }

  /** A free run and a block that overlaps no free block do not overlap. */
  lemma WholeApart(B: Blocks, k: nat, i: nat, k': nat, j: nat)
    requires |B| == NR_MEM_LISTS && Whole(B, k, i) && Pending(B, k', j)
    ensures !Overlap(k, i, k', j) && !Overlap(k', j, k, i)
  {
    forall p | Shr(p, k) == i && Shr(p, k') == j ensures false {
      var o :| 0 <= o < |B| && Shr(p, o) in B[o];
      OverlapAt(p, k', o);
    }
    OverlapMeans(k, i, k', j);
    OverlapMeans(k', j, k, i);
  }

  lemma HalfNames(i: nat, k: nat)
    ensures Shl(i, k + 1) == Shl(2 * i, k) && Shl(2 * i + 1, k) == Shl(2 * i, k) + Pow2(k)
    ensures Shr(Shl(2 * i, k), k) == 2 * i
  {
    hide Shl, Shr, Low;
    ShlDouble(i, k);
    ShlAdd(2 * i, 1, k);
    ShrShl(2 * i, k);
  }

  lemma MarkIndex(m: nat, k: nat, i: nat)
    requires m == Shl(2 * i, k)
    ensures Shr(m, 1 + k) == (2 * i) / 2
  {
    hide Shl, Shr, Low;
    ShrUp(m, k);
    ShrShl(2 * i, k);
  }

  /** Freeing one half leaves the other pending. */
  lemma UpperPending(B: Blocks, B': Blocks, k: nat, i: nat)
    requires |B| == NR_MEM_LISTS && k < TOP && Pending(B, k, i + 1) && B' == B[k := B[k] + {i}]
    ensures Pending(B', k, i + 1)
  {
    assert Shr(i + 1, 0) == i + 1;
  }

  /** `m ^ (1 << k)`. */
  function Flip(m: nat, k: nat): nat
  {
    if Shr(m, k) % 2 == 0 then m + Pow2(k) else if m < Pow2(k) then 0 else m - Pow2(k)
  }

  lemma FlipIs(i: nat, k: nat)
    ensures Flip(Shl(i, k), k) == Shl(Mate(i), k) && Shr(Shl(Mate(i), k), k) == Mate(i)
  {
    hide Shl, Shr, Low;
    ShrShl(i, k);
    ShrShl(Mate(i), k);
    ShlAdd(i, 1, k);
    if i % 2 == 1 {
      ShlAdd(i - 1, 1, k);
    }
  }

  lemma MateOver(i: nat, k: nat)
    ensures Floor(Shl(i, k), k + 1) == Shl(i / 2, k + 1)
  {
    hide Shl, Shr, Low;
    ShrUp(Shl(i, k), k);
    ShrShl(i, k);
  }

  lemma NotListed(B: Blocks, k: nat, i: nat)
    requires |B| == NR_MEM_LISTS && Pending(B, k, i)
    ensures i !in B[k]
  {
    assert Shr(i, 0) == i;
  }

  /** Fewer free blocks keep a block pending. */
  lemma PendingWith(B: Blocks, B': Blocks, k: nat, i: nat, k': nat, j: nat)
    requires |B| == NR_MEM_LISTS && Pending(B, k, i) && k' <= TOP && B' == B[k' := B[k'] - {j}]
    ensures Pending(B', k, i)
  {
  }

  lemma {:induction false} EmptyTotal(free: Lists, k: nat)
    requires k <= |free| && forall i :: 0 <= i < |free| ==> free[i] == []
    ensures Total(free, k) == 0
    decreases |free| - k
  {
    if k < |free| {
      EmptyTotal(free, k + 1);
      ShlAdd(0, 0, k);
    }
  }

  /** Two allocators in the same state that free two blocks in different order end in the same state,
      up to the order within a list and the bitmap of the largest order. */
  method FreeBothWays(a: FreeArea, b: FreeArea, m: nat, om: nat, n: nat, on: nat)
    requires a != b && a.Valid() && b.Valid() && a.owned == b.owned && BlocksOf(a.free) == BlocksOf(b.free)
    requires m != n && m in a.owned && a.owned[m] == om && n in a.owned && a.owned[n] == on
    requires {m, n} !! a.reserved && {m, n} !! b.reserved && a.count[m] == a.count[n] == b.count[m] == b.count[n] == 1
    modifies a, b
    ensures a.Valid() && b.Valid() && a.owned == b.owned == old(a.owned) - {m, n}
    ensures BlocksOf(a.free) == BlocksOf(b.free) && forall k :: 0 <= k < TOP ==> a.maps[k] == b.maps[k]
  {
    hide Shl, Shr, Low, Total, FreePage, Pending, Overlap, Grows, OwnedOk, ListsOk, DisjointOk, BuddiesOk, Toggle;
    ghost var B := BlocksOf(a.free);
    a.FreePages(m, om);
    ghost var C := BlocksOf(a.free);
    a.FreePages(n, on);
    b.FreePages(n, on);
    ghost var C' := BlocksOf(b.free);
    b.FreePages(m, om);
    FreesCommute(B, om, Shr(m, om), on, Shr(n, on), C, BlocksOf(a.free), a.maps, C', BlocksOf(b.free), b.maps);
  }

  lemma FirstBlock(B: Blocks)
    requires forall p: nat :: FreePage(B, p) <==> p < 32
    ensures Whole(B, 5, 0)
  {
    forall p: nat | Shr(p, 5) == 0 ensures p < 32 {
      hide Shr;
      ShrZero(p);
      ShrUp(p, 0);
      ShrUp(p, 1);
      ShrUp(p, 2);
      ShrUp(p, 3);
      ShrUp(p, 4);
    }
  }

  /** After 32 pages have been made free, allocating all of them and freeing them leaves the bitmap of the largest
      order with a bit flipped, although the free blocks are the same. */
  method FlippedBit() returns (area: FreeArea)
    ensures fresh(area) && area.Valid() && area.owned == map[]
    ensures area.maps[TOP] != {} && forall p: nat :: FreePage(BlocksOf(area.free), p) <==> p < 32
  {
    hide Shl, Shr, Low, Total, FreePage, Pending, Overlap, OwnedOk, Whole;
    area := new FreeArea(32);
    area.MemInit(32);
    FirstBlock(BlocksOf(area.free));
    var r, minFree := area.GetAndFree(GFP_ATOMIC, 48, 48, 32, 5, false, {});
  }
}
