/**
 The buddy system of `mm/page_alloc.c`, on block numbers.

 Block `i` of order `k` is the pages `p` with `p >> k == i`. Its buddy is `i ^ 1` and the
 block of order `k + 1` around both is `i / 2`. `B[k]` is the set of free blocks of order `k`,
 and `maps[k]` the set of indices whose bit is one in the bitmap of order `k`.
 */
module Buddy {
  import opened Bits

  const NR_MEM_LISTS := 6
  const TOP := 5

  type Blocks = seq<set<nat>>
  type Maps = seq<set<nat>>

  function Mate(i: nat): nat
  {
    if i % 2 == 0 then i + 1 else i - 1
  }

  /** Two blocks have a page in common. */
  predicate Overlap(k: nat, i: nat, k': nat, j: nat)
  {
    if k <= k' then Shr(i, k' - k) == j else Shr(j, k - k') == i
  }

  lemma OverlapMeans(k: nat, i: nat, k': nat, j: nat)
    ensures Overlap(k, i, k', j) <==> exists p :: Shr(p, k) == i && Shr(p, k') == j
  {
    if k <= k' {
      OverlapPages(k, i, k', j);
    } else {
      OverlapPages(k', j, k, i);
    }
  }

  lemma OverlapAt(p: nat, k: nat, k': nat)
    ensures Overlap(k, Shr(p, k), k', Shr(p, k'))
  {
    if k <= k' {
      ShrShr(p, k, k' - k);
    } else {
      ShrShr(p, k', k - k');
    }
  }

  lemma OverlapPages(k: nat, i: nat, k': nat, j: nat)
    requires k <= k'
    ensures Shr(i, k' - k) == j <==> exists p :: Shr(p, k) == i && Shr(p, k') == j
  {
    hide Shl, Shr, Low;
    forall p | Shr(p, k) == i ensures Shr(p, k') == Shr(i, k' - k) {
      ShrShr(p, k, k' - k);
    }
    ShrShl(i, k);
    assert Shr(Shl(i, k), k) == i;
  }

  /** Free blocks do not overlap. */
  ghost predicate DisjointOk(B: Blocks)
  {
    && |B| == NR_MEM_LISTS
    && forall k, i, k', j :: 0 <= k <= TOP && 0 <= k' <= TOP && i in B[k] && j in B[k'] && (k, i) != (k', j) ==>
         !Overlap(k, i, k', j)
  }

  /** Below the top order, never are both buddies free, and the one bit that a pair of
      buddies shares tells whether one of them is. */
  ghost predicate BuddiesOk(B: Blocks, maps: Maps)
    requires |B| == NR_MEM_LISTS
  {
    && |maps| == NR_MEM_LISTS
    && (forall k, i :: 0 <= k < TOP && i in B[k] ==> Mate(i) !in B[k])
    && (forall k, i: nat :: 0 <= k < TOP ==> (i / 2 in maps[k] <==> i in B[k] || Mate(i) in B[k]))
  }

  ghost predicate Inv(B: Blocks, maps: Maps)
  {
    DisjointOk(B) && BuddiesOk(B, maps)
  }

  /** The page lies in a free block. */
  ghost predicate FreePage(B: Blocks, p: nat)
  {
    exists k :: 0 <= k < |B| && Shr(p, k) in B[k]
  }

  /** Block `i` of order `k` is not free and overlaps no free block. */
  ghost predicate Pending(B: Blocks, k: nat, i: nat)
    requires |B| == NR_MEM_LISTS
  {
    k <= TOP && forall k', j :: 0 <= k' <= TOP && j in B[k'] ==> !Overlap(k, i, k', j)
  }

  /** `change_bit`. */
  function Toggle(s: set<nat>, i: nat): set<nat>
  {
    if i in s then s - {i} else s + {i}
  }

  /** The free pages of `B'` are those of `B` and those of block `i` of order `k`. */
  ghost predicate Grows(B: Blocks, B': Blocks, k: nat, i: nat)
  {
    forall p: nat :: FreePage(B', p) <==> FreePage(B, p) || Shr(p, k) == i
  }

  /** Taking a block off its list; the bit is toggled, which matters below the top only. */
  lemma Remove(B: Blocks, maps: Maps, k: nat, i: nat)
    requires Inv(B, maps) && k <= TOP && i in B[k]
    ensures var B' := B[k := B[k] - {i}];
      Inv(B', maps[k := Toggle(maps[k], i / 2)]) && Pending(B', k, i) && Grows(B', B, k, i)
  {
    var B', maps' := B[k := B[k] - {i}], maps[k := Toggle(maps[k], i / 2)];
    forall p: nat ensures FreePage(B, p) <==> FreePage(B', p) || Shr(p, k) == i {
      if FreePage(B, p) {
        var k' :| 0 <= k' < |B| && Shr(p, k') in B[k'];
        assert Shr(p, k') in B'[k'] || (k' == k && Shr(p, k) == i);
      }
      if FreePage(B', p) {
        var k' :| 0 <= k' < |B'| && Shr(p, k') in B'[k'];
        assert Shr(p, k') in B[k'];
      }
    }
    RemoveBits(B, maps, k, i);
  }

  lemma RemoveBits(B: Blocks, maps: Maps, k: nat, i: nat)
    requires Inv(B, maps) && k <= TOP && i in B[k]
    ensures BuddiesOk(B[k := B[k] - {i}], maps[k := Toggle(maps[k], i / 2)])
  {
    var B', maps' := B[k := B[k] - {i}], maps[k := Toggle(maps[k], i / 2)];
    forall k', j: nat | 0 <= k' < TOP
      ensures j / 2 in maps'[k'] <==> j in B'[k'] || Mate(j) in B'[k']
    {
      assert j / 2 in maps[k'] <==> j in B[k'] || Mate(j) in B[k'];
      if k' == k {
        assert j / 2 == i / 2 <==> j == i || j == Mate(i);
      }
    }
  }

  /** Putting a pending block on its list, when its buddy is not free. */
  lemma Add(B: Blocks, maps: Maps, k: nat, i: nat)
    requires Inv(B, maps) && Pending(B, k, i) && (k < TOP ==> Mate(i) !in B[k])
    ensures var B' := B[k := B[k] + {i}];
      (k < TOP ==> Inv(B', maps[k := Toggle(maps[k], i / 2)])) && (k == TOP ==> Inv(B', maps)) && Grows(B, B', k, i)
  {
    var B' := B[k := B[k] + {i}];
    forall p: nat ensures FreePage(B', p) <==> FreePage(B, p) || Shr(p, k) == i {
      if FreePage(B', p) {
        var k' :| 0 <= k' < |B'| && Shr(p, k') in B'[k'];
        assert Shr(p, k') in B[k'] || (k' == k && Shr(p, k) == i);
      }
      if FreePage(B, p) {
        var k' :| 0 <= k' < |B| && Shr(p, k') in B[k'];
        assert Shr(p, k') in B'[k'];
      }
    }
    if k < TOP {
      AddBits(B, maps, k, i);
    }
  }

  lemma AddBits(B: Blocks, maps: Maps, k: nat, i: nat)
    requires Inv(B, maps) && Pending(B, k, i) && k < TOP && Mate(i) !in B[k]
    ensures BuddiesOk(B[k := B[k] + {i}], maps[k := Toggle(maps[k], i / 2)])
  {
    var B', maps' := B[k := B[k] + {i}], maps[k := Toggle(maps[k], i / 2)];
    assert Shr(i, 0) == i;
    assert i !in B[k];
    forall k', j: nat | 0 <= k' < TOP
      ensures j / 2 in maps'[k'] <==> j in B'[k'] || Mate(j) in B'[k']
    {
      assert j / 2 in maps[k'] <==> j in B[k'] || Mate(j) in B[k'];
      if k' == k {
        assert j / 2 == i / 2 <==> j == i || j == Mate(i);
      }
    }
  }

  lemma {:induction false} ShrUp(p: nat, k: nat)
    ensures Shr(p, k + 1) == Shr(p, k) / 2
  {
    if k != 0 {
      ShrUp(p / 2, k - 1);
    }
  }

  /** Two pending buddies make a pending block of the next order. */
  lemma PendingUp(B: Blocks, k: nat, i: nat)
    requires |B| == NR_MEM_LISTS && k < TOP && Pending(B, k, i) && Pending(B, k, Mate(i))
    ensures Pending(B, k + 1, i / 2)
    ensures forall p: nat :: Shr(p, k + 1) == i / 2 <==> Shr(p, k) == i || Shr(p, k) == Mate(i)
  {
    forall k', j | 0 <= k' <= TOP && j in B[k'] ensures !Overlap(k + 1, i / 2, k', j) {
      assert !Overlap(k, i, k', j) && !Overlap(k, Mate(i), k', j);
      if k' <= k {
        ShrUp(j, k - k');
      }
    }
    forall p: nat ensures Shr(p, k + 1) == i / 2 <==> Shr(p, k) == i || Shr(p, k) == Mate(i) {
      ShrUp(p, k);
    }
  }

  /** A pending block can be split in two. */
  lemma PendingDown(B: Blocks, k: nat, i: nat)
    requires |B| == NR_MEM_LISTS && k < TOP && Pending(B, k + 1, i)
    ensures Pending(B, k, 2 * i) && Pending(B, k, 2 * i + 1)
    ensures forall p: nat :: Shr(p, k + 1) == i <==> Shr(p, k) == 2 * i || Shr(p, k) == 2 * i + 1
  {
    forall k', j | 0 <= k' <= TOP && j in B[k']
      ensures !Overlap(k, 2 * i, k', j) && !Overlap(k, 2 * i + 1, k', j)
    {
      assert !Overlap(k + 1, i, k', j);
      if k' <= k {
        ShrUp(j, k - k');
      }
    }
    forall p: nat ensures Shr(p, k + 1) == i <==> Shr(p, k) == 2 * i || Shr(p, k) == 2 * i + 1 {
      ShrUp(p, k);
    }
  }

  /** All pages of the block are free. */
  ghost predicate Whole(B: Blocks, k: nat, i: nat)
  {
    forall p: nat :: Shr(p, k) == i ==> FreePage(B, p)
  }

  /** A run of free pages lies inside one free block: coalescing is never missed. */
  lemma {:induction false} Covered(B: Blocks, maps: Maps, k: nat, i: nat) returns (k': nat)
    requires Inv(B, maps) && k <= TOP && Whole(B, k, i)
    ensures k <= k' <= TOP && Shr(i, k' - k) in B[k']
  {
    if k == 0 {
      assert Shr(i, 0) == i;
      k' :| 0 <= k' < |B| && Shr(i, k') in B[k'];
    } else {
      hide Shr, Inv, Whole;
      HalfWhole(B, k - 1, i);
      k' := Covered(B, maps, k - 1, 2 * i);
      if k' == k - 1 {
        ShrZero(2 * i);
        ShrZero(2 * i + 1);
        NotBoth(B, maps, k - 1, i);
        k' := Covered(B, maps, k - 1, 2 * i + 1);
      }
      HalfShr(i, k' - k);
    }
  }

  lemma HalfShr(i: nat, n: nat)
    ensures Shr(2 * i, n + 1) == Shr(2 * i + 1, n + 1) == Shr(i, n)
  {
  }

  lemma NotBoth(B: Blocks, maps: Maps, k: nat, i: nat)
    requires Inv(B, maps) && k < TOP
    ensures !(2 * i in B[k] && 2 * i + 1 in B[k])
  {
    assert Mate(2 * i) == 2 * i + 1;
  }

  lemma HalfWhole(B: Blocks, k: nat, i: nat)
    requires Whole(B, k + 1, i)
    ensures Whole(B, k, 2 * i) && Whole(B, k, 2 * i + 1)
  {
    forall p: nat | Shr(p, k) == 2 * i || Shr(p, k) == 2 * i + 1 ensures FreePage(B, p) {
      ShrUp(p, k);
    }
  }

  lemma PartOfFree(B: Blocks, k: nat, i: nat, k': nat)
    requires k <= k' < |B| && Shr(i, k' - k) in B[k']
    ensures Whole(B, k, i)
  {
    forall p: nat | Shr(p, k) == i ensures FreePage(B, p) {
      ShrShr(p, k, k' - k);
    }
  }

  /** The free lists are a function of the set of free pages: a block is on the list of its
      order exactly when it is free as a whole and, below the top, the block around it is not. */
  lemma Canonical(B: Blocks, maps: Maps, k: nat, i: nat)
    requires Inv(B, maps) && k <= TOP
    ensures i in B[k] <==> Whole(B, k, i) && (k == TOP || !Whole(B, k + 1, i / 2))
  {
    if i in B[k] {
      assert Shr(i, 0) == i;
      PartOfFree(B, k, i, k);
      if k < TOP && Whole(B, k + 1, i / 2) {
        var k' := Covered(B, maps, k + 1, i / 2);
        assert Overlap(k, i, k', Shr(i, k' - k));
        assert false;
      }
    } else if Whole(B, k, i) {
      var k' := Covered(B, maps, k, i);
      assert Shr(i, 0) == i;
      if k < TOP {
        PartOfFree(B, k + 1, i / 2, k');
      }
    }
  }

  /** Same free pages, same free blocks at every order and same bitmaps below the top. */
  lemma SamePagesSameLists(B: Blocks, maps: Maps, C: Blocks, maps': Maps)
    requires Inv(B, maps) && Inv(C, maps')
    requires forall p: nat :: FreePage(B, p) <==> FreePage(C, p)
    ensures B == C && forall k :: 0 <= k < TOP ==> maps[k] == maps'[k]
  {
    forall k | 0 <= k <= TOP ensures B[k] == C[k] {
      forall i: nat ensures i in B[k] <==> i in C[k] {
        Canonical(B, maps, k, i);
        Canonical(C, maps', k, i);
      }
    }
    forall k | 0 <= k < TOP ensures maps[k] == maps'[k] {
      forall i: nat ensures i in maps[k] <==> i in maps'[k] {
        assert (2 * i) / 2 == i;
      }
    }
  }

  /** Freeing a block that was just allocated restores lists and bitmaps. */
  lemma AllocateFree(B: Blocks, maps: Maps, C: Blocks, maps1: Maps, D: Blocks, maps2: Maps, k: nat, i: nat)
    requires Inv(B, maps) && Inv(C, maps1) && Inv(D, maps2)
    requires Grows(C, B, k, i) && Grows(C, D, k, i)
    ensures B == D && forall o :: 0 <= o < TOP ==> maps[o] == maps2[o]
  {
    SamePagesSameLists(B, maps, D, maps2);
  }

  /** Two frees commute. */
  lemma FreesCommute(B: Blocks, k: nat, i: nat, k': nat, j: nat, C: Blocks, D: Blocks, mapsD: Maps, C': Blocks, D': Blocks, mapsD': Maps)
    requires Inv(D, mapsD) && Inv(D', mapsD')
    requires Grows(B, C, k, i) && Grows(C, D, k', j)
    requires Grows(B, C', k', j) && Grows(C', D', k, i)
    ensures D == D' && forall o :: 0 <= o < TOP ==> mapsD[o] == mapsD'[o]
  {
    SamePagesSameLists(D, mapsD, D', mapsD');
  }
}
