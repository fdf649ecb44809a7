/**
 The memory areas of a process as a list of values, and what they say about each address: the
 page-to-attributes view that `mm/mmap.c`, `mm/mprotect.c` and `mm/mlock.c` maintain.

 Addresses and file offsets are mathematical integers; the system calls spell out their 32-bit
 wrap-around.
 */
module VmAreas {
  import opened Common

  const PAGE_SIZE := 4096
  const TASK_SIZE := 0xC0000000
  const VM_SHM: bv16 := 0x0400
  const VM_LOCKED: bv16 := 0x2000

  /** `struct vm_area_struct`, without its links; 0 stands for no inode and no operations. */
  datatype Area = Area(start: int, end: int, flags: bv16, inode: nat, ops: nat, pte: nat, offset: int)

  /** What a process finds at an address. The offset matters only for files and shared memory. */
  datatype Page = Page(inode: nat, ops: nat, pte: nat, flags: bv16, offset: int)

  predicate Backed(inode: nat, flags: bv16)
  {
    inode != 0 || flags & VM_SHM != 0
  }

  predicate Covers(a: Area, x: int)
  {
    a.start <= x < a.end
  }

  function PageAt(a: Area, x: int): Page
  {
    Page(a.inode, a.ops, a.pte, a.flags, if Backed(a.inode, a.flags) then a.offset + (x - a.start) else 0)
  }

  /** Not empty, made of whole pages, and in user space. */
  predicate Fine(a: Area)
  {
    0 <= a.start < a.end <= TASK_SIZE && a.start % PAGE_SIZE == 0 && a.end % PAGE_SIZE == 0
  }

  /** Sorted by address and pairwise disjoint. */
  predicate Ordered(L: seq<Area>)
  {
    (forall i :: 0 <= i < |L| ==> Fine(L[i])) && forall i, j :: 0 <= i < j < |L| ==> L[i].end <= L[j].start
  }

  /** The page-to-attributes view. */
  function View(L: seq<Area>, x: int): Option<Page>
  {
    if |L| == 0 then None else if Covers(L[0], x) then Some(PageAt(L[0], x)) else View(L[1..], x)
  }

  function Pages(a: Area): int
  {
    (a.end - a.start) / PAGE_SIZE
  }

  function LockedPages(a: Area): int
  {
    Marked(a.flags, Pages(a))
  }

  /** The share of some pages that counts as locked. */
  function Marked(flags: bv16, pages: int): int
  {
    if flags & VM_LOCKED != 0 then pages else 0
  }

  /** The pages of an aligned stretch, cut in three. */
  lemma ThreeParts(a: int, s: int, e: int, b: int)
    requires a % PAGE_SIZE == 0 && s % PAGE_SIZE == 0 && e % PAGE_SIZE == 0 && b % PAGE_SIZE == 0
    ensures (b - a) / PAGE_SIZE == (s - a) / PAGE_SIZE + (e - s) / PAGE_SIZE + (b - e) / PAGE_SIZE
  {
  }

  /** What `total_vm` ought to be. */
  function Total(L: seq<Area>): int
  {
    if |L| == 0 then 0 else Pages(L[0]) + Total(L[1..])
  }

  /** What `locked_vm` ought to be. */
  function Locked(L: seq<Area>): int
  {
    if |L| == 0 then 0 else LockedPages(L[0]) + Locked(L[1..])
  }

  lemma {:induction false} ViewAppend(A: seq<Area>, B: seq<Area>, x: int)
    ensures View(A + B, x) == if View(A, x).Some? then View(A, x) else View(B, x)
  {
    if |A| == 0 {
      assert A + B == B;
    } else {
      assert (A + B)[1..] == A[1..] + B;
      ViewAppend(A[1..], B, x);
    }
  }

  lemma {:induction false} SumsAppend(A: seq<Area>, B: seq<Area>)
    ensures Total(A + B) == Total(A) + Total(B) && Locked(A + B) == Locked(A) + Locked(B)
  {
    if |A| == 0 {
      assert A + B == B;
    } else {
      assert (A + B)[1..] == A[1..] + B;
      SumsAppend(A[1..], B);
    }
  }

  lemma One(a: Area, x: int)
    ensures View([a], x) == (if Covers(a, x) then Some(PageAt(a, x)) else None)
    ensures Total([a]) == Pages(a) && Locked([a]) == LockedPages(a)
  {
    assert [a][1..] == [];
  }

  lemma {:induction false} ViewNone(L: seq<Area>, x: int)
    requires forall i :: 0 <= i < |L| ==> !Covers(L[i], x)
    ensures View(L, x) == None
  {
    if |L| > 0 {
      assert !Covers(L[0], x);
      assert forall i :: 0 <= i < |L[1..]| ==> !Covers(L[1..][i], x);
      ViewNone(L[1..], x);
    }
  }

  lemma OrderedParts(A: seq<Area>, B: seq<Area>)
    ensures Ordered(A + B) <==>
      Ordered(A) && Ordered(B) && forall i, j :: 0 <= i < |A| && 0 <= j < |B| ==> A[i].end <= B[j].start
  {
    var L := A + B;
    if Ordered(L) {
      assert forall i :: 0 <= i < |A| ==> L[i] == A[i];
      assert forall j :: 0 <= j < |B| ==> L[|A| + j] == B[j];
      forall i, j | 0 <= i < |A| && 0 <= j < |B| ensures A[i].end <= B[j].start {
        assert L[i].end <= L[|A| + j].start;
      }
      forall i, j | 0 <= i < j < |B| ensures B[i].end <= B[j].start {
        assert L[|A| + i].end <= L[|A| + j].start;
      }
    }
  }

  /** One area replaced by others within its bounds: the view changes there and nowhere else. */
  lemma ViewChange(A: seq<Area>, a: seq<Area>, b: seq<Area>, C: seq<Area>, x: int)
    requires View(b, x) == View(a, x)
    ensures View(A + b + C, x) == View(A + a + C, x)
  {
    hide View;
    ViewAppend(A + a, C, x);
    ViewAppend(A + b, C, x);
    ViewAppend(A, a, x);
    ViewAppend(A, b, x);
  }

  lemma SumsChange(A: seq<Area>, a: seq<Area>, b: seq<Area>, C: seq<Area>)
    ensures Total(A + b + C) - Total(b) == Total(A + a + C) - Total(a)
    ensures Locked(A + b + C) - Locked(b) == Locked(A + a + C) - Locked(a)
  {
    hide Total, Locked;
    SumsAppend(A + a, C);
    SumsAppend(A + b, C);
    SumsAppend(A, a);
    SumsAppend(A, b);
  }

  /** There are never more areas than pages. */
  lemma {:induction false} FewAreas(L: seq<Area>)
    requires Ordered(L)
    ensures |L| > 0 ==> L[|L| - 1].end >= PAGE_SIZE * |L|
    ensures |L| <= 786432
  {
    if |L| > 0 {
      var K := L[..|L| - 1];
      FewAreas(K);
      assert Fine(L[|L| - 1]);
      if |K| > 0 {
        assert K[|K| - 1] == L[|L| - 2] && L[|L| - 2].end <= L[|L| - 1].start;
      }
    }
  }

  /** What is left of an area when `lo..hi` is unmapped. */
  function Cut(a: Area, lo: int, hi: int): seq<Area>
  {
    if a.end <= lo || hi <= a.start then [a] else LeftOver(a, lo) + RightOver(a, hi)
  }

  function LeftOver(a: Area, lo: int): seq<Area>
  {
    if a.start < lo then [a.(end := lo)] else []
  }

  function RightOver(a: Area, hi: int): seq<Area>
  {
    if hi < a.end then [a.(start := hi, offset := a.offset + (hi - a.start))] else []
  }

  /** The list of areas after unmapping `lo..hi`. */
  function Cuts(L: seq<Area>, lo: int, hi: int): seq<Area>
  {
    if |L| == 0 then [] else Cut(L[0], lo, hi) + Cuts(L[1..], lo, hi)
  }

  lemma ViewOvers(a: Area, lo: int, hi: int, x: int)
    requires a.start <= a.end && lo <= hi && lo <= a.end && a.start <= hi
    ensures View(LeftOver(a, lo) + RightOver(a, hi), x) == if Covers(a, x) && !(lo <= x < hi) then Some(PageAt(a, x)) else None
  {
    ViewAppend(LeftOver(a, lo), RightOver(a, hi), x);
    One(a.(end := lo), x);
    One(a.(start := hi, offset := a.offset + (hi - a.start)), x);
  }

  lemma ViewCut(a: Area, lo: int, hi: int, x: int)
    requires a.start < a.end && lo <= hi
    ensures View(Cut(a, lo, hi), x) == if Covers(a, x) && !(lo <= x < hi) then Some(PageAt(a, x)) else None
  {
    hide View;
    One(a, x);
    if !(a.end <= lo || hi <= a.start) {
      ViewOvers(a, lo, hi, x);
    }
  }

  /** Exactly the addresses of `lo..hi` lose their pages. */
  lemma {:induction false} ViewCuts(L: seq<Area>, lo: int, hi: int, x: int)
    requires Ordered(L) && lo <= hi
    ensures View(Cuts(L, lo, hi), x) == if lo <= x < hi then None else View(L, x)
  {
    if |L| > 0 {
      assert L == [L[0]] + L[1..];
      OrderedParts([L[0]], L[1..]);
      assert Fine(L[0]);
      ViewCuts(L[1..], lo, hi, x);
      ViewAppend(Cut(L[0], lo, hi), Cuts(L[1..], lo, hi), x);
      ViewCut(L[0], lo, hi, x);
    }
  }

  lemma {:induction false} CutsAppend(A: seq<Area>, B: seq<Area>, lo: int, hi: int)
    ensures Cuts(A + B, lo, hi) == Cuts(A, lo, hi) + Cuts(B, lo, hi)
  {
    if |A| == 0 {
      assert A + B == B;
    } else {
      assert (A + B)[1..] == A[1..] + B;
      CutsAppend(A[1..], B, lo, hi);
      assert Cut(A[0], lo, hi) + (Cuts(A[1..], lo, hi) + Cuts(B, lo, hi)) == Cuts(A, lo, hi) + Cuts(B, lo, hi);
    }
  }

  lemma {:induction false} CutsNothing(A: seq<Area>, lo: int, hi: int)
    requires forall i :: 0 <= i < |A| ==> A[i].end <= lo || hi <= A[i].start
    ensures Cuts(A, lo, hi) == A
  {
    if |A| > 0 {
      assert A[0].end <= lo || hi <= A[0].start;
      assert forall i :: 0 <= i < |A[1..]| ==> A[1..][i] == A[i + 1];
      CutsNothing(A[1..], lo, hi);
    }
  }

  /** An area with its flags changed in `s..e`, in up to three pieces. */
  function Paint(a: Area, s: int, e: int, flags: bv16): seq<Area>
  {
    LeftOver(a, s) + [a.(start := s, end := e, offset := a.offset + (s - a.start), flags := flags)] + RightOver(a, e)
  }

  lemma ViewPaint(a: Area, s: int, e: int, flags: bv16, x: int)
    requires a.start <= s < e <= a.end && flags & VM_SHM == a.flags & VM_SHM
    ensures View(Paint(a, s, e, flags), x) ==
      if !Covers(a, x) then None else if s <= x < e then Some(PageAt(a, x).(flags := flags)) else Some(PageAt(a, x))
  {
    var m := a.(start := s, end := e, offset := a.offset + (s - a.start), flags := flags);
    ViewAppend(LeftOver(a, s) + [m], RightOver(a, e), x);
    ViewAppend(LeftOver(a, s), [m], x);
    One(m, x);
    One(a.(end := s), x);
    One(a.(start := e, offset := a.offset + (e - a.start)), x);
  }

  /** `merge_segments` may join the two areas: they meet, and where a file or shared memory (0x400) is behind them the
      offset goes on from one to the other. */
  predicate Mergeable(p: Area, m: Area): (r: bool)
    ensures r && (m.inode != 0 || m.flags & 0x400 != 0) ==> m.offset == p.offset + (m.start - p.start)
  {
    m.inode == p.inode && m.pte == p.pte && m.ops == p.ops && m.flags == p.flags && p.end == m.start &&
    (Backed(m.inode, m.flags) ==> p.offset + p.end - p.start == m.offset)
  }

  /** Joining them changes nothing that a process could see. */
  lemma ViewMerged(p: Area, m: Area, x: int)
    requires Mergeable(p, m) && p.start <= p.end && m.start <= m.end
    ensures View([p.(end := m.end)], x) == View([p, m], x)
  {
    assert [p, m] == [p] + [m];
    ViewAppend([p], [m], x);
    One(p, x);
    One(m, x);
    One(p.(end := m.end), x);
  }

  /** Joining the two areas changes nothing that a process could see. */
  ghost predicate Unseen(p: Area, m: Area)
  {
    forall x :: View([p.(end := m.end)], x) == View([p, m], x)
  }

  /** Two areas may be joined exactly then. */
  lemma MergeableIff(p: Area, m: Area)
    requires Fine(p) && Fine(m) && p.end <= m.start
    ensures Mergeable(p, m) <==> Unseen(p, m)
  {
    hide View;
    if Mergeable(p, m) {
      forall x ensures View([p.(end := m.end)], x) == View([p, m], x) {
        ViewMerged(p, m, x);
      }
    } else if Unseen(p, m) {
      TwoViews(p, m, p.end);
      TwoViews(p, m, m.start);
      assert false;
    }
  }

  lemma TwoViews(p: Area, m: Area, x: int)
    ensures View([p.(end := m.end)], x) == if p.start <= x < m.end then Some(PageAt(p, x)) else None
    ensures View([p, m], x) == if Covers(p, x) then Some(PageAt(p, x)) else if Covers(m, x) then Some(PageAt(m, x)) else None
  {
    assert [p, m] == [p] + [m];
    ViewAppend([p], [m], x);
    One(p, x);
    One(m, x);
    One(p.(end := m.end), x);
  }

  lemma SumsMerged(p: Area, m: Area)
    requires Mergeable(p, m) && Fine(p) && Fine(m)
    ensures Total([p.(end := m.end)]) == Total([p, m]) && Locked([p.(end := m.end)]) == Locked([p, m])
  {
    assert [p, m] == [p] + [m];
    SumsAppend([p], [m]);
    One(p, 0);
    One(m, 0);
    One(p.(end := m.end), 0);
  }
}
