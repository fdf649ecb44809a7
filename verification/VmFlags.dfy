/**
 What `sys_mprotect` and `do_mlock` do to the flags of pages in a range, area by area.
 */
module VmFlags {
  import opened Common
  import opened VmAreas
  import opened VmUnmap

  /** New access rights, or locking into memory switched on or off. */
  datatype Change = Protect(prot: bv16) | SetLocked(on: bool)

  /** The rights are among PROT_READ, PROT_WRITE and PROT_EXEC. */
  predicate Proper(c: Change)
  {
    c.Protect? ==> c.prot & 0xFFF8 == 0
  }

  function NewFlags(c: Change, flags: bv16): bv16
  {
    match c
    case Protect(prot) => prot | (flags & 0xFFF8)
    case SetLocked(on) => if on then flags | VM_LOCKED else flags & 0xDFFF
  }

  /** Rights beyond what the area may ever have are refused; locking never is. */
  predicate Permitted(c: Change, flags: bv16)
  {
    c.Protect? ==> (NewFlags(c, flags) & !(NewFlags(c, flags) >> 4)) & 0xF == 0
  }

  lemma FlagBits(c: Change, flags: bv16)
    requires Proper(c)
    ensures NewFlags(c, flags) & VM_SHM == flags & VM_SHM
    ensures c.Protect? ==> NewFlags(c, flags) & VM_LOCKED == flags & VM_LOCKED
    ensures c.SetLocked? ==> (NewFlags(c, flags) & VM_LOCKED != 0 <==> c.on)
    ensures c.SetLocked? && NewFlags(c, flags) != flags ==> (flags & VM_LOCKED != 0 <==> !c.on)
  {
    match c
    case Protect(prot) => ProtectBits(prot, flags);
    case SetLocked(on) => LockBits(flags);
  }

  lemma ProtectBits(prot: bv16, flags: bv16)
    requires prot & 0xFFF8 == 0
    ensures (prot | (flags & 0xFFF8)) & 0x0400 == flags & 0x0400
    ensures (prot | (flags & 0xFFF8)) & 0x2000 == flags & 0x2000
  {
  }

  lemma LockBits(flags: bv16)
    ensures (flags | 0x2000) & 0x0400 == flags & 0x0400 && (flags & 0xDFFF) & 0x0400 == flags & 0x0400
    ensures (flags | 0x2000) & 0x2000 != 0 && (flags & 0xDFFF) & 0x2000 == 0
    ensures (flags | 0x2000 != flags ==> flags & 0x2000 == 0) && (flags & 0xDFFF != flags ==> flags & 0x2000 != 0)
  {
  }

  /** A page with exactly the rights `prot`, one for each of reading, writing and executing, and otherwise as it was. */
  predicate Reprotected(p: Page, q: Page, prot: nat)
  {
    && q == p.(flags := q.flags) && q.flags & 0xFFF8 == p.flags & 0xFFF8
    && (q.flags & 1 != 0 <==> prot % 2 == 1) && (q.flags & 2 != 0 <==> prot / 2 % 2 == 1) && (q.flags & 4 != 0 <==> prot / 4 % 2 == 1)
  }

  /** A page that is locked or not, and otherwise as it was. */
  predicate Relocked(p: Page, q: Page, on: bool)
  {
    q == p.(flags := q.flags) && q.flags & 0xDFFF == p.flags & 0xDFFF && (q.flags & VM_LOCKED != 0 <==> on)
  }

  /** The page may have each right that is asked for, and may be shared if it is. */
  predicate Grants(flags: bv16, prot: nat)
  {
    && (prot % 2 == 1 ==> flags & 0x10 != 0) && (prot / 2 % 2 == 1 ==> flags & 0x20 != 0)
    && (prot / 4 % 2 == 1 ==> flags & 0x40 != 0) && (flags & 8 != 0 ==> flags & 0x80 != 0)
  }

  /** PROT_READ, PROT_WRITE and PROT_EXEC as area flags. */
  function Rights(prot: nat): (r: bv16)
    requires prot <= 7
    ensures r & 0xFFF8 == 0
    ensures (r & 1 != 0 <==> prot % 2 == 1) && (r & 2 != 0 <==> prot / 2 % 2 == 1) && (r & 4 != 0 <==> prot / 4 % 2 == 1)
  {
    if prot == 0 then 0 else if prot == 1 then 1 else if prot == 2 then 2 else if prot == 3 then 3
    else if prot == 4 then 4 else if prot == 5 then 5 else if prot == 6 then 6 else 7
  }

  lemma RightsKept(prot: bv16, flags: bv16)
    requires prot & 0xFFF8 == 0
    ensures var f := prot | (flags & 0xFFF8);
      f & 0xFFF8 == flags & 0xFFF8 && f & 1 == prot & 1 && f & 2 == prot & 2 && f & 4 == prot & 4
  {
  }

  lemma RightsAllowed(prot: bv16, flags: bv16)
    requires prot & 0xFFF8 == 0
    ensures var f := prot | (flags & 0xFFF8);
      (f & !(f >> 4)) & 0xF == 0 <==>
        && (prot & 1 != 0 ==> flags & 0x10 != 0) && (prot & 2 != 0 ==> flags & 0x20 != 0)
        && (prot & 4 != 0 ==> flags & 0x40 != 0) && (flags & 8 != 0 ==> flags & 0x80 != 0)
  {
  }

  lemma LockKept(flags: bv16)
    ensures (flags | 0x2000) & 0xDFFF == flags & 0xDFFF && (flags & 0xDFFF) & 0xDFFF == flags & 0xDFFF
    ensures (flags | 0x2000) & 0x2000 != 0 && (flags & 0xDFFF) & 0x2000 == 0
  {
  }

  /** `mprotect` gives a page exactly the rights asked for, and is refused exactly if the page may not have one of
      them, or is shared without being allowed to be. */
  lemma ProtectMeans(page: Page, prot: nat)
    requires prot <= 7
    ensures Reprotected(page, page.(flags := NewFlags(Protect(Rights(prot)), page.flags)), prot)
    ensures Permitted(Protect(Rights(prot)), page.flags) <==> Grants(page.flags, prot)
  {
    hide Rights;
    RightsKept(Rights(prot), page.flags);
    RightsAllowed(Rights(prot), page.flags);
  }

  /** `mlock` and `munlock` change the one flag, and are never refused. */
  lemma LockMeans(page: Page, on: bool)
    ensures Relocked(page, page.(flags := NewFlags(SetLocked(on), page.flags)), on) && Permitted(SetLocked(on), page.flags)
  {
    hide NewFlags;
    LockFlags(page.flags, on);
  }

  lemma LockFlags(flags: bv16, on: bool)
    ensures NewFlags(SetLocked(on), flags) & 0xDFFF == flags & 0xDFFF
    ensures NewFlags(SetLocked(on), flags) & VM_LOCKED != 0 <==> on
  {
    hide NewFlags;
    var f := NewFlags(SetLocked(on), flags);
    assert f == (if on then flags | 0x2000 else flags & 0xDFFF) by { LockIs(flags, on); }
    LockKept(flags);
  }

  lemma LockIs(flags: bv16, on: bool)
    ensures NewFlags(SetLocked(on), flags) == if on then flags | 0x2000 else flags & 0xDFFF
  {
  }

  function NewPage(c: Change, page: Option<Page>): Option<Page>
  {
    match page
    case None => None
    case Some(p) => Some(p.(flags := NewFlags(c, p.flags)))
  }

  /** Between two lists of areas, exactly the pages of `lo..hi` have new flags. */
  ghost predicate Changed(L: seq<Area>, N: seq<Area>, c: Change, lo: int, hi: int)
  {
    forall x :: View(N, x) == if lo <= x < hi then NewPage(c, View(L, x)) else View(L, x)
  }

  /** Every address of `lo..hi` is mapped, and the change is permitted there. */
  ghost predicate Changeable(L: seq<Area>, c: Change, lo: int, hi: int)
  {
    forall x :: lo <= x < hi ==> View(L, x).Some? && Permitted(c, View(L, x).value.flags)
  }

  /** The list with area `p` repainted. */
  function Repaint(N: seq<Area>, p: nat, s: int, e: int, flags: bv16): seq<Area>
    requires p < |N|
  {
    N[..p] + Paint(N[p], s, e, flags) + N[p + 1..]
  }

  lemma {:induction false} ViewThere(L: seq<Area>, p: nat, x: int)
    requires Ordered(L) && p < |L| && Covers(L[p], x)
    ensures View(L, x) == Some(PageAt(L[p], x))
    decreases |L|
  {
    if p > 0 {
      assert L[0].end <= L[p].start;
      ViewThere(L[1..], p - 1, x);
    }
  }

  lemma RepaintView(N: seq<Area>, p: nat, s: int, e: int, flags: bv16, x: int)
    requires Ordered(N) && p < |N| && N[p].start <= s < e <= N[p].end && flags & VM_SHM == N[p].flags & VM_SHM
    ensures s <= x < e ==> View(N, x) == Some(PageAt(N[p], x))
    ensures View(Repaint(N, p, s, e, flags), x) == if s <= x < e then Some(PageAt(N[p], x).(flags := flags)) else View(N, x)
  {
    var a := N[p];
    var A, P, C := N[..p], Paint(a, s, e, flags), N[p + 1..];
    if Covers(a, x) {
      ViewThere(N, p, x);
      assert N == A + [a] + C;
      forall i | 0 <= i < |A| ensures !Covers(A[i], x) {
        assert A[i] == N[i];
      }
    }
    hide View, Paint, Covers, PageAt;
    ViewPaint(a, s, e, flags, x);
    One(a, x);
    if Covers(a, x) {
      ViewNone(A, x);
      ViewAppend(A + P, C, x);
      ViewAppend(A, P, x);
      CoversIn(a, s, e, x);
    } else {
      CoversIn(a, s, e, x);
      ViewChange(A, [a], P, C, x);
      assert A + [a] + C == N;
    }
  }

  lemma CoversIn(a: Area, s: int, e: int, x: int)
    requires a.start <= s < e <= a.end
    ensures s <= x < e ==> Covers(a, x)
  {
  }

  /** A repainted area carries the change on from `n` to `e`. */
  lemma ChangedOn(L: seq<Area>, N: seq<Area>, p: nat, c: Change, lo: int, n: int, e: int)
    requires Changed(L, N, c, lo, n) && Changeable(L, c, lo, n) && Ordered(N) && p < |N| && Proper(c)
    requires N[p].start <= n < e <= N[p].end && lo <= n && Permitted(c, N[p].flags)
    ensures Changed(L, Repaint(N, p, n, e, NewFlags(c, N[p].flags)), c, lo, e) && Changeable(L, c, lo, e)
    ensures NewFlags(c, N[p].flags) == N[p].flags ==> Changed(L, N, c, lo, e)
  {
    hide View, Repaint, NewFlags, NewPage, Permitted, Ordered;
    var flags := NewFlags(c, N[p].flags);
    forall x
      ensures View(Repaint(N, p, n, e, flags), x) == if lo <= x < e then NewPage(c, View(L, x)) else View(L, x)
      ensures flags == N[p].flags ==> View(N, x) == if lo <= x < e then NewPage(c, View(L, x)) else View(L, x)
      ensures lo <= x < e ==> View(L, x).Some? && Permitted(c, View(L, x).value.flags)
    {
      assert View(N, x) == if lo <= x < n then NewPage(c, View(L, x)) else View(L, x);
      ChangedAt(L, N, p, c, lo, n, e, x);
    }
  }

  lemma ChangedAt(L: seq<Area>, N: seq<Area>, p: nat, c: Change, lo: int, n: int, e: int, x: int)
    requires View(N, x) == if lo <= x < n then NewPage(c, View(L, x)) else View(L, x)
    requires lo <= x < n ==> View(L, x).Some? && Permitted(c, View(L, x).value.flags)
    requires Ordered(N) && p < |N| && Proper(c) && N[p].start <= n < e <= N[p].end && lo <= n && Permitted(c, N[p].flags)
    ensures var flags := NewFlags(c, N[p].flags); var v := if lo <= x < e then NewPage(c, View(L, x)) else View(L, x);
      View(Repaint(N, p, n, e, flags), x) == v && (flags == N[p].flags ==> View(N, x) == v)
    ensures lo <= x < e ==> View(L, x).Some? && Permitted(c, View(L, x).value.flags)
  {
    FlagBits(c, N[p].flags);
    hide View, Repaint, NewFlags, Permitted, Ordered;
    RepaintView(N, p, n, e, NewFlags(c, N[p].flags), x);
  }

  lemma FineAt(L: seq<Area>, p: nat)
    requires Ordered(L) && p < |L|
    ensures Fine(L[p])
  {
  }

  lemma PaintSums(a: Area, s: int, e: int, flags: bv16)
    requires Fine(a) && a.start <= s < e <= a.end && s % PAGE_SIZE == 0 && e % PAGE_SIZE == 0
    ensures Total(Paint(a, s, e, flags)) == Pages(a)
    ensures var n := (e - s) / PAGE_SIZE; Locked(Paint(a, s, e, flags)) == LockedPages(a) + Marked(flags, n) - Marked(a.flags, n)
  {
    var m := a.(start := s, end := e, offset := a.offset + (s - a.start), flags := flags);
    hide Total, Locked, LeftOver, RightOver;
    SumsAppend(LeftOver(a, s) + [m], RightOver(a, e));
    SumsAppend(LeftOver(a, s), [m]);
    One(m, 0);
    OverSums(a, s, e);
    ThreeParts(a.start, s, e, a.end);
  }

  lemma RepaintSums(N: seq<Area>, p: nat, s: int, e: int, flags: bv16)
    requires Ordered(N) && p < |N| && N[p].start <= s < e <= N[p].end && s % PAGE_SIZE == 0 && e % PAGE_SIZE == 0
    ensures Total(Repaint(N, p, s, e, flags)) == Total(N)
    ensures var n := (e - s) / PAGE_SIZE; Locked(Repaint(N, p, s, e, flags)) == Locked(N) + Marked(flags, n) - Marked(N[p].flags, n)
  {
    hide Total, Locked, Paint, Marked, Pages, LockedPages, Ordered, Fine;
    FineAt(N, p);
    assert N == N[..p] + [N[p]] + N[p + 1..];
    SumsChange(N[..p], [N[p]], Paint(N[p], s, e, flags), N[p + 1..]);
    PaintSums(N[p], s, e, flags);
    One(N[p], 0);
  }

  /** What the running total of locked pages has to do. */
  function LockedDelta(c: Change, flags: bv16, pages: int): int
  {
    if c.Protect? || NewFlags(c, flags) == flags then 0 else if c.on then pages else -pages
  }

  lemma ChangeSums(N: seq<Area>, p: nat, s: int, e: int, c: Change)
    requires Ordered(N) && p < |N| && N[p].start <= s < e <= N[p].end && s % PAGE_SIZE == 0 && e % PAGE_SIZE == 0 && Proper(c)
    ensures var N' := Repaint(N, p, s, e, NewFlags(c, N[p].flags));
      Total(N') == Total(N) && Locked(N') == Locked(N) + LockedDelta(c, N[p].flags, (e - s) / PAGE_SIZE)
  {
    RepaintSums(N, p, s, e, NewFlags(c, N[p].flags));
    FlagBits(c, N[p].flags);
    hide NewFlags, Repaint;
  }

  function Left(a: Area, s: int): Area
  {
    a.(end := s)
  }

  function Right(a: Area, e: int): Area
  {
    a.(start := e, offset := a.offset + (e - a.start))
  }

  function Mid(a: Area, s: int, e: int, flags: bv16): Area
  {
    a.(start := s, end := e, offset := a.offset + (s - a.start), flags := flags)
  }

  /** The steps by which an area is split stay in order: first the old area shrinks, then the new
      ones fit in beside it. */
  lemma Shrunk(L: seq<Area>, p: nat, b: Area)
    requires Ordered(L) && p < |L| && Fine(b) && L[p].start <= b.start && b.end <= L[p].end
    ensures Ordered(L[p := b])
  {
  }

  lemma RoomBeside(L: seq<Area>, p: nat, b: Area, n: Area)
    requires Ordered(L) && p < |L| && Fine(n) && L[p].start <= n.start && n.end <= L[p].end && L[p].start <= b.start && b.end <= L[p].end
    ensures n.end <= b.start ==> Room(L[p := b], p, n)
    ensures b.end <= n.start ==> Room(L[p := b], p + 1, n)
  {
  }

  lemma RepaintTail(N: seq<Area>, p: nat, s: int, e: int, flags: bv16)
    requires p < |N|
    ensures var M := Repaint(N, p, s, e, flags);
      |M| >= |N| - p && M[|M| - (|N| - p - 1)..] == N[p + 1..]
  {
  }

  /** Behind area `p` there is a gap. */
  lemma GapBehind(N: seq<Area>, p: nat)
    requires Ordered(N) && p < |N| && (p + 1 < |N| ==> N[p + 1].start != N[p].end)
    ensures View(N, N[p].end) == None
  {
    var x := N[p].end;
    forall i | 0 <= i < |N| ensures !Covers(N[i], x) {
      assert Fine(N[i]) && Fine(N[p]);
      if i < p {
        assert N[i].end <= N[p].start;
      } else if i == p + 1 {
        assert N[p].end <= N[i].start;
      } else if i > p + 1 {
        assert N[p].end <= N[p + 1].start && N[p + 1].end <= N[i].start && Fine(N[p + 1]);
      }
    }
    ViewNone(N, x);
  }

  /** Nothing lies between `start` and the first area that ends above it. */
  lemma GapBefore(N: seq<Area>, x: int, i: nat)
    requires Ordered(N) && EndsFrom(N, x, i) && (i < |N| ==> N[i].start > x)
    ensures View(N, x) == None
  {
    forall j | 0 <= j < |N| ensures !Covers(N[j], x) {
      if j > i {
        assert N[i].end <= N[j].start && Fine(N[i]);
      }
    }
    ViewNone(N, x);
  }

  lemma NothingChanged(L: seq<Area>, c: Change, lo: int)
    ensures Changed(L, L, c, lo, lo) && Changeable(L, c, lo, lo)
  {
  }
}
