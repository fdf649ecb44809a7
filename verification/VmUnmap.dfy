/**
 The arithmetic of `do_munmap`: areas taken off the list are cut one by one, last first, and what
 is left of them goes back between the areas before and behind the range.
 */
module VmUnmap {
  import opened VmAreas

  function Lower(a: Area, lo: int): int
  {
    if lo < a.start then a.start else lo
  }

  function Upper(a: Area, hi: int): int
  {
    if hi > a.end then a.end else hi
  }

  /** There is room for area `a` at place `p` of the list. */
  predicate Room(L: seq<Area>, p: nat, a: Area)
  {
    p <= |L| && Fine(a) && (forall i :: 0 <= i < p ==> L[i].end <= a.start) && (forall i :: p <= i < |L| ==> a.end <= L[i].start)
  }

  /** What an area leaves when `addr..end` of it goes. */
  function Rest(a: Area, addr: int, end: int): seq<Area>
  {
    LeftOver(a, addr) + RightOver(a, end)
  }

  function InsertSeq(L: seq<Area>, p: nat, S: seq<Area>): seq<Area>
    requires p <= |L|
  {
    L[..p] + S + L[p..]
  }

  /** The areas before, in and behind the range. */
  predicate Around(A: seq<Area>, M: seq<Area>, C: seq<Area>, lo: int, hi: int)
  {
    Ordered(A + M + C) && lo < hi && lo % PAGE_SIZE == 0 && hi % PAGE_SIZE == 0 &&
    (forall i :: 0 <= i < |A| ==> A[i].end <= lo) && (forall i :: 0 <= i < |C| ==> hi <= C[i].start) &&
    (forall i :: 0 <= i < |M| ==> M[i].start < hi && lo < M[i].end)
  }

  lemma AroundCuts(A: seq<Area>, M: seq<Area>, C: seq<Area>, lo: int, hi: int)
    requires Around(A, M, C, lo, hi)
    ensures A + Cuts(M, lo, hi) + C == Cuts(A + M + C, lo, hi)
  {
    CutsAppend(A + M, C, lo, hi);
    CutsAppend(A, M, lo, hi);
    CutsNothing(A, lo, hi);
    CutsNothing(C, lo, hi);
  }

  lemma {:induction false} CutsAfter(M: seq<Area>, lo: int, hi: int, e: int)
    requires lo <= hi && forall i :: 0 <= i < |M| ==> e <= M[i].start
    ensures forall i :: 0 <= i < |Cuts(M, lo, hi)| ==> e <= Cuts(M, lo, hi)[i].start
  {
    if |M| > 0 {
      assert e <= M[0].start;
      assert forall i :: 0 <= i < |M[1..]| ==> M[1..][i] == M[i + 1];
      CutsAfter(M[1..], lo, hi, e);
    }
  }

  lemma OverSums(a: Area, s: int, e: int)
    requires a.start <= s && e <= a.end
    ensures Total(LeftOver(a, s)) == (s - a.start) / PAGE_SIZE && Total(RightOver(a, e)) == (a.end - e) / PAGE_SIZE
    ensures Locked(LeftOver(a, s)) == Marked(a.flags, (s - a.start) / PAGE_SIZE)
    ensures Locked(RightOver(a, e)) == Marked(a.flags, (a.end - e) / PAGE_SIZE)
  {
    One(a.(end := s), 0);
    One(a.(start := e, offset := a.offset + (e - a.start)), 0);
    NoSums();
    hide Total, Locked;
  }

  lemma RestSums(a: Area, lo: int, hi: int)
    requires Fine(a) && a.start < hi && lo < a.end && lo < hi && lo % PAGE_SIZE == 0 && hi % PAGE_SIZE == 0
    ensures var s, e := Lower(a, lo), Upper(a, hi);
      s % PAGE_SIZE == 0 && e % PAGE_SIZE == 0 && a.start <= s < e <= a.end && Cut(a, lo, hi) == Rest(a, s, e) &&
      Total(Rest(a, s, e)) == Pages(a) - (e - s) / PAGE_SIZE &&
      Locked(Rest(a, s, e)) == LockedPages(a) - Marked(a.flags, (e - s) / PAGE_SIZE)
  {
    var s, e := Lower(a, lo), Upper(a, hi);
    assert Cut(a, lo, hi) == Rest(a, s, e);
    hide Total, Locked, Cut, LeftOver, RightOver;
    SumsAppend(LeftOver(a, s), RightOver(a, e));
    OverSums(a, s, e);
    ThreeParts(a.start, s, e, a.end);
  }

  lemma NoSums()
    ensures Total([]) == 0 && Locked([]) == 0
  {
  }

  lemma RoomBetween(A: seq<Area>, K: seq<Area>, C: seq<Area>, a: Area)
    requires Fine(a) && (forall i :: 0 <= i < |A| ==> A[i].end <= a.start)
    requires (forall i :: 0 <= i < |K| ==> a.end <= K[i].start) && forall i :: 0 <= i < |C| ==> a.end <= C[i].start
    ensures Room(A + K + C, |A|, a)
  {
  }

  lemma NextInRange(A: seq<Area>, M: seq<Area>, C: seq<Area>, m: nat)
    requires Ordered(A + M + C) && 0 < m <= |M|
    ensures Fine(M[m - 1]) && (forall i :: 0 <= i < |A| ==> A[i].end <= M[m - 1].start)
    ensures forall i :: 0 <= i < |C| ==> M[m - 1].end <= C[i].start
    ensures forall i :: 0 <= i < |M[m..]| ==> M[m - 1].end <= M[m..][i].start
  {
    OrderedParts(A + M, C);
    OrderedParts(A, M);
    assert (A + M)[|A| + m - 1] == M[m - 1];
  }

  lemma PutFront(A: seq<Area>, X: seq<Area>, K: seq<Area>, C: seq<Area>)
    ensures InsertSeq(A + K + C, |A|, X) == A + (X + K) + C
  {
    assert A + K + C == A + (K + C);
  }

  /** One round: the last area still off the list. */
  lemma ReleaseStep(A: seq<Area>, M: seq<Area>, C: seq<Area>, lo: int, hi: int, m: nat)
    requires Around(A, M, C, lo, hi) && 0 < m <= |M|
    ensures var a, L := M[m - 1], A + Cuts(M[m..], lo, hi) + C;
      Room(L, |A|, a) && InsertSeq(L, |A|, Cut(a, lo, hi)) == A + Cuts(M[m - 1..], lo, hi) + C
  {
    var a, K := M[m - 1], Cuts(M[m..], lo, hi);
    assert M[m - 1..][0] == a && M[m - 1..][1..] == M[m..];
    assert Cuts(M[m - 1..], lo, hi) == Cut(a, lo, hi) + K;
    hide Cuts, Cut, Ordered, Fine, InsertSeq, Room;
    NextInRange(A, M, C, m);
    CutsAfter(M[m..], lo, hi, a.end);
    RoomBetween(A, K, C, a);
    PutFront(A, Cut(a, lo, hi), K, C);
  }

  lemma ReleaseSums(A: seq<Area>, M: seq<Area>, C: seq<Area>, lo: int, hi: int, m: nat)
    requires Around(A, M, C, lo, hi) && 0 < m <= |M|
    ensures var a, L, N := M[m - 1], A + Cuts(M[m..], lo, hi) + C, A + Cuts(M[m - 1..], lo, hi) + C;
      Fine(a) && Total(N) + Total(M[..m - 1]) - Total(Cut(a, lo, hi)) == Total(L) + Total(M[..m]) - Pages(a) &&
      Locked(N) + Locked(M[..m - 1]) - Locked(Cut(a, lo, hi)) == Locked(L) + Locked(M[..m]) - LockedPages(a)
  {
    var a, K, X := M[m - 1], Cuts(M[m..], lo, hi), Cut(M[m - 1], lo, hi);
    assert M[m - 1..][0] == a && M[m - 1..][1..] == M[m..];
    assert Cuts(M[m - 1..], lo, hi) == X + K;
    assert (A + M + C)[|A| + m - 1] == a;
    hide Total, Locked, Cuts, Cut, Ordered;
    SumsAppend(X, K);
    SumsChange(A, K, X + K, C);
    assert M[..m] == M[..m - 1] + [a];
    SumsAppend(M[..m - 1], [a]);
    One(a, 0);
  }

  /** All that one round needs to know. */
  lemma ReleaseFacts(A: seq<Area>, M: seq<Area>, C: seq<Area>, lo: int, hi: int, m: nat)
    requires Around(A, M, C, lo, hi) && 0 < m <= |M|
    ensures var a, L, N := M[m - 1], A + Cuts(M[m..], lo, hi) + C, A + Cuts(M[m - 1..], lo, hi) + C;
      var s, e := Lower(a, lo), Upper(a, hi);
      Room(L, |A|, a) && InsertSeq(L, |A|, Rest(a, s, e)) == N && a.start <= s < e <= a.end &&
      s % PAGE_SIZE == 0 && e % PAGE_SIZE == 0 &&
      Total(N) + Total(M[..m - 1]) == Total(L) + Total(M[..m]) - (e - s) / PAGE_SIZE &&
      Locked(N) + Locked(M[..m - 1]) ==
        Locked(L) + Locked(M[..m]) - Marked(a.flags, (e - s) / PAGE_SIZE)
  {
    assert M[m - 1].start < hi && lo < M[m - 1].end && lo < hi && lo % PAGE_SIZE == 0 && hi % PAGE_SIZE == 0;
    hide Cuts, Cut, Rest, Total, Locked, Pages, LockedPages, InsertSeq, Room, Around;
    ReleaseStep(A, M, C, lo, hi, m);
    ReleaseSums(A, M, C, lo, hi, m);
    RestSums(M[m - 1], lo, hi);
  }

  /** Area `i` is the first that ends above an address. */
  predicate EndsFrom(L: seq<Area>, addr: int, i: nat)
  {
    i <= |L| && forall j :: 0 <= j < |L| ==> if j < i then L[j].end <= addr else L[j].end > addr
  }

  lemma PartSums(L: seq<Area>, p: nat, q: nat)
    requires p <= q <= |L|
    ensures Total(L) == Total(L[..p] + L[q..]) + Total(L[p..q]) && Locked(L) == Locked(L[..p] + L[q..]) + Locked(L[p..q])
  {
    NoSums();
    hide Total, Locked;
    SumsChange(L[..p], L[p..q], [], L[q..]);
    assert L[..p] + L[p..q] + L[q..] == L && L[..p] + [] + L[q..] == L[..p] + L[q..];
  }

  lemma InRange(L: seq<Area>, p: nat, q: nat, lo: int, hi: int)
    requires Ordered(L) && EndsFrom(L, lo, p) && p <= q <= |L| && (forall j :: p <= j < q ==> L[j].start < hi)
    requires q < |L| ==> L[q].start >= hi
    requires lo < hi && lo % PAGE_SIZE == 0 && hi % PAGE_SIZE == 0
    ensures Around(L[..p], L[p..q], L[q..], lo, hi) && L[..p] + L[p..q] + L[q..] == L
  {
    assert L[..p] + L[p..q] + L[q..] == L;
    var C := L[q..];
    forall i | 0 <= i < |C| ensures hi <= C[i].start {
      assert C[i] == L[q + i];
      if i > 0 {
        assert L[q].end <= L[q + i].start && Fine(L[q]);
      }
    }
  }

  lemma AllBelow(L: seq<Area>, lo: int, hi: int)
    requires EndsFrom(L, lo, |L|)
    ensures Cuts(L, lo, hi) == L
  {
    CutsNothing(L, lo, hi);
  }
}
