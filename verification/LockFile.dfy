/**
 The POSIX locks of one file: the locks of all owners in one list, grouped by owner, as
 `posix_lock_file` and `posix_remove_locks` keep them.
 */
module LockFile {
  import opened Common
  import opened LockRanges
  import opened WaitGraph

  /** The locks of one owner, in list order. */
  function Of(L: seq<Lock>, o: Task): seq<Lock>
  {
    if |L| == 0 then [] else (if L[0].owner == o then [L[0]] else []) + Of(L[1..], o)
  }

  /** An owner's locks stand together in the list. */
  predicate Grouped(L: seq<Lock>)
  {
    forall i, j, k :: 0 <= i <= j <= k < |L| && L[i].owner == L[k].owner ==> L[j].owner == L[i].owner
  }

  predicate Without(L: seq<Lock>, o: Task)
  {
    forall i :: 0 <= i < |L| ==> L[i].owner != o
  }

  /** How many locks of other owners come first. */
  function Skip(L: seq<Lock>, o: Task): (s: nat)
    ensures s <= |L| && Without(L[..s], o) && (s < |L| ==> L[s].owner == o)
  {
    if |L| == 0 || L[0].owner == o then 0
    else
      var s := Skip(L[1..], o);
      assert L[..s + 1] == [L[0]] + L[1..][..s];
      s + 1
  }

  /** The list after a granted request. */
  function Grant(ar: Arithmetic, L: seq<Lock>, c: Lock): seq<Lock>
  {
    var s := Skip(L, c.owner);
    L[..s] + Insert(ar, L[s..], c)
  }

  lemma {:induction false} OfAppend(A: seq<Lock>, B: seq<Lock>, o: Task)
    ensures Of(A + B, o) == Of(A, o) + Of(B, o)
  {
    if |A| == 0 {
      assert A + B == B;
    } else {
      assert (A + B)[1..] == A[1..] + B;
      OfAppend(A[1..], B, o);
    }
  }

  lemma {:induction false} OfOwned(L: seq<Lock>, o: Task)
    ensures Owned(Of(L, o), o)
    ensures Owned(L, o) ==> Of(L, o) == L
    ensures Without(L, o) ==> Of(L, o) == []
  {
    if |L| > 0 {
      OfOwned(L[1..], o);
    }
  }

  lemma {:induction false} OfMember(L: seq<Lock>, o: Task, l: Lock)
    ensures l in Of(L, o) <==> l in L && l.owner == o
  {
    if |L| > 0 {
      OfMember(L[1..], o, l);
      assert L == [L[0]] + L[1..];
    }
  }

  function RunLength(L: seq<Lock>, o: Task): (n: nat)
    ensures n <= |L| && Owned(L[..n], o) && (n < |L| ==> L[n].owner != o)
    ensures n == 0 ==> |L| == 0 || L[0].owner != o
  {
    if |L| == 0 || L[0].owner != o then 0
    else
      var n := RunLength(L[1..], o);
      assert L[..n + 1] == [L[0]] + L[1..][..n];
      n + 1
  }

  lemma NoneFurther(L: seq<Lock>, s: nat, n: nat)
    requires Grouped(L) && s + n < |L| && L[s + n].owner != L[s].owner
    ensures Without(L[s + n..], L[s].owner)
  {
    var C := L[s + n..];
    forall i | 0 <= i < |C| ensures C[i].owner != L[s].owner {
      assert C[i] == L[s + n + i];
    }
  }

  /** A grouped list is: others, then the owner's locks, then others. */
  lemma {:induction false} Parts(L: seq<Lock>, o: Task) returns (A: seq<Lock>, C: seq<Lock>)
    requires Grouped(L)
    ensures L == A + Of(L, o) + C && Without(A, o) && Without(C, o) && |A| == Skip(L, o)
    ensures Of(L, o) == [] ==> C == []
  {
    hide Of, Skip, Grouped, RunLength;
    var s := Skip(L, o);
    var n := RunLength(L[s..], o);
    var B := L[s..][..n];
    A, C := L[..s], L[s + n..];
    if s + n < |L| {
      assert L[s + n] == L[s..][n] && L[s] == L[s..][0];
      NoneFurther(L, s, n);
    }
    assert L == A + B + C;
    OfReplaced(A, B, C, o, o);
  }

  /** The lock type an owner holds at an offset. */
  function HeldAt(L: seq<Lock>, o: Task, x: int): Option<Type>
  {
    TypeAt(Of(L, o), x)
  }

  ghost predicate AllCanonical(L: seq<Lock>)
  {
    forall o :: Canonical(Of(L, o))
  }

  /** Two owners share a byte only if both just read it. */
  predicate Compatible(a: Lock, b: Lock)
  {
    a.owner != b.owner && Overlap(a.start, a.end, b) ==> a.ty == Read && b.ty == Read
  }

  predicate Exclusive(L: seq<Lock>)
  {
    forall i, j :: 0 <= i < |L| && 0 <= j < |L| ==> Compatible(L[i], L[j])
  }

  predicate NoConflict(L: seq<Lock>, r: Request)
  {
    forall i :: 0 <= i < |L| ==> !Conflict(r, L[i])
  }

  ghost predicate FileOk(L: seq<Lock>)
  {
    Grouped(L) && AllCanonical(L) && Exclusive(L) && AllAwaited(L)
  }

  /** A granted request touches the caller's own locks and nothing else. */
  lemma GrantOwn(ar: Arithmetic, L: seq<Lock>, c: Lock)
    requires Grouped(L)
    ensures Of(Grant(ar, L, c), c.owner) == Insert(ar, Of(L, c.owner), c)
    ensures forall p: Task :: p != c.owner ==> Of(Grant(ar, L, c), p) == Of(L, p)
    ensures Grouped(Grant(ar, L, c))
  {
    hide Of, Grouped, Insert;
    var o := c.owner;
    var A, C := Parts(L, o);
    var B := Of(L, o);
    var D := Insert(ar, B, c);
    GrantParts(ar, L, c, A, C);
    OfOwned(L, o);
    InsertOwned(ar, B, c);
    OfReplaced(A, B, C, o, o);
    OfReplaced(A, D, C, o, o);
    forall p: Task | p != o ensures Of(Grant(ar, L, c), p) == Of(L, p) {
      OfReplaced(A, B, C, o, p);
      OfReplaced(A, D, C, o, p);
    }
    GroupedReplaced(A, B, D, C, o);
  }

  lemma GrantParts(ar: Arithmetic, L: seq<Lock>, c: Lock, A: seq<Lock>, C: seq<Lock>)
    requires L == A + Of(L, c.owner) + C && |A| == Skip(L, c.owner) && Without(C, c.owner)
    ensures Grant(ar, L, c) == A + Insert(ar, Of(L, c.owner), c) + C
  {
    hide Of, Insert;
    OfOwned(L, c.owner);
    InsertSegment(ar, Of(L, c.owner), C, c);
    assert L[|A|..] == Of(L, c.owner) + C;
  }

  /** What an owner `p` has in a list whose middle part is `o`'s. */
  lemma OfReplaced(A: seq<Lock>, B: seq<Lock>, C: seq<Lock>, o: Task, p: Task)
    requires Without(A, o) && Owned(B, o) && Without(C, o)
    ensures Of(A + B + C, p) == if p == o then B else Of(A, p) + Of(C, p)
  {
    hide Of;
    OfAppend(A + B, C, p);
    OfAppend(A, B, p);
    OfOwned(A, p);
    OfOwned(B, p);
    OfOwned(C, p);
  }

  lemma GroupedReplaced(A: seq<Lock>, B: seq<Lock>, D: seq<Lock>, C: seq<Lock>, o: Task)
    requires Grouped(A + B + C) && Without(A, o) && Owned(B, o) && Owned(D, o) && Without(C, o)
    requires B == [] ==> C == []
    ensures Grouped(A + D + C)
  {
    var L, M := A + B + C, A + D + C;
    forall i, j, k | 0 <= i <= j <= k < |M| && M[i].owner == M[k].owner ensures M[j].owner == M[i].owner {
      assert i < |A| ==> L[i] == M[i];
      if |A| <= i && k < |A| + |D| {
      } else if k < |A| {
        assert L[j] == M[j] && L[k] == M[k];
      } else {
        var d := |B| - |D|;
        assert k >= |A| + |D| && L[k + d] == M[k];
        assert |B| > 0 && L[|A|].owner == o;
        if i >= |A| {
          assert i >= |A| + |D| && L[i + d] == M[i] && L[j + d] == M[j];
        }
      }
    }
  }

  lemma {:induction false} TypeMember(B: seq<Lock>, l: Lock, x: int)
    requires Canonical(B) && l in B && Covers(l, x)
    ensures TypeAt(B, x) == Some(l.ty)
  {
    assert B == [B[0]] + B[1..];
    if l != B[0] {
      TypeMember(B[1..], l, x);
      if x <= B[0].end {
        AfterFirst(B, x);
      }
    }
  }

  lemma {:induction false} TypeFrom(B: seq<Lock>, x: int) returns (l: Lock)
    requires TypeAt(B, x).Some?
    ensures l in B && Covers(l, x) && TypeAt(B, x) == Some(l.ty)
  {
    if Covers(B[0], x) {
      l := B[0];
    } else {
      l := TypeFrom(B[1..], x);
    }
  }

  /** A lock of the caller after the grant and a lock of somebody else share no written byte,
      although merging may have made the caller's lock wider than the request. */
  lemma GrantedCompatible(L: seq<Lock>, r: Request, a: Lock, b: Lock)
    requires FileOk(L) && NoConflict(L, r) && r.start <= r.end
    requires a in Of(Grant(Unbounded, L, AsLock(r)), r.owner) && b in L && b.owner != r.owner
    ensures Compatible(a, b) && Compatible(b, a)
  {
    hide Of, Grant, Insert, Grouped, Canonical, AllAwaited;
    var c := AsLock(r);
    var B := Of(L, r.owner);
    OfOwned(L, r.owner);
    GrantOwn(Unbounded, L, c);
    InsertMeans(B, c);
    if Overlap(a.start, a.end, b) {
      var x := Max(a.start, b.start);
      TypeMemberWell(Insert(Unbounded, B, c), a);
      MemberWell(L, b);
      TypeMember(Insert(Unbounded, B, c), a, x);
      if Covers(c, x) {
        assert !Conflict(r, b);
      } else {
        var d := TypeFrom(B, x);
        OfMember(L, r.owner, d);
        assert Compatible(d, b);
      }
    }
  }

  lemma {:induction false} TypeMemberWell(B: seq<Lock>, l: Lock)
    requires Canonical(B) && l in B
    ensures WellFormed(l)
  {
    assert B == [B[0]] + B[1..];
    if l != B[0] {
      TypeMemberWell(B[1..], l);
    }
  }

  lemma MemberWell(L: seq<Lock>, l: Lock)
    requires AllCanonical(L) && l in L
    ensures WellFormed(l)
  {
    OfMember(L, l.owner, l);
    TypeMemberWell(Of(L, l.owner), l);
  }

  /** The whole file stays in order: grouping, canonical ranges, exclusion, and no idle waits. */
  lemma GrantKeeps(L: seq<Lock>, r: Request)
    requires FileOk(L) && NoConflict(L, r) && r.start <= r.end
    ensures FileOk(Grant(Unbounded, L, AsLock(r)))
  {
    var c := AsLock(r);
    var M := Grant(Unbounded, L, c);
    hide Of, Grant, Insert, Grouped, Canonical;
    GrantOwn(Unbounded, L, c);
    forall o: Task ensures Canonical(Of(M, o)) {
      OfOwned(L, o);
      assert Canonical(Of(L, o));
      if o == c.owner {
        InsertMeans(Of(L, o), c);
      }
    }
    forall i, j | 0 <= i < |M| && 0 <= j < |M| ensures Compatible(M[i], M[j]) {
      GrantedPair(L, r, M[i], M[j]);
    }
    GrantAwaited(Unbounded, L, c);
  }

  lemma GrantedPair(L: seq<Lock>, r: Request, a: Lock, b: Lock)
    requires FileOk(L) && NoConflict(L, r) && r.start <= r.end
    requires a in Grant(Unbounded, L, AsLock(r)) && b in Grant(Unbounded, L, AsLock(r))
    ensures Compatible(a, b)
  {
    hide Of, Grant, Insert, Grouped, Canonical, AllAwaited;
    var M := Grant(Unbounded, L, AsLock(r));
    GrantOwn(Unbounded, L, AsLock(r));
    OfMember(M, a.owner, a);
    OfMember(M, b.owner, b);
    OfMember(L, a.owner, a);
    OfMember(L, b.owner, b);
    if a.owner == b.owner {
    } else if a.owner == r.owner {
      GrantedCompatible(L, r, a, b);
    } else if b.owner == r.owner {
      GrantedCompatible(L, r, b, a);
    }
  }

  lemma GrantAwaited(ar: Arithmetic, L: seq<Lock>, c: Lock)
    requires AllAwaited(L) && c.start <= c.end
    ensures AllAwaited(Grant(ar, L, c))
  {
    var s := Skip(L, c.owner);
    InsertAwaited(ar, L[s..], c);
  }

  /** The list without the locks of one owner. */
  function Others(L: seq<Lock>, o: Task): seq<Lock>
  {
    if |L| == 0 then [] else (if L[0].owner == o then [] else [L[0]]) + Others(L[1..], o)
  }

  lemma {:induction false} OthersAppend(A: seq<Lock>, B: seq<Lock>, o: Task)
    ensures Others(A + B, o) == Others(A, o) + Others(B, o)
  {
    if |A| == 0 {
      assert A + B == B;
    } else {
      assert (A + B)[1..] == A[1..] + B;
      OthersAppend(A[1..], B, o);
    }
  }

  lemma {:induction false} OthersOf(L: seq<Lock>, o: Task, p: Task)
    ensures Of(Others(L, o), p) == if p == o then [] else Of(L, p)
  {
    if |L| > 0 {
      OthersOf(L[1..], o, p);
      OfAppend(if L[0].owner == o then [] else [L[0]], Others(L[1..], o), p);
    }
  }

  lemma {:induction false} OthersPlaces(L: seq<Lock>, o: Task) returns (places: seq<nat>)
    ensures |places| == |Others(L, o)|
    ensures forall i :: 0 <= i < |places| ==> places[i] < |L| && Others(L, o)[i] == L[places[i]]
    ensures forall i, j :: 0 <= i < j < |places| ==> places[i] < places[j]
  {
    if |L| == 0 {
      places := [];
    } else {
      var rest := OthersPlaces(L[1..], o);
      var shifted := seq(|rest|, i requires 0 <= i < |rest| => rest[i] + 1);
      places := (if L[0].owner == o then [] else [0]) + shifted;
    }
  }

  /** Closing a file drops the owner's locks and keeps everything else in order. */
  lemma OthersKeep(L: seq<Lock>, o: Task)
    requires FileOk(L)
    ensures FileOk(Others(L, o))
  {
    var M := Others(L, o);
    var places := OthersPlaces(L, o);
    hide Of, Others;
    forall i, j, k | 0 <= i <= j <= k < |M| && M[i].owner == M[k].owner ensures M[j].owner == M[i].owner {
      assert places[i] <= places[j] <= places[k];
    }
    forall p: Task ensures Canonical(Of(M, p)) {
      OthersOf(L, o, p);
      assert Canonical(Of(L, p));
    }
  }

  function BlockList(waiters: seq<Request>, o: Task): Graph
  {
    if |waiters| == 0 then multiset{} else multiset{(waiters[0].owner, o)} + BlockList(waiters[1..], o)
  }

  /** Who sleeps on the block lists of a list of locks, and for whom. */
  function Edges(L: seq<Lock>): Graph
  {
    if |L| == 0 then multiset{} else BlockList(L[0].waiters, L[0].owner) + Edges(L[1..])
  }

  lemma {:induction false} EdgesAppend(A: seq<Lock>, B: seq<Lock>)
    ensures Edges(A + B) == Edges(A) + Edges(B)
  {
    if |A| == 0 {
      assert A + B == B;
    } else {
      assert (A + B)[1..] == A[1..] + B;
      EdgesAppend(A[1..], B);
    }
  }

  lemma EdgesFirst(l: Lock, B: seq<Lock>)
    ensures Edges([l] + B) == BlockList(l.waiters, l.owner) + Edges(B)
  {
    assert ([l] + B)[1..] == B;
  }

  lemma {:induction false} AbsorbEdges(ar: Arithmetic, B: seq<Lock>, c: Lock)
    ensures Edges(Absorb(ar, B, c)) <= BlockList(c.waiters, c.owner) + Edges(B)
    decreases |B|
  {
    hide BlockList;
    EdgesFirst(c, B);
    if |B| > 0 && B[0].owner == c.owner {
      var fl := B[0];
      if c.ty == fl.ty && fl.start <= Next(ar, c.end) {
        AbsorbEdges(ar, B[1..], c.(end := Max(fl.end, c.end)));
      } else if c.ty != fl.ty && fl.start <= c.end && fl.end <= c.end {
        AbsorbEdges(ar, B[1..], c);
      } else if c.ty != fl.ty && fl.start <= c.end {
        var fl' := fl.(start := c.end + 1, waiters := []);
        EdgesFirst(fl', B[1..]);
        EdgesFirst(c, [fl'] + B[1..]);
        assert [c, fl'] + B[1..] == [c] + ([fl'] + B[1..]);
        NoBlockList(fl'.owner);
      }
    }
  }

  lemma NoBlockList(o: Task)
    ensures BlockList([], o) == multiset{}
  {
  }

  /** A granted request wakes tasks but puts none to sleep. */
  lemma {:induction false} InsertEdges(ar: Arithmetic, B: seq<Lock>, c: Lock)
    ensures Edges(Insert(ar, B, c)) <= Edges(B)
    decreases |B|
  {
    hide BlockList, Absorb, Insert, Edges, New, LeftPart, MoveOf;
    NewEdges(c, B);
    if |B| == 0 || B[0].owner != c.owner {
      InsertNone(ar, B, c);
    } else {
      var fl := B[0];
      InsertStep(ar, B, c);
      assert B == [fl] + B[1..];
      EdgesFirst(fl, B[1..]);
      NoBlockList(fl.owner);
      match MoveOf(ar, fl, c)
      case PassOver =>
        InsertEdges(ar, B[1..], c);
        EdgesFirst(fl, Insert(ar, B[1..], c));
      case PutHere =>
      case Merge =>
        AbsorbEdges(ar, B[1..], Hull(fl, c));
      case SplitOff =>
        var fl' := fl.(start := c.end + 1, waiters := []);
        EdgesFirst(fl', B[1..]);
        NewEdges(c, [fl'] + B[1..]);
        LeftEdges(fl, c, New(c) + ([fl'] + B[1..]));
        assert LeftPart(fl, c) + New(c) + [fl'] + B[1..] == LeftPart(fl, c) + (New(c) + ([fl'] + B[1..]));
      case ShortenIt =>
        InsertEdges(ar, B[1..], c);
        LeftEdges(fl, c, Insert(ar, B[1..], c));
      case Replace =>
        AbsorbEdges(ar, B[1..], c.(waiters := []));
    }
  }

  lemma NewEdges(c: Lock, B: seq<Lock>)
    ensures Edges(New(c) + B) == Edges(B)
  {
    EdgesFirst(c.(waiters := []), B);
    assert c.ty == Unlock ==> New(c) + B == B;
  }

  lemma LeftEdges(fl: Lock, c: Lock, B: seq<Lock>)
    ensures Edges(LeftPart(fl, c) + B) == Edges(B)
  {
    EdgesFirst(fl.(end := c.start - 1, waiters := []), B);
    assert fl.start >= c.start ==> LeftPart(fl, c) + B == B;
  }

  lemma GrantEdges(ar: Arithmetic, L: seq<Lock>, c: Lock)
    ensures Edges(Grant(ar, L, c)) <= Edges(L)
  {
    hide Edges;
    var s := Skip(L, c.owner);
    InsertEdges(ar, L[s..], c);
    EdgesAppend(L[..s], L[s..]);
    EdgesAppend(L[..s], Insert(ar, L[s..], c));
    assert L[..s] + L[s..] == L;
  }

  lemma {:induction false} OthersEdges(L: seq<Lock>, o: Task)
    ensures Edges(Others(L, o)) <= Edges(L)
  {
    hide BlockList;
    if |L| > 0 {
      OthersEdges(L[1..], o);
      EdgesFirst(L[0], Others(L[1..], o));
      assert [] + Others(L[1..], o) == Others(L[1..], o);
    }
  }
}
