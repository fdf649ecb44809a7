/**
 All POSIX locks of the system: the lists of all files and the block lists that hang off them,
 with the steps that `posix_lock_file`, an interrupted sleep and the closing of a file take, in unbounded
 arithmetic, and the scans through these lists.
 */
module PosixLocks {
  import opened Common
  import opened LockRanges
  import opened WaitGraph
  import opened LockFile
  import opened LockWalk

  type Files = seq<seq<Lock>>

  function AllEdges(T: Files): Graph
  {
    if |T| == 0 then multiset{} else Edges(T[0]) + AllEdges(T[1..])
  }

  /** Every file is in order, no task waits twice, and nobody waits in a circle. */
  ghost predicate TableOk(T: Files)
  {
    (forall f :: 0 <= f < |T| ==> FileOk(T[f])) && Single(AllEdges(T)) && Acyclic(AllEdges(T))
  }

  /** What happens to the table, one step at a time. */
  datatype Event =
    | Granted(f: nat, r: Request)
    | Blocked(f: nat, i: nat, r: Request)
    | Unblocked(f: nat, i: nat, a: nat)
    | Closed(f: nat, owner: Task)

  /** When `posix_lock_file` and its relatives let a step happen. */
  ghost predicate Allowed(T: Files, e: Event)
  {
    e.f < |T| &&
    match e
    case Granted(f, r) => r.start <= r.end && NoConflict(T[f], r)
    case Blocked(f, i, r) =>
      i < |T[f]| && r.start <= r.end && Conflict(r, T[f][i]) && !Sleeps(AllEdges(T), r.owner) && !Reaches(AllEdges(T), T[f][i].owner, r.owner)
    case Unblocked(f, i, a) => i < |T[f]| && a < |T[f][i].waiters|
    case Closed(f, o) => true
  }

  function AddWaiter(L: seq<Lock>, i: nat, r: Request): seq<Lock>
    requires i < |L|
  {
    L[i := L[i].(waiters := L[i].waiters + [r])]
  }

  function DropWaiter(L: seq<Lock>, i: nat, a: nat): seq<Lock>
    requires i < |L| && a < |L[i].waiters|
  {
    L[i := L[i].(waiters := L[i].waiters[..a] + L[i].waiters[a + 1..])]
  }

  ghost function NewList(T: Files, e: Event): seq<Lock>
    requires Allowed(T, e)
  {
    match e
    case Granted(f, r) => Grant(Unbounded, T[f], AsLock(r))
    case Blocked(f, i, r) => AddWaiter(T[f], i, r)
    case Unblocked(f, i, a) => DropWaiter(T[f], i, a)
    case Closed(f, o) => Others(T[f], o)
  }

  ghost function After(T: Files, e: Event): Files
    requires Allowed(T, e)
  {
    T[e.f := NewList(T, e)]
  }

  lemma Shuffle(A: Graph, B: Graph, C: Graph, D: Graph, E: Graph)
    requires B + C == D + E
    ensures (A + B) + C == (A + D) + E
  {
    assert (A + B) + C == A + (B + C) && (A + D) + E == A + (D + E);
  }

  lemma Cancel(A: Graph, B: Graph, C: Graph)
    requires A + C == B + C
    ensures A == B
  {
    forall e ensures A[e] == B[e] {
      assert (A + C)[e] == A[e] + C[e] && (B + C)[e] == B[e] + C[e];
    }
  }

  lemma {:induction false} ReplaceEdges(T: Files, f: nat, L: seq<Lock>)
    requires f < |T|
    ensures AllEdges(T[f := L]) + Edges(T[f]) == AllEdges(T) + Edges(L)
  {
    hide Edges;
    if f == 0 {
      assert T[0 := L][1..] == T[1..];
    } else {
      ReplaceEdges(T[1..], f - 1, L);
      assert T[f := L][1..] == T[1..][f - 1 := L];
      Shuffle(Edges(T[0]), AllEdges(T[1..][f - 1 := L]), Edges(T[f]), AllEdges(T[1..]), Edges(L));
    }
  }

  lemma {:induction false} BlockListAppend(v: seq<Request>, w: seq<Request>, o: Task)
    ensures BlockList(v + w, o) == BlockList(v, o) + BlockList(w, o)
  {
    if |v| == 0 {
      assert v + w == w;
    } else {
      assert (v + w)[1..] == v[1..] + w;
      BlockListAppend(v[1..], w, o);
    }
  }

  lemma OneWaiter(r: Request, o: Task)
    ensures BlockList([r], o) == multiset{(r.owner, o)}
  {
    assert [r][1..] == [];
  }

  lemma WaitersChanged(L: seq<Lock>, i: nat, w: seq<Request>)
    requires i < |L|
    ensures Edges(L[i := L[i].(waiters := w)]) + BlockList(L[i].waiters, L[i].owner) == Edges(L) + BlockList(w, L[i].owner)
  {
    hide BlockList, Edges;
    var l := L[i].(waiters := w);
    assert L == L[..i] + ([L[i]] + L[i + 1..]);
    assert L[i := l] == L[..i] + ([l] + L[i + 1..]);
    EdgesAppend(L[..i], [L[i]] + L[i + 1..]);
    EdgesAppend(L[..i], [l] + L[i + 1..]);
    EdgesFirst(L[i], L[i + 1..]);
    EdgesFirst(l, L[i + 1..]);
  }

  lemma AddWaiterEdges(L: seq<Lock>, i: nat, r: Request)
    requires i < |L|
    ensures Edges(AddWaiter(L, i, r)) == Edges(L) + multiset{(r.owner, L[i].owner)}
  {
    hide Edges, BlockList;
    WaitersChanged(L, i, L[i].waiters + [r]);
    BlockListAppend(L[i].waiters, [r], L[i].owner);
    OneWaiter(r, L[i].owner);
    var more, before := multiset{(r.owner, L[i].owner)}, BlockList(L[i].waiters, L[i].owner);
    assert Edges(L) + (before + more) == (Edges(L) + more) + before;
    Cancel(Edges(AddWaiter(L, i, r)), Edges(L) + more, before);
  }

  lemma DropWaiterEdges(L: seq<Lock>, i: nat, a: nat)
    requires i < |L| && a < |L[i].waiters|
    ensures Edges(DropWaiter(L, i, a)) + multiset{(L[i].waiters[a].owner, L[i].owner)} == Edges(L)
  {
    hide Edges, BlockList;
    var w, o := L[i].waiters, L[i].owner;
    WaitersChanged(L, i, w[..a] + w[a + 1..]);
    assert w == w[..a] + ([w[a]] + w[a + 1..]);
    BlockListAppend(w[..a], [w[a]] + w[a + 1..], o);
    BlockListAppend([w[a]], w[a + 1..], o);
    BlockListAppend(w[..a], w[a + 1..], o);
    OneWaiter(w[a], o);
    var gone, left := multiset{(w[a].owner, o)}, BlockList(w[..a], o) + BlockList(w[a + 1..], o);
    assert BlockList(w, o) == gone + left;
    var now := Edges(DropWaiter(L, i, a));
    assert now + (gone + left) == (now + gone) + left;
    Cancel(now + gone, Edges(L), left);
  }

  /** Everything but the block lists depends on the ranges alone. */
  lemma {:induction false} SameRangesOf(L: seq<Lock>, M: seq<Lock>, o: Task)
    requires SameRanges(L, M)
    ensures SameRanges(Of(L, o), Of(M, o))
  {
    if |L| > 0 {
      assert SameRange(L[0], M[0]);
      assert forall i :: 0 <= i < |L[1..]| ==> SameRange(L[1..][i], M[1..][i]);
      SameRangesOf(L[1..], M[1..], o);
    }
  }

  lemma {:induction false} SameRangesCanonical(A: seq<Lock>, B: seq<Lock>)
    requires SameRanges(A, B) && Canonical(A)
    ensures Canonical(B) && forall x :: TypeAt(A, x) == TypeAt(B, x)
  {
    if |A| > 0 {
      assert SameRange(A[0], B[0]);
      assert |A| > 1 ==> SameRange(A[1], B[1]);
      assert forall i :: 0 <= i < |A[1..]| ==> SameRange(A[1..][i], B[1..][i]);
      SameRangesCanonical(A[1..], B[1..]);
    }
  }

  lemma SameRangesKeep(L: seq<Lock>, M: seq<Lock>)
    requires FileOk(L) && SameRanges(L, M)
    ensures Grouped(M) && AllCanonical(M) && Exclusive(M)
    ensures forall o: Task, x :: HeldAt(M, o, x) == HeldAt(L, o, x)
  {
    hide Canonical, Of;
    forall i, j | 0 <= i < |M| && 0 <= j < |M| ensures Compatible(M[i], M[j]) {
      assert SameRange(L[i], M[i]) && SameRange(L[j], M[j]) && Compatible(L[i], L[j]);
    }
    forall i, j, k | 0 <= i <= j <= k < |M| && M[i].owner == M[k].owner ensures M[j].owner == M[i].owner {
      assert SameRange(L[i], M[i]) && SameRange(L[j], M[j]) && SameRange(L[k], M[k]);
    }
    forall o: Task ensures Canonical(Of(M, o)) && forall x :: HeldAt(M, o, x) == HeldAt(L, o, x) {
      SameRangesOf(L, M, o);
      SameRangesCanonical(Of(L, o), Of(M, o));
    }
  }

  lemma AddWaiterKeeps(L: seq<Lock>, i: nat, r: Request)
    requires FileOk(L) && i < |L| && r.start <= r.end && Conflict(r, L[i])
    ensures FileOk(AddWaiter(L, i, r)) && forall o: Task, x :: HeldAt(AddWaiter(L, i, r), o, x) == HeldAt(L, o, x)
  {
    hide Of, Canonical, Grouped, AllCanonical, Exclusive;
    var M := AddWaiter(L, i, r);
    assert forall j :: 0 <= j < |L| ==> SameRange(L[j], M[j]);
    SameRangesKeep(L, M);
    assert Awaited(M[i]) by {
      assert Awaited(L[i]);
    }
  }

  lemma DropWaiterKeeps(L: seq<Lock>, i: nat, a: nat)
    requires FileOk(L) && i < |L| && a < |L[i].waiters|
    ensures FileOk(DropWaiter(L, i, a)) && forall o: Task, x :: HeldAt(DropWaiter(L, i, a), o, x) == HeldAt(L, o, x)
  {
    hide Of, Canonical, Grouped, AllCanonical, Exclusive;
    var M := DropWaiter(L, i, a);
    assert forall j :: 0 <= j < |L| ==> SameRange(L[j], M[j]);
    SameRangesKeep(L, M);
    assert Awaited(M[i]) by {
      assert Awaited(L[i]);
    }
  }

  lemma EventFile(T: Files, e: Event)
    requires TableOk(T) && Allowed(T, e)
    ensures FileOk(NewList(T, e))
  {
    hide FileOk, Grant, AddWaiter, DropWaiter, Others, Reaches, AllEdges;
    assert FileOk(T[e.f]);
    match e
    case Granted(f, r) => GrantKeeps(T[f], r);
    case Blocked(f, i, r) => AddWaiterKeeps(T[f], i, r);
    case Unblocked(f, i, a) => DropWaiterKeeps(T[f], i, a);
    case Closed(f, o) => OthersKeep(T[f], o);
  }

  lemma EventEdges(T: Files, e: Event)
    requires Allowed(T, e)
    ensures if e.Blocked? then AllEdges(After(T, e)) == AllEdges(T) + multiset{(e.r.owner, T[e.f][e.i].owner)}
            else AllEdges(After(T, e)) <= AllEdges(T)
  {
    hide Edges, AllEdges, Grant, AddWaiter, DropWaiter, Others, Reaches;
    var L, M := T[e.f], NewList(T, e);
    ReplaceEdges(T, e.f, M);
    match e
    case Granted(f, r) =>
      GrantEdges(Unbounded, L, AsLock(r));
      CancelLess(AllEdges(After(T, e)), AllEdges(T), Edges(L), Edges(M));
    case Blocked(f, i, r) =>
      AddWaiterEdges(L, i, r);
      var more := multiset{(r.owner, L[i].owner)};
      assert AllEdges(T) + (Edges(L) + more) == (AllEdges(T) + more) + Edges(L);
      Cancel(AllEdges(After(T, e)), AllEdges(T) + more, Edges(L));
    case Unblocked(f, i, a) =>
      DropWaiterEdges(L, i, a);
      CancelLess(AllEdges(After(T, e)), AllEdges(T), Edges(L), Edges(M));
    case Closed(f, o) =>
      OthersEdges(L, o);
      CancelLess(AllEdges(After(T, e)), AllEdges(T), Edges(L), Edges(M));
  }

  lemma CancelLess(A: Graph, B: Graph, C: Graph, D: Graph)
    requires A + C == B + D && D <= C
    ensures A <= B
  {
    forall e ensures A[e] <= B[e] {
      assert (A + C)[e] == A[e] + C[e] && (B + D)[e] == B[e] + D[e];
    }
  }

  /** Every step keeps every file in order and every task out of a circle. */
  lemma EventKeeps(T: Files, e: Event)
    requires TableOk(T) && Allowed(T, e)
    ensures TableOk(After(T, e))
  {
    hide FileOk, NewList, AllEdges, Acyclic, Single, Reaches;
    EventFile(T, e);
    EventEdges(T, e);
    if e.Blocked? {
      NewWait(AllEdges(T), e.r.owner, T[e.f][e.i].owner);
      NewSingle(AllEdges(T), e.r.owner, T[e.f][e.i].owner);
    } else {
      FewerEdges(AllEdges(T), AllEdges(After(T, e)));
    }
  }

  ghost predicate Run(T: Files, events: seq<Event>)
    decreases |events|
  {
    |events| == 0 || (Allowed(T, events[0]) && Run(After(T, events[0]), events[1..]))
  }

  ghost function Result(T: Files, events: seq<Event>): Files
    requires Run(T, events)
    decreases |events|
  {
    if |events| == 0 then T else Result(After(T, events[0]), events[1..])
  }

  /** So does every run. */
  lemma {:induction false} RunKeeps(T: Files, events: seq<Event>)
    requires TableOk(T) && Run(T, events)
    ensures TableOk(Result(T, events))
    decreases |events|
  {
    if |events| > 0 {
      EventKeeps(T, events[0]);
      RunKeeps(After(T, events[0]), events[1..]);
    }
  }

  /** The table before any request. */
  function NoLocks(n: nat): Files
  {
    if n == 0 then [] else [[]] + NoLocks(n - 1)
  }

  lemma {:induction false} NoLocksOk(n: nat)
    ensures |NoLocks(n)| == n && TableOk(NoLocks(n)) && AllEdges(NoLocks(n)) == multiset{}
  {
    if n > 0 {
      NoLocksOk(n - 1);
      assert NoLocks(n)[1..] == NoLocks(n - 1);
    } else {
      NoEdges();
    }
  }

  lemma NoEdges()
    ensures Acyclic(multiset{}) && Single(multiset{})
  {
    forall p ensures !Cycle(multiset{}, p) {
      if Cycle(multiset{}, p) {
        FirstSleeps(multiset{}, p);
      }
    }
  }

  /** In no run from the empty table do two owners hold a byte that one of them writes, does a
      task sleep behind a lock that has no byte it needs for itself, or do tasks wait in a circle. */
  lemma SafeRuns(n: nat, events: seq<Event>, f: nat, i: nat, j: nat, x: int)
    requires Run(NoLocks(n), events)
    requires var T := Result(NoLocks(n), events); f < |T| && i < |T[f]| && j < |T[f]|
    ensures var T := Result(NoLocks(n), events);
      Sharable(T[f][i], T[f][j], x) && (forall w :: w in T[f][i].waiters ==> Bars(T[f][i], w)) && Acyclic(AllEdges(T))
  {
    NoLocksOk(n);
    RunKeeps(NoLocks(n), events);
    hide Result, Run, Bars, Acyclic, AllEdges, Single, Of, Grouped, AllCanonical;
    var L := Result(NoLocks(n), events)[f];
    assert FileOk(L) && Awaited(L[i]) && Compatible(L[i], L[j]);
    MemberWell(L, L[i]);
    forall w | w in L[i].waiters ensures Bars(L[i], w) {
      ConflictIff(w, L[i]);
    }
  }

  lemma NobodySleeps(t: Task)
    ensures !Sleeps(AllEdges([]), t) && !Sleeps(Edges([]), t)
  {
  }

  lemma SleepsInSum(A: Graph, B: Graph, t: Task)
    ensures Sleeps(A + B, t) <==> Sleeps(A, t) || Sleeps(B, t)
  {
    if Sleeps(A, t) {
      var e :| e in A && e.0 == t;
      assert e in A + B;
    }
    if Sleeps(B, t) {
      var e :| e in B && e.0 == t;
      assert e in A + B;
    }
  }

  method FindInList(list: seq<Lock>, t: Task) returns (found: bool, i: nat)
    ensures found ==> i < |list| && (t, list[i].owner) in BlockList(list[i].waiters, list[i].owner)
    ensures !found ==> !Sleeps(Edges(list), t)
  {
    hide Edges, BlockList, Sleeps;
    i, found := 0, false;
    NobodySleeps(t);
    while i < |list|
      invariant i <= |list| && !Sleeps(Edges(list[..i]), t)
    {
      found := OnBlockList(list[i], t);
      if found {
        return;
      }
      EdgesNext(list, i);
      SleepsInSum(Edges(list[..i]), BlockList(list[i].waiters, list[i].owner), t);
      i := i + 1;
    }
    assert list[..i] == list;
  }

  lemma EdgesNext(L: seq<Lock>, i: nat)
    requires i < |L|
    ensures Edges(L[..i + 1]) == Edges(L[..i]) + BlockList(L[i].waiters, L[i].owner)
  {
    hide BlockList;
    assert L[..i + 1] == L[..i] + [L[i]];
    EdgesAppend(L[..i], [L[i]]);
    assert [L[i]][1..] == [];
  }

  lemma BlockListNext(w: seq<Request>, a: nat, o: Task)
    requires a < |w|
    ensures BlockList(w[..a + 1], o) == BlockList(w[..a], o) + multiset{(w[a].owner, o)}
    ensures (w[a].owner, o) in BlockList(w, o)
  {
    hide BlockList;
    assert w[..a + 1] == w[..a] + [w[a]] && w == w[..a + 1] + w[a + 1..];
    BlockListAppend(w[..a], [w[a]], o);
    BlockListAppend(w[..a + 1], w[a + 1..], o);
    OneWaiter(w[a], o);
  }

  method OnBlockList(l: Lock, t: Task) returns (found: bool)
    ensures found ==> (t, l.owner) in BlockList(l.waiters, l.owner)
    ensures !found ==> !Sleeps(BlockList(l.waiters, l.owner), t)
  {
    var a := 0;
    NobodySleeps(t);
    while a < |l.waiters|
      invariant a <= |l.waiters| && !Sleeps(BlockList(l.waiters[..a], l.owner), t)
    {
      hide BlockList;
      BlockListNext(l.waiters, a, l.owner);
      if l.waiters[a].owner == t {
        return true;
      }
      a := a + 1;
    }
    assert l.waiters[..a] == l.waiters;
    found := false;
  }

  lemma {:induction false} AllEdgesAppend(S: Files, T: Files)
    ensures AllEdges(S + T) == AllEdges(S) + AllEdges(T)
  {
    hide Edges;
    if |S| == 0 {
      assert S + T == T;
    } else {
      assert (S + T)[1..] == S[1..] + T;
      AllEdgesAppend(S[1..], T);
    }
  }

  lemma AllEdgesNext(T: Files, f: nat)
    requires f < |T|
    ensures AllEdges(T[..f + 1]) == AllEdges(T[..f]) + Edges(T[f])
  {
    hide Edges;
    assert T[..f + 1] == T[..f] + [T[f]];
    AllEdgesAppend(T[..f], [T[f]]);
    assert [T[f]][1..] == [];
  }

  lemma EdgeOfLock(T: Files, f: nat, i: nat, e: (Task, Task))
    requires f < |T| && i < |T[f]| && e in BlockList(T[f][i].waiters, T[f][i].owner)
    ensures e in AllEdges(T)
  {
    hide Edges, BlockList, AllEdges;
    var L := T[f];
    assert L == L[..i] + ([L[i]] + L[i + 1..]);
    EdgesAppend(L[..i], [L[i]] + L[i + 1..]);
    EdgesFirst(L[i], L[i + 1..]);
    assert e in Edges(L);
    assert T == T[..f + 1] + T[f + 1..];
    AllEdgesAppend(T[..f + 1], T[f + 1..]);
    AllEdgesNext(T, f);
  }

  /** The scan of a file's locks for one that stands in the way. */
  method FirstConflict(list: seq<Lock>, r: Request) returns (i: nat)
    ensures i <= |list| && (i < |list| ==> Conflict(r, list[i])) && NoConflict(list[..i], r)
  {
    i := 0;
    while i < |list|
      invariant i <= |list| && NoConflict(list[..i], r)
    {
      if Conflict(r, list[i]) {
        return;
      }
      i := i + 1;
    }
  }

  /** `posix_remove_locks`: the loop that takes an owner's locks off a list. */
  method RemoveOwned(L: seq<Lock>, o: Task) returns (list: seq<Lock>)
    ensures list == Others(L, o)
  {
    list := L;
    var before := 0;
    ghost var k := 0;
    while before < |list|
      invariant before <= |list| && k <= |L| && |list| - before == |L| - k
      invariant list[before..] == L[k..] && list[..before] == Others(L[..k], o)
      decreases |list| - before
    {
      hide Others;
      assert list[before] == L[k];
      OthersNext(L, k, o);
      if list[before].owner == o {
        ghost var was := list;
        list := Delete(list, before);
        assert list[before..] == was[before..][1..] && L[k + 1..] == L[k..][1..];
        assert list[..before] == was[..before];
      } else {
        assert list[before + 1..] == list[before..][1..] && L[k + 1..] == L[k..][1..];
        assert list[..before + 1] == list[..before] + [list[before]];
        before := before + 1;
      }
      k := k + 1;
    }
    assert L[..k] == L && list[..before] == list;
  }

  lemma OthersNext(L: seq<Lock>, k: nat, o: Task)
    requires k < |L|
    ensures Others(L[..k + 1], o) == Others(L[..k], o) + if L[k].owner == o then [] else [L[k]]
  {
    assert L[..k + 1] == L[..k] + [L[k]];
    OthersAppend(L[..k], [L[k]], o);
  }

  /** What a granted request means: the caller's map of offsets to lock types is overwritten on
      the requested range and nowhere else, and nobody else's map changes. */
  lemma GrantedMap(T: Files, f: nat, r: Request, g: nat, o: Task, x: int)
    requires TableOk(T) && Allowed(T, Granted(f, r)) && g < |T|
    ensures HeldAt(After(T, Granted(f, r))[g], o, x) ==
      if g == f && o == r.owner && r.start <= x <= r.end then Wanted(r.ty) else HeldAt(T[g], o, x)
  {
    hide Of, TypeAt, Grant, Insert, Canonical, Grouped;
    assert FileOk(T[f]);
    var c := AsLock(r);
    if g == f {
      GrantOwn(Unbounded, T[f], c);
      OfOwned(T[f], r.owner);
      assert Canonical(Of(T[f], r.owner));
      InsertMeans(Of(T[f], r.owner), c);
    }
  }

  /** The other steps change no map, except that closing a file empties the owner's. */
  lemma OtherMaps(T: Files, e: Event, g: nat, o: Task, x: int)
    requires TableOk(T) && Allowed(T, e) && !e.Granted? && g < |T|
    ensures HeldAt(After(T, e)[g], o, x) == if e.Closed? && g == e.f && o == e.owner then None else HeldAt(T[g], o, x)
  {
    hide Of, AddWaiter, DropWaiter, Others, Reaches, AllEdges;
    assert FileOk(T[e.f]);
    if g == e.f {
      match e
      case Blocked(f, i, r) => AddWaiterKeeps(T[f], i, r);
      case Unblocked(f, i, a) => DropWaiterKeeps(T[f], i, a);
      case Closed(f, owner) => OthersOf(T[f], owner, o);
    }
  }
}
