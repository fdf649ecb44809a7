/**
 The lock table of `fs/locks.c` in 32-bit arithmetic: what every run of the system keeps, whatever
 requests are made, and when it is the run that unbounded arithmetic prescribes.
 */
module MachineLocks {
  import opened Common
  import opened LockRanges
  import opened WaitGraph
  import opened LockFile
  import opened LockWalk
  import opened LockSafety
  import opened LockOverflow
  import opened PosixLocks

  ghost predicate Apart(L: seq<Lock>)
  {
    forall i, j, x :: 0 <= i < |L| && 0 <= j < |L| ==> Sharable(L[i], L[j], x)
  }

  /** What is kept of a file's locks even after a sum has overflowed: an owner's locks may overlap and be out
      of order, but they stand together, and no two owners hold a byte that one of them writes. */
  ghost predicate LooseFile(L: seq<Lock>)
  {
    Grouped(L) && Apart(L) && AllAwaited(L) && NoUnlocks(L) && InFile(L)
  }

  ghost predicate LooseTable(T: Files)
  {
    (forall f :: 0 <= f < |T| ==> LooseFile(T[f])) && Single(AllEdges(T)) && Acyclic(AllEdges(T))
  }

  lemma SoundParts(L: seq<Lock>, c: Lock, M: seq<Lock>, pre: seq<Lock>, B: seq<Lock>, B': seq<Lock>, C: seq<Lock>)
    requires Sound(L, c, M, pre, B, B', C)
    ensures forall i :: 0 <= i < |M| ==> if M[i].owner == c.owner then Fair(B, c, M[i]) else M[i] in L
    ensures forall i :: 0 <= i < |B| ==> B[i] in L && B[i].owner == c.owner
    ensures Owned(B', c.owner)
  {
    hide Edges, From, Holds, Awaited, InFile, AllAwaited;
    forall i | 0 <= i < |M| ensures if M[i].owner == c.owner then Fair(B, c, M[i]) else M[i] in L {
      if i < |pre| {
        assert L[i] == M[i];
      } else if i < |pre| + |B'| {
        assert M[i] == B'[i - |pre|];
      } else {
        assert L[i - |B'| + |B|] == M[i];
      }
    }
    forall i | 0 <= i < |B| ensures B[i] in L {
      assert L[|pre| + i] == B[i];
    }
  }

  /** A lock that the caller now has and a lock of somebody else. */
  lemma FairSharable(L: seq<Lock>, r: Request, B: seq<Lock>, a: Lock, b: Lock, x: int)
    requires Apart(L) && NoUnlocks(L) && NoConflict(L, r) && (forall i :: 0 <= i < |B| ==> B[i] in L && B[i].owner == r.owner)
    requires Fair(B, AsLock(r), a) && b in L && b.owner != r.owner
    ensures Sharable(a, b, x) && Sharable(b, a, x)
  {
    hide AllAwaited, InFile, Awaited, Inside;
    if Covers(a, x) && Covers(b, x) {
      assert Due(B, AsLock(r), a.ty, x);
      assert b.ty != Unlock;
      if a.ty == r.ty && r.start <= x <= r.end {
        assert !Conflict(r, b);
      } else {
        var k :| 0 <= k < |B| && Covers(B[k], x) && B[k].ty == a.ty;
        SharableIn(L, B[k], b, x);
      }
    }
  }

  lemma SharableIn(L: seq<Lock>, a: Lock, b: Lock, x: int)
    requires Apart(L) && a in L && b in L
    ensures Sharable(a, b, x)
  {
  }

  /** A grant of the machine keeps what is kept of a file, and nobody falls asleep by it. */
  lemma GrantLoose(L: seq<Lock>, r: Request)
    requires LooseFile(L) && NoConflict(L, r) && 0 <= r.start <= r.end <= OFFSET_MAX
    ensures LooseFile(Walked(Machine, L, AsLock(r))) && Edges(Walked(Machine, L, AsLock(r))) <= Edges(L)
  {
    hide Walked, Of, Edges, Grouped, Apart, AllFair, Holds, NoConflict;
    var c := AsLock(r);
    var M := Walked(Machine, L, c);
    var pre, B', C := WalkedSound(Machine, L, c);
    var B := Of(L, r.owner);
    SoundParts(L, c, M, pre, B, B', C);
    GroupedReplaced(pre, B, B', C, r.owner);
    EdgesAppend(pre + B, C);
    EdgesAppend(pre, B);
    EdgesAppend(pre + B', C);
    EdgesAppend(pre, B');
    GrantEach(L, r, M, B);
    GrantApart(L, r, M, B);
  }

  lemma GrantEach(L: seq<Lock>, r: Request, M: seq<Lock>, B: seq<Lock>)
    requires AllAwaited(L) && NoUnlocks(L) && InFile(L) && 0 <= r.start <= r.end <= OFFSET_MAX
    requires forall i :: 0 <= i < |M| ==> if M[i].owner == r.owner then Fair(B, AsLock(r), M[i]) else M[i] in L
    requires forall i :: 0 <= i < |B| ==> B[i] in L && B[i].owner == r.owner
    ensures AllAwaited(M) && NoUnlocks(M) && InFile(M)
  {
    hide From, Awaited;
  }

  lemma GrantApart(L: seq<Lock>, r: Request, M: seq<Lock>, B: seq<Lock>)
    requires Apart(L) && NoUnlocks(L) && NoConflict(L, r)
    requires forall i :: 0 <= i < |M| ==> if M[i].owner == r.owner then Fair(B, AsLock(r), M[i]) else M[i] in L
    requires forall i :: 0 <= i < |B| ==> B[i] in L && B[i].owner == r.owner
    ensures Apart(M)
  {
    hide Fair, Apart, Sharable, NoConflict, NoUnlocks;
    forall i, j, x | 0 <= i < |M| && 0 <= j < |M| ensures Sharable(M[i], M[j], x) {
      if M[i].owner == M[j].owner {
        SameOwner(M[i], M[j], x);
      } else if M[i].owner == r.owner {
        FairSharable(L, r, B, M[i], M[j], x);
      } else if M[j].owner == r.owner {
        FairSharable(L, r, B, M[j], M[i], x);
      } else {
        SharableIn(L, M[i], M[j], x);
      }
    }
    IsApart(M);
  }

  lemma SameOwner(a: Lock, b: Lock, x: int)
    requires a.owner == b.owner
    ensures Sharable(a, b, x)
  {
  }

  lemma IsApart(M: seq<Lock>)
    requires forall i, j, x :: 0 <= i < |M| && 0 <= j < |M| ==> Sharable(M[i], M[j], x)
    ensures Apart(M)
  {
  }

  /** Block lists matter to nothing but the waits. */
  lemma WaitersLoose(L: seq<Lock>, M: seq<Lock>)
    requires LooseFile(L) && SameRanges(L, M) && AllAwaited(M)
    ensures LooseFile(M)
  {
    hide AllAwaited;
    assert forall i :: 0 <= i < |L| ==> SameRange(L[i], M[i]);
    forall i, j, x | 0 <= i < |M| && 0 <= j < |M| ensures Sharable(M[i], M[j], x) {
      assert SameRange(L[i], M[i]) && SameRange(L[j], M[j]) && Sharable(L[i], L[j], x);
    }
    forall i, j, k | 0 <= i <= j <= k < |M| && M[i].owner == M[k].owner ensures M[j].owner == M[i].owner {
      assert SameRange(L[i], M[i]) && SameRange(L[j], M[j]) && SameRange(L[k], M[k]);
    }
  }

  lemma AddWaiterLoose(L: seq<Lock>, i: nat, r: Request)
    requires LooseFile(L) && i < |L| && r.start <= r.end && Conflict(r, L[i])
    ensures LooseFile(AddWaiter(L, i, r))
  {
    hide Grouped, Apart;
    assert Awaited(L[i]);
    WaitersLoose(L, AddWaiter(L, i, r));
  }

  lemma DropWaiterLoose(L: seq<Lock>, i: nat, a: nat)
    requires LooseFile(L) && i < |L| && a < |L[i].waiters|
    ensures LooseFile(DropWaiter(L, i, a))
  {
    hide Grouped, Apart;
    assert Awaited(L[i]);
    WaitersLoose(L, DropWaiter(L, i, a));
  }

  lemma OthersLoose(L: seq<Lock>, o: Task)
    requires LooseFile(L)
    ensures LooseFile(Others(L, o))
  {
    var M := Others(L, o);
    var places := OthersPlaces(L, o);
    hide Others, Sharable;
    forall i, j, k | 0 <= i <= j <= k < |M| && M[i].owner == M[k].owner ensures M[j].owner == M[i].owner {
      assert places[i] <= places[j] <= places[k];
    }
  }

  /** A step that the machine can take: requests lie in the file. */
  ghost predicate MachineAllowed(T: Files, e: Event)
  {
    Allowed(T, e) && (e.Granted? || e.Blocked? ==> 0 <= e.r.start && e.r.end <= OFFSET_MAX)
  }

  /** A step of the machine: a granted request leaves what the loop of `posix_lock_file` leaves. */
  ghost function MachineAfter(T: Files, e: Event): Files
    requires MachineAllowed(T, e)
  {
    if e.Granted? then T[e.f := Walked(Machine, T[e.f], AsLock(e.r))] else After(T, e)
  }

  lemma StepFile(T: Files, e: Event)
    requires LooseTable(T) && MachineAllowed(T, e)
    ensures LooseFile(MachineAfter(T, e)[e.f])
  {
    hide LooseFile, Walked, AddWaiter, DropWaiter, Others, Reaches, AllEdges, Single, Acyclic;
    assert LooseFile(T[e.f]);
    match e
    case Granted(f, r) => GrantLoose(T[f], r);
    case Blocked(f, i, r) => AddWaiterLoose(T[f], i, r);
    case Unblocked(f, i, a) => DropWaiterLoose(T[f], i, a);
    case Closed(f, o) => OthersLoose(T[f], o);
  }

  lemma StepEdges(T: Files, e: Event)
    requires LooseTable(T) && MachineAllowed(T, e)
    ensures if e.Blocked? then AllEdges(MachineAfter(T, e)) == AllEdges(T) + multiset{(e.r.owner, T[e.f][e.i].owner)}
            else AllEdges(MachineAfter(T, e)) <= AllEdges(T)
  {
    hide LooseFile, Walked, Edges, AllEdges, NewList, Reaches, Single, Acyclic;
    EventEdges(T, e);
    if e.Granted? {
      assert LooseFile(T[e.f]);
      var M := Walked(Machine, T[e.f], AsLock(e.r));
      GrantLoose(T[e.f], e.r);
      ReplaceEdges(T, e.f, M);
      CancelLess(AllEdges(MachineAfter(T, e)), AllEdges(T), Edges(T[e.f]), Edges(M));
    }
  }

  /** Every step of the machine keeps owners apart, waits justified and tasks out of a circle. */
  lemma MachineKeeps(T: Files, e: Event)
    requires LooseTable(T) && MachineAllowed(T, e)
    ensures LooseTable(MachineAfter(T, e))
  {
    hide LooseFile, NewList, Walked, AllEdges, Acyclic, Single, Reaches;
    StepFile(T, e);
    StepEdges(T, e);
    if e.Blocked? {
      NewWait(AllEdges(T), e.r.owner, T[e.f][e.i].owner);
      NewSingle(AllEdges(T), e.r.owner, T[e.f][e.i].owner);
    } else {
      FewerEdges(AllEdges(T), AllEdges(MachineAfter(T, e)));
    }
  }

  ghost predicate MachineRun(T: Files, events: seq<Event>)
    decreases |events|
  {
    |events| == 0 || (MachineAllowed(T, events[0]) && MachineRun(MachineAfter(T, events[0]), events[1..]))
  }

  ghost function MachineResult(T: Files, events: seq<Event>): Files
    requires MachineRun(T, events)
    decreases |events|
  {
    if |events| == 0 then T else MachineResult(MachineAfter(T, events[0]), events[1..])
  }

  lemma {:induction false} MachineRunKeeps(T: Files, events: seq<Event>)
    requires LooseTable(T) && MachineRun(T, events)
    ensures LooseTable(MachineResult(T, events))
    decreases |events|
  {
    if |events| > 0 {
      hide LooseTable, MachineAfter;
      MachineKeeps(T, events[0]);
      MachineRunKeeps(MachineAfter(T, events[0]), events[1..]);
    }
  }

  lemma NothingLocked(n: nat)
    ensures LooseTable(NoLocks(n)) && TableOk(NoLocks(n))
  {
    hide AllEdges, Acyclic, Single;
    NoLocksOk(n);
    EmptyFiles(n);
  }

  lemma {:induction false} EmptyFiles(n: nat)
    ensures forall f :: 0 <= f < |NoLocks(n)| ==> NoLocks(n)[f] == []
  {
    if n > 0 {
      EmptyFiles(n - 1);
    }
  }

  /** In no run of the machine, whatever overflows, do two owners hold a byte that one of them writes, does
      a task sleep behind a lock that does not block it, or do tasks wait in a circle. */
  lemma MachineSafe(n: nat, events: seq<Event>, f: nat, i: nat, j: nat, x: int)
    requires MachineRun(NoLocks(n), events)
    requires var T := MachineResult(NoLocks(n), events); f < |T| && i < |T[f]| && j < |T[f]|
    ensures var T := MachineResult(NoLocks(n), events);
      Sharable(T[f][i], T[f][j], x) && (forall w :: w in T[f][i].waiters ==> Blocks(T[f][i], w)) && Acyclic(AllEdges(T))
  {
    NothingLocked(n);
    MachineRunKeeps(NoLocks(n), events);
    hide MachineResult, MachineRun, AllEdges, Acyclic, Single, Sharable, Grouped, Blocks;
    var L := MachineResult(NoLocks(n), events)[f];
    assert LooseFile(L) && Awaited(L[i]);
    forall w | w in L[i].waiters ensures Blocks(L[i], w) {
      ConflictIff(w, L[i]);
    }
  }

  /** No lock of the list blocks the request. */
  ghost predicate FreeFor(L: seq<Lock>, r: Request)
  {
    forall j :: 0 <= j < |L| ==> !Blocks(L[j], r)
  }

  lemma FreeIff(L: seq<Lock>, r: Request)
    requires NoUnlocks(L) && r.start <= r.end
    ensures NoConflict(L, r) <==> FreeFor(L, r)
    ensures forall j :: 0 <= j < |L| ==> (Conflict(r, L[j]) <==> Blocks(L[j], r))
  {
    hide Conflict, Blocks;
    forall j | 0 <= j < |L| ensures Conflict(r, L[j]) <==> Blocks(L[j], r) {
      ConflictIff(r, L[j]);
    }
  }

  /** On a file in order nothing but a byte stands in the way. */
  lemma FreeInOrder(L: seq<Lock>, r: Request)
    requires FileOk(L)
    ensures FreeFor(L, r) <==> forall j :: 0 <= j < |L| ==> !Bars(L[j], r)
  {
    hide Bars, Of, Grouped, AllCanonical, Exclusive;
    forall j | 0 <= j < |L| ensures !Spurious(L[j], r) {
      MemberWell(L, L[j]);
    }
  }

  /** What a grant of the machine means in any case: the caller holds what was asked for, gains nothing else,
      and nobody else's locks change. */
  lemma GrantGains(L: seq<Lock>, r: Request, x: int, p: Task)
    requires LooseFile(L) && r.start <= r.end
    ensures var M, o := Walked(Machine, L, AsLock(r)), r.owner;
      && (r.ty != Unlock && r.start <= x <= r.end ==> r.ty in TypesAt(Of(M, o), x))
      && TypesAt(Of(M, o), x) <= TypesAt(Of(L, o), x) + (if r.start <= x <= r.end then AsSet(Wanted(r.ty)) else {})
      && (p != o ==> Of(M, p) == Of(L, p))
  {
    hide Walked, Of, Edges, Grouped, Apart, InFile, AllAwaited;
    var c, o := AsLock(r), r.owner;
    var pre, B', C := WalkedSound(Machine, L, c);
    var B := Of(L, o);
    OfReplaced(pre, B, C, o, p);
    OfReplaced(pre, B', C, o, p);
    OfReplaced(pre, B', C, o, o);
    if r.ty != Unlock && r.start <= x <= r.end {
      var i :| 0 <= i < |B'| && B'[i].ty == r.ty && B'[i].start <= r.start && r.end <= B'[i].end;
      assert Covers(B'[i], x);
    }
    forall t | t in TypesAt(B', x) ensures t in TypesAt(B, x) || (r.start <= x <= r.end && t in AsSet(Wanted(r.ty))) {
      var i :| 0 <= i < |B'| && Covers(B'[i], x) && B'[i].ty == t;
      assert Fair(B, c, B'[i]) && Due(B, c, t, x);
    }
  }

  /** A request of the machine that does not wrap over the caller's own locks. */
  ghost predicate Unwrapped(L: seq<Lock>, r: Request)
  {
    !Wraps(Of(L, r.owner), AsLock(r))
  }

  lemma OfInFile(L: seq<Lock>, o: Task)
    requires InFile(L)
    ensures InFile(Of(L, o))
  {
    forall i | 0 <= i < |Of(L, o)| ensures 0 <= Of(L, o)[i].start && Of(L, o)[i].end <= OFFSET_MAX {
      OfMember(L, o, Of(L, o)[i]);
    }
  }

  /** On a file in order, what the machine's loop does to the caller's locks. */
  lemma CallersLocks(L: seq<Lock>, r: Request)
    requires FileOk(L) && InFile(L) && r.start <= r.end
    ensures var B := Of(L, r.owner);
      && Canonical(B) && InFile(B) && Owned(B, r.owner)
      && Of(Walked(Machine, L, AsLock(r)), r.owner) == Insert(Machine, B, AsLock(r))
  {
    hide Of, Insert, Canonical, Exclusive, LockRanges.AllAwaited, InFile, Walked, Grant;
    assert Canonical(Of(L, r.owner));
    OfOwned(L, r.owner);
    OfInFile(L, r.owner);
    WalkedIs(Machine, L, AsLock(r));
    GrantOwn(Machine, L, AsLock(r));
  }

  /** A grant that does not wrap leaves the list that unbounded arithmetic prescribes. */
  lemma GrantSame(L: seq<Lock>, r: Request)
    requires FileOk(L) && InFile(L) && 0 <= r.start <= r.end <= OFFSET_MAX && Unwrapped(L, r)
    ensures Walked(Machine, L, AsLock(r)) == Grant(Unbounded, L, AsLock(r))
  {
    hide Of, Insert, Canonical, Exclusive, LockRanges.AllAwaited, Wraps, InFile, Walked, Grant;
    var c := AsLock(r);
    var A, C := Parts(L, c.owner);
    CallersLocks(L, r);
    WalkedIs(Machine, L, c);
    InsertSame(Of(L, c.owner), c);
    GrantParts(Machine, L, c, A, C);
    GrantParts(Unbounded, L, c, A, C);
  }

  /** On the machine a granted request leaves the file in order exactly if it does not wrap, and overwrites its
      range and nothing else exactly if it leaves no stale lock behind. */
  lemma GrantIff(L: seq<Lock>, r: Request)
    requires FileOk(L) && InFile(L) && 0 <= r.start <= r.end <= OFFSET_MAX && NoConflict(L, r)
    ensures var M, B := Walked(Machine, L, AsLock(r)), Of(L, r.owner);
      && (FileOk(M) <==> !Wraps(B, AsLock(r)))
      && (Overwrites(B, AsLock(r), Of(M, r.owner)) <==> !Stale(B, AsLock(r)))
  {
    hide Of, Insert, Canonical, Exclusive, Wraps, Stale, Overwrites, Walked, InFile, Grant, NoConflict, Grouped, LockRanges.AllAwaited;
    var B := Of(L, r.owner);
    CallersLocks(L, r);
    OrderKeptIff(B, AsLock(r));
    OverwritesIff(B, AsLock(r));
    if !Wraps(B, AsLock(r)) {
      GrantSame(L, r);
      GrantKeeps(L, r);
    }
  }

  /** No granted request of the run wraps. */
  ghost predicate NoneWraps(T: Files, events: seq<Event>)
    requires MachineRun(T, events)
    decreases |events|
  {
    |events| == 0 ||
    ((events[0].Granted? ==> Unwrapped(T[events[0].f], events[0].r)) && NoneWraps(MachineAfter(T, events[0]), events[1..]))
  }

  lemma StepSame(T: Files, e: Event)
    requires TableOk(T) && LooseTable(T) && MachineAllowed(T, e) && (e.Granted? ==> Unwrapped(T[e.f], e.r))
    ensures MachineAfter(T, e) == After(T, e)
  {
    hide Single, Acyclic, AllEdges, FileOk, Grant, Walked, Unwrapped, Reaches, Grouped, Apart, LockRanges.AllAwaited, InFile;
    if e.Granted? {
      assert FileOk(T[e.f]) && LooseFile(T[e.f]);
      GrantSame(T[e.f], e.r);
    }
  }

  /** As long as no granted request wraps, a run of the machine is the run in unbounded arithmetic. */
  lemma {:induction false} MachineSame(T: Files, events: seq<Event>)
    requires TableOk(T) && LooseTable(T) && MachineRun(T, events) && NoneWraps(T, events)
    ensures Run(T, events) && MachineResult(T, events) == Result(T, events)
    decreases |events|
  {
    if |events| > 0 {
      hide TableOk, LooseTable, Unwrapped, MachineAfter, After;
      var e := events[0];
      EventKeeps(T, e);
      MachineKeeps(T, e);
      StepSame(T, e);
      MachineSame(After(T, e), events[1..]);
    }
  }

  /** Requests for file 0 that are granted one after the other. */
  function Grants(rs: seq<Request>): seq<Event>
  {
    if |rs| == 0 then [] else [Granted(0, rs[0])] + Grants(rs[1..])
  }

  /** The run of an owner who is alone, request by request. */
  lemma {:induction false} RunAlone(rs: seq<Request>, Ls: seq<seq<Lock>>, o: Task)
    requires |Ls| == |rs| + 1 && forall k :: 0 <= k < |Ls| ==> Owned(Ls[k], o)
    requires forall k :: 0 <= k < |rs| ==> rs[k].owner == o && 0 <= rs[k].start <= rs[k].end <= OFFSET_MAX
    requires forall k :: 0 <= k < |rs| ==> Walked(Machine, Ls[k], AsLock(rs[k])) == Ls[k + 1]
    ensures MachineRun([Ls[0]], Grants(rs)) && MachineResult([Ls[0]], Grants(rs)) == [Ls[|rs|]]
    decreases |rs|
  {
    if |rs| > 0 {
      hide Walked;
      RunAlone(rs[1..], Ls[1..], o);
      assert MachineAfter([Ls[0]], Granted(0, rs[0])) == [Ls[1]];
      assert Grants(rs)[1..] == Grants(rs[1..]);
    }
  }

  /** Three locks that overlap, then an unlocking and a locking of a part. */
  function Asked(o: Task): seq<Request>
  {
    [Request(o, Read, 1, 9), Request(o, Read, 5, OFFSET_MAX), Request(o, Write, 4, 6),
     Request(o, Unlock, 6, OFFSET_MAX), Request(o, Read, 5, 12)]
  }

  /** The rounds of a pass, one by one. */
  lemma {:induction false} Rounds(L: seq<Lock>, c: Lock, ws: seq<Walk>)
    requires |ws| > 0 && |L| > 0 && L[0].owner == c.owner && ws[0] == Walk(L, 0, c, -1, false, -1, -1, false)
    requires PassedRounds(ws, c.owner)
    ensures InList(ws[|ws| - 1]) && Walked(Machine, L, c) == Finished(ws[|ws| - 1])
  {
    RoundsEnd(ws, c.owner, 0);
    assert ws[0] == Begin(L, c);
    PassedInList(Machine, ws[0], c.owner);
  }

  predicate PassedRounds(ws: seq<Walk>, o: Task)
    requires |ws| > 0
  {
    && (forall k :: 0 <= k < |ws| ==> ws[k].at < ws[k].before <= |ws[k].list|)
    && (forall k :: 0 <= k < |ws| - 1 ==> !Over(ws[k], o) && Step(Machine, ws[k]) == ws[k + 1])
    && Over(ws[|ws| - 1], o)
  }

  lemma {:induction false} RoundsEnd(ws: seq<Walk>, o: Task, k: nat)
    requires k < |ws| && PassedRounds(ws, o)
    ensures ws[k].at < ws[k].before <= |ws[k].list| && Passed(Machine, ws[k], o) == ws[|ws| - 1]
    decreases |ws| - k
  {
    hide Step, Passed;
    if k < |ws| - 1 {
      RoundsEnd(ws, o, k + 1);
      PassedNext(Machine, ws[k], o);
    } else {
      PassedStops(Machine, ws[k], o);
    }
  }

  /** The second read lock overlaps the first, but the sum behind its end has overflowed. */
  lemma AsksSecond(o: Task)
    ensures var a, b := Lock(o, Read, 1, 9, []), Lock(o, Read, 5, OFFSET_MAX, []);
      Walked(Machine, [a], b) == [b, a]
  {
    var a, b := Lock(o, Read, 1, 9, []), Lock(o, Read, 5, OFFSET_MAX, []);
    var w := Walk([a], 0, b, -1, false, -1, -1, false);
    Rounds([a], b, [w, w.(stop := true)]);
  }

  /** The write lock goes in front of a lock that it cuts, as if there were nothing further on. */
  lemma AsksThird(o: Task)
    ensures var a, b, c := Lock(o, Read, 1, 9, []), Lock(o, Read, 5, OFFSET_MAX, []), Lock(o, Write, 4, 6, []);
      Walked(Machine, [b, a], c) == [c, b.(start := 7), a]
  {
    var a, b, c := Lock(o, Read, 1, 9, []), Lock(o, Read, 5, OFFSET_MAX, []), Lock(o, Write, 4, 6, []);
    var w := Walk([b, a], 0, c, -1, false, -1, -1, false);
    Rounds([b, a], c, [w, w.(right := 0, stop := true)]);
  }

  /** Of two locks that stick out on the left only the second is cut. */
  lemma AsksFourth(o: Task)
    ensures var a, b, c := Lock(o, Read, 1, 9, []), Lock(o, Read, 7, OFFSET_MAX, []), Lock(o, Write, 4, 6, []);
      Walked(Machine, [c, b, a], Lock(o, Unlock, 6, OFFSET_MAX, [])) == [c, a.(end := 5)]
  {
    var a, b, c := Lock(o, Read, 1, 9, []), Lock(o, Read, 7, OFFSET_MAX, []), Lock(o, Write, 4, 6, []);
    var u := Lock(o, Unlock, 6, OFFSET_MAX, []);
    var w := Walk([c, b, a], 0, u, -1, false, -1, -1, false);
    var v := w.(before := 1, added := true, left := 0);
    var x := v.(list := [c, a]);
    Rounds([c, b, a], u, [w, v, x, x.(before := 2, left := 1)]);
  }

  /** The write lock is cut off before the start of the lock that the request has grown into. */
  lemma AsksFifth(o: Task)
    ensures var a, c, r := Lock(o, Read, 1, 5, []), Lock(o, Write, 4, 6, []), Lock(o, Read, 5, 12, []);
      Walked(Machine, [c, a], r) == [c.(end := 0), a.(end := 12)]
  {
    var a, c, r := Lock(o, Read, 1, 5, []), Lock(o, Write, 4, 6, []), Lock(o, Read, 5, 12, []);
    var w := Walk([c, a], 0, r, -1, false, -1, -1, false);
    var v := w.(before := 1, left := 0);
    var h := a.(end := 12);
    Rounds([c, a], r, [w, v, Walk([c, h], 2, h, 1, true, 0, -1, false)]);
  }

  lemma AskedLeaves(o: Task)
    ensures MachineRun(NoLocks(1), Grants(Asked(o)))
    ensures MachineResult(NoLocks(1), Grants(Asked(o))) == [[Lock(o, Write, 4, 0, []), Lock(o, Read, 1, 12, [])]]
  {
    var a, b, w := Lock(o, Read, 1, 9, []), Lock(o, Read, 5, OFFSET_MAX, []), Lock(o, Write, 4, 6, []);
    var Ls := [[], [a], [b, a], [w, b.(start := 7), a], [w, a.(end := 5)], [w.(end := 0), a.(end := 12)]];
    assert Walked(Machine, [], a) == [a];
    hide Walked, MachineRun, MachineResult, Grants;
    AsksSecond(o);
    AsksThird(o);
    AsksFourth(o);
    AsksFifth(o);
    RunAlone(Asked(o), Ls, o);
    assert NoLocks(1) == [Ls[0]];
  }

  /** Then somebody else who wants to read bytes 0 to 4 is refused, although every one of them can be shared. */
  lemma RefusedForNothing(o: Task, p: Task)
    requires o != p
    ensures MachineRun(NoLocks(1), Grants(Asked(o)))
    ensures var r, T := Request(p, Read, 0, 4), MachineResult(NoLocks(1), Grants(Asked(o)));
      |T| == 1 && !FreeFor(T[0], r) && forall j :: 0 <= j < |T[0]| ==> !Bars(T[0][j], r)
  {
    AskedLeaves(o);
    hide MachineRun, MachineResult, Grants;
    var r, L := Request(p, Read, 0, 4), MachineResult(NoLocks(1), Grants(Asked(o)))[0];
    assert Spurious(L[0], r);
  }

  /** A sum in an `off_t`. */
  function Offset(x: int): int
  {
    (x - OFFSET_MIN) % 0x1_0000_0000 + OFFSET_MIN
  }

  /** `posix_make_lock`, with `base` the place that `l_whence` names: refused if the range does not begin in
      the file, and clipped to the file if it ends beyond it or has no length. */
  function MakeRequest(o: Task, ty: Type, base: int, start: int, len: int): (r: Option<Request>)
    requires 0 <= base <= OFFSET_MAX && OFFSET_MIN <= start <= OFFSET_MAX && OFFSET_MIN <= len <= OFFSET_MAX
    ensures r.None? <==> len < 0 || base + start < 0 || base + start > OFFSET_MAX
    ensures r.Some? ==> r.value.owner == o && r.value.ty == ty && 0 <= r.value.start <= r.value.end <= OFFSET_MAX
    ensures r.Some? ==> r.value.start == base + start
    ensures r.Some? ==> forall x :: 0 <= x <= OFFSET_MAX ==>
      (Covers(AsLock(r.value), x) <==> base + start <= x && (len == 0 || x < base + start + len))
  {
    var s := Offset(base + start);
    if s < 0 || len < 0 then None
    else
      var end := Offset(s + len - 1);
      Some(Request(o, ty, s, if len == 0 || end < 0 then OFFSET_MAX else end))
  }

  lemma BlockedBy(L: seq<Lock>, r: Request)
    requires LooseFile(L) && r.start <= r.end
    ensures forall j :: 0 <= j < |L| ==> (Conflict(r, L[j]) <==> Blocks(L[j], r))
    ensures FileOk(L) ==> (FreeFor(L, r) <==> forall j :: 0 <= j < |L| ==> !Bars(L[j], r))
  {
    hide FileOk, Blocks, Conflict, Bars;
    FreeIff(L, r);
    if FileOk(L) {
      FreeInOrder(L, r);
    }
  }

  lemma GrantStep(T: Files, f: nat, r: Request)
    requires f < |T| && LooseTable(T) && 0 <= r.start <= r.end <= OFFSET_MAX && NoConflict(T[f], r)
    ensures MachineAllowed(T, Granted(f, r)) && LooseTable(MachineAfter(T, Granted(f, r)))
    ensures MachineAfter(T, Granted(f, r)) == T[f := Walked(Machine, T[f], AsLock(r))]
  {
    hide LooseTable, Walked;
    MachineKeeps(T, Granted(f, r));
  }

  lemma BlockStep(T: Files, f: nat, i: nat, r: Request)
    requires f < |T| && i < |T[f]| && LooseTable(T) && 0 <= r.start <= r.end <= OFFSET_MAX && Conflict(r, T[f][i])
    requires !Sleeps(AllEdges(T), r.owner) && !Reaches(AllEdges(T), T[f][i].owner, r.owner)
    ensures Allowed(T, Blocked(f, i, r)) && LooseTable(After(T, Blocked(f, i, r)))
    ensures After(T, Blocked(f, i, r)) == T[f := AddWaiter(T[f], i, r)] && AddWaiter(T[f], i, r)[i].waiters == T[f][i].waiters + [r]
  {
    hide LooseTable, AllEdges, Sleeps, Reaches;
    MachineKeeps(T, Blocked(f, i, r));
  }

  /** How a call of `posix_lock_file` ends: granted, EAGAIN, EDEADLK, ERESTARTSYS, or asleep. */
  datatype Outcome = Done | Again | Deadlock | Interrupted | Asleep

  /** The state of `fs/locks.c`: the lock lists of the files, with their block lists. */
  class LockTable {
    var files: Files

    ghost predicate Valid()
      reads this
    {
      LooseTable(files)
    }

    constructor (n: nat)
      ensures Valid() && files == NoLocks(n)
    {
      files := NoLocks(n);
      new;
      NothingLocked(n);
    }

    /** The search through all locks for the one on whose block list a task sleeps. */
    method FindBlocker(t: Task) returns (found: bool, owner: Task)
      ensures found ==> (t, owner) in AllEdges(files)
      ensures !found ==> !Sleeps(AllEdges(files), t)
    {
      hide AllEdges, Edges, Sleeps;
      found, owner := false, 0;
      var f := 0;
      NobodySleeps(t);
      while f < |files|
        invariant f <= |files| && !Sleeps(AllEdges(files[..f]), t)
      {
        var i;
        found, i := FindInList(files[f], t);
        if found {
          EdgeOfLock(files, f, i, (t, files[f][i].owner));
          return true, files[f][i].owner;
        }
        AllEdgesNext(files, f);
        SleepsInSum(AllEdges(files[..f]), Edges(files[f]), t);
        f := f + 1;
      }
      assert files[..f] == files;
    }

    /** `posix_locks_deadlock`: it ends, and finds a chain of waiting tasks from `blocked` to `mine` exactly if
        there is one, that is, if and only if letting `mine` wait for `blocked` would close a circle. */
    method WouldDeadlock(mine: Task, blocked: Task) returns (found: bool)
      requires Valid()
      ensures found <==> Reaches(AllEdges(files), blocked, mine)
      ensures found <==> !Acyclic(AllEdges(files) + multiset{(mine, blocked)})
    {
      ghost var E := AllEdges(files);
      hide AllEdges, Reaches, Acyclic, Single, LooseFile, Sleeps, Path;
      NewWait(E, mine, blocked);
      var t := blocked;
      ghost var passed: seq<Task>, visited := [], {};
      OnePath(E, blocked);
      assert passed + [t] == [blocked];
      while true
        invariant Path(E, passed + [t]) && t !in visited && visited == set x | x in passed
        invariant Reaches(E, blocked, mine) <==> Reaches(E, t, mine)
        decreases Sleepers(E) - visited
      {
        if t == mine {
          ReachesSelf(E, t);
          return true;
        }
        var asleep, owner := FindBlocker(t);
        if !asleep {
          EndOfChain(E, t, mine);
          return false;
        }
        StepAlong(E, t, owner, mine);
        if owner == mine {
          ReachesSelf(E, owner);
          return true;
        }
        LongerPath(E, passed + [t], owner);
        passed, visited, t := passed + [t], visited + {t}, owner;
      }
    }

    /** The sleeper that a lock has, taken off its block list when its sleep ends early. */
    method Unblock(f: nat, i: nat, a: nat)
      requires Valid() && Allowed(files, Unblocked(f, i, a))
      modifies this
      ensures Valid() && files == After(old(files), Unblocked(f, i, a))
    {
      MachineKeeps(files, Unblocked(f, i, a));
      hide LooseTable;
      files := files[f := DropWaiter(files[f], i, a)];
    }

    /** `locks_remove_locks`, when a task closes a file. */
    method RemoveLocks(f: nat, owner: Task)
      requires Valid() && f < |files|
      modifies this
      ensures Valid() && files == After(old(files), Closed(f, owner))
    {
      MachineKeeps(files, Closed(f, owner));
      hide LooseTable;
      var list := RemoveOwned(files[f], owner);
      files := files[f := list];
    }

    /** `posix_lock_file`, up to the point where it returns or goes to sleep. `wait` is F_SETLKW,
        `signal` a pending unblocked signal. The caller is running, so it is on no block list. */
    method LockFile(f: nat, r: Request, wait: bool, signal: bool) returns (outcome: Outcome, i: nat)
      requires Valid() && f < |files| && 0 <= r.start <= r.end <= OFFSET_MAX && !Sleeps(AllEdges(files), r.owner)
      modifies this
      ensures Valid()
      ensures outcome == Done <==> FreeFor(old(files)[f], r)
      ensures FileOk(old(files)[f]) ==> (outcome == Done <==> forall j :: 0 <= j < |old(files)[f]| ==> !Bars(old(files)[f][j], r))
      ensures outcome == Done ==> MachineAllowed(old(files), Granted(f, r)) && files == MachineAfter(old(files), Granted(f, r))
      ensures outcome != Done ==> i < |old(files)[f]| && Blocks(old(files)[f][i], r) && FreeFor(old(files)[f][..i], r)
      ensures outcome == Again <==> outcome != Done && !wait
      ensures outcome == Deadlock <==>
        outcome != Done && wait && !Acyclic(AllEdges(old(files)) + multiset{(r.owner, old(files)[f][i].owner)})
      ensures outcome == Interrupted ==> signal
      ensures outcome == Asleep ==> !signal
      ensures outcome == Asleep ==> Allowed(old(files), Blocked(f, i, r)) && files == After(old(files), Blocked(f, i, r))
      ensures outcome == Asleep ==> |files| == |old(files)| && i < |files[f]| && files[f][i].waiters == old(files)[f][i].waiters + [r]
      ensures outcome == Again || outcome == Deadlock || outcome == Interrupted ==> files == old(files)
    {
      ghost var L := files[f];
      BlockedBy(L, r);
      hide Walked, LooseFile, AllEdges, Reaches, Acyclic, Single, Sleeps, Bars, Blocks, Conflict, FileOk, Allowed, MachineAllowed, After, MachineAfter, AddWaiter;
      hide LooseTable;
      i := FirstConflict(files[f], r);
      assert FreeFor(L[..i], r) && (FreeFor(L, r) <==> i == |L|);
      if i < |files[f]| {
        if !wait {
          return Again, i;
        }
        var deadlock := WouldDeadlock(r.owner, files[f][i].owner);
        if deadlock {
          return Deadlock, i;
        }
        if signal {
          return Interrupted, i;
        }
        BlockStep(files, f, i, r);
        files := files[f := AddWaiter(files[f], i, r)];
        return Asleep, i;
      }
      assert files[f][..i] == files[f];
      GrantStep(files, f, r);
      var list := Apply(Machine, files[f], AsLock(r));
      files := files[f := list];
      outcome := Done;
    }
  }
}
