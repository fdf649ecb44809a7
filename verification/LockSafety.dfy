/**
 What the list work of `posix_lock_file` does to any list of locks, in order or not, as the overflow of
 32-bit sums may have left it: the caller holds all of what was asked for, and gains nothing else; waits
 stay justified, and none is added.
 */
module LockSafety {
  import opened Common
  import opened LockRanges
  import opened WaitGraph
  import opened LockFile
  import opened LockWalk

  /** Type `t` at byte `x` was held before or is asked for. */
  ghost predicate Due(B0: seq<Lock>, c: Lock, t: Type, x: int)
  {
    (t == c.ty && Covers(c, x)) || t in TypesAt(B0, x)
  }

  ghost predicate From(B0: seq<Lock>, c: Lock, l: Lock)
  {
    forall x :: Covers(l, x) ==> Due(B0, c, l.ty, x)
  }

  ghost predicate Inside(l: Lock)
  {
    0 <= l.start && l.end <= OFFSET_MAX
  }

  /** A lock that the caller may have after the request. */
  ghost predicate Fair(B0: seq<Lock>, c: Lock, l: Lock)
  {
    && l.owner == c.owner && l.ty != Unlock && From(B0, c, l)
    && (AllAwaited(B0) ==> Awaited(l))
    && (InFile(B0) && Inside(c) ==> Inside(l))
  }

  ghost predicate AllFair(B0: seq<Lock>, c: Lock, Q: seq<Lock>)
  {
    forall i :: 0 <= i < |Q| ==> Fair(B0, c, Q[i])
  }

  predicate NoUnlocks(B: seq<Lock>)
  {
    forall i :: 0 <= i < |B| ==> B[i].ty != Unlock
  }

  lemma FairOld(B0: seq<Lock>, c: Lock, i: nat)
    requires Owned(B0, c.owner) && NoUnlocks(B0) && i < |B0|
    ensures Fair(B0, c, B0[i])
  {
  }

  lemma FairShrunk(B0: seq<Lock>, c: Lock, l: Lock, l': Lock)
    requires Fair(B0, c, l) && l' == l.(start := l'.start, end := l'.end, waiters := []) && l.start <= l'.start && l'.end <= l.end
    ensures Fair(B0, c, l')
  {
    hide TypesAt;
  }

  /** The caller, as a request or as the lock it has become. */
  ghost predicate Calls(B0: seq<Lock>, c: Lock, l: Lock)
  {
    && l.owner == c.owner && l.ty == c.ty && l.start <= c.start && c.start <= c.end && c.end <= l.end && From(B0, c, l)
    && (InFile(B0) && Inside(c) ==> Inside(l))
  }

  lemma Touching(B0: seq<Lock>, c: Lock, fl: Lock, l: Lock, h: Lock)
    requires Calls(B0, c, l) && From(B0, c, fl) && fl.ty == l.ty && fl.end >= l.start - 1 && fl.start <= l.end + 1
    requires h.start == Min(fl.start, l.start) && h.end == Max(fl.end, l.end) && h.ty == l.ty
    ensures From(B0, c, h)
  {
    hide Due;
    forall x | Covers(h, x) ensures Due(B0, c, h.ty, x) {
      assert Covers(fl, x) || Covers(l, x);
    }
  }

  lemma AwaitedHull(fl: Lock, l: Lock)
    requires Awaited(fl) && l.start <= fl.start && fl.end <= l.end && l.owner == fl.owner && l.ty == fl.ty && l.waiters == fl.waiters
    ensures Awaited(l)
  {
  }

  /** Merging a lock with the caller. */
  lemma FairHull(ar: Arithmetic, B0: seq<Lock>, c: Lock, fl: Lock, l: Lock)
    requires Calls(B0, c, l) && Fair(B0, c, fl) && fl.ty == l.ty && fl.end >= l.start - 1 && fl.start <= Next(ar, l.end)
    ensures Fair(B0, c, Hull(fl, l)) && Calls(B0, c, Hull(fl, l))
    ensures var h := Hull(fl, l); var k := l.(start := h.start, end := h.end);
      Calls(B0, c, k) && (Fair(B0, c, l) ==> Fair(B0, c, k))
  {
    hide From;
    var h := Hull(fl, l);
    var k := l.(start := h.start, end := h.end);
    Touching(B0, c, fl, l, h);
    Touching(B0, c, fl, l, k);
    if AllAwaited(B0) {
      AwaitedHull(fl, h);
      if Fair(B0, c, l) {
        AwaitedHull(l, k);
      }
    }
  }

  lemma EdgesSet(Q: seq<Lock>, i: nat, l: Lock)
    requires i < |Q| && l.owner == Q[i].owner && (l.waiters == Q[i].waiters || l.waiters == [])
    ensures Edges(Q[i := l]) <= Edges(Q)
  {
    hide Edges, BlockList;
    assert Q == Q[..i] + ([Q[i]] + Q[i + 1..]) && Q[i := l] == Q[..i] + ([l] + Q[i + 1..]);
    EdgesAppend(Q[..i], [Q[i]] + Q[i + 1..]);
    EdgesAppend(Q[..i], [l] + Q[i + 1..]);
    EdgesFirst(Q[i], Q[i + 1..]);
    EdgesFirst(l, Q[i + 1..]);
    NoBlockList(l.owner);
  }

  /** The pass is over the owner's locks: `Q` done, `B` still to come, others' locks around them. */
  ghost predicate Underway(w: Walk, c: Lock, pre: seq<Lock>, Q: seq<Lock>, B: seq<Lock>, C: seq<Lock>, B0: seq<Lock>)
  {
    && w.list == pre + Q + B + C && w.before == |pre| + |Q|
    && AllFair(B0, c, Q) && AllFair(B0, c, B) && Edges(Q) + Edges(B) <= Edges(B0)
    && Calls(B0, c, w.caller) && !w.stop && w.right == -1
    && Caller(w, c, |pre|, Q) && Left(w, c, |pre|, Q)
  }

  ghost predicate Caller(w: Walk, c: Lock, first: nat, Q: seq<Lock>)
  {
    if w.at < 0 then w.caller == c && (w.added ==> c.ty == Unlock)
    else first <= w.at < first + |Q| && Q[w.at - first] == w.caller && w.added && c.ty != Unlock
  }

  /** The lock to be cut on the left reaches into the range. */
  ghost predicate Left(w: Walk, c: Lock, first: nat, Q: seq<Lock>)
  {
    w.left >= 0 ==> first <= w.left < first + |Q| && Q[w.left - first].ty != c.ty && Q[w.left - first].end >= w.caller.start
  }

  /** The pass is over. */
  ghost predicate Halted(w: Walk, c: Lock, pre: seq<Lock>, Q: seq<Lock>, B: seq<Lock>, C: seq<Lock>, B0: seq<Lock>)
  {
    && w.list == pre + Q + B + C && w.before == |pre| + |Q|
    && AllFair(B0, c, Q) && AllFair(B0, c, B) && Edges(Q) + Edges(B) <= Edges(B0)
    && Calls(B0, c, w.caller) && Caller(w, c, |pre|, Q)
    && -1 <= w.right && (w.right >= 0 ==> w.right == w.before && |B| > 0 && B[0].start <= w.caller.end < B[0].end && w.caller.start <= B[0].end)
    && (if w.left >= 0 && w.left == w.right then B[0].start < w.caller.start else Left(w, c, |pre|, Q))
  }

  lemma Shapes(pre: seq<Lock>, Q: seq<Lock>, B: seq<Lock>, C: seq<Lock>, l: Lock)
    requires |B| > 0
    ensures var L, i := pre + Q + B + C, |pre| + |Q|;
      && L[i] == B[0] && L == pre + (Q + [B[0]]) + B[1..] + C
      && L[i := l] == pre + (Q + [l]) + B[1..] + C
      && Delete(L, i) == pre + Q + B[1..] + C
  {
  }

  lemma EdgesMove(Q: seq<Lock>, B: seq<Lock>, l: Lock)
    requires |B| > 0 && l.owner == B[0].owner && (l.waiters == B[0].waiters || l.waiters == [])
    ensures Edges(Q + [l]) + Edges(B[1..]) <= Edges(Q) + Edges(B)
    ensures Edges(B[1..]) <= Edges(B)
  {
    hide Edges, BlockList;
    EdgesAppend(Q, [l]);
    EdgesFirst(l, []);
    assert [l] + [] == [l] && Edges([]) == multiset{} by { EdgesNone(); }
    assert B == [B[0]] + B[1..];
    EdgesFirst(B[0], B[1..]);
    NoBlockList(l.owner);
  }

  lemma EdgesNone()
    ensures Edges([]) == multiset{}
  {
  }

  /** One lock passes to the done ones, as it was or changed. */
  lemma Moves(B0: seq<Lock>, c: Lock, Q: seq<Lock>, B: seq<Lock>, l: Lock)
    requires AllFair(B0, c, Q) && AllFair(B0, c, B) && |B| > 0 && Fair(B0, c, l)
    ensures AllFair(B0, c, Q + [l]) && AllFair(B0, c, B[1..])
  {
    hide Fair;
  }

  /** The next lock is passed over. */
  lemma Passes(w: Walk, c: Lock, pre: seq<Lock>, Q: seq<Lock>, B: seq<Lock>, C: seq<Lock>, B0: seq<Lock>)
    requires Underway(w, c, pre, Q, B, C, B0) && |B| > 0
    ensures Underway(w.(before := w.before + 1), c, pre, Q + [B[0]], B[1..], C, B0)
  {
    hide Fair, Edges, AllFair, Calls;
    assert Fair(B0, c, B[0]) by { FairAt(B0, c, B, 0); }
    Moves(B0, c, Q, B, B[0]);
    EdgesMove(Q, B, B[0]);
    Shapes(pre, Q, B, C, B[0]);
  }

  lemma FairAt(B0: seq<Lock>, c: Lock, Q: seq<Lock>, i: nat)
    requires AllFair(B0, c, Q) && i < |Q|
    ensures Fair(B0, c, Q[i])
  {
  }

  /** The next lock becomes the caller, merged or replaced. */
  lemma Becomes(w: Walk, c: Lock, pre: seq<Lock>, Q: seq<Lock>, B: seq<Lock>, C: seq<Lock>, B0: seq<Lock>, l: Lock)
    requires Underway(w, c, pre, Q, B, C, B0) && |B| > 0 && w.at < 0 && c.ty != Unlock
    requires Fair(B0, c, l) && Calls(B0, c, l) && l.start <= w.caller.start && (l.waiters == B[0].waiters || l.waiters == [])
    ensures Underway(Walk(w.list[w.before := l], w.before + 1, l, w.before, true, w.left, w.right, false), c, pre, Q + [l], B[1..], C, B0)
  {
    hide Fair, Edges, AllFair, Calls;
    assert l.owner == B[0].owner by { FairAt(B0, c, B, 0); FairOwner(B0, c, l); FairOwner(B0, c, B[0]); }
    Moves(B0, c, Q, B, l);
    EdgesMove(Q, B, l);
    Shapes(pre, Q, B, C, l);
  }

  lemma FairOwner(B0: seq<Lock>, c: Lock, l: Lock)
    requires Fair(B0, c, l)
    ensures l.owner == c.owner && l.ty != Unlock
  {
  }

  /** The next lock goes, and the caller may grow. */
  lemma Swallows(w: Walk, c: Lock, pre: seq<Lock>, Q: seq<Lock>, B: seq<Lock>, C: seq<Lock>, B0: seq<Lock>, k: Lock)
    requires Underway(w, c, pre, Q, B, C, B0) && |B| > 0 && w.at >= 0
    requires Fair(B0, c, k) && Calls(B0, c, k) && k.start <= w.caller.start && k.waiters == w.caller.waiters
    ensures |pre| <= w.at < |pre| + |Q| && w.at < w.before < |w.list|
    ensures Underway(w.(list := Delete(w.list, w.before)[w.at := k], caller := k), c, pre, Q[w.at - |pre| := k], B[1..], C, B0)
  {
    hide Fair, Edges, AllFair, Calls;
    var i := w.at - |pre|;
    assert w.caller.ty == c.ty by { CallsType(B0, c, w.caller); }
    assert k.owner == Q[i].owner by { FairAt(B0, c, Q, i); FairOwner(B0, c, k); FairOwner(B0, c, Q[i]); }
    EdgesSet(Q, i, k);
    EdgesMove(Q, B, B[0]);
    Shapes(pre, Q, B, C, k);
    assert pre + Q + B[1..] + C == pre + Q + (B[1..] + C);
    ShapeAt(pre, Q, B[1..] + C, w.at, k);
    assert pre + Q[i := k] + (B[1..] + C) == pre + Q[i := k] + B[1..] + C;
    SetFair(B0, c, Q, i, k);
    assert AllFair(B0, c, B[1..]) by { RestFair(B0, c, B); }
  }

  lemma CallsType(B0: seq<Lock>, c: Lock, l: Lock)
    requires Calls(B0, c, l)
    ensures l.ty == c.ty
  {
  }

  lemma SetFair(B0: seq<Lock>, c: Lock, Q: seq<Lock>, i: nat, k: Lock)
    requires AllFair(B0, c, Q) && i < |Q| && Fair(B0, c, k)
    ensures AllFair(B0, c, Q[i := k])
  {
    hide Fair;
  }

  lemma RestFair(B0: seq<Lock>, c: Lock, B: seq<Lock>)
    requires AllFair(B0, c, B) && |B| > 0
    ensures AllFair(B0, c, B[1..])
  {
    hide Fair;
  }

  /** The next lock goes. */
  lemma Drops(w: Walk, c: Lock, pre: seq<Lock>, Q: seq<Lock>, B: seq<Lock>, C: seq<Lock>, B0: seq<Lock>)
    requires Underway(w, c, pre, Q, B, C, B0) && |B| > 0 && (w.at >= 0 || c.ty == Unlock)
    ensures w.before < |w.list|
    ensures Underway(w.(list := Delete(w.list, w.before), added := true), c, pre, Q, B[1..], C, B0)
  {
    hide Fair, Edges, AllFair, Calls;
    EdgesMove(Q, B, B[0]);
    Shapes(pre, Q, B, C, B[0]);
    RestFair(B0, c, B);
  }

  lemma Halts(w: Walk, c: Lock, pre: seq<Lock>, Q: seq<Lock>, B: seq<Lock>, C: seq<Lock>, B0: seq<Lock>)
    requires Underway(w, c, pre, Q, B, C, B0)
    ensures Halted(w, c, pre, Q, B, C, B0) && Halted(w.(stop := true), c, pre, Q, B, C, B0)
  {
    hide Fair, Edges, AllFair, Calls;
  }

  /** The pass, on any list. */
  lemma {:induction false} PassedHalts(ar: Arithmetic, w: Walk, c: Lock, pre: seq<Lock>, Q: seq<Lock>, B: seq<Lock>, C: seq<Lock>, B0: seq<Lock>)
    returns (Q': seq<Lock>, B': seq<Lock>)
    requires Underway(w, c, pre, Q, B, C, B0) && Without(C, c.owner) && w.at < w.before <= |w.list|
    ensures Halted(Passed(ar, w, c.owner), c, pre, Q', B', C, B0)
    decreases |B|
  {
    hide Fair, Edges, AllFair, Passed, Underway, Halted;
    PassedStops(ar, w, c.owner);
    Q', B' := Q, B;
    if Over(w, c.owner) {
      Halts(w, c, pre, Q, B, C, B0);
      return;
    }
    Here(w, c, pre, Q, B, C, B0);
    PassedNext(ar, w, c.owner);
    var w' := Step(ar, w);
    PassedStops(ar, w', c.owner);
    var fl, l := B[0], w.caller;
    if l.ty == fl.ty {
      if fl.end < l.start - 1 {
        Passes(w, c, pre, Q, B, C, B0);
        Q', B' := PassedHalts(ar, w', c, pre, Q + [fl], B[1..], C, B0);
      } else if fl.start > Next(ar, l.end) {
        Halts(w, c, pre, Q, B, C, B0);
      } else {
        FairHull(ar, B0, c, fl, l);
        var h := Hull(fl, l);
        if w.added {
          var k := l.(start := h.start, end := h.end);
          Swallows(w, c, pre, Q, B, C, B0, k);
          Q', B' := PassedHalts(ar, w', c, pre, Q[w.at - |pre| := k], B[1..], C, B0);
        } else {
          Becomes(w, c, pre, Q, B, C, B0, h);
          Q', B' := PassedHalts(ar, w', c, pre, Q + [h], B[1..], C, B0);
        }
      }
    } else if fl.end < l.start {
      Passes(w, c, pre, Q, B, C, B0);
      Q', B' := PassedHalts(ar, w', c, pre, Q + [fl], B[1..], C, B0);
    } else if fl.start > l.end {
      Halts(w, c, pre, Q, B, C, B0);
    } else if fl.end > l.end {
      Across(w, c, pre, Q, B, C, B0);
    } else if fl.start < l.start {
      Keeps(w, c, pre, Q, B, C, B0);
      Q', B' := PassedHalts(ar, w', c, pre, Q + [fl], B[1..], C, B0);
    } else if w.added || c.ty == Unlock {
      Drops(w, c, pre, Q, B, C, B0);
      Q', B' := PassedHalts(ar, w', c, pre, Q, B[1..], C, B0);
    } else {
      var n := fl.(start := l.start, end := l.end, ty := l.ty, waiters := []);
      Replaces(B0, c, fl, l);
      Becomes(w, c, pre, Q, B, C, B0, n);
      Q', B' := PassedHalts(ar, w', c, pre, Q + [n], B[1..], C, B0);
    }
  }

  /** The lock under the pass. */
  lemma Here(w: Walk, c: Lock, pre: seq<Lock>, Q: seq<Lock>, B: seq<Lock>, C: seq<Lock>, B0: seq<Lock>)
    requires Underway(w, c, pre, Q, B, C, B0) && Without(C, c.owner) && w.before < |w.list| && w.list[w.before].owner == c.owner
    ensures |B| > 0 && w.list[w.before] == B[0] && Fair(B0, c, B[0]) && B[0].owner == c.owner && B[0].ty != Unlock
    ensures Calls(B0, c, w.caller) && !w.stop && (w.at >= 0 ==> w.added && Fair(B0, c, w.caller) && c.ty != Unlock)
    ensures w.at < 0 ==> w.caller == c && (w.added ==> c.ty == Unlock)
  {
    hide Edges, From, Calls;
    if w.at >= 0 {
      FairAt(B0, c, Q, w.at - |pre|);
    }
  }

  lemma Replaces(B0: seq<Lock>, c: Lock, fl: Lock, l: Lock)
    requires Calls(B0, c, l) && c.ty != Unlock && fl.owner == c.owner
    ensures var n := fl.(start := l.start, end := l.end, ty := l.ty, waiters := []); Fair(B0, c, n) && Calls(B0, c, n)
  {
    hide Due;
  }

  /** A lock of another type that begins before the range is passed over, to be cut. */
  lemma Keeps(w: Walk, c: Lock, pre: seq<Lock>, Q: seq<Lock>, B: seq<Lock>, C: seq<Lock>, B0: seq<Lock>)
    requires Underway(w, c, pre, Q, B, C, B0) && |B| > 0 && B[0].ty != c.ty && B[0].end >= w.caller.start
    ensures Underway(w.(before := w.before + 1, added := w.added || c.ty == Unlock, left := w.before), c, pre, Q + [B[0]], B[1..], C, B0)
  {
    Passes(w, c, pre, Q, B, C, B0);
    hide Fair, Edges, AllFair, Calls;
  }

  lemma Across(w: Walk, c: Lock, pre: seq<Lock>, Q: seq<Lock>, B: seq<Lock>, C: seq<Lock>, B0: seq<Lock>)
    requires Underway(w, c, pre, Q, B, C, B0) && |B| > 0 && B[0].start <= w.caller.end < B[0].end && w.caller.start <= B[0].end
    ensures var left := if B[0].start < w.caller.start then w.before else w.left;
      Halted(w.(added := w.added || c.ty == Unlock, left := left, right := w.before, stop := true), c, pre, Q, B, C, B0)
  {
    hide Fair, Edges, AllFair, Calls;
  }

  /** What the caller asked for is held by one lock. */
  ghost predicate Holds(B: seq<Lock>, c: Lock)
  {
    c.ty != Unlock ==> exists i :: 0 <= i < |B| && B[i].ty == c.ty && B[i].start <= c.start && c.end <= B[i].end
  }

  lemma HaltedPlaces(w: Walk, c: Lock, pre: seq<Lock>, Q: seq<Lock>, B: seq<Lock>, C: seq<Lock>, B0: seq<Lock>)
    requires Halted(w, c, pre, Q, B, C, B0)
    ensures w.list == pre + Q + B + C && w.before == |pre| + |Q| && (w.right >= 0 ==> |B| > 0)
    ensures if w.left >= 0 && w.left == w.right then B[0].start < w.caller.start
            else w.left >= 0 ==> |pre| <= w.left < |pre| + |Q|
  {
    hide AllFair, Edges, Calls, Caller;
  }

  /** Everything that is left is fair. */
  lemma FinishFair(w: Walk, c: Lock, pre: seq<Lock>, Q: seq<Lock>, B: seq<Lock>, C: seq<Lock>, B0: seq<Lock>)
    requires Halted(w, c, pre, Q, B, C, B0) && !(c.ty == Unlock && !w.added)
    ensures AllFair(B0, c, LeftOver(w, |pre|, Q, B)) && AllFair(B0, c, Fresh(w)) && AllFair(B0, c, Rest(w, B))
  {
    hide Fair, Edges;
    if w.left >= 0 && w.left != w.right {
      var l := Q[w.left - |pre|];
      FairShrunk(B0, c, l, l.(end := w.caller.start - 1, waiters := []));
    }
    if w.left >= 0 && w.left == w.right {
      FairShrunk(B0, c, B[0], B[0].(end := w.caller.start - 1, waiters := []));
    }
    if w.right >= 0 {
      FairShrunk(B0, c, B[0], B[0].(start := w.caller.end + 1, waiters := []));
    }
    if !w.added {
      FairNew(B0, c, w.caller);
    }
  }

  lemma FairNew(B0: seq<Lock>, c: Lock, l: Lock)
    requires Calls(B0, c, l) && c.ty != Unlock
    ensures Fair(B0, c, l.(waiters := []))
  {
    hide Due;
  }

  lemma FinishEdges(w: Walk, c: Lock, pre: seq<Lock>, Q: seq<Lock>, B: seq<Lock>, C: seq<Lock>, B0: seq<Lock>)
    requires Halted(w, c, pre, Q, B, C, B0)
    ensures Edges(LeftOver(w, |pre|, Q, B) + Fresh(w) + Rest(w, B)) <= Edges(B0)
  {
    hide Edges, AllFair, Calls;
    var Q', N, R := LeftOver(w, |pre|, Q, B), Fresh(w), Rest(w, B);
    EdgesAppend(Q' + N, R);
    EdgesAppend(Q', N);
    EdgesNone();
    if !w.added {
      NoWaiters(w.caller.(waiters := []));
    }
    if w.right >= 0 {
      assert R == B[0 := B[0].(start := w.caller.end + 1, waiters := [])];
      EdgesSet(B, 0, B[0].(start := w.caller.end + 1, waiters := []));
    }
    if w.left >= 0 && w.left == w.right {
      EdgesAppend(Q, LeftPart(B[0], w.caller));
      NoWaiters(B[0].(end := w.caller.start - 1, waiters := []));
    } else if w.left >= 0 {
      EdgesSet(Q, w.left - |pre|, Q[w.left - |pre|].(end := w.caller.start - 1, waiters := []));
    }
  }

  lemma NoWaiters(l: Lock)
    requires l.waiters == []
    ensures Edges([l]) == multiset{}
  {
    assert [l] + [] == [l];
    EdgesFirst(l, []);
  }

  lemma FinishHolds(w: Walk, c: Lock, pre: seq<Lock>, Q: seq<Lock>, B: seq<Lock>, C: seq<Lock>, B0: seq<Lock>)
    requires Halted(w, c, pre, Q, B, C, B0)
    ensures Holds(LeftOver(w, |pre|, Q, B) + Fresh(w) + Rest(w, B), c)
  {
    hide Edges, AllFair, From;
    var Q', N, R := LeftOver(w, |pre|, Q, B), Fresh(w), Rest(w, B);
    if w.at >= 0 {
      var i := w.at - |pre|;
      assert Q'[i] == w.caller;
      assert (Q' + N + R)[i] == w.caller;
    } else if c.ty != Unlock {
      assert (Q' + N + R)[|Q'|] == c.(waiters := []);
    }
  }

  /** What a grant may do to a list: only the caller's locks change, to fair ones that hold what was asked
      for, and waits only end. */
  ghost predicate Sound(L: seq<Lock>, c: Lock, L': seq<Lock>, pre: seq<Lock>, B: seq<Lock>, B': seq<Lock>, C: seq<Lock>)
  {
    && L == pre + B + C && L' == pre + B' + C && Owned(B, c.owner) && Without(pre, c.owner) && Without(C, c.owner)
    && AllFair(B, c, B') && Holds(B', c) && Edges(B') <= Edges(B)
    && (B == [] ==> C == [])
  }

  /** The list work of `posix_lock_file` is sound on every grouped list, in either arithmetic. */
  lemma WalkedSound(ar: Arithmetic, L: seq<Lock>, c: Lock) returns (pre: seq<Lock>, B': seq<Lock>, C: seq<Lock>)
    requires Grouped(L) && NoUnlocks(L) && c.start <= c.end
    ensures Sound(L, c, Walked(ar, L, c), pre, Of(L, c.owner), B', C)
  {
    hide *;
    pre, C := Parts(L, c.owner);
    OfOwned(L, c.owner);
    var B0 := Of(L, c.owner);
    BeginsFair(L, c, pre, C);
    BeginsAt(ar, L, c);
    var Q, B := PassedHalts(ar, Begin(L, c), c, pre, [], B0, C, B0);
    B' := FinishSound(Passed(ar, Begin(L, c), c.owner), c, pre, Q, B, C, B0);
    IsSound(L, c, Walked(ar, L, c), pre, B0, B', C);
  }

  lemma BeginsAt(ar: Arithmetic, L: seq<Lock>, c: Lock)
    ensures var w := Begin(L, c);
      && w.at < w.before <= |w.list| && InList(Passed(ar, w, c.owner)) && Passed(ar, w, c.owner).caller.ty == c.ty
      && Walked(ar, L, c) == Finished(Passed(ar, w, c.owner))
  {
    PassedInList(ar, Begin(L, c), c.owner);
    CallerType(ar, Begin(L, c), c.owner);
  }

  lemma IsSound(L: seq<Lock>, c: Lock, L': seq<Lock>, pre: seq<Lock>, B: seq<Lock>, B': seq<Lock>, C: seq<Lock>)
    requires L == pre + B + C && L' == pre + B' + C && Owned(B, c.owner) && Without(pre, c.owner) && Without(C, c.owner)
    requires AllFair(B, c, B') && Holds(B', c) && Edges(B') <= Edges(B) && (B == [] ==> C == [])
    ensures Sound(L, c, L', pre, B, B', C)
  {
  }

  /** What comes after the pass. */
  lemma FinishSound(w: Walk, c: Lock, pre: seq<Lock>, Q: seq<Lock>, B: seq<Lock>, C: seq<Lock>, B0: seq<Lock>) returns (B': seq<Lock>)
    requires Halted(w, c, pre, Q, B, C, B0) && InList(w) && w.caller.ty == c.ty
    ensures Finished(w) == pre + B' + C && AllFair(B0, c, B') && Holds(B', c) && Edges(B') <= Edges(B0)
  {
    hide *;
    if c.ty == Unlock && !w.added {
      Untouched(w, c, pre, Q, B, C, B0);
      B' := Q + B;
    } else {
      HaltedPlaces(w, c, pre, Q, B, C, B0);
      FinishedIs(w, pre, Q, B, C);
      FinishFair(w, c, pre, Q, B, C, B0);
      FinishEdges(w, c, pre, Q, B, C, B0);
      FinishHolds(w, c, pre, Q, B, C, B0);
      B' := LeftOver(w, |pre|, Q, B) + Fresh(w) + Rest(w, B);
      FairJoin(B0, c, LeftOver(w, |pre|, Q, B), Fresh(w));
      FairJoin(B0, c, LeftOver(w, |pre|, Q, B) + Fresh(w), Rest(w, B));
    }
  }

  lemma FairJoin(B0: seq<Lock>, c: Lock, P: seq<Lock>, Q: seq<Lock>)
    requires AllFair(B0, c, P) && AllFair(B0, c, Q)
    ensures AllFair(B0, c, P + Q)
  {
    hide Fair;
  }

  lemma Untouched(w: Walk, c: Lock, pre: seq<Lock>, Q: seq<Lock>, B: seq<Lock>, C: seq<Lock>, B0: seq<Lock>)
    requires Halted(w, c, pre, Q, B, C, B0) && InList(w) && c.ty == Unlock && !w.added && w.caller.ty == c.ty
    ensures Finished(w) == pre + (Q + B) + C && AllFair(B0, c, Q + B) && Holds(Q + B, c) && Edges(Q + B) <= Edges(B0)
  {
    hide Fair, Edges;
    EdgesAppend(Q, B);
    FairJoin(B0, c, Q, B);
    assert pre + Q + B + C == pre + (Q + B) + C;
  }

  lemma BeginsFair(L: seq<Lock>, c: Lock, pre: seq<Lock>, C: seq<Lock>)
    requires L == pre + Of(L, c.owner) + C && |pre| == Skip(L, c.owner) && NoUnlocks(L) && c.start <= c.end
    ensures Underway(Begin(L, c), c, pre, [], Of(L, c.owner), C, Of(L, c.owner))
  {
    hide Of, Edges, AllFair, Skip, NoUnlocks, Calls;
    var B := Of(L, c.owner);
    OfOwned(L, c.owner);
    EdgesNone();
    assert pre + [] + B + C == L;
    NoUnlocksOf(L, pre, B, C);
    AllFairOld(B, c);
  }

  lemma NoUnlocksOf(L: seq<Lock>, pre: seq<Lock>, B: seq<Lock>, C: seq<Lock>)
    requires L == pre + B + C && NoUnlocks(L)
    ensures NoUnlocks(B)
  {
    forall i | 0 <= i < |B| ensures B[i].ty != Unlock {
      assert L[|pre| + i] == B[i];
    }
  }

  lemma AllFairOld(B: seq<Lock>, c: Lock)
    requires Owned(B, c.owner) && NoUnlocks(B) && c.start <= c.end
    ensures AllFair(B, c, B) && AllFair(B, c, []) && Calls(B, c, c)
  {
    forall i | 0 <= i < |B| ensures Fair(B, c, B[i]) {
      FairOld(B, c, i);
    }
  }
}
