/**
 The list work of `posix_lock_file`: one pass over the owner's locks that merges, shortens,
 replaces and deletes them in place, then inserts what is missing. `Step` is one round of the pass and
 `Finished` what comes after it; on an owner's locks in order the whole is the recursive walk `Insert`.
 */
module LockWalk {
  import opened Common
  import opened LockRanges
  import opened WaitGraph
  import opened LockFile

  /** Where the pass stands. `at` is the place of the lock that `caller` has become, `left` and
      `right` the places of locks still to be shortened; -1 stands for none. */
  datatype Walk = Walk(list: seq<Lock>, before: nat, caller: Lock, at: int, added: bool, left: int, right: int, stop: bool)

  function Delete(L: seq<Lock>, i: nat): seq<Lock>
    requires i < |L|
  {
    L[..i] + L[i + 1..]
  }

  /** The lock list `L` with `x` put in at place `i`. */
  function PutAt(L: seq<Lock>, i: nat, x: Lock): seq<Lock>
    requires i <= |L|
  {
    L[..i] + [x] + L[i..]
  }

  /** One round of the pass. */
  function Step(ar: Arithmetic, w: Walk): (w': Walk)
    requires w.at < w.before < |w.list|
    ensures w'.at < w'.before <= |w'.list| && (w'.stop || |w'.list| - w'.before < |w.list| - w.before)
  {
    var fl, c := w.list[w.before], w.caller;
    if c.ty == fl.ty then
      if fl.end < c.start - 1 then w.(before := w.before + 1, stop := false)
      else if fl.start > Next(ar, c.end) then w.(stop := true)
      else
        var h := Hull(fl, c);
        if w.added then
          var caller, rest := c.(start := h.start, end := h.end), Delete(w.list, w.before);
          w.(list := if w.at >= 0 then rest[w.at := caller] else rest, caller := caller, stop := false)
        else Walk(w.list[w.before := h], w.before + 1, h, w.before, true, w.left, w.right, false)
    else if fl.end < c.start then w.(before := w.before + 1, stop := false)
    else if fl.start > c.end then w.(stop := true)
    else
      var added, left := w.added || c.ty == Unlock, if fl.start < c.start then w.before else w.left;
      if fl.end > c.end then w.(added := added, left := left, right := w.before, stop := true)
      else if fl.start < c.start then w.(before := w.before + 1, added := added, left := left, stop := false)
      else if added then w.(list := Delete(w.list, w.before), added := added, stop := false)
      else
        var n := fl.(start := c.start, end := c.end, ty := c.ty, waiters := []);
        Walk(w.list[w.before := n], w.before + 1, n, w.before, true, w.left, w.right, false)
  }

  predicate Over(w: Walk, o: Task)
  {
    w.stop || w.before >= |w.list| || w.list[w.before].owner != o
  }

  /** The pass over the locks of owner `o`. */
  function Passed(ar: Arithmetic, w: Walk, o: Task): (w': Walk)
    requires w.at < w.before <= |w.list|
    ensures w'.at < w'.before <= |w'.list|
    decreases !w.stop, |w.list| - w.before
  {
    if Over(w, o) then w else Passed(ar, Step(ar, w), o)
  }

  /** The places that are kept are places in the list. */
  predicate InList(w: Walk)
  {
    w.before <= |w.list| && (w.right >= 0 ==> w.right == w.before < |w.list|) && (w.left == w.right || w.left < w.before)
  }

  /** After the pass: what is missing is put in and what sticks out is cut off. */
  function Finished(w: Walk): seq<Lock>
    requires InList(w)
  {
    if !w.added && w.caller.ty == Unlock then w.list
    else
      var list := if w.added then w.list else PutAt(w.list, w.before, w.caller.(waiters := []));
      if w.right < 0 then ShortenLeft(list, w.left, w.caller)
      else
        var right := if w.added then w.right else w.right + 1;
        if w.left == w.right then
          var two := PutAt(list, w.before, list[right].(waiters := []));
          ShortenLeft(ShortenRight(two, right + 1, w.caller), w.before, w.caller)
        else ShortenLeft(ShortenRight(list, right, w.caller), w.left, w.caller)
  }

  function ShortenRight(list: seq<Lock>, right: nat, caller: Lock): seq<Lock>
    requires right < |list|
  {
    list[right := list[right].(start := caller.end + 1, waiters := [])]
  }

  function ShortenLeft(list: seq<Lock>, left: int, caller: Lock): seq<Lock>
    requires left < |list|
  {
    if left < 0 then list else list[left := list[left].(end := caller.start - 1, waiters := [])]
  }

  /** Where the pass begins. */
  function Begin(L: seq<Lock>, c: Lock): Walk
  {
    Walk(L, Skip(L, c.owner), c, -1, false, -1, -1, false)
  }

  lemma {:induction false} StepInList(ar: Arithmetic, w: Walk)
    requires w.at < w.before < |w.list| && InList(w) && w.right < 0
    ensures InList(Step(ar, w)) && (!Step(ar, w).stop ==> Step(ar, w).right < 0)
  {
  }

  lemma {:induction false} PassedInList(ar: Arithmetic, w: Walk, o: Task)
    requires w.at < w.before <= |w.list| && InList(w) && (w.stop || w.right < 0)
    ensures InList(Passed(ar, w, o))
    decreases !w.stop, |w.list| - w.before
  {
    if !Over(w, o) {
      StepInList(ar, w);
      PassedInList(ar, Step(ar, w), o);
    }
  }

  /** The list that `posix_lock_file` leaves when it grants a request. */
  function Walked(ar: Arithmetic, L: seq<Lock>, c: Lock): seq<Lock>
  {
    PassedInList(ar, Begin(L, c), c.owner);
    Finished(Passed(ar, Begin(L, c), c.owner))
  }

  /** The loop over the owner's locks. */
  method Pass(ar: Arithmetic, L: seq<Lock>, c: Lock, first: nat) returns (w: Walk)
    requires first == Skip(L, c.owner)
    ensures w == Passed(ar, Begin(L, c), c.owner)
  {
    hide Passed, Hull;
    var before: nat := first;
    var at: int, left: int, right: int := -1, -1, -1;
    var list, caller, added := L, c, false;
    while before < |list| && list[before].owner == c.owner
      invariant at < before <= |list|
      invariant Passed(ar, Begin(L, c), c.owner) ==
        Passed(ar, Walk(list, before, caller, at, added, left, right, false), c.owner)
      decreases |list| - before
    {
      ghost var v := Walk(list, before, caller, at, added, left, right, false);
      PassedNext(ar, v, c.owner);
      PassedStops(ar, Step(ar, v), c.owner);
      var fl := list[before];
      if caller.ty == fl.ty {
        if fl.end < caller.start - 1 {
          before := before + 1;
          continue;
        }
        if fl.start > Next(ar, caller.end) {
          return Walk(list, before, caller, at, added, left, right, true);
        }
        HullParts(fl, caller);
        if fl.start > caller.start {
          fl := fl.(start := caller.start);
        } else {
          caller := caller.(start := fl.start);
        }
        if fl.end < caller.end {
          fl := fl.(end := caller.end);
        } else {
          caller := caller.(end := fl.end);
        }
        if added {
          list := Delete(list, before);
          if at >= 0 {
            list := list[at := caller];
          }
          continue;
        }
        list, caller, at, added := list[before := fl], fl, before, true;
      } else {
        if fl.end < caller.start {
          before := before + 1;
          continue;
        }
        if fl.start > caller.end {
          return Walk(list, before, caller, at, added, left, right, true);
        }
        if caller.ty == Unlock {
          added := true;
        }
        if fl.start < caller.start {
          left := before;
        }
        if fl.end > caller.end {
          return Walk(list, before, caller, at, added, left, before, true);
        }
        if fl.start >= caller.start {
          if added {
            list := Delete(list, before);
            continue;
          }
          fl := fl.(start := caller.start, end := caller.end, ty := caller.ty, waiters := []);
          list, caller, at, added := list[before := fl], fl, before, true;
        }
      }
      before := before + 1;
    }
    w := Walk(list, before, caller, at, added, left, right, false);
    PassedStops(ar, w, c.owner);
  }

  lemma PassedNext(ar: Arithmetic, w: Walk, o: Task)
    requires w.at < w.before <= |w.list| && !Over(w, o)
    ensures Passed(ar, w, o) == Passed(ar, Step(ar, w), o)
  {
  }

  lemma PassedStops(ar: Arithmetic, w: Walk, o: Task)
    requires w.at < w.before <= |w.list|
    ensures Over(w, o) ==> Passed(ar, w, o) == w
  {
  }

  lemma HullParts(fl: Lock, c: Lock)
    ensures var h := Hull(fl, c);
      h == fl.(start := if fl.start > c.start then c.start else fl.start, end := if fl.end < c.end then c.end else fl.end)
  {
  }

  /** The insertions and shortenings after the loop. */
  method Finish(w: Walk) returns (list: seq<Lock>)
    requires InList(w)
    ensures list == Finished(w)
  {
    list := w.list;
    var left, right := w.left, w.right;
    if !w.added {
      if w.caller.ty == Unlock {
        return;
      }
      list := PutAt(list, w.before, w.caller.(waiters := []));
      right := if right >= 0 then right + 1 else right;
    }
    if right >= 0 {
      if w.left == w.right {
        list := PutAt(list, w.before, list[right].(waiters := []));
        left, right := w.before, right + 1;
      }
      list := list[right := list[right].(start := w.caller.end + 1, waiters := [])];
    }
    if left >= 0 {
      list := list[left := list[left].(end := w.caller.start - 1, waiters := [])];
    }
  }

  /** `posix_lock_file` past its tests. */
  method Apply(ar: Arithmetic, L: seq<Lock>, c: Lock) returns (list: seq<Lock>)
    ensures list == Walked(ar, L, c)
  {
    hide Passed, Finished;
    var before := 0;
    while before < |L| && L[before].owner != c.owner
      invariant before <= |L| && before <= Skip(L, c.owner)
    {
      SkipPast(L, c.owner, before);
      before := before + 1;
    }
    SkipHere(L, c.owner, before);
    var w := Pass(ar, L, c, before);
    PassedInList(ar, Begin(L, c), c.owner);
    list := Finish(w);
  }

  lemma SkipPast(L: seq<Lock>, o: Task, i: nat)
    requires i < |L| && i <= Skip(L, o) && L[i].owner != o
    ensures i < Skip(L, o)
  {
  }

  lemma SkipHere(L: seq<Lock>, o: Task, i: nat)
    requires i <= |L| && i <= Skip(L, o) && (i < |L| ==> L[i].owner == o)
    ensures i == Skip(L, o)
  {
  }

  /** The finished locks before the pass, with the shortening still owed to `left` done. */
  function Trim(P: seq<Lock>, left: bool, start: int): seq<Lock>
  {
    if left && |P| > 0 then P[..|P| - 1] + [P[|P| - 1].(end := start - 1, waiters := [])] else P
  }

  /** The pass is over the owner's locks `B`, with `pre` in front of the owner's first lock, `P`
      finished, and `C` behind: what it has done and what is left to do make up `goal`. */
  ghost predicate Going(ar: Arithmetic, w: Walk, goal: seq<Lock>, c: Lock, pre: seq<Lock>, P: seq<Lock>, B: seq<Lock>, C: seq<Lock>)
  {
    Canonical(B) && Owned(B, c.owner) && w.caller.owner == c.owner &&
    (w.left >= 0 ==> w.left == |pre| + |P| - 1 && |P| > 0 && (|B| > 0 ==> c.start < B[0].start)) &&
    w.caller.start <= w.caller.end && w.right == -1 && w.left >= -1 && !w.stop &&
    if w.at < 0 then
      w.list == pre + P + B + C && w.before == |pre| + |P| && w.caller == c && w.at == -1 &&
      (w.added ==> c.ty == Unlock) && (c.ty == Unlock && w.left >= 0 ==> w.added) &&
      goal == Trim(P, w.left >= 0, c.start) + Insert(ar, B, c)
    else
      w.list == pre + P + [w.caller] + B + C && w.before == |pre| + |P| + 1 && w.at == |pre| + |P| &&
      w.added && c.ty != Unlock && w.caller.ty == c.ty && (|B| > 0 ==> w.caller.start < B[0].start) &&
      (w.left >= 0 ==> w.caller.start == c.start) &&
      goal == Trim(P, w.left >= 0, c.start) + Absorb(ar, B, w.caller)
  }

  /** The pass has stopped: only insertions and shortenings are left. */
  ghost predicate Ended(w: Walk, goal: seq<Lock>, c: Lock, pre: seq<Lock>, P: seq<Lock>, B: seq<Lock>, C: seq<Lock>)
  {
    -1 <= w.left && -1 <= w.right && (w.right >= 0 ==> w.right == w.before && |B| > 0) && |C| >= 0 &&
    if w.at < 0 then
      w.list == pre + P + B + C && w.before == |pre| + |P| && w.caller == c &&
      (w.added ==> c.ty == Unlock) && (c.ty == Unlock && (w.left >= 0 || w.right >= 0) ==> w.added) &&
      if w.left >= 0 && w.left == w.right then
        B[0].start < c.start && goal == P + LeftPart(B[0], c) + Cut(B[0], c, B[1..])
      else
        (w.left >= 0 ==> |P| > 0 && w.left == |pre| + |P| - 1) &&
        goal == Trim(P, w.left >= 0, c.start) + (if w.right >= 0 then Cut(B[0], c, B[1..]) else New(c) + B)
    else
      w.list == pre + P + [w.caller] + B + C && w.before == |pre| + |P| + 1 && w.added && w.caller.ty == c.ty != Unlock &&
      (w.left >= 0 ==> |P| > 0 && w.left == |pre| + |P| - 1 && w.caller.start == c.start) &&
      goal == Trim(P, w.left >= 0, c.start) + [w.caller] +
              (if w.right >= 0 then [B[0].(start := w.caller.end + 1, waiters := [])] + B[1..] else B)
  }

  /** The lock under the pass. */
  lemma AtBefore(ar: Arithmetic, w: Walk, goal: seq<Lock>, c: Lock, pre: seq<Lock>, P: seq<Lock>, B: seq<Lock>, C: seq<Lock>)
    requires Going(ar, w, goal, c, pre, P, B, C) && Without(C, c.owner)
    requires w.before < |w.list| && w.list[w.before].owner == c.owner
    ensures |B| > 0 && w.list[w.before] == B[0] && WellFormed(B[0]) && w.caller.ty == c.ty && w.right == -1
    ensures if w.at < 0 then w.caller == c && (w.added ==> c.ty == Unlock)
            else w.added && w.at < w.before && w.caller.start < B[0].start && w.list[w.at] == w.caller
  {
  }

  lemma PassedAll(ar: Arithmetic, w: Walk, goal: seq<Lock>, c: Lock, pre: seq<Lock>, P: seq<Lock>, B: seq<Lock>, C: seq<Lock>)
    requires Going(ar, w, goal, c, pre, P, B, C)
    requires w.before >= |w.list| || w.list[w.before].owner != c.owner
    ensures |B| == 0
  {
  }

  /** A lock that ends before the range is left behind. */
  lemma PassOver(ar: Arithmetic, w: Walk, goal: seq<Lock>, c: Lock, pre: seq<Lock>, P: seq<Lock>, B: seq<Lock>, C: seq<Lock>)
    requires Going(ar, w, goal, c, pre, P, B, C) && |B| > 0 && c.start <= c.end
    requires if c.ty == B[0].ty then B[0].end < w.caller.start - 1 else B[0].end < w.caller.start
    ensures Going(ar, w.(before := w.before + 1), goal, c, pre, P + [B[0]], B[1..], C)
  {
    assert w.at < 0 && w.left < 0;
    assert pre + P + B + C == pre + (P + [B[0]]) + B[1..] + C;
    assert P + Insert(ar, B, c) == (P + [B[0]]) + Insert(ar, B[1..], c);
  }

  /** The first lock that the new one merges with takes its place. */
  lemma MergeFirst(ar: Arithmetic, w: Walk, goal: seq<Lock>, c: Lock, pre: seq<Lock>, P: seq<Lock>, B: seq<Lock>, C: seq<Lock>)
    requires Going(ar, w, goal, c, pre, P, B, C) && |B| > 0 && w.at < 0 && c.ty == B[0].ty && c.start <= c.end
    requires B[0].end >= c.start - 1 && B[0].start <= Next(ar, c.end)
    ensures var fl := Hull(B[0], c);
      Going(ar, Walk(w.list[w.before := fl], w.before + 1, fl, w.before, true, w.left, -1, false), goal, c, pre, P, B[1..], C)
  {
    var fl := Hull(B[0], c);
    assert (pre + P + B + C)[|pre| + |P| := fl] == pre + P + [fl] + B[1..] + C;
  }

  /** A further lock of the same type within reach is swallowed. */
  lemma MergeMore(ar: Arithmetic, w: Walk, goal: seq<Lock>, c: Lock, pre: seq<Lock>, P: seq<Lock>, B: seq<Lock>, C: seq<Lock>)
    requires Going(ar, w, goal, c, pre, P, B, C) && |B| > 0 && w.at >= 0 && c.ty == B[0].ty
    requires B[0].start <= Next(ar, w.caller.end)
    ensures var caller := w.caller.(end := Max(B[0].end, w.caller.end));
      Going(ar, w.(list := Delete(w.list, w.before)[w.at := caller], caller := caller), goal, c, pre, P, B[1..], C)
  {
    var caller := w.caller.(end := Max(B[0].end, w.caller.end));
    assert Delete(w.list, w.before) == pre + P + [w.caller] + B[1..] + C;
    assert (pre + P + [w.caller] + B[1..] + C)[|pre| + |P| := caller] == pre + P + [caller] + B[1..] + C;
  }

  /** A lock of another type that begins before the range is kept for shortening. */
  lemma KeepLeft(ar: Arithmetic, w: Walk, goal: seq<Lock>, c: Lock, pre: seq<Lock>, P: seq<Lock>, B: seq<Lock>, C: seq<Lock>)
    requires Going(ar, w, goal, c, pre, P, B, C) && |B| > 0 && c.ty != B[0].ty && c.start <= c.end
    requires B[0].start < w.caller.start <= B[0].end <= w.caller.end
    ensures Going(ar, w.(before := w.before + 1, added := w.added || c.ty == Unlock, left := w.before), goal, c, pre,
                  P + [B[0]], B[1..], C)
  {
    assert w.at < 0 && w.left < 0;
    assert pre + P + B + C == pre + (P + [B[0]]) + B[1..] + C;
    assert Insert(ar, B, c) == LeftPart(B[0], c) + Insert(ar, B[1..], c);
    assert Trim(P + [B[0]], true, c.start) == P + LeftPart(B[0], c);
  }

  /** A lock of another type inside the range goes. */
  lemma DeleteInside(ar: Arithmetic, w: Walk, goal: seq<Lock>, c: Lock, pre: seq<Lock>, P: seq<Lock>, B: seq<Lock>, C: seq<Lock>)
    requires Going(ar, w, goal, c, pre, P, B, C) && |B| > 0 && c.ty != B[0].ty && (w.at >= 0 || c.ty == Unlock)
    requires w.caller.start <= B[0].start && B[0].end <= w.caller.end
    ensures Going(ar, w.(list := Delete(w.list, w.before), added := true), goal, c, pre, P, B[1..], C)
  {
    if w.at >= 0 {
      assert Delete(w.list, w.before) == pre + P + [w.caller] + B[1..] + C;
    } else {
      assert Delete(w.list, w.before) == pre + P + B[1..] + C;
      assert LeftPart(B[0], c) + Insert(ar, B[1..], c) == Insert(ar, B[1..], c);
    }
  }

  /** Or it becomes the new lock. */
  lemma ReplaceInside(ar: Arithmetic, w: Walk, goal: seq<Lock>, c: Lock, pre: seq<Lock>, P: seq<Lock>, B: seq<Lock>, C: seq<Lock>)
    requires Going(ar, w, goal, c, pre, P, B, C) && |B| > 0 && c.ty != B[0].ty && w.at < 0 && c.ty != Unlock
    requires c.start <= B[0].start && B[0].end <= c.end && c.waiters == []
    ensures Going(ar, Walk(w.list[w.before := c], w.before + 1, c, w.before, true, w.left, -1, false), goal, c, pre, P, B[1..], C)
  {
    assert (pre + P + B + C)[|pre| + |P| := c] == pre + P + [c] + B[1..] + C;
  }

  /** No lock left within reach. */
  lemma StopBefore(ar: Arithmetic, w: Walk, goal: seq<Lock>, c: Lock, pre: seq<Lock>, P: seq<Lock>, B: seq<Lock>, C: seq<Lock>)
    requires Going(ar, w, goal, c, pre, P, B, C) && c.start <= c.end
    requires |B| == 0 ||
      if c.ty == B[0].ty then B[0].end >= w.caller.start - 1 && B[0].start > Next(ar, w.caller.end) else B[0].start > w.caller.end
    ensures Ended(w, goal, c, pre, P, B, C)
  {
    if w.at < 0 {
      assert Insert(ar, B, c) == New(c) + B;
    } else {
      assert Trim(P, w.left >= 0, c.start) + ([w.caller] + B) == Trim(P, w.left >= 0, c.start) + [w.caller] + B;
    }
  }

  /** The lock under the pass reaches beyond the range. */
  lemma StopAcross(ar: Arithmetic, w: Walk, goal: seq<Lock>, c: Lock, pre: seq<Lock>, P: seq<Lock>, B: seq<Lock>, C: seq<Lock>)
    requires Going(ar, w, goal, c, pre, P, B, C) && |B| > 0 && c.ty != B[0].ty && c.start <= c.end
    requires B[0].start <= w.caller.end < B[0].end && w.caller.start <= B[0].end
    ensures var left := if B[0].start < w.caller.start then w.before else w.left;
      Ended(w.(added := w.added || c.ty == Unlock, left := left, right := w.before), goal, c, pre, P, B, C)
  {
    var T := Trim(P, w.left >= 0, c.start);
    if w.at < 0 {
      InsertIsCut(ar, B, c);
      if B[0].start >= c.start {
        assert LeftPart(B[0], c) + Cut(B[0], c, B[1..]) == Cut(B[0], c, B[1..]);
      } else {
        assert P + LeftPart(B[0], c) + Cut(B[0], c, B[1..]) == P + (LeftPart(B[0], c) + Cut(B[0], c, B[1..]));
      }
    } else {
      var fl := B[0].(start := w.caller.end + 1, waiters := []);
      assert [w.caller, fl] + B[1..] == [w.caller] + ([fl] + B[1..]);
      assert T + ([w.caller] + ([fl] + B[1..])) == T + [w.caller] + ([fl] + B[1..]);
    }
  }

  lemma Start(ar: Arithmetic, L: seq<Lock>, c: Lock, pre: seq<Lock>, C: seq<Lock>)
    requires Canonical(Of(L, c.owner)) && c.start <= c.end && c.waiters == []
    requires L == pre + Of(L, c.owner) + C
    ensures Going(ar, Walk(L, |pre|, c, -1, false, -1, -1, false), Insert(ar, Of(L, c.owner), c), c, pre, [], Of(L, c.owner), C)
  {
    hide Insert, Canonical, Of;
    OfOwned(L, c.owner);
    assert pre + [] + Of(L, c.owner) + C == L;
    assert [] + Insert(ar, Of(L, c.owner), c) == Insert(ar, Of(L, c.owner), c);
  }

  /** On locks in order the pass comes to what the recursive walk prescribes. */
  lemma {:induction false} PassGoing(ar: Arithmetic, w: Walk, goal: seq<Lock>, c: Lock, pre: seq<Lock>, P: seq<Lock>, B: seq<Lock>, C: seq<Lock>)
    returns (P': seq<Lock>, B': seq<Lock>)
    requires Going(ar, w, goal, c, pre, P, B, C) && Without(C, c.owner) && c.start <= c.end && c.waiters == []
    requires w.at < w.before <= |w.list|
    ensures Ended(Passed(ar, w, c.owner), goal, c, pre, P', B', C)
    decreases |B|
  {
    hide Canonical, Insert, Absorb, Going, Ended, Owned, Passed, Trim, Cut, Without, Next, WellFormed;
    PassedStops(ar, w, c.owner);
    P', B' := P, B;
    if Over(w, c.owner) {
      NotStopped(ar, w, goal, c, pre, P, B, C);
      PassedAll(ar, w, goal, c, pre, P, B, C);
      StopBefore(ar, w, goal, c, pre, P, B, C);
      return;
    }
    AtBefore(ar, w, goal, c, pre, P, B, C);
    PassedNext(ar, w, c.owner);
    var w' := Step(ar, w);
    PassedStops(ar, w', c.owner);
    var fl, caller := B[0], w.caller;
    if caller.ty == fl.ty {
      if fl.end < caller.start - 1 {
        PassOver(ar, w, goal, c, pre, P, B, C);
        P', B' := PassGoing(ar, w', goal, c, pre, P + [fl], B[1..], C);
      } else if fl.start > Next(ar, caller.end) {
        StopBefore(ar, w, goal, c, pre, P, B, C);
        EndedStop(w, goal, c, pre, P, B, C);
      } else if w.added {
        MergeMore(ar, w, goal, c, pre, P, B, C);
        P', B' := PassGoing(ar, w', goal, c, pre, P, B[1..], C);
      } else {
        MergeFirst(ar, w, goal, c, pre, P, B, C);
        P', B' := PassGoing(ar, w', goal, c, pre, P, B[1..], C);
      }
    } else if fl.end < caller.start {
      PassOver(ar, w, goal, c, pre, P, B, C);
      P', B' := PassGoing(ar, w', goal, c, pre, P + [fl], B[1..], C);
    } else if fl.start > caller.end {
      StopBefore(ar, w, goal, c, pre, P, B, C);
      EndedStop(w, goal, c, pre, P, B, C);
    } else if fl.end > caller.end {
      StopAcross(ar, w, goal, c, pre, P, B, C);
      EndedStop(w'.(stop := false), goal, c, pre, P, B, C);
    } else if fl.start < caller.start {
      KeepLeft(ar, w, goal, c, pre, P, B, C);
      P', B' := PassGoing(ar, w', goal, c, pre, P + [fl], B[1..], C);
    } else if w.added || c.ty == Unlock {
      DeleteInside(ar, w, goal, c, pre, P, B, C);
      P', B' := PassGoing(ar, w', goal, c, pre, P, B[1..], C);
    } else {
      ReplaceInside(ar, w, goal, c, pre, P, B, C);
      P', B' := PassGoing(ar, w', goal, c, pre, P, B[1..], C);
    }
  }

  lemma NotStopped(ar: Arithmetic, w: Walk, goal: seq<Lock>, c: Lock, pre: seq<Lock>, P: seq<Lock>, B: seq<Lock>, C: seq<Lock>)
    requires Going(ar, w, goal, c, pre, P, B, C)
    ensures !w.stop
  {
  }

  lemma EndedStop(w: Walk, goal: seq<Lock>, c: Lock, pre: seq<Lock>, P: seq<Lock>, B: seq<Lock>, C: seq<Lock>)
    requires Ended(w, goal, c, pre, P, B, C)
    ensures Ended(w.(stop := true), goal, c, pre, P, B, C)
  {
  }

  lemma PutBetween(A: seq<Lock>, x: Lock, D: seq<Lock>)
    ensures PutAt(A + D, |A|, x) == A + [x] + D
  {
  }

  lemma ChangeBetween(A: seq<Lock>, x: Lock, y: Lock, D: seq<Lock>)
    ensures (A + [x] + D)[|A|] == x && (A + [x] + D)[|A| := y] == A + [y] + D
  {
  }

  /** The new lock, if the caller has not become one. */
  ghost function Fresh(w: Walk): seq<Lock>
  {
    if w.added then [] else [w.caller.(waiters := [])]
  }

  /** The list with the new lock, if there is one. */
  ghost function Listed(w: Walk): seq<Lock>
    requires w.before <= |w.list|
  {
    if w.added then w.list else PutAt(w.list, w.before, w.caller.(waiters := []))
  }

  /** The locks behind the request, the first one shortened if it sticks out. */
  ghost function Rest(w: Walk, B: seq<Lock>): seq<Lock>
  {
    if w.right >= 0 && |B| > 0 then [B[0].(start := w.caller.end + 1, waiters := [])] + B[1..] else B
  }

  /** The done locks with the one on the left cut, or a cut copy of one that sticks out on both sides. */
  ghost function LeftOver(w: Walk, first: nat, Q: seq<Lock>, B: seq<Lock>): seq<Lock>
  {
    if w.left < 0 then Q
    else if w.left == w.right && |B| > 0 then Q + LeftPart(B[0], w.caller)
    else if first <= w.left < first + |Q| then
      Q[w.left - first := Q[w.left - first].(end := w.caller.start - 1, waiters := [])]
    else Q
  }

  /** The list after the pass, in parts: the locks before `before` and those behind it. */
  lemma FinishedIs(w: Walk, pre: seq<Lock>, Q: seq<Lock>, B: seq<Lock>, C: seq<Lock>)
    requires InList(w) && !(w.caller.ty == Unlock && !w.added)
    requires w.list == pre + Q + B + C && w.before == |pre| + |Q| && (w.right >= 0 ==> |B| > 0)
    requires if w.left >= 0 && w.left == w.right then B[0].start < w.caller.start
             else w.left >= 0 ==> |pre| <= w.left < |pre| + |Q|
    ensures Finished(w) == pre + (LeftOver(w, |pre|, Q, B) + Fresh(w) + Rest(w, B)) + C
  {
    hide *;
    LeftOverIs(w, |pre|, Q, B);
    var list := Listed(w);
    PutFresh(w, pre, Q, B, C);
    if w.left >= 0 && w.left == w.right {
      FinishedSplit(w);
      SplitParts(w.caller, pre, Q, Fresh(w), B, C, list, w.before, w.before + |Fresh(w)|, Rest(w, B));
    } else {
      FinishedPlain(w);
      PlainParts(w.caller, pre, Q, Fresh(w), B, C, list, w.before + |Fresh(w)|, LeftOver(w, |pre|, Q, B), Rest(w, B), w.left, w.right >= 0);
    }
  }

  lemma LeftOverIs(w: Walk, first: nat, Q: seq<Lock>, B: seq<Lock>)
    requires (w.right >= 0 ==> |B| > 0) && (w.left >= 0 && w.left != w.right ==> first <= w.left < first + |Q|)
    ensures w.left >= 0 && w.left == w.right ==> LeftOver(w, first, Q, B) == Q + LeftPart(B[0], w.caller)
    ensures w.left < 0 ==> LeftOver(w, first, Q, B) == Q
    ensures w.left >= 0 && w.left != w.right ==>
      LeftOver(w, first, Q, B) == Q[w.left - first := Q[w.left - first].(end := w.caller.start - 1, waiters := [])]
    ensures Rest(w, B) == if w.right >= 0 then [B[0].(start := w.caller.end + 1, waiters := [])] + B[1..] else B
  {
  }

  lemma PutFresh(w: Walk, pre: seq<Lock>, Q: seq<Lock>, B: seq<Lock>, C: seq<Lock>)
    requires w.list == pre + Q + B + C && w.before == |pre| + |Q|
    ensures Listed(w) == pre + Q + Fresh(w) + B + C
  {
    if w.added {
      assert pre + Q + [] + B + C == pre + Q + B + C;
    } else {
      PutBetween(pre + Q, w.caller.(waiters := []), B + C);
      assert pre + Q + B + C == pre + Q + (B + C);
    }
  }

  lemma FinishedSplit(w: Walk)
    requires InList(w) && !(w.caller.ty == Unlock && !w.added) && w.left >= 0 && w.left == w.right
    ensures var list, right := Listed(w), w.before + |Fresh(w)|;
      right < |list| &&
      Finished(w) == ShortenLeft(ShortenRight(PutAt(list, w.before, list[right].(waiters := [])), right + 1, w.caller), w.before, w.caller)
  {
  }

  lemma FinishedPlain(w: Walk)
    requires InList(w) && !(w.caller.ty == Unlock && !w.added) && (w.left < 0 || w.left != w.right)
    ensures var list, right := Listed(w), w.before + |Fresh(w)|;
      (w.right >= 0 ==> right < |list|) && w.left < |list| &&
      Finished(w) == ShortenLeft(if w.right >= 0 then ShortenRight(list, right, w.caller) else list, w.left, w.caller)
  {
  }

  /** A lock that sticks out on both sides is split in two. */
  lemma SplitShape(L: seq<Lock>, c: Lock, A: seq<Lock>, N: seq<Lock>, B: seq<Lock>, C: seq<Lock>)
    requires L == A + N + B + C && |B| > 0 && B[0].start < c.start
    ensures var right := |A| + |N|;
      right < |L| && var two := PutAt(L, |A|, L[right].(waiters := []));
      ShortenLeft(ShortenRight(two, right + 1, c), |A|, c) ==
        A + LeftPart(B[0], c) + N + ([B[0].(start := c.end + 1, waiters := [])] + B[1..]) + C
  {
    var copy := B[0].(waiters := []);
    var D := B[1..] + C;
    PutBetween(A, copy, N + [B[0]] + D);
    assert L == A + (N + [B[0]] + D);
    var two := A + [copy] + N + [B[0]] + D;
    assert PutAt(L, |A|, copy) == two;
    var fl := B[0].(start := c.end + 1, waiters := []);
    ChangeBetween(A + [copy] + N, B[0], fl, D);
    var cut := A + [copy] + (N + [fl] + D);
    assert ShortenRight(two, |A| + |N| + 1, c) == cut;
    ChangeBetween(A, copy, copy.(end := c.start - 1, waiters := []), N + [fl] + D);
  }

  lemma SplitParts(caller: Lock, pre: seq<Lock>, Q: seq<Lock>, N: seq<Lock>, B: seq<Lock>, C: seq<Lock>,
                   L: seq<Lock>, before: nat, right: nat, R: seq<Lock>)
    requires |B| > 0 && B[0].start < caller.start && L == pre + Q + N + B + C && before == |pre| + |Q| && right == before + |N|
    requires R == [B[0].(start := caller.end + 1, waiters := [])] + B[1..]
    ensures right < |L| &&
      ShortenLeft(ShortenRight(PutAt(L, before, L[right].(waiters := [])), right + 1, caller), before, caller) ==
        pre + (Q + LeftPart(B[0], caller) + N + R) + C
  {
    hide PutAt, ShortenLeft, ShortenRight, LeftPart;
    SplitShape(L, caller, pre + Q, N, B, C);
    var l := LeftPart(B[0], caller);
    Group(pre, Q + l, N, R, C);
    assert pre + Q + l == pre + (Q + l);
  }

  lemma RightShape(L: seq<Lock>, caller: Lock, A: seq<Lock>, B: seq<Lock>, C: seq<Lock>)
    requires L == A + B + C && |B| > 0
    ensures ShortenRight(L, |A|, caller) == A + ([B[0].(start := caller.end + 1, waiters := [])] + B[1..]) + C
  {
    ChangeBetween(A, B[0], B[0].(start := caller.end + 1, waiters := []), B[1..] + C);
    assert L == A + [B[0]] + (B[1..] + C);
  }

  lemma NoLeft(list: seq<Lock>, left: int, caller: Lock)
    ensures left < 0 ==> ShortenLeft(list, left, caller) == list
  {
  }

  lemma ShapeAt(pre: seq<Lock>, Q: seq<Lock>, D: seq<Lock>, at: nat, l: Lock)
    requires |pre| <= at < |pre| + |Q|
    ensures (pre + Q + D)[at := l] == pre + Q[at - |pre| := l] + D
  {
  }

  lemma CutAt(pre: seq<Lock>, Q: seq<Lock>, D: seq<Lock>, left: nat, caller: Lock)
    requires |pre| <= left < |pre| + |Q|
    ensures var i := left - |pre|;
      ShortenLeft(pre + Q + D, left, caller) == pre + Q[i := Q[i].(end := caller.start - 1, waiters := [])] + D
  {
    ShapeAt(pre, Q, D, left, Q[left - |pre|].(end := caller.start - 1, waiters := []));
    assert (pre + Q + D)[left] == Q[left - |pre|];
  }

  lemma PlainParts(caller: Lock, pre: seq<Lock>, Q: seq<Lock>, N: seq<Lock>, B: seq<Lock>, C: seq<Lock>, L: seq<Lock>, right: nat,
                   Q': seq<Lock>, R: seq<Lock>, left: int, cut: bool)
    requires (cut ==> |B| > 0) && (left >= 0 ==> |pre| <= left < |pre| + |Q|) && L == pre + Q + N + B + C && right == |pre| + |Q| + |N|
    requires R == if cut then [B[0].(start := caller.end + 1, waiters := [])] + B[1..] else B
    requires Q' == if left >= 0 then Q[left - |pre| := Q[left - |pre|].(end := caller.start - 1, waiters := [])] else Q
    ensures |pre| + |Q| + |N| + |B| <= |L| &&
      ShortenLeft(if cut then ShortenRight(L, right, caller) else L, left, caller) == pre + (Q' + N + R) + C
  {
    hide PutAt, ShortenLeft, ShortenRight, LeftPart;
    if cut {
      RightShape(L, caller, pre + Q + N, B, C);
    }
    NoLeft(pre + Q + N + R + C, left, caller);
    Group(pre, Q, N, R, C);
    if left >= 0 {
      CutAt(pre, Q, N + R + C, left, caller);
      Group(pre, Q', N, R, C);
    }
  }

  lemma Group(pre: seq<Lock>, Q: seq<Lock>, N: seq<Lock>, R: seq<Lock>, C: seq<Lock>)
    ensures pre + Q + N + R + C == pre + (Q + N + R) + C && pre + Q + N + R + C == pre + Q + (N + R + C)
  {
  }

  lemma EndedGoal(w: Walk, goal: seq<Lock>, c: Lock, pre: seq<Lock>, P: seq<Lock>, B: seq<Lock>, C: seq<Lock>) returns (Q: seq<Lock>)
    requires Ended(w, goal, c, pre, P, B, C) && !(c.ty == Unlock && !w.added)
    ensures w.list == pre + Q + B + C && w.before == |pre| + |Q| && (w.right >= 0 ==> |B| > 0)
    ensures if w.left >= 0 && w.left == w.right then B[0].start < w.caller.start
            else w.left >= 0 ==> |pre| <= w.left < |pre| + |Q|
    ensures goal == LeftOver(w, |pre|, Q, B) + Fresh(w) + Rest(w, B)
  {
    if w.at < 0 {
      Q := P;
      GoalBefore(w, goal, c, pre, P, B, C);
    } else {
      Q := P + [w.caller];
      assert pre + P + [w.caller] + B + C == pre + Q + B + C;
      GoalAfter(w, goal, c, pre, P, B, C);
    }
  }

  lemma GoalBefore(w: Walk, goal: seq<Lock>, c: Lock, pre: seq<Lock>, P: seq<Lock>, B: seq<Lock>, C: seq<Lock>)
    requires Ended(w, goal, c, pre, P, B, C) && !(c.ty == Unlock && !w.added) && w.at < 0
    ensures goal == LeftOver(w, |pre|, P, B) + Fresh(w) + Rest(w, B)
  {
    hide LeftPart;
    var T := LeftOver(w, |pre|, P, B);
    assert w.right >= 0 ==> Cut(B[0], c, B[1..]) == New(c) + Rest(w, B);
    assert goal == T + (New(c) + Rest(w, B));
    Regroup(T, New(c), Rest(w, B));
  }

  lemma GoalAfter(w: Walk, goal: seq<Lock>, c: Lock, pre: seq<Lock>, P: seq<Lock>, B: seq<Lock>, C: seq<Lock>)
    requires Ended(w, goal, c, pre, P, B, C) && w.at >= 0
    ensures goal == LeftOver(w, |pre|, P + [w.caller], B) + Fresh(w) + Rest(w, B)
  {
    hide LeftPart;
    var Q, T := P + [w.caller], Trim(P, w.left >= 0, c.start);
    assert LeftOver(w, |pre|, Q, B) == T + [w.caller];
    assert T + [w.caller] + [] == T + [w.caller];
  }

  lemma NothingToDo(w: Walk, goal: seq<Lock>, c: Lock, pre: seq<Lock>, P: seq<Lock>, B: seq<Lock>, C: seq<Lock>)
    requires Ended(w, goal, c, pre, P, B, C) && c.ty == Unlock && !w.added
    ensures w.caller == c && w.list == pre + goal + C
  {
    assert pre + (P + ([] + B)) + C == pre + P + B + C;
  }

  lemma FinishGoal(w: Walk, goal: seq<Lock>, c: Lock, pre: seq<Lock>, P: seq<Lock>, B: seq<Lock>, C: seq<Lock>)
    requires Ended(w, goal, c, pre, P, B, C) && InList(w) && w.caller.ty == c.ty
    ensures Finished(w) == pre + goal + C
  {
    hide Ended, LeftOver, Fresh, Rest, InList;
    if c.ty == Unlock && !w.added {
      NothingToDo(w, goal, c, pre, P, B, C);
    } else {
      hide Finished;
      var Q := EndedGoal(w, goal, c, pre, P, B, C);
      FinishedIs(w, pre, Q, B, C);
    }
  }

  lemma {:induction false} CallerType(ar: Arithmetic, w: Walk, o: Task)
    requires w.at < w.before <= |w.list|
    ensures Passed(ar, w, o).caller.ty == w.caller.ty
    decreases !w.stop, |w.list| - w.before
  {
    if !Over(w, o) {
      CallerType(ar, Step(ar, w), o);
    }
  }

  /** On an owner's locks in order, what `posix_lock_file` leaves is what the recursive walk prescribes,
      in either arithmetic. */
  lemma WalkedIs(ar: Arithmetic, L: seq<Lock>, c: Lock)
    requires Grouped(L) && Canonical(Of(L, c.owner)) && c.start <= c.end && c.waiters == []
    ensures Walked(ar, L, c) == Grant(ar, L, c)
  {
    hide Of, Grouped, Canonical, Insert, Ended, Going, Passed, Finished;
    var pre, C := Parts(L, c.owner);
    Start(ar, L, c, pre, C);
    var w := Begin(L, c);
    var P, B := PassGoing(ar, w, Insert(ar, Of(L, c.owner), c), c, pre, [], Of(L, c.owner), C);
    PassedInList(ar, w, c.owner);
    CallerType(ar, w, c.owner);
    FinishGoal(Passed(ar, w, c.owner), Insert(ar, Of(L, c.owner), c), c, pre, P, B, C);
    GrantParts(ar, L, c, pre, C);
  }
}
