/**
 The walk of `posix_lock_file` in 32-bit arithmetic on an owner's locks in order: the sum `fl_end + 1` in
 its test for a lock beyond the requested range wraps around when the range reaches to `OFFSET_MAX`,
 as a lock to the end of a file does.
 */
module LockOverflow {
  import opened Common
  import opened LockRanges
  import opened WaitGraph

  predicate NoneOf(B: seq<Lock>, ty: Type)
  {
    forall i :: 0 <= i < |B| ==> B[i].ty != ty
  }

  /** The request reaches to the end of the address range, and the owner has a lock of the same type
      that it overlaps or touches. */
  predicate Wraps(B: seq<Lock>, c: Lock)
  {
    c.end == OFFSET_MAX && exists i :: 0 <= i < |B| && B[i].ty == c.ty && B[i].end >= c.start - 1
  }

  lemma {:induction false} AbsorbSame(B: seq<Lock>, c: Lock)
    requires Canonical(B) && InFile(B) && c.end <= OFFSET_MAX && (c.end < OFFSET_MAX || NoneOf(B, c.ty))
    ensures Absorb(Machine, B, c) == Absorb(Unbounded, B, c)
    decreases |B|
  {
    if |B| > 0 && B[0].owner == c.owner {
      var fl := B[0];
      if c.ty == fl.ty && fl.start <= c.end + 1 {
        LastOne(B);
        AbsorbSame(B[1..], c.(end := Max(fl.end, c.end)));
      } else if c.ty != fl.ty && fl.start <= c.end && fl.end <= c.end {
        AbsorbSame(B[1..], c);
      }
    }
  }

  /** Nothing comes after a lock to the end. */
  lemma LastOne(B: seq<Lock>)
    requires Canonical(B) && InFile(B) && |B| > 0
    ensures B[0].end == OFFSET_MAX ==> |B| == 1
  {
  }

  lemma {:induction false} InsertSame(B: seq<Lock>, c: Lock)
    requires Canonical(B) && InFile(B) && Owned(B, c.owner) && c.start <= c.end <= OFFSET_MAX && !Wraps(B, c)
    ensures Insert(Machine, B, c) == Insert(Unbounded, B, c)
    decreases |B|
  {
    if |B| > 0 {
      var fl := B[0];
      assert forall i :: 0 <= i < |B[1..]| ==> B[1..][i] == B[i + 1];
      LastOne(B);
      InsertSame(B[1..], c);
      if c.ty == fl.ty {
        if c.end < OFFSET_MAX && fl.end >= c.start - 1 && fl.start <= c.end + 1 {
          AbsorbSame(B[1..], Hull(fl, c));
        }
      } else if c.start <= fl.start && fl.end <= c.end {
        if c.end == OFFSET_MAX {
          LaterEnds(B, c.start);
        }
        AbsorbSame(B[1..], c.(waiters := []));
      }
    }
  }

  /** Behind a lock that begins at or after `x`, all locks end after it. */
  lemma {:induction false} LaterEnds(B: seq<Lock>, x: int)
    requires Canonical(B) && |B| > 0 && x <= B[0].start
    ensures forall i :: 0 <= i < |B| ==> B[i].end >= x
  {
    if |B| > 1 {
      LaterEnds(B[1..], x);
      assert forall i :: 0 < i < |B| ==> B[i] == B[1..][i - 1];
    }
  }

  lemma {:induction false} AbsorbBreaks(B: seq<Lock>, c: Lock)
    requires Canonical(B) && InFile(B) && Owned(B, c.owner) && c.end == OFFSET_MAX && !NoneOf(B, c.ty)
    ensures !Canonical(Absorb(Machine, B, c))
    decreases |B|
  {
    var fl := B[0];
    if c.ty == fl.ty {
      assert ([c] + B)[1] == fl;
    } else {
      assert exists i :: 0 <= i < |B[1..]| && B[1..][i].ty == c.ty by {
        var i :| 0 <= i < |B| && B[i].ty == c.ty;
        assert B[1..][i - 1].ty == c.ty;
      }
      AbsorbBreaks(B[1..], c);
    }
  }

  lemma {:induction false} InsertBreaks(B: seq<Lock>, c: Lock)
    requires Canonical(B) && InFile(B) && Owned(B, c.owner) && 0 <= c.start <= c.end && Wraps(B, c)
    ensures !Canonical(Insert(Machine, B, c))
    decreases |B|
  {
    var fl := B[0];
    var i :| 0 <= i < |B| && B[i].ty == c.ty && B[i].end >= c.start - 1;
    assert c.ty != Unlock by {
      Held(B, i);
    }
    if c.ty == fl.ty && fl.end >= c.start - 1 {
      assert (New(c) + B)[1] == fl;
    } else {
      assert B[1..][i - 1] == B[i];
      if c.ty != fl.ty && c.start <= fl.start {
        AbsorbBreaks(B[1..], c.(waiters := []));
      } else {
        InsertBreaks(B[1..], c);
        var rest := Insert(Machine, B[1..], c);
        if c.ty == fl.ty || fl.end < c.start {
          PutFirst([fl], rest);
        } else {
          PutFirst(LeftPart(fl, c), rest);
        }
      }
    }
  }

  lemma {:induction false} Held(B: seq<Lock>, i: nat)
    requires Canonical(B) && i < |B|
    ensures B[i].ty != Unlock
  {
    if i > 0 {
      Held(B[1..], i - 1);
    }
  }

  /** In 32-bit arithmetic the walk keeps the list in order, and does what it does in unbounded
      arithmetic, exactly if the request does not wrap. */
  lemma OrderKeptIff(B: seq<Lock>, c: Lock)
    requires Canonical(B) && InFile(B) && Owned(B, c.owner) && 0 <= c.start <= c.end <= OFFSET_MAX
    ensures Canonical(Insert(Machine, B, c)) <==> !Wraps(B, c)
    ensures !Wraps(B, c) ==> Insert(Machine, B, c) == Insert(Unbounded, B, c)
  {
    if Wraps(B, c) {
      InsertBreaks(B, c);
    } else {
      InsertSame(B, c);
      InsertMeans(B, c);
    }
  }

  ghost function AsSet(t: Option<Type>): set<Type>
  {
    if t == None then {} else {t.value}
  }

  lemma TypesApart(A: seq<Lock>, B: seq<Lock>, x: int)
    ensures TypesAt(A + B, x) == TypesAt(A, x) + TypesAt(B, x)
  {
    forall t | t in TypesAt(A, x) ensures t in TypesAt(A + B, x) {
      var i :| 0 <= i < |A| && Covers(A[i], x) && A[i].ty == t;
      assert (A + B)[i] == A[i];
    }
    forall t | t in TypesAt(B, x) ensures t in TypesAt(A + B, x) {
      var i :| 0 <= i < |B| && Covers(B[i], x) && B[i].ty == t;
      assert (A + B)[|A| + i] == B[i];
    }
  }

  lemma TypesOfOne(l: Lock, x: int)
    ensures TypesAt([l], x) == if Covers(l, x) then {l.ty} else {}
  {
    if Covers(l, x) {
      assert [l][0] == l;
    }
  }

  lemma TypesFirst(B: seq<Lock>, x: int)
    requires |B| > 0
    ensures TypesAt(B, x) == (if Covers(B[0], x) then {B[0].ty} else {}) + TypesAt(B[1..], x)
  {
    assert B == [B[0]] + B[1..];
    TypesApart([B[0]], B[1..], x);
    TypesOfOne(B[0], x);
  }

  lemma {:induction false} TypesOrdered(B: seq<Lock>, x: int)
    requires Canonical(B)
    ensures TypesAt(B, x) == AsSet(TypeAt(B, x))
  {
    if |B| > 0 {
      TypesFirst(B, x);
      TypesOrdered(B[1..], x);
      if Covers(B[0], x) && |B| > 1 {
        CanonicalAfter(B[1..], x);
      }
    }
  }

  /** Where the walk gives up: the first lock of the same type that the request overlaps or touches. */
  function Break(B: seq<Lock>, c: Lock): (k: nat)
    ensures k <= |B| && (k < |B| ==> B[k].ty == c.ty && B[k].end >= c.start - 1)
  {
    if |B| == 0 || (B[0].ty == c.ty && B[0].end >= c.start - 1) then 0 else 1 + Break(B[1..], c)
  }

  lemma {:induction false} BreakFirst(B: seq<Lock>, c: Lock, i: nat)
    requires i < |B| && B[i].ty == c.ty && B[i].end >= c.start - 1
    ensures Break(B, c) <= i
  {
    if i > 0 && !(B[0].ty == c.ty && B[0].end >= c.start - 1) {
      assert B[1..][i - 1] == B[i];
      BreakFirst(B[1..], c, i - 1);
    }
  }

  /** With the new lock in the list, the rest of the walk drops locks of other types up to the break. */
  lemma {:induction false} AbsorbDrops(B: seq<Lock>, c: Lock)
    requires Canonical(B) && InFile(B) && Owned(B, c.owner) && c.end == OFFSET_MAX
    requires |B| > 0 ==> c.start <= B[0].start
    ensures Absorb(Machine, B, c) == [c] + B[Break(B, c)..]
    decreases |B|
  {
    if |B| > 0 && B[0].ty != c.ty {
      AbsorbDrops(B[1..], c);
    }
  }

  /** What a request to the end of the address range comes to, at every offset: its own type on the
      range, and beside it whatever the locks from the break on hold. */
  lemma {:induction false} MachineMeans(B: seq<Lock>, c: Lock, x: int)
    requires Canonical(B) && InFile(B) && Owned(B, c.owner) && 0 <= c.start <= c.end == OFFSET_MAX
    ensures TypesAt(Insert(Machine, B, c), x) ==
      if Covers(c, x) then AsSet(Wanted(c.ty)) + TypesAt(B[Break(B, c)..], x) else TypesAt(B, x)
    decreases |B|
  {
    hide TypesAt, Absorb, Canonical;
    CanonicalRest(B);
    NewTypes(c, x);
    if |B| == 0 {
      TypesApart(New(c), B, x);
      assert B[Break(B, c)..] == B;
      NothingHeld(x);
    } else {
      var fl := B[0];
      TypesFirst(B, x);
      if Break(B, c) == 0 {
        TypesApart(New(c), B, x);
        assert B[0..] == B;
      } else {
        assert B[Break(B, c)..] == B[1..][Break(B[1..], c)..];
        BeforeRest(B, x);
        if c.ty == fl.ty || fl.end < c.start {
          MachineMeans(B[1..], c, x);
          TypesApart([fl], Insert(Machine, B[1..], c), x);
          TypesOfOne(fl, x);
        } else if fl.start < c.start || c.ty == Unlock {
          MachineMeans(B[1..], c, x);
          TypesApart(LeftPart(fl, c), Insert(Machine, B[1..], c), x);
          LeftTypes(fl, c, x);
        } else {
          var c' := c.(waiters := []);
          SameBreak(B[1..], c, c');
          AbsorbDrops(B[1..], c');
          TypesApart([c'], B[Break(B, c)..], x);
          if !Covers(c, x) {
            HeldInside(B, c, 0, x);
            HeldInside(B, c, Break(B, c), x);
            assert B[0..] == B;
          }
          TypesOfOne(c', x);
        }
      }
    }
  }

  lemma CanonicalRest(B: seq<Lock>)
    requires Canonical(B)
    ensures |B| > 0 ==> Canonical(B[1..]) && WellFormed(B[0])
    ensures |B| > 1 ==> B[0].end < B[1].start
  {
  }

  lemma {:induction false} SameBreak(B: seq<Lock>, c: Lock, d: Lock)
    requires c.ty == d.ty && c.start == d.start
    ensures Break(B, c) == Break(B, d)
  {
    if |B| > 0 {
      SameBreak(B[1..], c, d);
    }
  }

  lemma NothingHeld(x: int)
    ensures TypesAt([], x) == {}
  {
  }

  lemma NewTypes(c: Lock, x: int)
    ensures TypesAt(New(c), x) == if Covers(c, x) then AsSet(Wanted(c.ty)) else {}
  {
    if c.ty == Unlock {
      NothingHeld(x);
    } else {
      TypesOfOne(c.(waiters := []), x);
    }
  }

  lemma LeftTypes(fl: Lock, c: Lock, x: int)
    requires fl.end >= c.start
    ensures TypesAt(LeftPart(fl, c), x) == if Covers(fl, x) && x < c.start then {fl.ty} else {}
  {
    if fl.start < c.start {
      TypesOfOne(fl.(end := c.start - 1, waiters := []), x);
    } else {
      NothingHeld(x);
    }
  }

  lemma HeldInside(B: seq<Lock>, c: Lock, k: nat, x: int)
    requires Canonical(B) && InFile(B) && k <= |B| && |B| > 0 && c.start <= B[0].start && c.end == OFFSET_MAX && !Covers(c, x)
    ensures TypesAt(B[k..], x) == {}
  {
    forall i | 0 <= i < |B| ensures !Covers(B[i], x) {
      if i > 0 {
        InOrder(B, 0, i);
      }
    }
  }

  /** An offset before the locks behind the first one is held by none of them. */
  lemma BeforeRest(B: seq<Lock>, x: int)
    requires Canonical(B) && |B| > 0
    ensures |B| > 1 && x < B[1].start ==> TypesAt(B[1..], x) == {}
  {
    if |B| > 1 && x < B[1].start {
      TypesOrdered(B[1..], x);
      CanonicalAfter(B[1..], x);
    }
  }

  /** The request wraps, and behind the lock where the walk gives up there is one of another type. */
  predicate Stale(B: seq<Lock>, c: Lock)
  {
    c.end == OFFSET_MAX &&
    exists i, j :: 0 <= i < j < |B| && B[i].ty == c.ty && B[i].end >= c.start - 1 && B[j].ty != c.ty
  }

  /** What a request should come to: its own type on the range, and no change elsewhere. */
  ghost predicate Overwrites(B: seq<Lock>, c: Lock, B': seq<Lock>)
  {
    forall x :: TypesAt(B', x) == if Covers(c, x) then AsSet(Wanted(c.ty)) else TypesAt(B, x)
  }

  /** In 32-bit arithmetic a request overwrites its range, and nothing else, exactly if it does not
      leave a stale lock behind the break. */
  lemma OverwritesIff(B: seq<Lock>, c: Lock)
    requires Canonical(B) && InFile(B) && Owned(B, c.owner) && 0 <= c.start <= c.end <= OFFSET_MAX
    ensures Overwrites(B, c, Insert(Machine, B, c)) <==> !Stale(B, c)
  {
    hide TypesAt, Canonical, Insert, Break;
    if Stale(B, c) {
      StaysHeld(B, c);
    } else {
      forall x ensures TypesAt(Insert(Machine, B, c), x) == if Covers(c, x) then AsSet(Wanted(c.ty)) else TypesAt(B, x) {
        if c.end == OFFSET_MAX {
          MachineMeans(B, c, x);
          if Covers(c, x) {
            BehindBreak(B, c, x);
          }
        } else {
          NotToTheEnd(B, c, x);
        }
      }
    }
  }

  lemma NotToTheEnd(B: seq<Lock>, c: Lock, x: int)
    requires Canonical(B) && InFile(B) && Owned(B, c.owner) && c.start <= c.end < OFFSET_MAX
    ensures TypesAt(Insert(Machine, B, c), x) == if Covers(c, x) then AsSet(Wanted(c.ty)) else TypesAt(B, x)
  {
    InsertSame(B, c);
    InsertMeans(B, c);
    TypesOrdered(B, x);
    TypesOrdered(Insert(Unbounded, B, c), x);
  }

  /** Nothing stale: from the break on all locks have the type of the request. */
  lemma BehindBreak(B: seq<Lock>, c: Lock, x: int)
    requires Canonical(B) && !Stale(B, c) && c.end == OFFSET_MAX && Covers(c, x)
    ensures AsSet(Wanted(c.ty)) + TypesAt(B[Break(B, c)..], x) == AsSet(Wanted(c.ty))
  {
    var k := Break(B, c);
    forall i | k <= i < |B| ensures B[i].ty == c.ty && c.ty != Unlock {
      Held(B, k);
    }
  }

  /** A lock of another type behind the break is still held. */
  lemma StaysHeld(B: seq<Lock>, c: Lock)
    requires Canonical(B) && InFile(B) && Owned(B, c.owner) && 0 <= c.start <= c.end && Stale(B, c)
    ensures !Overwrites(B, c, Insert(Machine, B, c))
  {
    hide Canonical, Insert;
    var i, j :| 0 <= i < j < |B| && B[i].ty == c.ty && B[i].end >= c.start - 1 && B[j].ty != c.ty;
    BreakFirst(B, c, i);
    var x, k := B[j].start, Break(B, c);
    InOrder(B, i, j);
    MachineMeans(B, c, x);
    assert B[k..][j - k] == B[j];
    assert B[j].ty in TypesAt(B[k..], x);
  }

  lemma {:induction false} InOrder(B: seq<Lock>, i: nat, j: nat)
    requires Canonical(B) && i < j < |B|
    ensures B[i].end < B[j].start <= B[j].end
  {
    if i > 0 {
      InOrder(B[1..], i - 1, j - 1);
    } else if j > 1 {
      InOrder(B[1..], 0, j - 1);
    }
  }

  /** Asking for a read lock to the end of the file leaves a write lock in place. */
  lemma DowngradeFails(o: Task)
    ensures var r, w, c := Lock(o, Read, 0, 9, []), Lock(o, Write, 20, 30, []), Lock(o, Read, 5, OFFSET_MAX, []);
      Insert(Machine, [r, w], c) == [c, r, w] && TypesAt([c, r, w], 25) == {Read, Write}
  {
    var r, w, c := Lock(o, Read, 0, 9, []), Lock(o, Write, 20, 30, []), Lock(o, Read, 5, OFFSET_MAX, []);
    var L := [c, r, w];
    assert L[0].ty == Read && L[2].ty == Write && Covers(L[0], 25) && Covers(L[2], 25);
  }

  /** Locking a whole file twice leaves two locks where there should be one. */
  lemma TwiceTheWholeFile(o: Task)
    ensures var l := Lock(o, Read, 0, OFFSET_MAX, []);
      Insert(Unbounded, [l], l) == [l] && Insert(Machine, [l], l) == [l, l]
  {
  }

  /** Then unlocking a part of the file does not unlock it. */
  lemma UnlockFails(o: Task)
    ensures var l, u := Lock(o, Read, 0, OFFSET_MAX, []), Lock(o, Unlock, 0, 99, []);
      TypesAt(Insert(Machine, [l, l], u), 50) == {Read}
  {
    var l, u := Lock(o, Read, 0, OFFSET_MAX, []), Lock(o, Unlock, 0, 99, []);
    var L := [l.(start := 100), l];
    assert Insert(Machine, [l, l], u) == L;
    assert L[1].ty == Read && Covers(L[1], 50);
  }
}
