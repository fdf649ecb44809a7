/**
 POSIX record locks of `fs/locks.c` on the locks of one owner in one file: a sorted list of
 ranges that `posix_lock_file` splits, merges and replaces.

 The walk comes in two kinds: with the sum `fl_end + 1` of the code taken in 32 bits, where it can
 overflow, and without bounds. All other sums of the code stay in range.
 */
module LockRanges {
  import opened Common
  import opened WaitGraph

  datatype Type = Read | Write | Unlock

  /** What a caller asks for, or what a sleeping process is waiting for. */
  datatype Request = Request(owner: Task, ty: Type, start: int, end: int)

  /** `struct file_lock` on a file's list, with the requests on its block list. */
  datatype Lock = Lock(owner: Task, ty: Type, start: int, end: int, waiters: seq<Request>)

  const OFFSET_MAX := 0x7FFF_FFFF
  const OFFSET_MIN := -0x8000_0000

  /** How sums are taken: without bounds, or in the 32 bits of the machine. */
  datatype Arithmetic = Unbounded | Machine

  /** The offset behind `end`, in the one place where the code can overflow it. */
  function Next(ar: Arithmetic, end: int): int
  {
    if ar == Machine && end == OFFSET_MAX then OFFSET_MIN else end + 1
  }

  predicate Covers(l: Lock, x: int)
  {
    l.start <= x <= l.end
  }

  /** The lock type held at an offset. */
  function TypeAt(B: seq<Lock>, x: int): Option<Type>
  {
    if |B| == 0 then None else if Covers(B[0], x) then Some(B[0].ty) else TypeAt(B[1..], x)
  }

  /** The types held at an offset; a list in order holds one at most. */
  ghost function TypesAt(B: seq<Lock>, x: int): set<Type>
  {
    set i | 0 <= i < |B| && Covers(B[i], x) :: B[i].ty
  }

  /** Offsets that a request can have. */
  predicate InFile(B: seq<Lock>)
  {
    forall i :: 0 <= i < |B| ==> 0 <= B[i].start && B[i].end <= OFFSET_MAX
  }

  predicate WellFormed(l: Lock)
  {
    l.start <= l.end && l.ty != Unlock
  }

  /** `b` comes after `a`, and not so close that the two should be one lock. */
  predicate Gap(a: Lock, b: Lock)
  {
    a.end < b.start && (a.ty == b.ty ==> a.end + 1 < b.start)
  }

  /** Sorted, disjoint, and no two adjacent ranges of the same type. */
  predicate Canonical(B: seq<Lock>)
  {
    |B| == 0 || (WellFormed(B[0]) && (|B| > 1 ==> Gap(B[0], B[1])) && Canonical(B[1..]))
  }

  function New(c: Lock): seq<Lock>
  {
    if c.ty == Unlock then [] else [c.(waiters := [])]
  }

  /** One lock from the lower start to the higher end. */
  function Hull(fl: Lock, c: Lock): Lock
  {
    fl.(start := Min(fl.start, c.start), end := Max(fl.end, c.end))
  }

  /** The part of a lock before `c`; whoever waited for the lock is woken. */
  function LeftPart(fl: Lock, c: Lock): seq<Lock>
  {
    if fl.start < c.start then [fl.(end := c.start - 1, waiters := [])] else []
  }

  /** What the walk over the owner's locks comes to, before the new lock has been put into the
      list. The locks of other owners that follow are left alone. */
  function Insert(ar: Arithmetic, B: seq<Lock>, c: Lock): seq<Lock>
  {
    if |B| == 0 || B[0].owner != c.owner then New(c) + B
    else
      var fl := B[0];
      if c.ty == fl.ty then
        if fl.end < c.start - 1 then [fl] + Insert(ar, B[1..], c)
        else if fl.start > Next(ar, c.end) then New(c) + B
        else Absorb(ar, B[1..], Hull(fl, c))
      else if fl.end < c.start then [fl] + Insert(ar, B[1..], c)
      else if fl.start > c.end then New(c) + B
      else if fl.end > c.end then LeftPart(fl, c) + New(c) + [fl.(start := c.end + 1, waiters := [])] + B[1..]
      else if fl.start < c.start || c.ty == Unlock then LeftPart(fl, c) + Insert(ar, B[1..], c)
      else Absorb(ar, B[1..], c.(waiters := []))
  }

  /** The rest of the walk once the new lock `c` is in the list, in front of `B`. */
  function Absorb(ar: Arithmetic, B: seq<Lock>, c: Lock): seq<Lock>
  {
    if |B| == 0 || B[0].owner != c.owner then [c] + B
    else
      var fl := B[0];
      if c.ty == fl.ty then
        if fl.start > Next(ar, c.end) then [c] + B
        else Absorb(ar, B[1..], c.(end := Max(fl.end, c.end)))
      else if fl.start > c.end then [c] + B
      else if fl.end > c.end then [c, fl.(start := c.end + 1, waiters := [])] + B[1..]
      else Absorb(ar, B[1..], c)
  }

  /** All locks of a list belong to one owner. */
  predicate Owned(B: seq<Lock>, o: Task)
  {
    forall i :: 0 <= i < |B| ==> B[i].owner == o
  }

  lemma {:induction false} CanonicalAfter(B: seq<Lock>, x: int)
    requires Canonical(B) && |B| > 0 && x < B[0].start
    ensures TypeAt(B, x) == None
  {
    if |B| > 1 {
      CanonicalAfter(B[1..], x);
    }
  }

  /** Room for `c`, or a part of it, right after `p`. */
  predicate Fits(p: Lock, B: seq<Lock>)
  {
    |B| == 0 || Gap(p, B[0])
  }

  lemma {:induction false} AbsorbMeans(B: seq<Lock>, c: Lock)
    requires Canonical(B) && Owned(B, c.owner) && WellFormed(c) && (|B| > 0 ==> c.start < B[0].start)
    ensures Canonical(Absorb(Unbounded, B, c))
    ensures |Absorb(Unbounded, B, c)| > 0 && Absorb(Unbounded, B, c)[0].start == c.start && Absorb(Unbounded, B, c)[0].ty == c.ty
    ensures forall x :: TypeAt(Absorb(Unbounded, B, c), x) == if Covers(c, x) then Some(c.ty) else TypeAt(B, x)
    decreases |B|
  {
    if |B| > 0 {
      var fl := B[0];
      if c.ty == fl.ty && fl.start <= c.end + 1 {
        AbsorbMeans(B[1..], c.(end := Max(fl.end, c.end)));
      } else if c.ty != fl.ty && fl.start <= c.end && fl.end <= c.end {
        AbsorbMeans(B[1..], c);
      } else if c.ty != fl.ty && fl.start <= c.end {
        var fl' := fl.(start := c.end + 1, waiters := []);
        assert ([c, fl'] + B[1..])[1..] == [fl'] + B[1..] && ([fl'] + B[1..])[1..] == B[1..];
      } else {
        assert ([c] + B)[1..] == B;
      }
    } else {
      assert ([c] + B)[1..] == B;
    }
  }

  /** What the caller's range becomes: the requested type, or nothing. */
  function Wanted(ty: Type): Option<Type>
  {
    if ty == Unlock then None else Some(ty)
  }

  lemma PutFirst(a: seq<Lock>, B: seq<Lock>)
    requires |a| == 1
    ensures |a + B| == 1 + |B| && (a + B)[0] == a[0] && (a + B)[1..] == B
    ensures Canonical(a + B) <==> WellFormed(a[0]) && Fits(a[0], B) && Canonical(B)
    ensures forall x :: TypeAt(a + B, x) == if Covers(a[0], x) then Some(a[0].ty) else TypeAt(B, x)
  {
    assert (a + B)[1..] == B;
  }

  lemma PutNew(c: Lock, B: seq<Lock>)
    requires Canonical(B) && c.start <= c.end && (|B| > 0 ==> c.end < B[0].start && (c.ty == B[0].ty ==> c.end + 1 < B[0].start))
    ensures Canonical(New(c) + B)
    ensures forall x :: TypeAt(New(c) + B, x) == if Covers(c, x) then Wanted(c.ty) else TypeAt(B, x)
    ensures forall p: Lock :: Before(p, c) && Fits(p, B) ==> Fits(p, New(c) + B)
  {
    if c.ty == Unlock {
      assert New(c) + B == B;
      forall x | Covers(c, x) && |B| > 0 ensures TypeAt(B, x) == None {
        CanonicalAfter(B, x);
      }
    } else {
      PutFirst(New(c), B);
    }
  }

  /** Lock `p` ends before `c`, and not adjacent to it if of the same type. */
  predicate Before(p: Lock, c: Lock)
  {
    p.end < c.start && (p.ty == c.ty ==> p.end + 1 < c.start)
  }

  /** A lock that reaches beyond `c` loses the part that `c` covers. */
  lemma CutRight(B: seq<Lock>, c: Lock)
    requires Canonical(B) && |B| > 0 && c.start <= c.end && c.ty != B[0].ty
    requires c.start <= B[0].end && B[0].start <= c.end < B[0].end
    ensures var r := Cut(B[0], c, B[1..]);
      Canonical(r) && (forall x :: x >= c.start ==> TypeAt(r, x) == if Covers(c, x) then Wanted(c.ty) else TypeAt(B, x)) &&
      (forall p: Lock :: Before(p, c) ==> Fits(p, r)) && (forall x :: x < c.start ==> TypeAt(r, x) == None)
  {
    var fl := B[0].(start := c.end + 1, waiters := []);
    PutFirst([fl], B[1..]);
    PutFirst([B[0]], B[1..]);
    assert [B[0]] + B[1..] == B;
    hide TypeAt, New;
    PutNew(c, [fl] + B[1..]);
    forall x | x < c.start ensures TypeAt([fl] + B[1..], x) == None {
      CanonicalAfter([fl] + B[1..], x);
    }
  }

  /** The walk overwrites exactly the requested range of the owner's type map, and leaves a
      canonical list. */
  lemma {:induction false} InsertMeans(B: seq<Lock>, c: Lock)
    requires Canonical(B) && Owned(B, c.owner) && c.start <= c.end
    ensures Canonical(Insert(Unbounded, B, c))
    ensures forall x :: TypeAt(Insert(Unbounded, B, c), x) == if Covers(c, x) then Wanted(c.ty) else TypeAt(B, x)
    ensures forall p: Lock :: Before(p, c) && Fits(p, B) ==> Fits(p, Insert(Unbounded, B, c))
    decreases |B|, 1
  {
    if |B| == 0 {
      PutNew(c, B);
    } else {
      var fl := B[0];
      if (if c.ty == fl.ty then fl.end < c.start - 1 else fl.end < c.start) {
        InsertMeans(B[1..], c);
        PutFirst([fl], Insert(Unbounded, B[1..], c));
      } else if (if c.ty == fl.ty then fl.start > c.end + 1 else fl.start > c.end) {
        PutNew(c, B);
      } else if c.ty == fl.ty {
        AbsorbMeans(B[1..], Hull(fl, c));
      } else if fl.end > c.end {
        InsertCut(B, c);
      } else {
        InsertOverlap(B, c);
      }
    }
  }

  /** The lock `fl` with its head replaced by `c`, in front of `B`. */
  function Cut(fl: Lock, c: Lock, B: seq<Lock>): seq<Lock>
  {
    New(c) + ([fl.(start := c.end + 1, waiters := [])] + B)
  }

  lemma InsertIsCut(ar: Arithmetic, B: seq<Lock>, c: Lock)
    requires |B| > 0 && B[0].owner == c.owner && c.ty != B[0].ty
    requires c.start <= B[0].end && B[0].start <= c.end < B[0].end
    ensures Insert(ar, B, c) == LeftPart(B[0], c) + Cut(B[0], c, B[1..])
  {
  }

  lemma InsertCut(B: seq<Lock>, c: Lock)
    requires Canonical(B) && Owned(B, c.owner) && c.start <= c.end && |B| > 0 && c.ty != B[0].ty
    requires c.start <= B[0].end && B[0].start <= c.end < B[0].end
    ensures Canonical(Insert(Unbounded, B, c))
    ensures forall x :: TypeAt(Insert(Unbounded, B, c), x) == if Covers(c, x) then Wanted(c.ty) else TypeAt(B, x)
    ensures forall p: Lock :: Before(p, c) && Fits(p, B) ==> Fits(p, Insert(Unbounded, B, c))
  {
    hide Insert, Cut, New, TypeAt;
    var fl, r := B[0], Cut(B[0], c, B[1..]);
    InsertIsCut(Unbounded, B, c);
    CutRight(B, c);
    assert B == [fl] + B[1..];
    PutFirst([fl], B[1..]);
    forall x | x < fl.start ensures TypeAt(B, x) == None {
      CanonicalAfter(B, x);
    }
    if fl.start < c.start {
      PutFirst(LeftPart(fl, c), r);
    } else {
      assert LeftPart(fl, c) + r == r;
    }
  }

  lemma {:induction false} InsertOverlap(B: seq<Lock>, c: Lock)
    requires Canonical(B) && Owned(B, c.owner) && c.start <= c.end && |B| > 0 && c.ty != B[0].ty
    requires c.start <= B[0].end <= c.end && B[0].start <= c.end
    ensures Canonical(Insert(Unbounded, B, c))
    ensures forall x :: TypeAt(Insert(Unbounded, B, c), x) == if Covers(c, x) then Wanted(c.ty) else TypeAt(B, x)
    ensures forall p: Lock :: Before(p, c) && Fits(p, B) ==> Fits(p, Insert(Unbounded, B, c))
    decreases |B|, 0
  {
    var fl := B[0];
    if fl.start < c.start {
      InsertMeans(B[1..], c);
      PutFirst(LeftPart(fl, c), Insert(Unbounded, B[1..], c));
    } else if c.ty == Unlock {
      InsertMeans(B[1..], c);
      assert LeftPart(fl, c) + Insert(Unbounded, B[1..], c) == Insert(Unbounded, B[1..], c);
    } else {
      AbsorbMeans(B[1..], c.(waiters := []));
    }
  }

  lemma {:induction false} AbsorbStep(ar: Arithmetic, B: seq<Lock>, c: Lock)
    requires |B| > 0 && B[0].owner == c.owner
    ensures var fl := B[0];
      Absorb(ar, B, c) ==
      if c.ty == fl.ty && fl.start <= Next(ar, c.end) then Absorb(ar, B[1..], c.(end := Max(fl.end, c.end)))
      else if c.ty == fl.ty || fl.start > c.end then [c] + B
      else if fl.end > c.end then [c, fl.(start := c.end + 1, waiters := [])] + B[1..]
      else Absorb(ar, B[1..], c)
  {
    hide Next, Max;
  }

  lemma AbsorbNone(ar: Arithmetic, B: seq<Lock>, c: Lock)
    requires |B| > 0 ==> B[0].owner != c.owner
    ensures Absorb(ar, B, c) == [c] + B
  {
  }

  /** What follows the owner's locks is carried along unchanged. */
  lemma {:induction false} AbsorbSegment(ar: Arithmetic, B: seq<Lock>, C: seq<Lock>, c: Lock)
    requires Owned(B, c.owner) && (|C| > 0 ==> C[0].owner != c.owner)
    ensures Absorb(ar, B + C, c) == Absorb(ar, B, c) + C
    decreases |B|
  {
    hide Absorb, Next, Max;
    if |B| == 0 {
      assert B + C == C;
      AbsorbNone(ar, B, c);
      AbsorbNone(ar, C, c);
    } else {
      assert (B + C)[1..] == B[1..] + C && (B + C)[0] == B[0];
      var fl := B[0];
      AbsorbStep(ar, B, c);
      AbsorbStep(ar, B + C, c);
      if c.ty == fl.ty && fl.start <= Next(ar, c.end) {
        AbsorbSegment(ar, B[1..], C, c.(end := Max(fl.end, c.end)));
      } else if c.ty == fl.ty || fl.start > c.end {
        Regroup([c], B, C);
      } else if fl.end > c.end {
        Regroup([c, fl.(start := c.end + 1, waiters := [])], B[1..], C);
      } else {
        AbsorbSegment(ar, B[1..], C, c);
      }
    }
  }

  /** How the walk deals with one lock. */
  datatype Move = PassOver | PutHere | Merge | SplitOff | ShortenIt | Replace

  function MoveOf(ar: Arithmetic, fl: Lock, c: Lock): Move
  {
    if c.ty == fl.ty then
      if fl.end < c.start - 1 then PassOver else if fl.start > Next(ar, c.end) then PutHere else Merge
    else if fl.end < c.start then PassOver
    else if fl.start > c.end then PutHere
    else if fl.end > c.end then SplitOff
    else if fl.start < c.start || c.ty == Unlock then ShortenIt
    else Replace
  }

  lemma {:induction false} InsertStep(ar: Arithmetic, B: seq<Lock>, c: Lock)
    requires |B| > 0 && B[0].owner == c.owner
    ensures Insert(ar, B, c) ==
      match MoveOf(ar, B[0], c)
      case PassOver => [B[0]] + Insert(ar, B[1..], c)
      case PutHere => New(c) + B
      case Merge => Absorb(ar, B[1..], Hull(B[0], c))
      case SplitOff => LeftPart(B[0], c) + New(c) + [B[0].(start := c.end + 1, waiters := [])] + B[1..]
      case ShortenIt => LeftPart(B[0], c) + Insert(ar, B[1..], c)
      case Replace => Absorb(ar, B[1..], c.(waiters := []))
  {
    hide Absorb, Next, Hull, New, LeftPart;
  }

  lemma InsertNone(ar: Arithmetic, B: seq<Lock>, c: Lock)
    requires |B| > 0 ==> B[0].owner != c.owner
    ensures Insert(ar, B, c) == New(c) + B
  {
  }

  lemma {:induction false} InsertSegment(ar: Arithmetic, B: seq<Lock>, C: seq<Lock>, c: Lock)
    requires Owned(B, c.owner) && (|C| > 0 ==> C[0].owner != c.owner)
    ensures Insert(ar, B + C, c) == Insert(ar, B, c) + C
    decreases |B|
  {
    hide Absorb, Insert, New, LeftPart, MoveOf, Hull;
    if |B| == 0 {
      assert B + C == C;
      InsertNone(ar, B, c);
      InsertNone(ar, C, c);
    } else {
      assert (B + C)[1..] == B[1..] + C && (B + C)[0] == B[0];
      var fl := B[0];
      HullOwner(fl, c);
      InsertStep(ar, B, c);
      InsertStep(ar, B + C, c);
      match MoveOf(ar, fl, c)
      case PassOver =>
        InsertSegment(ar, B[1..], C, c);
        Regroup([fl], Insert(ar, B[1..], c), C);
      case PutHere => Regroup(New(c), B, C);
      case Merge => AbsorbSegment(ar, B[1..], C, Hull(fl, c));
      case SplitOff => Regroup(LeftPart(fl, c) + New(c) + [fl.(start := c.end + 1, waiters := [])], B[1..], C);
      case ShortenIt =>
        InsertSegment(ar, B[1..], C, c);
        Regroup(LeftPart(fl, c), Insert(ar, B[1..], c), C);
      case Replace => AbsorbSegment(ar, B[1..], C, c.(waiters := []));
    }
  }

  lemma Regroup(A: seq<Lock>, B: seq<Lock>, C: seq<Lock>)
    ensures A + (B + C) == (A + B) + C
  {
  }

  lemma HullOwner(fl: Lock, c: Lock)
    ensures Hull(fl, c).owner == fl.owner
  {
  }

  lemma {:induction false} InsertOwned(ar: Arithmetic, B: seq<Lock>, c: Lock)
    requires Owned(B, c.owner)
    ensures Owned(Insert(ar, B, c), c.owner)
    decreases |B|
  {
    if |B| > 0 {
      InsertOwned(ar, B[1..], c);
      AbsorbOwned(ar, B[1..], Hull(B[0], c));
      AbsorbOwned(ar, B[1..], c.(waiters := []));
    }
  }

  lemma {:induction false} AbsorbOwned(ar: Arithmetic, B: seq<Lock>, c: Lock)
    requires Owned(B, c.owner)
    ensures Owned(Absorb(ar, B, c), c.owner)
    decreases |B|
  {
    if |B| > 0 {
      AbsorbOwned(ar, B[1..], c);
      AbsorbOwned(ar, B[1..], c.(end := Max(B[0].end, c.end)));
    }
  }

  predicate Overlap(start: int, end: int, l: Lock)
  {
    end >= l.start && l.end >= start
  }

  /** The request has to wait for lock `l`. */
  predicate Conflict(r: Request, l: Lock)
  {
    r.owner != l.owner && Overlap(r.start, r.end, l) &&
    match r.ty
    case Read => l.ty == Write
    case Write => true
    case Unlock => false
  }

  function AsLock(r: Request): Lock
  {
    Lock(r.owner, r.ty, r.start, r.end, [])
  }

  /** Two owners share a byte only if both just read it. */
  predicate Sharable(a: Lock, b: Lock, x: int)
  {
    a.owner != b.owner && Covers(a, x) && Covers(b, x) ==> a.ty == Read && b.ty == Read
  }

  /** Some byte that is asked for cannot be shared with the owner of lock `l`. */
  ghost predicate Bars(l: Lock, r: Request)
  {
    r.ty != Unlock && exists x :: !Sharable(AsLock(r), l, x)
  }

  /** Lock `l` has no byte, its end being before its start, but the request spans both. */
  predicate Spurious(l: Lock, r: Request)
  {
    l.start > l.end && r.start <= l.end && l.start <= r.end && r.owner != l.owner && (r.ty == Write || (r.ty == Read && l.ty == Write))
  }

  ghost predicate Blocks(l: Lock, r: Request)
  {
    Bars(l, r) || Spurious(l, r)
  }

  /** The test of two ranges and two types is the question about bytes, except for a lock without bytes. */
  lemma ConflictIff(r: Request, l: Lock)
    requires r.start <= r.end && l.ty != Unlock
    ensures Conflict(r, l) <==> Blocks(l, r)
    ensures l.start <= l.end ==> (Conflict(r, l) <==> Bars(l, r))
    ensures r.ty == Unlock ==> !Conflict(r, l)
  {
    if Conflict(r, l) && l.start <= l.end {
      assert !Sharable(AsLock(r), l, Max(r.start, l.start));
    }
  }

  /** Everybody on the block list of `l` asks for some byte and really has to wait for `l`. */
  predicate Awaited(l: Lock)
  {
    forall a :: 0 <= a < |l.waiters| ==> l.waiters[a].start <= l.waiters[a].end && Conflict(l.waiters[a], l)
  }

  predicate AllAwaited(B: seq<Lock>)
  {
    forall i :: 0 <= i < |B| ==> Awaited(B[i])
  }

  /** Locks that grow keep their waiters, locks that shrink or change type wake them: nobody is
      left asleep behind a lock that no longer stands in the way. */
  lemma {:induction false} InsertAwaited(ar: Arithmetic, B: seq<Lock>, c: Lock)
    requires AllAwaited(B) && c.start <= c.end
    ensures AllAwaited(Insert(ar, B, c))
    decreases |B|
  {
    if |B| > 0 {
      InsertAwaited(ar, B[1..], c);
      AbsorbAwaited(ar, B[1..], c.(waiters := []));
      if c.ty == B[0].ty {
        assert Awaited(Hull(B[0], c));
        AbsorbAwaited(ar, B[1..], Hull(B[0], c));
      }
    }
  }

  lemma {:induction false} AbsorbAwaited(ar: Arithmetic, B: seq<Lock>, c: Lock)
    requires AllAwaited(B) && Awaited(c)
    ensures AllAwaited(Absorb(ar, B, c))
    decreases |B|
  {
    if |B| > 0 {
      AbsorbAwaited(ar, B[1..], c);
      assert Awaited(c.(end := Max(B[0].end, c.end)));
      AbsorbAwaited(ar, B[1..], c.(end := Max(B[0].end, c.end)));
    }
  }

  /** Same owner, type and range; the block lists may differ. */
  predicate SameRange(a: Lock, b: Lock)
  {
    a.(waiters := []) == b.(waiters := [])
  }

  predicate SameRanges(A: seq<Lock>, B: seq<Lock>)
  {
    |A| == |B| && forall i :: 0 <= i < |A| ==> SameRange(A[i], B[i])
  }

  /** Canonical lists are normal forms: the list is determined by the map it stands for. */
  lemma {:induction false} SameMapSameRanges(A: seq<Lock>, B: seq<Lock>, o: Task)
    requires Canonical(A) && Canonical(B) && Owned(A, o) && Owned(B, o)
    requires forall x :: TypeAt(A, x) == TypeAt(B, x)
    ensures SameRanges(A, B)
    decreases |A| + |B|
  {
    if |A| > 0 {
      assert TypeAt(A, A[0].start).Some?;
      if |B| > 0 {
        FirstAgrees(A, B);
        FirstAgrees(B, A);
        forall x ensures TypeAt(A[1..], x) == TypeAt(B[1..], x) {
          if x <= A[0].end {
            AfterFirst(A, x);
            AfterFirst(B, x);
          } else {
            assert TypeAt(A, x) == TypeAt(B, x);
          }
        }
        SameMapSameRanges(A[1..], B[1..], o);
      }
    } else if |B| > 0 {
      assert TypeAt(B, B[0].start).Some?;
    }
  }

  lemma AfterFirst(A: seq<Lock>, x: int)
    requires Canonical(A) && |A| > 0 && x <= A[0].end
    ensures TypeAt(A[1..], x) == None
  {
    if |A| > 1 {
      CanonicalAfter(A[1..], x);
    }
  }

  /** The first lock of `A` starts no earlier and ends no later than the first lock of `B`. */
  lemma FirstAgrees(A: seq<Lock>, B: seq<Lock>)
    requires Canonical(A) && Canonical(B) && |A| > 0 && |B| > 0
    requires forall x :: TypeAt(A, x) == TypeAt(B, x)
    ensures A[0].start >= B[0].start && A[0].ty == B[0].ty
    ensures A[0].end <= B[0].end
  {
    assert TypeAt(A, A[0].start) == Some(A[0].ty);
    assert TypeAt(B, B[0].start) == Some(B[0].ty);
    if A[0].start < B[0].start {
      CanonicalAfter(B, A[0].start);
    } else if B[0].start < A[0].start {
      CanonicalAfter(A, B[0].start);
    }
    if B[0].end < A[0].end {
      var x := B[0].end + 1;
      assert TypeAt(B, x) == TypeAt(B[1..], x) && TypeAt(B, x) == TypeAt(A, x) == Some(A[0].ty);
      if |B| > 1 && x < B[1].start {
        CanonicalAfter(B[1..], x);
      }
    }
  }
}
