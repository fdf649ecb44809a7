/**
 System V semaphores, `ipc/sem.c`: multi-operation `semop` by trial and rollback, a queue of
 pending operations driven to a fixpoint, and per-process undo records.

 `short` fields are integers in -32768..32767; where the C code can overflow one, `Short`
 says so.
 */
module SysvSem {

  const SEMVMX := 32767
  const SEMOPM := 32

  type Pid = int

  /** `struct sembuf`, with the two flags that matter. */
  datatype Sembuf = Sembuf(num: nat, op: int, nowait: bool, undo: bool)

  datatype Outcome = Go | Sleep | Again | Range

  /** The value a `short` holds after storing `x` in it. */
  function Short(x: int): (r: int)
    ensures -32768 <= r <= 32767 && (r - x) % 65536 == 0
    ensures r == x <==> -32768 <= x <= 32767
  {
    (x + 32768) % 65536 - 32768
  }

  predicate InBounds(sops: seq<Sembuf>, nsems: nat)
  {
    forall i :: 0 <= i < |sops| ==> sops[i].num < nsems && -32768 <= sops[i].op <= 32767
  }

  predicate InRange(vals: seq<int>)
  {
    forall i :: 0 <= i < |vals| ==> 0 <= vals[i] <= SEMVMX
  }

  /** Values after all the operations, whether they may be done or not. */
  function Adds(vals: seq<int>, sops: seq<Sembuf>): (r: seq<int>)
    requires InBounds(sops, |vals|)
    ensures |r| == |vals|
  {
    if |sops| == 0 then vals
    else
      var before, sop := Adds(vals, sops[..|sops| - 1]), sops[|sops| - 1];
      before[sop.num := before[sop.num] + sop.op]
  }

  /** One operation on a semaphore with value `v`. */
  function Verdict(v: int, sop: Sembuf): Outcome
  {
    if sop.op + v > SEMVMX then Range
    else if (sop.op == 0 && v != 0) || v + sop.op < 0 then (if sop.nowait then Again else Sleep)
    else Go
  }

  /** The verdict of the first operation, from `i` on, that cannot be done right after those
      before it. */
  function TryFrom(vals: seq<int>, sops: seq<Sembuf>, i: nat): Outcome
    requires InBounds(sops, |vals|) && i <= |sops|
    decreases |sops| - i
  {
    if i == |sops| then Go
    else
      var w := Verdict(Adds(vals, sops[..i])[sops[i].num], sops[i]);
      if w == Go then TryFrom(vals, sops, i + 1) else w
  }

  function Try(vals: seq<int>, sops: seq<Sembuf>): Outcome
    requires InBounds(sops, |vals|)
  {
    TryFrom(vals, sops, 0)
  }

  /** Sum of the operations on semaphore `n`. */
  function Sum(sops: seq<Sembuf>, n: nat): int
  {
    if |sops| == 0 then 0
    else Sum(sops[..|sops| - 1], n) + if sops[|sops| - 1].num == n then sops[|sops| - 1].op else 0
  }

  lemma {:induction false} AddsIsSum(vals: seq<int>, sops: seq<Sembuf>, n: nat)
    requires InBounds(sops, |vals|) && n < |vals|
    ensures Adds(vals, sops)[n] == vals[n] + Sum(sops, n)
  {
    if |sops| > 0 {
      AddsIsSum(vals, sops[..|sops| - 1], n);
    }
  }

  /** The sequence can be done as a whole: each operation finds, after those before it, the
      value it asks for and leaves one in range. */
  ghost predicate AllCanGo(vals: seq<int>, sops: seq<Sembuf>)
    requires InBounds(sops, |vals|)
  {
    forall i :: 0 <= i < |sops| ==>
      var v := vals[sops[i].num] + Sum(sops[..i], sops[i].num);
      (sops[i].op == 0 ==> v == 0) && 0 <= v + sops[i].op <= SEMVMX
  }

  lemma {:induction false} TryMeans(vals: seq<int>, sops: seq<Sembuf>, i: nat)
    requires InBounds(sops, |vals|) && i <= |sops|
    ensures TryFrom(vals, sops, i) == Go <==>
      forall j :: i <= j < |sops| ==> Verdict(vals[sops[j].num] + Sum(sops[..j], sops[j].num), sops[j]) == Go
    decreases |sops| - i
  {
    hide Adds, Sum, Verdict;
    if i < |sops| {
      AddsIsSum(vals, sops[..i], sops[i].num);
      TryMeans(vals, sops, i + 1);
    }
  }

  /** The trial succeeds exactly when the whole sequence can be done, even with the same
      semaphore named several times. */
  lemma TryIsAtomic(vals: seq<int>, sops: seq<Sembuf>)
    requires InBounds(sops, |vals|)
    ensures Try(vals, sops) == Go <==> AllCanGo(vals, sops)
  {
    TryMeans(vals, sops, 0);
  }

  /** The value that operation `i` finds, after those before it. */
  function Found(vals: seq<int>, sops: seq<Sembuf>, i: nat): int
    requires InBounds(sops, |vals|) && i < |sops|
  {
    vals[sops[i].num] + Sum(sops[..i], sops[i].num)
  }

  /** Operation `i` is the first that cannot be done. */
  ghost predicate StopsAt(vals: seq<int>, sops: seq<Sembuf>, i: nat)
    requires InBounds(sops, |vals|)
  {
    i < |sops| && AllCanGo(vals, sops[..i]) && !AllCanGo(vals, sops[..i + 1])
  }

  lemma CanGoNext(vals: seq<int>, sops: seq<Sembuf>, i: nat)
    requires InBounds(sops, |vals|) && i < |sops|
    ensures var v := Found(vals, sops, i);
      AllCanGo(vals, sops[..i + 1]) <==> AllCanGo(vals, sops[..i]) && (sops[i].op == 0 ==> v == 0) && 0 <= v + sops[i].op <= SEMVMX
  {
    hide Sum;
    var s, t := sops[..i + 1], sops[..i];
    assert forall j :: 0 <= j < i ==> s[j] == t[j] == sops[j] && s[..j] == sops[..j] && t[..j] == sops[..j];
    assert s[i] == sops[i] && s[..i] == t;
  }

  /** If the operations before `i` can be done, the trial gets to `i`. */
  lemma {:induction false} TryReaches(vals: seq<int>, sops: seq<Sembuf>, i: nat)
    requires InBounds(sops, |vals|) && i <= |sops| && AllCanGo(vals, sops[..i])
    ensures Try(vals, sops) == TryFrom(vals, sops, i)
  {
    if i > 0 {
      CanGoNext(vals, sops, i - 1);
      TryReaches(vals, sops, i - 1);
      AddsIsSum(vals, sops[..i - 1], sops[i - 1].num);
      hide AllCanGo, Adds, Sum;
    }
  }

  /** Why operation `i` cannot be done: the value would get too large, or else, as the operation says, the caller
      does not want to wait, or has to. */
  function Refusal(vals: seq<int>, sops: seq<Sembuf>, i: nat): Outcome
    requires InBounds(sops, |vals|) && i < |sops|
  {
    if Found(vals, sops, i) + sops[i].op > SEMVMX then Range else if sops[i].nowait then Again else Sleep
  }

  /** A trial that does not succeed says why its first operation that cannot be done cannot. */
  lemma TryExact(vals: seq<int>, sops: seq<Sembuf>, i: nat)
    requires InBounds(sops, |vals|) && StopsAt(vals, sops, i)
    ensures Try(vals, sops) == Refusal(vals, sops, i)
  {
    TryReaches(vals, sops, i);
    CanGoNext(vals, sops, i);
    AddsIsSum(vals, sops[..i], sops[i].num);
    hide AllCanGo, Adds, Sum;
  }

  lemma TryOutcomes(vals: seq<int>, sops: seq<Sembuf>)
    requires InBounds(sops, |vals|)
    ensures Try(vals, sops) == Go <==> AllCanGo(vals, sops)
    ensures forall i: nat :: StopsAt(vals, sops, i) ==> Try(vals, sops) == Refusal(vals, sops, i)
  {
    TryIsAtomic(vals, sops);
    forall i: nat | StopsAt(vals, sops, i) ensures Try(vals, sops) == Refusal(vals, sops, i) {
      TryExact(vals, sops, i);
    }
  }

  /** A sequence that cannot be done as a whole has a first operation that cannot. */
  lemma {:induction false} SomeStop(vals: seq<int>, sops: seq<Sembuf>, n: nat) returns (i: nat)
    requires InBounds(sops, |vals|) && n <= |sops| && !AllCanGo(vals, sops[..n])
    ensures i < n && StopsAt(vals, sops, i)
  {
    i := n - 1;
    if !AllCanGo(vals, sops[..n - 1]) {
      i := SomeStop(vals, sops, n - 1);
    }
  }

  lemma AddsNone(vals: seq<int>, sops: seq<Sembuf>)
    requires InBounds(sops, |vals|)
    ensures Adds(vals, sops[..0]) == vals
  {
  }

  lemma {:induction false} AddsNext(vals: seq<int>, sops: seq<Sembuf>, i: nat)
    requires InBounds(sops, |vals|) && i < |sops|
    ensures var v := Adds(vals, sops[..i]);
      |v| == |vals| && Adds(vals, sops[..i + 1]) == v[sops[i].num := v[sops[i].num] + sops[i].op]
  {
    var s := sops[..i + 1];
    assert |s| == i + 1 && s[i] == sops[i] && s[..i] == sops[..i];
  }

  lemma {:induction false} PrefixGo(vals: seq<int>, sops: seq<Sembuf>, i: nat, k: nat)
    requires InBounds(sops, |vals|) && i <= k < |sops| && TryFrom(vals, sops, i) == Go
    ensures Verdict(Adds(vals, sops[..k])[sops[k].num], sops[k]) == Go
    decreases k - i
  {
    if i < k {
      PrefixGo(vals, sops, i + 1, k);
    }
  }

  /** Done in sequence, values stay in range. */
  lemma {:induction false} AddsInRange(vals: seq<int>, sops: seq<Sembuf>, k: nat)
    requires InBounds(sops, |vals|) && InRange(vals) && Try(vals, sops) == Go && k <= |sops|
    ensures InRange(Adds(vals, sops[..k]))
  {
    if k > 0 {
      AddsInRange(vals, sops, k - 1);
      PrefixGo(vals, sops, 0, k - 1);
      assert sops[..k][..k - 1] == sops[..k - 1];
    }
  }

  /** `struct sem_undo`: adjustments of one process, one per semaphore. */
  datatype Undo = Undo(pid: Pid, adj: seq<int>)

  /** `struct sem_queue`: the operations a process sleeps on. */
  datatype Queued = Queued(pid: Pid, sops: seq<Sembuf>)

  predicate NeedsUndo(sops: seq<Sembuf>)
  {
    exists i :: 0 <= i < |sops| && sops[i].undo
  }

  /** The record of a process, if it has one; the list has at most one for each. */
  function Find(undo: seq<Undo>, pid: Pid): (i: nat)
    ensures i <= |undo| && (i < |undo| ==> undo[i].pid == pid)
    ensures i == |undo| ==> forall j :: 0 <= j < |undo| ==> undo[j].pid != pid
  {
    if |undo| == 0 then 0 else if undo[0].pid == pid then 0 else 1 + Find(undo[1..], pid)
  }

  /** Adjustments after the operations: each undoable change is recorded with the opposite sign. */
  function Adjusted(adj: seq<int>, sops: seq<Sembuf>): (r: seq<int>)
    requires InBounds(sops, |adj|)
    ensures |r| == |adj|
  {
    if |sops| == 0 then adj
    else
      var before, sop := Adjusted(adj, sops[..|sops| - 1]), sops[|sops| - 1];
      if sop.undo && sop.op != 0 then before[sop.num := Short(before[sop.num] - sop.op)] else before
  }

  /** Undo records after a process has done the operations. */
  function Recorded(undo: seq<Undo>, pid: Pid, sops: seq<Sembuf>, nsems: nat): (r: seq<Undo>)
    requires InBounds(sops, nsems) && forall i :: 0 <= i < |undo| ==> |undo[i].adj| == nsems
    ensures |r| == |undo| && forall i :: 0 <= i < |r| ==> |r[i].adj| == nsems
  {
    var i := Find(undo, pid);
    if i == |undo| then undo else undo[i := Undo(pid, Adjusted(undo[i].adj, sops))]
  }

  /** All changes are undoable. */
  predicate UndoOnly(sops: seq<Sembuf>)
  {
    forall i :: 0 <= i < |sops| && sops[i].op != 0 ==> sops[i].undo
  }

  /** Sum of the undoable operations on semaphore `n`. */
  function UndoSum(sops: seq<Sembuf>, n: nat): int
  {
    if |sops| == 0 then 0
    else
      var sop := sops[|sops| - 1];
      UndoSum(sops[..|sops| - 1], n) + if sop.num == n && sop.undo then sop.op else 0
  }

  lemma {:induction false} AllUndone(sops: seq<Sembuf>, n: nat)
    requires UndoOnly(sops)
    ensures UndoSum(sops, n) == Sum(sops, n)
  {
    if |sops| > 0 {
      AllUndone(sops[..|sops| - 1], n);
    }
  }

  predicate IsShort(x: int)
  {
    -32768 <= x <= 32767
  }

  lemma ShortIs(x: int, r: int)
    requires IsShort(r) && (r - x) % 65536 == 0
    ensures Short(x) == r
  {
  }

  lemma ShortRange(x: int)
    ensures IsShort(Short(x))
  {
  }

  lemma ShortModulo(x: int)
    ensures (Short(x) - x) % 65536 == 0
  {
  }

  lemma ShortMinus(x: int, y: int)
    ensures Short(Short(x) - y) == Short(x - y)
  {
    Multiples(Short(Short(x) - y) - (Short(x) - y), Short(x) - x);
    ShortIs(x - y, Short(Short(x) - y));
  }

  lemma Multiples(x: int, y: int)
    requires x % 65536 == 0 && y % 65536 == 0
    ensures (x + y) % 65536 == 0
  {
  }

  /** However often an adjustment overflows on the way, only the sum counts in the end. */
  lemma {:induction false} AdjustedIs(adj: seq<int>, sops: seq<Sembuf>, n: nat)
    requires InBounds(sops, |adj|) && n < |adj| && IsShort(adj[n])
    ensures Adjusted(adj, sops)[n] == Short(adj[n] - UndoSum(sops, n))
  {
    if |sops| > 0 {
      var before, sop := sops[..|sops| - 1], sops[|sops| - 1];
      AdjustedIs(adj, before, n);
      ShortMinus(adj[n] - UndoSum(before, n), sop.op);
      hide Short;
    }
  }

  /** Value plus adjustment is kept up to overflow of the adjustment. */
  lemma BalanceModulo(vals: seq<int>, adj: seq<int>, sops: seq<Sembuf>, n: nat)
    requires InBounds(sops, |vals|) && |adj| == |vals| && n < |vals| && IsShort(adj[n]) && UndoOnly(sops)
    ensures (Adds(vals, sops)[n] + Adjusted(adj, sops)[n] - vals[n] - adj[n]) % 65536 == 0
  {
    hide Short, Adds, Adjusted, Sum, UndoSum;
    AddsIsSum(vals, sops, n);
    AdjustedIs(adj, sops, n);
    AllUndone(sops, n);
    ShortModulo(adj[n] - UndoSum(sops, n));
  }

  /** Any sequence keeps value plus adjustment of a semaphore if and only if the adjustment can
      take back the whole change and what was not recorded is a multiple of 65536. */
  lemma Balance(vals: seq<int>, adj: seq<int>, sops: seq<Sembuf>, n: nat)
    requires InBounds(sops, |vals|) && |adj| == |vals| && n < |vals| && IsShort(adj[n])
    ensures Adds(vals, sops)[n] + Adjusted(adj, sops)[n] == vals[n] + adj[n] <==>
      IsShort(adj[n] - Sum(sops, n)) && (Sum(sops, n) - UndoSum(sops, n)) % 65536 == 0
  {
    hide Short, IsShort, Adds, Adjusted, Sum, UndoSum;
    AddsIsSum(vals, sops, n);
    AdjustedIs(adj, sops, n);
    DriftZero(adj[n], Sum(sops, n), UndoSum(sops, n));
  }

  lemma DriftZero(a: int, sum: int, undone: int)
    ensures Short(a - undone) == a - sum <==> IsShort(a - sum) && (sum - undone) % 65536 == 0
  {
    ShortRange(a - undone);
    if IsShort(a - sum) && (sum - undone) % 65536 == 0 {
      Multiples(a - sum - Short(a - undone), Short(a - undone) - (a - undone));
    }
  }

  /** If all changes are undoable, exactly if the adjustment can take back the whole change. */
  lemma BalanceExact(vals: seq<int>, adj: seq<int>, sops: seq<Sembuf>, n: nat)
    requires InBounds(sops, |vals|) && |adj| == |vals| && n < |vals| && IsShort(adj[n]) && UndoOnly(sops)
    ensures Adds(vals, sops)[n] + Adjusted(adj, sops)[n] == vals[n] + adj[n] <==> IsShort(adj[n] - Sum(sops, n))
  {
    Balance(vals, adj, sops, n);
    AllUndone(sops, n);
  }

  /** A second increment by the same process, after another process took the first one away,
      overflows the adjustment: the balance is lost although all was recorded for undo. */
  lemma BalanceLost()
    ensures var sop := Sembuf(0, 32767, false, true);
      InBounds([sop], 1) && Try([0], [sop]) == Go && Adds([0], [sop])[0] + Adjusted([-32767], [sop])[0] != 0 + -32767
  {
    var sop := Sembuf(0, 32767, false, true);
    assert [sop][..0] == [];
    assert Adds([0], []) == [0];
    BalanceExact([0], [-32767], [sop], 0);
    assert Sum([sop], 0) == Sum([], 0) + 32767;
  }

  function SumAdj(undo: seq<Undo>, n: nat): int
    requires forall i :: 0 <= i < |undo| ==> n < |undo[i].adj|
  {
    if |undo| == 0 then 0 else undo[0].adj[n] + SumAdj(undo[1..], n)
  }

  lemma {:induction false} SumReplace(undo: seq<Undo>, i: nat, u: Undo, n: nat)
    requires i < |undo| && n < |u.adj| && forall j :: 0 <= j < |undo| ==> n < |undo[j].adj|
    ensures SumAdj(undo[i := u], n) == SumAdj(undo, n) - undo[i].adj[n] + u.adj[n]
  {
    if i == 0 {
      assert undo[0 := u][1..] == undo[1..];
    } else {
      assert undo[i := u][1..] == undo[1..][i - 1 := u];
      SumReplace(undo[1..], i - 1, u, n);
    }
  }

  lemma {:induction false} SumDrop(undo: seq<Undo>, i: nat, n: nat)
    requires i < |undo| && forall j :: 0 <= j < |undo| ==> n < |undo[j].adj|
    ensures SumAdj(undo[..i] + undo[i + 1..], n) == SumAdj(undo, n) - undo[i].adj[n]
  {
    if i == 0 {
      assert undo[..0] + undo[1..] == undo[1..];
    } else {
      var rest := undo[..i] + undo[i + 1..];
      assert rest[1..] == undo[1..][..i - 1] + undo[1..][i..];
      SumDrop(undo[1..], i - 1, n);
    }
  }

  ghost predicate Shorts(adj: seq<int>)
  {
    forall n :: 0 <= n < |adj| ==> IsShort(adj[n])
  }

  lemma {:induction false} AdjustedShorts(adj: seq<int>, sops: seq<Sembuf>)
    requires InBounds(sops, |adj|) && Shorts(adj)
    ensures Shorts(Adjusted(adj, sops))
  {
    if |sops| > 0 {
      AdjustedShorts(adj, sops[..|sops| - 1]);
    }
  }

  predicate Names(sops: seq<Sembuf>, n: nat)
  {
    exists i :: 0 <= i < |sops| && sops[i].num == n
  }

  /** Who did the last operation on each semaphore, after `pid` has done `sops`. */
  function Stamped(pids: seq<Pid>, pid: Pid, sops: seq<Sembuf>): (r: seq<Pid>)
    requires InBounds(sops, |pids|)
    ensures |r| == |pids| && forall n :: 0 <= n < |pids| ==> r[n] == if Names(sops, n) then pid else pids[n]
  {
    if |sops| == 0 then pids
    else
      var last, rest := sops[|sops| - 1], sops[..|sops| - 1];
      assert forall n :: 0 <= n < |pids| ==> (Names(sops, n) <==> n == last.num || Names(rest, n)) by {
        assert forall i :: 0 <= i < |rest| ==> rest[i] == sops[i];
      }
      Stamped(pids, pid, rest)[last.num := pid]
  }

  /** A set as the code leaves it between steps. */
  datatype Snap = Snap(vals: seq<int>, pids: seq<Pid>, undo: seq<Undo>, pending: seq<Queued>)

  ghost predicate SnapOk(s: Snap)
  {
    && InRange(s.vals) && |s.pids| == |s.vals|
    && (forall i :: 0 <= i < |s.pending| ==> InBounds(s.pending[i].sops, |s.vals|))
    && (forall i :: 0 <= i < |s.undo| ==> |s.undo[i].adj| == |s.vals| && Shorts(s.undo[i].adj))
  }

  /** Value and live adjustments of semaphore `n`. */
  ghost function Balanced(s: Snap, n: nat): int
    requires SnapOk(s) && n < |s.vals|
  {
    s.vals[n] + SumAdj(s.undo, n)
  }

  /** A process does its operations. */
  ghost function Performed(s: Snap, pid: Pid, sops: seq<Sembuf>): Snap
    requires SnapOk(s) && InBounds(sops, |s.vals|)
  {
    s.(vals := Adds(s.vals, sops), pids := Stamped(s.pids, pid, sops), undo := Recorded(s.undo, pid, sops, |s.vals|))
  }

  /** When the balance of semaphore `n` survives a process doing its operations: with a record,
      if that can take back the whole change and what goes unrecorded is a multiple of 65536;
      without one, if the operations on `n` cancel out. */
  ghost predicate Keeps(s: Snap, pid: Pid, sops: seq<Sembuf>, n: nat)
    requires SnapOk(s) && n < |s.vals|
  {
    var i := Find(s.undo, pid);
    if i == |s.undo| then Sum(sops, n) == 0
    else IsShort(s.undo[i].adj[n] - Sum(sops, n)) && (Sum(sops, n) - UndoSum(sops, n)) % 65536 == 0
  }

  /** By how much the balance of semaphore `n` moves: what goes unrecorded, and what overflows. */
  ghost function Drift(s: Snap, pid: Pid, sops: seq<Sembuf>, n: nat): int
    requires SnapOk(s) && n < |s.vals|
  {
    var i := Find(s.undo, pid);
    if i == |s.undo| then Sum(sops, n)
    else
      var a, u := s.undo[i].adj[n], UndoSum(sops, n);
      Sum(sops, n) - u + (Short(a - u) - (a - u))
  }

  lemma DriftMeans(s: Snap, pid: Pid, sops: seq<Sembuf>, n: nat)
    requires SnapOk(s) && n < |s.vals|
    ensures Drift(s, pid, sops, n) == 0 <==> Keeps(s, pid, sops, n)
    ensures UndoOnly(sops) && Find(s.undo, pid) < |s.undo| ==> Drift(s, pid, sops, n) % 65536 == 0
  {
    var i := Find(s.undo, pid);
    if i < |s.undo| {
      DriftZero(s.undo[i].adj[n], Sum(sops, n), UndoSum(sops, n));
      if UndoOnly(sops) {
        AllUndone(sops, n);
      }
    }
  }

  lemma PerformedOk(s: Snap, pid: Pid, sops: seq<Sembuf>)
    requires SnapOk(s) && InBounds(sops, |s.vals|) && Try(s.vals, sops) == Go
    ensures SnapOk(Performed(s, pid, sops))
  {
    AddsInRange(s.vals, sops, |sops|);
    assert sops[..|sops|] == sops;
    var i := Find(s.undo, pid);
    if i < |s.undo| {
      AdjustedShorts(s.undo[i].adj, sops);
    }
    hide Adds, Adjusted, TryFrom;
  }

  lemma PerformedKeeps(s: Snap, pid: Pid, sops: seq<Sembuf>, n: nat)
    requires SnapOk(s) && InBounds(sops, |s.vals|) && Try(s.vals, sops) == Go && n < |s.vals|
    ensures SnapOk(Performed(s, pid, sops))
    ensures Balanced(Performed(s, pid, sops), n) == Balanced(s, n) + Drift(s, pid, sops, n)
    ensures Balanced(Performed(s, pid, sops), n) == Balanced(s, n) <==> Keeps(s, pid, sops, n)
    ensures UndoOnly(sops) && Find(s.undo, pid) < |s.undo| ==>
      (Balanced(Performed(s, pid, sops), n) - Balanced(s, n)) % 65536 == 0
  {
    PerformedOk(s, pid, sops);
    DriftMeans(s, pid, sops, n);
    AddsIsSum(s.vals, sops, n);
    var i := Find(s.undo, pid);
    if i < |s.undo| {
      AdjustedIs(s.undo[i].adj, sops, n);
      SumReplace(s.undo, i, Undo(pid, Adjusted(s.undo[i].adj, sops)), n);
    }
    hide Short, Adds, Adjusted, Sum, UndoSum, TryFrom, Keeps, UndoOnly;
  }

  /** No pending entry could complete now, not even with an error. */
  ghost predicate AllBlocked(s: Snap)
    requires SnapOk(s)
  {
    forall i :: 0 <= i < |s.pending| ==> Try(s.vals, s.pending[i].sops) == Sleep
  }

  /** A process sleeps on one entry at most, and has an undo record if that entry needs one. */
  ghost predicate QueueOk(s: Snap)
  {
    (forall i, j :: 0 <= i < j < |s.pending| ==> s.pending[i].pid != s.pending[j].pid) &&
    forall i :: 0 <= i < |s.pending| && NeedsUndo(s.pending[i].sops) ==> Find(s.undo, s.pending[i].pid) < |s.undo|
  }

  function Dropped<T>(l: seq<T>, i: nat): (r: seq<T>)
    requires i < |l|
    ensures |r| == |l| - 1 && forall j :: 0 <= j < |r| ==> r[j] == l[if j < i then j else j + 1]
  {
    l[..i] + l[i + 1..]
  }

  ghost predicate CanComplete(s: Snap, i: nat)
    requires SnapOk(s)
  {
    i < |s.pending| && Try(s.vals, s.pending[i].sops) != Sleep
  }

  /** Entry `i` leaves the queue, its operations done if the trial says so. */
  ghost function Completed(s: Snap, i: nat): Snap
    requires SnapOk(s) && CanComplete(s, i)
  {
    var q := s.pending[i];
    var s' := if Try(s.vals, q.sops) == Go then Performed(s, q.pid, q.sops) else s;
    s'.(pending := Dropped(s.pending, i))
  }

  lemma CompletedOk(s: Snap, i: nat)
    requires SnapOk(s) && CanComplete(s, i)
    ensures SnapOk(Completed(s, i)) && (QueueOk(s) ==> QueueOk(Completed(s, i)))
  {
    hide TryFrom, Adjusted, Adds;
    var q := s.pending[i];
    if Try(s.vals, q.sops) == Go {
      PerformedOk(s, q.pid, q.sops);
      SameRecords(s.undo, q.pid, q.sops, |s.vals|);
    }
  }

  /** Recording adjustments leaves every process its record. */
  lemma SameRecords(undo: seq<Undo>, pid: Pid, sops: seq<Sembuf>, nsems: nat)
    requires InBounds(sops, nsems) && forall i :: 0 <= i < |undo| ==> |undo[i].adj| == nsems
    ensures forall p :: Find(Recorded(undo, pid, sops, nsems), p) == Find(undo, p)
  {
    hide Adjusted;
    var i := Find(undo, pid);
    if i < |undo| {
      forall p ensures Find(Recorded(undo, pid, sops, nsems), p) == Find(undo, p) {
        FindReplace(undo, i, Undo(pid, Adjusted(undo[i].adj, sops)), p);
      }
    }
  }

  lemma {:induction false} FindReplace(undo: seq<Undo>, i: nat, u: Undo, p: Pid)
    requires i < |undo| && u.pid == undo[i].pid
    ensures Find(undo[i := u], p) == Find(undo, p)
  {
    if i > 0 {
      assert undo[i := u][1..] == undo[1..][i - 1 := u];
      FindReplace(undo[1..], i - 1, u, p);
    } else {
      assert undo[i := u][1..] == undo[1..];
    }
  }

  /** `s'` is reached from `s` by completing pending entries one after another. */
  ghost predicate Reached(s: Snap, order: seq<nat>, s': Snap)
    decreases |order|
  {
    SnapOk(s) &&
    if |order| == 0 then s == s' else CanComplete(s, order[0]) && Reached(Completed(s, order[0]), order[1..], s')
  }

  lemma {:induction false} ReachedMore(s: Snap, order: seq<nat>, s': Snap, i: nat)
    requires SnapOk(s) && Reached(s, order, s')
    ensures SnapOk(s')
    ensures CanComplete(s', i) ==> Reached(s, order + [i], Completed(s', i))
    decreases |order|
  {
    if |order| == 0 {
      if CanComplete(s', i) {
        CompletedOk(s, i);
        assert [i][1..] == [];
      }
    } else {
      CompletedOk(s, order[0]);
      assert (order + [i])[1..] == order[1..] + [i];
      ReachedMore(Completed(s, order[0]), order[1..], s', i);
    }
  }

  /** With the scan of the queue at `p`, entry `i` is the next to complete: the first that can, from `p` on, and if
      there is none there, the first of all. */
  ghost predicate Turn(s: Snap, p: nat, i: nat)
    requires SnapOk(s)
  {
    && CanComplete(s, i)
    && (forall j :: p <= j < i ==> !CanComplete(s, j))
    && (i < p ==> (forall j :: p <= j < |s.pending| ==> !CanComplete(s, j)) && forall j :: 0 <= j < i ==> !CanComplete(s, j))
  }

  /** Entries complete in turn, with the scan at `p` first. */
  ghost predicate InTurn(s: Snap, order: seq<nat>, p: nat)
    decreases |order|
  {
    |order| == 0 ||
    (SnapOk(s) && Turn(s, p, order[0]) && InTurn(Completed(s, order[0]), order[1..], order[0]))
  }

  /** Where the scan is after some completions. */
  function Scanned(p: nat, order: seq<nat>): nat
  {
    if |order| == 0 then p else order[|order| - 1]
  }

  lemma {:induction false} InTurnMore(s: Snap, order: seq<nat>, s': Snap, p: nat, i: nat)
    requires SnapOk(s) && Reached(s, order, s') && InTurn(s, order, p) && SnapOk(s') && Turn(s', Scanned(p, order), i)
    ensures InTurn(s, order + [i], p)
    decreases |order|
  {
    hide Try, Performed, Turn;
    if |order| == 0 {
      assert [i][1..] == [];
    } else {
      CompletedOk(s, order[0]);
      assert (order + [i])[1..] == order[1..] + [i];
      InTurnMore(Completed(s, order[0]), order[1..], s', order[0], i);
    }
  }

  lemma NoneInTurn(s: Snap)
    ensures InTurn(s, [], 0)
  {
  }

  /** Entries have completed in turn, from the head of the queue on. */
  ghost predicate Settled(s: Snap, order: seq<nat>, s': Snap)
  {
    Reached(s, order, s') && InTurn(s, order, 0)
  }

  /** The order in which entries complete, and so the state that is reached, is fixed by the state before. */
  lemma {:induction false} OneOutcome(s: Snap, p: nat, order: seq<nat>, s1: Snap, other: seq<nat>, s2: Snap)
    requires SnapOk(s) && Reached(s, order, s1) && InTurn(s, order, p) && SnapOk(s1) && AllBlocked(s1)
    requires Reached(s, other, s2) && InTurn(s, other, p) && SnapOk(s2) && AllBlocked(s2)
    ensures order == other && s1 == s2
    decreases |order|
  {
    hide Try, Performed;
    if |order| > 0 && |other| > 0 {
      CompletedOk(s, order[0]);
      assert order[0] == other[0];
      OneOutcome(Completed(s, order[0]), order[0], order[1..], s1, other[1..], s2);
      assert order == [order[0]] + order[1..] && other == [other[0]] + other[1..];
    }
  }

  /** Of two entries that want the same, the later one completes before the earlier one only if the scan is past that. */
  lemma FirstOfEqual(s: Snap, p: nat, a: nat, b: nat)
    requires SnapOk(s) && a < b < |s.pending| && s.pending[a].sops == s.pending[b].sops && Turn(s, p, b)
    ensures a < p <= b
  {
    hide Try;
    assert CanComplete(s, a);
  }

  /** Which processes are woken on the way, and what each is told. */
  ghost function Woken(s: Snap, order: seq<nat>): seq<(Pid, Outcome)>
    decreases |order|
  {
    if |order| == 0 || !SnapOk(s) || !CanComplete(s, order[0]) then []
    else
      var q := s.pending[order[0]];
      [(q.pid, Try(s.vals, q.sops))] + Woken(Completed(s, order[0]), order[1..])
  }

  lemma {:induction false} WokenMore(s: Snap, order: seq<nat>, s': Snap, i: nat)
    requires SnapOk(s) && Reached(s, order, s') && SnapOk(s') && CanComplete(s', i)
    ensures Woken(s, order + [i]) == Woken(s, order) + [(s'.pending[i].pid, Try(s'.vals, s'.pending[i].sops))]
    decreases |order|
  {
    hide Try, Performed;
    if |order| == 0 {
      CompletedOk(s, i);
      assert [i][1..] == [];
    } else {
      CompletedOk(s, order[0]);
      assert (order + [i])[1..] == order[1..] + [i];
      WokenMore(Completed(s, order[0]), order[1..], s', i);
    }
  }

  /** By how much the balance of semaphore `n` moves while entries complete. */
  ghost function Drifts(s: Snap, order: seq<nat>, n: nat): int
    decreases |order|
  {
    if |order| == 0 || !SnapOk(s) || !CanComplete(s, order[0]) || n >= |s.vals| then 0
    else
      var q := s.pending[order[0]];
      (if Try(s.vals, q.sops) == Go then Drift(s, q.pid, q.sops, n) else 0) + Drifts(Completed(s, order[0]), order[1..], n)
  }

  /** Every completion on the way keeps the balance of semaphore `n`. */
  ghost predicate AllKeep(s: Snap, order: seq<nat>, n: nat)
    decreases |order|
  {
    |order| == 0 ||
    (SnapOk(s) && CanComplete(s, order[0]) && n < |s.vals| &&
     (Try(s.vals, s.pending[order[0]].sops) == Go ==> Keeps(s, s.pending[order[0]].pid, s.pending[order[0]].sops, n)) &&
     AllKeep(Completed(s, order[0]), order[1..], n))
  }

  /** Every pending entry changes values only by undoable operations. */
  ghost predicate AllUndoable(s: Snap)
  {
    forall i :: 0 <= i < |s.pending| ==> UndoOnly(s.pending[i].sops)
  }

  lemma {:induction false} ReachedKeeps(s: Snap, order: seq<nat>, s': Snap, n: nat)
    requires SnapOk(s) && Reached(s, order, s') && n < |s.vals|
    ensures SnapOk(s') && |s'.vals| == |s.vals|
    ensures Balanced(s', n) == Balanced(s, n) + Drifts(s, order, n)
    ensures AllKeep(s, order, n) ==> Balanced(s', n) == Balanced(s, n)
    ensures QueueOk(s) && AllUndoable(s) ==> (Balanced(s', n) - Balanced(s, n)) % 65536 == 0
    decreases |order|
  {
    hide Drift, Keeps, Try, Balanced, QueueOk, UndoOnly;
    if |order| > 0 {
      CompletedOk(s, order[0]);
      CompletedMoves(s, order[0], n);
      var s1 := Completed(s, order[0]);
      ReachedKeeps(s1, order[1..], s', n);
      if QueueOk(s) && AllUndoable(s) {
        Multiples(Balanced(s1, n) - Balanced(s, n), Balanced(s', n) - Balanced(s1, n));
      }
    }
  }

  lemma CompletedMoves(s: Snap, i: nat, n: nat)
    requires SnapOk(s) && CanComplete(s, i) && n < |s.vals|
    ensures SnapOk(Completed(s, i)) && n < |Completed(s, i).vals|
    ensures var q := s.pending[i];
      if Try(s.vals, q.sops) == Go
      then Balanced(Completed(s, i), n) == Balanced(s, n) + Drift(s, q.pid, q.sops, n) &&
           (Keeps(s, q.pid, q.sops, n) ==> Drift(s, q.pid, q.sops, n) == 0)
      else Balanced(Completed(s, i), n) == Balanced(s, n)
    ensures AllUndoable(s) ==> AllUndoable(Completed(s, i))
    ensures QueueOk(s) && AllUndoable(s) ==> (Balanced(Completed(s, i), n) - Balanced(s, n)) % 65536 == 0
  {
    CompletedOk(s, i);
    var q := s.pending[i];
    if Try(s.vals, q.sops) == Go {
      PerformedKeeps(s, q.pid, q.sops, n);
      if QueueOk(s) && AllUndoable(s) && Find(s.undo, q.pid) == |s.undo| {
        NothingDone(q.sops, n);
      }
    }
    hide Try, Keeps, SumAdj, Adds, Recorded, Short, Sum, UndoSum;
  }

  lemma {:induction false} NothingDone(sops: seq<Sembuf>, n: nat)
    requires UndoOnly(sops) && !NeedsUndo(sops)
    ensures Sum(sops, n) == 0
  {
    if |sops| > 0 {
      NothingDone(sops[..|sops| - 1], n);
      assert !sops[|sops| - 1].undo;
    }
  }

  /** The record of a process that is about to need one. */
  ghost function WithRecord(s: Snap, pid: Pid): Snap
  {
    if Find(s.undo, pid) < |s.undo| then s else s.(undo := [Undo(pid, Zeros(|s.vals|))] + s.undo)
  }

  function Zeros(n: nat): (r: seq<int>)
    ensures |r| == n && forall i :: 0 <= i < n ==> r[i] == 0
  {
    seq(n, _ => 0)
  }

  lemma WithRecordOk(s: Snap, pid: Pid)
    requires SnapOk(s)
    ensures SnapOk(WithRecord(s, pid)) && (QueueOk(s) ==> QueueOk(WithRecord(s, pid)))
    ensures Find(WithRecord(s, pid).undo, pid) < |WithRecord(s, pid).undo|
    ensures forall n :: 0 <= n < |s.vals| ==> Balanced(WithRecord(s, pid), n) == Balanced(s, n)
  {
    if Find(s.undo, pid) == |s.undo| {
      var undo' := [Undo(pid, Zeros(|s.vals|))] + s.undo;
      assert undo'[1..] == s.undo;
    }
  }

  class SemSet {
    const semval: array<int>
    const sempid: array<int>
    var pending: seq<Queued>
    var undo: seq<Undo>
    var woken: seq<(Pid, Outcome)>  // completion statuses of processes taken off the queue
    ghost var base: seq<int>        // value last set, for each semaphore
    ghost var drift: seq<int>       // changes since that went unrecorded or overflowed
    ghost var undoable: bool        // all changes so far could be undone, and no exit was clamped

    constructor (nsems: nat)
      ensures Valid() && semval.Length == nsems && fresh(semval) && fresh(sempid)
      ensures pending == [] && undo == [] && base == drift == Zeros(nsems) && undoable
    {
      semval, sempid := new int[nsems](_ => 0), new int[nsems](_ => 0);
      pending, undo, woken := [], [], [];
      base, drift, undoable := Zeros(nsems), Zeros(nsems), true;
    }

    ghost predicate Shaped()
      reads this, semval
    {
      && semval.Length == sempid.Length && semval != sempid && InRange(semval[..])
      && (forall i :: 0 <= i < |pending| ==> InBounds(pending[i].sops, semval.Length))
      && (forall i :: 0 <= i < |undo| ==> |undo[i].adj| == semval.Length && Shorts(undo[i].adj))
    }

    /** `try_semop`: trial and rollback. */
    method TrySemop(sops: seq<Sembuf>) returns (result: Outcome)
      requires InBounds(sops, semval.Length)
      modifies semval
      ensures semval[..] == old(semval[..]) && result == Try(old(semval[..]), sops)
      ensures result == Go <==> AllCanGo(old(semval[..]), sops)
      ensures forall i: nat :: StopsAt(old(semval[..]), sops, i) ==> result == Refusal(old(semval[..]), sops, i)
    {
      hide TryFrom, AllCanGo, StopsAt, Refusal;
      TryOutcomes(semval[..], sops);
      ghost var v0 := semval[..];
      var i: nat := 0;
      result := Go;
      assert Adds(v0, sops[..0]) == v0;
      while i < |sops|
        invariant i <= |sops| && result == Go && semval[..] == Adds(v0, sops[..i])
        invariant TryFrom(v0, sops, i) == Try(v0, sops)
      {
        var sop := sops[i];
        TryStep(v0, sops, i);
        if sop.op + semval[sop.num] > SEMVMX {
          result := Range;
          break;
        }
        if sop.op == 0 && semval[sop.num] != 0 {
          result := if sop.nowait then Again else Sleep;
          break;
        }
        i := i + 1;
        assert sops[..i][..i - 1] == sops[..i - 1];
        semval[sop.num] := semval[sop.num] + sop.op;
        assert semval[..] == Adds(v0, sops[..i]);
        if semval[sop.num] < 0 {
          result := if sop.nowait then Again else Sleep;
          break;
        }
      }
      if result == Go {
        TryEnd(v0, sops);
      }
      while i > 0
        invariant i <= |sops| && semval[..] == Adds(v0, sops[..i])
      {
        i := i - 1;
        assert sops[..i + 1][..i] == sops[..i];
        var sop := sops[i];
        semval[sop.num] := semval[sop.num] - sop.op;
        assert semval[..] == Adds(v0, sops[..i]);
      }
    }

    ghost function Now(): Snap
      reads this, semval, sempid
    {
      Snap(semval[..], sempid[..], undo, pending)
    }

    /** One operation of a sequence. */
    method DoOne(sop: Sembuf, pid: Pid, un: nat) returns (race: bool)
      requires semval.Length == sempid.Length && semval != sempid && sop.num < semval.Length
      requires Verdict(semval[sop.num], sop) == Go && (sop.undo ==> un < |undo| && |undo[un].adj| == semval.Length)
      modifies semval, sempid, this`undo
      ensures !race && semval[..] == old(semval[..])[sop.num := old(semval[sop.num]) + sop.op]
      ensures sempid[..] == old(sempid[..])[sop.num := pid]
      ensures undo == if sop.undo && sop.op != 0
        then old(undo)[un := Undo(pid, old(undo)[un].adj[sop.num := Short(old(undo)[un].adj[sop.num] - sop.op)])] else old(undo)
    {
      race := false;
      if sop.op + semval[sop.num] > SEMVMX {
        return true;
      }
      if sop.op == 0 {
        if semval[sop.num] != 0 {
          return true;
        }
      } else {
        semval[sop.num] := semval[sop.num] + sop.op;
        if semval[sop.num] < 0 {
          return true;
        }
        if sop.undo {
          undo := undo[un := Undo(pid, undo[un].adj[sop.num := Short(undo[un].adj[sop.num] - sop.op)])];
        }
      }
      sempid[sop.num] := pid;
    }

    /** `do_semop` after a successful trial; `race` tells whether a "race" branch was taken. */
    method DoSemop(sops: seq<Sembuf>, pid: Pid) returns (race: bool)
      requires Shaped() && InBounds(sops, semval.Length) && Try(semval[..], sops) == Go
      requires NeedsUndo(sops) ==> Find(undo, pid) < |undo|
      modifies semval, sempid, this`undo
      ensures !race && Shaped() && Now() == Performed(old(Now()), pid, sops)
    {
      hide TryFrom, Short, Adds, Recorded, Stamped, Verdict, InRange, Find;
      ghost var v0, p0, u0 := semval[..], sempid[..], undo;
      PerformedOk(Now(), pid, sops);
      var un := Find(undo, pid);
      var i: nat := 0;
      race := false;
      AddsNone(v0, sops);
      RecordedNone(undo, pid, sops, semval.Length);
      StampedNone(p0, pid, sops);
      while i < |sops|
        invariant i <= |sops| && !race && semval[..] == Adds(v0, sops[..i]) && sempid[..] == Stamped(p0, pid, sops[..i])
        invariant undo == Recorded(u0, pid, sops[..i], semval.Length) && (un < |u0| ==> |undo[un].adj| == semval.Length)
      {
        PrefixGo(v0, sops, 0, i);
        AddsNext(v0, sops, i);
        RecordedStep(u0, pid, sops, semval.Length, i);
        StampedStep(p0, pid, sops, i);
        assert semval[..][sops[i].num] == semval[sops[i].num];
        race := DoOne(sops[i], pid, un);
        if race {
          break;
        }
        i := i + 1;
      }
      assert sops[..|sops|] == sops;
    }

    /** Take entry `i`, which need not sleep any longer, off the queue. */
    method Complete(i: nat, error: Outcome)
      requires Shaped() && QueueOk(Now()) && i < |pending| && error == Try(semval[..], pending[i].sops) && error != Sleep
      modifies this`pending, this`undo, this`woken, semval, sempid
      ensures Shaped() && QueueOk(Now()) && CanComplete(old(Now()), i) && Now() == Completed(old(Now()), i)
      ensures |pending| == old(|pending|) - 1 && woken == old(woken) + [(old(pending)[i].pid, error)]
    {
      hide TryFrom, Adds, Recorded;
      CompletedOk(Now(), i);
      var q := pending[i];
      if error == Go {
        var race := DoSemop(q.sops, q.pid);
      }
      pending, woken := Dropped(pending, i), woken + [(q.pid, error)];
    }

    /** `update_queue`. */
    method UpdateQueue() returns (ghost order: seq<nat>)
      requires Shaped() && QueueOk(Now())
      modifies this`pending, this`undo, this`woken, semval, sempid
      ensures Shaped() && QueueOk(Now()) && AllBlocked(Now()) && Settled(old(Now()), order, Now())
      ensures woken == old(woken) + Woken(old(Now()), order)
    {
      hide Try, Adds, Recorded, Stamped, QueueOk, Completed, InTurn;
      order := [];
      NoneInTurn(Now());
      ghost var first := true;
      ghost var s0 := Now();
      var wokeup := true;
      while wokeup
        invariant Shaped() && QueueOk(Now()) && Reached(s0, order, Now()) && woken == old(woken) + Woken(s0, order)
        invariant InTurn(s0, order, 0) && (first ==> order == [])
        invariant !first ==> forall j :: Scanned(0, order) <= j < |pending| ==> Try(semval[..], pending[j].sops) == Sleep
        invariant !wokeup ==> AllBlocked(Now())
        decreases |pending|, wokeup
      {
        wokeup := false;
        ghost var before := |pending|;
        ghost var again := !first;
        first := false;
        var i: nat := 0;
        while i < |pending|
          invariant i <= |pending| && Shaped() && QueueOk(Now()) && Reached(s0, order, Now())
          invariant woken == old(woken) + Woken(s0, order) && InTurn(s0, order, 0) && !first
          invariant if again
            then (forall j :: Scanned(0, order) <= j < |pending| ==> Try(semval[..], pending[j].sops) == Sleep) &&
                 (forall j :: 0 <= j < i ==> Try(semval[..], pending[j].sops) == Sleep)
            else Scanned(0, order) <= i && forall j :: Scanned(0, order) <= j < i ==> Try(semval[..], pending[j].sops) == Sleep
          invariant |pending| <= before && (wokeup ==> |pending| < before)
          invariant !wokeup ==> forall j :: 0 <= j < i ==> Try(semval[..], pending[j].sops) == Sleep
          decreases |pending| - i
        {
          var error := TrySemop(pending[i].sops);
          if error == Sleep {
            i := i + 1;
          } else {
            ReachedMore(s0, order, Now(), i);
            WokenMore(s0, order, Now(), i);
            InTurnMore(s0, order, Now(), 0, i);
            Complete(i, error);
            order := order + [i];
            again := false;
            wokeup := true;
          }
        }
      }
    }

    /** Between system calls: no pending operation could complete, and value and live adjustments
        of each semaphore sum to the value last set and the drift since, which is a multiple of 65536
        while all changes can be undone. */
    ghost predicate Valid()
      reads this, semval, sempid
    {
      && Shaped() && QueueOk(Now()) && AllBlocked(Now())
      && Law(Now(), base, drift) && (undoable ==> Whole(Now(), drift))
    }

    /** `update_queue`, keeping the books. */
    method Settle() returns (ghost order: seq<nat>)
      requires Shaped() && QueueOk(Now()) && Law(Now(), base, drift) && (undoable ==> Whole(Now(), drift))
      modifies this`pending, this`undo, this`woken, this`drift, semval, sempid
      ensures Valid() && Settled(old(Now()), order, Now())
      ensures drift == Moved(old(drift), old(Now()), order) && woken == old(woken) + Woken(old(Now()), order)
      ensures forall n :: 0 <= n < |drift| && AllKeep(old(Now()), order, n) ==> drift[n] == old(drift)[n]
    {
      hide Reached, InTurn, Woken, Drifts, Balanced, QueueOk, AllBlocked, AllUndoable, AllKeep;
      ghost var s0 := Now();
      order := UpdateQueue();
      drift := Moved(drift, s0, order);
      forall n | 0 <= n < |base|
        ensures Balanced(Now(), n) == base[n] + drift[n] && (AllKeep(s0, order, n) ==> drift[n] == old(drift)[n])
        ensures undoable ==> drift[n] % 65536 == 0
      {
        ReachedKeeps(s0, order, Now(), n);
        if undoable {
          Multiples(old(drift)[n], Drifts(s0, order, n));
        }
      }
      ReachedUndoable(s0, order, Now());
    }

    /** `sys_semop` for process `pid`, up to going to sleep. */
    method SemOp(pid: Pid, sops: seq<Sembuf>) returns (r: Result, ghost order: seq<nat>)
      requires Valid() && forall i :: 0 <= i < |sops| ==> -32768 <= sops[i].op <= 32767
      requires forall i :: 0 <= i < |pending| ==> pending[i].pid != pid
      modifies this, semval, sempid
      ensures Valid() && base == old(base)
      ensures r.Failed? ==> Now() == old(Now()) && drift == old(drift)
      ensures r == Failed(EINVAL) <==> |sops| < 1
      ensures r == Failed(E2BIG) <==> |sops| > SEMOPM
      ensures r == Failed(EFBIG) <==> 1 <= |sops| <= SEMOPM && !InBounds(sops, semval.Length)
      ensures 1 <= |sops| <= SEMOPM && InBounds(sops, semval.Length) ==> (r == Done <==> AllCanGo(old(semval[..]), sops))
      ensures 1 <= |sops| <= SEMOPM && InBounds(sops, semval.Length) ==> forall i: nat :: StopsAt(old(semval[..]), sops, i) ==>
        r == if Found(old(semval[..]), sops, i) + sops[i].op > SEMVMX then Failed(ERANGE)
             else if sops[i].nowait then Failed(EAGAIN) else Asleep
      ensures r == Asleep ==> drift == old(drift)
      ensures r == Asleep ==> Now() == Prepared(old(Now()), pid, sops).(pending := old(pending) + [Queued(pid, sops)])
      ensures r == Asleep ==>
        (undo == old(undo) <==> (forall i :: 0 <= i < |sops| ==> !sops[i].undo) || exists j :: 0 <= j < |old(undo)| && old(undo)[j].pid == pid)
      ensures if r == Done then Passed(old(Now()), old(drift), old(woken), pid, sops, order, Now(), drift, woken) else woken == old(woken)
      ensures undoable == (old(undoable) && (r.Failed? || UndoOnly(sops)))
    {
      hide Passed, Law, Whole, Adds, Recorded, Stamped, Try, Moved, DriftedBy, QueueOk, AllBlocked,
        Prepared, Performed, UndoOnly, Keeps, AllKeep, AllCanGo, StopsAt, Found;
      order := [];
      if |sops| < 1 {
        return Failed(EINVAL), order;
      }
      if |sops| > SEMOPM {
        return Failed(E2BIG), order;
      }
      var ok := CheckNumbers(sops);
      if !ok {
        return Failed(EFBIG), order;
      }
      TryOutcomes(semval[..], sops);
      NewRecord(Now(), pid, sops);
      var error := TrySemop(sops);
      if error == Range {
        return Failed(ERANGE), order;
      }
      if error == Again {
        return Failed(EAGAIN), order;
      }
      if error == Go {
        order := Perform(pid, sops);
        r := Done;
      } else {
        Enqueue(pid, sops);
        r := Asleep;
      }
    }

    /** Make sure a process that needs an undo record has one. */
    method Prepare(pid: Pid, sops: seq<Sembuf>)
      requires Shaped() && QueueOk(Now()) && Law(Now(), base, drift)
      modifies this`undo
      ensures Shaped() && QueueOk(Now()) && Law(Now(), base, drift)
      ensures Now() == Prepared(old(Now()), pid, sops)
      ensures NeedsUndo(sops) ==> Find(undo, pid) < |undo|
    {
      hide SumAdj;
      WithRecordOk(Now(), pid);
      if NeedsUndo(sops) && Find(undo, pid) == |undo| {
        undo := [Undo(pid, Zeros(semval.Length))] + undo;
      }
    }

    /** The operations go through immediately. */
    method Perform(pid: Pid, sops: seq<Sembuf>) returns (ghost order: seq<nat>)
      requires Valid() && InBounds(sops, semval.Length) && Try(semval[..], sops) == Go
      modifies this, semval, sempid
      ensures Valid() && base == old(base)
      ensures Passed(old(Now()), old(drift), old(woken), pid, sops, order, Now(), drift, woken)
      ensures undoable == (old(undoable) && UndoOnly(sops))
    {
      hide Settled, Woken, Law, Whole, Performed, Prepared, Try, Moved, DriftedBy, QueueOk, AllBlocked, UndoOnly, Keeps, AllKeep;
      ghost var s := Prepared(Now(), pid, sops);
      PreparedWhole(Now(), pid, sops, drift, undoable);
      Prepare(pid, sops);
      PerformedLaw(s, pid, sops, base, drift, undoable);
      ghost var d := DriftedBy(drift, s, pid, sops);
      var race := DoSemop(sops, pid);
      drift, undoable := d, undoable && UndoOnly(sops);
      order := Settle();
    }

    /** `insert_into_queue`. */
    method Enqueue(pid: Pid, sops: seq<Sembuf>)
      requires Valid() && InBounds(sops, semval.Length) && Try(semval[..], sops) == Sleep
      requires forall i :: 0 <= i < |pending| ==> pending[i].pid != pid
      modifies this`pending, this`undo, this`undoable
      ensures Valid() && Now() == Prepared(old(Now()), pid, sops).(pending := old(pending) + [Queued(pid, sops)])
      ensures undoable == (old(undoable) && UndoOnly(sops))
    {
      hide Law, Whole, QueueOk, AllBlocked, Try, Prepared, UndoOnly;
      ghost var s := Prepared(Now(), pid, sops);
      PreparedWhole(Now(), pid, sops, drift, undoable);
      PreparedBlocked(Now(), pid, sops);
      Prepare(pid, sops);
      QueuedLaw(s, Queued(pid, sops), base, drift, undoable);
      undoable := undoable && UndoOnly(sops);
      pending := pending + [Queued(pid, sops)];
    }

    /** The end of an interrupted sleep: the process takes its entry off the queue. */
    method Interrupt(i: nat)
      requires Valid() && i < |pending|
      modifies this`pending
      ensures Valid() && pending == Dropped(old(pending), i)
    {
      hide SumAdj, Try, UndoOnly;
      pending := Dropped(pending, i);
    }

    /** `SETVAL`: adjustments for the semaphore are forgotten. */
    method SetVal(num: nat, val: int) returns (r: Result, ghost order: seq<nat>)
      requires Valid()
      modifies this, semval, sempid
      ensures Valid()
      ensures r == Failed(EINVAL) <==> num >= semval.Length
      ensures r == Failed(ERANGE) <==> num < semval.Length && !(0 <= val <= SEMVMX)
      ensures r.Failed? ==> Now() == old(Now()) && base == old(base) && drift == old(drift)
      ensures !r.Failed? ==> r == Done && base == old(base)[num := val] && Settled(ValueSet(old(Now()), num, val), order, Now())
      ensures !r.Failed? ==> drift == Moved(old(drift)[num := 0], ValueSet(old(Now()), num, val), order)
      ensures undoable == old(undoable)
      ensures woken == old(woken) + if r.Failed? then [] else Woken(ValueSet(old(Now()), num, val), order)
    {
      hide Settled, Woken, SumAdj, Adds, Recorded, Try, Drifts, Forgotten, UndoOnly;
      order := [];
      if num >= semval.Length {
        return Failed(EINVAL), order;
      }
      if val > SEMVMX || val < 0 {
        return Failed(ERANGE), order;
      }
      ghost var s0 := Now();
      ValueSetOk(s0, num, val);
      Forget(num);
      semval[num] := val;
      assert Now() == ValueSet(s0, num, val);
      base, drift := base[num := val], drift[num := 0];
      order := Settle();
      r := Done;
    }

    /** Clear the adjustments for one semaphore. */
    method Forget(num: nat)
      requires Shaped() && num < semval.Length
      modifies this`undo
      ensures undo == Forgotten(old(undo), num)
    {
      var i := 0;
      while i < |undo|
        invariant 0 <= i <= |undo| == |old(undo)|
        invariant forall j :: 0 <= j < |undo| ==>
          undo[j] == if j < i then old(undo)[j].(adj := old(undo)[j].adj[num := 0]) else old(undo)[j]
      {
        undo := undo[i := undo[i].(adj := undo[i].adj[num := 0])];
        i := i + 1;
      }
    }

    /** `SETALL`: all adjustments are forgotten. */
    method SetAll(vals: seq<nat>) returns (r: Result, ghost order: seq<nat>)
      requires Valid() && |vals| == semval.Length
      modifies this, semval, sempid
      ensures Valid()
      ensures r == Failed(ERANGE) <==> !InRange(vals)
      ensures r != Failed(ERANGE) ==> r == Done && base == vals && Settled(AllSet(old(Now()), vals), order, Now())
      ensures r.Failed? ==> Now() == old(Now()) && base == old(base) && drift == old(drift)
      ensures !r.Failed? ==> drift == Moved(Zeros(|vals|), AllSet(old(Now()), vals), order)
      ensures undoable == if r.Failed? then old(undoable) else AllUndoable(old(Now()))
      ensures woken == old(woken) + if r.Failed? then [] else Woken(AllSet(old(Now()), vals), order)
    {
      hide Settled, Woken, SumAdj, Adds, Recorded, Try, Drifts, UndoOnly;
      order := [];
      var i: nat := 0;
      while i < |vals|
        invariant i <= |vals| && forall j :: 0 <= j < i ==> 0 <= vals[j] <= SEMVMX
        modifies {}
      {
        if vals[i] > SEMVMX {
          return Failed(ERANGE), order;
        }
        i := i + 1;
      }
      ghost var s0 := Now();
      i := 0;
      while i < |vals|
        invariant i <= |vals| && forall j :: 0 <= j < i ==> semval[j] == vals[j]
        modifies semval
      {
        semval[i] := vals[i];
        i := i + 1;
      }
      i := 0;
      while i < |undo|
        invariant i <= |undo| == |s0.undo|
        invariant forall j :: 0 <= j < |undo| ==> undo[j] == if j < i then Undo(s0.undo[j].pid, Zeros(|vals|)) else s0.undo[j]
        modifies this`undo
      {
        undo := undo[i := undo[i].(adj := Zeros(semval.Length))];
        i := i + 1;
      }
      assert semval[..] == vals;
      assert Now() == AllSet(s0, vals);
      AllSetOk(s0, vals);
      base, drift, undoable := vals, Zeros(|vals|), AllUndoable(s0);
      order := Settle();
      r := Done;
    }

    /** The adjustments of a process that exits, clamped at zero. */
    method GiveBack(adj: seq<int>, pid: Pid)
      requires |adj| == semval.Length && sempid.Length == semval.Length && semval != sempid
      modifies semval, sempid
      ensures |semval[..]| == |adj| && forall j :: 0 <= j < |adj| ==> semval[..][j] == ExitValue(old(semval[..])[j], adj[j])
      ensures forall j :: 0 <= j < |adj| ==> sempid[..][j] == pid
    {
      ghost var v0 := semval[..];
      var i: nat := 0;
      while i < semval.Length
        invariant i <= semval.Length && forall j :: 0 <= j < i ==> sempid[j] == pid
        invariant forall j :: 0 <= j < semval.Length ==> semval[j] == if j < i then ExitValue(v0[j], adj[j]) else v0[j]
      {
        semval[i] := Short(semval[i] + adj[i]);
        if semval[i] < 0 {
          semval[i] := 0;
        }
        sempid[i] := pid;
        i := i + 1;
      }
    }

    /** Record `u` goes, and its adjustments are made. */
    method Withdraw(u: nat)
      requires Shaped() && SnapOk(Now()) && u < |undo|
      modifies this`undo, semval, sempid
      ensures Shaped() && Now() == Exited(old(Now()), u)
    {
      hide ExitValue, Shorts;
      var record := undo[u];
      undo := Dropped(undo, u);
      GiveBack(record.adj, record.pid);
      assert Now() == Exited(old(Now()), u);
    }

    /** `sem_exit` for a process: it leaves the queue, and the adjustments it recorded are made. */
    method Exit(pid: Pid) returns (ghost order: seq<nat>)
      requires Valid()
      modifies this, semval, sempid
      ensures Valid() && base == old(base)
      ensures var s := Left(old(Now()), pid); var u := Find(s.undo, pid);
        if u < |s.undo| then Settled(Exited(s, u), order, Now()) &&
          drift == Moved(ExitedBy(old(drift), s, u), Exited(s, u), order) && woken == old(woken) + Woken(Exited(s, u), order)
        else Now() == s && drift == old(drift) && woken == old(woken)
      ensures var s := Left(old(Now()), pid); var u := Find(s.undo, pid);
        && undoable == (old(undoable) && (u < |s.undo| ==> forall n :: 0 <= n < |s.vals| ==> NoClamp(s, u, n)))
        && (u < |s.undo| ==> forall n :: 0 <= n < |drift| && NoClamp(s, u, n) && AllKeep(Exited(s, u), order, n) ==>
              drift[n] == old(drift)[n])
    {
      hide Settled, Woken, SumAdj, Try, Drifts, ExitValue, AllUndoable, AllKeep, AllBlocked, QueueOk, Law, Moved, ExitedBy;
      order := [];
      ghost var s0 := Now();
      var q := FindQueued(pending, pid);
      if q < |pending| {
        pending := Dropped(pending, q);
      }
      ghost var s := Left(s0, pid);
      assert Now() == s;
      hide Left, Exited, Whole, NoClamp, SnapOk, Find;
      LeftWhole(s0, pid, base, drift, undoable);
      var u := Find(undo, pid);
      if u < |undo| {
        ghost var d := ExitedBy(drift, s, u);
        ExitedLaw(s, u, base, drift, undoable);
        Withdraw(u);
        drift, undoable := d, undoable && forall n :: 0 <= n < |s.vals| ==> NoClamp(s, u, n);
        order := Settle();
      }
    }

    method CheckNumbers(sops: seq<Sembuf>) returns (ok: bool)
      requires forall i :: 0 <= i < |sops| ==> -32768 <= sops[i].op <= 32767
      ensures ok <==> InBounds(sops, semval.Length)
    {
      var i := 0;
      while i < |sops|
        invariant 0 <= i <= |sops| && forall j :: 0 <= j < i ==> sops[j].num < semval.Length
      {
        if sops[i].num >= semval.Length {
          return false;
        }
        i := i + 1;
      }
      ok := true;
    }
  }

  /** What it comes to when a process does its operations and entries then complete: the state, the drift, which
      stays where the adjustments fit, and who is told what. */
  ghost predicate Passed(s0: Snap, drift0: seq<int>, woken0: seq<(Pid, Outcome)>, pid: Pid, sops: seq<Sembuf>, order: seq<nat>,
                         s': Snap, drift: seq<int>, woken: seq<(Pid, Outcome)>)
  {
    var s := Prepared(s0, pid, sops);
    && SnapOk(s) && InBounds(sops, |s.vals|) && |drift| == |drift0| == |s.vals|
    && var t := Performed(s, pid, sops);
    && Settled(t, order, s') && woken == woken0 + Woken(t, order)
    && drift == Moved(DriftedBy(drift0, s, pid, sops), t, order)
    && forall n :: 0 <= n < |drift| && Keeps(s, pid, sops, n) && AllKeep(t, order, n) ==> drift[n] == drift0[n]
  }

  /** What the exit of a process does to one set. */
  ghost predicate Departed(s0: Snap, drift0: seq<int>, pid: Pid, order: seq<nat>, s': Snap, drift: seq<int>)
  {
    var s := Left(s0, pid);
    var u := Find(s.undo, pid);
    && SnapOk(s) && |drift0| == |s.vals|
    && if u < |s.undo| then Settled(Exited(s, u), order, s') && drift == Moved(ExitedBy(drift0, s, u), Exited(s, u), order)
       else s' == s && drift == drift0
  }

  /** Two sets share no memory. */
  ghost predicate Separate(a: SemSet, b: SemSet)
  {
    a != b && {a.semval, a.sempid} !! {b.semval, b.sempid}
  }

  /** `sem_exit` for all sets of the system, each on its own. */
  method ExitAll(sets: seq<SemSet>, pid: Pid) returns (ghost orders: seq<seq<nat>>)
    requires forall i :: 0 <= i < |sets| ==> sets[i].Valid()
    requires forall i, j :: 0 <= i < j < |sets| ==> Separate(sets[i], sets[j])
    modifies sets, set i | 0 <= i < |sets| :: sets[i].semval, set i | 0 <= i < |sets| :: sets[i].sempid
    ensures |orders| == |sets| && forall i :: 0 <= i < |sets| ==> sets[i].Valid() && sets[i].base == old(sets[i].base)
    ensures forall i :: 0 <= i < |sets| ==>
      Departed(old(sets[i].Now()), old(sets[i].drift), pid, orders[i], sets[i].Now(), sets[i].drift)
  {
    hide Departed;
    orders := [];
    var k := 0;
    while k < |sets|
      invariant 0 <= k <= |sets| && |orders| == k
      invariant forall i :: 0 <= i < |sets| ==> sets[i].Valid() && sets[i].base == old(sets[i].base)
      invariant forall i :: 0 <= i < k ==>
        Departed(old(sets[i].Now()), old(sets[i].drift), pid, orders[i], sets[i].Now(), sets[i].drift)
      invariant forall i :: k <= i < |sets| ==> sets[i].Now() == old(sets[i].Now()) && sets[i].drift == old(sets[i].drift)
    {
      ghost var order := ExitOne(sets, k, pid);
      orders := orders + [order];
      k := k + 1;
    }
  }

  /** The exit of a process from set `k` leaves the others alone. */
  method ExitOne(sets: seq<SemSet>, k: nat, pid: Pid) returns (ghost order: seq<nat>)
    requires k < |sets| && forall i :: 0 <= i < |sets| ==> sets[i].Valid()
    requires forall i, j :: 0 <= i < j < |sets| ==> Separate(sets[i], sets[j])
    modifies sets[k], sets[k].semval, sets[k].sempid
    ensures forall i :: 0 <= i < |sets| ==> sets[i].Valid() && sets[i].base == old(sets[i].base)
    ensures forall i :: 0 <= i < |sets| && i != k ==> sets[i].Now() == old(sets[i].Now()) && sets[i].drift == old(sets[i].drift)
    ensures Departed(old(sets[k].Now()), old(sets[k].drift), pid, order, sets[k].Now(), sets[k].drift)
  {
    hide Law, QueueOk, AllBlocked, Whole, Settled, Moved, Exited, ExitedBy, Left, Find, SnapOk, InRange, Shorts, NoClamp;
    LeftReady(sets[k], pid);
    order := sets[k].Exit(pid);
  }

  lemma LeftReady(a: SemSet, pid: Pid)
    requires a.Valid()
    ensures SnapOk(Left(a.Now(), pid)) && |a.drift| == |Left(a.Now(), pid).vals|
  {
    hide QueueOk, AllBlocked, Whole, SumAdj;
    LeftWhole(a.Now(), pid, a.base, a.drift, a.undoable);
  }

  /** Undo records with the adjustment of semaphore `num` set to zero. */
  function Forgotten(undo: seq<Undo>, num: nat): (r: seq<Undo>)
    requires forall i :: 0 <= i < |undo| ==> num < |undo[i].adj|
    ensures |r| == |undo|
    ensures forall i :: 0 <= i < |undo| ==> r[i] == undo[i].(adj := undo[i].adj[num := 0])
  {
    seq(|undo|, i requires 0 <= i < |undo| => undo[i].(adj := undo[i].adj[num := 0]))
  }

  ghost function ValueSet(s: Snap, num: nat, val: int): Snap
    requires SnapOk(s) && num < |s.vals|
  {
    s.(vals := s.vals[num := val], undo := Forgotten(s.undo, num))
  }

  lemma {:induction false} SumForgotten(undo: seq<Undo>, num: nat, n: nat)
    requires forall i :: 0 <= i < |undo| ==> num < |undo[i].adj| && n < |undo[i].adj|
    ensures SumAdj(Forgotten(undo, num), n) == if n == num then 0 else SumAdj(undo, n)
  {
    if |undo| > 0 {
      assert Forgotten(undo, num)[1..] == Forgotten(undo[1..], num);
      SumForgotten(undo[1..], num, n);
    }
  }

  lemma {:induction false} FindSame(undo: seq<Undo>, undo': seq<Undo>, p: Pid)
    requires |undo| == |undo'| && forall i :: 0 <= i < |undo| ==> undo[i].pid == undo'[i].pid
    ensures Find(undo, p) == Find(undo', p)
  {
    if |undo| > 0 {
      FindSame(undo[1..], undo'[1..], p);
    }
  }

  lemma ValueSetOk(s: Snap, num: nat, val: int)
    requires SnapOk(s) && num < |s.vals| && 0 <= val <= SEMVMX && QueueOk(s)
    ensures SnapOk(ValueSet(s, num, val)) && QueueOk(ValueSet(s, num, val))
    ensures forall n :: 0 <= n < |s.vals| ==> Balanced(ValueSet(s, num, val), n) == if n == num then val else Balanced(s, n)
  {
    forall n | 0 <= n < |s.vals| ensures SumAdj(Forgotten(s.undo, num), n) == if n == num then 0 else SumAdj(s.undo, n) {
      SumForgotten(s.undo, num, n);
    }
    forall p ensures Find(Forgotten(s.undo, num), p) == Find(s.undo, p) {
      FindSame(s.undo, Forgotten(s.undo, num), p);
    }
  }

  ghost function AllSet(s: Snap, vals: seq<int>): Snap
  {
    s.(vals := vals, undo := seq(|s.undo|, i requires 0 <= i < |s.undo| => Undo(s.undo[i].pid, Zeros(|vals|))))
  }

  lemma {:induction false} SumZeros(undo: seq<Undo>, n: nat)
    requires forall i :: 0 <= i < |undo| ==> n < |undo[i].adj| && undo[i].adj[n] == 0
    ensures SumAdj(undo, n) == 0
  {
    if |undo| > 0 {
      SumZeros(undo[1..], n);
    }
  }

  lemma AllSetOk(s: Snap, vals: seq<int>)
    requires SnapOk(s) && |vals| == |s.vals| && InRange(vals) && QueueOk(s)
    ensures SnapOk(AllSet(s, vals)) && QueueOk(AllSet(s, vals))
    ensures forall n :: 0 <= n < |vals| ==> Balanced(AllSet(s, vals), n) == vals[n]
  {
    forall n | 0 <= n < |vals| ensures SumAdj(AllSet(s, vals).undo, n) == 0 {
      SumZeros(AllSet(s, vals).undo, n);
    }
    forall p ensures Find(AllSet(s, vals).undo, p) == Find(s.undo, p) {
      FindSame(s.undo, AllSet(s, vals).undo, p);
    }
  }

  function FindQueued(pending: seq<Queued>, pid: Pid): (i: nat)
    ensures i <= |pending| && (i < |pending| ==> pending[i].pid == pid)
    ensures forall j :: 0 <= j < i ==> pending[j].pid != pid
  {
    if |pending| == 0 || pending[0].pid == pid then 0 else 1 + FindQueued(pending[1..], pid)
  }

  /** The set without the queue entry of an exiting process. */
  ghost function Left(s: Snap, pid: Pid): Snap
  {
    var q := FindQueued(s.pending, pid);
    if q < |s.pending| then s.(pending := Dropped(s.pending, q)) else s
  }

  lemma LeftOk(s: Snap, pid: Pid)
    requires SnapOk(s) && QueueOk(s) && AllBlocked(s)
    ensures SnapOk(Left(s, pid)) && QueueOk(Left(s, pid)) && AllBlocked(Left(s, pid))
    ensures forall i :: 0 <= i < |Left(s, pid).pending| ==> Left(s, pid).pending[i].pid != pid
  {
    hide Try;
  }

  /** A value after an exiting process's adjustment: stored in a `short`, then made non-negative. */
  function ExitValue(v: int, a: int): (r: int)
    ensures 0 <= r <= SEMVMX
    ensures 0 <= v <= SEMVMX && -32768 <= a <= 32767 ==> r == if 0 <= v + a <= SEMVMX then v + a else 0
  {
    if Short(v + a) < 0 then 0 else Short(v + a)
  }

  /** The adjustment of semaphore `n` can be made in full. */
  ghost predicate NoClamp(s: Snap, u: nat, n: nat)
    requires SnapOk(s) && u < |s.undo| && n < |s.vals|
  {
    0 <= s.vals[n] + s.undo[u].adj[n] <= SEMVMX
  }

  /** The clamp that the code expects never to fire, at both ends. */
  lemma ClampFires()
    ensures ExitValue(0, -1) == 0 && ExitValue(32767, 32767) == 0
  {
  }

  ghost function Exited(s: Snap, u: nat): Snap
    requires SnapOk(s) && u < |s.undo|
  {
    s.(vals := seq(|s.vals|, n requires 0 <= n < |s.vals| => ExitValue(s.vals[n], s.undo[u].adj[n])),
       pids := seq(|s.pids|, _ => s.undo[u].pid),
       undo := Dropped(s.undo, u))
  }

  lemma ExitedOk(s: Snap, u: nat)
    requires SnapOk(s) && QueueOk(s) && u < |s.undo|
    requires forall i :: 0 <= i < |s.pending| ==> s.pending[i].pid != s.undo[u].pid
    ensures SnapOk(Exited(s, u)) && QueueOk(Exited(s, u))
    ensures forall n :: 0 <= n < |s.vals| ==>
      Balanced(Exited(s, u), n) == Balanced(s, n) + ExitValue(s.vals[n], s.undo[u].adj[n]) - s.vals[n] - s.undo[u].adj[n]
    ensures forall n :: 0 <= n < |s.vals| ==> (Balanced(Exited(s, u), n) == Balanced(s, n) <==> NoClamp(s, u, n))
  {
    hide ExitValue;
    forall n | 0 <= n < |s.vals| ensures SumAdj(Dropped(s.undo, u), n) == SumAdj(s.undo, n) - s.undo[u].adj[n] {
      SumDrop(s.undo, u, n);
    }
    forall i | 0 <= i < |s.pending| && NeedsUndo(s.pending[i].sops)
      ensures Find(Dropped(s.undo, u), s.pending[i].pid) < |s.undo| - 1
    {
      var k, p := Find(s.undo, s.pending[i].pid), s.pending[i].pid;
      var j := if k < u then k else k - 1;
      assert Dropped(s.undo, u)[j].pid == p;
    }
  }

  datatype Errno = EINVAL | E2BIG | EFBIG | ERANGE | EAGAIN

  datatype Result = Done | Asleep | Failed(errno: Errno)

  /** Value and live adjustments of each semaphore sum to the value last set, but for the drift. */
  ghost predicate Law(s: Snap, base: seq<int>, drift: seq<int>)
  {
    SnapOk(s) && |base| == |drift| == |s.vals| && forall n :: 0 <= n < |base| ==> Balanced(s, n) == base[n] + drift[n]
  }

  /** What is lost is lost by overflow alone, now and when the queue is done. */
  ghost predicate Whole(s: Snap, drift: seq<int>)
  {
    AllUndoable(s) && forall n :: 0 <= n < |drift| ==> drift[n] % 65536 == 0
  }

  lemma DriftsWhole(s: Snap, pid: Pid, sops: seq<Sembuf>, drift: seq<int>, undoable: bool)
    requires SnapOk(s) && InBounds(sops, |s.vals|) && |drift| == |s.vals| && (NeedsUndo(sops) ==> Find(s.undo, pid) < |s.undo|)
    requires undoable ==> Whole(s, drift)
    ensures undoable && UndoOnly(sops) ==> Whole(Performed(s, pid, sops), DriftedBy(drift, s, pid, sops))
    ensures forall n :: 0 <= n < |drift| && Keeps(s, pid, sops, n) ==> DriftedBy(drift, s, pid, sops)[n] == drift[n]
  {
    hide Drift, Keeps, UndoOnly, Adds, Recorded, Stamped;
    forall n | 0 <= n < |drift|
      ensures Keeps(s, pid, sops, n) ==> Drift(s, pid, sops, n) == 0
      ensures undoable && UndoOnly(sops) ==> (drift[n] + Drift(s, pid, sops, n)) % 65536 == 0
    {
      DriftMeans(s, pid, sops, n);
      if undoable && UndoOnly(sops) {
        DriftUndone(s, pid, sops, n);
        Multiples(drift[n], Drift(s, pid, sops, n));
      }
    }
  }

  lemma PreparedWhole(s: Snap, pid: Pid, sops: seq<Sembuf>, drift: seq<int>, undoable: bool)
    requires undoable ==> Whole(s, drift)
    ensures undoable ==> Whole(Prepared(s, pid, sops), drift)
    ensures Prepared(s, pid, sops).pending == s.pending && Prepared(s, pid, sops).vals == s.vals
  {
  }

  /** A process gets an undo record exactly if one of its operations asks for undoing and it has none. */
  lemma NewRecord(s: Snap, pid: Pid, sops: seq<Sembuf>)
    ensures Prepared(s, pid, sops).undo == s.undo <==>
      (forall i :: 0 <= i < |sops| ==> !sops[i].undo) || exists j :: 0 <= j < |s.undo| && s.undo[j].pid == pid
  {
  }

  lemma PreparedBlocked(s: Snap, pid: Pid, sops: seq<Sembuf>)
    requires SnapOk(s) && AllBlocked(s)
    ensures SnapOk(Prepared(s, pid, sops)) && AllBlocked(Prepared(s, pid, sops))
  {
    hide Try, SumAdj;
    WithRecordOk(s, pid);
  }

  /** The books with a new entry in the queue. */
  lemma QueuedLaw(s: Snap, q: Queued, base: seq<int>, drift: seq<int>, undoable: bool)
    requires Law(s, base, drift) && QueueOk(s) && AllBlocked(s) && InBounds(q.sops, |s.vals|) && Try(s.vals, q.sops) == Sleep
    requires (forall i :: 0 <= i < |s.pending| ==> s.pending[i].pid != q.pid)
    requires (NeedsUndo(q.sops) ==> Find(s.undo, q.pid) < |s.undo|) && (undoable ==> Whole(s, drift))
    ensures var s' := s.(pending := s.pending + [q]);
      Law(s', base, drift) && QueueOk(s') && AllBlocked(s') && (undoable && UndoOnly(q.sops) ==> Whole(s', drift))
  {
    hide Try, SumAdj, UndoOnly, Find, NeedsUndo;
  }

  /** The books after a process has done its operations. */
  lemma PerformedLaw(s: Snap, pid: Pid, sops: seq<Sembuf>, base: seq<int>, drift: seq<int>, undoable: bool)
    requires Law(s, base, drift) && QueueOk(s) && InBounds(sops, |s.vals|) && Try(s.vals, sops) == Go
    requires (NeedsUndo(sops) ==> Find(s.undo, pid) < |s.undo|) && (undoable ==> Whole(s, drift))
    ensures SnapOk(s) && |drift| == |s.vals|
    ensures var s', d := Performed(s, pid, sops), DriftedBy(drift, s, pid, sops);
      QueueOk(s') && Law(s', base, d) && (undoable && UndoOnly(sops) ==> Whole(s', d))
    ensures forall n :: 0 <= n < |drift| && Keeps(s, pid, sops, n) ==> DriftedBy(drift, s, pid, sops)[n] == drift[n]
  {
    hide Balanced, QueueOk, Whole, Keeps, UndoOnly, Drift, Try, Performed, DriftedBy;
    PerformedReady(s, pid, sops);
    DriftsWhole(s, pid, sops, drift, undoable);
    assert |Performed(s, pid, sops).vals| == |s.vals| by { PerformedSize(s, pid, sops); }
  }

  lemma PerformedSize(s: Snap, pid: Pid, sops: seq<Sembuf>)
    requires SnapOk(s) && InBounds(sops, |s.vals|)
    ensures |Performed(s, pid, sops).vals| == |s.vals|
  {
  }

  /** The books after a process has exited. */
  lemma ExitedLaw(s: Snap, u: nat, base: seq<int>, drift: seq<int>, undoable: bool)
    requires Law(s, base, drift) && QueueOk(s) && u < |s.undo| && (undoable ==> Whole(s, drift))
    requires forall i :: 0 <= i < |s.pending| ==> s.pending[i].pid != s.undo[u].pid
    ensures var s', d := Exited(s, u), ExitedBy(drift, s, u);
      && SnapOk(s') && QueueOk(s') && Law(s', base, d)
      && (undoable && (forall n :: 0 <= n < |s.vals| ==> NoClamp(s, u, n)) ==> Whole(s', d))
    ensures forall n :: 0 <= n < |drift| && NoClamp(s, u, n) ==> ExitedBy(drift, s, u)[n] == drift[n]
  {
    hide Balanced, QueueOk, ExitValue, UndoOnly;
    ExitedOk(s, u);
    ExitDrift(drift, s, u);
  }

  lemma LeftWhole(s: Snap, pid: Pid, base: seq<int>, drift: seq<int>, undoable: bool)
    requires Law(s, base, drift) && QueueOk(s) && AllBlocked(s) && (undoable ==> Whole(s, drift))
    ensures var s' := Left(s, pid);
      && Law(s', base, drift) && SnapOk(s') && |drift| == |s'.vals| && QueueOk(s') && AllBlocked(s')
      && (undoable ==> Whole(s', drift)) && forall i :: 0 <= i < |s'.pending| ==> s'.pending[i].pid != pid
  {
    hide SumAdj, UndoOnly, Try, QueueOk, AllBlocked;
    LeftOk(s, pid);
  }

  lemma DriftUndone(s: Snap, pid: Pid, sops: seq<Sembuf>, n: nat)
    requires SnapOk(s) && n < |s.vals| && UndoOnly(sops) && (NeedsUndo(sops) ==> Find(s.undo, pid) < |s.undo|)
    ensures Drift(s, pid, sops, n) % 65536 == 0
  {
    DriftMeans(s, pid, sops, n);
    if Find(s.undo, pid) == |s.undo| {
      NothingDone(sops, n);
    }
  }

  lemma {:induction false} ReachedUndoable(s: Snap, order: seq<nat>, s': Snap)
    requires Reached(s, order, s')
    ensures AllUndoable(s) ==> AllUndoable(s')
    decreases |order|
  {
    hide UndoOnly, Try, Performed;
    if |order| > 0 {
      var s1 := Completed(s, order[0]);
      assert AllUndoable(s) ==> forall i :: 0 <= i < |s1.pending| ==> UndoOnly(s1.pending[i].sops);
      ReachedUndoable(s1, order[1..], s');
    }
  }

  lemma ExitDrift(drift: seq<int>, s: Snap, u: nat)
    requires SnapOk(s) && |drift| == |s.vals| && u < |s.undo|
    ensures forall n :: 0 <= n < |drift| && NoClamp(s, u, n) ==> ExitedBy(drift, s, u)[n] == drift[n]
  {
  }

  /** The drift after completions. */
  ghost function Moved(drift: seq<int>, s: Snap, order: seq<nat>): (r: seq<int>)
    ensures |r| == |drift| && forall n :: 0 <= n < |r| ==> r[n] == drift[n] + Drifts(s, order, n)
  {
    seq(|drift|, n requires 0 <= n < |drift| => drift[n] + Drifts(s, order, n))
  }

  /** The drift after a process has done its operations. */
  ghost function DriftedBy(drift: seq<int>, s: Snap, pid: Pid, sops: seq<Sembuf>): (r: seq<int>)
    requires SnapOk(s) && |drift| == |s.vals|
    ensures |r| == |drift| && forall n :: 0 <= n < |r| ==> r[n] == drift[n] + Drift(s, pid, sops, n)
  {
    seq(|drift|, n requires 0 <= n < |drift| => drift[n] + Drift(s, pid, sops, n))
  }

  /** The drift after a process has made the adjustments of record `u`. */
  ghost function ExitedBy(drift: seq<int>, s: Snap, u: nat): (r: seq<int>)
    requires SnapOk(s) && |drift| == |s.vals| && u < |s.undo|
    ensures |r| == |drift| && forall n :: 0 <= n < |r| ==>
      r[n] == drift[n] + ExitValue(s.vals[n], s.undo[u].adj[n]) - s.vals[n] - s.undo[u].adj[n]
  {
    seq(|drift|, n requires 0 <= n < |drift| =>
      drift[n] + ExitValue(s.vals[n], s.undo[u].adj[n]) - s.vals[n] - s.undo[u].adj[n])
  }

  /** The set once a process that needs an undo record has one. */
  ghost function Prepared(s: Snap, pid: Pid, sops: seq<Sembuf>): Snap
  {
    if NeedsUndo(sops) then WithRecord(s, pid) else s
  }

  lemma PerformedReady(s: Snap, pid: Pid, sops: seq<Sembuf>)
    requires SnapOk(s) && InBounds(sops, |s.vals|) && QueueOk(s) && Try(s.vals, sops) == Go
    ensures SnapOk(Performed(s, pid, sops)) && QueueOk(Performed(s, pid, sops))
    ensures forall n :: 0 <= n < |s.vals| ==> Balanced(Performed(s, pid, sops), n) == Balanced(s, n) + Drift(s, pid, sops, n)
  {
    SameRecords(s.undo, pid, sops, |s.vals|);
    PerformedOk(s, pid, sops);
    hide Adds, Recorded, TryFrom, Balanced, Drift;
    forall n | 0 <= n < |s.vals| ensures Balanced(Performed(s, pid, sops), n) == Balanced(s, n) + Drift(s, pid, sops, n) {
      PerformedKeeps(s, pid, sops, n);
    }
  }

  lemma RecordedNone(undo: seq<Undo>, pid: Pid, sops: seq<Sembuf>, nsems: nat)
    requires InBounds(sops, nsems) && forall i :: 0 <= i < |undo| ==> |undo[i].adj| == nsems
    ensures Recorded(undo, pid, sops[..0], nsems) == undo
  {
  }

  lemma RecordedStep(undo: seq<Undo>, pid: Pid, sops: seq<Sembuf>, nsems: nat, i: nat)
    requires InBounds(sops, nsems) && forall j :: 0 <= j < |undo| ==> |undo[j].adj| == nsems
    requires i < |sops|
    ensures var un, sop, before := Find(undo, pid), sops[i], Recorded(undo, pid, sops[..i], nsems);
      Recorded(undo, pid, sops[..i + 1], nsems) ==
      if un < |undo| && sop.undo && sop.op != 0
      then before[un := Undo(pid, before[un].adj[sop.num := Short(before[un].adj[sop.num] - sop.op)])]
      else before
  {
    hide Short;
    assert sops[..i + 1][..i] == sops[..i];
  }

  lemma StampedNone(pids: seq<Pid>, pid: Pid, sops: seq<Sembuf>)
    requires InBounds(sops, |pids|)
    ensures Stamped(pids, pid, sops[..0]) == pids
  {
  }

  lemma StampedStep(pids: seq<Pid>, pid: Pid, sops: seq<Sembuf>, i: nat)
    requires InBounds(sops, |pids|) && i < |sops|
    ensures Stamped(pids, pid, sops[..i + 1]) == Stamped(pids, pid, sops[..i])[sops[i].num := pid]
  {
    assert sops[..i + 1][..i] == sops[..i];
  }

  lemma TryStep(vals: seq<int>, sops: seq<Sembuf>, i: nat)
    requires InBounds(sops, |vals|) && i < |sops|
    ensures var w := Verdict(Adds(vals, sops[..i])[sops[i].num], sops[i]);
      TryFrom(vals, sops, i) == if w == Go then TryFrom(vals, sops, i + 1) else w
  {
  }

  lemma TryEnd(vals: seq<int>, sops: seq<Sembuf>)
    requires InBounds(sops, |vals|)
    ensures TryFrom(vals, sops, |sops|) == Go
  {
  }
}
