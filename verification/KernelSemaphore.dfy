/**
 The kernel semaphores of `kernel/sched.c`: `down` and `up` change `count` atomically, and
 contention is settled in `__do_down` and `__up` through `waking`.

 Each step below is one atomic action of one task, so runs interleave freely.
 */
module KernelSemaphore {
  import opened Common

  type Tid = nat

  /** The two counters, the tasks inside `__do_down` (`refused` are those that saw no wake-up
      and are about to give up because of a signal), the tasks between the two halves of `up`,
      and how many more downs than ups have gone through. */
  datatype Sem = Sem(count: int, waking: int, asleep: set<Tid>, refused: set<Tid>, upping: set<Tid>, held: int)

  datatype Step =
    | Down(t: Tid)                    // decrement count; sleep if negative
    | Up(t: Tid)                      // increment count; call __up if it was negative
    | WakeUp(t: Tid)                  // __up: increment waking
    | Check(t: Tid, signalled: bool)  // waking_non_zero, then the signal test
    | GiveUp(t: Tid)                  // increment count and return -EINTR

  function Initial(n: nat): Sem
  {
    Sem(n, 0, {}, {}, {}, 0)
  }

  function Busy(s: Sem): set<Tid>
  {
    s.asleep + s.refused + s.upping
  }

  predicate Enabled(s: Sem, a: Step)
  {
    match a
    case Down(t) => t !in Busy(s)
    case Up(t) => t !in Busy(s)
    case WakeUp(t) => t in s.upping
    case Check(t, _) => t in s.asleep
    case GiveUp(t) => t in s.refused
  }

  function After(s: Sem, a: Step): Sem
  {
    match a
    case Down(t) =>
      if s.count - 1 >= 0 then s.(count := s.count - 1, held := s.held + 1)
      else s.(count := s.count - 1, asleep := s.asleep + {t})
    case Up(t) =>
      if s.count + 1 <= 0 then s.(count := s.count + 1, held := s.held - 1, upping := s.upping + {t})
      else s.(count := s.count + 1, held := s.held - 1)
    case WakeUp(t) => s.(waking := s.waking + 1, upping := s.upping - {t})
    case Check(t, signalled) =>
      if s.waking > 0 then s.(waking := s.waking - 1, asleep := s.asleep - {t}, held := s.held + 1)
      else if signalled then s.(asleep := s.asleep - {t}, refused := s.refused + {t})
      else s
    case GiveUp(t) => s.(count := s.count + 1, refused := s.refused - {t})
  }

  /** State after a run from a semaphore that starts with `n` permits. */
  function State(n: nat, run: seq<Step>): Sem
  {
    if |run| == 0 then Initial(n) else After(State(n, run[..|run| - 1]), run[|run| - 1])
  }

  predicate Legal(n: nat, run: seq<Step>)
  {
    |run| == 0 || (Legal(n, run[..|run| - 1]) && Enabled(State(n, run[..|run| - 1]), run[|run| - 1]))
  }

  /** A give-up that finds `count` already raised by an `up` which counted on this task. */
  predicate Leaky(s: Sem, a: Step)
  {
    a.GiveUp? && s.count >= 0
  }

  function Leaks(n: nat, run: seq<Step>): nat
  {
    if |run| == 0 then 0
    else Leaks(n, run[..|run| - 1]) + if Leaky(State(n, run[..|run| - 1]), run[|run| - 1]) then 1 else 0
  }

  function Waiters(s: Sem): nat
  {
    |s.asleep| + |s.refused|
  }

  ghost predicate Accounts(n: nat, s: Sem, leaks: nat)
  {
    && s.asleep !! s.refused && s.asleep !! s.upping && s.refused !! s.upping
    && s.waking >= 0
    && s.count == n - s.held - Waiters(s)
    && s.waking + |s.upping| == Min(Waiters(s), n - s.held) + leaks
  }

  lemma StepAccounts(n: nat, s: Sem, leaks: nat, a: Step)
    requires Accounts(n, s, leaks) && Enabled(s, a)
    ensures Accounts(n, After(s, a), leaks + if Leaky(s, a) then 1 else 0)
  {
    match a
    case Down(t) => DownAccounts(n, s, leaks, t);
    case Up(t) => UpAccounts(n, s, leaks, t);
    case WakeUp(t) => Counted(s.upping, t);
    case Check(t, signalled) => CheckAccounts(n, s, leaks, t, signalled);
    case GiveUp(t) => Counted(s.refused, t);
  }

  lemma DownAccounts(n: nat, s: Sem, leaks: nat, t: Tid)
    requires Accounts(n, s, leaks) && t !in Busy(s)
    ensures Accounts(n, After(s, Down(t)), leaks)
  {
    Counted(s.asleep, t);
  }

  lemma UpAccounts(n: nat, s: Sem, leaks: nat, t: Tid)
    requires Accounts(n, s, leaks) && t !in Busy(s)
    ensures Accounts(n, After(s, Up(t)), leaks)
  {
    Counted(s.upping, t);
  }

  lemma CheckAccounts(n: nat, s: Sem, leaks: nat, t: Tid, signalled: bool)
    requires Accounts(n, s, leaks) && t in s.asleep
    ensures Accounts(n, After(s, Check(t, signalled)), leaks)
  {
    Counted(s.asleep, t);
    Counted(s.refused, t);
  }

  lemma Counted(s: set<Tid>, t: Tid)
    ensures t in s ==> |s - {t}| == |s| - 1 && |s| >= 1
    ensures t !in s ==> |s + {t}| == |s| + 1
  {
    if t in s {
      assert s == (s - {t}) + {t};
    }
  }

  /** Over every run: `count` is the permits left minus the waiters, and there are as many wake
      permits, posted or about to be, as waiters that could go on, plus one for each leak. */
  lemma {:induction false} RunAccounts(n: nat, run: seq<Step>)
    requires Legal(n, run)
    ensures Accounts(n, State(n, run), Leaks(n, run))
  {
    if |run| > 0 {
      var before := run[..|run| - 1];
      RunAccounts(n, before);
      StepAccounts(n, State(n, before), Leaks(n, before), run[|run| - 1]);
    }
  }

  /** Without leaks: never more holders than permits, and a free permit with a waiter always
      has a wake permit on its way. */
  lemma Exclusion(n: nat, run: seq<Step>)
    requires Legal(n, run) && Leaks(n, run) == 0
    ensures var s := State(n, run);
      s.held <= n && (Waiters(s) > 0 && s.held < n ==> s.waking + |s.upping| > 0)
  {
    RunAccounts(n, run);
  }

  /** A give-up leaks exactly when every waiter, the one giving up included, has a wake permit
      coming: then nobody is left to use its permit. */
  lemma GiveUpLeaks(n: nat, run: seq<Step>, t: Tid)
    requires Legal(n, run) && t in State(n, run).refused
    ensures var s := State(n, run);
      Leaky(s, GiveUp(t)) <==> s.waking + |s.upping| == Waiters(s) + Leaks(n, run)
  {
    RunAccounts(n, run);
  }

  /** A check and give-up that nothing comes between leaks exactly when all waiters have an `up`
      that is half done. */
  lemma AtomicGiveUp(n: nat, run: seq<Step>, t: Tid)
    requires Legal(n, run) && t in State(n, run).asleep && State(n, run).waking == 0
    ensures var s := State(n, run);
      Leaky(After(s, Check(t, true)), GiveUp(t)) <==> |s.upping| == Waiters(s) + Leaks(n, run)
  {
    RunAccounts(n, run);
    var s := State(n, run);
    Counted(s.asleep, t);
    Counted(s.refused, t);
  }

  /** A run is free of leaks exactly when each give-up in it leaves a waiter for every permit. */
  lemma {:induction false} LeakFreeIff(n: nat, run: seq<Step>)
    requires Legal(n, run)
    ensures Leaks(n, run) == 0 <==> forall k :: 0 <= k < |run| && run[k].GiveUp? ==> LeavesOne(State(n, run[..k]))
  {
    hide State, After, Waiters, LeavesOne;
    if |run| > 0 {
      var before, a := run[..|run| - 1], run[|run| - 1];
      LeakFreeIff(n, before);
      forall k | 0 <= k < |before| ensures run[k] == before[k] && run[..k] == before[..k] {
      }
      if a.GiveUp? && Leaks(n, before) == 0 {
        LeavesOneIff(n, before, a.t);
      }
    }
  }

  /** Fewer wake permits, posted or about to be, than waiters. */
  ghost predicate LeavesOne(s: Sem)
  {
    s.waking + |s.upping| < Waiters(s)
  }

  lemma LeavesOneIff(n: nat, run: seq<Step>, t: Tid)
    requires Legal(n, run) && t in State(n, run).refused && Leaks(n, run) == 0
    ensures LeavesOne(State(n, run)) <==> !Leaky(State(n, run), GiveUp(t))
  {
    RunAccounts(n, run);
  }

  /** One holder, one waiter that sees a signal and no permit, then an `up`, then the give-up. */
  lemma LeakHappens()
    ensures var run := [Down(0), Down(1), Check(1, true), Up(0), GiveUp(1)];
      Legal(1, run) && Leaks(1, run) == 1
  {
    hide Legal, Leaks, State;
    FromNothing(1);
    assert [] + [Down(0)] == [Down(0)];
    Extend(1, [], Down(0));
    assert [Down(0)] + [Down(1)] == [Down(0), Down(1)];
    Extend(1, [Down(0)], Down(1));
    assert [Down(0), Down(1)] + [Check(1, true)] == [Down(0), Down(1), Check(1, true)];
    Extend(1, [Down(0), Down(1)], Check(1, true));
    assert [Down(0), Down(1), Check(1, true)] + [Up(0)] == [Down(0), Down(1), Check(1, true), Up(0)];
    Extend(1, [Down(0), Down(1), Check(1, true)], Up(0));
    assert [Down(0), Down(1), Check(1, true), Up(0)] + [GiveUp(1)] == [Down(0), Down(1), Check(1, true), Up(0), GiveUp(1)];
    Extend(1, [Down(0), Down(1), Check(1, true), Up(0)], GiveUp(1));
  }

  lemma FromNothing(n: nat)
    ensures Legal(n, []) && State(n, []) == Initial(n) && Leaks(n, []) == 0
  {
  }

  lemma Extend(n: nat, run: seq<Step>, a: Step)
    requires Legal(n, run) && Enabled(State(n, run), a)
    ensures Legal(n, run + [a]) && State(n, run + [a]) == After(State(n, run), a)
    ensures Leaks(n, run + [a]) == Leaks(n, run) + if Leaky(State(n, run), a) then 1 else 0
  {
    assert (run + [a])[..|run|] == run;
  }

  lemma FreshTid(s: set<Tid>) returns (t: Tid)
    ensures t !in s
  {
    t := 0;
    var rest := s;
    while rest != {}
      invariant forall x :: x in s && x !in rest ==> x < t
      decreases rest
    {
      var x :| x in rest;
      rest := rest - {x};
      t := if x < t then t else x + 1;
    }
  }

  /** After a leak exclusion is lost for good: some continuation has more holders than permits. */
  lemma LeakOverbooks(n: nat, run: seq<Step>) returns (run': seq<Step>)
    requires Legal(n, run) && Leaks(n, run) > 0
    ensures run <= run' && Legal(n, run') && State(n, run').held > n && Leaks(n, run') == Leaks(n, run)
  {
    run' := run;
    while State(n, run').upping != {}
      invariant run <= run' && Legal(n, run') && Leaks(n, run') == Leaks(n, run)
      decreases State(n, run').upping
    {
      var t :| t in State(n, run').upping;
      Extend(n, run', WakeUp(t));
      run' := run' + [WakeUp(t)];
    }
    while State(n, run').held <= n
      invariant run <= run' && Legal(n, run') && Leaks(n, run') == Leaks(n, run) && State(n, run').upping == {}
      decreases n - State(n, run').held
    {
      RunAccounts(n, run');
      run' := OneMoreHolder(n, run');
    }
  }

  /** Exactly after a leak can tasks overbook the semaphore without another one. */
  lemma OverbooksIff(n: nat, run: seq<Step>)
    requires Legal(n, run)
    ensures Leaks(n, run) > 0 <==>
      exists run' :: run <= run' && Legal(n, run') && Leaks(n, run') == Leaks(n, run) && State(n, run').held > n
  {
    if Leaks(n, run) > 0 {
      var run' := LeakOverbooks(n, run);
    } else {
      forall run' | run <= run' && Legal(n, run') && Leaks(n, run') == 0 ensures State(n, run').held <= n {
        Exclusion(n, run');
      }
    }
  }

  lemma OneMoreHolder(n: nat, run: seq<Step>) returns (run': seq<Step>)
    requires Legal(n, run) && Leaks(n, run) > 0
    requires State(n, run).upping == {} && State(n, run).held <= n
    ensures run <= run' && Legal(n, run') && Leaks(n, run') == Leaks(n, run)
    ensures State(n, run').upping == {} && State(n, run').held == State(n, run).held + 1
  {
    RunAccounts(n, run);
    hide State, Legal, Leaks;
    run' := run;
    var t;
    if State(n, run).asleep == {} {
      t := FreshTid(Busy(State(n, run)));
      Extend(n, run, Down(t));
      run' := run + [Down(t)];
      if State(n, run').held == State(n, run).held + 1 {
        return;
      }
    } else {
      t :| t in State(n, run).asleep;
    }
    Extend(n, run', Check(t, false));
    run' := run' + [Check(t, false)];
  }

  /** `struct semaphore`, with the run that led to its present state. */
  class Semaphore {
    var count: int
    var waking: int
    ghost const permits: nat
    ghost var run: seq<Step>

    ghost predicate Valid()
      reads this
    {
      Legal(permits, run) && Now().count == count && Now().waking == waking
    }

    ghost function Now(): Sem
      reads this
    {
      State(permits, run)
    }

    constructor (n: nat)
      ensures Valid() && permits == n && run == []
    {
      count, waking, permits, run := n, 0, n, [];
    }

    /** `down` up to the call of `__do_down`. */
    method Down(t: Tid) returns (sleep: bool)
      requires Valid() && t !in Busy(Now())
      modifies this
      ensures Valid() && run == old(run) + [Step.Down(t)]
      ensures sleep <==> t in Now().asleep
    {
      Extend(permits, run, Step.Down(t));
      run := run + [Step.Down(t)];
      count := count - 1;
      sleep := count < 0;
    }

    /** `up` up to the call of `__up`. */
    method Up(t: Tid) returns (wake: bool)
      requires Valid() && t !in Busy(Now())
      modifies this
      ensures Valid() && run == old(run) + [Step.Up(t)]
      ensures wake <==> t in Now().upping
    {
      Extend(permits, run, Step.Up(t));
      run := run + [Step.Up(t)];
      count := count + 1;
      wake := count <= 0;
    }

    /** `__up`. */
    method WakeUp(t: Tid)
      requires Valid() && t in Now().upping
      modifies this
      ensures Valid() && run == old(run) + [Step.WakeUp(t)]
    {
      Extend(permits, run, Step.WakeUp(t));
      run := run + [Step.WakeUp(t)];
      waking := waking + 1;
    }

    /** One round of the loop of `__do_down`: `waking_non_zero`, then the signal test. */
    method Check(t: Tid, signalled: bool) returns (acquired: bool, giveUp: bool)
      requires Valid() && t in Now().asleep
      modifies this
      ensures Valid() && run == old(run) + [Step.Check(t, signalled)]
      ensures acquired <==> old(waking) > 0
      ensures giveUp <==> t in Now().refused
    {
      RunAccounts(permits, run);
      Extend(permits, run, Step.Check(t, signalled));
      run := run + [Step.Check(t, signalled)];
      acquired := waking > 0;
      if acquired {
        waking := waking - 1;
      }
      giveUp := !acquired && signalled;
    }

    /** The interrupted exit of `__do_down`. */
    method GiveUp(t: Tid)
      requires Valid() && t in Now().refused
      modifies this
      ensures Valid() && run == old(run) + [Step.GiveUp(t)]
    {
      Extend(permits, run, Step.GiveUp(t));
      run := run + [Step.GiveUp(t)];
      count := count + 1;
    }
  }
}
