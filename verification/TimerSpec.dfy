/**
 What the timer wheel of `kernel/sched.c` is for: a plain set of timers, each with the tick at
 which it is due, and a log of what happened to them.
 */
module TimerSpec {

  type Id = nat

  datatype Event =
    | Added(id: Id, expires: nat)
    | Deleted(id: Id)
    | Fired(id: Id)
    | Tick

  datatype Plain = Plain(now: nat, pending: map<Id, nat>)

  function Due(expires: nat, now: nat): nat
  {
    if expires < now then now else expires
  }

  /** A timer fires in the tick it is due, and a tick ends only when none is due any more. */
  predicate Can(p: Plain, e: Event)
  {
    match e
    case Added(id, _) => id !in p.pending
    case Deleted(id) => id in p.pending
    case Fired(id) => id in p.pending && p.pending[id] == p.now
    case Tick => forall id :: id in p.pending ==> p.pending[id] != p.now
  }

  function Step(p: Plain, e: Event): Plain
  {
    match e
    case Added(id, expires) => p.(pending := p.pending[id := Due(expires, p.now)])
    case Deleted(id) => p.(pending := p.pending - {id})
    case Fired(id) => p.(pending := p.pending - {id})
    case Tick => p.(now := p.now + 1)
  }

  function Play(log: seq<Event>): Plain
  {
    if |log| == 0 then Plain(0, map[]) else Step(Play(log[..|log| - 1]), log[|log| - 1])
  }

  predicate Legal(log: seq<Event>)
  {
    |log| == 0 || (Legal(log[..|log| - 1]) && Can(Play(log[..|log| - 1]), log[|log| - 1]))
  }

  lemma Append(log: seq<Event>, e: Event)
    requires Legal(log) && Can(Play(log), e)
    ensures Legal(log + [e]) && Play(log + [e]) == Step(Play(log), e)
  {
    assert (log + [e])[..|log|] == log;
  }

  lemma {:induction false} PrefixLegal(log: seq<Event>, j: nat)
    requires Legal(log) && j <= |log|
    ensures Legal(log[..j])
    ensures j < |log| ==> Can(Play(log[..j]), log[j]) && Play(log[..j + 1]) == Step(Play(log[..j]), log[j])
  {
    if j < |log| - 1 {
      var before := log[..|log| - 1];
      PrefixLegal(before, j);
      assert before[..j] == log[..j] && before[..j + 1] == log[..j + 1];
    } else if j < |log| {
      assert log[..j + 1] == log;
    } else {
      assert log[..j] == log;
    }
  }

  lemma {:induction false} NothingOverdue(log: seq<Event>)
    requires Legal(log)
    ensures forall id :: id in Play(log).pending ==> Play(log).pending[id] >= Play(log).now
  {
    if |log| > 0 {
      NothingOverdue(log[..|log| - 1]);
    }
  }

  /** Timer `id`, added by event `i`, is not deleted or added again before event `j`. */
  ghost predicate LeftAlone(log: seq<Event>, i: nat, j: nat, id: Id)
    requires i < j <= |log|
  {
    forall k :: i < k < j ==> log[k] != Deleted(id) && !(log[k].Added? && log[k].id == id)
  }

  /** Events from `i` to `j` neither delete the timer nor add it. */
  ghost predicate Untouched(log: seq<Event>, i: nat, j: nat, id: Id)
    requires i <= j <= |log|
  {
    forall k :: i <= k < j ==> log[k] != Deleted(id) && !(log[k].Added? && log[k].id == id)
  }

  /** A timer pending before event `i` and untouched up to event `j` is still pending, or has fired
      once, in the tick it was due. */
  lemma {:induction false} FateFrom(log: seq<Event>, i: nat, j: nat, id: Id) returns (k: nat)
    requires Legal(log) && i <= j <= |log| && Untouched(log, i, j, id) && id in Play(log[..i]).pending
    ensures var due := Play(log[..i]).pending[id];
      if k == j
      then id in Play(log[..j]).pending && Play(log[..j]).pending[id] == due && (forall x :: i <= x < j ==> log[x] != Fired(id))
      else i <= k < j && log[k] == Fired(id) && Play(log[..k]).now == due && id !in Play(log[..j]).pending &&
           (forall x :: i <= x < j && x != k ==> log[x] != Fired(id))
    decreases j
  {
    hide Legal, Play;
    if j == i {
      k := j;
    } else {
      PrefixLegal(log, j - 1);
      k := FateFrom(log, i, j - 1, id);
      if k == j - 1 && log[j - 1] != Fired(id) {
        k := j;
      }
    }
  }

  /** By event `j` the timer is still pending, or has fired once, in the tick it was due. */
  lemma Fate(log: seq<Event>, i: nat, j: nat) returns (k: nat)
    requires Legal(log) && i < j <= |log| && log[i].Added? && LeftAlone(log, i, j, log[i].id)
    ensures var id, due := log[i].id, Due(log[i].expires, Play(log[..i]).now);
      if k == j
      then id in Play(log[..j]).pending && Play(log[..j]).pending[id] == due && (forall x :: i < x < j ==> log[x] != Fired(id))
      else i < k < j && log[k] == Fired(id) && Play(log[..k]).now == due && id !in Play(log[..j]).pending &&
           (forall x :: i < x < j && x != k ==> log[x] != Fired(id))
  {
    PrefixLegal(log, i);
    hide Play, Legal;
    k := FateFrom(log, i + 1, j, log[i].id);
  }

  /** A timer that is left alone fires exactly once, in the tick `Due` says, by the time that
      tick is over. */
  lemma FiresOnce(log: seq<Event>, i: nat, j: nat) returns (k: nat)
    requires Legal(log) && i < j <= |log| && log[i].Added? && LeftAlone(log, i, j, log[i].id)
    requires Play(log[..j]).now > Due(log[i].expires, Play(log[..i]).now)
    ensures i < k < j && log[k] == Fired(log[i].id)
    ensures Play(log[..k]).now == Due(log[i].expires, Play(log[..i]).now)
    ensures forall x :: i < x < j && log[x] == Fired(log[i].id) ==> x == k
  {
    k := Fate(log, i, j);
    PrefixLegal(log, j);
    NothingOverdue(log[..j]);
  }

  /** What a timer's function asks for. */
  datatype Op = AddOp(id: Id, expires: nat) | DelOp(id: Id)

  /** A timer that `internal_add_timer` puts on a list: not on one yet, and not lost. */
  predicate Takes(p: Plain, id: Id, expires: nat)
  {
    id !in p.pending && expires < 0x1_0000_0000 && expires != p.now + 0xFFFF_FFFF
  }

  /** The log after one operation. */
  function Effect(log: seq<Event>, op: Op): seq<Event>
  {
    match op
    case AddOp(id, expires) => if Takes(Play(log), id, expires) then log + [Added(id, expires)] else log
    case DelOp(id) => if id in Play(log).pending then log + [Deleted(id)] else log
  }

  function Handled(log: seq<Event>, ops: seq<Op>): seq<Event>
  {
    if |ops| == 0 then log else Effect(Handled(log, ops[..|ops| - 1]), ops[|ops| - 1])
  }

  function Firings(acts: seq<Event>): nat
  {
    if |acts| == 0 then 0 else Firings(acts[..|acts| - 1]) + if acts[|acts| - 1].Fired? then 1 else 0
  }

  /** The log after firings and ticks `acts`, where the `k`-th timer to fire does `script[k]`. */
  function Ran(log: seq<Event>, acts: seq<Event>, script: seq<seq<Op>>): seq<Event>
  {
    if |acts| == 0 then log
    else
      var before, e := acts[..|acts| - 1], acts[|acts| - 1];
      var log' := Ran(log, before, script) + [e];
      if e.Fired? && Firings(before) < |script| then Handled(log', script[Firings(before)]) else log'
  }

  lemma RanNext(log: seq<Event>, acts: seq<Event>, script: seq<seq<Op>>, e: Event)
    ensures var log' := Ran(log, acts, script) + [e];
      Ran(log, acts + [e], script) ==
      if e.Fired? && Firings(acts) < |script| then Handled(log', script[Firings(acts)]) else log'
    ensures Firings(acts + [e]) == Firings(acts) + if e.Fired? then 1 else 0
  {
    assert (acts + [e])[..|acts|] == acts;
  }

  lemma HandledNext(log: seq<Event>, ops: seq<Op>, i: nat)
    requires i < |ops|
    ensures Handled(log, ops[..i + 1]) == Effect(Handled(log, ops[..i]), ops[i])
  {
    assert ops[..i + 1][..i] == ops[..i];
  }

  ghost predicate Names(ops: seq<Op>, id: Id)
  {
    exists i :: 0 <= i < |ops| && ops[i].id == id
  }

  /** No function of the script touches the timer. */
  ghost predicate Unnamed(script: seq<seq<Op>>, id: Id)
  {
    forall k :: 0 <= k < |script| ==> !Names(script[k], id)
  }

  lemma {:induction false} HandledLeaves(log: seq<Event>, ops: seq<Op>, id: Id)
    requires !Names(ops, id)
    ensures log <= Handled(log, ops) && Untouched(Handled(log, ops), |log|, |Handled(log, ops)|, id)
  {
    if |ops| > 0 {
      HandledLeaves(log, ops[..|ops| - 1], id);
      assert ops[|ops| - 1].id != id;
    }
  }

  lemma {:induction false} RanLeaves(log: seq<Event>, acts: seq<Event>, script: seq<seq<Op>>, id: Id)
    requires Unnamed(script, id) && forall i :: 0 <= i < |acts| ==> acts[i].Fired? || acts[i].Tick?
    ensures log <= Ran(log, acts, script) && Untouched(Ran(log, acts, script), |log|, |Ran(log, acts, script)|, id)
  {
    if |acts| > 0 {
      hide Handled;
      var before, e := acts[..|acts| - 1], acts[|acts| - 1];
      RanLeaves(log, before, script, id);
      var k := Firings(before);
      if e.Fired? && k < |script| {
        HandledLeaves(Ran(log, before, script) + [e], script[k], id);
      }
    }
  }

  /** Since event `i`, a timer that was due in tick `due` has fired exactly once, in that tick, if
      the tick is over, and is pending as before if it is not. */
  ghost predicate Served(log: seq<Event>, i: nat, id: Id, due: nat)
  {
    if due < Play(log).now
    then id !in Play(log).pending && exists k :: FiredOnly(log, i, id, due, k)
    else id in Play(log).pending && Play(log).pending[id] == due && forall x :: i <= x < |log| ==> log[x] != Fired(id)
  }

  ghost predicate FiredOnly(log: seq<Event>, i: nat, id: Id, due: nat, k: nat)
  {
    i <= k < |log| && log[k] == Fired(id) && Play(log[..k]).now == due && forall x :: i <= x < |log| && log[x] == Fired(id) ==> x == k
  }

  /** Whatever the functions do to other timers, one they leave alone is served when the last tick
      is over. */
  lemma AllServed(log: seq<Event>, acts: seq<Event>, script: seq<seq<Op>>, id: Id)
    requires Legal(Ran(log, acts, script)) && Unnamed(script, id) && id in Play(log).pending
    requires forall i :: 0 <= i < |acts| ==> acts[i].Fired? || acts[i].Tick?
    requires |acts| > 0 ==> acts[|acts| - 1] == Tick
    ensures Served(Ran(log, acts, script), |log|, id, Play(log).pending[id])
  {
    RanLeaves(log, acts, script, id);
    EndsIn(log, acts, script);
    hide Ran, Play, Legal;
    var log' := Ran(log, acts, script);
    assert log'[..|log|] == log && log'[..|log'|] == log';
    var k := FateFrom(log', |log|, |log'|, id);
    NothingOverdue(log');
    if k < |log'| {
      PrefixLegal(log', k);
      StillTicking(log', k, |log'|);
      assert FiredOnly(log', |log|, id, Play(log).pending[id], k);
    }
  }

  lemma EndsIn(log: seq<Event>, acts: seq<Event>, script: seq<seq<Op>>)
    requires |acts| > 0 ==> acts[|acts| - 1] == Tick
    ensures var log' := Ran(log, acts, script); if |acts| > 0 then |log'| > 0 && log'[|log'| - 1] == Tick else log' == log
  {
  }

  /** Ticks only go up, and by one at the last event if that is a tick. */
  lemma {:induction false} StillTicking(log: seq<Event>, k: nat, j: nat)
    requires Legal(log) && k <= j <= |log|
    ensures Play(log[..k]).now <= Play(log[..j]).now
    ensures k < j && log[j - 1] == Tick ==> Play(log[..k]).now < Play(log[..j]).now
  {
    if k < j {
      StillTicking(log, k, j - 1);
      PrefixLegal(log, j - 1);
    }
  }
}
