/**
 The five-level timer wheel of `kernel/sched.c`.

 Level 0 has a slot for each of the next 256 ticks. Level `n` above it has 64 slots, each for
 `1 << Shift(n)` ticks. A slot is a sequence of timers, the most recently inserted first.
 */
module TimerWheel {
  import opened Bits
  import opened TimerSpec

  const LEVELS := 5
  const HORIZON: nat := 0xFC00_0000 // timer_jiffies stays this far from wrapping around

  function Shift(n: nat): nat
  {
    if n == 0 then 0 else 2 + 6 * n
  }

  function SlotBits(n: nat): nat
  {
    if n == 0 then 8 else 6
  }

  type Slots = seq<seq<seq<Id>>>
  type Where = map<Id, (nat, nat)>

  ghost predicate Shape(vec: Slots)
  {
    |vec| == LEVELS && forall n :: 0 <= n < LEVELS ==> |vec[n]| == Pow2(SlotBits(n))
  }

  /** Every timer is in the slot that `at` names, once, and in no other. */
  ghost predicate Placed(vec: Slots, at: Where)
    requires Shape(vec)
  {
    && (forall id :: id in at ==> at[id].0 < LEVELS && at[id].1 < |vec[at[id].0]| && id in vec[at[id].0][at[id].1])
    && (forall n, s, x :: 0 <= n < LEVELS && 0 <= s < |vec[n]| && 0 <= x < |vec[n][s]| ==>
          vec[n][s][x] in at && at[vec[n][s][x]] == (n, s))
    && (forall n, s, x, y :: 0 <= n < LEVELS && 0 <= s < |vec[n]| && 0 <= x < y < |vec[n][s]| ==> vec[n][s][x] != vec[n][s][y])
  }

  /** The slot of a timer leads to the tick when it is due. `c[n]` is the next slot of level
      `n` to be cascaded, counted without wrapping around. */
  ghost predicate Timed(n: nat, s: nat, expires: nat, due: nat, now: nat, c: seq<nat>)
    requires n < |c|
  {
    if n == 0 then now <= due < now + Pow2(8) && s == Low(due, 8)
    else due == expires && c[n] <= Shr(expires, Shift(n)) < c[n] + Pow2(6) && s == Low(Shr(expires, Shift(n)), 6)
  }

  ghost predicate AllTimed(at: Where, expires: map<Id, nat>, due: map<Id, nat>, now: nat, c: seq<nat>)
    requires |c| == LEVELS
  {
    && due.Keys == at.Keys && at.Keys <= expires.Keys
    && forall id :: id in at && at[id].0 < LEVELS ==> Timed(at[id].0, at[id].1, expires[id], due[id], now, c)
  }

  /** Slots of level `n` cascaded once tick `now` has been reached (`done`) or is about to be. */
  function Cascaded(now: nat, n: nat, done: bool): nat
  {
    if done || Low(now, Shift(n)) != 0 then Shr(now, Shift(n)) + 1 else Shr(now, Shift(n))
  }

  /** Where `internal_add_timer` inserts a timer, or nowhere. Subtraction is unsigned 32-bit. */
  datatype Place = Slot(n: nat, s: nat) | Nowhere

  function Choose(expires: nat, now: nat, index0: nat): Place
  {
    var idx := if expires >= now then expires - now else expires + 0x1_0000_0000 - now;
    if idx < 256 then Slot(0, Low(expires, 8))
    else if idx < 0x4000 then Slot(1, Low(Shr(expires, 8), 6))
    else if idx < 0x10_0000 then Slot(2, Low(Shr(expires, 14), 6))
    else if idx < 0x400_0000 then Slot(3, Low(Shr(expires, 20), 6))
    else if expires < now then Slot(0, index0)
    else if idx < 0xFFFF_FFFF then Slot(4, Low(Shr(expires, 26), 6))
    else Nowhere
  }

  lemma Sizes()
    ensures Pow2(6) == 64 && Pow2(8) == 256 && Pow2(14) == 0x4000 && Pow2(20) == 0x10_0000 && Pow2(26) == 0x400_0000
  {
  }

  lemma BigSize()
    ensures Pow2(32) == 0x1_0000_0000
  {
    Sizes();
    hide Shl;
    ShlShl(1, 26, 6);
    ShlMul64(Pow2(26));
  }

  lemma ShlMul64(x: nat)
    ensures Shl(x, 6) == 64 * x
  {
    ShlNone(x);
    ShlStep(x, 1); ShlStep(x, 2); ShlStep(x, 3); ShlStep(x, 4); ShlStep(x, 5); ShlStep(x, 6);
  }

  /** A timer between one slot width and one turn of a level ahead is in a slot of that level
      that is still to come, and its turn is at most one round away. */
  lemma SlotAhead(now: nat, e: nat, sh: nat, done: bool)
    requires now + Pow2(sh) <= e < now + Pow2(sh + 6)
    ensures var c := if done || Low(now, sh) != 0 then Shr(now, sh) + 1 else Shr(now, sh);
      c <= Shr(e, sh) < c + Pow2(6)
  {
    hide Shl, Shr, Low;
    var q, r := Shr(now, sh), Low(now, sh);
    Split(now, sh);
    ShlShl(1, 6, sh);
    ShlAdd(q, 1, sh);
    ShlAdd(q, Pow2(6), sh);
    ShlAdd(q, Pow2(6) + 1, sh);
    ShlAdd(Pow2(6), 1, sh);
    assert Shl(q + 1, sh) <= e;
    ShrLess(e, sh, q + 1);
    ShrLess(e, sh, q + Pow2(6) + 1);
    ShrLess(e, sh, q + Pow2(6));
  }

  /** The counters of the levels above 0, some of which may have been cascaded in this tick. */
  ghost predicate Counters(now: nat, c: seq<nat>)
  {
    |c| == LEVELS && forall n :: 1 <= n < LEVELS ==> c[n] == Cascaded(now, n, false) || c[n] == Cascaded(now, n, true)
  }

  ghost predicate Settled(now: nat, c: seq<nat>, done: bool)
  {
    |c| == LEVELS && forall n :: 1 <= n < LEVELS ==> c[n] == Cascaded(now, n, done)
  }

  lemma ChoosePlaces(expires: nat, now: nat, index0: nat, c: seq<nat>)
    requires now <= HORIZON && expires < 0x1_0000_0000 && index0 == Low(now, 8) && Counters(now, c)
    ensures var p := Choose(expires, now, index0);
      if p.Nowhere? then expires == now + 0xFFFF_FFFF
      else p.n < LEVELS && p.s < Pow2(SlotBits(p.n)) && Timed(p.n, p.s, expires, Due(expires, now), now, c)
  {
    Sizes();
    BigSize();
    hide Shl, Shr, Low;
    var p := Choose(expires, now, index0);
    Split(expires, 8);
    Split(now, 8);
    if p.Slot? && p.n > 0 {
      SlotAhead(now, expires, Shift(p.n), false);
      SlotAhead(now, expires, Shift(p.n), true);
      Split(Shr(expires, Shift(p.n)), 6);
    }
  }

  /** `insert_timer`. */
  function Inserted(vec: Slots, n: nat, s: nat, id: Id): Slots
    requires n < |vec| && s < |vec[n]|
  {
    vec[n := vec[n][s := [id] + vec[n][s]]]
  }

  function Without(l: seq<Id>, id: Id): seq<Id>
  {
    if |l| == 0 then [] else if l[0] == id then l[1..] else [l[0]] + Without(l[1..], id)
  }

  /** `detach_timer`. */
  function Detached(vec: Slots, n: nat, s: nat, id: Id): Slots
    requires n < |vec| && s < |vec[n]|
  {
    vec[n := vec[n][s := Without(vec[n][s], id)]]
  }

  lemma {:induction false} WithoutMeans(l: seq<Id>, id: Id)
    requires forall x, y :: 0 <= x < y < |l| ==> l[x] != l[y]
    ensures forall x, y :: 0 <= x < y < |Without(l, id)| ==> Without(l, id)[x] != Without(l, id)[y]
    ensures forall e :: e in Without(l, id) <==> e in l && e != id
  {
    if |l| > 0 {
      assert l == [l[0]] + l[1..];
      if l[0] != id {
        WithoutMeans(l[1..], id);
        var u := Without(l[1..], id);
        assert Without(l, id) == [l[0]] + u;
        forall y | 0 <= y < |u| ensures u[y] != l[0] {
          assert u[y] in u;
        }
      }
    }
  }

  lemma InsertKeeps(vec: Slots, at: Where, n: nat, s: nat, id: Id)
    requires Shape(vec) && Placed(vec, at) && n < LEVELS && s < |vec[n]| && id !in at
    ensures Shape(Inserted(vec, n, s, id)) && Placed(Inserted(vec, n, s, id), at[id := (n, s)])
  {
    hide Pow2, SlotBits;
    var vec', at' := Inserted(vec, n, s, id), at[id := (n, s)];
    forall i | i in at' ensures i in vec'[at'[i].0][at'[i].1] {
      if i != id {
        assert i in vec[at[i].0][at[i].1];
      }
    }
    forall m, t, x | 0 <= m < LEVELS && 0 <= t < |vec'[m]| && 0 <= x < |vec'[m][t]|
      ensures vec'[m][t][x] in at' && at'[vec'[m][t][x]] == (m, t)
    {
      if m == n && t == s && x > 0 {
        assert vec'[m][t][x] == vec[m][t][x - 1];
      }
    }
  }

  lemma DetachKeeps(vec: Slots, at: Where, id: Id)
    requires Shape(vec) && Placed(vec, at) && id in at
    ensures Shape(Detached(vec, at[id].0, at[id].1, id)) && Placed(Detached(vec, at[id].0, at[id].1, id), at - {id})
  {
    hide Pow2, SlotBits;
    var (n, s) := at[id];
    var vec', at' := Detached(vec, n, s, id), at - {id};
    WithoutMeans(vec[n][s], id);
    forall i | i in at' ensures i in vec'[at'[i].0][at'[i].1] {
      assert i in vec[at[i].0][at[i].1];
    }
    forall m, t, x | 0 <= m < LEVELS && 0 <= t < |vec'[m]| && 0 <= x < |vec'[m][t]|
      ensures vec'[m][t][x] in at' && at'[vec'[m][t][x]] == (m, t)
    {
      var e := vec'[m][t][x];
      assert e in vec'[m][t];
      assert e in vec[m][t];
      var y :| 0 <= y < |vec[m][t]| && vec[m][t][y] == e;
    }
  }

  /** All timers due now are in the current slot of level 0. */
  lemma DueNow(vec: Slots, at: Where, expires: map<Id, nat>, due: map<Id, nat>, now: nat, c: seq<nat>, id: Id)
    requires Shape(vec) && Placed(vec, at) && |c| == LEVELS && AllTimed(at, expires, due, now, c) && id in at
    requires Settled(now, c, true)
    ensures due[id] >= now && (due[id] == now <==> at[id] == (0, Low(now, 8)))
  {
    hide Shl, Shr, Low;
    var (n, s) := at[id];
    assert Timed(n, s, expires[id], due[id], now, c);
    if n == 0 {
      if due[id] > now {
        SameLow(now, due[id], 8);
      }
    } else {
      var q := Shr(now, Shift(n));
      ShrLess(expires[id], Shift(n), q + 1);
      ShrLess(now, Shift(n), q + 1);
    }
  }

  /** A timer in the slot being cascaded is due within the ticks the slot covers, so it goes to
      a lower level. */
  lemma CascadeDown(at: Where, expires: map<Id, nat>, due: map<Id, nat>, now: nat, c: seq<nat>, n: nat, id: Id, index0: nat)
    requires |c| == LEVELS && AllTimed(at, expires, due, now, c) && Counters(now, c) && 1 <= n < LEVELS
    requires id in at && at[id] == (n, Low(c[n], 6)) && expires[id] < 0x1_0000_0000 && now <= HORIZON && index0 == Low(now, 8)
    requires Low(now, Shift(n)) == 0 && c[n] == Shr(now, Shift(n))
    ensures var p := Choose(expires[id], now, index0);
      p.Slot? && p.n < n && p.s < Pow2(SlotBits(p.n)) && Timed(p.n, p.s, expires[id], due[id], now, c)
  {
    Sizes();
    hide Shl, Shr, Low;
    var e, sh := expires[id], Shift(n);
    assert Timed(n, Low(c[n], 6), e, due[id], now, c);
    if Shr(e, sh) > c[n] {
      SameLow(c[n], Shr(e, sh), 6);
    }
    Split(e, sh);
    Split(now, sh);
    assert now <= e < now + Pow2(sh);
    ChoosePlaces(e, now, index0, c);
  }

  /** Once its slot is empty, a level can go on to the next. */
  lemma NextSlot(at: Where, expires: map<Id, nat>, due: map<Id, nat>, now: nat, c: seq<nat>, n: nat)
    requires |c| == LEVELS && AllTimed(at, expires, due, now, c) && 1 <= n < LEVELS
    requires forall id :: id in at ==> at[id] != (n, Low(c[n], 6))
    ensures AllTimed(at, expires, due, now, c[n := c[n] + 1])
  {
    hide Shl, Shr, Low;
    var c' := c[n := c[n] + 1];
    forall id | id in at && at[id].0 < LEVELS ensures Timed(at[id].0, at[id].1, expires[id], due[id], now, c') {
      assert Timed(at[id].0, at[id].1, expires[id], due[id], now, c);
    }
  }

  lemma {:induction false} LowZero(x: nat, n: nat, m: nat)
    requires n <= m && Low(x, m) == 0
    ensures Low(x, n) == 0
  {
    LowLow(x, n, m);
    Low0(n);
  }

  /** The index test of `run_timer_list`: a level has come round exactly when the tick is a
      multiple of the next level's slot width. */
  lemma CameRound(now: nat, sh: nat)
    requires Low(now, sh) == 0
    ensures Low(Shr(now, sh) + 1, 6) == 1 <==> Low(now, sh + 6) == 0
  {
    var q := Shr(now, sh);
    ShrLow(now, sh, 6);
    Split(q, 6);
    assert Pow2(6) == 64;
    var a, r := Shr(q, 6), Low(q, 6);
    hide Shl, Shr, Low;
    if r < 63 {
      Join(a, r + 1, 6);
    } else {
      ShlAdd(a, 1, 6);
      Join(a + 1, 0, 6);
    }
    ShlAdd(0, 0, sh);
    if r > 0 {
      ShlMono(0, r, sh);
    }
  }

  /** Levels whose slot width does not divide the tick are not cascaded in it. */
  lemma NotCascaded(now: nat, n: nat)
    requires Low(now, Shift(n)) != 0
    ensures forall m :: n <= m ==> Cascaded(now, m, false) == Cascaded(now, m, true)
  {
    forall m | n <= m ensures Low(now, Shift(m)) != 0 {
      if Low(now, Shift(m)) == 0 {
        LowZero(now, Shift(n), Shift(m));
      }
    }
  }

  /** The next tick starts where this one's cascading ended. */
  lemma NextTick(now: nat, n: nat)
    ensures Cascaded(now + 1, n, false) == Cascaded(now, n, true)
  {
    hide Shl, Shr, Low;
    var sh := Shift(n);
    var q, r := Shr(now, sh), Low(now, sh);
    Split(now, sh);
    if r + 1 < Pow2(sh) {
      Join(q, r + 1, sh);
    } else {
      ShlAdd(q, 1, sh);
      Pow2Mono(0, sh);
      Join(q + 1, 0, sh);
    }
  }

  lemma LowInc(x: nat, n: nat)
    ensures Low(Low(x, n) + 1, n) == Low(x + 1, n)
  {
    hide Shl, Shr, Low;
    var q, r := Shr(x, n), Low(x, n);
    Split(x, n);
    if r + 1 < Pow2(n) {
      Join(q, r + 1, n);
      LowSmall(r + 1, n);
    } else {
      ShlAdd(q, 1, n);
      Pow2Mono(0, n);
      Join(q + 1, 0, n);
      ShrShl(1, n);
    }
  }

  /** The slots with the content of one replaced. */
  function Replaced(vec: Slots, n: nat, s: nat, l: seq<Id>): Slots
    requires n < |vec| && s < |vec[n]|
  {
    vec[n := vec[n][s := l]]
  }

  /** Moving the first of the timers `l` left in slot `s` of level `n` to a lower level. */
  lemma Move(vec: Slots, at: Where, n: nat, s: nat, l: seq<Id>, m: nat, t: nat)
    requires Shape(vec) && n < LEVELS && s < |vec[n]| && |l| > 0
    requires Placed(Replaced(vec, n, s, l), at) && m < n && t < |vec[m]|
    ensures l[0] in at && at[l[0]] == (n, s)
    ensures Shape(Inserted(vec, m, t, l[0])) && Inserted(vec, m, t, l[0])[n] == vec[n]
    ensures Placed(Replaced(Inserted(vec, m, t, l[0]), n, s, l[1..]), at[l[0] := (m, t)])
  {
    hide Pow2, SlotBits, Placed;
    var id, view := l[0], Replaced(vec, n, s, l);
    HeadPlaced(view, at, n, s);
    DetachKeeps(view, at, id);
    assert Without(l, id) == l[1..];
    assert view[n][s := l[1..]] == vec[n][s := l[1..]];
    assert Detached(view, n, s, id) == Replaced(vec, n, s, l[1..]);
    NotAt(at, id);
    InsertKeeps(Replaced(vec, n, s, l[1..]), at - {id}, m, t, id);
    assert Inserted(Replaced(vec, n, s, l[1..]), m, t, id) == Replaced(Inserted(vec, m, t, id), n, s, l[1..]);
    assert (at - {id})[id := (m, t)] == at[id := (m, t)];
  }

  lemma HeadPlaced(vec: Slots, at: Where, n: nat, s: nat)
    requires Shape(vec) && Placed(vec, at) && n < LEVELS && s < |vec[n]| && |vec[n][s]| > 0
    ensures vec[n][s][0] in at && at[vec[n][s][0]] == (n, s)
  {
  }

  lemma NotAt(at: Where, id: Id)
    ensures id !in at - {id}
  {
  }

  lemma EmptySlot(vec: Slots, at: Where, n: nat, s: nat)
    requires Shape(vec) && Placed(vec, at) && n < LEVELS && s < |vec[n]| && vec[n][s] == []
    ensures forall id :: id in at ==> at[id] != (n, s)
  {
  }

  class Wheel {
    var vec: Slots
    var index: seq<nat>
    var timerJiffies: nat
    var expires: map<Id, nat>
    var at: Where             // what the link fields of the timers encode
    var stray: set<Id>        // lost timers, whose link fields point to themselves
    ghost var c: seq<nat>
    ghost var log: seq<Event>

    constructor ()
      ensures Core() && Settled(timerJiffies, c, false) && timerJiffies == 0 && log == [] && stray == {}
    {
      vec := seq(LEVELS, (n: nat) => seq(Pow2(SlotBits(n)), _ => []));
      index, timerJiffies, expires, at, stray := [0, 0, 0, 0, 0], 0, map[], map[], {};
      c, log := [0, 0, 0, 0, 0], [];
      new;
      forall n: nat ensures Shr(0, n) == 0 && Low(0, n) == 0 {
        Pow2Mono(0, n);
        LowSmall(0, n);
      }
      assert Play([]) == Plain(0, map[]);
    }

    ghost predicate Core()
      reads this
    {
      && Shape(vec) && Placed(vec, at) && Rest()
    }

    ghost predicate Rest()
      reads this
    {
      && Legal(log) && Play(log).now == timerJiffies <= HORIZON
      && Counters(timerJiffies, c) && AllTimed(at, expires, Play(log).pending, timerJiffies, c)
      && |index| == LEVELS && index[0] == Low(timerJiffies, 8) && (forall n :: 1 <= n < LEVELS ==> index[n] == Low(c[n], 6))
      && (forall id :: id in at ==> expires[id] < 0x1_0000_0000 && id !in stray)
    }

    /** One timer of the slot being cascaded is inserted again, on a lower level. */
    method CascadeOne(n: nat, s: nat, id: Id, ghost rest: seq<Id>)
      requires Shape(vec) && Rest() && 1 <= n < LEVELS && s == Low(c[n], 6) && s < |vec[n]|
      requires Low(timerJiffies, Shift(n)) == 0 && c[n] == Shr(timerJiffies, Shift(n))
      requires |rest| > 0 && rest[0] == id && Placed(Replaced(vec, n, s, rest), at)
      modifies this`vec, this`at
      ensures Shape(vec) && Rest() && vec[n] == old(vec)[n] && Placed(Replaced(vec, n, s, rest[1..]), at)
    {
      hide Shl, Shr, Low, Choose, Legal, Play, Placed, Timed;
      HeadPlaced(Replaced(vec, n, s, rest), at, n, s);
      CascadeDown(at, expires, Play(log).pending, timerJiffies, c, n, id, index[0]);
      var p := Choose(expires[id], timerJiffies, index[0]);
      Move(vec, at, n, s, rest, p.n, p.s);
      vec := Inserted(vec, p.n, p.s, id);
      at := at[id := (p.n, p.s)];
    }

    /** `cascade_timers`. */
    method Cascade(n: nat)
      requires Core() && 1 <= n < LEVELS && Low(timerJiffies, Shift(n)) == 0 && c[n] == Shr(timerJiffies, Shift(n))
      modifies this`vec, this`index, this`at, this`c
      ensures Core() && c == old(c)[n := old(c)[n] + 1]
    {
      hide Shl, Shr, Low, Legal, Play, Placed, AllTimed, SlotBits;
      var s := index[n];
      Split(c[n], 6);
      UpperSize(n);
      var list, j := vec[n][s], 0;
      assert vec[n][s := list] == vec[n];
      assert list[0..] == list && Replaced(vec, n, s, list) == vec;
      while j < |list|
        invariant c == old(c) && index == old(index)
        invariant 0 <= j <= |list| && Shape(vec) && s < |vec[n]| && vec[n][s] == list && Rest()
        invariant Placed(Replaced(vec, n, s, list[j..]), at)
      {
        assert list[j..][1..] == list[j + 1..];
        CascadeOne(n, s, list[j], list[j..]);
        j := j + 1;
      }
      assert list[j..] == [];
      vec := Replaced(vec, n, s, []);
      EmptySlot(vec, at, n, s);
      NextSlot(at, expires, Play(log).pending, timerJiffies, c, n);
      LowInc(c[n], 6);
      index := index[n := Low(index[n] + 1, 6)];
      c := c[n := c[n] + 1];
    }

    /** The start of a round of `run_timer_list`: cascade every level that has come round. */
    method BeginTick()
      requires Core() && Settled(timerJiffies, c, false)
      modifies this`vec, this`index, this`at, this`c
      ensures Core() && Settled(timerJiffies, c, true)
    {
      hide Shl, Shr, Low, Legal, Play, Placed, AllTimed, SlotBits;
      ghost var now := timerJiffies;
      if index[0] == 0 {
        var n := 1;
        while true
          invariant 1 <= n < LEVELS && Core() && Low(now, Shift(n)) == 0
          invariant forall m :: 1 <= m < LEVELS ==> c[m] == Cascaded(now, m, m < n)
          decreases LEVELS - n
        {
          Cascade(n);
          CameRound(now, Shift(n));
          if index[n] != 1 || n + 1 >= LEVELS {
            break;
          }
          n := n + 1;
        }
        if n + 1 < LEVELS {
          NotCascaded(now, n + 1);
        }
      } else {
        NotCascaded(now, 1);
      }
    }

    /** `internal_add_timer` for a timer that is not pending. */
    method Add(id: Id, e: nat) returns (lost: bool)
      requires Core() && id !in at && e < 0x1_0000_0000
      modifies this`vec, this`at, this`expires, this`stray, this`log
      ensures Core() && stray == if lost then old(stray) + {id} else old(stray) - {id}
      ensures lost <==> e == timerJiffies + 0xFFFF_FFFF
      ensures log == if lost then old(log) else old(log) + [Added(id, e)]
    {
      hide Shl, Shr, Low, Choose, Legal, Play, Placed, Timed;
      ghost var pending := Play(log).pending;
      ChoosePlaces(e, timerJiffies, index[0], c);
      NotNowhere(e, timerJiffies, index[0]);
      var p := Choose(e, timerJiffies, index[0]);
      lost := p.Nowhere?;
      stray := if lost then stray + {id} else stray - {id};
      if !lost {
        InsertKeeps(vec, at, p.n, p.s, id);
        Append(log, Added(id, e));
        vec := Inserted(vec, p.n, p.s, id);
        at, expires, log := at[id := (p.n, p.s)], expires[id := e], log + [Added(id, e)];
      }
    }

    /** `del_timer`. A lost timer is unlinked from itself and passes for one that was pending. */
    method Del(id: Id) returns (ret: bool)
      requires Core()
      modifies this`vec, this`at, this`stray, this`log
      ensures Core() && at == old(at) - {id} && stray == old(stray) - {id}
      ensures ret <==> id in old(at) || id in old(stray)
      ensures log == if id in old(at) then old(log) + [Deleted(id)] else old(log)
    {
      hide Shl, Shr, Low, Legal, Play, Timed, Counters, Detached, SlotBits;
      ret := id in at || id in stray;
      if id in at {
        DetachKeeps(vec, at, id);
        Append(log, Deleted(id));
        vec := Detached(vec, at[id].0, at[id].1, id);
        at, log := at - {id}, log + [Deleted(id)];
      }
      stray := stray - {id};
    }

    /** Take the first timer off the current slot of level 0, to run its function. */
    method Fire() returns (id: Id)
      requires Core() && Settled(timerJiffies, c, true)
      requires index[0] < |vec[0]| && vec[0][index[0]] != []
      modifies this`vec, this`at, this`log
      ensures Core() && id in old(at) && at == old(at) - {id} && log == old(log) + [Fired(id)]
    {
      hide Shl, Shr, Low, Legal, Play, Placed, Timed;
      id := vec[0][index[0]][0];
      HeadPlaced(vec, at, 0, index[0]);
      DueNow(vec, at, expires, Play(log).pending, timerJiffies, c, id);
      DetachKeeps(vec, at, id);
      Append(log, Fired(id));
      vec := Detached(vec, 0, index[0], id);
      at, log := at - {id}, log + [Fired(id)];
    }

    /** The end of a round, when the current slot is empty. */
    method EndTick()
      requires Core() && Settled(timerJiffies, c, true) && timerJiffies < HORIZON
      requires index[0] < |vec[0]| && vec[0][index[0]] == []
      modifies this`timerJiffies, this`index, this`log
      ensures Core() && Settled(timerJiffies, c, false)
      ensures timerJiffies == old(timerJiffies) + 1 && log == old(log) + [Tick]
    {
      hide Shl, Shr, Low, Legal, Play, Placed;
      ghost var now, pending := timerJiffies, Play(log).pending;
      EmptySlot(vec, at, 0, index[0]);
      forall id | id in at ensures pending[id] > now {
        DueNow(vec, at, expires, pending, now, c, id);
      }
      Append(log, Tick);
      forall n | 1 <= n < LEVELS ensures c[n] == Cascaded(now + 1, n, false) {
        NextTick(now, n);
      }
      forall id | id in at && at[id].0 < LEVELS ensures Timed(at[id].0, at[id].1, expires[id], pending[id], now + 1, c) {
        assert Timed(at[id].0, at[id].1, expires[id], pending[id], now, c);
      }
      LowInc(now, 8);
      timerJiffies, log := timerJiffies + 1, log + [Tick];
      index := index[0 := Low(index[0] + 1, 8)];
    }

    /** What a timer's function does to the wheel: timers are added and deleted. */
    method Handle(ops: seq<Op>)
      requires Core()
      modifies this`vec, this`at, this`expires, this`stray, this`log
      ensures Core() && log == Handled(old(log), ops)
    {
      hide Shape, Placed, Legal, Play, Handled, Counters;
      var i := 0;
      assert ops[..0] == [];
      HandledNone(log);
      while i < |ops|
        invariant 0 <= i <= |ops| && Core() && log == Handled(old(log), ops[..i])
      {
        HandledNext(old(log), ops, i);
        Keys();
        if ops[i].DelOp? {
          var ret := Del(ops[i].id);
        } else if ops[i].id !in at && ops[i].expires < 0x1_0000_0000 {
          var lost := Add(ops[i].id, ops[i].expires);
        }
        i := i + 1;
      }
      assert ops[..|ops|] == ops;
    }

    lemma Keys()
      requires Core()
      ensures Play(log).pending.Keys == at.Keys && Play(log).now == timerJiffies
    {
    }

    /** Run the timers due in this tick; the `k`-th function called since `log0` does `script[k]`. */
    method FireAll(script: seq<seq<Op>>, used0: nat, ghost log0: seq<Event>, ghost acts0: seq<Event>)
      returns (used: nat, ghost acts: seq<Event>)
      requires Core() && Settled(timerJiffies, c, true)
      requires log == Ran(log0, acts0, script) && used0 == Firings(acts0) && OnlyRuns(acts0)
      modifies this`vec, this`at, this`expires, this`stray, this`log
      ensures Core() && index[0] < |vec[0]| && vec[0][index[0]] == []
      ensures log == Ran(log0, acts, script) && used == Firings(acts) && OnlyRuns(acts)
    {
      hide Placed, Legal, Play, AllTimed, Settled, Shl, Low, Ran, Firings, Handled;
      used, acts := used0, acts0;
      Split(timerJiffies, 8);
      while vec[0][index[0]] != []
        invariant Core() && index[0] < |vec[0]|
        invariant log == Ran(log0, acts, script) && used == Firings(acts) && OnlyRuns(acts)
        decreases if used < |script| then |script| - used else 0, |at|
      {
        var id := Fire();
        RanNext(log0, acts, script, Fired(id));
        if used < |script| {
          Handle(script[used]);
        }
        used, acts := used + 1, acts + [Fired(id)];
      }
    }

    /** `run_timer_list`: one round for each tick up to and including `jiffies`. */
    method RunTimerList(jiffies: nat, script: seq<seq<Op>>) returns (ghost acts: seq<Event>)
      requires Core() && Settled(timerJiffies, c, false) && jiffies < HORIZON
      modifies this
      ensures Core() && Settled(timerJiffies, c, false)
      ensures timerJiffies == if jiffies < old(timerJiffies) then old(timerJiffies) else jiffies + 1
      ensures log == Ran(old(log), acts, script) && OnlyRuns(acts)
      ensures forall id :: id in Play(old(log)).pending && Unnamed(script, id) ==>
        Served(log, |old(log)|, id, Play(old(log)).pending[id])
    {
      hide Placed, Legal, Play, AllTimed, Settled, Shl, Low, Counters, Ran, Firings, Served, Unnamed;
      var used: nat := 0;
      acts := [];
      RanNone(log, script);
      while jiffies >= timerJiffies
        invariant Core() && Settled(timerJiffies, c, false)
        invariant log == Ran(old(log), acts, script) && used == Firings(acts) && OnlyRuns(acts)
        invariant |acts| > 0 ==> acts[|acts| - 1] == Tick
        invariant old(timerJiffies) <= timerJiffies && (old(timerJiffies) <= jiffies ==> timerJiffies <= jiffies + 1)
        invariant old(timerJiffies) > jiffies ==> timerJiffies == old(timerJiffies)
        decreases jiffies + 1 - timerJiffies
      {
        BeginTick();
        used, acts := FireAll(script, used, old(log), acts);
        RanNext(old(log), acts, script, Tick);
        EndTick();
        acts := acts + [Tick];
      }
      forall id | id in Play(old(log)).pending && Unnamed(script, id)
        ensures Served(log, |old(log)|, id, Play(old(log)).pending[id])
      {
        AllServed(old(log), acts, script, id);
      }
    }
  }

  ghost predicate OnlyRuns(acts: seq<Event>)
  {
    forall i :: 0 <= i < |acts| ==> acts[i].Fired? || acts[i].Tick?
  }

  lemma RanNone(log: seq<Event>, script: seq<seq<Op>>)
    ensures Ran(log, [], script) == log && Firings([]) == 0
  {
  }

  lemma HandledNone(log: seq<Event>)
    ensures Handled(log, []) == log
  {
  }

  lemma NotNowhere(expires: nat, now: nat, index0: nat)
    requires expires < 0x1_0000_0000
    ensures expires == now + 0xFFFF_FFFF ==> Choose(expires, now, index0) == Nowhere
  {
  }

  lemma UpperSize(n: nat)
    ensures n >= 1 ==> SlotBits(n) == 6
  {
  }
}
