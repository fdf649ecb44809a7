/**
 The multi-level lookup tables of `lib/inflate.c` and the walk that decodes with them.

 A table is a sequence of entries and a pointer to a table is its position in the
 sequence of all tables. Entries not yet stored to are `Unset`: the C code allocates
 tables without clearing them, so a walk that reads such an entry is `Broken`.
 */
module HuftTables {
  import opened Bits

  datatype Val = NoVal | Num(n: nat) | Ptr(t: nat)

  /** `struct huft`: operation or extra bits `e`, bits in this code or subcode `b`. */
  datatype Huft = Unset | Huft(e: nat, b: nat, v: Val)

  type Tables = seq<seq<Huft>>

  datatype Decoded = Broken | Done(e: nat, v: Val, bits: nat)

  const INVALID := 99

  predicate IsLink(h: Huft)
  {
    h.Huft? && h.e > 16 && h.e != INVALID
  }

  predicate IsLeaf(h: Huft)
  {
    h.Huft? && !IsLink(h)
  }

  /** The lookup loop: index table `t` with the `bits` stream bits at offset `w`, and
      follow subtable entries until another kind of entry is found. */
  function WalkAt(tabs: Tables, t: nat, bits: nat, stream: nat, w: nat): Decoded
    decreases |tabs| - t
  {
    var x := Low(Shr(stream, w), bits);
    if t >= |tabs| || x >= |tabs[t]| || tabs[t][x] == Unset then Broken
    else
      var h := tabs[t][x];
      if !IsLink(h) then Done(h.e, h.v, w + h.b)
      else if h.v.Ptr? && t < h.v.t then WalkAt(tabs, h.v.t, h.e - 16, stream, w + h.b)
      else Broken
  }

  /** How many bits the lookup loop asks for on its way: those that index each table it gets to. */
  function Asks(tabs: Tables, t: nat, bits: nat, stream: nat, w: nat): nat
    decreases |tabs| - t
  {
    var x := Low(Shr(stream, w), bits);
    if t < |tabs| && x < |tabs[t]| && IsLink(tabs[t][x]) && tabs[t][x].v.Ptr? && t < tabs[t][x].v.t then
      var h := tabs[t][x];
      var rest := Asks(tabs, h.v.t, h.e - 16, stream, w + h.b);
      if w + bits < rest then rest else w + bits
    else w + bits
  }

  /** What a table is for: the streams whose first `w` bits are the `w`-bit code prefix
      `code`. It is indexed with the next `rbits` bits. */
  datatype Meta = Meta(w: nat, code: nat, rbits: nat) {
    ghost predicate Visits(stream: nat)
    {
      Low(stream, w) == Rev(code, w)
    }

    ghost function Index(stream: nat): nat
    {
      Low(Shr(stream, w), rbits)
    }
  }

  /** A subtable entry at index `x` of table `t` leads to a table for a prefix that is
      longer by the `l` bits of `x`. */
  ghost predicate LinkOk(ms: seq<Meta>, l: nat, t: nat, x: nat, h: Huft)
    requires t < |ms|
  {
    && h.Huft? && h.v.Ptr? && t < h.v.t < |ms| && h.b == l
    && h.e == 16 + ms[h.v.t].rbits
    && l <= ms[t].rbits && x < Pow2(l)
    && ms[h.v.t].w == ms[t].w + l
    && Rev(ms[h.v.t].code, ms[h.v.t].w) == Rev(ms[t].code, ms[t].w) + Shl(x, ms[t].w)
  }

  ghost predicate Linked(tabs: Tables, ms: seq<Meta>, l: nat)
  {
    && l >= 1 && |tabs| == |ms|
    && (forall t :: 0 <= t < |ms| ==> Pow2(ms[t].rbits) <= |tabs[t]| && ms[t].code < Pow2(ms[t].w))
    && (forall t, x :: 0 <= t < |tabs| && 0 <= x < |tabs[t]| && IsLink(tabs[t][x]) ==> LinkOk(ms, l, t, x, tabs[t][x]))
    && (forall t, x :: 0 <= t < |tabs| && 0 <= x < |tabs[t]| && IsLeaf(tabs[t][x]) ==> 1 <= tabs[t][x].b <= ms[t].rbits)
  }

  /** No table is indexed with more bits than this. */
  const LOOKAHEAD := 16

  ghost predicate Narrow(ms: seq<Meta>)
  {
    forall t :: 0 <= t < |ms| ==> ms[t].rbits <= LOOKAHEAD
  }

  /** Tables that a walk starting with `l` bits never leaves. */
  ghost predicate WellLinked(tabs: Tables, l: nat)
  {
    |tabs| > 0 && exists ms :: Linked(tabs, ms, l) && ms[0] == Meta(0, 0, l) && Narrow(ms)
  }

  lemma IndexInRange(tabs: Tables, ms: seq<Meta>, l: nat, t: nat, stream: nat)
    requires Linked(tabs, ms, l) && t < |ms|
    ensures ms[t].Index(stream) < Pow2(ms[t].rbits) <= |tabs[t]|
  {
    Split(Shr(stream, ms[t].w), ms[t].rbits);
  }

  /** Following a subtable entry keeps to tables the stream belongs in. */
  lemma VisitsNext(ms: seq<Meta>, l: nat, t: nat, h: Huft, stream: nat)
    requires t < |ms| && ms[t].Visits(stream) && LinkOk(ms, l, t, ms[t].Index(stream), h)
    ensures ms[h.v.t].Visits(stream)
  {
    var s, x := Shr(stream, ms[t].w), ms[t].Index(stream);
    assert Low(s, l) == x by {
      LowLow(s, l, ms[t].rbits);
      LowSmall(x, l);
    }
    ShrLow(stream, ms[t].w, l);
  }

  /** A stream that meets only unchanged entries is decoded as before. */
  lemma {:induction false} WalkSame(tabs: Tables, tabs': Tables, ms: seq<Meta>, l: nat, t: nat, stream: nat)
    requires Linked(tabs, ms, l) && |tabs| <= |tabs'|
    requires t < |tabs| && ms[t].Visits(stream)
    requires forall u :: 0 <= u < |tabs| && ms[u].Visits(stream) ==>
      ms[u].Index(stream) < |tabs[u]| && ms[u].Index(stream) < |tabs'[u]| && tabs'[u][ms[u].Index(stream)] == tabs[u][ms[u].Index(stream)]
    ensures WalkAt(tabs', t, ms[t].rbits, stream, ms[t].w) == WalkAt(tabs, t, ms[t].rbits, stream, ms[t].w)
    decreases |tabs| - t
  {
    IndexInRange(tabs, ms, l, t, stream);
    var x := ms[t].Index(stream);
    var h := tabs[t][x];
    assert tabs'[t][x] == h;
    if IsLink(h) {
      assert LinkOk(ms, l, t, x, h);
      VisitsNext(ms, l, t, h, stream);
      WalkSame(tabs, tabs', ms, l, h.v.t, stream);
    }
  }

  /** Table `b` hangs off table `a`, which is indexed with exactly `l` bits. */
  ghost predicate StepOk(tabs: Tables, ms: seq<Meta>, l: nat, a: nat, b: nat)
    requires |tabs| == |ms|
  {
    && a < b < |tabs|
    && ms[b].w == ms[a].w + l
    && Low(Rev(ms[b].code, ms[b].w), ms[a].w) == Rev(ms[a].code, ms[a].w)
    && var x := Shr(Rev(ms[b].code, ms[b].w), ms[a].w);
       x < |tabs[a]| && tabs[a][x] == Huft(16 + ms[b].rbits, l, Ptr(b)) && IsLink(tabs[a][x])
  }

  /** The table stack `u`: each table hangs off the one below it, the root at the bottom. */
  ghost predicate StackOk(tabs: Tables, ms: seq<Meta>, l: nat, u: seq<nat>)
    requires |tabs| == |ms|
  {
    && |u| > 0 && u[0] == 0
    && (forall t :: 0 <= t < |u| ==> u[t] < |tabs|)
    && ms[0] == Meta(0, 0, l)
    && (forall t :: 0 <= t < |u| - 1 ==> StepOk(tabs, ms, l, u[t], u[t + 1]))
  }

  /** A stream that belongs in the top table is led there from every table on the stack,
      if those below it are indexed with `l` bits. */
  lemma {:induction false} WalkDown(tabs: Tables, ms: seq<Meta>, l: nat, u: seq<nat>, stream: nat, t: nat)
    requires Linked(tabs, ms, l) && StackOk(tabs, ms, l, u) && t < |u|
    requires forall i :: 0 <= i < |u| - 1 ==> ms[u[i]].rbits == l
    requires ms[u[|u| - 1]].Visits(stream)
    ensures ms[u[t]].Visits(stream)
    ensures WalkAt(tabs, u[t], ms[u[t]].rbits, stream, ms[u[t]].w) ==
            WalkAt(tabs, u[|u| - 1], ms[u[|u| - 1]].rbits, stream, ms[u[|u| - 1]].w)
    decreases |u| - t
  {
    if t < |u| - 1 {
      WalkDown(tabs, ms, l, u, stream, t + 1);
      var a, b := u[t], u[t + 1];
      assert StepOk(tabs, ms, l, a, b);
      LowLow(stream, ms[a].w, ms[b].w);
      ShrLow(stream, ms[a].w, l);
      var x := Shr(Rev(ms[b].code, ms[b].w), ms[a].w);
      assert Low(Shr(stream, ms[a].w), l) == x;
      assert tabs[a][x] == Huft(16 + ms[b].rbits, l, Ptr(b));
      IndexInRange(tabs, ms, l, a, stream);
    }
  }
}
