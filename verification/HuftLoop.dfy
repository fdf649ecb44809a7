/**
 The building loop of `huft_build`: code after code, it backs up over finished tables, makes the tables
 that the next code needs, and stores its entries.
 */
module HuftLoop {
  import opened Bits
  import opened Huffman
  import opened HuftTables
  import opened HuftState
  import opened HuftSteps

  /** A subtable wider than `l` bits with longer codes behind it. */
  lemma WideTableSkips(cnt: Counts, g: nat, l: nat, k: nat, c: nat, w: nat, prefix: nat)
    requires Complete(cnt, g) && l >= 1 && w > 0 && Level(w, l) && w + l < g && w + l <= k && prefix < Pow2(w)
    requires First(cnt, k) <= c && c == Shl(prefix, k - w)
    ensures SkipsAt(cnt, g, l, w)
  {
    var b := w + l - 1;
    EndGrows(cnt, b, k);
    assert End(cnt, b) <= Shl(prefix, l - 1) by {
      ShlShl(prefix, l - 1, k - b);
      ShlMono(Shl(prefix, l - 1), End(cnt, b), k - b);
    }
    ShlMono(prefix, Pow2(w) - 1, l - 1);
  }

  /** Leaving a table: the next code starts a new prefix at its offset. */
  lemma Popped(k: nat, c: nat, m: Meta)
    requires m.w <= k && Low(Rev(c, k), m.w) == Rev(m.code, m.w) && Low(Rev(c + 1, k), m.w) != Rev(m.code, m.w)
    ensures Low(c + 1, k - m.w) == 0
  {
    RevSplit(c, k, m.w);
    RevSplit(c + 1, k, m.w);
    IncCarry(c, k - m.w);
  }

  ghost predicate StackIs(l: nat, ms: seq<Meta>, u: seq<nat>, x: seq<nat>, w: int)
  {
    && |x| == |u|
    && (forall t :: 0 <= t < |u| ==> u[t] < |ms| && x[t] == Rev(ms[u[t]].code, ms[u[t]].w))
    && w == if |u| == 0 then -(l as int) else ms[Top(u)].w
  }

  lemma NewMetaOk(cnt: Counts, g: nat, l: nat, k: nat, c: nat, top: Meta, prefix: nat, j: nat)
    requires Complete(cnt, g) && g <= BMAX && TableOk(cnt, g, l, top) && 1 <= l && top.w + l < k <= g
    requires prefix < Pow2(top.w + l) && First(cnt, k) <= c && c == Shl(prefix, k - top.w - l)
    requires k - top.w - l <= j <= g - top.w - l + 1 && c < End(cnt, k)
    requires j == TrialBits(cnt, g, l, k, top.w + l, End(cnt, k) - 1 - c)
    requires j >= l || End(cnt, top.w + l + j) >= Shl(prefix + 1, j)
    requires j > l ==> k - top.w - l >= l
    ensures TableOk(cnt, g, l, Meta(top.w + l, prefix, j))
  {
    hide TrialBits, TableBits, Skips, SkipsAt, Shl, End, First, Complete, Pow2;
    var w := top.w + l;
    BitsAre(cnt, g, l, k, w, prefix);
    assert Level(w - l, l);
    if j > l && w + l < g {
      WideTableSkips(cnt, g, l, k, c, w, prefix);
      SomeSkip(cnt, g, l, w);
    }
  }

  lemma SomeSkip(cnt: Counts, g: nat, l: nat, w: nat)
    requires SkipsAt(cnt, g, l, w)
    ensures Skips(cnt, g, l)
  {
  }

  lemma BitsAre(cnt: Counts, g: nat, l: nat, k: nat, w: nat, prefix: nat)
    requires w < k <= g && First(cnt, k) <= Shl(prefix, k - w) < End(cnt, k)
    ensures TableBits(cnt, g, l, w, prefix) == TrialBits(cnt, g, l, k, w, End(cnt, k) - 1 - Shl(prefix, k - w))
  {
    hide TrialBits, Shl, First, End;
    FirstLengthIs(cnt, g, w, prefix, w + 1, k);
  }

  lemma ReadyToLink(cnt: Counts, g: nat, l: nat, tabs: Tables, ms: seq<Meta>, u: seq<nat>, k: nat, c: nat, m: Meta)
    requires Building(cnt, g, l, tabs, ms, u, k, c) && c < End(cnt, k) && |u| > 0
    requires k > ms[Top(u)].w + l && m.w == ms[Top(u)].w + l && TableOk(cnt, g, l, m)
    requires m.code < Pow2(m.w) && c == Shl(m.code, k - m.w) && Rev(c, k) == Rev(m.code, m.w)
    requires Shr(Rev(c, k), ms[Top(u)].w) < Pow2(l)
    requires Rev(m.code, m.w) == Rev(ms[Top(u)].code, ms[Top(u)].w) + Shl(Shr(Rev(c, k), ms[Top(u)].w), ms[Top(u)].w)
    ensures Linking(cnt, g, l, tabs, ms, u, k, c, m, Shr(Rev(c, k), ms[Top(u)].w))
    ensures k > m.w + l ==> Low(c, k - m.w - l) == 0
  {
    hide Shl, Shr, Low, Rev, WalkAt, SkipInv, End, First;
    var top := ms[Top(u)];
    assert TableOk(cnt, g, l, top);
    WideEnough(cnt, g, l, top, k, c);
    Pow2Mono(l, top.rbits);
    if k > m.w + l {
      LowLow(c, k - m.w - l, k - m.w);
      Low0(k - m.w - l);
    }
  }

  ghost predicate Progress(cnt: Counts, g: nat, l: nat, cd: Coding, tabs: Tables, u: seq<nat>, k: nat, c: nat)
  {
    cd.Valid() && (|u| > 0 && !Skips(cnt, g, l) ==> AllDone(cnt, cd, tabs, l, k, c))
  }

  method MakeRoot(cnt: Counts, g: nat, l: nat, ghost cd: Coding, k: nat, a: nat) returns (tabs: Tables, ghost ms: seq<Meta>)
    requires cd.Valid() && Building(cnt, g, l, [], [], [], k, 0) && a + 1 == End(cnt, k)
    ensures Building(cnt, g, l, tabs, ms, [0], k, 0) && Progress(cnt, g, l, cd, tabs, [0], k, 0) && ms == [Meta(0, 0, l)]
  {
    assert Shl(0, k) == 0 by { ShlAdd(0, 0, k); }
    var j := ChooseBits(cnt, g, l, k, 0, a, 0);
    EndBelow(cnt, g, j);
    RootStep(cnt, g, l, cd, k, j);
    tabs, ms := [NewTable(j)], [Meta(0, 0, l)];
  }

  /** Allocate a subtable for the prefix of the current code and connect it to the table
      on top of the stack. */
  method MakeSubtable(cnt: Counts, g: nat, l: nat, ghost cd: Coding, tabs: Tables, ghost ms: seq<Meta>,
                      u: seq<nat>, w: nat, k: nat, i: nat, a: nat, ghost c: nat)
    returns (tabs': Tables, ghost m: Meta)
    requires Building(cnt, g, l, tabs, ms, u, k, c) && c + a + 1 == End(cnt, k) && i == Rev(c, k)
    requires Progress(cnt, g, l, cd, tabs, u, k, c)
    requires |u| > 0 && w == ms[Top(u)].w && k > w + l
    ensures Building(cnt, g, l, tabs', ms + [m], u + [|tabs|], k, c)
    ensures Progress(cnt, g, l, cd, tabs', u + [|tabs|], k, c)
    ensures m.w == w + l && i == Rev(m.code, m.w)
  {
    hide Shl, Shr, Low, Rev, End, First, WalkAt, SkipInv, AllDone, Complete;
    ghost var top := ms[Top(u)];
    EndBelow(cnt, g, k);
    ghost var prefix := NextPrefix(k, c, top, l);
    var j := ChooseBits(cnt, g, l, k, w + l, a, prefix);
    m := Meta(w + l, prefix, j);
    NewMetaOk(cnt, g, l, k, c, top, prefix, j);
    ReadyToLink(cnt, g, l, tabs, ms, u, k, c, m);
    LinkStep(cnt, g, l, tabs, ms, u, k, c, m, Shr(i, w));
    if !Skips(cnt, g, l) {
      LinkDone(cnt, g, l, cd, tabs, ms, u, k, c, m, Shr(i, w));
    }
    tabs' := WithTable(tabs, Top(u), Shr(i, w), l, j);
  }

  /** Allocate tables until the top one reaches the current code. */
  method MakeTables(cnt: Counts, g: nat, l: nat, ghost cd: Coding, tabs0: Tables, ghost ms0: seq<Meta>,
                    u0: seq<nat>, x0: seq<nat>, w0: int, k: nat, i: nat, a: nat, ghost c: nat)
    returns (tabs: Tables, ghost ms: seq<Meta>, u: seq<nat>, x: seq<nat>, w: int)
    requires Building(cnt, g, l, tabs0, ms0, u0, k, c) && c + a + 1 == End(cnt, k) && i == Rev(c, k)
    requires StackIs(l, ms0, u0, x0, w0) && Progress(cnt, g, l, cd, tabs0, u0, k, c)
    ensures Building(cnt, g, l, tabs, ms, u, k, c) && StackIs(l, ms, u, x, w) && k <= w + l
    ensures 0 < |u| <= BMAX && Progress(cnt, g, l, cd, tabs, u, k, c)
    ensures k <= w0 + l ==> u == u0
  {
    hide Shl, Shr, Low, Rev, WalkAt, SkipInv, AllDone, End, First;
    tabs, ms, u, x, w := tabs0, ms0, u0, x0, w0;
    while k > w + l
      invariant Building(cnt, g, l, tabs, ms, u, k, c) && StackIs(l, ms, u, x, w)
      invariant Progress(cnt, g, l, cd, tabs, u, k, c)
      invariant k <= w0 + l ==> u == u0
      decreases k - w
    {
      if |u| == 0 {
        NoBits(0);
        tabs, ms := MakeRoot(cnt, g, l, cd, k, a);
        u, x, w := [0], [0], 0;
      } else {
        var n := |tabs|;
        ghost var m;
        tabs, m := MakeSubtable(cnt, g, l, cd, tabs, ms, u, w, k, i, a, c);
        ms, u, x, w := ms + [m], u + [n], x + [i], w + l;
      }
    }
    StackDepth(tabs, ms, l, u, |u| - 1);
  }

  /** The stack of tables never outgrows its `BMAX` places. */
  lemma {:induction false} StackDepth(tabs: Tables, ms: seq<Meta>, l: nat, u: seq<nat>, t: nat)
    requires |tabs| == |ms| && StackOk(tabs, ms, l, u) && l >= 1 && t < |u|
    ensures ms[u[t]].w >= t
  {
    if t > 0 {
      StackDepth(tabs, ms, l, u, t - 1);
      assert StepOk(tabs, ms, l, u[t - 1], u[t - 1 + 1]);
    }
  }

  /** Back up over finished tables: those whose prefix the next code does not have. */
  method BackUp(cnt: Counts, g: nat, l: nat, ghost tabs: Tables, ghost ms: seq<Meta>, u0: seq<nat>, x0: seq<nat>, w0: nat,
                k: nat, i: nat, ghost c: nat)
    returns (u: seq<nat>, x: seq<nat>, w: nat)
    requires Building(cnt, g, l, tabs, ms, u0, k, c) && c < End(cnt, k) && |u0| > 0 && k <= w0 + l
    requires StackIs(l, ms, u0, x0, w0) && i == Rev(c + 1, k)
    ensures Building(cnt, g, l, tabs, ms, u, k, c + 1) && StackIs(l, ms, u, x, w) && |u| > 0
    ensures k <= w + l ==> u == u0
  {
    hide Shl, Shr, Low, Rev, WalkAt, SkipInv, AllDone, End, First;
    u, x, w := u0, x0, w0;
    while Low(i, w) != x[|x| - 1]
      invariant |u| > 0 && StackIs(l, ms, u, x, w) && StackOk(tabs, ms, l, u) && w < k
      invariant Low(Rev(c, k), w) == Rev(ms[Top(u)].code, w)
      invariant k > w + l ==> Low(c + 1, k - w - l) == 0
      invariant k <= w + l ==> u == u0
      decreases |u|
    {
      if |u| == 1 {
        NoBits(0);
        NoBits(i);
        assert false;
      }
      Popped(k, c, ms[Top(u)]);
      var below := u[|u| - 2];
      assert StepOk(tabs, ms, l, below, Top(u));
      LowLow(Rev(c, k), ms[below].w, w);
      u, x, w := u[..|u| - 1], x[..|x| - 1], w - l;
      assert Top(u) == below;
    }
  }

  /** Where the building loop stands, about to handle code `c` of `k` bits. */
  ghost predicate AtCode(cnt: Counts, g: nat, l: nat, cd: Coding, tabs: Tables, ms: seq<Meta>, u: seq<nat>, x: seq<nat>,
                         w: int, q: nat, k: nat, i: nat, p: nat, c: nat)
  {
    && Building(cnt, g, l, tabs, ms, u, k, c) && i == Rev(c, k) && p == Position(cnt, k, c)
    && StackIs(l, ms, u, x, w) && Progress(cnt, g, l, cd, tabs, u, k, c)
    && (k <= w + l ==> |u| > 0 && q == Top(u))
  }

  /** One code: make its tables, store its entries, step to the next code. */
  method AddCode(cnt: Counts, g: nat, l: nat, cd: Coding, tabs0: Tables, ghost ms0: seq<Meta>,
                 u0: seq<nat>, x0: seq<nat>, w0: int, q0: nat, k: nat, i0: nat, a: nat, p: nat, ghost c: nat)
    returns (tabs: Tables, ghost ms: seq<Meta>, u: seq<nat>, x: seq<nat>, w: int, q: nat, i: nat)
    requires AtCode(cnt, g, l, cd, tabs0, ms0, u0, x0, w0, q0, k, i0, p, c)
    requires c + a + 1 == End(cnt, k)
    ensures AtCode(cnt, g, l, cd, tabs, ms, u, x, w, q, k, i, p + 1, c + 1) && |u| > 0
  {
    hide Shl, Shr, Low, Rev, WalkAt, SkipInv, AllDone, End, First;
    tabs, ms, u, x, w := MakeTables(cnt, g, l, cd, tabs0, ms0, u0, x0, w0, k, i0, a, c);
    q := if k > w0 + l then u[|u| - 1] else q0;
    assert q == Top(u);
    var r :=
      if p >= cd.n then Huft(INVALID, k - w, NoVal)
      else if p >= |cd.vals| then Unset
      else if cd.vals[p] < cd.s then Huft(if cd.vals[p] < 256 then 16 else 15, k - w, Num(cd.vals[p]))
      else Huft(cd.e[cd.vals[p] - cd.s], k - w, Num(cd.d[cd.vals[p] - cd.s]));
    assert TableOk(cnt, g, l, ms[q]);
    WideEnough(cnt, g, l, ms[q], k, c);
    assert Shr(i0, w) < Pow2(k - w) by {
      RevSplit(c, k, w);
      RevBound(Low(c, k - w), k - w);
    }
    var tab := Fill(tabs[q], Shr(i0, w), k - w, r);
    FillStep(cnt, g, l, cd, tabs, ms, u, k, c, tab);
    tabs := tabs[q := tab];
    EndBelow(cnt, g, k);
    i := BackwardIncrement(i0, k, c);
    u, x, w := BackUp(cnt, g, l, tabs, ms, u, x, w, k, i, c);
  }

  /** Every code of a finished build decodes. */
  ghost predicate AllDecode(cnt: Counts, g: nat, cd: Coding, tabs: Tables, l: nat)
    requires cd.Valid()
  {
    forall L, c :: 1 <= L <= g && First(cnt, L) <= c < End(cnt, L) ==> Decodes(tabs, l, CodeResult(cnt, cd, L, c), L, c)
  }

  /** All codes of length `k`. */
  method AddLength(cnt: Counts, g: nat, l: nat, cd: Coding, tabs0: Tables, ghost ms0: seq<Meta>,
                   u0: seq<nat>, x0: seq<nat>, w0: int, q0: nat, k: nat, i0: nat, p0: nat)
    returns (tabs: Tables, ghost ms: seq<Meta>, u: seq<nat>, x: seq<nat>, w: int, q: nat, i: nat, p: nat)
    requires AtCode(cnt, g, l, cd, tabs0, ms0, u0, x0, w0, q0, k, i0, p0, First(cnt, k))
    requires |u0| > 0 || cnt[k] > 0
    ensures AtCode(cnt, g, l, cd, tabs, ms, u, x, w, q, k, i, p, End(cnt, k)) && |u| > 0
  {
    hide Shl, Shr, Low, Rev, WalkAt, SkipInv, AllDone;
    tabs, ms, u, x, w, q, i, p := tabs0, ms0, u0, x0, w0, q0, i0, p0;
    var a := cnt[k];
    ghost var c := First(cnt, k);
    while a > 0
      invariant c + a == End(cnt, k) && (|u| > 0 || a > 0)
      invariant AtCode(cnt, g, l, cd, tabs, ms, u, x, w, q, k, i, p, c)
      decreases a
    {
      a := a - 1;
      tabs, ms, u, x, w, q, i := AddCode(cnt, g, l, cd, tabs, ms, u, x, w, q, k, i, a, p, c);
      c, p := c + 1, p + 1;
    }
  }

  /** The main loop over code lengths. */
  method BuildTables(cnt: Counts, kmin: nat, g: nat, l: nat, cd: Coding) returns (tabs: Tables)
    requires Complete(cnt, g) && g <= BMAX && 1 <= kmin <= l <= g
    requires cnt[kmin] > 0 && forall L :: 1 <= L < kmin ==> cnt[L] == 0
    requires cd.Valid()
    ensures WellLinked(tabs, l)
    ensures !Skips(cnt, g, l) ==> AllDecode(cnt, g, cd, tabs, l) && AsksAll(cnt, g, tabs, l)
    ensures Skips(cnt, g, l) ==> exists stream :: WalkAt(tabs, 0, l, stream, 0) == Broken
    ensures l == g ==> forall x :: 0 <= x < |tabs[0]| ==> !IsLink(tabs[0][x])
  {
    hide Shl, Shr, Low, Rev, End, WalkAt, AsksAll, Building, WellLinked, AllDecode, Skips;
    StartBuilding(cnt, kmin, g, l);
    tabs := [];
    var u: seq<nat>, x: seq<nat>, w: int := [], [], -(l as int);
    var k, i, p, q: nat := kmin, 0, 0, 0;
    ghost var ms := [];
    NoneShorter(cnt, kmin);
    RevZero(k);
    EndBelow(cnt, g, kmin);
    tabs, ms, u, x, w, q, i, p := AddLength(cnt, g, l, cd, tabs, ms, u, x, w, q, k, i, p);
    while k < g
      invariant kmin <= k <= g && |u| > 0
      invariant AtCode(cnt, g, l, cd, tabs, ms, u, x, w, q, k, i, p, End(cnt, k))
      decreases g - k
    {
      NextLength(cnt, g, l, cd, tabs, ms, u, x, w, q, k, i, p);
      k := k + 1;
      tabs, ms, u, x, w, q, i, p := AddLength(cnt, g, l, cd, tabs, ms, u, x, w, q, k, i, p);
    }
    TablesDone(cnt, g, l, cd, tabs, ms, u);
  }

  /** All codes have been entered. */
  lemma TablesDone(cnt: Counts, g: nat, l: nat, cd: Coding, tabs: Tables, ms: seq<Meta>, u: seq<nat>)
    requires Building(cnt, g, l, tabs, ms, u, g, End(cnt, g)) && |u| > 0 && Progress(cnt, g, l, cd, tabs, u, g, End(cnt, g))
    ensures WellLinked(tabs, l)
    ensures !Skips(cnt, g, l) ==> AllDecode(cnt, g, cd, tabs, l) && AsksAll(cnt, g, tabs, l)
    ensures Skips(cnt, g, l) ==> exists stream :: WalkAt(tabs, 0, l, stream, 0) == Broken
    ensures l == g ==> forall x :: 0 <= x < |tabs[0]| ==> !IsLink(tabs[0][x])
  {
    hide Shl, Shr, Low, Rev, End, WalkAt, AsksAll, TableBits;
    OneLevel(cnt, g, l, tabs, ms);
    assert Narrow(ms);
    if Skips(cnt, g, l) {
      var w0 :| SkipsAt(cnt, g, l, w0);
      var ones := Pow2(2 * BMAX + 2) - 1;
      ShlNone(1);
      OnesBreak(cnt, g, l, tabs, ms, w0, 0, 2 * BMAX + 2);
      assert WalkAt(tabs, 0, l, ones, 0) == Broken;
    } else {
      AsksFromRoot(cnt, g, l, tabs, ms);
    }
  }

  /** The tables ask for as many bits as the code they decode prescribes. */
  ghost predicate AsksAll(cnt: Counts, g: nat, tabs: Tables, l: nat)
    requires l >= 1
  {
    forall stream :: var r := WalkAt(tabs, 0, l, stream, 0);
      r.Done? && 1 <= r.bits <= g ==> Asks(tabs, 0, l, stream, 0) == AskedFor(cnt, g, l, stream, r.bits)
  }

  lemma {:induction false} AsksAt(cnt: Counts, g: nat, l: nat, tabs: Tables, ms: seq<Meta>, t: nat, stream: nat, L: nat)
    requires Linked(tabs, ms, l) && t < |ms| && !Skips(cnt, g, l) && forall i :: 0 <= i < |ms| ==> TableOk(cnt, g, l, ms[i])
    requires ms[t].Visits(stream) && 1 <= L <= g
    requires var r := WalkAt(tabs, t, ms[t].rbits, stream, ms[t].w); r.Done? && r.bits == L
    ensures Asks(tabs, t, ms[t].rbits, stream, ms[t].w) == AskedFor(cnt, g, l, stream, L) > ms[t].w
    decreases |tabs| - t
  {
    hide TableBits, Skips, Low, Shr, Rev, End, Shl;
    var m := ms[t];
    assert TableOk(cnt, g, l, m);
    IndexInRange(tabs, ms, l, t, stream);
    var x := Low(Shr(stream, m.w), m.rbits);
    var h := tabs[t][x];
    if IsLink(h) {
      assert LinkOk(ms, l, t, x, h);
      assert TableOk(cnt, g, l, ms[h.v.t]);
      VisitsNext(ms, l, t, h, stream);
      AsksAt(cnt, g, l, tabs, ms, h.v.t, stream, L);
    } else {
      assert IsLeaf(h);
      OneLastLevel(L, l, m.w);
      RevInvolution(m.code, m.w);
    }
  }

  lemma AsksFromRoot(cnt: Counts, g: nat, l: nat, tabs: Tables, ms: seq<Meta>)
    requires Linked(tabs, ms, l) && |ms| > 0 && ms[0] == Meta(0, 0, l) && !Skips(cnt, g, l)
    requires forall i :: 0 <= i < |ms| ==> TableOk(cnt, g, l, ms[i])
    ensures AsksAll(cnt, g, tabs, l)
  {
    forall stream ensures ms[0].Visits(stream) {
    }
    hide Linked, TableOk, WalkAt, Asks, Skips;
    forall stream | var r := WalkAt(tabs, 0, l, stream, 0); r.Done? && 1 <= r.bits <= g
      ensures Asks(tabs, 0, l, stream, 0) == AskedFor(cnt, g, l, stream, WalkAt(tabs, 0, l, stream, 0).bits)
    {
      assert ms[0].Visits(stream);
      AsksAt(cnt, g, l, tabs, ms, 0, stream, WalkAt(tabs, 0, l, stream, 0).bits);
    }
  }

  lemma StartBuilding(cnt: Counts, kmin: nat, g: nat, l: nat)
    requires Complete(cnt, g) && g <= BMAX && 1 <= kmin <= l <= g && forall L :: 1 <= L < kmin ==> cnt[L] == 0
    ensures Building(cnt, g, l, [], [], [], kmin, 0)
  {
    NoneShorter(cnt, kmin);
  }

  /** When the first table takes the longest code there are no subtables. */
  lemma OneLevel(cnt: Counts, g: nat, l: nat, tabs: Tables, ms: seq<Meta>)
    requires Linked(tabs, ms, l) && |tabs| > 0 && forall t :: 0 <= t < |ms| ==> TableOk(cnt, g, l, ms[t])
    ensures l == g ==> forall x :: 0 <= x < |tabs[0]| ==> !IsLink(tabs[0][x])
  {
    forall x | 0 <= x < |tabs[0]| && IsLink(tabs[0][x]) ensures l != g {
      assert LinkOk(ms, l, 0, x, tabs[0][x]);
      assert TableOk(cnt, g, l, ms[tabs[0][x].v.t]);
    }
  }

  lemma {:induction false} NoneShorter(cnt: Counts, k: nat)
    requires 1 <= k <= |cnt| && forall L :: 1 <= L < k ==> cnt[L] == 0
    ensures First(cnt, k) == 0 && Off(cnt, k) == 0
  {
    if k > 1 {
      NoneShorter(cnt, k - 1);
    }
  }

  /** Going on to the next length doubles the code and leaves its reversal alone. */
  lemma NextLength(cnt: Counts, g: nat, l: nat, cd: Coding, tabs: Tables, ms: seq<Meta>, u: seq<nat>, x: seq<nat>,
                   w: int, q: nat, k: nat, i: nat, p: nat)
    requires AtCode(cnt, g, l, cd, tabs, ms, u, x, w, q, k, i, p, End(cnt, k)) && k < g && |u| > 0
    ensures AtCode(cnt, g, l, cd, tabs, ms, u, x, w, q, k + 1, i, p, First(cnt, k + 1))
  {
    NextBuilding(cnt, g, l, tabs, ms, u, k);
    if !Skips(cnt, g, l) {
      SameCodes(cnt, cd, tabs, l, k);
    }
  }

  lemma NextBuilding(cnt: Counts, g: nat, l: nat, tabs: Tables, ms: seq<Meta>, u: seq<nat>, k: nat)
    requires Building(cnt, g, l, tabs, ms, u, k, End(cnt, k)) && k < g && |u| > 0
    ensures Building(cnt, g, l, tabs, ms, u, k + 1, First(cnt, k + 1))
    ensures Rev(First(cnt, k + 1), k + 1) == Rev(End(cnt, k), k)
    ensures Position(cnt, k + 1, First(cnt, k + 1)) == Position(cnt, k, End(cnt, k))
  {
    hide Linked, TableOk, StackOk, SkipInv, Complete, Low, Rev, First, End, Position;
    TopInside(tabs, ms, l, u);
    NextFirst(cnt, k);
    DoubledCode(k, End(cnt, k), ms[Top(u)], l);
  }

  lemma TopInside(tabs: Tables, ms: seq<Meta>, l: nat, u: seq<nat>)
    requires Linked(tabs, ms, l) && |u| > 0 && StackOk(tabs, ms, l, u)
    ensures Top(u) < |ms|
  {
  }

  lemma NextFirst(cnt: Counts, k: nat)
    ensures First(cnt, k) <= End(cnt, k) && First(cnt, k + 1) == 2 * End(cnt, k) <= End(cnt, k + 1)
    ensures Position(cnt, k + 1, First(cnt, k + 1)) == Position(cnt, k, End(cnt, k))
  {
  }

  lemma DoubledCode(k: nat, c: nat, m: Meta, l: nat)
    requires m.w < k && (k > m.w + l ==> Low(c, k - m.w - l) == 0)
    ensures Rev(2 * c, k + 1) == Rev(c, k)
    ensures k + 1 > m.w + l ==> Low(2 * c, k + 1 - m.w - l) == 0
  {
  }

  lemma SameCodes(cnt: Counts, cd: Coding, tabs: Tables, l: nat, k: nat)
    requires cd.Valid() && AllDone(cnt, cd, tabs, l, k, End(cnt, k))
    ensures AllDone(cnt, cd, tabs, l, k + 1, First(cnt, k + 1))
  {
    forall L, cc | 1 <= L <= k + 1 && First(cnt, L) <= cc < End(cnt, L) && (L < k + 1 || cc < First(cnt, k + 1))
      ensures Decodes(tabs, l, CodeResult(cnt, cd, L, cc), L, cc)
    {
      assert L <= k;
    }
  }

  lemma {:induction false} LevelGap(v: nat, w: nat, l: nat)
    requires Level(v, l) && Level(w, l) && v < w
    ensures v + l <= w
  {
    if v != 0 {
      LevelGap(v - l, w - l, l);
    }
  }

  lemma {:induction false} ShrOnes(n: nat, w: nat)
    requires w <= n
    ensures Shr(Pow2(n) - 1, w) == Pow2(n - w) - 1
  {
    if w != 0 {
      assert (Pow2(n) - 1) / 2 == Pow2(n - 1) - 1;
      ShrOnes(n - 1, w - 1);
    }
  }

  /** The stream of ones ends in an entry that was never stored. */
  lemma {:induction false} OnesBreak(cnt: Counts, g: nat, l: nat, tabs: Tables, ms: seq<Meta>, w0: nat, t: nat, n: nat)
    requires n >= 2 * BMAX + 2
    requires Linked(tabs, ms, l) && SkipInv(cnt, g, l, tabs, ms) && SkipsAt(cnt, g, l, w0) && t < |tabs|
    requires g <= BMAX && forall i :: 0 <= i < |ms| ==> TableOk(cnt, g, l, ms[i])
    requires ms[t].w <= w0 && ms[t].code == Pow2(ms[t].w) - 1
    ensures WalkAt(tabs, t, ms[t].rbits, Pow2(n) - 1, ms[t].w) == Broken
    decreases |tabs| - t
  {
    hide Shl, Low, Rev, Shr, End;
    var m, ones := ms[t], Pow2(n) - 1;
    assert TableOk(cnt, g, l, m) && SkipShape(tabs[t], m, l, w0);
    var x := Low(Shr(ones, m.w), m.rbits);
    assert x == Pow2(m.rbits) - 1 by {
      ShrOnes(n, m.w);
      LowOnes(n - m.w, m.rbits);
    }
    var h := tabs[t][x];
    if IsLink(h) {
      assert LinkOk(ms, l, t, x, h);
      if m.rbits > l {
        Pow2Mono(l, m.rbits);
      }
      var m' := ms[h.v.t];
      LevelGap(m.w, w0, l);
      assert Rev(m'.code, m'.w) == Pow2(m'.w) - 1 by {
        RevOnes(m.w);
        ShlAdd(Pow2(l) - 1, 1, m.w);
        ShlShl(1, l, m.w);
      }
      RevOnes(m'.w);
      RevInjective(m'.code, Pow2(m'.w) - 1, m'.w);
      OnesBreak(cnt, g, l, tabs, ms, w0, h.v.t, n);
    }
  }
}
