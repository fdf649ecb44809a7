/**
 The two ways the building loop of `huft_build` changes the tables: storing the entries of
 a code, and allocating a subtable and linking it in. Each keeps what was decoded before.
 */
module HuftSteps {
  import opened Bits
  import opened Huffman
  import opened HuftTables
  import opened HuftState

  /** The streams that read a stored entry are those that start with the code. */
  lemma FillHits(stream: nat, m: Meta, k: nat, i: nat)
    requires m.w < k && k - m.w <= m.rbits
    requires m.Visits(stream) && Low(i, m.w) == Rev(m.code, m.w)
    ensures Low(m.Index(stream), k - m.w) == Shr(i, m.w) <==> Low(stream, k) == i
    ensures Low(stream, k) == i ==> Low(Shr(stream, m.w), k - m.w) == Shr(i, m.w)
  {
    hide Shl, Shr, Low, Rev;
    LowLow(Shr(stream, m.w), k - m.w, m.rbits);
    ShrLow(stream, m.w, k - m.w);
    Split(i, m.w);
  }

  ghost predicate Filled(tab: seq<Huft>, tab': seq<Huft>, base: nat, kw: nat, r: Huft)
  {
    |tab'| == |tab| && forall x :: 0 <= x < |tab| ==> tab'[x] == if Low(x, kw) == base then r else tab[x]
  }

  lemma {:induction false} StackIncreases(tabs: Tables, ms: seq<Meta>, l: nat, u: seq<nat>, t: nat)
    requires |tabs| == |ms| && StackOk(tabs, ms, l, u) && t < |u|
    ensures u[t] <= Top(u) && (t < |u| - 1 ==> u[t] < Top(u))
    decreases |u| - t
  {
    if t < |u| - 1 {
      assert StepOk(tabs, ms, l, u[t], u[t + 1]);
      StackIncreases(tabs, ms, l, u, t + 1);
    }
  }

  lemma FillStructure(tabs: Tables, ms: seq<Meta>, l: nat, u: seq<nat>, tab': seq<Huft>, base: nat, kw: nat, r: Huft)
    requires Linked(tabs, ms, l) && StackOk(tabs, ms, l, u)
    requires !IsLink(r) && (r.Huft? ==> 1 <= r.b <= ms[Top(u)].rbits) && Filled(tabs[Top(u)], tab', base, kw, r)
    ensures Linked(tabs[Top(u) := tab'], ms, l) && StackOk(tabs[Top(u) := tab'], ms, l, u)
  {
    var q := Top(u);
    var tabs' := tabs[q := tab'];
    forall t, x | 0 <= t < |tabs'| && 0 <= x < |tabs'[t]| && IsLink(tabs'[t][x])
      ensures LinkOk(ms, l, t, x, tabs'[t][x])
    {
      assert tabs'[t][x] == tabs[t][x];
    }
    forall t | 0 <= t < |u| - 1
      ensures StepOk(tabs', ms, l, u[t], u[t + 1])
    {
      assert StepOk(tabs, ms, l, u[t], u[t + 1]);
      StackIncreases(tabs, ms, l, u, t);
    }
  }

  lemma {:induction false} LowOnes(n: nat, m: nat)
    requires m <= n
    ensures Low(Pow2(n) - 1, m) == Pow2(m) - 1
  {
    if m != 0 {
      assert (Pow2(n) - 1) / 2 == Pow2(n - 1) - 1;
      LowOnes(n - 1, m - 1);
    }
  }

  /** A code made of ones only is the longest code. */
  lemma OnesIsLast(cnt: Counts, g: nat, w: nat, k: nat, c: nat)
    requires Complete(cnt, g) && w <= k && First(cnt, k) <= c < End(cnt, k)
    requires Low(Rev(c, k), w) == Pow2(w) - 1 && Shr(Rev(c, k), w) == Pow2(k - w) - 1
    ensures k >= g
  {
    hide Shl, Shr, Low, Rev, End, First;
    var i := Rev(c, k);
    EndBelow(cnt, g, k);
    assert i == Pow2(k) - 1 by {
      Split(i, w);
      ShlAdd(Pow2(k - w) - 1, 1, w);
      ShlShl(1, k - w, w);
    }
    RevOnes(k);
    RevInjective(c, Pow2(k) - 1, k);
  }

  lemma FillSkip(cnt: Counts, g: nat, l: nat, tab: seq<Huft>, tab': seq<Huft>, m: Meta, k: nat, c: nat, r: Huft, w0: nat)
    requires Complete(cnt, g) && First(cnt, k) <= c < End(cnt, k) && m.w < k <= m.w + l && k - m.w <= m.rbits
    requires Low(Rev(c, k), m.w) == Rev(m.code, m.w)
    requires Filled(tab, tab', Shr(Rev(c, k), m.w), k - m.w, r)
    requires SkipsAt(cnt, g, l, w0) && Pow2(m.rbits) <= |tab| && SkipShape(tab, m, l, w0)
    ensures SkipShape(tab', m, l, w0)
  {
    if m.code == Pow2(m.w) - 1 && m.w <= w0 {
      var x := Pow2(m.rbits) - 1;
      LowOnes(m.rbits, k - m.w);
      if Low(x, k - m.w) == Shr(Rev(c, k), m.w) {
        RevOnes(m.w);
        OnesIsLast(cnt, g, m.w, k, c);
        assert false;
      }
    }
  }

  lemma FillOld(cnt: Counts, g: nat, l: nat, tabs: Tables, ms: seq<Meta>, u: seq<nat>, k: nat, c: nat,
                tab': seq<Huft>, r: Huft, result: Decoded, L: nat, cc: nat)
    requires Building(cnt, g, l, tabs, ms, u, k, c) && c < End(cnt, k) && |u| > 0
    requires k <= ms[Top(u)].w + l && k - ms[Top(u)].w <= ms[Top(u)].rbits
    requires Filled(tabs[Top(u)], tab', Shr(Rev(c, k), ms[Top(u)].w), k - ms[Top(u)].w, r)
    requires 1 <= L <= k && First(cnt, L) <= cc < End(cnt, L) && (L < k || cc < c)
    requires Decodes(tabs, l, result, L, cc)
    ensures Decodes(tabs[Top(u) := tab'], l, result, L, cc)
  {
    hide Shl, Shr, Low, Rev, WalkAt, SkipInv, End, First;
    var q := Top(u);
    var tabs' := tabs[q := tab'];
    forall stream, t | Low(stream, L) == Rev(cc, L) && 0 <= t < |tabs| && ms[t].Visits(stream)
      ensures var x := ms[t].Index(stream); x < |tabs[t]| && x < |tabs'[t]| && tabs'[t][x] == tabs[t][x]
    {
      IndexInRange(tabs, ms, l, t, stream);
      if t == q {
        FillHits(stream, ms[q], k, Rev(c, k));
        EarlierEnds(cnt, g, L, cc, k, c);
        EndBelow(cnt, g, k);
        PrefixClash(stream, L, cc, k, c);
      }
    }
    KeepsDecoding(tabs, tabs', ms, l, result, L, cc);
  }

  /** Tables below the top of the stack are indexed with exactly `l` bits. */
  lemma StraightStack(cnt: Counts, g: nat, l: nat, tabs: Tables, ms: seq<Meta>, u: seq<nat>, t: nat)
    requires Linked(tabs, ms, l) && StackOk(tabs, ms, l, u) && !Skips(cnt, g, l) && t < |u| - 1
    requires forall i :: 0 <= i < |ms| ==> TableOk(cnt, g, l, ms[i])
    ensures ms[u[t]].rbits == l
  {
    var a, b := u[t], u[t + 1];
    assert StepOk(tabs, ms, l, a, b);
    var x := Shr(Rev(ms[b].code, ms[b].w), ms[a].w);
    assert LinkOk(ms, l, a, x, tabs[a][x]);
    assert TableOk(cnt, g, l, ms[a]) && TableOk(cnt, g, l, ms[b]);
  }

  lemma FillNew(cnt: Counts, g: nat, l: nat, tabs: Tables, ms: seq<Meta>, u: seq<nat>, k: nat, c: nat,
                tab': seq<Huft>, r: Huft)
    requires Building(cnt, g, l, tabs, ms, u, k, c) && c < End(cnt, k) && |u| > 0 && !Skips(cnt, g, l)
    requires k <= ms[Top(u)].w + l && k - ms[Top(u)].w <= ms[Top(u)].rbits
    requires !IsLink(r) && (r.Huft? ==> r.b == k - ms[Top(u)].w)
    requires Filled(tabs[Top(u)], tab', Shr(Rev(c, k), ms[Top(u)].w), k - ms[Top(u)].w, r)
    ensures Decodes(tabs[Top(u) := tab'], l, ResultOf(r, k), k, c)
  {
    var q, w := Top(u), ms[Top(u)].w;
    var tabs' := tabs[q := tab'];
    FillStructure(tabs, ms, l, u, tab', Shr(Rev(c, k), w), k - w, r);
    forall t | 0 <= t < |u| - 1 ensures ms[u[t]].rbits == l {
      StraightStack(cnt, g, l, tabs, ms, u, t);
    }
    forall stream | Low(stream, k) == Rev(c, k)
      ensures WalkAt(tabs', 0, l, stream, 0) == ResultOf(r, k)
    {
      assert ms[q].Visits(stream) by { LowLow(stream, w, k); }
      WalkDown(tabs', ms, l, u, stream, 0);
      IndexInRange(tabs', ms, l, q, stream);
      FillHits(stream, ms[q], k, Rev(c, k));
      assert tabs'[q][ms[q].Index(stream)] == r;
    }
  }

  /** Storing the entries of code `c`: all codes up to and including it decode. */
  lemma FillStep(cnt: Counts, g: nat, l: nat, cd: Coding, tabs: Tables, ms: seq<Meta>, u: seq<nat>, k: nat, c: nat, tab': seq<Huft>)
    requires cd.Valid() && Building(cnt, g, l, tabs, ms, u, k, c) && c < End(cnt, k) && |u| > 0
    requires k <= ms[Top(u)].w + l && k - ms[Top(u)].w <= ms[Top(u)].rbits
    requires Filled(tabs[Top(u)], tab', Shr(Rev(c, k), ms[Top(u)].w), k - ms[Top(u)].w,
                    cd.EntryAt(Position(cnt, k, c), k - ms[Top(u)].w))
    ensures Building(cnt, g, l, tabs[Top(u) := tab'], ms, u, k, c)
    ensures !Skips(cnt, g, l) && AllDone(cnt, cd, tabs, l, k, c) ==> AllDone(cnt, cd, tabs[Top(u) := tab'], l, k, c + 1)
  {
    hide Shl, Shr, Low, Rev, WalkAt, End, First, Decodes;
    var q, w := Top(u), ms[Top(u)].w;
    var r := cd.EntryAt(Position(cnt, k, c), k - w);
    var tabs' := tabs[q := tab'];
    FillStructure(tabs, ms, l, u, tab', Shr(Rev(c, k), w), k - w, r);
    forall w0, t | 0 <= t < |tabs'| && SkipsAt(cnt, g, l, w0) ensures SkipShape(tabs'[t], ms[t], l, w0) {
      assert SkipShape(tabs[t], ms[t], l, w0);
      if t == q {
        FillSkip(cnt, g, l, tabs[q], tab', ms[q], k, c, r, w0);
      }
    }
    if !Skips(cnt, g, l) && AllDone(cnt, cd, tabs, l, k, c) {
      forall L, cc | 1 <= L <= k && First(cnt, L) <= cc < End(cnt, L) && (L < k || cc < c + 1)
        ensures Decodes(tabs', l, CodeResult(cnt, cd, L, cc), L, cc)
      {
        if L < k || cc < c {
          FillOld(cnt, g, l, tabs, ms, u, k, c, tab', r, CodeResult(cnt, cd, L, cc), L, cc);
        } else {
          FillNew(cnt, g, l, tabs, ms, u, k, c, tab', r);
        }
      }
    }
  }

  function NewTable(j: nat): seq<Huft>
  {
    seq(Pow2(j), _ => Unset)
  }

  /** The first table. */
  lemma RootStep(cnt: Counts, g: nat, l: nat, cd: Coding, k: nat, j: nat)
    requires cd.Valid() && Building(cnt, g, l, [], [], [], k, 0) && j >= l
    ensures Building(cnt, g, l, [NewTable(j)], [Meta(0, 0, l)], [0], k, 0)
    ensures AllDone(cnt, cd, [NewTable(j)], l, k, 0)
  {
    Pow2Mono(l, j);
    Pow2Mono(0, l);
    forall L | 1 <= L < k ensures End(cnt, L) == 0 {
      EndGrows(cnt, L, k);
    }
  }

  /** Tables after a table of `j` index bits is linked in at index `x` of table `q`. */
  function WithTable(tabs: Tables, q: nat, x: nat, l: nat, j: nat): Tables
    requires q < |tabs| && x < |tabs[q]|
  {
    tabs[q := tabs[q][x := Huft(16 + j, l, Ptr(|tabs|))]] + [NewTable(j)]
  }

  /** The prefix of the current code at the offset of the next table, and where the
      new table is linked. */
  lemma NextPrefix(k: nat, c: nat, m: Meta, l: nat) returns (prefix: nat)
    requires k > m.w + l && Low(c, k - m.w - l) == 0 && c < Pow2(k) && m.code < Pow2(m.w)
    requires Low(Rev(c, k), m.w) == Rev(m.code, m.w)
    ensures prefix < Pow2(m.w + l) && c == Shl(prefix, k - m.w - l) && Rev(c, k) == Rev(prefix, m.w + l)
    ensures Shr(Rev(c, k), m.w) < Pow2(l)
    ensures Rev(prefix, m.w + l) == Rev(m.code, m.w) + Shl(Shr(Rev(c, k), m.w), m.w)
  {
    var n := k - m.w - l;
    prefix := Shr(c, n);
    Split(c, n);
    assert prefix < Pow2(m.w + l) by {
      ShrLess(c, n, Pow2(m.w + l));
      ShlShl(1, m.w + l, n);
    }
    RevShift(prefix, m.w + l, n);
    var i := Rev(c, k);
    Split(i, m.w);
    assert Shr(i, m.w) < Pow2(l) by {
      RevBound(prefix, m.w + l);
      ShrLess(i, m.w, Pow2(l));
      ShlShl(1, l, m.w);
    }
  }

  /** Where the next table is linked, and what it is for. */
  ghost predicate Linking(cnt: Counts, g: nat, l: nat, tabs: Tables, ms: seq<Meta>, u: seq<nat>, k: nat, c: nat, m: Meta, x: nat)
  {
    && Building(cnt, g, l, tabs, ms, u, k, c) && c < End(cnt, k) && |u| > 0
    && k > m.w && m.w == ms[Top(u)].w + l && ms[Top(u)].rbits >= l
    && m.code < Pow2(m.w) && c == Shl(m.code, k - m.w) && Rev(c, k) == Rev(m.code, m.w)
    && x == Shr(Rev(c, k), ms[Top(u)].w) && x < Pow2(l) <= |tabs[Top(u)]|
    && Rev(m.code, m.w) == Rev(ms[Top(u)].code, ms[Top(u)].w) + Shl(x, ms[Top(u)].w)
    && TableOk(cnt, g, l, m)
  }

  /** The streams that read the new link are those that start with the new prefix. */
  lemma LinkHits(m: Meta, m': Meta, x: nat, l: nat, stream: nat)
    requires m.rbits >= l && m'.w == m.w + l && x < Pow2(l) && Rev(m'.code, m'.w) == Rev(m.code, m.w) + Shl(x, m.w)
    requires m.Visits(stream) && m.Index(stream) == x
    ensures Low(stream, m'.w) == Rev(m'.code, m'.w)
  {
    LowLow(Shr(stream, m.w), l, m.rbits);
    LowSmall(x, l);
    ShrLow(stream, m.w, l);
  }

  lemma LinkStructure(cnt: Counts, g: nat, l: nat, tabs: Tables, ms: seq<Meta>, u: seq<nat>, k: nat, c: nat, m: Meta, x: nat)
    requires Linking(cnt, g, l, tabs, ms, u, k, c, m, x)
    ensures var tabs' := WithTable(tabs, Top(u), x, l, m.rbits);
      Linked(tabs', ms + [m], l) && StackOk(tabs', ms + [m], l, u + [|tabs|])
  {
    LinkTables(cnt, g, l, tabs, ms, u, k, c, m, x);
    hide Shl, Shr, Low, Rev, WalkAt, SkipInv, End, First, Linked, TableOk;
    var q := Top(u);
    var tabs', ms', u' := WithTable(tabs, q, x, l, m.rbits), ms + [m], u + [|tabs|];
    LinkSizes(tabs, ms, l);
    forall t | 0 <= t < |u'| - 1
      ensures StepOk(tabs', ms', l, u'[t], u'[t + 1])
    {
      StackIncreases(tabs, ms, l, u, t);
      if t < |u| - 1 {
        assert StepOk(tabs, ms, l, u[t], u[t + 1]);
      } else {
        assert u'[t] == q && u'[t + 1] == |tabs|;
      }
    }
  }

  lemma LinkSizes(tabs: Tables, ms: seq<Meta>, l: nat)
    requires Linked(tabs, ms, l)
    ensures |tabs| == |ms|
  {
  }

  lemma LinkTables(cnt: Counts, g: nat, l: nat, tabs: Tables, ms: seq<Meta>, u: seq<nat>, k: nat, c: nat, m: Meta, x: nat)
    requires Linking(cnt, g, l, tabs, ms, u, k, c, m, x)
    ensures Linked(WithTable(tabs, Top(u), x, l, m.rbits), ms + [m], l)
  {
    hide Shl, Shr, Low, Rev, WalkAt, SkipInv, End, First, TableBits, Skips;
    var q := Top(u);
    var tabs', ms' := WithTable(tabs, q, x, l, m.rbits), ms + [m];
    forall t, y | 0 <= t < |tabs'| && 0 <= y < |tabs'[t]| && IsLink(tabs'[t][y])
      ensures LinkOk(ms', l, t, y, tabs'[t][y])
    {
      if t < |tabs| && !(t == q && y == x) {
        assert tabs'[t][y] == tabs[t][y];
        assert LinkOk(ms, l, t, y, tabs[t][y]);
      }
    }
  }

  lemma LinkOld(cnt: Counts, g: nat, l: nat, tabs: Tables, ms: seq<Meta>, u: seq<nat>, k: nat, c: nat, m: Meta, x: nat,
                result: Decoded, L: nat, cc: nat)
    requires Linking(cnt, g, l, tabs, ms, u, k, c, m, x)
    requires 1 <= L <= k && First(cnt, L) <= cc < End(cnt, L) && (L < k || cc < c)
    requires Decodes(tabs, l, result, L, cc)
    ensures Decodes(WithTable(tabs, Top(u), x, l, m.rbits), l, result, L, cc)
  {
    hide Shl, Shr, Low, Rev, WalkAt, SkipInv, End, First;
    var q := Top(u);
    var tabs' := WithTable(tabs, q, x, l, m.rbits);
    forall stream, t | Low(stream, L) == Rev(cc, L) && 0 <= t < |tabs| && ms[t].Visits(stream)
      ensures var y := ms[t].Index(stream); y < |tabs[t]| && y < |tabs'[t]| && tabs'[t][y] == tabs[t][y]
    {
      IndexInRange(tabs, ms, l, t, stream);
      if t == q && ms[q].Index(stream) == x {
        LinkHits(ms[q], m, x, l, stream);
        EarlierEnds(cnt, g, L, cc, k, c);
        EarlierElsewhere(stream, L, cc, m.w, m.code, k);
        assert false;
      }
    }
    KeepsDecoding(tabs, tabs', ms, l, result, L, cc);
  }

  /** A code in the subtree of ones below `w0` needs at least `l` more bits. */
  lemma SkipLength(cnt: Counts, g: nat, l: nat, w0: nat, k: nat, c: nat)
    requires Complete(cnt, g) && SkipsAt(cnt, g, l, w0) && w0 < k
    requires c == Shl(Pow2(w0) - 1, k - w0) && c < End(cnt, k)
    ensures k - w0 >= l
    ensures k - w0 == l ==> End(cnt, k) < Shl(Pow2(w0), l)
  {
    if k - w0 < l {
      var n := w0 + l - 1 - k;
      assert Shl(End(cnt, k), n) <= End(cnt, w0 + l - 1) by {
        if n > 0 {
          EndGrows(cnt, k, w0 + l - 1);
          EndBelow(cnt, g, w0 + l - 1);
        }
      }
      ShlMono(c, End(cnt, k), n);
      ShlShl(Pow2(w0) - 1, k - w0, n);
      assert false;
    } else if k - w0 == l {
      EndBelow(cnt, g, k);
      ShlShl(1, w0, l);
    }
  }

  lemma LinkSkipOld(tab: seq<Huft>, m: Meta, l: nat, w0: nat, x: nat, h: Huft)
    requires x < Pow2(l) && x < |tab| && IsLink(h) && Pow2(m.rbits) <= |tab| && SkipShape(tab, m, l, w0)
    ensures SkipShape(tab[x := h], m, l, w0)
  {
    if m.rbits > l {
      Pow2Mono(l, m.rbits);
    }
  }

  lemma LinkSkipNew(cnt: Counts, g: nat, l: nat, k: nat, c: nat, m: Meta, w0: nat)
    requires Complete(cnt, g) && m.w < k && c == Shl(m.code, k - m.w) && c < End(cnt, k) && SkipsAt(cnt, g, l, w0)
    requires k - m.w > l ==> m.rbits > l
    requires k - m.w == l && m.w + l < g && End(cnt, k) < Shl(m.code + 1, l) ==> m.rbits > l
    ensures SkipShape(NewTable(m.rbits), m, l, w0)
  {
    if m.code == Pow2(m.w) - 1 && m.w == w0 {
      SkipLength(cnt, g, l, w0, k, c);
    }
  }

  lemma LinkSkip(cnt: Counts, g: nat, l: nat, tabs: Tables, ms: seq<Meta>, q: nat, m: Meta, x: nat)
    requires Linked(tabs, ms, l) && SkipInv(cnt, g, l, tabs, ms)
    requires q < |tabs| && x < Pow2(l) && x < |tabs[q]| && 1 <= m.rbits <= BMAX + 1
    requires forall w0 :: SkipsAt(cnt, g, l, w0) ==> SkipShape(NewTable(m.rbits), m, l, w0)
    requires Linked(WithTable(tabs, q, x, l, m.rbits), ms + [m], l)
    ensures SkipInv(cnt, g, l, WithTable(tabs, q, x, l, m.rbits), ms + [m])
  {
    var tabs', ms' := WithTable(tabs, q, x, l, m.rbits), ms + [m];
    forall w0, t | 0 <= t < |tabs'| && SkipsAt(cnt, g, l, w0) ensures SkipShape(tabs'[t], ms'[t], l, w0) {
      if t == q {
        assert SkipShape(tabs[q], ms[q], l, w0);
        LinkSkipOld(tabs[q], ms[q], l, w0, x, Huft(16 + m.rbits, l, Ptr(|tabs|)));
      } else if t < |tabs| {
        assert SkipShape(tabs[t], ms[t], l, w0);
        assert tabs'[t] == tabs[t];
      } else {
        assert tabs'[t] == NewTable(m.rbits);
      }
    }
  }

  lemma LinkDone(cnt: Counts, g: nat, l: nat, cd: Coding, tabs: Tables, ms: seq<Meta>, u: seq<nat>, k: nat, c: nat, m: Meta, x: nat)
    requires cd.Valid() && Linking(cnt, g, l, tabs, ms, u, k, c, m, x) && AllDone(cnt, cd, tabs, l, k, c)
    ensures AllDone(cnt, cd, WithTable(tabs, Top(u), x, l, m.rbits), l, k, c)
  {
    forall L, cc | 1 <= L <= k && First(cnt, L) <= cc < End(cnt, L) && (L < k || cc < c)
      ensures Decodes(WithTable(tabs, Top(u), x, l, m.rbits), l, CodeResult(cnt, cd, L, cc), L, cc)
    {
      LinkOld(cnt, g, l, tabs, ms, u, k, c, m, x, CodeResult(cnt, cd, L, cc), L, cc);
    }
  }

  /** Linking a new table in: what decoded before still decodes. */
  lemma LinkStep(cnt: Counts, g: nat, l: nat, tabs: Tables, ms: seq<Meta>, u: seq<nat>, k: nat, c: nat, m: Meta, x: nat)
    requires Linking(cnt, g, l, tabs, ms, u, k, c, m, x)
    requires k > m.w + l ==> Low(c, k - m.w - l) == 0
    requires k - m.w > l ==> m.rbits > l
    requires k - m.w == l && m.w + l < g && End(cnt, k) < Shl(m.code + 1, l) ==> m.rbits > l
    ensures Building(cnt, g, l, WithTable(tabs, Top(u), x, l, m.rbits), ms + [m], u + [|tabs|], k, c)
  {
    hide TableBits, Skips, SkipsAt;
    LinkStructure(cnt, g, l, tabs, ms, u, k, c, m, x);
    forall w0 | SkipsAt(cnt, g, l, w0) ensures SkipShape(NewTable(m.rbits), m, l, w0) {
      LinkSkipNew(cnt, g, l, k, c, m, w0);
    }
    LinkSkip(cnt, g, l, tabs, ms, Top(u), m, x);
    assert Low(Rev(c, k), m.w) == Rev(m.code, m.w) by {
      RevBound(m.code, m.w);
      LowSmall(Rev(m.code, m.w), m.w);
    }
  }
}
