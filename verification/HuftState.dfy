/**
 What the building loop of `huft_build` in `lib/inflate.c` keeps while it makes its multi-level lookup
 tables, and the small loops inside it: storing entries, counting codes, choosing a table width.
 */
module HuftState {
  import opened Bits
  import opened Huffman
  import opened HuftTables

  /** Offsets at which tables can start: multiples of `l`. */
  predicate Level(w: nat, l: nat)
    decreases w
  {
    w == 0 || (1 <= l <= w && Level(w - l, l))
  }

  /** Some subtable would start with a code that needs all of the next `l` bits and still
      have longer codes behind it: after the codes shorter than `w + l` at least a whole
      `w`-bit prefix is unused, and codes longer than `w + l` exist. */
  predicate SkipsAt(cnt: Counts, g: nat, l: nat, w: nat)
  {
    l >= 1 && w > 0 && Level(w, l) && w + l < g && End(cnt, w + l - 1) <= Shl(Pow2(w) - 1, l - 1)
  }

  ghost predicate Skips(cnt: Counts, g: nat, l: nat)
  {
    exists w :: SkipsAt(cnt, g, l, w)
  }

  /** The trial loop for the size of a table: `f` patterns of `j - 1` bits are left, and it grows until the codes
      of the next length use them up, or the limit `z` is reached. */
  function Grown(cnt: Counts, z: nat, w: nat, j: nat, f: nat): nat
    decreases z - j
  {
    if j >= z || 2 * f <= Cnt(cnt, w + j) then j else Grown(cnt, z, w, j + 1, 2 * f - Cnt(cnt, w + j))
  }

  /** The size chosen for a table at offset `w` when a code of `k` bits is at hand, with `a` more of that length. */
  function TrialBits(cnt: Counts, g: nat, l: nat, k: nat, w: nat, a: nat): nat
    requires w < k <= g
  {
    var j, z := k - w, if g - w > l then l else g - w;
    if Pow2(j) <= a + 1 then j else Grown(cnt, z, w, j + 1, Pow2(j) - (a + 1))
  }

  /** The length, from `k` on, of the first code behind the `w`-bit prefix `prefix`. */
  function FirstLength(cnt: Counts, g: nat, w: nat, prefix: nat, k: nat): (r: nat)
    requires w < k <= g
    ensures k <= r <= g
    decreases g - k
  {
    if k == g || Shl(prefix, k - w) < End(cnt, k) then k else FirstLength(cnt, g, w, prefix, k + 1)
  }

  /** How many bits index the table for the `w`-bit prefix `prefix`: its first code decides. */
  function TableBits(cnt: Counts, g: nat, l: nat, w: nat, prefix: nat): nat
    requires w < g
  {
    var k := FirstLength(cnt, g, w, prefix, w + 1);
    var c := Shl(prefix, k - w);
    TrialBits(cnt, g, l, k, w, if c < End(cnt, k) then End(cnt, k) - 1 - c else 0)
  }

  /** The offset of the table in which a code of `L` bits ends. */
  function LastLevel(L: nat, l: nat): (w: nat)
    requires 1 <= l && 1 <= L
    ensures w < L <= w + l && Level(w, l)
  {
    if L <= l then 0 else l + LastLevel(L - l, l)
  }

  lemma {:induction false} OneLastLevel(L: nat, l: nat, w: nat)
    requires 1 <= l && Level(w, l) && w < L <= w + l
    ensures LastLevel(L, l) == w
  {
    if w > 0 {
      OneLastLevel(L - l, l, w - l);
    }
  }

  /** How many bits the lookup of a code of `L` bits asks for: all up to the table in which the code ends, and
      those that index that table. */
  function AskedFor(cnt: Counts, g: nat, l: nat, stream: nat, L: nat): nat
    requires 1 <= l && 1 <= L <= g
  {
    var w := LastLevel(L, l);
    w + if w == 0 then l else TableBits(cnt, g, l, w, Rev(Low(stream, w), w))
  }

  lemma {:induction false} FirstLengthIs(cnt: Counts, g: nat, w: nat, prefix: nat, j: nat, k: nat)
    requires w < j <= k <= g && First(cnt, k) <= Shl(prefix, k - w) < End(cnt, k)
    ensures FirstLength(cnt, g, w, prefix, j) == k
    decreases k - j
  {
    if j < k {
      EndGrows(cnt, j, k);
      assert Shl(prefix, j - w) >= End(cnt, j) by {
        ShlShl(prefix, j - w, k - j);
        ShlMono(Shl(prefix, j - w), End(cnt, j), k - j);
      }
      FirstLengthIs(cnt, g, w, prefix, j + 1, k);
    }
  }

  /** What is fixed about a table once its size is chosen. */
  ghost predicate TableOk(cnt: Counts, g: nat, l: nat, m: Meta)
  {
    && Level(m.w, l) && m.w < g && 1 <= m.rbits <= BMAX
    && (m.w == 0 ==> m.rbits == l)
    && (m.rbits >= l || End(cnt, m.w + m.rbits) >= Shl(m.code + 1, m.rbits))
    && (m.w == 0 || m.rbits <= l || g <= m.w + l || Skips(cnt, g, l))
    && (m.w == 0 || m.rbits == TableBits(cnt, g, l, m.w, m.code))
  }

  /** How the values are turned into table entries: `n` codes, the first `s` values
      simple, the others looked up in `d` and `e`. */
  datatype Coding = Coding(vals: seq<nat>, n: nat, s: nat, d: seq<nat>, e: seq<nat>) {
    ghost predicate Valid()
    {
      && |vals| <= n && |d| == |e|
      && (forall i :: 0 <= i < |vals| ==> vals[i] < s + |d|)
      && (forall i :: 0 <= i < |e| ==> e[i] <= 13 || e[i] == INVALID)
    }

    /** The entry for the code at position `p` in order of length and value, with `b` bits.
        Beyond the values filled in, up to position `n`, the C code reads a value that was
        never stored, so its entry is as good as unset. */
    function EntryAt(p: nat, b: nat): Huft
      requires Valid()
    {
      if p >= n then Huft(INVALID, b, NoVal)
      else if p >= |vals| then Unset
      else if vals[p] < s then Huft(if vals[p] < 256 then 16 else 15, b, Num(vals[p]))
      else Huft(e[vals[p] - s], b, Num(d[vals[p] - s]))
    }
  }

  /** What a walk that ends at entry `h` yields, when the whole code has `L` bits. */
  function ResultOf(h: Huft, L: nat): Decoded
  {
    if h == Unset then Broken else Done(h.e, h.v, L)
  }

  /** Position of a code in order of length and value. */
  function Position(cnt: Counts, L: nat, c: nat): nat
    requires First(cnt, L) <= c
  {
    Off(cnt, L) + (c - First(cnt, L))
  }

  /** What every stream that starts with code `c` of `L` bits decodes to. */
  function CodeResult(cnt: Counts, cd: Coding, L: nat, c: nat): Decoded
    requires cd.Valid() && First(cnt, L) <= c
  {
    ResultOf(cd.EntryAt(Position(cnt, L, c), 0), L)
  }

  ghost predicate Decodes(tabs: Tables, l: nat, result: Decoded, L: nat, c: nat)
  {
    forall stream :: Low(stream, L) == Rev(c, L) ==> WalkAt(tabs, 0, l, stream, 0) == result
  }

  /** All streams that start with code `c` of `L` bits avoid the changed entries. */
  lemma KeepsDecoding(tabs: Tables, tabs': Tables, ms: seq<Meta>, l: nat, result: Decoded, L: nat, c: nat)
    requires Linked(tabs, ms, l) && |tabs| <= |tabs'| && |tabs| > 0 && ms[0] == Meta(0, 0, l)
    requires Decodes(tabs, l, result, L, c)
    requires forall stream, u :: Low(stream, L) == Rev(c, L) && 0 <= u < |tabs| && ms[u].Visits(stream) ==>
      var x := ms[u].Index(stream); x < |tabs[u]| && x < |tabs'[u]| && tabs'[u][x] == tabs[u][x]
    ensures Decodes(tabs', l, result, L, c)
  {
    forall stream ensures ms[0].Visits(stream) {
    }
    hide Shl, Shr, Low, Rev, Pow2, WalkAt, Linked;
    forall stream | Low(stream, L) == Rev(c, L)
      ensures WalkAt(tabs', 0, l, stream, 0) == result
    {
      assert ms[0].Visits(stream);
      WalkSame(tabs, tabs', ms, l, 0, stream);
    }
  }

  /** Storing `r` to every index that agrees with `base` in its low `kw` bits. */
  method Fill(tab: seq<Huft>, base: nat, kw: nat, r: Huft) returns (tab': seq<Huft>)
    requires base < Pow2(kw)
    ensures |tab'| == |tab|
    ensures forall x :: 0 <= x < |tab| ==> tab'[x] == if Low(x, kw) == base then r else tab[x]
  {
    var f, j := Pow2(kw), base;
    tab' := tab;
    LowSmall(base, kw);
    assert forall x :: 0 <= x < base ==> Low(x, kw) != base by {
      forall x | 0 <= x < base ensures Low(x, kw) != base {
        LowSmall(x, kw);
      }
    }
    while j < |tab|
      invariant |tab'| == |tab| && Low(j, kw) == base
      invariant forall x :: 0 <= x < |tab| ==> tab'[x] == if x < j && Low(x, kw) == base then r else tab[x]
      decreases |tab| - j
    {
      tab' := tab'[j := r];
      HighBit(j, kw, kw);
      forall x | j < x < j + f ensures Low(x, kw) != base {
        SameLow(j, x, kw);
      }
      j := j + f;
    }
  }

  /** Adding one to a code of `k` bits whose bits are held in reverse. */
  method BackwardIncrement(i: nat, k: nat, ghost c: nat) returns (i': nat)
    requires k >= 1 && c < Pow2(k) && i == Rev(c, k)
    ensures i' == Rev(c + 1, k)
  {
    hide Shl, Shr, Low, Rev, Pow2;
    var m := k;
    ghost var q: nat, r: nat := c, 0;
    i' := i;
    ShlNone(c + 1);
    while m > 0 && Low(Shr(i', m - 1), 1) == 1
      invariant m + r == k && q < Pow2(m) && i' == Rev(q, m) && Shl(q + 1, r) == c + 1
      decreases m
    {
      TopBit(q, m);
      LastBit(q, m);
      ShlDouble(q / 2 + 1, r);
      assert 2 * (q / 2 + 1) == q + 1;
      i' := i' - Pow2(m - 1);
      m := m - 1;
      q, r := q / 2, r + 1;
    }
    RevShift(q + 1, m, r);
    if m > 0 {
      TopBit(q, m);
      LastBit(q, m);
      i' := i' + Pow2(m - 1);
    } else {
      NoBits(q + 1);
      NoBits(q);
    }
  }

  lemma NoBits(q: nat)
    ensures Rev(q, 0) == 0 && Low(q, 0) == 0
  {
  }

  lemma TopBit(q: nat, m: nat)
    requires m >= 1
    ensures Low(Shr(Rev(q, m), m - 1), 1) == q % 2
  {
    assert Low(q, 1) == q % 2;
    assert Rev(q % 2, 1) == q % 2;
    hide Shl, Shr, Low, Rev;
    RevSplit(q, m, m - 1);
  }

  lemma LastBit(q: nat, m: nat)
    requires m >= 1
    ensures Rev(q, m) == Rev(q / 2, m - 1) + if q % 2 == 1 then Pow2(m - 1) else 0
    ensures q % 2 == 0 ==> Rev(q + 1, m) == Rev(q / 2, m - 1) + Pow2(m - 1)
    ensures q < Pow2(m) ==> q / 2 < Pow2(m - 1)
  {
    assert Pow2(m) == 2 * Pow2(m - 1);
    assert q % 2 == 0 ==> (q + 1) / 2 == q / 2 && (q + 1) % 2 == 1;
  }

  /** Number of index bits for a new table: the smallest, from the `k - w` bits that the
      current code needs up to a limit, that the codes of its lengths fill. The trial
      loop steps past the limit when it starts there. */
  method ChooseBits(cnt: Counts, g: nat, l: nat, k: nat, w: nat, a: nat, ghost prefix: nat) returns (j: nat)
    requires Complete(cnt, g) && 1 <= l && w < k <= g
    requires prefix < Pow2(w) && Shl(prefix, k - w) + a + 1 == End(cnt, k)
    ensures k - w <= j <= g - w + 1 && j == TrialBits(cnt, g, l, k, w, a)
    ensures j >= l || End(cnt, w + j) >= Shl(prefix + 1, j)
    ensures j > l ==> k - w >= l
    ensures k - w > l ==> j > l
    ensures k - w == l && w + l < g && End(cnt, k) < Shl(prefix + 1, l) ==> j > l
  {
    hide Shl, End, Complete;
    var z := if g - w > l then l else g - w;
    j := k - w;
    ShlAdd(prefix, 1, k - w);
    var f := Pow2(j);
    if f > a + 1 {
      f := f - (a + 1);
      j := j + 1;
      while j < z
        invariant k - w < j <= g - w + 1 && (j <= z || j == k - w + 1)
        invariant f > 0 && f + End(cnt, w + j - 1) == Shl(prefix + 1, j - 1)
        invariant Grown(cnt, z, w, j, f) == TrialBits(cnt, g, l, k, w, a)
        decreases z - j
      {
        ShlStep(prefix + 1, j);
        EndStep(cnt, g, w + j);
        f := 2 * f;
        if f <= cnt[w + j] {
          break;
        }
        f := f - cnt[w + j];
        j := j + 1;
      }
      if j >= z && j < l {
        EndBelow(cnt, g, w + j);
        ShlMono(prefix + 1, Pow2(w), j);
        ShlShl(1, w, j);
      }
    }
  }

  lemma EndStep(cnt: Counts, g: nat, L: nat)
    requires Complete(cnt, g) && 1 <= L <= g
    ensures L < |cnt| && End(cnt, L) == 2 * End(cnt, L - 1) + cnt[L]
  {
  }

  lemma {:induction false} IncCarry(c: nat, n: nat)
    requires Shr(c + 1, n) != Shr(c, n)
    ensures Low(c + 1, n) == 0
  {
    if n != 0 {
      assert (c + 1) / 2 == c / 2 + c % 2;
      IncCarry(c / 2, n - 1);
    }
  }

  /** A stream that starts with an earlier code does not start with the prefix of the
      current code, `prefix` followed by zeros. */
  lemma EarlierElsewhere(stream: nat, L: nat, c: nat, w: nat, prefix: nat, k: nat)
    requires L <= k && w <= k && c < Pow2(L) && prefix < Pow2(w)
    requires Shl(c + 1, k - L) <= Shl(prefix, k - w)
    requires Low(stream, L) == Rev(c, L)
    ensures Low(stream, w) != Rev(prefix, w)
  {
    hide Shl, Shr, Low, Rev;
    if L <= w {
      assert Shl(c + 1, w - L) <= prefix by {
        ShlShl(c + 1, w - L, k - w);
        ShlMono(prefix, Shl(c + 1, w - L), k - w);
        Pow2Mono(0, k - w);
      }
      PrefixClash(stream, L, c, w, prefix);
    } else if Low(stream, w) == Rev(prefix, w) {
      var top := Shr(c, L - w);
      assert top < Pow2(w) by {
        ShrLess(c, L - w, Pow2(w));
        ShlShl(1, w, L - w);
      }
      assert Rev(top, w) == Rev(prefix, w) by {
        LowLow(stream, w, L);
        RevSplit(c, L, w);
      }
      RevInjective(top, prefix, w);
      assert Shl(prefix, L - w) <= c by { Split(c, L - w); }
      assert Shl(prefix, k - w) == Shl(Shl(prefix, L - w), k - L) by { ShlShl(prefix, L - w, k - L); }
      Pow2Mono(0, k - L);
      ShlMono(Shl(prefix, L - w), c + 1, k - L);
      assert false;
    }
  }

  /** Every code before code `c` of `k` bits decodes. */
  ghost predicate AllDone(cnt: Counts, cd: Coding, tabs: Tables, l: nat, k: nat, c: nat)
    requires cd.Valid()
  {
    forall L, cc :: 1 <= L <= k && First(cnt, L) <= cc < End(cnt, L) && (L < k || cc < c) ==>
      Decodes(tabs, l, CodeResult(cnt, cd, L, cc), L, cc)
  }

  /** When `SkipsAt(w0)`: on the path of ones, no code ends above offset `w0`, and the
      table at `w0` is too wide and its last entry stays unset. */
  ghost predicate SkipShape(tab: seq<Huft>, m: Meta, l: nat, w0: nat)
    requires Pow2(m.rbits) <= |tab|
  {
    m.code == Pow2(m.w) - 1 ==>
      && (m.w < w0 ==> !IsLeaf(tab[Pow2(m.rbits) - 1]))
      && (m.w == w0 ==> m.rbits > l && tab[Pow2(m.rbits) - 1] == Unset)
  }

  ghost predicate SkipInv(cnt: Counts, g: nat, l: nat, tabs: Tables, ms: seq<Meta>)
    requires Linked(tabs, ms, l)
  {
    forall w0, t :: 0 <= t < |tabs| && SkipsAt(cnt, g, l, w0) ==> SkipShape(tabs[t], ms[t], l, w0)
  }

  /** Tables and stack, about to handle code `c` of `k` bits (or done with length `k`). */
  ghost predicate Building(cnt: Counts, g: nat, l: nat, tabs: Tables, ms: seq<Meta>, u: seq<nat>, k: nat, c: nat)
  {
    && Complete(cnt, g) && g <= BMAX && 1 <= l <= g && 1 <= k <= g && First(cnt, k) <= c <= End(cnt, k)
    && Linked(tabs, ms, l)
    && (forall t :: 0 <= t < |ms| ==> TableOk(cnt, g, l, ms[t]))
    && (|u| == 0 ==> |tabs| == 0 && k <= l && c == 0)
    && (|u| > 0 ==>
          && StackOk(tabs, ms, l, u)
          && ms[Top(u)].w < k
          && Low(Rev(c, k), ms[Top(u)].w) == Rev(ms[Top(u)].code, ms[Top(u)].w)
          && (k > ms[Top(u)].w + l ==> Low(c, k - ms[Top(u)].w - l) == 0))
    && SkipInv(cnt, g, l, tabs, ms)
  }

  function Top(u: seq<nat>): nat
    requires |u| > 0
  {
    u[|u| - 1]
  }

  /** Earlier codes end at or before the current one starts. */
  lemma EarlierEnds(cnt: Counts, g: nat, L: nat, cc: nat, k: nat, c: nat)
    requires Complete(cnt, g) && 1 <= L <= k && First(cnt, L) <= cc < End(cnt, L)
    requires First(cnt, k) <= c && (L < k || cc < c)
    ensures cc < Pow2(L) && Shl(cc + 1, k - L) <= c
  {
    EndBelow(cnt, g, L);
    if L < k {
      EndGrows(cnt, L, k);
      ShlMono(cc + 1, End(cnt, L), k - L);
    }
  }

  /** The top table's prefix is the prefix of the current code. */
  lemma TopPrefix(k: nat, c: nat, m: Meta)
    requires c < Pow2(k) && m.w <= k && m.code < Pow2(m.w)
    requires Low(Rev(c, k), m.w) == Rev(m.code, m.w)
    ensures Shr(c, k - m.w) == m.code
    ensures Shl(m.code, k - m.w) <= c < Shl(m.code + 1, k - m.w)
  {
    hide Shl, Shr, Low, Rev;
    assert Shr(c, k - m.w) < Pow2(m.w) by {
      ShrLess(c, k - m.w, Pow2(m.w));
      ShlShl(1, m.w, k - m.w);
    }
    RevSplit(c, k, m.w);
    RevInjective(Shr(c, k - m.w), m.code, m.w);
    ShrLess(c, k - m.w, m.code + 1);
    ShrLess(c, k - m.w, m.code);
  }

  /** A table that covers the current code is wide enough for it, up to `l` bits. */
  lemma WideEnough(cnt: Counts, g: nat, l: nat, m: Meta, k: nat, c: nat)
    requires Complete(cnt, g) && TableOk(cnt, g, l, m) && m.w < k
    requires First(cnt, k) <= c < End(cnt, k) && m.code < Pow2(m.w)
    requires Low(Rev(c, k), m.w) == Rev(m.code, m.w)
    ensures m.rbits >= l || k - m.w <= m.rbits
  {
    hide Shl, Shr, Low, Rev, End, First, Level, Complete, Skips;
    EndBelow(cnt, g, k);
    TopPrefix(k, c, m);
    if m.rbits < l && k - m.w > m.rbits {
      var b := m.w + m.rbits;
      EndGrows(cnt, b, k);
      ShlMono(Shl(m.code + 1, m.rbits), End(cnt, b), k - b);
      ShlShl(m.code + 1, m.rbits, k - b);
      assert false;
    }
  }
}
