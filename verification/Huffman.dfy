/**
 Canonical Huffman codes, section 3.2.2 of RFC 1951.

 A code of `L` bits is packed starting with its most significant bit, so a bit
 stream, read as a number whose bit 0 comes first, begins with code `c` exactly when
 its low `L` bits are the reversal of `c`.
 */
module Huffman {
  import opened Bits

  const BMAX := 16

  /** Number of codes of each length; index 0 is ignored. */
  type Counts = seq<nat>

  function Cnt(cnt: Counts, L: nat): nat
  {
    if 1 <= L < |cnt| then cnt[L] else 0
  }

  /** One past the last code of length `L`. */
  function End(cnt: Counts, L: nat): nat
  {
    if L == 0 then 0 else 2 * End(cnt, L - 1) + Cnt(cnt, L)
  }

  /** The smallest code of length `L`: step 2 of the algorithm in section 3.2.2. */
  function First(cnt: Counts, L: nat): nat
  {
    if L == 0 then 0 else 2 * End(cnt, L - 1)
  }

  /** Number of codes shorter than `L`. */
  function Off(cnt: Counts, L: nat): nat
  {
    if L == 0 then 0 else Off(cnt, L - 1) + Cnt(cnt, L - 1)
  }

  /** Every bit pattern starts with exactly one code, and `g` bits is the longest. */
  predicate Complete(cnt: Counts, g: nat)
  {
    1 <= g < |cnt| && cnt[g] > 0 && End(cnt, g) == Pow2(g) &&
    forall L :: g < L < |cnt| ==> cnt[L] == 0
  }

  lemma {:induction false} EndGrows(cnt: Counts, L: nat, M: nat)
    requires L < M
    ensures Shl(End(cnt, L), M - L) <= First(cnt, M)
    decreases M
  {
    if L < M - 1 {
      EndGrows(cnt, L, M - 1);
      assert Shl(End(cnt, L), M - L) == 2 * Shl(End(cnt, L), M - 1 - L);
    }
  }

  lemma EndShort(cnt: Counts, g: nat, L: nat)
    requires Complete(cnt, g) && L < g
    ensures End(cnt, L) < Pow2(L)
  {
    EndGrows(cnt, L, g);
    hide Shl;
    if End(cnt, L) >= Pow2(L) {
      ShlMono(Pow2(L), End(cnt, L), g - L);
      ShlShl(1, L, g - L);
      assert false;
    }
  }

  lemma {:induction false} EndFull(cnt: Counts, g: nat, L: nat)
    requires Complete(cnt, g) && g <= L
    ensures End(cnt, L) == Pow2(L)
  {
    if L > g {
      EndFull(cnt, g, L - 1);
    }
  }

  /** Before the longest length some pattern is always left over. */
  lemma EndBelow(cnt: Counts, g: nat, L: nat)
    requires Complete(cnt, g)
    ensures L < g ==> End(cnt, L) < Pow2(L)
    ensures L >= g ==> End(cnt, L) == Pow2(L)
    ensures First(cnt, L) <= End(cnt, L) <= Pow2(L)
  {
    hide Shl;
    if L < g {
      EndShort(cnt, g, L);
    } else {
      EndFull(cnt, g, L);
    }
  }

  /** Two codes, the second at or beyond the end of the first's interval, never both
      start the same stream: the code is prefix-free. */
  lemma PrefixClash(stream: nat, L: nat, c: nat, M: nat, d: nat)
    requires L <= M && c < Pow2(L) && d < Pow2(M) && Shl(c + 1, M - L) <= d
    requires Low(stream, L) == Rev(c, L)
    ensures Low(stream, M) != Rev(d, M)
  {
    var top := Shr(d, M - L);
    assert top < Pow2(L) by {
      ShrLess(d, M - L, Pow2(L));
      ShlShl(1, L, M - L);
    }
    assert c < top by { ShrLess(d, M - L, c + 1); }
    if Low(stream, M) == Rev(d, M) {
      assert Rev(c, L) == Rev(top, L) by {
        LowLow(stream, L, M);
        RevSplit(d, M, L);
      }
      RevInjective(c, top, L);
      assert false;
    }
  }

  /** The code of some length that starts a stream, for a complete set. */
  lemma FindCode(cnt: Counts, g: nat, stream: nat) returns (L: nat, c: nat)
    requires Complete(cnt, g)
    ensures 1 <= L <= g && First(cnt, L) <= c < End(cnt, L)
    ensures Low(stream, L) == Rev(c, L)
  {
    var v := Rev(Low(stream, g), g);
    RevBound(Low(stream, g), g);
    L := 1;
    assert First(cnt, 1) == 0;
    while Shr(v, g - L) >= End(cnt, L)
      invariant 1 <= L <= g && First(cnt, L) <= Shr(v, g - L)
      decreases g - L
    {
      if L == g {
        assert false;
      }
      ShrShr(v, g - L - 1, 1);
      assert Shr(v, g - L) == Shr(v, g - L - 1) / 2 by {
        assert Shr(Shr(v, g - L - 1), 1) == Shr(v, g - L - 1) / 2;
      }
      L := L + 1;
    }
    c := Shr(v, g - L);
    Split(stream, g);
    RevInvolution(Low(stream, g), g);
    RevSplit(v, g, L);
    LowLow(stream, L, g);
  }

  /** Number of symbols with code length `L`. */
  function CountOf(b: seq<nat>, L: nat): (r: nat)
    ensures r <= |b|
  {
    if |b| == 0 then 0
    else CountOf(b[..|b| - 1], L) + if b[|b| - 1] == L then 1 else 0
  }

  /** Step 1 of the algorithm in section 3.2.2, for lengths of at most `BMAX` bits. */
  function CountsOf(b: seq<nat>): (cnt: Counts)
    ensures |cnt| == BMAX + 1
  {
    seq(BMAX + 1, (L: nat) => CountOf(b, L))
  }

  /** Step 3 of the algorithm in section 3.2.2: the code of symbol `sym`, numbering the
      symbols of each length in order. */
  function CodeOf(b: seq<nat>, sym: nat): nat
    requires sym < |b|
  {
    First(CountsOf(b), b[sym]) + CountOf(b[..sym], b[sym])
  }

  /** The stream starts with the code of `sym`. */
  predicate Starts(b: seq<nat>, sym: nat, stream: nat)
    requires sym < |b|
  {
    b[sym] > 0 && Low(stream, b[sym]) == Rev(CodeOf(b, sym), b[sym])
  }

  lemma {:induction false} CountSplit(b: seq<nat>, i: nat, L: nat)
    requires i <= |b|
    ensures CountOf(b[..i], L) <= CountOf(b, L)
    ensures i < |b| && b[i] == L ==> CountOf(b[..i], L) < CountOf(b, L)
    decreases |b| - i
  {
    if i < |b| {
      assert b[..i + 1][..i] == b[..i];
      CountSplit(b, i + 1, L);
    } else {
      assert b[..i] == b;
    }
  }

  /** The symbol with a given length and number among those of its length. */
  lemma {:induction false} SymbolAt(b: seq<nat>, L: nat, r: nat) returns (sym: nat)
    requires r < CountOf(b, L)
    ensures sym < |b| && b[sym] == L && CountOf(b[..sym], L) == r
  {
    var last := |b| - 1;
    if b[last] == L && r == CountOf(b[..last], L) {
      sym := last;
    } else {
      sym := SymbolAt(b[..last], L, r);
      assert b[..last][..sym] == b[..sym];
    }
  }

  lemma {:induction false} RankInjective(b: seq<nat>, s: nat, t: nat)
    requires s < t < |b| && b[s] == b[t]
    ensures CountOf(b[..s], b[s]) < CountOf(b[..t], b[t])
  {
    assert b[..t][..s] == b[..s];
    CountSplit(b[..t], s, b[s]);
  }

  predicate ValidLengths(b: seq<nat>)
  {
    forall i :: 0 <= i < |b| ==> b[i] <= BMAX
  }

  /** No more codes than bit patterns. */
  predicate Fitting(b: seq<nat>)
  {
    ValidLengths(b) && End(CountsOf(b), BMAX) <= Pow2(BMAX)
  }

  lemma CompleteFits(b: seq<nat>, g: nat)
    requires ValidLengths(b) && Complete(CountsOf(b), g)
    ensures Fitting(b)
  {
    EndFull(CountsOf(b), g, BMAX);
  }

  lemma EndFits(b: seq<nat>, L: nat)
    requires Fitting(b) && L <= BMAX
    ensures First(CountsOf(b), L) <= End(CountsOf(b), L) <= Pow2(L)
  {
    hide Shl, CountsOf;
    var cnt := CountsOf(b);
    if End(cnt, L) > Pow2(L) && L < BMAX {
      EndGrows(cnt, L, BMAX);
      ShlMono(Pow2(L), End(cnt, L), BMAX - L);
      ShlShl(1, L, BMAX - L);
      Pow2Mono(0, BMAX - L);
      assert false;
    }
  }

  /** For a complete set every stream starts with the code of exactly one symbol. */
  lemma UniqueSymbol(b: seq<nat>, g: nat, stream: nat) returns (sym: nat)
    requires ValidLengths(b) && Complete(CountsOf(b), g)
    ensures sym < |b| && Starts(b, sym, stream)
    ensures forall t :: 0 <= t < |b| && Starts(b, t, stream) ==> t == sym
  {
    var cnt := CountsOf(b);
    var L, c := FindCode(cnt, g, stream);
    sym := SymbolAt(b, L, c - First(cnt, L));
    CompleteFits(b, g);
    forall t | 0 <= t < |b| && Starts(b, t, stream) ensures t == sym {
      OneSymbol(b, stream, sym, t);
    }
  }

  /** The codes of a set that is not over-subscribed are prefix-free. */
  lemma OneSymbol(b: seq<nat>, stream: nat, s: nat, t: nat)
    requires Fitting(b) && s < |b| && t < |b|
    requires Starts(b, s, stream) && Starts(b, t, stream)
    ensures s == t
  {
    CountSplit(b, s, b[s]);
    CountSplit(b, t, b[t]);
    if b[s] == b[t] {
      EndFits(b, b[s]);
      RevInjective(CodeOf(b, s), CodeOf(b, t), b[s]);
      if s < t {
        RankInjective(b, s, t);
      } else if t < s {
        RankInjective(b, t, s);
      }
    } else if b[s] < b[t] {
      ShorterFirst(b, stream, s, t);
    } else {
      ShorterFirst(b, stream, t, s);
    }
  }

  lemma ShorterFirst(b: seq<nat>, stream: nat, s: nat, t: nat)
    requires Fitting(b) && s < |b| && t < |b| && 0 < b[s] < b[t]
    requires Starts(b, s, stream)
    ensures !Starts(b, t, stream)
  {
    hide Shl, Shr, Low, Rev, CountOf;
    var cnt := CountsOf(b);
    CountSplit(b, s, b[s]);
    CountSplit(b, t, b[t]);
    EndFits(b, b[s]);
    EndFits(b, b[t]);
    EndGrows(cnt, b[s], b[t]);
    ShlMono(CodeOf(b, s) + 1, End(cnt, b[s]), b[t] - b[s]);
    PrefixClash(stream, b[s], CodeOf(b, s), b[t], CodeOf(b, t));
  }
}
