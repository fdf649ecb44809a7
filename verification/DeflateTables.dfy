/**
 The tables of RFC 1951 that `lib/inflate.c` has as arrays, by the rules that section 3.2 gives for them:
 which lengths and distances the codes stand for, the order of the code length code, the fixed codes,
 and the complement in front of stored bytes.
 */
module DeflateTables {
  import opened Common
  import opened Bits
  import opened Huffman
  import opened HuftLoop
  import opened HuftBuild
  import opened Deflate

  /** Section 3.2.5: eight length codes without extra bits, then four for each number of them, each range
      beginning where the one before ends, and a code of its own for 258. */
  lemma {:induction false} LengthTable(i: nat)
    requires i < 28
    ensures |CPLENS| == |CPLEXT| == 31 && CPLENS[0] == 3 && CPLENS[28] == 258 && CPLEXT[28] == 0
    ensures CPLEXT[i] == if i < 8 then 0 else i / 4 - 1
    ensures i < 27 ==> CPLENS[i + 1] == CPLENS[i] + Pow2(CPLEXT[i])
    ensures CPLENS[27] + Pow2(CPLEXT[27]) == 259
  {
    SmallPowers();
    hide Pow2;
  }

  /** Section 3.2.5: four distance codes without extra bits, then two for each number of them. */
  lemma {:induction false} DistanceTable(i: nat)
    requires i < 30
    ensures |CPDIST| == |CPDEXT| == 30 && CPDIST[0] == 1
    ensures CPDEXT[i] == if i < 4 then 0 else i / 2 - 1
    ensures i < 29 ==> CPDIST[i + 1] == CPDIST[i] + Pow2(CPDEXT[i])
    ensures CPDIST[29] + Pow2(CPDEXT[29]) == WSIZE + 1
  {
    SmallPowers();
    hide Pow2;
  }

  lemma {:induction false} SmallPowers()
    ensures Pow2(0) == 1 && Pow2(1) == 2 && Pow2(2) == 4 && Pow2(3) == 8 && Pow2(4) == 16 && Pow2(5) == 32 && Pow2(6) == 64
    ensures Pow2(7) == 128 && Pow2(8) == 256 && Pow2(9) == 512 && Pow2(10) == 1024 && Pow2(11) == 2048 && Pow2(12) == 4096
    ensures Pow2(13) == 8192 && Pow2(16) == 65536
  {
    assert Pow2(8) == 256 && Pow2(12) == 4096;
  }

  /** The last of the first `i + 1` entries that is not above `n`. */
  function LastUpTo(table: seq<nat>, i: nat, n: nat): (k: nat)
    requires i < |table|
    ensures k <= i && (k == 0 || table[k] <= n) && (k < i ==> table[k + 1] > n)
  {
    if i == 0 || table[i] <= n then i else LastUpTo(table, i - 1, n)
  }

  /** The code for a length, as an offset from 257. */
  function LengthCode(n: nat): (i: nat)
    ensures i < 29
  {
    if n == 258 then 28 else LastUpTo(CPLENS, 27, n)
  }

  function DistanceCode(d: nat): (i: nat)
    ensures i < 30
  {
    LastUpTo(CPDIST, 29, d)
  }

  /** Every length from 3 to 258 has a code, and below 258 no other code stands for it. */
  lemma {:induction false} EveryLength(n: nat, j: nat, y: nat)
    requires 3 <= n <= 258
    ensures |CPLENS| == |CPLEXT| == 31
    ensures var i := LengthCode(n); CPLENS[i] <= n < CPLENS[i] + Pow2(CPLEXT[i])
    ensures j < 29 && y < Pow2(CPLEXT[j]) && n == CPLENS[j] + y && n < 258 ==> j == LengthCode(n)
  {
    hide CPLENS, CPLEXT, Pow2, LastUpTo;
    var i := LengthCode(n);
    LengthTable(0);
    if i < 28 {
      LengthTable(i);
      if j < i {
        LengthsAscend(j + 1, i);
        LengthTable(j);
      } else if i < j < 28 {
        LengthsAscend(i + 1, j);
      }
    } else {
      SmallPowers();
    }
  }

  lemma {:induction false} LengthsAscend(i: nat, j: nat)
    requires i <= j < 28
    ensures |CPLENS| == 31 && CPLENS[i] <= CPLENS[j]
  {
    hide CPLENS, CPLEXT, Pow2;
    LengthTable(i);
    if i < j {
      LengthsAscend(i, j - 1);
      LengthTable(j - 1);
    }
  }

  /** Every distance from 1 to 32768 has one code. */
  lemma {:induction false} EveryDistance(d: nat, j: nat, y: nat)
    requires 1 <= d <= WSIZE
    ensures |CPDIST| == |CPDEXT| == 30
    ensures var i := DistanceCode(d); CPDIST[i] <= d < CPDIST[i] + Pow2(CPDEXT[i])
    ensures j < 30 && y < Pow2(CPDEXT[j]) && d == CPDIST[j] + y ==> j == DistanceCode(d)
  {
    hide CPDIST, CPDEXT, Pow2, LastUpTo;
    var i := DistanceCode(d);
    DistanceTable(i);
    if j < i {
      DistancesAscend(j + 1, i);
      DistanceTable(j);
    } else if i < j < 30 {
      DistancesAscend(i + 1, j);
    }
  }

  lemma {:induction false} DistancesAscend(i: nat, j: nat)
    requires i <= j < 30
    ensures |CPDIST| == 30 && CPDIST[i] <= CPDIST[j]
  {
    hide CPDIST, CPDEXT, Pow2;
    DistanceTable(i);
    if i < j {
      DistancesAscend(i, j - 1);
      DistanceTable(j - 1);
    }
  }

  /** Section 3.2.7: the three repeat codes and 0 come first, then the lengths from the middle outwards, the
      shorter one of each pair before the longer one. */
  lemma {:induction false} CodeLengthOrder(k: nat)
    requires k < 19
    ensures |BORDER| == 19
    ensures BORDER[k] == if k < 3 then 16 + k else if k == 3 then 0 else if k % 2 == 0 then 6 + k / 2 else 9 - k / 2
  {
  }

  /** The place of a symbol in that order. */
  function Place(m: nat): (j: nat)
    requires m < 19
    ensures j < 19 && |BORDER| == 19 && BORDER[j] == m && forall i :: 0 <= i < 19 && BORDER[i] == m ==> i == j
  {
    if m >= 16 then m - 16 else if m == 0 then 3 else if m >= 8 then 2 * m - 12 else 19 - 2 * m
  }

  /** Section 3.2.6: the fixed code lengths of each range of symbols, and the first code of each. */
  lemma {:induction false} FixedCode(sym: nat)
    requires sym < 288
    ensures |FIXED_LIT| == 288
    ensures FIXED_LIT[sym] == if sym < 144 then 8 else if sym < 256 then 9 else if sym < 280 then 7 else 8
    ensures CodeOf(FIXED_LIT, sym) == if sym < 144 then 0x30 + sym else if sym < 256 then 0x190 + (sym - 144)
                                      else if sym < 280 then sym - 256 else 0xC0 + (sym - 280)
  {
    FixedFirst();
    FixedRank(sym);
  }

  lemma {:induction false} FixedFirst()
    ensures var cnt := CountsOf(FIXED_LIT); First(cnt, 7) == 0 && First(cnt, 8) == 0x30 && First(cnt, 9) == 0x190
  {
    hide FIXED_LIT, CountOf;
    var cnt := CountsOf(FIXED_LIT);
    forall L | 0 <= L <= BMAX ensures cnt[L] == if L == 7 then 24 else if L == 8 then 152 else if L == 9 then 112 else 0 {
      FixedLitCount(L);
    }
    hide CountsOf, End;
    NoneShorter(cnt, 7);
    EndTwice(cnt, 7);
    EndTwice(cnt, 8);
  }

  /** How many symbols of the same length come before one. */
  lemma {:induction false} FixedRank(sym: nat)
    requires sym < 288
    ensures |FIXED_LIT| == 288 && CountOf(FIXED_LIT[..sym], FIXED_LIT[sym]) ==
      if sym < 144 then sym else if sym < 256 then sym - 144 else if sym < 280 then sym - 256 else 144 + (sym - 280)
  {
    var a, b, c := Run(8, 144), Run(9, 112), Run(7, 24);
    var L := FIXED_LIT[sym];
    CountRun(8, 144, L);
    CountRun(9, 112, L);
    CountRun(7, 24, L);
    if sym < 144 {
      assert FIXED_LIT[..sym] == Run(8, sym);
      CountRun(8, sym, L);
    } else if sym < 256 {
      assert FIXED_LIT[..sym] == a + Run(9, sym - 144);
      CountRun(9, sym - 144, L);
      CountAppend(a, Run(9, sym - 144), L);
    } else if sym < 280 {
      assert FIXED_LIT[..sym] == a + b + Run(7, sym - 256);
      CountRun(7, sym - 256, L);
      CountAppend(a, b, L);
      CountAppend(a + b, Run(7, sym - 256), L);
    } else {
      assert FIXED_LIT[..sym] == a + b + c + Run(8, sym - 280);
      CountRun(8, sym - 280, L);
      CountAppend(a, b, L);
      CountAppend(a + b, c, L);
      CountAppend(a + b + c, Run(8, sym - 280), L);
    }
  }

  /** Section 3.2.6: a fixed distance code is the number of the distance code in five bits. */
  lemma {:induction false} FixedDistanceCode(d: nat)
    requires d < 30
    ensures |FIXED_DIST| == 30 && FIXED_DIST[d] == 5 && CodeOf(FIXED_DIST, d) == d
  {
    assert FIXED_DIST[..d] == Run(5, d);
    CountRun(5, d, 5);
    var cnt := CountsOf(FIXED_DIST);
    forall L | 1 <= L < 5 ensures cnt[L] == 0 {
      CountRun(5, 30, L);
    }
    NoneShorter(cnt, 5);
  }

  function Bit(x: nat, k: nat): nat
  {
    Shr(x, k) % 2
  }

  /** Two numbers differ in each of their low `w` bits. */
  predicate Differs(n: nat, c: nat, w: nat)
  {
    forall k: nat :: k < w ==> Bit(n, k) != Bit(c, k)
  }

  /** One number is the complement of another exactly if they differ in every bit. */
  lemma {:induction false} ComplementIff(n: nat, c: nat, w: nat)
    requires n < Pow2(w) && c < Pow2(w)
    ensures n + c == Pow2(w) - 1 <==> Differs(n, c, w)
  {
    if w > 0 {
      ComplementIff(n / 2, c / 2, w - 1);
      assert Bit(n, 0) == n % 2 && Bit(c, 0) == c % 2;
      forall k: nat | k < w - 1 ensures Bit(n / 2, k) == Bit(n, k + 1) && Bit(c / 2, k) == Bit(c, k + 1) {
      }
      if Differs(n, c, w) {
        forall k: nat | k < w - 1 ensures Bit(n / 2, k) != Bit(c / 2, k) {
          assert Bit(n, k + 1) != Bit(c, k + 1);
        }
      }
      if n + c == Pow2(w) - 1 {
        forall k: nat | k < w ensures Bit(n, k) != Bit(c, k) {
          if k > 0 {
            assert Bit(n / 2, k - 1) != Bit(c / 2, k - 1);
          }
        }
      }
    }
  }

  /** Section 3.2.4: stored bytes whose length and its complement are both there are refused exactly if the
      two agree in some bit. */
  lemma {:induction false} StoredIff(stream: nat, left: nat, hist: seq<Byte>)
    requires left >= 32 + left % 8
    ensures var s := Shr(stream, left % 8);
      RefStored(stream, left, hist) == Bad <==> !Differs(Low(s, 16), Low(Shr(s, 16), 16), 16)
  {
    hide Low, Shr, RefBytes, Pow2, Differs;
    var s := Shr(stream, left % 8);
    var n, c := Low(s, 16), Low(Shr(s, 16), 16);
    SmallPowers();
    Split(s, 16);
    Split(Shr(s, 16), 16);
    ComplementIff(n, c, 16);
    BytesNeverBad(n, Shr(s, 32), left - left % 8 - 32, hist);
  }

  lemma {:induction false} BytesNeverBad(n: nat, stream: nat, left: nat, hist: seq<Byte>)
    ensures RefBytes(n, stream, left, hist) != Bad
    decreases n
  {
    if n > 0 && left >= 8 {
      Split(stream, 8);
      assert Pow2(8) == 256;
      BytesNeverBad(n - 1, Shr(stream, 8), left - 8, hist + [Low(stream, 8)]);
    }
  }
}
