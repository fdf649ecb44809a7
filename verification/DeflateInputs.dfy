/**
 Streams that show where `lib/inflate.c` and the format part: one that the code accepts although it
 refers to something before its beginning, for each of the two rules, one that it refuses although it has
 a meaning, and one for which it runs out of input although it is complete.
 */
module DeflateInputs {
  import opened Common
  import opened Bits
  import opened Huffman
  import opened HuftLoop
  import opened HuftBuild
  import opened Deflate
  import opened DeflateTables
  import opened Rfc1951
  import opened LookAhead

  lemma {:induction false} SymbolIs(b: seq<nat>, g: nat, stream: nat, sym: nat)
    requires ValidLengths(b) && Complete(CountsOf(b), g) && sym < |b| && Starts(b, sym, stream)
    ensures SymbolOf(b, stream) == Some(sym)
  {
    CompleteFits(b, g);
    OneSymbol(b, stream, sym, SymbolOf(b, stream).value);
  }

  /** One code of one bit, two of two bits. */
  ghost predicate Three(b: seq<nat>, x: nat, y: nat, z: nat)
  {
    && x < |b| && y < z < |b| && b[x] == 1 && b[y] == 2 && b[z] == 2
    && forall i :: 0 <= i < |b| && i != x && i != y && i != z ==> b[i] == 0
  }

  lemma {:induction false} CountThree(b: seq<nat>, x: nat, y: nat, z: nat, i: nat, L: nat)
    requires Three(b, x, y, z) && i <= |b| && L >= 1
    ensures CountOf(b[..i], L) ==
      if L == 1 then (if x < i then 1 else 0)
      else if L == 2 then (if y < i then 1 else 0) + (if z < i then 1 else 0)
      else 0
  {
    if i > 0 {
      CountThree(b, x, y, z, i - 1, L);
      assert b[..i][..i - 1] == b[..i - 1];
    }
  }

  lemma {:induction false} ThreeCounts(b: seq<nat>, x: nat, y: nat, z: nat)
    requires Three(b, x, y, z)
    ensures var cnt := CountsOf(b);
      cnt[1] == 1 && cnt[2] == 2 && (forall L :: 2 < L <= BMAX ==> cnt[L] == 0) && ValidLengths(b)
    ensures Complete(CountsOf(b), 2) && End(CountsOf(b), 1) == 1 && Accepted(b)
  {
    var cnt := CountsOf(b);
    assert b[..|b|] == b;
    hide Three, CountOf, Pow2, End, Shl;
    forall L | 1 <= L <= BMAX ensures cnt[L] == if L <= 2 then L else 0 {
      CountThree(b, x, y, z, |b|, L);
    }
    assert ValidLengths(b) by { ThreeValid(b, x, y, z); }
    ThreeEnds(cnt);
  }

  lemma {:induction false} ThreeValid(b: seq<nat>, x: nat, y: nat, z: nat)
    requires Three(b, x, y, z)
    ensures ValidLengths(b)
  {
  }

  lemma {:induction false} ThreeEnds(cnt: Counts)
    requires |cnt| == BMAX + 1 && forall L :: 1 <= L <= BMAX ==> cnt[L] == if L <= 2 then L else 0
    ensures End(cnt, 1) == 1 && End(cnt, 2) == Pow2(2) && End(cnt, BMAX) == Pow2(BMAX)
  {
    assert End(cnt, 0) == 0 && End(cnt, 1) == 1 && End(cnt, 2) == 4 && Pow2(2) == 4;
    hide End, Shl;
    EndTail(cnt, 2, BMAX);
    ShlShl(1, 2, BMAX - 2);
  }

  lemma {:induction false} ThreeSymbols(b: seq<nat>, x: nat, y: nat, z: nat, s: nat)
    requires Three(b, x, y, z)
    ensures Low(s, 1) == 0 ==> SymbolOf(b, s) == Some(x)
    ensures Low(s, 2) == 1 ==> SymbolOf(b, s) == Some(y)
    ensures Low(s, 2) == 3 ==> SymbolOf(b, s) == Some(z)
  {
    ThreeCounts(b, x, y, z);
    CountThree(b, x, y, z, x, 1);
    CountThree(b, x, y, z, y, 2);
    CountThree(b, x, y, z, z, 2);
    assert CodeOf(b, x) == 0 && CodeOf(b, y) == 2 && CodeOf(b, z) == 3;
    assert Rev(0, 1) == 0 && Rev(2, 2) == 1 && Rev(3, 2) == 3;
    hide CountsOf, CountOf, Complete, CodeOf, Low, Rev;
    if Low(s, 1) == 0 {
      SymbolIs(b, 2, s, x);
    }
    if Low(s, 2) == 1 {
      SymbolIs(b, 2, s, y);
    }
    if Low(s, 2) == 3 {
      SymbolIs(b, 2, s, z);
    }
  }

  /** A single code of one bit. */
  ghost predicate Lone(b: seq<nat>, x: nat)
  {
    x < |b| && b[x] == 1 && forall i :: 0 <= i < |b| && i != x ==> b[i] == 0
  }

  lemma {:induction false} CountLone(b: seq<nat>, x: nat, i: nat)
    requires Lone(b, x) && i <= |b|
    ensures CountOf(b[..i], 1) == if x < i then 1 else 0
  {
    if i > 0 {
      CountLone(b, x, i - 1);
      assert b[..i][..i - 1] == b[..i - 1];
    }
  }

  lemma {:induction false} LoneSymbol(b: seq<nat>, x: nat, s: nat)
    requires Lone(b, x)
    ensures Accepted(b) && (Low(s, 1) == 0 ==> SymbolOf(b, s) == Some(x))
  {
    CountLone(b, x, |b|);
    assert b[..|b|] == b;
    CountLone(b, x, x);
    assert End(CountsOf(b), 0) == 0 && CodeOf(b, x) == 0 && Rev(0, 1) == 0;
    if Low(s, 1) == 0 {
      assert Starts(b, x, s);
    }
  }

  /** A bit field: a value and its width. */
  type Field = (nat, nat)

  /** The stream of some fields, one after another. */
  function Pack(fs: seq<Field>): nat
  {
    if |fs| == 0 then 0 else fs[0].0 + Shl(Pack(fs[1..]), fs[0].1)
  }

  lemma {:induction false} Unpack(fs: seq<Field>)
    requires |fs| > 0 && fs[0].0 < Pow2(fs[0].1)
    ensures Low(Pack(fs), fs[0].1) == fs[0].0 && Shr(Pack(fs), fs[0].1) == Pack(fs[1..])
  {
    hide Shl, Low, Shr;
    Join(Pack(fs[1..]), fs[0].0, fs[0].1);
  }

  /** Eighteen three-bit code lengths. */
  ghost predicate Clens(fs: seq<Field>, j: nat)
  {
    j <= 18 <= j + |fs| && forall i :: 0 <= i < 18 - j ==> fs[i].1 == 3 && fs[i].0 < 8
  }

  lemma {:induction false} ClensAre(fs: seq<Field>, j: nat, cl: seq<nat>, m: nat)
    requires Clens(fs, j) && |cl| == 19 && (forall i :: 0 <= i < 19 ==> cl[i] <= 7) && m < 19
    ensures |RefClens(j, 18, Pack(fs), cl)| == 19
    ensures RefClens(j, 18, Pack(fs), cl)[m] == if j <= Place(m) < 18 then fs[Place(m) - j].0 else cl[m]
    ensures Shr(Pack(fs), 3 * (18 - j)) == Pack(fs[18 - j..])
    decreases 18 - j
  {
    hide Low, Shr, Pack, Place, BORDER;
    if j < 18 {
      EightIsPow2();
      Unpack(fs);
      CodeLengthOrder(j);
      ClensAre(fs[1..], j + 1, cl[BORDER[j] := fs[0].0], m);
      ShrShr(Pack(fs), 3, 3 * (17 - j));
      assert fs[1..][17 - j..] == fs[18 - j..];
    } else {
      ShrZero(Pack(fs));
      assert fs[0..] == fs;
    }
  }

  /** 257 and `d + 1` code lengths, coded with a code of which 18 lengths are given. */
  function Head(d: nat): seq<Field>
  {
    [(0, 5), (d, 5), (14, 4)]
  }

  lemma {:induction false} HeadBits(fs: seq<Field>, d: nat)
    requires Head(d) <= fs && d < 32
    ensures var s := Pack(fs);
      Low(s, 5) == 0 && Low(Shr(s, 5), 5) == d && Low(Shr(s, 10), 4) == 14 && Shr(s, 14) == Pack(fs[3..])
  {
    assert fs[0] == (0, 5) && fs[1] == (d, 5) && fs[2] == (14, 4) && Pow2(4) == 16 && Pow2(5) == 32;
    hide Low, Shr, Pack, Shl;
    Unpack(fs);
    Unpack(fs[1..]);
    Unpack(fs[2..]);
    assert fs[1..][1..] == fs[2..] && fs[2..][1..] == fs[3..];
    ShrShr(Pack(fs), 5, 5);
    ShrShr(Pack(fs), 10, 4);
  }

  /** The header up to the code lengths of both alphabets. */
  lemma {:induction false} HeaderIs(fs: seq<Field>, d: nat, left: nat, cl: seq<nat>)
    requires Head(d) <= fs && d < 32 && |fs| >= 21 && Clens(fs[3..], 0) && left >= 68 && |cl| == 19
    requires (forall m :: 0 <= m < 19 ==> cl[m] == if Place(m) < 18 then fs[3 + Place(m)].0 else 0) && Accepted(cl)
    ensures RfcHeader(Pack(fs), left) == RefLengths(cl, 258 + d, Pack(fs[21..]), left - 68, [])
    ensures Many(Pack(fs), left) <==> d >= 30
    ensures RefClens(0, 18, Shr(Pack(fs), 14), Run(0, 19)) == cl && Shr(Pack(fs), 68) == Pack(fs[21..])
  {
    hide Low, Shr, Pack, RefLengths, RefClens, Accepted, Place;
    HeadBits(fs, d);
    forall m | 0 <= m < 19 ensures |RefClens(0, 18, Pack(fs[3..]), Run(0, 19))| == 19 && RefClens(0, 18, Pack(fs[3..]), Run(0, 19))[m] == cl[m] {
      ClensAre(fs[3..], 0, Run(0, 19), m);
    }
    ClensAre(fs[3..], 0, Run(0, 19), 0);
    ShrShr(Pack(fs), 14, 54);
    assert fs[3..][18..] == fs[21..];
    assert RefClens(0, 18, Shr(Pack(fs), 14), Run(0, 19)) == cl;
    var nl, nd, nb := 257 + Low(Pack(fs), 5), 1 + Low(Shr(Pack(fs), 5), 5), 4 + Low(Shr(Pack(fs), 10), 4);
    assert nl == 257 && nd == 1 + d && nb == 18 && 14 + 3 * nb == 68;
  }

  /** Whether the code lengths start with a repeat. */
  lemma {:induction false} StartsWith(fs: seq<Field>, d: nat, left: nat, cl: seq<nat>)
    requires Head(d) <= fs && d < 32 && |fs| >= 21 && |cl| == 19
    requires RefClens(0, 18, Shr(Pack(fs), 14), Run(0, 19)) == cl && Shr(Pack(fs), 68) == Pack(fs[21..])
    ensures LeadingRepeat(Pack(fs), left) <==> RfcHeader(Pack(fs), left).GoodLens? && SymbolOf(cl, Pack(fs[21..])) == Some(16)
  {
    hide RfcHeader, RefClens, SymbolOf, Pack, Low, Shr, Head;
    HeadBits(fs, d);
    assert 4 + Low(Shr(Pack(fs), 10), 4) == 18;
  }

  /** The symbol of a code of one or two bits. */
  ghost function Decoded(f: Field, x: nat, y: nat, z: nat): nat
  {
    if f == (0, 1) then x else if f == (1, 2) then y else z
  }

  lemma {:induction false} Decodes(b: seq<nat>, x: nat, y: nat, z: nat, f: Field, rest: seq<Field>)
    requires Three(b, x, y, z) && f in {(0, 1), (1, 2), (3, 2)}
    ensures var sym := Decoded(f, x, y, z);
      SymbolOf(b, Pack([f] + rest)) == Some(sym) && b[sym] == f.1 && Shr(Pack([f] + rest), f.1) == Pack(rest)
  {
    assert Pow2(1) == 2 && Pow2(2) == 4;
    hide Low, Shr, Pack, SymbolOf;
    Unpack([f] + rest);
    assert ([f] + rest)[1..] == rest;
    ThreeSymbols(b, x, y, z, Pack([f] + rest));
  }

  /** One code length. */
  lemma {:induction false} LengthNext(cl: seq<nat>, n: nat, x: nat, y: nat, z: nat, f: Field, rest: seq<Field>, left: nat, lens: seq<nat>)
    requires |cl| == 19 && |lens| < n && (forall i :: 0 <= i < |lens| ==> lens[i] <= 15)
    requires Three(cl, x, y, z) && f in {(0, 1), (1, 2), (3, 2)} && f.1 <= left && Decoded(f, x, y, z) < 16
    ensures RefLengths(cl, n, Pack([f] + rest), left, lens) ==
      RefLengths(cl, n, Pack(rest), left - f.1, lens + [Decoded(f, x, y, z)])
  {
    hide Low, Shr, Pack, SymbolOf, Three;
    Decodes(cl, x, y, z, f, rest);
  }

  /** A run of zeros, by a repeat of zeros or of what comes before. */
  lemma {:induction false} RepeatNext(cl: seq<nat>, total: nat, x: nat, y: nat, z: nat, f: Field, n: Field, rest: seq<Field>,
                                       left: nat, lens: seq<nat>)
    requires |cl| == 19 && |lens| < total && (forall i :: 0 <= i < |lens| ==> lens[i] <= 15)
    requires Three(cl, x, y, z) && f in {(0, 1), (1, 2), (3, 2)} && f.1 + n.1 <= left && n.0 < Pow2(n.1)
    requires var sym := Decoded(f, x, y, z); (sym == 16 && LastLen(lens) == 0 && n.1 == 2) || (sym == 18 && n.1 == 7)
    requires |lens| + 11 + n.0 <= total
    ensures var rep := n.0 + if Decoded(f, x, y, z) == 18 then 11 else 3;
      RefLengths(cl, total, Pack([f] + ([n] + rest)), left, lens) ==
      RefLengths(cl, total, Pack(rest), left - f.1 - n.1, lens + Run(0, rep))
  {
    hide Low, Shr, Pack, SymbolOf, Three;
    Decodes(cl, x, y, z, f, [n] + rest);
    Unpack([n] + rest);
    assert ([n] + rest)[1..] == rest;
  }

  lemma {:induction false} LengthsEnd(cl: seq<nat>, n: nat, s: nat, left: nat, lens: seq<nat>)
    requires |cl| == 19 && |lens| == n && forall i :: 0 <= i < |lens| ==> lens[i] <= 15
    ensures RefLengths(cl, n, s, left, lens) == GoodLens(s, left, lens)
  {
  }

  /** The last block of a stream, with codes of its own. */
  const BLOCK: seq<Field> := [(1, 1), (2, 2)]

  lemma {:induction false} BlockBits(fs: seq<Field>)
    requires BLOCK <= fs
    ensures var s := Pack(fs); Low(s, 1) == 1 && Low(Shr(s, 1), 2) == 2 && Shr(s, 3) == Pack(fs[2..])
  {
    assert fs[0] == (1, 1) && fs[1] == (2, 2) && Pow2(1) == 2 && Pow2(2) == 4;
    hide Low, Shr, Pack;
    Unpack(fs);
    Unpack(fs[1..]);
    assert fs[1..][1..] == fs[2..];
    ShrShr(Pack(fs), 1, 2);
  }

  /** Lengths 2 and 2, 254 zeros and 1 for one alphabet, 1 for the other; then a code of one bit. */
  const TIGHT_CODES: seq<Field> := [(0, 1), (0, 1), (3, 2), (127, 7), (3, 2), (105, 7), (1, 2), (1, 2), (0, 1)]

  const TIGHT_CL: seq<nat> := [0, 2, 1, 0, 0, 0, 0, 0, 0, 0, 0, 0, 0, 0, 0, 0, 0, 0, 2]

  /** In bytes: 05 c0 01 01 00 00 00 40 20 fe 9f 2e. */
  const TIGHT: seq<Field> := BLOCK + Head(0) +
    [(0, 3), (0, 3), (2, 3), (0, 3), (0, 3), (0, 3), (0, 3), (0, 3), (0, 3),
     (0, 3), (0, 3), (0, 3), (0, 3), (0, 3), (0, 3), (1, 3), (0, 3), (2, 3)] + TIGHT_CODES

  /** End of block in one bit, two literals in two. */
  ghost function TightLit(): seq<nat>
  {
    [2, 2] + Run(0, 138) + Run(0, 116) + [1]
  }

  lemma {:induction false} TightThree()
    ensures |TIGHT_CL| == 19 && Three(TIGHT_CL, 2, 1, 18)
  {
  }

  lemma {:induction false} ZeroBit()
    ensures Pack([(0, 1)]) == 0
  {
    assert Pack([(0, 1)][1..]) == 0;
  }

  lemma {:induction false} TightTail(lens: seq<nat>, left: nat)
    requires left == 5 && |lens| == 256 && forall i :: 0 <= i < |lens| ==> lens[i] <= 15
    ensures RefLengths(TIGHT_CL, 258, Pack([(1, 2)] + ([(1, 2)] + [(0, 1)])), left, lens) == GoodLens(0, 1, lens + [1] + [1])
  {
    hide Pack, RefLengths, Three, TIGHT_CL;
    var cl := TIGHT_CL;
    TightThree();
    ZeroBit();
    LengthNext(cl, 258, 2, 1, 18, (1, 2), [(1, 2)] + [(0, 1)], 5, lens);
    LengthNext(cl, 258, 2, 1, 18, (1, 2), [(0, 1)], 3, lens + [1]);
    LengthsEnd(cl, 258, 0, 1, lens + [1] + [1]);
  }

  /** The `n` code lengths of a header, read from its codes. */
  ghost predicate ReadsLengths(cl: seq<nat>, n: nat, codes: seq<Field>, left: nat, rest: nat, lens: seq<nat>)
  {
    |cl| == 19 && RefLengths(cl, n, Pack(codes), left, []) == GoodLens(0, rest, lens)
  }

  lemma {:induction false} LengthsRead(cl: seq<nat>, n: nat, codes: seq<Field>, left: nat, rest: nat, lens: seq<nat>)
    requires ReadsLengths(cl, n, codes, left, rest, lens)
    ensures |cl| == 19 && RefLengths(cl, n, Pack(codes), left, []) == GoodLens(0, rest, lens)
  {
  }

  lemma {:induction false} TightLengths(cl: seq<nat>, codes: seq<Field>, left: nat)
    requires cl == TIGHT_CL && codes == TIGHT_CODES && left == 25
    ensures ReadsLengths(cl, 258, codes, left, 1, TightLit() + [1])
  {
    hide Pack, RefLengths, Three, Run, TIGHT_CL;
    TightThree();
    SmallPowers();
    var tail: seq<Field> := [(1, 2)] + ([(1, 2)] + [(0, 1)]);
    var mid: seq<Field> := [(3, 2)] + ([(105, 7)] + tail);
    var most: seq<Field> := [(3, 2)] + ([(127, 7)] + mid);
    assert TIGHT_CODES == [(0, 1)] + ([(0, 1)] + most);
    hide TIGHT_CODES;
    LengthNext(cl, 258, 2, 1, 18, (0, 1), [(0, 1)] + most, 25, []);
    LengthNext(cl, 258, 2, 1, 18, (0, 1), most, 24, [2]);
    assert [2] + [2] == [2, 2] && [] + [2] == [2];
    RunIs(138);
    RunIs(116);
    RepeatNext(cl, 258, 2, 1, 18, (3, 2), (127, 7), mid, 23, [2, 2]);
    RepeatNext(cl, 258, 2, 1, 18, (3, 2), (105, 7), tail, 14, [2, 2] + Run(0, 138));
    TightTail([2, 2] + Run(0, 138) + Run(0, 116), 5);
  }

  lemma {:induction false} TightHeader()
    ensures RfcHeader(Pack(TIGHT[2..]), 93) == RefHeader(Pack(TIGHT[2..]), 93) == GoodLens(0, 1, TightLit() + [1])
    ensures !LeadingRepeat(Pack(TIGHT[2..]), 93) && !Many(Pack(TIGHT[2..]), 93)
  {
    hide *;
    TightThree();
    ThreeCounts(TIGHT_CL, 2, 1, 18);
    TightFields();
    HeaderIs(TIGHT[2..], 0, 93, TIGHT_CL);
    StartsWith(TIGHT[2..], 0, 93, TIGHT_CL);
    HeaderSame(Pack(TIGHT[2..]), 93);
    TightLengths(TIGHT_CL, TIGHT_CODES, 25);
    LengthsRead(TIGHT_CL, 258, TIGHT_CODES, 25, 1, TightLit() + [1]);
    TightStart();
  }

  lemma {:induction false} TightStart()
    ensures SymbolOf(TIGHT_CL, Pack(TIGHT_CODES)) == Some(2)
  {
    hide Pack, SymbolOf, Shr;
    TightThree();
    assert TIGHT_CODES == [(0, 1)] + TIGHT_CODES[1..];
    Decodes(TIGHT_CL, 2, 1, 18, (0, 1), TIGHT_CODES[1..]);
  }

  lemma {:induction false} TightFields()
    ensures |TIGHT| >= 23 && BLOCK <= TIGHT && Head(0) <= TIGHT[2..] && |TIGHT[2..]| >= 21
    ensures Clens(TIGHT[2..][3..], 0) && TIGHT[2..][21..] == TIGHT_CODES
    ensures forall m :: 0 <= m < 19 ==> TIGHT_CL[m] == if Place(m) < 18 then TIGHT[2..][3 + Place(m)].0 else 0
  {
  }

  lemma {:induction false} TightLits()
    ensures |TightLit()| == 257 && Three(TightLit(), 256, 0, 1)
  {
  }

  /** A complete stream of 12 bytes that says nothing and ends with its last bit. Before the last code
      one bit is left, and the lookup asks for two. */
  lemma {:induction false} CompleteYetShort()
    ensures PlainInflate(true, Pack(TIGHT), 96, []) == Fine(0, 0, []) && !ManyCodes(true, Pack(TIGHT), 96, [])
    ensures ScanInflate(Pack(TIGHT), 96) == Dry
  {
    hide RefHeader, RfcHeader, Many, LeadingRepeat, PlainCodes, Accepted, Width, Pack, TIGHT, Three, Lone, SymbolOf, TightLit, Low, Shr,
      ScanDynamic, ScanInflate;
    TightHeader();
    TightFields();
    BlockBits(TIGHT);
    HeadBits(TIGHT[2..], 0);
    TightLits();
    var lit := TightLit();
    assert (lit + [1])[..257] == lit && (lit + [1])[257..] == [1];
    ThreeCounts(lit, 256, 0, 1);
    LoneOne();
    LoneSymbol([1], 0, 0);
    ZeroLow();
    ThreeSymbols(lit, 256, 0, 1, 0);
    LastCode(lit, [1], 1);
    assert Width(lit, 9, 2) by { TightWidth(lit); }
    FirstLookupDry(Pack(TIGHT[2..]), 93, 2);
    DryAtOnce(Pack(TIGHT), 96);
  }

  lemma {:induction false} DryAtOnce(stream: nat, left: nat)
    requires ScanBlock(stream, left) == Dry
    ensures ScanInflate(stream, left) == Dry
  {
  }

  lemma {:induction false} TightWidth(lit: seq<nat>)
    requires |lit| == 257 && Three(lit, 256, 0, 1)
    ensures Width(lit, 9, 2) && lit[256] == 1
  {
    ThreeCounts(lit, 256, 0, 1);
    assert IsRange(CountsOf(lit), 1, 2) && LookupBits(9, 1, 2) == 2;
  }

  lemma {:induction false} ZeroLow()
    ensures Low(0, 1) == 0 && Shr(0, 1) == 0
  {
  }

  /** The next bit is the code for the end of the block. */
  lemma {:induction false} LastCode(lit: seq<nat>, dist: seq<nat>, left: nat)
    requires |lit| == 257 && |dist| <= DIST_CODES && lit[256] == 1 && SymbolOf(lit, 0) == Some(256) && left >= 1
    ensures PlainCodes(lit, dist, 0, left, []) == Fine(0, left - 1, [])
  {
  }

  lemma {:induction false} LoneOne()
    ensures Lone([1], 0)
  {
  }

  /** The first code repeats a length three times; then 253 zeros, 1, and 1 for the other alphabet. */
  const REPEAT_CODES: seq<Field> := [(3, 2), (0, 2), (0, 1), (127, 7), (0, 1), (104, 7), (1, 2), (1, 2), (0, 1)]

  const REPEAT_CL: seq<nat> := [0, 2, 0, 0, 0, 0, 0, 0, 0, 0, 0, 0, 0, 0, 0, 0, 2, 0, 1]

  /** In bytes: 05 c0 85 00 00 00 00 00 a0 f1 87 2e, and two bytes behind the block. */
  const REPEAT: seq<Field> := BLOCK + Head(0) +
    [(2, 3), (0, 3), (1, 3), (0, 3), (0, 3), (0, 3), (0, 3), (0, 3), (0, 3),
     (0, 3), (0, 3), (0, 3), (0, 3), (0, 3), (0, 3), (0, 3), (0, 3), (2, 3)] + REPEAT_CODES

  ghost function RepeatLit(): seq<nat>
  {
    Run(0, 3) + Run(0, 138) + Run(0, 115) + [1]
  }

  lemma {:induction false} RepeatThree()
    ensures |REPEAT_CL| == 19 && Three(REPEAT_CL, 18, 1, 16)
  {
  }

  lemma {:induction false} RepeatFields()
    ensures |REPEAT| >= 23 && BLOCK <= REPEAT && Head(0) <= REPEAT[2..] && |REPEAT[2..]| >= 21 && Clens(REPEAT[2..][3..], 0)
    ensures REPEAT[2..][21..] == REPEAT_CODES
    ensures forall m :: 0 <= m < 19 ==> REPEAT_CL[m] == if Place(m) < 18 then REPEAT[2..][3 + Place(m)].0 else 0
  {
  }

  lemma {:induction false} RepeatTail(lens: seq<nat>, left: nat)
    requires left == 21 && |lens| == 256 && forall i :: 0 <= i < |lens| ==> lens[i] <= 15
    ensures RefLengths(REPEAT_CL, 258, Pack([(1, 2)] + ([(1, 2)] + [(0, 1)])), left, lens) == GoodLens(0, 17, lens + [1] + [1])
  {
    hide Pack, RefLengths, Three, REPEAT_CL;
    var cl := REPEAT_CL;
    RepeatThree();
    ZeroBit();
    LengthNext(cl, 258, 18, 1, 16, (1, 2), [(1, 2)] + [(0, 1)], 21, lens);
    LengthNext(cl, 258, 18, 1, 16, (1, 2), [(0, 1)], 19, lens + [1]);
    LengthsEnd(cl, 258, 0, 17, lens + [1] + [1]);
  }

  lemma {:induction false} RepeatLengths(cl: seq<nat>, codes: seq<Field>, left: nat)
    requires cl == REPEAT_CL && codes == REPEAT_CODES && left == 41
    ensures ReadsLengths(cl, 258, codes, left, 17, RepeatLit() + [1])
  {
    hide Pack, RefLengths, Three, Run, REPEAT_CL;
    RepeatThree();
    SmallPowers();
    var tail: seq<Field> := [(1, 2)] + ([(1, 2)] + [(0, 1)]);
    var mid: seq<Field> := [(0, 1)] + ([(104, 7)] + tail);
    var most: seq<Field> := [(0, 1)] + ([(127, 7)] + mid);
    assert REPEAT_CODES == [(3, 2)] + ([(0, 2)] + most);
    hide REPEAT_CODES;
    RunIs(3);
    RunIs(138);
    RunIs(115);
    RepeatNext(cl, 258, 18, 1, 16, (3, 2), (0, 2), most, 41, []);
    assert [] + Run(0, 3) == Run(0, 3);
    RepeatNext(cl, 258, 18, 1, 16, (0, 1), (127, 7), mid, 37, Run(0, 3));
    RepeatNext(cl, 258, 18, 1, 16, (0, 1), (104, 7), tail, 29, Run(0, 3) + Run(0, 138));
    RepeatTail(Run(0, 3) + Run(0, 138) + Run(0, 115), 21);
  }

  lemma {:induction false} RepeatStart()
    ensures SymbolOf(REPEAT_CL, Pack(REPEAT_CODES)) == Some(16)
  {
    hide Pack, SymbolOf, Shr;
    RepeatThree();
    assert REPEAT_CODES == [(3, 2)] + REPEAT_CODES[1..];
    Decodes(REPEAT_CL, 18, 1, 16, (3, 2), REPEAT_CODES[1..]);
  }

  lemma {:induction false} RepeatHeader()
    ensures RfcHeader(Pack(REPEAT[2..]), 109) == GoodLens(0, 17, RepeatLit() + [1])
    ensures LeadingRepeat(Pack(REPEAT[2..]), 109) && !Many(Pack(REPEAT[2..]), 109)
  {
    hide *;
    RepeatThree();
    ThreeCounts(REPEAT_CL, 18, 1, 16);
    RepeatFields();
    HeaderIs(REPEAT[2..], 0, 109, REPEAT_CL);
    StartsWith(REPEAT[2..], 0, 109, REPEAT_CL);
    RepeatLengths(REPEAT_CL, REPEAT_CODES, 41);
    LengthsRead(REPEAT_CL, 258, REPEAT_CODES, 41, 17, RepeatLit() + [1]);
    RepeatStart();
  }

  lemma {:induction false} RepeatLits()
    ensures |RepeatLit()| == 257 && Lone(RepeatLit(), 256)
  {
  }

  /** A stream that RFC 1951 has no meaning for, since it repeats a length before the first one. The
      code decodes it as if a zero came first, with enough bits to spare for its look-ahead. */
  lemma {:induction false} RepeatOfNothing(W: seq<Byte>)
    requires WSIZE <= |W|
    ensures PlainInflate(true, Pack(REPEAT), 112, []) == Early && RefInflate(Pack(REPEAT), 112, W) == Good(0, 16, W)
  {
    hide RfcHeader, Many, LeadingRepeat, PlainCodes, Accepted, Pack, REPEAT, Lone, SymbolOf, RepeatLit, Low, Shr, RefInflate;
    RepeatHeader();
    RepeatFields();
    BlockBits(REPEAT);
    HeadBits(REPEAT[2..], 0);
    RepeatLits();
    var lit := RepeatLit();
    assert (lit + [1])[..257] == lit && (lit + [1])[257..] == [1];
    LoneOne();
    LoneSymbol([1], 0, 0);
    LoneSymbol(lit, 256, 0);
    ZeroLow();
    assert lit[256] == 1 by { RepeatLits(); LoneLength(lit); }
    LastCode(lit, [1], 17);
    assert PlainInflate(false, Pack(REPEAT), 112, []) == Fine(0, 16, []);
    InflateAgrees(false, Pack(REPEAT), 112, W, []);
    assert W + [] == W;
  }

  lemma {:induction false} LoneLength(b: seq<nat>)
    requires |b| == 257 && Lone(b, 256)
    ensures b[256] == 1
  {
  }

  /** 256 zeros and 1 for one alphabet, 1 and 30 zeros for the other; then the end of the block. */
  const MANY_CODES: seq<Field> := [(0, 1), (127, 7), (0, 1), (107, 7), (1, 2), (1, 2), (0, 1), (19, 7), (0, 1)]

  const MANY_CL: seq<nat> := [0, 2, 2, 0, 0, 0, 0, 0, 0, 0, 0, 0, 0, 0, 0, 0, 0, 0, 1]

  /** A header with 31 distance codes. */
  const MANY: seq<Field> := BLOCK + Head(30) +
    [(0, 3), (0, 3), (1, 3), (0, 3), (0, 3), (0, 3), (0, 3), (0, 3), (0, 3),
     (0, 3), (0, 3), (0, 3), (0, 3), (0, 3), (0, 3), (2, 3), (0, 3), (2, 3)] + MANY_CODES

  ghost function ManyLit(): seq<nat>
  {
    Run(0, 138) + Run(0, 118) + [1]
  }

  ghost function ManyDist(): seq<nat>
  {
    [1] + Run(0, 30)
  }

  lemma {:induction false} ManyThree()
    ensures |MANY_CL| == 19 && Three(MANY_CL, 18, 1, 2)
  {
  }

  lemma {:induction false} ManyFields()
    ensures |MANY| >= 23 && BLOCK <= MANY && Head(30) <= MANY[2..] && |MANY[2..]| >= 21 && Clens(MANY[2..][3..], 0)
    ensures MANY[2..][21..] == MANY_CODES
    ensures forall m :: 0 <= m < 19 ==> MANY_CL[m] == if Place(m) < 18 then MANY[2..][3 + Place(m)].0 else 0
  {
  }

  lemma {:induction false} ManyTail(lens: seq<nat>, left: nat)
    requires left == 33 && |lens| == 256 && forall i :: 0 <= i < |lens| ==> lens[i] <= 15
    ensures RefLengths(MANY_CL, 288, Pack([(1, 2)] + ([(1, 2)] + ([(0, 1)] + ([(19, 7)] + [(0, 1)])))), left, lens) ==
      GoodLens(0, 21, lens + [1] + [1] + Run(0, 30))
  {
    hide Pack, RefLengths, Three, Run, MANY_CL;
    var cl := MANY_CL;
    ManyThree();
    SmallPowers();
    ZeroBit();
    RunIs(30);
    LengthNext(cl, 288, 18, 1, 2, (1, 2), [(1, 2)] + ([(0, 1)] + ([(19, 7)] + [(0, 1)])), 33, lens);
    LengthNext(cl, 288, 18, 1, 2, (1, 2), [(0, 1)] + ([(19, 7)] + [(0, 1)]), 31, lens + [1]);
    RepeatNext(cl, 288, 18, 1, 2, (0, 1), (19, 7), [(0, 1)], 29, lens + [1] + [1]);
    LengthsEnd(cl, 288, 0, 21, lens + [1] + [1] + Run(0, 30));
  }

  lemma {:induction false} ManyLengths(cl: seq<nat>, codes: seq<Field>, left: nat)
    requires cl == MANY_CL && codes == MANY_CODES && left == 49
    ensures ReadsLengths(cl, 288, codes, left, 21, ManyLit() + ManyDist())
  {
    hide Pack, RefLengths, Three, Run, MANY_CL;
    ManyThree();
    SmallPowers();
    var tail: seq<Field> := [(1, 2)] + ([(1, 2)] + ([(0, 1)] + ([(19, 7)] + [(0, 1)])));
    var most: seq<Field> := [(0, 1)] + ([(107, 7)] + tail);
    assert MANY_CODES == [(0, 1)] + ([(127, 7)] + most);
    hide MANY_CODES;
    RunIs(138);
    RunIs(118);
    RepeatNext(cl, 288, 18, 1, 2, (0, 1), (127, 7), most, 49, []);
    assert [] + Run(0, 138) == Run(0, 138);
    RepeatNext(cl, 288, 18, 1, 2, (0, 1), (107, 7), tail, 41, Run(0, 138));
    var lens := Run(0, 138) + Run(0, 118);
    ManyTail(lens, 33);
    assert lens + [1] + [1] + Run(0, 30) == (lens + [1]) + ([1] + Run(0, 30));
  }

  lemma {:induction false} ManyStart()
    ensures SymbolOf(MANY_CL, Pack(MANY_CODES)) == Some(18)
  {
    hide Pack, SymbolOf, Shr;
    ManyThree();
    assert MANY_CODES == [(0, 1)] + MANY_CODES[1..];
    Decodes(MANY_CL, 18, 1, 2, (0, 1), MANY_CODES[1..]);
  }

  lemma {:induction false} ManyHeader()
    ensures RfcHeader(Pack(MANY[2..]), 117) == GoodLens(0, 21, ManyLit() + ManyDist())
    ensures !LeadingRepeat(Pack(MANY[2..]), 117) && Many(Pack(MANY[2..]), 117)
  {
    hide *;
    ManyThree();
    ThreeCounts(MANY_CL, 18, 1, 2);
    ManyFields();
    HeaderIs(MANY[2..], 30, 117, MANY_CL);
    StartsWith(MANY[2..], 30, 117, MANY_CL);
    ManyLengths(MANY_CL, MANY_CODES, 49);
    LengthsRead(MANY_CL, 288, MANY_CODES, 49, 21, ManyLit() + ManyDist());
    ManyStart();
  }

  lemma {:induction false} ManyLits()
    ensures |ManyLit()| == 257 && Lone(ManyLit(), 256) && |ManyDist()| == 31 && Lone(ManyDist(), 0)
  {
  }

  /** A stream that RFC 1951 gives a meaning to, and that the code refuses for its 31 distance codes. */
  lemma {:induction false} TooManyCodes(W: seq<Byte>)
    requires WSIZE <= |W|
    ensures PlainInflate(true, Pack(MANY), 120, []) == Fine(0, 20, []) && RefInflate(Pack(MANY), 120, W) == Bad
  {
    hide RfcHeader, Many, LeadingRepeat, PlainCodes, Accepted, Pack, MANY, Lone, SymbolOf, ManyLit, ManyDist, Low, Shr, RefInflate;
    ManyHeader();
    ManyFields();
    BlockBits(MANY);
    HeadBits(MANY[2..], 30);
    ManyLits();
    var lit, dist := ManyLit(), ManyDist();
    assert (lit + dist)[..257] == lit && (lit + dist)[257..] == dist;
    LoneSymbol(dist, 0, 0);
    LoneSymbol(lit, 256, 0);
    ZeroLow();
    LoneLength(lit);
    LastCode(lit, dist, 21);
    assert ManyBlock(Pack(MANY), 120);
    InflateAgrees(true, Pack(MANY), 120, W, []);
    assert W + [] == W;
  }

  /** A last block with the fixed codes: length 3, distance 1, end of block. In bytes: 03 02 00 00 00. */
  const FAR: seq<Field> := [(1, 1), (1, 2), (64, 7), (0, 5), (0, 7)]

  lemma {:induction false} FixedSymbol(i: nat, s: nat)
    requires i <= 1 && Low(s, 7) == 64 * i
    ensures SymbolOf(FIXED_LIT, s) == Some(256 + i)
  {
    FixedCode(256 + i);
    FixedLitSet();
    assert Rev(0, 7) == 0 && Rev(1, 7) == 64;
    hide FIXED_LIT, CodeOf, Complete, Low, Rev, ValidLengths;
    SymbolIs(FIXED_LIT, 9, s, 256 + i);
  }

  lemma {:induction false} FixedDistance(s: nat)
    requires Low(s, 5) == 0
    ensures |FIXED_DIST| == 30 && FIXED_DIST[0] == 5 && SymbolOf(FIXED_DIST, s) == Some(0)
  {
    assert Rev(0, 5) == 0 && Pow2(5) == 32;
    FixedDistanceCode(0);
    var r := SymbolOf(FIXED_DIST, s);
    assert Starts(FIXED_DIST, 0, s);
    FixedDistanceCode(r.value);
    hide Rev, Low, CodeOf;
    RevInjective(r.value, 0, 5);
  }

  lemma {:induction false} FarBits()
    ensures var s := Pack(FAR);
      Low(s, 1) == 1 && Low(Shr(s, 1), 2) == 1 && Low(Shr(s, 3), 7) == 64 && Shr(Shr(s, 3), 7) == 0
  {
    assert Pow2(1) == 2 && Pow2(2) == 4 && Pow2(7) == 128;
    var none: seq<Field> := [(0, 5), (0, 7)];
    assert none[1..] == [(0, 7)] && [(0, 7)][1..] == [] && Pack(none) == 0;
    hide Pack, Low, Shr, Shl;
    Unpack(FAR);
    Unpack(FAR[1..]);
    Unpack(FAR[2..]);
    assert FAR[1..][1..] == FAR[2..] && FAR[2..][1..] == none;
    ShrShr(Pack(FAR), 1, 2);
  }

  lemma {:induction false} NoBitsSet(n: nat)
    ensures Low(0, n) == 0 && Shr(0, n) == 0
  {
    if n > 0 {
      NoBitsSet(n - 1);
    }
  }

  lemma {:induction false} FirstCodes()
    ensures |CPLENS| == |CPLEXT| == 31 && |CPDIST| == |CPDEXT| == 30
    ensures CPLENS[0] == 3 && CPLEXT[0] == 0 && CPDIST[0] == 1 && CPDEXT[0] == 0
  {
  }

  /** The length code and distance code of the far match. */
  lemma {:induction false} FarMatch(W: seq<Byte>)
    requires WSIZE <= |W|
    ensures |FIXED_DIST| <= |CPDIST|
    ensures PlainMatch(FIXED_DIST, 257, 0, 30, []) == Early
    ensures RefMatch(FIXED_DIST, 257, 0, 30, W) == Good(0, 25, CopyBack(W, 3, 1))
  {
    hide FIXED_DIST, SymbolOf, CopyBack, CPLENS, CPLEXT, CPDIST, CPDEXT, Low, Shr;
    FirstCodes();
    NoBitsSet(0);
    NoBitsSet(5);
    FixedDistance(0);
  }

  /** A stream whose only match reaches back before the first byte. RFC 1951 has no meaning for it; the
      code writes what happens to be in the window. */
  lemma {:induction false} BeforeTheStart(W: seq<Byte>)
    requires WSIZE <= |W|
    ensures PlainInflate(true, Pack(FAR), 40, []) == Early
    ensures var c := W[|W| - 1]; RefInflate(Pack(FAR), 40, W) == Good(0, 18, W + [c, c, c])
  {
    hide FIXED_LIT, FIXED_DIST, SymbolOf, RefMatch, PlainMatch, Pack, Low, Shr, CopyBack, RefCodes, PlainCodes, FAR;
    FarBits();
    ThreeCopies(W);
    FixedSymbol(1, Shr(Pack(FAR), 3));
    NoBitsSet(7);
    FixedSymbol(0, 0);
    FixedCode(256);
    FixedCode(257);
    FarMatch(W);
    FarCodes(Shr(Pack(FAR), 3), W);
    BlockShrinks(Pack(FAR), 40, W);
  }

  lemma {:induction false} ThreeCopies(W: seq<Byte>)
    requires |W| > 0
    ensures var c := W[|W| - 1]; CopyBack(W, 3, 1) == W + [c, c, c]
  {
    hide CopyBack;
    var c := W[|W| - 1];
    var one := W + [c];
    var two := one + [c];
    var three := two + [c];
    CopyOne(W, 2, one);
    CopyOne(one, 1, two);
    CopyOne(two, 0, three);
    CopyNone(three, 1);
    assert three == W + [c, c, c];
  }

  lemma {:induction false} CopyOne(h: seq<Byte>, n: nat, h': seq<Byte>)
    requires |h| > 0 && h' == h + [h[|h| - 1]]
    ensures CopyBack(h, n + 1, 1) == CopyBack(h', n, 1)
  {
  }

  lemma {:induction false} FarCodes(s: nat, W: seq<Byte>)
    requires WSIZE <= |W| && SymbolOf(FIXED_LIT, s) == Some(257) && SymbolOf(FIXED_LIT, 0) == Some(256) && Shr(s, 7) == 0
    requires |FIXED_LIT| == 288 && FIXED_LIT[257] == 7 && FIXED_LIT[256] == 7 && Shr(0, 7) == 0 && |FIXED_DIST| <= |CPDIST|
    requires PlainMatch(FIXED_DIST, 257, 0, 30, []) == Early && |CopyBack(W, 3, 1)| >= WSIZE
    requires RefMatch(FIXED_DIST, 257, 0, 30, W) == Good(0, 25, CopyBack(W, 3, 1))
    ensures PlainCodes(FIXED_LIT, FIXED_DIST, s, 37, []) == Early
    ensures RefCodes(FIXED_LIT, FIXED_DIST, s, 37, W) == Good(0, 18, CopyBack(W, 3, 1))
  {
    hide FIXED_LIT, FIXED_DIST, SymbolOf, RefMatch, PlainMatch, Shr, CopyBack, RefCodes;
    CodesStep(FIXED_LIT, FIXED_DIST, s, 37, W);
    CodesStep(FIXED_LIT, FIXED_DIST, 0, 25, CopyBack(W, 3, 1));
  }

  lemma {:induction false} RunIs(n: nat)
    ensures |Run(0, n)| == n && forall i :: 0 <= i < n ==> Run(0, n)[i] == 0
  {
  }

  lemma {:induction false} EightIsPow2()
    ensures Pow2(3) == 8
  {
  }

}
