/**
 The DEFLATE format of RFC 1951 as `lib/inflate.c` reads it, as a function from a bit stream to the
 bytes it stands for. Where this is more lenient than the standard, `Rfc1951` says so.

 A stream is a number whose bit 0 comes first, together with the number of bits it has.
 The output history starts with whatever the 32K window held before the first byte.
 */
module Deflate {
  import opened Common
  import opened Bits
  import opened Huffman
  import opened HuftTables

  type Byte = x: nat | x < 256

  const WSIZE: nat := 32768

  /** Result of decoding a prefix of a stream: what remains of it and the history. */
  datatype Ref = Bad | Short | Good(stream: nat, left: nat, hist: seq<Byte>)

  /** Base values and extra bits of length codes 257..285 and distance codes 0..29,
      section 3.2.5. The last two length codes are not used. */
  const CPLENS: seq<nat> := [
    3, 4, 5, 6, 7, 8, 9, 10, 11, 13, 15, 17, 19, 23, 27, 31,
    35, 43, 51, 59, 67, 83, 99, 115, 131, 163, 195, 227, 258, 0, 0]
  const CPLEXT: seq<nat> := [
    0, 0, 0, 0, 0, 0, 0, 0, 1, 1, 1, 1, 2, 2, 2, 2,
    3, 3, 3, 3, 4, 4, 4, 4, 5, 5, 5, 5, 0, 99, 99]
  const CPDIST: seq<nat> := [
    1, 2, 3, 4, 5, 7, 9, 13, 17, 25, 33, 49, 65, 97, 129, 193,
    257, 385, 513, 769, 1025, 1537, 2049, 3073, 4097, 6145,
    8193, 12289, 16385, 24577]
  const CPDEXT: seq<nat> := [
    0, 0, 0, 0, 1, 1, 2, 2, 3, 3, 4, 4, 5, 5, 6, 6,
    7, 7, 8, 8, 9, 9, 10, 10, 11, 11,
    12, 12, 13, 13]

  /** The symbol whose code starts the stream. */
  ghost function SymbolOf(b: seq<nat>, stream: nat): (r: Option<nat>)
    ensures r.Some? ==> r.value < |b| && Starts(b, r.value, stream)
    ensures r.None? ==> forall sym :: 0 <= sym < |b| ==> !Starts(b, sym, stream)
  {
    if exists sym :: 0 <= sym < |b| && Starts(b, sym, stream) then
      var sym :| 0 <= sym < |b| && Starts(b, sym, stream);
      Some(sym)
    else None
  }

  /** Section 3.2.3: appending, `n` times, the byte `dist` back in the output. */
  function CopyBack(hist: seq<Byte>, n: nat, dist: nat): seq<Byte>
    requires 1 <= dist <= |hist|
    decreases n
  {
    if n == 0 then hist else CopyBack(hist + [hist[|hist| - dist]], n - 1, dist)
  }

  lemma DistanceInWindow(i: nat, x: nat)
    requires i < |CPDIST| && x < Pow2(CPDEXT[i])
    ensures 1 <= CPDIST[i] + x <= WSIZE
  {
    assert Pow2(0) == 1 && Pow2(1) == 2 && Pow2(2) == 4 && Pow2(3) == 8 && Pow2(4) == 16;
    assert Pow2(5) == 32 && Pow2(6) == 64 && Pow2(7) == 128 && Pow2(8) == 256 && Pow2(9) == 512;
    assert Pow2(10) == 1024 && Pow2(11) == 2048 && Pow2(12) == 4096 && Pow2(13) == 8192;
  }

  /** After length code `sym`: its extra bits, the distance code and its extra bits. */
  ghost function RefMatch(dist: seq<nat>, sym: nat, stream: nat, left: nat, hist: seq<Byte>): (r: Ref)
    requires 257 <= sym < 286 && |dist| <= |CPDIST| && WSIZE <= |hist|
    ensures r.Good? ==> r.left <= left && |hist| <= |r.hist|
  {
    var e := CPLEXT[sym - 257];
    if e > left then Short
    else
      var n, s1, left1 := CPLENS[sym - 257] + Low(stream, e), Shr(stream, e), left - e;
      match SymbolOf(dist, s1)
      case None => Bad
      case Some(d) =>
        if dist[d] > left1 then Short else RefCopy(d, n, Shr(s1, dist[d]), left1 - dist[d], hist)
  }

  /** The extra bits of distance code `d`, and the copy. */
  function RefCopy(d: nat, n: nat, stream: nat, left: nat, hist: seq<Byte>): (r: Ref)
    requires d < |CPDIST| && WSIZE <= |hist|
    ensures r.Good? ==> r.left <= left && |hist| <= |r.hist|
  {
    var f := CPDEXT[d];
    if f > left then Short
    else
      Split(stream, f);
      DistanceInWindow(d, Low(stream, f));
      CopyGrows(hist, n, CPDIST[d] + Low(stream, f));
      Good(Shr(stream, f), left - f, CopyBack(hist, n, CPDIST[d] + Low(stream, f)))
  }

  lemma {:induction false} CopyGrows(hist: seq<Byte>, n: nat, dist: nat)
    requires 1 <= dist <= |hist|
    ensures |CopyBack(hist, n, dist)| == |hist| + n && hist <= CopyBack(hist, n, dist)
    decreases n
  {
    if n != 0 {
      CopyGrows(hist + [hist[|hist| - dist]], n - 1, dist);
    }
  }

  lemma CopyNone(hist: seq<Byte>, dist: nat)
    requires 1 <= dist <= |hist|
    ensures CopyBack(hist, 0, dist) == hist
  {
  }

  /** Section 3.2.3: literals and matches until the end-of-block code. */
  ghost function RefCodes(lit: seq<nat>, dist: seq<nat>, stream: nat, left: nat, hist: seq<Byte>): Ref
    requires |dist| <= |CPDIST| && WSIZE <= |hist|
    decreases left
  {
    match SymbolOf(lit, stream)
    case None => Bad
    case Some(sym) =>
      if lit[sym] > left then Short
      else
        var s1, left1 := Shr(stream, lit[sym]), left - lit[sym];
        if sym < 256 then RefCodes(lit, dist, s1, left1, hist + [sym])
        else if sym == 256 then Good(s1, left1, hist)
        else if sym >= 286 then Bad
        else
          var m := RefMatch(dist, sym, s1, left1, hist);
          if m.Good? then RefCodes(lit, dist, m.stream, m.left, m.hist) else m
  }

  /** One code of `RefCodes`. */
  lemma CodesStep(lit: seq<nat>, dist: seq<nat>, stream: nat, left: nat, hist: seq<Byte>)
    requires |dist| <= |CPDIST| && WSIZE <= |hist|
    ensures var sym, r := SymbolOf(lit, stream), RefCodes(lit, dist, stream, left, hist);
      if sym.None? then r == Bad
      else if lit[sym.value] > left then r == Short
      else
        var s1, left1 := Shr(stream, lit[sym.value]), left - lit[sym.value];
        if sym.value < 256 then r == RefCodes(lit, dist, s1, left1, hist + [sym.value])
        else if sym.value == 256 then r == Good(s1, left1, hist)
        else if sym.value >= 286 then r == Bad
        else
          var m := RefMatch(dist, sym.value, s1, left1, hist);
          r == if m.Good? then RefCodes(lit, dist, m.stream, m.left, m.hist) else m
  {
    hide RefMatch, Shr;
  }

  /** `n` uncompressed bytes. */
  function RefBytes(n: nat, stream: nat, left: nat, hist: seq<Byte>): (r: Ref)
    ensures r.Good? ==> r.left <= left && |hist| <= |r.hist|
    decreases n
  {
    if n == 0 then Good(stream, left, hist)
    else if left < 8 then Short
    else
      Split(stream, 8);
      assert Pow2(8) == 256;
      RefBytes(n - 1, Shr(stream, 8), left - 8, hist + [Low(stream, 8)])
  }

  /** Section 3.2.4: bits up to a byte boundary are skipped, then the length and its
      complement, then that many bytes. */
  function RefStored(stream: nat, left: nat, hist: seq<Byte>): (r: Ref)
    ensures r.Good? ==> r.left <= left && |hist| <= |r.hist|
  {
    var s1, left1 := Shr(stream, left % 8), left - left % 8;
    if left1 < 32 then Short
    else if Low(s1, 16) + Low(Shr(s1, 16), 16) != 0xffff then Bad
    else RefBytes(Low(s1, 16), Shr(s1, 32), left1 - 32, hist)
  }

  function Run(L: nat, n: nat): seq<nat>
  {
    seq(n, _ => L)
  }

  /** Section 3.2.6: the code lengths of the fixed codes. */
  const FIXED_LIT: seq<nat> := Run(8, 144) + Run(9, 112) + Run(7, 24) + Run(8, 8)
  const FIXED_DIST: seq<nat> := Run(5, 30)

  predicate NoCodes(b: seq<nat>)
  {
    forall i :: 0 <= i < |b| ==> b[i] == 0
  }

  /** Code lengths that can be used: a complete set, one code of one bit, or none at all. */
  predicate Accepted(b: seq<nat>)
  {
    NoCodes(b) || End(CountsOf(b), BMAX) == Pow2(BMAX) ||
    (CountOf(b, 1) == 1 && forall i :: 0 <= i < |b| ==> b[i] <= 1)
  }

  datatype RefLens = BadLens | ShortLens | GoodLens(stream: nat, left: nat, lens: seq<nat>)

  function LastLen(lens: seq<nat>): nat
  {
    if |lens| == 0 then 0 else lens[|lens| - 1]
  }

  /** Section 3.2.7: code lengths for two alphabets, `n` in all, coded with the code length
      code `cl`. A repeat at the very start repeats length 0. */
  ghost function RefLengths(cl: seq<nat>, n: nat, stream: nat, left: nat, lens: seq<nat>): (r: RefLens)
    requires |cl| == 19 && |lens| <= n && forall i :: 0 <= i < |lens| ==> lens[i] <= 15
    ensures r.GoodLens? ==> r.left <= left && |r.lens| == n && forall i :: 0 <= i < n ==> r.lens[i] <= 15
    decreases left
  {
    if |lens| == n then GoodLens(stream, left, lens)
    else
      match SymbolOf(cl, stream)
      case None => BadLens
      case Some(sym) =>
        if cl[sym] > left then ShortLens
        else
          var s1, left1 := Shr(stream, cl[sym]), left - cl[sym];
          if sym < 16 then RefLengths(cl, n, s1, left1, lens + [sym])
          else
            var x := if sym == 16 then 2 else if sym == 17 then 3 else 7;
            if x > left1 then ShortLens
            else
              var rep := (if sym == 18 then 11 else 3) + Low(s1, x);
              if |lens| + rep > n then BadLens
              else RefLengths(cl, n, Shr(s1, x), left1 - x, lens + Run(if sym == 16 then LastLen(lens) else 0, rep))
  }

  /** Order of the code lengths for the code length alphabet. */
  const BORDER: seq<nat> := [16, 17, 18, 0, 8, 7, 9, 6, 10, 5, 11, 4, 12, 3, 13, 2, 14, 1, 15]

  /** Three-bit code lengths for positions `j .. nb` of `BORDER`. */
  function RefClens(j: nat, nb: nat, stream: nat, cl: seq<nat>): (r: seq<nat>)
    requires j <= nb <= 19 && |cl| == 19 && forall i :: 0 <= i < 19 ==> cl[i] <= 7
    ensures |r| == 19 && forall i :: 0 <= i < 19 ==> r[i] <= 7
    decreases nb - j
  {
    if j == nb then cl
    else
      Split(stream, 3);
      assert Pow2(3) == 8;
      RefClens(j + 1, nb, Shr(stream, 3), cl[BORDER[j] := Low(stream, 3)])
  }

  /** Section 3.2.7: the header of a block with its own codes, up to their lengths. */
  ghost function RefHeader(stream: nat, left: nat): (r: RefLens)
    ensures r.GoodLens? ==> r.left <= left && 258 <= |r.lens| <= 316 && 257 <= 257 + Low(stream, 5) < |r.lens| <= 257 + Low(stream, 5) + 30
    ensures r.GoodLens? ==> 257 + Low(stream, 5) <= 286 && forall i :: 0 <= i < |r.lens| ==> r.lens[i] <= 15
  {
    if left < 14 then ShortLens
    else
      var nl, nd, nb := 257 + Low(stream, 5), 1 + Low(Shr(stream, 5), 5), 4 + Low(Shr(stream, 10), 4);
      if nl > 286 || nd > 30 then BadLens
      else if left - 14 < 3 * nb then ShortLens
      else
        Split(Shr(stream, 10), 4);
        assert Pow2(4) == 16;
        var cl := RefClens(0, nb, Shr(stream, 14), Run(0, 19));
        if !Accepted(cl) then BadLens
        else RefLengths(cl, nl + nd, Shr(stream, 14 + 3 * nb), left - 14 - 3 * nb, [])
  }

  /** Section 3.2.7: a block with its own codes. */
  ghost function RefDynamic(stream: nat, left: nat, hist: seq<Byte>): Ref
    requires WSIZE <= |hist|
  {
    match RefHeader(stream, left)
    case BadLens => Bad
    case ShortLens => Short
    case GoodLens(s, left1, lens) =>
      var nl := 257 + Low(stream, 5);
      if !Accepted(lens[..nl]) || !Accepted(lens[nl..]) then Bad
      else RefCodes(lens[..nl], lens[nl..], s, left1, hist)
  }

  /** Section 3.2.3: the header bits and the block they announce. */
  ghost function RefBlock(stream: nat, left: nat, hist: seq<Byte>): Ref
    requires WSIZE <= |hist|
  {
    if left < 3 then Short
    else
      var t, s1 := Low(Shr(stream, 1), 2), Shr(stream, 3);
      if t == 0 then RefStored(s1, left - 3, hist)
      else if t == 1 then RefCodes(FIXED_LIT, FIXED_DIST, s1, left - 3, hist)
      else if t == 2 then RefDynamic(s1, left - 3, hist)
      else Bad
  }

  lemma {:induction false} CodesShrink(lit: seq<nat>, dist: seq<nat>, stream: nat, left: nat, hist: seq<Byte>)
    requires |dist| <= |CPDIST| && WSIZE <= |hist|
    ensures var r := RefCodes(lit, dist, stream, left, hist); r.Good? ==> r.left <= left && |hist| <= |r.hist|
    decreases left
  {
    var o := SymbolOf(lit, stream);
    if o.Some? && lit[o.value] <= left {
      var sym := o.value;
      var s1, left1 := Shr(stream, lit[sym]), left - lit[sym];
      if sym < 256 {
        CodesShrink(lit, dist, s1, left1, hist + [sym]);
      } else if 256 < sym < 286 {
        var m := RefMatch(dist, sym, s1, left1, hist);
        if m.Good? {
          CodesShrink(lit, dist, m.stream, m.left, m.hist);
        }
      }
    }
  }

  lemma BlockShrinks(stream: nat, left: nat, hist: seq<Byte>)
    requires WSIZE <= |hist|
    ensures var r := RefBlock(stream, left, hist); r.Good? ==> r.left < left && |hist| <= |r.hist|
  {
    hide RefCodes, RefHeader, Shr, Low, RefStored, Accepted;
    forall lit, dist, s, left1 | |dist| <= |CPDIST|
      ensures var r := RefCodes(lit, dist, s, left1, hist); r.Good? ==> r.left <= left1 && |hist| <= |r.hist|
    {
      CodesShrink(lit, dist, s, left1, hist);
    }
  }

  /** The whole stream: blocks up to and including one marked as last. */
  ghost function RefInflate(stream: nat, left: nat, hist: seq<Byte>): Ref
    requires WSIZE <= |hist|
    decreases left
  {
    var r := RefBlock(stream, left, hist);
    BlockShrinks(stream, left, hist);
    if r.Good? && Low(stream, 1) == 0 then RefInflate(r.stream, r.left, r.hist) else r
  }

  /** Whoever reads ahead needs bits beyond the end: what is left over is not enough. */
  ghost predicate Tight(r: Ref)
  {
    r.Good? ==> r.left < LOOKAHEAD
  }

  ghost predicate TightLens(r: RefLens)
  {
    r.GoodLens? ==> r.left < LOOKAHEAD
  }

  /** What is left after the first code. */
  lemma CodesAfter(lit: seq<nat>, dist: seq<nat>, stream: nat, left: nat, hist: seq<Byte>)
    requires |dist| <= |CPDIST| && WSIZE <= |hist|
    ensures var r, sym := RefCodes(lit, dist, stream, left, hist), SymbolOf(lit, stream);
      r.Good? ==> sym.Some? && sym.value < 286 && r.left <= left - lit[sym.value]
  {
    hide RefMatch, Shr;
    var o := SymbolOf(lit, stream);
    if o.Some? && lit[o.value] <= left {
      var s1, left1 := Shr(stream, lit[o.value]), left - lit[o.value];
      if o.value < 256 {
        CodesShrink(lit, dist, s1, left1, hist + [o.value]);
      } else if 256 < o.value < 286 {
        var m := RefMatch(dist, o.value, s1, left1, hist);
        if m.Good? {
          CodesShrink(lit, dist, m.stream, m.left, m.hist);
        }
      }
    }
  }

  lemma {:induction false} InflateShrinks(stream: nat, left: nat, hist: seq<Byte>)
    requires WSIZE <= |hist|
    ensures var r := RefInflate(stream, left, hist); r.Good? ==> r.left < left
    decreases left
  {
    hide RefBlock;
    BlockShrinks(stream, left, hist);
    var r := RefBlock(stream, left, hist);
    if r.Good? && Low(stream, 1) == 0 {
      InflateShrinks(r.stream, r.left, r.hist);
    }
  }
}
