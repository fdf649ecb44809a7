/**
 The DEFLATE format as RFC 1951 has it, where `lib/inflate.c` reads it differently. Two rules are
 enforced here that the code does not enforce: a match may not reach before the beginning of the output
 (section 3.2.3), and the first code length may not repeat the one before it (section 3.2.7). And
 one thing is allowed that the code refuses: a header may announce 31 or 32 distance codes, although the
 last two of them stand for no distance (sections 3.2.5 and 3.2.7). This decoder has no window, so what
 it gives is a function of the stream alone.
 */
module Rfc1951 {
  import opened Common
  import opened Bits
  import opened Deflate

  /** `Early`: the stream refers to something before its beginning. */
  datatype Out = Ill | Cut | Early | Fine(stream: nat, left: nat, out: seq<Byte>)

  function AsOut(r: Ref): Out
  {
    match r
    case Bad => Ill
    case Short => Cut
    case Good(stream, left, hist) => Fine(stream, left, hist)
  }

  /** The extra bits of distance code `d`, and the copy. */
  function PlainCopy(d: nat, n: nat, stream: nat, left: nat, out: seq<Byte>): (r: Out)
    requires d < |CPDIST|
    ensures r.Fine? ==> r.left <= left
  {
    var f := CPDEXT[d];
    if f > left then Cut
    else
      Split(stream, f);
      DistanceInWindow(d, Low(stream, f));
      var dist := CPDIST[d] + Low(stream, f);
      if dist > |out| then Early else Fine(Shr(stream, f), left - f, CopyBack(out, n, dist))
  }

  /** How many distance codes a header can announce; the last two mean nothing. */
  const DIST_CODES := 32

  ghost function PlainMatch(dist: seq<nat>, sym: nat, stream: nat, left: nat, out: seq<Byte>): (r: Out)
    requires 257 <= sym < 286 && |dist| <= DIST_CODES
    ensures r.Fine? ==> r.left <= left
  {
    var e := CPLEXT[sym - 257];
    if e > left then Cut
    else
      var n, s1, left1 := CPLENS[sym - 257] + Low(stream, e), Shr(stream, e), left - e;
      match SymbolOf(dist, s1)
      case None => Ill
      case Some(d) =>
        if dist[d] > left1 then Cut
        else if d >= |CPDIST| then Ill
        else PlainCopy(d, n, Shr(s1, dist[d]), left1 - dist[d], out)
  }

  ghost function PlainCodes(lit: seq<nat>, dist: seq<nat>, stream: nat, left: nat, out: seq<Byte>): (r: Out)
    requires |dist| <= DIST_CODES
    ensures r.Fine? ==> r.left <= left
    decreases left
  {
    match SymbolOf(lit, stream)
    case None => Ill
    case Some(sym) =>
      if lit[sym] > left then Cut
      else
        var s1, left1 := Shr(stream, lit[sym]), left - lit[sym];
        if sym < 256 then PlainCodes(lit, dist, s1, left1, out + [sym])
        else if sym == 256 then Fine(s1, left1, out)
        else if sym >= 286 then Ill
        else
          var m := PlainMatch(dist, sym, s1, left1, out);
          if m.Fine? then PlainCodes(lit, dist, m.stream, m.left, m.out) else m
  }

  /** Section 3.2.7: the header of a block with its own codes, with 257 to 286 literal and length codes
      and 1 to 32 distance codes. */
  ghost function RfcHeader(stream: nat, left: nat): (r: RefLens)
    ensures r.GoodLens? ==> r.left <= left && 257 + Low(stream, 5) < |r.lens| <= 257 + Low(stream, 5) + DIST_CODES
  {
    if left < 14 then ShortLens
    else
      var nl, nd, nb := 257 + Low(stream, 5), 1 + Low(Shr(stream, 5), 5), 4 + Low(Shr(stream, 10), 4);
      if nl > 286 then BadLens
      else if left - 14 < 3 * nb then ShortLens
      else
        Split(Shr(stream, 10), 4);
        Split(Shr(stream, 5), 5);
        assert Pow2(4) == 16 && Pow2(5) == 32;
        var cl := RefClens(0, nb, Shr(stream, 14), Run(0, 19));
        if !Accepted(cl) then BadLens
        else RefLengths(cl, nl + nd, Shr(stream, 14 + 3 * nb), left - 14 - 3 * nb, [])
  }

  /** The header announces more distance codes than the code puts up with. */
  predicate Many(stream: nat, left: nat)
  {
    left >= 14 && 1 + Low(Shr(stream, 5), 5) > |CPDIST|
  }

  lemma {:induction false} HeaderSame(stream: nat, left: nat)
    ensures if Many(stream, left) then RefHeader(stream, left) == BadLens else RefHeader(stream, left) == RfcHeader(stream, left)
  {
    hide RefClens, RefLengths, Accepted, Low, Shr;
  }

  /** The code lengths of a block begin with code 16, which repeats the length before. */
  ghost predicate LeadingRepeat(stream: nat, left: nat)
  {
    RfcHeader(stream, left).GoodLens? &&
    (Split(Shr(stream, 10), 4);
     assert Pow2(4) == 16;
     var nb := 4 + Low(Shr(stream, 10), 4);
     SymbolOf(RefClens(0, nb, Shr(stream, 14), Run(0, 19)), Shr(stream, 14 + 3 * nb)) == Some(16))
  }

  /** A block with its own codes; with `rfc`, its code lengths must not begin with a repeat. */
  ghost function PlainDynamic(rfc: bool, stream: nat, left: nat, out: seq<Byte>): (r: Out)
    ensures r.Fine? ==> r.left <= left
  {
    match RfcHeader(stream, left)
    case BadLens => Ill
    case ShortLens => Cut
    case GoodLens(s, left1, lens) =>
      var nl := 257 + Low(stream, 5);
      if rfc && LeadingRepeat(stream, left) then Early
      else if !Accepted(lens[..nl]) || !Accepted(lens[nl..]) then Ill
      else PlainCodes(lens[..nl], lens[nl..], s, left1, out)
  }

  ghost function PlainBlock(rfc: bool, stream: nat, left: nat, out: seq<Byte>): (r: Out)
    ensures r.Fine? ==> r.left < left
  {
    if left < 3 then Cut
    else
      var t, s1 := Low(Shr(stream, 1), 2), Shr(stream, 3);
      if t == 0 then AsOut(RefStored(s1, left - 3, out))
      else if t == 1 then PlainCodes(FIXED_LIT, FIXED_DIST, s1, left - 3, out)
      else if t == 2 then PlainDynamic(rfc, s1, left - 3, out)
      else Ill
  }

  /** The whole stream: with `rfc` as RFC 1951 has it, else with repeats allowed everywhere. */
  ghost function PlainInflate(rfc: bool, stream: nat, left: nat, out: seq<Byte>): (r: Out)
    decreases left
  {
    var r := PlainBlock(rfc, stream, left, out);
    if r.Fine? && Low(stream, 1) == 0 then PlainInflate(rfc, r.stream, r.left, r.out) else r
  }

  ghost predicate ManyBlock(stream: nat, left: nat)
  {
    left >= 3 && Low(Shr(stream, 1), 2) == 2 && Many(Shr(stream, 3), left - 3)
  }

  /** Some block that is read announces more than 30 distance codes. */
  ghost predicate ManyCodes(rfc: bool, stream: nat, left: nat, out: seq<Byte>)
    decreases left
  {
    ManyBlock(stream, left) ||
    (var r := PlainBlock(rfc, stream, left, out);
     r.Fine? && Low(stream, 1) == 0 && ManyCodes(rfc, r.stream, r.left, r.out))
  }

  /** What the decompressor makes of a stream that the decoder here gives meaning to, or refuses,
      with window `W` in front of its output. */
  ghost predicate Agree(p: Out, r: Ref, W: seq<Byte>)
  {
    match p
    case Ill => r == Bad
    case Cut => r == Short
    case Early => true
    case Fine(stream, left, out) => r == Good(stream, left, W + out)
  }

  lemma {:induction false} CopyShift(W: seq<Byte>, out: seq<Byte>, n: nat, dist: nat)
    requires 1 <= dist <= |out|
    ensures CopyBack(W + out, n, dist) == W + CopyBack(out, n, dist)
    decreases n
  {
    if n > 0 {
      var c := out[|out| - dist];
      assert (W + out)[|W + out| - dist] == c && (W + out) + [c] == W + (out + [c]);
      CopyShift(W, out + [c], n - 1, dist);
    }
  }

  lemma {:induction false} CodeTables()
    ensures |CPLENS| == |CPLEXT| == 31 && |CPDIST| == |CPDEXT| == 30 && forall i :: 0 <= i < 29 ==> CPLENS[i] >= 3
  {
  }

  lemma {:induction false} CopyAgrees(d: nat, n: nat, stream: nat, left: nat, W: seq<Byte>, out: seq<Byte>)
    requires d < |CPDIST| && WSIZE <= |W|
    ensures Agree(PlainCopy(d, n, stream, left, out), RefCopy(d, n, stream, left, W + out), W)
  {
    hide CopyBack, Low, Shr, CPDIST, CPDEXT;
    CodeTables();
    var f := CPDEXT[d];
    if f <= left {
      Split(stream, f);
      DistanceInWindow(d, Low(stream, f));
      if CPDIST[d] + Low(stream, f) <= |out| {
        CopyShift(W, out, n, CPDIST[d] + Low(stream, f));
      }
    }
  }

  lemma {:induction false} MatchAgrees(dist: seq<nat>, sym: nat, stream: nat, left: nat, W: seq<Byte>, out: seq<Byte>)
    requires 257 <= sym < 286 && |dist| <= |CPDIST| && WSIZE <= |W|
    ensures Agree(PlainMatch(dist, sym, stream, left, out), RefMatch(dist, sym, stream, left, W + out), W)
  {
    hide PlainCopy, RefCopy, Low, Shr, SymbolOf, CPLENS, CPLEXT, CPDIST, CPDEXT;
    CodeTables();
    var e := CPLEXT[sym - 257];
    if e <= left {
      var n, s1, left1 := CPLENS[sym - 257] + Low(stream, e), Shr(stream, e), left - e;
      var d := SymbolOf(dist, s1);
      if d.Some? && dist[d.value] <= left1 {
        CopyAgrees(d.value, n, Shr(s1, dist[d.value]), left1 - dist[d.value], W, out);
      }
    }
  }

  lemma {:induction false} CodesAgree(lit: seq<nat>, dist: seq<nat>, stream: nat, left: nat, W: seq<Byte>, out: seq<Byte>)
    requires |dist| <= |CPDIST| && WSIZE <= |W|
    ensures Agree(PlainCodes(lit, dist, stream, left, out), RefCodes(lit, dist, stream, left, W + out), W)
    decreases left
  {
    hide PlainMatch, RefMatch, Shr;
    var o := SymbolOf(lit, stream);
    if o.Some? && lit[o.value] <= left {
      var sym := o.value;
      var s1, left1 := Shr(stream, lit[sym]), left - lit[sym];
      if sym < 256 {
        assert (W + out) + [sym] == W + (out + [sym]);
        CodesAgree(lit, dist, s1, left1, W, out + [sym]);
      } else if 256 < sym < 286 {
        MatchAgrees(dist, sym, s1, left1, W, out);
        var m := PlainMatch(dist, sym, s1, left1, out);
        if m.Fine? {
          CodesAgree(lit, dist, m.stream, m.left, W, m.out);
        }
      }
    }
  }

  lemma {:induction false} BytesAgree(n: nat, stream: nat, left: nat, W: seq<Byte>, out: seq<Byte>)
    ensures Agree(AsOut(RefBytes(n, stream, left, out)), RefBytes(n, stream, left, W + out), W)
    decreases n
  {
    if n > 0 && left >= 8 {
      Split(stream, 8);
      assert Pow2(8) == 256;
      hide Low, Shr;
      assert (W + out) + [Low(stream, 8)] == W + (out + [Low(stream, 8)]);
      BytesAgree(n - 1, Shr(stream, 8), left - 8, W, out + [Low(stream, 8)]);
    }
  }

  lemma {:induction false} BlockAgrees(rfc: bool, stream: nat, left: nat, W: seq<Byte>, out: seq<Byte>)
    requires WSIZE <= |W|
    ensures if ManyBlock(stream, left) then RefBlock(stream, left, W + out) == Bad
            else Agree(PlainBlock(rfc, stream, left, out), RefBlock(stream, left, W + out), W)
  {
    hide PlainCodes, RefCodes, RefHeader, RfcHeader, Many, RefBytes, Low, Shr, Accepted, FIXED_LIT, FIXED_DIST, LeadingRepeat;
    if left >= 3 {
      var t, s1 := Low(Shr(stream, 1), 2), Shr(stream, 3);
      if t == 0 {
        var s2, left2 := Shr(s1, (left - 3) % 8), left - 3 - (left - 3) % 8;
        if left2 >= 32 {
          BytesAgree(Low(s2, 16), Shr(s2, 32), left2 - 32, W, out);
        }
      } else if t == 1 {
        FixedCodes();
        CodesAgree(FIXED_LIT, FIXED_DIST, s1, left - 3, W, out);
      } else if t == 2 {
        HeaderSame(s1, left - 3);
        var h := RefHeader(s1, left - 3);
        if h.GoodLens? {
          var nl := 257 + Low(s1, 5);
          CodesAgree(h.lens[..nl], h.lens[nl..], h.stream, h.left, W, out);
        }
      }
    }
  }

  lemma {:induction false} FixedCodes()
    ensures |FIXED_DIST| <= |CPDIST|
  {
  }

  /** For every stream and whatever the window held before: a block with more than 30 distance codes is
      refused; without one, what this decoder gives meaning to is decoded to exactly that, and what it
      refuses for any other reason than `Early` is refused. */
  lemma {:induction false} InflateAgrees(rfc: bool, stream: nat, left: nat, W: seq<Byte>, out: seq<Byte>)
    requires WSIZE <= |W|
    ensures if ManyCodes(rfc, stream, left, out) then RefInflate(stream, left, W + out) == Bad
            else Agree(PlainInflate(rfc, stream, left, out), RefInflate(stream, left, W + out), W)
    decreases left
  {
    hide PlainBlock, RefBlock, Low, ManyBlock;
    BlockAgrees(rfc, stream, left, W, out);
    var r := PlainBlock(rfc, stream, left, out);
    if !ManyBlock(stream, left) && r.Fine? && Low(stream, 1) == 0 {
      InflateAgrees(rfc, r.stream, r.left, W, r.out);
    }
  }

  /** A stream with a meaning is given that meaning exactly if no block of it announces more than 30
      distance codes. */
  lemma {:induction false} MeaningIff(stream: nat, left: nat, W: seq<Byte>)
    requires WSIZE <= |W| && PlainInflate(true, stream, left, []).Fine?
    ensures var p := PlainInflate(true, stream, left, []);
      RefInflate(stream, left, W) == Good(p.stream, p.left, W + p.out) <==> !ManyCodes(true, stream, left, [])
  {
    hide PlainInflate, RefInflate, ManyCodes;
    InflateAgrees(true, stream, left, W, []);
    assert W + [] == W;
  }

  /** Decoding goes the same way and only ever appends, whatever the bytes so far. */
  ghost predicate Alike(r: Ref, r': Ref, h: seq<Byte>, h': seq<Byte>)
  {
    || (r == Bad && r' == Bad)
    || (r == Short && r' == Short)
    || (&& r.Good? && r'.Good? && r.stream == r'.stream && r.left == r'.left
        && |r.hist| == |r'.hist| && h <= r.hist && h' <= r'.hist)
  }

  lemma {:induction false} MatchAlike(dist: seq<nat>, sym: nat, stream: nat, left: nat, h: seq<Byte>, h': seq<Byte>)
    requires 257 <= sym < 286 && |dist| <= |CPDIST| && WSIZE <= |h| == |h'|
    ensures Alike(RefMatch(dist, sym, stream, left, h), RefMatch(dist, sym, stream, left, h'), h, h')
  {
    hide Low, Shr, CopyBack, SymbolOf, CPLENS, CPLEXT, CPDIST, CPDEXT;
    CodeTables();
    var e := CPLEXT[sym - 257];
    if e <= left {
      var n, s1, left1 := CPLENS[sym - 257] + Low(stream, e), Shr(stream, e), left - e;
      var d := SymbolOf(dist, s1);
      if d.Some? && dist[d.value] <= left1 {
        var s2, f := Shr(s1, dist[d.value]), CPDEXT[d.value];
        Split(s2, f);
        DistanceInWindow(d.value, Low(s2, f));
        CopyGrows(h, n, CPDIST[d.value] + Low(s2, f));
        CopyGrows(h', n, CPDIST[d.value] + Low(s2, f));
      }
    }
  }

  lemma {:induction false} CodesAlike(lit: seq<nat>, dist: seq<nat>, stream: nat, left: nat, h: seq<Byte>, h': seq<Byte>)
    requires |dist| <= |CPDIST| && WSIZE <= |h| == |h'|
    ensures Alike(RefCodes(lit, dist, stream, left, h), RefCodes(lit, dist, stream, left, h'), h, h')
    decreases left
  {
    hide RefMatch, Shr;
    var o := SymbolOf(lit, stream);
    if o.Some? && lit[o.value] <= left {
      var sym := o.value;
      var s1, left1 := Shr(stream, lit[sym]), left - lit[sym];
      if sym < 256 {
        CodesAlike(lit, dist, s1, left1, h + [sym], h' + [sym]);
      } else if 256 < sym < 286 {
        MatchAlike(dist, sym, s1, left1, h, h');
        var m, m' := RefMatch(dist, sym, s1, left1, h), RefMatch(dist, sym, s1, left1, h');
        if m.Good? {
          CodesAlike(lit, dist, m.stream, m.left, m.hist, m'.hist);
        }
      }
    }
  }

  lemma {:induction false} BytesAlike(n: nat, stream: nat, left: nat, h: seq<Byte>, h': seq<Byte>)
    requires |h| == |h'|
    ensures Alike(RefBytes(n, stream, left, h), RefBytes(n, stream, left, h'), h, h')
    decreases n
  {
    if n > 0 && left >= 8 {
      Split(stream, 8);
      assert Pow2(8) == 256;
      hide Low, Shr;
      BytesAlike(n - 1, Shr(stream, 8), left - 8, h + [Low(stream, 8)], h' + [Low(stream, 8)]);
    }
  }

  lemma {:induction false} BlockAlike(stream: nat, left: nat, h: seq<Byte>, h': seq<Byte>)
    requires WSIZE <= |h| == |h'|
    ensures Alike(RefBlock(stream, left, h), RefBlock(stream, left, h'), h, h')
  {
    hide RefCodes, RefHeader, RefBytes, Low, Shr, Accepted, FIXED_LIT, FIXED_DIST;
    if left >= 3 {
      var t, s1 := Low(Shr(stream, 1), 2), Shr(stream, 3);
      if t == 0 {
        var s2, left2 := Shr(s1, (left - 3) % 8), left - 3 - (left - 3) % 8;
        if left2 >= 32 {
          BytesAlike(Low(s2, 16), Shr(s2, 32), left2 - 32, h, h');
        }
      } else if t == 1 {
        FixedCodes();
        CodesAlike(FIXED_LIT, FIXED_DIST, s1, left - 3, h, h');
      } else if t == 2 {
        var r := RefHeader(s1, left - 3);
        if r.GoodLens? {
          var nl := 257 + Low(s1, 5);
          CodesAlike(r.lens[..nl], r.lens[nl..], r.stream, r.left, h, h');
        }
      }
    }
  }

  lemma {:induction false} InflateAlike(stream: nat, left: nat, h: seq<Byte>, h': seq<Byte>)
    requires WSIZE <= |h| == |h'|
    ensures Alike(RefInflate(stream, left, h), RefInflate(stream, left, h'), h, h')
    decreases left
  {
    hide RefBlock, Low;
    BlockAlike(stream, left, h, h');
    BlockShrinks(stream, left, h);
    var r, r' := RefBlock(stream, left, h), RefBlock(stream, left, h');
    if r.Good? && Low(stream, 1) == 0 {
      InflateAlike(r.stream, r.left, r.hist, r'.hist);
    }
  }

  /** The two histories differ somewhere behind the first `from` bytes. */
  ghost predicate Differ(r: Ref, r': Ref, from: nat)
  {
    r.Good? && r'.Good? && |r.hist| == |r'.hist| && exists i :: from <= i < |r.hist| && r.hist[i] != r'.hist[i]
  }

  lemma {:induction false} StillDiffer(m: Ref, m': Ref, r: Ref, r': Ref, from: nat)
    requires Differ(m, m', from) && Alike(r, r', m.hist, m'.hist) && r.Good?
    ensures Differ(r, r', from)
  {
    var i :| from <= i < |m.hist| && m.hist[i] != m'.hist[i];
    assert r.hist[i] == m.hist[i] && r'.hist[i] == m'.hist[i];
  }

  /** Two windows that have no byte in common. */
  ghost predicate Opposed(W: seq<Byte>, W': seq<Byte>)
  {
    WSIZE <= |W| == |W'| && forall i :: 0 <= i < |W| ==> W[i] != W'[i]
  }

  lemma {:induction false} FirstCopied(h: seq<Byte>, n: nat, k: nat)
    requires n > 0 && 1 <= k <= |h|
    ensures var r := CopyBack(h, n, k); |r| == |h| + n && r[|h|] == h[|h| - k]
  {
    CopyGrows(h + [h[|h| - k]], n - 1, k);
  }

  lemma {:induction false} CopyDiffers(n: nat, k: nat, W: seq<Byte>, W': seq<Byte>, out: seq<Byte>)
    requires Opposed(W, W') && n > 0 && |out| < k <= WSIZE
    ensures var h, h' := CopyBack(W + out, n, k), CopyBack(W' + out, n, k);
      |h| == |h'| > |W + out| && h[|W + out|] != h'[|W + out|]
  {
    FirstCopied(W + out, n, k);
    FirstCopied(W' + out, n, k);
    hide CopyBack;
    var at := |W + out| - k;
    assert (W + out)[at] == W[at] && (W' + out)[at] == W'[at];
  }

  lemma {:induction false} MatchDiffers(dist: seq<nat>, sym: nat, stream: nat, left: nat, W: seq<Byte>, W': seq<Byte>, out: seq<Byte>)
    requires 257 <= sym < 286 && |dist| <= |CPDIST| && Opposed(W, W')
    requires PlainMatch(dist, sym, stream, left, out) == Early
    ensures Differ(RefMatch(dist, sym, stream, left, W + out), RefMatch(dist, sym, stream, left, W' + out), |W|)
  {
    hide Low, Shr, CopyBack, SymbolOf, CPLENS, CPLEXT, CPDIST, CPDEXT;
    CodeTables();
    var e := CPLEXT[sym - 257];
    var n, s1 := CPLENS[sym - 257] + Low(stream, e), Shr(stream, e);
    var d := SymbolOf(dist, s1).value;
    var s2, f := Shr(s1, dist[d]), CPDEXT[d];
    Split(s2, f);
    DistanceInWindow(d, Low(s2, f));
    CopyDiffers(n, CPDIST[d] + Low(s2, f), W, W', out);
    var r, r' := RefMatch(dist, sym, stream, left, W + out), RefMatch(dist, sym, stream, left, W' + out);
    assert r.hist[|W + out|] != r'.hist[|W + out|];
  }

  lemma {:induction false} CodesDiffer(lit: seq<nat>, dist: seq<nat>, stream: nat, left: nat, W: seq<Byte>, W': seq<Byte>, out: seq<Byte>)
    requires |dist| <= |CPDIST| && Opposed(W, W') && PlainCodes(lit, dist, stream, left, out) == Early
    requires RefCodes(lit, dist, stream, left, W + out).Good?
    ensures Differ(RefCodes(lit, dist, stream, left, W + out), RefCodes(lit, dist, stream, left, W' + out), |W|)
    decreases left
  {
    hide PlainMatch, RefMatch, Shr, Differ;
    var sym := SymbolOf(lit, stream).value;
    var s1, left1 := Shr(stream, lit[sym]), left - lit[sym];
    if sym < 256 {
      assert (W + out) + [sym] == W + (out + [sym]) && (W' + out) + [sym] == W' + (out + [sym]);
      CodesDiffer(lit, dist, s1, left1, W, W', out + [sym]);
    } else {
      var p := PlainMatch(dist, sym, s1, left1, out);
      MatchAgrees(dist, sym, s1, left1, W, out);
      MatchAgrees(dist, sym, s1, left1, W', out);
      if p.Fine? {
        CodesDiffer(lit, dist, p.stream, p.left, W, W', p.out);
      } else {
        MatchDiffers(dist, sym, s1, left1, W, W', out);
        MatchAlike(dist, sym, s1, left1, W + out, W' + out);
        var m, m' := RefMatch(dist, sym, s1, left1, W + out), RefMatch(dist, sym, s1, left1, W' + out);
        CodesAlike(lit, dist, m.stream, m.left, m.hist, m'.hist);
        StillDiffer(m, m', RefCodes(lit, dist, m.stream, m.left, m.hist), RefCodes(lit, dist, m.stream, m.left, m'.hist), |W|);
      }
    }
  }

  lemma {:induction false} BlockDiffers(stream: nat, left: nat, W: seq<Byte>, W': seq<Byte>, out: seq<Byte>)
    requires Opposed(W, W') && PlainBlock(false, stream, left, out) == Early && RefBlock(stream, left, W + out).Good?
    ensures Differ(RefBlock(stream, left, W + out), RefBlock(stream, left, W' + out), |W|)
  {
    hide PlainCodes, RefCodes, RefHeader, RfcHeader, Many, RefStored, Low, Shr, Accepted, FIXED_LIT, FIXED_DIST, LeadingRepeat, Differ;
    var t, s1 := Low(Shr(stream, 1), 2), Shr(stream, 3);
    if t == 1 {
      FixedCodes();
      CodesDiffer(FIXED_LIT, FIXED_DIST, s1, left - 3, W, W', out);
    } else {
      HeaderSame(s1, left - 3);
      var h := RefHeader(s1, left - 3);
      var nl := 257 + Low(s1, 5);
      CodesDiffer(h.lens[..nl], h.lens[nl..], h.stream, h.left, W, W', out);
    }
  }

  lemma {:induction false} InflateDiffers(stream: nat, left: nat, W: seq<Byte>, W': seq<Byte>, out: seq<Byte>)
    requires Opposed(W, W') && PlainInflate(false, stream, left, out) == Early && RefInflate(stream, left, W + out).Good?
    ensures Differ(RefInflate(stream, left, W + out), RefInflate(stream, left, W' + out), |W|)
    decreases left
  {
    hide PlainBlock, RefBlock, Low, Differ, ManyBlock;
    BlockAgrees(false, stream, left, W, out);
    BlockAgrees(false, stream, left, W', out);
    BlockShrinks(stream, left, W + out);
    var p := PlainBlock(false, stream, left, out);
    if p.Fine? {
      InflateDiffers(p.stream, p.left, W, W', p.out);
    } else {
      BlockDiffers(stream, left, W, W', out);
      BlockAlike(stream, left, W + out, W' + out);
      var m, m' := RefBlock(stream, left, W + out), RefBlock(stream, left, W' + out);
      if Low(stream, 1) == 0 {
        InflateAlike(m.stream, m.left, m.hist, m'.hist);
        StillDiffer(m, m', RefInflate(m.stream, m.left, m.hist), RefInflate(m.stream, m.left, m'.hist), |W|);
      }
    }
  }

  /** What a successful decompression writes does not depend on what the window held before, exactly
      if no match reaches before the beginning of the output. */
  lemma {:induction false} WindowFreeIff(stream: nat, left: nat, W: seq<Byte>)
    requires |W| == WSIZE && RefInflate(stream, left, W).Good?
    ensures (forall V: seq<Byte> :: |V| == WSIZE ==>
               RefInflate(stream, left, V).Good? && SameOutput(RefInflate(stream, left, V), RefInflate(stream, left, W))) <==>
            PlainInflate(false, stream, left, []) != Early
  {
    hide RefInflate, PlainInflate, ManyCodes;
    InflateAgrees(false, stream, left, W, []);
    assert W + [] == W;
    if PlainInflate(false, stream, left, []) == Early {
      var V, V' := Zeros(), Ones();
      InflateAlike(stream, left, V, W);
      assert V + [] == V && V' + [] == V';
      InflateDiffers(stream, left, V, V', []);
      DifferNotSame(RefInflate(stream, left, V), RefInflate(stream, left, V'));
    } else {
      forall V: seq<Byte> | |V| == WSIZE
        ensures RefInflate(stream, left, V).Good? && SameOutput(RefInflate(stream, left, V), RefInflate(stream, left, W))
      {
        InflateAgrees(false, stream, left, V, []);
        assert V + [] == V;
      }
    }
  }

  /** Behind the window the two histories are the same. */
  ghost predicate SameOutput(r: Ref, r': Ref)
    requires r.Good? && r'.Good?
  {
    WSIZE <= |r.hist| && WSIZE <= |r'.hist| && r.hist[WSIZE..] == r'.hist[WSIZE..]
  }

  lemma {:induction false} DifferNotSame(r: Ref, r': Ref)
    requires Differ(r, r', WSIZE)
    ensures !SameOutput(r, r')
  {
    var i :| WSIZE <= i < |r.hist| && r.hist[i] != r'.hist[i];
    if WSIZE <= |r.hist| {
      assert r.hist[WSIZE..][i - WSIZE] != r'.hist[WSIZE..][i - WSIZE];
    }
  }

  ghost function Zeros(): (W: seq<Byte>)
    ensures |W| == WSIZE && forall i :: 0 <= i < WSIZE ==> W[i] == 0
  {
    seq(WSIZE, _ => 0)
  }

  ghost function Ones(): (W: seq<Byte>)
    ensures |W| == WSIZE && forall i :: 0 <= i < WSIZE ==> W[i] == 1
  {
    seq(WSIZE, _ => 1)
  }
}
