/**
 When the decompressor of `lib/inflate.c` runs out of input. It asks for all the bits that index a table before
 it looks a code up, which may be more than the code has. A scan of the stream that produces no output tells
 whether some request exceeds what is left.
 */
module LookAhead {
  import opened Common
  import opened Bits
  import opened Huffman
  import opened HuftState
  import opened HuftBuild
  import opened Deflate

  /** What a scan comes to: a request for more bits than there are, an error, or what is left behind. */
  datatype Scan = Dry | Refused | Read(stream: nat, left: nat)

  datatype ScanLens = DryLens | RefusedLens | ReadLens(stream: nat, left: nat, lens: seq<nat>)

  /** The rest of a match. The table for the distance lengths `dist` was made for `md` bits. */
  ghost function ScanMatch(dist: seq<nat>, md: nat, sym: nat, stream: nat, left: nat): (r: Scan)
    requires 257 <= sym < 286 && |dist| <= |CPDIST|
    ensures r.Read? ==> r.left <= left
  {
    var e := CPLEXT[sym - 257];
    if e > left then Dry
    else
      var s1, left1 := Shr(stream, e), left - e;
      if Asked(dist, md, s1) > left1 then Dry
      else
        match SymbolOf(dist, s1)
        case None => Refused
        case Some(d) =>
          if dist[d] + CPDEXT[d] > left1 then Dry
          else Read(Shr(Shr(s1, dist[d]), CPDEXT[d]), left1 - dist[d] - CPDEXT[d])
  }

  /** Literals and matches until the end-of-block code. */
  ghost function ScanCodes(lit: seq<nat>, ml: nat, dist: seq<nat>, md: nat, stream: nat, left: nat): (r: Scan)
    requires |dist| <= |CPDIST|
    ensures r.Read? ==> r.left <= left
    decreases left
  {
    if Asked(lit, ml, stream) > left then Dry
    else
      match SymbolOf(lit, stream)
      case None => Refused
      case Some(sym) =>
        if lit[sym] > left then Dry
        else
          var s1, left1 := Shr(stream, lit[sym]), left - lit[sym];
          if sym < 256 then ScanCodes(lit, ml, dist, md, s1, left1)
          else if sym == 256 then Read(s1, left1)
          else if sym >= 286 then Refused
          else
            var m := ScanMatch(dist, md, sym, s1, left1);
            if m.Read? then ScanCodes(lit, ml, dist, md, m.stream, m.left) else m
  }

  /** One code of `ScanCodes`. */
  lemma ScanStep(lit: seq<nat>, ml: nat, dist: seq<nat>, md: nat, stream: nat, left: nat)
    requires |dist| <= |CPDIST|
    ensures var sym, r := SymbolOf(lit, stream), ScanCodes(lit, ml, dist, md, stream, left);
      if Asked(lit, ml, stream) > left then r == Dry
      else if sym.None? then r == Refused
      else if lit[sym.value] > left then r == Dry
      else
        var s1, left1 := Shr(stream, lit[sym.value]), left - lit[sym.value];
        if sym.value < 256 then r == ScanCodes(lit, ml, dist, md, s1, left1)
        else if sym.value == 256 then r == Read(s1, left1)
        else if sym.value >= 286 then r == Refused
        else
          var m := ScanMatch(dist, md, sym.value, s1, left1);
          r == if m.Read? then ScanCodes(lit, ml, dist, md, m.stream, m.left) else m
  {
    hide ScanMatch, Shr, Asked;
  }

  function ScanBytes(n: nat, stream: nat, left: nat): (r: Scan)
    ensures r.Read? ==> r.left <= left
    decreases n
  {
    if n == 0 then Read(stream, left) else if left < 8 then Dry else ScanBytes(n - 1, Shr(stream, 8), left - 8)
  }

  function ScanStored(stream: nat, left: nat): (r: Scan)
    ensures r.Read? ==> r.left <= left
  {
    var s1, left1 := Shr(stream, left % 8), left - left % 8;
    if left1 < 32 then Dry
    else if Low(s1, 16) + Low(Shr(s1, 16), 16) != 0xffff then Refused
    else ScanBytes(Low(s1, 16), Shr(s1, 32), left1 - 32)
  }

  /** The code lengths of a header; the table for their code was made for 7 bits. */
  ghost function ScanLengths(cl: seq<nat>, n: nat, stream: nat, left: nat, lens: seq<nat>): (r: ScanLens)
    requires |cl| == 19 && |lens| <= n && forall i :: 0 <= i < |lens| ==> lens[i] <= 15
    ensures r.ReadLens? ==> r.left <= left && |r.lens| == n
    decreases left
  {
    if |lens| == n then ReadLens(stream, left, lens)
    else if Asked(cl, 7, stream) > left then DryLens
    else
      match SymbolOf(cl, stream)
      case None => RefusedLens
      case Some(sym) =>
        if cl[sym] > left then DryLens
        else
          var s1, left1 := Shr(stream, cl[sym]), left - cl[sym];
          if sym < 16 then ScanLengths(cl, n, s1, left1, lens + [sym])
          else
            var x := if sym == 16 then 2 else if sym == 17 then 3 else 7;
            if x > left1 then DryLens
            else
              var rep := (if sym == 18 then 11 else 3) + Low(s1, x);
              if |lens| + rep > n then RefusedLens
              else ScanLengths(cl, n, Shr(s1, x), left1 - x, lens + Run(if sym == 16 then LastLen(lens) else 0, rep))
  }

  ghost function ScanHeader(stream: nat, left: nat): (r: ScanLens)
    ensures r.ReadLens? ==> r.left <= left && 257 + Low(stream, 5) < |r.lens| <= 257 + Low(stream, 5) + 30
  {
    if left < 14 then DryLens
    else
      var nl, nd, nb := 257 + Low(stream, 5), 1 + Low(Shr(stream, 5), 5), 4 + Low(Shr(stream, 10), 4);
      if nl > 286 || nd > 30 then RefusedLens
      else if left - 14 < 3 * nb then DryLens
      else
        Split(Shr(stream, 10), 4);
        assert Pow2(4) == 16;
        var cl := RefClens(0, nb, Shr(stream, 14), Run(0, 19));
        if !Accepted(cl) then RefusedLens
        else ScanLengths(cl, nl + nd, Shr(stream, 14 + 3 * nb), left - 14 - 3 * nb, [])
  }

  /** A block with its own codes, whose tables are made for 9 and 6 bits. */
  ghost function ScanDynamic(stream: nat, left: nat): (r: Scan)
    ensures r.Read? ==> r.left <= left
  {
    match ScanHeader(stream, left)
    case RefusedLens => Refused
    case DryLens => Dry
    case ReadLens(s, left1, lens) =>
      var nl := 257 + Low(stream, 5);
      if !Accepted(lens[..nl]) || !Accepted(lens[nl..]) then Refused
      else ScanCodes(lens[..nl], 9, lens[nl..], 6, s, left1)
  }

  ghost function ScanBlock(stream: nat, left: nat): (r: Scan)
    ensures r.Read? ==> r.left < left
  {
    if left < 3 then Dry
    else
      var t, s1 := Low(Shr(stream, 1), 2), Shr(stream, 3);
      if t == 0 then ScanStored(s1, left - 3)
      else if t == 1 then ScanCodes(FIXED_LIT, 7, FIXED_DIST, 5, s1, left - 3)
      else if t == 2 then ScanDynamic(s1, left - 3)
      else Refused
  }

  /** The whole stream: blocks up to and including one marked as last. */
  ghost function ScanInflate(stream: nat, left: nat): Scan
    decreases left
  {
    var r := ScanBlock(stream, left);
    if r.Read? && Low(stream, 1) == 0 then ScanInflate(r.stream, r.left) else r
  }

  /** A scan of code lengths that does not run dry reads what the decoder reads. */
  lemma {:induction false} LengthsScanned(cl: seq<nat>, n: nat, stream: nat, left: nat, lens: seq<nat>)
    requires |cl| == 19 && |lens| <= n && forall i :: 0 <= i < |lens| ==> lens[i] <= 15
    ensures var r, p := RefLengths(cl, n, stream, left, lens), ScanLengths(cl, n, stream, left, lens);
      p == DryLens || (r.GoodLens? && p == ReadLens(r.stream, r.left, r.lens)) || (r.BadLens? && p == RefusedLens)
    decreases left
  {
    hide Asked, Shr, Low, Run;
    var o := SymbolOf(cl, stream);
    if |lens| < n && o.Some? && cl[o.value] <= left {
      var s1, left1 := Shr(stream, cl[o.value]), left - cl[o.value];
      if o.value < 16 {
        LengthsScanned(cl, n, s1, left1, lens + [o.value]);
      } else {
        var x := if o.value == 16 then 2 else if o.value == 17 then 3 else 7;
        var rep := (if o.value == 18 then 11 else 3) + Low(s1, x);
        if x <= left1 && |lens| + rep <= n {
          var more := Run(if o.value == 16 then LastLen(lens) else 0, rep);
          RunIsShort(if o.value == 16 then LastLen(lens) else 0, rep);
          LengthsScanned(cl, n, Shr(s1, x), left1 - x, lens + more);
        }
      }
    }
  }

  lemma RunIsShort(L: nat, n: nat)
    requires L <= 15
    ensures |Run(L, n)| == n && forall i :: 0 <= i < n ==> Run(L, n)[i] <= 15
  {
  }

  lemma HeaderScanned(stream: nat, left: nat)
    ensures var r, p := RefHeader(stream, left), ScanHeader(stream, left);
      p == DryLens || (r.GoodLens? && p == ReadLens(r.stream, r.left, r.lens)) || (r.BadLens? && p == RefusedLens)
  {
    hide RefLengths, ScanLengths, Accepted, RefClens, Low, Shr;
    var nl, nd, nb := 257 + Low(stream, 5), 1 + Low(Shr(stream, 5), 5), 4 + Low(Shr(stream, 10), 4);
    if left >= 14 && nl <= 286 && nd <= 30 && left - 14 >= 3 * nb {
      NibbleIs(Shr(stream, 10));
      var cl := RefClens(0, nb, Shr(stream, 14), Run(0, 19));
      LengthsScanned(cl, nl + nd, Shr(stream, 14 + 3 * nb), left - 14 - 3 * nb, []);
    }
  }

  lemma NibbleIs(s: nat)
    ensures Low(s, 4) < 16
  {
    Split(s, 4);
    assert Pow2(4) == 16;
  }

  /** A scan runs dry, or ends as the decoder does. */
  ghost predicate Same(p: Scan, r: Ref)
  {
    p == Dry || (r.Good? && p == Read(r.stream, r.left)) || (r.Bad? && p == Refused)
  }

  lemma MatchScanned(dist: seq<nat>, md: nat, sym: nat, stream: nat, left: nat, hist: seq<Byte>)
    requires 257 <= sym < 286 && |dist| <= |CPDIST| && WSIZE <= |hist|
    ensures Same(ScanMatch(dist, md, sym, stream, left), RefMatch(dist, sym, stream, left, hist))
  {
    hide Asked, Shr, Low, CopyBack;
  }

  lemma {:induction false} CodesScanned(lit: seq<nat>, ml: nat, dist: seq<nat>, md: nat, stream: nat, left: nat, hist: seq<Byte>)
    requires |dist| <= |CPDIST| && WSIZE <= |hist|
    ensures Same(ScanCodes(lit, ml, dist, md, stream, left), RefCodes(lit, dist, stream, left, hist))
    decreases left
  {
    hide RefCodes, ScanCodes, RefMatch, ScanMatch, Asked, Shr;
    CodesStep(lit, dist, stream, left, hist);
    ScanStep(lit, ml, dist, md, stream, left);
    var o := SymbolOf(lit, stream);
    if o.Some? && lit[o.value] <= left {
      var sym, s1, left1 := o.value, Shr(stream, lit[o.value]), left - lit[o.value];
      if sym < 256 {
        CodesScanned(lit, ml, dist, md, s1, left1, hist + [sym]);
      } else if 256 < sym < 286 {
        MatchScanned(dist, md, sym, s1, left1, hist);
        var m := RefMatch(dist, sym, s1, left1, hist);
        if m.Good? {
          CodesScanned(lit, ml, dist, md, m.stream, m.left, m.hist);
        }
      }
    }
  }

  lemma {:induction false} BytesScanned(n: nat, stream: nat, left: nat, hist: seq<Byte>)
    ensures Same(ScanBytes(n, stream, left), RefBytes(n, stream, left, hist))
    decreases n
  {
    if n > 0 && left >= 8 {
      OctetIs(stream);
      BytesScanned(n - 1, Shr(stream, 8), left - 8, hist + [Low(stream, 8)]);
    }
  }

  lemma OctetIs(s: nat)
    ensures Low(s, 8) < 256
  {
    Split(s, 8);
    assert Pow2(8) == 256;
  }

  lemma BlockScanned(stream: nat, left: nat, hist: seq<Byte>)
    requires WSIZE <= |hist|
    ensures Same(ScanBlock(stream, left), RefBlock(stream, left, hist))
  {
    hide RefCodes, ScanCodes, RefHeader, ScanHeader, RefBytes, ScanBytes, Shr, Low, Accepted, FIXED_LIT, FIXED_DIST;
    if left >= 3 {
      var s1, left1 := Shr(stream, 3), left - 3;
      FixedFits();
      CodesScanned(FIXED_LIT, 7, FIXED_DIST, 5, s1, left1, hist);
      var s2, left2 := Shr(s1, left1 % 8), left1 - left1 % 8;
      if left2 >= 32 {
        BytesScanned(Low(s2, 16), Shr(s2, 32), left2 - 32, hist);
      }
      HeaderScanned(s1, left1);
      var h, nl := RefHeader(s1, left1), 257 + Low(s1, 5);
      if h.GoodLens? {
        CodesScanned(h.lens[..nl], 9, h.lens[nl..], 6, h.stream, h.left, hist);
      }
    }
  }

  lemma FixedFits()
    ensures |FIXED_DIST| <= |CPDIST|
  {
  }

  /** The scan is the decoder of the format, but for the bits it asks for ahead: where it does not run dry, it
      accepts, refuses and leaves behind the same. */
  lemma {:induction false} InflateScanned(stream: nat, left: nat, hist: seq<Byte>)
    requires WSIZE <= |hist|
    ensures Same(ScanInflate(stream, left), RefInflate(stream, left, hist))
    decreases left
  {
    hide ScanBlock, RefBlock, Low;
    BlockScanned(stream, left, hist);
    BlockShrinks(stream, left, hist);
    var r := RefBlock(stream, left, hist);
    if r.Good? && Low(stream, 1) == 0 {
      InflateScanned(r.stream, r.left, r.hist);
    }
  }

  /** A lookup asks for at least the bits that index the first table. */
  lemma AskedAtLeast(b: seq<nat>, m: nat, l: nat, stream: nat)
    requires Width(b, m, l)
    ensures Asked(b, m, stream) >= l
  {
    hide TableBits;
    if !NoCodes(b) {
      var j, g :| IsRange(CountsOf(b), j, g) && l == LookupBits(m, j, g);
      AskedIs(b, m, j, g, stream);
      var sym := SymbolOf(b, stream);
      if sym.Some? && 1 <= l && 1 <= b[sym.value] <= g && LastLevel(b[sym.value], l) > 0 {
        LastLevelStep(b[sym.value], l);
      }
    } else {
      OneWidth(b, m, l, 0);
    }
  }

  /** A block with its own codes, sound as far as its header goes, with fewer bits behind the header than
      index the first table. */
  lemma FirstLookupDry(stream: nat, left: nat, l: nat)
    requires RefHeader(stream, left).GoodLens?
    requires var h, nl := RefHeader(stream, left), 257 + Low(stream, 5);
      Accepted(h.lens[..nl]) && Accepted(h.lens[nl..]) && Width(h.lens[..nl], 9, l) && h.left < l
    ensures ScanDynamic(stream, left) == Dry
  {
    hide RefHeader, ScanHeader, Accepted, Asked, Width;
    HeaderScanned(stream, left);
    var h, nl := RefHeader(stream, left), 257 + Low(stream, 5);
    AskedAtLeast(h.lens[..nl], 9, l, h.stream);
  }

  lemma LastLevelStep(L: nat, l: nat)
    requires 1 <= l && 1 <= L && LastLevel(L, l) > 0
    ensures LastLevel(L, l) >= l
  {
  }
}
