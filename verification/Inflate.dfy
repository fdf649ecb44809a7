/**
 The decompressor of `lib/inflate.c`: bit buffer, 32K ring window and block decoding.
 */
module Inflate {
  import opened Common
  import opened Bits
  import opened Huffman
  import opened HuftTables
  import opened HuftBuild
  import opened Deflate
  import opened DeflateSyntax
  import opened Rfc1951
  import opened LookAhead

  /** Return code of the C routine, or why it has none: `get_byte` had nothing left, or
      memory that was never stored to (or a null table) was read. */
  datatype Status = Ok | Error(code: nat) | OutOfInput | Undefined

  /** The last index of `mask_bits`: nobody asks for more bits at once, so the buffer, which
      grows a byte at a time, fits in 32 bits. */
  const MAX_BITS := 16

  /** Bytes as a number, first byte lowest. */
  function LittleEndian(s: seq<Byte>): nat
  {
    if |s| == 0 then 0 else s[0] + Shl(LittleEndian(s[1..]), 8)
  }

  /** The ring `slide`, about to be written at `w`, holds the last `WSIZE` bytes of `hist`. */
  ghost predicate Window(slide: seq<Byte>, w: nat, hist: seq<Byte>)
  {
    && |slide| == WSIZE <= |hist| && w <= WSIZE
    && forall i :: 0 <= i < WSIZE ==> slide[i] == hist[if i < w then |hist| - w + i else |hist| - WSIZE + i - w]
  }

  lemma WindowPut(slide: seq<Byte>, w: nat, hist: seq<Byte>, c: Byte)
    requires Window(slide, w, hist) && w < WSIZE
    ensures Window(slide[w := c], w + 1, hist + [c])
  {
  }

  /** The end of a method, as the scan has it. */
  ghost function ScanOf(st: Status, stream: nat, left: nat): Scan
  {
    match st
    case Ok => Read(stream, left)
    case OutOfInput => Dry
    case Error(_) => Refused
    case Undefined => Refused
  }

  ghost function LensOf(st: Status, stream: nat, left: nat, lens: seq<nat>): ScanLens
  {
    match st
    case Ok => ReadLens(stream, left, lens)
    case OutOfInput => DryLens
    case Error(_) => RefusedLens
    case Undefined => RefusedLens
  }

  /** Tables for the lengths `b` that ask for what those prescribe. */
  ghost predicate Ready(b: seq<nat>, m: nat, s: nat, d: seq<nat>, e: seq<nat>, tabs: Tables, l: nat)
  {
    Tabled(b, s, d, e, tabs, l) && Asking(b, m, tabs, l)
  }

  lemma ReadyAsks(b: seq<nat>, m: nat, s: nat, d: seq<nat>, e: seq<nat>, tabs: Tables, l: nat, stream: nat)
    requires Ready(b, m, s, d, e, tabs, l)
    ensures Tabled(b, s, d, e, tabs, l) && Asks(tabs, 0, l, stream, 0) == Asked(b, m, stream)
  {
  }

  class Inflater {
    const input: seq<Byte>
    var inptr: nat
    var bb: nat            // bit buffer
    var bk: nat            // bits in bit buffer
    const slide: array<Byte>
    var wp: nat            // position in the window
    var written: seq<Byte> // what flush_window wrote
    ghost var hist: seq<Byte>

    /** A fresh decompressor; the window holds whatever its memory held. */
    constructor (data: seq<Byte>)
      ensures Valid() && input == data && inptr == 0 && bk == 0 && wp == 0 && written == [] && fresh(slide)
    {
      input := data;
      inptr, bb, bk, wp, written := 0, 0, 0, 0, [];
      slide := new Byte[WSIZE];
      new;
      hist := slide[..];
    }

    ghost predicate ReaderOk()
      reads this
    {
      inptr <= |input| && bb < Pow2(bk) && bk <= 8 * inptr && bk < MAX_BITS + 8
    }

    ghost predicate WindowOk()
      reads this, slide
    {
      && Window(slide[..], wp, hist)
      && |hist| == WSIZE + |written| + wp && hist[WSIZE..|hist| - wp] == written
    }

    ghost predicate Valid()
      reads this, slide
    {
      ReaderOk() && WindowOk() && wp < WSIZE
    }

    /** The bits not yet used: those in the buffer, then the unread bytes. */
    ghost function Stream(): nat
      requires inptr <= |input|
      reads this
    {
      bb + Shl(LittleEndian(input[inptr..]), bk)
    }

    ghost function Left(): nat
      requires inptr <= |input|
      reads this
    {
      bk + 8 * (|input| - inptr)
    }

    /** The input is used up, but for less than a look ahead. */
    ghost predicate Starved()
      reads this
    {
      inptr == |input| && bk < LOOKAHEAD
    }

    /** `NEEDBITS`: fetch bytes until the buffer has `n` bits. */
    method NeedBits(n: nat) returns (ok: bool)
      requires ReaderOk() && n <= MAX_BITS
      modifies this`inptr, this`bb, this`bk
      ensures ReaderOk() && Stream() == old(Stream()) && Left() == old(Left())
      ensures (ok <==> n <= old(Left())) && (ok ==> n <= bk)
      ensures !ok ==> inptr == |input| && bk < n
    {
      hide Shl;
      while bk < n
        invariant ReaderOk() && Stream() == old(Stream()) && Left() == old(Left())
        decreases n - bk
      {
        if inptr == |input| {
          return false;
        }
        var c := input[inptr];
        assert input[inptr..][1..] == input[inptr + 1..];
        ghost var rest := LittleEndian(input[inptr + 1..]);
        ShlAdd(c, Shl(rest, 8), bk);
        ShlShl(rest, 8, bk);
        ByteFits(bb, c, bk);
        bb, bk, inptr := bb + Shl(c, bk), bk + 8, inptr + 1;
      }
      ok := true;
    }

    /** `DUMPBITS`: drop `n` bits of the buffer. */
    method DumpBits(n: nat)
      requires ReaderOk() && n <= bk
      modifies this`bb, this`bk
      ensures ReaderOk() && Stream() == Shr(old(Stream()), n) && Left() == old(Left()) - n
    {
      hide Shl, Shr, LittleEndian;
      AboveUnseen(bb, LittleEndian(input[inptr..]), bk, n);
      ShrFits(bb, bk, n);
      bb, bk := Shr(bb, n), bk - n;
    }

    /** The low `n` bits of the buffer are the next `n` bits of the stream. */
    lemma Peek(n: nat)
      requires ReaderOk() && n <= bk
      ensures Low(bb, n) == Low(Stream(), n)
    {
      hide Shl, LittleEndian;
      AboveUnseen(bb, LittleEndian(input[inptr..]), bk, n);
    }

    /** `flush_window`: write out the window up to `wp`. */
    method Flush()
      requires WindowOk()
      modifies this`wp, this`written
      ensures written == hist[WSIZE..] && wp == 0
      ensures old(wp) == WSIZE ==> WindowOk()
    {
      assert slide[..wp] == hist[|hist| - wp..];
      written := written + slide[..wp];
      wp := 0;
    }

    method Store(c: Byte)
      requires WindowOk() && wp < WSIZE
      modifies this`wp, this`hist, slide
      ensures WindowOk() && hist == old(hist) + [c] && wp == old(wp) + 1
    {
      WindowPut(slide[..], wp, hist, c);
      ghost var before := slide[..];
      slide[wp] := c;
      assert slide[..] == before[wp := c];
      wp, hist := wp + 1, hist + [c];
      assert hist[WSIZE..|hist| - wp] == written;
    }

    /** A byte of output. */
    method Put(c: Byte)
      requires Valid()
      modifies this`wp, this`written, this`hist, slide
      ensures Valid() && hist == old(hist) + [c] && Stream() == old(Stream()) && Left() == old(Left())
    {
      Store(c);
      if wp == WSIZE {
        Flush();
      }
    }

    /** Copy `e` bytes forward inside the window, as both `memcpy` and the slow loop do. */
    method CopyChunk(d0: nat, e: nat, ghost dist: nat) returns (d: nat)
      requires WindowOk() && d0 + e <= WSIZE && wp + e <= WSIZE
      requires 1 <= dist <= WSIZE && d0 == RingBack(wp, dist)
      modifies this`wp, this`hist, slide
      ensures WindowOk() && hist == CopyBack(old(hist), e, dist)
      ensures d == d0 + e && wp == old(wp) + e
    {
      d := d0;
      var i: nat := 0;
      while i < e
        invariant i <= e && WindowOk() && d == d0 + i && wp == old(wp) + i
        invariant CopyBack(hist, e - i, dist) == CopyBack(old(hist), e, dist)
      {
        assert slide[d] == slide[..][d] == hist[|hist| - dist];
        Store(slide[d]);
        d, i := d + 1, i + 1;
      }
    }

    /** The chunked match copy: never across the end of the ring, flushing as it fills. */
    method CopyMatch(n0: nat, dist: nat)
      requires Valid() && 1 <= dist <= WSIZE
      modifies this`wp, this`written, this`hist, slide
      ensures Valid() && hist == CopyBack(old(hist), n0, dist)
    {
      hide Window, CopyBack;
      var n: nat, d: nat := n0, if dist <= wp then wp - dist else wp + 0x1_0000_0000 - dist;
      RingStart(wp, dist);
      while n > 0
        invariant Valid() && d % WSIZE == RingBack(wp, dist)
        invariant WSIZE <= |hist| && CopyBack(hist, n, dist) == CopyBack(old(hist), n0, dist)
        decreases n
      {
        d := d % WSIZE;
        var e := WSIZE - if d > wp then d else wp;
        e := if e > n then n else e;
        CopySplit(hist, e, n - e, dist);
        RingStep(wp, e, dist);
        n := n - e;
        d := CopyChunk(d, e, dist);
        if wp == WSIZE {
          Flush();
        }
      }
      CopyNone(hist, dist);
    }

    /** From table to table until an entry is not a link. */
    method Follow(tabs: Tables, bits: nat, ghost ms: seq<Meta>) returns (st: Status, e: nat, v: Val, ghost n: nat)
      requires ReaderOk() && bits <= bk && |tabs| == |ms| > 0
      requires Linked(tabs, ms, bits) && ms[0] == Meta(0, 0, bits) && Narrow(ms)
      modifies this`inptr, this`bb, this`bk
      ensures ReaderOk() && !(st.Error? && st.code != 1)
      ensures st == Ok ==> WalkAt(tabs, 0, bits, old(Stream()), 0) == Done(e, v, n) && e <= 16
      ensures st == Ok ==> n <= old(Left()) && Stream() == Shr(old(Stream()), n) && Left() == old(Left()) - n
      ensures st.Error? ==> var r := WalkAt(tabs, 0, bits, old(Stream()), 0);
        r.Done? && r.e == INVALID && r.bits <= old(Left())
      ensures st == Undefined ==> WalkAt(tabs, 0, bits, old(Stream()), 0) == Broken
      ensures st == OutOfInput <==> old(Left()) < Asks(tabs, 0, bits, old(Stream()), 0)
      ensures st == OutOfInput ==> var r := WalkAt(tabs, 0, bits, old(Stream()), 0);
        Starved() && (r.Done? ==> old(Left()) < r.bits + LOOKAHEAD)
    {
      hide Shl, Shr, Low, LittleEndian, WalkAt, Asks, Linked, Narrow;
      e, v, n := 0, NoVal, 0;
      ghost var s0 := Stream();
      var t, z := 0, bits;
      ShrZero(s0);
      while true
        invariant ReaderOk() && 0 <= t < |tabs| && z == ms[t].rbits && z <= bk
        invariant n <= old(Left()) && Stream() == Shr(s0, n) && Left() == old(Left()) - n
        invariant WalkAt(tabs, 0, bits, s0, 0) == WalkAt(tabs, t, z, s0, n)
        invariant old(Left()) < Asks(tabs, 0, bits, s0, 0) <==> old(Left()) < Asks(tabs, t, z, s0, n)
        decreases |tabs| - t
      {
        Peek(z);
        IndexFits(tabs, ms, bits, t, Stream());
        var h := tabs[t][Low(bb, z)];
        WalkStep(tabs, t, z, s0, n, h);
        AsksStep(tabs, t, z, s0, n, h, old(Left()));
        if h == Unset {
          return Undefined, e, v, n;
        }
        EntryFacts(tabs, ms, bits, t, Low(bb, z));
        e, v := h.e, h.v;
        if e == INVALID {
          return Error(1), e, v, n;
        }
        DumpBits(h.b);
        ShrShr(s0, n, h.b);
        n := n + h.b;
        if e <= 16 {
          return Ok, e, v, n;
        }
        WalkGrows(tabs, h.v.t, e - 16, s0, n);
        AsksFirst(tabs, h.v.t, e - 16, s0, n);
        var ok := NeedBits(e - 16);
        if !ok {
          return OutOfInput, e, v, n;
        }
        t, z := h.v.t, e - 16;
      }
    }

    /** Decode one code with tables `tabs`, the first indexed with `bits` bits. */
    method Lookup(tabs: Tables, bits: nat) returns (st: Status, e: nat, v: Val, ghost n: nat)
      requires ReaderOk() && ((tabs == [] && bits == 0) || WellLinked(tabs, bits))
      modifies this`inptr, this`bb, this`bk
      ensures ReaderOk() && !(st.Error? && st.code != 1)
      ensures st == Ok ==> WalkAt(tabs, 0, bits, old(Stream()), 0) == Done(e, v, n) && e <= 16
      ensures st == Ok ==> n <= old(Left()) && Stream() == Shr(old(Stream()), n) && Left() == old(Left()) - n
      ensures st.Error? ==> var r := WalkAt(tabs, 0, bits, old(Stream()), 0);
        r.Done? && r.e == INVALID && r.bits <= old(Left())
      ensures st == Undefined ==> WalkAt(tabs, 0, bits, old(Stream()), 0) == Broken
      ensures st == OutOfInput <==> old(Left()) < Asks(tabs, 0, bits, old(Stream()), 0)
      ensures st == OutOfInput ==> var r := WalkAt(tabs, 0, bits, old(Stream()), 0);
        Starved() && (r.Done? ==> old(Left()) < r.bits + LOOKAHEAD)
    {
      hide Shl, Shr, Low, LittleEndian, WalkAt, Asks, LinkOk;
      NoTables(bits, Stream());
      AsksFirst(tabs, 0, bits, Stream(), 0);
      WalkGrows(tabs, 0, bits, Stream(), 0);
      ghost var ms: seq<Meta> := [];
      if tabs != [] {
        ms :| Linked(tabs, ms, bits) && ms[0] == Meta(0, 0, bits) && Narrow(ms);
        RootFacts(tabs, ms, bits);
      }
      var ok := NeedBits(bits);
      if !ok {
        return OutOfInput, 0, NoVal, 0;
      }
      if tabs == [] {
        return Undefined, 0, NoVal, 0;
      }
      st, e, v, n := Follow(tabs, bits, ms);
    }

    /** The rest of a match after its length code: extra bits, distance and the copy. */
    method Match(base: nat, extra: nat, td: Tables, bd: nat, ghost dist: seq<nat>, ghost md: nat, ghost sym: nat) returns (st: Status)
      requires Valid() && Ready(dist, md, 0, CPDIST, CPDEXT, td, bd)
      requires 257 <= sym < 286 && base == CPLENS[sym - 257] && extra == CPLEXT[sym - 257]
      modifies this, slide
      ensures Valid() && !(st.Error? && st.code != 1)
      ensures st == Ok ==> RefMatch(dist, sym, old(Stream()), old(Left()), old(hist)) == Good(Stream(), Left(), hist)
      ensures st.Error? || st == Undefined ==> RefMatch(dist, sym, old(Stream()), old(Left()), old(hist)) == Bad
      ensures st == OutOfInput ==> Starved() && Tight(RefMatch(dist, sym, old(Stream()), old(Left()), old(hist)))
      ensures ScanMatch(dist, md, sym, old(Stream()), old(Left())) == ScanOf(st, Stream(), Left())
    {
      DistanceEntry();
      LengthEntry();
      hide Shl, Shr, Low, LittleEndian, WalkAt, CopyBack, Window, CPDIST, CPDEXT, CPLENS, CPLEXT, Starts,
        DecodesAll, RejectsRest, WellLinked, Asked, Asks, Ready, Asking;
      var ok, x := GetBits(extra);
      if !ok {
        return OutOfInput;
      }
      var n := base + x;
      ReadyAsks(dist, md, 0, CPDIST, CPDEXT, td, bd, Stream());
      WalkMeaning(dist, 0, CPDIST, CPDEXT, td, bd, Stream());
      ghost var s1 := Stream();
      var e, v;
      ghost var used;
      st, e, v, used := Lookup(td, bd);
      if st != Ok {
        return;
      }
      Split(Stream(), e);
      ok, x := GetBits(e);
      if !ok {
        return OutOfInput;
      }
      DistanceInWindow(SymbolOf(dist, s1).value, x);
      CopyMatch(n, v.n + x);
    }

    /** One code of the literal and length alphabet. */
    method LiteralCode(tl: Tables, bl: nat, ghost lit: seq<nat>, ghost ml: nat) returns (st: Status, e: nat, v: Val)
      requires ReaderOk() && Ready(lit, ml, 257, CPLENS, CPLEXT, tl, bl)
      modifies this`inptr, this`bb, this`bk
      ensures ReaderOk() && !(st.Error? && st.code != 1)
      ensures st == OutOfInput <==> old(Left()) < Asked(lit, ml, old(Stream()))
      ensures st == Ok ==> var sym := SymbolOf(lit, old(Stream()));
        sym.Some? && (e, v) == SymbolEntry(257, CPLENS, CPLEXT, sym.value) && e <= 16 && 0 < lit[sym.value] <= old(Left()) &&
        Stream() == Shr(old(Stream()), lit[sym.value]) && Left() == old(Left()) - lit[sym.value]
      ensures st.Error? || st == Undefined ==> var sym := SymbolOf(lit, old(Stream()));
        sym.None? || (SymbolEntry(257, CPLENS, CPLEXT, sym.value).0 == INVALID && lit[sym.value] <= old(Left()))
      ensures st == OutOfInput ==> var sym := SymbolOf(lit, old(Stream()));
        Starved() && (sym.Some? ==> old(Left()) < lit[sym.value] + LOOKAHEAD)
    {
      hide Shl, Shr, Low, LittleEndian, WalkAt, Asks, Asked, CPLENS, CPLEXT, SymbolOf, SymbolEntry, Tabled, WellLinked, Ready;
      ReadyAsks(lit, ml, 257, CPLENS, CPLEXT, tl, bl, Stream());
      TablesReady(lit, 257, CPLENS, CPLEXT, tl, bl);
      WalkMeaning(lit, 257, CPLENS, CPLEXT, tl, bl, Stream());
      ghost var used;
      st, e, v, used := Lookup(tl, bl);
    }

    /** One literal, match or end of block. */
    method Code(tl: Tables, td: Tables, bl: nat, bd: nat, ghost lit: seq<nat>, ghost ml: nat, ghost dist: seq<nat>, ghost md: nat)
      returns (st: Status, end: bool)
      requires Valid() && Ready(lit, ml, 257, CPLENS, CPLEXT, tl, bl) && Ready(dist, md, 0, CPDIST, CPDEXT, td, bd)
      modifies this, slide
      ensures Valid() && !(st.Error? && st.code != 1)
      ensures ScanCodes(lit, ml, dist, md, old(Stream()), old(Left())) ==
        if st == Ok && !end then ScanCodes(lit, ml, dist, md, Stream(), Left()) else ScanOf(st, Stream(), Left())
      ensures st == Ok && end ==> RefCodes(lit, dist, old(Stream()), old(Left()), old(hist)) == Good(Stream(), Left(), hist)
      ensures st == Ok && !end ==> Left() < old(Left())
      ensures st == Ok && !end ==>
        RefCodes(lit, dist, old(Stream()), old(Left()), old(hist)) == RefCodes(lit, dist, Stream(), Left(), hist)
      ensures st.Error? || st == Undefined ==> RefCodes(lit, dist, old(Stream()), old(Left()), old(hist)) == Bad
      ensures st == OutOfInput ==> Starved() && Tight(RefCodes(lit, dist, old(Stream()), old(Left()), old(hist)))
    {
      hide Shl, Shr, Low, LittleEndian, CopyBack, Window, CPDIST, CPDEXT, RefMatch, Tabled, RefCodes, SymbolOf,
        ScanCodes, ScanMatch, Ready, Asked, Stream;
      ReadyFits(lit, ml, 257, CPLENS, CPLEXT, tl, bl);
      ReadyFits(dist, md, 0, CPDIST, CPDEXT, td, bd);
      CodesStep(lit, dist, Stream(), Left(), hist);
      ScanStep(lit, ml, dist, md, Stream(), Left());
      CodesAfter(lit, dist, Stream(), Left(), hist);
      ghost var sym := SymbolOf(lit, Stream());
      if sym.Some? {
        EntryMeans(sym.value);
      }
      hide CPLENS, CPLEXT, SymbolEntry;
      var e, v;
      st, e, v := LiteralCode(tl, bl, lit, ml);
      end := e == 15;
      if st == Ok && e == 16 {
        Put(v.n);
      } else if st == Ok && e != 15 {
        ghost var s1, left1, hist1 := Stream(), Left(), hist;
        st := Match(v.n, e, td, bd, dist, md, sym.value);
        if st == OutOfInput {
          MatchTight(lit, dist, sym.value, s1, left1, hist1);
        }
      }
    }

    /** `inflate_codes`: literals and matches until the end-of-block code. */
    method Codes(tl: Tables, td: Tables, bl: nat, bd: nat, ghost lit: seq<nat>, ghost ml: nat, ghost dist: seq<nat>, ghost md: nat)
      returns (st: Status)
      requires Valid() && Ready(lit, ml, 257, CPLENS, CPLEXT, tl, bl) && Ready(dist, md, 0, CPDIST, CPDEXT, td, bd)
      modifies this, slide
      ensures Valid() && !(st.Error? && st.code != 1)
      ensures ScanCodes(lit, ml, dist, md, old(Stream()), old(Left())) == ScanOf(st, Stream(), Left())
      ensures st == Ok ==> RefCodes(lit, dist, old(Stream()), old(Left()), old(hist)) == Good(Stream(), Left(), hist)
      ensures st.Error? || st == Undefined ==> RefCodes(lit, dist, old(Stream()), old(Left()), old(hist)) == Bad
      ensures st == OutOfInput ==> Starved() && Tight(RefCodes(lit, dist, old(Stream()), old(Left()), old(hist)))
    {
      ReadyFits(dist, md, 0, CPDIST, CPDEXT, td, bd);
      hide RefCodes, ScanCodes, Stream, Window, WellLinked, DecodesAll, RejectsRest, NoCodes, Ready;
      var end := false;
      st := Ok;
      while st == Ok && !end
        invariant Valid() && !(st.Error? && st.code != 1)
        invariant st == Ok && !end ==>
          RefCodes(lit, dist, old(Stream()), old(Left()), old(hist)) == RefCodes(lit, dist, Stream(), Left(), hist)
        invariant st == Ok && end ==> RefCodes(lit, dist, old(Stream()), old(Left()), old(hist)) == Good(Stream(), Left(), hist)
        invariant st.Error? || st == Undefined ==> RefCodes(lit, dist, old(Stream()), old(Left()), old(hist)) == Bad
        invariant st == OutOfInput ==> Starved() && Tight(RefCodes(lit, dist, old(Stream()), old(Left()), old(hist)))
        invariant ScanCodes(lit, ml, dist, md, old(Stream()), old(Left())) ==
          if st == Ok && !end then ScanCodes(lit, ml, dist, md, Stream(), Left()) else ScanOf(st, Stream(), Left())
        decreases st == Ok && !end, Left()
      {
        st, end := Code(tl, td, bl, bd, lit, ml, dist, md);
      }
    }

    /** `NEEDBITS(n); x = b & mask_bits[n]; DUMPBITS(n)`. */
    method GetBits(n: nat) returns (ok: bool, x: nat)
      requires ReaderOk() && n <= MAX_BITS
      modifies this`inptr, this`bb, this`bk
      ensures ReaderOk() && Left() == old(Left()) - (if ok then n else 0)
      ensures ok ==> x == Low(old(Stream()), n) && Stream() == Shr(old(Stream()), n)
      ensures !ok ==> inptr == |input| && bk < n && Left() < n
    {
      hide Shl, Low, Shr, LittleEndian;
      x := 0;
      ok := NeedBits(n);
      if ok {
        Peek(n);
        x := Low(bb, n);
        DumpBits(n);
      }
    }

    /** The bytes of a stored block. */
    method StoredBytes(n: nat) returns (st: Status)
      requires Valid()
      modifies this, slide
      ensures Valid() && (st == Ok || st == OutOfInput)
      ensures st == Ok ==> RefBytes(n, old(Stream()), old(Left()), old(hist)) == Good(Stream(), Left(), hist)
      ensures st == OutOfInput ==> Starved() && RefBytes(n, old(Stream()), old(Left()), old(hist)) == Short
      ensures ScanBytes(n, old(Stream()), old(Left())) == ScanOf(st, Stream(), Left())
    {
      hide Shl, Low, Shr, LittleEndian, Window;
      ghost var ref := RefBytes(n, Stream(), Left(), hist);
      var left := n;
      while left > 0
        invariant Valid() && RefBytes(left, Stream(), Left(), hist) == ref
        invariant ScanBytes(left, Stream(), Left()) == ScanBytes(n, old(Stream()), old(Left()))
        decreases left
      {
        ByteBits(Stream());
        var ok, c := GetBits(8);
        if !ok {
          return OutOfInput;
        }
        Put(c);
        left := left - 1;
      }
      st := Ok;
    }

    /** `inflate_stored`. */
    method Stored() returns (st: Status)
      requires Valid()
      modifies this, slide
      ensures Valid() && !(st.Error? && st.code != 1) && st != Undefined
      ensures st == Ok ==> RefStored(old(Stream()), old(Left()), old(hist)) == Good(Stream(), Left(), hist)
      ensures st.Error? ==> RefStored(old(Stream()), old(Left()), old(hist)) == Bad
      ensures st == OutOfInput ==> Starved() && RefStored(old(Stream()), old(Left()), old(hist)) == Short
      ensures ScanStored(old(Stream()), old(Left())) == ScanOf(st, Stream(), Left())
    {
      hide Shl, Low, Shr, LittleEndian, Window, RefBytes, ScanBytes;
      assert Left() % 8 == bk % 8;
      DumpBits(bk % 8);
      ghost var s1 := Stream();
      var ok, n := GetBits(16);
      if !ok {
        return OutOfInput;
      }
      var c;
      ok, c := GetBits(16);
      if !ok {
        return OutOfInput;
      }
      ShrShr(s1, 16, 16);
      if n + c != 0xffff {
        return Error(1);
      }
      st := StoredBytes(n);
    }

    /** `inflate_fixed`. */
    method Fixed() returns (st: Status)
      requires Valid()
      modifies this, slide
      ensures Valid() && !(st.Error? && st.code != 1)
      ensures st == Ok ==>
        RefCodes(FIXED_LIT, FIXED_DIST, old(Stream()), old(Left()), old(hist)) == Good(Stream(), Left(), hist)
      ensures st.Error? || st == Undefined ==> RefCodes(FIXED_LIT, FIXED_DIST, old(Stream()), old(Left()), old(hist)) == Bad
      ensures st == OutOfInput ==> Starved() && Tight(RefCodes(FIXED_LIT, FIXED_DIST, old(Stream()), old(Left()), old(hist)))
      ensures ScanCodes(FIXED_LIT, 7, FIXED_DIST, 5, old(Stream()), old(Left())) == ScanOf(st, Stream(), Left())
    {
      FixedLit();
      FixedDist();
      LengthEntry();
      DistanceEntry();
      hide FIXED_LIT, FIXED_DIST, CPLENS, CPLEXT, CPDIST, CPDEXT, Accepted, Oversubscribed, Tabled, Asking,
        RefCodes, ScanCodes, Window, Stream;
      var result, tl, bl := BuildFor(FIXED_LIT, 257, CPLENS, CPLEXT, 7);
      if result != 0 {
        assert false;
      }
      var td, bd;
      result, td, bd := BuildFor(FIXED_DIST, 0, CPDIST, CPDEXT, 5);
      if result > 1 {
        assert false;
      }
      st := Codes(tl, td, bl, bd, FIXED_LIT, 7, FIXED_DIST, 5);
    }

    /** Read the code lengths of the code length code. */
    method ReadClens(nb: nat) returns (ok: bool, cl: seq<nat>)
      requires ReaderOk() && nb <= 19
      modifies this`inptr, this`bb, this`bk
      ensures ReaderOk()
      ensures ok ==> Stream() == Shr(old(Stream()), 3 * nb) && Left() == old(Left()) - 3 * nb
      ensures |cl| == 19 && (ok ==> cl == RefClens(0, nb, old(Stream()), Run(0, 19)))
      ensures !ok ==> Starved() && old(Left()) < 3 * nb
    {
      hide Shl, Low, Shr, LittleEndian;
      cl := Run(0, 19);
      ghost var s0 := Stream();
      ShrZero(s0);
      var j: nat := 0;
      while j < nb
        invariant ReaderOk() && j <= nb && |cl| == 19 && forall i :: 0 <= i < 19 ==> cl[i] <= 7
        invariant Stream() == Shr(s0, 3 * j) && Left() == old(Left()) - 3 * j
        invariant RefClens(j, nb, Stream(), cl) == RefClens(0, nb, s0, Run(0, 19))
      {
        var x;
        ThreeBits(Stream());
        ok, x := GetBits(3);
        if !ok {
          return;
        }
        cl := cl[BORDER[j] := x];
        ShrShr(s0, 3 * j, 3);
        j := j + 1;
      }
      ok := true;
    }

    /** How often a repeat code repeats. */
    method ReadRepeat(j: nat) returns (ok: bool, rep: nat)
      requires ReaderOk()
      modifies this`inptr, this`bb, this`bk
      ensures ReaderOk()
      ensures ok ==> var x := if j == 16 then 2 else if j == 17 then 3 else 7;
        x <= old(Left()) && rep == (if j == 18 then 11 else 3) + Low(old(Stream()), x) &&
        Stream() == Shr(old(Stream()), x) && Left() == old(Left()) - x
      ensures !ok ==> Starved() && old(Left()) < if j == 16 then 2 else if j == 17 then 3 else 7
    {
      hide Shl, Low, Shr, LittleEndian;
      var x;
      rep := 0;
      ok, x := GetBits(if j == 16 then 2 else if j == 17 then 3 else 7);
      if ok {
        rep := (if j == 18 then 11 else 3) + x;
      }
    }

    /** One symbol of the code length code, looked up in its single table. */
    method ReadSymbol(tl: Tables, bl: nat, ghost cl: seq<nat>) returns (st: Status, j: nat)
      requires ReaderOk() && |cl| == 19 && Ready(cl, 7, 19, [], [], tl, bl) && (tl == [] || OneTable(tl))
      modifies this`inptr, this`bb, this`bk
      ensures ReaderOk() && (st == Ok || st == Undefined || st == OutOfInput)
      ensures st == Ok ==> SymbolOf(cl, old(Stream())) == Some(j) && cl[j] <= old(Left())
      ensures st == Ok ==> Stream() == Shr(old(Stream()), cl[j]) && Left() == old(Left()) - cl[j]
      ensures st == Undefined ==> SymbolOf(cl, old(Stream())) == None
      ensures st == OutOfInput ==> Starved() && old(Left()) < LOOKAHEAD
      ensures st == OutOfInput <==> old(Left()) < Asked(cl, 7, old(Stream()))
    {
      hide Shl, Low, Shr, LittleEndian, WalkAt, DecodesAll, RejectsRest, Starts, Asked, Asks, Asking;
      j := 0;
      ReadyAsks(cl, 7, 19, [], [], tl, bl, Stream());
      OneTableAsks(tl, bl, Stream());
      WalkMeaning(cl, 19, [], [], tl, bl, Stream());
      var ok := NeedBits(bl);
      if !ok {
        return OutOfInput, j;
      }
      if tl == [] {
        NoTables(bl, Stream());
        return Undefined, j;
      }
      ghost var ms: seq<Meta> :| Linked(tl, ms, bl) && ms[0] == Meta(0, 0, bl) && Narrow(ms);
      Peek(bl);
      ShrZero(Stream());
      IndexFits(tl, ms, bl, 0, Stream());
      var h := tl[0][Low(bb, bl)];
      WalkStep(tl, 0, bl, Stream(), 0, h);
      if h == Unset || h.e == INVALID || !h.v.Num? {
        return Undefined, j;
      }
      DumpBits(h.b);
      return Ok, h.v.n;
    }

    /** One code length or run of code lengths. */
    method ReadLength(tl: Tables, bl: nat, n: nat, ghost cl: seq<nat>, lens0: seq<nat>) returns (st: Status, lens: seq<nat>)
      requires ReaderOk() && |cl| == 19 && Ready(cl, 7, 19, [], [], tl, bl) && (tl == [] || OneTable(tl))
      requires |lens0| < n && forall i :: 0 <= i < |lens0| ==> lens0[i] <= 15
      modifies this`inptr, this`bb, this`bk
      ensures ReaderOk() && !(st.Error? && st.code != 1)
      ensures st == Ok ==> |lens0| < |lens| <= n && forall i :: 0 <= i < |lens| ==> lens[i] <= 15
      ensures st == Ok ==>
        RefLengths(cl, n, old(Stream()), old(Left()), lens0) == RefLengths(cl, n, Stream(), Left(), lens)
      ensures st.Error? || st == Undefined ==> RefLengths(cl, n, old(Stream()), old(Left()), lens0) == BadLens
      ensures st == OutOfInput ==> Starved() && TightLens(RefLengths(cl, n, old(Stream()), old(Left()), lens0))
      ensures ScanLengths(cl, n, old(Stream()), old(Left()), lens0) ==
        if st == Ok then ScanLengths(cl, n, Stream(), Left(), lens) else LensOf(st, Stream(), Left(), lens)
    {
      hide Shl, Low, Shr, LittleEndian, SymbolOf, Ready, OneTable, Asked;
      lens := lens0;
      var j;
      st, j := ReadSymbol(tl, bl, cl);
      if st != Ok {
        return;
      }
      if j < 16 {
        lens := lens + [j];
      } else {
        var ok, rep := ReadRepeat(j);
        if !ok {
          return OutOfInput, lens;
        }
        if |lens| + rep > n {
          return Error(1), lens;
        }
        lens := lens + Run(if j == 16 then LastLen(lens) else 0, rep);
      }
    }

    /** Read the literal and distance code lengths. */
    method ReadLengths(tl: Tables, bl: nat, n: nat, ghost cl: seq<nat>) returns (st: Status, lens: seq<nat>)
      requires ReaderOk() && |cl| == 19 && Ready(cl, 7, 19, [], [], tl, bl) && (tl == [] || OneTable(tl))
      modifies this`inptr, this`bb, this`bk
      ensures ReaderOk() && !(st.Error? && st.code != 1)
      ensures st == Ok ==> RefLengths(cl, n, old(Stream()), old(Left()), []) == GoodLens(Stream(), Left(), lens)
      ensures st.Error? || st == Undefined ==> RefLengths(cl, n, old(Stream()), old(Left()), []) == BadLens
      ensures st == OutOfInput ==> Starved() && TightLens(RefLengths(cl, n, old(Stream()), old(Left()), []))
      ensures ScanLengths(cl, n, old(Stream()), old(Left()), []) == LensOf(st, Stream(), Left(), lens)
    {
      hide Stream, Ready, OneTable, Asked;
      lens := [];
      while |lens| < n
        invariant ReaderOk() && |lens| <= n && forall i :: 0 <= i < |lens| ==> lens[i] <= 15
        invariant RefLengths(cl, n, old(Stream()), old(Left()), []) == RefLengths(cl, n, Stream(), Left(), lens)
        invariant ScanLengths(cl, n, old(Stream()), old(Left()), []) == ScanLengths(cl, n, Stream(), Left(), lens)
        decreases n - |lens|
      {
        st, lens := ReadLength(tl, bl, n, cl, lens);
        if st != Ok {
          return;
        }
      }
      st := Ok;
    }

    /** The three counts at the head of a dynamic block. */
    method ReadCounts() returns (ok: bool, x: nat, y: nat, nb: nat)
      requires ReaderOk()
      modifies this`inptr, this`bb, this`bk
      ensures ReaderOk()
      ensures ok ==> var s := old(Stream());
        x == Low(s, 5) && y == Low(Shr(s, 5), 5) && nb == Low(Shr(s, 10), 4) && Stream() == Shr(s, 14) && Left() == old(Left()) - 14
      ensures !ok ==> Starved() && old(Left()) < 14
    {
      hide Shl, Low, Shr, LittleEndian;
      ghost var s := Stream();
      y, nb := 0, 0;
      ok, x := GetBits(5);
      if ok {
        ok, y := GetBits(5);
      }
      if ok {
        ok, nb := GetBits(4);
      }
      ShrShr(s, 5, 5);
      ShrShr(s, 10, 4);
    }

    /** The header of a dynamic block: code lengths of both alphabets. */
    method ReadHeader() returns (st: Status, nl: nat, nd: nat, lens: seq<nat>)
      requires ReaderOk()
      modifies this`inptr, this`bb, this`bk
      ensures ReaderOk() && nl <= |lens|
      ensures st == Ok ==> 257 <= nl <= 286 && 1 <= nd <= 30 && RefHeader(old(Stream()), old(Left())) == GoodLens(Stream(), Left(), lens)
      ensures st == Ok ==> nl == 257 + Low(old(Stream()), 5) && |lens| == nl + nd
      ensures st.Error? || st == Undefined ==> RefHeader(old(Stream()), old(Left())) == BadLens
      ensures st == OutOfInput ==> Starved() && TightLens(RefHeader(old(Stream()), old(Left())))
      ensures ScanHeader(old(Stream()), old(Left())) == LensOf(st, Stream(), Left(), lens)
    {
      hide Shl, Low, Shr, LittleEndian, RefLengths, ScanLengths, RefClens, Accepted, Tabled, Asking;
      ghost var s0 := Stream();
      lens, nl, nd := [], 0, 0;
      var ok, x, y, nb := ReadCounts();
      if !ok {
        return OutOfInput, 0, 0, [];
      }
      if 257 + x > 286 || 1 + y > 30 {
        return Error(1), 0, 0, [];
      }
      FourBits(Shr(s0, 10));
      var cl;
      ok, cl := ReadClens(4 + nb);
      if !ok {
        return OutOfInput, 0, 0, [];
      }
      ShrShr(s0, 14, 3 * (4 + nb));
      SmallTable();
      var result, tl, bl := BuildFor(cl, 19, [], [], 7);
      if result != 0 {
        return Error(result), 0, 0, [];
      }
      st, lens := ReadLengths(tl, bl, 257 + x + 1 + y, cl);
      if st == Ok {
        nl, nd := 257 + x, 1 + y;
      }
    }

    /** `inflate_dynamic`. */
    method Dynamic() returns (st: Status)
      requires Valid()
      modifies this, slide
      ensures Valid()
      ensures ScanDynamic(old(Stream()), old(Left())) == ScanOf(st, Stream(), Left())
      ensures st == Ok ==> RefDynamic(old(Stream()), old(Left()), old(hist)) == Good(Stream(), Left(), hist)
      ensures st.Error? || st == Undefined ==> RefDynamic(old(Stream()), old(Left()), old(hist)) == Bad
      ensures st == OutOfInput ==> Starved() && Tight(RefDynamic(old(Stream()), old(Left()), old(hist)))
    {
      LengthEntry();
      DistanceEntry();
      SmallTable();
      hide Shl, Low, Shr, LittleEndian, Accepted, Tabled, Asking, RefCodes, RefHeader, ScanCodes, ScanHeader, Window,
        CPLENS, CPLEXT, CPDIST, CPDEXT, Width;
      var nl, nd, lens;
      ghost var s0, left0 := Stream(), Left();
      st, nl, nd, lens := ReadHeader();
      if st != Ok {
        if st == OutOfInput {
          HeaderTight(s0, left0, hist);
        }
        return;
      }
      var result, tl, bl := BuildFor(lens[..nl], 257, CPLENS, CPLEXT, 9);
      if result != 0 {
        return Error(result);
      }
      var td, bd;
      result, td, bd := BuildFor(lens[nl..], 0, CPDIST, CPDEXT, 6);
      if result != 0 {
        return Error(result);
      }
      st := Codes(tl, td, bl, bd, lens[..nl], 9, lens[nl..], 6);
    }

    /** `inflate_block`. */
    method Block() returns (st: Status, last: bool)
      requires Valid()
      modifies this, slide
      ensures Valid()
      ensures ScanBlock(old(Stream()), old(Left())) == ScanOf(st, Stream(), Left())
      ensures st == Ok ==> RefBlock(old(Stream()), old(Left()), old(hist)) == Good(Stream(), Left(), hist)
      ensures st == Ok ==> (last <==> Low(old(Stream()), 1) != 0)
      ensures st.Error? || st == Undefined ==> RefBlock(old(Stream()), old(Left()), old(hist)) == Bad
      ensures st == OutOfInput ==> Starved() && Tight(RefBlock(old(Stream()), old(Left()), old(hist)))
    {
      hide Shl, Low, Shr, LittleEndian, RefCodes, RefDynamic, RefStored, ScanCodes, ScanDynamic, ScanStored, Window, FIXED_LIT, FIXED_DIST;
      ghost var s0 := Stream();
      var ok, e, t;
      ok, e := GetBits(1);
      last := e != 0;
      if ok {
        ok, t := GetBits(2);
      }
      if !ok {
        return OutOfInput, last;
      }
      ShrShr(s0, 1, 2);
      if t == 2 {
        st := Dynamic();
      } else if t == 0 {
        st := Stored();
      } else if t == 1 {
        st := Fixed();
      } else {
        st := Error(2);
      }
    }

    /** Blocks up to and including the last. */
    method Blocks() returns (st: Status)
      requires Valid()
      modifies this, slide
      ensures Valid()
      ensures ScanInflate(old(Stream()), old(Left())) == ScanOf(st, Stream(), Left())
      ensures st == Ok ==> RefInflate(old(Stream()), old(Left()), old(hist)) == Good(Stream(), Left(), hist)
      ensures st.Error? || st == Undefined ==> RefInflate(old(Stream()), old(Left()), old(hist)) == Bad
      ensures st == OutOfInput ==> Starved() && Tight(RefInflate(old(Stream()), old(Left()), old(hist)))
    {
      hide Shl, Low, Shr, LittleEndian, RefBlock, ScanBlock, Window, Stream;
      ghost var s0, left0, hist0 := Stream(), Left(), hist;
      var last := false;
      st := Ok;
      while !last
        invariant Valid() && st == Ok && WSIZE <= |hist|
        invariant !last ==> RefInflate(Stream(), Left(), hist) == RefInflate(s0, left0, hist0)
        invariant last ==> RefInflate(s0, left0, hist0) == Good(Stream(), Left(), hist)
        invariant ScanInflate(s0, left0) == if last then Read(Stream(), Left()) else ScanInflate(Stream(), Left())
        decreases !last, Left()
      {
        BlockShrinks(Stream(), Left(), hist);
        BlockTight(Stream(), Left(), hist);
        st, last := Block();
        if st != Ok {
          return;
        }
      }
    }

    /** Undo too much lookahead: whole bytes in the bit buffer go back to the input. */
    method GiveBack()
      requires ReaderOk()
      modifies this`bk, this`inptr
      ensures bk < 8 && inptr <= |input| && Left() == old(Left())
    {
      while bk >= 8
        invariant bk <= 8 * inptr && inptr <= |input| && Left() == old(Left())
        decreases bk
      {
        bk, inptr := bk - 8, inptr - 1;
      }
    }

    lemma StreamAtStart()
      requires ReaderOk() && inptr == 0 && bk == 0
      ensures Stream() == LittleEndian(input) && Left() == 8 * |input|
    {
      assert Pow2(0) == 1;
      assert input[0..] == input;
    }

    /** `inflate`: decompress until the last block, give back unread bytes, flush. */
    method Decompress() returns (st: Status)
      requires Valid() && inptr == 0 && bk == 0 && wp == 0
      modifies this, slide
      ensures st == Ok ==> WSIZE <= |hist| && written == hist[WSIZE..]
      ensures st == Ok ==> var r := RefInflate(LittleEndian(input), 8 * |input|, old(hist));
        r.Good? && r.hist == hist && inptr == |input| - r.left / 8
      ensures st.Error? || st == Undefined ==> RefInflate(LittleEndian(input), 8 * |input|, old(hist)) == Bad
      ensures st == OutOfInput ==> Starved() && Tight(RefInflate(LittleEndian(input), 8 * |input|, old(hist)))
      ensures var r := RefInflate(LittleEndian(input), 8 * |input|, old(hist)); r.Good? && r.left >= LOOKAHEAD ==> st == Ok
      ensures st == OutOfInput <==> ScanInflate(LittleEndian(input), 8 * |input|) == Dry
      ensures st == Ok ==> exists bs, rest :: Writes(bs, rest, LittleEndian(input), 8 * |input|) && Meaning(old(hist), bs) == hist
      ensures forall bs, rest :: Writes(bs, rest, LittleEndian(input), 8 * |input|) ==>
        || (st == Ok && Meaning(old(hist), bs) == hist && inptr == |input| - (8 * |input| - BlocksSize(bs, 0)) / 8)
        || (st == OutOfInput && 8 * |input| - BlocksSize(bs, 0) < LOOKAHEAD)
      ensures var p := PlainInflate(true, LittleEndian(input), 8 * |input|, []);
        var many := ManyCodes(true, LittleEndian(input), 8 * |input|, []);
        && (st == Ok ==> !many && (p.Fine? || p.Early?))
        && (st == Ok && p.Fine? ==> written == old(written) + p.out && inptr == |input| - p.left / 8)
        && (p.Fine? && !many ==> st == Ok || (st == OutOfInput && p.left < LOOKAHEAD))
        && (p.Fine? ==> (st == Ok <==> !many && ScanInflate(LittleEndian(input), 8 * |input|) != Dry))
    {
      hide Shl, LittleEndian, RefInflate, PlainInflate, ManyCodes, ScanInflate, Window, Stream, Writes, Meaning, BlocksSize;
      StreamAtStart();
      ReadIffWritten(LittleEndian(input), 8 * |input|, hist);
      InflateAgrees(true, LittleEndian(input), 8 * |input|, hist, []);
      assert hist + [] == hist && hist[WSIZE..] == written;
      st := Blocks();
      if st == Ok {
        GiveBack();
        Flush();
      }
    }
  }

  lemma MatchTight(lit: seq<nat>, dist: seq<nat>, sym: nat, stream: nat, left: nat, hist: seq<Byte>)
    requires 257 <= sym < 286 && |dist| <= |CPDIST| && WSIZE <= |hist| && Tight(RefMatch(dist, sym, stream, left, hist))
    ensures var m := RefMatch(dist, sym, stream, left, hist); m.Good? ==> Tight(RefCodes(lit, dist, m.stream, m.left, m.hist))
  {
    hide RefCodes;
    var m := RefMatch(dist, sym, stream, left, hist);
    if m.Good? {
      CodesShrink(lit, dist, m.stream, m.left, m.hist);
    }
  }

  lemma HeaderTight(stream: nat, left: nat, hist: seq<Byte>)
    requires WSIZE <= |hist| && TightLens(RefHeader(stream, left))
    ensures Tight(RefDynamic(stream, left, hist))
  {
    hide RefCodes, RefHeader, Accepted;
    var h := RefHeader(stream, left);
    if h.GoodLens? {
      var nl := 257 + Low(stream, 5);
      CodesShrink(h.lens[..nl], h.lens[nl..], h.stream, h.left, hist);
    }
  }

  lemma BlockTight(stream: nat, left: nat, hist: seq<Byte>)
    requires WSIZE <= |hist|
    ensures Tight(RefBlock(stream, left, hist)) ==> Tight(RefInflate(stream, left, hist))
  {
    hide RefBlock;
    BlockShrinks(stream, left, hist);
    var r := RefBlock(stream, left, hist);
    if r.Good? && Low(stream, 1) == 0 {
      InflateShrinks(r.stream, r.left, r.hist);
    }
  }

  lemma SmallTable()
    ensures Pow2(6) == 64 && Pow2(7) == 128 && Pow2(9) == 512
  {
  }

  lemma FourBits(s: nat)
    ensures Low(s, 4) <= 15
  {
    Split(s, 4);
    assert Pow2(4) == 16;
  }

  lemma ThreeBits(s: nat)
    ensures Low(s, 3) <= 7
  {
    Split(s, 3);
    assert Pow2(3) == 8;
  }

  lemma ByteBits(s: nat)
    ensures Low(s, 8) < 256
  {
    Split(s, 8);
    assert Pow2(8) == 256;
  }

  lemma LengthEntry()
    ensures |CPLENS| == |CPLEXT| == 31 && forall i :: 0 <= i < 29 ==> CPLEXT[i] <= 5
    ensures CPLEXT[29] == INVALID && CPLEXT[30] == INVALID
  {
  }

  /** The entry of a literal, of the end of a block, of a length, and of the two codes that are not used. */
  lemma EntryMeans(sym: nat)
    requires sym < 288
    ensures |CPLENS| == |CPLEXT| == 31
    ensures var x := SymbolEntry(257, CPLENS, CPLEXT, sym);
      && x.1.Num? && (x.0 == 16 <==> sym < 256) && (sym < 256 ==> x.1.n == sym) && (x.0 == 15 <==> sym == 256)
      && (257 <= sym < 286 ==> x == (CPLEXT[sym - 257], Num(CPLENS[sym - 257])) && x.0 <= 5)
      && (x.0 == INVALID <==> sym >= 286)
  {
  }

  lemma DistanceEntry()
    ensures |CPDIST| == |CPDEXT| == 30 && forall i :: 0 <= i < 30 ==> CPDEXT[i] <= 13
  {
  }

  lemma ReadyFits(b: seq<nat>, m: nat, s: nat, d: seq<nat>, e: seq<nat>, tabs: Tables, l: nat)
    requires Ready(b, m, s, d, e, tabs, l)
    ensures |b| <= s + |d|
  {
  }

  lemma TablesReady(b: seq<nat>, s: nat, d: seq<nat>, e: seq<nat>, tabs: Tables, l: nat)
    requires Tabled(b, s, d, e, tabs, l)
    ensures ((tabs == [] && l == 0) || WellLinked(tabs, l)) && |b| <= s + |d|
  {
  }

  /** A walk finds the symbol that the format prescribes, or that there is none. */
  lemma WalkMeaning(b: seq<nat>, s: nat, d: seq<nat>, e: seq<nat>, tabs: Tables, l: nat, stream: nat)
    requires Tabled(b, s, d, e, tabs, l)
    ensures var r, sym := WalkAt(tabs, 0, l, stream, 0), SymbolOf(b, stream);
      if r.Done? && r.e != INVALID
      then sym.Some? && (r.e, r.v) == SymbolEntry(s, d, e, sym.value) && r.bits == b[sym.value] > 0
      else sym.None? || (SymbolEntry(s, d, e, sym.value).0 == INVALID && r.Done? && r.bits == b[sym.value])
  {
  }

  lemma {:induction false} WalkGrows(tabs: Tables, t: nat, bits: nat, stream: nat, w: nat)
    ensures var r := WalkAt(tabs, t, bits, stream, w); r.Done? ==> r.bits >= w
    decreases |tabs| - t
  {
    hide Shr, Low;
    var x := Low(Shr(stream, w), bits);
    if t < |tabs| && x < |tabs[t]| && IsLink(tabs[t][x]) && tabs[t][x].v.Ptr? && t < tabs[t][x].v.t {
      WalkGrows(tabs, tabs[t][x].v.t, tabs[t][x].e - 16, stream, w + tabs[t][x].b);
    }
  }

  lemma NoTables(bits: nat, stream: nat)
    ensures WalkAt([], 0, bits, stream, 0) == Broken && Asks([], 0, bits, stream, 0) == bits
  {
  }

  lemma OneTableAsks(tabs: Tables, bits: nat, stream: nat)
    requires tabs == [] || OneTable(tabs)
    ensures Asks(tabs, 0, bits, stream, 0) == bits
  {
  }

  lemma IndexFits(tabs: Tables, ms: seq<Meta>, l: nat, t: nat, s: nat)
    requires Linked(tabs, ms, l) && t < |tabs|
    ensures Low(s, ms[t].rbits) < |tabs[t]|
  {
    Split(s, ms[t].rbits);
  }

  lemma RootFacts(tabs: Tables, ms: seq<Meta>, l: nat)
    requires Linked(tabs, ms, l) && |ms| > 0 && ms[0] == Meta(0, 0, l) && Narrow(ms)
    ensures |tabs| == |ms| && l <= LOOKAHEAD
  {
  }

  lemma EntryFacts(tabs: Tables, ms: seq<Meta>, l: nat, t: nat, x: nat)
    requires Linked(tabs, ms, l) && Narrow(ms) && t < |tabs| == |ms| && x < |tabs[t]| && tabs[t][x] != Unset
    ensures var h := tabs[t][x];
      if IsLink(h) then h.v.Ptr? && t < h.v.t < |tabs| && h.b <= ms[t].rbits && h.e == 16 + ms[h.v.t].rbits <= 16 + LOOKAHEAD
      else h.b <= ms[t].rbits
  {
    var h := tabs[t][x];
    if IsLink(h) {
      assert LinkOk(ms, l, t, x, h);
    } else {
      assert IsLeaf(h);
    }
  }

  lemma WalkStep(tabs: Tables, t: nat, bits: nat, stream: nat, w: nat, h: Huft)
    requires t < |tabs| && Low(Shr(stream, w), bits) < |tabs[t]| && h == tabs[t][Low(Shr(stream, w), bits)]
    ensures h == Unset ==> WalkAt(tabs, t, bits, stream, w) == Broken
    ensures IsLeaf(h) ==> WalkAt(tabs, t, bits, stream, w) == Done(h.e, h.v, w + h.b)
    ensures IsLink(h) && h.v.Ptr? && t < h.v.t ==>
      WalkAt(tabs, t, bits, stream, w) == WalkAt(tabs, h.v.t, h.e - 16, stream, w + h.b)
  {
  }

  lemma AsksStep(tabs: Tables, t: nat, bits: nat, stream: nat, w: nat, h: Huft, left: nat)
    requires w + bits <= left && t < |tabs| && Low(Shr(stream, w), bits) < |tabs[t]| && h == tabs[t][Low(Shr(stream, w), bits)]
    ensures !IsLink(h) ==> Asks(tabs, t, bits, stream, w) == w + bits
    ensures IsLink(h) && h.v.Ptr? && t < h.v.t ==>
      (left < Asks(tabs, t, bits, stream, w) <==> left < Asks(tabs, h.v.t, h.e - 16, stream, w + h.b))
  {
  }

  lemma AsksFirst(tabs: Tables, t: nat, bits: nat, stream: nat, w: nat)
    ensures Asks(tabs, t, bits, stream, w) >= w + bits
  {
  }

  /** The ring position `dist` before `w`. */
  function RingBack(w: nat, dist: nat): nat
    requires 1 <= dist <= WSIZE
  {
    if dist <= w then w - dist else w + WSIZE - dist
  }

  lemma RingStart(w: nat, dist: nat)
    requires 1 <= dist <= WSIZE && w < WSIZE
    ensures (if dist <= w then w - dist else w + 0x1_0000_0000 - dist) % WSIZE == RingBack(w, dist)
  {
  }

  lemma RingStep(w: nat, e: nat, dist: nat)
    requires 1 <= dist <= WSIZE && w + e <= WSIZE && RingBack(w, dist) + e <= WSIZE && w < WSIZE
    ensures (RingBack(w, dist) + e) % WSIZE == RingBack(if w + e == WSIZE then 0 else w + e, dist)
  {
  }

  lemma {:induction false} CopySplit(hist: seq<Byte>, a: nat, b: nat, dist: nat)
    requires 1 <= dist <= |hist|
    ensures |CopyBack(hist, a, dist)| >= dist
    ensures CopyBack(CopyBack(hist, a, dist), b, dist) == CopyBack(hist, a + b, dist)
    decreases a
  {
    if a != 0 {
      CopySplit(hist + [hist[|hist| - dist]], a - 1, b, dist);
    }
  }

  lemma ByteFits(b: nat, c: Byte, k: nat)
    requires b < Pow2(k)
    ensures b + Shl(c, k) < Pow2(k + 8)
  {
    assert Pow2(8) == 256;
    hide Shl;
    ShlMono(c, 256, k);
    ShlShl(1, 8, k);
  }

  lemma ShrFits(b: nat, k: nat, n: nat)
    requires b < Pow2(k) && n <= k
    ensures Shr(b, n) < Pow2(k - n)
  {
    hide Shl, Shr;
    ShrLess(b, n, Pow2(k - n));
    ShlShl(1, k - n, n);
  }
}
