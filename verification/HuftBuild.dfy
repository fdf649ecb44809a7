/**
 The whole of `huft_build`: counting lengths, checking them, and building the tables.
 */
module HuftBuild {
  import opened Bits
  import opened Huffman
  import opened HuftTables
  import opened HuftState
  import opened HuftSteps
  import opened HuftLoop
  import opened Deflate

  const N_MAX := 288

  /** Count the codes of each length. */
  method CountLengths(b: seq<nat>) returns (c: Counts)
    requires ValidLengths(b)
    ensures c == CountsOf(b)
  {
    c := seq(BMAX + 1, _ => 0);
    var i := 0;
    assert b[..0] == [];
    while i < |b|
      invariant 0 <= i <= |b| && |c| == BMAX + 1
      invariant forall L :: 0 <= L <= BMAX ==> c[L] == CountOf(b[..i], L)
    {
      assert b[..i + 1][..i] == b[..i];
      c := c[b[i] := c[b[i]] + 1];
      i := i + 1;
    }
    assert b[..i] == b;
  }

  /** `j` and `g` are the shortest and the longest code length. */
  ghost predicate IsRange(c: Counts, j: nat, g: nat)
  {
    && |c| == BMAX + 1 && 1 <= j <= g <= BMAX && c[j] > 0 && c[g] > 0
    && forall L :: 1 <= L < j || g < L <= BMAX ==> c[L] == 0
  }

  method Range(c: Counts) returns (j: nat, g: nat)
    requires |c| == BMAX + 1 && exists L :: 1 <= L <= BMAX && c[L] > 0
    ensures IsRange(c, j, g)
  {
    j := 1;
    while c[j] == 0
      invariant 1 <= j <= BMAX && forall L :: 1 <= L < j ==> c[L] == 0
      decreases BMAX - j
    {
      j := j + 1;
    }
    g := BMAX;
    while c[g] == 0
      invariant j <= g <= BMAX && forall L :: g < L <= BMAX ==> c[L] == 0
      decreases g
    {
      g := g - 1;
    }
  }

  /** More codes than bits. */
  predicate Oversubscribed(cnt: Counts)
  {
    End(cnt, BMAX) > Pow2(BMAX)
  }

  lemma {:induction false} EndTail(cnt: Counts, g: nat, L: nat)
    requires g <= L && forall i :: g < i < |cnt| ==> cnt[i] == 0
    ensures End(cnt, L) == Shl(End(cnt, g), L - g)
  {
    if g < L {
      EndTail(cnt, g, L - 1);
    }
  }

  lemma OverAt(cnt: Counts, L: nat)
    requires L <= BMAX && End(cnt, L) > Pow2(L)
    ensures Oversubscribed(cnt)
  {
    if L < BMAX {
      EndGrows(cnt, L, BMAX);
      ShlMono(Pow2(L), End(cnt, L), BMAX - L);
      ShlShl(1, L, BMAX - L);
    }
  }

  /** Patterns left over after all codes are assigned, or `-1` if there are not enough. */
  method LeftOver(c: Counts, kmin: nat, g: nat) returns (y: int)
    requires IsRange(c, kmin, g)
    ensures Oversubscribed(c) <==> y < 0
    ensures y >= 0 ==> End(c, g) + y == Pow2(g)
  {
    hide Shl;
    var j := kmin;
    NoneShorter(c, kmin);
    y := Pow2(j);
    while j < g
      invariant kmin <= j <= g && y + First(c, j) == Pow2(j) && y >= 0
      decreases g - j
    {
      y := y - c[j];
      if y < 0 {
        OverAt(c, j);
        return -1;
      }
      Pow2Step(j);
      j, y := j + 1, 2 * y;
    }
    y := y - c[g];
    if y < 0 {
      OverAt(c, g);
      y := -1;
    } else {
      EndTail(c, g, BMAX);
      ShlMono(End(c, g), Pow2(g), BMAX - g);
      ShlShl(1, g, BMAX - g);
    }
  }

  lemma {:induction false} OffMono(cnt: Counts, L: nat, M: nat)
    requires L <= M
    ensures Off(cnt, L) <= Off(cnt, M)
  {
    if L < M {
      OffMono(cnt, L, M - 1);
    }
  }

  lemma {:induction false} OffTail(cnt: Counts, g: nat, L: nat)
    requires g < L && forall i :: g < i < |cnt| ==> cnt[i] == 0
    ensures Off(cnt, L) == Off(cnt, g + 1)
  {
    if g + 1 < L {
      OffTail(cnt, g, L - 1);
    }
  }

  lemma {:induction false} OffLast(b: seq<nat>, L: nat)
    requires |b| > 0 && L <= BMAX + 1
    ensures Off(CountsOf(b), L) == Off(CountsOf(b[..|b| - 1]), L) + if 1 <= b[|b| - 1] < L then 1 else 0
  {
    if L > 0 {
      OffLast(b, L - 1);
    }
  }

  /** The values sorted are the symbols with a code. */
  lemma {:induction false} TotalCount(b: seq<nat>)
    requires ValidLengths(b)
    ensures Off(CountsOf(b), BMAX + 1) + CountOf(b, 0) == |b|
  {
    if |b| > 0 {
      TotalCount(b[..|b| - 1]);
      OffLast(b, BMAX + 1);
    } else {
      NoneShorter(CountsOf(b), BMAX + 1);
    }
  }

  /** Position of a symbol in order of code length, then value. */
  function PositionOf(b: seq<nat>, sym: nat): nat
    requires sym < |b|
  {
    Off(CountsOf(b), b[sym]) + CountOf(b[..sym], b[sym])
  }

  lemma PositionBounds(b: seq<nat>, sym: nat)
    requires ValidLengths(b) && sym < |b| && b[sym] > 0
    ensures Off(CountsOf(b), b[sym]) <= PositionOf(b, sym) < Off(CountsOf(b), b[sym] + 1) <= Off(CountsOf(b), BMAX + 1)
  {
    CountSplit(b, sym, b[sym]);
    OffMono(CountsOf(b), b[sym] + 1, BMAX + 1);
  }

  lemma PositionsDiffer(b: seq<nat>, s: nat, t: nat)
    requires ValidLengths(b) && s < t < |b| && b[s] > 0 && b[t] > 0
    ensures PositionOf(b, s) != PositionOf(b, t)
  {
    PositionBounds(b, s);
    PositionBounds(b, t);
    if b[s] == b[t] {
      RankInjective(b, s, t);
    } else if b[s] < b[t] {
      OffMono(CountsOf(b), b[s] + 1, b[t]);
    } else {
      OffMono(CountsOf(b), b[t] + 1, b[s]);
    }
  }

  lemma {:induction false} SymbolFor(b: seq<nat>, M: nat, p: nat) returns (sym: nat)
    requires ValidLengths(b) && M <= BMAX + 1 && p < Off(CountsOf(b), M)
    ensures sym < |b| && b[sym] > 0 && PositionOf(b, sym) == p
  {
    var cnt := CountsOf(b);
    if p < Off(cnt, M - 1) {
      sym := SymbolFor(b, M - 1, p);
    } else {
      sym := SymbolAt(b, M - 1, p - Off(cnt, M - 1));
    }
  }

  /** Generate starting offsets into the value table for each length. */
  method Offsets(c: Counts) returns (x: seq<nat>)
    requires |c| == BMAX + 1
    ensures |x| == BMAX + 2
    ensures forall L :: 1 <= L < |x| ==> x[L] == Off(c, L)
  {
    x := [0, 0];
    while |x| <= BMAX + 1
      invariant 2 <= |x| <= BMAX + 2
      invariant forall L :: 1 <= L < |x| ==> x[L] == Off(c, L)
      decreases BMAX + 2 - |x|
    {
      x := x + [x[|x| - 1] + c[|x| - 1]];
    }
  }

  /** The values `v` have the symbols before `i` with a code at their positions. */
  ghost predicate Placed(b: seq<nat>, v: seq<nat>, i: nat)
    requires i <= |b|
  {
    forall sym :: 0 <= sym < i && b[sym] > 0 ==> PositionOf(b, sym) < |v| && v[PositionOf(b, sym)] == sym
  }

  lemma PlaceNext(b: seq<nat>, v: seq<nat>, i: nat)
    requires ValidLengths(b) && i < |b| && Placed(b, v, i)
    ensures b[i] == 0 ==> Placed(b, v, i + 1)
    ensures b[i] > 0 && PositionOf(b, i) < |v| ==> Placed(b, v[PositionOf(b, i) := i], i + 1)
  {
    forall sym | 0 <= sym < i && b[sym] > 0 && b[i] > 0 ensures PositionOf(b, sym) != PositionOf(b, i) {
      PositionsDiffer(b, sym, i);
    }
  }

  lemma PlacedAll(b: seq<nat>, v: seq<nat>)
    requires ValidLengths(b) && Placed(b, v, |b|) && |v| == Off(CountsOf(b), BMAX + 1)
    ensures forall i :: 0 <= i < |v| ==> v[i] < |b|
  {
    forall p | 0 <= p < |v| ensures v[p] < |b| {
      var sym := SymbolFor(b, BMAX + 1, p);
    }
  }

  /** Make a table of values in order of bit lengths. */
  method SortValues(b: seq<nat>, c: Counts) returns (v: seq<nat>)
    requires ValidLengths(b) && c == CountsOf(b)
    ensures |v| == Off(c, BMAX + 1) <= |b| && Placed(b, v, |b|)
    ensures forall i :: 0 <= i < |v| ==> v[i] < |b|
  {
    hide Off;
    var x := Offsets(c);
    TotalCount(b);
    var a := new nat[x[BMAX + 1]];
    var i: nat := 0;
    while i < |b|
      invariant 0 <= i <= |b| && |x| == BMAX + 2
      invariant forall L :: 1 <= L <= BMAX ==> x[L] == Off(c, L) + CountOf(b[..i], L)
      invariant Placed(b, a[..], i)
    {
      var j := b[i];
      assert b[..i + 1][..i] == b[..i];
      PlaceNext(b, a[..], i);
      if j != 0 {
        PositionBounds(b, i);
        ghost var before := a[..];
        a[x[j]] := i;
        assert a[..] == before[PositionOf(b, i) := i];
        x := x[j := x[j] + 1];
      }
      i := i + 1;
    }
    v := a[..];
    PlacedAll(b, v);
  }

  /** The counts with dummy codes of the longest length filling the unused patterns. */
  function Padded(c: Counts, g: nat, y: nat): Counts
    requires g < |c|
  {
    c[g := c[g] + y]
  }

  lemma {:induction false} PaddedBelow(c: Counts, g: nat, y: nat, L: nat)
    requires 1 <= g < |c| && L <= g
    ensures First(Padded(c, g, y), L) == First(c, L) && Off(Padded(c, g, y), L) == Off(c, L)
    ensures End(Padded(c, g, y), L) == End(c, L) + if L == g then y else 0
  {
    if L > 0 {
      PaddedBelow(c, g, y, L - 1);
    }
  }

  /** Lookup bits of the first table: those asked for, within the lengths in use. */
  function LookupBits(m: nat, j: nat, g: nat): nat
  {
    var l := if m < j then j else m;
    if l > g then g else l
  }

  /** How many bits index the first table for lengths `b`. */
  ghost predicate Width(b: seq<nat>, m: nat, l: nat)
  {
    (NoCodes(b) && l == 0) || exists j, g :: IsRange(CountsOf(b), j, g) && l == LookupBits(m, j, g)
  }

  lemma OneWidth(b: seq<nat>, m: nat, l: nat, l': nat)
    requires Width(b, m, l) && Width(b, m, l')
    ensures l == l'
  {
    if NoCodes(b) {
      forall L | 1 <= L <= BMAX ensures CountsOf(b)[L] == 0 {
        if CountOf(b, L) > 0 {
          var sym := SymbolAt(b, L, 0);
        }
      }
    }
  }

  /** Operation and value for a symbol. */
  function SymbolEntry(s: nat, d: seq<nat>, e: seq<nat>, sym: nat): (nat, Val)
    requires |d| == |e| && sym < s + |d|
  {
    if sym < s then (if sym < 256 then 16 else 15, Num(sym)) else (e[sym - s], Num(d[sym - s]))
  }

  /** Walking the tables yields the symbol whose code starts the stream, and its length. */
  ghost predicate DecodesAll(b: seq<nat>, s: nat, d: seq<nat>, e: seq<nat>, tabs: Tables, l: nat)
    requires |d| == |e| && |b| <= s + |d|
  {
    forall sym, stream :: 0 <= sym < |b| && Starts(b, sym, stream) ==>
      WalkAt(tabs, 0, l, stream, 0) == Done(SymbolEntry(s, d, e, sym).0, SymbolEntry(s, d, e, sym).1, b[sym])
  }

  /** A stream that starts with no symbol's code ends at an invalid entry, or at one that
      was never stored. */
  ghost predicate RejectsRest(b: seq<nat>, tabs: Tables, l: nat)
  {
    forall stream :: (forall sym :: 0 <= sym < |b| ==> !Starts(b, sym, stream)) ==>
      var r := WalkAt(tabs, 0, l, stream, 0);
      if r.Done? then r.e == INVALID else exists i :: 0 <= i < |b| && b[i] == 0
  }

  lemma {:induction false} CountAll(b: seq<nat>, L: nat)
    ensures CountOf(b, L) == |b| <==> forall i :: 0 <= i < |b| ==> b[i] == L
  {
    if |b| > 0 {
      CountAll(b[..|b| - 1], L);
      assert b == b[..|b| - 1] + [b[|b| - 1]];
    }
  }

  lemma SomeCode(b: seq<nat>)
    requires ValidLengths(b) && !NoCodes(b)
    ensures exists L :: 1 <= L <= BMAX && CountsOf(b)[L] > 0
  {
    var i :| 0 <= i < |b| && b[i] != 0;
    CountSplit(b, i, b[i]);
    assert CountsOf(b)[b[i]] > 0;
  }

  /** The codes of the build are those of the symbols. */
  lemma SymbolsDecode(b: seq<nat>, j: nat, g: nat, y: nat, l: nat, cd: Coding, tabs: Tables)
    requires ValidLengths(b) && IsRange(CountsOf(b), j, g)
    requires cd.Valid() && |b| <= cd.s + |cd.d| && Placed(b, cd.vals, |b|) && |cd.vals| <= cd.n
    requires AllDecode(Padded(CountsOf(b), g, y), g, cd, tabs, l)
    ensures DecodesAll(b, cd.s, cd.d, cd.e, tabs, l)
  {
    var c := CountsOf(b);
    var cnt := Padded(c, g, y);
    forall sym, stream | 0 <= sym < |b| && Starts(b, sym, stream)
      ensures WalkAt(tabs, 0, l, stream, 0) ==
              Done(SymbolEntry(cd.s, cd.d, cd.e, sym).0, SymbolEntry(cd.s, cd.d, cd.e, sym).1, b[sym])
    {
      var L, code := b[sym], CodeOf(b, sym);
      CountSplit(b, sym, L);
      assert c[L] == CountOf(b, L) > 0;
      assert L <= g && First(c, L) <= code < End(c, L);
      PaddedBelow(c, g, y, L);
      assert Position(cnt, L, code) == PositionOf(b, sym);
      assert Decodes(tabs, l, CodeResult(cnt, cd, L, code), L, code);
    }
  }

  /** A stream that begins with a code begins with that code's symbol. */
  lemma StartsWith(b: seq<nat>, L: nat, code: nat, stream: nat) returns (sym: nat)
    requires 1 <= L <= BMAX && First(CountsOf(b), L) <= code < End(CountsOf(b), L) && Low(stream, L) == Rev(code, L)
    ensures sym < |b| && Starts(b, sym, stream)
  {
    sym := SymbolAt(b, L, code - First(CountsOf(b), L));
  }

  /** The codes of the build that are not symbols' are the dummy ones. */
  lemma RestRejected(b: seq<nat>, j: nat, g: nat, y: nat, l: nat, cd: Coding, tabs: Tables)
    requires ValidLengths(b) && IsRange(CountsOf(b), j, g) && Complete(Padded(CountsOf(b), g, y), g)
    requires cd.Valid() && cd.n == |b| && |cd.vals| == Off(CountsOf(b), BMAX + 1)
    requires AllDecode(Padded(CountsOf(b), g, y), g, cd, tabs, l)
    ensures RejectsRest(b, tabs, l)
  {
    hide WalkAt, Shl;
    var c := CountsOf(b);
    var cnt := Padded(c, g, y);
    forall stream | forall sym :: 0 <= sym < |b| ==> !Starts(b, sym, stream)
      ensures var r := WalkAt(tabs, 0, l, stream, 0);
              if r.Done? then r.e == INVALID else exists i :: 0 <= i < |b| && b[i] == 0
    {
      var L, code := FindCode(cnt, g, stream);
      PaddedBelow(c, g, y, L);
      if code < End(c, L) {
        var sym := StartsWith(b, L, code, stream);
      } else {
        OffTail(c, g, BMAX + 1);
        assert Position(cnt, L, code) >= |cd.vals|;
        assert Decodes(tabs, l, CodeResult(cnt, cd, L, code), L, code);
        if |cd.vals| < |b| {
          TotalCount(b);
          SomeZero(b);
        }
      }
    }
  }

  lemma {:induction false} SomeZero(b: seq<nat>)
    requires CountOf(b, 0) > 0
    ensures exists i :: 0 <= i < |b| && b[i] == 0
  {
    var sym := SymbolAt(b, 0, 0);
  }

  /** `huft_build`. For a set of lengths that is not oversubscribed, the tables decode every
      symbol if `Skips` does not hold; for a complete set, only then. */
  method Build(b: seq<nat>, s: nat, d: seq<nat>, e: seq<nat>, m: nat) returns (result: nat, tabs: Tables, l: nat, ghost g: nat)
    requires 1 <= |b| <= N_MAX && ValidLengths(b)
    requires |d| == |e| && |b| <= s + |d| && forall i :: 0 <= i < |e| ==> e[i] <= 13 || e[i] == INVALID
    ensures NoCodes(b) ==> result == 0 && tabs == [] && l == 0
    ensures !NoCodes(b) ==> (result == 2 <==> Oversubscribed(CountsOf(b)))
    ensures result == 2 ==> tabs == []
    ensures !NoCodes(b) && result != 2 ==>
      exists j :: IsRange(CountsOf(b), j, g) && l == LookupBits(m, j, g)
    ensures !NoCodes(b) && result != 2 ==>
      && End(CountsOf(b), g) <= Pow2(g) && WellLinked(tabs, l)
      && result == (if End(CountsOf(b), g) < Pow2(g) && g != 1 then 1 else 0)
      && (!Skips(Padded(CountsOf(b), g, Pow2(g) - End(CountsOf(b), g)), g, l) ==> DecodesAll(b, s, d, e, tabs, l))
      && (!Skips(Padded(CountsOf(b), g, Pow2(g) - End(CountsOf(b), g)), g, l) ==> RejectsRest(b, tabs, l))
      && (l == g ==> forall x :: 0 <= x < |tabs[0]| ==> !IsLink(tabs[0][x]))
      && (Complete(CountsOf(b), g) && DecodesAll(b, s, d, e, tabs, l) ==> !Skips(CountsOf(b), g, l))
      && (Complete(CountsOf(b), g) && !Skips(CountsOf(b), g, l) ==> AsksAll(CountsOf(b), g, tabs, l))
  {
    hide Shl, Shr, Low, Rev, Off, End, WalkAt, CountOf, AsksAll;
    g := 0;
    var c := CountLengths(b);
    CountAll(b, 0);
    if c[0] == |b| {
      return 0, [], 0, 0;
    }
    SomeCode(b);
    var j, i := Range(c);
    g := i;
    l := LookupBits(m, j, i);
    var y := LeftOver(c, j, i);
    if y < 0 {
      return 2, [], l, i;
    }
    var v := SortValues(b, c);
    var cnt := Padded(c, i, y);
    PaddedBelow(c, i, y, i);
    var cd := Coding(v, |b|, s, d, e);
    tabs := BuildTables(cnt, j, i, l, cd);
    if !Skips(cnt, i, l) {
      SymbolsDecode(b, j, i, y, l, cd, tabs);
      RestRejected(b, j, i, y, l, cd, tabs);
    }
    assert Complete(c, i) ==> cnt == c;
    if Complete(c, i) && DecodesAll(b, s, d, e, tabs, l) && Skips(c, i, l) {
      ghost var stream :| WalkAt(tabs, 0, l, stream, 0) == Broken;
      ghost var sym := UniqueSymbol(b, i, stream);
      assert false;
    }
    result := if y != 0 && i != 1 then 1 else 0;
  }

  /** Codes of at least `b + 1` bits fill at most as much as that many codes of `b + 1` bits. */
  lemma {:induction false} FillBound(cnt: Counts, b: nat, L: nat)
    requires b < L
    ensures Off(cnt, b + 1) <= Off(cnt, L + 1)
    ensures End(cnt, L) <= Shl(End(cnt, b), L - b) + Shl(Off(cnt, L + 1) - Off(cnt, b + 1), L - b - 1)
  {
    if L == b + 1 {
      ShlNone(Off(cnt, L + 1) - Off(cnt, b + 1));
      ShlDouble(End(cnt, b), 0);
      ShlNone(2 * End(cnt, b));
    } else {
      FillBound(cnt, b, L - 1);
      var d := Off(cnt, L) - Off(cnt, b + 1);
      assert Off(cnt, L + 1) == Off(cnt, L) + Cnt(cnt, L);
      assert Shl(End(cnt, b), L - b) == 2 * Shl(End(cnt, b), L - 1 - b);
      assert Shl(d, L - b - 1) == 2 * Shl(d, L - b - 2);
      hide Shl;
      ShlAdd(d, Cnt(cnt, L), L - b - 1);
    }
  }

  /** With fewer codes than the first table has entries, or all codes within two tables, no
      table is too wide: this covers every call in the decompressor. */
  lemma NeverSkips(cnt: Counts, g: nat, l: nat)
    requires Complete(cnt, g) && l >= 1
    requires g <= 2 * l || Off(cnt, g + 1) < Pow2(l)
    ensures !Skips(cnt, g, l)
  {
    forall w: nat ensures !SkipsAt(cnt, g, l, w) {
      if l >= 1 && w > 0 && Level(w, l) && w + l < g {
        FullAt(cnt, g, l, w);
      }
    }
  }

  /** At every level but the first there are too few codes left to skip ahead. */
  lemma FullAt(cnt: Counts, g: nat, l: nat, w: nat)
    requires Complete(cnt, g) && l >= 1 && w > 0 && Level(w, l) && w + l < g
    requires g <= 2 * l || Off(cnt, g + 1) < Pow2(l)
    ensures End(cnt, w + l - 1) > Shl(Pow2(w) - 1, l - 1)
  {
    LevelGap(0, w, l);
    var b := w + l - 1;
    if End(cnt, b) <= Shl(Pow2(w) - 1, l - 1) {
      FillBound(cnt, b, g);
      var d := Off(cnt, g + 1) - Off(cnt, b + 1);
      hide Shl, End, Off, Level;
      FullBelow(End(cnt, b), w, l, g);
      Pow2Mono(0, g - w - l);
      ShlMono(d, Pow2(l), g - w - l);
    }
  }

  lemma FullBelow(end: nat, w: nat, l: nat, g: nat)
    requires l >= 1 && w > 0 && w + l < g && end <= Shl(Pow2(w) - 1, l - 1)
    ensures Shl(end, g - w - l + 1) + Pow2(g - w) <= Pow2(g) && Pow2(g - w) == Shl(Pow2(l), g - w - l)
  {
    hide Shl;
    ShlMono(end, Shl(Pow2(w) - 1, l - 1), g - w - l + 1);
    ShlShl(Pow2(w) - 1, l - 1, g - w - l + 1);
    ShlAdd(Pow2(w) - 1, 1, g - w);
    ShlShl(1, w, g - w);
    ShlShl(1, l, g - w - l);
  }

  /** Tables for the code lengths `b`: they find the symbol that starts a stream, or that
      there is none; a null table when there are no codes. */
  ghost predicate Tabled(b: seq<nat>, s: nat, d: seq<nat>, e: seq<nat>, tabs: Tables, l: nat)
  {
    && |d| == |e| && |b| <= s + |d|
    && ((tabs == [] && l == 0 && NoCodes(b)) || (WellLinked(tabs, l) && DecodesAll(b, s, d, e, tabs, l) && RejectsRest(b, tabs, l)))
  }

  /** How many bits a lookup asks for, with tables for the lengths `b` whose first is indexed with `l` bits. */
  ghost function AskedIn(b: seq<nat>, l: nat, g: nat, stream: nat): nat
  {
    var sym := SymbolOf(b, stream);
    if sym.Some? && 1 <= l && 1 <= b[sym.value] <= g then AskedFor(CountsOf(b), g, l, stream, b[sym.value]) else l
  }

  /** The same, for tables that were made for `m` bits. */
  ghost function Asked(b: seq<nat>, m: nat, stream: nat): nat
  {
    if NoCodes(b) || !(exists j, g :: IsRange(CountsOf(b), j, g)) then 0
    else
      var j, g :| IsRange(CountsOf(b), j, g);
      AskedIn(b, LookupBits(m, j, g), g, stream)
  }

  /** The tables ask for what the lengths prescribe. */
  ghost predicate Asking(b: seq<nat>, m: nat, tabs: Tables, l: nat)
  {
    forall stream :: Asks(tabs, 0, l, stream, 0) == Asked(b, m, stream)
  }

  lemma AskedIs(b: seq<nat>, m: nat, j: nat, g: nat, stream: nat)
    requires !NoCodes(b) && IsRange(CountsOf(b), j, g)
    ensures Asked(b, m, stream) == AskedIn(b, LookupBits(m, j, g), g, stream)
  {
    hide AskedIn, NoCodes;
  }

  lemma AskingNone(b: seq<nat>, m: nat)
    requires NoCodes(b)
    ensures Asking(b, m, [], 0)
  {
  }

  /** With a single table, all its index bits. */
  lemma AskingOne(b: seq<nat>, m: nat, j: nat, g: nat, tabs: Tables)
    requires ValidLengths(b) && !NoCodes(b) && IsRange(CountsOf(b), j, g) && LookupBits(m, j, g) == g
    requires |tabs| > 0 && forall x :: 0 <= x < |tabs[0]| ==> !IsLink(tabs[0][x])
    ensures Asking(b, m, tabs, g)
  {
    forall stream ensures Asks(tabs, 0, g, stream, 0) == Asked(b, m, stream) {
      AskedIs(b, m, j, g, stream);
      hide Asked, SymbolOf, TableBits;
    }
  }

  /** With a complete set, what the code at the start of the stream prescribes. */
  lemma AskingAll(b: seq<nat>, s: nat, d: seq<nat>, e: seq<nat>, m: nat, j: nat, g: nat, tabs: Tables)
    requires ValidLengths(b) && !NoCodes(b) && IsRange(CountsOf(b), j, g) && Complete(CountsOf(b), g)
    requires |d| == |e| && |b| <= s + |d| && LookupBits(m, j, g) >= 1
    requires var l := LookupBits(m, j, g); AsksAll(CountsOf(b), g, tabs, l) && DecodesAll(b, s, d, e, tabs, l)
    ensures Asking(b, m, tabs, LookupBits(m, j, g))
  {
    hide WalkAt, Asks, Asked, AskedFor, LookupBits;
    var l := LookupBits(m, j, g);
    forall stream ensures Asks(tabs, 0, l, stream, 0) == Asked(b, m, stream) {
      AskedIs(b, m, j, g, stream);
      var sym := UniqueSymbol(b, g, stream);
      var o := SymbolOf(b, stream);
      LongestIs(b, j, g, o.value);
      assert WalkAt(tabs, 0, l, stream, 0).Done? && WalkAt(tabs, 0, l, stream, 0).bits == b[o.value];
    }
  }

  lemma LongestIs(b: seq<nat>, j: nat, g: nat, sym: nat)
    requires ValidLengths(b) && IsRange(CountsOf(b), j, g) && sym < |b|
    ensures b[sym] <= g
  {
    CountSplit(b, sym, b[sym]);
    assert CountsOf(b)[b[sym]] > 0;
  }

  lemma AcceptedMeans(b: seq<nat>, j: nat, g: nat)
    requires ValidLengths(b) && IsRange(CountsOf(b), j, g) && !Oversubscribed(CountsOf(b))
    ensures End(CountsOf(b), g) <= Pow2(g)
    ensures Accepted(b) <==> End(CountsOf(b), g) == Pow2(g) || g == 1
  {
    var c := CountsOf(b);
    EndTail(c, g, BMAX);
    ShlMono(End(c, g), Pow2(g), BMAX - g);
    ShlMono(Pow2(g), End(c, g), BMAX - g);
    ShlShl(1, g, BMAX - g);
    Pow2Mono(0, BMAX - g);
    assert c[g] == CountOf(b, g) > 0;
    var sym := SymbolAt(b, g, 0);
    assert !NoCodes(b);
    if g == 1 {
      forall i | 0 <= i < |b| ensures b[i] <= 1 {
        CountSplit(b, i, b[i]);
        assert c[b[i]] > 0;
      }
      assert First(c, 1) == 0 && End(c, 1) == c[1] && Pow2(1) == 2;
    }
  }

  /** The width condition for every call of the decompressor. */
  lemma CallsAreSafe(b: seq<nat>, m: nat, j: nat, g: nat, y: nat)
    requires ValidLengths(b) && IsRange(CountsOf(b), j, g) && Complete(Padded(CountsOf(b), g, y), g) && 1 <= m
    requires (forall i :: 0 <= i < |b| ==> b[i] <= 2 * m) || (|b| < Pow2(m) && (y == 0 || g == 1))
    ensures !Skips(Padded(CountsOf(b), g, y), g, LookupBits(m, j, g))
  {
    var c := CountsOf(b);
    var cnt, l := Padded(c, g, y), LookupBits(m, j, g);
    assert c[g] == CountOf(b, g) > 0;
    var sym := SymbolAt(b, g, 0);
    if g > 2 * l {
      assert cnt == c && m <= l;
      TotalCount(b);
      OffMono(c, g + 1, BMAX + 1);
      Pow2Mono(m, l);
    }
    NeverSkips(cnt, g, l);
  }

  /** `huft_build` as the decompressor uses it: every set it accepts gets tables that decode. */
  method BuildFor(b: seq<nat>, s: nat, d: seq<nat>, e: seq<nat>, m: nat) returns (result: nat, tabs: Tables, l: nat)
    requires 1 <= |b| <= N_MAX && ValidLengths(b) && 1 <= m
    requires |d| == |e| && |b| <= s + |d| && forall i :: 0 <= i < |e| ==> e[i] <= 13 || e[i] == INVALID
    requires (forall i :: 0 <= i < |b| ==> b[i] <= 2 * m) || |b| < Pow2(m)
    ensures result == 0 <==> Accepted(b)
    ensures result == 0 ==> Tabled(b, s, d, e, tabs, l)
    ensures result == 1 && (forall i :: 0 <= i < |b| ==> b[i] <= 2 * m) ==> Tabled(b, s, d, e, tabs, l)
    ensures result == 0 || (result == 1 && forall i :: 0 <= i < |b| ==> b[i] <= m) ==> Asking(b, m, tabs, l)
    ensures result <= 1 ==> Width(b, m, l)
    ensures result == 2 ==> Oversubscribed(CountsOf(b))
    ensures result <= 2 && (tabs != [] && (forall i :: 0 <= i < |b| ==> b[i] <= m) ==> OneTable(tabs))
  {
    hide WalkAt, Asks, Asking, AsksAll, DecodesAll, RejectsRest, Skips;
    ghost var g;
    result, tabs, l, g := Build(b, s, d, e, m);
    if !NoCodes(b) {
      if result == 2 {
        OverNotAccepted(b);
      } else {
        ghost var j :| IsRange(CountsOf(b), j, g) && l == LookupBits(m, j, g);
        AcceptedMeans(b, j, g);
        ghost var y := Pow2(g) - End(CountsOf(b), g);
        PaddedBelow(CountsOf(b), g, y, g);
        if (forall i :: 0 <= i < |b| ==> b[i] <= 2 * m) || result == 0 {
          CallsAreSafe(b, m, j, g, y);
        }
        if forall i :: 0 <= i < |b| ==> b[i] <= m {
          assert CountsOf(b)[g] == CountOf(b, g);
          ghost var sym := SymbolAt(b, g, 0);
        }
        if l == g {
          AskingOne(b, m, j, g, tabs);
        } else if result == 0 {
          AskingAll(b, s, d, e, m, j, g, tabs);
        }
      }
    } else {
      AskingNone(b, m);
    }
  }

  predicate OneTable(tabs: Tables)
  {
    |tabs| > 0 && forall x :: 0 <= x < |tabs[0]| ==> !IsLink(tabs[0][x])
  }

  lemma OverNotAccepted(b: seq<nat>)
    requires ValidLengths(b) && Oversubscribed(CountsOf(b)) && !NoCodes(b)
    ensures !Accepted(b)
  {
    var c := CountsOf(b);
    if CountOf(b, 1) == 1 && forall i :: 0 <= i < |b| ==> b[i] <= 1 {
      forall L | 1 < L < |c| ensures c[L] == 0 {
        if c[L] > 0 {
          var sym := SymbolAt(b, L, 0);
        }
      }
      Pow2Mono(BMAX - 1, BMAX);
      EndTail(c, 1, BMAX);
    }
  }

  lemma {:induction false} CountAppend(a: seq<nat>, b: seq<nat>, L: nat)
    ensures CountOf(a + b, L) == CountOf(a, L) + CountOf(b, L)
  {
    if |b| == 0 {
      assert a + b == a;
    } else {
      assert (a + b)[..|a + b| - 1] == a + b[..|b| - 1];
      CountAppend(a, b[..|b| - 1], L);
    }
  }

  lemma {:induction false} CountRun(L: nat, n: nat, M: nat)
    ensures CountOf(Run(L, n), M) == if L == M then n else 0
  {
    if n != 0 {
      assert Run(L, n)[..n - 1] == Run(L, n - 1);
      CountRun(L, n - 1, M);
    }
  }

  lemma FixedLitCount(L: nat)
    ensures CountOf(FIXED_LIT, L) == if L == 7 then 24 else if L == 8 then 152 else if L == 9 then 112 else 0
  {
    hide CountOf, Run;
    CountRun(8, 144, L); CountRun(9, 112, L); CountRun(7, 24, L); CountRun(8, 8, L);
    CountAppend(Run(8, 144), Run(9, 112), L);
    CountAppend(Run(8, 144) + Run(9, 112), Run(7, 24), L);
    CountAppend(Run(8, 144) + Run(9, 112) + Run(7, 24), Run(8, 8), L);
  }

  lemma EndIs(cnt: Counts, j: nat, g: nat)
    requires |cnt| == BMAX + 1 && 1 <= j <= g <= BMAX
    requires forall L :: 1 <= L < j || g < L <= BMAX ==> cnt[L] == 0
    ensures End(cnt, j) == cnt[j]
    ensures End(cnt, BMAX) == Shl(End(cnt, g), BMAX - g)
  {
    NoneShorter(cnt, j);
    EndTail(cnt, g, BMAX);
  }

  lemma EndTwice(cnt: Counts, L: nat)
    requires 1 <= L <= BMAX && |cnt| == BMAX + 1
    ensures End(cnt, L) == 2 * End(cnt, L - 1) + cnt[L]
  {
  }

  /** Five codes of 1, 2, 3, 4 and 4 bits, looked up one bit at a time: a table is too wide. */
  lemma WideTable()
    ensures var b := [1, 2, 3, 4, 4]; Complete(CountsOf(b), 4) && IsRange(CountsOf(b), 1, 4) && LookupBits(1, 1, 4) == 1
    ensures Skips(CountsOf([1, 2, 3, 4, 4]), 4, 1)
  {
    var c := CountsOf([1, 2, 3, 4, 4]);
    forall L | 1 <= L <= BMAX ensures c[L] == if L <= 3 then 1 else if L == 4 then 2 else 0 {
      WideCount(L);
    }
    hide CountsOf;
    assert End(c, 0) == 0 && End(c, 1) == 1 && End(c, 2) == 3 && End(c, 3) == 7 && End(c, 4) == 16;
    assert Pow2(4) == 16 && Pow2(1) == 2 && Shl(1, 0) == 1;
    assert Level(1, 1);
    assert SkipsAt(c, 4, 1, 1);
  }

  lemma WideCount(L: nat)
    ensures L >= 1 ==> CountOf([1, 2, 3, 4, 4], L) == if L <= 3 then 1 else if L == 4 then 2 else 0
  {
    CountAppend([1, 2], [3, 4, 4], L);
    CountAppend([1], [2], L);
    CountAppend([3], [4, 4], L);
    CountAppend([4], [4], L);
    OneCount(1, L); OneCount(2, L); OneCount(3, L); OneCount(4, L);
    assert [1, 2] + [3, 4, 4] == [1, 2, 3, 4, 4] && [1] + [2] == [1, 2] && [3] + [4, 4] == [3, 4, 4] && [4] + [4] == [4, 4];
  }

  lemma OneCount(x: nat, L: nat)
    ensures CountOf([x], L) == if x == L then 1 else 0
  {
    assert [x][..0] == [];
  }

  /** The fixed literal code is complete. */
  lemma FixedLit()
    ensures |FIXED_LIT| == 288 && Accepted(FIXED_LIT)
    ensures forall i :: 0 <= i < 288 ==> FIXED_LIT[i] <= 9
  {
    FixedLitBits();
    FixedLitComplete();
  }

  lemma FixedLitBits()
    ensures |FIXED_LIT| == 288 && forall i :: 0 <= i < 288 ==> FIXED_LIT[i] <= 9
  {
  }

  lemma FixedLitSet()
    ensures ValidLengths(FIXED_LIT) && Complete(CountsOf(FIXED_LIT), 9)
  {
    FixedLitBits();
    hide FIXED_LIT;
    var c := CountsOf(FIXED_LIT);
    forall L | 0 <= L <= BMAX ensures c[L] == if L == 7 then 24 else if L == 8 then 152 else if L == 9 then 112 else 0 {
      FixedLitCount(L);
    }
    assert Pow2(9) == 512;
    hide CountOf, Shl, End, Pow2;
    EndIs(c, 7, 9);
    EndTwice(c, 8);
    EndTwice(c, 9);
  }

  lemma FixedLitComplete()
    ensures Accepted(FIXED_LIT)
  {
    hide FIXED_LIT, CountOf, Shl, End, CountsOf;
    FixedLitSet();
    EndTail(CountsOf(FIXED_LIT), 9, BMAX);
    ShlShl(1, 9, BMAX - 9);
  }

  /** The fixed distance code leaves two patterns unused. */
  lemma FixedDist()
    ensures |FIXED_DIST| == 30 && !Oversubscribed(CountsOf(FIXED_DIST))
    ensures forall i :: 0 <= i < 30 ==> FIXED_DIST[i] == 5
  {
    var d := CountsOf(FIXED_DIST);
    forall L | 0 <= L <= BMAX ensures d[L] == if L == 5 then 30 else 0 {
      CountRun(5, 30, L);
    }
    assert Pow2(5) == 32;
    hide CountOf, Shl, End, Pow2;
    EndIs(d, 5, 5);
    ShlMono(30, 32, BMAX - 5);
    ShlShl(1, 5, BMAX - 5);
  }
}
