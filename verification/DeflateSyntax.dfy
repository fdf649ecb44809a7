/**
 The other direction: compressed data as RFC 1951 lets a compressor write it, block by block and code by
 code, and the theorem that what is written so is read back. A block is given by the choices that a
 compressor has: the kind of block, the codes and how their lengths are coded, the literals and matches.

 Three things can be written here that RFC 1951 has no room for, since the code accepts them: a match that reaches
 before the beginning of the output, a repetition before the first code length, and length 258 with code 284.

 Bits are written in front of a stream: `Put(v, k, rest)` has the `k` bits of `v` first and then `rest`.
 */
module DeflateSyntax {
  import opened Common
  import opened Bits
  import opened Huffman
  import opened HuftLoop
  import opened HuftBuild
  import opened Deflate
  import opened DeflateTables

  /** `code` is the length code, counted from 257; only length 258 has two. */
  datatype Item = Literal(c: Byte) | Match(code: nat, len: nat, dist: nat)

  /** One step in coding the code lengths: a length, a repetition of the one before, or a run of zeros. */
  datatype Step = Len(len: nat) | Again(n: nat) | Zeros(n: nat)

  /** `pad` is what stands in the bits up to the next byte. */
  datatype Block =
    | Stored(pad: nat, data: seq<Byte>)
    | Fixed(items: seq<Item>)
    | Dynamic(nl: nat, nd: nat, nb: nat, cl: seq<nat>, steps: seq<Step>, items: seq<Item>)

  function Put(v: nat, k: nat, rest: nat): nat
  {
    Shl(rest, k) + v
  }

  lemma Got(v: nat, k: nat, rest: nat)
    requires v < Pow2(k)
    ensures Low(Put(v, k, rest), k) == v && Shr(Put(v, k, rest), k) == rest
  {
    Join(rest, v, k);
  }

  /** The code of a symbol, its first bit first. */
  function PutCode(b: seq<nat>, sym: nat, rest: nat): nat
    requires sym < |b|
  {
    Put(Rev(CodeOf(b, sym), b[sym]), b[sym], rest)
  }

  /** Lengths that give every symbol a code that no other code begins with. */
  lemma {:induction false} CodeRead(b: seq<nat>, sym: nat, rest: nat)
    requires Fitting(b) && sym < |b| && b[sym] > 0
    ensures SymbolOf(b, PutCode(b, sym, rest)) == Some(sym) && Shr(PutCode(b, sym, rest), b[sym]) == rest
  {
    hide CodeOf, Rev, Shl, Low, Shr, Fitting;
    RevBound(CodeOf(b, sym), b[sym]);
    Got(Rev(CodeOf(b, sym), b[sym]), b[sym], rest);
    var s := PutCode(b, sym, rest);
    var r := SymbolOf(b, s);
    assert Starts(b, sym, s);
    OneSymbol(b, s, sym, r.value);
  }

  /** What an item adds to the output. */
  function Written(hist: seq<Byte>, t: Item): (h: seq<Byte>)
    requires WSIZE <= |hist| && (t.Match? ==> 1 <= t.dist <= WSIZE)
    ensures |h| == |hist| + if t.Match? then t.len else 1
  {
    match t
    case Literal(c) => hist + [c]
    case Match(i, n, d) =>
      CopyGrows(hist, n, d);
      CopyBack(hist, n, d)
  }

  /** The item is one that the format has, and all its symbols have codes. */
  predicate CanPut(lit: seq<nat>, dist: seq<nat>, t: Item)
  {
    match t
    case Literal(c) => c < |lit| && lit[c] > 0
    case Match(i, n, d) =>
      && i < 29 && CPLENS[i] <= n < CPLENS[i] + Pow2(CPLEXT[i]) && 257 + i < |lit| && lit[257 + i] > 0
      && 1 <= d <= WSIZE && DistanceCode(d) < |dist| && dist[DistanceCode(d)] > 0
  }

  /** Section 3.2.5: a code for a literal; or a length code, its extra bits, a distance code, its extra bits. */
  function PutItem(lit: seq<nat>, dist: seq<nat>, t: Item, rest: nat): nat
    requires CanPut(lit, dist, t)
  {
    match t
    case Literal(c) => PutCode(lit, c, rest)
    case Match(i, n, d) =>
      EveryDistance(d, 0, 0);
      var j := DistanceCode(d);
      PutCode(lit, 257 + i, Put(n - CPLENS[i], CPLEXT[i], PutCode(dist, j, Put(d - CPDIST[j], CPDEXT[j], rest))))
  }

  function ItemSize(lit: seq<nat>, dist: seq<nat>, t: Item): nat
    requires CanPut(lit, dist, t)
  {
    match t
    case Literal(c) => lit[c]
    case Match(i, n, d) =>
      EveryDistance(d, 0, 0);
      lit[257 + i] + CPLEXT[i] + dist[DistanceCode(d)] + CPDEXT[DistanceCode(d)]
  }

  lemma {:induction false} MatchRead(dist: seq<nat>, i: nat, n: nat, d: nat, rest: nat, left: nat, hist: seq<Byte>)
    requires |dist| <= |CPDIST| && Fitting(dist) && WSIZE <= |hist| && |CPLENS| == |CPLEXT| == 31 && |CPDIST| == |CPDEXT| == 30
    requires i < 29 && 1 <= d <= WSIZE && DistanceCode(d) < |dist| && dist[DistanceCode(d)] > 0
    requires var j := DistanceCode(d);
      && CPLENS[i] <= n < CPLENS[i] + Pow2(CPLEXT[i]) && CPDIST[j] <= d < CPDIST[j] + Pow2(CPDEXT[j])
      && left >= CPLEXT[i] + dist[j] + CPDEXT[j]
    ensures var j := DistanceCode(d);
      RefMatch(dist, 257 + i, Put(n - CPLENS[i], CPLEXT[i], PutCode(dist, j, Put(d - CPDIST[j], CPDEXT[j], rest))), left, hist) ==
      Good(rest, left - CPLEXT[i] - dist[j] - CPDEXT[j], CopyBack(hist, n, d))
  {
    hide Put, PutCode, Low, Shr, Fitting, CopyBack, CPLENS, CPLEXT, CPDIST, CPDEXT, Pow2, SymbolOf, DistanceCode;
    var j := DistanceCode(d);
    var s3 := Put(d - CPDIST[j], CPDEXT[j], rest);
    var s2 := PutCode(dist, j, s3);
    Got(n - CPLENS[i], CPLEXT[i], s2);
    CodeRead(dist, j, s3);
    Got(d - CPDIST[j], CPDEXT[j], rest);
  }

  lemma {:induction false} ItemRead(lit: seq<nat>, dist: seq<nat>, t: Item, rest: nat, left: nat, hist: seq<Byte>)
    requires |dist| <= |CPDIST| && Fitting(lit) && Fitting(dist) && WSIZE <= |hist| && CanPut(lit, dist, t)
    requires left >= ItemSize(lit, dist, t)
    ensures WSIZE <= |Written(hist, t)|
    ensures RefCodes(lit, dist, PutItem(lit, dist, t, rest), left, hist) ==
            RefCodes(lit, dist, rest, left - ItemSize(lit, dist, t), Written(hist, t))
  {
    hide Put, PutCode, Low, Shr, Fitting, CopyBack, CPLENS, CPLEXT, CPDIST, CPDEXT, Pow2, SymbolOf, RefMatch, RefCodes, DistanceCode;
    CodesStep(lit, dist, PutItem(lit, dist, t, rest), left, hist);
    match t
    case Literal(c) =>
      CodeRead(lit, c, rest);
    case Match(i, n, d) =>
      var j := DistanceCode(d);
      LengthTable(0);
      EveryDistance(d, 0, 0);
      var s1 := Put(n - CPLENS[i], CPLEXT[i], PutCode(dist, j, Put(d - CPDIST[j], CPDEXT[j], rest)));
      CodeRead(lit, 257 + i, s1);
      MatchRead(dist, i, n, d, rest, left - lit[257 + i], hist);
      CopyGrows(hist, n, d);
  }

  predicate CanPutAll(lit: seq<nat>, dist: seq<nat>, ts: seq<Item>)
  {
    256 < |lit| && lit[256] > 0 && forall k :: 0 <= k < |ts| ==> CanPut(lit, dist, ts[k])
  }

  /** The items of a block and the code that ends it. */
  function PutItems(lit: seq<nat>, dist: seq<nat>, ts: seq<Item>, rest: nat): nat
    requires CanPutAll(lit, dist, ts)
  {
    if |ts| == 0 then PutCode(lit, 256, rest) else PutItem(lit, dist, ts[0], PutItems(lit, dist, ts[1..], rest))
  }

  function ItemsSize(lit: seq<nat>, dist: seq<nat>, ts: seq<Item>): nat
    requires CanPutAll(lit, dist, ts)
  {
    if |ts| == 0 then lit[256] else ItemSize(lit, dist, ts[0]) + ItemsSize(lit, dist, ts[1..])
  }

  function AllWritten(hist: seq<Byte>, ts: seq<Item>): (h: seq<Byte>)
    requires WSIZE <= |hist| && forall k :: 0 <= k < |ts| ==> ts[k].Match? ==> 1 <= ts[k].dist <= WSIZE
    ensures |hist| <= |h|
    decreases |ts|
  {
    if |ts| == 0 then hist else AllWritten(Written(hist, ts[0]), ts[1..])
  }

  lemma {:induction false} ItemsRead(lit: seq<nat>, dist: seq<nat>, ts: seq<Item>, rest: nat, left: nat, hist: seq<Byte>)
    requires |dist| <= |CPDIST| && Fitting(lit) && Fitting(dist) && WSIZE <= |hist| && CanPutAll(lit, dist, ts)
    requires left >= ItemsSize(lit, dist, ts)
    ensures RefCodes(lit, dist, PutItems(lit, dist, ts, rest), left, hist) ==
            Good(rest, left - ItemsSize(lit, dist, ts), AllWritten(hist, ts))
    decreases |ts|
  {
    hide PutItem, ItemSize, PutCode, Shr, Fitting, RefCodes, RefMatch, Written, SymbolOf;
    if |ts| == 0 {
      CodeRead(lit, 256, rest);
      CodesStep(lit, dist, PutCode(lit, 256, rest), left, hist);
    } else {
      ItemRead(lit, dist, ts[0], PutItems(lit, dist, ts[1..], rest), left, hist);
      ItemsRead(lit, dist, ts[1..], rest, left - ItemSize(lit, dist, ts[0]), Written(hist, ts[0]));
    }
  }

  /** Section 3.2.7: the code for a step and its extra bits. */
  function StepCode(t: Step): nat
  {
    match t
    case Len(len) => len
    case Again(n) => 16
    case Zeros(n) => if n <= 10 then 17 else 18
  }

  /** What is added to a repeat count of 0, and how many bits the count has. */
  function StepBase(t: Step): (nat, nat)
  {
    match t
    case Len(len) => (0, 0)
    case Again(n) => (3, 2)
    case Zeros(n) => if n <= 10 then (3, 3) else (11, 7)
  }

  predicate CanStep(cl: seq<nat>, t: Step)
  {
    && |cl| == 19 && StepCode(t) < 19 && cl[StepCode(t)] > 0
    && match t
       case Len(len) => len <= 15
       case Again(n) => 3 <= n <= 6
       case Zeros(n) => 3 <= n <= 138
  }

  /** The lengths after a step. */
  function Stepped(lens: seq<nat>, t: Step): seq<nat>
  {
    match t
    case Len(len) => lens + [len]
    case Again(n) => lens + Run(LastLen(lens), n)
    case Zeros(n) => lens + Run(0, n)
  }

  /** How often a step repeats, less the least number of times. */
  function StepCount(t: Step): nat
    requires t.Again? || t.Zeros? ==> t.n >= StepBase(t).0
  {
    if t.Len? then 0 else t.n - StepBase(t).0
  }

  function PutStep(cl: seq<nat>, t: Step, rest: nat): nat
    requires CanStep(cl, t)
  {
    PutCode(cl, StepCode(t), Put(StepCount(t), StepBase(t).1, rest))
  }

  function StepSize(cl: seq<nat>, t: Step): nat
    requires CanStep(cl, t)
  {
    cl[StepCode(t)] + StepBase(t).1
  }

  predicate Small(lens: seq<nat>)
  {
    forall i :: 0 <= i < |lens| ==> lens[i] <= 15
  }

  lemma {:induction false} StepRead(cl: seq<nat>, n: nat, lens: seq<nat>, t: Step, rest: nat, left: nat)
    requires Fitting(cl) && CanStep(cl, t) && Small(lens) && |lens| < n && |Stepped(lens, t)| <= n
    requires left >= StepSize(cl, t)
    ensures Small(Stepped(lens, t))
    ensures RefLengths(cl, n, PutStep(cl, t, rest), left, lens) ==
            RefLengths(cl, n, rest, left - StepSize(cl, t), Stepped(lens, t))
  {
    SmallPowers();
    hide Put, PutCode, Low, Shr, Fitting, Pow2, SymbolOf;
    var s1 := Put(StepCount(t), StepBase(t).1, rest);
    CodeRead(cl, StepCode(t), s1);
    Got(StepCount(t), StepBase(t).1, rest);
    ShrZero(s1);
  }

  /** The steps give exactly `n` lengths, none going beyond. */
  predicate CanStepAll(cl: seq<nat>, n: nat, lens: seq<nat>, ts: seq<Step>)
    decreases |ts|
  {
    if |ts| == 0 then |lens| == n
    else CanStep(cl, ts[0]) && |lens| < n && |Stepped(lens, ts[0])| <= n && CanStepAll(cl, n, Stepped(lens, ts[0]), ts[1..])
  }

  function AllStepped(lens: seq<nat>, ts: seq<Step>): seq<nat>
    decreases |ts|
  {
    if |ts| == 0 then lens else AllStepped(Stepped(lens, ts[0]), ts[1..])
  }

  function PutSteps(cl: seq<nat>, n: nat, lens: seq<nat>, ts: seq<Step>, rest: nat): nat
    requires CanStepAll(cl, n, lens, ts)
    decreases |ts|
  {
    if |ts| == 0 then rest
    else PutStep(cl, ts[0], PutSteps(cl, n, Stepped(lens, ts[0]), ts[1..], rest))
  }

  function StepsSize(cl: seq<nat>, n: nat, lens: seq<nat>, ts: seq<Step>): nat
    requires CanStepAll(cl, n, lens, ts)
    decreases |ts|
  {
    if |ts| == 0 then 0
    else StepSize(cl, ts[0]) + StepsSize(cl, n, Stepped(lens, ts[0]), ts[1..])
  }

  lemma {:induction false} LengthsEnd(cl: seq<nat>, n: nat, s: nat, left: nat, lens: seq<nat>)
    requires |cl| == 19 && |lens| == n && Small(lens)
    ensures RefLengths(cl, n, s, left, lens) == GoodLens(s, left, lens)
  {
  }

  lemma {:induction false} StepsRead(cl: seq<nat>, n: nat, lens: seq<nat>, ts: seq<Step>, rest: nat, left: nat)
    requires |cl| == 19 && Fitting(cl) && Small(lens) && |lens| <= n && CanStepAll(cl, n, lens, ts)
    requires left >= StepsSize(cl, n, lens, ts)
    ensures RefLengths(cl, n, PutSteps(cl, n, lens, ts, rest), left, lens) ==
            GoodLens(rest, left - StepsSize(cl, n, lens, ts), AllStepped(lens, ts))
    ensures |AllStepped(lens, ts)| == n && Small(AllStepped(lens, ts))
    decreases |ts|
  {
    hide PutStep, StepSize, Stepped, Fitting, RefLengths, CanStep;
    if |ts| == 0 {
      LengthsEnd(cl, n, rest, left, lens);
    } else {
      var t, tail := ts[0], PutSteps(cl, n, Stepped(lens, ts[0]), ts[1..], rest);
      StepRead(cl, n, lens, t, tail, left);
      StepsRead(cl, n, Stepped(lens, t), ts[1..], rest, left - StepSize(cl, t));
    }
  }

  /** Section 3.2.7: the lengths of the code length code from place `j` of their order on. */
  function PutClens(j: nat, nb: nat, cl: seq<nat>, rest: nat): nat
    requires j <= nb <= 19 == |cl|
    decreases nb - j
  {
    if j == nb then rest
    else
      CodeLengthOrder(j);
      Put(cl[BORDER[j]], 3, PutClens(j + 1, nb, cl, rest))
  }

  lemma {:induction false} ClensRead(j: nat, nb: nat, cl: seq<nat>, rest: nat, acc: seq<nat>)
    requires j <= nb <= 19 == |cl| == |acc| && (forall i :: 0 <= i < 19 ==> cl[i] <= 7 && acc[i] <= 7)
    ensures forall m :: 0 <= m < 19 ==> RefClens(j, nb, PutClens(j, nb, cl, rest), acc)[m] == if j <= Place(m) < nb then cl[m] else acc[m]
    ensures Shr(PutClens(j, nb, cl, rest), 3 * (nb - j)) == rest
    decreases nb - j
  {
    hide Put, Shr, Low, BORDER, Place;
    if j == nb {
      ShrZero(rest);
    } else {
      CodeLengthOrder(j);
      SmallPowers();
      var s := PutClens(j + 1, nb, cl, rest);
      Got(cl[BORDER[j]], 3, s);
      var next := acc[BORDER[j] := cl[BORDER[j]]];
      ClensRead(j + 1, nb, cl, rest, next);
      forall m | 0 <= m < 19 ensures (if j + 1 <= Place(m) < nb then cl[m] else next[m]) == if j <= Place(m) < nb then cl[m] else acc[m] {
        assert m == BORDER[j] <==> Place(m) == j;
      }
      ShrShr(PutClens(j, nb, cl, rest), 3, 3 * (nb - j - 1));
    }
  }

  /** The choices are within the bounds of the format, and of the code: at most 286 and 30 codes. */
  predicate CanPutCodes(b: Block)
    requires b.Dynamic?
  {
    && 257 <= b.nl <= 286 && 1 <= b.nd <= 30 && 4 <= b.nb <= 19 && |b.cl| == 19
    && CanStepAll(b.cl, b.nl + b.nd, [], b.steps)
  }

  /** The code lengths that are not there are zero, and those that are there make a code. */
  predicate CanCodeLengths(nb: nat, cl: seq<nat>)
  {
    |cl| == 19 && (forall m :: 0 <= m < 19 ==> cl[m] <= 7 && (Place(m) >= nb ==> cl[m] == 0)) && Accepted(cl)
  }

  /** The header of a block with its own codes, up to their lengths. */
  function PutHeader(b: Block, rest: nat): nat
    requires b.Dynamic? && CanPutCodes(b)
  {
    Put(b.nl - 257, 5, Put(b.nd - 1, 5, Put(b.nb - 4, 4, PutClens(0, b.nb, b.cl, PutSteps(b.cl, b.nl + b.nd, [], b.steps, rest)))))
  }

  function HeaderSize(b: Block): nat
    requires b.Dynamic? && CanPutCodes(b)
  {
    14 + 3 * b.nb + StepsSize(b.cl, b.nl + b.nd, [], b.steps)
  }

  lemma {:induction false} AcceptedFits(b: seq<nat>)
    requires Accepted(b) && ValidLengths(b)
    ensures Fitting(b)
  {
    var c := CountsOf(b);
    if NoCodes(b) {
      forall L | 1 <= L < |c| ensures c[L] == 0 {
        if c[L] > 0 {
          var sym := SymbolAt(b, L, 0);
        }
      }
      hide CountsOf;
      NoneShorter(c, BMAX);
    } else if Oversubscribed(c) {
      OverNotAccepted(b);
    }
  }

  /** The code lengths of both alphabets, those of the literals and lengths first. */
  function Lens(b: Block): (lens: seq<nat>)
    requires b.Dynamic? && CanPutCodes(b)
    ensures |lens| == b.nl + b.nd
  {
    SteppedTo(b.cl, b.nl + b.nd, [], b.steps);
    AllStepped([], b.steps)
  }

  lemma {:induction false} SteppedTo(cl: seq<nat>, n: nat, lens: seq<nat>, ts: seq<Step>)
    requires CanStepAll(cl, n, lens, ts)
    ensures |AllStepped(lens, ts)| == n
    decreases |ts|
  {
    if |ts| > 0 {
      SteppedTo(cl, n, Stepped(lens, ts[0]), ts[1..]);
    }
  }

  /** The three counts at the start of a header. */
  lemma {:induction false} CountsRead(nl: nat, nd: nat, nb: nat, s: nat)
    requires 257 <= nl <= 286 && 1 <= nd <= 30 && 4 <= nb <= 19
    ensures var stream := Put(nl - 257, 5, Put(nd - 1, 5, Put(nb - 4, 4, s)));
      Low(stream, 5) == nl - 257 && Low(Shr(stream, 5), 5) == nd - 1 && Low(Shr(stream, 10), 4) == nb - 4 && Shr(stream, 14) == s
  {
    SmallPowers();
    hide Put, Low, Shr, Pow2;
    var s2 := Put(nb - 4, 4, s);
    var s1 := Put(nd - 1, 5, s2);
    var stream := Put(nl - 257, 5, s1);
    Got(nb - 4, 4, s);
    Got(nd - 1, 5, s2);
    Got(nl - 257, 5, s1);
    ShrShr(stream, 5, 5);
    ShrShr(stream, 10, 4);
  }

  lemma {:induction false} HeaderRead(b: Block, rest: nat, left: nat)
    requires b.Dynamic? && CanPutCodes(b) && CanCodeLengths(b.nb, b.cl) && left >= HeaderSize(b)
    ensures Low(PutHeader(b, rest), 5) == b.nl - 257 && Small(Lens(b))
    ensures RefHeader(PutHeader(b, rest), left) == GoodLens(rest, left - HeaderSize(b), Lens(b))
  {
    hide Put, Low, Shr, Accepted, Fitting, RefLengths, RefClens, PutClens, PutSteps, StepsSize, CanStepAll, AllStepped;
    var s4 := PutSteps(b.cl, b.nl + b.nd, [], b.steps, rest);
    var s3, zero := PutClens(0, b.nb, b.cl, s4), Run(0, 19);
    var stream := PutHeader(b, rest);
    CountsRead(b.nl, b.nd, b.nb, s3);
    ClensRead(0, b.nb, b.cl, s4, zero);
    ShrShr(stream, 14, 3 * b.nb);
    assert RefClens(0, b.nb, s3, zero) == b.cl;
    AcceptedFits(b.cl);
    StepsRead(b.cl, b.nl + b.nd, [], b.steps, rest, left - 14 - 3 * b.nb);
  }

  /** Everything that the block needs is there. */
  predicate CanPutBlock(b: Block)
  {
    match b
    case Stored(pad, data) => |data| <= 0xffff
    case Fixed(items) => CanPutAll(FIXED_LIT, FIXED_DIST, items)
    case Dynamic(nl, nd, nb, cl, steps, items) =>
      && CanPutCodes(b) && CanCodeLengths(nb, cl) && Accepted(Lens(b)[..nl]) && Accepted(Lens(b)[nl..])
      && CanPutAll(Lens(b)[..nl], Lens(b)[nl..], items)
  }

  function PutDynamic(b: Block, rest: nat): nat
    requires b.Dynamic? && CanPutBlock(b)
  {
    PutHeader(b, PutItems(Lens(b)[..b.nl], Lens(b)[b.nl..], b.items, rest))
  }

  function DynamicSize(b: Block): nat
    requires b.Dynamic? && CanPutBlock(b)
  {
    HeaderSize(b) + ItemsSize(Lens(b)[..b.nl], Lens(b)[b.nl..], b.items)
  }

  /** What a block with codes says. */
  function Said(hist: seq<Byte>, b: Block): (h: seq<Byte>)
    requires WSIZE <= |hist| && !b.Stored? && CanPutBlock(b)
    ensures |hist| <= |h|
  {
    AllWritten(hist, b.items)
  }

  lemma {:induction false} DynamicRead(b: Block, rest: nat, left: nat, hist: seq<Byte>)
    requires b.Dynamic? && CanPutBlock(b) && WSIZE <= |hist| && left >= DynamicSize(b)
    ensures RefDynamic(PutDynamic(b, rest), left, hist) == Good(rest, left - DynamicSize(b), Said(hist, b))
  {
    hide PutHeader, RefHeader, HeaderSize, PutItems, ItemsSize, RefCodes, Accepted, Fitting, AllWritten, Lens, Low, CanPut;
    var lens := Lens(b);
    var lit, dist := lens[..b.nl], lens[b.nl..];
    HeaderRead(b, PutItems(lit, dist, b.items, rest), left);
    AcceptedFits(lit);
    AcceptedFits(dist);
    ItemsRead(lit, dist, b.items, rest, left - HeaderSize(b), hist);
  }

  function PutBytes(data: seq<Byte>, rest: nat): nat
  {
    if |data| == 0 then rest else Put(data[0], 8, PutBytes(data[1..], rest))
  }

  lemma {:induction false} BytesRead(data: seq<Byte>, rest: nat, left: nat, hist: seq<Byte>)
    requires left >= 8 * |data|
    ensures RefBytes(|data|, PutBytes(data, rest), left, hist) == Good(rest, left - 8 * |data|, hist + data)
    decreases |data|
  {
    SmallPowers();
    hide Put, Low, Shr, Pow2;
    if |data| > 0 {
      Got(data[0], 8, PutBytes(data[1..], rest));
      BytesRead(data[1..], rest, left - 8, hist + [data[0]]);
      assert hist + [data[0]] + data[1..] == hist + data;
    } else {
      assert hist + data == hist;
    }
  }

  /** Section 3.2.4: `k` bits up to the next byte, the length, its complement, the bytes. */
  function PutStored(pad: nat, k: nat, data: seq<Byte>, rest: nat): nat
    requires |data| <= 0xffff
  {
    Put(Low(pad, k), k, Put(|data|, 16, Put(0xffff - |data|, 16, PutBytes(data, rest))))
  }

  lemma {:induction false} StoredRead(pad: nat, k: nat, data: seq<Byte>, rest: nat, left: nat, hist: seq<Byte>)
    requires |data| <= 0xffff && k == left % 8 && left >= k + 32 + 8 * |data|
    ensures RefStored(PutStored(pad, k, data, rest), left, hist) == Good(rest, left - k - 32 - 8 * |data|, hist + data)
  {
    SmallPowers();
    hide Put, Low, Shr, Pow2, RefBytes, PutBytes;
    var s3 := PutBytes(data, rest);
    var s2 := Put(0xffff - |data|, 16, s3);
    var s1 := Put(|data|, 16, s2);
    Split(pad, k);
    Got(Low(pad, k), k, s1);
    Got(|data|, 16, s2);
    Got(0xffff - |data|, 16, s3);
    ShrShr(s1, 16, 16);
    BytesRead(data, rest, left - k - 32, hist);
  }

  /** The bits from a place in the stream to the next byte. */
  function ToByte(pos: nat): nat
  {
    (8 - pos % 8) % 8
  }

  /** Section 3.2.3: the mark of the last block, the kind of block, and the block, which begins at bit `pos`. */
  function PutBlock(b: Block, last: bool, pos: nat, rest: nat): nat
    requires CanPutBlock(b)
  {
    Put(if last then 1 else 0, 1,
        match b
        case Stored(pad, data) => Put(0, 2, PutStored(pad, ToByte(pos + 3), data, rest))
        case Fixed(items) => Put(1, 2, PutItems(FIXED_LIT, FIXED_DIST, items, rest))
        case Dynamic(nl, nd, nb, cl, steps, items) => Put(2, 2, PutDynamic(b, rest)))
  }

  function BlockSize(b: Block, pos: nat): (n: nat)
    requires CanPutBlock(b)
    ensures n >= 3
  {
    match b
    case Stored(pad, data) => 3 + ToByte(pos + 3) + 32 + 8 * |data|
    case Fixed(items) => 3 + ItemsSize(FIXED_LIT, FIXED_DIST, items)
    case Dynamic(nl, nd, nb, cl, steps, items) => 3 + DynamicSize(b)
  }

  function BlockWritten(hist: seq<Byte>, b: Block): (h: seq<Byte>)
    requires WSIZE <= |hist| && CanPutBlock(b)
    ensures |hist| <= |h|
  {
    if b.Stored? then hist + b.data else Said(hist, b)
  }

  lemma {:induction false} FixedFits()
    ensures Fitting(FIXED_LIT) && Fitting(FIXED_DIST)
  {
    hide FIXED_LIT, FIXED_DIST, Complete, CountsOf, End;
    FixedLitSet();
    CompleteFits(FIXED_LIT, 9);
    FixedDist();
  }

  lemma {:induction false} BlockRead(b: Block, last: bool, pos: nat, rest: nat, left: nat, hist: seq<Byte>)
    requires CanPutBlock(b) && WSIZE <= |hist| && (pos + left) % 8 == 0 && left >= BlockSize(b, pos)
    ensures Low(PutBlock(b, last, pos, rest), 1) == if last then 1 else 0
    ensures RefBlock(PutBlock(b, last, pos, rest), left, hist) == Good(rest, left - BlockSize(b, pos), BlockWritten(hist, b))
  {
    SmallPowers();
    hide Put, Low, Shr, Pow2, RefStored, RefCodes, RefDynamic, PutStored, PutItems, PutDynamic, Lens, CanPut, Accepted, AllWritten,
      ItemsSize, DynamicSize, FIXED_LIT, FIXED_DIST;
    var mark := if last then 1 else 0;
    match b
    case Stored(pad, data) =>
      var body := PutStored(pad, ToByte(pos + 3), data, rest);
      KindRead(mark, 0, body);
      StoredRead(pad, ToByte(pos + 3), data, rest, left - 3, hist);
    case Fixed(items) =>
      var body := PutItems(FIXED_LIT, FIXED_DIST, items, rest);
      KindRead(mark, 1, body);
      FixedFits();
      FixedDist();
      ItemsRead(FIXED_LIT, FIXED_DIST, items, rest, left - 3, hist);
    case Dynamic(nl, nd, nb, cl, steps, items) =>
      KindRead(mark, 2, PutDynamic(b, rest));
      DynamicRead(b, rest, left - 3, hist);
  }

  lemma {:induction false} KindRead(mark: nat, t: nat, body: nat)
    requires mark < 2 && t < 4
    ensures var s := Put(mark, 1, Put(t, 2, body)); Low(s, 1) == mark && Low(Shr(s, 1), 2) == t && Shr(s, 3) == body
  {
    SmallPowers();
    hide Put, Low, Shr, Pow2;
    Got(mark, 1, Put(t, 2, body));
    Got(t, 2, body);
    ShrShr(Put(mark, 1, Put(t, 2, body)), 1, 2);
  }

  predicate CanPutBlocks(bs: seq<Block>)
  {
    |bs| == 0 || (CanPutBlock(bs[0]) && CanPutBlocks(bs[1..]))
  }

  /** A whole stream: blocks, the last of them marked. */
  function PutBlocks(bs: seq<Block>, pos: nat, rest: nat): nat
    requires |bs| > 0 && CanPutBlocks(bs)
  {
    if |bs| == 1 then PutBlock(bs[0], true, pos, rest)
    else PutBlock(bs[0], false, pos, PutBlocks(bs[1..], pos + BlockSize(bs[0], pos), rest))
  }

  function BlocksSize(bs: seq<Block>, pos: nat): nat
    requires CanPutBlocks(bs)
  {
    if |bs| == 0 then 0 else BlockSize(bs[0], pos) + BlocksSize(bs[1..], pos + BlockSize(bs[0], pos))
  }

  /** What the blocks say, one after the other. */
  function Meaning(hist: seq<Byte>, bs: seq<Block>): seq<Byte>
    requires WSIZE <= |hist| && CanPutBlocks(bs)
    decreases |bs|
  {
    if |bs| == 0 then hist else Meaning(BlockWritten(hist, bs[0]), bs[1..])
  }

  /** The round trip. Whatever blocks are written, with whatever codes, the decompressor reads back what they say,
      and stops behind the last of them. */
  lemma {:induction false} ReadsBack(bs: seq<Block>, pos: nat, rest: nat, left: nat, hist: seq<Byte>)
    requires |bs| > 0 && CanPutBlocks(bs) && WSIZE <= |hist|
    requires (pos + left) % 8 == 0 && left >= BlocksSize(bs, pos)
    ensures RefInflate(PutBlocks(bs, pos, rest), left, hist) == Good(rest, left - BlocksSize(bs, pos), Meaning(hist, bs))
    decreases |bs|
  {
    hide CanPutBlock, PutBlock, BlockSize, RefBlock, BlockWritten, Low;
    var size := BlockSize(bs[0], pos);
    if |bs| == 1 {
      BlockRead(bs[0], true, pos, rest, left, hist);
    } else {
      var tail := PutBlocks(bs[1..], pos + size, rest);
      BlockRead(bs[0], false, pos, tail, left, hist);
      ReadsBack(bs[1..], pos + size, rest, left - size, BlockWritten(hist, bs[0]));
    }
  }

  /** The first `k` bits of a stream, put back in front of the rest. */
  lemma PutLow(stream: nat, k: nat)
    ensures Put(Low(stream, k), k, Shr(stream, k)) == stream && Low(stream, k) < Pow2(k)
  {
    Split(stream, k);
  }

  lemma {:induction false} CodeFound(b: seq<nat>, stream: nat)
    requires SymbolOf(b, stream).Some?
    ensures var sym := SymbolOf(b, stream).value; b[sym] > 0 && PutCode(b, sym, Shr(stream, b[sym])) == stream
  {
    PutLow(stream, b[SymbolOf(b, stream).value]);
  }

  lemma {:induction false} MatchParts(dist: seq<nat>, i: nat, stream: nat, left: nat, hist: seq<Byte>)
    requires i < 29 && |dist| <= |CPDIST| && WSIZE <= |hist| && RefMatch(dist, 257 + i, stream, left, hist).Good?
    requires |CPLENS| == |CPLEXT| == 31 && |CPDIST| == |CPDEXT| == 30
    ensures var s1 := Shr(stream, CPLEXT[i]);
      && SymbolOf(dist, s1).Some?
      && var j := SymbolOf(dist, s1).value; var s2 := Shr(s1, dist[j]); var d := CPDIST[j] + Low(s2, CPDEXT[j]);
      && left >= CPLEXT[i] + dist[j] + CPDEXT[j] && 1 <= d <= WSIZE
      && RefMatch(dist, 257 + i, stream, left, hist) ==
         Good(Shr(s2, CPDEXT[j]), left - CPLEXT[i] - dist[j] - CPDEXT[j], CopyBack(hist, CPLENS[i] + Low(stream, CPLEXT[i]), d))
  {
    hide Low, Shr, CopyBack, CPLENS, CPLEXT, CPDIST, CPDEXT, Pow2, SymbolOf;
    var s1 := Shr(stream, CPLEXT[i]);
    var j := SymbolOf(dist, s1).value;
    var s2 := Shr(s1, dist[j]);
    Split(s2, CPDEXT[j]);
    DistanceInWindow(j, Low(s2, CPDEXT[j]));
  }

  lemma {:induction false} MatchFound(dist: seq<nat>, i: nat, stream: nat, left: nat, hist: seq<Byte>) returns (n: nat, d: nat)
    requires i < 29 && |dist| <= |CPDIST| && WSIZE <= |hist| && RefMatch(dist, 257 + i, stream, left, hist).Good?
    ensures |CPLENS| == |CPLEXT| == 31 && |CPDIST| == |CPDEXT| == 30
    ensures CPLENS[i] <= n < CPLENS[i] + Pow2(CPLEXT[i]) && 1 <= d <= WSIZE
    ensures var r, j := RefMatch(dist, 257 + i, stream, left, hist), DistanceCode(d);
      && j < |dist| && dist[j] > 0 && CPDIST[j] <= d
      && stream == Put(n - CPLENS[i], CPLEXT[i], PutCode(dist, j, Put(d - CPDIST[j], CPDEXT[j], r.stream)))
      && left == r.left + CPLEXT[i] + dist[j] + CPDEXT[j] && r.hist == CopyBack(hist, n, d)
  {
    hide Put, PutCode, Low, Shr, CopyBack, CPLENS, CPLEXT, CPDIST, CPDEXT, Pow2, SymbolOf, DistanceCode, RefMatch;
    LengthTable(0);
    DistanceTable(0);
    MatchParts(dist, i, stream, left, hist);
    var e := CPLEXT[i];
    var s1 := Shr(stream, e);
    PutLow(stream, e);
    CodeFound(dist, s1);
    var j := SymbolOf(dist, s1).value;
    var s2 := Shr(s1, dist[j]);
    PutLow(s2, CPDEXT[j]);
    n, d := CPLENS[i] + Low(stream, e), CPDIST[j] + Low(s2, CPDEXT[j]);
    EveryDistance(d, j, Low(s2, CPDEXT[j]));
  }

  lemma {:induction false} ItemsFound(lit: seq<nat>, dist: seq<nat>, stream: nat, left: nat, hist: seq<Byte>) returns (ts: seq<Item>)
    requires |dist| <= |CPDIST| && WSIZE <= |hist| && RefCodes(lit, dist, stream, left, hist).Good?
    ensures CanPutAll(lit, dist, ts)
    ensures var r := RefCodes(lit, dist, stream, left, hist);
      stream == PutItems(lit, dist, ts, r.stream) && left == r.left + ItemsSize(lit, dist, ts) && r.hist == AllWritten(hist, ts)
    decreases left
  {
    hide PutCode, Put, Shr, RefMatch, SymbolOf, RefCodes, CPLENS, CPLEXT, CPDIST, CPDEXT, DistanceCode, Pow2, CopyBack;
    CodesStep(lit, dist, stream, left, hist);
    CodeFound(lit, stream);
    var sym := SymbolOf(lit, stream).value;
    var s1, left1 := Shr(stream, lit[sym]), left - lit[sym];
    var t, r := Literal(0), RefCodes(lit, dist, stream, left, hist);
    if sym == 256 {
      return [];
    } else if sym < 256 {
      t := Literal(sym);
      ts := ItemsFound(lit, dist, s1, left1, hist + [sym]);
    } else {
      var n, d := MatchFound(dist, sym - 257, s1, left1, hist);
      t := Match(sym - 257, n, d);
      var m := RefMatch(dist, sym, s1, left1, hist);
      ts := ItemsFound(lit, dist, m.stream, m.left, m.hist);
    }
    ItemFirst(lit, dist, t, ts, r.stream, hist);
    ts := [t] + ts;
  }

  lemma {:induction false} ItemFirst(lit: seq<nat>, dist: seq<nat>, t: Item, ts: seq<Item>, rest: nat, hist: seq<Byte>)
    requires CanPut(lit, dist, t) && CanPutAll(lit, dist, ts) && WSIZE <= |hist|
    ensures CanPutAll(lit, dist, [t] + ts) && PutItems(lit, dist, [t] + ts, rest) == PutItem(lit, dist, t, PutItems(lit, dist, ts, rest))
    ensures ItemsSize(lit, dist, [t] + ts) == ItemSize(lit, dist, t) + ItemsSize(lit, dist, ts)
    ensures AllWritten(hist, [t] + ts) == AllWritten(Written(hist, t), ts)
  {
    hide CanPut, PutItem, ItemSize, Written;
    assert ([t] + ts)[1..] == ts;
    Distances(lit, dist, t);
    forall k | 0 <= k < |ts| ensures ts[k].Match? ==> 1 <= ts[k].dist <= WSIZE {
      Distances(lit, dist, ts[k]);
    }
  }

  lemma Distances(lit: seq<nat>, dist: seq<nat>, t: Item)
    requires CanPut(lit, dist, t)
    ensures t.Match? ==> 1 <= t.dist <= WSIZE
  {
  }

  lemma {:induction false} StepsFound(cl: seq<nat>, n: nat, stream: nat, left: nat, lens: seq<nat>) returns (ts: seq<Step>)
    requires |cl| == 19 && |lens| <= n && Small(lens) && RefLengths(cl, n, stream, left, lens).GoodLens?
    ensures CanStepAll(cl, n, lens, ts)
    ensures var r := RefLengths(cl, n, stream, left, lens);
      stream == PutSteps(cl, n, lens, ts, r.stream) && left == r.left + StepsSize(cl, n, lens, ts) && r.lens == AllStepped(lens, ts)
    decreases left
  {
    hide PutStep, StepSize, Stepped, RefLengths, CanStep;
    if |lens| == n {
      LengthsEnd(cl, n, stream, left, lens);
      return [];
    }
    var t, s2 := StepTaken(cl, n, stream, left, lens);
    var tail := StepsFound(cl, n, s2, left - StepSize(cl, t), Stepped(lens, t));
    StepFirst(cl, n, lens, t, tail, RefLengths(cl, n, stream, left, lens).stream);
    ts := [t] + tail;
  }

  lemma {:induction false} StepTaken(cl: seq<nat>, n: nat, stream: nat, left: nat, lens: seq<nat>) returns (t: Step, rest: nat)
    requires |cl| == 19 && |lens| < n && Small(lens) && RefLengths(cl, n, stream, left, lens).GoodLens?
    ensures CanStep(cl, t) && stream == PutStep(cl, t, rest) && 0 < StepSize(cl, t) <= left
    ensures |Stepped(lens, t)| <= n && Small(Stepped(lens, t))
    ensures RefLengths(cl, n, stream, left, lens) == RefLengths(cl, n, rest, left - StepSize(cl, t), Stepped(lens, t))
  {
    hide PutCode, Put, Shr, Low, SymbolOf, Run;
    CodeFound(cl, stream);
    var sym := SymbolOf(cl, stream).value;
    var s1 := Shr(stream, cl[sym]);
    t := StepFound(sym, s1);
    ShrZero(s1);
    RunSmall(lens, t);
    rest := Shr(s1, StepBase(t).1);
  }

  /** The step that a code and the bits behind it stand for. */
  lemma {:induction false} StepFound(sym: nat, s: nat) returns (t: Step)
    requires sym < 19
    ensures StepCode(t) == sym && (t.Len? ==> t.len <= 15) && (t.Again? ==> 3 <= t.n <= 6) && (t.Zeros? ==> 3 <= t.n <= 138)
    ensures Put(StepCount(t), StepBase(t).1, Shr(s, StepBase(t).1)) == s && (!t.Len? ==> StepCount(t) == Low(s, StepBase(t).1))
  {
    SmallPowers();
    hide Put, Shr, Low, Pow2;
    PutLow(s, 0);
    PutLow(s, 2);
    PutLow(s, 3);
    PutLow(s, 7);
    NoBits(s);
    t := if sym < 16 then Len(sym) else if sym == 16 then Again(3 + Low(s, 2))
      else if sym == 17 then Zeros(3 + Low(s, 3)) else Zeros(11 + Low(s, 7));
  }

  lemma NoBits(s: nat)
    ensures Low(s, 0) == 0 && Shr(s, 0) == s
  {
  }

  lemma {:induction false} RunSmall(lens: seq<nat>, t: Step)
    requires Small(lens) && (t.Len? ==> t.len <= 15)
    ensures Small(Stepped(lens, t)) && |Stepped(lens, t)| == |lens| + if t.Len? then 1 else t.n
  {
  }

  lemma {:induction false} StepFirst(cl: seq<nat>, n: nat, lens: seq<nat>, t: Step, ts: seq<Step>, rest: nat)
    requires CanStep(cl, t) && |lens| < n && |Stepped(lens, t)| <= n && CanStepAll(cl, n, Stepped(lens, t), ts)
    ensures CanStepAll(cl, n, lens, [t] + ts) && AllStepped(lens, [t] + ts) == AllStepped(Stepped(lens, t), ts)
    ensures PutSteps(cl, n, lens, [t] + ts, rest) == PutStep(cl, t, PutSteps(cl, n, Stepped(lens, t), ts, rest))
    ensures StepsSize(cl, n, lens, [t] + ts) == StepSize(cl, t) + StepsSize(cl, n, Stepped(lens, t), ts)
  {
    hide CanStep, Stepped, PutStep, StepSize;
    assert ([t] + ts)[1..] == ts;
  }

  lemma {:induction false} ClensFound(j: nat, nb: nat, stream: nat, acc: seq<nat>)
    requires j <= nb <= 19 == |acc| && forall i :: 0 <= i < 19 ==> acc[i] <= 7
    ensures forall m :: 0 <= m < 19 && !(j <= Place(m) < nb) ==> RefClens(j, nb, stream, acc)[m] == acc[m]
    ensures PutClens(j, nb, RefClens(j, nb, stream, acc), Shr(stream, 3 * (nb - j))) == stream
    decreases nb - j
  {
    SmallPowers();
    hide Put, Shr, Low, BORDER, Pow2, Place;
    if j == nb {
      ShrZero(stream);
    } else {
      CodeLengthOrder(j);
      PutLow(stream, 3);
      var s := Shr(stream, 3);
      ClensFound(j + 1, nb, s, acc[BORDER[j] := Low(stream, 3)]);
      ShrShr(stream, 3, 3 * (nb - j - 1));
      assert Place(BORDER[j]) == j;
    }
  }

  lemma {:induction false} CountsFound(stream: nat)
    ensures var nl, nd, nb := 257 + Low(stream, 5), 1 + Low(Shr(stream, 5), 5), 4 + Low(Shr(stream, 10), 4);
      nb <= 19 && stream == Put(nl - 257, 5, Put(nd - 1, 5, Put(nb - 4, 4, Shr(stream, 14))))
  {
    SmallPowers();
    hide Put, Shr, Low, Pow2;
    PutLow(stream, 5);
    PutLow(Shr(stream, 5), 5);
    ShrShr(stream, 5, 5);
    PutLow(Shr(stream, 10), 4);
    ShrShr(stream, 10, 4);
  }

  lemma {:induction false} HeaderFound(stream: nat, left: nat, items: seq<Item>) returns (b: Block)
    requires RefHeader(stream, left).GoodLens?
    ensures b.Dynamic? && CanPutCodes(b) && CanCodeLengths(b.nb, b.cl) && b.items == items && b.nl == 257 + Low(stream, 5)
    ensures var r := RefHeader(stream, left);
      stream == PutHeader(b, r.stream) && left == r.left + HeaderSize(b) && r.lens == Lens(b)
  {
    hide Put, Shr, Low, PutClens, RefClens, RefLengths, Accepted, PutSteps, StepsSize, AllStepped, CanStepAll;
    CountsFound(stream);
    var nl, nd, nb := 257 + Low(stream, 5), 1 + Low(Shr(stream, 5), 5), 4 + Low(Shr(stream, 10), 4);
    var s3, zero := Shr(stream, 14), Run(0, 19);
    var cl := RefClens(0, nb, s3, zero);
    ClensFound(0, nb, s3, zero);
    ShrShr(stream, 14, 3 * nb);
    var ts := StepsFound(cl, nl + nd, Shr(stream, 14 + 3 * nb), left - 14 - 3 * nb, []);
    b := Dynamic(nl, nd, nb, cl, ts, items);
  }

  lemma {:induction false} DynamicFound(stream: nat, left: nat, hist: seq<Byte>) returns (b: Block)
    requires WSIZE <= |hist| && RefDynamic(stream, left, hist).Good?
    ensures b.Dynamic? && CanPutBlock(b)
    ensures var r := RefDynamic(stream, left, hist);
      stream == PutDynamic(b, r.stream) && left == r.left + DynamicSize(b) && r.hist == Said(hist, b)
  {
    hide PutHeader, RefHeader, HeaderSize, PutItems, ItemsSize, RefCodes, Accepted, AllWritten, Lens, Low, CanPut, CanPutCodes,
      CanCodeLengths;
    var h, nl := RefHeader(stream, left), 257 + Low(stream, 5);
    var ts := ItemsFound(h.lens[..nl], h.lens[nl..], h.stream, h.left, hist);
    b := HeaderFound(stream, left, ts);
  }

  lemma {:induction false} BytesFound(n: nat, stream: nat, left: nat, hist: seq<Byte>) returns (data: seq<Byte>)
    requires RefBytes(n, stream, left, hist).Good?
    ensures |data| == n
    ensures var r := RefBytes(n, stream, left, hist); stream == PutBytes(data, r.stream) && left == r.left + 8 * n && r.hist == hist + data
    decreases n
  {
    SmallPowers();
    hide Put, Low, Shr, Pow2;
    if n == 0 {
      data := [];
      assert hist + data == hist;
    } else {
      PutLow(stream, 8);
      var c := Low(stream, 8);
      var tail := BytesFound(n - 1, Shr(stream, 8), left - 8, hist + [c]);
      data := [c] + tail;
      assert data[1..] == tail && hist + [c] + tail == hist + data;
    }
  }

  lemma {:induction false} StoredFound(stream: nat, left: nat, hist: seq<Byte>) returns (pad: nat, data: seq<Byte>)
    requires RefStored(stream, left, hist).Good?
    ensures |data| <= 0xffff
    ensures var r := RefStored(stream, left, hist);
      && stream == PutStored(pad, left % 8, data, r.stream)
      && left == r.left + left % 8 + 32 + 8 * |data| && r.hist == hist + data
  {
    SmallPowers();
    hide Put, Low, Shr, Pow2, RefBytes, PutBytes;
    pad := stream;
    PutLow(stream, left % 8);
    var s1 := Shr(stream, left % 8);
    PutLow(s1, 16);
    PutLow(Shr(s1, 16), 16);
    ShrShr(s1, 16, 16);
    data := BytesFound(Low(s1, 16), Shr(s1, 32), left - left % 8 - 32, hist);
  }

  lemma {:induction false} KindFound(stream: nat)
    ensures Put(Low(stream, 1), 1, Put(Low(Shr(stream, 1), 2), 2, Shr(stream, 3))) == stream && Low(stream, 1) < 2
  {
    SmallPowers();
    hide Put, Low, Shr, Pow2;
    PutLow(stream, 1);
    PutLow(Shr(stream, 1), 2);
    ShrShr(stream, 1, 2);
  }

  lemma {:induction false} BlockFound(stream: nat, pos: nat, left: nat, hist: seq<Byte>) returns (b: Block)
    requires WSIZE <= |hist| && (pos + left) % 8 == 0 && RefBlock(stream, left, hist).Good?
    ensures CanPutBlock(b)
    ensures var r := RefBlock(stream, left, hist);
      && stream == PutBlock(b, Low(stream, 1) == 1, pos, r.stream)
      && left == r.left + BlockSize(b, pos) && r.hist == BlockWritten(hist, b)
  {
    hide Put, Low, Shr, RefStored, RefCodes, RefDynamic, PutStored, PutItems, PutDynamic, Lens, CanPutAll, Accepted, AllWritten,
      ItemsSize, DynamicSize, FIXED_LIT, FIXED_DIST, CanPutCodes, CanCodeLengths;
    KindFound(stream);
    var t, s1 := Low(Shr(stream, 1), 2), Shr(stream, 3);
    if t == 0 {
      var pad, data := StoredFound(s1, left - 3, hist);
      b := Stored(pad, data);
    } else if t == 1 {
      FixedDist();
      var ts := ItemsFound(FIXED_LIT, FIXED_DIST, s1, left - 3, hist);
      b := Fixed(ts);
    } else {
      b := DynamicFound(s1, left - 3, hist);
    }
  }

  lemma {:induction false} BlocksFound(stream: nat, pos: nat, left: nat, hist: seq<Byte>) returns (bs: seq<Block>)
    requires WSIZE <= |hist| && (pos + left) % 8 == 0 && RefInflate(stream, left, hist).Good?
    ensures |bs| > 0 && CanPutBlocks(bs)
    ensures var r := RefInflate(stream, left, hist);
      stream == PutBlocks(bs, pos, r.stream) && left == r.left + BlocksSize(bs, pos) && r.hist == Meaning(hist, bs)
    decreases left
  {
    hide CanPutBlock, PutBlock, BlockSize, RefBlock, BlockWritten, Low;
    var b := BlockFound(stream, pos, left, hist);
    var r := RefBlock(stream, left, hist);
    LowBit(stream);
    if Low(stream, 1) == 1 {
      bs := [b];
    } else {
      BlockShrinks(stream, left, hist);
      var tail := BlocksFound(r.stream, pos + BlockSize(b, pos), r.left, r.hist);
      bs := [b] + tail;
      assert bs[1..] == tail;
    }
  }

  lemma LowBit(stream: nat)
    ensures Low(stream, 1) < 2
  {
  }

  /** The stream is a writing of `bs` with something behind it, all within its size. */
  ghost predicate Writes(bs: seq<Block>, rest: nat, stream: nat, left: nat)
  {
    |bs| > 0 && CanPutBlocks(bs) && BlocksSize(bs, 0) <= left && stream == PutBlocks(bs, 0, rest)
  }

  /** A stream of bytes is decompressed exactly if it is a writing of blocks, and then to what they say. */
  lemma {:induction false} ReadIffWritten(stream: nat, left: nat, hist: seq<Byte>)
    requires WSIZE <= |hist| && left % 8 == 0
    ensures forall bs, rest :: Writes(bs, rest, stream, left) ==>
      RefInflate(stream, left, hist) == Good(rest, left - BlocksSize(bs, 0), Meaning(hist, bs))
    ensures RefInflate(stream, left, hist).Good? <==> exists bs, rest :: Writes(bs, rest, stream, left)
  {
    hide RefInflate, CanPutBlocks, PutBlocks, BlocksSize, Meaning;
    var r := RefInflate(stream, left, hist);
    if r.Good? {
      var bs := BlocksFound(stream, 0, left, hist);
      assert Writes(bs, r.stream, stream, left);
    }
    forall bs, rest | Writes(bs, rest, stream, left)
      ensures r == Good(rest, left - BlocksSize(bs, 0), Meaning(hist, bs))
    {
      ReadsBack(bs, 0, rest, left, hist);
    }
  }
}
