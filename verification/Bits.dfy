/**
 Shifts, masks and bit reversal on natural numbers.

 Words that the C sources shift and mask are natural numbers here: `x >> n` is
 `Shr(x, n)`, `x & ((1 << n) - 1)` is `Low(x, n)` and `x << n` is `Shl(x, n)`.
 The three are defined one bit at a time, so that every law below follows the bits.
 */
module Bits {

  function Shl(x: nat, n: nat): (r: nat)
    ensures r >= x
  {
    if n == 0 then x else 2 * Shl(x, n - 1)
  }

  function Shr(x: nat, n: nat): nat
  {
    if n == 0 then x else Shr(x / 2, n - 1)
  }

  function Low(x: nat, n: nat): nat
  {
    if n == 0 then 0 else x % 2 + 2 * Low(x / 2, n - 1)
  }

  function Pow2(n: nat): nat
  {
    Shl(1, n)
  }

  lemma ShlNone(x: nat)
    ensures Shl(x, 0) == x
  {
  }

  lemma ShlStep(x: nat, n: nat)
    requires n >= 1
    ensures Shl(x, n) == 2 * Shl(x, n - 1)
  {
  }

  lemma Pow2Step(n: nat)
    ensures Pow2(n + 1) == 2 * Pow2(n)
  {
  }

  lemma {:induction false} ShlShl(x: nat, a: nat, b: nat)
    ensures Shl(Shl(x, a), b) == Shl(x, a + b)
  {
    if b != 0 {
      ShlShl(x, a, b - 1);
    }
  }

  lemma {:induction false} ShlAdd(x: nat, y: nat, n: nat)
    ensures Shl(x + y, n) == Shl(x, n) + Shl(y, n)
  {
    if n != 0 {
      ShlAdd(x, y, n - 1);
    }
  }

  lemma {:induction false} ShlDouble(x: nat, n: nat)
    ensures Shl(2 * x, n) == Shl(x, n + 1)
  {
    if n != 0 {
      ShlDouble(x, n - 1);
    }
  }

  lemma {:induction false} ShlMono(x: nat, y: nat, n: nat)
    ensures x <= y ==> Shl(x, n) <= Shl(y, n)
    ensures x < y ==> Shl(x, n) + Pow2(n) <= Shl(y, n)
  {
    if n != 0 {
      ShlMono(x, y, n - 1);
    }
  }

  lemma {:induction false} Pow2Mono(a: nat, b: nat)
    requires a <= b
    ensures 1 <= Pow2(a) <= Pow2(b)
    ensures a < b ==> 2 * Pow2(a) <= Pow2(b)
  {
    if a < b {
      Pow2Mono(a, b - 1);
    } else if b != 0 {
      Pow2Mono(a - 1, b - 1);
    }
  }

  lemma {:induction false} Split(x: nat, n: nat)
    ensures x == Shl(Shr(x, n), n) + Low(x, n)
    ensures Low(x, n) < Pow2(n)
  {
    if n != 0 {
      Split(x / 2, n - 1);
    }
  }

  lemma {:induction false} Join(q: nat, r: nat, n: nat)
    requires r < Pow2(n)
    ensures Shr(Shl(q, n) + r, n) == q
    ensures Low(Shl(q, n) + r, n) == r
  {
    if n != 0 {
      Join(q, r / 2, n - 1);
      assert (Shl(q, n) + r) / 2 == Shl(q, n - 1) + r / 2;
      assert (Shl(q, n) + r) % 2 == r % 2;
    }
  }

  lemma ShrShl(q: nat, n: nat)
    ensures Shr(Shl(q, n), n) == q && Low(Shl(q, n), n) == 0
  {
    Pow2Mono(0, n);
    Join(q, 0, n);
  }

  lemma ShrLess(x: nat, n: nat, q: nat)
    ensures Shr(x, n) < q <==> x < Shl(q, n)
  {
    Split(x, n);
    ShlMono(Shr(x, n), q, n);
    ShlMono(q, Shr(x, n), n);
  }

  lemma {:induction false} ShrShr(x: nat, a: nat, b: nat)
    ensures Shr(Shr(x, a), b) == Shr(x, a + b)
  {
    if a != 0 {
      ShrShr(x / 2, a - 1, b);
    }
  }

  lemma {:induction false} LowLow(x: nat, a: nat, b: nat)
    requires a <= b
    ensures Low(Low(x, b), a) == Low(x, a)
  {
    if a != 0 {
      LowLow(x / 2, a - 1, b - 1);
    }
  }

  /** Bits `a .. a+b` of a number, read in two ways. */
  lemma {:induction false} ShrLow(x: nat, a: nat, b: nat)
    ensures Shr(Low(x, a + b), a) == Low(Shr(x, a), b)
    ensures Low(x, a + b) == Low(x, a) + Shl(Low(Shr(x, a), b), a)
  {
    if a != 0 {
      ShrLow(x / 2, a - 1, b);
      assert Low(x, a + b) / 2 == Low(x / 2, a + b - 1);
    }
  }

  lemma {:induction false} LowSmall(x: nat, n: nat)
    requires x < Pow2(n)
    ensures Low(x, n) == x && Shr(x, n) == 0
  {
    if n != 0 {
      LowSmall(x / 2, n - 1);
    }
  }

  /** A bit at or above position `w` is not seen by the low `w` bits. */
  lemma {:induction false} HighBit(x: nat, m: nat, w: nat)
    requires w <= m
    ensures Low(x + Pow2(m), w) == Low(x, w)
    ensures Shr(x + Pow2(m), w) == Shr(x, w) + Pow2(m - w)
  {
    if w != 0 {
      assert Pow2(m) == 2 * Pow2(m - 1);
      HighBit(x / 2, m - 1, w - 1);
      assert (x + Pow2(m)) / 2 == x / 2 + Pow2(m - 1);
    }
  }

  /** Bits placed at position `k` and above are not seen below it. */
  lemma {:induction false} AboveUnseen(x: nat, y: nat, k: nat, n: nat)
    requires n <= k
    ensures Low(x + Shl(y, k), n) == Low(x, n)
    ensures Shr(x + Shl(y, k), n) == Shr(x, n) + Shl(y, k - n)
  {
    if n != 0 {
      AboveUnseen(x / 2, y, k - 1, n - 1);
      assert (x + Shl(y, k)) / 2 == x / 2 + Shl(y, k - 1);
    }
  }

  /** Numbers less than `1 << n` apart differ in their low `n` bits. */
  lemma SameLow(j: nat, x: nat, n: nat)
    requires j < x < j + Pow2(n)
    ensures Low(x, n) != Low(j, n)
  {
    Split(j, n);
    Split(x, n);
    ShlMono(Shr(j, n), Shr(x, n), n);
    ShlMono(Shr(x, n), Shr(j, n), n);
  }

  /** The low `k` bits of `c` in reverse order. */
  function Rev(c: nat, k: nat): nat
  {
    if k == 0 then 0
    else if c % 2 == 1 then Rev(c / 2, k - 1) + Pow2(k - 1)
    else Rev(c / 2, k - 1)
  }

  lemma {:induction false} RevBound(c: nat, k: nat)
    ensures Rev(c, k) < Pow2(k)
  {
    if k != 0 {
      RevBound(c / 2, k - 1);
    }
  }

  lemma {:induction false} RevInjective(c: nat, d: nat, k: nat)
    requires c < Pow2(k) && d < Pow2(k) && Rev(c, k) == Rev(d, k)
    ensures c == d
  {
    if k != 0 {
      RevBound(c / 2, k - 1);
      RevBound(d / 2, k - 1);
      RevInjective(c / 2, d / 2, k - 1);
    }
  }

  /** The first `w` bits of the reversal are the reversal of the top `w` bits,
      and the rest is the reversal of what is below them. */
  lemma {:induction false} RevSplit(c: nat, k: nat, w: nat)
    requires w <= k
    ensures Low(Rev(c, k), w) == Rev(Shr(c, k - w), w)
    ensures Shr(Rev(c, k), w) == Rev(Low(c, k - w), k - w)
    decreases k - w
  {
    if k == w {
      RevBound(c, k);
      LowSmall(Rev(c, k), k);
    } else {
      RevSplit(c / 2, k - 1, w);
      HighBit(Rev(c / 2, k - 1), k - 1, w);
      assert Low(c, k - w) / 2 == Low(c / 2, k - w - 1);
    }
  }

  lemma {:induction false} RevZero(k: nat)
    ensures Rev(0, k) == 0
  {
    if k != 0 {
      RevZero(k - 1);
    }
  }

  /** Zero bits appended below a code do not change its reversal. */
  lemma {:induction false} RevShift(q: nat, m: nat, r: nat)
    ensures Rev(Shl(q, r), m + r) == Rev(q, m)
  {
    if r != 0 {
      RevShift(q, m, r - 1);
    }
  }

  lemma {:induction false} RevInvolution(c: nat, k: nat)
    requires c < Pow2(k)
    ensures Rev(Rev(c, k), k) == c
  {
    if k != 0 {
      RevSplit(c, k, 1);
      var low := Low(c, k - 1);
      Split(c, k - 1);
      ShrLess(c, k - 1, 2);
      assert Shl(2, k - 1) == Pow2(k) by { ShlShl(1, 1, k - 1); }
      RevInvolution(low, k - 1);
      assert Shr(Rev(c, k), 1) == Rev(c, k) / 2;
      assert Low(Rev(c, k), 1) == Rev(c, k) % 2;
      assert Shl(0, k - 1) == 0 by { ShlAdd(0, 0, k - 1); }
    }
  }

  lemma {:induction false} RevOnes(k: nat)
    ensures Rev(Pow2(k) - 1, k) == Pow2(k) - 1
  {
    if k != 0 {
      var n := Pow2(k) - 1;
      assert n % 2 == 1 && n / 2 == Pow2(k - 1) - 1;
      RevOnes(k - 1);
    }
  }

  lemma {:induction false} Low0(n: nat)
    ensures Low(0, n) == 0
  {
    if n != 0 {
      Low0(n - 1);
    }
  }

  lemma ShrZero(x: nat)
    ensures Shr(x, 0) == x
  {
  }
}
