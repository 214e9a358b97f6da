// The branch-free bit scans of abstract-machine/klib/src/int64.c.

module BitScan {
  import opened Arith
  import opened Bits

  const ONES: nat := W - 1

  // -(condition), as the C code uses it.
  function MaskIf(c: bool): nat { if c then ONES else 0 }

  lemma AndMaskIf(v: nat, c: bool)
    requires v < W
    ensures And(v, MaskIf(c)) == And(MaskIf(c), v) == if c then v else 0
  {
    Pow2Values();
    AndLow(v, 32);
    LowOfSmall(v, 32);
    AndComm(v, MaskIf(c));
  }

  // 32-bit subtraction.
  function Sub32(x: nat, y: nat): nat { (x + W - y % W) % W }

  // ---- leading zeros ----

  // One halving step: x has at most 2k bits; the step drops the lower half if the upper half
  // is not empty and reports how many leading zeros that leaves to be counted.
  function ClzHalve(x: nat, k: nat): (nat, nat) {
    if And(x, Shl(Pow2(k) - 1, k)) == 0 then (x, k) else (Shr(x, k), 0)
  }

  function ClzSi2(a: nat): nat
    requires a < W
  {
    var (x1, t1) := ClzHalve(a, 16);
    var (x2, t2) := ClzHalve(x1, 8);
    var (x3, t3) := ClzHalve(x2, 4);
    var (x4, t4) := ClzHalve(x3, 2);
    t1 + t2 + t3 + t4 + And(Sub32(2, x4), MaskIf(And(x4, 2) == 0))
  }

  lemma {:induction false} BitLengthShr(x: nat, k: nat)
    requires Shr(x, k) > 0
    ensures BitLength(Shr(x, k)) == BitLength(x) - k
  {
    if k > 0 { BitLengthShr(x / 2, k - 1); }
  }

  lemma ClzHalveStep(x: nat, k: nat)
    requires x < Pow2(k + k)
    ensures var (y, t) := ClzHalve(x, k); y < Pow2(k) && t - BitLength(y) == k - BitLength(x)
  {
    ShrBound(x, k, k);
    UpperHalfTest(x, k);
    if Shr(x, k) > 0 { BitLengthShr(x, k); }
  }

  // The mask test sees whether the upper half of 2k bits is empty.
  lemma UpperHalfTest(x: nat, k: nat)
    requires Shr(x, k) < Pow2(k)
    ensures And(x, Shl(Pow2(k) - 1, k)) == 0 <==> Shr(x, k) == 0
    ensures Shr(x, k) == 0 ==> x < Pow2(k)
  {
    AndField(x, k, k);
    LowOfSmall(Shr(x, k), k);
    ShlIsMul(Shr(x, k), k);
    ShrLow(x, k);
    MulMono(1, Shr(x, k), Pow2(k));
  }

  lemma ShrBound(x: nat, j: nat, k: nat)
    requires x < Pow2(j + k)
    ensures Shr(x, k) < Pow2(j)
  {
    ShrLow(x, k);
    Pow2Add(j, k);
    MulMono(Pow2(j), Shr(x, k), Pow2(k));
  }

  lemma LowOfSmall(x: nat, k: nat)
    requires x < Pow2(k)
    ensures Low(x, k) == x && Shr(x, k) == 0
  {
    SplitUnique(0, x, k);
  }

  // On every word the software count is 32 minus the position of the highest bit, so it is the
  // number of leading zeros, and 32 for the word 0.
  lemma ClzSi2Correct(a: nat)
    requires a < W
    ensures ClzSi2(a) == 32 - BitLength(a)
    ensures a > 0 ==> ClzSi2(a) == Clz(a) && Pow2(31 - ClzSi2(a)) <= a < Pow2(32 - ClzSi2(a))
  {
    Pow2Values();
    if a > 0 { BitLengthBounds(a); }
    var (x1, t1) := ClzHalve(a, 16);
    ClzHalveStep(a, 16);
    var (x2, t2) := ClzHalve(x1, 8);
    ClzHalveStep(x1, 8);
    var (x3, t3) := ClzHalve(x2, 4);
    ClzHalveStep(x2, 4);
    var (x4, t4) := ClzHalve(x3, 2);
    ClzHalveStep(x3, 2);
    assert x4 < 4;
    ClzLast(x4);
  }

  lemma ClzLast(x: nat)
    requires x < 4
    ensures And(Sub32(2, x), MaskIf(And(x, 2) == 0)) == 2 - BitLength(x)
  {
    AndEven(x, 1);
    assert And(x, 2) == 2 * And(x / 2, 1);
    assert And(0, 1) == 0 && And(1, 1) == 1;
    AndMaskIf(Sub32(2, x), x < 2);
  }

  // ---- trailing zeros ----

  // One step: if the low k bits are all clear, shift them out and count them.
  function CtzHalve(x: nat, k: nat): (nat, nat) {
    if And(x, Pow2(k) - 1) == 0 then (Shr(x, k), k) else (x, 0)
  }

  function CtzSi2(a: nat): nat
    requires a < W
  {
    var (x1, t1) := CtzHalve(a, 16);
    var (x2, t2) := CtzHalve(x1, 8);
    var (x3, t3) := CtzHalve(x2, 4);
    var (x4, t4) := CtzHalve(x3, 2);
    var x := And(x4, 3);
    t1 + t2 + t3 + t4 + And(Sub32(2, Shr(x, 1)), MaskIf(And(x, 1) == 0))
  }

  lemma {:induction false} CtzShr(x: nat, k: nat)
    requires x > 0
    ensures Low(x, k) == 0 ==> Shr(x, k) > 0 && Ctz(x) == k + Ctz(Shr(x, k))
    ensures Low(x, k) != 0 ==> Ctz(x) < k
  {
    if k > 0 && x % 2 == 0 { CtzShr(x / 2, k - 1); }
  }

  lemma CtzHalveStep(x: nat, k: nat)
    requires x > 0 && Ctz(x) < 2 * k
    ensures var (y, t) := CtzHalve(x, k); y > 0 && Ctz(y) < k && t + Ctz(y) == Ctz(x)
  {
    AndLow(x, k);
    CtzShr(x, k);
  }

  lemma CtzBound(a: nat)
    requires 0 < a < W
    ensures Ctz(a) < 32
  {
    Pow2Values();
    CtzShr(a, 32);
    LowOfSmall(a, 32);
  }

  lemma CtzMeans(a: nat)
    requires a > 0
    ensures a % Pow2(Ctz(a)) == 0 && a / Pow2(Ctz(a)) % 2 == 1
  {
    CtzIs(a);
    ShrIsDiv(a, Ctz(a));
  }

  lemma CtzSi2Correct(a: nat)
    requires 0 < a < W
    ensures CtzSi2(a) == Ctz(a) && a % Pow2(CtzSi2(a)) == 0 && a / Pow2(CtzSi2(a)) % 2 == 1
  {
    CtzMeans(a);
    CtzBound(a);
    CtzHalveStep(a, 16);
    var (x1, t1) := CtzHalve(a, 16);
    CtzHalveStep(x1, 8);
    var (x2, t2) := CtzHalve(x1, 8);
    CtzHalveStep(x2, 4);
    var (x3, t3) := CtzHalve(x2, 4);
    CtzHalveStep(x3, 2);
    var (x4, t4) := CtzHalve(x3, 2);
    CtzLast(x4);
  }

  lemma CtzLast(y: nat)
    requires y > 0 && Ctz(y) < 2
    ensures var x := And(y, 3); And(Sub32(2, Shr(x, 1)), MaskIf(And(x, 1) == 0)) == Ctz(y)
  {
    var x := And(y, 3);
    AndOdd(y, 1);
    assert x == 2 * And(y / 2, 1) + y % 2;
    if y / 2 > 0 { AndOdd(y / 2, 0); }
    assert And(y / 2, 1) == y / 2 % 2;
    if x > 0 { AndOdd(x, 0); }
    assert And(x, 1) == y % 2 && Shr(x, 1) == y / 2 % 2;
    AndMaskIf(Sub32(2, Shr(x, 1)), y % 2 == 0);
  }

  // ---- 64-bit versions: pick the half that decides ----

  function Select(x: nat, y: nat, f: nat): nat
    requires f <= ONES
  {
    Or(And(x, ONES - f), And(y, f))
  }

  function ClzDi2(a: nat): nat
    requires a < D
  {
    var (high, low) := (Shr(a, 32), Low(a, 32));
    Halves(a);
    SelectWord(high, low, high == 0);
    ClzSi2(Select(high, low, MaskIf(high == 0))) + And(MaskIf(high == 0), 32)
  }

  function CtzDi2(a: nat): nat
    requires a < D
  {
    var (high, low) := (Shr(a, 32), Low(a, 32));
    Halves(a);
    SelectWord(low, high, low == 0);
    CtzSi2(Select(low, high, MaskIf(low == 0))) + And(MaskIf(low == 0), 32)
  }

  lemma Halves(a: nat)
    requires a < D
    ensures Shr(a, 32) < W && Low(a, 32) < W && a == Shr(a, 32) * W + Low(a, 32)
  {
    Pow2Values();
    ShrLow(a, 32);
    ShrBound(a, 32, 32);
  }

  lemma SelectWord(x: nat, y: nat, c: bool)
    requires x < W && y < W
    ensures Select(x, y, MaskIf(c)) == if c then y else x
  {
    Pow2Values();
    AndLow(if c then y else x, 32);
    LowOfSmall(x, 32);
    LowOfSmall(y, 32);
  }

  lemma ClzDi2Correct(a: nat)
    requires 0 < a < D
    ensures ClzDi2(a) == 64 - BitLength(a) && Pow2(63 - ClzDi2(a)) <= a < Pow2(64 - ClzDi2(a))
  {
    hide And, Or, Shr, Low, Select, MaskIf, ClzSi2, BitLength;
    var (high, low) := (Shr(a, 32), Low(a, 32));
    Halves(a);
    AndMaskIf(32, high == 0);
    SelectWord(high, low, high == 0);
    ClzSi2Correct(if high == 0 then low else high);
    if high > 0 { BitLengthShr(a, 32); }
    BitLengthBounds(a);
  }

  lemma CtzDi2Correct(a: nat)
    requires 0 < a < D
    ensures CtzDi2(a) == Ctz(a) && a % Pow2(CtzDi2(a)) == 0 && a / Pow2(CtzDi2(a)) % 2 == 1
  {
    CtzMeans(a);
    var (high, low) := (Shr(a, 32), Low(a, 32));
    Halves(a);
    AndMaskIf(32, low == 0);
    SelectWord(low, high, low == 0);
    CtzSi2Correct(if low == 0 then high else low);
    CtzShr(a, 32);
    if low > 0 { CtzOfLow(a, 32); }
  }

  // The trailing zeros are decided by the low half when that is not zero.
  lemma {:induction false} CtzOfLow(a: nat, k: nat)
    requires Low(a, k) > 0
    ensures a > 0 && Ctz(a) == Ctz(Low(a, k))
  {
    if a % 2 == 0 {
      CtzOfLow(a / 2, k - 1);
      assert Low(a, k) / 2 == Low(a / 2, k - 1);
    }
  }
}
