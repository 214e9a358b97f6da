// Machine words as naturals: shifts, the bitwise operators and bit scans.

module Bits {
  import opened Arith

  function Pow2(n: nat): (p: nat)
    ensures p > 0
  {
    if n == 0 then 1 else 2 * Pow2(n - 1)
  }

  const W: nat := 0x1_0000_0000
  const D: nat := 0x1_0000_0000_0000_0000

  // x >> k, and the k bits that it drops.
  function Shr(x: nat, k: nat): nat { if k == 0 then x else Shr(x / 2, k - 1) }
  function Low(x: nat, k: nat): nat { if k == 0 then 0 else 2 * Low(x / 2, k - 1) + x % 2 }

  // x << k, without a word size.
  function Shl(x: nat, k: nat): nat { if k == 0 then x else 2 * Shl(x, k - 1) }

  // Bit by bit, as in C on unsigned operands.
  function And(x: nat, y: nat): nat {
    if x == 0 || y == 0 then 0 else 2 * And(x / 2, y / 2) + (if x % 2 == 1 && y % 2 == 1 then 1 else 0)
  }

  function Or(x: nat, y: nat): nat
    decreases x + y
  {
    if x == 0 then y else if y == 0 then x
    else 2 * Or(x / 2, y / 2) + (if x % 2 == 1 || y % 2 == 1 then 1 else 0)
  }

  function Xor(x: nat, y: nat): nat
    decreases x + y
  {
    if x == 0 then y else if y == 0 then x
    else 2 * Xor(x / 2, y / 2) + (if x % 2 != y % 2 then 1 else 0)
  }

  // ---- powers of two and shifts ----

  lemma {:induction false} Pow2Add(m: nat, n: nat)
    ensures Pow2(m + n) == Pow2(m) * Pow2(n)
  {
    if m > 0 {
      Pow2Add(m - 1, n);
      MulAssoc(2, Pow2(m - 1), Pow2(n));
    }
  }

  lemma {:induction false} Pow2Mono(m: nat, n: nat)
    ensures m <= n <==> Pow2(m) <= Pow2(n)
    ensures m < n <==> Pow2(m) < Pow2(n)
    ensures m < n ==> 2 * Pow2(m) <= Pow2(n)
  {
    if m > 0 && n > 0 { Pow2Mono(m - 1, n - 1); }
    else if m > 0 { assert Pow2(m) == 2 * Pow2(m - 1); }
    else if n > 0 { assert Pow2(n) == 2 * Pow2(n - 1); }
  }

  lemma Pow2Values()
    ensures Pow2(1) == 2 && Pow2(2) == 4 && Pow2(4) == 16 && Pow2(8) == 0x100 && Pow2(16) == 0x1_0000
    ensures Pow2(31) == 0x8000_0000 && Pow2(32) == W && Pow2(63) == 0x8000_0000_0000_0000 && Pow2(64) == D
  {
    assert Pow2(4) == 16;
    Pow2Add(4, 4);
    Pow2Add(8, 8);
    Pow2Add(16, 16);
    Pow2Add(32, 32);
    assert Pow2(32) == 2 * Pow2(31) && Pow2(64) == 2 * Pow2(63);
  }

  lemma Double(f: nat, p: nat)
    ensures f * (2 * p) == 2 * (f * p)
  {
  }

  lemma {:induction false} ShlIsMul(x: nat, k: nat)
    ensures Shl(x, k) == x * Pow2(k)
  {
    if k > 0 {
      ShlIsMul(x, k - 1);
      Double(x, Pow2(k - 1));
    }
  }

  lemma {:induction false} ShrLow(x: nat, k: nat)
    ensures x == Shr(x, k) * Pow2(k) + Low(x, k) && Low(x, k) < Pow2(k)
  {
    if k > 0 {
      ShrLow(x / 2, k - 1);
      Double(Shr(x, k), Pow2(k - 1));
    }
  }

  // The two parts are determined by that equation.
  lemma SplitUnique(h: nat, l: nat, k: nat)
    requires l < Pow2(k)
    ensures Shr(h * Pow2(k) + l, k) == h && Low(h * Pow2(k) + l, k) == l
  {
    var x := h * Pow2(k) + l;
    ShrLow(x, k);
    DivModUnique(h, l, Pow2(k));
    DivModUnique(Shr(x, k), Low(x, k), Pow2(k));
  }

  lemma ShrIsDiv(x: nat, k: nat)
    ensures Shr(x, k) == x / Pow2(k) && Low(x, k) == x % Pow2(k)
  {
    ShrLow(x, k);
    DivModUnique(Shr(x, k), Low(x, k), Pow2(k));
  }

  lemma {:induction false} ShrShr(x: nat, j: nat, k: nat)
    ensures Shr(x, j + k) == Shr(Shr(x, j), k)
  {
    if j > 0 { ShrShr(x / 2, j - 1, k); }
  }

  // ---- bitwise operators ----

  // Fields that do not overlap are or-ed by adding them.
  lemma {:induction false} OrDisjoint(a: nat, k: nat, b: nat)
    requires b < Pow2(k)
    ensures Or(a * Pow2(k), b) == a * Pow2(k) + b
  {
    if k > 0 && a > 0 && b > 0 {
      var x := a * Pow2(k);
      MulAssoc(2, a, Pow2(k - 1));
      assert x == 2 * (a * Pow2(k - 1));
      MulMono(1, a, Pow2(k));
      OrDisjoint(a, k - 1, b / 2);
    }
  }

  lemma {:induction false} AndComm(x: nat, y: nat)
    ensures And(x, y) == And(y, x)
  {
    if x > 0 && y > 0 { AndComm(x / 2, y / 2); }
  }

  lemma AndOdd(x: nat, y: nat)
    requires x > 0
    ensures And(x, 2 * y + 1) == 2 * And(x / 2, y) + x % 2
  {
    assert (2 * y + 1) / 2 == y;
  }

  lemma AndEven(x: nat, y: nat)
    ensures And(x, 2 * y) == 2 * And(x / 2, y)
  {
  }

  // Masking with the low k bits keeps exactly them.
  lemma {:induction false} AndLow(x: nat, k: nat)
    ensures And(x, Pow2(k) - 1) == Low(x, k)
  {
    if x == 0 {
      ShrLow(0, k);
      MulMono(1, Shr(0, k), Pow2(k));
    } else if k > 0 {
      AndLow(x / 2, k - 1);
      AndOdd(x, Pow2(k - 1) - 1);
      assert Pow2(k) - 1 == 2 * (Pow2(k - 1) - 1) + 1;
    }
  }

  // Masking with m bits at position k keeps that field, in place.
  lemma {:induction false} AndField(x: nat, m: nat, k: nat)
    ensures And(x, Shl(Pow2(m) - 1, k)) == Shl(Low(Shr(x, k), m), k)
  {
    if k == 0 {
      AndLow(x, m);
    } else {
      AndField(x / 2, m, k - 1);
      AndEven(x, Shl(Pow2(m) - 1, k - 1));
    }
  }

  lemma {:induction false} AndSelf(x: nat)
    ensures And(x, x) == x
  {
    if x > 0 { AndSelf(x / 2); }
  }

  // Flipping k bits is subtraction from the all-ones word.
  lemma {:induction false} XorOnes(x: nat, k: nat)
    requires x < Pow2(k)
    ensures Xor(x, Pow2(k) - 1) == Pow2(k) - 1 - x
  {
    if k > 0 {
      XorOnes(x / 2, k - 1);
      XorOdd(x, Pow2(k - 1) - 1);
    }
  }

  lemma XorOdd(x: nat, y: nat)
    ensures Xor(x, 2 * y + 1) == 2 * Xor(x / 2, y) + 1 - x % 2
  {
    assert (2 * y + 1) / 2 == y && (2 * y + 1) % 2 == 1;
  }

  // ---- bit scans ----

  // The number of trailing zero bits.
  function Ctz(x: nat): nat
    requires x > 0
  {
    if x % 2 == 1 then 0 else 1 + Ctz(x / 2)
  }

  // The number of bits up to the highest one.
  function BitLength(x: nat): nat {
    if x == 0 then 0 else 1 + BitLength(x / 2)
  }

  // The number of leading zero bits of a 32-bit word.
  function Clz(x: nat): (n: nat)
    requires 0 < x < W
    ensures n < 32
  {
    BitLengthBounds(x);
    Pow2Mono(32, BitLength(x) - 1);
    Pow2Values();
    32 - BitLength(x)
  }

  lemma {:induction false} BitLengthBounds(x: nat)
    requires x > 0
    ensures BitLength(x) > 0 && Pow2(BitLength(x) - 1) <= x < Pow2(BitLength(x))
  {
    if x > 1 { BitLengthBounds(x / 2); }
  }

  // The lowest set bit is at that position.
  lemma {:induction false} CtzIs(x: nat)
    requires x > 0
    ensures Low(x, Ctz(x)) == 0 && Shr(x, Ctz(x)) % 2 == 1
  {
    if x % 2 == 0 { CtzIs(x / 2); }
  }

  // x & (x - 1) clears the lowest set bit, so it is 0 exactly for powers of two.
  lemma {:induction false} PowerOfTwoTest(x: nat)
    requires x > 0
    ensures And(x, x - 1) == 0 <==> x == Pow2(Ctz(x))
  {
    if x % 2 == 1 {
      AndSelf(x / 2);
    } else {
      PowerOfTwoTest(x / 2);
      assert (x - 1) / 2 == x / 2 - 1;
    }
  }
}
