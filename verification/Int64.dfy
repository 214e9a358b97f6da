// 64-bit division built from 32-bit halves (abstract-machine/klib/src/int64.c).

module Int64 {
  import opened Arith
  import opened Bits
  import opened BitScan

  const HALF: nat := 0x8000_0000_0000_0000

  function Word(high: nat, low: nat): nat { high * W + low }

  // Shifts and subtraction at the widths of the C types.
  function Shl32(x: nat, k: nat): nat { Low(Shl(x, k), 32) }
  function Sub64(x: int, y: int): (r: nat)
    ensures r < D
  {
    (x - y) % D
  }

  // (di_int)x >> 63: all ones if the top bit is set.
  function SignMask(x: nat): nat { if x >= HALF then D - 1 else 0 }

  // ---- word identities ----

  lemma {:induction false} LowShl(x: nat, j: nat, k: nat)
    ensures Low(Shl(x, k), j + k) == Shl(Low(x, j), k)
  {
    if k > 0 {
      LowShl(x, j, k - 1);
      assert Shl(x, k) / 2 == Shl(x, k - 1);
    }
  }

  // The bits that survive a left shift by 32 - j.
  lemma Shl32Keeps(x: nat, j: nat)
    requires 0 < j <= 32
    ensures Shl32(x, 32 - j) == Low(x, j) * Pow2(32 - j) < W
    ensures Pow2(j) * Pow2(32 - j) == W
  {
    LowShl(x, j, 32 - j);
    ShlIsMul(Low(x, j), 32 - j);
    ShrLow(Shl(x, 32 - j), 32);
    Pow2Values();
    Pow2Add(j, 32 - j);
  }

  // (x << (32 - j)) | (y >> j): the low bits of x above the high bits of y.
  lemma Funnel(x: nat, y: nat, j: nat)
    requires 0 < j <= 32 && y < W
    ensures Or(Shl32(x, 32 - j), Shr(y, j)) == Low(x, j) * Pow2(32 - j) + Shr(y, j) < W
  {
    hide Or, Shl32, Low, Shr, Pow2;
    Shl32Keeps(x, j);
    Pow2Values();
    ShrBound(y, 32 - j, j);
    OrDisjoint(Low(x, j), 32 - j, Shr(y, j));
    ShrLow(x, j);
    MulMono(Low(x, j) + 1, Pow2(j), Pow2(32 - j));
    MulDist(Low(x, j), 1, Pow2(32 - j));
  }

  // ---- q and r before the loop ----

  // What the loop starts from: the top bits of a are in r, the rest is left-aligned in q.
  ghost predicate Aligned(a: nat, sr: nat, q: nat, r: nat)
    requires sr <= 64
  {
    r == Shr(a, sr) && q == Low(a, sr) * Pow2(64 - sr)
  }

  lemma AlignShort(nh: nat, nl: nat, sr: nat)
    requires nh < W && nl < W && 1 <= sr <= 31
    ensures Aligned(Word(nh, nl), sr, Word(Shl32(nl, 32 - sr), 0),
      Word(Shr(nh, sr), Or(Shl32(nh, 32 - sr), Shr(nl, sr))))
    ensures Shl32(nl, 32 - sr) < W && Shr(nh, sr) < W && Or(Shl32(nh, 32 - sr), Shr(nl, sr)) < W
  {
    Funnel(nh, nl, sr);
    Shl32Keeps(nl, sr);
    ShrSmaller(nh, sr);
    ShortRemainder(nh, nl, sr);
    ShortPower(sr);
    MulAssoc(Low(nl, sr), Pow2(32 - sr), W);
  }

  lemma ShortRemainder(nh: nat, nl: nat, sr: nat)
    requires nh < W && nl < W && 1 <= sr <= 31
    ensures Word(Shr(nh, sr), Or(Shl32(nh, 32 - sr), Shr(nl, sr))) == Shr(Word(nh, nl), sr)
    ensures Low(nl, sr) == Low(Word(nh, nl), sr)
  {
    var p, p' := Pow2(sr), Pow2(32 - sr);
    Funnel(nh, nl, sr);
    Shl32Keeps(nl, sr);
    ShrLow(nh, sr);
    ShrLow(nl, sr);
    ShortIdentity(Shr(nh, sr), Low(nh, sr), Shr(nl, sr), Low(nl, sr), p, p');
    SplitUnique(Word(Shr(nh, sr), Or(Shl32(nh, 32 - sr), Shr(nl, sr))), Low(nl, sr), sr);
  }

  lemma ShrSmaller(x: nat, sr: nat)
    requires x < W && 1 <= sr <= 31
    ensures Shr(x, sr) < W
  {
    Pow2Values();
    ShrBound(x, 32 - sr, sr);
    Pow2Mono(32 - sr, 32);
  }

  lemma ShortPower(sr: nat)
    requires 1 <= sr <= 31
    ensures Pow2(64 - sr) == Pow2(32 - sr) * W
  {
    Pow2Values();
    Pow2Add(32 - sr, 32);
  }

  lemma ShortIdentity(hh: nat, hl: nat, lh: nat, ll: nat, p: nat, p': nat)
    requires p * p' == W
    ensures (hh * W + (hl * p' + lh)) * p + ll == (hh * p + hl) * W + (lh * p + ll)
  {
    MulDist(hh * W, hl * p' + lh, p);
    MulDist(hl * p', lh, p);
    MulAssoc(hl, p', p);
    MulDist(hh * p, hl, W);
    assert hh * W * p == hh * p * W;
    assert p' * p == W;
  }

  lemma AlignWord(nh: nat, nl: nat)
    requires nh < W && nl < W
    ensures Aligned(Word(nh, nl), 32, Word(nl, 0), Word(0, nh))
  {
    Pow2Values();
    SplitUnique(nh, nl, 32);
  }

  lemma AlignLong(nh: nat, nl: nat, j: nat)
    requires nh < W && nl < W && 1 <= j <= 31
    ensures Aligned(Word(nh, nl), 32 + j, Word(Or(Shl32(nh, 32 - j), Shr(nl, j)), Shl32(nl, 32 - j)),
      Word(0, Shr(nh, j)))
    ensures Or(Shl32(nh, 32 - j), Shr(nl, j)) < W && Shl32(nl, 32 - j) < W && Shr(nh, j) < W
  {
    var p, p' := Pow2(j), Pow2(32 - j);
    Funnel(nh, nl, j);
    Shl32Keeps(nl, j);
    ShrLow(nh, j);
    ShrLow(nl, j);
    Pow2Values();
    ShrBound(nh, 32 - j, j);
    Pow2Mono(32 - j, 32);
    LongSplit(nh, nl, j);
    LongIdentity(Low(nh, j), Shr(nl, j), Low(nl, j), p, p');
  }

  lemma LongSplit(nh: nat, nl: nat, j: nat)
    requires nh < W && nl < W
    ensures Shr(Word(nh, nl), 32 + j) == Shr(nh, j) && Low(Word(nh, nl), 32 + j) == Low(nh, j) * W + nl
  {
    Pow2Values();
    ShrLow(nh, j);
    Pow2Add(j, 32);
    MulAssoc(Shr(nh, j), Pow2(j), W);
    MulDist(Shr(nh, j) * Pow2(j), Low(nh, j), W);
    MulMono(Low(nh, j) + 1, Pow2(j), W);
    MulDist(Low(nh, j), 1, W);
    SplitUnique(Shr(nh, j), Low(nh, j) * W + nl, 32 + j);
  }

  lemma LongIdentity(hl: nat, lh: nat, ll: nat, p: nat, p': nat)
    requires p * p' == W
    ensures (hl * W + (lh * p + ll)) * p' == (hl * p' + lh) * W + ll * p'
  {
    MulDist(hl * W, lh * p + ll, p');
    MulDist(lh * p, ll, p');
    MulAssoc(lh, p, p');
    MulDist(hl * p', lh, W);
    assert hl * W * p' == hl * p' * W;
  }

  // ---- the shift-subtract loop ----

  // One word of the 128-bit shift: the top bit leaves, `bit` comes in.
  lemma ShiftWord(x: nat, bit: nat)
    requires x < W && bit < 2
    ensures Or(Shl32(x, 1), bit) == 2 * x + bit - Shr(x, 31) * W < W && Shr(x, 31) < 2
  {
    Pow2Values();
    ShrBound(x, 1, 31);
    ShrLow(x, 31);
    LowShl(x, 31, 1);
    OrDisjoint(Low(x, 31), 1, bit);
  }

  // The top bit of a double word is the top bit of its high word.
  lemma TopBit(high: nat, low: nat)
    requires high < W && low < W
    ensures Shr(high, 31) == if Word(high, low) >= HALF then 1 else 0
  {
    Pow2Values();
    ShrLow(high, 31);
    ShrBound(high, 1, 31);
  }

  // The four word shifts together: r:q doubles, the top bit of q moves into r, and the carry
  // enters q. Nothing is lost, because r < 2^63.
  lemma ShiftPair(rh: nat, rl: nat, qh: nat, ql: nat, carry: nat)
    requires rh < W && rl < W && qh < W && ql < W && carry < 2 && Word(rh, rl) < HALF
    ensures Word(Or(Shl32(rh, 1), Shr(rl, 31)), Or(Shl32(rl, 1), Shr(qh, 31)))
         == 2 * Word(rh, rl) + (if Word(qh, ql) >= HALF then 1 else 0)
    ensures Word(Or(Shl32(qh, 1), Shr(ql, 31)), Or(Shl32(ql, 1), carry))
         == 2 * Word(qh, ql) + carry - (if Word(qh, ql) >= HALF then D else 0)
    ensures Or(Shl32(rh, 1), Shr(rl, 31)) < W && Or(Shl32(rl, 1), Shr(qh, 31)) < W
    ensures Or(Shl32(qh, 1), Shr(ql, 31)) < W && Or(Shl32(ql, 1), carry) < W
  {
    TopBit(qh, ql);
    TopBit(rh, rl);
    ShiftWord(ql, carry);
    var q0, q1 := Or(Shl32(ql, 1), carry), Shr(ql, 31);
    ShiftWord(qh, q1);
    var q2, q3 := Or(Shl32(qh, 1), q1), Shr(qh, 31);
    ShiftWord(rl, q3);
    var r0, r1 := Or(Shl32(rl, 1), q3), Shr(rl, 31);
    ShiftWord(rh, r1);
    var r2 := Or(Shl32(rh, 1), r1);
    assert q0 == 2 * ql + carry - q1 * W && q2 == 2 * qh + q1 - q3 * W;
    assert r0 == 2 * rl + q3 - r1 * W && r2 == 2 * rh + r1;
  }

  // The comparison without a branch: the sign mask is all ones exactly when r >= d. This
  // needs r to be close enough to d, which is what the loop guarantees.
  lemma MaskCompares(d: nat, r: nat)
    requires 0 < d < D && r < D && r < 2 * d && (d <= HALF || r >= HALF)
    ensures SignMask(Sub64(Sub64(d, r), 1)) == if r >= d then D - 1 else 0
  {
    assert Sub64(Sub64(d, r), 1) == if r >= d then d - r - 1 + D else d - r - 1;
  }

  lemma MaskedSubtract(d: nat, r: nat, s: nat)
    requires d < D && r < D && s == (if r >= d then D - 1 else 0)
    ensures Sub64(r, And(d, s)) == (if r >= d then r - d else r) && And(s, 1) == if r >= d then 1 else 0
  {
    Pow2Values();
    AndLow(d, 64);
    LowOfSmall(d, 64);
    AndComm(s, 1);
    assert (D - 1) / 2 * 2 + 1 == D - 1;
    if s > 0 { AndOdd(1, (D - 1) / 2); }
  }

  // State of the loop with sr rounds to go: q holds the unread bits of a at the top and all
  // but the last quotient bit at the bottom.
  ghost predicate LoopInv(a: nat, d: nat, sr: nat, q: nat, r: nat, carry: nat, qBits: nat)
    requires sr <= 63
  {
    && carry < 2 && qBits < Pow2(63 - sr) && q == Low(a, sr) * Pow2(64 - sr) + qBits
    && (2 * qBits + carry) * d + r == Shr(a, sr) && r < d
    && (d <= HALF || sr == 0 || (sr == 1 && a >= HALF))
  }

  // The bit of a that the next round reads.
  function NextBit(a: nat, sr: nat): (bit: nat)
    requires sr > 0
    ensures bit < 2
  {
    Shr(a, sr - 1) % 2
  }

  lemma NextBitOfA(a: nat, sr: nat)
    requires a < D && 1 <= sr <= 63
    ensures Shr(a, sr - 1) == 2 * Shr(a, sr) + NextBit(a, sr) && Shr(a, sr) < HALF
  {
    ShrShr(a, sr - 1, 1);
    assert Shr(Shr(a, sr - 1), 1) == Shr(a, sr - 1) / 2;
    Pow2Halves(sr);
    ShrBound(a, 64 - sr, sr);
    Pow2Mono(64 - sr, 63);
    Pow2Values();
  }

  // It is the top bit of q.
  lemma NextBitOfQ(a: nat, sr: nat, q: nat, qBits: nat)
    requires 1 <= sr <= 63 && qBits < Pow2(63 - sr) && q == Low(a, sr) * Pow2(64 - sr) + qBits
    ensures q < D && (q >= HALF <==> NextBit(a, sr) == 1)
    ensures 2 * q - NextBit(a, sr) * D == Low(a, sr - 1) * Pow2(65 - sr) + 2 * qBits
  {
    var bit, rest, t, p := NextBit(a, sr), Low(a, sr - 1), Pow2(sr - 1), Pow2(64 - sr);
    LowTop(a, sr);
    Pow2Halves(sr);
    ShrLow(a, sr - 1);
    assert q == (bit * t + rest) * p + qBits;
    TopOfProduct(bit, rest, t, p, qBits);
    LeadingBit(bit, rest, p, q, qBits);
  }

  lemma LeadingBit(bit: nat, rest: nat, p: nat, q: nat, low: nat)
    requires bit < 2 && q == bit * HALF + (rest * p + low) && rest * p + low < HALF
    ensures q < D && (q >= HALF <==> bit == 1) && 2 * q - bit * D == rest * (2 * p) + 2 * low
  {
    Double(rest, p);
  }

  lemma Pow2Halves(sr: nat)
    requires 1 <= sr <= 63
    ensures Pow2(sr - 1) * Pow2(64 - sr) == HALF
    ensures Pow2(64 - sr) == 2 * Pow2(63 - sr) && Pow2(65 - sr) == 2 * Pow2(64 - sr)
    ensures Pow2(sr) * Pow2(64 - sr) == D && Pow2(sr + (64 - sr)) == D
  {
    Pow2Add(sr - 1, 64 - sr);
    Pow2Add(sr, 64 - sr);
    Pow2Values();
  }

  // (bit * t + rest) * p + low, with t * p == 2^63: the top bit is `bit`.
  lemma TopOfProduct(bit: nat, rest: nat, t: nat, p: nat, low: nat)
    requires t * p == HALF && bit < 2 && rest < t && low < p
    ensures (bit * t + rest) * p + low == bit * HALF + (rest * p + low) && rest * p + low < HALF
  {
    MulDist(bit * t, rest, p);
    MulAssoc(bit, t, p);
    MulMono(rest + 1, t, p);
    MulDist(rest, 1, p);
  }

  lemma {:induction false} LowTop(a: nat, k: nat)
    requires k > 0
    ensures Low(a, k) == Shr(a, k - 1) % 2 * Pow2(k - 1) + Low(a, k - 1)
  {
    if k > 1 {
      LowTop(a / 2, k - 1);
      Double(Shr(a, k - 1) % 2, Pow2(k - 2));
    }
  }

  // The remainder after the shift, and what one round makes of it.
  lemma LoopStep(a: nat, d: nat, sr: nat, q: nat, r: nat, carry: nat, qBits: nat)
    requires a < D && 0 < d < D && 1 <= sr <= 63 && LoopInv(a, d, sr, q, r, carry, qBits)
    ensures r < HALF && q < D
    ensures var r' := 2 * r + (if q >= HALF then 1 else 0);
            && r' < D && r' < 2 * d && (d <= HALF || r' >= HALF)
            && LoopInv(a, d, sr - 1, 2 * q + carry - (if q >= HALF then D else 0),
                       if r' >= d then r' - d else r', if r' >= d then 1 else 0, 2 * qBits + carry)
  {
    NextBitOfA(a, sr);
    NextBitOfQ(a, sr, q, qBits);
    Pow2Halves(sr);
    var n := 2 * qBits + carry;
    var top := if q >= HALF then 1 else 0;
    MulMono(0, n, d);
    NextRemainder(n, d, r, Shr(a, sr), top);
    if sr == 1 && d > HALF { SmallQuotient(n, d, r, Shr(a, 1)); }
  }

  lemma NextRemainder(n: nat, d: nat, r: nat, x: nat, top: nat)
    requires n * d + r == x && r < d && top < 2
    ensures 2 * n * d + (2 * r + top) == 2 * x + top
    ensures (2 * n + 1) * d + (2 * r + top - d) == 2 * x + top
  {
    MulAssoc(2, n, d);
    MulDist(2 * n, 1, d);
  }

  // A quotient of a value below 2^63 by d > 2^63 is 0.
  lemma SmallQuotient(n: nat, d: nat, r: nat, x: nat)
    requires n * d + r == x < HALF < d
    ensures n == 0
  {
    MulMono(1, n, d);
  }
}
