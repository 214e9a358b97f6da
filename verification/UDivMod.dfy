// __udivmoddi4 of abstract-machine/klib/src/int64.c, branch by branch.

module UDivMod {
  import opened Arith
  import opened Bits
  import opened BitScan
  import opened Int64

  // What a division returns; the hardware traps when the divisor is 0.
  datatype Outcome<T> = Quotient(value: T) | DivideError

  // The object behind the `rem` pointer.
  class Cell {
    var value: nat
    constructor () { value := 0; }
  }

  ghost predicate IsDivision(a: nat, b: nat, q: nat, r: nat) { q * b + r == a && r < b }

  lemma DivisionUnique(a: nat, b: nat, q: nat, r: nat)
    requires IsDivision(a, b, q, r)
    ensures q == a / b && r == a % b
  {
    DivModUnique(q, r, b);
  }

  lemma QuotientFits(a: nat, b: nat, q: nat, r: nat)
    requires IsDivision(a, b, q, r)
    ensures q <= a
  {
    MulMono(1, b, q);
  }

  // ---- the special cases ----

  // K 0 / K 0
  lemma HighWordsOnly(nh: nat, dh: nat)
    requires dh > 0
    ensures IsDivision(nh * W, dh * W, nh / dh, nh % dh * W)
  {
    var q, r := nh / dh, nh % dh;
    assert nh == q * dh + r;
    MulDist(q * dh, r, W);
    MulAssoc(q, dh, W);
  }

  // K K / K 0 with a power of two above
  lemma HighPower(nh: nat, nl: nat, k: nat)
    requires nl < W
    ensures IsDivision(Word(nh, nl), Pow2(k) * W, Shr(nh, k), Word(Low(nh, k), nl))
  {
    ShrLow(nh, k);
    MulDist(Shr(nh, k) * Pow2(k), Low(nh, k), W);
    MulAssoc(Shr(nh, k), Pow2(k), W);
    MulMono(Low(nh, k) + 1, Pow2(k), W);
    MulDist(Low(nh, k), 1, W);
  }

  // K X / 0 K with a power of two
  lemma LowPower(nh: nat, nl: nat, k: nat)
    requires nh < W && nl < W && 1 <= k <= 31
    ensures IsDivision(Word(nh, nl), Pow2(k), Word(Shr(nh, k), Or(Shl32(nh, 32 - k), Shr(nl, k))), Low(nl, k))
  {
    AlignShort(nh, nl, k);
    ShrLow(Word(nh, nl), k);
    LowOfWord(nh, nl, k);
  }

  lemma LowOfWord(nh: nat, nl: nat, k: nat)
    requires k <= 32
    ensures Low(Word(nh, nl), k) == Low(nl, k)
  {
    var t, p := Pow2(32 - k), Pow2(k);
    ShrLow(nl, k);
    Pow2Add(32 - k, k);
    Pow2Values();
    MulAssoc(nh, t, p);
    MulDist(nh * t, Shr(nl, k), p);
    MulMono(0, nh, t);
    SplitUnique(nh * t + Shr(nl, k), Low(nl, k), k);
  }

  // ---- where sr comes from ----

  lemma ClzBounds(x: nat)
    requires 0 < x < W
    ensures Pow2(31 - Clz(x)) <= x < Pow2(32 - Clz(x))
  {
    BitLengthBounds(x);
  }

  // Both numbers reach the high word and the divisor has fewer leading zeros: the quotient is 0.
  lemma DividendSmaller(nh: nat, nl: nat, dh: nat, dl: nat)
    requires 0 < nh < W && nl < W && 0 < dh < W && Clz(dh) < Clz(nh)
    ensures Word(nh, nl) < Word(dh, dl)
  {
    ClzBounds(nh);
    ClzBounds(dh);
    Pow2Mono(32 - Clz(nh), 31 - Clz(dh));
    MulMono(nh + 1, dh, W);
  }

  // Otherwise the difference of the leading zeros, plus one, brings the dividend below the
  // divisor; and a divisor above 2^63 needs a shift of just one.
  lemma ScaleHigh(nh: nat, nl: nat, dh: nat, dl: nat)
    requires 0 < nh < W && nl < W && 0 < dh < W && dl < W && Clz(dh) >= Clz(nh)
    ensures Shr(Word(nh, nl), Clz(dh) - Clz(nh) + 1) < Word(dh, dl)
    ensures Word(dh, dl) > HALF ==> Clz(dh) == Clz(nh) == 0 && Word(nh, nl) >= HALF
  {
    ClzBounds(nh);
    ClzBounds(dh);
    WordBelow(nh, nl, 32 - Clz(nh));
    ShrBound(Word(nh, nl), 63 - Clz(dh), Clz(dh) - Clz(nh) + 1);
    WordAbove(dh, dl, 31 - Clz(dh));
    if Word(dh, dl) > HALF { TopDivisor(dh, dl); }
    WordAbove(nh, nl, 31 - Clz(nh));
    Pow2Values();
  }

  lemma WordBelow(h: nat, l: nat, k: nat)
    requires h < Pow2(k) && l < W
    ensures Word(h, l) < Pow2(k + 32)
  {
    Pow2Values();
    Pow2Add(k, 32);
    MulMono(h + 1, Pow2(k), W);
  }

  lemma WordAbove(h: nat, l: nat, k: nat)
    requires h >= Pow2(k)
    ensures Word(h, l) >= Pow2(k + 32)
  {
    Pow2Values();
    Pow2Add(k, 32);
    MulMono(Pow2(k), h, W);
  }

  lemma TopDivisor(dh: nat, dl: nat)
    requires 0 < dh < W && dl < W && Word(dh, dl) > HALF
    ensures Clz(dh) == 0
  {
    ClzBounds(dh);
    Pow2Values();
    Pow2Mono(32 - Clz(dh), 31);
  }

  // Only the dividend reaches the high word.
  lemma ScaleLow(nh: nat, nl: nat, dl: nat)
    requires 0 < nh < W && nl < W && 1 < dl < W
    ensures var sr := 33 + Clz(dl) - Clz(nh); 2 <= sr <= 63 && Shr(Word(nh, nl), sr) < dl
  {
    ClzBounds(nh);
    ClzBounds(dl);
    Pow2Values();
    Pow2Mono(32 - Clz(dl), 1);
    var sr := 33 + Clz(dl) - Clz(nh);
    MulMono(nh + 1, Pow2(32 - Clz(nh)), W);
    Pow2Add(32 - Clz(nh), 32);
    ShrBound(Word(nh, nl), 31 - Clz(dl), sr);
  }

  // ---- the loop ----

  method ShiftSubtract(ghost a: nat, d: nat, sr0: nat, qHigh: nat, qLow: nat, rHigh: nat, rLow: nat)
      returns (q: nat, r: nat)
    requires a < D && 0 < d < D && 1 <= sr0 <= 63
    requires qHigh < W && qLow < W && rHigh < W && rLow < W
    requires Aligned(a, sr0, Word(qHigh, qLow), Word(rHigh, rLow)) && Shr(a, sr0) < d
    requires d <= HALF || (sr0 == 1 && a >= HALF)
    ensures IsDivision(a, d, q, r) && q < D
  {
    var qh: nat, ql: nat, rh: nat, rl: nat := qHigh, qLow, rHigh, rLow;
    var carry: nat, sr: nat := 0, sr0;
    ghost var qBits: nat := 0;
    while sr > 0
      invariant sr <= 63 && qh < W && ql < W && rh < W && rl < W
      invariant LoopInv(a, d, sr, Word(qh, ql), Word(rh, rl), carry, qBits)
    {
      Round(a, d, sr, rh, rl, qh, ql, carry, qBits);
      qBits := 2 * qBits + carry;
      rh := Or(Shl32(rh, 1), Shr(rl, 31));
      rl := Or(Shl32(rl, 1), Shr(qh, 31));
      qh := Or(Shl32(qh, 1), Shr(ql, 31));
      ql := Or(Shl32(ql, 1), carry);
      var s := SignMask(Sub64(Sub64(d, Word(rh, rl)), 1));
      carry := And(s, 1);
      var rest := Sub64(Word(rh, rl), And(d, s));
      rh, rl := Shr(rest, 32), Low(rest, 32);
      sr := sr - 1;
    }
    FinalQuotient(Word(qh, ql), carry, qBits);
    q := Low(Or(Shl(Word(qh, ql), 1), carry), 64);
    r := Word(rh, rl);
  }

  // One round on words.
  lemma Round(a: nat, d: nat, sr: nat, rh: nat, rl: nat, qh: nat, ql: nat, carry: nat, qBits: nat)
    requires a < D && 0 < d < D && 1 <= sr <= 63 && rh < W && rl < W && qh < W && ql < W
    requires LoopInv(a, d, sr, Word(qh, ql), Word(rh, rl), carry, qBits)
    ensures Or(Shl32(qh, 1), Shr(ql, 31)) < W && Or(Shl32(ql, 1), carry) < W
    ensures var r := Word(Or(Shl32(rh, 1), Shr(rl, 31)), Or(Shl32(rl, 1), Shr(qh, 31)));
            var s := SignMask(Sub64(Sub64(d, r), 1));
            var rest := Sub64(r, And(d, s));
            && Shr(rest, 32) < W && Low(rest, 32) < W
            && LoopInv(a, d, sr - 1, Word(Or(Shl32(qh, 1), Shr(ql, 31)), Or(Shl32(ql, 1), carry)),
                       Word(Shr(rest, 32), Low(rest, 32)), And(s, 1), 2 * qBits + carry)
  {
    LoopStep(a, d, sr, Word(qh, ql), Word(rh, rl), carry, qBits);
    ShiftPair(rh, rl, qh, ql, carry);
    var r := Word(Or(Shl32(rh, 1), Shr(rl, 31)), Or(Shl32(rl, 1), Shr(qh, 31)));
    MaskCompares(d, r);
    var s := SignMask(Sub64(Sub64(d, r), 1));
    MaskedSubtract(d, r, s);
    Halves(Sub64(r, And(d, s)));
  }

  // q.all = (q.all << 1) | carry
  lemma FinalQuotient(q: nat, carry: nat, qBits: nat)
    requires carry < 2 && q == Low(0, 0) * Pow2(64) + qBits && qBits < Pow2(63)
    ensures Low(Or(Shl(q, 1), carry), 64) == 2 * qBits + carry < D
  {
    Pow2Values();
    assert Low(0, 0) == 0;
    assert Shl(q, 1) == q * Pow2(1);
    OrDisjoint(q, 1, carry);
    LowOfSmall(2 * q + carry, 64);
  }

  // ---- __udivmoddi4 ----

  // What the caller gets: quotient and, through a non-null pointer, remainder; or a trap.
  ghost predicate Divides(a: nat, b: nat, o: Outcome<nat>, r: nat) {
    match o case DivideError => b == 0 case Quotient(q) => IsDivision(a, b, q, r) && q < D
  }

  lemma HighWordsCase(nh: nat, dh: nat)
    requires nh < W && 0 < dh < W
    ensures Divides(Word(nh, 0), Word(dh, 0), Quotient(nh / dh), Word(nh % dh, 0))
  {
    HighWordsOnly(nh, dh);
    QuotientFits(Word(nh, 0), Word(dh, 0), nh / dh, nh % dh * W);
  }

  lemma HighPowerCase(nh: nat, nl: nat, dh: nat)
    requires nh < W && nl < W && 0 < dh < W && And(dh, dh - 1) == 0
    ensures Divides(Word(nh, nl), Word(dh, 0), Quotient(Shr(nh, Ctz(dh))), Word(And(nh, dh - 1), nl))
  {
    PowerOfTwoTest(dh);
    AndLow(nh, Ctz(dh));
    HighPower(nh, nl, Ctz(dh));
    QuotientFits(Word(nh, nl), Word(dh, 0), Shr(nh, Ctz(dh)), Word(Low(nh, Ctz(dh)), nl));
  }

  lemma LowWordsCase(nl: nat, dl: nat)
    requires nl < W && 0 < dl < W
    ensures Divides(nl, dl, Quotient(nl / dl), nl % dl)
  {
    QuotientFits(nl, dl, nl / dl, nl % dl);
  }

  // The dividend fits the low word.
  method DivideSmall(nLow: nat, dHigh: nat, dLow: nat) returns (o: Outcome<nat>, r: nat)
    requires nLow < W && dHigh < W && dLow < W
    ensures Divides(nLow, Word(dHigh, dLow), o, r)
  {
    if dHigh == 0 {
      if dLow == 0 { return DivideError, 0; }      // n.s.low / d.s.low
      LowWordsCase(nLow, dLow);
      return Quotient(nLow / dLow), nLow % dLow;
    }
    return Quotient(0), nLow;
  }

  // The divisor's low word is 0.
  method DivideByHigh(nHigh: nat, nLow: nat, dHigh: nat) returns (o: Outcome<nat>, r: nat)
    requires 0 < nHigh < W && nLow < W && dHigh < W
    ensures Divides(Word(nHigh, nLow), Word(dHigh, 0), o, r)
  {
    if dHigh == 0 {
      return DivideError, 0;                       // n.s.high / d.s.low with d.s.low == 0
    }
    if nLow == 0 {
      HighWordsCase(nHigh, dHigh);
      return Quotient(nHigh / dHigh), Word(nHigh % dHigh, 0);
    }
    if And(dHigh, dHigh - 1) == 0 {
      HighPowerCase(nHigh, nLow, dHigh);
      return Quotient(Shr(nHigh, Ctz(dHigh))), Word(And(nHigh, dHigh - 1), nLow);
    }
    var sr := Sub32(Clz(dHigh), Clz(nHigh));
    ClzDifference(dHigh, nHigh);
    NotPowerOfTwo(dHigh);
    if sr > 30 {
      DividendSmaller(nHigh, nLow, dHigh, 0);
      return Quotient(0), Word(nHigh, nLow);
    }
    sr := sr + 1;
    ScaleHigh(nHigh, nLow, dHigh, 0);
    AlignShort(nHigh, nLow, sr);
    var q;
    q, r := ShiftSubtract(Word(nHigh, nLow), Word(dHigh, 0), sr, Shl32(nLow, 32 - sr), 0,
                          Shr(nHigh, sr), Or(Shl32(nHigh, 32 - sr), Shr(nLow, sr)));
    o := Quotient(q);
  }

  // The unsigned difference is large exactly when the true one is negative.
  lemma ClzDifference(x: nat, y: nat)
    requires 0 < x < W && 0 < y < W
    ensures Sub32(Clz(x), Clz(y)) == if Clz(x) >= Clz(y) then Clz(x) - Clz(y) else Clz(x) - Clz(y) + W
  {
  }

  // 1 is a power of two, so any other number has fewer than 31 leading zeros.
  lemma NotPowerOfTwo(x: nat)
    requires 0 < x < W && And(x, x - 1) != 0
    ensures Clz(x) <= 30 && x > 1
  {
    ClzBounds(x);
    assert And(1, 0) == 0;
    Pow2Mono(32 - Clz(x), 1);
  }

  // The divisor fits the low word.
  method DivideByLow(nHigh: nat, nLow: nat, dLow: nat) returns (o: Outcome<nat>, r: nat)
    requires 0 < nHigh < W && nLow < W && 0 < dLow < W
    ensures Divides(Word(nHigh, nLow), dLow, o, r)
  {
    ghost var a := Word(nHigh, nLow);
    PowerOfTwoTest(dLow);
    var sr;
    if And(dLow, dLow - 1) == 0 {
      sr := Ctz(dLow);
      CtzBound(dLow);
      AndLow(nLow, sr);
      r := And(nLow, dLow - 1);
      if dLow == 1 {
        assert sr == 0;
        return Quotient(Word(nHigh, nLow)), r;
      }
      assert sr >= 1;
      LowPower(nHigh, nLow, sr);
      o := Quotient(Word(Shr(nHigh, sr), Or(Shl32(nHigh, 32 - sr), Shr(nLow, sr))));
      QuotientFits(a, dLow, o.value, r);
      return;
    }
    NotPowerOfTwo(dLow);
    sr := 1 + 32 + Clz(dLow) - Clz(nHigh);
    ScaleLow(nHigh, nLow, dLow);
    var q;
    if sr == 32 {
      AlignWord(nHigh, nLow);
      q, r := ShiftSubtract(a, dLow, sr, nLow, 0, 0, nHigh);
    } else if sr < 32 {
      AlignShort(nHigh, nLow, sr);
      q, r := ShiftSubtract(a, dLow, sr, Shl32(nLow, 32 - sr), 0, Shr(nHigh, sr),
        Or(Shl32(nHigh, 32 - sr), Shr(nLow, sr)));
    } else {
      AlignLong(nHigh, nLow, sr - 32);
      q, r := ShiftSubtract(a, dLow, sr, Or(Shl32(nHigh, 64 - sr), Shr(nLow, sr - 32)), Shl32(nLow, 64 - sr), 0,
        Shr(nHigh, sr - 32));
    }
    o := Quotient(q);
  }

  // Both words of the divisor are in use.
  method DivideByBoth(nHigh: nat, nLow: nat, dHigh: nat, dLow: nat) returns (o: Outcome<nat>, r: nat)
    requires 0 < nHigh < W && nLow < W && 0 < dHigh < W && 0 < dLow < W
    ensures Divides(Word(nHigh, nLow), Word(dHigh, dLow), o, r)
  {
    var sr := Sub32(Clz(dHigh), Clz(nHigh));
    ClzDifference(dHigh, nHigh);
    if sr > 31 {
      DividendSmaller(nHigh, nLow, dHigh, dLow);
      return Quotient(0), Word(nHigh, nLow);
    }
    sr := sr + 1;
    ScaleHigh(nHigh, nLow, dHigh, dLow);
    var q;
    if sr == 32 {
      AlignWord(nHigh, nLow);
      q, r := ShiftSubtract(Word(nHigh, nLow), Word(dHigh, dLow), sr, nLow, 0, 0, nHigh);
    } else {
      AlignShort(nHigh, nLow, sr);
      q, r := ShiftSubtract(Word(nHigh, nLow), Word(dHigh, dLow), sr, Shl32(nLow, 32 - sr), 0,
                            Shr(nHigh, sr), Or(Shl32(nHigh, 32 - sr), Shr(nLow, sr)));
    }
    o := Quotient(q);
  }

  method UDivModDi4(a: nat, b: nat, rem: Cell?) returns (o: Outcome<nat>)
    requires a < D && b < D
    modifies if rem == null then {} else {rem}
    ensures o == if b == 0 then DivideError else Quotient(a / b)
    ensures rem != null ==> rem.value == if b == 0 then old(rem.value) else a % b
  {
    Halves(a);
    Halves(b);
    var nHigh, nLow, dHigh, dLow := Shr(a, 32), Low(a, 32), Shr(b, 32), Low(b, 32);
    var r: nat;
    if nHigh == 0 {
      o, r := DivideSmall(nLow, dHigh, dLow);
    } else if dLow == 0 {
      o, r := DivideByHigh(nHigh, nLow, dHigh);
    } else if dHigh == 0 {
      o, r := DivideByLow(nHigh, nLow, dLow);
    } else {
      o, r := DivideByBoth(nHigh, nLow, dHigh, dLow);
    }
    assert Divides(a, b, o, r);
    Exact(a, b, o, r);
    if o.Quotient? && rem != null { rem.value := r; }
  }

  lemma Exact(a: nat, b: nat, o: Outcome<nat>, r: nat)
    requires Divides(a, b, o, r)
    ensures o == if b == 0 then DivideError else Quotient(a / b)
    ensures b != 0 ==> r == a % b
  {
    if o.Quotient? { DivisionUnique(a, b, o.value, r); }
  }

  // ---- __udivdi3 and __umoddi3 ----

  method UDivDi3(a: nat, b: nat) returns (o: Outcome<nat>)
    requires a < D && b < D
    ensures o == if b == 0 then DivideError else Quotient(a / b)
  {
    o := UDivModDi4(a, b, null);
  }

  method UModDi3(a: nat, b: nat) returns (o: Outcome<nat>)
    requires a < D && b < D
    ensures o == if b == 0 then DivideError else Quotient(a % b)
  {
    var r := new Cell();
    o := UDivModDi4(a, b, r);
    if o.Quotient? { o := Quotient(r.value); }
  }
}
