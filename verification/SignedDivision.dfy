// __divdi3, __divmoddi4 and __moddi3 of abstract-machine/klib/src/int64.c: signed division
// on top of the unsigned one, with two's complement wrap-around.

module SignedDivision {
  import opened Arith
  import opened Bits
  import opened BitScan
  import opened Int64
  import opened UDivMod

  const MIN: int := -0x8000_0000_0000_0000

  predicate IsInt64(x: int) { MIN <= x < -MIN }

  // The bit pattern of a signed number, and the number a pattern stands for.
  function Pattern(x: int): nat
    requires IsInt64(x)
  {
    if x < 0 then x + D else x
  }

  function Signed(p: nat): (x: int)
    requires p < D
    ensures IsInt64(x)
  {
    if p >= HALF then p - D else p
  }

  function Wrap64(x: int): (r: int)
    ensures IsInt64(r)
  {
    Signed(Sub64(x, 0))
  }

  // x >> 63 on a signed number.
  function SignOf(x: int): int { if x < 0 then -1 else 0 }

  // (x ^ s) - s, as patterns.
  function NegateIf(p: nat, s: nat): (r: nat)
    ensures r < D
  {
    Sub64(Xor(p, s), s)
  }

  lemma NegateIfMeaning(p: nat, s: int)
    requires p < D && (s == 0 || s == -1)
    ensures NegateIf(p, Pattern(s)) == if s == 0 then p else Sub64(0, p)
  {
    Pow2Values();
    if s == -1 { XorOnes(p, 64); }
  }

  // ---- truncating division ----

  function Abs(x: int): nat { if x < 0 then -x else x }

  function TruncDiv(a: int, b: int): int
    requires b != 0
  {
    if (a < 0) == (b < 0) then Abs(a) / Abs(b) else -(Abs(a) / Abs(b))
  }

  function TruncRem(a: int, b: int): int
    requires b != 0
  {
    if a < 0 then -(Abs(a) % Abs(b)) else Abs(a) % Abs(b)
  }

  // (x ^ s) - s with s = x >> 63 is the absolute value, of the minimum too.
  lemma AbsByMask(x: int)
    requires IsInt64(x)
    ensures NegateIf(Pattern(x), Pattern(SignOf(x))) == Abs(x)
  {
    NegateIfMeaning(Pattern(x), SignOf(x));
  }

  // Section 6.5.5 of ISO/IEC 9899:2011: the quotient and remainder of C.
  ghost predicate IsTruncated(a: int, b: int, q: int, r: int) {
    q * b + r == a && Abs(r) < Abs(b) && (r == 0 || (r < 0) == (a < 0))
  }

  lemma TruncMeaning(a: int, b: int)
    requires b != 0
    ensures IsTruncated(a, b, TruncDiv(a, b), TruncRem(a, b))
  {
    hide IsTruncated;
    Euclid(Abs(a), Abs(b));
    Signs(a, b, Abs(a) / Abs(b), Abs(a) % Abs(b));
  }

  lemma Euclid(n: nat, d: nat)
    requires d > 0
    ensures n / d >= 0 && n == n / d * d + n % d && 0 <= n % d < d
  {
  }

  lemma Signs(a: int, b: int, q: int, r: int)
    requires b != 0 && q >= 0 && r >= 0 && Abs(a) == q * Abs(b) + r && r < Abs(b)
    ensures IsTruncated(a, b, if (a < 0) == (b < 0) then q else -q, if a < 0 then -r else r)
  {
    MulNegate(q, b);
  }

  lemma MulNegate(q: int, b: int)
    ensures q * (-b) == -(q * b) && (-q) * b == -(q * b)
  {
  }

  lemma TruncUnique(a: int, b: int, q: int, r: int)
    requires b != 0 && IsTruncated(a, b, q, r)
    ensures q == TruncDiv(a, b) && r == TruncRem(a, b)
  {
    TruncMeaning(a, b);
    var q', r' := TruncDiv(a, b), TruncRem(a, b);
    assert (q - q') * b == r' - r by { MulDist(q, -q', b); }
    NoMultipleBetween(q - q', b);
  }

  lemma NoMultipleBetween(n: int, b: int)
    requires Abs(n * b) < Abs(b)
    ensures n == 0
  {
    MulMono(1, Abs(n), Abs(b));
    AbsProduct(n, b);
  }

  lemma AbsProduct(n: int, b: int)
    ensures Abs(n * b) == Abs(n) * Abs(b)
  {
  }

  lemma QuotientBound(a: nat, b: nat)
    requires b > 0
    ensures a / b <= a && (b == 1 ==> a / b == a) && (b >= 2 ==> 2 * (a / b) <= a)
  {
    var q := a / b;
    assert a == q * b + a % b;
    MulMono(1, b, q);
    MulMono(2, b, q);
  }

  // The quotient fits 64 bits in every case but one.
  lemma OnlyOverflow(a: int, b: int)
    requires IsInt64(a) && IsInt64(b) && b != 0
    ensures IsInt64(TruncDiv(a, b)) <==> !(a == MIN && b == -1)
  {
    QuotientBound(Abs(a), Abs(b));
  }

  lemma RemainderFits(a: int, b: int)
    requires IsInt64(a) && IsInt64(b) && b != 0
    ensures IsInt64(TruncRem(a, b))
  {
    assert Abs(a) % Abs(b) < Abs(b);
  }

  // ---- the operations ----

  method DivDi3(a: int, b: int) returns (o: Outcome<int>)
    requires IsInt64(a) && IsInt64(b)
    ensures o == if b == 0 then DivideError else Quotient(Wrap64(TruncDiv(a, b)))
    ensures b != 0 ==> o == Quotient(if a == MIN && b == -1 then MIN else TruncDiv(a, b))
  {
    if b != 0 { OnlyOverflow(a, b); }
    var sa, sb := SignOf(a), SignOf(b);
    AbsByMask(a);
    AbsByMask(b);
    var ua, ub := NegateIf(Pattern(a), Pattern(sa)), NegateIf(Pattern(b), Pattern(sb));
    var s := Xor(Pattern(sa), Pattern(sb));
    SignXor(sa, sb);
    var q := UDivModDi4(ua, ub, null);
    if q.DivideError? { return DivideError; }
    QuotientBound(ua, ub);
    NegateIfMeaning(q.value, if sa == sb then 0 else -1);
    o := Quotient(Signed(NegateIf(q.value, s)));
  }

  lemma SignXor(sa: int, sb: int)
    requires (sa == 0 || sa == -1) && (sb == 0 || sb == -1)
    ensures Xor(Pattern(sa), Pattern(sb)) == Pattern(if sa == sb then 0 else -1)
  {
    Pow2Values();
    if sa == -1 && sb == -1 { XorOnes(D - 1, 64); }
  }

  method ModDi3(a: int, b: int) returns (o: Outcome<int>)
    requires IsInt64(a) && IsInt64(b)
    ensures o == if b == 0 then DivideError else Quotient(TruncRem(a, b))
  {
    AbsByMask(a);
    AbsByMask(b);
    var s := SignOf(b);
    var ub := NegateIf(Pattern(b), Pattern(s));
    s := SignOf(a);
    var ua := NegateIf(Pattern(a), Pattern(s));
    var r := new Cell();
    var q := UDivModDi4(ua, ub, r);
    if q.DivideError? { return DivideError; }
    var m := r.value;
    SignedRemainder(m, a, b);
    o := Quotient(Signed(NegateIf(m, Pattern(s))));
  }

  lemma SignedRemainder(m: nat, a: int, b: int)
    requires IsInt64(a) && IsInt64(b) && b != 0 && m == Abs(a) % Abs(b)
    ensures m < D && Signed(NegateIf(m, Pattern(SignOf(a)))) == TruncRem(a, b)
  {
    RemainderFits(a, b);
    assert m < Abs(b);
    NegateIfMeaning(m, SignOf(a));
  }

  // The wrapped a - d * b is the true remainder even when the quotient has overflowed.
  method DivModDi4(a: int, b: int) returns (o: Outcome<int>, rem: int)
    requires IsInt64(a) && IsInt64(b)
    ensures o == if b == 0 then DivideError else Quotient(Wrap64(TruncDiv(a, b)))
    ensures b != 0 ==> o == Quotient(if a == MIN && b == -1 then MIN else TruncDiv(a, b))
    ensures b != 0 ==> rem == TruncRem(a, b)
  {
    o := DivDi3(a, b);
    rem := 0;
    if o.Quotient? {
      rem := Wrap64(a - Wrap64(o.value * b));
      RemainderOfWrapped(a, b);
    }
  }

  lemma RemainderOfWrapped(a: int, b: int)
    requires IsInt64(a) && IsInt64(b) && b != 0
    ensures Wrap64(a - Wrap64(Wrap64(TruncDiv(a, b)) * b)) == TruncRem(a, b)
  {
    TruncMeaning(a, b);
    OnlyOverflow(a, b);
    RemainderFits(a, b);
    var q, r := TruncDiv(a, b), TruncRem(a, b);
    if a == MIN && b == -1 {
      assert q == -MIN && r == 0;
      assert Wrap64(q) == MIN && Wrap64(MIN * b) == MIN;
    } else {
      WrapIdentity(q);
      var p := q * b;
      assert p + r == a;
      WrapIdentity(p);
      WrapIdentity(r);
    }
  }

  lemma WrapIdentity(x: int)
    requires IsInt64(x)
    ensures Wrap64(x) == x
  {
  }
}
