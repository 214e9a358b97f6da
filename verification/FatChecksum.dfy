// What calc_checksum of M6-fsrecov/fsrecov.c computes, on bits: a rotation to the right and an
// addition for every byte of the name (section 7 of the Microsoft FAT Specification, 2005).

module FatChecksum {
  import opened Arith
  import opened Bits
  import opened FatEntry

  lemma {:induction false} OrComm(x: nat, y: nat)
    ensures Or(x, y) == Or(y, x)
    decreases x + y
  {
    if x > 0 && y > 0 { OrComm(x / 2, y / 2); }
  }

  // ---- the rotation ----

  // The low k bits of a byte change places with the others.
  function Rotated(s: Byte, k: nat): nat
    requires k <= 8
  {
    Or(Shr(s, k), Shl(And(s, Pow2(k) - 1), 8 - k))
  }

  lemma Powers(k: nat)
    requires k <= 8
    ensures Pow2(k) == [1, 2, 4, 8, 16, 32, 64, 128, 256][k]
  {
    assert Pow2(0) == 1 && Pow2(1) == 2 && Pow2(2) == 4;
    assert Pow2(3) == 8 && Pow2(4) == 16 && Pow2(5) == 32;
    assert Pow2(6) == 64 && Pow2(7) == 128 && Pow2(8) == 256;
  }

  lemma RotatedIs(s: Byte, k: nat)
    requires k <= 8
    ensures Rotated(s, k) == s / Pow2(k) + s % Pow2(k) * Pow2(8 - k) && Rotated(s, k) < 256
  {
    hide Or, Shr, Shl, And, Low;
    AndLow(s, k);
    ShrIsDiv(s, k);
    ShlIsMul(s % Pow2(k), 8 - k);
    OrComm(s / Pow2(k), s % Pow2(k) * Pow2(8 - k));
    Powers(k);
    Powers(8 - k);
    QuotientFits(s, k);
    OrDisjoint(s % Pow2(k), 8 - k, s / Pow2(k));
    MulMono(s % Pow2(k) + 1, Pow2(k), Pow2(8 - k));
    MulDist(s % Pow2(k), 1, Pow2(8 - k));
    Pow2Add(k, 8 - k);
  }

  lemma QuotientFits(s: Byte, k: nat)
    requires k <= 8
    ensures s / Pow2(k) < Pow2(8 - k)
  {
    Powers(k);
    Powers(8 - k);
  }

  lemma AddByteIs(s: Byte, b: Byte)
    ensures AddByte(s, 0) == s / 2 + s % 2 * 128 && AddByte(s, b) == (AddByte(s, 0) + b) % 256
  {
  }

  // One round of the loop: rotate by one bit, then add, in 8 bits.
  lemma AddByteRotates(s: Byte, b: Byte)
    ensures AddByte(s, 0) == Or(Shr(s, 1), Shl(And(s, 1), 7)) == Rotated(s, 1)
    ensures AddByte(s, b) == (AddByte(s, 0) + b) % 256
  {
    hide Or, Shr, Shl, And, Pow2, AddByte;
    AddByteIs(s, b);
    Powers(1);
    Powers(7);
    RotatedIs(s, 1);
  }

  // The loop with n zero bytes.
  function Turned(s: Byte, n: nat): Byte { if n == 0 then s else AddByte(Turned(s, n - 1), 0) }

  // A number with the bits g, then the bit e, then the bits l below p = 2^k.
  lemma Parts(g: nat, e: nat, l: nat, p: nat)
    requires e < 2 && l < p
    ensures var s := (2 * g + e) * p + l;
      s / p == 2 * g + e && s % p == l && s / (2 * p) == g && s % (2 * p) == e * p + l
  {
    var s := (2 * g + e) * p + l;
    DivModUnique(2 * g + e, l, p);
    MulDist(2 * g, e, p);
    MulAssoc(g, 2, p);
    MulAssoc(2, g, p);
    assert s == g * (2 * p) + (e * p + l) && e * p + l < 2 * p by { if e == 0 {} else { assert e == 1; } }
    DivModUnique(g, e * p + l, 2 * p);
  }

  lemma HighParts(e: nat, l: nat, p: nat, q: nat)
    requires e < 2 && p * q == 128
    ensures (e * p + l) * q == e * 128 + l * q
  {
    MulDist(e * p, l, q);
    if e == 1 { assert e * p == p; }
  }

  // Rotated by k bits and then by one more; q is 2^(7 - k).
  lemma TurnOnce(s: nat, p: nat, q: nat)
    requires p > 0 && p * q == 128
    ensures var v := s / p + s % p * (2 * q);
      v / 2 + v % 2 * 128 == s / (2 * p) + s % (2 * p) * q
  {
    var h, l := s / p, s % p;
    var g, e := h / 2, h % 2;
    assert s == (2 * g + e) * p + l;
    Parts(g, e, l, p);
    HighParts(e, l, p, q);
    Halved(g, e, l, q);
  }

  lemma Halved(g: nat, e: nat, l: nat, q: nat)
    requires e < 2
    ensures var v := 2 * g + e + l * (2 * q); v / 2 == g + l * q && v % 2 == e
  {
    MulAssoc(l, 2, q);
    MulAssoc(2, l, q);
    assert l * (2 * q) == 2 * (l * q);
  }

  lemma OneMore(s: Byte, k: nat)
    requires k < 8 && Rotated(s, k) < 256
    ensures AddByte(Rotated(s, k), 0) == Rotated(s, k + 1)
  {
    hide Rotated, AddByte;
    RotatedIs(s, k);
    RotatedIs(s, k + 1);
    AddByteIs(Rotated(s, k), 0);
    Pow2Add(k, 7 - k);
    Powers(7);
    assert Pow2(k + 1) == 2 * Pow2(k) && Pow2(8 - k) == 2 * Pow2(7 - k);
    TurnOnce(s, Pow2(k), Pow2(7 - k));
  }

  // n rounds of rotation are a rotation by n bits, and eight are none.
  lemma {:induction false} TurnedIs(s: Byte, n: nat)
    requires n <= 8
    ensures Turned(s, n) == Rotated(s, n)
  {
    if n == 0 {
      RotatedIs(s, 0);
      Powers(0);
      Powers(8);
    } else {
      TurnedIs(s, n - 1);
      RotatedIs(s, n - 1);
      OneMore(s, n - 1);
    }
  }

  lemma EightTurns(s: Byte)
    ensures Turned(s, 8) == s
  {
    TurnedIs(s, 8);
    RotatedIs(s, 8);
    Powers(0);
    Powers(8);
  }

  // ---- the sum ----

  // The bytes weighed by powers of 128: a rotation to the right is a multiplication by 128 modulo
  // 255, and an addition that overflows loses 256, that is 1.
  function Weighed(name: seq<Byte>): nat {
    if name == [] then 0 else 128 * Weighed(name[..|name| - 1]) + name[|name| - 1]
  }

  function Overflows(s: Byte, b: Byte): nat { if Turned(s, 1) + b >= 256 then 1 else 0 }

  function Carries(name: seq<Byte>): nat {
    if name == [] then 0
    else 128 * Carries(name[..|name| - 1]) + Overflows(Checksum(name[..|name| - 1]), name[|name| - 1])
  }

  lemma RoundIs(s: Byte, b: Byte)
    ensures exists q: int :: AddByte(s, b) == 128 * s + b - Overflows(s, b) - 255 * q
  {
    AddByteIs(s, b);
    assert Turned(s, 1) == AddByte(Turned(s, 0), 0) == AddByte(s, 0);
    var q: int := s / 2;
    assert AddByte(s, 0) == 128 * s - 255 * q;
    assert AddByte(s, b) == 128 * s + b - Overflows(s, b) - 255 * (q + Overflows(s, b));
  }

  // The checksum in closed form.
  lemma {:induction false} ChecksumIs(name: seq<Byte>)
    ensures exists q: int :: Checksum(name) == Weighed(name) - Carries(name) - 255 * q
  {
    if name == [] {
      assert Checksum(name) == Weighed(name) - Carries(name) - 255 * 0;
    } else {
      var init, b := name[..|name| - 1], name[|name| - 1];
      ChecksumIs(init);
      var q: int :| Checksum(init) == Weighed(init) - Carries(init) - 255 * q;
      RoundIs(Checksum(init), b);
      var p: int :| AddByte(Checksum(init), b) == 128 * Checksum(init) + b - Overflows(Checksum(init), b) - 255 * p;
      assert Checksum(name) == Weighed(name) - Carries(name) - 255 * (128 * q + p);
    }
  }

  // Without an overflow it is a plain sum of rotated bytes: here for a name with one byte that is
  // not zero, whose place is turned away by the bytes after it.
  lemma {:induction false} OneByte(name: seq<Byte>, j: nat)
    requires j < |name| && forall i :: 0 <= i < |name| && i != j ==> name[i] == 0
    ensures Checksum(name) == Turned(name[j], |name| - 1 - j)
    decreases |name|
  {
    var init := name[..|name| - 1];
    if j == |name| - 1 {
      OnlyZeros(init);
    } else {
      OneByte(init, j);
    }
  }

  lemma {:induction false} OnlyZeros(name: seq<Byte>)
    requires forall i :: 0 <= i < |name| ==> name[i] == 0
    ensures Checksum(name) == 0
  {
    if name != [] { OnlyZeros(name[..|name| - 1]); }
  }

  // "README  TXT"
  const README: seq<Byte> := [0x52, 0x45, 0x41, 0x44, 0x4D, 0x45, 0x20, 0x20, 0x54, 0x58, 0x54]

  lemma ReadmeSum()
    ensures |README| == 11 && Checksum(README) == 0x73
  {
    hide Checksum;
    assert README[..11] == README && README[..0] == [];
    NoBytes();
    Next(README, 0, 0, 0x52); Next(README, 1, 0x52, 0x6E); Next(README, 2, 0x6E, 0x78); Next(README, 3, 0x78, 0x80);
    Next(README, 4, 0x80, 0x8D); Next(README, 5, 0x8D, 0x0B); Next(README, 6, 0x0B, 0xA5); Next(README, 7, 0xA5, 0xF2);
    Next(README, 8, 0xF2, 0xCD); Next(README, 9, 0xCD, 0x3E); Next(README, 10, 0x3E, 0x73);
  }

  lemma NoBytes()
    ensures Checksum([]) == 0
  {
  }

  lemma Next(name: seq<Byte>, i: nat, before: Byte, after: Byte)
    requires i < |name| && Checksum(name[..i]) == before && after == (before / 2 + before % 2 * 128 + name[i]) % 256
    ensures Checksum(name[..i + 1]) == after
  {
    assert name[..i + 1][..i] == name[..i];
  }
}
