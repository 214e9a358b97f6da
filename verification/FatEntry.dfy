// Directory entries as M6-fsrecov/fsrecov.c reads them: 32 bytes that may be a short entry, a
// long-name entry or something else (section 6 and 7 of the Microsoft FAT Specification, 2005).

module FatEntry {
  import opened Arith
  import opened Bits

  type Byte = n: nat | n < 256
  type Entry = e: seq<Byte> | |e| == 32 witness seq<Byte>(32, _ => 0)

  function U16(e: Entry, at: nat): nat requires at < 31 { e[at] as nat + 256 * (e[at + 1] as nat) }

  // ---- short entries ----

  function Attr(e: Entry): Byte { e[11] }
  function FstClus(e: Entry): nat { U16(e, 20) * 0x1_0000 + U16(e, 26) }
  function FileSize(e: Entry): nat { U16(e, 28) + 0x1_0000 * U16(e, 30) }

  // is_dirent_basic. A cluster number from 0x8000_0000 on is negative in the source and rejected
  // there as too small, here as too large.
  predicate IsBasic(total: nat, e: Entry) {
    if e[0] == 0 then false
    else if Attr(e) >= 64 then false
    else if e[12] != 0 then false
    else if e[0] == '.' as int || e[0] == 0xE5 then true
    else if FstClus(e) < 2 || FstClus(e) > total + 1 then false
    else FileSize(e) <= 64 * 1024 * 1024
  }

  // ---- long-name entries ----

  const ATTR_LONG_NAME: Byte := 0x0F

  // LDIR_Ord & ~LAST_LONG_ENTRY
  function Ord(e: Entry): nat { if IsLast(e) then e[0] - 64 else e[0] }
  predicate IsLast(e: Entry) { HasBit6(e[0]) }
  predicate HasBit6(b: Byte) { 64 <= b < 128 || 192 <= b }
  function Chksum(e: Entry): Byte { e[13] }

  predicate IsLong(e: Entry) { 1 <= Ord(e) <= 20 && Attr(e) == ATTR_LONG_NAME && e[12] == 0 && U16(e, 26) == 0 }

  // The tests as the code writes them, on single bits.
  lemma BitTests(b: Byte)
    ensures And(b, 0xC0) == 0 <==> b < 64
    ensures And(b, 0x40) != 0 <==> HasBit6(b)
    ensures And(b, 0xBF) == if HasBit6(b) then b - 64 else b
  {
    hide And;
    TopBits(b, 2);
    TopBits(b, 1);
    Powers();
    MaskAndRest(b, 0x40, 8);
    ShrIsDiv(b, 8);
  }

  lemma Powers()
    ensures Pow2(1) == 2 && Pow2(2) == 4 && Pow2(6) == 64 && Pow2(8) == 256
  {
    Pow2Values();
    assert Pow2(8) == 2 * Pow2(7) && Pow2(7) == 2 * Pow2(6);
  }

  lemma TopBits(b: Byte, n: nat)
    requires n == 1 || n == 2
    ensures And(b, (Pow2(n) - 1) * 64) == b / 64 % Pow2(n) * 64
  {
    hide And, Low, Shl, Shr;
    Powers();
    ShlIsMul(Pow2(n) - 1, 6);
    AndField(b, n, 6);
    ShrIsDiv(b, 6);
    ShrIsDiv(b / 64, n);
    ShlIsMul(Low(b / 64, n), 6);
  }

  // A mask and its complement share out the low k bits.
  lemma {:induction false} MaskAndRest(x: nat, mask: nat, k: nat)
    requires mask < Pow2(k)
    ensures And(x, mask) + And(x, Pow2(k) - 1 - mask) == Low(x, k)
  {
    if k > 0 && x > 0 {
      MaskAndRest(x / 2, mask / 2, k - 1);
      var rest := Pow2(k) - 1 - mask;
      assert rest / 2 == Pow2(k - 1) - 1 - mask / 2 && rest % 2 == 1 - mask % 2;
    } else if x == 0 {
      ShrIsDiv(0, k);
    }
  }

  // ---- the two kinds ----

  lemma KindsAreDistinct(total: nat, e: Entry)
    requires total + 1 < 0x1_0000
    ensures !(IsBasic(total, e) && IsLong(e))
  {
  }

  function BothKinds(): Entry {
    seq(32, i => if i == 0 then 1 else if i == 11 then ATTR_LONG_NAME else if i == 20 then 1 else 0)
  }

  // An entry is of at most one kind if and only if the disk has fewer than 65535 clusters: with
  // more, two of the name's bytes can read as the high half of a cluster number.
  lemma KindsExclusive(total: nat)
    ensures (forall e: Entry :: !(IsBasic(total, e) && IsLong(e))) <==> total + 1 < 0x1_0000
  {
    if total + 1 < 0x1_0000 {
      forall e: Entry ensures !(IsBasic(total, e) && IsLong(e)) { KindsAreDistinct(total, e); }
    } else {
      var e: Entry := BothKinds();
      assert IsBasic(total, e) && IsLong(e);
    }
  }

  // ---- checksums ----

  // calc_checksum: rotate right, then add, in 8 bits.
  function AddByte(sum: Byte, b: Byte): Byte { ((if sum % 2 == 1 then 0x80 else 0) + sum / 2 + b) % 256 }

  function Checksum(name: seq<Byte>): Byte {
    if name == [] then 0 else AddByte(Checksum(name[..|name| - 1]), name[|name| - 1])
  }

  method CalcChecksum(name: seq<Byte>) returns (sum: Byte)
    requires |name| >= 11
    ensures sum == Checksum(name[..11])
  {
    sum := 0;
    var i, p := 11, 0;
    while i != 0
      invariant 0 <= i <= 11 && p == 11 - i && sum == Checksum(name[..p])
    {
      assert name[..p + 1][..p] == name[..p];
      sum := AddByte(sum, name[p]);
      p := p + 1;
      i := i - 1;
    }
  }

  // Swapping the last byte changes the sum: names that differ in it never clash.
  lemma LastByteMatters(name: seq<Byte>, b: Byte, c: Byte)
    requires b != c
    ensures Checksum(name + [b]) != Checksum(name + [c])
  {
    assert (name + [b])[..|name|] == name && (name + [c])[..|name|] == name;
    AddByteDiffers(Checksum(name), b, c);
  }

  lemma AddByteDiffers(sum: Byte, b: Byte, c: Byte)
    requires b != c
    ensures AddByte(sum, b) != AddByte(sum, c)
  {
    var k: nat := (if sum % 2 == 1 then 0x80 else 0) + sum / 2;
    assert k < 256;
    ModWrap(k + b, 256);
    ModWrap(k + c, 256);
  }
}
