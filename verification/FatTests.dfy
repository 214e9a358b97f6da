// is_dirent_basic and is_dirent_long of M6-fsrecov/fsrecov.c on entries built from their fields,
// with the masks of the source.

module FatTests {
  import opened Arith
  import opened Bits
  import opened FatEntry

  // Byte i of a number, lowest first.
  function ByteOf(x: nat, i: nat): Byte
    requires i < 4
  {
    if i == 0 then x % 256 else if i == 1 then x / 256 % 256
    else if i == 2 then x / 0x1_0000 % 256 else x / 0x100_0000 % 256
  }

  // A short entry with these fields; the rest of its name, its dates and times are `other`.
  function Packed(first: Byte, attr: Byte, reserved: Byte, cluster: nat, size: nat, other: Byte): (e: Entry)
    ensures e[0] == first && e[11] == attr && e[12] == reserved
    ensures e[20] == ByteOf(cluster, 2) && e[21] == ByteOf(cluster, 3)
    ensures e[26] == ByteOf(cluster, 0) && e[27] == ByteOf(cluster, 1)
    ensures e[28] == ByteOf(size, 0) && e[29] == ByteOf(size, 1)
    ensures e[30] == ByteOf(size, 2) && e[31] == ByteOf(size, 3)
  {
    seq(32, i requires 0 <= i < 32 =>
      if i == 0 then first else if i == 11 then attr else if i == 12 then reserved
      else if i == 20 || i == 21 then ByteOf(cluster, i - 18) else if i == 26 || i == 27 then ByteOf(cluster, i - 26)
      else if i >= 28 then ByteOf(size, i - 28) else other)
  }

  lemma FourBytes(x: nat)
    requires x < W
    ensures (ByteOf(x, 0) as nat) + 256 * (ByteOf(x, 1) as nat) + 0x1_0000 * (ByteOf(x, 2) as nat)
      + 0x100_0000 * (ByteOf(x, 3) as nat) == x
  {
    var a, b := x / 256, x / 0x1_0000;
    assert a / 256 == b && b / 256 == x / 0x100_0000 < 256;
    assert x == 256 * a + x % 256 && a == 256 * b + a % 256 && b == 256 * (b / 256) + b % 256;
  }

  lemma FieldsRead(first: Byte, attr: Byte, reserved: Byte, cluster: nat, size: nat, other: Byte)
    requires cluster < W && size < W
    ensures var e := Packed(first, attr, reserved, cluster, size, other);
      FstClus(e) == cluster && FileSize(e) == size && Attr(e) == attr
  {
    FourBytes(cluster);
    FourBytes(size);
  }

  // A name that is not empty, no reserved bit, and either a dot, a deleted file, or a cluster of the
  // disk and at most 64 MiB.
  lemma BasicIff(total: nat, first: Byte, attr: Byte, reserved: Byte, cluster: nat, size: nat, other: Byte)
    requires cluster < W && size < W
    ensures IsBasic(total, Packed(first, attr, reserved, cluster, size, other)) <==>
      && first != 0 && And(attr, 0xC0) == 0 && reserved == 0
      && (first == 0x2E || first == 0xE5 || (2 <= cluster < total + 2 && size <= Pow2(26)))
  {
    hide And, ByteOf, Pow2;
    FieldsRead(first, attr, reserved, cluster, size, other);
    BitTests(attr);
    SixtyFourMiB();
  }

  lemma SixtyFourMiB()
    ensures Pow2(26) == 0x400_0000
  {
    Pow2Values();
    Pow2Add(16, 8);
    Pow2Add(24, 2);
  }

  // LDIR_Ord & 0x40 and LDIR_Ord & ~0x40.
  lemma LongIff(e: Entry)
    ensures IsLong(e) <==>
      1 <= And(e[0], 0xBF) <= 20 && e[11] == 0x0F && e[12] == 0 && e[26] == 0 && e[27] == 0
    ensures IsLast(e) <==> And(e[0], 0x40) != 0
    ensures Ord(e) == And(e[0], 0xBF)
  {
    hide And;
    BitTests(e[0]);
  }
}
