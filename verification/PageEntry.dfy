// Page-table entries of abstract-machine/am/src/x86/qemu/vme.c as words: flags, base
// address, and how they read back.

module PageEntry {
  import opened Arith
  import opened Bits
  import opened BitScan

  // ---- entries ----

  const PTE_P: nat := 1
  const PTE_W: nat := 2
  const PTE_U: nat := 4
  const PTE_PS: nat := 0x80
  const PGSIZE: nat := 4096

  function Entry(page: nat, flags: nat): nat { Or(page, flags) }
  predicate Present(e: nat) { e % 2 == 1 }
  predicate Write(e: nat) { e / 2 % 2 == 1 }
  predicate User(e: nat) { e / 4 % 2 == 1 }
  predicate Large(e: nat) { e / 128 % 2 == 1 }

  function BaseOf(e: nat): (b: nat) { e - e % PGSIZE }

  // The same tests as the code writes them: e & PTE_x, and e & ~(pgsize - 1) on 64 bits.
  function BaseMask(): nat { Shl(Pow2(52) - 1, 12) }

  predicate PageAligned(a: nat) { a % PGSIZE == 0 }

  lemma SingleBit(e: nat, k: nat)
    ensures And(e, Shl(1, k)) != 0 <==> Shr(e, k) % 2 == 1
  {
    AndField(e, 1, k);
    assert Pow2(1) - 1 == 1;
    ShlIsMul(Low(Shr(e, k), 1), k);
    assert Low(Shr(e, k), 1) == Shr(e, k) % 2;
    MulMono(1, Low(Shr(e, k), 1), Pow2(k));
  }

  lemma SmallPowers()
    ensures Pow2(1) == 2 && Pow2(2) == 4 && Pow2(3) == 8 && Pow2(7) == 128 && Pow2(12) == PGSIZE
    ensures Shl(1, 0) == PTE_P && Shl(1, 1) == PTE_W && Shl(1, 2) == PTE_U && Shl(1, 7) == PTE_PS
  {
    Pow2Values();
    Pow2Add(8, 4);
    assert Pow2(4) == 2 * Pow2(3) && Pow2(8) == 2 * Pow2(7);
    ShlIsMul(1, 7);
    ShlIsMul(1, 2);
  }

  lemma FlagBits(e: nat)
    ensures (And(e, PTE_P) != 0 <==> Present(e)) && (And(e, PTE_W) != 0 <==> Write(e))
    ensures (And(e, PTE_U) != 0 <==> User(e)) && (And(e, PTE_PS) != 0 <==> Large(e))
  {
    SmallPowers();
    SingleBit(e, 0);
    SingleBit(e, 1);
    SingleBit(e, 2);
    SingleBit(e, 7);
    ShrIsDiv(e, 1);
    ShrIsDiv(e, 2);
    ShrIsDiv(e, 7);
  }

  lemma BaseBits(e: nat)
    requires e < D
    ensures And(e, BaseMask()) == BaseOf(e)
  {
    SmallPowers();
    AndField(e, 52, 12);
    Pow2Values();
    Pow2Add(52, 12);
    ShrBound(e, 52, 12);
    LowOfSmall(Shr(e, 12), 52);
    ShlIsMul(Shr(e, 12), 12);
    ShrLow(e, 12);
    ShrIsDiv(e, 12);
  }

  // The test of map for a page boundary: a == ROUNDDOWN(a, pgsize) says that the low 12 bits are 0.
  lemma AlignedBits(a: nat)
    ensures PageAligned(a) <==> And(a, 0xfff) == 0
  {
    SmallPowers();
    AndField(a, 12, 0);
    ShrIsDiv(a, 12);
  }

  // An entry made of an aligned page address and the flags P, W, U reads back.
  lemma EntryReads(page: nat, flags: nat)
    requires PageAligned(page) && flags < 8
    ensures Entry(page, flags) == page + flags && BaseOf(Entry(page, flags)) == page
    ensures Present(Entry(page, flags)) == (flags % 2 == 1) && User(Entry(page, flags)) == (flags / 4 == 1)
    ensures Write(Entry(page, flags)) == (flags / 2 % 2 == 1) && !Large(Entry(page, flags))
  {
    hide Or;
    var h := Shr(page, 12);
    SmallPowers();
    ShrLow(page, 12);
    ShrIsDiv(page, 12);
    OrDisjoint(h, 12, flags);
    LowFlags(h, flags);
  }

  lemma LowFlags(h: nat, flags: nat)
    requires flags < 8
    ensures (h * PGSIZE + flags) % 2 == flags % 2 && (h * PGSIZE + flags) / 4 % 2 == flags / 4
    ensures (h * PGSIZE + flags) / 2 % 2 == flags / 2 % 2
    ensures (h * PGSIZE + flags) / 128 % 2 == 0 && (h * PGSIZE + flags) % PGSIZE == flags
  {
    DivModUnique(h * 2048 + flags / 2, flags % 2, 2);
    DivModUnique(h * 1024 + flags / 4, flags / 2 % 2, 2);
    DivModUnique(h * 1024 + flags / 4, flags % 4, 4);
    DivModUnique(h * 512, flags / 4, 2);
    DivModUnique(h * 32, flags, 128);
    DivModUnique(h * 16, 0, 2);
    DivModUnique(h, flags, PGSIZE);
  }
}
