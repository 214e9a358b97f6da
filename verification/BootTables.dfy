// The page tables that abstract-machine/am/src/x86/qemu/start64.S builds, which vme_init takes
// over on 64 bits as the kernel's tables.

module BootTables {
  import opened Arith
  import opened Bits
  import opened PageEntry
  import opened PageTree
  import opened Mmu
  import opened MmuTables
  import opened Translation

  const PML4_ADDR: nat := 0x1000
  const PDPT_ADDR: nat := 0x2000

  // The two words that the loop stores for entry i, low and high.
  function LowHalf(i: nat): nat { Or(Low(Shl(i, 30), 32), PTE_P + PTE_W + PTE_PS) }
  function HighHalf(i: nat): nat { Shr(i, 2) }
  function PdptEntry(i: nat): nat { HighHalf(i) * W + LowHalf(i) }

  function BootPages(): Pages {
    map[PML4_ADDR := seq(512, i => if i == 0 then Or(PDPT_ADDR, PTE_P + PTE_W) else 0),
        PDPT_ADDR := seq(512, i requires i >= 0 => PdptEntry(i))]
  }

  const LEVELS: map<nat, nat> := map[PML4_ADDR := 0, PDPT_ADDR := 1]

  // Split in two 32-bit stores, the entry is still the i-th GiB with P, W and PS.
  lemma EntryIsGiB(i: nat)
    ensures PdptEntry(i) == i * 0x4000_0000 + 0x83
  {
    GiBHalves(i);
  }

  lemma GiB()
    ensures Pow2(30) == 0x4000_0000 && Pow2(32) == W && Pow2(2) == 4
  {
    Pow2Values();
    assert Pow2(32) == 2 * Pow2(31) && Pow2(31) == 2 * Pow2(30);
  }

  lemma GiBHalves(i: nat)
    ensures HighHalf(i) == i / 4 && LowHalf(i) == i % 4 * 0x4000_0000 + 0x83
  {
    var h, l := i / 4, i % 4;
    GiB();
    ShlIsMul(i, 30);
    ShrIsDiv(i * 0x4000_0000, 32);
    ShrIsDiv(i, 2);
    DivModUnique(h, l * 0x4000_0000, W);
    OrDisjoint(l, 30, 0x83);
  }

  lemma Halve(q: nat, r: nat, d: nat, e: nat)
    requires r < d && e == q * d + r
    ensures e / d == q && e % d == r
  {
    DivModUnique(q, r, d);
  }

  lemma GiBBits(i: nat)
    ensures var e := i * 0x4000_0000 + 0x83; Present(e) && !User(e) && Large(e)
  {
    var e := i * 0x4000_0000 + 0x83;
    Halve(i * 0x2000_0000 + 0x41, 1, 2, e);
    Halve(i * 0x1000_0000 + 0x20, 3, 4, e);
    Halve(i * 0x800_0000 + 0x10, 0, 2, i * 0x1000_0000 + 0x20);
    Halve(i * 0x80_0000 + 1, 3, 128, e);
    Halve(i * 0x40_0000, 1, 2, i * 0x80_0000 + 1);
  }

  lemma BootPagesAreKernel()
    ensures KernelOk(X86_64, BootPages(), PML4_ADDR, LEVELS)
  {
    EntryReads(PDPT_ADDR, PTE_P + PTE_W);
    forall i: nat | i < 512 ensures !User(BootPages()[PDPT_ADDR][i]) && Large(BootPages()[PDPT_ADDR][i]) {
      EntryIsGiB(i);
      GiBBits(i);
    }
  }

  // The kernel's translation: the first 512 GiB, each GiB to itself, and nothing else.
  function GiBEntry(va: nat): nat { if va < 0x80_0000_0000 then va / 0x4000_0000 * 0x4000_0000 + 0x83 else 0 }

  lemma BootWalk(va: nat)
    requires va < Pow2(48)
    ensures Lookup(BootPages(), PML4_ADDR, Path(X86_64, va)) == GiBEntry(va)
  {
    var path := Path(X86_64, va);
    ConfigsAreValid();
    Powers();
    TopIndex(X86_64, va);
    assert path[0] == va / 0x80_0000_0000;
    if va < 0x80_0000_0000 {
      EntryReads(PDPT_ADDR, PTE_P + PTE_W);
      SecondIndex(va);
      EntryIsGiB(path[1]);
      GiBBits(path[1]);
      assert Lookup(BootPages(), PDPT_ADDR, path[1..]) == PdptEntry(path[1]);
    }
  }

  lemma SecondIndex(va: nat)
    requires va < 0x80_0000_0000
    ensures Path(X86_64, va)[1] == va / 0x4000_0000 < 512
  {
    var t := X86_64.tables[2];
    ConfigsAreValid();
    Pow2Values();
    Pow2Add(16, 14);
    Pow2Add(8, 6);
    assert Pow2(6) == 64 && Pow2(14) == 0x4000 && Pow2(30) == 0x4000_0000 && Pow2(9) == 512;
    IndexIsField(va, t, 9);
    ShrIsDiv(va, 30);
    ShrIsDiv(va / 0x4000_0000, 9);
  }
}
