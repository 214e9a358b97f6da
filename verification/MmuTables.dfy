// The tables `mmu` and `vm_areas` of abstract-machine/am/src/x86/qemu/vme.c for both word sizes.

module MmuTables {
  import opened Bits
  import opened PageEntry
  import opened Mmu

  const X86_64 := Config(64, 4,
    [PtInfo("CR3", 0, 0, 0), PtInfo("PML4", 0xff80_0000_0000, 39, 9), PtInfo("PDPT", 0x007f_c000_0000, 30, 9),
     PtInfo("PD", 0x0000_3fe0_0000, 21, 9), PtInfo("PT", 0x0000_001f_f000, 12, 9)],
    [VmArea(0x1000_0000_0000, 0x1080_0000_0000, false), VmArea(0x0000_0000_0000, 0x0080_0000_0000, true)])

  const X86 := Config(32, 2,
    [PtInfo("CR3", 0, 0, 0), PtInfo("PD", 0xffc0_0000, 22, 10), PtInfo("PT", 0x003f_f000, 12, 10)],
    [VmArea(0x4000_0000, 0x8000_0000, false), VmArea(0, 0x4000_0000, true), VmArea(0xfd00_0000, 0, true)])

  lemma MaskValue(name: string, mask: nat, shift: nat, bits: nat)
    requires mask == (Pow2(bits) - 1) * Pow2(shift)
    ensures FieldTable(PtInfo(name, mask, shift, bits), bits)
  {
    ShlIsMul(Pow2(bits) - 1, shift);
  }

  lemma ConfigsAreValid()
    ensures ValidTables(X86_64) && ValidTables(X86)
    ensures AddrBits(X86_64) == 48 && AddrBits(X86) == 32
  {
    Pow2Values();
    Pow2Add(8, 1); Pow2Add(8, 2); Pow2Add(8, 4); Pow2Add(16, 5); Pow2Add(16, 6); Pow2Add(16, 8); Pow2Add(24,
      6); Pow2Add(31, 8);
    assert Pow2(9) == 0x200 && Pow2(10) == 0x400 && Pow2(12) == 0x1000 && Pow2(21) == 0x20_0000;
    assert Pow2(22) == 0x40_0000 && Pow2(30) == 0x4000_0000 && Pow2(39) == 0x80_0000_0000;
    MaskValue("PML4", 0xff80_0000_0000, 39, 9);
    MaskValue("PDPT", 0x007f_c000_0000, 30, 9);
    MaskValue("PD", 0x0000_3fe0_0000, 21, 9);
    MaskValue("PT", 0x0000_001f_f000, 12, 9);
    MaskValue("PD", 0xffc0_0000, 22, 10);
    MaskValue("PT", 0x003f_f000, 12, 10);
  }

  lemma Powers()
    ensures Pow2(22) == 0x40_0000 && Pow2(39) == 0x80_0000_0000 && Pow2(48) == 0x1_0000_0000_0000
  {
    Pow2Values();
    Pow2Add(16, 6); Pow2Add(31, 8); Pow2Add(32, 16);
  }

  lemma KernelAreas64(addr: nat)
    ensures InKernel(X86_64, |X86_64.areas|, addr) <==> addr < 0x80_0000_0000
  {
    if addr < 0x80_0000_0000 { assert InArea(X86_64, X86_64.areas[1], addr); }
  }

  lemma KernelAreas32(addr: nat)
    requires addr < Pow2(32)
    ensures InKernel(X86, |X86.areas|, addr) <==> addr < 0x4000_0000 || addr >= 0xfd00_0000
  {
    Pow2Values();
    if addr < 0x4000_0000 { assert InArea(X86, X86.areas[1], addr); }
    if addr >= 0xfd00_0000 { assert InArea(X86, X86.areas[2], addr); }
  }

  lemma KernelIndex64(va: nat)
    requires va < Pow2(48)
    ensures KernelIndex(X86_64, IndexOf(va, X86_64.tables[1])) <==> va < 0x80_0000_0000
  {
    hide InKernel;
    ConfigsAreValid();
    Powers();
    TopIndex(X86_64, va);
    KernelAreas64(IndexOf(va, X86_64.tables[1]) * Span(X86_64));
  }

  lemma KernelIndex32(va: nat)
    requires va < Pow2(32)
    ensures KernelIndex(X86, IndexOf(va, X86.tables[1])) <==> va < 0x4000_0000 || va >= 0xfd00_0000
  {
    hide InKernel;
    ConfigsAreValid();
    Powers();
    Pow2Values();
    TopIndex(X86, va);
    KernelAreas32(IndexOf(va, X86.tables[1]) * Span(X86));
  }

  // The user area and the kernel areas have no level-1 index in common, and all areas are whole
  // level-1 spans.
  lemma AreasAreValid64()
    ensures ValidAreas(X86_64)
    ensures forall va: nat :: InUser(X86_64, va) <==> 0x1000_0000_0000 <= va < 0x1080_0000_0000
    ensures forall va: nat :: va < Pow2(48) ==>
      (KernelIndex(X86_64, IndexOf(va, X86_64.tables[1])) <==> va < 0x80_0000_0000)
  {
    hide KernelIndex, IndexOf, ValidTables;
    ConfigsAreValid();
    Pow2Values();
    Powers();
    forall va: nat | InUser(X86_64, va) ensures !KernelIndex(X86_64, IndexOf(va, X86_64.tables[1])) {
      KernelIndex64(va);
    }
    forall va: nat | va < Pow2(48)
      ensures KernelIndex(X86_64, IndexOf(va, X86_64.tables[1])) <==> va < 0x80_0000_0000
    {
      KernelIndex64(va);
    }
  }

  lemma AreasAreValid32()
    ensures ValidAreas(X86)
    ensures forall va: nat :: InUser(X86, va) <==> 0x4000_0000 <= va < 0x8000_0000
    ensures forall va: nat :: va < Pow2(32) ==>
      (KernelIndex(X86, IndexOf(va, X86.tables[1])) <==> va < 0x4000_0000 || va >= 0xfd00_0000)
  {
    hide KernelIndex, IndexOf, ValidTables;
    ConfigsAreValid();
    Pow2Values();
    Powers();
    forall va: nat | InUser(X86, va) ensures !KernelIndex(X86, IndexOf(va, X86.tables[1])) {
      KernelIndex32(va);
    }
    forall va: nat | va < Pow2(32)
      ensures KernelIndex(X86, IndexOf(va, X86.tables[1])) <==> va < 0x4000_0000 || va >= 0xfd00_0000
    {
      KernelIndex32(va);
    }
  }
}
