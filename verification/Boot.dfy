// vme_init of abstract-machine/am/src/x86/qemu/vme.c for both word sizes: whatever free pages the
// allocator has, it ends in a machine on which the other operations can be called.

module Boot {
  import opened Bits
  import opened PageEntry
  import opened PageTree
  import opened Mmu
  import opened MmuTables
  import opened AddrSpaces
  import opened Translation
  import opened Rights
  import opened Vme
  import opened BootTables

  // What pgalloc may return: page addresses that hold no table yet.
  ghost predicate FreePages(pages: Pages, free: set<nat>) {
    forall b :: b in free ==> PageAligned(b) && b !in pages && b != 0
  }

  lemma BootMemory(free: set<nat>)
    requires FreePages(BootPages(), free)
    ensures MemoryOk(X86_64, BootPages(), free)
  {
    ConfigsAreValid();
    Pow2Values();
    Pow2Add(8, 1);
  }

  method Boot64(free: set<nat>) returns (mc: Machine)
    requires FreePages(BootPages(), free)
    ensures fresh(mc) && mc.Inv() && mc.m == X86_64 && mc.all == map[] && mc.available == free
    ensures forall va: nat :: va < Pow2(48) ==> Lookup(mc.pages, mc.kpt, Path(X86_64, va)) == GiBEntry(va)
  {
    mc := new Machine(X86_64, BootPages(), free);
    BootMemory(free);
    ConfigsAreValid();
    AreasAreValid64();
    BootPagesAreKernel();
    mc.UseBootTables(PML4_ADDR, LEVELS);
    forall va: nat | va < Pow2(48) ensures Lookup(mc.pages, mc.kpt, Path(X86_64, va)) == GiBEntry(va) { BootWalk(va); }
  }

  // The kernel areas with 32 bits, page by page: the lowest GiB and the devices.
  function PageEntry32(va: nat): nat {
    if va < 0x4000_0000 || va >= 0xfd00_0000 then va / 4096 * 4096 + 3 else 0
  }

  lemma PageStart(va: nat)
    ensures PageOf(va) * PGSIZE == va / 4096 * 4096 && PageAligned(PageOf(va) * PGSIZE)
    ensures PageOf(va) * PGSIZE < 0x4000_0000 <==> va < 0x4000_0000
    ensures PageOf(va) * PGSIZE < 0xfd00_0000 <==> va < 0xfd00_0000
  {
    SmallPowers();
    ShrIsDiv(va, 12);
  }

  lemma KernelMap32(pages: Pages, ptr: nat, va: nat)
    requires ValidTables(X86) && Identity(X86, pages, ptr, |X86.areas|, 0) && KernelFull(X86, pages, ptr)
    requires va < Pow2(32) && Pow2(32) == Pow2(AddrBits(X86))
    ensures Walk(pages, ptr, Path(X86, va)) == PageEntry32(va)
    ensures WriteOpen(pages, ptr, Path(X86, va)) <==> PageEntry32(va) != 0
  {
    hide InKernel, ValidTables, Walk, WriteOpen, Path, Entry, PageOf, Pow2;
    PageStart(va);
    KernelAreas32(PageOf(va) * PGSIZE);
    EntryReads(PageOf(va) * PGSIZE, PTE_P + PTE_W);
  }

  method Boot32(free: set<nat>) returns (mc: Machine, r: Result<()>)
    requires FreePages(map[], free)
    ensures fresh(mc) && mc.m == X86 && mc.all == map[]
    ensures r.Panic? ==> mc.available == {}
    ensures r.Done? ==> mc.Inv() && Identity(X86, mc.pages, mc.kpt, |X86.areas|, 0)
    ensures r.Done? ==> forall va: nat :: va < Pow2(32) ==>
      && Lookup(mc.pages, mc.kpt, Path(X86, va)) == PageEntry32(va)
      && !UserOpen(mc.pages, mc.kpt, Path(X86, va))
      && (WriteOpen(mc.pages, mc.kpt, Path(X86, va)) <==> PageEntry32(va) != 0)
  {
    mc := new Machine(X86, map[], free);
    ConfigsAreValid();
    AreasAreValid32();
    assert X86.areas[1].kernel;
    r := mc.VmeInit();
    if r.Done? {
      forall va: nat | va < Pow2(32)
        ensures Walk(mc.pages, mc.kpt, Path(X86, va)) == PageEntry32(va)
        ensures WriteOpen(mc.pages, mc.kpt, Path(X86, va)) <==> PageEntry32(va) != 0
      {
        KernelMap32(mc.pages, mc.kpt, va);
      }
    }
  }
}
