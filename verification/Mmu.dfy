// What the tables `mmu` and `vm_areas` of abstract-machine/am/src/x86/qemu/vme.c make of an
// address, for any number of levels.

module Mmu {
  import opened Arith
  import opened Bits
  import opened BitScan
  import opened PageEntry

  datatype PtInfo = PtInfo(name: string, mask: nat, shift: nat, bits: nat)
  datatype VmArea = VmArea(start: nat, end: nat, kernel: bool)
  datatype Config = Config(wordBits: nat, ptlevels: nat, tables: seq<PtInfo>, areas: seq<VmArea>)

  // indexof: (addr & mask) >> shift
  function IndexOf(addr: nat, info: PtInfo): nat { Shr(And(addr, info.mask), info.shift) }

  // What the rest needs of the tables: each level's mask selects the bits right below those of
  // the level above, all tables have the same size, and the last level ends at the page offset.
  ghost predicate ValidTables(m: Config) {
    && m.ptlevels >= 2 && |m.tables| == m.ptlevels + 1
    && (forall l :: 1 <= l <= m.ptlevels ==> FieldTable(m.tables[l], m.tables[1].bits))
    && (forall l :: 1 <= l < m.ptlevels ==> m.tables[l].shift == m.tables[l + 1].shift + m.tables[1].bits)
    && m.tables[m.ptlevels].shift == 12
  }

  predicate FieldTable(t: PtInfo, bits: nat) { t.bits == bits && t.mask == Shl(Pow2(bits) - 1, t.shift) }

  function TableSize(m: Config): nat requires |m.tables| > 1 { Pow2(m.tables[1].bits) }

  // The number of address bits that the tables translate.
  function AddrBits(m: Config): nat requires |m.tables| > 1 { m.tables[1].shift + m.tables[1].bits }

  // The index is a field of the address.
  lemma IndexIsField(addr: nat, t: PtInfo, bits: nat)
    requires FieldTable(t, bits)
    ensures IndexOf(addr, t) == Low(Shr(addr, t.shift), bits) < Pow2(bits)
  {
    hide And, Low, Shr, Shl, Pow2;
    AndField(addr, bits, t.shift);
    var f := Low(Shr(addr, t.shift), bits);
    ShlIsMul(f, t.shift);
    SplitUnique(f, 0, t.shift);
    ShrLow(Shr(addr, t.shift), bits);
  }

  // The indices that a walk uses, from level 1 down to the level l.
  function PathTo(m: Config, addr: nat, l: nat): (p: seq<nat>)
    requires |m.tables| == m.ptlevels + 1 && l <= m.ptlevels
    ensures |p| == l
  {
    seq(l, k requires 0 <= k < l => IndexOf(addr, m.tables[k + 1]))
  }

  function Path(m: Config, addr: nat): (p: seq<nat>)
    requires |m.tables| == m.ptlevels + 1
    ensures |p| == m.ptlevels
  {
    PathTo(m, addr, m.ptlevels)
  }

  // The virtual page of an address.
  function PageOf(addr: nat): nat { Shr(addr, 12) }

  // Equal indices down to level l mean equal address bits down to that level.
  lemma {:induction false} PrefixDetermines(m: Config, a: nat, b: nat, l: nat)
    requires ValidTables(m) && a < Pow2(AddrBits(m)) && b < Pow2(AddrBits(m)) && 1 <= l <= m.ptlevels
    ensures PathTo(m, a, l) == PathTo(m, b, l) <==> Shr(a, m.tables[l].shift) == Shr(b, m.tables[l].shift)
  {
    var t, bits := m.tables[l], m.tables[1].bits;
    IndexIsField(a, t, bits);
    IndexIsField(b, t, bits);
    if l == 1 {
      ShrBound(a, bits, t.shift);
      ShrBound(b, bits, t.shift);
      LowOfSmall(Shr(a, t.shift), bits);
      LowOfSmall(Shr(b, t.shift), bits);
      assert PathTo(m, a, 1) == [IndexOf(a, t)] && PathTo(m, b, 1) == [IndexOf(b, t)];
    } else {
      PrefixDetermines(m, a, b, l - 1);
      PathGrows(m, a, l);
      PathGrows(m, b, l);
      assert PathTo(m, a, l) == PathTo(m, b, l) <==>
        PathTo(m, a, l - 1) == PathTo(m, b, l - 1) && IndexOf(a, t) == IndexOf(b, t);
      ShrShr(a, t.shift, bits);
      ShrShr(b, t.shift, bits);
      ShrLow(Shr(a, t.shift), bits);
      ShrLow(Shr(b, t.shift), bits);
    }
  }

  lemma PathGrows(m: Config, a: nat, l: nat)
    requires |m.tables| == m.ptlevels + 1 && 1 <= l <= m.ptlevels
    ensures PathTo(m, a, l) == PathTo(m, a, l - 1) + [IndexOf(a, m.tables[l])]
    ensures PathTo(m, a, l)[..l - 1] == PathTo(m, a, l - 1) && PathTo(m, a, l)[l - 1] == IndexOf(a, m.tables[l])
  {
  }

  // Two addresses take the same path exactly when they are in the same page.
  lemma PathIsPage(m: Config, a: nat, b: nat)
    requires ValidTables(m) && a < Pow2(AddrBits(m)) && b < Pow2(AddrBits(m))
    ensures Path(m, a) == Path(m, b) <==> PageOf(a) == PageOf(b)
  {
    PrefixDetermines(m, a, b, m.ptlevels);
  }

  // ---- areas ----

  // The span of one level-1 entry, which is also the stride of protect's loop.
  function Span(m: Config): nat requires |m.tables| > 1 { Pow2(m.tables[1].shift) }

  // The loops compare with `end` after wrapping, so an end of 0 stands for the top.
  function Limit(m: Config, area: VmArea): nat { if area.end == 0 then Pow2(m.wordBits) else area.end }

  predicate InArea(m: Config, a: VmArea, addr: nat) { a.start <= addr < Limit(m, a) }

  // The address lies in one of the first k areas, a kernel one.
  predicate InKernel(m: Config, k: nat, addr: nat)
    requires k <= |m.areas|
  {
    exists j :: 0 <= j < k && m.areas[j].kernel && InArea(m, m.areas[j], addr)
  }

  lemma InKernelNext(m: Config, k: nat, addr: nat)
    requires k < |m.areas|
    ensures InKernel(m, k + 1, addr) <==> InKernel(m, k, addr) || (m.areas[k].kernel && InArea(m, m.areas[k], addr))
  {
  }

  // The level-1 entries of the kernel areas.
  predicate KernelIndex(m: Config, i: nat)
    requires |m.tables| > 1
  {
    i < TableSize(m) && InKernel(m, |m.areas|, i * Span(m))
  }

  predicate InUser(m: Config, addr: nat) requires |m.areas| > 0 { m.areas[0].start <= addr < m.areas[0].end }

  ghost predicate ValidAreas(m: Config)
    requires |m.tables| > 1
  {
    && |m.areas| > 0 && !m.areas[0].kernel && m.areas[0].end <= Pow2(AddrBits(m)) && AddrBits(m) <= m.wordBits <= 64
    && (forall k :: 0 <= k < |m.areas| && m.areas[k].kernel ==> ValidArea(m, m.areas[k]))
    && (forall va: nat :: InUser(m, va) ==> !KernelIndex(m, IndexOf(va, m.tables[1])))
  }

  ghost predicate ValidArea(m: Config, a: VmArea)
    requires |m.tables| > 1
  {
    && a.start < Limit(m, a) <= Pow2(AddrBits(m)) && a.end < Pow2(m.wordBits) && (a.end == 0 ==> a.start > 0)
    && a.start % Span(m) == 0 && Limit(m, a) % Span(m) == 0 && a.start % PGSIZE == 0 && Limit(m, a) % PGSIZE == 0
  }

  // Within the translated range the level-1 index is the address divided by the span.
  lemma TopIndex(m: Config, addr: nat)
    requires ValidTables(m) && addr < Pow2(AddrBits(m))
    ensures IndexOf(addr, m.tables[1]) == addr / Span(m) < TableSize(m)
  {
    var t := m.tables[1];
    IndexIsField(addr, t, t.bits);
    ShrBound(addr, t.bits, t.shift);
    LowOfSmall(Shr(addr, t.shift), t.bits);
    ShrIsDiv(addr, t.shift);
  }

  // ---- the loops over an area ----

  // What the loop variable holds when it should be x: at the top it has wrapped to 0.
  function Wrap(m: Config, x: nat): nat { if x == Pow2(m.wordBits) then 0 else x }

  // The unit numbers that a loop over the area runs through.
  function First(a: VmArea, stride: nat): nat requires stride > 0 { a.start / stride }
  function Last(m: Config, a: VmArea, stride: nat): nat requires stride > 0 { Limit(m, a) / stride }

  lemma Multiples(start: nat, limit: nat, stride: nat, q: nat)
    requires stride > 0 && start % stride == 0 && limit % stride == 0 && start / stride <= q <= limit / stride
    ensures start <= q * stride <= limit && (q * stride == limit <==> q == limit / stride)
    ensures q < limit / stride ==> (q + 1) * stride == q * stride + stride <= limit
    ensures (start / stride) * stride == start
  {
    MulMono(start / stride, q, stride);
    MulMono(q, limit / stride, stride);
    MulMono(q + 1, limit / stride, stride);
    MulDist(q, 1, stride);
  }

  // The loop that starts at `start` and compares with `end` visits exactly the area.
  lemma LoopStep(m: Config, a: VmArea, stride: nat, q: nat)
    requires |m.tables| > 1 && ValidArea(m, a) && AddrBits(m) <= m.wordBits
    requires stride > 0 && a.start % stride == 0 && Limit(m, a) % stride == 0
      && First(a, stride) <= q <= Last(m, a, stride)
    ensures a.start == First(a, stride) * stride <= q * stride && (Wrap(m, q * stride) == a.end <==>
      q == Last(m, a, stride))
    ensures q < Last(m, a, stride) ==> Wrap(m, q * stride) == q * stride < Limit(m, a)
    ensures q < Last(m, a, stride) ==> (q * stride + stride) % Pow2(m.wordBits) == Wrap(m, (q + 1) * stride)
  {
    Multiples(a.start, Limit(m, a), stride, q);
    Pow2Mono(AddrBits(m), m.wordBits);
    if q < Last(m, a, stride) { WrapOnce(q * stride + stride, Pow2(m.wordBits)); }
  }

  lemma LoopStart(m: Config, a: VmArea, stride: nat)
    requires |m.tables| > 1 && ValidArea(m, a) && AddrBits(m) <= m.wordBits
    requires stride > 0 && a.start % stride == 0 && Limit(m, a) % stride == 0
    ensures First(a, stride) < Last(m, a, stride) && a.start == Wrap(m, First(a, stride) * stride) != a.end
  {
    MulMono(Last(m, a, stride), First(a, stride), stride);
    Multiples(a.start, Limit(m, a), stride, First(a, stride));
    LoopStep(m, a, stride, First(a, stride));
  }

  lemma WrapOnce(x: nat, n: nat)
    requires 0 < x <= n
    ensures x % n == if x == n then 0 else x
  {
  }

  lemma UnitInArea(m: Config, a: VmArea, stride: nat, i: nat)
    requires stride > 0 && a.start % stride == 0 && Limit(m, a) % stride == 0
    ensures InArea(m, a, i * stride) <==> First(a, stride) <= i < Last(m, a, stride)
  {
    var first, last := First(a, stride), Last(m, a, stride);
    assert Limit(m, a) == last * stride && a.start == first * stride;
    MulMono(first, i, stride);
    MulMono(i + 1, first, stride);
    MulMono(i + 1, last, stride);
    MulMono(last, i, stride);
    MulDist(i, 1, stride);
  }
}
