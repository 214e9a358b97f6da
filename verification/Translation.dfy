// What an address space of vme.c means: the walk of every address equals a plain map from
// virtual page to entry, with the kernel's translation where the kernel areas lie.

module Translation {
  import opened Bits
  import opened PageEntry
  import opened PageTree
  import opened Mmu
  import opened AddrSpaces

  // The plain map: from virtual page to entry.
  type Mapping = map<nat, nat>

  // What the walk of va must find.
  function Meaning(k: Setting, pages: Pages, mapping: Mapping, va: nat): nat
    requires ValidTables(k.m)
  {
    if KernelIndex(k.m, IndexOf(va, k.m.tables[1])) then Lookup(pages, k.kpt, Path(k.m, va))
    else if PageOf(va) in mapping then mapping[PageOf(va)] else 0
  }

  ghost predicate Translates(k: Setting, v: View, mapping: Mapping)
    requires ValidTables(k.m)
  {
    forall va: nat :: va < Pow2(AddrBits(k.m)) ==>
      Walk(v.pages, v.ptr, Path(k.m, va)) == Meaning(k, v.pages, mapping, va)
  }

  ghost predicate SpaceInv(k: Setting, v: View, mapping: Mapping) {
    Ok(k, v) && Rooted(k, v) && Translates(k, v, mapping) && forall p :: p in mapping ==> Present(mapping[p])
  }

  // The kernel's tables: shared by all spaces, and closed to user mode.
  ghost predicate KernelOk(m: Config, pages: Pages, kpt: nat, kernel: map<nat, nat>) {
    && KernelTables(pages, m.ptlevels, kernel) && kpt in kernel && kernel[kpt] == 0
    && forall i: nat :: i < |pages[kpt]| && Present(pages[kpt][i]) ==> !User(pages[kpt][i])
  }

  // Different first indices, different paths.
  lemma PathHead(m: Config, va: nat)
    requires ValidTables(m)
    ensures Path(m, va)[0] == IndexOf(va, m.tables[1])
  {
  }

  // ---- the kernel's part ----

  // The walks of the kernel's own tables depend on nothing else.
  lemma KernelWalks(k: Setting, p: Pages, q: Pages, va: nat)
    requires ValidTables(k.m) && KernelTables(p, k.m.ptlevels, k.kernel) && k.kpt in k.kernel && k.kernel[k.kpt] == 0
    requires SameOn(p, q, k.kernel.Keys)
    ensures Lookup(q, k.kpt, Path(k.m, va)) == Lookup(p, k.kpt, Path(k.m, va))
  {
    KernelWalkKept(p, q, k.m.ptlevels, k.kernel, k.kpt, Path(k.m, va));
  }

  // Where the root enters the kernel's tables, every walk is the kernel's.
  lemma KernelShared(k: Setting, v: View, path: seq<nat>)
    requires ValidTables(k.m) && Rooted(k, v) && |path| == k.m.ptlevels && KernelIndex(k.m, path[0])
    ensures Walk(v.pages, v.ptr, path) == Lookup(v.pages, k.kpt, path)
  {
    assert RootWordOk(k.m, v.pages, SpaceOf(k, v), path[0]);
  }

  // ---- what keeps the meaning ----

  // Adding tables for a user address.
  lemma GrewKeeps(k: Setting, i: nat, v: View, w: View, mapping: Mapping)
    requires SpaceInv(k, v, mapping) && Grew(k, i, v, w) && !KernelIndex(k.m, i)
    ensures SpaceInv(k, w, mapping)
  {
    forall va: nat | va < Pow2(AddrBits(k.m))
      ensures Walk(w.pages, w.ptr, Path(k.m, va)) == Meaning(k, w.pages, mapping, va)
    {
      assert Walk(v.pages, v.ptr, Path(k.m, va)) == Meaning(k, v.pages, mapping, va);
      KernelWalks(k, v.pages, w.pages, va);
    }
  }

  // Whatever happens to pages that are neither the space's nor the kernel's.
  lemma ElsewhereKeeps(k: Setting, v: View, w: View, mapping: Mapping)
    requires SpaceInv(k, v, mapping) && w.ptr == v.ptr && w.nodes == v.nodes && MemoryOk(k.m, w.pages, w.available)
    requires SameOn(v.pages, w.pages, v.nodes.Keys) && SameOn(v.pages, w.pages, k.kernel.Keys)
    ensures SpaceInv(k, w, mapping)
  {
    ElsewhereOk(k, v, w);
    forall va: nat | va < Pow2(AddrBits(k.m))
      ensures Walk(w.pages, w.ptr, Path(k.m, va)) == Meaning(k, w.pages, mapping, va)
    {
      assert Walk(v.pages, v.ptr, Path(k.m, va)) == Meaning(k, v.pages, mapping, va);
      WalkFrame(v.pages, w.pages, SpaceOf(k, v), BaseOf(v.ptr), Path(k.m, va));
      KernelWalks(k, v.pages, w.pages, va);
    }
  }

  lemma ElsewhereOk(k: Setting, v: View, w: View)
    requires Ok(k, v) && Rooted(k, v) && w.ptr == v.ptr && w.nodes == v.nodes && MemoryOk(k.m, w.pages, w.available)
    requires SameOn(v.pages, w.pages, v.nodes.Keys) && SameOn(v.pages, w.pages, k.kernel.Keys)
    ensures Ok(k, w) && Rooted(k, w)
  {
    ValidFrame(v.pages, w.pages, SpaceOf(k, v));
    assert SpaceOf(k, w) == SpaceOf(k, v);
    forall i: nat | i < TableSize(k.m) ensures RootWordOk(k.m, w.pages, SpaceOf(k, w), i) {
      assert RootWordOk(k.m, v.pages, SpaceOf(k, v), i);
    }
  }

  // ---- writing an entry ----

  function Written(v: View, table: nat, i: nat, e: nat): View
    requires table in v.pages && i < |v.pages[table]|
  {
    v.(pages := SetWord(v.pages, table, i, e))
  }

  function Updated(mapping: Mapping, page: nat, e: nat): Mapping {
    if e == 0 then mapping - {page} else mapping[page := e]
  }

  lemma WriteOk(k: Setting, v: View, table: nat, i: nat, e: nat)
    requires Ok(k, v) && Rooted(k, v) && Leaf(SpaceOf(k, v), table) && i < |v.pages[table]|
    ensures Ok(k, Written(v, table, i, e)) && Rooted(k, Written(v, table, i, e))
  {
    var w := Written(v, table, i, e);
    LeafWriteKeepsValid(v.pages, SpaceOf(k, v), table, i, e);
    assert SpaceOf(k, w) == SpaceOf(k, v);
    forall n: nat | n < TableSize(k.m) ensures RootWordOk(k.m, w.pages, SpaceOf(k, w), n) {
      assert RootWordOk(k.m, v.pages, SpaceOf(k, v), n);
    }
  }

  // Writing the last-level word of a user page changes the plain map at that page only.
  lemma WriteKeeps(k: Setting, v: View, mapping: Mapping, va: nat, table: nat, i: nat, e: nat)
    requires SpaceInv(k, v, mapping) && Leaf(SpaceOf(k, v), table) && i < |v.pages[table]| && (e == 0 || Present(e))
    requires va < Pow2(AddrBits(k.m)) && !KernelIndex(k.m, IndexOf(va, k.m.tables[1]))
      && v.nodes[table] + [i] == Path(k.m, va)
    ensures SpaceInv(k, Written(v, table, i, e), Updated(mapping, PageOf(va), e))
  {
    var w := Written(v, table, i, e);
    WriteOk(k, v, table, i, e);
    forall a: nat | a < Pow2(AddrBits(k.m))
      ensures Walk(w.pages, w.ptr, Path(k.m, a)) == Meaning(k, w.pages, Updated(mapping, PageOf(va), e), a)
    {
      WriteMeans(k, v, mapping, va, table, i, e, a);
    }
  }

  lemma WriteMeans(k: Setting, v: View, mapping: Mapping, va: nat, table: nat, i: nat, e: nat, a: nat)
    requires SpaceInv(k, v, mapping) && Leaf(SpaceOf(k, v), table) && i < |v.pages[table]|
    requires va < Pow2(AddrBits(k.m)) && !KernelIndex(k.m, IndexOf(va, k.m.tables[1]))
      && v.nodes[table] + [i] == Path(k.m, va)
    requires a < Pow2(AddrBits(k.m))
    ensures var w := Written(v, table, i, e);
      Walk(w.pages, w.ptr, Path(k.m, a)) == Meaning(k, w.pages, Updated(mapping, PageOf(va), e), a)
  {
    var w := Written(v, table, i, e);
    assert [] + Path(k.m, a) == Path(k.m, a);
    LeafWrite(v.pages, SpaceOf(k, v), table, i, e, BaseOf(v.ptr), Path(k.m, a));
    PathIsPage(k.m, a, va);
    PathHead(k.m, a);
    PathHead(k.m, va);
    KernelWalks(k, v.pages, w.pages, a);
    assert Walk(v.pages, v.ptr, Path(k.m, a)) == Meaning(k, v.pages, mapping, a);
  }

  // The entry that the walk of a user address finds, read off the plain map.
  lemma WordFound(k: Setting, v: View, mapping: Mapping, va: nat, table: nat, i: nat)
    requires SpaceInv(k, v, mapping) && Leaf(SpaceOf(k, v), table) && i < |v.pages[table]|
    requires va < Pow2(AddrBits(k.m)) && !KernelIndex(k.m, IndexOf(va, k.m.tables[1]))
      && v.nodes[table] + [i] == Path(k.m, va)
    ensures v.pages[table][i] == if PageOf(va) in mapping then mapping[PageOf(va)] else 0
  {
    var s := SpaceOf(k, v);
    var e := v.pages[table][i];
    assert v.pages[table][i := e] == v.pages[table];
    assert SetWord(v.pages, table, i, e) == v.pages;
    assert [] + Path(k.m, va) == Path(k.m, va);
    LeafWrite(v.pages, s, table, i, e, s.root, Path(k.m, va));
    assert Walk(v.pages, v.ptr, Path(k.m, va)) == Meaning(k, v.pages, mapping, va);
  }

  // ---- a new space ----

  // A root with the kernel's words where the kernel areas lie, and nothing else.
  ghost predicate FreshRoot(m: Config, pages: Pages, kpt: nat, words: seq<nat>)
    requires |m.tables| > 1 && kpt in pages
  {
    && |words| == |pages[kpt]| == TableSize(m)
    && forall i: nat :: i < TableSize(m) ==> words[i] == if KernelIndex(m, i) then pages[kpt][i] else 0
  }

  lemma FreshSpace(k: Setting, v: View, words: seq<nat>)
    requires MemoryOk(k.m, v.pages, v.available) && KernelOk(k.m, v.pages, k.kpt, k.kernel) && k.user
    requires v.ptr != 0 && RootWord(v.ptr, true) && v.nodes == map[BaseOf(v.ptr) := []] && BaseOf(v.ptr) !in k.kernel
    requires BaseOf(v.ptr) in v.pages && v.pages[BaseOf(v.ptr)] == words && FreshRoot(k.m, v.pages, k.kpt, words)
    ensures SpaceInv(k, v, map[])
  {
    var s := SpaceOf(k, v);
    forall i: nat | i < |words| && Present(words[i])
      ensures FromKernel(v.pages, s, s.root, i, words[i]) && !Own(words[i], true)
    {
    }
    assert PageTree.Valid(v.pages, s);
    forall i: nat | i < TableSize(k.m) ensures RootWordOk(k.m, v.pages, s, i) {
    }
    forall va: nat | va < Pow2(AddrBits(k.m))
      ensures Walk(v.pages, v.ptr, Path(k.m, va)) == Meaning(k, v.pages, map[], va)
    {
      PathHead(k.m, va);
      TopIndex(k.m, va);
      if KernelIndex(k.m, IndexOf(va, k.m.tables[1])) { KernelShared(k, v, Path(k.m, va)); }
    }
  }

  // ---- the kernel's own tree ----

  // Page n of the address space lies in one of the first k areas, a kernel one, or in area k and
  // below page n0.
  predicate Covered(m: Config, k: nat, n0: nat, n: nat)
    requires k <= |m.areas|
  {
    InKernel(m, k, n * PGSIZE) || (k < |m.areas| && First(m.areas[k], PGSIZE) <= n < n0)
  }

  // Every covered page maps to itself, and nothing else is mapped.
  ghost predicate Identity(m: Config, pages: Pages, ptr: nat, k: nat, n0: nat)
    requires ValidTables(m) && k <= |m.areas|
  {
    forall va: nat :: va < Pow2(AddrBits(m)) ==>
      Walk(pages, ptr, Path(m, va)) ==
        if Covered(m, k, n0, PageOf(va)) then Entry(PageOf(va) * PGSIZE, PTE_P + PTE_W) else 0
  }

  lemma IdentityGrows(k: Setting, v: View, area: nat, n: nat, table: nat, i: nat)
    requires Ok(k, v) && v.ptr != 0 && area < |k.m.areas| && Identity(k.m, v.pages, v.ptr, area, n)
    requires n * PGSIZE < Pow2(AddrBits(k.m)) && First(k.m.areas[area], PGSIZE) <= n
    requires Leaf(SpaceOf(k, v), table) && i < |v.pages[table]| && v.nodes[table] + [i] == Path(k.m, n * PGSIZE)
    ensures Identity(k.m, Written(v, table, i, Entry(n * PGSIZE, PTE_P + PTE_W)).pages, v.ptr, area, n + 1)
  {
    SmallPowers();
    ShrIsDiv(n * PGSIZE, 12);
    forall a: nat | a < Pow2(AddrBits(k.m))
      ensures Walk(Written(v, table, i, Entry(n * PGSIZE, PTE_P + PTE_W)).pages, v.ptr, Path(k.m, a)) ==
              if Covered(k.m, area, n + 1, PageOf(a)) then Entry(PageOf(a) * PGSIZE, PTE_P + PTE_W) else 0
    {
      LeafMeans(k, v, n * PGSIZE, table, i, Entry(n * PGSIZE, PTE_P + PTE_W), a);
    }
  }

  lemma IdentitySame(k: Setting, p: Pages, a: nat, q: Pages, b: nat, area: nat, n: nat)
    requires ValidTables(k.m) && area <= |k.m.areas| && SameWalks(k.m.ptlevels, p, a, q, b)
      && Identity(k.m, p, a, area, n)
    ensures Identity(k.m, q, b, area, n)
  {
  }

  // A tree that maps something has a root.
  lemma IdentityHasRoot(k: Setting, pages: Pages, ptr: nat)
    requires ValidTables(k.m) && ValidAreas(k.m) && Identity(k.m, pages, ptr, |k.m.areas|, 0)
    requires exists j :: 0 <= j < |k.m.areas| && k.m.areas[j].kernel
    ensures ptr != 0
  {
    var j :| 0 <= j < |k.m.areas| && k.m.areas[j].kernel;
    var va := k.m.areas[j].start;
    SmallPowers();
    ShrIsDiv(va, 12);
    EntryReads(va, PTE_P + PTE_W);
    assert InArea(k.m, k.m.areas[j], va);
    assert Walk(pages, ptr, Path(k.m, va)) == Entry(va, PTE_P + PTE_W);
  }

  // At the end of an area the loop has covered all of it.
  lemma IdentityNext(k: Setting, pages: Pages, ptr: nat, area: nat)
    requires ValidTables(k.m) && ValidAreas(k.m) && area < |k.m.areas|
    requires Identity(k.m, pages, ptr, area,
      if k.m.areas[area].kernel then Last(k.m, k.m.areas[area], PGSIZE) else 0)
    ensures Identity(k.m, pages, ptr, area + 1, 0)
  {
    var x := k.m.areas[area];
    forall va: nat | va < Pow2(AddrBits(k.m))
      ensures Walk(pages, ptr, Path(k.m, va)) ==
        if Covered(k.m, area + 1, 0, PageOf(va)) then Entry(PageOf(va) * PGSIZE, PTE_P + PTE_W) else 0
    {
      if x.kernel { UnitInArea(k.m, x, PGSIZE, PageOf(va)); }
      InKernelNext(k.m, area, PageOf(va) * PGSIZE);
    }
  }

  // Writing the last-level word of a page, in a tree of either kind.
  lemma LeafMeans(k: Setting, v: View, va: nat, table: nat, i: nat, e: nat, a: nat)
    requires Ok(k, v) && v.ptr != 0 && Leaf(SpaceOf(k, v), table) && i < |v.pages[table]|
      && v.nodes[table] + [i] == Path(k.m, va)
    requires va < Pow2(AddrBits(k.m)) && a < Pow2(AddrBits(k.m))
    ensures Walk(Written(v, table, i, e).pages, v.ptr, Path(k.m, a)) ==
            if PageOf(a) == PageOf(va) then e else Walk(v.pages, v.ptr, Path(k.m, a))
  {
    assert [] + Path(k.m, a) == Path(k.m, a);
    LeafWrite(v.pages, SpaceOf(k, v), table, i, e, BaseOf(v.ptr), Path(k.m, a));
    PathIsPage(k.m, a, va);
  }

  lemma LeafOk(k: Setting, v: View, table: nat, i: nat, e: nat)
    requires Ok(k, v) && v.ptr != 0 && Leaf(SpaceOf(k, v), table) && i < |v.pages[table]|
    ensures Ok(k, Written(v, table, i, e))
  {
    LeafWriteKeepsValid(v.pages, SpaceOf(k, v), table, i, e);
  }

  // The tables of a tree without the user flag, with their levels, may serve as the kernel's.
  function Levels(nodes: map<nat, seq<nat>>): map<nat, nat> { map b | b in nodes :: |nodes[b]| }

  lemma KernelBuilt(k: Setting, v: View)
    requires Ok(k, v) && !k.user && v.ptr != 0
    ensures KernelOk(k.m, v.pages, BaseOf(v.ptr), Levels(v.nodes))
  {
    var s, kernel := SpaceOf(k, v), Levels(v.nodes);
    forall b, i: nat | b in kernel && i < |v.pages[b]| && kernel[b] + 1 < k.m.ptlevels && Present(v.pages[b][i])
      ensures IsChild(v.pages, s, b, i, BaseOf(v.pages[b][i])) && !User(v.pages[b][i])
    {
      assert Upper(s, b) && Own(v.pages[b][i], false);
    }
    assert Upper(s, s.root) && kernel[s.root] == 0;
  }
}
