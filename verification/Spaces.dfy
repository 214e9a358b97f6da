// All address spaces of vme.c together: none shares a table with another, so an operation on
// one of them leaves the translation of every other and of the kernel as it was.

module Spaces {
  import opened Bits
  import opened PageEntry
  import opened PageTree
  import opened Mmu
  import opened AddrSpaces
  import opened Translation

  // One address space: its root word, its tables with their paths, and the plain map it stands for.
  datatype Member = Member(ptr: nat, nodes: map<nat, seq<nat>>, mapping: Mapping)

  function ViewFor(pages: Pages, available: set<nat>, x: Member): View { View(pages, available, x.ptr, x.nodes) }

  ghost predicate Rest(k: Setting, pages: Pages, available: set<nat>) {
    k.user && ValidTables(k.m) && ValidAreas(k.m) && MemoryOk(k.m, pages, available)
      && KernelOk(k.m, pages, k.kpt, k.kernel)
  }

  // Every address space translates as its plain map says, and no two share a table.
  ghost predicate WorldInv<K>(k: Setting, pages: Pages, available: set<nat>, all: map<K, Member>) {
    && Rest(k, pages, available)
    && (forall a :: a in all ==> SpaceInv(k, ViewFor(pages, available, all[a]), all[a].mapping))
    && (forall a, b :: a in all && b in all && a != b ==> all[a].nodes.Keys !! all[b].nodes.Keys)
  }

  // Only the tables of one space, and pages that were free, differ from p to q.
  ghost predicate ChangedWithin(p: Pages, q: Pages, mine: set<nat>) {
    forall b :: b in p && b !in mine ==> b in q && q[b] == p[b]
  }

  function NodesOf<K>(all: map<K, Member>, a: K): set<nat> { if a in all then all[a].nodes.Keys else {} }

  // One space takes a new value x; its tables are old ones of its own or were free.
  lemma MemberChanges<K>(k: Setting, p: Pages, pa: set<nat>, all: map<K, Member>, a: K, x: Member, q: Pages,
      qa: set<nat>)
    requires WorldInv(k, p, pa, all) && MemoryOk(k.m, q, qa) && SpaceInv(k, ViewFor(q, qa, x), x.mapping)
    requires ChangedWithin(p, q, NodesOf(all, a)) && x.nodes.Keys <= NodesOf(all, a) + pa
    ensures WorldInv(k, q, qa, all[a := x])
  {
    NodesAreNotKernel(k, p, pa, all, a);
    KernelUntouched(k, p, q);
    forall b | b in all && b != a
      ensures SpaceInv(k, ViewFor(q, qa, all[b]), all[b].mapping) && all[b].nodes.Keys !! x.nodes.Keys
    {
      OtherKept(k, p, pa, all, a, q, qa, b);
    }
  }

  // A space is dropped together with its tables.
  lemma MemberGoes<K>(k: Setting, p: Pages, pa: set<nat>, all: map<K, Member>, a: K)
    requires WorldInv(k, p, pa, all) && a in all
    ensures WorldInv(k, p - all[a].nodes.Keys, pa + all[a].nodes.Keys, all - {a})
  {
    var q, qa := p - all[a].nodes.Keys, pa + all[a].nodes.Keys;
    assert MemoryOk(k.m, q, qa) by { assert forall b :: b in all[a].nodes.Keys ==> b in p; }
    NodesAreNotKernel(k, p, pa, all, a);
    KernelUntouched(k, p, q);
    forall b | b in all && b != a ensures SpaceInv(k, ViewFor(q, qa, all[b]), all[b].mapping) {
      OtherKept(k, p, pa, all, a, q, qa, b);
    }
  }

  lemma NodesAreNotKernel<K>(k: Setting, p: Pages, pa: set<nat>, all: map<K, Member>, a: K)
    requires WorldInv(k, p, pa, all)
    ensures NodesOf(all, a) !! k.kernel.Keys && NodesOf(all, a) <= p.Keys
  {
    if a in all { assert SpaceInv(k, ViewFor(p, pa, all[a]), all[a].mapping); }
  }

  lemma KernelUntouched(k: Setting, p: Pages, q: Pages)
    requires KernelOk(k.m, p, k.kpt, k.kernel) && SameOn(p, q, k.kernel.Keys)
    ensures KernelOk(k.m, q, k.kpt, k.kernel)
  {
  }

  lemma OtherKept<K>(k: Setting, p: Pages, pa: set<nat>, all: map<K, Member>, a: K, q: Pages, qa: set<nat>, b: K)
    requires WorldInv(k, p, pa, all) && MemoryOk(k.m, q, qa) && ChangedWithin(p, q, NodesOf(all, a)) && b in all
      && b != a
    ensures SpaceInv(k, ViewFor(q, qa, all[b]), all[b].mapping) && all[b].nodes.Keys !! NodesOf(all, a)
      && all[b].nodes.Keys !! pa
  {
    NodesAreNotKernel(k, p, pa, all, a);
    var v, w := ViewFor(p, pa, all[b]), ViewFor(q, qa, all[b]);
    assert SpaceInv(k, v, all[b].mapping);
    ElsewhereKeeps(k, v, w, all[b].mapping);
  }

  // What a call of map does to the translation of every address: the one user page takes the new
  // entry, every other user address and every kernel address reads as before.
  lemma OnePageChanges(k: Setting, v: View, w: View, mapping: Mapping, page: nat, e: nat, va: nat)
    requires SpaceInv(k, v, mapping) && SpaceInv(k, w, Updated(mapping, page, e))
    requires KernelOk(k.m, v.pages, k.kpt, k.kernel) && SameOn(v.pages, w.pages, k.kernel.Keys)
      && va < Pow2(AddrBits(k.m))
    ensures Walk(w.pages, w.ptr, Path(k.m, va)) ==
            if PageOf(va) == page && !KernelIndex(k.m, IndexOf(va, k.m.tables[1])) then e
            else Walk(v.pages, v.ptr, Path(k.m, va))
  {
    KernelWalks(k, v.pages, w.pages, va);
    assert Walk(w.pages, w.ptr, Path(k.m, va)) == Meaning(k, w.pages, Updated(mapping, page, e), va);
    assert Walk(v.pages, v.ptr, Path(k.m, va)) == Meaning(k, v.pages, mapping, va);
  }

  // The entry that an address leads to in one of the spaces.
  function EntryFor<K>(m: Config, pages: Pages, all: map<K, Member>, a: K, va: nat): nat
    requires ValidTables(m) && a in all
  {
    Walk(pages, all[a].ptr, Path(m, va))
  }

  // All spaces but `but` translate every address, the kernel's included, as they did.
  ghost predicate SameBut<K>(m: Config, p: Pages, all: map<K, Member>, q: Pages, all': map<K, Member>, but: set<K>)
    requires ValidTables(m)
  {
    forall b, va: nat :: b in all && b !in but && va < Pow2(AddrBits(m)) ==>
      b in all' && EntryFor(m, q, all', b, va) == EntryFor(m, p, all, b, va)
  }

  // Space a translates one page as e, and every other address as it did.
  ghost predicate OnlyPage<K>(m: Config, p: Pages, all: map<K, Member>, q: Pages, all': map<K, Member>, a: K,
                              page: nat, e: nat)
    requires ValidTables(m) && a in all && a in all'
  {
    forall va: nat :: va < Pow2(AddrBits(m)) ==>
      EntryFor(m, q, all', a, va) == if PageOf(va) == page then e else EntryFor(m, p, all, a, va)
  }

  // A space whose plain map has not changed, while the kernel's tables have not.
  lemma SpaceSame<K>(k: Setting, p: Pages, pa: set<nat>, all: map<K, Member>, q: Pages, qa: set<nat>,
                     all': map<K, Member>, b: K, va: nat)
    requires WorldInv(k, p, pa, all) && WorldInv(k, q, qa, all') && SameOn(p, q, k.kernel.Keys)
    requires b in all && b in all' && all'[b].mapping == all[b].mapping && va < Pow2(AddrBits(k.m))
    ensures EntryFor(k.m, q, all', b, va) == EntryFor(k.m, p, all, b, va)
  {
    KernelWalks(k, p, q, va);
    var v, w := ViewFor(p, pa, all[b]), ViewFor(q, qa, all'[b]);
    assert Walk(v.pages, v.ptr, Path(k.m, va)) == Meaning(k, p, all[b].mapping, va);
    assert Walk(w.pages, w.ptr, Path(k.m, va)) == Meaning(k, q, all'[b].mapping, va);
  }

  lemma SpacesSame<K>(k: Setting, p: Pages, pa: set<nat>, all: map<K, Member>, q: Pages, qa: set<nat>,
                      all': map<K, Member>, but: set<K>)
    requires WorldInv(k, p, pa, all) && WorldInv(k, q, qa, all') && SameOn(p, q, k.kernel.Keys)
    requires forall b :: b in all && b !in but ==> b in all' && all'[b].mapping == all[b].mapping
    ensures SameBut(k.m, p, all, q, all', but)
  {
    forall b, va: nat | b in all && b !in but && va < Pow2(AddrBits(k.m))
      ensures b in all' && EntryFor(k.m, q, all', b, va) == EntryFor(k.m, p, all, b, va)
    {
      SpaceSame(k, p, pa, all, q, qa, all', b, va);
    }
  }

  // A space whose plain map has changed at one page, which is not the kernel's.
  lemma PageChanged<K>(k: Setting, p: Pages, pa: set<nat>, all: map<K, Member>, q: Pages, qa: set<nat>,
                       all': map<K, Member>, a: K, user: nat, e: nat)
    requires WorldInv(k, p, pa, all) && WorldInv(k, q, qa, all') && SameOn(p, q, k.kernel.Keys)
    requires a in all && a in all' && all'[a].mapping == Updated(all[a].mapping, PageOf(user), e)
    requires user < Pow2(AddrBits(k.m)) && !KernelIndex(k.m, IndexOf(user, k.m.tables[1]))
    ensures OnlyPage(k.m, p, all, q, all', a, PageOf(user), e)
  {
    forall va: nat | va < Pow2(AddrBits(k.m))
      ensures EntryFor(k.m, q, all', a, va) == if PageOf(va) == PageOf(user) then e else EntryFor(k.m, p, all, a, va)
    {
      PathIsPage(k.m, va, user);
      PathHead(k.m, va);
      PathHead(k.m, user);
      assert SpaceInv(k, ViewFor(p, pa, all[a]), all[a].mapping);
      assert SpaceInv(k, ViewFor(q, qa, all'[a]), all'[a].mapping);
      OnePageChanges(k, ViewFor(p, pa, all[a]), ViewFor(q, qa, all'[a]), all[a].mapping, PageOf(user), e, va);
    }
  }

  // What a space with an empty plain map translates.
  lemma EmptySpaceMeans<K>(k: Setting, pages: Pages, available: set<nat>, all: map<K, Member>, a: K, va: nat)
    requires WorldInv(k, pages, available, all) && a in all && all[a].mapping == map[] && va < Pow2(AddrBits(k.m))
    ensures EntryFor(k.m, pages, all, a, va) ==
      if KernelIndex(k.m, IndexOf(va, k.m.tables[1])) then Lookup(pages, k.kpt, Path(k.m, va)) else 0
  {
    var v := ViewFor(pages, available, all[a]);
    assert SpaceInv(k, v, map[]) && Walk(v.pages, v.ptr, Path(k.m, va)) == Meaning(k, pages, map[], va);
  }

  // All address spaces see the kernel's areas alike.
  lemma KernelIsShared<K>(k: Setting, pages: Pages, available: set<nat>, all: map<K, Member>, a: K, b: K, va: nat)
    requires WorldInv(k, pages, available, all) && a in all && b in all && va < Pow2(AddrBits(k.m))
    requires KernelIndex(k.m, IndexOf(va, k.m.tables[1]))
    ensures Walk(pages, all[a].ptr, Path(k.m, va)) == Walk(pages, all[b].ptr, Path(k.m, va)) ==
      Lookup(pages, k.kpt, Path(k.m, va))
  {
    PathHead(k.m, va);
    KernelShared(k, ViewFor(pages, available, all[a]), Path(k.m, va));
    KernelShared(k, ViewFor(pages, available, all[b]), Path(k.m, va));
  }
}
