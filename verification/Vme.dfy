// The operations of abstract-machine/am/src/x86/qemu/vme.c on page memory, for any number of
// table levels.

module Vme {
  import opened Arith
  import opened Bits
  import opened BitScan
  import opened PageEntry
  import opened PageTree
  import opened Mmu
  import opened AddrSpaces
  import opened Translation
  import opened Spaces
  import opened Rights
  import opened Subtree

  const MMAP_NONE: nat := 0
  const MMAP_WRITE: nat := 2

  datatype Slot = Slot(table: nat, index: nat)
  datatype Result<T> = Done(value: T) | Panic

  // An address space: the root word, and the tables below it with their paths.
  class AddrSpace {
    var ptr: nat
    ghost var nodes: map<nat, seq<nat>>
    const id: nat                    // its address
    constructor (address: nat)
      ensures id == address && ptr == 0 && nodes == map[]
    {
      id, ptr, nodes := address, 0, map[];
    }
  }

  // The entry that map writes.
  function UserEntry(pa: nat, prot: nat): nat {
    Entry(pa, PTE_P + PTE_U + (if And(prot, MMAP_WRITE) != 0 then PTE_W else 0))
  }

  lemma UserEntryReads(pa: nat, prot: nat)
    requires PageAligned(pa)
    ensures UserEntry(pa, prot) != 0 && Present(UserEntry(pa, prot)) && User(UserEntry(pa, prot))
    ensures BaseOf(UserEntry(pa, prot)) == pa
    ensures UserEntry(pa, prot) == pa + 5 + (if And(prot, MMAP_WRITE) != 0 then 2 else 0)
    ensures Write(UserEntry(pa, prot)) <==> And(prot, MMAP_WRITE) != 0
  {
    EntryReads(pa, PTE_P + PTE_U);
    EntryReads(pa, PTE_P + PTE_U + PTE_W);
  }

  lemma FlagsRead(page: nat, k: Setting)
    requires PageAligned(page)
    ensures var e := Entry(page, PTE_P + Flags(k.user));
      BaseOf(e) == page && Own(e, k.user) && RootWord(e, k.user) && e != 0
  {
    EntryReads(page, PTE_P + Flags(k.user));
  }

  // Entering a fresh page as word i of a table.
  function WithTable(k: Setting, v: View, p: nat, i: nat, page: nat): View
    requires |k.m.tables| > 1 && p in v.pages && i < |v.pages[p]| && p in v.nodes
  {
    View(SetWord(v.pages, p, i, Entry(page, PTE_P + Flags(k.user)))[page := ZeroPage(TableSize(k.m))],
         v.available - {page}, v.ptr, v.nodes[page := v.nodes[p] + [i]])
  }

  lemma TableGrows(k: Setting, j: nat, v: View, p: nat, i: nat, page: nat)
    requires Ok(k, v) && v.ptr != 0 && Upper(SpaceOf(k, v), p) && i < TableSize(k.m) && !Present(v.pages[p][i])
    requires page in v.available && (p == BaseOf(v.ptr) ==> i == j)
    ensures Grew(k, j, v, WithTable(k, v, p, i, page))
  {
    FlagsRead(page, k);
    LinkGrows(k, j, v, p, i, Entry(page, PTE_P + Flags(k.user)));
  }

  // A fresh page as the root.
  function WithRoot(k: Setting, v: View, page: nat): View
    requires |k.m.tables| > 1
  {
    View(v.pages[page := ZeroPage(TableSize(k.m))], v.available - {page}, Entry(page, PTE_P + Flags(k.user)),
      map[page := []])
  }

  lemma RootMade(k: Setting, j: nat, v: View, page: nat)
    requires Ok(k, v) && v.ptr == 0 && page in v.available
    ensures Grew(k, j, v, WithRoot(k, v, page)) && Clear(k, WithRoot(k, v, page), j) && WithRoot(k, v, page).ptr != 0
  {
    FlagsRead(page, k);
    RootGrows(k, j, v, page, Entry(page, PTE_P + Flags(k.user)));
  }

  // The flags of the tables that ptwalk makes.
  function Flags(user: bool): nat { if user then PTE_W + PTE_U else PTE_W }

  // A table of the last level for this address exists.
  ghost predicate HasTable(m: Config, nodes: map<nat, seq<nat>>, addr: nat)
    requires ValidTables(m)
  {
    exists c :: c in nodes && nodes[c] == PathTo(m, addr, m.ptlevels - 1)
  }

  lemma PathSplit(m: Config, addr: nat, p: seq<nat>, i: nat)
    requires ValidTables(m) && p + [i] == Path(m, addr)
    ensures p == PathTo(m, addr, m.ptlevels - 1)
  {
    assert p == (p + [i])[..m.ptlevels - 1];
  }

  // Where ptwalk stands before level i.
  lemma AtLevel(k: Setting, v: View, addr: nat, cur: nat, i: nat)
    requires Ok(k, v) && ValidTables(k.m) && v.ptr != 0 && 1 <= i < k.m.ptlevels && cur in v.nodes
      && v.nodes[cur] == PathTo(k.m, addr, i - 1)
    ensures Upper(SpaceOf(k, v), cur) && IndexOf(addr, k.m.tables[i]) < TableSize(k.m) && (cur == BaseOf(v.ptr) ==>
      i == 1)
    ensures PathTo(k.m, addr, i) == v.nodes[cur] + [IndexOf(addr, k.m.tables[i])]
  {
    IndexIsField(addr, k.m.tables[i], k.m.tables[1].bits);
    PathGrows(k.m, addr, i);
    OnlyRootIsEmpty(v.pages, SpaceOf(k, v), cur);
  }

  lemma AtRoot(k: Setting, v: View, addr: nat)
    requires Ok(k, v) && ValidTables(k.m) && v.ptr != 0
    ensures BaseOf(v.ptr) in v.nodes && v.nodes[BaseOf(v.ptr)] == PathTo(k.m, addr, 0) && k.m.ptlevels >= 1
  {
  }

  lemma AtLeaf(k: Setting, v: View, addr: nat, cur: nat)
    requires Ok(k, v) && ValidTables(k.m) && v.ptr != 0 && cur in v.nodes
      && v.nodes[cur] == PathTo(k.m, addr, k.m.ptlevels - 1)
    ensures Leaf(SpaceOf(k, v), cur) && IndexOf(addr, k.m.tables[k.m.ptlevels]) < TableSize(k.m)
    ensures v.nodes[cur] + [IndexOf(addr, k.m.tables[k.m.ptlevels])] == Path(k.m, addr)
  {
    IndexIsField(addr, k.m.tables[k.m.ptlevels], k.m.tables[1].bits);
    PathGrows(k.m, addr, k.m.ptlevels);
  }

  lemma GrewOk(k: Setting, i: nat, v: View, w: View)
    requires |k.m.tables| > 1 && Grew(k, i, v, w)
    ensures Ok(k, w)
  {
  }

  // On the way to an existing table every entry is present.
  lemma OnTheWay(k: Setting, v: View, addr: nat, cur: nat, i: nat)
    requires Ok(k, v) && v.ptr != 0 && 1 <= i < k.m.ptlevels && cur in v.nodes
      && v.nodes[cur] == PathTo(k.m, addr, i - 1)
    requires HasTable(k.m, v.nodes, addr)
    ensures IndexOf(addr, k.m.tables[i]) < |v.pages[cur]| && Present(v.pages[cur][IndexOf(addr, k.m.tables[i])])
  {
    var c :| c in v.nodes && v.nodes[c] == PathTo(k.m, addr, k.m.ptlevels - 1);
    assert v.nodes[c][..i - 1] == v.nodes[cur] && v.nodes[c][i - 1] == IndexOf(addr, k.m.tables[i]);
    AncestorEntry(v.pages, SpaceOf(k, v), cur, c);
  }

  lemma KernelIsClear(k: Setting, v: View, i: nat)
    requires Ok(k, v) && !k.user
    ensures Clear(k, v, i)
  {
    var b := BaseOf(v.ptr);
    assert v.ptr != 0 ==> Upper(SpaceOf(k, v), b);
  }

  class Machine {
    const m: Config
    var pages: Pages                 // page-table memory
    var available: set<nat>          // pages that pgalloc can still return
    var freed: multiset<nat>         // how often pgfree was called on each page
    var kpt: nat
    ghost var kernel: map<nat, nat>
    ghost var all: map<nat, Member>

    ghost function Kind(user: bool): Setting reads this`kpt, this`kernel { Setting(m, kpt, kernel, user) }

    ghost function ViewOf(sp: AddrSpace): View reads this`pages, this`available, sp`ptr, sp`nodes {
      View(pages, available, sp.ptr, sp.nodes)
    }

    // Every address space translates as its plain map says, and no two share a table.
    ghost predicate Inv() reads this { WorldInv(Kind(true), pages, available, all) }

    // sp is one of them, in its current state.
    ghost predicate Holds(sp: AddrSpace) reads this, sp {
      sp.id in all && all[sp.id].ptr == sp.ptr && all[sp.id].nodes == sp.nodes
    }

    // What a page holds when it is handed out: anything.
    method Garbage(size: nat) returns (words: seq<nat>)
      ensures |words| == size
    {
      words := [];
      while |words| < size
        invariant |words| <= size
      {
        var word: nat := *;
        words := words + [word];
      }
    }

    // pgallocz: a page filled with zeros, or a panic when there is none left.
    method PgAllocz() returns (page: Result<nat>, words: seq<nat>)
      requires MemoryOk(m, pages, available)
      modifies this`available
      ensures page.Panic? ==> old(available) == {} && available == {}
      ensures page.Done? ==> page.value in old(available) && available == old(available) - {page.value}
      ensures page.Done? ==> words == ZeroPage(TableSize(m))
    {
      words := [];
      if available == {} { return Panic, words; }
      var p :| p in available;
      available := available - {p};
      words := Garbage(TableSize(m));
      var i := 0;
      while i < TableSize(m)
        invariant 0 <= i <= TableSize(m) && |words| == TableSize(m)
        invariant forall j :: 0 <= j < i ==> words[j] == 0
      {
        words := words[i := 0];
        i := i + 1;
      }
      page := Done(p);
    }

    // ptwalk: finds the word that translates addr, making the missing tables on the way. The
    // walks of the tree do not change, and neither does any page outside it.
    method PtWalk(sp: AddrSpace, addr: nat, flags: nat, ghost k: Setting) returns (slot: Result<Slot>)
      requires k.m == m && Ok(k, ViewOf(sp)) && flags == Flags(k.user)
      requires Clear(k, ViewOf(sp), IndexOf(addr, m.tables[1]))
      modifies this`pages, this`available, sp`ptr, sp`nodes
      ensures Grew(k, IndexOf(addr, m.tables[1]), old(ViewOf(sp)), ViewOf(sp))
      ensures slot.Panic? ==> available == {}
      ensures slot.Done? ==>
        && sp.ptr != 0 && Leaf(SpaceOf(k, ViewOf(sp)), slot.value.table) && slot.value.index < TableSize(m)
        && sp.nodes[slot.value.table] + [slot.value.index] == Path(m, addr)
      ensures slot.Done? ==>
        Decides(k.user, pages, sp.ptr, Path(m, addr), pages[slot.value.table][slot.value.index])
      ensures old(sp.ptr != 0 && HasTable(m, sp.nodes, addr)) ==> slot.Done? && ViewOf(sp) == old(ViewOf(sp))
    {
      hide Decides, Path;
      ghost var v0, first := ViewOf(sp), IndexOf(addr, m.tables[1]);
      GrewRefl(k, first, v0);
      // level 0: the root word
      if !Present(sp.ptr) {
        var page := MakeRoot(sp, flags, k);
        if page.Panic? { return Panic; }
        RootMade(k, first, v0, page.value);
      }
      ghost var v := ViewOf(sp);
      slot := WalkDown(sp, addr, flags, k);
      GrewTrans(k, first, v0, v, ViewOf(sp));
      if slot.Done? { WalkRights(k, ViewOf(sp), addr, slot.value.table, slot.value.index); }
    }

    method MakeRoot(sp: AddrSpace, flags: nat, ghost k: Setting) returns (page: Result<nat>)
      requires MemoryOk(m, pages, available) && k.m == m && flags == Flags(k.user)
      modifies this`pages, this`available, sp`ptr, sp`nodes
      ensures page.Panic? ==> ViewOf(sp) == old(ViewOf(sp)) && available == {}
      ensures page.Done? ==> page.value in old(available) && ViewOf(sp) == WithRoot(k, old(ViewOf(sp)), page.value)
    {
      var words;
      page, words := PgAllocz();
      if page.Panic? { return; }
      pages := pages[page.value := words];
      sp.ptr := Entry(page.value, PTE_P + flags);
      sp.nodes := map[page.value := []];
    }

    // The other levels.
    method WalkDown(sp: AddrSpace, addr: nat, flags: nat, ghost k: Setting) returns (slot: Result<Slot>)
      requires k.m == m && Ok(k, ViewOf(sp)) && flags == Flags(k.user) && sp.ptr != 0
      requires Clear(k, ViewOf(sp), IndexOf(addr, m.tables[1]))
      modifies this`pages, this`available, sp`nodes
      ensures Grew(k, IndexOf(addr, m.tables[1]), old(ViewOf(sp)), ViewOf(sp))
      ensures slot.Panic? ==> available == {}
      ensures slot.Done? ==>
        && Leaf(SpaceOf(k, ViewOf(sp)), slot.value.table) && slot.value.index < TableSize(m)
        && sp.nodes[slot.value.table] + [slot.value.index] == Path(m, addr)
      ensures old(HasTable(m, sp.nodes, addr)) ==> slot.Done? && ViewOf(sp) == old(ViewOf(sp))
    {
      ghost var v0 := ViewOf(sp);
      ghost var first := IndexOf(addr, m.tables[1]);
      GrewRefl(k, first, v0);
      AtRoot(k, v0, addr);
      hide Grew, PathTo, HasTable, Clear, Upper, SpaceOf, IndexOf;
      var cur := BaseOf(sp.ptr);
      var i: nat := 1;
      while i < m.ptlevels
        invariant 1 <= i <= m.ptlevels && sp.ptr == v0.ptr && Ok(k, ViewOf(sp))
        invariant Grew(k, first, v0, ViewOf(sp))
        invariant cur in sp.nodes && sp.nodes[cur] == PathTo(m, addr, i - 1)
        invariant i == 1 ==> ViewOf(sp) == v0
        invariant HasTable(m, v0.nodes, addr) ==> ViewOf(sp) == v0
      {
        var index := IndexOf(addr, m.tables[i]);
        ghost var v := ViewOf(sp);
        AtLevel(k, v, addr, cur, i);
        if HasTable(m, v0.nodes, addr) { OnTheWay(k, v, addr, cur, i); }
        var next := Descend(sp, cur, index, flags, k, first);
        GrewTrans(k, first, v0, v, ViewOf(sp));
        GrewOk(k, first, v0, ViewOf(sp));
        if next.Panic? { return Panic; }
        cur := next.value;
        i := i + 1;
      }
      AtLeaf(k, ViewOf(sp), addr, cur);
      slot := Done(Slot(cur, IndexOf(addr, m.tables[i])));
    }

    // One level of ptwalk.
    method Descend(sp: AddrSpace, cur: nat, index: nat, flags: nat, ghost k: Setting, ghost first: nat)
        returns (next: Result<nat>)
      requires k.m == m && Ok(k, ViewOf(sp)) && flags == Flags(k.user) && sp.ptr != 0
      requires Upper(SpaceOf(k, ViewOf(sp)), cur) && index < TableSize(m)
      requires cur == BaseOf(sp.ptr) ==> index == first && Clear(k, ViewOf(sp), index)
      modifies this`pages, this`available, sp`nodes
      ensures Grew(k, first, old(ViewOf(sp)), ViewOf(sp))
      ensures next.Panic? ==> available == {}
      ensures next.Done? ==> next.value in sp.nodes && sp.nodes[next.value] == sp.nodes[cur] + [index]
      ensures old(Present(pages[cur][index])) ==> next.Done? && ViewOf(sp) == old(ViewOf(sp))
    {
      ghost var v := ViewOf(sp);
      GrewRefl(k, first, v);
      if !Present(pages[cur][index]) {
        next := AddTable(sp, cur, index, flags, k);
        if next.Done? { TableGrows(k, first, v, cur, index, next.value); }
      } else {
        ExistingChild(k, v, cur, index);
        next := Done(BaseOf(pages[cur][index]));
      }
    }

    method AddTable(sp: AddrSpace, cur: nat, index: nat, flags: nat, ghost k: Setting) returns (next: Result<nat>)
      requires MemoryOk(m, pages, available) && k.m == m && flags == Flags(k.user)
      requires cur in pages && index < TableSize(m) && cur in sp.nodes
      modifies this`pages, this`available, sp`nodes
      ensures next.Panic? ==> ViewOf(sp) == old(ViewOf(sp)) && available == {}
      ensures next.Done? ==>
        next.value in old(available) && ViewOf(sp) == WithTable(k, old(ViewOf(sp)), cur, index, next.value)
    {
      ghost var v := ViewOf(sp);
      var page, words := PgAllocz();
      if page.Panic? { return Panic; }
      pages := SetWord(pages, cur, index, Entry(page.value, PTE_P + flags))[page.value := words];
      sp.nodes := sp.nodes[page.value := sp.nodes[cur] + [index]];
      assert words == ZeroPage(TableSize(m));
      next := Done(page.value);
    }

    // map: enters or removes one page of a user space, in the order of the checks of the source.
    method Map(sp: AddrSpace, va: nat, pa: nat, prot: nat) returns (r: Result<()>)
      requires Inv() && Holds(sp) && va < Pow2(m.wordBits) && pa < Pow2(m.wordBits)
      modifies this`pages, this`available, this`all, sp
      ensures Inv() && Holds(sp)
      ensures r.Done? ==> MapAllowed(m, old(all[sp.id].mapping), va, pa, prot)
      ensures r.Panic? && MapAllowed(m, old(all[sp.id].mapping), va, pa, prot) ==> available == {}
      ensures r.Done? ==> all == Changed(old(all), sp.id, sp.ptr, sp.nodes,
        MapEffect(old(all[sp.id].mapping), va, pa, prot))
      ensures r.Panic? ==> all == Changed(old(all), sp.id, sp.ptr, sp.nodes, old(all[sp.id].mapping))
      ensures SameOn(old(pages), pages, kernel.Keys)
      ensures SameBut(m, old(pages), old(all), pages, all, if r.Done? then {sp.id} else {})
      ensures r.Done? ==> OnlyPage(m, old(pages), old(all), pages, all, sp.id, PageOf(va), NewWord(pa, prot))
      ensures r.Done? ==>
        EntryFor(m, pages, all, sp.id, va) ==
          if prot == MMAP_NONE then 0 else pa + 5 + (if And(prot, MMAP_WRITE) != 0 then 2 else 0)
      ensures r.Done? ==> (MayRead(m, pages, all, sp.id, va) <==> prot != MMAP_NONE)
      ensures r.Done? ==>
        (MayWrite(m, pages, all, sp.id, va) <==> prot != MMAP_NONE && And(prot, MMAP_WRITE) != 0)
    {
      hide SameBut, OnlyPage, SpaceInv, MayRead, MayWrite, EntryFor;
      ChangedSame(all, sp.id);
      MapMeans(Kind(true), pages, available, all, pages, available, all, sp.id, va, pa, prot, false);
      if !InUser(m, va) { return Panic; }
      if !PageAligned(va) || !PageAligned(pa) { return Panic; }
      r := MapPage(sp, va, pa, prot);
      MapMeans(Kind(true), old(pages), old(available), old(all), pages, available, all, sp.id, va, pa, prot, r.Done?);
      if r.Done? { MapRights(Kind(true), old(pages), old(all), pages, available, all, sp.id, va, pa, prot); }
    }

    // The rest of map, once the addresses have been checked.
    method MapPage(sp: AddrSpace, va: nat, pa: nat, prot: nat) returns (r: Result<()>)
      requires Inv() && Holds(sp) && InUser(m, va) && PageAligned(pa)
      modifies this`pages, this`available, this`all, sp
      ensures Inv() && Holds(sp)
      ensures r.Done? ==> (prot == MMAP_NONE <==> PageOf(va) in old(all[sp.id].mapping))
      ensures r.Panic? && (prot == MMAP_NONE <==> PageOf(va) in old(all[sp.id].mapping)) ==> available == {}
      ensures r.Done? ==> all == Changed(old(all), sp.id, sp.ptr, sp.nodes,
        MapEffect(old(all[sp.id].mapping), va, pa, prot))
      ensures r.Panic? ==> all == Changed(old(all), sp.id, sp.ptr, sp.nodes, old(all[sp.id].mapping))
      ensures SameOn(old(pages), pages, kernel.Keys)
    {
      hide WorldInv, HasTable, Leaf, SpaceOf, Path;
      ghost var all0 := all;
      var slot := UserWalk(sp, va);
      if slot.Panic? { return Panic; }
      ghost var ptr, nodes := sp.ptr, sp.nodes;
      r := EnterPage(sp, slot.value.table, slot.value.index, va, pa, prot);
      ChangedTwice(all0, sp.id, ptr, nodes, all0[sp.id].mapping, sp.ptr, sp.nodes, all[sp.id].mapping);
      if r.Done? { slot := UserWalk(sp, va); }
    }

    // ptwalk as map calls it.
    method UserWalk(sp: AddrSpace, va: nat) returns (slot: Result<Slot>)
      requires Inv() && Holds(sp) && InUser(m, va)
      modifies this`pages, this`available, this`all, sp
      ensures Inv() && Holds(sp) && all == Changed(old(all), sp.id, sp.ptr, sp.nodes, old(all[sp.id].mapping))
      ensures slot.Panic? ==> available == {}
      ensures slot.Done? ==>
        && sp.ptr != 0 && Leaf(SpaceOf(Kind(true), ViewOf(sp)), slot.value.table) && slot.value.index < TableSize(m)
        && sp.nodes[slot.value.table] + [slot.value.index] == Path(m, va)
      ensures old(HasTable(m, sp.nodes, va)) ==> slot.Done? && all == old(all)
      ensures SameOn(old(pages), pages, kernel.Keys)
    {
      hide WorldInv, Grew, Clear, Ok, HasTable, Leaf, SpaceOf, Path;
      ghost var p0, a0, k := pages, available, Kind(true);
      UserSpace(k, p0, a0, all, sp.id, va);
      assert ViewFor(p0, a0, all[sp.id]) == ViewOf(sp);
      slot := PtWalk(sp, va, PTE_W + PTE_U, k);
      TablesMade(k, p0, a0, all, sp.id, ViewOf(sp), va);
      GrewKeepsKernel(k, p0, a0, all, sp.id, ViewOf(sp), va);
      all := Changed(all, sp.id, sp.ptr, sp.nodes, all[sp.id].mapping);
    }

    // The word that ptwalk has found is checked and written.
    method EnterPage(sp: AddrSpace, table: nat, index: nat, va: nat, pa: nat, prot: nat) returns (r: Result<()>)
      requires Inv() && Holds(sp) && InUser(m, va) && PageAligned(pa)
      requires Leaf(SpaceOf(Kind(true), ViewOf(sp)), table) && index < TableSize(m)
        && sp.nodes[table] + [index] == Path(m, va)
      modifies this`pages, this`all
      ensures Inv() && Holds(sp) && HasTable(m, sp.nodes, va)
      ensures r.Done? <==> (prot == MMAP_NONE <==> PageOf(va) in old(all[sp.id].mapping))
      ensures r.Done? ==> all == Changed(old(all), sp.id, sp.ptr, sp.nodes,
        MapEffect(old(all[sp.id].mapping), va, pa, prot))
      ensures r.Panic? ==> all == Changed(old(all), sp.id, sp.ptr, sp.nodes, old(all[sp.id].mapping))
      ensures SameOn(old(pages), pages, kernel.Keys)
    {
      ghost var v, k := ViewOf(sp), Kind(true);
      PathSplit(m, va, sp.nodes[table], index);
      assert v == ViewFor(pages, available, all[sp.id]);
      hide WorldInv, SameOn, SpaceInv;
      MapWritesAll(k, pages, available, all, sp.id, va, pa, prot, table, index);
      WordIsNotKernel(k, pages, available, all, sp.id, table, index, NewWord(pa, prot));
      r := WriteWord(table, index, pa, prot);
      ChangedSame(all, sp.id);
      if r.Done? { all := Changed(all, sp.id, sp.ptr, sp.nodes, MapEffect(all[sp.id].mapping, va, pa, prot)); }
    }

    method WriteWord(table: nat, index: nat, pa: nat, prot: nat) returns (r: Result<()>)
      requires table in pages && index < |pages[table]|
      modifies this`pages
      ensures r.Done? <==> (prot == MMAP_NONE <==> Present(old(pages[table][index])))
      ensures pages == if r.Done? then SetWord(old(pages), table, index, NewWord(pa, prot)) else old(pages)
    {
      if prot == MMAP_NONE {
        if !Present(pages[table][index]) { return Panic; }
        pages := SetWord(pages, table, index, 0);
      } else {
        if Present(pages[table][index]) { return Panic; }
        pages := SetWord(pages, table, index, UserEntry(pa, prot));
      }
      r := Done(());
    }

    constructor (config: Config, start: Pages, free: set<nat>)
      ensures m == config && pages == start && available == free && freed == multiset{} && all == map[]
    {
      m, pages, available, freed, kpt, kernel, all := config, start, free, multiset{}, 0, map[], map[];
    }

    // vme_init, 64 bits: the kernel's tables are those of the boot code.
    method UseBootTables(root: nat, ghost tables: map<nat, nat>)
      requires ValidTables(m) && ValidAreas(m) && MemoryOk(m, pages, available) && all == map[]
      requires KernelOk(m, pages, root, tables)
      modifies this`kpt, this`kernel
      ensures Inv() && kpt == root
    {
      kpt, kernel := root, tables;
    }

    // vme_init, 32 bits: a tree that maps every page of the kernel areas to itself.
    method VmeInit() returns (r: Result<()>)
      requires ValidTables(m) && ValidAreas(m) && MemoryOk(m, pages, available) && all == map[]
      requires exists j :: 0 <= j < |m.areas| && m.areas[j].kernel
      modifies this`pages, this`available, this`kpt, this`kernel
      ensures r.Panic? ==> available == {}
      ensures r.Done? ==> Inv() && Identity(m, pages, kpt, |m.areas|, 0) && KernelFull(m, pages, kpt)
    {
      hide KernelOk;
      var sp := new AddrSpace(0);
      ghost var k := Setting(m, 0, map[], false);
      var i := 0;
      while i < |m.areas|
        invariant 0 <= i <= |m.areas| && Ok(k, ViewOf(sp)) && Identity(m, pages, sp.ptr, i, 0)
      {
        if m.areas[i].kernel {
          var done := MapArea(sp, i, k);
          if !done { return Panic; }
        }
        IdentityNext(k, pages, sp.ptr, i);
        i := i + 1;
      }
      IdentityHasRoot(k, pages, sp.ptr);
      KernelBuilt(k, ViewOf(sp));
      KernelIsFull(k, ViewOf(sp));
      kpt, kernel := BaseOf(sp.ptr), Levels(sp.nodes);
      r := Done(());
    }

    // Its inner loop, over the pages of one area.
    method MapArea(sp: AddrSpace, i: nat, ghost k: Setting) returns (done: bool)
      requires k == Setting(m, 0, map[], false) && Ok(k, ViewOf(sp)) && ValidAreas(m) && i < |m.areas|
        && m.areas[i].kernel
      requires Identity(m, pages, sp.ptr, i, 0)
      modifies this`pages, this`available, sp
      ensures Ok(k, ViewOf(sp))
      ensures if done then Identity(m, pages, sp.ptr, i, Last(m, m.areas[i], PGSIZE)) else available == {}
    {
      var area := m.areas[i];
      var cur := area.start;
      ghost var n := First(area, PGSIZE);
      LoopStart(m, area, PGSIZE);
      while cur != area.end
        invariant First(area, PGSIZE) <= n <= Last(m, area, PGSIZE) && cur == Wrap(m, n * PGSIZE)
        invariant cur == area.end <==> n == Last(m, area, PGSIZE)
        invariant Ok(k, ViewOf(sp)) && Identity(m, pages, sp.ptr, i, n)
        decreases Last(m, area, PGSIZE) - n
      {
        LoopStep(m, area, PGSIZE, n);
        done := MapKernelPage(sp, i, n, cur, k);
        if !done { return; }
        cur := (cur + PGSIZE) % Pow2(m.wordBits);
        n := n + 1;
        LoopStep(m, area, PGSIZE, n);
      }
      done := true;
    }

    // *ptwalk(&as, cur, PTE_W) = cur | PTE_P | PTE_W
    method MapKernelPage(sp: AddrSpace, ghost i: nat, ghost n: nat, cur: nat, ghost k: Setting) returns (done: bool)
      requires k == Setting(m, 0, map[], false) && Ok(k, ViewOf(sp)) && i < |m.areas|
        && cur == n * PGSIZE < Pow2(AddrBits(m))
      requires First(m.areas[i], PGSIZE) <= n && Identity(m, pages, sp.ptr, i, n)
      modifies this`pages, this`available, sp
      ensures Ok(k, ViewOf(sp))
      ensures if done then Identity(m, pages, sp.ptr, i, n + 1) else available == {}
    {
      KernelIsClear(k, ViewOf(sp), IndexOf(cur, m.tables[1]));
      ghost var p, ptr := pages, sp.ptr;
      var slot := PtWalk(sp, cur, PTE_W, k);
      if slot.Panic? { return false; }
      var table, index := slot.value.table, slot.value.index;
      IdentitySame(k, p, ptr, pages, sp.ptr, i, n);
      LeafOk(k, ViewOf(sp), table, index, Entry(cur, PTE_P + PTE_W));
      IdentityGrows(k, ViewOf(sp), i, n, table, index);
      pages := SetWord(pages, table, index, Entry(cur, PTE_P + PTE_W));
      done := true;
    }

    // protect: a new root that enters the kernel's tables where the kernel areas lie.
    method Protect(sp: AddrSpace) returns (r: Result<()>)
      requires Inv()
      modifies this`pages, this`available, this`all, sp
      ensures Inv()
      ensures r.Panic? ==> available == {} && pages == old(pages) && all == old(all) && sp.ptr == old(sp.ptr)
      ensures r.Done? ==> Holds(sp) && all == Changed(old(all), sp.id, sp.ptr, sp.nodes, map[])
      ensures SameOn(old(pages), pages, kernel.Keys)
      ensures SameBut(m, old(pages), old(all), pages, all, if r.Done? then {sp.id} else {})
      ensures r.Done? ==> forall va: nat :: va < Pow2(AddrBits(m)) ==>
        EntryFor(m, pages, all, sp.id, va) ==
          if KernelIndex(m, IndexOf(va, m.tables[1])) then Lookup(old(pages), kpt, Path(m, va)) else 0
    {
      hide SameBut, EntryFor;
      SpacesSame(Kind(true), pages, available, all, pages, available, all, {});
      var page, upt := PgAllocz();
      if page.Panic? { return Panic; }
      upt := CopyAreas(upt);
      ProtectKeeps(Kind(true), pages, old(available), all, sp.id, page.value, upt);
      pages := pages[page.value := upt];
      sp.ptr, sp.nodes := Entry(page.value, PTE_P + PTE_U), map[page.value := []];
      all := Changed(all, sp.id, sp.ptr, sp.nodes, map[]);
      ProtectMeans(Kind(true), old(pages), old(available), old(all), pages, available, all, sp.id);
      r := Done(());
    }

    // The loop of protect over the areas.
    method CopyAreas(upt: seq<nat>) returns (words: seq<nat>)
      requires ValidTables(m) && ValidAreas(m) && kpt in pages && |pages[kpt]| == TableSize(m)
        && upt == ZeroPage(TableSize(m))
      ensures RootCopied(m, pages[kpt], words, |m.areas|)
    {
      words := upt;
      var i := 0;
      while i < |m.areas|
        invariant 0 <= i <= |m.areas| && RootCopied(m, pages[kpt], words, i)
      {
        RootNext(m, pages[kpt], words, i);
        if m.areas[i].kernel { words := CopyArea(words, i); }
        i := i + 1;
      }
    }

    // The inner loop: one word for each level-1 span of the area.
    method CopyArea(upt: seq<nat>, k: nat) returns (words: seq<nat>)
      requires ValidTables(m) && ValidAreas(m) && kpt in pages && |pages[kpt]| == TableSize(m)
      requires k < |m.areas| && m.areas[k].kernel && |upt| == TableSize(m)
      ensures AreaCopied(m, pages[kpt], upt, words, k, Last(m, m.areas[k], Span(m)))
    {
      var area := m.areas[k];
      words := upt;
      var cur := area.start;
      ghost var q := First(area, Span(m));
      LoopStart(m, area, Span(m));
      while cur != area.end
        invariant First(area, Span(m)) <= q <= Last(m, area, Span(m)) && cur == Wrap(m, q * Span(m))
        invariant cur == area.end <==> q == Last(m, area, Span(m))
        invariant AreaCopied(m, pages[kpt], upt, words, k, q)
        decreases Last(m, area, Span(m)) - q
      {
        LoopStep(m, area, Span(m), q);
        SpanIndex(m, q);
        var index := IndexOf(cur, m.tables[1]);
        words := words[index := pages[kpt][index]];
        cur := (cur + Pow2(m.tables[1].shift)) % Pow2(m.wordBits);
        q := q + 1;
        LoopStep(m, area, Span(m), q);
      }
    }

    // teardown(0, &as->ptr): the root word stands alone in its table.
    method Unprotect(sp: AddrSpace)
      requires Inv() && Holds(sp)
      modifies this`pages, this`available, this`freed, this`all
      ensures Inv() && all == old(all) - {sp.id}
      ensures freed == old(freed) + multiset(sp.nodes.Keys)
      ensures pages == old(pages) - sp.nodes.Keys && available == old(available) + sp.nodes.Keys
      ensures SameOn(old(pages), pages, kernel.Keys) && SameBut(m, old(pages), old(all), pages, all, {sp.id})
    {
      hide SameBut;
      ghost var s := SpaceOf(Kind(true), ViewOf(sp));
      assert SpaceInv(Kind(true), ViewFor(pages, available, all[sp.id]), all[sp.id].mapping);
      UnderRoot(pages, s);
      MemberGoes(Kind(true), pages, available, all, sp.id);
      if Present(sp.ptr) && User(sp.ptr) { Teardown(1, BaseOf(sp.ptr), s, pages); }
      all := all - {sp.id};
      NodesAreNotKernel(Kind(true), old(pages), old(available), old(all), sp.id);
      SpacesSame(Kind(true), old(pages), old(available), old(all), pages, available, all, {sp.id});
    }

    method Teardown(level: nat, pt: nat, ghost s: Space, ghost was: Pages)
      requires 1 <= level && Tearing(m, s, was)
      requires level <= m.ptlevels ==> pt in s.nodes && |s.nodes[pt]| == level - 1 && SameOn(was, pages, Under(s, pt))
      modifies this`pages, this`available, this`freed
      ensures level <= m.ptlevels ==>
        Dropped(Under(s, pt), old(pages), old(available), old(freed), pages, available, freed)
      ensures level > m.ptlevels ==> pages == old(pages) && available == old(available) && freed == old(freed)
      decreases m.ptlevels + 1 - level, 2
    {
      if level > m.ptlevels { return; }
      TearEntries(level, pt, s, was);
      AllBelow(m, s, was, pt);
      hide Dropped, Below, Under;
      ghost var p1, a1, f1 := pages, available, freed;
      PgFree(pt);
      DroppedTwice(Below(s, pt, TableSize(m)), {pt}, old(pages), old(available), old(freed), p1, a1, f1, pages,
        available, freed);
    }

    // Its loop.
    method TearEntries(level: nat, pt: nat, ghost s: Space, ghost was: Pages)
      requires 1 <= level <= m.ptlevels && Tearing(m, s, was)
      requires pt in s.nodes && |s.nodes[pt]| == level - 1 && SameOn(was, pages, Under(s, pt))
      modifies this`pages, this`available, this`freed
      ensures Dropped(Below(s, pt, TableSize(m)), old(pages), old(available), old(freed), pages, available, freed)
      decreases m.ptlevels + 1 - level, 1
    {
      hide Dropped, Below, Under;
      NothingDropped(s, pt, pages, available, freed);
      TablesHaveTheSize(m, level);
      var index: nat := 0;
      while index < Pow2(m.tables[level].bits)
        invariant index <= TableSize(m)
        invariant Dropped(Below(s, pt, index), old(pages), old(available), old(freed), pages, available, freed)
      {
        TearEntry(level, pt, index, s, was, old(pages), old(available), old(freed));
        index := index + 1;
      }
    }

    method PgFree(page: nat)
      modifies this`pages, this`available, this`freed
      ensures Dropped({page}, old(pages), old(available), old(freed), pages, available, freed)
    {
      pages, available, freed := pages - {page}, available + {page}, freed[page := freed[page] + 1];
    }

    // One round of its loop.
    method TearEntry(level: nat, pt: nat, index: nat, ghost s: Space, ghost was: Pages, ghost p: Pages,
        ghost a: set<nat>, ghost f: multiset<nat>)
      requires 1 <= level <= m.ptlevels && Tearing(m, s, was) && index < TableSize(m)
      requires pt in s.nodes && |s.nodes[pt]| == level - 1 && SameOn(was, p, Under(s, pt))
      requires Dropped(Below(s, pt, index), p, a, f, pages, available, freed)
      modifies this`pages, this`available, this`freed
      ensures Dropped(Below(s, pt, index + 1), p, a, f, pages, available, freed)
      decreases m.ptlevels + 1 - level, 0
    {
      BelowStep(was, s, pt, index);
      assert pages[pt] == was[pt] by { assert pt in Under(s, pt); }
      if Present(pages[pt][index]) && User(pages[pt][index]) {
        ghost var c, p1, a1, f1 := BaseOf(pages[pt][index]), pages, available, freed;
        Teardown(level + 1, BaseOf(pages[pt][index]), s, was);
        if Upper(s, pt) {
          DroppedTwice(Below(s, pt, index), Under(s, c), p, a, f, p1, a1, f1, pages, available, freed);
        }
      }
    }
  }

  // One member takes new values.
  function Changed<K>(all: map<K, Member>, a: K, ptr: nat, nodes: map<nat, seq<nat>>, mapping: Mapping): map<K,
      Member> {
    all[a := Member(ptr, nodes, mapping)]
  }

  lemma ChangedSame<K>(all: map<K, Member>, a: K)
    requires a in all
    ensures Changed(all, a, all[a].ptr, all[a].nodes, all[a].mapping) == all
  {
  }

  lemma ChangedTwice<K>(all: map<K, Member>, a: K, p: nat, n: map<nat, seq<nat>>, f: Mapping, q: nat, o: map<nat,
      seq<nat>>, g: Mapping)
    ensures Changed(Changed(all, a, p, n, f), a, q, o, g) == Changed(all, a, q, o, g)
  {
  }

  // When map goes through, provided that memory lasts.
  predicate MapAllowed(m: Config, mapping: Mapping, va: nat, pa: nat, prot: nat)
    requires |m.areas| > 0
  {
    InUser(m, va) && PageAligned(va) && PageAligned(pa) && (prot == MMAP_NONE <==> PageOf(va) in mapping)
  }

  function MapEffect(mapping: Mapping, va: nat, pa: nat, prot: nat): Mapping {
    if prot == MMAP_NONE then mapping - {PageOf(va)} else mapping[PageOf(va) := UserEntry(pa, prot)]
  }

  function NewWord(pa: nat, prot: nat): nat { if prot == MMAP_NONE then 0 else UserEntry(pa, prot) }

  // A user address of a space may be walked to.
  lemma UserSpace<K>(k: Setting, p: Pages, pa: set<nat>, all: map<K, Member>, a: K, va: nat)
    requires WorldInv(k, p, pa, all) && a in all && InUser(k.m, va)
    ensures Ok(k, ViewFor(p, pa, all[a])) && Clear(k, ViewFor(p, pa, all[a]), IndexOf(va, k.m.tables[1]))
    ensures va < Pow2(AddrBits(k.m)) && !KernelIndex(k.m, IndexOf(va, k.m.tables[1])) && all[a].ptr != 0
  {
    TopIndex(k.m, va);
    RootedIsClear(k, ViewFor(p, pa, all[a]), IndexOf(va, k.m.tables[1]));
  }

  // The tables that ptwalk has added change nothing.
  lemma TablesMade<K>(k: Setting, p: Pages, pa: set<nat>, all: map<K, Member>, a: K, w: View, va: nat)
    requires WorldInv(k, p, pa, all) && a in all && InUser(k.m, va)
    requires Grew(k, IndexOf(va, k.m.tables[1]), ViewFor(p, pa, all[a]), w)
    ensures WorldInv(k, w.pages, w.available, all[a := Member(w.ptr, w.nodes, all[a].mapping)])
  {
    UserSpace(k, p, pa, all, a, va);
    GrewKeeps(k, IndexOf(va, k.m.tables[1]), ViewFor(p, pa, all[a]), w, all[a].mapping);
    MapKeepsAll(k, p, pa, all, a, Member(w.ptr, w.nodes, all[a].mapping), w);
  }

  // Nor do they touch the kernel's.
  lemma GrewKeepsKernel<K>(k: Setting, p: Pages, pa: set<nat>, all: map<K, Member>, a: K, w: View, va: nat)
    requires WorldInv(k, p, pa, all) && a in all && InUser(k.m, va)
    requires Grew(k, IndexOf(va, k.m.tables[1]), ViewFor(p, pa, all[a]), w)
    ensures SameOn(p, w.pages, k.kernel.Keys)
  {
    NodesAreNotKernel(k, p, pa, all, a);
  }

  // The word found tells whether the page is mapped.
  lemma MapReads(k: Setting, v: View, mapping: Mapping, va: nat, table: nat, i: nat)
    requires SpaceInv(k, v, mapping) && Leaf(SpaceOf(k, v), table) && i < |v.pages[table]|
    requires va < Pow2(AddrBits(k.m)) && !KernelIndex(k.m, IndexOf(va, k.m.tables[1]))
      && v.nodes[table] + [i] == Path(k.m, va)
    ensures Present(v.pages[table][i]) <==> PageOf(va) in mapping
  {
    WordFound(k, v, mapping, va, table, i);
  }

  lemma NewWordReads(mapping: Mapping, va: nat, pa: nat, prot: nat)
    requires PageAligned(pa)
    ensures NewWord(pa, prot) == 0 || Present(NewWord(pa, prot))
    ensures Updated(mapping, PageOf(va), NewWord(pa, prot)) == MapEffect(mapping, va, pa, prot)
  {
    UserEntryReads(pa, prot);
  }

  // The write that follows does to the plain map what it should.
  lemma MapWrites(k: Setting, v: View, mapping: Mapping, va: nat, pa: nat, prot: nat, table: nat, i: nat)
    requires SpaceInv(k, v, mapping) && PageAligned(pa) && Leaf(SpaceOf(k, v), table) && i < TableSize(k.m)
    requires va < Pow2(AddrBits(k.m)) && !KernelIndex(k.m, IndexOf(va, k.m.tables[1]))
      && v.nodes[table] + [i] == Path(k.m, va)
    ensures var x := Written(v, table, i, NewWord(pa, prot));
      SpaceInv(k, x, MapEffect(mapping, va, pa, prot)) && Clear(k, x, IndexOf(va, k.m.tables[1]))
  {
    var first := IndexOf(va, k.m.tables[1]);
    NewWordReads(mapping, va, pa, prot);
    WriteKeeps(k, v, mapping, va, table, i, NewWord(pa, prot));
    TopIndex(k.m, va);
    RootedIsClear(k, Written(v, table, i, NewWord(pa, prot)), first);
  }

  lemma MapWritesAll<K>(k: Setting, p: Pages, available: set<nat>, all: map<K, Member>, a: K, va: nat, pa: nat,
      prot: nat,
                        table: nat, i: nat)
    requires WorldInv(k, p, available, all) && a in all && InUser(k.m, va) && PageAligned(pa)
    requires var v := ViewFor(p, available, all[a]);
      Leaf(SpaceOf(k, v), table) && i < TableSize(k.m) && v.nodes[table] + [i] == Path(k.m, va)
    ensures table in p && i < |p[table]| && (Present(p[table][i]) <==> PageOf(va) in all[a].mapping)
    ensures var x := Written(ViewFor(p, available, all[a]), table, i, NewWord(pa, prot));
      WorldInv(k, x.pages, x.available, all[a := all[a].(mapping := MapEffect(all[a].mapping, va, pa, prot))])
    ensures all[a := all[a]] == all
  {
    var v := ViewFor(p, available, all[a]);
    UserSpace(k, p, available, all, a, va);
    MapReads(k, v, all[a].mapping, va, table, i);
    MapWrites(k, v, all[a].mapping, va, pa, prot, table, i);
    MapKeepsAll(k, p, available, all, a, all[a].(mapping := MapEffect(all[a].mapping, va, pa, prot)),
                Written(v, table, i, NewWord(pa, prot)));
  }

  lemma WordIsNotKernel<K>(k: Setting, p: Pages, pa: set<nat>, all: map<K, Member>, a: K, table: nat, i: nat, e: nat)
    requires WorldInv(k, p, pa, all) && a in all && table in all[a].nodes && table in p && i < |p[table]|
    ensures SameOn(p, SetWord(p, table, i, e), k.kernel.Keys) && SameOn(p, p, k.kernel.Keys)
  {
    NodesAreNotKernel(k, p, pa, all, a);
  }

  // What a call of map means to every address of every space.
  lemma MapMeans<K>(k: Setting, p: Pages, pa: set<nat>, all: map<K, Member>, q: Pages, qa: set<nat>,
                    all': map<K, Member>, a: K, va: nat, pa': nat, prot: nat, done: bool)
    requires WorldInv(k, p, pa, all) && WorldInv(k, q, qa, all') && SameOn(p, q, k.kernel.Keys) && a in all && a in all'
    requires all' == all[a := all'[a]]
    requires all'[a].mapping == if done then MapEffect(all[a].mapping, va, pa', prot) else all[a].mapping
    requires done ==> InUser(k.m, va) && PageAligned(pa')
    ensures SameBut(k.m, p, all, q, all', if done then {a} else {})
    ensures done ==> OnlyPage(k.m, p, all, q, all', a, PageOf(va), NewWord(pa', prot))
  {
    hide SameBut, OnlyPage, SpaceInv, KernelIndex;
    SpacesSame(k, p, pa, all, q, qa, all', if done then {a} else {});
    if done {
      UserSpace(k, p, pa, all, a, va);
      NewWordReads(all[a].mapping, va, pa', prot);
      PageChanged(k, p, pa, all, q, qa, all', a, va, NewWord(pa', prot));
    }
  }

  // What the new entry is, and what user mode may then do with the page.
  lemma MapRights<K>(k: Setting, p: Pages, all: map<K, Member>, q: Pages, qa: set<nat>, all': map<K, Member>, a: K,
                     va: nat, pa: nat, prot: nat)
    requires WorldInv(k, q, qa, all') && a in all && a in all' && InUser(k.m, va) && PageAligned(pa)
    requires OnlyPage(k.m, p, all, q, all', a, PageOf(va), NewWord(pa, prot))
    ensures EntryFor(k.m, q, all', a, va) ==
      if prot == MMAP_NONE then 0 else pa + 5 + (if And(prot, MMAP_WRITE) != 0 then 2 else 0)
    ensures MayRead(k.m, q, all', a, va) <==> prot != MMAP_NONE
    ensures MayWrite(k.m, q, all', a, va) <==> prot != MMAP_NONE && And(prot, MMAP_WRITE) != 0
  {
    hide SpaceInv, KernelIndex, MayRead, MayWrite;
    UserSpace(k, q, qa, all', a, va);
    UserEntryReads(pa, prot);
    UserRights(k, q, qa, all', a, va);
  }

  // What map has done to one space is nothing to the others.
  lemma MapKeepsAll<K>(k: Setting, p: Pages, pa: set<nat>, all: map<K, Member>, a: K, x: Member, w: View)
    requires WorldInv(k, p, pa, all) && a in all && w.ptr == x.ptr && w.nodes == x.nodes && SpaceInv(k, w, x.mapping)
    requires ChangedWithin(p, w.pages, all[a].nodes.Keys) && x.nodes.Keys <= all[a].nodes.Keys + pa
    ensures WorldInv(k, w.pages, w.available, all[a := x])
  {
    assert w == ViewFor(w.pages, w.available, x);
    MemberChanges(k, p, pa, all, a, x, w.pages, w.available);
  }

  // The kernel may write every page of its areas, and user mode may do nothing there.
  ghost predicate KernelFull(m: Config, pages: Pages, root: nat)
    requires ValidTables(m)
  {
    forall va: nat :: va < Pow2(AddrBits(m)) ==>
      !UserOpen(pages, root, Path(m, va))
      && (WriteOpen(pages, root, Path(m, va)) <==> InKernel(m, |m.areas|, PageOf(va) * PGSIZE))
  }

  lemma KernelIsFull(k: Setting, v: View)
    requires Ok(k, v) && !k.user && v.ptr != 0 && Identity(k.m, v.pages, v.ptr, |k.m.areas|, 0)
    ensures KernelFull(k.m, v.pages, BaseOf(v.ptr))
  {
    hide InKernel, WriteOpen, UserOpen, Walk, Entry, Path, PageOf;
    forall va: nat | va < Pow2(AddrBits(k.m))
      ensures !UserOpen(v.pages, BaseOf(v.ptr), Path(k.m, va))
      ensures WriteOpen(v.pages, BaseOf(v.ptr), Path(k.m, va)) <==> InKernel(k.m, |k.m.areas|, PageOf(va) * PGSIZE)
    {
      KernelRights(k, v, va);
      EntryReads(PageOf(va) * PGSIZE, PTE_P + PTE_W);
    }
  }

  // ---- protect ----

  // The words of a new root after the first k areas.
  ghost predicate RootCopied(m: Config, kernelRoot: seq<nat>, words: seq<nat>, k: nat)
    requires |m.tables| > 1 && k <= |m.areas|
  {
    && |words| == |kernelRoot| == TableSize(m)
    && forall i: nat :: i < TableSize(m) ==> words[i] == if InKernel(m, k, i * Span(m)) then kernelRoot[i] else 0
  }

  // ... and within area k, up to span q.
  ghost predicate AreaCopied(m: Config, kernelRoot: seq<nat>, upt: seq<nat>, words: seq<nat>, k: nat, q: nat)
    requires |m.tables| > 1 && k < |m.areas|
  {
    && |words| == |upt| == |kernelRoot| == TableSize(m)
    && forall i: nat :: i < TableSize(m) ==>
      words[i] == if First(m.areas[k], Span(m)) <= i < q then kernelRoot[i] else upt[i]
  }

  lemma RootNext(m: Config, kernelRoot: seq<nat>, upt: seq<nat>, k: nat)
    requires ValidTables(m) && ValidAreas(m) && k < |m.areas| && RootCopied(m, kernelRoot, upt, k)
    ensures !m.areas[k].kernel ==> RootCopied(m, kernelRoot, upt, k + 1)
    ensures forall words ::
      m.areas[k].kernel && AreaCopied(m, kernelRoot, upt, words, k, Last(m, m.areas[k], Span(m))) ==>
              RootCopied(m, kernelRoot, words, k + 1)
  {
    forall i: nat | i < TableSize(m)
      ensures InKernel(m, k + 1, i * Span(m)) <==>
        (InKernel(m, k, i * Span(m)) || (m.areas[k].kernel && First(m.areas[k], Span(m)) <= i < Last(m, m.areas[k],
          Span(m))))
    {
      InKernelNext(m, k, i * Span(m));
      if m.areas[k].kernel { UnitInArea(m, m.areas[k], Span(m), i); }
    }
  }

  // Multiples of the span and level-1 indices are the same thing.
  lemma SpanIndex(m: Config, q: nat)
    requires ValidTables(m) && q * Span(m) < Pow2(AddrBits(m))
    ensures IndexOf(q * Span(m), m.tables[1]) == q < TableSize(m)
  {
    TopIndex(m, q * Span(m));
    DivModUnique(q, 0, Span(m));
  }

  lemma ProtectKeeps<K>(k: Setting, p: Pages, pa: set<nat>, all: map<K, Member>, a: K, page: nat, words: seq<nat>)
    requires WorldInv(k, p, pa, all) && page in pa && RootCopied(k.m, p[k.kpt], words, |k.m.areas|)
    ensures WorldInv(k, p[page := words], pa - {page},
      Changed(all, a, Entry(page, PTE_P + PTE_U), map[page := []], map[]))
  {
    var q, x := p[page := words], Member(Entry(page, PTE_P + PTE_U), map[page := []], map[]);
    EntryReads(page, PTE_P + PTE_U);
    KernelUntouched(k, p, q);
    FreshSpace(k, ViewFor(q, pa - {page}, x), words);
    MemberChanges(k, p, pa, all, a, x, q, pa - {page});
  }

  // What protect means to every address: the new space has the kernel's areas, the others are as before.
  lemma ProtectMeans<K>(k: Setting, p: Pages, pa: set<nat>, all: map<K, Member>, q: Pages, qa: set<nat>,
                        all': map<K, Member>, a: K)
    requires WorldInv(k, p, pa, all) && WorldInv(k, q, qa, all') && SameOn(p, q, k.kernel.Keys)
    requires a in all' && all' == all[a := all'[a]] && all'[a].mapping == map[]
    ensures SameBut(k.m, p, all, q, all', {a})
    ensures forall va: nat :: va < Pow2(AddrBits(k.m)) ==>
      EntryFor(k.m, q, all', a, va) ==
        if KernelIndex(k.m, IndexOf(va, k.m.tables[1])) then Lookup(p, k.kpt, Path(k.m, va)) else 0
  {
    SpacesSame(k, p, pa, all, q, qa, all', {a});
    forall va: nat | va < Pow2(AddrBits(k.m))
      ensures EntryFor(k.m, q, all', a, va) ==
        if KernelIndex(k.m, IndexOf(va, k.m.tables[1])) then Lookup(p, k.kpt, Path(k.m, va)) else 0
    {
      EmptySpaceMeans(k, q, qa, all', a, va);
      KernelWalks(k, p, q, va);
    }
  }

  // ---- teardown ----

  // The pages of a set have been given back, each once.
  ghost predicate Dropped(gone: set<nat>, p: Pages, a: set<nat>, f: multiset<nat>, p': Pages, a': set<nat>,
      f': multiset<nat>) {
    p' == p - gone && a' == a + gone && f' == f + multiset(gone)
  }

  // A well-formed user tree, as it was when the teardown began.
  ghost predicate Tearing(m: Config, s: Space, was: Pages) {
    ValidTables(m) && s.levels == m.ptlevels && s.user && PageTree.Valid(was, s) && forall b :: b in s.nodes ==>
      |was[b]| == TableSize(m)
  }

  lemma NothingDropped(s: Space, b: nat, p: Pages, a: set<nat>, f: multiset<nat>)
    requires b in s.nodes
    ensures Dropped(Below(s, b, 0), p, a, f, p, a, f)
  {
    assert Below(s, b, 0) == {};
  }

  lemma TablesHaveTheSize(m: Config, level: nat)
    requires ValidTables(m) && 1 <= level <= m.ptlevels
    ensures level < |m.tables| && Pow2(m.tables[level].bits) == TableSize(m)
  {
  }

  lemma AllBelow(m: Config, s: Space, was: Pages, b: nat)
    requires Tearing(m, s, was) && b in s.nodes
    ensures Under(s, b) == Below(s, b, TableSize(m)) + {b} && b !in Below(s, b, TableSize(m))
  {
    BelowAll(was, s, b, TableSize(m));
  }

  lemma DroppedTwice(g: set<nat>, h: set<nat>, p: Pages, a: set<nat>, f: multiset<nat>, p1: Pages, a1: set<nat>,
      f1: multiset<nat>,
                     p2: Pages, a2: set<nat>, f2: multiset<nat>)
    requires Dropped(g, p, a, f, p1, a1, f1) && Dropped(h, p1, a1, f1, p2, a2, f2) && g !! h
    ensures Dropped(g + h, p, a, f, p2, a2, f2)
  {
    MultisetOfUnion(g, h);
  }

  // One entry of a table that is being torn down.
  lemma BelowStep(was: Pages, s: Space, b: nat, i: nat)
    requires PageTree.Valid(was, s) && s.user && b in s.nodes && i < |was[b]|
    ensures if Upper(s, b) && Present(was[b][i]) && User(was[b][i]) then
        var c := BaseOf(was[b][i]);
        && c in s.nodes && |s.nodes[c]| == |s.nodes[b]| + 1 && Under(s, c) <= Under(s, b) && b !in Under(s, c)
        && Below(s, b, i + 1) == Below(s, b, i) + Under(s, c) && Below(s, b, i) !! Under(s, c)
      else Below(s, b, i + 1) == Below(s, b, i)
    ensures b !in Below(s, b, i)
  {
    if Upper(s, b) && Present(was[b][i]) && User(was[b][i]) {
      UserEntryIsOwn(was, s, b, i);
      BelowChild(was, s, b, i, BaseOf(was[b][i]));
    } else {
      BelowNothing(was, s, b, i);
    }
  }
}
