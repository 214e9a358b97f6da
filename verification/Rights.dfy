// What user mode may do with an address: the processor takes a right for granted only if every
// entry on the walk grants it (Intel SDM Vol. 3A, section 4.6).

module Rights {
  import opened Bits
  import opened PageEntry
  import opened PageTree
  import opened Mmu
  import opened AddrSpaces
  import opened Translation
  import opened Spaces

  // Every entry on the path, down to the one that ends it, is there and passes the test.
  predicate All(test: nat -> bool, pages: Pages, table: nat, path: seq<nat>)
    requires |path| > 0
    decreases |path|
  {
    && table in pages && path[0] < |pages[table]| && Present(pages[table][path[0]]) && test(pages[table][path[0]])
    && (|path| > 1 && !Large(pages[table][path[0]]) ==> All(test, pages, BaseOf(pages[table][path[0]]), path[1..]))
  }

  // The page of an address is open to user mode, and to writing, along the whole walk.
  predicate UserOpen(pages: Pages, table: nat, path: seq<nat>) requires |path| > 0 { All(User, pages, table, path) }
  predicate WriteOpen(pages: Pages, table: nat, path: seq<nat>) requires |path| > 0 { All(Write, pages, table, path) }

  // In a tree the word that ends the walk decides alone: the tables above it take no right away.
  lemma {:induction false} LastDecides(pages: Pages, s: Space, b: nat, path: seq<nat>)
    requires Valid(pages, s) && b in s.nodes && |path| > 0 && |s.nodes[b]| + |path| == s.levels
    requires Upper(s, b) && path[0] < |pages[b]| && Present(pages[b][path[0]]) ==> Own(pages[b][path[0]], s.user)
    ensures var e := Lookup(pages, b, path);
      && (WriteOpen(pages, b, path) <==> Present(e) && Write(e))
      && (s.user ==> (UserOpen(pages, b, path) <==> Present(e) && User(e)))
    decreases |path|
  {
    if path[0] < |pages[b]| && |path| > 1 && Present(pages[b][path[0]]) {
      var c := BaseOf(pages[b][path[0]]);
      StepFrom(pages, s, b, path[0]);
      BelowIsOwn(pages, s, b, path[0], c, path[1]);
      LastDecides(pages, s, c, path[1..]);
    }
  }

  // Only the root has entries of the kernel's.
  lemma BelowIsOwn(pages: Pages, s: Space, b: nat, i: nat, c: nat, j: nat)
    requires Valid(pages, s) && IsChild(pages, s, b, i, c)
    ensures Upper(s, c) && j < |pages[c]| && Present(pages[c][j]) ==> Own(pages[c][j], s.user)
  {
  }

  // The word that ptwalk finds is the one that ends the walk, and it decides.
  lemma WalkRights(k: Setting, v: View, addr: nat, table: nat, i: nat)
    requires Ok(k, v) && v.ptr != 0 && Leaf(SpaceOf(k, v), table) && i < |v.pages[table]|
      && v.nodes[table] + [i] == Path(k.m, addr)
    ensures Decides(k.user, v.pages, v.ptr, Path(k.m, addr), v.pages[table][i])
  {
    var s, path, e := SpaceOf(k, v), Path(k.m, addr), v.pages[table][i];
    assert v.pages[table][i := e] == v.pages[table];
    assert SetWord(v.pages, table, i, e) == v.pages;
    assert [] + path == path;
    LeafWrite(v.pages, s, table, i, e, s.root, path);
    FirstStep(v.pages, s, s.root, path, table, i);
    LastDecides(v.pages, s, s.root, path);
  }

  // The walk along the path ends at e, and what e grants is granted.
  predicate Decides(user: bool, pages: Pages, ptr: nat, path: seq<nat>, e: nat)
    requires |path| > 0
  {
    && Walk(pages, ptr, path) == e
    && (WriteOpen(pages, BaseOf(ptr), path) <==> Present(e) && Write(e))
    && (user ==> (UserOpen(pages, BaseOf(ptr), path) <==> Present(e) && User(e)))
  }

  // ---- the spaces ----

  predicate MayRead<K>(m: Config, pages: Pages, all: map<K, Member>, a: K, va: nat)
    requires ValidTables(m) && a in all
  {
    UserOpen(pages, BaseOf(all[a].ptr), Path(m, va))
  }

  predicate MayWrite<K>(m: Config, pages: Pages, all: map<K, Member>, a: K, va: nat)
    requires ValidTables(m) && a in all
  {
    MayRead(m, pages, all, a, va) && WriteOpen(pages, BaseOf(all[a].ptr), Path(m, va))
  }

  // A user address of a space has the rights of the entry that it leads to.
  lemma UserRights<K>(k: Setting, p: Pages, pa: set<nat>, all: map<K, Member>, a: K, va: nat)
    requires WorldInv(k, p, pa, all) && a in all && va < Pow2(AddrBits(k.m))
    requires !KernelIndex(k.m, IndexOf(va, k.m.tables[1]))
    ensures var e := EntryFor(k.m, p, all, a, va);
      && (MayRead(k.m, p, all, a, va) <==> Present(e) && User(e))
      && (MayWrite(k.m, p, all, a, va) <==> Present(e) && User(e) && Write(e))
  {
    var v := ViewFor(p, pa, all[a]);
    TopIndex(k.m, va);
    PathHead(k.m, va);
    RootedIsClear(k, v, IndexOf(va, k.m.tables[1]));
    LastDecides(p, SpaceOf(k, v), BaseOf(v.ptr), Path(k.m, va));
  }

  // User mode reaches nothing in the kernel's areas.
  lemma KernelClosed<K>(k: Setting, p: Pages, pa: set<nat>, all: map<K, Member>, a: K, va: nat)
    requires WorldInv(k, p, pa, all) && a in all && va < Pow2(AddrBits(k.m))
    requires KernelIndex(k.m, IndexOf(va, k.m.tables[1]))
    ensures !MayRead(k.m, p, all, a, va) && !MayWrite(k.m, p, all, a, va)
  {
    var v := ViewFor(p, pa, all[a]);
    PathHead(k.m, va);
    assert RootWordOk(k.m, p, SpaceOf(k, v), IndexOf(va, k.m.tables[1]));
  }

  // The kernel's own tree leaves the kernel all rights.
  lemma KernelRights(k: Setting, v: View, va: nat)
    requires Ok(k, v) && !k.user && v.ptr != 0 && va < Pow2(AddrBits(k.m))
    ensures var e := Walk(v.pages, v.ptr, Path(k.m, va));
      && (WriteOpen(v.pages, BaseOf(v.ptr), Path(k.m, va)) <==> Present(e) && Write(e))
      && !UserOpen(v.pages, BaseOf(v.ptr), Path(k.m, va))
  {
    PathHead(k.m, va);
    LastDecides(v.pages, SpaceOf(k, v), BaseOf(v.ptr), Path(k.m, va));
  }
}
