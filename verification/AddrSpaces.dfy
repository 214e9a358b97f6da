// Address spaces of abstract-machine/am/src/x86/qemu/vme.c on values: what one space keeps
// while tables are added to it, what a word written to it means, and why others do not notice.

module AddrSpaces {
  import opened Bits
  import opened PageEntry
  import opened PageTree
  import opened Mmu

  // What all operations on one kind of tree share: the kernel's tables and the user flag.
  datatype Setting = Setting(m: Config, kpt: nat, kernel: map<nat, nat>, user: bool)

  // Memory as far as one tree is concerned: all pages, the free ones, the root word and the
  // tree's own tables with their paths.
  datatype View = View(pages: Pages, available: set<nat>, ptr: nat, nodes: map<nat, seq<nat>>)

  function SpaceOf(k: Setting, v: View): Space {
    Space(k.m.ptlevels, BaseOf(v.ptr), v.nodes, k.user, k.kpt, k.kernel)
  }

  ghost predicate MemoryOk(m: Config, pages: Pages, available: set<nat>) {
    && ValidTables(m)
    && (forall b :: b in pages ==> |pages[b]| == TableSize(m) && PageAligned(b) && b != 0)
    && (forall b :: b in available ==> PageAligned(b) && b !in pages && b != 0)
  }

  // The processor reads no rights from the word that leads to the root.
  predicate RootWord(e: nat, user: bool) { Present(e) && User(e) == user }

  // No root yet, or a well-formed tree whose root word carries the flags.
  ghost predicate Ok(k: Setting, v: View) {
    && MemoryOk(k.m, v.pages, v.available) && KernelTables(v.pages, k.m.ptlevels, k.kernel)
    && if v.ptr == 0 then v.nodes == map[] else RootWord(v.ptr, k.user) && PageTree.Valid(v.pages, SpaceOf(k, v))
  }

  // The word at the end of the walk along a path.
  function Walk(pages: Pages, ptr: nat, path: seq<nat>): nat
    requires |path| > 0
  {
    if ptr == 0 then 0 else Lookup(pages, BaseOf(ptr), path)
  }

  ghost predicate SameWalks(levels: nat, p: Pages, a: nat, q: Pages, b: nat) {
    forall path: seq<nat> :: |path| == levels && levels > 0 ==> Walk(q, b, path) == Walk(p, a, path)
  }

  // w is v with new tables, taken from the free pages; nothing outside the tree has changed.
  ghost predicate Grown(v: View, w: View) {
    && (forall b :: b in v.nodes ==> b in w.nodes && w.nodes[b] == v.nodes[b])
    && (forall b :: b in w.nodes && b !in v.nodes ==> b in v.available)
    && (forall b :: b in v.pages && b !in v.nodes ==> b in w.pages && w.pages[b] == v.pages[b])
    && w.pages.Keys == v.pages.Keys + w.nodes.Keys
    && w.available == v.available - w.nodes.Keys
    && (v.ptr != 0 ==> w.ptr == v.ptr)
  }

  // ---- the root of a user tree ----

  // The root enters the kernel's tables exactly where a kernel area lies.
  ghost predicate RootOk(m: Config, pages: Pages, s: Space)
    requires |m.tables| > 1
  {
    && s.kpt in s.kernel && s.kernel[s.kpt] == 0 && s.root in pages && s.kpt in pages
      && |pages[s.root]| == |pages[s.kpt]| == TableSize(m)
    && forall i: nat :: i < TableSize(m) ==> RootWordOk(m, pages, s, i)
  }

  ghost predicate RootWordOk(m: Config, pages: Pages, s: Space, i: nat)
    requires |m.tables| > 1 && s.root in pages && s.kpt in pages && i < |pages[s.root]| && i < |pages[s.kpt]|
  {
    && (KernelIndex(m, i) ==> pages[s.root][i] == pages[s.kpt][i])
    && (Present(pages[s.root][i]) && !Own(pages[s.root][i], s.user) ==> KernelIndex(m, i))
  }

  ghost predicate Rooted(k: Setting, v: View)
    requires |k.m.tables| > 1
  {
    v.ptr != 0 && RootOk(k.m, v.pages, SpaceOf(k, v))
  }

  // No entry copied from the kernel stands in the way of word i of the root.
  predicate Clear(k: Setting, v: View, i: nat) {
    v.ptr != 0 && BaseOf(v.ptr) in v.pages && i < |v.pages[BaseOf(v.ptr)]| && Present(v.pages[BaseOf(v.ptr)][i]) ==>
      Own(v.pages[BaseOf(v.ptr)][i], k.user)
  }

  lemma RootedIsClear(k: Setting, v: View, i: nat)
    requires Ok(k, v) && Rooted(k, v) && i < TableSize(k.m) && !KernelIndex(k.m, i)
    ensures Clear(k, v, i)
  {
    assert RootWordOk(k.m, v.pages, SpaceOf(k, v), i);
  }

  // ---- adding tables ----

  // Everything that ptwalk keeps while it adds tables below word i of the root.
  ghost predicate Grew(k: Setting, i: nat, v: View, w: View)
    requires |k.m.tables| > 1
  {
    && Ok(k, w) && Grown(v, w) && SameWalks(k.m.ptlevels, v.pages, v.ptr, w.pages, w.ptr)
    && (Rooted(k, v) && !KernelIndex(k.m, i) ==> Rooted(k, w))
  }

  lemma GrewRefl(k: Setting, i: nat, v: View)
    requires Ok(k, v)
    ensures Grew(k, i, v, v)
  {
    assert forall b :: b in v.nodes ==> b in v.pages;
  }

  lemma GrewTrans(k: Setting, i: nat, u: View, v: View, w: View)
    requires Ok(k, u) && Grew(k, i, u, v) && Grew(k, i, v, w)
    ensures Grew(k, i, u, w)
  {
    GrownTrans(u, v, w);
    SameWalksTrans(k.m.ptlevels, u.pages, u.ptr, v.pages, v.ptr, w.pages, w.ptr);
  }

  lemma GrownTrans(u: View, v: View, w: View)
    requires Grown(u, v) && Grown(v, w) && u.available !! u.pages.Keys
    ensures Grown(u, w)
  {
  }

  lemma SameWalksTrans(levels: nat, p: Pages, a: nat, q: Pages, b: nat, r: Pages, c: nat)
    requires SameWalks(levels, p, a, q, b) && SameWalks(levels, q, b, r, c)
    ensures SameWalks(levels, p, a, r, c)
  {
  }

  // The view after a fresh page has been entered as word i of table p.
  function LinkedView(k: Setting, v: View, p: nat, i: nat, e: nat): View
    requires |k.m.tables| > 1 && p in v.pages && i < |v.pages[p]| && p in v.nodes
  {
    View(Link(v.pages, p, i, e, TableSize(k.m)), v.available - {BaseOf(e)}, v.ptr,
      v.nodes[BaseOf(e) := v.nodes[p] + [i]])
  }

  lemma LinkGrows(k: Setting, j: nat, v: View, p: nat, i: nat, e: nat)
    requires Ok(k, v) && v.ptr != 0 && BaseOf(e) in v.available
    requires CanLink(v.pages, SpaceOf(k, v), p, i, e) && (p == BaseOf(v.ptr) ==> i == j)
    ensures Grew(k, j, v, LinkedView(k, v, p, i, e))
  {
    LinkOk(k, v, p, i, e);
    LinkSameWalks(k, v, p, i, e);
    LinkIsGrowth(k, v, p, i, e);
    if Rooted(k, v) && !KernelIndex(k.m, j) { LinkKeepsRoot(k, j, v, p, i, e); }
  }

  lemma LinkOk(k: Setting, v: View, p: nat, i: nat, e: nat)
    requires Ok(k, v) && v.ptr != 0 && BaseOf(e) in v.available && CanLink(v.pages, SpaceOf(k, v), p, i, e)
    ensures Ok(k, LinkedView(k, v, p, i, e))
  {
    LinkKeepsValid(v.pages, SpaceOf(k, v), p, i, e, TableSize(k.m));
    LinkMemoryOk(k.m, v.pages, v.available, p, i, e);
    LinkKernel(k, v, p, i, e);
    assert SpaceOf(k, LinkedView(k, v, p, i, e)) == Linked(SpaceOf(k, v), p, i, e);
  }

  lemma LinkMemoryOk(m: Config, pages: Pages, available: set<nat>, p: nat, i: nat, e: nat)
    requires MemoryOk(m, pages, available) && p in pages && i < |pages[p]| && BaseOf(e) in available
    ensures MemoryOk(m, Link(pages, p, i, e, TableSize(m)), available - {BaseOf(e)})
  {
  }

  lemma LinkKernel(k: Setting, v: View, p: nat, i: nat, e: nat)
    requires Ok(k, v) && v.ptr != 0 && CanLink(v.pages, SpaceOf(k, v), p, i, e)
    ensures KernelTables(Link(v.pages, p, i, e, TableSize(k.m)), k.m.ptlevels, k.kernel)
  {
    KernelTablesFrame(v.pages, Link(v.pages, p, i, e, TableSize(k.m)), k.m.ptlevels, k.kernel);
  }

  lemma KernelTablesFrame(p: Pages, q: Pages, levels: nat, kernel: map<nat, nat>)
    requires KernelTables(p, levels, kernel) && SameOn(p, q, kernel.Keys)
    ensures KernelTables(q, levels, kernel)
  {
  }

  lemma LinkSameWalks(k: Setting, v: View, p: nat, i: nat, e: nat)
    requires Ok(k, v) && v.ptr != 0 && CanLink(v.pages, SpaceOf(k, v), p, i, e)
    ensures SameWalks(k.m.ptlevels, v.pages, v.ptr, Link(v.pages, p, i, e, TableSize(k.m)), v.ptr)
  {
    forall path: seq<nat> | |path| == k.m.ptlevels && k.m.ptlevels > 0
      ensures Lookup(Link(v.pages, p, i, e, TableSize(k.m)), BaseOf(v.ptr), path) ==
        Lookup(v.pages, BaseOf(v.ptr), path)
    {
      LinkKeepsWalks(v.pages, SpaceOf(k, v), p, i, e, TableSize(k.m), BaseOf(v.ptr), path);
    }
  }

  lemma LinkIsGrowth(k: Setting, v: View, p: nat, i: nat, e: nat)
    requires |k.m.tables| > 1 && p in v.pages && i < |v.pages[p]| && p in v.nodes && BaseOf(e) in v.available
    requires v.nodes.Keys <= v.pages.Keys && v.available !! v.pages.Keys
    ensures Grown(v, LinkedView(k, v, p, i, e))
  {
  }

  lemma LinkKeepsRoot(k: Setting, j: nat, v: View, p: nat, i: nat, e: nat)
    requires Ok(k, v) && Rooted(k, v) && !KernelIndex(k.m, j) && v.ptr != 0 && BaseOf(e) !in v.pages
    requires CanLink(v.pages, SpaceOf(k, v), p, i, e) && (p == BaseOf(v.ptr) ==> i == j)
    ensures Rooted(k, LinkedView(k, v, p, i, e))
  {
    var w := LinkedView(k, v, p, i, e);
    forall n: nat | n < TableSize(k.m) ensures RootWordOk(k.m, w.pages, SpaceOf(k, w), n) {
      assert RootWordOk(k.m, v.pages, SpaceOf(k, v), n);
    }
  }

  // A zeroed page is the root of an empty tree.
  lemma RootGrows(k: Setting, i: nat, v: View, page: nat, ptr: nat)
    requires Ok(k, v) && v.ptr == 0 && page in v.available && ptr != 0 && BaseOf(ptr) == page && RootWord(ptr, k.user)
    ensures Grew(k, i, v, View(v.pages[page := ZeroPage(TableSize(k.m))], v.available - {page}, ptr, map[page := []]))
  {
    var w := View(v.pages[page := ZeroPage(TableSize(k.m))], v.available - {page}, ptr, map[page := []]);
    KernelTablesFrame(v.pages, w.pages, k.m.ptlevels, k.kernel);
    EmptyRoot(w.pages, SpaceOf(k, w));
  }

  lemma EmptyRoot(pages: Pages, s: Space)
    requires s.nodes == map[s.root := []] && s.levels > 1 && s.root in pages && s.root !in s.kernel
    requires KernelTables(pages, s.levels, s.kernel) && forall i: nat :: i < |pages[s.root]| ==> pages[s.root][i] == 0
    ensures PageTree.Valid(pages, s)
    ensures forall path: seq<nat> :: |path| == s.levels ==> Lookup(pages, s.root, path) == 0
  {
  }

  // A present entry that is not the kernel's leads to a table of the tree.
  lemma ExistingChild(k: Setting, v: View, cur: nat, index: nat)
    requires Ok(k, v) && v.ptr != 0 && Upper(SpaceOf(k, v), cur) && index < |v.pages[cur]|
      && Present(v.pages[cur][index])
    requires cur == BaseOf(v.ptr) ==> Clear(k, v, index)
    ensures IsChild(v.pages, SpaceOf(k, v), cur, index, BaseOf(v.pages[cur][index]))
  {
  }
}
