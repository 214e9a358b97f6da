// Page tables as a radix tree in page memory: the hardware's walk, the shape that
// ptwalk and map keep, and what writing one word does to every walk.

module PageTree {
  import opened PageEntry

  // Page-table pages by address.
  type Pages = map<nat, seq<nat>>

  // A tree of tables: its pages with their index path from the root, whether it is built with
  // the user flag, and the kernel's tables (with their level) that its root may also enter.
  datatype Space = Space(levels: nat, root: nat, nodes: map<nat, seq<nat>>, user: bool, kpt: nat, kernel: map<nat, nat>)

  // Memory after storing v in word i of a page.
  function SetWord(pages: Pages, page: nat, i: nat, v: nat): Pages
    requires page in pages && i < |pages[page]|
  {
    var words: seq<nat> := pages[page][i := v];
    pages[page := words]
  }

  // The word at the end of the walk along `path` (one index for each level), or 0 if an
  // upper-level entry is not present. An upper-level entry with PS set ends the walk.
  function Lookup(pages: Pages, table: nat, path: seq<nat>): nat
    requires |path| > 0
    decreases |path|
  {
    if table !in pages || path[0] >= |pages[table]| then 0
    else
      var e := pages[table][path[0]];
      if |path| == 1 then e
      else if !Present(e) then 0
      else if Large(e) then e
      else Lookup(pages, BaseOf(e), path[1..])
  }

  // An upper-level entry that belongs to the tree, as opposed to one copied from the kernel. It
  // is open to writing, so that the last level alone decides.
  predicate Own(e: nat, user: bool) { Present(e) && Write(e) && User(e) == user && !Large(e) }

  ghost predicate IsChild(pages: Pages, s: Space, p: nat, i: nat, c: nat) {
    && p in s.nodes && p in pages && i < |pages[p]| && c in s.nodes && s.nodes[c] == s.nodes[p] + [i]
    && Own(pages[p][i], s.user) && BaseOf(pages[p][i]) == c
  }

  // b is a table whose entries point to tables.
  predicate Upper(s: Space, b: nat) { b in s.nodes && |s.nodes[b]| + 1 < s.levels }
  predicate Leaf(s: Space, b: nat) { b in s.nodes && |s.nodes[b]| + 1 == s.levels }

  // ---- the shape of a tree ----

  ghost predicate Valid(pages: Pages, s: Space) {
    && s.root in s.nodes && s.nodes[s.root] == []
    && (forall b :: b in s.nodes ==> b in pages && |s.nodes[b]| < s.levels)
    && OwnLead(pages, s) && HaveParents(pages, s) && OthersAreKernel(pages, s)
    && KernelTables(pages, s.levels, s.kernel) && s.nodes.Keys !! s.kernel.Keys
  }

  // An own entry leads to a page of the tree, at the path it stands for.
  ghost predicate OwnLead(pages: Pages, s: Space) {
    forall b, i: nat :: Upper(s, b) && b in pages && i < |pages[b]| && Own(pages[b][i], s.user) ==>
      IsChild(pages, s, b, i, BaseOf(pages[b][i]))
  }

  // Every page but the root is entered through an own entry.
  ghost predicate HaveParents(pages: Pages, s: Space) {
    forall c: nat :: HasParent(pages, s, c)
  }

  ghost predicate HasParent(pages: Pages, s: Space, c: nat) {
    c in s.nodes && c != s.root ==> exists p, i: nat :: IsChild(pages, s, p, i, c)
  }

  // Any other present entry is in the root, without the user flag, and copied from the kernel's root.
  ghost predicate OthersAreKernel(pages: Pages, s: Space) {
    forall b, i: nat :: Upper(s, b) && b in pages && i < |pages[b]| && Present(pages[b][i]) && !Own(pages[b][i],
      s.user) ==>
      FromKernel(pages, s, b, i, pages[b][i])
  }

  ghost predicate FromKernel(pages: Pages, s: Space, b: nat, i: nat, e: nat) {
    && s.user && b == s.root && !User(e)
    && s.kpt in s.kernel && s.kernel[s.kpt] == 0 && s.kpt in pages && i < |pages[s.kpt]| && e == pages[s.kpt][i]
  }

  // The tables shared by all address spaces lead only to each other.
  ghost predicate KernelTables(pages: Pages, levels: nat, kernel: map<nat, nat>) {
    && (forall b :: b in kernel ==> b in pages && kernel[b] < levels)
    && (forall b, i: nat ::
      b in kernel && i < |pages[b]| && kernel[b] + 1 < levels && Present(pages[b][i]) && !Large(pages[b][i]) ==>
          BaseOf(pages[b][i]) in kernel && kernel[BaseOf(pages[b][i])] == kernel[b] + 1)
  }

  ghost predicate SameOn(p: Pages, q: Pages, s: set<nat>) {
    forall b :: b in s ==> (b in p <==> b in q) && (b in p ==> p[b] == q[b])
  }

  // ---- paths identify pages ----

  lemma OnlyRootIsEmpty(pages: Pages, s: Space, b: nat)
    requires Valid(pages, s) && b in s.nodes
    ensures s.nodes[b] == [] <==> b == s.root
  {
    assert HasParent(pages, s, b);
    if b != s.root { var p, i: nat :| IsChild(pages, s, p, i, b); }
  }

  lemma {:induction false} PathsAreUnique(pages: Pages, s: Space, b: nat, c: nat)
    requires Valid(pages, s) && b in s.nodes && c in s.nodes && s.nodes[b] == s.nodes[c]
    ensures b == c
    decreases |s.nodes[b]|
  {
    OnlyRootIsEmpty(pages, s, b);
    OnlyRootIsEmpty(pages, s, c);
    assert HasParent(pages, s, b) && HasParent(pages, s, c);
    if b != s.root && c != s.root {
      var p, i: nat :| IsChild(pages, s, p, i, b);
      var q, j: nat :| IsChild(pages, s, q, j, c);
      var n := |s.nodes[b]| - 1;
      assert s.nodes[p] == s.nodes[b][..n] == s.nodes[q] && i == s.nodes[b][n] == j;
      PathsAreUnique(pages, s, p, q);
    }
  }

  // A page of the tree is reached through own entries of every page above it.
  lemma {:induction false} AncestorEntry(pages: Pages, s: Space, b: nat, c: nat)
    requires Valid(pages, s) && b in s.nodes && c in s.nodes
    requires |s.nodes[b]| < |s.nodes[c]| && s.nodes[b] == s.nodes[c][..|s.nodes[b]|]
    ensures exists d :: IsChild(pages, s, b, s.nodes[c][|s.nodes[b]|], d)
    decreases |s.nodes[c]|
  {
    assert HasParent(pages, s, c);
    var p, i: nat :| IsChild(pages, s, p, i, c);
    var n := |s.nodes[c]| - 1;
    assert s.nodes[p] == s.nodes[c][..n] && i == s.nodes[c][n];
    if |s.nodes[b]| == n {
      PathsAreUnique(pages, s, b, p);
    } else {
      assert s.nodes[b] == s.nodes[p][..|s.nodes[b]|];
      AncestorEntry(pages, s, b, p);
      assert s.nodes[p][|s.nodes[b]|] == s.nodes[c][|s.nodes[b]|];
    }
  }

  lemma ShiftPath(p: seq<nat>, path: seq<nat>)
    requires |path| > 0
    ensures p + path == (p + [path[0]]) + path[1..]
  {
  }

  // Two slots with the same full path are the same slot.
  lemma SamePathSameSlot(pages: Pages, s: Space, b: nat, i: nat, c: nat, j: nat)
    requires Valid(pages, s) && b in s.nodes && c in s.nodes && |s.nodes[b]| == |s.nodes[c]|
    ensures s.nodes[b] + [i] == s.nodes[c] + [j] <==> b == c && i == j
  {
    if s.nodes[b] + [i] == s.nodes[c] + [j] {
      var n := |s.nodes[b]|;
      assert s.nodes[b] == (s.nodes[b] + [i])[..n] == s.nodes[c];
      assert i == (s.nodes[b] + [i])[n] == j;
      PathsAreUnique(pages, s, b, c);
    }
  }

  // The first step towards an existing page is an own entry.
  lemma FirstStep(pages: Pages, s: Space, b: nat, path: seq<nat>, c: nat, i: nat)
    requires Valid(pages, s) && b in s.nodes && c in s.nodes && |path| > 1 && s.nodes[b] + path == s.nodes[c] + [i]
    ensures path[0] < |pages[b]| && Own(pages[b][path[0]], s.user)
  {
    var n := |s.nodes[b]|;
    assert s.nodes[b] == (s.nodes[b] + path)[..n] == s.nodes[c][..n];
    assert path[0] == (s.nodes[b] + path)[n] == s.nodes[c][n];
    AncestorEntry(pages, s, b, c);
  }

  // Where a walk goes after one step from a page of the tree.
  lemma StepFrom(pages: Pages, s: Space, b: nat, i: nat)
    requires s.root in s.nodes && s.nodes[s.root] == []
    requires OwnLead(pages, s) && OthersAreKernel(pages, s) && KernelTables(pages, s.levels, s.kernel)
    requires Upper(s, b) && b in pages && i < |pages[b]| && Present(pages[b][i]) && !Large(pages[b][i])
    ensures IsChild(pages, s, b, i, BaseOf(pages[b][i]))
         || (!Own(pages[b][i], s.user) && BaseOf(pages[b][i]) in s.kernel && s.kernel[BaseOf(pages[b][i])] ==
           |s.nodes[b]| + 1)
  {
  }

  // ---- what walks depend on ----

  lemma {:induction false} KernelWalkKept(p: Pages, q: Pages, levels: nat, kernel: map<nat, nat>, table: nat,
      path: seq<nat>)
    requires KernelTables(p, levels, kernel) && SameOn(p, q, kernel.Keys)
    requires table in kernel && |path| > 0 && kernel[table] + |path| == levels
    ensures Lookup(q, table, path) == Lookup(p, table, path)
    decreases |path|
  {
    if |path| > 1 && path[0] < |p[table]| {
      var e := p[table][path[0]];
      if Present(e) && !Large(e) { KernelWalkKept(p, q, levels, kernel, BaseOf(e), path[1..]); }
    }
  }

  // A walk depends only on the pages of its own tree and on the kernel's.
  lemma {:induction false} WalkFrame(p: Pages, q: Pages, s: Space, b: nat, path: seq<nat>)
    requires Valid(p, s) && SameOn(p, q, s.nodes.Keys) && SameOn(p, q, s.kernel.Keys)
    requires b in s.nodes && |path| > 0 && |s.nodes[b]| + |path| == s.levels
    ensures Lookup(q, b, path) == Lookup(p, b, path)
    decreases |path|
  {
    if |path| > 1 && path[0] < |p[b]| && Present(p[b][path[0]]) && !Large(p[b][path[0]]) {
      var c := BaseOf(p[b][path[0]]);
      StepFrom(p, s, b, path[0]);
      if IsChild(p, s, b, path[0], c) {
        WalkFrame(p, q, s, c, path[1..]);
      } else {
        KernelWalkKept(p, q, s.levels, s.kernel, c, path[1..]);
      }
    }
  }

  // The shape depends only on the upper-level tables of the tree and on the kernel's tables.
  lemma ValidFrame(p: Pages, q: Pages, s: Space)
    requires Valid(p, s) && SameOn(p, q, s.kernel.Keys)
    requires forall b :: b in s.nodes ==> b in q && |q[b]| == |p[b]|
    requires forall b :: Upper(s, b) ==> q[b] == p[b]
    ensures Valid(q, s)
  {
    OwnFrame(p, q, s);
    ParentsFrame(p, q, s);
    OthersFrame(p, q, s);
  }

  lemma OwnFrame(p: Pages, q: Pages, s: Space)
    requires OwnLead(p, s) && s.nodes.Keys <= p.Keys && s.nodes.Keys <= q.Keys
    requires forall b :: Upper(s, b) ==> q[b] == p[b]
    ensures OwnLead(q, s)
  {
    forall b, i: nat | Upper(s, b) && b in q && i < |q[b]| && Own(q[b][i], s.user)
      ensures IsChild(q, s, b, i, BaseOf(q[b][i]))
    {
      assert IsChild(p, s, b, i, BaseOf(p[b][i]));
    }
  }

  lemma ParentsFrame(p: Pages, q: Pages, s: Space)
    requires HaveParents(p, s) && s.nodes.Keys <= p.Keys && s.nodes.Keys <= q.Keys
    requires forall b :: b in s.nodes ==> |s.nodes[b]| < s.levels
    requires forall b :: Upper(s, b) ==> q[b] == p[b]
    ensures HaveParents(q, s)
  {
    forall c: nat ensures HasParent(q, s, c) {
      assert HasParent(p, s, c);
      if c in s.nodes && c != s.root {
        var r, j: nat :| IsChild(p, s, r, j, c);
        assert |s.nodes[c]| == |s.nodes[r]| + 1;
        assert Upper(s, r);
        assert IsChild(q, s, r, j, c);
      }
    }
  }

  lemma OthersFrame(p: Pages, q: Pages, s: Space)
    requires OthersAreKernel(p, s) && s.nodes.Keys <= p.Keys && s.nodes.Keys <= q.Keys && SameOn(p, q, s.kernel.Keys)
    requires forall b :: Upper(s, b) ==> q[b] == p[b]
    ensures OthersAreKernel(q, s)
  {
  }

  // ---- writing a leaf word ----

  // Writing one word of a last-level table changes the walk along exactly one path.
  lemma {:induction false} LeafWrite(pages: Pages, s: Space, leaf: nat, i: nat, v: nat, b: nat, path: seq<nat>)
    requires Valid(pages, s) && Leaf(s, leaf) && i < |pages[leaf]|
    requires b in s.nodes && |path| > 0 && |s.nodes[b]| + |path| == s.levels
    ensures Lookup(SetWord(pages, leaf, i, v), b, path) ==
            if s.nodes[b] + path == s.nodes[leaf] + [i] then v else Lookup(pages, b, path)
    decreases |path|
  {
    if |path| == 1 {
      assert path == [path[0]];
      SamePathSameSlot(pages, s, b, path[0], leaf, i);
    } else {
      if s.nodes[b] + path == s.nodes[leaf] + [i] { FirstStep(pages, s, b, path, leaf, i); }
      if path[0] < |pages[b]| && Present(pages[b][path[0]]) && !Large(pages[b][path[0]]) {
        var c := BaseOf(pages[b][path[0]]);
        StepFrom(pages, s, b, path[0]);
        if IsChild(pages, s, b, path[0], c) {
          ShiftPath(s.nodes[b], path);
          LeafWrite(pages, s, leaf, i, v, c, path[1..]);
        } else {
          KernelWalkKept(pages, SetWord(pages, leaf, i, v), s.levels, s.kernel, c, path[1..]);
        }
      }
    }
  }

  lemma LeafWriteKeepsValid(pages: Pages, s: Space, leaf: nat, i: nat, v: nat)
    requires Valid(pages, s) && Leaf(s, leaf) && i < |pages[leaf]|
    ensures Valid(SetWord(pages, leaf, i, v), s)
  {
    ValidFrame(pages, SetWord(pages, leaf, i, v), s);
  }

  // ---- adding a table ----

  function ZeroPage(size: nat): (z: seq<nat>)
    ensures |z| == size && forall i :: 0 <= i < size ==> z[i] == 0
  {
    seq(size, _ => 0)
  }

  // Word i of table p, until now not present, becomes an own entry e for a page not in use.
  ghost predicate CanLink(pages: Pages, s: Space, p: nat, i: nat, e: nat) {
    Upper(s, p) && p in pages && i < |pages[p]| && !Present(pages[p][i]) && BaseOf(e) !in pages && Own(e, s.user)
  }

  function Link(pages: Pages, p: nat, i: nat, e: nat, size: nat): Pages
    requires p in pages && i < |pages[p]|
  {
    SetWord(pages, p, i, e)[BaseOf(e) := ZeroPage(size)]
  }

  function Linked(s: Space, p: nat, i: nat, e: nat): Space
    requires p in s.nodes
  {
    s.(nodes := s.nodes[BaseOf(e) := s.nodes[p] + [i]])
  }

  lemma LinkKeepsParents(pages: Pages, s: Space, p: nat, i: nat, e: nat, size: nat)
    requires HaveParents(pages, s) && CanLink(pages, s, p, i, e) && s.nodes.Keys <= pages.Keys
    ensures HaveParents(Link(pages, p, i, e, size), Linked(s, p, i, e))
  {
    var pages', s' := Link(pages, p, i, e, size), Linked(s, p, i, e);
    forall c: nat ensures HasParent(pages', s', c) {
      assert HasParent(pages, s, c);
      if c == BaseOf(e) {
        assert IsChild(pages', s', p, i, c);
      } else if c in s.nodes && c != s.root {
        var q, j: nat :| IsChild(pages, s, q, j, c);
        assert IsChild(pages', s', q, j, c);
      }
    }
  }

  lemma LinkKeepsOwn(pages: Pages, s: Space, p: nat, i: nat, e: nat, size: nat)
    requires OwnLead(pages, s) && CanLink(pages, s, p, i, e) && s.nodes.Keys <= pages.Keys
    ensures OwnLead(Link(pages, p, i, e, size), Linked(s, p, i, e))
  {
    var pages', s' := Link(pages, p, i, e, size), Linked(s, p, i, e);
    forall b, j: nat | Upper(s', b) && b in pages' && j < |pages'[b]| && Own(pages'[b][j], s.user)
      ensures IsChild(pages', s', b, j, BaseOf(pages'[b][j]))
    {
      if b != p || j != i { assert IsChild(pages, s, b, j, BaseOf(pages[b][j])); }
    }
  }

  lemma LinkKeepsOthers(pages: Pages, s: Space, p: nat, i: nat, e: nat, size: nat)
    requires OthersAreKernel(pages, s) && CanLink(pages, s, p, i, e) && s.nodes.Keys <= pages.Keys
      && s.nodes.Keys !! s.kernel.Keys
    ensures OthersAreKernel(Link(pages, p, i, e, size), Linked(s, p, i, e))
  {
    var pages', s' := Link(pages, p, i, e, size), Linked(s, p, i, e);
    forall b, j: nat | Upper(s', b) && b in pages' && j < |pages'[b]| && Present(pages'[b][j])
      && !Own(pages'[b][j], s.user)
      ensures FromKernel(pages', s', b, j, pages'[b][j])
    {
      assert b != BaseOf(e) && (b != p || j != i);
      assert Upper(s, b) && pages'[b][j] == pages[b][j];
      assert FromKernel(pages, s, b, j, pages[b][j]);
    }
  }

  lemma LinkKeepsValid(pages: Pages, s: Space, p: nat, i: nat, e: nat, size: nat)
    requires Valid(pages, s) && CanLink(pages, s, p, i, e)
    ensures Valid(Link(pages, p, i, e, size), Linked(s, p, i, e))
  {
    LinkKeepsOwn(pages, s, p, i, e, size);
    LinkKeepsParents(pages, s, p, i, e, size);
    LinkKeepsOthers(pages, s, p, i, e, size);
  }

  // No walk changes: the new table is empty, so what was missing is still missing.
  lemma {:induction false} LinkKeepsWalks(pages: Pages, s: Space, p: nat, i: nat, e: nat, size: nat, b: nat,
      path: seq<nat>)
    requires Valid(pages, s) && CanLink(pages, s, p, i, e)
    requires b in s.nodes && |path| > 0 && |s.nodes[b]| + |path| == s.levels
    ensures Lookup(Link(pages, p, i, e, size), b, path) == Lookup(pages, b, path)
    decreases |path|
  {
    var pages' := Link(pages, p, i, e, size);
    if |path| > 1 && path[0] < |pages[b]| {
      if b == p && path[0] == i {
        assert Lookup(pages', BaseOf(e), path[1..]) == 0;
      } else if Present(pages[b][path[0]]) && !Large(pages[b][path[0]]) {
        var c := BaseOf(pages[b][path[0]]);
        StepFrom(pages, s, b, path[0]);
        if IsChild(pages, s, b, path[0], c) {
          LinkKeepsWalks(pages, s, p, i, e, size, c, path[1..]);
        } else {
          KernelWalkKept(pages, pages', s.levels, s.kernel, c, path[1..]);
        }
      }
    }
  }
}
