// The pages below a table of a page-table tree, in the order in which teardown of
// abstract-machine/am/src/x86/qemu/vme.c meets them.

module Subtree {
  import opened PageEntry
  import opened PageTree

  // b and all tables below it.
  function Under(s: Space, b: nat): set<nat>
    requires b in s.nodes
  {
    set c | c in s.nodes && s.nodes[b] <= s.nodes[c]
  }

  predicate IsBelow(s: Space, b: nat, i: nat, c: nat)
    requires b in s.nodes && c in s.nodes
  {
    |s.nodes[b]| < |s.nodes[c]| && s.nodes[b] <= s.nodes[c] && s.nodes[c][|s.nodes[b]|] < i
  }

  // The tables below the first i entries of b.
  function Below(s: Space, b: nat, i: nat): set<nat>
    requires b in s.nodes
  {
    set c | c in s.nodes && IsBelow(s, b, i, c)
  }

  // An entry with P and U in an upper table is the tree's own.
  lemma UserEntryIsOwn(pages: Pages, s: Space, b: nat, i: nat)
    requires Valid(pages, s) && s.user && Upper(s, b) && i < |pages[b]| && Present(pages[b][i]) && User(pages[b][i])
    ensures IsChild(pages, s, b, i, BaseOf(pages[b][i]))
  {
  }

  // The next entry adds the tables under the table that it leads to.
  lemma BelowChild(pages: Pages, s: Space, b: nat, i: nat, c: nat)
    requires Valid(pages, s) && IsChild(pages, s, b, i, c)
    ensures Below(s, b, i + 1) == Below(s, b, i) + Under(s, c) && Below(s, b, i) !! Under(s, c)
    ensures Under(s, c) <= Under(s, b) && b !in Under(s, c)
  {
    var n := |s.nodes[b]|;
    forall x | x in s.nodes ensures x in Under(s, c) <==> IsBelow(s, b, i + 1, x) && !IsBelow(s, b, i, x) {
      if s.nodes[c] <= s.nodes[x] {
        assert s.nodes[x][..n] == s.nodes[x][..n + 1][..n] == s.nodes[b];
        assert s.nodes[x][n] == s.nodes[c][n];
      }
      if IsBelow(s, b, i + 1, x) && !IsBelow(s, b, i, x) {
        assert s.nodes[x][..n + 1] == s.nodes[x][..n] + [s.nodes[x][n]];
      }
    }
  }

  // Any other entry adds nothing.
  lemma BelowNothing(pages: Pages, s: Space, b: nat, i: nat)
    requires Valid(pages, s) && b in s.nodes && i < |pages[b]| && (Upper(s, b) ==> !Own(pages[b][i], s.user))
    ensures Below(s, b, i + 1) == Below(s, b, i)
  {
    forall c | c in s.nodes && IsBelow(s, b, i + 1, c) ensures IsBelow(s, b, i, c) {
      AncestorEntry(pages, s, b, c);
    }
  }

  lemma BelowAll(pages: Pages, s: Space, b: nat, size: nat)
    requires Valid(pages, s) && b in s.nodes && |pages[b]| == size
    ensures Under(s, b) == Below(s, b, size) + {b} && b !in Below(s, b, size)
  {
    forall c | c in Under(s, b) && c != b ensures IsBelow(s, b, size, c) {
      if |s.nodes[c]| == |s.nodes[b]| {
        PathsAreUnique(pages, s, b, c);
      } else {
        AncestorEntry(pages, s, b, c);
      }
    }
  }

  lemma UnderRoot(pages: Pages, s: Space)
    requires Valid(pages, s)
    ensures Under(s, s.root) == s.nodes.Keys
  {
  }

  lemma MultisetOfUnion(a: set<nat>, b: set<nat>)
    requires a !! b
    ensures multiset(a + b) == multiset(a) + multiset(b)
  {
  }
}
