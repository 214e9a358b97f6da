// Address spaces of abstract-machine/am/src/native/vme.c: a list of pages for each space, and the
// host's mappings, which must follow the list of the space that is current.

module NativeVme {
  // Objects by address; 0 is NULL.
  datatype PageMap = PageMap(va: nat, pa: nat, next: nat, prot: nat, isMapped: bool)
  datatype VMHead = VMHead(head: nat, hash: map<nat, nat>, nrPage: nat)
  datatype Mapping = Mapping(pa: nat, prot: nat)

  const START: nat := 0x4000_0000
  const END: nat := 0xc000_0000
  const PGSIZE: nat := 4096

  predicate InUser(va: nat) { START <= va < END }

  type Nodes = map<nat, PageMap>

  function At(l: seq<nat>, i: nat): nat { if i < |l| then l[i] else 0 }

  // From `head`, next runs through l and ends.
  ghost predicate IsList(nodes: Nodes, head: nat, l: seq<nat>) {
    && head == At(l, 0) && 0 !in l
    && (forall i, j :: 0 <= i < j < |l| ==> l[i] != l[j])
    && forall i: nat {:trigger l[i]} :: i < |l| ==> l[i] in nodes && nodes[l[i]].next == At(l, i + 1)
  }

  // The table finds exactly the pages of the list, by their addresses.
  ghost predicate HashOk(nodes: Nodes, h: VMHead, l: seq<nat>) {
    && h.nrPage == |l|
    && (forall va :: va in h.hash ==>
      h.hash[va] in l && h.hash[va] in nodes && nodes[h.hash[va]].va == va && InUser(va))
    && (forall n :: n in l && n in nodes ==> nodes[n].va in h.hash && h.hash[nodes[n].va] == n)
  }

  ghost predicate HeadOk(nodes: Nodes, h: VMHead, l: seq<nat>) { IsList(nodes, h.head, l) && HashOk(nodes, h, l) }

  // is_mapped is true exactly for the pages of the current space ...
  ghost predicate FlagsOk(nodes: Nodes, l: seq<nat>, mapped: bool) {
    forall n :: n in l && n in nodes ==> nodes[n].isMapped == mapped
  }

  // ... and they are what the host has installed.
  ghost predicate InstalledOk(installed: map<nat, Mapping>, nodes: Nodes, h: VMHead) {
    && (forall va :: va in installed <==> va in h.hash)
    && (forall va :: va in installed && va in h.hash && h.hash[va] in nodes ==>
          installed[va] == Mapping(nodes[h.hash[va]].pa, nodes[h.hash[va]].prot))
  }

  ghost predicate SpaceOk(nodes: Nodes, h: VMHead, l: seq<nat>, owner: map<nat, nat>, id: nat, now: nat) {
    && HeadOk(nodes, h, l) && FlagsOk(nodes, l, id == now) && (forall n :: n in l ==> n in owner && owner[n] == id)
  }

  // A list that nothing else refers to is not disturbed by changes to other nodes.
  lemma SpaceKept(p: Nodes, q: Nodes, h: VMHead, l: seq<nat>, o: map<nat, nat>, o': map<nat, nat>, id: nat, now: nat,
      now': nat)
    requires SpaceOk(p, h, l, o, id, now) && (forall n :: n in l ==> n in q && q[n] == p[n])
    requires (forall n :: n in l ==> n in o' && o'[n] == id) && (id == now <==> id == now')
    ensures SpaceOk(q, h, l, o', id, now')
  {
  }

  // ---- map: the first mapping of an address, and a second one ----

  lemma Pushed(nodes: Nodes, h: VMHead, l: seq<nat>, pp: nat, page: PageMap)
    requires HeadOk(nodes, h, l) && pp != 0 && pp !in nodes && page.va !in h.hash && InUser(page.va)
      && page.next == h.head
    ensures HeadOk(nodes[pp := page], VMHead(pp, h.hash[page.va := pp], h.nrPage + 1), [pp] + l)
  {
    PushedList(nodes, h.head, l, pp, page);
    PushedHash(nodes, h, l, pp, page);
  }

  lemma PushedList(nodes: Nodes, head: nat, l: seq<nat>, pp: nat, page: PageMap)
    requires IsList(nodes, head, l) && pp != 0 && pp !in nodes && page.next == head
    ensures IsList(nodes[pp := page], pp, [pp] + l)
  {
    var l' := [pp] + l;
    forall i: nat | i < |l'| ensures l'[i] in nodes[pp := page] && nodes[pp := page][l'[i]].next == At(l', i + 1) {
      if i > 0 { assert l'[i] == l[i - 1]; }
    }
  }

  lemma PushedHash(nodes: Nodes, h: VMHead, l: seq<nat>, pp: nat, page: PageMap)
    requires HashOk(nodes, h, l) && (forall n :: n in l ==>
      n in nodes) && pp !in nodes && page.va !in h.hash && InUser(page.va)
    ensures HashOk(nodes[pp := page], VMHead(pp, h.hash[page.va := pp], h.nrPage + 1), [pp] + l)
  {
  }

  // A cycle: from pp through `before` back to pp.
  ghost predicate Cycle(nodes: Nodes, before: seq<nat>, pp: nat) {
    && pp in nodes && pp != 0 && nodes[pp].next == (if before == [] then pp else before[0])
    && forall j: nat :: j < |before| ==> LeadsOn(nodes, before, pp, j)
  }

  ghost predicate LeadsOn(nodes: Nodes, before: seq<nat>, pp: nat, j: nat)
    requires j < |before|
  {
    before[j] in nodes && before[j] != 0 && nodes[before[j]].next == (if j + 1 < |before| then before[j + 1] else pp)
  }

  ghost predicate Endless(nodes: Nodes, head: nat) { forall l: seq<nat> :: !IsList(nodes, head, l) }

  // No walk along a cycle ends.
  lemma {:induction false} NoEnd(nodes: Nodes, before: seq<nat>, pp: nat, i: nat, l: seq<nat>)
    requires Cycle(nodes, before, pp) && i <= |before|
    ensures !IsList(nodes, if i < |before| then before[i] else pp, l)
    decreases |l|
  {
    var head := if i < |before| then before[i] else pp;
    if i < |before| { assert LeadsOn(nodes, before, pp, i); }
    if IsList(nodes, head, l) {
      ListTail(nodes, head, l);
      NoEnd(nodes, before, pp, if i < |before| then i + 1 else 0, l[1..]);
    }
  }

  lemma ListTail(nodes: Nodes, head: nat, l: seq<nat>)
    requires IsList(nodes, head, l) && head != 0
    ensures l != [] && head in nodes && IsList(nodes, nodes[head].next, l[1..])
  {
    var t := l[1..];
    forall i: nat | i < |t| ensures t[i] in nodes && nodes[t[i]].next == At(t, i + 1) { assert t[i] == l[i + 1]; }
  }

  // Linked in a second time, a page closes a cycle.
  lemma Relinked(nodes: Nodes, h: VMHead, l: seq<nat>, k: nat, page: PageMap)
    requires HeadOk(nodes, h, l) && k < |l| && page.next == h.head
    ensures Endless(nodes[l[k] := page], l[k])
  {
    var q, before := nodes[l[k] := page], l[..k];
    forall j: nat | j < |before| ensures LeadsOn(q, before, l[k], j) { assert before[j] == l[j] && l[j] != l[k]; }
    assert before != [] ==> before[0] == l[0];
    forall l': seq<nat> ensures !IsList(q, l[k], l') { NoEnd(q, before, l[k], k, l'); }
  }

  // ---- all spaces ----

  datatype Host = Host(nodes: Nodes, heads: map<nat, VMHead>, now: nat, installed: map<nat, Mapping>)

  ghost predicate Shape(w: Host, lists: map<nat, seq<nat>>, owner: map<nat, nat>) {
    && 0 !in w.heads && lists.Keys == w.heads.Keys && (w.now != 0 ==> w.now in w.heads) && forall n :: n in owner ==>
      n in w.nodes
  }

  ghost predicate AllSpaces(w: Host, lists: map<nat, seq<nat>>, owner: map<nat, nat>) {
    forall id :: id in w.heads && id in lists ==> SpaceOk(w.nodes, w.heads[id], lists[id], owner, id, w.now)
  }

  ghost predicate NowInstalled(w: Host) {
    if w.now == 0 || w.now !in w.heads then w.installed == map[] else InstalledOk(w.installed, w.nodes, w.heads[w.now])
  }

  ghost predicate Inv(w: Host, lists: map<nat, seq<nat>>, owner: map<nat, nat>) {
    Shape(w, lists, owner) && AllSpaces(w, lists, owner) && NowInstalled(w)
  }

  // Changes to the pages of one space leave the others as they are.
  lemma OthersKept(w: Host, w': Host, lists: map<nat, seq<nat>>, owner: map<nat, nat>, owner': map<nat, nat>, h: nat,
      id: nat)
    requires Inv(w, lists, owner) && id in w.heads && id in w'.heads && id != h && w'.heads[id] == w.heads[id]
    requires forall n :: n in w.nodes && (n !in owner || owner[n] != h) ==> n in w'.nodes && w'.nodes[n] == w.nodes[n]
    requires forall n :: n in owner ==> n in owner' && owner'[n] == owner[n]
    requires id == w.now <==> id == w'.now
    ensures SpaceOk(w'.nodes, w'.heads[id], lists[id], owner', id, w'.now)
  {
    SpaceKept(w.nodes, w'.nodes, w.heads[id], lists[id], owner, owner', id, w.now, w'.now);
  }

  // ---- protect ----

  function Protected(w: Host, h: nat): Host { w.(heads := w.heads[h := VMHead(0, map[], 0)]) }

  lemma EmptySpace(nodes: Nodes, owner: map<nat, nat>, h: nat, now: nat)
    ensures SpaceOk(nodes, VMHead(0, map[], 0), [], owner, h, now)
  {
  }

  lemma ProtectSpaces(w: Host, lists: map<nat, seq<nat>>, owner: map<nat, nat>, h: nat)
    requires AllSpaces(w, lists, owner) && h !in w.heads && h !in lists
    ensures AllSpaces(Protected(w, h), lists[h := []], owner)
  {
    EmptySpace(w.nodes, owner, h, w.now);
  }

  lemma ProtectKeeps(w: Host, lists: map<nat, seq<nat>>, owner: map<nat, nat>, h: nat)
    requires Inv(w, lists, owner) && h != 0 && h !in w.heads
    ensures Inv(Protected(w, h), lists[h := []], owner)
  {
    ProtectSpaces(w, lists, owner, h);
  }

  // ---- the end of map: the page is filled in, put first and, in the current space, installed ----

  method Linked(w: Host, h: nat, head: VMHead, pp: nat, va: nat, pa: nat, prot: nat) returns (v: Host)
    ensures v.nodes == w.nodes[pp := PageMap(va, pa, head.head, prot, h == w.now)] && v.now == w.now
    ensures v.heads == w.heads[h := head.(head := pp)]
    ensures v.installed == if h == w.now then w.installed[va := Mapping(pa, prot)] else w.installed
  {
    var page := PageMap(va, pa, head.head, prot, false);
    v := w.(heads := w.heads[h := head.(head := pp)]);
    if h == w.now {
      v := v.(installed := v.installed[va := Mapping(pa, prot)]);
      page := page.(isMapped := true);
    }
    v := v.(nodes := v.nodes[pp := page]);
  }

  // ---- map of an address that is new to the space ----

  function Mapped(w: Host, h: nat, page: nat, va: nat, pa: nat, prot: nat): Host
    requires h in w.heads
  {
    var head := w.heads[h];
    Host(w.nodes[page := PageMap(va, pa, head.head, prot, h == w.now)],
         w.heads[h := VMHead(page, head.hash[va := page], head.nrPage + 1)], w.now,
         if h == w.now then w.installed[va := Mapping(pa, prot)] else w.installed)
  }

  // The space that gets the page.
  lemma NewFlags(nodes: Nodes, l: seq<nat>, page: nat, p: PageMap, mapped: bool)
    requires FlagsOk(nodes, l, mapped) && page !in l && p.isMapped == mapped
    ensures FlagsOk(nodes[page := p], [page] + l, mapped)
  {
  }

  lemma NewPage(w: Host, l: seq<nat>, owner: map<nat, nat>, h: nat, page: nat, va: nat, pa: nat, prot: nat)
    requires h in w.heads && SpaceOk(w.nodes, w.heads[h], l, owner, h, w.now)
    requires va !in w.heads[h].hash && InUser(va) && page != 0 && page !in w.nodes
    ensures var w' := Mapped(w, h, page, va, pa, prot);
      SpaceOk(w'.nodes, w'.heads[h], [page] + l, owner[page := h], h, w.now)
  {
    NewFlags(w.nodes, l, page, PageMap(va, pa, w.heads[h].head, prot, h == w.now), h == w.now);
    Pushed(w.nodes, w.heads[h], l, page, PageMap(va, pa, w.heads[h].head, prot, h == w.now));
  }

  // What the host has installed.
  lemma NewMapping(w: Host, l: seq<nat>, h: nat, page: nat, va: nat, pa: nat, prot: nat)
    requires w.now != 0 && w.now in w.heads && h in w.heads && InstalledOk(w.installed, w.nodes, w.heads[w.now])
    requires HashOk(w.nodes, w.heads[w.now], l) && page !in w.nodes && va !in w.heads[h].hash
    ensures var w' := Mapped(w, h, page, va, pa, prot); InstalledOk(w'.installed, w'.nodes, w'.heads[w.now])
  {
  }

  lemma MapSpaces(w: Host, lists: map<nat, seq<nat>>, owner: map<nat, nat>, h: nat, page: nat, va: nat, pa: nat,
      prot: nat)
    requires Inv(w, lists, owner) && h in w.heads && va !in w.heads[h].hash && InUser(va) && page != 0
      && page !in w.nodes
    ensures AllSpaces(Mapped(w, h, page, va, pa, prot), lists[h := [page] + lists[h]], owner[page := h])
  {
    var w' := Mapped(w, h, page, va, pa, prot);
    NewPage(w, lists[h], owner, h, page, va, pa, prot);
    forall id | id in w.heads && id != h
      ensures SpaceOk(w'.nodes, w'.heads[id], lists[id], owner[page := h], id, w'.now)
    {
      OthersKept(w, w', lists, owner, owner[page := h], h, id);
    }
  }

  lemma MapInstalls(w: Host, lists: map<nat, seq<nat>>, owner: map<nat, nat>, h: nat, page: nat, va: nat, pa: nat,
      prot: nat)
    requires Inv(w, lists, owner) && h in w.heads && va !in w.heads[h].hash && page !in w.nodes
    ensures NowInstalled(Mapped(w, h, page, va, pa, prot))
  {
    if w.now != 0 {
      assert SpaceOk(w.nodes, w.heads[w.now], lists[w.now], owner, w.now, w.now);
      NewMapping(w, lists[w.now], h, page, va, pa, prot);
    }
  }

  lemma MapKeeps(w: Host, lists: map<nat, seq<nat>>, owner: map<nat, nat>, h: nat, page: nat, va: nat, pa: nat,
      prot: nat)
    requires Inv(w, lists, owner) && h in w.heads && va !in w.heads[h].hash && InUser(va) && page != 0
      && page !in w.nodes
    ensures Inv(Mapped(w, h, page, va, pa, prot), lists[h := [page] + lists[h]], owner[page := h])
  {
    MapSpaces(w, lists, owner, h, page, va, pa, prot);
    MapInstalls(w, lists, owner, h, page, va, pa, prot);
  }

  // ---- __am_switch ----

  // The first k pages of a list have been unmapped, or mapped.
  ghost predicate Flagged(p: Nodes, q: Nodes, l: seq<nat>, k: nat, flag: bool)
    requires k <= |l|
  {
    && q.Keys == p.Keys
    && forall n :: n in p ==> n in q && q[n] == (if n in l[..k] then p[n].(isMapped := flag) else p[n])
  }

  lemma FlagNext(p: Nodes, q: Nodes, l: seq<nat>, k: nat, flag: bool)
    requires k < |l| && Flagged(p, q, l, k, flag) && l[k] in q
    ensures Flagged(p, q[l[k] := q[l[k]].(isMapped := flag)], l, k + 1, flag)
  {
    assert l[..k + 1] == l[..k] + [l[k]];
  }

  // Flags are not links: lists and tables stay.
  lemma FlagsKeepHead(p: Nodes, q: Nodes, l: seq<nat>, k: nat, flag: bool, h: VMHead, l': seq<nat>)
    requires k <= |l| && Flagged(p, q, l, k, flag) && HeadOk(p, h, l')
    ensures HeadOk(q, h, l')
  {
  }

  // What is installed while the pages of a list are unmapped one by one.
  ghost predicate Unmapped(a: map<nat, Mapping>, b: map<nat, Mapping>, nodes: Nodes, l: seq<nat>, k: nat)
    requires k <= |l|
  {
    forall va :: va in b <==> va in a && forall j :: 0 <= j < k && l[j] in nodes ==> nodes[l[j]].va != va
  }

  // The first loop: every page of the list that is mapped is unmapped.
  method UnmapAll(w: Host, h: VMHead, ghost l: seq<nat>) returns (v: Host)
    requires HeadOk(w.nodes, h, l) && FlagsOk(w.nodes, l, true) && InstalledOk(w.installed, w.nodes, h)
    ensures v == w.(nodes := v.nodes, installed := map[]) && Flagged(w.nodes, v.nodes, l, |l|, false)
  {
    v := w;
    var pp := h.head;
    ghost var k := 0;
    while pp != 0
      invariant 0 <= k <= |l| && pp == At(l, k) && v == w.(nodes := v.nodes, installed := v.installed)
      invariant Flagged(w.nodes, v.nodes, l, k, false) && Unmapped(w.installed, v.installed, w.nodes, l, k)
      decreases |l| - k
    {
      Unmap(w, v, l, k);
      if v.nodes[pp].isMapped {
        v := v.(installed := v.installed - {v.nodes[pp].va}, nodes := v.nodes[pp := v.nodes[pp].(isMapped := false)]);
      }
      pp := v.nodes[pp].next;
      k := k + 1;
    }
    NothingLeft(w, h, l, v.installed);
  }

  // What one round of the first loop finds and leaves.
  lemma Unmap(w: Host, v: Host, l: seq<nat>, k: nat)
    requires k < |l| && (forall i, j :: 0 <= i < j < |l| ==> l[i] != l[j]) && l[k] in w.nodes && w.nodes[l[k]].isMapped
    requires Flagged(w.nodes, v.nodes, l, k, false) && Unmapped(w.installed, v.installed, w.nodes, l, k)
    ensures l[k] in v.nodes && v.nodes[l[k]] == w.nodes[l[k]]
    ensures Flagged(w.nodes, v.nodes[l[k] := v.nodes[l[k]].(isMapped := false)], l, k + 1, false)
    ensures Unmapped(w.installed, v.installed - {v.nodes[l[k]].va}, w.nodes, l, k + 1)
  {
    assert l[k] !in l[..k];
    FlagNext(w.nodes, v.nodes, l, k, false);
  }

  lemma NothingLeft(w: Host, h: VMHead, l: seq<nat>, b: map<nat, Mapping>)
    requires HeadOk(w.nodes, h, l) && InstalledOk(w.installed, w.nodes, h) && Unmapped(w.installed, b, w.nodes, l, |l|)
    ensures b == map[]
  {
    forall va ensures va !in b {
      if va in w.installed {
        var j :| 0 <= j < |l| && l[j] == h.hash[va];
      }
    }
  }

  ghost predicate HasPage(nodes: Nodes, l: seq<nat>, k: nat, va: nat)
    requires k <= |l|
  {
    exists j :: 0 <= j < k && l[j] in nodes && nodes[l[j]].va == va
  }

  ghost predicate Installing(b: map<nat, Mapping>, nodes: Nodes, l: seq<nat>, k: nat)
    requires k <= |l|
  {
    && (forall va :: va in b ==> HasPage(nodes, l, k, va))
    && (forall j :: 0 <= j < k && l[j] in nodes ==>
      nodes[l[j]].va in b && b[nodes[l[j]].va] == Mapping(nodes[l[j]].pa, nodes[l[j]].prot))
  }

  // The second loop: every page of the list is mapped.
  method MapAll(w: Host, h: VMHead, ghost l: seq<nat>) returns (v: Host)
    requires HeadOk(w.nodes, h, l) && w.installed == map[]
    ensures v == w.(nodes := v.nodes, installed := v.installed) && Flagged(w.nodes, v.nodes, l, |l|, true)
    ensures InstalledOk(v.installed, v.nodes, h)
  {
    v := w;
    var pp := h.head;
    ghost var k := 0;
    while pp != 0
      invariant 0 <= k <= |l| && pp == At(l, k) && v == w.(nodes := v.nodes, installed := v.installed)
      invariant Flagged(w.nodes, v.nodes, l, k, true) && Installing(v.installed, w.nodes, l, k)
      decreases |l| - k
    {
      assert l[k] == pp && pp !in l[..k];
      FlagNext(w.nodes, v.nodes, l, k, true);
      InstallNext(v.installed, w.nodes, h, l, k);
      v := v.(installed := v.installed[v.nodes[pp].va := Mapping(v.nodes[pp].pa, v.nodes[pp].prot)],
              nodes := v.nodes[pp := v.nodes[pp].(isMapped := true)]);
      pp := v.nodes[pp].next;
      k := k + 1;
    }
    AllInstalled(w.nodes, v.nodes, h, l, v.installed);
  }

  lemma InstallNext(b: map<nat, Mapping>, nodes: Nodes, h: VMHead, l: seq<nat>, k: nat)
    requires k < |l| && HeadOk(nodes, h, l) && Installing(b, nodes, l, k)
    ensures var p := nodes[l[k]]; Installing(b[p.va := Mapping(p.pa, p.prot)], nodes, l, k + 1)
  {
    DistinctPages(nodes, h, l, k);
    OnePageMore(b, nodes, l, k);
  }

  lemma OnePageMore(b: map<nat, Mapping>, nodes: Nodes, l: seq<nat>, k: nat)
    requires k < |l| && l[k] in nodes && Installing(b, nodes, l, k)
    requires forall j :: 0 <= j < k && l[j] in nodes ==> nodes[l[j]].va != nodes[l[k]].va
    ensures Installing(b[nodes[l[k]].va := Mapping(nodes[l[k]].pa, nodes[l[k]].prot)], nodes, l, k + 1)
  {
    var p := nodes[l[k]];
    var c := b[p.va := Mapping(p.pa, p.prot)];
    forall va | va in c ensures HasPage(nodes, l, k + 1, va) {
      if va == p.va { assert nodes[l[k]].va == va; } else { assert HasPage(nodes, l, k, va); }
    }
  }

  lemma DistinctPages(nodes: Nodes, h: VMHead, l: seq<nat>, k: nat)
    requires k < |l| && HeadOk(nodes, h, l)
    ensures l[k] in nodes && forall j :: 0 <= j < k && l[j] in nodes ==> nodes[l[j]].va != nodes[l[k]].va
  {
    forall j | 0 <= j < k && l[j] in nodes ensures nodes[l[j]].va != nodes[l[k]].va {
      assert l[j] in l && l[k] in l;
    }
  }

  lemma AllInstalled(p: Nodes, q: Nodes, h: VMHead, l: seq<nat>, b: map<nat, Mapping>)
    requires HeadOk(p, h, l) && Installing(b, p, l, |l|) && Flagged(p, q, l, |l|, true)
    ensures InstalledOk(b, q, h)
  {
    forall va | va in h.hash ensures va in b && b[va] == Mapping(p[h.hash[va]].pa, p[h.hash[va]].prot) {
      var j :| 0 <= j < |l| && l[j] == h.hash[va];
    }
    forall va | va in b ensures va in h.hash {
      assert HasPage(p, l, |l|, va);
      var j :| 0 <= j < |l| && l[j] in p && p[l[j]].va == va;
      assert l[j] in l;
    }
  }

  // ---- the plain map that a space stands for ----

  // What map was given for the addresses of space id.
  function MapOf(w: Host, id: nat): map<nat, Mapping>
    requires id in w.heads
  {
    var h := w.heads[id];
    map va | va in h.hash && h.hash[va] in w.nodes :: Mapping(w.nodes[h.hash[va]].pa, w.nodes[h.hash[va]].prot)
  }

  // The pages of q are those of p, apart from is_mapped.
  ghost predicate OnlyFlags(p: Nodes, q: Nodes) {
    q.Keys == p.Keys && forall n :: n in p && n in q ==> q[n] == p[n].(isMapped := q[n].isMapped)
  }

  ghost predicate SameMaps(w: Host, v: Host, but: set<nat>) {
    forall id :: id in w.heads && id !in but ==> id in v.heads && MapOf(v, id) == MapOf(w, id)
  }

  lemma FlagsKeepMaps(w: Host, v: Host)
    requires OnlyFlags(w.nodes, v.nodes) && v.heads == w.heads
    ensures SameMaps(w, v, {})
  {
    forall id | id in w.heads ensures MapOf(v, id) == MapOf(w, id) {
      assert forall n :: n in w.nodes ==> v.nodes[n].pa == w.nodes[n].pa && v.nodes[n].prot == w.nodes[n].prot;
    }
  }

  lemma FlaggedIsOnlyFlags(p: Nodes, q: Nodes, l: seq<nat>, flag: bool)
    requires Flagged(p, q, l, |l|, flag)
    ensures OnlyFlags(p, q)
  {
  }

  lemma OnlyFlagsTrans(p: Nodes, q: Nodes, r: Nodes)
    requires OnlyFlags(p, q) && OnlyFlags(q, r)
    ensures OnlyFlags(p, r)
  {
    forall n | n in p && n in r ensures r[n] == p[n].(isMapped := r[n].isMapped) {
      assert n in q && q[n] == p[n].(isMapped := q[n].isMapped);
    }
  }

  // map adds one entry to one space.
  lemma MappedMeans(w: Host, lists: map<nat, seq<nat>>, owner: map<nat, nat>, h: nat, page: nat, va: nat, pa: nat,
                    prot: nat)
    requires Inv(w, lists, owner) && h in w.heads && va !in w.heads[h].hash && page !in w.nodes
    ensures var v := Mapped(w, h, page, va, pa, prot);
      MapOf(v, h) == MapOf(w, h)[va := Mapping(pa, prot)] && SameMaps(w, v, {h})
  {
    hide MapOf, Inv;
    var v := Mapped(w, h, page, va, pa, prot);
    HashFinds(w, lists, owner, h);
    MapGains(w, v, h, page, va, pa, prot);
    forall id | id in w.heads && id != h ensures MapOf(v, id) == MapOf(w, id) {
      HashFinds(w, lists, owner, id);
      MapStays(w, v, id);
    }
  }

  lemma HashFinds(w: Host, lists: map<nat, seq<nat>>, owner: map<nat, nat>, id: nat)
    requires Inv(w, lists, owner) && id in w.heads
    ensures forall va :: va in w.heads[id].hash ==> w.heads[id].hash[va] in w.nodes
  {
    assert SpaceOk(w.nodes, w.heads[id], lists[id], owner, id, w.now);
  }

  lemma MapGains(w: Host, v: Host, h: nat, page: nat, va: nat, pa: nat, prot: nat)
    requires h in w.heads && h in v.heads && page !in w.nodes && v.heads[h].hash == w.heads[h].hash[va := page]
    requires forall a :: a in w.heads[h].hash ==> w.heads[h].hash[a] in w.nodes
    requires page in v.nodes && v.nodes[page].pa == pa && v.nodes[page].prot == prot
    requires forall n :: n in w.nodes ==> n in v.nodes && v.nodes[n] == w.nodes[n]
    ensures MapOf(v, h) == MapOf(w, h)[va := Mapping(pa, prot)]
  {
  }

  lemma MapStays(w: Host, v: Host, id: nat)
    requires id in w.heads && id in v.heads && v.heads[id] == w.heads[id]
    requires forall a :: a in w.heads[id].hash ==> w.heads[id].hash[a] in w.nodes
    requires forall n :: n in w.nodes ==> n in v.nodes && v.nodes[n] == w.nodes[n]
    ensures MapOf(v, id) == MapOf(w, id)
  {
  }

  // What is installed is the plain map of the current space.
  lemma InstalledIsMapOf(w: Host, lists: map<nat, seq<nat>>, owner: map<nat, nat>)
    requires Inv(w, lists, owner)
    ensures w.installed == if w.now == 0 then map[] else MapOf(w, w.now)
  {
    hide MapOf, AllSpaces;
    if w.now != 0 {
      HashFinds(w, lists, owner, w.now);
      NowIsMapOf(w);
    }
  }

  lemma NowIsMapOf(w: Host)
    requires NowInstalled(w) && w.now in w.heads && w.now != 0
    requires forall va :: va in w.heads[w.now].hash ==> w.heads[w.now].hash[va] in w.nodes
    ensures w.installed == MapOf(w, w.now)
  {
    var f := MapOf(w, w.now);
    assert forall va :: va in w.installed <==> va in f;
  }

  // A new space is empty, and the others are as they were.
  lemma ProtectedMeans(w: Host, h: nat)
    requires h !in w.heads
    ensures MapOf(Protected(w, h), h) == map[] && SameMaps(w, Protected(w, h), {})
  {
  }

  class Native {
    var w: Host
    ghost var lists: map<nat, seq<nat>>
    ghost var owner: map<nat, nat>

    ghost predicate Valid() reads this { Inv(w, lists, owner) }

    constructor ()
      ensures Valid() && w == Host(map[], map[], 0, map[])
    {
      w, lists, owner := Host(map[], map[], 0, map[]), map[], map[];
    }

    // protect; h is what pgalloc returns.
    method Protect(h: nat)
      requires Valid() && h != 0 && h !in w.heads
      modifies this
      ensures Valid() && w == Protected(old(w), h) && MapOf(w, h) == map[] && SameMaps(old(w), w, {})
    {
      hide Inv, MapOf, SameMaps;
      ProtectKeeps(w, lists, owner, h);
      ProtectedMeans(w, h);
      w := Protected(w, h);
      lists := lists[h := []];
    }

    // map; page is what pgalloc returns. For an address that the space already has, the page that
    // the table finds is linked in again.
    method Map(h: nat, va: nat, pa: nat, prot: nat, page: nat)
      requires Valid() && h in w.heads && InUser(va) && va % PGSIZE == 0 && pa % PGSIZE == 0 && page != 0
        && page !in w.nodes
      modifies this
      ensures old(va !in w.heads[h].hash) ==> Valid() && w == Mapped(old(w), h, page, va, pa, prot)
      ensures old(va !in w.heads[h].hash) ==>
        MapOf(w, h) == MapOf(old(w), h)[va := Mapping(pa, prot)] && SameMaps(old(w), w, {h})
      ensures old(va in w.heads[h].hash) ==> h in w.heads && Endless(w.nodes, w.heads[h].head)
    {
      if va !in w.heads[h].hash {
        MapNew(h, va, pa, prot, page);
      } else {
        MapAgain(h, va, pa, prot);
      }
    }

    method MapNew(h: nat, va: nat, pa: nat, prot: nat, page: nat)
      requires Valid() && h in w.heads && va !in w.heads[h].hash && InUser(va) && page != 0 && page !in w.nodes
      modifies this
      ensures Valid() && w == Mapped(old(w), h, page, va, pa, prot)
      ensures MapOf(w, h) == MapOf(old(w), h)[va := Mapping(pa, prot)] && SameMaps(old(w), w, {h})
    {
      hide MapOf, SameMaps;
      var head := w.heads[h];
      MappedMeans(w, lists, owner, h, page, va, pa, prot);
      MapKeeps(w, lists, owner, h, page, va, pa, prot);
      head := head.(hash := head.hash[va := page], nrPage := head.nrPage + 1);
      lists, owner := lists[h := [page] + lists[h]], owner[page := h];
      w := Linked(w, h, head, page, va, pa, prot);
    }

    method MapAgain(h: nat, va: nat, pa: nat, prot: nat)
      requires Valid() && h in w.heads && va in w.heads[h].hash
      modifies this
      ensures h in w.heads && Endless(w.nodes, w.heads[h].head)
    {
      var head := w.heads[h];
      RelinkedHead(h, va, PageMap(va, pa, head.head, prot, h == w.now));
      w := Linked(w, h, head, head.hash[va], va, pa, prot);
    }

    lemma RelinkedHead(h: nat, va: nat, page: PageMap)
      requires Valid() && h in w.heads && va in w.heads[h].hash && page.next == w.heads[h].head
      ensures Endless(w.nodes[w.heads[h].hash[va] := page], w.heads[h].hash[va])
    {
      var l, pp := lists[h], w.heads[h].hash[va];
      assert SpaceOk(w.nodes, w.heads[h], l, owner, h, w.now);
      var k: nat :| k < |l| && l[k] == pp;
      Relinked(w.nodes, w.heads[h], l, k, page);
    }

    // __am_switch to the space of a context (0 for none): afterwards the host has installed
    // exactly the pages of that space.
    method Switch(head: nat)
      requires Valid() && (head != 0 ==> head in w.heads)
      modifies this
      ensures Valid() && w.now == head && w.heads == old(w.heads) && lists == old(lists)
      ensures OnlyFlags(old(w).nodes, w.nodes) && SameMaps(old(w), w, {})
      ensures w.installed == if head == 0 then map[] else MapOf(w, head)
    {
      hide MapOf, SameMaps;
      if head != w.now {
        var v := w;
        if w.now != 0 {
          assert SpaceOk(w.nodes, w.heads[w.now], lists[w.now], owner, w.now, w.now);
          v := UnmapAll(w, w.heads[w.now], lists[w.now]);
          FlaggedIsOnlyFlags(w.nodes, v.nodes, lists[w.now], false);
        }
        UnmapKeeps(w, v, lists, owner);
        v := v.(now := 0);
        var u := v;
        if head != 0 {
          assert SpaceOk(v.nodes, v.heads[head], lists[head], owner, head, 0);
          u := MapAll(v, v.heads[head], lists[head]);
          MapAllKeeps(v, u, lists, owner, head);
          FlaggedIsOnlyFlags(v.nodes, u.nodes, lists[head], true);
        }
        OnlyFlagsTrans(w.nodes, v.nodes, u.nodes);
        w := u.(now := head);
      }
      FlagsKeepMaps(old(w), w);
      InstalledIsMapOf(w, lists, owner);
    }
  }

  // Between the loops no space is current.
  lemma UnmapKeeps(w: Host, v: Host, lists: map<nat, seq<nat>>, owner: map<nat, nat>)
    requires Inv(w, lists, owner) && v == w.(nodes := v.nodes, installed := map[])
    requires if w.now == 0 then v == w else Flagged(w.nodes, v.nodes, lists[w.now], |lists[w.now]|, false)
    ensures Inv(v.(now := 0), lists, owner)
  {
    forall id | id in w.heads ensures SpaceOk(v.nodes, w.heads[id], lists[id], owner, id, 0) {
      assert SpaceOk(w.nodes, w.heads[id], lists[id], owner, id, w.now);
      if w.now != 0 {
        assert SpaceOk(w.nodes, w.heads[w.now], lists[w.now], owner, w.now, w.now);
        Reflagged(w, v.nodes, lists, owner, w.now, id, false);
      }
    }
  }

  // Setting the flags of one space's pages shows in that space only.
  lemma Reflagged(w: Host, q: Nodes, lists: map<nat, seq<nat>>, owner: map<nat, nat>, h: nat, id: nat, flag: bool)
    requires h in w.heads && id in w.heads && lists.Keys == w.heads.Keys
      && Flagged(w.nodes, q, lists[h], |lists[h]|, flag)
    requires SpaceOk(w.nodes, w.heads[id], lists[id], owner, id, w.now)
      && SpaceOk(w.nodes, w.heads[h], lists[h], owner, h, w.now)
    ensures HeadOk(q, w.heads[id], lists[id]) && FlagsOk(q, lists[id], if id == h then flag else id == w.now)
  {
    FlagsKeepHead(w.nodes, q, lists[h], |lists[h]|, flag, w.heads[id], lists[id]);
    assert lists[h][..|lists[h]|] == lists[h];
  }

  lemma MapAllKeeps(v: Host, u: Host, lists: map<nat, seq<nat>>, owner: map<nat, nat>, head: nat)
    requires Inv(v, lists, owner) && v.now == 0 && head in v.heads
      && u == v.(nodes := u.nodes, installed := u.installed)
    requires Flagged(v.nodes, u.nodes, lists[head], |lists[head]|, true)
      && InstalledOk(u.installed, u.nodes, v.heads[head])
    ensures Inv(u.(now := head), lists, owner)
  {
    forall id | id in v.heads ensures SpaceOk(u.nodes, v.heads[id], lists[id], owner, id, head) {
      assert SpaceOk(v.nodes, v.heads[id], lists[id], owner, id, 0);
      assert SpaceOk(v.nodes, v.heads[head], lists[head], owner, head, 0);
      Reflagged(v, u.nodes, lists, owner, head, id, true);
    }
  }

  // What Valid says of the host: the mappings are exactly the pages of the current list, with
  // their addresses and protection, and is_mapped is true for those pages only.
  lemma InstalledAreTheList(w: Host, lists: map<nat, seq<nat>>, owner: map<nat, nat>, va: nat)
    requires Inv(w, lists, owner)
    ensures w.now == 0 ==> w.installed == map[]
    ensures w.now != 0 ==> (va in w.installed <==> exists n :: n in lists[w.now] && n in w.nodes && w.nodes[n].va == va)
    ensures w.now != 0 ==> forall n :: n in lists[w.now] && n in w.nodes && w.nodes[n].va == va ==>
              va in w.installed && w.installed[va] == Mapping(w.nodes[n].pa, w.nodes[n].prot)
    ensures forall id, n :: id in lists && n in lists[id] && n in w.nodes ==> (w.nodes[n].isMapped <==> id == w.now)
  {
    if w.now != 0 {
      var h := w.heads[w.now];
      assert SpaceOk(w.nodes, h, lists[w.now], owner, w.now, w.now);
      if va in w.installed { assert h.hash[va] in lists[w.now]; }
    }
    forall id, n | id in lists && n in lists[id] && n in w.nodes ensures w.nodes[n].isMapped <==> id == w.now {
      assert SpaceOk(w.nodes, w.heads[id], lists[id], owner, id, w.now);
    }
  }
}
