// Directories as they are laid out on the disk (section 7 of the Microsoft FAT Specification,
// 2005), and what the scan of M6-fsrecov/fsrecov.c recovers from them.

module FatLayout {
  import opened FatEntry
  import opened FatScan

  // A file's entries: its long-name entries, highest ordinal first, and its short entry.
  datatype Group = Group(longs: seq<Entry>, short: Entry) {
    function Entries(): seq<Entry> { longs + [short] }
    function Sum(): Byte { Checksum(short[..11]) }
  }

  ghost predicate ValidGroup(total: nat, g: Group) {
    && IsBasic(total, g.short) && |g.longs| <= 20
    && forall i :: 0 <= i < |g.longs| ==> ValidLong(g, i)
  }

  ghost predicate ValidLong(g: Group, i: nat)
    requires i < |g.longs|
  {
    var e := g.longs[i];
    IsLong(e) && Ord(e) == |g.longs| - i && (IsLast(e) <==> i == 0) && Chksum(e) == g.Sum()
  }

  // A group whose first k entries end one cluster while the others start another.
  datatype Cut = Cut(g: Group, k: nat) {
    ghost predicate Valid(total: nat) { ValidGroup(total, g) && 1 <= k <= |g.longs| }
    function Head(): seq<Entry> requires k <= |g.longs| { g.longs[..k] }
    function Tail(): seq<Entry> requires k <= |g.longs| { g.longs[k..] + [g.short] }
  }

  // A cluster of a directory; one that lies entirely among the long-name entries of a group, which
  // begins before it and ends after it; or any other cluster.
  datatype Chunk = Chunk(lead: Option<Cut>, whole: seq<Group>, trail: Option<Cut>) | Middle(cut: Cut) | Foreign

  function Flat(gs: seq<Group>): seq<Entry> { if gs == [] then [] else gs[0].Entries() + Flat(gs[1..]) }

  ghost predicate ValidChunk(total: nat, c: Chunk) {
    && (c.Middle? ==> c.cut.Valid(total))
    && (c.Chunk? ==>
      && (c.lead.Some? ==> c.lead.value.Valid(total)) && (c.trail.Some? ==> c.trail.value.Valid(total))
      && (forall i :: 0 <= i < |c.whole| ==> ValidGroup(total, c.whole[i]))
      && (c.lead.Some? || c.whole != [] || c.trail.Some?))
  }

  predicate Fits(c: Chunk) {
    c.Chunk? ==>
      (c.lead.Some? ==> c.lead.value.k <= |c.lead.value.g.longs|) && (c.trail.Some? ==>
        c.trail.value.k <= |c.trail.value.g.longs|)
  }

  function LeadEntries(c: Chunk): seq<Entry>
    requires c.Chunk? && Fits(c)
  {
    if c.lead.Some? then c.lead.value.Tail() else []
  }

  function TrailEntries(c: Chunk): seq<Entry>
    requires c.Chunk? && Fits(c)
  {
    if c.trail.Some? then c.trail.value.Head() else []
  }

  ghost predicate Reads(d: Disk, p: nat, content: seq<Entry>) { HasAt(d.entries, p, content) }

  ghost predicate HasAt<T>(all: seq<T>, p: nat, content: seq<T>) {
    p + |content| <= |all| && forall i {:trigger content[i]} :: 0 <= i < |content| ==> all[p + i] == content[i]
  }

  // From position p on, up to end, the disk holds `content`; unless that reaches the end, what
  // follows is no directory entry.
  ghost predicate HoldsAt(d: Disk, p: nat, end: nat, content: seq<Entry>) {
    && Reads(d, p, content) && p + |content| <= end <= |d.entries|
    && (p + |content| < end ==> !d.Basic(p + |content|) && !d.Long(p + |content|))
  }

  ghost predicate ClusterHolds(d: Disk, start: nat, c: Chunk)
    requires start + d.size <= |d.entries| && d.size > 0 && Fits(c)
  {
    match c
    case Foreign => !Possibly(d, start)
    case Middle(cut) =>
      cut.k + d.size <= |cut.g.longs| && Reads(d, start, cut.g.longs[cut.k..cut.k + d.size])
    case Chunk(_, whole, _) => HoldsAt(d, start, start + d.size, LeadEntries(c) + Flat(whole) + TrailEntries(c))
  }

  // ---- within one cluster ----

  function WholeLog(p: nat, gs: seq<Group>): seq<seq<Part>>
    decreases |gs|
  {
    if gs == [] then [] else [[Part(p, |gs[0].Entries()|)]] + WholeLog(p + |gs[0].Entries()|, gs[1..])
  }

  lemma {:induction false} SkipLongs(d: Disk, end: nat, curr: nat, p: nat, m: nat)
    requires curr <= p && p + m <= end <= |d.entries| && d.total + 1 < 0x1_0000
    requires forall i :: p <= i < p + m ==> d.Long(i)
    ensures Ends(d, end, curr, p) == Ends(d, end, curr, p + m) && Rest(d, end, curr, p) == Rest(d, end, curr, p + m)
    decreases m
  {
    if m > 0 {
      assert d.Long(p);
      KindsAreDistinct(d.total, d.entries[p]);
      SkipLongs(d, end, curr, p + 1, m - 1);
    }
  }

  lemma HasSplit<T>(all: seq<T>, p: nat, a: seq<T>, b: seq<T>)
    requires HasAt(all, p, a + b)
    ensures HasAt(all, p, a) && HasAt(all, p + |a|, b)
  {
    forall i | 0 <= i < |a| ensures all[p + i] == a[i] { assert (a + b)[i] == a[i]; }
    forall i | 0 <= i < |b| ensures all[p + |a| + i] == b[i] { assert (a + b)[|a| + i] == b[i]; }
  }

  lemma HoldsSplit(d: Disk, p: nat, end: nat, a: seq<Entry>, b: seq<Entry>)
    requires HoldsAt(d, p, end, a + b)
    ensures Reads(d, p, a) && HoldsAt(d, p + |a|, end, b)
  {
    HasSplit(d.entries, p, a, b);
  }

  lemma Regroup<T>(a: seq<T>, b: seq<T>, c: seq<T>)
    ensures a + b + c == a + (b + c)
  {
  }

  // A run of long-name entries that reaches the end of what there is stays open.
  lemma TrailIsOpen(d: Disk, p: nat, end: nat, trail: seq<Entry>)
    requires HoldsAt(d, p, end, trail) && d.total + 1 < 0x1_0000 && forall i :: 0 <= i < |trail| ==> IsLong(trail[i])
    ensures Ends(d, end, p, p) == [] && Rest(d, end, p, p) == if trail == [] then [] else [Part(p, |trail|)]
  {
    forall i | p <= i < p + |trail| ensures d.Long(i) { assert d.entries[i] == trail[i - p]; }
    SkipLongs(d, end, p, p, |trail|);
  }

  // A whole group is handled, and the scan goes on after it.
  lemma GroupEnds(d: Disk, p: nat, end: nat, g: Group)
    requires d.total + 1 < 0x1_0000 && ValidGroup(d.total, g)
    requires p + |g.Entries()| <= end <= |d.entries| && Reads(d, p, g.Entries())
    ensures Ends(d, end, p, p) == [[Part(p, |g.Entries()|)]] + Ends(d, end, p + |g.Entries()|, p + |g.Entries()|)
    ensures Rest(d, end, p, p) == Rest(d, end, p + |g.Entries()|, p + |g.Entries()|)
  {
    var n := |g.longs|;
    forall i | p <= i < p + n ensures d.Long(i) {
      assert d.entries[i] == g.Entries()[i - p] == g.longs[i - p];
      assert ValidLong(g, i - p);
    }
    SkipLongs(d, end, p, p, n);
    assert d.entries[p + n] == g.Entries()[n] == g.short;
    assert d.Basic(p + n);
  }

  lemma FlatStep(gs: seq<Group>, trail: seq<Entry>)
    requires gs != []
    ensures Flat(gs) + trail == gs[0].Entries() + (Flat(gs[1..]) + trail)
    ensures |Flat(gs)| == |gs[0].Entries()| + |Flat(gs[1..])|
  {
    Regroup(gs[0].Entries(), Flat(gs[1..]), trail);
  }

  // Whole groups are handled one by one; the long-name entries after them are left.
  lemma {:induction false} GroupsEnd(d: Disk, p: nat, end: nat, gs: seq<Group>, trail: seq<Entry>)
    requires HoldsAt(d, p, end, Flat(gs) + trail) && d.total + 1 < 0x1_0000
    requires forall i :: 0 <= i < |gs| ==> ValidGroup(d.total, gs[i])
    requires forall i :: 0 <= i < |trail| ==> IsLong(trail[i])
    ensures Ends(d, end, p, p) == WholeLog(p, gs)
    ensures Rest(d, end, p, p) == if trail == [] then [] else [Part(p + |Flat(gs)|, |trail|)]
    decreases |gs|
  {
    if gs == [] {
      assert Flat(gs) + trail == trail;
      TrailIsOpen(d, p, end, trail);
    } else {
      var g := gs[0];
      FlatStep(gs, trail);
      HoldsSplit(d, p, end, g.Entries(), Flat(gs[1..]) + trail);
      GroupEnds(d, p, end, g);
      GroupsEnd(d, p + |g.Entries()|, end, gs[1..], trail);
    }
  }

  // A group of a short entry alone, at the start of a cluster, waits for a head that is not there.
  predicate LoneFirst(c: Chunk) { c.Chunk? && c.lead.None? && c.whole != [] && c.whole[0].longs == [] }

  function Inner(c: Chunk): seq<Group> requires c.Chunk? { if LoneFirst(c) then c.whole[1..] else c.whole }

  function TailContent(c: Chunk): seq<Entry>
    requires c.Chunk? && Fits(c)
  {
    if LoneFirst(c) then [c.whole[0].short] else LeadEntries(c)
  }

  lemma LeadThenWhole(c: Chunk)
    requires Fits(c) && c.Chunk?
    ensures LeadEntries(c) + Flat(c.whole) == TailContent(c) + Flat(Inner(c))
  {
    if LoneFirst(c) { assert c.whole[0].Entries() == [c.whole[0].short]; }
  }

  lemma LeadIsTail(d: Disk, start: nat, c: Chunk)
    requires d.total + 1 < 0x1_0000 && start + d.size <= |d.entries| && d.size > 0 && ValidChunk(d.total, c) && c.Chunk?
    requires ClusterHolds(d, start, c)
    ensures LeadLen(d, start) == |TailContent(c)| && Possibly(d, start)
  {
    var content := LeadEntries(c) + Flat(c.whole) + TrailEntries(c);
    KindsAreDistinct(d.total, d.entries[start]);
    if c.lead.Some? {
      var cut := c.lead.value;
      assert content[0] == cut.Tail()[0];
      if cut.k < |cut.g.longs| { assert ValidLong(cut.g, cut.k); }
    } else if c.whole != [] {
      assert content[0] == c.whole[0].Entries()[0];
      if c.whole[0].longs != [] { assert ValidLong(c.whole[0], 0); }
      assert Flat(c.whole) == c.whole[0].Entries() + Flat(c.whole[1..]);
    } else {
      assert content[0] == c.trail.value.g.longs[0];
      assert ValidLong(c.trail.value.g, 0);
    }
    assert d.entries[start] == content[0];
  }

  // What search_cluster does to a cluster of a directory.
  function HeadPart(c: Chunk, p: nat): seq<Part> requires c.Chunk? {
    if c.trail.Some? then [Part(p, c.trail.value.k)] else []
  }

  function TailPart(t: seq<Entry>, p: nat): seq<Part> { if t == [] then [] else [Part(p, |t|)] }

  function Advanced(w: Work, start: nat, c: Chunk): Work
    requires c.Chunk? && Fits(c)
  {
    var t := TailContent(c);
    Work(w.heads + HeadPart(c, start + |t| + |Flat(Inner(c))|), w.tails + TailPart(t, start),
      w.log + WholeLog(start + |t|, Inner(c)))
  }

  lemma ClusterSearched(d: Disk, w: Work, start: nat, c: Chunk)
    requires d.total + 1 < 0x1_0000 && start + d.size <= |d.entries| && d.size > 0 && ValidChunk(d.total, c) && c.Chunk?
    requires ClusterHolds(d, start, c)
    ensures Searched(d, w, start) == Advanced(w, start, c)
  {
    LeadIsTail(d, start, c);
    EndsAfterLead(d, start, c);
    SearchedIs(d, w, start, c);
  }

  // A cluster within a group is taken for the end of one: its tail is as long as what is left of
  // the group, so it runs past the cluster, and nothing else is found there.
  lemma MiddleSearched(d: Disk, w: Work, start: nat, c: Chunk)
    requires d.total + 1 < 0x1_0000 && start + d.size <= |d.entries| && d.size > 0
    requires c.Middle? && ValidChunk(d.total, c) && ClusterHolds(d, start, c)
    ensures Possibly(d, start) && d.entries[start] == c.cut.g.longs[c.cut.k]
    ensures Searched(d, w, start) == Work(w.heads, w.tails + [Part(start, |c.cut.g.longs| - c.cut.k + 1)], w.log)
  {
    var g, k := c.cut.g, c.cut.k;
    assert d.entries[start + 0] == g.longs[k..k + d.size][0];
    assert ValidLong(g, k);
    KindsAreDistinct(d.total, d.entries[start]);
  }

  lemma SearchedIs(d: Disk, w: Work, start: nat, c: Chunk)
    requires start + d.size <= |d.entries| && d.size > 0 && c.Chunk? && Fits(c)
    requires LeadLen(d, start) == |TailContent(c)|
    requires var p := start + |TailContent(c)|;
      Ends(d, start + d.size, p, p) == WholeLog(p, Inner(c))
        && Rest(d, start + d.size, p, p) == HeadPart(c, p + |Flat(Inner(c))|)
    ensures Searched(d, w, start) == Advanced(w, start, c)
  {
  }

  lemma EndsAfterLead(d: Disk, start: nat, c: Chunk)
    requires d.total + 1 < 0x1_0000 && start + d.size <= |d.entries| && d.size > 0 && ValidChunk(d.total, c) && c.Chunk?
    requires ClusterHolds(d, start, c)
    ensures var p := start + |TailContent(c)|;
      && Ends(d, start + d.size, p, p) == WholeLog(p, Inner(c))
      && Rest(d, start + d.size, p, p) == HeadPart(c, p + |Flat(Inner(c))|)
  {
    hide HoldsAt, Reads, Ends, Rest, TailContent, Inner, LeadEntries, TrailEntries, Flat, WholeLog, HeadPart;
    AfterLead(d, start, c);
    InnerEnds(d, start + |TailContent(c)|, start + d.size, c);
  }

  lemma AfterLead(d: Disk, start: nat, c: Chunk)
    requires Fits(c) && c.Chunk? && HoldsAt(d, start, start + d.size, LeadEntries(c) + Flat(c.whole) + TrailEntries(c))
    ensures Reads(d, start, TailContent(c))
    ensures HoldsAt(d, start + |TailContent(c)|, start + d.size, Flat(Inner(c)) + TrailEntries(c))
  {
    hide HoldsAt, Reads, TailContent, Inner, LeadEntries, TrailEntries, Flat;
    LeadThenWhole(c);
    Regroup(TailContent(c), Flat(Inner(c)), TrailEntries(c));
    HoldsParts(d, start, start + d.size, LeadEntries(c) + Flat(c.whole) + TrailEntries(c), TailContent(c),
      Flat(Inner(c)) + TrailEntries(c));
  }

  lemma HoldsParts(d: Disk, p: nat, end: nat, content: seq<Entry>, a: seq<Entry>, b: seq<Entry>)
    requires HoldsAt(d, p, end, content) && content == a + b
    ensures Reads(d, p, a) && HoldsAt(d, p + |a|, end, b)
  {
    HoldsSplit(d, p, end, a, b);
  }

  lemma InnerEnds(d: Disk, p: nat, end: nat, c: Chunk)
    requires d.total + 1 < 0x1_0000 && ValidChunk(d.total, c) && c.Chunk?
      && HoldsAt(d, p, end, Flat(Inner(c)) + TrailEntries(c))
    ensures Ends(d, end, p, p) == WholeLog(p, Inner(c)) && Rest(d, end, p, p) == HeadPart(c, p + |Flat(Inner(c))|)
  {
    TrailIsLong(d.total, c);
    InnerIsValid(d.total, c);
    GroupsEnd(d, p, end, Inner(c), TrailEntries(c));
  }

  lemma TrailIsLong(total: nat, c: Chunk)
    requires ValidChunk(total, c) && c.Chunk?
    ensures forall i :: 0 <= i < |TrailEntries(c)| ==> IsLong(TrailEntries(c)[i])
    ensures |TrailEntries(c)| == if c.trail.Some? then c.trail.value.k else 0
  {
    forall i | 0 <= i < |TrailEntries(c)| ensures IsLong(TrailEntries(c)[i]) { assert ValidLong(c.trail.value.g, i); }
  }

  lemma InnerIsValid(total: nat, c: Chunk)
    requires ValidChunk(total, c) && c.Chunk?
    ensures forall i :: 0 <= i < |Inner(c)| ==> ValidGroup(total, Inner(c)[i])
  {
    forall i | 0 <= i < |Inner(c)| ensures ValidGroup(total, Inner(c)[i]) {
      assert Inner(c)[i] == c.whole[if LoneFirst(c) then i + 1 else i];
    }
  }
}
