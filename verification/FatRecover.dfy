// full_scan of M6-fsrecov/fsrecov.c undoes the layout of directories: every group of entries is
// passed to handle exactly once, also when a cluster boundary cuts it in two.

module FatRecover {
  import opened FatEntry
  import opened FatScan
  import opened FatLayout

  // ---- what is on the disk, cluster by cluster ----

  ghost predicate Laid(d: Disk, layout: seq<Chunk>) {
    && d.Valid() && d.total + 1 < 0x1_0000 && |layout| == d.total
    && forall n :: 0 <= n < d.total ==> ChunkAt(d, n, layout[n])
  }

  ghost predicate ChunkAt(d: Disk, n: nat, c: Chunk)
    requires d.Valid() && n < d.total
  {
    ClusterInDisk(d, n);
    ValidChunk(d.total, c) && ClusterHolds(d, ClusterAt(d, n), c)
  }

  // What a cluster starts with that may belong to another cluster's group.
  datatype Tail = OfCut(cut: Cut) | Inside(cut: Cut) | Lone(g: Group) {
    function Group(): Group { if Lone? then g else cut.g }
  }

  function HeadOf(c: Chunk): seq<Cut> { if c.Chunk? && c.trail.Some? then [c.trail.value] else [] }

  function TailOf(c: Chunk): seq<Tail> {
    match c
    case Foreign => []
    case Middle(cut) => [Inside(cut)]
    case Chunk(Some(cut), _, _) => [OfCut(cut)]
    case Chunk(None, whole, _) => if LoneFirst(c) then [Lone(whole[0])] else []
  }

  function InnerOf(c: Chunk): seq<Group> { if c.Chunk? then Inner(c) else [] }

  function Heads(layout: seq<Chunk>): seq<Cut> {
    if layout == [] then [] else Heads(layout[..|layout| - 1]) + HeadOf(layout[|layout| - 1])
  }

  function Tails(layout: seq<Chunk>): seq<Tail> {
    if layout == [] then [] else Tails(layout[..|layout| - 1]) + TailOf(layout[|layout| - 1])
  }

  function Inners(layout: seq<Chunk>): seq<Group> {
    if layout == [] then [] else Inners(layout[..|layout| - 1]) + InnerOf(layout[|layout| - 1])
  }

  // All groups, each once: cut ones where they begin.
  function Groups(layout: seq<Chunk>): seq<Group> {
    if layout == [] then []
    else
      Groups(layout[..|layout| - 1]) + ChunkGroups(layout[|layout| - 1])
  }

  // The hypotheses on cut groups: both parts are there, once; no checksum occurs twice among
  // heads, nor in a tail of another group; and the arrays of `waiting` are large enough.
  ghost predicate Paired(layout: seq<Chunk>) {
    var hs, ts := Heads(layout), Tails(layout);
    && |hs| <= 10 && |ts| <= 10
    && (forall i, j :: 0 <= i < j < |hs| ==> hs[i].g.Sum() != hs[j].g.Sum())
    && (forall i, j :: 0 <= i < |hs| && 0 <= j < |ts| && hs[i].g.Sum() == ts[j].Group().Sum() ==> ts[j] == OfCut(hs[i]))
    && (forall i, j :: 0 <= i < j < |ts| && ts[i].OfCut? ==> ts[i] != ts[j])
    && (forall i :: 0 <= i < |hs| ==> OfCut(hs[i]) in ts)
    && (forall j :: 0 <= j < |ts| && ts[j].OfCut? ==> ts[j].cut in hs)
  }

  // ---- what a call of handle receives ----

  ghost predicate Delivers(d: Disk, call: seq<Part>, entries: seq<Entry>) {
    if call == [] then entries == []
    else
      && call[0].len <= |entries| && Reads(d, call[0].pos, entries[..call[0].len])
      && Delivers(d, call[1..], entries[call[0].len..])
  }

  ghost predicate Delivered(d: Disk, log: seq<seq<Part>>, gs: seq<Group>) {
    |log| == |gs| && forall i :: 0 <= i < |log| ==> Delivers(d, log[i], gs[i].Entries())
  }

  lemma DeliversOne(d: Disk, p: Part, entries: seq<Entry>)
    requires Reads(d, p.pos, entries) && p.len == |entries|
    ensures Delivers(d, [p], entries)
  {
    assert entries[..|entries|] == entries;
    assert [p][1..] == [];
  }

  lemma DeliversTwo(d: Disk, p: Part, q: Part, a: seq<Entry>, b: seq<Entry>)
    requires Reads(d, p.pos, a) && p.len == |a| && Reads(d, q.pos, b) && q.len == |b|
    ensures Delivers(d, [p, q], a + b)
  {
    assert (a + b)[..|a|] == a && (a + b)[|a|..] == b;
    assert [p, q][1..] == [q];
    DeliversOne(d, q, b);
  }

  lemma DeliveredJoin(d: Disk, a: seq<seq<Part>>, gs: seq<Group>, b: seq<seq<Part>>, hs: seq<Group>)
    requires Delivered(d, a, gs) && Delivered(d, b, hs)
    ensures Delivered(d, a + b, gs + hs)
  {
  }

  lemma {:induction false} WholeDelivered(d: Disk, p: nat, gs: seq<Group>)
    requires Reads(d, p, Flat(gs))
    ensures Delivered(d, WholeLog(p, gs), gs)
    decreases |gs|
  {
    if gs != [] {
      var g, n := gs[0], |gs[0].Entries()|;
      ReadsSplit(d, p, g.Entries(), Flat(gs[1..]));
      DeliversOne(d, Part(p, n), g.Entries());
      WholeDelivered(d, p + n, gs[1..]);
      DeliveredJoin(d, [[Part(p, n)]], [g], WholeLog(p + n, gs[1..]), gs[1..]);
      assert [g] + gs[1..] == gs;
    }
  }

  lemma ReadsSplit(d: Disk, p: nat, a: seq<Entry>, b: seq<Entry>)
    requires Reads(d, p, a + b)
    ensures Reads(d, p, a) && Reads(d, p + |a|, b)
  {
    HasSplit(d.entries, p, a, b);
  }

  // ---- after the clusters ----

  ghost predicate IsHead(d: Disk, h: Part, c: Cut) { c.Valid(d.total) && Reads(d, h.pos, c.Head()) && h.len == c.k }

  ghost predicate IsTail(d: Disk, t: Part, k: Tail) {
    match k
    case OfCut(c) => c.Valid(d.total) && Reads(d, t.pos, c.Tail()) && t.len == |c.Tail()|
    case Inside(c) =>
      && c.Valid(d.total) && c.k < |c.g.longs| && t.pos < |d.entries| && d.entries[t.pos] == c.g.longs[c.k]
      && t.len == |c.g.longs| - c.k + 1
    case Lone(g) => ValidGroup(d.total, g) && g.longs == [] && Reads(d, t.pos, [g.short]) && t.len == 1
  }

  ghost predicate AreHeads(d: Disk, parts: seq<Part>, cuts: seq<Cut>) {
    |parts| == |cuts| && forall i :: 0 <= i < |parts| ==> IsHead(d, parts[i], cuts[i])
  }

  ghost predicate AreTails(d: Disk, parts: seq<Part>, ts: seq<Tail>) {
    |parts| == |ts| && forall j :: 0 <= j < |parts| ==> IsTail(d, parts[j], ts[j])
  }

  ghost predicate WorkIs(d: Disk, w: Work, layout: seq<Chunk>) {
    AreHeads(d, w.heads, Heads(layout)) && AreTails(d, w.tails, Tails(layout)) && Delivered(d, w.log, Inners(layout))
  }

  // What one cluster of a directory adds.
  lemma HeadsGrow(d: Disk, layout: seq<Chunk>, w: Work, start: nat, c: Chunk)
    requires AreHeads(d, w.heads, Heads(layout)) && ValidChunk(d.total, c) && c.Chunk?
    requires Reads(d, start + |TailContent(c)| + |Flat(Inner(c))|, TrailEntries(c))
    ensures AreHeads(d, Advanced(w, start, c).heads, Heads(layout + [c]))
  {
    assert (layout + [c])[..|layout|] == layout;
  }

  lemma TailsGrow(d: Disk, layout: seq<Chunk>, w: Work, start: nat, c: Chunk)
    requires AreTails(d, w.tails, Tails(layout)) && ValidChunk(d.total, c) && c.Chunk?
      && Reads(d, start, TailContent(c))
    ensures AreTails(d, Advanced(w, start, c).tails, Tails(layout + [c]))
  {
    assert (layout + [c])[..|layout|] == layout;
  }

  lemma LogGrows(d: Disk, layout: seq<Chunk>, w: Work, start: nat, c: Chunk)
    requires Delivered(d, w.log, Inners(layout)) && ValidChunk(d.total, c) && c.Chunk?
      && Reads(d, start + |TailContent(c)|, Flat(Inner(c)))
    ensures Delivered(d, Advanced(w, start, c).log, Inners(layout + [c]))
  {
    var p, log := start + |TailContent(c)|, w.log;
    assert (layout + [c])[..|layout|] == layout;
    WholeDelivered(d, p, Inner(c));
    DeliveredJoin(d, log, Inners(layout), WholeLog(p, Inner(c)), Inner(c));
  }

  lemma ForeignAdds(layout: seq<Chunk>)
    ensures Heads(layout + [Foreign]) == Heads(layout) && Tails(layout + [Foreign]) == Tails(layout)
    ensures Inners(layout + [Foreign]) == Inners(layout)
  {
    assert (layout + [Foreign])[..|layout|] == layout;
  }

  lemma MiddleGrows(d: Disk, w: Work, layout: seq<Chunk>, start: nat, c: Chunk)
    requires WorkIs(d, w, layout) && c.Middle? && c.cut.Valid(d.total) && c.cut.k < |c.cut.g.longs|
    requires start < |d.entries| && d.entries[start] == c.cut.g.longs[c.cut.k]
    ensures WorkIs(d, Work(w.heads, w.tails + [Part(start, |c.cut.g.longs| - c.cut.k + 1)], w.log), layout + [c])
  {
    assert (layout + [c])[..|layout|] == layout;
  }

  lemma WorkGrows(d: Disk, w: Work, layout: seq<Chunk>, start: nat, c: Chunk)
    requires WorkIs(d, w, layout) && c.Chunk? && ValidChunk(d.total, c) && Reads(d, start, TailContent(c))
    requires Reads(d, start + |TailContent(c)|, Flat(Inner(c)) + TrailEntries(c))
    ensures WorkIs(d, Advanced(w, start, c), layout + [c])
  {
    var p := start + |TailContent(c)|;
    ReadsSplit(d, p, Flat(Inner(c)), TrailEntries(c));
    HeadsGrow(d, layout, w, start, c);
    TailsGrow(d, layout, w, start, c);
    LogGrows(d, layout, w, start, c);
  }

  lemma StepIs(d: Disk, w: Work, layout: seq<Chunk>, start: nat, c: Chunk)
    requires d.total + 1 < 0x1_0000 && start + d.size <= |d.entries| && d.size > 0 && ValidChunk(d.total, c)
    requires ClusterHolds(d, start, c) && WorkIs(d, w, layout)
    ensures WorkIs(d, Stepped(d, w, start), layout + [c])
  {
    if c.Chunk? {
      LeadIsTail(d, start, c);
      ClusterSearched(d, w, start, c);
      AfterLead(d, start, c);
      WorkGrows(d, w, layout, start, c);
    } else if c.Middle? {
      MiddleSearched(d, w, start, c);
      MiddleGrows(d, w, layout, start, c);
    } else {
      ForeignAdds(layout);
    }
  }

  lemma StepAt(d: Disk, layout: seq<Chunk>, n: nat, w: Work)
    requires Laid(d, layout) && n < d.total && WorkIs(d, w, layout[..n])
    ensures WorkIs(d, ScanStep(d, w, n), layout[..n + 1])
  {
    hide WorkIs, ChunkAt, ScanStep;
    assert layout[..n + 1] == layout[..n] + [layout[n]];
    ChunkStep(d, n, w, layout[..n], layout[n]);
  }

  lemma ChunkStep(d: Disk, n: nat, w: Work, layout: seq<Chunk>, c: Chunk)
    requires d.Valid() && d.total + 1 < 0x1_0000 && n < d.total && ChunkAt(d, n, c) && WorkIs(d, w, layout)
    ensures WorkIs(d, ScanStep(d, w, n), layout + [c])
  {
    ClusterInDisk(d, n);
    StepIs(d, w, layout, ClusterAt(d, n), c);
  }

  lemma NothingScanned(d: Disk, layout: seq<Chunk>)
    requires d.Valid()
    ensures WorkIs(d, Scanned(d, 0), layout[..0])
  {
  }

  lemma {:induction false} ScannedIs(d: Disk, layout: seq<Chunk>, n: nat)
    requires Laid(d, layout) && n <= d.total
    ensures WorkIs(d, Scanned(d, n), layout[..n])
  {
    hide WorkIs, ChunkAt;
    if n == 0 {
      NothingScanned(d, layout);
    } else {
      ScannedIs(d, layout, n - 1);
      StepAt(d, layout, n - 1, Scanned(d, n - 1));
    }
  }

  // ---- matching ----

  // A head and a tail match exactly when they are the two parts of one group.
  lemma MatchedIff(d: Disk, layout: seq<Chunk>, h: Part, c: Cut, t: Part, k: Tail)
    requires d.total + 1 < 0x1_0000 && IsHead(d, h, c) && IsTail(d, t, k) && Paired(layout)
    requires c in Heads(layout) && k in Tails(layout)
    ensures HeadOk(d, h) && TailOk(d, t) && (Matched(d, h, t) <==> k == OfCut(c))
  {
    HeadSum(d, h, c);
    TailSum(d, t, k);
    var i :| 0 <= i < |Heads(layout)| && Heads(layout)[i] == c;
    var j :| 0 <= j < |Tails(layout)| && Tails(layout)[j] == k;
  }

  lemma HeadSum(d: Disk, h: Part, c: Cut)
    requires IsHead(d, h, c)
    ensures HeadOk(d, h) && Chksum(d.entries[h.pos]) == c.g.Sum()
  {
    assert ValidLong(c.g, 0);
    assert c.Head()[0] == c.g.longs[0] && d.entries[h.pos + 0] == c.Head()[0];
  }

  lemma TailSum(d: Disk, t: Part, k: Tail)
    requires d.total + 1 < 0x1_0000 && IsTail(d, t, k)
    ensures TailOk(d, t)
    ensures k.Group().Sum() == if d.Long(t.pos) then Chksum(d.entries[t.pos]) else Checksum(d.entries[t.pos][..11])
  {
    KindsAreDistinct(d.total, d.entries[t.pos]);
    match k
    case Lone(g) => assert d.entries[t.pos + 0] == [g.short][0];
    case Inside(c) => assert ValidLong(c.g, c.k);
    case OfCut(c) =>
      assert d.entries[t.pos + 0] == c.Tail()[0];
      if c.k < |c.g.longs| { assert ValidLong(c.g, c.k); }
  }

  // A head that matches exactly one of the tails that are left.
  lemma {:induction false} OnePair(d: Disk, h: Part, tails: seq<Option<Part>>, q: nat, j: nat)
    requires q < |tails| && j <= |tails| && PartsOk(d, [h], tails) && HeadOk(d, [h][0])
    requires forall i :: 0 <= i < |tails| && tails[i].Some? ==> (Matched(d, h, tails[i].value) <==> i == q)
    requires tails[q].Some?
    ensures Pairs(d, h, tails, j) == (if q < j then [[h, tails[q].value]] else [])
    ensures TailsLeft(d, h, tails, j) == (if q < j then tails[q := None] else tails)
  {
    hide Matched, HeadOk, TailOk;
    if j > 0 { OnePair(d, h, tails, q, j - 1); }
  }

  // After the first i heads.
  ghost predicate LeftIs(left: seq<Option<Part>>, tails: seq<Part>, ts: seq<Tail>, cuts: seq<Cut>) {
    && |left| == |tails| == |ts|
    && forall j :: 0 <= j < |left| ==> left[j] == if ts[j].OfCut? && ts[j].cut in cuts then None else Some(tails[j])
  }

  function CutGroups(cuts: seq<Cut>): (gs: seq<Group>)
    ensures |gs| == |cuts|
  {
    seq(|cuts|, i requires 0 <= i < |cuts| => cuts[i].g)
  }

  lemma CutGroupsGrow(cuts: seq<Cut>, i: nat)
    requires i < |cuts|
    ensures CutGroups(cuts[..i + 1]) == CutGroups(cuts[..i]) + [cuts[i].g]
  {
  }

  lemma {:induction false} HeadsMatch(d: Disk, layout: seq<Chunk>, w: Work, i: nat)
    requires d.total + 1 < 0x1_0000 && Paired(layout) && WorkOk(d, w) && i <= |w.heads|
    requires AreHeads(d, w.heads, Heads(layout)) && AreTails(d, w.tails, Tails(layout))
    ensures LeftIs(AllLeft(d, w.heads, Somes(w.tails), i), w.tails, Tails(layout), Heads(layout)[..i])
    ensures Delivered(d, AllPairs(d, w.heads, Somes(w.tails), i), CutGroups(Heads(layout)[..i]))
  {
    hide Paired, LeftIs, Delivered, Matched, HeadOk, TailOk;
    if i == 0 {
      NothingMatched(w, Tails(layout));
      NothingDelivered(d);
    } else {
      var left := AllLeft(d, w.heads, Somes(w.tails), i - 1);
      HeadsMatch(d, layout, w, i - 1);
      NextHead(d, layout, w, i - 1, left, AllPairs(d, w.heads, Somes(w.tails), i - 1));
    }
  }

  lemma NothingMatched(w: Work, ts: seq<Tail>)
    requires |w.tails| == |ts|
    ensures LeftIs(Somes(w.tails), w.tails, ts, [])
  {
  }

  lemma NothingDelivered(d: Disk)
    ensures Delivered(d, [], CutGroups([]))
  {
  }

  lemma NextHead(d: Disk, layout: seq<Chunk>, w: Work, i: nat, left: seq<Option<Part>>, pairs: seq<seq<Part>>)
    requires d.total + 1 < 0x1_0000 && Paired(layout) && i < |w.heads|
    requires AreHeads(d, w.heads, Heads(layout)) && AreTails(d, w.tails, Tails(layout))
    requires LeftIs(left, w.tails, Tails(layout), Heads(layout)[..i])
      && Delivered(d, pairs, CutGroups(Heads(layout)[..i]))
    ensures PartsOk(d, [w.heads[i]], left)
    ensures LeftIs(TailsLeft(d, w.heads[i], left, |left|), w.tails, Tails(layout), Heads(layout)[..i + 1])
    ensures Delivered(d, pairs + Pairs(d, w.heads[i], left, |left|), CutGroups(Heads(layout)[..i + 1]))
  {
    HeadMatches(d, layout, w, i, left);
    PairsJoin(d, layout, pairs, Pairs(d, w.heads[i], left, |left|), i);
  }

  lemma PairsJoin(d: Disk, layout: seq<Chunk>, a: seq<seq<Part>>, b: seq<seq<Part>>, i: nat)
    requires i < |Heads(layout)| && Delivered(d, a, CutGroups(Heads(layout)[..i]))
      && Delivered(d, b, [Heads(layout)[i].g])
    ensures Delivered(d, a + b, CutGroups(Heads(layout)[..i + 1]))
  {
    CutGroupsGrow(Heads(layout), i);
    DeliveredJoin(d, a, CutGroups(Heads(layout)[..i]), b, [Heads(layout)[i].g]);
  }

  // The tails that this head can still meet are matched by it exactly at its other part.
  lemma Meets(d: Disk, layout: seq<Chunk>, w: Work, i: nat, left: seq<Option<Part>>, q: nat)
    requires d.total + 1 < 0x1_0000 && Paired(layout) && i < |w.heads| && q < |w.tails|
    requires AreHeads(d, w.heads, Heads(layout)) && AreTails(d, w.tails, Tails(layout))
    requires LeftIs(left, w.tails, Tails(layout), Heads(layout)[..i]) && Tails(layout)[q] == OfCut(Heads(layout)[i])
    ensures PartsOk(d, [w.heads[i]], left) && HeadOk(d, w.heads[i])
    ensures forall j :: 0 <= j < |left| && left[j].Some? ==> (Matched(d, w.heads[i], left[j].value) <==> j == q)
  {
    HeadSum(d, w.heads[i], Heads(layout)[i]);
    forall j | 0 <= j < |left| && left[j].Some?
      ensures TailOk(d, left[j].value) && (Matched(d, w.heads[i], left[j].value) <==> j == q)
    {
      MatchedIff(d, layout, w.heads[i], Heads(layout)[i], w.tails[j], Tails(layout)[j]);
    }
  }

  lemma CutsOnce(layout: seq<Chunk>, i: nat)
    requires Paired(layout) && i < |Heads(layout)|
    ensures Heads(layout)[i] !in Heads(layout)[..i]
  {
  }

  lemma LeftNext(left: seq<Option<Part>>, tails: seq<Part>, ts: seq<Tail>, cuts: seq<Cut>, i: nat, q: nat)
    requires i < |cuts| && LeftIs(left, tails, ts, cuts[..i]) && q < |ts| && ts[q] == OfCut(cuts[i])
    requires forall j :: 0 <= j < |ts| && ts[j] == ts[q] ==> j == q
    ensures LeftIs(left[q := None], tails, ts, cuts[..i + 1])
  {
    assert cuts[..i + 1] == cuts[..i] + [cuts[i]];
  }

  lemma CutJoins(d: Disk, h: Part, t: Part, c: Cut)
    requires IsHead(d, h, c) && IsTail(d, t, OfCut(c))
    ensures Delivered(d, [[h, t]], [c.g])
  {
    assert c.Head() + c.Tail() == c.g.Entries();
    DeliversTwo(d, h, t, c.Head(), c.Tail());
  }

  lemma HeadMatches(d: Disk, layout: seq<Chunk>, w: Work, i: nat, left: seq<Option<Part>>)
    requires d.total + 1 < 0x1_0000 && Paired(layout) && i < |w.heads|
    requires AreHeads(d, w.heads, Heads(layout)) && AreTails(d, w.tails, Tails(layout))
    requires LeftIs(left, w.tails, Tails(layout), Heads(layout)[..i])
    ensures PartsOk(d, [w.heads[i]], left)
    ensures LeftIs(TailsLeft(d, w.heads[i], left, |left|), w.tails, Tails(layout), Heads(layout)[..i + 1])
    ensures Delivered(d, Pairs(d, w.heads[i], left, |left|), [Heads(layout)[i].g])
  {
    var hs, ts, c := Heads(layout), Tails(layout), Heads(layout)[i];
    var q: nat :| q < |ts| && ts[q] == OfCut(c);
    CutsOnce(layout, i);
    Meets(d, layout, w, i, left, q);
    OnePair(d, w.heads[i], left, q, |left|);
    LeftNext(left, w.tails, ts, hs, i, q);
    CutJoins(d, w.heads[i], w.tails[q], c);
  }

  // The short entries of their own that are taken in the end.
  function Lones(ts: seq<Tail>): seq<Group> {
    if ts == [] then [] else Lones(ts[..|ts| - 1]) + (if ts[|ts| - 1].Lone? then [ts[|ts| - 1].g] else [])
  }

  // Of the tails that no head has taken, exactly the lone entries have length 1.
  lemma OneSingle(d: Disk, t: Part, k: Tail)
    requires IsTail(d, t, k) && !k.OfCut?
    ensures t.len == 1 <==> k.Lone?
    ensures k.Lone? ==> Delivered(d, [[t]], [k.g])
  {
    if k.Lone? {
      assert k.g.Entries() == [k.g.short];
      DeliversOne(d, t, k.g.Entries());
    }
  }

  lemma {:induction false} SinglesAre(d: Disk, left: seq<Option<Part>>, tails: seq<Part>, ts: seq<Tail>, cuts: seq<Cut>,
      j: nat)
    requires LeftIs(left, tails, ts, cuts) && AreTails(d, tails, ts) && j <= |left|
    requires forall i :: 0 <= i < |ts| && ts[i].OfCut? ==> ts[i].cut in cuts
    ensures Delivered(d, Singles(left, j), Lones(ts[..j]))
  {
    if j > 0 {
      hide Delivered, IsTail;
      SinglesAre(d, left, tails, ts, cuts, j - 1);
      assert ts[..j][..j - 1] == ts[..j - 1];
      if !ts[j - 1].OfCut? { OneSingle(d, tails[j - 1], ts[j - 1]); }
      if ts[j - 1].Lone? {
        DeliveredJoin(d, Singles(left, j - 1), Lones(ts[..j - 1]), [[tails[j - 1]]], [ts[j - 1].g]);
      }
    }
  }

  // ---- the round trip ----

  function Recovered(layout: seq<Chunk>): seq<Group> {
    Inners(layout) + CutGroups(Heads(layout)) + Lones(Tails(layout))
  }

  // The calls of handle, in order, deliver the groups inside the clusters, then the cut ones,
  // then the short entries that start a cluster.
  lemma ScanDelivers(d: Disk, layout: seq<Chunk>)
    requires Laid(d, layout) && Paired(layout)
    ensures WorkOk(d, Scanned(d, d.total)) && Delivered(d, MatchLog(d, Scanned(d, d.total)), Recovered(layout))
  {
    var w := Scanned(d, d.total);
    ScannedOk(d, d.total);
    ScannedIs(d, layout, d.total);
    assert layout[..d.total] == layout;
    var hs, ts, n := Heads(layout), Tails(layout), |w.heads|;
    HeadsMatch(d, layout, w, n);
    assert hs[..n] == hs && ts[..|ts|] == ts;
    var left := AllLeft(d, w.heads, Somes(w.tails), n);
    SinglesAre(d, left, w.tails, ts, hs, |left|);
    DeliveredJoin(d, w.log, Inners(layout), AllPairs(d, w.heads, Somes(w.tails), n), CutGroups(hs));
    DeliveredJoin(d, w.log + AllPairs(d, w.heads, Somes(w.tails), n), Inners(layout) + CutGroups(hs),
      Singles(left, |left|), Lones(ts));
  }

  // These are all the groups, each as often as it was laid out.
  lemma {:induction false} EveryGroup(layout: seq<Chunk>)
    ensures multiset(Recovered(layout)) == multiset(Groups(layout))
    decreases |layout|
  {
    if layout != [] {
      var init, c := layout[..|layout| - 1], layout[|layout| - 1];
      EveryGroup(init);
      LonesJoin(Tails(init), TailOf(c));
      CutGroupsJoin(Heads(init), HeadOf(c));
      OneChunk(c);
      Shuffle(Inners(init), CutGroups(Heads(init)), Lones(Tails(init)), InnerOf(c), CutGroups(HeadOf(c)),
        Lones(TailOf(c)));
    }
  }

  lemma CutGroupsJoin(a: seq<Cut>, b: seq<Cut>)
    ensures CutGroups(a + b) == CutGroups(a) + CutGroups(b)
  {
  }

  lemma Shuffle<T>(a: seq<T>, b: seq<T>, c: seq<T>, x: seq<T>, y: seq<T>, z: seq<T>)
    ensures multiset((a + x) + (b + y) + (c + z)) == multiset(a + b + c) + multiset(x) + multiset(y) + multiset(z)
  {
  }

  lemma {:induction false} LonesJoin(a: seq<Tail>, b: seq<Tail>)
    ensures Lones(a + b) == Lones(a) + Lones(b)
    decreases |b|
  {
    if b == [] {
      assert a + b == a;
    } else {
      assert (a + b)[..|a + b| - 1] == a + b[..|b| - 1];
      LonesJoin(a, b[..|b| - 1]);
    }
  }

  function ChunkGroups(c: Chunk): seq<Group> {
    if c.Chunk? then c.whole + (if c.trail.Some? then [c.trail.value.g] else []) else []
  }

  lemma OneChunk(c: Chunk)
    ensures multiset(InnerOf(c)) + multiset(CutGroups(HeadOf(c))) + multiset(Lones(TailOf(c))) ==
      multiset(ChunkGroups(c))
  {
    if c.Chunk? {
      LonesOfOne(c);
      assert CutGroups(HeadOf(c)) == if c.trail.Some? then [c.trail.value.g] else [];
    }
  }

  lemma LonesOfOne(c: Chunk)
    requires c.Chunk?
    ensures Lones(TailOf(c)) + Inner(c) == c.whole
  {
    if TailOf(c) != [] { assert TailOf(c)[..0] == []; }
  }

  // Every group that was laid out reaches handle exactly once, complete.
  lemma RoundTrip(d: Disk, layout: seq<Chunk>)
    requires Laid(d, layout) && Paired(layout)
    ensures WorkOk(d, Scanned(d, d.total))
    ensures exists order ::
      multiset(order) == multiset(Groups(layout)) && Delivered(d, MatchLog(d, Scanned(d, d.total)), order)
  {
    ScanDelivers(d, layout);
    EveryGroup(layout);
  }
}
