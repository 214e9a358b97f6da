// full_scan of M6-fsrecov/fsrecov.c passes every group of every directory to handle exactly once if
// and only if no cluster lies within a group; with clusters of 20 entries or more none ever does.

module FatOnce {
  import opened FatEntry
  import opened FatScan
  import opened FatLayout
  import opened FatRecover
  import opened FatStream
  import opened FatCalls
  import opened FatDirectory

  // ---- over all directories ----

  // The clusters that lie within a group.
  function Middles(v: Volume, size: nat): seq<Cut> requires size > 0 { Gather(DirChunks(v.dirs, size), MiddleOf) }

  lemma {:induction false} DirGroups(dirs: seq<seq<Group>>, size: nat)
    requires size > 0
    ensures Gather(DirChunks(dirs, size), ChunkGroups) == AllOf(dirs)
  {
    if dirs != [] {
      var r := Start(dirs[0]);
      AllGroups(r, size);
      GatherJoin(Chunks(r, size), DirChunks(dirs[1..], size), ChunkGroups);
      DirGroups(dirs[1..], size);
    }
  }

  lemma DirJoin<T>(dirs: seq<seq<Group>>, size: nat, f: Chunk -> seq<T>)
    requires size > 0 && dirs != []
    ensures Gather(DirChunks(dirs, size), f) ==
      Gather(Chunks(Start(dirs[0]), size), f) + Gather(DirChunks(dirs[1..], size), f)
  {
    GatherJoin(Chunks(Start(dirs[0]), size), DirChunks(dirs[1..], size), f);
  }

  lemma {:induction false} DirLeadCount(dirs: seq<seq<Group>>, size: nat)
    requires size > 0
    ensures |Gather(DirChunks(dirs, size), LeadOf)| == |Gather(DirChunks(dirs, size), HeadOf)|
  {
    if dirs != [] {
      hide Gather, DirChunks, Chunks;
      LeadsAndHeads(Start(dirs[0]), size);
      DirJoin(dirs, size, LeadOf);
      DirJoin(dirs, size, HeadOf);
      DirLeadCount(dirs[1..], size);
    }
  }

  lemma StartLeads(gs: seq<Group>, size: nat)
    requires size > 0 && Gather(Chunks(Start(gs), size), MiddleOf) == []
    ensures Gather(Chunks(Start(gs), size), LeadOf) == Gather(Chunks(Start(gs), size), HeadOf)
  {
    hide Gather, Chunks;
    LeadsAndHeads(Start(gs), size);
    assert Open(Start(gs)) + Gather(Chunks(Start(gs), size), HeadOf) == Gather(Chunks(Start(gs), size), HeadOf);
  }

  lemma BothEmpty<T>(a: seq<T>, b: seq<T>)
    requires a + b == []
    ensures a == [] && b == []
  {
    assert |a + b| == |a| + |b|;
  }

  lemma {:induction false} DirLeads(dirs: seq<seq<Group>>, size: nat)
    requires size > 0 && Gather(DirChunks(dirs, size), MiddleOf) == []
    ensures Gather(DirChunks(dirs, size), LeadOf) == Gather(DirChunks(dirs, size), HeadOf)
  {
    if dirs != [] {
      hide Gather, DirChunks, Chunks;
      DirJoin(dirs, size, MiddleOf);
      BothEmpty(Gather(Chunks(Start(dirs[0]), size), MiddleOf), Gather(DirChunks(dirs[1..], size), MiddleOf));
      StartLeads(dirs[0], size);
      DirJoin(dirs, size, LeadOf);
      DirJoin(dirs, size, HeadOf);
      DirLeads(dirs[1..], size);
    }
  }

  lemma {:induction false} DirCuts(dirs: seq<seq<Group>>, size: nat, x: Cut)
    requires size > 0
    requires x in Gather(DirChunks(dirs, size), LeadOf) || x in Gather(DirChunks(dirs, size), MiddleOf)
    ensures exists h :: h in Gather(DirChunks(dirs, size), HeadOf) && h.g == x.g
  {
    if dirs != [] {
      var r, more := Start(dirs[0]), DirChunks(dirs[1..], size);
      GatherJoin(Chunks(r, size), more, LeadOf);
      GatherJoin(Chunks(r, size), more, HeadOf);
      GatherJoin(Chunks(r, size), more, MiddleOf);
      if x in Gather(more, LeadOf) || x in Gather(more, MiddleOf) {
        DirCuts(dirs[1..], size, x);
      } else {
        CutsHaveHeads(r, size, x);
      }
    }
  }

  lemma {:induction false} DirTwenty(total: nat, dirs: seq<seq<Group>>, size: nat)
    requires DirsValid(total, dirs) && size >= 20
    ensures Gather(DirChunks(dirs, size), MiddleOf) == []
  {
    if dirs != [] {
      TwentyIsEnough(total, Start(dirs[0]), size);
      GatherJoin(Chunks(Start(dirs[0]), size), DirChunks(dirs[1..], size), MiddleOf);
      DirTwenty(total, dirs[1..], size);
    }
  }

  // ---- over the whole disk ----

  function CutsOf(ts: seq<Tail>): seq<Cut> {
    if ts == [] then [] else CutsOf(ts[..|ts| - 1]) + (if ts[|ts| - 1].OfCut? then [ts[|ts| - 1].cut] else [])
  }

  function InsidesOf(ts: seq<Tail>): seq<Cut> {
    if ts == [] then [] else InsidesOf(ts[..|ts| - 1]) + (if ts[|ts| - 1].Inside? then [ts[|ts| - 1].cut] else [])
  }

  lemma OneTail(ts: seq<Tail>, c: Chunk)
    ensures CutsOf(ts + TailOf(c)) == CutsOf(ts) + LeadOf(c) && InsidesOf(ts + TailOf(c)) == InsidesOf(ts) + MiddleOf(c)
  {
    if TailOf(c) == [] {
      assert ts + TailOf(c) == ts;
    } else {
      assert (ts + TailOf(c))[..|ts|] == ts;
    }
  }

  lemma {:induction false} TailKinds(layout: seq<Chunk>)
    ensures CutsOf(Tails(layout)) == Gather(layout, LeadOf) && InsidesOf(Tails(layout)) == Gather(layout, MiddleOf)
  {
    hide CutsOf, InsidesOf, TailOf, LeadOf, MiddleOf;
    if layout == [] {
      NoTails();
    } else {
      var init, c := layout[..|layout| - 1], layout[|layout| - 1];
      TailKinds(init);
      OneTail(Tails(init), c);
    }
  }

  lemma NoTails()
    ensures CutsOf([]) == [] && InsidesOf([]) == []
  {
  }

  lemma {:induction false} TailCount(ts: seq<Tail>)
    ensures |ts| == |CutsOf(ts)| + |InsidesOf(ts)| + |Lones(ts)|
  {
    if ts != [] { TailCount(ts[..|ts| - 1]); }
  }

  lemma {:induction false} TailIn(ts: seq<Tail>, j: nat)
    requires j < |ts|
    ensures ts[j].OfCut? ==> ts[j].cut in CutsOf(ts)
    ensures ts[j].Inside? ==> ts[j].cut in InsidesOf(ts)
  {
    if j < |ts| - 1 { TailIn(ts[..|ts| - 1], j); }
  }

  lemma {:induction false} CutIn(ts: seq<Tail>, c: Cut)
    requires c in CutsOf(ts)
    ensures OfCut(c) in ts
  {
    if ts[|ts| - 1] != OfCut(c) { CutIn(ts[..|ts| - 1], c); }
  }

  // A cut that occurs once among the leads occurs once among the tails.
  lemma {:induction false} TwiceIn(ts: seq<Tail>, i: nat, j: nat)
    requires i < j < |ts| && ts[i].OfCut? && ts[i] == ts[j]
    ensures multiset(CutsOf(ts))[ts[i].cut] >= 2
  {
    var init, c := ts[..|ts| - 1], ts[i].cut;
    if j < |ts| - 1 {
      TwiceIn(init, i, j);
    } else {
      TailIn(init, i);
      assert init[i].cut in CutsOf(init);
      assert multiset(CutsOf(init) + [c])[c] == multiset(CutsOf(init))[c] + 1;
    }
  }

  lemma {:induction false} OnceIn<T>(s: seq<T>, x: T)
    requires forall i, j :: 0 <= i < j < |s| ==> s[i] != s[j]
    ensures multiset(s)[x] <= 1
  {
    if s != [] {
      var init, last := s[..|s| - 1], s[|s| - 1];
      OnceIn(init, x);
      assert s == init + [last];
      if x == last { assert x !in init; }
    }
  }

  lemma SameMembers<T>(a: seq<T>, b: seq<T>, x: T)
    requires multiset(a) == multiset(b) && x in a
    ensures x in b
  {
    assert x in multiset(a);
  }

  lemma SameLength<T>(a: seq<T>, b: seq<T>)
    requires multiset(a) == multiset(b)
    ensures |a| == |b|
  {
    assert |multiset(a)| == |multiset(b)|;
  }

  // ---- the calls ----

  lemma VolumeHits(d: Disk, v: Volume)
    requires Written(d, v) && |DirChunks(v.dirs, d.size)| == |v.at|
    ensures AllHit(LayoutOf(v, d.size, d.total))
  {
    hide LayoutOf, PieceAt, ForeignAt, Pieces, Gather, Tails, Heads, DirChunks, CutsOf, InsidesOf;
    var layout, cs := LayoutOf(v, d.size, d.total), DirChunks(v.dirs, d.size);
    TheyGather(layout);
    TailKinds(layout);
    LayoutGathers(d, v, LeadOf);
    LayoutGathers(d, v, HeadOf);
    LayoutGathers(d, v, MiddleOf);
    var ts := Tails(layout);
    forall j | 0 <= j < |ts| && !ts[j].Lone? ensures Hit(ts[j], Heads(layout)) {
      TailIn(ts, j);
      var x := ts[j].cut;
      if ts[j].OfCut? {
        SameMembers(Gather(layout, LeadOf), Gather(cs, LeadOf), x);
      } else {
        SameMembers(Gather(layout, MiddleOf), Gather(cs, MiddleOf), x);
      }
      DirCuts(v.dirs, d.size, x);
      var h :| h in Gather(cs, HeadOf) && h.g == x.g;
      SameMembers(Gather(cs, HeadOf), Gather(layout, HeadOf), h);
      assert OfGroup(ts[j], h.g);
    }
  }

  // handle is called once for every group, and once more for every cluster within a group.
  lemma VolumeCalls(d: Disk, v: Volume)
    requires Written(d, v) && |DirChunks(v.dirs, d.size)| == |v.at| && Quiet(LayoutOf(v, d.size, d.total))
    ensures WorkOk(d, Scanned(d, d.total))
    ensures |MatchLog(d, Scanned(d, d.total))| == |v.Groups()| + |Middles(v, d.size)|
  {
    var layout, cs := LayoutOf(v, d.size, d.total), DirChunks(v.dirs, d.size);
    WrittenIsLaid(d, v);
    VolumeHits(d, v);
    CallsAre(d, layout);
    CountCalls(d, v, layout, cs);
  }

  lemma CountCalls(d: Disk, v: Volume, layout: seq<Chunk>, cs: seq<Chunk>)
    requires Written(d, v) && cs == DirChunks(v.dirs, d.size) && |cs| == |v.at|
    requires layout == LayoutOf(v, d.size, d.total)
    ensures |Inners(layout)| + |Tails(layout)| == |v.Groups()| + |Middles(v, d.size)|
  {
    hide LayoutOf, PieceAt, ForeignAt, Pieces, Gather, Tails, Heads, Inners, DirChunks, CutsOf, InsidesOf, Groups,
      Lones, AllOf;
    TheyGather(layout);
    TailKinds(layout);
    TailCount(Tails(layout));
    LayoutGathers(d, v, LeadOf);
    SameLength(Gather(layout, LeadOf), Gather(cs, LeadOf));
    LayoutGathers(d, v, HeadOf);
    SameLength(Gather(layout, HeadOf), Gather(cs, HeadOf));
    LayoutGathers(d, v, MiddleOf);
    SameLength(Gather(layout, MiddleOf), Gather(cs, MiddleOf));
    LayoutGathers(d, v, ChunkGroups);
    SameLength(Gather(layout, ChunkGroups), Gather(cs, ChunkGroups));
    DirGroups(v.dirs, d.size);
    DirLeadCount(v.dirs, d.size);
    EveryGroup(layout);
    SameLength(Recovered(layout), Groups(layout));
  }

  // ---- without clusters within a group ----

  lemma HeadsDiffer(layout: seq<Chunk>)
    requires Quiet(layout)
    ensures forall i, j :: 0 <= i < j < |Heads(layout)| ==> Heads(layout)[i] != Heads(layout)[j]
  {
  }

  // The two parts of every cut group are there, once each.
  lemma QuietIsPaired(layout: seq<Chunk>)
    requires Quiet(layout) && InsidesOf(Tails(layout)) == []
    requires multiset(CutsOf(Tails(layout))) == multiset(Heads(layout))
    ensures Paired(layout)
  {
    hide Heads, Tails, CutsOf, InsidesOf;
    var hs, ts := Heads(layout), Tails(layout);
    forall j | 0 <= j < |ts| && ts[j].OfCut? ensures ts[j].cut in hs {
      TailIn(ts, j);
      SameMembers(CutsOf(ts), hs, ts[j].cut);
    }
    forall i | 0 <= i < |hs| ensures OfCut(hs[i]) in ts {
      SameMembers(hs, CutsOf(ts), hs[i]);
      CutIn(ts, hs[i]);
    }
    forall i, j | 0 <= i < j < |ts| && ts[i].OfCut? ensures ts[i] != ts[j] {
      if ts[i] == ts[j] {
        TwiceIn(ts, i, j);
        HeadsDiffer(layout);
        OnceIn(hs, ts[i].cut);
      }
    }
    forall i, j | 0 <= i < |hs| && 0 <= j < |ts| && hs[i].g.Sum() == ts[j].Group().Sum() ensures ts[j] == OfCut(hs[i]) {
      TailIn(ts, j);
      var m :| 0 <= m < |hs| && hs[m] == ts[j].cut;
      assert hs[m].g == hs[i].g;
    }
  }

  lemma VolumeIsPaired(d: Disk, v: Volume)
    requires Written(d, v) && |DirChunks(v.dirs, d.size)| == |v.at| && Quiet(LayoutOf(v, d.size, d.total))
    requires Middles(v, d.size) == []
    ensures Paired(LayoutOf(v, d.size, d.total))
  {
    hide LayoutOf, PieceAt, ForeignAt, Pieces, Gather, Tails, Heads, DirChunks, CutsOf, InsidesOf, Quiet, Paired;
    var layout, cs := LayoutOf(v, d.size, d.total), DirChunks(v.dirs, d.size);
    TheyGather(layout);
    TailKinds(layout);
    DirLeads(v.dirs, d.size);
    LayoutGathers(d, v, LeadOf);
    LayoutGathers(d, v, HeadOf);
    LayoutGathers(d, v, MiddleOf);
    SameLength(Gather(layout, MiddleOf), Gather(cs, MiddleOf));
    QuietIsPaired(layout);
  }

  // ---- the round trip ----

  // handle receives every group exactly once, complete.
  ghost predicate EachOnce(d: Disk, v: Volume)
    requires d.Valid() && WorkOk(d, Scanned(d, d.total))
  {
    exists order :: multiset(order) == multiset(v.Groups()) && Delivered(d, MatchLog(d, Scanned(d, d.total)), order)
  }

  // The heads and tails of the disk fit `waiting`, and only parts of one group share a checksum.
  ghost predicate QuietDisk(d: Disk, v: Volume) {
    Written(d, v) && |DirChunks(v.dirs, d.size)| == |v.at| && Quiet(LayoutOf(v, d.size, d.total))
  }

  lemma OnceIfNoMiddle(d: Disk, v: Volume)
    requires QuietDisk(d, v) && Middles(v, d.size) == []
    ensures WorkOk(d, Scanned(d, d.total)) && EachOnce(d, v)
  {
    hide LayoutOf, Gather, DirChunks, Quiet, Paired, Delivered, MatchLog, Scanned, Laid, Groups, AllOf;
    var layout, cs := LayoutOf(v, d.size, d.total), DirChunks(v.dirs, d.size);
    VolumeIsPaired(d, v);
    WrittenIsLaid(d, v);
    RoundTrip(d, layout);
    TheyGather(layout);
    LayoutGathers(d, v, ChunkGroups);
    DirGroups(v.dirs, d.size);
  }

  lemma OnceMeansAsMany(d: Disk, v: Volume)
    requires d.Valid() && WorkOk(d, Scanned(d, d.total)) && EachOnce(d, v)
    ensures |MatchLog(d, Scanned(d, d.total))| == |v.Groups()|
  {
    hide MatchLog, Scanned, AllOf, Delivers;
    var order :| multiset(order) == multiset(v.Groups()) && Delivered(d, MatchLog(d, Scanned(d, d.total)), order);
    SameLength(order, v.Groups());
  }

  // The exact condition: no cluster lies within a group.
  lemma EachOnceIff(d: Disk, v: Volume)
    requires QuietDisk(d, v)
    ensures WorkOk(d, Scanned(d, d.total)) && (EachOnce(d, v) <==> Middles(v, d.size) == [])
  {
    hide LayoutOf, Gather, DirChunks, Quiet, MatchLog, Scanned, Laid, AllOf, PieceAt, ForeignAt, Pieces, Delivered,
      EachOnce;
    VolumeCalls(d, v);
    if EachOnce(d, v) { OnceMeansAsMany(d, v); }
    if Middles(v, d.size) == [] { OnceIfNoMiddle(d, v); }
  }
}
