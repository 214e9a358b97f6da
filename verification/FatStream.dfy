// Directories as the file system writes them: the entries of all groups one after the other, cut
// into clusters wherever one is full. What the scan of M6-fsrecov/fsrecov.c makes of such a stream.

module FatStream {
  import opened Arith
  import opened FatEntry
  import opened FatScan
  import opened FatLayout
  import opened FatRecover

  // ---- cutting ----

  // The stream in pieces of `size`, the last one shorter.
  function Chop<T>(s: seq<T>, size: nat): seq<seq<T>>
    requires size > 0
  {
    if s == [] then [] else if |s| <= size then [s] else [s[..size]] + Chop(s[size..], size)
  }

  // How many groups from the first one on fit into `room` entries.
  function Fitting(gs: seq<Group>, room: nat): (n: nat)
    ensures n <= |gs|
  {
    if gs == [] || |gs[0].Entries()| > room then 0 else 1 + Fitting(gs[1..], room - |gs[0].Entries()|)
  }

  // What is left of the stream: the groups, of whose first one k entries have been written.
  datatype Rest = Rest(gs: seq<Group>, k: nat) {
    predicate Ok() { k > 0 ==> gs != [] && k <= |gs[0].longs| }
    function Stream(): seq<Entry> requires Ok() { StreamLong(gs, k); Flat(gs)[k..] }
    // The entries of the group that has begun, and the groups after it.
    function Begun(): seq<Entry> requires Ok() { if k > 0 then gs[0].longs[k..] + [gs[0].short] else [] }
    function After(): seq<Group> requires Ok() { if k > 0 then gs[1..] else gs }
  }

  lemma StreamLong(gs: seq<Group>, k: nat)
    requires Rest(gs, k).Ok()
    ensures k <= |Flat(gs)| && (k > 0 ==> k < |Flat(gs)|)
  {
    if k > 0 { assert Flat(gs) == gs[0].Entries() + Flat(gs[1..]); }
  }

  // The next cluster is all within the group that has begun.
  predicate Within(r: Rest, size: nat) requires r.Ok() { |r.Begun()| > size }

  function Room(r: Rest, size: nat): nat requires r.Ok() && !Within(r, size) { size - |r.Begun()| }

  function Wholes(r: Rest, size: nat): (gs: seq<Group>)
    requires r.Ok() && !Within(r, size)
  {
    r.After()[..Fitting(r.After(), Room(r, size))]
  }

  function Later(r: Rest, size: nat): (gs: seq<Group>)
    requires r.Ok() && !Within(r, size)
  {
    r.After()[Fitting(r.After(), Room(r, size))..]
  }

  lemma {:induction false} FlatJoin(a: seq<Group>, b: seq<Group>)
    ensures Flat(a + b) == Flat(a) + Flat(b)
    decreases |a|
  {
    if a == [] {
      assert a + b == b;
    } else {
      assert (a + b)[1..] == a[1..] + b;
      FlatJoin(a[1..], b);
      Regroup(a[0].Entries(), Flat(a[1..]), Flat(b));
    }
  }

  // They fit, and the next one does not.
  lemma {:induction false} FittingFits(gs: seq<Group>, room: nat)
    ensures var n := Fitting(gs, room);
      |Flat(gs[..n])| <= room && (n < |gs| ==> |gs[n].Entries()| > room - |Flat(gs[..n])|)
    decreases |gs|
  {
    var n := Fitting(gs, room);
    if n > 0 {
      FittingFits(gs[1..], room - |gs[0].Entries()|);
      assert gs[..n][1..] == gs[1..][..n - 1];
    }
  }

  function Left(r: Rest, size: nat): (left: nat)
    requires r.Ok() && !Within(r, size)
    ensures Later(r, size) != [] ==> left <= |Later(r, size)[0].longs|
  {
    FittingFits(r.After(), Room(r, size));
    Room(r, size) - |Flat(Wholes(r, size))|
  }

  // The next cluster, and what is left then.
  function NextChunk(r: Rest, size: nat): Chunk
    requires r.Ok()
  {
    if Within(r, size) then Middle(Cut(r.gs[0], r.k))
    else
      Chunk(if r.k > 0 then Some(Cut(r.gs[0], r.k)) else None, Wholes(r, size),
            if Later(r, size) != [] && Left(r, size) > 0 then Some(Cut(Later(r, size)[0], Left(r, size))) else None)
  }

  function NextRest(r: Rest, size: nat): (r': Rest)
    requires r.Ok()
    ensures r'.Ok()
  {
    if Within(r, size) then Rest(r.gs, r.k + size)
    else Rest(Later(r, size), if Later(r, size) != [] then Left(r, size) else 0)
  }

  // ---- the clusters hold the pieces ----

  function Content(c: Chunk, size: nat): seq<Entry>
    requires Fits(c) && (c.Middle? ==> c.cut.k + size <= |c.cut.g.longs|)
  {
    match c
    case Foreign => []
    case Middle(cut) => cut.g.longs[cut.k..cut.k + size]
    case Chunk(_, whole, _) => LeadEntries(c) + Flat(whole) + TrailEntries(c)
  }

  lemma ChunkFits(r: Rest, size: nat)
    requires r.Ok()
    ensures var c := NextChunk(r, size); Fits(c) && (c.Middle? ==> c.cut.k + size <= |c.cut.g.longs|)
  {
  }

  lemma BegunThenAfter(r: Rest)
    requires r.Ok()
    ensures r.Stream() == r.Begun() + Flat(r.After())
  {
    StreamLong(r.gs, r.k);
    if r.k > 0 {
      var g := r.gs[0];
      assert Flat(r.gs) == g.Entries() + Flat(r.gs[1..]);
      assert g.Entries()[r.k..] == g.longs[r.k..] + [g.short];
    }
  }

  // One cluster takes the next piece of the stream; it is full unless the stream ends in it.
  lemma WithinContent(r: Rest, size: nat)
    requires r.Ok() && Within(r, size)
    ensures ChunkHasPiece(r, size)
  {
    ChunkFits(r, size);
    StreamLong(r.gs, r.k);
    StreamLong(r.gs, r.k + size);
    var g := r.gs[0];
    assert Flat(r.gs) == g.Entries() + Flat(r.gs[1..]);
    assert Flat(r.gs)[r.k..] == Flat(r.gs)[r.k..r.k + size] + Flat(r.gs)[r.k + size..];
    assert Flat(r.gs)[r.k..r.k + size] == g.longs[r.k..r.k + size];
  }

  ghost predicate ChunkHasPiece(r: Rest, size: nat)
    requires r.Ok()
  {
    ChunkFits(r, size);
    var c, r' := Content(NextChunk(r, size), size), NextRest(r, size);
    r.Stream() == c + r'.Stream() && |c| <= size && (r'.Stream() != [] ==> |c| == size)
  }

  // What does not fit is what the next clusters start with.
  lemma LaterSplit(r: Rest, size: nat)
    requires r.Ok() && !Within(r, size)
    ensures Fits(NextChunk(r, size))
    ensures Flat(Later(r, size)) == TrailEntries(NextChunk(r, size)) + NextRest(r, size).Stream()
  {
    ChunkFits(r, size);
    hide Fitting, Left, Within, Wholes;
    var later, r' := Later(r, size), NextRest(r, size);
    StreamLong(r'.gs, r'.k);
    if later != [] { assert Flat(later) == later[0].Entries() + Flat(later[1..]); }
  }

  lemma AllSplit(r: Rest, size: nat)
    requires r.Ok() && !Within(r, size)
    ensures Flat(r.After()) == Flat(Wholes(r, size)) + Flat(Later(r, size))
  {
    assert r.After() == Wholes(r, size) + Later(r, size);
    FlatJoin(Wholes(r, size), Later(r, size));
  }

  // It is full unless nothing is left.
  lemma FilledSize(r: Rest, size: nat)
    requires r.Ok() && !Within(r, size)
    ensures Fits(NextChunk(r, size))
    ensures var n := |r.Begun()| + |Flat(Wholes(r, size))| + |TrailEntries(NextChunk(r, size))|;
      n <= size && (NextRest(r, size).gs != [] ==> n == size)
  {
    ChunkFits(r, size);
    FittingFits(r.After(), Room(r, size));
  }

  lemma FilledContent(r: Rest, size: nat)
    requires r.Ok() && !Within(r, size)
    ensures ChunkHasPiece(r, size)
  {
    ChunkFits(r, size);
    BegunThenAfter(r);
    AllSplit(r, size);
    LaterSplit(r, size);
    FilledSize(r, size);
    var c, r' := NextChunk(r, size), NextRest(r, size);
    assert c.whole == Wholes(r, size) && LeadEntries(c) == r.Begun();
    hide Fitting, Left, NextRest, Later, TrailEntries, Flat, Wholes;
    StreamLong(r'.gs, r'.k);
    FourParts(r.Begun(), Flat(c.whole), TrailEntries(c), r'.Stream());
  }

  lemma FourParts<T>(a: seq<T>, b: seq<T>, c: seq<T>, d: seq<T>)
    ensures a + (b + (c + d)) == a + b + c + d
  {
  }

  lemma NextContent(r: Rest, size: nat)
    requires r.Ok()
    ensures ChunkHasPiece(r, size)
  {
    if Within(r, size) { WithinContent(r, size); } else { FilledContent(r, size); }
  }

  lemma NextShorter(r: Rest, size: nat)
    requires r.Ok() && r.gs != [] && size > 0
    ensures |NextRest(r, size).Stream()| < |r.Stream()|
  {
    NextContent(r, size);
    StreamLong(r.gs, r.k);
    BegunThenAfter(r);
    assert Flat(r.gs) == r.gs[0].Entries() + Flat(r.gs[1..]);
  }

  // All clusters of a directory.
  function Chunks(r: Rest, size: nat): seq<Chunk>
    requires r.Ok() && size > 0
    decreases |r.Stream()|
  {
    if r.gs == [] then [] else
      NextShorter(r, size);
      [NextChunk(r, size)] + Chunks(NextRest(r, size), size)
  }

  // They hold the pieces of the stream.
  lemma {:induction false} ChunksArePieces(r: Rest, size: nat, i: nat)
    requires r.Ok() && size > 0 && i < |Chunks(r, size)|
    ensures |Chop(r.Stream(), size)| == |Chunks(r, size)|
    ensures var c := Chunks(r, size)[i];
      Fits(c) && (c.Middle? ==> c.cut.k + size <= |c.cut.g.longs|) && Chop(r.Stream(), size)[i] == Content(c, size)
    decreases |r.Stream()|
  {
    var r' := NextRest(r, size);
    NextShorter(r, size);
    NextContent(r, size);
    ChunkFits(r, size);
    var c := Content(NextChunk(r, size), size);
    PieceFirst(r.Stream(), c, r'.Stream(), size);
    NothingMore(r', size);
    if Chunks(r', size) != [] { ChunksArePieces(r', size, if i > 0 then i - 1 else 0); }
  }

  lemma PieceFirst<T>(s: seq<T>, a: seq<T>, b: seq<T>, size: nat)
    requires size > 0 && s == a + b && s != [] && |a| <= size && (b != [] ==> |a| == size)
    ensures Chop(s, size) == [a] + Chop(b, size)
  {
    if b == [] { assert s == a; } else { assert s[..size] == a && s[size..] == b; }
  }

  lemma NothingMore(r: Rest, size: nat)
    requires r.Ok() && size > 0
    ensures (Chunks(r, size) == [] <==> r.gs == []) && (r.gs == [] <==> r.Stream() == [])
  {
    StreamLong(r.gs, r.k);
    if r.gs != [] { assert Flat(r.gs) == r.gs[0].Entries() + Flat(r.gs[1..]); }
  }

  // ---- the clusters are valid ----

  ghost predicate AllValid(total: nat, gs: seq<Group>) { forall i :: 0 <= i < |gs| ==> ValidGroup(total, gs[i]) }

  lemma NextValid(total: nat, r: Rest, size: nat)
    requires r.Ok() && r.gs != [] && size > 0 && AllValid(total, r.gs)
    ensures ValidChunk(total, NextChunk(r, size)) && AllValid(total, NextRest(r, size).gs)
  {
    assert ValidGroup(total, r.gs[0]);
    if !Within(r, size) {
      forall i | 0 <= i < |r.After()| ensures ValidGroup(total, r.After()[i]) {
        assert r.After()[i] == r.gs[if r.k > 0 then i + 1 else i];
      }
      var n := Fitting(r.After(), Room(r, size));
      forall i | 0 <= i < |Later(r, size)| ensures ValidGroup(total, Later(r, size)[i]) {
        assert Later(r, size)[i] == r.After()[n + i];
      }
    }
  }

  lemma {:induction false} ChunksAreValid(total: nat, r: Rest, size: nat)
    requires r.Ok() && size > 0 && AllValid(total, r.gs)
    ensures forall i :: 0 <= i < |Chunks(r, size)| ==> ValidChunk(total, Chunks(r, size)[i])
    decreases |r.Stream()|
  {
    if r.gs != [] {
      NextShorter(r, size);
      NextValid(total, r, size);
      ChunksAreValid(total, NextRest(r, size), size);
    }
  }

  // ---- groups, heads and tails along the directory ----

  function Gather<T>(cs: seq<Chunk>, f: Chunk -> seq<T>): seq<T> {
    if cs == [] then [] else Gather(cs[..|cs| - 1], f) + f(cs[|cs| - 1])
  }

  lemma {:induction false} GatherJoin<T>(a: seq<Chunk>, b: seq<Chunk>, f: Chunk -> seq<T>)
    ensures Gather(a + b, f) == Gather(a, f) + Gather(b, f)
    decreases |b|
  {
    if b == [] {
      assert a + b == a;
    } else {
      assert (a + b)[..|a + b| - 1] == a + b[..|b| - 1];
      GatherJoin(a, b[..|b| - 1], f);
    }
  }

  lemma GatherFront<T>(c: Chunk, b: seq<Chunk>, f: Chunk -> seq<T>)
    ensures Gather([c] + b, f) == f(c) + Gather(b, f)
  {
    GatherJoin([c], b, f);
    assert [c][..0] == [];
  }

  function LeadOf(c: Chunk): seq<Cut> { if c.Chunk? && c.lead.Some? then [c.lead.value] else [] }
  function MiddleOf(c: Chunk): seq<Cut> { if c.Middle? then [c.cut] else [] }

  // The group that has begun.
  function Open(r: Rest): seq<Cut> requires r.Ok() { if r.k > 0 then [Cut(r.gs[0], r.k)] else [] }

  // Every group is somewhere, and where one is left open it is taken up again.
  lemma {:induction false} AllGroups(r: Rest, size: nat)
    requires r.Ok() && size > 0
    ensures Gather(Chunks(r, size), ChunkGroups) == r.After()
    decreases |r.Stream()|
  {
    if r.gs != [] {
      var c, r' := NextChunk(r, size), NextRest(r, size);
      NextShorter(r, size);
      AllGroups(r', size);
      GatherFront(c, Chunks(r', size), ChunkGroups);
      NextGroups(r, size);
    }
  }

  lemma NextGroups(r: Rest, size: nat)
    requires r.Ok()
    ensures ChunkGroups(NextChunk(r, size)) + NextRest(r, size).After() == r.After()
  {
    hide Fitting, Left;
    if !Within(r, size) {
      assert r.After() == Wholes(r, size) + Later(r, size);
      if NextRest(r, size).k > 0 { assert Later(r, size) == [Later(r, size)[0]] + Later(r, size)[1..]; }
    }
  }

  // As many leads as trails, and the same ones if no cluster lies within a group.
  lemma {:induction false} LeadsAndHeads(r: Rest, size: nat)
    requires r.Ok() && size > 0
    ensures var cs := Chunks(r, size);
      |Gather(cs, LeadOf)| == |Open(r)| + |Gather(cs, HeadOf)|
    ensures var cs := Chunks(r, size);
      Gather(cs, MiddleOf) == [] ==> Gather(cs, LeadOf) == Open(r) + Gather(cs, HeadOf)
    decreases |r.Stream()|
  {
    if r.gs != [] {
      var c, r' := NextChunk(r, size), NextRest(r, size);
      NextShorter(r, size);
      LeadsAndHeads(r', size);
      GatherFront(c, Chunks(r', size), LeadOf);
      GatherFront(c, Chunks(r', size), HeadOf);
      GatherFront(c, Chunks(r', size), MiddleOf);
      assert c.Chunk? ==> HeadOf(c) == Open(r');
    }
  }

  // A lead or a cluster within a group belongs to a group with a head, or to the one that has begun.
  ghost predicate HasHead(cs: seq<Chunk>, r: Rest, x: Cut)
    requires r.Ok()
  {
    (exists h :: h in Gather(cs, HeadOf) && h.g == x.g) || (r.k > 0 && x.g == r.gs[0])
  }

  lemma {:induction false} CutsHaveHeads(r: Rest, size: nat, x: Cut)
    requires r.Ok() && size > 0 && (x in Gather(Chunks(r, size), LeadOf) || x in Gather(Chunks(r, size), MiddleOf))
    ensures HasHead(Chunks(r, size), r, x)
    decreases |r.Stream()|
  {
    if r.gs != [] {
      var c, r' := NextChunk(r, size), NextRest(r, size);
      NextShorter(r, size);
      GatherFront(c, Chunks(r', size), LeadOf);
      GatherFront(c, Chunks(r', size), HeadOf);
      GatherFront(c, Chunks(r', size), MiddleOf);
      if x !in LeadOf(c) && x !in MiddleOf(c) {
        CutsHaveHeads(r', size, x);
        if c.Chunk? && r'.k > 0 { assert Open(r')[0] in HeadOf(c); }
      }
    }
  }

  // ---- clusters within a group ----

  // With clusters of 20 entries or more none lies within a group: a group has at most 21 entries.
  lemma {:induction false} TwentyIsEnough(total: nat, r: Rest, size: nat)
    requires r.Ok() && AllValid(total, r.gs) && size >= 20
    ensures Gather(Chunks(r, size), MiddleOf) == []
    decreases |r.Stream()|
  {
    if r.gs != [] {
      NextShorter(r, size);
      NextValid(total, r, size);
      assert ValidGroup(total, r.gs[0]) && !Within(r, size);
      TwentyIsEnough(total, NextRest(r, size), size);
      GatherFront(NextChunk(r, size), Chunks(NextRest(r, size), size), MiddleOf);
    }
  }
}
