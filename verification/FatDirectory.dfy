// Directories on the disk: the clusters of their streams, anywhere and in any order. The scan of
// M6-fsrecov/fsrecov.c recovers every group exactly once if and only if no cluster lies within one.

module FatDirectory {
  import opened FatEntry
  import opened FatScan
  import opened FatLayout
  import opened FatRecover
  import opened FatStream
  import opened FatCalls

  // ---- the clusters in their places ----

  // The groups of every directory, and the number of each of its clusters, directory by directory.
  datatype Volume = Volume(dirs: seq<seq<Group>>, at: seq<nat>) {
    function Groups(): seq<Group> { AllOf(dirs) }
  }

  function AllOf(dirs: seq<seq<Group>>): seq<Group> { if dirs == [] then [] else dirs[0] + AllOf(dirs[1..]) }

  function Start(gs: seq<Group>): FatStream.Rest { FatStream.Rest(gs, 0) }

  function Pieces(dirs: seq<seq<Group>>, size: nat): seq<seq<Entry>>
    requires size > 0
  {
    if dirs == [] then [] else Chop(Flat(dirs[0]), size) + Pieces(dirs[1..], size)
  }

  function DirChunks(dirs: seq<seq<Group>>, size: nat): seq<Chunk>
    requires size > 0
  {
    if dirs == [] then [] else Chunks(Start(dirs[0]), size) + DirChunks(dirs[1..], size)
  }

  ghost predicate DirsValid(total: nat, dirs: seq<seq<Group>>) {
    forall k :: 0 <= k < |dirs| ==> AllValid(total, dirs[k])
  }

  // The entries of all groups of a directory, one after the other, fill its clusters; behind them
  // there is no directory entry, and neither is there at the start of any other cluster.
  ghost predicate Written(d: Disk, v: Volume) {
    && d.Valid() && d.total + 1 < 0x1_0000 && DirsValid(d.total, v.dirs)
    && |v.at| == |Pieces(v.dirs, d.size)|
    && (forall i :: 0 <= i < |v.at| ==> v.at[i] < d.total)
    && (forall i, j :: 0 <= i < j < |v.at| ==> v.at[i] != v.at[j])
    && (forall i :: 0 <= i < |v.at| ==> PieceAt(d, v.at[i], Pieces(v.dirs, d.size)[i]))
    && (forall n: nat :: n < d.total && n !in v.at ==> ForeignAt(d, n))
  }

  ghost predicate PieceAt(d: Disk, n: nat, piece: seq<Entry>)
    requires d.Valid() && n < d.total
  {
    HoldsAt(d, ClusterAt(d, n), ClusterAt(d, n) + d.size, piece)
  }

  ghost predicate ForeignAt(d: Disk, n: nat)
    requires d.Valid() && n < d.total
  {
    ClusterInDisk(d, n);
    !Possibly(d, ClusterAt(d, n))
  }

  // What every cluster of the disk is, once the first i are in place.
  function Placed(cs: seq<Chunk>, at: seq<nat>, total: nat, i: nat): (layout: seq<Chunk>)
    requires |cs| == |at| && i <= |at| && forall j :: 0 <= j < |at| ==> at[j] < total
    ensures |layout| == total
  {
    if i == 0 then seq(total, _ => Foreign) else Placed(cs, at, total, i - 1)[at[i - 1] := cs[i - 1]]
  }

  lemma {:induction false} PlacedAt(cs: seq<Chunk>, at: seq<nat>, total: nat, i: nat)
    requires |cs| == |at| && i <= |at| && (forall j :: 0 <= j < |at| ==> at[j] < total)
    requires forall j, k :: 0 <= j < k < |at| ==> at[j] != at[k]
    ensures forall j :: 0 <= j < i ==> Placed(cs, at, total, i)[at[j]] == cs[j]
    ensures forall n: nat :: n < total && n !in at[..i] ==> Placed(cs, at, total, i)[n] == Foreign
  {
    if i > 0 {
      PlacedAt(cs, at, total, i - 1);
      assert at[..i] == at[..i - 1] + [at[i - 1]];
    }
  }

  // The whole disk.
  function LayoutOf(v: Volume, size: nat, total: nat): (layout: seq<Chunk>)
    requires size > 0 && |DirChunks(v.dirs, size)| == |v.at| && forall j :: 0 <= j < |v.at| ==> v.at[j] < total
    ensures |layout| == total
  {
    Placed(DirChunks(v.dirs, size), v.at, total, |v.at|)
  }

  // The i-th cluster of the directories is valid and holds the i-th piece of their streams.
  ghost predicate PieceIs(total: nat, c: Chunk, piece: seq<Entry>, size: nat) {
    && !c.Foreign? && ValidChunk(total, c) && Fits(c) && (c.Middle? ==> c.cut.k + size <= |c.cut.g.longs|)
    && piece == Content(c, size)
  }

  lemma {:induction false} PieceCount(dirs: seq<seq<Group>>, size: nat)
    requires size > 0
    ensures |Pieces(dirs, size)| == |DirChunks(dirs, size)|
  {
    if dirs != [] {
      var r := Start(dirs[0]);
      NothingMore(r, size);
      assert r.Stream() == Flat(dirs[0]);
      if Chunks(r, size) != [] { ChunksArePieces(r, size, 0); }
      PieceCount(dirs[1..], size);
    }
  }

  lemma {:induction false} PiecesAre(total: nat, dirs: seq<seq<Group>>, size: nat, i: nat)
    requires size > 0 && DirsValid(total, dirs) && i < |Pieces(dirs, size)|
    ensures i < |DirChunks(dirs, size)| && PieceIs(total, DirChunks(dirs, size)[i], Pieces(dirs, size)[i], size)
  {
    hide Chunks, ValidChunk, Content, Chop;
    PieceCount(dirs, size);
    PieceCount(dirs[..1], size);
    var r, n := Start(dirs[0]), |Chop(Flat(dirs[0]), size)|;
    assert r.Stream() == Flat(dirs[0]) && dirs[..1][1..] == [];
    if i < n {
      ChunksAreValid(total, r, size);
      ChunksArePieces(r, size, i);
      NotForeign(r, size, i);
    } else {
      PiecesAre(total, dirs[1..], size, i - n);
    }
  }

  lemma {:induction false} NotForeign(r: FatStream.Rest, size: nat, i: nat)
    requires r.Ok() && size > 0 && i < |Chunks(r, size)|
    ensures !Chunks(r, size)[i].Foreign?
    decreases |r.Stream()|
  {
    NextShorter(r, size);
    if i > 0 { NotForeign(NextRest(r, size), size, i - 1); }
  }

  lemma PieceIsChunk(d: Disk, n: nat, c: Chunk, piece: seq<Entry>)
    requires d.Valid() && n < d.total && PieceAt(d, n, piece) && PieceIs(d.total, c, piece, d.size)
    ensures ChunkAt(d, n, c)
  {
    ClusterInDisk(d, n);
  }

  // The disk as Laid has it.
  lemma WrittenIsLaid(d: Disk, v: Volume)
    requires Written(d, v)
    ensures |DirChunks(v.dirs, d.size)| == |v.at| && Laid(d, LayoutOf(v, d.size, d.total))
  {
    hide PieceIs, PieceAt, ChunkAt, Placed, Pieces, DirChunks;
    PieceCount(v.dirs, d.size);
    var cs, layout := DirChunks(v.dirs, d.size), LayoutOf(v, d.size, d.total);
    PlacedAt(cs, v.at, d.total, |v.at|);
    assert v.at[..|v.at|] == v.at;
    forall n | 0 <= n < d.total ensures ChunkAt(d, n, layout[n]) {
      if n in v.at {
        var i: nat :| i < |v.at| && v.at[i] == n;
        PiecesAre(d.total, v.dirs, d.size, i);
        PieceIsChunk(d, n, cs[i], Pieces(v.dirs, d.size)[i]);
      } else {
        assert ForeignAt(d, n);
        ForeignIsChunk(d, n);
      }
    }
  }

  lemma ForeignIsChunk(d: Disk, n: nat)
    requires d.Valid() && n < d.total && ForeignAt(d, n)
    ensures ChunkAt(d, n, Foreign)
  {
    ClusterInDisk(d, n);
  }

  // ---- what is gathered does not depend on the places ----

  lemma GatherUpdate<T>(layout: seq<Chunk>, n: nat, c: Chunk, f: Chunk -> seq<T>)
    requires n < |layout| && f(layout[n]) == []
    ensures multiset(Gather(layout[n := c], f)) == multiset(Gather(layout, f)) + multiset(f(c))
  {
    var a, b := layout[..n], layout[n + 1..];
    assert layout == a + ([layout[n]] + b) && layout[n := c] == a + ([c] + b);
    GatherJoin(a, [layout[n]] + b, f);
    GatherJoin(a, [c] + b, f);
    GatherFront(layout[n], b, f);
    GatherFront(c, b, f);
  }

  lemma {:induction false} GatherNothing<T>(layout: seq<Chunk>, f: Chunk -> seq<T>)
    requires f(Foreign) == [] && forall n :: 0 <= n < |layout| ==> layout[n] == Foreign
    ensures Gather(layout, f) == []
  {
    if layout != [] { GatherNothing(layout[..|layout| - 1], f); }
  }

  lemma GatherLast<T>(cs: seq<Chunk>, i: nat, f: Chunk -> seq<T>)
    requires 0 < i <= |cs|
    ensures Gather(cs[..i], f) == Gather(cs[..i - 1], f) + f(cs[i - 1])
  {
    assert cs[..i][..i - 1] == cs[..i - 1];
  }

  lemma PlacedFree(cs: seq<Chunk>, at: seq<nat>, total: nat, i: nat)
    requires |cs| == |at| && i < |at| && (forall j :: 0 <= j < |at| ==> at[j] < total)
    requires forall j, k :: 0 <= j < k < |at| ==> at[j] != at[k]
    ensures Placed(cs, at, total, i)[at[i]] == Foreign
    ensures Placed(cs, at, total, i + 1) == Placed(cs, at, total, i)[at[i] := cs[i]]
  {
    PlacedAt(cs, at, total, i);
    assert at[i] !in at[..i];
  }

  lemma {:induction false} GatherPlaced<T>(cs: seq<Chunk>, at: seq<nat>, total: nat, i: nat, f: Chunk -> seq<T>)
    requires |cs| == |at| && i <= |at| && (forall j :: 0 <= j < |at| ==> at[j] < total)
    requires (forall j, k :: 0 <= j < k < |at| ==> at[j] != at[k]) && f(Foreign) == []
    ensures multiset(Gather(Placed(cs, at, total, i), f)) == multiset(Gather(cs[..i], f))
  {
    if i == 0 {
      GatherNothing(Placed(cs, at, total, 0), f);
    } else {
      hide Placed, Gather;
      GatherPlaced(cs, at, total, i - 1, f);
      PlacedFree(cs, at, total, i - 1);
      GatherUpdate(Placed(cs, at, total, i - 1), at[i - 1], cs[i - 1], f);
      GatherLast(cs, i, f);
    }
  }

  lemma LayoutGathers<T>(d: Disk, v: Volume, f: Chunk -> seq<T>)
    requires Written(d, v) && |DirChunks(v.dirs, d.size)| == |v.at| && f(Foreign) == []
    ensures multiset(Gather(LayoutOf(v, d.size, d.total), f)) == multiset(Gather(DirChunks(v.dirs, d.size), f))
  {
    hide Placed, Gather, DirChunks, PieceAt, ForeignAt, Pieces;
    var cs := DirChunks(v.dirs, d.size);
    GatherPlaced(cs, v.at, d.total, |v.at|, f);
    assert cs[..|v.at|] == cs;
  }

  // The functions of FatRecover are of this kind.
  lemma {:induction false} TheyGather(layout: seq<Chunk>)
    ensures Heads(layout) == Gather(layout, HeadOf) && Tails(layout) == Gather(layout, TailOf)
    ensures Groups(layout) == Gather(layout, ChunkGroups) && Inners(layout) == Gather(layout, InnerOf)
  {
    if layout != [] { TheyGather(layout[..|layout| - 1]); }
  }
}
