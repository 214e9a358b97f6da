// A directory in which a cluster lies within a group, for every cluster of fewer than 20 entries,
// and a disk of such clusters on which the scan of M6-fsrecov/fsrecov.c passes a group on twice.

module FatCrowded {
  import opened Arith
  import opened FatEntry
  import opened FatScan
  import opened FatLayout
  import opened FatRecover
  import opened FatStream
  import opened FatCalls
  import opened FatDirectory
  import opened FatOnce
  import opened LongName

  // ---- the directory ----

  // A deleted file, whose name ends in this byte.
  function Deleted(last: Byte): (e: Entry)
    ensures e[0] == 0xE5 && e[11] == 0 && e[12] == 0 && e[10] == last && forall i :: 1 <= i < 10 ==> e[i] == 0
  {
    seq(32, i => if i == 0 then 0xE5 else if i == 10 then last else 0)
  }

  function Short(): Group { Group([], Deleted(0)) }

  // A file whose name takes n long-name entries.
  function Name(n: nat): (name: seq<Byte>)
    requires 1 <= n <= 20
    ensures |name| == 13 * n - 12
  {
    seq(13 * n - 12, _ => 'x' as int)
  }

  function Long(n: nat): (g: Group)
    requires 1 <= n <= 20
    ensures |g.longs| == n && g.short == Deleted(1)
  {
    Group(LongEntries(Name(n), Checksum(Deleted(1)[..11])), Deleted(1))
  }

  lemma TheyAreValid(total: nat, n: nat)
    requires 1 <= n <= 20
    ensures ValidGroup(total, Short()) && ValidGroup(total, Long(n)) && Short().Sum() != Long(n).Sum()
  {
    EncodedIsGroup(total, Name(n), Deleted(1));
    assert Deleted(0)[..10] == Deleted(1)[..10];
    assert Deleted(0)[..11] == Deleted(0)[..10] + [0] && Deleted(1)[..11] == Deleted(1)[..10] + [1];
    LastByteMatters(Deleted(0)[..10], 0, 1);
  }

  // All but one entry of a cluster, and then a group that is two entries longer than a cluster.
  function Shorts(n: nat): (gs: seq<Group>)
    ensures |gs| == n && forall i :: 0 <= i < n ==> gs[i] == Short()
  {
    seq(n, _ => Short())
  }

  function Big(size: nat): Group requires 1 <= size <= 19 { Long(size + 1) }

  function Crowd(size: nat): (gs: seq<Group>)
    requires 1 <= size <= 19
    ensures |gs| == size && gs[..size - 1] == Shorts(size - 1) && gs[size - 1] == Big(size)
  {
    Shorts(size - 1) + [Big(size)]
  }

  lemma CrowdIsValid(total: nat, size: nat)
    requires 1 <= size <= 19
    ensures AllValid(total, Crowd(size))
  {
    TheyAreValid(total, size + 1);
    forall i | 0 <= i < size ensures ValidGroup(total, Crowd(size)[i]) {
      if i < size - 1 { assert Crowd(size)[i] == Crowd(size)[..size - 1][i]; }
    }
  }

  // The short names leave room for one entry.
  lemma {:induction false} ShortsFit(n: nat, gs: seq<Group>, room: nat)
    requires n <= room
    ensures Fitting(Shorts(n) + gs, room) == n + Fitting(gs, room - n) && |Flat(Shorts(n))| == n
    decreases n
  {
    var all := Shorts(n) + gs;
    if n == 0 {
      assert all == gs;
    } else {
      assert all[0] == Short() && |Short().Entries()| == 1;
      assert all[1..] == Shorts(n - 1) + gs && Shorts(n)[1..] == Shorts(n - 1);
      ShortsFit(n - 1, gs, room - 1);
    }
  }

  function First(size: nat): Chunk
    requires 1 <= size <= 19
  {
    Chunk(None, Shorts(size - 1), Some(Cut(Big(size), 1)))
  }

  lemma FirstChunk(size: nat)
    requires 1 <= size <= 19
    ensures NextChunk(Start(Crowd(size)), size) == First(size)
    ensures NextRest(Start(Crowd(size)), size) == FatStream.Rest([Big(size)], 1)
  {
    var r, gs := Start(Crowd(size)), Crowd(size);
    assert gs == Shorts(size - 1) + [Big(size)] && r.Begun() == [] && r.After() == gs;
    ShortsFit(size - 1, [Big(size)], size);
    assert Fitting([Big(size)], 1) == 0;
    assert Wholes(r, size) == Shorts(size - 1) && Later(r, size) == [Big(size)];
  }

  // The rest of the last group is one entry more than a cluster.
  lemma LaterChunks(size: nat)
    requires 1 <= size <= 19
    ensures var r := FatStream.Rest([Big(size)], 1);
      && r.Ok() && NextChunk(r, size) == Middle(Cut(Big(size), 1))
      && NextRest(r, size) == FatStream.Rest([Big(size)], 1 + size)
    ensures var r := FatStream.Rest([Big(size)], 1 + size);
      && r.Ok() && NextChunk(r, size) == Chunk(Some(Cut(Big(size), 1 + size)), [], None)
      && NextRest(r, size) == FatStream.Rest([], 0)
  {
    var r := FatStream.Rest([Big(size)], 1 + size);
    assert r.After() == [] && r.Begun() == [Big(size).short];
    assert Wholes(r, size) == [] && Later(r, size) == [];
  }

  function CrowdChunks(size: nat): (cs: seq<Chunk>)
    requires 1 <= size <= 19
  {
    [First(size), Middle(Cut(Big(size), 1)), Chunk(Some(Cut(Big(size), 1 + size)), [], None)]
  }

  lemma CrowdIsCut(size: nat)
    requires 1 <= size <= 19
    ensures Chunks(Start(Crowd(size)), size) == CrowdChunks(size)
  {
    hide NextChunk, NextRest, Chunks, Big;
    var r0, r1, r2 := Start(Crowd(size)), FatStream.Rest([Big(size)], 1), FatStream.Rest([Big(size)], 1 + size);
    FirstChunk(size);
    LaterChunks(size);
    ChunksStep(r0, size);
    ChunksStep(r1, size);
    ChunksStep(r2, size);
    NothingMore(FatStream.Rest([], 0), size);
  }

  lemma ChunksStep(r: FatStream.Rest, size: nat)
    requires r.Ok() && r.gs != [] && size > 0
    ensures Chunks(r, size) == [NextChunk(r, size)] + Chunks(NextRest(r, size), size)
  {
    hide NextChunk, NextRest;
    NextShorter(r, size);
  }

  lemma GatherThree<T>(a: Chunk, b: Chunk, c: Chunk, f: Chunk -> seq<T>)
    ensures Gather([a, b, c], f) == f(a) + f(b) + f(c)
  {
    assert [a, b, c] == [a] + [b, c] && [b, c] == [b] + [c] && [c] == [c] + [];
    GatherFront(a, [b, c], f);
    GatherFront(b, [c], f);
    GatherFront(c, [], f);
    assert f(c) + [] == f(c);
    Regroup(f(a), f(b), f(c));
  }

  lemma CrowdHasMiddle(size: nat)
    requires 1 <= size <= 19
    ensures Gather(CrowdChunks(size), MiddleOf) == [Cut(Big(size), 1)]
  {
    GatherThree(First(size), CrowdChunks(size)[1], CrowdChunks(size)[2], MiddleOf);
  }

  // No directory has a cluster within a group if and only if a cluster has 20 entries or more.
  lemma NeverMiddleIff(total: nat, size: nat)
    requires size > 0
    ensures (forall v: Volume :: DirsValid(total, v.dirs) ==> Middles(v, size) == []) <==> size >= 20
  {
    if size >= 20 {
      forall v: Volume | DirsValid(total, v.dirs) ensures Middles(v, size) == [] { DirTwenty(total, v.dirs, size); }
    } else {
      var v := Volume([Crowd(size)], []);
      CrowdIsValid(total, size);
      CrowdIsCut(size);
      CrowdHasMiddle(size);
      OneDir(Crowd(size), size);
      assert DirsValid(total, v.dirs) && Middles(v, size) != [];
    }
  }

  lemma OneDir(gs: seq<Group>, size: nat)
    requires size > 0
    ensures DirChunks([gs], size) == Chunks(Start(gs), size) && Pieces([gs], size) == Chop(Flat(gs), size)
    ensures AllOf([gs]) == gs
  {
    assert [gs][1..] == [];
  }

  // ---- a disk for a directory ----

  function Blank(): Entry { seq(32, _ => 0) }

  function Blanks(n: nat): (s: seq<Entry>)
    ensures |s| == n && forall i :: 0 <= i < n ==> s[i] == Blank()
  {
    seq(n, _ => Blank())
  }

  // The stream, and blank entries up to the end of its last cluster.
  function Padded(s: seq<Entry>, size: nat): seq<Entry>
    requires size > 0
  {
    if s == [] then [] else if |s| <= size then s + Blanks(size - |s|) else s[..size] + Padded(s[size..], size)
  }

  lemma {:induction false} PaddedLength(s: seq<Entry>, size: nat)
    requires size > 0
    ensures |Padded(s, size)| == size * |Chop(s, size)|
    decreases |s|
  {
    if |s| > size {
      PaddedLength(s[size..], size);
      MulDist(1, |Chop(s[size..], size)|, size);
    }
  }

  ghost predicate PaddedAt(s: seq<Entry>, size: nat, i: nat)
    requires size > 0 && i < |Chop(s, size)|
  {
    var piece := Chop(s, size)[i];
    && |piece| <= size && HasAt(Padded(s, size), i * size, piece + Blanks(size - |piece|))
  }

  lemma {:induction false} PaddedHolds(s: seq<Entry>, size: nat, i: nat)
    requires size > 0 && i < |Chop(s, size)|
    ensures PaddedAt(s, size, i)
    decreases |s|
  {
    if |s| > size {
      if i > 0 {
        PaddedHolds(s[size..], size, i - 1);
        MulDist(1, i - 1, size);
        var piece := Chop(s, size)[i];
        HasLater(s[..size], Padded(s[size..], size), (i - 1) * size, piece + Blanks(size - |piece|));
      } else {
        assert s[..size] + Blanks(0) == s[..size];
      }
    }
  }

  lemma HasLater<T>(a: seq<T>, b: seq<T>, p: nat, content: seq<T>)
    requires HasAt(b, p, content)
    ensures HasAt(a + b, |a| + p, content)
  {
    forall i | 0 <= i < |content| ensures (a + b)[|a| + p + i] == content[i] {
      assert (a + b)[|a| + p + i] == b[p + i];
    }
  }

  function InOrder(n: nat): (at: seq<nat>)
    ensures |at| == n && forall i :: 0 <= i < n ==> at[i] == i
  {
    seq(n, i => i)
  }

  // A disk with one directory and nothing else.
  function DiskOf(gs: seq<Group>, size: nat): Disk
    requires size > 0
  {
    Disk(Padded(Flat(gs), size), size, |Chop(Flat(gs), size)|)
  }

  function VolumeOf(gs: seq<Group>, size: nat): Volume
    requires size > 0
  {
    Volume([gs], InOrder(|Chop(Flat(gs), size)|))
  }

  lemma PieceWritten(d: Disk, n: nat, piece: seq<Entry>)
    requires d.Valid() && n < d.total && |piece| <= d.size
    requires HasAt(d.entries, n * d.size, piece + Blanks(d.size - |piece|))
    ensures PieceAt(d, n, piece)
  {
    ClusterInDisk(d, n);
    HasSplit(d.entries, n * d.size, piece, Blanks(d.size - |piece|));
    if |piece| < d.size {
      assert d.entries[n * d.size + |piece| + 0] == Blanks(d.size - |piece|)[0];
    }
  }

  // Every directory can be on a disk.
  lemma CanBeWritten(gs: seq<Group>, size: nat)
    requires size > 0 && |Chop(Flat(gs), size)| + 1 < 0x1_0000 && AllValid(|Chop(Flat(gs), size)|, gs)
    ensures Written(DiskOf(gs, size), VolumeOf(gs, size))
  {
    hide Chop, Padded;
    var d, v := DiskOf(gs, size), VolumeOf(gs, size);
    OneDir(gs, size);
    PaddedLength(Flat(gs), size);
    forall i | 0 <= i < |v.at| ensures PieceAt(d, v.at[i], Pieces(v.dirs, size)[i]) {
      PaddedHolds(Flat(gs), size, i);
      PieceWritten(d, i, Chop(Flat(gs), size)[i]);
    }
    forall n: nat | n < d.total ensures n in v.at { assert v.at[n] == n; }
    assert d.Valid() && DirsValid(d.total, v.dirs) && |v.at| == |Pieces(v.dirs, d.size)|;
  }

  // ---- the disk on which a group is passed on twice ----

  lemma CrowdHeads(size: nat)
    requires 1 <= size <= 19
    ensures Heads(CrowdChunks(size)) == [Cut(Big(size), 1)]
    ensures Tails(CrowdChunks(size)) ==
      (if size > 1 then [Lone(Short())] else []) + [Inside(Cut(Big(size), 1)), OfCut(Cut(Big(size), 1 + size))]
  {
    var cs := CrowdChunks(size);
    TheyGather(cs);
    GatherThree(cs[0], cs[1], cs[2], HeadOf);
    GatherThree(cs[0], cs[1], cs[2], TailOf);
  }

  lemma CrowdIsQuiet(size: nat)
    requires 1 <= size <= 19
    ensures Quiet(CrowdChunks(size))
  {
    CrowdHeads(size);
    TheyAreValid(0, size + 1);
  }

  lemma PlacedInOrder(cs: seq<Chunk>)
    ensures Placed(cs, InOrder(|cs|), |cs|, |cs|) == cs
  {
    var at := InOrder(|cs|);
    PlacedAt(cs, at, |cs|, |cs|);
    forall n | 0 <= n < |cs| ensures Placed(cs, at, |cs|, |cs|)[n] == cs[n] { assert at[n] == n; }
  }

  lemma CrowdIsWritten(size: nat)
    requires 1 <= size <= 19
    ensures DiskOf(Crowd(size), size).size == size && QuietDisk(DiskOf(Crowd(size), size), VolumeOf(Crowd(size), size))
    ensures |Middles(VolumeOf(Crowd(size), size), size)| == 1
  {
    hide Chop, Flat, Gather, Placed, Crowd, CrowdChunks, Quiet, Padded;
    var gs, cs := Crowd(size), CrowdChunks(size);
    CrowdIsCut(size);
    OneDir(gs, size);
    PieceCount([gs], size);
    CrowdSmall(size);
    CrowdIsValid(3, size);
    CanBeWritten(gs, size);
    PlacedInOrder(cs);
    CrowdIsQuiet(size);
    CrowdHasMiddle(size);
  }

  lemma CrowdSmall(size: nat)
    requires 1 <= size <= 19
    ensures |CrowdChunks(size)| == 3
  {
  }

  // For every cluster size of 1 to 19 entries, 16 among them, there is a disk without any clash of
  // checksums on which handle is called once more than there are groups.
  lemma CalledTwice(size: nat)
    requires 1 <= size <= 19
    ensures var d, v := DiskOf(Crowd(size), size), VolumeOf(Crowd(size), size);
      && d.size == size && QuietDisk(d, v) && WorkOk(d, Scanned(d, d.total)) && !EachOnce(d, v)
      && |MatchLog(d, Scanned(d, d.total))| == |v.Groups()| + 1
  {
    hide Scanned, MatchLog, QuietDisk, EachOnce, DiskOf, VolumeOf, Middles;
    CrowdIsWritten(size);
    var d, v := DiskOf(Crowd(size), size), VolumeOf(Crowd(size), size);
    EachOnceIff(d, v);
    QuietCalls(d, v);
  }

  lemma QuietCalls(d: Disk, v: Volume)
    requires QuietDisk(d, v)
    ensures WorkOk(d, Scanned(d, d.total)) && |MatchLog(d, Scanned(d, d.total))| == |v.Groups()| + |Middles(v, d.size)|
  {
    VolumeCalls(d, v);
  }

  // The scan keeps its promise on all disks of a cluster size if and only if that is at least 20.
  lemma AlwaysOnceIff(size: nat)
    requires size > 0
    ensures (forall d: Disk, v: Volume :: d.size == size && QuietDisk(d, v) ==> Promise(d, v)) <==> size >= 20
  {
    if size >= 20 {
      forall d: Disk, v: Volume | d.size == size && QuietDisk(d, v) ensures Promise(d, v) {
        DirTwenty(d.total, v.dirs, size);
        EachOnceIff(d, v);
      }
    } else {
      CalledTwice(size);
      assert !Promise(DiskOf(Crowd(size), size), VolumeOf(Crowd(size), size));
    }
  }

  // The asserts of matched hold, and every group is handled exactly once.
  ghost predicate Promise(d: Disk, v: Volume)
    requires d.Valid()
  {
    WorkOk(d, Scanned(d, d.total)) && EachOnce(d, v)
  }
}
