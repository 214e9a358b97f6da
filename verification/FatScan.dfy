// The scan of M6-fsrecov/fsrecov.c: search_cluster, match_entries and full_scan, with what each
// leaves in `waiting` and passes to handle.

module FatScan {
  import opened Arith
  import opened FatEntry

  datatype Option<T> = None | Some(value: T)

  // A run of entries on the disk: struct entry_part.
  datatype Part = Part(pos: nat, len: nat)

  // The data area: its entries, how many make a cluster, and total_clusters.
  datatype Disk = Disk(entries: seq<Entry>, size: nat, total: nat) {
    ghost predicate Valid() { size > 0 && |entries| == size * total }
    predicate Basic(p: nat) requires p < |entries| { IsBasic(total, entries[p]) }
    predicate Long(p: nat) requires p < |entries| { IsLong(entries[p]) }
  }

  // ---- search_cluster ----

  // How many entries at the start of a cluster may belong to a group of another cluster.
  function LeadLen(d: Disk, start: nat): nat
    requires start < |d.entries|
  {
    var e := d.entries[start];
    if IsLong(e) && !IsLast(e) then Ord(e) + 1 else if IsBasic(d.total, e) then 1 else 0
  }

  function OpenEnd(curr: nat, p: nat): seq<Part>
    requires curr <= p
  {
    if curr != p then [Part(curr, p - curr)] else []
  }

  // The groups that end between p and end, the first one starting at curr.
  function Ends(d: Disk, end: nat, curr: nat, p: nat): seq<seq<Part>>
    requires curr <= p && end <= |d.entries|
    decreases |d.entries| - p
  {
    if p >= end then []
    else if d.Basic(p) then [[Part(curr, p - curr + 1)]] + Ends(d, end, p + 1, p + 1)
    else if d.Long(p) then Ends(d, end, curr, p + 1)
    else []
  }

  // The long-name entries that are left without a short entry.
  function Rest(d: Disk, end: nat, curr: nat, p: nat): seq<Part>
    requires curr <= p && end <= |d.entries|
    decreases |d.entries| - p
  {
    if p >= end then OpenEnd(curr, p)
    else if d.Basic(p) then Rest(d, end, p + 1, p + 1)
    else if d.Long(p) then Rest(d, end, curr, p + 1)
    else OpenEnd(curr, p)
  }

  // `waiting` and the calls of handle so far; a call names one run, or a head and its tail.
  datatype Work = Work(heads: seq<Part>, tails: seq<Part>, log: seq<seq<Part>>)

  function Searched(d: Disk, w: Work, start: nat): Work
    requires start + d.size <= |d.entries| && d.size > 0
  {
    var k := LeadLen(d, start);
    Work(w.heads + Rest(d, start + d.size, start + k, start + k),
         w.tails + (if k > 0 then [Part(start, k)] else []),
         w.log + Ends(d, start + d.size, start + k, start + k))
  }

  // ---- match_entries ----

  ghost predicate HeadOk(d: Disk, h: Part) { h.pos < |d.entries| && d.Long(h.pos) }
  ghost predicate TailOk(d: Disk, t: Part) { t.pos < |d.entries| && (d.Long(t.pos) || d.Basic(t.pos)) }

  // matched, whose two asserts hold of every head and tail.
  predicate Matched(d: Disk, h: Part, t: Part)
    requires HeadOk(d, h) && TailOk(d, t)
  {
    Chksum(d.entries[h.pos]) == if d.Long(t.pos) then Chksum(d.entries[t.pos]) else Checksum(d.entries[t.pos][..11])
  }

  ghost predicate PartsOk(d: Disk, heads: seq<Part>, tails: seq<Option<Part>>) {
    && (forall i :: 0 <= i < |heads| ==> HeadOk(d, heads[i]))
    && (forall j :: 0 <= j < |tails| && tails[j].Some? ==> TailOk(d, tails[j].value))
  }

  // One head against the first j tails.
  function TailsLeft(d: Disk, h: Part, tails: seq<Option<Part>>, j: nat): (r: seq<Option<Part>>)
    requires j <= |tails| && PartsOk(d, [h], tails)
    ensures PartsOk(d, [h], r) && |r| == |tails|
    ensures forall i :: j <= i < |tails| ==> r[i] == tails[i]
  {
    assert HeadOk(d, [h][0]);
    if j == 0 then tails
    else
      var r := TailsLeft(d, h, tails, j - 1);
      if r[j - 1].Some? && Matched(d, h, r[j - 1].value) then r[j - 1 := None] else r
  }

  function Pairs(d: Disk, h: Part, tails: seq<Option<Part>>, j: nat): seq<seq<Part>>
    requires j <= |tails| && PartsOk(d, [h], tails)
  {
    assert HeadOk(d, [h][0]);
    if j == 0 then []
    else
      Pairs(d, h, tails, j - 1) +
      (if tails[j - 1].Some? && Matched(d, h, tails[j - 1].value) then [[h, tails[j - 1].value]] else [])
  }

  // The first i heads against all tails.
  function AllLeft(d: Disk, heads: seq<Part>, tails: seq<Option<Part>>, i: nat): (r: seq<Option<Part>>)
    requires i <= |heads| && PartsOk(d, heads, tails)
    ensures PartsOk(d, heads, r) && |r| == |tails|
  {
    if i == 0 then tails
    else
      var r := AllLeft(d, heads, tails, i - 1);
      TailsLeft(d, heads[i - 1], r, |r|)
  }

  function AllPairs(d: Disk, heads: seq<Part>, tails: seq<Option<Part>>, i: nat): seq<seq<Part>>
    requires i <= |heads| && PartsOk(d, heads, tails)
  {
    if i == 0 then []
    else
      var r := AllLeft(d, heads, tails, i - 1);
      AllPairs(d, heads, tails, i - 1) + Pairs(d, heads[i - 1], r, |r|)
  }

  // What remains and has length 1 is taken for a short entry of its own.
  function Singles(tails: seq<Option<Part>>, j: nat): seq<seq<Part>>
    requires j <= |tails|
  {
    if j == 0 then []
    else
      Singles(tails, j - 1) +
      (if tails[j - 1].Some? && tails[j - 1].value.len == 1 then [[tails[j - 1].value]] else [])
  }

  function Somes(tails: seq<Part>): (r: seq<Option<Part>>)
    ensures |r| == |tails|
  {
    seq(|tails|, i requires 0 <= i < |tails| => Some(tails[i]))
  }

  ghost predicate WorkOk(d: Disk, w: Work) { PartsOk(d, w.heads, Somes(w.tails)) }

  function MatchLog(d: Disk, w: Work): seq<seq<Part>>
    requires WorkOk(d, w)
  {
    var left := AllLeft(d, w.heads, Somes(w.tails), |w.heads|);
    w.log + AllPairs(d, w.heads, Somes(w.tails), |w.heads|) + Singles(left, |left|)
  }

  // ---- full_scan ----

  // is_dirent_cluster_possibly
  predicate Possibly(d: Disk, start: nat) requires start < |d.entries| { d.Basic(start) || d.Long(start) }

  // first_byte_ptr_of_cluster
  function ClusterAt(d: Disk, n: nat): nat { n * d.size }

  // One cluster.
  function Stepped(d: Disk, w: Work, start: nat): Work
    requires start + d.size <= |d.entries| && d.size > 0
  {
    if Possibly(d, start) then Searched(d, w, start) else w
  }

  function ScanStep(d: Disk, w: Work, n: nat): Work
    requires d.Valid() && n < d.total
  {
    ClusterInDisk(d, n);
    Stepped(d, w, ClusterAt(d, n))
  }

  // After the first n clusters.
  function Scanned(d: Disk, n: nat): Work
    requires d.Valid() && n <= d.total
  {
    if n == 0 then Work([], [], []) else ScanStep(d, Scanned(d, n - 1), n - 1)
  }

  lemma ClusterInDisk(d: Disk, n: nat)
    requires d.Valid() && n < d.total
    ensures ClusterAt(d, n) + d.size <= |d.entries|
  {
    MulMono(n + 1, d.total, d.size);
    MulDist(n, 1, d.size);
  }

  // The first of the entries left over is a long-name entry, and a tail starts with an entry of
  // one of the two kinds: the asserts of matched never fail.
  lemma {:induction false} RestIsLong(d: Disk, end: nat, curr: nat, p: nat)
    requires curr <= p && end <= |d.entries| && (curr < p ==> curr < |d.entries| && d.Long(curr))
    ensures forall h :: h in Rest(d, end, curr, p) ==> HeadOk(d, h)
    decreases |d.entries| - p
  {
    if p < end {
      if d.Basic(p) { RestIsLong(d, end, p + 1, p + 1); }
      else if d.Long(p) { RestIsLong(d, end, curr, p + 1); }
    }
  }

  lemma SearchedOk(d: Disk, w: Work, start: nat)
    requires start + d.size <= |d.entries| && d.size > 0 && WorkOk(d, w)
    ensures WorkOk(d, Searched(d, w, start))
  {
    var w' := Searched(d, w, start);
    var k := LeadLen(d, start);
    RestIsLong(d, start + d.size, start + k, start + k);
    forall i | 0 <= i < |w'.heads| ensures HeadOk(d, w'.heads[i]) {
      if i >= |w.heads| { assert w'.heads[i] in Rest(d, start + d.size, start + k, start + k); }
    }
    forall j | 0 <= j < |w'.tails| ensures TailOk(d, w'.tails[j]) {
      if j < |w.tails| { assert Somes(w.tails)[j] == Some(w.tails[j]); }
    }
  }

  lemma {:induction false} ScannedOk(d: Disk, n: nat)
    requires d.Valid() && n <= d.total
    ensures WorkOk(d, Scanned(d, n))
  {
    if n > 0 {
      ScannedOk(d, n - 1);
      ClusterInDisk(d, n - 1);
      SearchedOk(d, Scanned(d, n - 1), ClusterAt(d, n - 1));
    }
  }

  class Recovery {
    const d: Disk
    var heads: seq<Part>
    var tails: seq<Option<Part>>
    var log: seq<seq<Part>>          // the calls of handle

    constructor (disk: Disk)
      ensures d == disk && heads == [] && tails == [] && log == []
    {
      d, heads, tails, log := disk, [], [], [];
    }

    ghost predicate Holds(w: Work) reads this { heads == w.heads && tails == Somes(w.tails) && log == w.log }

    method SearchCluster(start: nat, ghost w: Work)
      requires start + d.size <= |d.entries| && d.size > 0 && Holds(w)
      modifies this
      ensures Holds(Searched(d, w, start))
    {
      var p: nat := start;
      var first := d.entries[p];
      if IsLong(first) && !IsLast(first) {
        tails := tails + [Some(Part(p, Ord(first) + 1))];
        p := p + (Ord(first) + 1);
      } else if d.Basic(p) {
        tails := tails + [Some(Part(p, 1))];
        p := p + 1;
      }
      assert tails == Somes(Searched(d, w, start).tails);
      SearchGroups(p, start + d.size);
    }

    // The rest of the cluster, in groups.
    method SearchGroups(start: nat, end: nat)
      requires end <= |d.entries|
      modifies this`log, this`heads
      ensures log == old(log) + Ends(d, end, start, start) && heads == old(heads) + Rest(d, end, start, start)
    {
      var p, curr: nat, currEntries: nat := start, start, 0;
      while p < end
        invariant curr <= p && currEntries == p - curr && heads == old(heads)
        invariant log + Ends(d, end, curr, p) == old(log) + Ends(d, end, start, start)
        invariant Rest(d, end, curr, p) == Rest(d, end, start, start)
        decreases |d.entries| - p
      {
        if d.Basic(p) {
          log := log + [[Part(curr, currEntries + 1)]];
          p := p + 1;
          curr := p;
          currEntries := 0;
        } else if d.Long(p) {
          p := p + 1;
          currEntries := currEntries + 1;
        } else {
          break;
        }
      }
      if curr != p {
        heads := heads + [Part(curr, currEntries)];
      }
    }

    method MatchEntries(ghost w: Work)
      requires WorkOk(d, w) && Holds(w)
      modifies this
      ensures log == MatchLog(d, w)
    {
      var i := 0;
      ghost var t0 := Somes(w.tails);
      while i < |heads|
        invariant 0 <= i <= |heads| && heads == w.heads
        invariant tails == AllLeft(d, heads, t0, i) && log == w.log + AllPairs(d, heads, t0, i)
      {
        MatchHead(heads[i]);
        i := i + 1;
      }
      TakeSingles();
    }

    // What is left may be short entries of their own.
    method TakeSingles()
      modifies this`log
      ensures log == old(log) + Singles(tails, |tails|)
    {
      var j := 0;
      while j < |tails|
        invariant 0 <= j <= |tails| && log == old(log) + Singles(tails, j)
      {
        if tails[j].Some? && tails[j].value.len == 1 {
          log := log + [[tails[j].value]];
        }
        j := j + 1;
      }
    }

    // The inner loop: it goes on after a match.
    method MatchHead(head: Part)
      requires PartsOk(d, [head], tails)
      modifies this`tails, this`log
      ensures tails == TailsLeft(d, head, old(tails), |old(tails)|)
      ensures log == old(log) + Pairs(d, head, old(tails), |old(tails)|)
    {
      var j := 0;
      assert HeadOk(d, [head][0]);
      while j < |tails|
        invariant 0 <= j <= |tails| == |old(tails)|
        invariant tails == TailsLeft(d, head, old(tails), j) && log == old(log) + Pairs(d, head, old(tails), j)
      {
        if tails[j].Some? {
          var tail := tails[j].value;
          if Matched(d, head, tail) {
            log := log + [[head, tail]];
            tails := tails[j := None];
          }
        }
        j := j + 1;
      }
    }

    method FullScan()
      requires d.Valid() && heads == [] && tails == [] && log == []
      modifies this
      ensures WorkOk(d, Scanned(d, d.total)) && log == MatchLog(d, Scanned(d, d.total))
    {
      var n := 0;
      assert Somes([]) == [];
      while n < d.total
        invariant 0 <= n <= d.total && Holds(Scanned(d, n))
      {
        ClusterInDisk(d, n);
        var cluster := ClusterAt(d, n);
        if Possibly(d, cluster) {
          SearchCluster(cluster, Scanned(d, n));
        }
        n := n + 1;
      }
      ScannedOk(d, d.total);
      MatchEntries(Scanned(d, d.total));
    }
  }
}
