// How often match_entries of M6-fsrecov/fsrecov.c calls handle: once for every tail that has a
// head, so a group with clusters inside it is handled once too often for each of them.

module FatCalls {
  import opened FatEntry
  import opened FatScan
  import opened FatLayout
  import opened FatRecover
  import opened FatStream

  // No checksum occurs twice among heads, nor in a tail of another group; and the arrays of
  // `waiting` are large enough.
  ghost predicate Quiet(layout: seq<Chunk>) {
    var hs, ts := Heads(layout), Tails(layout);
    && |hs| <= 10 && |ts| <= 10
    && (forall i, j :: 0 <= i < j < |hs| ==> hs[i].g.Sum() != hs[j].g.Sum())
    && (forall i, j :: 0 <= i < |hs| && 0 <= j < |ts| && hs[i].g.Sum() == ts[j].Group().Sum() ==>
          OfGroup(ts[j], hs[i].g))
  }

  // A part of group g other than its first.
  predicate OfGroup(t: Tail, g: Group) { !t.Lone? && t.cut.g == g }

  predicate Hit(t: Tail, cuts: seq<Cut>) { exists c :: c in cuts && OfGroup(t, c.g) }

  // How many of the first j tails belong to one of these heads.
  ghost function Hits(ts: seq<Tail>, cuts: seq<Cut>, j: nat): nat
    requires j <= |ts|
  {
    if j == 0 then 0 else Hits(ts, cuts, j - 1) + (if Hit(ts[j - 1], cuts) then 1 else 0)
  }

  // The tails that the heads so far have left.
  ghost predicate Remain(left: seq<Option<Part>>, tails: seq<Part>, ts: seq<Tail>, cuts: seq<Cut>) {
    && |left| == |tails| == |ts|
    && forall j :: 0 <= j < |left| ==> left[j] == if Hit(ts[j], cuts) then None else Some(tails[j])
  }

  // Only the first j have met the head c yet.
  ghost predicate RemainTo(left: seq<Option<Part>>, tails: seq<Part>, ts: seq<Tail>, cuts: seq<Cut>, c: Cut, j: nat) {
    && |left| == |tails| == |ts|
    && forall i :: 0 <= i < |left| ==>
      left[i] == if Hit(ts[i], cuts) || (i < j && OfGroup(ts[i], c.g)) then None else Some(tails[i])
  }

  lemma HitMore(t: Tail, cuts: seq<Cut>, c: Cut)
    ensures Hit(t, cuts + [c]) <==> Hit(t, cuts) || OfGroup(t, c.g)
  {
    if OfGroup(t, c.g) { assert c in cuts + [c]; }
    if Hit(t, cuts) {
      var x :| x in cuts && OfGroup(t, x.g);
      assert x in cuts + [c];
    }
  }

  // The head matches exactly the tails of its group, and no earlier head has had them.
  ghost predicate Meets(d: Disk, h: Part, c: Cut, tails: seq<Part>, ts: seq<Tail>, cuts: seq<Cut>) {
    && |tails| == |ts| && HeadOk(d, h)
    && (forall i :: 0 <= i < |ts| ==> TailOk(d, tails[i]) && (Matched(d, h, tails[i]) <==> OfGroup(ts[i], c.g)))
    && (forall i :: 0 <= i < |ts| && OfGroup(ts[i], c.g) ==> !Hit(ts[i], cuts))
  }

  lemma MeetsOk(d: Disk, h: Part, c: Cut, left: seq<Option<Part>>, tails: seq<Part>, ts: seq<Tail>, cuts: seq<Cut>)
    requires Meets(d, h, c, tails, ts, cuts) && Remain(left, tails, ts, cuts)
    ensures PartsOk(d, [h], left)
  {
    hide Matched, HeadOk, TailOk, Hit;
  }

  // A head takes exactly the tails of its group that are left.
  lemma {:induction false} HeadTakes(d: Disk, h: Part, c: Cut, left: seq<Option<Part>>, tails: seq<Part>, ts: seq<Tail>,
                                     cuts: seq<Cut>, j: nat)
    requires j <= |left| && PartsOk(d, [h], left) && Remain(left, tails, ts, cuts) && Meets(d, h, c, tails, ts, cuts)
    ensures |Pairs(d, h, left, j)| + Hits(ts, cuts, j) == Hits(ts, cuts + [c], j)
    ensures RemainTo(TailsLeft(d, h, left, j), tails, ts, cuts, c, j)
  {
    hide Matched, HeadOk, TailOk, Hit;
    if j > 0 {
      HeadTakes(d, h, c, left, tails, ts, cuts, j - 1);
      HitMore(ts[j - 1], cuts, c);
    }
  }

  lemma RemainAll(left: seq<Option<Part>>, tails: seq<Part>, ts: seq<Tail>, cuts: seq<Cut>, c: Cut)
    requires RemainTo(left, tails, ts, cuts, c, |left|)
    ensures Remain(left, tails, ts, cuts + [c])
  {
    forall j | 0 <= j < |left| ensures left[j] == if Hit(ts[j], cuts + [c]) then None else Some(tails[j]) {
      HitMore(ts[j], cuts, c);
    }
  }

  // The parts of one group have its checksum, and Quiet says that no other tail has it.
  lemma MatchedIsOfGroup(d: Disk, layout: seq<Chunk>, w: Work, i: nat, j: nat)
    requires d.total + 1 < 0x1_0000 && Quiet(layout) && i < |w.heads| && j < |w.tails|
    requires AreHeads(d, w.heads, Heads(layout)) && AreTails(d, w.tails, Tails(layout))
    ensures HeadOk(d, w.heads[i]) && TailOk(d, w.tails[j])
    ensures Matched(d, w.heads[i], w.tails[j]) <==> OfGroup(Tails(layout)[j], Heads(layout)[i].g)
  {
    HeadSum(d, w.heads[i], Heads(layout)[i]);
    TailSum(d, w.tails[j], Tails(layout)[j]);
  }

  // No earlier head has the group of head i.
  lemma NotHitYet(layout: seq<Chunk>, i: nat, t: Tail)
    requires Quiet(layout) && i < |Heads(layout)| && OfGroup(t, Heads(layout)[i].g)
    ensures !Hit(t, Heads(layout)[..i])
  {
    var hs := Heads(layout);
    forall c | c in hs[..i] ensures !OfGroup(t, c.g) {
      var m :| 0 <= m < i && hs[m] == c;
      assert hs[m].g.Sum() != hs[i].g.Sum();
    }
  }

  lemma NextMeets(d: Disk, layout: seq<Chunk>, w: Work, i: nat)
    requires d.total + 1 < 0x1_0000 && Quiet(layout) && i < |w.heads|
    requires AreHeads(d, w.heads, Heads(layout)) && AreTails(d, w.tails, Tails(layout))
    ensures Meets(d, w.heads[i], Heads(layout)[i], w.tails, Tails(layout), Heads(layout)[..i])
  {
    hide Quiet, Hit, Matched, HeadOk, TailOk;
    var hs, ts := Heads(layout), Tails(layout);
    HeadSum(d, w.heads[i], hs[i]);
    forall j | 0 <= j < |ts|
      ensures TailOk(d, w.tails[j]) && (Matched(d, w.heads[i], w.tails[j]) <==> OfGroup(ts[j], hs[i].g))
    {
      MatchedIsOfGroup(d, layout, w, i, j);
    }
    forall j | 0 <= j < |ts| && OfGroup(ts[j], hs[i].g) ensures !Hit(ts[j], hs[..i]) { NotHitYet(layout, i, ts[j]); }
  }

  lemma NextTakes(d: Disk, layout: seq<Chunk>, w: Work, i: nat, left: seq<Option<Part>>)
    requires d.total + 1 < 0x1_0000 && Quiet(layout) && i < |w.heads|
    requires AreHeads(d, w.heads, Heads(layout)) && AreTails(d, w.tails, Tails(layout))
    requires Remain(left, w.tails, Tails(layout), Heads(layout)[..i]) && |left| == |w.tails| == |Tails(layout)|
    ensures PartsOk(d, [w.heads[i]], left)
    ensures Remain(TailsLeft(d, w.heads[i], left, |left|), w.tails, Tails(layout), Heads(layout)[..i + 1])
    ensures |Pairs(d, w.heads[i], left, |left|)| + Hits(Tails(layout), Heads(layout)[..i], |w.tails|)
         == Hits(Tails(layout), Heads(layout)[..i + 1], |w.tails|)
  {
    hide Quiet, Meets, Remain, RemainTo, Hits, Pairs, TailsLeft, Heads, Tails;
    var hs, ts, h, c := Heads(layout), Tails(layout), w.heads[i], Heads(layout)[i];
    NextMeets(d, layout, w, i);
    MeetsOk(d, h, c, left, w.tails, ts, hs[..i]);
    HeadTakes(d, h, c, left, w.tails, ts, hs[..i], |left|);
    assert hs[..i + 1] == hs[..i] + [c];
    RemainAll(TailsLeft(d, h, left, |left|), w.tails, ts, hs[..i], c);
  }

  lemma {:induction false} HeadsTake(d: Disk, layout: seq<Chunk>, w: Work, i: nat)
    requires d.total + 1 < 0x1_0000 && Quiet(layout) && WorkOk(d, w) && i <= |w.heads|
    requires AreHeads(d, w.heads, Heads(layout)) && AreTails(d, w.tails, Tails(layout))
    ensures Remain(AllLeft(d, w.heads, Somes(w.tails), i), w.tails, Tails(layout), Heads(layout)[..i])
    ensures |AllPairs(d, w.heads, Somes(w.tails), i)| == Hits(Tails(layout), Heads(layout)[..i], |w.tails|)
  {
    hide Quiet, Hit, Hits, Remain, Matched, HeadOk, TailOk;
    if i > 0 {
      HeadsTake(d, layout, w, i - 1);
      NextTakes(d, layout, w, i - 1, AllLeft(d, w.heads, Somes(w.tails), i - 1));
    } else {
      NoHits(Tails(layout), |w.tails|);
      NoneHit(w, Tails(layout));
    }
  }

  lemma {:induction false} NoHits(ts: seq<Tail>, j: nat)
    requires j <= |ts|
    ensures Hits(ts, [], j) == 0
  {
    if j > 0 { NoHits(ts, j - 1); }
  }

  lemma NoneHit(w: Work, ts: seq<Tail>)
    requires |w.tails| == |ts|
    ensures Remain(Somes(w.tails), w.tails, ts, [])
  {
  }

  // ---- all calls ----

  // Every tail that is no lone entry belongs to a head.
  ghost predicate AllHit(layout: seq<Chunk>) {
    forall j :: 0 <= j < |Tails(layout)| && !Tails(layout)[j].Lone? ==> Hit(Tails(layout)[j], Heads(layout))
  }

  lemma {:induction false} HitsAndLones(ts: seq<Tail>, cuts: seq<Cut>, j: nat)
    requires j <= |ts| && forall i :: 0 <= i < |ts| && !ts[i].Lone? ==> Hit(ts[i], cuts)
    ensures Hits(ts, cuts, j) + |Lones(ts[..j])| == j
  {
    if j > 0 {
      HitsAndLones(ts, cuts, j - 1);
      assert ts[..j][..j - 1] == ts[..j - 1];
    }
  }

  lemma {:induction false} SinglesAreLones(d: Disk, left: seq<Option<Part>>, tails: seq<Part>, ts: seq<Tail>,
                                           cuts: seq<Cut>, j: nat)
    requires Remain(left, tails, ts, cuts) && AreTails(d, tails, ts) && j <= |left|
    requires forall i :: 0 <= i < |ts| && !ts[i].Lone? ==> Hit(ts[i], cuts)
    ensures |Singles(left, j)| == |Lones(ts[..j])|
  {
    if j > 0 {
      SinglesAreLones(d, left, tails, ts, cuts, j - 1);
      assert ts[..j][..j - 1] == ts[..j - 1];
      assert IsTail(d, tails[j - 1], ts[j - 1]);
    }
  }

  // Together: one call for every inner group and one for every tail.
  lemma CallsAre(d: Disk, layout: seq<Chunk>)
    requires Laid(d, layout) && Quiet(layout) && AllHit(layout)
    ensures WorkOk(d, Scanned(d, d.total))
    ensures |MatchLog(d, Scanned(d, d.total))| == |Inners(layout)| + |Tails(layout)|
  {
    var w := Scanned(d, d.total);
    ScannedOk(d, d.total);
    ScannedIs(d, layout, d.total);
    assert layout[..d.total] == layout;
    var hs, ts, n := Heads(layout), Tails(layout), |w.heads|;
    HeadsTake(d, layout, w, n);
    assert hs[..n] == hs && ts[..|ts|] == ts;
    var left := AllLeft(d, w.heads, Somes(w.tails), n);
    SinglesAreLones(d, left, w.tails, ts, hs, |left|);
    HitsAndLones(ts, hs, |ts|);
  }
}
