// attention_forward of M3-gpt/gpt.c, in place: four passes for every head of every position.

module GptAttention {
  import opened Arith
  import opened GptRows
  import opened GptFormulas
  import opened GptLayers
  import opened GptTensors

  // The rows of one batch: queries, keys and values side by side, 3C entries for each position.
  ghost predicate Inputs(m: Row, inpB: nat, C: nat, Q: seq<Row>) { RowsAre(m, inpB, C * 3, Q) }

  ghost predicate InHead(a: Head) { a.off + a.hs <= a.C }

  lemma EntryIs(m: Row, inpB: nat, C: nat, Q: seq<Row>, t: nat, k: nat)
    requires Inputs(m, inpB, C, Q) && t < |Q| && k < C * 3
    ensures Entry(RowAt(Q, t), k) == Entry(m, inpB + t * (C * 3) + k)
  {
    assert RowOf(m, Pos(inpB, C * 3, t), C * 3)[k] == Q[t][k];
  }

  // Where the rows of batch b start.
  function BatchAt(inp: nat, b: nat, T: nat, C: nat): nat { inp + b * T * (C * 3) }

  // ---- the passes ----

  lemma NoProduct(q: Row, k: Row, a: Head)
    ensures Product(q, k, a, 0) == 0.0
  {
  }

  lemma ProductNext(q: Row, k: Row, a: Head, i: nat, val: real, x: real, y: real)
    requires val == Product(q, k, a, i) && x == Entry(q, a.off + i) && y == Entry(k, a.off + a.C + i)
    ensures val + x * y == Product(q, k, a, i + 1)
  {
  }

  // (query_t) dot (key_t2)
  method ProductOf(mem: array<real>, inpB: nat, a: Head, t: nat, t2: nat, ghost Q: seq<Row>) returns (val: real)
    requires Inputs(mem[..], inpB, a.C, Q) && InHead(a) && t < |Q| && t2 < |Q| && In(mem.Length, inpB, |Q| * (a.C * 3))
    ensures val == Product(Q[t], Q[t2], a, a.hs)
  {
    hide Product, Inputs;
    NoProduct(Q[t], Q[t2], a);
    var query, key := inpB + t * (a.C * 3) + a.off, inpB + t2 * (a.C * 3) + a.off + a.C;
    PosIn(inpB, a.C * 3, t, |Q|);
    PosIn(inpB, a.C * 3, t2, |Q|);
    val := 0.0;
    var i := 0;
    while i < a.hs
      invariant 0 <= i <= a.hs && val == Product(Q[t], Q[t2], a, i)
    {
      EntryIs(mem[..], inpB, a.C, Q, t, a.off + i);
      EntryIs(mem[..], inpB, a.C, Q, t2, a.off + a.C + i);
      ProductNext(Q[t], Q[t2], a, i, val, mem[query + i], mem[key + i]);
      val := val + mem[query + i] * mem[key + i];
      i := i + 1;
    }
  }

  lemma ScoreIs(Q: seq<Row>, t: nat, a: Head, t2: nat)
    requires t2 <= t < |Q|
    ensures Scores(Q, t, a, t + 1)[t2] == Product(Q[t], Q[t2], a, a.hs) * a.scale
  {
  }

  method ScoreOf(mem: array<real>, inpB: nat, a: Head, t: nat, t2: nat, ghost Q: seq<Row>) returns (val: real)
    requires Inputs(mem[..], inpB, a.C, Q) && InHead(a) && t2 <= t < |Q| && In(mem.Length, inpB, |Q| * (a.C * 3))
    ensures val == Scores(Q, t, a, t + 1)[t2]
  {
    val := ProductOf(mem, inpB, a, t, t2, Q);
    val := val * a.scale;
    ScoreIs(Q, t, a, t2);
  }

  // pass 1: the scores and their maximum
  method ScoresInto(mem: array<real>, preatt: nat, inpB: nat, a: Head, t: nat, ghost Q: seq<Row>) returns (maxval: real)
    requires Inputs(mem[..], inpB, a.C, Q) && InHead(a) && t < |Q| && In(mem.Length, inpB, |Q| * (a.C * 3))
    requires In(mem.Length, preatt, t + 1) && Apart(preatt, t + 1, inpB, |Q| * (a.C * 3))
    modifies mem
    ensures RowOf(mem[..], preatt, t + 1) == Scores(Q, t, a, t + 1)
      && SameBut(old(mem[..]), mem[..], [Slice(preatt, t + 1)])
    ensures maxval == MaxOf(Scores(Q, t, a, t + 1), t + 1)
  {
    hide Scores, Product;
    ghost var m0 := mem[..];
    ghost var r := Scores(Q, t, a, t + 1);
    maxval := FLOOR;
    var t2 := 0;
    while t2 <= t
      invariant 0 <= t2 <= t + 1 && Kept(m0, mem[..], preatt, t + 1) && maxval == MaxOf(r, t2)
      invariant forall z {:trigger mem[z]} :: preatt <= z < preatt + t2 ==> mem[z] == r[z - preatt]
    {
      InputsKept(m0, mem[..], preatt, t + 1, inpB, a.C, Q);
      var val := ScoreOf(mem, inpB, a, t, t2, Q);
      if val > maxval { maxval := val; }
      mem[preatt + t2] := val;
      t2 := t2 + 1;
    }
    Written(m0, mem[..], preatt, t + 1, r);
  }

  lemma KeptIsSame(p: Row, q: Row, at: nat, n: nat)
    requires Kept(p, q, at, n)
    ensures SameBut(p, q, [Slice(at, n)])
  {
    var w := [Slice(at, n)];
    forall x: nat | Outside(w, x) ensures Entry(q, x) == Entry(p, x) { assert w[0] == Slice(at, n); }
  }

  lemma InputsKept(p: Row, q: Row, at: nat, n: nat, inpB: nat, C: nat, Q: seq<Row>)
    requires Kept(p, q, at, n) && Inputs(p, inpB, C, Q) && Apart(at, n, inpB, |Q| * (C * 3))
    ensures Inputs(q, inpB, C, Q)
  {
    KeptIsSame(p, q, at, n);
    RowsKept(p, q, [Slice(at, n)], inpB, C * 3, Q);
  }

  ghost predicate Scaled(p: Row, q: Row, at: nat, n: nat, k: real) {
    |q| == |p| && forall z {:trigger q[z]} :: at <= z < at + n && z < |p| ==> q[z] == p[z] * k
  }

  // pass 3: normalize up to t, and zeros after it
  method NormalizeAtt(mem: array<real>, att: nat, t: nat, T: nat, inverse: real)
    requires t < T && In(mem.Length, att, T)
    modifies mem
    ensures Kept(old(mem[..]), mem[..], att, T)
    ensures forall z {:trigger mem[z]} :: att <= z < att + T ==>
      mem[z] == if z <= att + t then old(mem[z]) * inverse else 0.0
    ensures Scaled(old(mem[..]), mem[..], att, t + 1, inverse)
  {
    var t2 := 0;
    while t2 < T
      invariant 0 <= t2 <= T && Kept(old(mem[..]), mem[..], att, T)
      invariant forall z {:trigger mem[z]} :: att <= z < att + t2 ==>
        mem[z] == if z <= att + t then old(mem[z]) * inverse else 0.0
      invariant forall z {:trigger mem[z]} :: att + t2 <= z < att + T ==> mem[z] == old(mem[z])
    {
      if t2 <= t {
        mem[att + t2] := mem[att + t2] * inverse;
      } else {
        mem[att + t2] := 0.0;
      }
      t2 := t2 + 1;
    }
  }

  // pass 4: the weighted values
  method WeightedInto(mem: array<real>, out: nat, att: nat, inpB: nat, a: Head, t: nat, ghost Q: seq<Row>, ghost w: Row)
    requires Inputs(mem[..], inpB, a.C, Q) && InHead(a) && t < |Q| && In(mem.Length, inpB, |Q| * (a.C * 3))
    requires In(mem.Length, out, a.hs) && In(mem.Length, att, t + 1) && RowOf(mem[..], att, t + 1) == w
    requires Apart(out, a.hs, att, t + 1) && Apart(out, a.hs, inpB, |Q| * (a.C * 3))
    modifies mem
    ensures Kept(old(mem[..]), mem[..], out, a.hs)
    ensures forall z {:trigger mem[z]} :: out <= z < out + a.hs ==> mem[z] == Weighted(Q, w, a, z - out, t + 1)
  {
    hide Inputs;
    ghost var m0 := mem[..];
    var i := 0;
    while i < a.hs
      invariant 0 <= i <= a.hs && Kept(m0, mem[..], out, a.hs)
      invariant forall z {:trigger mem[z]} :: out <= z < out + i ==> mem[z] == 0.0
    {
      mem[out + i] := 0.0;
      i := i + 1;
    }
    var t2 := 0;
    while t2 <= t
      invariant 0 <= t2 <= t + 1 && Kept(m0, mem[..], out, a.hs)
      invariant forall z {:trigger mem[z]} :: out <= z < out + a.hs ==> mem[z] == Weighted(Q, w, a, z - out, t2)
    {
      assert w[t2] == m0[att + t2] == mem[att + t2];
      AddValues(mem, out, mem[att + t2], inpB, a, t2, Q, w, m0);
      t2 := t2 + 1;
    }
  }

  lemma WeightedNext(Q: seq<Row>, w: Row, a: Head, i: nat, t2: nat, x: real, v: real)
    requires x == Weighted(Q, w, a, i, t2) && v == Entry(RowAt(Q, t2), a.off + 2 * a.C + i)
    ensures x + Entry(w, t2) * v == Weighted(Q, w, a, i, t2 + 1)
  {
  }

  // out_bth[i] += att_btht2 * value_t2[i]
  method AddValue(mem: array<real>, cell: nat, weight: real, value: nat, ghost a: Head, ghost i: nat, ghost t2: nat,
      ghost Q: seq<Row>, ghost w: Row)
    requires cell < mem.Length && value < mem.Length && weight == Entry(w, t2)
    requires mem[cell] == Weighted(Q, w, a, i, t2) && mem[value] == Entry(RowAt(Q, t2), a.off + 2 * a.C + i)
    modifies mem
    ensures mem[cell] == Weighted(Q, w, a, i, t2 + 1)
    ensures forall z {:trigger mem[z]} :: 0 <= z < mem.Length && z != cell ==> mem[z] == old(mem[z])
  {
    WeightedNext(Q, w, a, i, t2, mem[cell], mem[value]);
    mem[cell] := mem[cell] + weight * mem[value];
  }

  // One position's contribution.
  method AddValues(mem: array<real>, out: nat, weight: real, inpB: nat, a: Head, t2: nat, ghost Q: seq<Row>,
      ghost w: Row, ghost m0: Row)
    requires Inputs(m0, inpB, a.C, Q) && InHead(a) && t2 < |Q| && In(mem.Length, inpB, |Q| * (a.C * 3))
      && In(mem.Length, out, a.hs)
    requires Apart(out, a.hs, inpB, |Q| * (a.C * 3)) && weight == Entry(w, t2) && Kept(m0, mem[..], out, a.hs)
    requires forall z {:trigger mem[z]} :: out <= z < out + a.hs ==> mem[z] == Weighted(Q, w, a, z - out, t2)
    modifies mem
    ensures Kept(m0, mem[..], out, a.hs)
    ensures forall z {:trigger mem[z]} :: out <= z < out + a.hs ==> mem[z] == Weighted(Q, w, a, z - out, t2 + 1)
  {
    hide Weighted, Inputs;
    var value := inpB + t2 * (a.C * 3) + a.off + a.C * 2;
    PosIn(inpB, a.C * 3, t2, |Q|);
    var i := 0;
    while i < a.hs
      invariant 0 <= i <= a.hs && Kept(m0, mem[..], out, a.hs)
      invariant forall z {:trigger mem[z]} :: out <= z < out + i ==> mem[z] == Weighted(Q, w, a, z - out, t2 + 1)
      invariant forall z {:trigger mem[z]} :: out + i <= z < out + a.hs ==> mem[z] == Weighted(Q, w, a, z - out, t2)
    {
      EntryIs(m0, inpB, a.C, Q, t2, a.off + 2 * a.C + i);
      assert mem[value + i] == m0[value + i];
      AddValue(mem, out + i, weight, value + i, a, i, t2, Q, w);
      i := i + 1;
    }
  }

  // ---- one head of one position ----

  function HeadSlices(out: nat, preatt: nat, att: nat, hs: nat, T: nat): seq<Slice> {
    [Slice(out, hs), Slice(preatt, T), Slice(att, T)]
  }

  // The slices of one head lie in memory, apart from each other and from the inputs.
  ghost predicate HeadOk(size: nat, out: nat, preatt: nat, att: nat, inpB: nat, a: Head, t: nat, T: nat) {
    && InHead(a) && t < T && In(size, out, a.hs) && In(size, preatt, T) && In(size, att, T)
      && In(size, inpB, T * (a.C * 3))
    && Apart(preatt, T, att, T) && Apart(out, a.hs, att, T) && Apart(out, a.hs, preatt, T)
      && Clear(HeadSlices(out, preatt, att, a.hs, T), inpB, T * (a.C * 3))
  }

  lemma HeadFacts(size: nat, out: nat, preatt: nat, att: nat, inpB: nat, a: Head, t: nat, T: nat)
    requires HeadOk(size, out, preatt, att, inpB, a, t, T)
    ensures Apart(preatt, t + 1, inpB, T * (a.C * 3)) && Apart(out, a.hs, inpB, T * (a.C * 3))
      && Apart(out, a.hs, att, t + 1)
    ensures Apart(att, t + 1, preatt, t + 1) && In(size, preatt, t + 1) && In(size, att, t + 1)
      && In(size, inpB, T * (a.C * 3))
  {
    var big := HeadSlices(out, preatt, att, a.hs, T);
    assert Apart(big[0].at, big[0].len, inpB, T * (a.C * 3)) && Apart(big[1].at, big[1].len, inpB, T * (a.C * 3));
  }

  // Three writes, one after the other.
  lemma KeptWithin(p: Row, q: Row, r: Row, big: seq<Slice>, i: nat, at: nat, n: nat)
    requires SameBut(p, q, big) && Kept(q, r, at, n) && i < |big| && big[i].at == at && n <= big[i].len
    ensures SameBut(p, r, big)
  {
    KeptIsSame(q, r, at, n);
    var w := [Slice(at, n)];
    forall x: nat | Outside(big, x) ensures Outside(w, x) { assert x < big[i].at || x >= big[i].at + big[i].len; }
    SameTrans(p, q, r, big, w);
  }

  lemma InputsClear(p: Row, q: Row, big: seq<Slice>, inpB: nat, C: nat, Q: seq<Row>)
    requires SameBut(p, q, big) && Clear(big, inpB, |Q| * (C * 3)) && Inputs(p, inpB, C, Q)
    ensures Inputs(q, inpB, C, Q)
  {
    RowsKept(p, q, big, inpB, C * 3, Q);
  }

  lemma SameRefl(m: Row, big: seq<Slice>)
    ensures SameBut(m, m, big)
  {
  }

  lemma SliceIsKept(p: Row, q: Row, at: nat, n: nat)
    requires SameBut(p, q, [Slice(at, n)])
    ensures Kept(p, q, at, n)
  {
    var w := [Slice(at, n)];
    forall z | 0 <= z < |p| && (z < at || z >= at + n) ensures q[z] == p[z] {
      assert Outside(w, z);
      assert Entry(q, z) == Entry(p, z);
    }
  }

  // exp, then the product with the inverse of the sum: the weights.
  lemma AttIsWeights(f: Math, m2: Row, m3: Row, att: nat, t: nat, s: Row, inverse: real)
    requires |s| == t + 1 && att + t < |m2| && inverse == Inverse(ExpSum(f, s, MaxOf(s, t + 1), t + 1))
    requires Exps(f, m2, att, s, MaxOf(s, t + 1)) && Scaled(m2, m3, att, t + 1, inverse)
    ensures RowOf(m3, att, t + 1) == Weights(f, s)
  {
    var r, w := RowOf(m3, att, t + 1), Weights(f, s);
    forall i | 0 <= i < t + 1 ensures r[i] == w[i] {
      assert r[i] == Entry(m3, att + i) == m3[att + i];
      assert m2[att + i] == f.exp(s[i] - MaxOf(s, t + 1));
    }
  }

  // What a head leaves in att: its weights, and zeros for later positions.
  function AttRow(f: Math, s: Row, T: nat): (r: Row)
    ensures |r| == T
  {
    seq(T, i requires 0 <= i < T => Entry(Weights(f, s), i))
  }

  lemma AttIsPadded(f: Math, m3: Row, att: nat, t: nat, T: nat, s: Row)
    requires t < T && att + T <= |m3| && |s| == t + 1 && RowOf(m3, att, t + 1) == Weights(f, s)
    requires forall z {:trigger m3[z]} :: att + t < z < att + T ==> m3[z] == 0.0
    ensures RowOf(m3, att, T) == AttRow(f, s, T)
  {
    var r, w := RowOf(m3, att, T), AttRow(f, s, T);
    forall i | 0 <= i < T ensures r[i] == w[i] {
      assert r[i] == Entry(m3, att + i) == m3[att + i];
      if i <= t { assert RowOf(m3, att, t + 1)[i] == Weights(f, s)[i]; }
    }
  }

  // The scores stay while the weights are made.
  lemma ScoresStay(m1: Row, m2: Row, m3: Row, preatt: nat, att: nat, n: nat, T: nat)
    requires Kept(m1, m2, att, n) && Kept(m2, m3, att, T) && n <= T && Apart(preatt, T, att, T)
    ensures RowOf(m3, preatt, n) == RowOf(m1, preatt, n)
  {
    KeptIsSame(m1, m2, att, n);
    KeptIsSame(m2, m3, att, T);
    RowKept(m1, m2, [Slice(att, n)], preatt, n);
    RowKept(m2, m3, [Slice(att, T)], preatt, n);
  }

  method Softmaxed(mem: array<real>, f: Math, preatt: nat, att: nat, inpB: nat, a: Head, t: nat, T: nat,
      ghost Q: seq<Row>, ghost out: nat)
    requires HeadOk(mem.Length, out, preatt, att, inpB, a, t, T) && |Q| == T && Inputs(mem[..], inpB, a.C, Q)
    modifies mem
    ensures SameBut(old(mem[..]), mem[..], HeadSlices(out, preatt, att, a.hs, T))
    ensures RowOf(mem[..], att, t + 1) == Weights(f, Scores(Q, t, a, t + 1))
    ensures RowOf(mem[..], att, T) == AttRow(f, Scores(Q, t, a, t + 1), T)
    ensures RowOf(mem[..], preatt, t + 1) == Scores(Q, t, a, t + 1)
  {
    hide Scores, Weights, MaxOf, ExpSum, AttRow;
    ghost var big := HeadSlices(out, preatt, att, a.hs, T);
    ghost var m0, s := mem[..], Scores(Q, t, a, t + 1);
    HeadFacts(mem.Length, out, preatt, att, inpB, a, t, T);
    var maxval := ScoresInto(mem, preatt, inpB, a, t, Q);
    ghost var m1 := mem[..];
    var expsum := ExpInto(mem, f, att, preatt, t + 1, maxval);
    ghost var m2 := mem[..];
    var inverse := if expsum == 0.0 then 0.0 else Div(1.0, expsum);
    NormalizeAtt(mem, att, t, T, inverse);
    AttIsWeights(f, m2, mem[..], att, t, s, inverse);
    AttIsPadded(f, mem[..], att, t, T, s);
    ScoresStay(m1, m2, mem[..], preatt, att, t + 1, T);
    SliceIsKept(m0, m1, preatt, t + 1);
    SameRefl(m0, big);
    KeptWithin(m0, m0, m1, big, 1, preatt, t + 1);
    KeptWithin(m0, m1, m2, big, 2, att, t + 1);
    KeptWithin(m0, m2, mem[..], big, 2, att, T);
  }

  method HeadInto(mem: array<real>, f: Math, out: nat, preatt: nat, att: nat, inpB: nat, a: Head, t: nat, T: nat,
      ghost Q: seq<Row>)
    requires HeadOk(mem.Length, out, preatt, att, inpB, a, t, T) && |Q| == T && Inputs(mem[..], inpB, a.C, Q)
    modifies mem
    ensures SameBut(old(mem[..]), mem[..], HeadSlices(out, preatt, att, a.hs, T))
    ensures forall z {:trigger mem[z]} :: out <= z < out + a.hs ==> mem[z] == HeadOut(f, Q, t, a, z - out)
    ensures RowOf(mem[..], preatt, t + 1) == Scores(Q, t, a, t + 1)
    ensures RowOf(mem[..], att, T) == AttRow(f, Scores(Q, t, a, t + 1), T)
  {
    hide Scores, Weights, AttRow, Inputs;
    ghost var big := HeadSlices(out, preatt, att, a.hs, T);
    ghost var m0 := mem[..];
    Softmaxed(mem, f, preatt, att, inpB, a, t, T, Q, out);
    ghost var m3 := mem[..];
    InputsClear(m0, m3, big, inpB, a.C, Q);
    HeadFacts(mem.Length, out, preatt, att, inpB, a, t, T);
    WeightedInto(mem, out, att, inpB, a, t, Q, Weights(f, Scores(Q, t, a, t + 1)));
    KeptWithin(m0, m3, mem[..], big, 0, out, a.hs);
    KeptIsSame(m3, mem[..], out, a.hs);
    RowKept(m3, mem[..], [Slice(out, a.hs)], preatt, t + 1);
    RowKept(m3, mem[..], [Slice(out, a.hs)], att, T);
  }

  // ---- all heads of one position ----

  function AttBig(out: nat, preatt: nat, att: nat, B: nat, T: nat, C: nat, NH: nat): seq<Slice> {
    [Slice(out, B * T * C), Slice(preatt, B * NH * T * T), Slice(att, B * NH * T * T)]
  }

  function OutLen(B: nat, T: nat, C: nat): nat { B * T * C }
  function AttLen(B: nat, NH: nat, T: nat): nat { B * NH * T * T }
  function InpLen(B: nat, T: nat, C: nat): nat { B * T * (C * 3) }

  // The slices of a call lie in memory, apart from each other and from its input.
  ghost predicate AttOk(size: nat, out: nat, preatt: nat, att: nat, inp: nat, B: nat, T: nat, C: nat, NH: nat) {
    && In(size, out, B * T * C) && In(size, preatt, B * NH * T * T) && In(size, att, B * NH * T * T)
      && In(size, inp, B * T * (C * 3))
    && Apart(preatt, B * NH * T * T, att, B * NH * T * T) && Apart(out, B * T * C, att, B * NH * T * T)
    && Apart(out, B * T * C, preatt, B * NH * T * T)
    && Clear(AttBig(out, preatt, att, B, T, C, NH), inp, B * T * (C * 3))
  }

  // Where the scores of (b, h, t) start.
  function ScoreAt(base: nat, b: nat, NH: nat, h: nat, T: nat, t: nat): nat {
    base + b * NH * T * T + h * T * T + t * T
  }

  lemma ScoresIn(base: nat, B: nat, b: nat, NH: nat, h: nat, T: nat, t: nat)
    requires b < B && h < NH && t < T
    ensures base <= ScoreAt(base, b, NH, h, T, t) && ScoreAt(base, b, NH, h, T, t) + T <= base + B * NH * T * T
  {
    PositionIn(B, NH, b, h);
    MulDist(b * NH, h, T);
    PositionIn(B * NH, T, b * NH + h, t);
    MulDist(b * NH * T + h * T, t, T);
    MulDist(b * NH * T, h * T, T);
    PosIn(base, T, b * NH * T + h * T + t, B * NH * T);
  }

  lemma HeadChannels(C: nat, NH: nat, h: nat)
    requires h < NH
    ensures h * (C / NH) + C / NH <= C && (h + 1) * (C / NH) == h * (C / NH) + C / NH
  {
    MulMono(h + 1, NH, C / NH);
    MulDist(h, 1, C / NH);
  }

  // The rows of one batch.
  function Batch(X: seq<Row>, b: nat, T: nat): (Q: seq<Row>)
    ensures |Q| == T
  {
    seq(T, t requires 0 <= t < T => RowAt(X, b * T + t))
  }

  lemma BatchInputs(m: Row, inp: nat, X: seq<Row>, B: nat, b: nat, T: nat, C: nat)
    requires RowsAre(m, inp, C * 3, X) && |X| == B * T && b < B
    ensures Inputs(m, BatchAt(inp, b, T, C), C, Batch(X, b, T))
  {
    var Q, inpB := Batch(X, b, T), BatchAt(inp, b, T, C);
    forall t: nat | t < |Q| ensures RowOf(m, Pos(inpB, C * 3, t), C * 3) == Q[t] {
      PositionIn(B, T, b, t);
      MulDist(b * T, t, C * 3);
      assert X[b * T + t] == Q[t];
    }
  }

  // ---- what a call leaves in preatt and att ----

  // A call of attention_forward, and the rows of its input.
  datatype Call = Call(f: Math, preatt: nat, att: nat, X: seq<Row>, T: nat, C: nat, NH: nat)

  // The scores and the weights of head h of position (b, t) are in place.
  ghost predicate HeadLeft(c: Call, m: Row, b: nat, t: nat, h: nat)
    requires c.NH > 0
  {
    var s := Scores(Batch(c.X, b, c.T), t, HeadAt(c.f, c.C, c.NH, h), t + 1);
    && RowOf(m, ScoreAt(c.preatt, b, c.NH, h, c.T, t), t + 1) == s
    && RowOf(m, ScoreAt(c.att, b, c.NH, h, c.T, t), c.T) == AttRow(c.f, s, c.T)
  }

  // The loops reach (x, y, z) before (b, t, h).
  predicate Before(x: nat, y: nat, z: nat, b: nat, t: nat, h: nat) {
    x < b || (x == b && (y < t || (y == t && z < h)))
  }

  ghost predicate LeftBefore(c: Call, m: Row, b: nat, t: nat, h: nat)
    requires c.NH > 0
  {
    forall x: nat, y: nat, z: nat :: y < c.T && z < c.NH && Before(x, y, z, b, t, h) ==> HeadLeft(c, m, x, y, z)
  }

  lemma NextPlace(c: Call, m: Row, b: nat, t: nat)
    requires c.NH > 0
    ensures LeftBefore(c, m, b, t, c.NH) ==> LeftBefore(c, m, b, t + 1, 0)
    ensures LeftBefore(c, m, b, c.T, 0) ==> LeftBefore(c, m, b + 1, 0, 0)
  {
    hide HeadLeft;
  }

  // No two heads have their scores in the same place.
  lemma ScoresApart(base: nat, NH: nat, T: nat, b: nat, t: nat, h: nat, x: nat, y: nat, z: nat)
    requires t < T && h < NH && y < T && z < NH && Before(x, y, z, b, t, h)
    ensures Apart(ScoreAt(base, x, NH, z, T, y), T, ScoreAt(base, b, NH, h, T, t), T)
  {
    var u, v := x * NH + z, b * NH + h;
    ScoreIsPos(base, b, NH, h, T, t);
    ScoreIsPos(base, x, NH, z, T, y);
    DivModUnique(b, h, NH);
    DivModUnique(x, z, NH);
    DivModUnique(v, t, T);
    DivModUnique(u, y, T);
    if u * T + y < v * T + t {
      PosApart(base, T, u * T + y, v * T + t);
    } else {
      PosApart(base, T, v * T + t, u * T + y);
    }
  }

  lemma ScoreIsPos(base: nat, b: nat, NH: nat, h: nat, T: nat, t: nat)
    ensures ScoreAt(base, b, NH, h, T, t) == Pos(base, T, (b * NH + h) * T + t)
  {
    MulDist(b * NH, h, T);
    MulDist(b * NH * T + h * T, t, T);
    MulDist(b * NH * T, h * T, T);
  }

  // A head leaves what the heads before it have left.
  lemma LeftKept(c: Call, m1: Row, m2: Row, out: nat, b: nat, t: nat, h: nat, hs: nat, x: nat, y: nat, z: nat)
    requires t < c.T && h < c.NH && y < c.T && z < c.NH && Before(x, y, z, b, t, h) && HeadLeft(c, m1, x, y, z)
    requires SameBut(m1, m2, HeadSlices(out, ScoreAt(c.preatt, b, c.NH, h, c.T, t),
      ScoreAt(c.att, b, c.NH, h, c.T, t), hs, c.T))
    requires Apart(out, hs, ScoreAt(c.preatt, x, c.NH, z, c.T, y), c.T)
      && Apart(out, hs, ScoreAt(c.att, x, c.NH, z, c.T, y), c.T)
    requires Apart(ScoreAt(c.preatt, b, c.NH, h, c.T, t), c.T, ScoreAt(c.att, x, c.NH, z, c.T, y), c.T)
    requires Apart(ScoreAt(c.preatt, x, c.NH, z, c.T, y), c.T, ScoreAt(c.att, b, c.NH, h, c.T, t), c.T)
    ensures HeadLeft(c, m2, x, y, z)
  {
    hide ScoreAt, Scores, AttRow, Before, RowOf, SameBut;
    ScoresApart(c.preatt, c.NH, c.T, b, t, h, x, y, z);
    ScoresApart(c.att, c.NH, c.T, b, t, h, x, y, z);
    var w := HeadSlices(out, ScoreAt(c.preatt, b, c.NH, h, c.T, t), ScoreAt(c.att, b, c.NH, h, c.T, t), hs, c.T);
    RowKept(m1, m2, w, ScoreAt(c.preatt, x, c.NH, z, c.T, y), y + 1);
    RowKept(m1, m2, w, ScoreAt(c.att, x, c.NH, z, c.T, y), c.T);
  }

  lemma LeftStep(c: Call, m1: Row, m2: Row, out: nat, inp: nat, B: nat, b: nat, t: nat, h: nat, hs: nat, at: nat)
    requires AttOk(|m1|, out, c.preatt, c.att, inp, B, c.T, c.C, c.NH) && b < B && t < c.T && h < c.NH
    requires out <= at && at + hs <= out + B * c.T * c.C && LeftBefore(c, m1, b, t, h)
    requires SameBut(m1, m2, HeadSlices(at, ScoreAt(c.preatt, b, c.NH, h, c.T, t),
      ScoreAt(c.att, b, c.NH, h, c.T, t), hs, c.T))
    requires HeadLeft(c, m2, b, t, h)
    ensures LeftBefore(c, m2, b, t, h + 1)
  {
    hide ScoreAt, HeadLeft, SameBut;
    forall x: nat, y: nat, z: nat | y < c.T && z < c.NH && Before(x, y, z, b, t, h + 1)
      ensures HeadLeft(c, m2, x, y, z)
    {
      if Before(x, y, z, b, t, h) {
        ScoresIn(c.preatt, B, x, c.NH, z, c.T, y);
        ScoresIn(c.att, B, x, c.NH, z, c.T, y);
        ScoresIn(c.preatt, B, b, c.NH, h, c.T, t);
        ScoresIn(c.att, B, b, c.NH, h, c.T, t);
        LeftKept(c, m1, m2, at, b, t, h, hs, x, y, z);
      }
    }
  }

  // Cell (b, h, t, t2) of a tensor of shape (B, NH, T, T).
  function Cell(base: nat, NH: nat, T: nat, b: nat, h: nat, t: nat, t2: nat): nat {
    base + ((b * NH + h) * T + t) * T + t2
  }

  lemma ScoreIsCell(base: nat, NH: nat, T: nat, b: nat, h: nat, t: nat, t2: nat)
    ensures ScoreAt(base, b, NH, h, T, t) + t2 == Cell(base, NH, T, b, h, t, t2)
  {
    ScoreIsPos(base, b, NH, h, T, t);
  }

  // preatt: query times key over the square root of the head size, for every key up to t.
  ghost predicate ScoreLeft(c: Call, m: Row, b: nat, t: nat, h: nat, t2: nat)
    requires c.NH > 0
  {
    var hs := c.C / c.NH;
    Entry(m, Cell(c.preatt, c.NH, c.T, b, h, t, t2)) * c.f.sqrt(hs as real) ==
      Dot(RowAt(c.X, b * c.T + t), h * hs, RowAt(c.X, b * c.T + t2), c.C + h * hs, hs)
  }

  ghost predicate ScoresLeft(c: Call, m: Row, B: nat)
    requires c.NH > 0
  {
    forall b: nat, t: nat, h: nat, t2: nat :: b < B && t < c.T && h < c.NH && t2 <= t ==> ScoreLeft(c, m, b, t, h, t2)
  }

  // att: the exponential of the score over the sum of the exponentials up to t, and 0 after it.
  ghost predicate WeightLeft(c: Call, m: Row, b: nat, t: nat, h: nat, t2: nat, e: Row) {
    var w := Entry(m, Cell(c.att, c.NH, c.T, b, h, t, t2));
    if t2 > t then w == 0.0
    else w * Total(e, 0, t + 1) == c.f.exp(Entry(m, Cell(c.preatt, c.NH, c.T, b, h, t, t2)))
  }

  ghost predicate WeightsLeft(c: Call, m: Row, B: nat) {
    forall b: nat, t: nat, h: nat, t2: nat, e: Row ::
      b < B && t < c.T && h < c.NH && t2 < c.T
      && Exponentials(c.f, RowOf(m, Cell(c.preatt, c.NH, c.T, b, h, t, 0), t + 1), t + 1, e) ==>
        WeightLeft(c, m, b, t, h, t2, e)
  }

  lemma ScoreIsLeft(c: Call, m: Row, b: nat, t: nat, h: nat, t2: nat)
    requires c.NH > 0 && t < c.T && t2 <= t && HeadLeft(c, m, b, t, h) && c.f.sqrt((c.C / c.NH) as real) != 0.0
    ensures ScoreLeft(c, m, b, t, h, t2)
  {
    hide Dot, Scores, AttRow, ScoreAt, Cell;
    ScoreIsCell(c.preatt, c.NH, c.T, b, h, t, t2);
    var p := ScoreAt(c.preatt, b, c.NH, h, c.T, t);
    assert RowOf(m, p, t + 1)[t2] == Entry(m, p + t2);
    ScoreIsDot(c.f, Batch(c.X, b, c.T), t, c.C, c.NH, h, t + 1, t2);
  }

  lemma WeightIsLeft(c: Call, m: Row, b: nat, t: nat, h: nat, t2: nat, e: Row)
    requires c.NH > 0 && t < c.T && t2 < c.T && HeadLeft(c, m, b, t, h) && Exponential(c.f)
    requires Exponentials(c.f, RowOf(m, Cell(c.preatt, c.NH, c.T, b, h, t, 0), t + 1), t + 1, e)
    ensures WeightLeft(c, m, b, t, h, t2, e)
  {
    hide Scores, Weights, Total, ScoreAt, Cell;
    ScoreIsCell(c.preatt, c.NH, c.T, b, h, t, 0);
    ScoreIsCell(c.preatt, c.NH, c.T, b, h, t, t2);
    ScoreIsCell(c.att, c.NH, c.T, b, h, t, t2);
    var p, q := ScoreAt(c.preatt, b, c.NH, h, c.T, t), ScoreAt(c.att, b, c.NH, h, c.T, t);
    var s := RowOf(m, p, t + 1);
    assert RowOf(m, q, c.T)[t2] == Entry(m, q + t2) == Entry(Weights(c.f, s), t2);
    if t2 <= t {
      WeightIs(c.f, s, e, t2);
      assert s[t2] == Entry(m, p + t2);
    }
  }

  lemma AllLeft(c: Call, m: Row, B: nat)
    requires c.NH > 0 && LeftBefore(c, m, B, 0, 0)
    ensures c.f.sqrt((c.C / c.NH) as real) != 0.0 ==> ScoresLeft(c, m, B)
    ensures Exponential(c.f) ==> WeightsLeft(c, m, B)
  {
    hide HeadLeft, ScoreLeft, WeightLeft, Exponential, Exponentials, Cell;
    if c.f.sqrt((c.C / c.NH) as real) != 0.0 {
      forall b: nat, t: nat, h: nat, t2: nat | b < B && t < c.T && h < c.NH && t2 <= t
        ensures ScoreLeft(c, m, b, t, h, t2)
      {
        ScoreIsLeft(c, m, b, t, h, t2);
      }
    }
    if Exponential(c.f) {
      forall b: nat, t: nat, h: nat, t2: nat, e: Row | b < B && t < c.T && h < c.NH && t2 < c.T
        && Exponentials(c.f, RowOf(m, Cell(c.preatt, c.NH, c.T, b, h, t, 0), t + 1), t + 1, e)
        ensures WeightLeft(c, m, b, t, h, t2, e)
      {
        WeightIsLeft(c, m, b, t, h, t2, e);
      }
    }
  }

  // ---- heads side by side ----

  // What head h has filled in.
  lemma HeadsNext(f: Math, Q: seq<Row>, t: nat, C: nat, NH: nat, prev: Row, h: nat, m1: Row, m2: Row, at: nat, c: nat)
    requires h < NH && c < C && at + C <= |m1| == |m2|
    requires RowOf(m1, at, C) == HeadsRow(f, Q, t, C, NH, prev, h)
    requires var a := HeadAt(f, C, NH, h);
      Entry(m2, at + c) ==
        if a.off <= c < a.off + a.hs then HeadOut(f, Q, t, a, c - a.off) else Entry(m1, at + c)
    ensures Entry(m2, at + c) == HeadsRow(f, Q, t, C, NH, prev, h + 1)[c]
  {
    var hs := C / NH;
    HeadChannels(C, NH, h);
    assert RowOf(m1, at, C)[c] == HeadsRow(f, Q, t, C, NH, prev, h)[c];
    if h * hs <= c < h * hs + hs { DivModUnique(h, c - h * hs, hs); }
  }

  lemma HeadAdds(f: Math, Q: seq<Row>, t: nat, C: nat, NH: nat, prev: Row, h: nat, m1: Row, m2: Row, at: nat,
      ws: seq<Slice>)
    requires h < NH && at + C <= |m1| && SameBut(m1, m2, ws) && RowOf(m1, at, C) == HeadsRow(f, Q, t, C, NH, prev, h)
    requires var a := HeadAt(f, C, NH, h);
      && |ws| == 3 && ws[0] == Slice(at + a.off, a.hs) && Apart(ws[1].at, ws[1].len, at, C)
        && Apart(ws[2].at, ws[2].len, at, C)
      && forall z {:trigger m2[z]} :: at + a.off <= z < at + a.off + a.hs && z < |m2| ==>
        m2[z] == HeadOut(f, Q, t, a, z - (at + a.off))
    ensures RowOf(m2, at, C) == HeadsRow(f, Q, t, C, NH, prev, h + 1)
  {
    hide HeadsRow, HeadOut;
    var a, r1, r2 := HeadAt(f, C, NH, h), RowOf(m2, at, C), HeadsRow(f, Q, t, C, NH, prev, h + 1);
    HeadChannels(C, NH, h);
    forall c | 0 <= c < C ensures r1[c] == r2[c] {
      if a.off <= c < a.off + a.hs {
        assert Entry(m2, at + c) == m2[at + c];
      } else {
        assert Outside(ws, at + c);
        assert Entry(m2, at + c) == Entry(m1, at + c);
      }
      HeadsNext(f, Q, t, C, NH, prev, h, m1, m2, at, c);
    }
  }

  // What a position may write.
  function PosSlices(out: nat, preatt: nat, att: nat, B: nat, T: nat, C: nat, NH: nat, r: nat): seq<Slice> {
    [Slice(Pos(out, C, r), C), Slice(preatt, B * NH * T * T), Slice(att, B * NH * T * T)]
  }

  lemma PosClear(size: nat, out: nat, preatt: nat, att: nat, inp: nat, B: nat, T: nat, C: nat, NH: nat, r: nat)
    requires AttOk(size, out, preatt, att, inp, B, T, C, NH) && r < B * T
    ensures Within(PosSlices(out, preatt, att, B, T, C, NH, r), AttBig(out, preatt, att, B, T, C, NH))
    ensures Clear(PosSlices(out, preatt, att, B, T, C, NH, r), inp, B * T * (C * 3))
    ensures forall s: nat :: s < B * T && s != r ==>
      Clear(PosSlices(out, preatt, att, B, T, C, NH, r), Pos(out, C, s), C)
  {
    var w, big := PosSlices(out, preatt, att, B, T, C, NH, r), AttBig(out, preatt, att, B, T, C, NH);
    PosIn(out, C, r, B * T);
    assert big[0] == Slice(out, B * T * C) && big[1] == w[1] && big[2] == w[2];
    forall x: nat | Outside(big, x) ensures Outside(w, x) {
      assert x < big[0].at || x >= big[0].at + big[0].len;
      assert x < big[1].at || x >= big[1].at + big[1].len;
      assert x < big[2].at || x >= big[2].at + big[2].len;
    }
    assert Apart(big[0].at, big[0].len, inp, B * T * (C * 3)) && Apart(big[1].at, big[1].len, inp, B * T * (C * 3));
    assert Apart(big[2].at, big[2].len, inp, B * T * (C * 3));
    forall s: nat | s < B * T && s != r ensures Clear(w, Pos(out, C, s), C) {
      PosIn(out, C, s, B * T);
      if s < r { PosApart(out, C, s, r); } else { PosApart(out, C, r, s); }
    }
  }

  // The rows of one batch.
  lemma BatchIn(inp: nat, B: nat, b: nat, T: nat, C: nat)
    requires b < B
    ensures inp <= BatchAt(inp, b, T, C) && BatchAt(inp, b, T, C) + T * (C * 3) <= inp + B * T * (C * 3)
  {
    MulDist(b, 1, T);
    MulMono(b + 1, B, T);
    MulMono(b * T + T, B * T, C * 3);
    MulDist(b * T, T, C * 3);
  }

  // The slices of one head of position (b, t) lie within those of the position.
  lemma HeadWithin(out: nat, preatt: nat, att: nat, B: nat, T: nat, C: nat, NH: nat, b: nat, t: nat, h: nat, off: nat,
      hs: nat)
    requires b < B && t < T && h < NH && off + hs <= C
    ensures Within(HeadSlices(Pos(out, C, b * T + t) + off, ScoreAt(preatt, b, NH, h, T, t),
      ScoreAt(att, b, NH, h, T, t), hs, T),
                   PosSlices(out, preatt, att, B, T, C, NH, b * T + t))
  {
    ScoresIn(preatt, B, b, NH, h, T, t);
    ScoresIn(att, B, b, NH, h, T, t);
    SlicesWithin(Pos(out, C, b * T + t), C, off, hs, preatt, ScoreAt(preatt, b, NH, h, T, t), att,
      ScoreAt(att, b, NH, h, T, t), T, B * NH * T * T);
  }

  lemma SlicesWithin(outBt: nat, C: nat, off: nat, hs: nat, preatt: nat, p: nat, att: nat, q: nat, T: nat, n: nat)
    requires off + hs <= C && preatt <= p && p + T <= preatt + n && att <= q && q + T <= att + n
    ensures Within(HeadSlices(outBt + off, p, q, hs, T), [Slice(outBt, C), Slice(preatt, n), Slice(att, n)])
  {
    var w := [Slice(outBt, C), Slice(preatt, n), Slice(att, n)];
    forall x: nat | Outside(w, x) ensures Outside(HeadSlices(outBt + off, p, q, hs, T), x) {
      assert w[0] == Slice(outBt, C) && w[1] == Slice(preatt, n) && w[2] == Slice(att, n);
    }
  }

  // They are as the passes require.
  lemma HeadIsOk(size: nat, out: nat, preatt: nat, att: nat, inp: nat, B: nat, T: nat, C: nat, NH: nat, b: nat, t: nat,
      h: nat, a: Head)
    requires AttOk(size, out, preatt, att, inp, B, T, C, NH) && b < B && t < T && h < NH && a.C == C
      && a.off + a.hs <= C
    ensures var outBt, p, q := Pos(out, C, b * T + t), ScoreAt(preatt, b, NH, h, T, t), ScoreAt(att, b, NH, h, T, t);
      && HeadOk(size, outBt + a.off, p, q, BatchAt(inp, b, T, C), a, t, T)
      && outBt + C <= size && Apart(p, T, outBt, C) && Apart(q, T, outBt, C)
  {
    hide ScoreAt, BatchAt, Pos, HeadOk, In, Apart, AttOk, OutLen, AttLen, InpLen;
    var n, k, l := OutLen(B, T, C), AttLen(B, NH, T), InpLen(B, T, C);
    AttFacts(size, out, preatt, att, inp, B, T, C, NH, n, k, l);
    HeadSpots(out, preatt, att, inp, B, T, C, NH, b, t, h, n, k, l);
    PartsAreOk(size, out, n, preatt, att, k, inp, l, Pos(out, C, b * T + t),
               ScoreAt(preatt, b, NH, h, T, t), ScoreAt(att, b, NH, h, T, t), BatchAt(inp, b, T, C), a, t, T);
  }

  lemma AttFacts(size: nat, out: nat, preatt: nat, att: nat, inp: nat, B: nat, T: nat, C: nat, NH: nat, n: nat, k: nat,
      l: nat)
    requires AttOk(size, out, preatt, att, inp, B, T, C, NH) && n == OutLen(B, T, C) && k == AttLen(B, NH, T)
      && l == InpLen(B, T, C)
    ensures In(size, out, n) && In(size, preatt, k) && In(size, att, k) && In(size, inp, l)
    ensures Apart(preatt, k, att, k) && Apart(out, n, att, k) && Apart(out, n, preatt, k)
    ensures Apart(out, n, inp, l) && Apart(preatt, k, inp, l) && Apart(att, k, inp, l)
  {
    var big := AttBig(out, preatt, att, B, T, C, NH);
    assert Apart(big[0].at, n, inp, l) && Apart(big[1].at, k, inp, l) && Apart(big[2].at, k, inp, l);
  }

  lemma HeadSpots(out: nat, preatt: nat, att: nat, inp: nat, B: nat, T: nat, C: nat, NH: nat, b: nat, t: nat, h: nat,
      n: nat, k: nat, l: nat)
    requires b < B && t < T && h < NH && n == OutLen(B, T, C) && k == AttLen(B, NH, T) && l == InpLen(B, T, C)
    ensures out <= Pos(out, C, b * T + t) && Pos(out, C, b * T + t) + C <= out + n
    ensures preatt <= ScoreAt(preatt, b, NH, h, T, t) && ScoreAt(preatt, b, NH, h, T, t) + T <= preatt + k
    ensures att <= ScoreAt(att, b, NH, h, T, t) && ScoreAt(att, b, NH, h, T, t) + T <= att + k
    ensures inp <= BatchAt(inp, b, T, C) && BatchAt(inp, b, T, C) + T * (C * 3) <= inp + l
  {
    hide ScoreAt, BatchAt, Pos;
    PositionIn(B, T, b, t);
    PosIn(out, C, b * T + t, B * T);
    ScoresIn(preatt, B, b, NH, h, T, t);
    ScoresIn(att, B, b, NH, h, T, t);
    BatchIn(inp, B, b, T, C);
  }

  // Parts of slices that lie apart lie apart.
  lemma PartsAreOk(size: nat, out: nat, n: nat, preatt: nat, att: nat, k: nat, inp: nat, l: nat,
                   outBt: nat, p: nat, q: nat, inpB: nat, a: Head, t: nat, T: nat)
    requires In(size, out, n) && In(size, preatt, k) && In(size, att, k) && In(size, inp, l)
    requires Apart(preatt, k, att, k) && Apart(out, n, att, k) && Apart(out, n, preatt, k)
    requires Apart(out, n, inp, l) && Apart(preatt, k, inp, l) && Apart(att, k, inp, l)
    requires out <= outBt && outBt + a.C <= out + n && preatt <= p && p + T <= preatt + k && att <= q
      && q + T <= att + k
    requires inp <= inpB && inpB + T * (a.C * 3) <= inp + l && a.off + a.hs <= a.C && t < T
    ensures HeadOk(size, outBt + a.off, p, q, inpB, a, t, T)
    ensures outBt + a.C <= size && Apart(p, T, outBt, a.C) && Apart(q, T, outBt, a.C)
  {
  }

  // One head of a position.
  method HeadStep(mem: array<real>, f: Math, outBt: nat, preattBth: nat, attBth: nat, inpB: nat, T: nat, C: nat,
      NH: nat, t: nat, h: nat,
                  ghost Q: seq<Row>, ghost prev: Row, ghost w: seq<Slice>)
    requires NH > 0 && h < NH
      && var a := HeadAt(f, C, NH, h); HeadOk(mem.Length, outBt + a.off, preattBth, attBth, inpB, a, t, T)
    requires outBt + C <= mem.Length && Apart(preattBth, T, outBt, C) && Apart(attBth, T, outBt, C)
    requires |Q| == T && Inputs(mem[..], inpB, C, Q) && RowOf(mem[..], outBt, C) == HeadsRow(f, Q, t, C, NH, prev, h)
    requires var a := HeadAt(f, C, NH, h); Within(HeadSlices(outBt + a.off, preattBth, attBth, a.hs, T), w)
    modifies mem
    ensures RowOf(mem[..], outBt, C) == HeadsRow(f, Q, t, C, NH, prev, h + 1) && SameBut(old(mem[..]), mem[..], w)
    ensures var a := HeadAt(f, C, NH, h);
      && SameBut(old(mem[..]), mem[..], HeadSlices(outBt + a.off, preattBth, attBth, a.hs, T))
      && RowOf(mem[..], preattBth, t + 1) == Scores(Q, t, a, t + 1)
      && RowOf(mem[..], attBth, T) == AttRow(f, Scores(Q, t, a, t + 1), T)
  {
    hide HeadsRow, HeadOut, Scores, AttRow, Weights, HeadOk, Within, Inputs;
    var a := HeadAt(f, C, NH, h);
    ghost var m1 := mem[..];
    ghost var hw := HeadSlices(outBt + a.off, preattBth, attBth, a.hs, T);
    HeadInto(mem, f, outBt + a.off, preattBth, attBth, inpB, a, t, T, Q);
    HeadAdds(f, Q, t, C, NH, prev, h, m1, mem[..], outBt, hw);
    SameRefl(m1, w);
    SameTrans(m1, m1, mem[..], w, hw);
  }

  // All heads of position (b, t).
  method PositionInto(mem: array<real>, f: Math, out: nat, preatt: nat, att: nat, inp: nat, B: nat, T: nat, C: nat,
      NH: nat, b: nat, t: nat,
                      ghost X: seq<Row>, ghost prev: Row)
    requires AttOk(mem.Length, out, preatt, att, inp, B, T, C, NH) && NH > 0 && b < B && t < T && b * T + t < B * T
    requires |X| == B * T && RowsAre(mem[..], inp, C * 3, X) && RowOf(mem[..], Pos(out, C, b * T + t), C) == prev
    requires LeftBefore(Call(f, preatt, att, X, T, C, NH), mem[..], b, t, 0)
    modifies mem
    ensures LeftBefore(Call(f, preatt, att, X, T, C, NH), mem[..], b, t + 1, 0)
    ensures RowOf(mem[..], Pos(out, C, b * T + t), C) == AttentionRow(f, Batch(X, b, T), t, C, NH, prev)
    ensures SameBut(old(mem[..]), mem[..], PosSlices(out, preatt, att, B, T, C, NH, b * T + t))
  {
    hide HeadsRow, ScoreAt, BatchAt, AttOk, SameBut, LeftBefore, Scores, AttRow;
    ghost var c := Call(f, preatt, att, X, T, C, NH);
    ghost var m0, Q, w := mem[..], Batch(X, b, T), PosSlices(out, preatt, att, B, T, C, NH, b * T + t);
    PointerIsPos(out, T, C, b, t);
    var outBt, inpB := out + b * T * C + t * C, BatchAt(inp, b, T, C);
    PosClear(mem.Length, out, preatt, att, inp, B, T, C, NH, b * T + t);
    SameRefl(m0, w);
    NoHeads(f, Q, t, C, NH, prev);
    var h := 0;
    while h < NH
      invariant 0 <= h <= NH && SameBut(m0, mem[..], w) && RowOf(mem[..], outBt, C) == HeadsRow(f, Q, t, C, NH, prev, h)
      invariant LeftBefore(c, mem[..], b, t, h)
    {
      ghost var m1 := mem[..];
      RowsKept(m0, m1, w, inp, C * 3, X);
      BatchInputs(m1, inp, X, B, b, T, C);
      HeadChannels(C, NH, h);
      HeadIsOk(mem.Length, out, preatt, att, inp, B, T, C, NH, b, t, h, HeadAt(f, C, NH, h));
      HeadWithin(out, preatt, att, B, T, C, NH, b, t, h, HeadAt(f, C, NH, h).off, C / NH);
      HeadStep(mem, f, outBt, ScoreAt(preatt, b, NH, h, T, t), ScoreAt(att, b, NH, h, T, t), inpB, T, C, NH, t, h, Q,
        prev, w);
      SameTrans(m0, m1, mem[..], w, w);
      PosIn(out, C, b * T + t, B * T);
      LeftStep(c, m1, mem[..], out, inp, B, b, t, h, C / NH, outBt + h * (C / NH));
      h := h + 1;
    }
    NextPlace(c, mem[..], b, t);
  }

  lemma NoHeads(f: Math, Q: seq<Row>, t: nat, C: nat, NH: nat, prev: Row)
    requires NH > 0 && |prev| == C
    ensures HeadsRow(f, Q, t, C, NH, prev, 0) == prev
  {
    var r := HeadsRow(f, Q, t, C, NH, prev, 0);
    forall c | 0 <= c < C ensures r[c] == prev[c] { assert r[c] == Entry(prev, c); }
  }

  // ---- attention_forward ----

  function RowsIn(m: Row, out: nat, C: nat, n: nat): (P: seq<Row>)
    ensures |P| == n && forall r :: 0 <= r < n ==> |P[r]| == C
  {
    seq(n, r requires 0 <= r < n => RowOf(m, Pos(out, C, r), C))
  }

  function AttentionRows(f: Math, X: seq<Row>, B: nat, T: nat, C: nat, NH: nat, prev: seq<Row>): (Y: seq<Row>)
    requires NH > 0
    ensures |Y| == B * T
  {
    seq(B * T, r requires 0 <= r < B * T =>
      if T == 0 then [] else AttentionRow(f, Batch(X, r / T, T), r % T, C, NH, RowAt(prev, r)))
  }

  // The rows from k on still hold what they held.
  ghost predicate RowsPending(m: Row, base: nat, C: nat, rows: seq<Row>, k: nat) {
    forall r: nat {:trigger rows[r]} :: k <= r < |rows| ==> RowOf(m, Pos(base, C, r), C) == rows[r]
  }

  method AttentionForward(mem: array<real>, f: Math, out: nat, preatt: nat, att: nat, inp: nat, B: nat, T: nat, C: nat,
      NH: nat, ghost X: seq<Row>)
    requires AttOk(mem.Length, out, preatt, att, inp, B, T, C, NH) && NH > 0 && |X| == B * T
      && RowsAre(mem[..], inp, C * 3, X)
    modifies mem
    ensures SameBut(old(mem[..]), mem[..], AttBig(out, preatt, att, B, T, C, NH))
    ensures RowsAre(mem[..], out, C, AttentionRows(f, X, B, T, C, NH, RowsIn(old(mem[..]), out, C, B * T)))
    ensures f.sqrt((C / NH) as real) != 0.0 ==> ScoresLeft(Call(f, preatt, att, X, T, C, NH), mem[..], B)
    ensures Exponential(f) ==> WeightsLeft(Call(f, preatt, att, X, T, C, NH), mem[..], B)
  {
    hide LeftBefore, ScoresLeft, WeightsLeft, Exponential;
    ghost var c := Call(f, preatt, att, X, T, C, NH);
    NothingLeft(c, mem[..]);
    ghost var m0, big := mem[..], AttBig(out, preatt, att, B, T, C, NH);
    ghost var prev := RowsIn(m0, out, C, B * T);
    ghost var rows := AttentionRows(f, X, B, T, C, NH, prev);
    SameRefl(m0, big);
    var b := 0;
    while b < B
      invariant 0 <= b <= B && SameBut(m0, mem[..], big) && RowsDone(mem[..], out, C, rows, b * T)
        && RowsPending(mem[..], out, C, prev, b * T)
      invariant LeftBefore(c, mem[..], b, 0, 0)
    {
      var t := 0;
      while t < T
        invariant 0 <= t <= T && SameBut(m0, mem[..], big)
        invariant RowsDone(mem[..], out, C, rows, b * T + t) && RowsPending(mem[..], out, C, prev, b * T + t)
        invariant LeftBefore(c, mem[..], b, t, 0)
      {
        PositionIn(B, T, b, t);
        AttendOne(mem, f, out, preatt, att, inp, B, T, C, NH, b, t, m0, X);
        t := t + 1;
      }
      MulDist(b, 1, T);
      NextPlace(c, mem[..], b, T);
      b := b + 1;
    }
    AllLeft(c, mem[..], B);
  }

  lemma NothingLeft(c: Call, m: Row)
    requires c.NH > 0
    ensures LeftBefore(c, m, 0, 0, 0)
  {
  }

  method AttendOne(mem: array<real>, f: Math, out: nat, preatt: nat, att: nat, inp: nat, B: nat, T: nat, C: nat,
      NH: nat, b: nat, t: nat,
                   ghost m0: Row, ghost X: seq<Row>)
    requires AttOk(mem.Length, out, preatt, att, inp, B, T, C, NH) && NH > 0 && |X| == B * T
      && RowsAre(m0, inp, C * 3, X)
    requires b < B && t < T && b * T + t < B * T && SameBut(m0, mem[..], AttBig(out, preatt, att, B, T, C, NH))
    requires var prev := RowsIn(m0, out, C, B * T);
      RowsDone(mem[..], out, C, AttentionRows(f, X, B, T, C, NH, prev), b * T + t)
        && RowsPending(mem[..], out, C, prev, b * T + t)
    requires LeftBefore(Call(f, preatt, att, X, T, C, NH), mem[..], b, t, 0)
    modifies mem
    ensures LeftBefore(Call(f, preatt, att, X, T, C, NH), mem[..], b, t + 1, 0)
    ensures SameBut(m0, mem[..], AttBig(out, preatt, att, B, T, C, NH))
    ensures var prev := RowsIn(m0, out, C, B * T);
      RowsDone(mem[..], out, C, AttentionRows(f, X, B, T, C, NH, prev), b * T + t + 1)
        && RowsPending(mem[..], out, C, prev, b * T + t + 1)
  {
    hide LeftBefore;
    ghost var m1, r, big := mem[..], b * T + t, AttBig(out, preatt, att, B, T, C, NH);
    ghost var prev, w := RowsIn(m0, out, C, B * T), PosSlices(out, preatt, att, B, T, C, NH, r);
    ghost var rows := AttentionRows(f, X, B, T, C, NH, prev);
    RowsKept(m0, m1, big, inp, C * 3, X);
    PosClear(mem.Length, out, preatt, att, inp, B, T, C, NH, r);
    assert RowOf(m1, Pos(out, C, r), C) == prev[r];
    PositionInto(mem, f, out, preatt, att, inp, B, T, C, NH, b, t, X, prev[r]);
    DivModUnique(b, t, T);
    SameTrans(m0, m1, mem[..], big, w);
    RowStep(m1, mem[..], out, C, rows, r, w);
    forall s: nat | r + 1 <= s < |prev|
      ensures RowOf(mem[..], Pos(out, C, s), C) == prev[s]
    {
      RowKept(m1, mem[..], w, Pos(out, C, s), C);
    }
  }
}
