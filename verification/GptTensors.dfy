// The outer loops over batch and time of the layer functions of M3-gpt/gpt.c, except attention:
// given the rows of the input, they leave the rows of the output.

module GptTensors {
  import opened Arith
  import opened GptRows
  import opened GptLayers

  // The tensor at base has these rows.
  ghost predicate RowsAre(m: Row, base: nat, C: nat, rows: seq<Row>) {
    forall r: nat {:trigger rows[r]} :: r < |rows| ==> RowOf(m, Pos(base, C, r), C) == rows[r]
  }

  // The first k of them are in place.
  ghost predicate RowsDone(m: Row, base: nat, C: nat, rows: seq<Row>, k: nat) {
    forall r: nat {:trigger rows[r]} :: r < |rows| && r < k ==> RowOf(m, Pos(base, C, r), C) == rows[r]
  }

  ghost predicate Within(ws: seq<Slice>, big: seq<Slice>) {
    forall x: nat {:trigger Outside(big, x)} :: Outside(big, x) ==> Outside(ws, x)
  }

  lemma SameTrans(p: Row, q: Row, r: Row, big: seq<Slice>, ws: seq<Slice>)
    requires SameBut(p, q, big) && SameBut(q, r, ws) && Within(ws, big)
    ensures SameBut(p, r, big)
  {
    forall x: nat | Outside(big, x) ensures Entry(r, x) == Entry(p, x) { assert Entry(q, x) == Entry(p, x); }
  }

  lemma RowWithin(out: nat, C: nat, r: nat, n: nat)
    requires r < n
    ensures Within([Slice(Pos(out, C, r), C)], [Slice(out, n * C)])
  {
    PosIn(out, C, r, n);
    var w, big := [Slice(Pos(out, C, r), C)], [Slice(out, n * C)];
    forall x: nat | Outside(big, x) ensures Outside(w, x) { assert big[0] == Slice(out, n * C); }
  }

  // Writing row k leaves the rows before it.
  lemma RowStep(m1: Row, m2: Row, out: nat, C: nat, rows: seq<Row>, k: nat, ws: seq<Slice>)
    requires RowsDone(m1, out, C, rows, k) && k < |rows| && SameBut(m1, m2, ws)
    requires forall r: nat :: r < k ==> Clear(ws, Pos(out, C, r), C)
    requires RowOf(m2, Pos(out, C, k), C) == rows[k]
    ensures RowsDone(m2, out, C, rows, k + 1)
  {
    forall r: nat | r < |rows| && r < k + 1 ensures RowOf(m2, Pos(out, C, r), C) == rows[r] {
      if r < k { RowKept(m1, m2, ws, Pos(out, C, r), C); }
    }
  }

  lemma ClearOne(out: nat, C: nat, k: nat)
    ensures forall r: nat :: r < k ==> Clear([Slice(Pos(out, C, k), C)], Pos(out, C, r), C)
  {
    forall r: nat | r < k ensures Clear([Slice(Pos(out, C, k), C)], Pos(out, C, r), C) { PosApart(out, C, r, k); }
  }

  // A tensor that is clear of everything written keeps its rows.
  lemma RowsKept(p: Row, q: Row, ws: seq<Slice>, base: nat, C: nat, rows: seq<Row>)
    requires RowsAre(p, base, C, rows) && SameBut(p, q, ws) && Clear(ws, base, |rows| * C)
    ensures RowsAre(q, base, C, rows)
  {
    forall r: nat | r < |rows| ensures RowOf(q, Pos(base, C, r), C) == rows[r] {
      PosIn(base, C, r, |rows|);
      forall i | 0 <= i < |ws|
        ensures Apart(ws[i].at, ws[i].len, Pos(base, C, r), C)
      {
        assert Apart(ws[i].at, ws[i].len, base, |rows| * C);
      }
      RowKept(p, q, ws, Pos(base, C, r), C);
    }
  }

  // ---- rows of whole tensors ----

  function EncodedRow(tokens: seq<nat>, wte: Row, wpe: Row, C: nat, r: nat, t: nat): (x: Row)
    ensures |x| == C
  {
    AddRow(RowOf(wte, Pos(0, C, if r < |tokens| then tokens[r] else 0), C), RowOf(wpe, Pos(0, C, t), C), C)
  }

  function NormRows(f: Math, X: seq<Row>, w: Row, b: Row, C: nat): (Y: seq<Row>)
    ensures |Y| == |X|
  {
    seq(|X|, r requires 0 <= r < |X| => LayerNormRow(f, X[r], w, b, C))
  }

  // What the backward pass would need: one cell for each row.
  function MeanRows(X: seq<Row>, C: nat): (Y: seq<Row>)
    ensures |Y| == |X|
  {
    seq(|X|, r requires 0 <= r < |X| => [Mean(X[r], C)])
  }

  function RstdRows(f: Math, X: seq<Row>, C: nat): (Y: seq<Row>)
    ensures |Y| == |X|
  {
    seq(|X|, r requires 0 <= r < |X| => [Rstd(f, X[r], C)])
  }

  function SoftmaxRows(f: Math, X: seq<Row>, V: nat): (Y: seq<Row>)
    ensures |Y| == |X|
  {
    seq(|X|, r requires 0 <= r < |X| => SoftmaxRow(f, X[r], V))
  }

  // ---- encoder_forward ----

  lemma SubRow(m: Row, base: nat, n: nat, C: nat, r: nat)
    requires r < n
    ensures RowOf(RowOf(m, base, n * C), Pos(0, C, r), C) == RowOf(m, Pos(base, C, r), C)
  {
    PosIn(0, C, r, n);
    var x, y, whole := RowOf(RowOf(m, base, n * C), Pos(0, C, r), C), RowOf(m, Pos(base, C, r), C),
      RowOf(m, base, n * C);
    forall i | 0 <= i < C ensures x[i] == y[i] {
      assert x[i] == Entry(whole, Pos(0, C, r) + i) == whole[Pos(0, C, r) + i];
    }
  }

  method EncoderForward(mem: array<real>, out: nat, tokens: seq<nat>, wte: nat, wpe: nat, B: nat, T: nat, C: nat,
      ghost V: nat, ghost maxT: nat)
    requires |tokens| == B * T && T <= maxT && forall r :: 0 <= r < |tokens| ==> tokens[r] < V
    requires In(mem.Length, out, B * T * C) && In(mem.Length, wte, V * C) && In(mem.Length, wpe, maxT * C)
    requires Apart(out, B * T * C, wte, V * C) && Apart(out, B * T * C, wpe, maxT * C)
    modifies mem
    ensures SameBut(old(mem[..]), mem[..], [Slice(out, B * T * C)])
    ensures RowsAre(mem[..], out, C,
      EncodedRows(tokens, RowOf(old(mem[..]), wte, V * C), RowOf(old(mem[..]), wpe, maxT * C), B, T, C))
  {
    ghost var m0 := mem[..];
    ghost var big := [Slice(out, B * T * C)];
    ghost var rows := EncodedRows(tokens, RowOf(m0, wte, V * C), RowOf(m0, wpe, maxT * C), B, T, C);
    var b := 0;
    while b < B
      invariant 0 <= b <= B && SameBut(m0, mem[..], big) && RowsDone(mem[..], out, C, rows, b * T)
    {
      var t := 0;
      while t < T
        invariant 0 <= t <= T && SameBut(m0, mem[..], big) && RowsDone(mem[..], out, C, rows, b * T + t)
      {
        PositionIn(B, T, b, t);
        EncodeOne(mem, out, tokens, wte, wpe, B, T, C, V, maxT, b, t, m0, rows);
        t := t + 1;
      }
      MulDist(b, 1, T);
      b := b + 1;
    }
  }

  function EncodedRows(tokens: seq<nat>, wte: Row, wpe: Row, B: nat, T: nat, C: nat): (Y: seq<Row>)
    ensures |Y| == B * T
  {
    seq(B * T, r requires 0 <= r < B * T => EncodedRow(tokens, wte, wpe, C, r, if T > 0 then r % T else 0))
  }

  method EncodeOne(mem: array<real>, out: nat, tokens: seq<nat>, wte: nat, wpe: nat, B: nat, T: nat, C: nat,
      ghost V: nat, ghost maxT: nat,
                   b: nat, t: nat, ghost m0: Row, ghost rows: seq<Row>)
    requires |tokens| == B * T && T <= maxT && b < B && t < T && b * T + t < B * T && forall r :: 0 <= r < |tokens| ==>
      tokens[r] < V
    requires In(mem.Length, out, B * T * C) && In(mem.Length, wte, V * C) && In(mem.Length, wpe, maxT * C)
    requires Apart(out, B * T * C, wte, V * C) && Apart(out, B * T * C, wpe, maxT * C)
    requires rows == EncodedRows(tokens, RowOf(m0, wte, V * C), RowOf(m0, wpe, maxT * C), B, T, C)
    requires SameBut(m0, mem[..], [Slice(out, B * T * C)]) && RowsDone(mem[..], out, C, rows, b * T + t)
    modifies mem
    ensures SameBut(m0, mem[..], [Slice(out, B * T * C)]) && RowsDone(mem[..], out, C, rows, b * T + t + 1)
  {
    var r := b * T + t;
    PointerIsPos(out, T, C, b, t);
    var outBt, ix := out + b * T * C + t * C, tokens[r];
    var wteIx, wpeT := wte + ix * C, wpe + t * C;
    ghost var m1 := mem[..];
    PosIn(out, C, r, B * T);
    PosIn(wte, C, ix, V);
    PosIn(wpe, C, t, maxT);
    AddInto(mem, outBt, wteIx, wpeT, C);
    RowKept(m0, m1, [Slice(out, B * T * C)], wteIx, C);
    RowKept(m0, m1, [Slice(out, B * T * C)], wpeT, C);
    SubRow(m0, wte, V, C, ix);
    SubRow(m0, wpe, maxT, C, t);
    DivModUnique(b, t, T);
    RowWithin(out, C, r, B * T);
    SameTrans(m0, m1, mem[..], [Slice(out, B * T * C)], [Slice(outBt, C)]);
    ClearOne(out, C, r);
    RowStep(m1, mem[..], out, C, rows, r, [Slice(outBt, C)]);
  }

  // ---- layernorm_forward ----

  function NormBig(out: nat, mean: nat, rstd: nat, n: nat, C: nat): seq<Slice> {
    [Slice(out, n * C), Slice(mean, n), Slice(rstd, n)]
  }

  lemma NormWithin(out: nat, mean: nat, rstd: nat, n: nat, C: nat, r: nat)
    requires r < n
    ensures Within(NormSlices(Pos(out, C, r), mean + r, rstd + r, C), NormBig(out, mean, rstd, n, C))
  {
    PosIn(out, C, r, n);
    var w, big := NormSlices(Pos(out, C, r), mean + r, rstd + r, C), NormBig(out, mean, rstd, n, C);
    forall x: nat | Outside(big, x) ensures Outside(w, x) {
      assert big[0] == Slice(out, n * C) && big[1] == Slice(mean, n) && big[2] == Slice(rstd, n);
    }
  }

  // The slices of a call lie in memory, apart from each other and from what it reads.
  ghost predicate NormOk(size: nat, out: nat, mean: nat, rstd: nat, inp: nat, w: nat, b: nat, n: nat, C: nat) {
    && In(size, out, n * C) && In(size, mean, n) && In(size, rstd, n) && In(size, inp, n * C) && In(size, w, C)
      && In(size, b, C)
    && Apart(out, n * C, mean, n) && Apart(out, n * C, rstd, n) && Apart(mean, n, rstd, n)
    && Clear(NormBig(out, mean, rstd, n, C), inp, n * C) && Clear(NormBig(out, mean, rstd, n, C), w, C)
      && Clear(NormBig(out, mean, rstd, n, C), b, C)
  }

  // The first k rows of all three tensors are in place.
  ghost predicate NormDone(m: Row, f: Math, out: nat, mean: nat, rstd: nat, X: seq<Row>, w: Row, b: Row, C: nat,
      k: nat)
  {
    && RowsDone(m, out, C, NormRows(f, X, w, b, C), k)
    && RowsDone(m, mean, 1, MeanRows(X, C), k) && RowsDone(m, rstd, 1, RstdRows(f, X, C), k)
  }

  method LayerNormForward(mem: array<real>, f: Math, out: nat, mean: nat, rstd: nat, inp: nat, w: nat, b: nat, B: nat,
      T: nat, C: nat, ghost X: seq<Row>)
    requires NormOk(mem.Length, out, mean, rstd, inp, w, b, B * T, C) && |X| == B * T && RowsAre(mem[..], inp, C, X)
    modifies mem
    ensures SameBut(old(mem[..]), mem[..], NormBig(out, mean, rstd, B * T, C))
    ensures RowsAre(mem[..], out, C, NormRows(f, X, RowOf(old(mem[..]), w, C), RowOf(old(mem[..]), b, C), C))
    ensures RowsAre(mem[..], mean, 1, MeanRows(X, C)) && RowsAre(mem[..], rstd, 1, RstdRows(f, X, C))
  {
    hide NormRows, MeanRows, RstdRows, NormOk;
    ghost var m0 := mem[..];
    ghost var big := NormBig(out, mean, rstd, B * T, C);
    ghost var wr, br := RowOf(m0, w, C), RowOf(m0, b, C);
    var bb := 0;
    while bb < B
      invariant 0 <= bb <= B && SameBut(m0, mem[..], big) && NormDone(mem[..], f, out, mean, rstd, X, wr, br, C, bb * T)
    {
      var t := 0;
      while t < T
        invariant 0 <= t <= T && SameBut(m0, mem[..], big)
        invariant NormDone(mem[..], f, out, mean, rstd, X, wr, br, C, bb * T + t)
      {
        PositionIn(B, T, bb, t);
        NormOne(mem, f, out, mean, rstd, inp, w, b, B, T, C, bb, t, m0, X);
        t := t + 1;
      }
      MulDist(bb, 1, T);
      bb := bb + 1;
    }
  }

  method NormOne(mem: array<real>, f: Math, out: nat, mean: nat, rstd: nat, inp: nat, w: nat, b: nat, B: nat, T: nat,
      C: nat,
                 bb: nat, t: nat, ghost m0: Row, ghost X: seq<Row>)
    requires NormOk(mem.Length, out, mean, rstd, inp, w, b, B * T, C) && |X| == B * T && RowsAre(m0, inp, C, X)
    requires bb < B && t < T && bb * T + t < B * T
    requires SameBut(m0, mem[..], NormBig(out, mean, rstd, B * T, C))
    requires NormDone(mem[..], f, out, mean, rstd, X, RowOf(m0, w, C), RowOf(m0, b, C), C, bb * T + t)
    modifies mem
    ensures SameBut(m0, mem[..], NormBig(out, mean, rstd, B * T, C))
    ensures NormDone(mem[..], f, out, mean, rstd, X, RowOf(m0, w, C), RowOf(m0, b, C), C, bb * T + t + 1)
  {
    hide LayerNormRow;
    PointerIsPos(inp, T, C, bb, t);
    PointerIsPos(out, T, C, bb, t);
    var x, outBt := inp + bb * T * C + t * C, out + bb * T * C + t * C;
    ghost var m1, r, big := mem[..], bb * T + t, NormBig(out, mean, rstd, B * T, C);
    PosIn(inp, C, r, B * T);
    PosIn(out, C, r, B * T);
    NormClear(out, mean, rstd, B * T, C, inp, w, b, r);
    NormInto(mem, f, outBt, mean + (bb * T + t), rstd + (bb * T + t), x, w, b, C);
    RowKept(m0, m1, big, x, C);
    RowKept(m0, m1, big, w, C);
    RowKept(m0, m1, big, b, C);
    NormWithin(out, mean, rstd, B * T, C, r);
    SameTrans(m0, m1, mem[..], big, NormSlices(outBt, mean + r, rstd + r, C));
    NormStepDone(m1, mem[..], f, out, mean, rstd, B * T, X, RowOf(m0, w, C), RowOf(m0, b, C), C, r);
  }

  // One more row of each.
  lemma NormStepDone(m1: Row, m2: Row, f: Math, out: nat, mean: nat, rstd: nat, n: nat, X: seq<Row>, w: Row, b: Row,
      C: nat, r: nat)
    requires NormDone(m1, f, out, mean, rstd, X, w, b, C, r) && r < |X| == n
    requires Apart(out, n * C, mean, n) && Apart(out, n * C, rstd, n) && Apart(mean, n, rstd, n)
    requires SameBut(m1, m2, NormSlices(Pos(out, C, r), mean + r, rstd + r, C))
    requires RowOf(m2, Pos(out, C, r), C) == LayerNormRow(f, X[r], w, b, C)
    requires RowOf(m2, mean + r, 1) == [Mean(X[r], C)] && RowOf(m2, rstd + r, 1) == [Rstd(f, X[r], C)]
    ensures NormDone(m2, f, out, mean, rstd, X, w, b, C, r + 1)
  {
    hide LayerNormRow, Mean, Rstd, SameBut, Clear, RowsDone;
    var ws := NormSlices(Pos(out, C, r), mean + r, rstd + r, C);
    NormClearRows(out, mean, rstd, n, C, r);
    NormClearCells(out, mean, rstd, n, C, r);
    assert Pos(mean, 1, r) == mean + r && Pos(rstd, 1, r) == rstd + r;
    RowStep(m1, m2, out, C, NormRows(f, X, w, b, C), r, ws);
    RowStep(m1, m2, mean, 1, MeanRows(X, C), r, ws);
    RowStep(m1, m2, rstd, 1, RstdRows(f, X, C), r, ws);
  }

  lemma NormClearCells(out: nat, mean: nat, rstd: nat, n: nat, C: nat, r: nat)
    requires r < n && Apart(out, n * C, mean, n) && Apart(out, n * C, rstd, n) && Apart(mean, n, rstd, n)
    ensures forall s: nat :: s < r ==> Clear(NormSlices(Pos(out, C, r), mean + r, rstd + r, C), Pos(mean, 1, s), 1)
    ensures forall s: nat :: s < r ==> Clear(NormSlices(Pos(out, C, r), mean + r, rstd + r, C), Pos(rstd, 1, s), 1)
  {
    PosIn(out, C, r, n);
  }

  lemma NormClear(out: nat, mean: nat, rstd: nat, n: nat, C: nat, inp: nat, w: nat, b: nat, r: nat)
    requires r < n && Clear(NormBig(out, mean, rstd, n, C), inp, n * C)
    requires Clear(NormBig(out, mean, rstd, n, C), w, C) && Clear(NormBig(out, mean, rstd, n, C), b, C)
    requires Apart(out, n * C, mean, n) && Apart(out, n * C, rstd, n)
    ensures Clear(NormBig(out, mean, rstd, n, C), Pos(inp, C, r), C)
    ensures Apart(Pos(out, C, r), C, Pos(inp, C, r), C) && Apart(Pos(out, C, r), C, w, C)
      && Apart(Pos(out, C, r), C, b, C)
    ensures Apart(Pos(out, C, r), C, mean + r, 1) && Apart(Pos(out, C, r), C, rstd + r, 1)
  {
    var big := NormBig(out, mean, rstd, n, C);
    PosIn(inp, C, r, n);
    PosIn(out, C, r, n);
    assert big[0] == Slice(out, n * C);
    assert Apart(out, n * C, inp, n * C) && Apart(out, n * C, w, C) && Apart(out, n * C, b, C);
    forall i | 0 <= i < |big|
      ensures Apart(big[i].at, big[i].len, Pos(inp, C, r), C)
    {
      assert Apart(big[i].at, big[i].len, inp, n * C);
    }
  }

  lemma NormClearRows(out: nat, mean: nat, rstd: nat, n: nat, C: nat, r: nat)
    requires r < n && Apart(out, n * C, mean, n) && Apart(out, n * C, rstd, n)
    ensures forall s: nat :: s < r ==> Clear(NormSlices(Pos(out, C, r), mean + r, rstd + r, C), Pos(out, C, s), C)
  {
    forall s: nat | s < r ensures Clear(NormSlices(Pos(out, C, r), mean + r, rstd + r, C), Pos(out, C, s), C) {
      PosApart(out, C, s, r);
      PosIn(out, C, s, n);
    }
  }

  // ---- softmax_forward ----

  method SoftmaxForward(mem: array<real>, f: Math, probs: nat, logits: nat, B: nat, T: nat, V: nat, ghost X: seq<Row>)
    requires In(mem.Length, probs, B * T * V) && In(mem.Length, logits, B * T * V)
      && Apart(probs, B * T * V, logits, B * T * V)
    requires |X| == B * T && RowsAre(mem[..], logits, V, X)
    modifies mem
    ensures SameBut(old(mem[..]), mem[..], [Slice(probs, B * T * V)])
      && RowsAre(mem[..], probs, V, SoftmaxRows(f, X, V))
  {
    ghost var m0 := mem[..];
    ghost var rows := SoftmaxRows(f, X, V);
    var b := 0;
    while b < B
      invariant 0 <= b <= B && SameBut(m0, mem[..], [Slice(probs, B * T * V)])
        && RowsDone(mem[..], probs, V, rows, b * T)
    {
      var t := 0;
      while t < T
        invariant 0 <= t <= T && SameBut(m0, mem[..], [Slice(probs, B * T * V)])
          && RowsDone(mem[..], probs, V, rows, b * T + t)
      {
        PositionIn(B, T, b, t);
        SoftmaxOne(mem, f, probs, logits, B, T, V, b, t, m0, X);
        t := t + 1;
      }
      MulDist(b, 1, T);
      b := b + 1;
    }
  }

  method SoftmaxOne(mem: array<real>, f: Math, probs: nat, logits: nat, B: nat, T: nat, V: nat, b: nat, t: nat,
      ghost m0: Row, ghost X: seq<Row>)
    requires In(mem.Length, probs, B * T * V) && In(mem.Length, logits, B * T * V)
      && Apart(probs, B * T * V, logits, B * T * V)
    requires |X| == B * T && RowsAre(m0, logits, V, X) && b < B && t < T && b * T + t < B * T
    requires SameBut(m0, mem[..], [Slice(probs, B * T * V)])
      && RowsDone(mem[..], probs, V, SoftmaxRows(f, X, V), b * T + t)
    modifies mem
    ensures SameBut(m0, mem[..], [Slice(probs, B * T * V)])
      && RowsDone(mem[..], probs, V, SoftmaxRows(f, X, V), b * T + t + 1)
  {
    PointerIsPos(logits, T, V, b, t);
    PointerIsPos(probs, T, V, b, t);
    var logitsBt, probsBt := logits + b * T * V + t * V, probs + b * T * V + t * V;
    ghost var m1, r := mem[..], b * T + t;
    PosIn(logits, V, r, B * T);
    PosIn(probs, V, r, B * T);
    SoftmaxInto(mem, f, probsBt, logitsBt, V);
    RowKept(m0, m1, [Slice(probs, B * T * V)], logitsBt, V);
    RowWithin(probs, V, r, B * T);
    SameTrans(m0, m1, mem[..], [Slice(probs, B * T * V)], [Slice(probsBt, V)]);
    ClearOne(probs, V, r);
    RowStep(m1, mem[..], probs, V, SoftmaxRows(f, X, V), r, [Slice(probsBt, V)]);
  }
}
