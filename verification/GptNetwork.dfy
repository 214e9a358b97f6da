// What gpt2_forward (M3-gpt/gpt.c) computes, as a function of the tokens and the parameters, and
// why it is causal: the output at a position depends on no later one.

module GptNetwork {
  import opened Arith
  import opened GptRows
  import opened GptLayers
  import opened GptTensors
  import opened GptAttention
  import opened GptMatmul
  import opened GptBlock

  // A trained network: its dimensions and what its parameter tensors hold.
  datatype Net = Net(f: Math, V: nat, NH: nat, C: nat, wte: Row, wpe: Row, layers: seq<Params>, lnfw: Row, lnfb: Row)

  // B sequences of T tokens; and, layer by layer, what the memory of the attention output held
  // before the call.
  datatype Input = Input(tokens: seq<nat>, B: nat, T: nat, stale: seq<seq<Row>>) {
    predicate Valid() { |tokens| == B * T }
    predicate Has(b: nat, t: nat) { b < B && t < T }
    function RowNo(b: nat, t: nat): nat { b * T + t }
    function StaleAt(l: nat): seq<Row> { if l < |stale| then stale[l] else [] }
  }

  function DimsFor(net: Net, x: Input): Dims { Dims(x.B, x.T, net.C, net.NH) }

  // The residual stream after l layers.
  function Stream(net: Net, x: Input, l: nat): (X: seq<Row>)
    requires net.NH > 0 && l <= |net.layers|
    ensures |X| == x.B * x.T
  {
    if l == 0 then EncodedRows(x.tokens, net.wte, net.wpe, x.B, x.T, net.C)
    else BlockRows(net.f, Stream(net, x, l - 1), net.layers[l - 1], DimsFor(net, x), x.StaleAt(l - 1))
  }

  // The logits share their weights with the token embedding and have no bias.
  function LogitsOf(net: Net, X: seq<Row>): (Y: seq<Row>)
    ensures |Y| == |X|
  {
    MatmulRows(NormRows(net.f, X, net.lnfw, net.lnfb, net.C), net.wte, None, net.C, net.V)
  }

  function Probs(net: Net, x: Input): (P: seq<Row>)
    requires net.NH > 0
    ensures |P| == x.B * x.T
  {
    SoftmaxRows(net.f, LogitsOf(net, Stream(net, x, |net.layers|)), net.V)
  }

  // ---- layers that work on each position by itself ----

  lemma QkvSame(f: Math, X: seq<Row>, i: nat, Y: seq<Row>, j: nat, p: Params, C: nat)
    requires i < |X| && j < |Y| && X[i] == Y[j]
    ensures QkvRows(f, X, p, C)[i] == QkvRows(f, Y, p, C)[j]
  {
    var N, M := NormRows(f, X, p.ln1w, p.ln1b, C), NormRows(f, Y, p.ln1w, p.ln1b, C);
    assert N[i] == M[j];
  }

  lemma MlpSame(f: Math, X: seq<Row>, i: nat, Y: seq<Row>, j: nat, p: Params, C: nat)
    requires i < |X| && j < |Y| && X[i] == Y[j]
    ensures MlpRows(f, X, p, C)[i] == MlpRows(f, Y, p, C)[j]
  {
    var N, M := NormRows(f, X, p.ln2w, p.ln2b, C), NormRows(f, Y, p.ln2w, p.ln2b, C);
    assert N[i] == M[j];
    var U, V := MatmulRows(N, p.fcw, Some(p.fcb), C, 4 * C), MatmulRows(M, p.fcw, Some(p.fcb), C, 4 * C);
    assert U[i] == V[j];
    var G, H := GeluRows(f, U, 4 * C), GeluRows(f, V, 4 * C);
    assert G[i] == H[j];
  }

  lemma ProbsSame(net: Net, X: seq<Row>, i: nat, Y: seq<Row>, j: nat)
    requires i < |X| && j < |Y| && X[i] == Y[j]
    ensures SoftmaxRows(net.f, LogitsOf(net, X), net.V)[i] == SoftmaxRows(net.f, LogitsOf(net, Y), net.V)[j]
  {
    var N, M := NormRows(net.f, X, net.lnfw, net.lnfb, net.C), NormRows(net.f, Y, net.lnfw, net.lnfb, net.C);
    assert N[i] == M[j];
    assert LogitsOf(net, X)[i] == LogitsOf(net, Y)[j];
  }

  // ---- the layer that mixes positions ----

  // Sequence b of X and sequence c of Y have the same rows at s.
  ghost predicate SameAt(X: seq<Row>, x: Input, b: nat, Y: seq<Row>, y: Input, c: nat, s: nat) {
    RowAt(X, x.RowNo(b, s)) == RowAt(Y, y.RowNo(c, s))
  }

  ghost predicate Agree(X: seq<Row>, x: Input, b: nat, Y: seq<Row>, y: Input, c: nat, t: nat) {
    forall s: nat :: s <= t ==> SameAt(X, x, b, Y, y, c, s)
  }

  lemma AttentionSame(f: Math, X: seq<Row>, x: Input, b: nat, Y: seq<Row>, y: Input, c: nat, t: nat, C: nat, NH: nat,
      prev: seq<Row>, prev': seq<Row>)
    requires NH > 0 && C % NH == 0 && x.Has(b, t) && y.Has(c, t) && Agree(X, x, b, Y, y, c, t)
    ensures SameAt(AttentionRows(f, X, x.B, x.T, C, NH, prev), x, b, AttentionRows(f, Y, y.B, y.T, C, NH, prev'), y, c,
      t)
  {
    var Q, P := Batch(X, b, x.T), Batch(Y, c, y.T);
    forall s: nat | s <= t ensures Q[s] == P[s] { assert SameAt(X, x, b, Y, y, c, s); }
    PositionIn(x.B, x.T, b, t);
    PositionIn(y.B, y.T, c, t);
    DivModUnique(b, t, x.T);
    DivModUnique(c, t, y.T);
    var p, p' := RowAt(prev, x.RowNo(b, t)), RowAt(prev', y.RowNo(c, t));
    AttentionPrefix(f, Q, P, t, C, NH, p);
    CoveredIff(f, P, t, C, NH);
    assert AttentionRow(f, P, t, C, NH, p) == AttentionRow(f, P, t, C, NH, p');
  }

  lemma BlockSame(f: Math, X: seq<Row>, x: Input, b: nat, Y: seq<Row>, y: Input, c: nat, t: nat, w: Params, C: nat,
      NH: nat, prev: seq<Row>, prev': seq<Row>)
    requires NH > 0 && C % NH == 0 && x.Has(b, t) && y.Has(c, t) && Agree(X, x, b, Y, y, c, t) && |X| == x.B * x.T
      && |Y| == y.B * y.T
    ensures SameAt(BlockRows(f, X, w, Dims(x.B, x.T, C, NH), prev), x, b,
      BlockRows(f, Y, w, Dims(y.B, y.T, C, NH), prev'), y, c, t)
  {
    var i, j := x.RowNo(b, t), y.RowNo(c, t);
    PositionIn(x.B, x.T, b, t);
    PositionIn(y.B, y.T, c, t);
    assert SameAt(X, x, b, Y, y, c, t);
    var Q, P := QkvRows(f, X, w, C), QkvRows(f, Y, w, C);
    forall s: nat | s <= t ensures SameAt(Q, x, b, P, y, c, s) {
      PositionIn(x.B, x.T, b, s);
      PositionIn(y.B, y.T, c, s);
      assert SameAt(X, x, b, Y, y, c, s);
      QkvSame(f, X, x.RowNo(b, s), Y, y.RowNo(c, s), w, C);
    }
    AttentionSame(f, Q, x, b, P, y, c, t, C, NH, prev, prev');
    var A, D := AttentionRows(f, Q, x.B, x.T, C, NH, prev), AttentionRows(f, P, y.B, y.T, C, NH, prev');
    assert A[i] == D[j];
    assert MatmulRows(A, w.attprojw, Some(w.attprojb), C, C)[i] == MatmulRows(D, w.attprojw, Some(w.attprojb), C, C)[j];
    var R, S := Attended(f, X, w, Dims(x.B, x.T, C, NH), prev), Attended(f, Y, w, Dims(y.B, y.T, C, NH), prev');
    assert R[i] == S[j];
    MlpSame(f, R, i, S, j, w, C);
  }

  // ---- the whole network ----

  // Sequence b of x and sequence c of y have the same tokens up to position t.
  ghost predicate SameTokens(x: Input, b: nat, y: Input, c: nat, t: nat)
    requires x.Valid() && y.Valid()
  {
    forall s: nat {:trigger x.RowNo(b, s)} {:trigger y.RowNo(c, s)} ::
      s <= t && x.RowNo(b, s) < |x.tokens| && y.RowNo(c, s) < |y.tokens| ==>
      x.tokens[x.RowNo(b, s)] == y.tokens[y.RowNo(c, s)]
  }

  lemma {:induction false} StreamsAgree(net: Net, x: Input, b: nat, y: Input, c: nat, t: nat, l: nat)
    requires net.NH > 0 && net.C % net.NH == 0 && l <= |net.layers|
    requires x.Valid() && y.Valid() && x.Has(b, t) && y.Has(c, t) && SameTokens(x, b, y, c, t)
    ensures Agree(Stream(net, x, l), x, b, Stream(net, y, l), y, c, t)
  {
    hide Stream, BlockRows, EncodedRows, SameAt;
    if l == 0 {
      forall s: nat | s <= t
        ensures SameAt(Stream(net, x, l), x, b, Stream(net, y, l), y, c, s)
      {
        EncodedSame(net, x, b, y, c, s);
      }
    } else {
      StreamsAgree(net, x, b, y, c, t, l - 1);
      StreamStep(net, x, b, y, c, t, l);
    }
  }

  lemma StreamStep(net: Net, x: Input, b: nat, y: Input, c: nat, t: nat, l: nat)
    requires net.NH > 0 && net.C % net.NH == 0 && 0 < l <= |net.layers| && x.Has(b, t) && y.Has(c, t)
    requires Agree(Stream(net, x, l - 1), x, b, Stream(net, y, l - 1), y, c, t)
    ensures Agree(Stream(net, x, l), x, b, Stream(net, y, l), y, c, t)
  {
    var X, Y, w := Stream(net, x, l - 1), Stream(net, y, l - 1), net.layers[l - 1];
    forall s: nat | s <= t ensures SameAt(Stream(net, x, l), x, b, Stream(net, y, l), y, c, s) {
      assert Agree(X, x, b, Y, y, c, s);
      BlockSame(net.f, X, x, b, Y, y, c, s, w, net.C, net.NH, x.StaleAt(l - 1), y.StaleAt(l - 1));
    }
  }

  lemma EncodedSame(net: Net, x: Input, b: nat, y: Input, c: nat, s: nat)
    requires net.NH > 0 && x.Valid() && y.Valid() && x.Has(b, s) && y.Has(c, s) && SameTokens(x, b, y, c, s)
    ensures SameAt(Stream(net, x, 0), x, b, Stream(net, y, 0), y, c, s)
  {
    PositionIn(x.B, x.T, b, s);
    PositionIn(y.B, y.T, c, s);
    DivModUnique(b, s, x.T);
    DivModUnique(c, s, y.T);
    assert x.tokens[x.RowNo(b, s)] == y.tokens[y.RowNo(c, s)];
  }

  // Causality: for sequences that agree up to position t, whatever their lengths, the batches they
  // are in, and what memory held before, the probabilities at t are the same.
  lemma Causality(net: Net, x: Input, b: nat, y: Input, c: nat, t: nat)
    requires net.NH > 0 && net.C % net.NH == 0
    requires x.Valid() && y.Valid() && x.Has(b, t) && y.Has(c, t) && SameTokens(x, b, y, c, t)
    ensures RowAt(Probs(net, x), x.RowNo(b, t)) == RowAt(Probs(net, y), y.RowNo(c, t))
  {
    var L := |net.layers|;
    StreamsAgree(net, x, b, y, c, t, L);
    assert SameAt(Stream(net, x, L), x, b, Stream(net, y, L), y, c, t);
    PositionIn(x.B, x.T, b, t);
    PositionIn(y.B, y.T, c, t);
    ProbsSame(net, Stream(net, x, L), x.RowNo(b, t), Stream(net, y, L), y.RowNo(c, t));
  }

  // ---- the rows are distributions ----

  lemma {:induction false} ExpSumPositive(f: Math, x: Row, m: real, n: nat)
    requires forall v: real :: f.exp(v) > 0.0
    ensures if n == 0 then ExpSum(f, x, m, n) == 0.0 else ExpSum(f, x, m, n) > 0.0
  {
    if n > 0 { ExpSumPositive(f, x, m, n - 1); }
  }

  lemma DivSum(a: real, b: real, c: real)
    requires c > 0.0
    ensures Div(a, c) + Div(b, c) == Div(a + b, c) && Div(c, c) == 1.0 && Div(0.0, c) == 0.0
  {
  }

  lemma {:induction false} PartialSum(f: Math, x: Row, n: nat, k: nat)
    requires k <= n && n > 0 && forall v: real :: f.exp(v) > 0.0
    ensures Sum(SoftmaxRow(f, x, n), k) == Div(ExpSum(f, x, MaxOf(x, n), k), ExpSum(f, x, MaxOf(x, n), n))
  {
    var m := MaxOf(x, n);
    var total := ExpSum(f, x, m, n);
    ExpSumPositive(f, x, m, n);
    if k == 0 {
      DivSum(0.0, 0.0, total);
    } else {
      PartialSum(f, x, n, k - 1);
      DivSum(ExpSum(f, x, m, k - 1), f.exp(Entry(x, k - 1) - m), total);
      assert SoftmaxRow(f, x, n)[k - 1] == Div(f.exp(Entry(x, k - 1) - m), total);
    }
  }

  // What sample_mult demands of its argument.
  lemma SumsToOne(f: Math, x: Row, n: nat)
    requires n > 0 && forall v: real :: f.exp(v) > 0.0
    ensures Sum(SoftmaxRow(f, x, n), n) == 1.0 && forall i :: 0 <= i < n ==> SoftmaxRow(f, x, n)[i] > 0.0
  {
    var m := MaxOf(x, n);
    ExpSumPositive(f, x, m, n);
    PartialSum(f, x, n, n);
    DivSum(0.0, 0.0, ExpSum(f, x, m, n));
    forall i | 0 <= i < n
      ensures SoftmaxRow(f, x, n)[i] > 0.0
    {
      DivPositive(f.exp(Entry(x, i) - m), ExpSum(f, x, m, n));
    }
  }

  lemma DivPositive(a: real, c: real)
    requires a > 0.0 && c > 0.0
    ensures Div(a, c) > 0.0
  {
  }
}
