// gpt2_forward of M3-gpt/gpt.c in place on its flat memory: it leaves the rows that the network of
// GptNetwork defines, and it never writes a parameter.

module GptForward {
  import opened Arith
  import opened GptRows
  import opened GptLayers
  import opened GptTensors
  import opened GptAttention
  import opened GptMatmul
  import opened GptBlock
  import opened GptLayout
  import opened GptNetwork
  import M = Matmul

  // Activations outside the layers.
  const ENCODED := 16
  const LAST := 32
  const LNF := 33
  const LNF_MEAN := 34
  const LNF_RSTD := 35
  const LOGITS := 36
  const PROBS := 37

  // ---- the network that the parameters hold ----

  function LayerParams(g: Config, params: Row, l: nat): Params {
    ParamsOf(params, DimsOf(g, 1, 1), LayerSlices(g, 1, 1, l))
  }

  function NetOf(f: Math, g: Config, params: Row): (n: Net)
    ensures |n.layers| == g.L && n.NH == g.NH && n.C == g.C && n.V == g.V
  {
    Net(f, g.V, g.NH, g.C, RowOf(params, ParamPtr(g, 0), g.V * g.C), RowOf(params, ParamPtr(g, 1), g.maxT * g.C),
        seq(g.L, l requires 0 <= l < g.L => LayerParams(g, params, l)), RowOf(params, ParamPtr(g, 14), g.C),
          RowOf(params, ParamPtr(g, 15), g.C))
  }

  // The parameters are in place at the start of memory.
  ghost predicate Loaded(m: Row, g: Config, params: Row) {
    |params| == ParamTotal(g) && RowOf(m, 0, ParamTotal(g)) == params
  }

  lemma LoadedRow(m: Row, g: Config, params: Row, a: nat, n: nat)
    requires Loaded(m, g, params) && a + n <= ParamTotal(g)
    ensures RowOf(m, a, n) == RowOf(params, a, n)
  {
    var x, y := RowOf(m, a, n), RowOf(params, a, n);
    forall i | 0 <= i < n ensures x[i] == y[i] {
      assert RowOf(m, 0, ParamTotal(g))[a + i] == Entry(m, a + i);
      assert x[i] == Entry(m, a + i) && y[i] == Entry(params, a + i);
    }
  }

  lemma TensorRow(m: Row, g: Config, params: Row, k: nat)
    requires Loaded(m, g, params) && k < 16
    ensures RowOf(m, ParamPtr(g, k), ParamSizes(g)[k]) == RowOf(params, ParamPtr(g, k), ParamSizes(g)[k])
  {
    SumMono(ParamSizes(g), k, 16);
    LoadedRow(m, g, params, ParamPtr(g, k), ParamSizes(g)[k]);
  }

  // The parameters of a layer lie where no B and T matter.
  lemma LayerParamIs(m: Row, g: Config, params: Row, B: nat, T: nat, l: nat, i: nat)
    requires Loaded(m, g, params) && l < g.L && 17 <= i < 29
    ensures ParamAt(m, DimsOf(g, B, T), LayerSlices(g, B, T, l), i) ==
      ParamAt(params, DimsOf(g, 1, 1), LayerSlices(g, 1, 1, l), i)
  {
    SliceIn(g, B, T, l, i);
    SumMono(ParamSizes(g), i - 15, 16);
    assert Len(DimsOf(g, B, T), i) == Len(DimsOf(g, 1, 1), i);
    LoadedRow(m, g, params, At(g, B, T, l, i), Len(DimsOf(g, B, T), i));
  }

  lemma LayerParamsAre(m: Row, g: Config, params: Row, B: nat, T: nat, l: nat)
    requires Loaded(m, g, params) && l < g.L
    ensures ParamsOf(m, DimsOf(g, B, T), LayerSlices(g, B, T, l)) == LayerParams(g, params, l)
  {
    forall i: nat | 17 <= i < 29
      ensures ParamAt(m, DimsOf(g, B, T), LayerSlices(g, B, T, l), i) ==
        ParamAt(params, DimsOf(g, 1, 1), LayerSlices(g, 1, 1, l), i)
    {
      LayerParamIs(m, g, params, B, T, l, i);
    }
  }

  // ---- what a layer leaves alone ----

  // A slice that layer l writes, and one that it does not.
  lemma OtherLayerApart(g: Config, B: nat, T: nat, l: nat, i: nat, m: nat)
    requires l < m < g.L && 1 <= i <= RESIDUAL3
    ensures Apart(At(g, B, T, l, i), Len(DimsOf(g, B, T), i), At(g, B, T, m, ATTY), Len(DimsOf(g, B, T), ATTY))
  {
    if i == ATTY {
      LayersApart(g, B, T, l, m, ATTY);
    } else {
      SliceIn(g, B, T, l, i);
      SliceIn(g, B, T, m, ATTY);
      if i < ATTY { TensorsApart(g, B, T, 16 + i, 16 + ATTY); } else { TensorsApart(g, B, T, 16 + ATTY, 16 + i); }
    }
  }

  lemma LayerKeepsParams(g: Config, B: nat, T: nat, l: nat, p: Row, q: Row, params: Row)
    requires l < g.L && Loaded(p, g, params) && SameBut(p, q, LayerSlices(g, B, T, l)[1..17])
    ensures Loaded(q, g, params)
  {
    var s := LayerSlices(g, B, T, l);
    forall j | 0 <= j < 16 ensures Apart(s[1..17][j].at, s[1..17][j].len, 0, ParamTotal(g)) {
      SliceIn(g, B, T, l, j + 1);
      assert s[1..17][j] == s[j + 1];
    }
    RowKept(p, q, s[1..17], 0, ParamTotal(g));
  }

  // What the attention output of layer m holds.
  function Stale(mem: Row, g: Config, B: nat, T: nat, m: nat): seq<Row> {
    RowsIn(mem, At(g, B, T, m, ATTY), g.C, B * T)
  }

  ghost predicate StaleFrom(m0: Row, mem: Row, g: Config, B: nat, T: nat, l: nat) {
    forall m: nat {:trigger Stale(mem, g, B, T, m)} :: l <= m < g.L ==> Stale(mem, g, B, T, m) == Stale(m0, g, B, T, m)
  }

  lemma LayerKeepsStale(g: Config, B: nat, T: nat, l: nat, p: Row, q: Row, m: nat)
    requires l < m < g.L && SameBut(p, q, LayerSlices(g, B, T, l)[1..17])
    ensures Stale(q, g, B, T, m) == Stale(p, g, B, T, m)
  {
    var s, d, a := LayerSlices(g, B, T, l), DimsOf(g, B, T), At(g, B, T, m, ATTY);
    var P, Q := Stale(p, g, B, T, m), Stale(q, g, B, T, m);
    forall j | 0 <= j < 16 ensures Apart(s[1..17][j].at, s[1..17][j].len, a, Len(d, ATTY)) {
      OtherLayerApart(g, B, T, l, j + 1, m);
      assert s[1..17][j] == s[j + 1];
    }
    forall r: nat | r < B * T ensures RowOf(p, Pos(a, g.C, r), g.C) == P[r] { }
    RowsKept(p, q, s[1..17], a, g.C, P);
    forall r: nat | r < B * T ensures Q[r] == P[r] { assert Q[r] == RowOf(q, Pos(a, g.C, r), g.C); }
  }

  // ---- the pass ----

  function InputOf(m0: Row, g: Config, tokens: seq<nat>, B: nat, T: nat): (x: Input)
    ensures x.tokens == tokens && x.B == B && x.T == T && |x.stale| == g.L
  {
    Input(tokens, B, T, seq(g.L, l requires 0 <= l < g.L => Stale(m0, g, B, T, l)))
  }

  ghost predicate CallOk(size: nat, g: Config, tokens: seq<nat>, B: nat, T: nat) {
    && size == Total(g, B, T) && g.L > 0 && g.NH > 0 && T <= g.maxT
    && |tokens| == B * T && forall r :: 0 <= r < |tokens| ==> tokens[r] < g.V
  }

  // Before layer l.
  ghost predicate Reached(f: Math, g: Config, tokens: seq<nat>, B: nat, T: nat, m0: Row, mem: Row, params: Row, l: nat)
    requires g.NH > 0 && l <= g.L
  {
    && Loaded(mem, g, params) && StaleFrom(m0, mem, g, B, T, l)
    && RowsAre(mem, At(g, B, T, l, RESIDUAL), g.C, Stream(NetOf(f, g, params), InputOf(m0, g, tokens, B, T), l))
  }

  lemma TwoTensors(g: Config, B: nat, T: nat, j: nat, k: nat)
    requires j < 39 && k < 39 && j != k
    ensures Apart(Base(g, B, T, j), Size(g, B, T, j), Base(g, B, T, k), Size(g, B, T, k))
    ensures In(Total(g, B, T), Base(g, B, T, j), Size(g, B, T, j))
      && In(Total(g, B, T), Base(g, B, T, k), Size(g, B, T, k))
  {
    if j < k { TensorsApart(g, B, T, j, k); } else { TensorsApart(g, B, T, k, j); }
  }

  // encoder_forward
  ghost predicate EncodeDoes(g: Config, tokens: seq<nat>, B: nat, T: nat, p: Row, q: Row) {
    && SameBut(p, q, [Slice(ActPtr(g, B, T, 0), B * T * g.C)])
    && RowsAre(q, ActPtr(g, B, T, 0), g.C,
      EncodedRows(tokens, RowOf(p, ParamPtr(g, 0), g.V * g.C), RowOf(p, ParamPtr(g, 1), g.maxT * g.C), B, T, g.C))
  }

  method Encode(mem: array<real>, g: Config, tokens: seq<nat>, B: nat, T: nat)
    requires CallOk(mem.Length, g, tokens, B, T)
    modifies mem
    ensures EncodeDoes(g, tokens, B, T, old(mem[..]), mem[..])
  {
    TwoTensors(g, B, T, ENCODED, 0);
    TwoTensors(g, B, T, ENCODED, 1);
    EncoderForward(mem, ActPtr(g, B, T, 0), tokens, ParamPtr(g, 0), ParamPtr(g, 1), B, T, g.C, g.V, g.maxT);
  }

  lemma EncodeIs(f: Math, g: Config, tokens: seq<nat>, B: nat, T: nat, params: Row, p: Row, q: Row)
    requires CallOk(|p|, g, tokens, B, T) && Loaded(p, g, params) && EncodeDoes(g, tokens, B, T, p, q)
    ensures Reached(f, g, tokens, B, T, p, q, params, 0)
  {
    TensorRow(p, g, params, 0);
    TensorRow(p, g, params, 1);
    EncoderKeeps(g, B, T, p, q, params);
  }

  lemma EncoderKeeps(g: Config, B: nat, T: nat, p: Row, q: Row, params: Row)
    requires Loaded(p, g, params) && SameBut(p, q, [Slice(ActPtr(g, B, T, 0), B * T * g.C)])
    ensures Loaded(q, g, params) && StaleFrom(p, q, g, B, T, 0)
  {
    var w := [Slice(ActPtr(g, B, T, 0), B * T * g.C)];
    RowKept(p, q, w, 0, ParamTotal(g));
    forall m: nat | m < g.L
      ensures Stale(q, g, B, T, m) == Stale(p, g, B, T, m)
    {
      EncoderKeepsStale(g, B, T, p, q, m);
    }
  }

  lemma EncoderKeepsStale(g: Config, B: nat, T: nat, p: Row, q: Row, m: nat)
    requires m < g.L && SameBut(p, q, [Slice(ActPtr(g, B, T, 0), B * T * g.C)])
    ensures Stale(q, g, B, T, m) == Stale(p, g, B, T, m)
  {
    var w, a := [Slice(ActPtr(g, B, T, 0), B * T * g.C)], At(g, B, T, m, ATTY);
    var P, Q := Stale(p, g, B, T, m), Stale(q, g, B, T, m);
    SliceIn(g, B, T, m, ATTY);
    TensorsApart(g, B, T, ENCODED, 16 + ATTY);
    forall r: nat | r < B * T ensures RowOf(p, Pos(a, g.C, r), g.C) == P[r] { }
    RowsKept(p, q, w, a, g.C, P);
    forall r: nat | r < B * T ensures Q[r] == P[r] { assert Q[r] == RowOf(q, Pos(a, g.C, r), g.C); }
  }

  // What a layer leaves, given the stream that it reads.
  ghost predicate LayerDone(f: Math, g: Config, B: nat, T: nat, l: nat, X: seq<Row>, p: Row, q: Row)
    requires g.NH > 0
  {
    var d, s := DimsOf(g, B, T), LayerSlices(g, B, T, l);
    && SameBut(p, q, s[1..17])
    && RowsAre(q, s[RESIDUAL3].at, g.C, BlockRows(f, X, ParamsOf(p, d, s), d, RowsIn(p, s[ATTY].at, d.C, d.N())))
  }

  lemma OneLayerIs(f: Math, g: Config, tokens: seq<nat>, B: nat, T: nat, l: nat, m0: Row, params: Row, p: Row, q: Row)
    requires g.NH > 0 && l < g.L && Reached(f, g, tokens, B, T, m0, p, params, l)
    requires LayerDone(f, g, B, T, l, Stream(NetOf(f, g, params), InputOf(m0, g, tokens, B, T), l), p, q)
    ensures Reached(f, g, tokens, B, T, m0, q, params, l + 1)
  {
    hide SameBut, RowsAre, BlockRows, BlockOk, LayerParams;
    var net, x := NetOf(f, g, params), InputOf(m0, g, tokens, B, T);
    var s := LayerSlices(g, B, T, l);
    LayerParamsAre(p, g, params, B, T, l);
    LayerKeepsParams(g, B, T, l, p, q, params);
    forall m: nat | l + 1 <= m < g.L ensures Stale(q, g, B, T, m) == Stale(m0, g, B, T, m) {
      LayerKeepsStale(g, B, T, l, p, q, m);
      assert Stale(p, g, B, T, m) == Stale(m0, g, B, T, m);
    }
    assert Stale(p, g, B, T, l) == Stale(m0, g, B, T, l) == x.StaleAt(l);
    assert At(g, B, T, l + 1, RESIDUAL) == s[RESIDUAL3].at;
    assert net.layers[l] == LayerParams(g, params, l);
  }

  // One turn of the loop over layers.
  method OneLayer(mem: array<real>, f: Math, g: Config, ghost tokens: seq<nat>, B: nat, T: nat, l: nat, ghost m0: Row,
      ghost params: Row)
    requires mem.Length == Total(g, B, T) && g.NH > 0 && l < g.L && Reached(f, g, tokens, B, T, m0, mem[..], params, l)
    modifies mem
    ensures Reached(f, g, tokens, B, T, m0, mem[..], params, l + 1)
  {
    hide SameBut, RowsAre, BlockRows, BlockOk, LayerParams;
    ghost var m1, X := mem[..], Stream(NetOf(f, g, params), InputOf(m0, g, tokens, B, T), l);
    LayersAreOk(g, B, T, l);
    Layer(mem, f, DimsOf(g, B, T), LayerSlices(g, B, T, l), X);
    OneLayerIs(f, g, tokens, B, T, l, m0, params, m1, mem[..]);
  }

  // ---- the last layers ----

  lemma LastIn(g: Config, B: nat, T: nat)
    requires g.L > 0
    ensures Base(g, B, T, LAST) <= At(g, B, T, g.L, RESIDUAL)
    ensures At(g, B, T, g.L, RESIDUAL) + B * T * g.C <= Base(g, B, T, LAST) + Size(g, B, T, LAST)
  {
    SizesAreLayers(g, B, T);
    PartIn(ActPtr(g, B, T, RESIDUAL3), g.L - 1, Len(DimsOf(g, B, T), RESIDUAL3), g.L);
  }

  lemma LastSizes(g: Config, B: nat, T: nat)
    ensures Size(g, B, T, LNF) == B * T * g.C && Size(g, B, T, LNF_MEAN) == Size(g, B, T, LNF_RSTD) == B * T
    ensures Size(g, B, T, 14) == Size(g, B, T, 15) == g.C
    ensures Base(g, B, T, LNF) == ActPtr(g, B, T, 17) && Base(g, B, T, LNF_MEAN) == ActPtr(g, B, T, 18)
    ensures Base(g, B, T, LNF_RSTD) == ActPtr(g, B, T, 19) && Base(g, B, T, 14) == ParamPtr(g, 14)
      && Base(g, B, T, 15) == ParamPtr(g, 15)
  {
  }

  lemma FinalNormOk(g: Config, B: nat, T: nat)
    requires g.L > 0
    ensures NormOk(Total(g, B, T), ActPtr(g, B, T, 17), ActPtr(g, B, T, 18), ActPtr(g, B, T, 19),
      At(g, B, T, g.L, RESIDUAL),
                   ParamPtr(g, 14), ParamPtr(g, 15), B * T, g.C)
  {
    hide Size, Base, ActPtr, ParamPtr, At, Total;
    LastIn(g, B, T);
    LastSizes(g, B, T);
    TwoTensors(g, B, T, 14, 15);
    TwoTensors(g, B, T, LAST, LNF);
    TwoTensors(g, B, T, LNF, LNF_MEAN);
    TwoTensors(g, B, T, LNF, LNF_RSTD);
    TwoTensors(g, B, T, LNF_MEAN, LNF_RSTD);
    FinalApart(g, B, T, LNF);
    FinalApart(g, B, T, LNF_MEAN);
    FinalApart(g, B, T, LNF_RSTD);
  }

  lemma FinalApart(g: Config, B: nat, T: nat, k: nat)
    requires LNF <= k <= LNF_RSTD && g.L > 0
    ensures Apart(Base(g, B, T, k), Size(g, B, T, k), At(g, B, T, g.L, RESIDUAL), B * T * g.C)
    ensures Apart(Base(g, B, T, k), Size(g, B, T, k), ParamPtr(g, 14), g.C)
      && Apart(Base(g, B, T, k), Size(g, B, T, k), ParamPtr(g, 15), g.C)
  {
    hide Size, Base, ActPtr, ParamPtr, At, Total;
    LastIn(g, B, T);
    LastSizes(g, B, T);
    TwoTensors(g, B, T, LAST, k);
    TwoTensors(g, B, T, 14, k);
    TwoTensors(g, B, T, 15, k);
  }

  lemma NormKeepsParams(g: Config, B: nat, T: nat, p: Row, q: Row, params: Row)
    requires Loaded(p, g, params)
    requires SameBut(p, q, NormBig(ActPtr(g, B, T, 17), ActPtr(g, B, T, 18), ActPtr(g, B, T, 19), B * T, g.C))
    ensures Loaded(q, g, params)
  {
    RowKept(p, q, NormBig(ActPtr(g, B, T, 17), ActPtr(g, B, T, 18), ActPtr(g, B, T, 19), B * T, g.C), 0, ParamTotal(g));
  }

  // layernorm_forward on the last residual stream
  ghost predicate FinalNormDoes(f: Math, g: Config, B: nat, T: nat, p: Row, q: Row) {
    var X := RowsIn(p, At(g, B, T, g.L, RESIDUAL), g.C, B * T);
    && SameBut(p, q, NormBig(ActPtr(g, B, T, 17), ActPtr(g, B, T, 18), ActPtr(g, B, T, 19), B * T, g.C))
    && RowsAre(q, ActPtr(g, B, T, 17), g.C,
      NormRows(f, X, RowOf(p, ParamPtr(g, 14), g.C), RowOf(p, ParamPtr(g, 15), g.C), g.C))
  }

  method FinalNorm(mem: array<real>, f: Math, g: Config, B: nat, T: nat)
    requires mem.Length == Total(g, B, T) && g.L > 0
    modifies mem
    ensures FinalNormDoes(f, g, B, T, old(mem[..]), mem[..])
  {
    ghost var at := At(g, B, T, g.L, RESIDUAL);
    FinalNormOk(g, B, T);
    RowsInHold(mem[..], at, g.C, B * T);
    LayerNormForward(mem, f, ActPtr(g, B, T, 17), ActPtr(g, B, T, 18), ActPtr(g, B, T, 19), At(g, B, T, g.L, RESIDUAL),
                     ParamPtr(g, 14), ParamPtr(g, 15), B, T, g.C, RowsIn(mem[..], at, g.C, B * T));
  }

  lemma FinalNormIs(f: Math, g: Config, B: nat, T: nat, X: seq<Row>, params: Row, p: Row, q: Row)
    requires |p| == Total(g, B, T) && g.L > 0 && Loaded(p, g, params) && |X| == B * T
    requires RowsAre(p, At(g, B, T, g.L, RESIDUAL), g.C, X) && FinalNormDoes(f, g, B, T, p, q)
    ensures Loaded(q, g, params)
    ensures RowsAre(q, ActPtr(g, B, T, 17), g.C,
      NormRows(f, X, RowOf(params, ParamPtr(g, 14), g.C), RowOf(params, ParamPtr(g, 15), g.C), g.C))
  {
    RowsInAre(p, At(g, B, T, g.L, RESIDUAL), g.C, B * T, X);
    TensorRow(p, g, params, 14);
    TensorRow(p, g, params, 15);
    NormKeepsParams(g, B, T, p, q, params);
  }

  function LogitsCall(g: Config, B: nat, T: nat): M.Call {
    M.Call(ActPtr(g, B, T, 20), ActPtr(g, B, T, 17), ParamPtr(g, 0), M.None, B, T, g.C, g.V)
  }

  lemma LogitsCallOk(g: Config, B: nat, T: nat)
    ensures M.ValidCall(LogitsCall(g, B, T), Total(g, B, T))
  {
    TwoTensors(g, B, T, LOGITS, LNF);
    TwoTensors(g, B, T, LOGITS, 0);
  }

  // softmax_forward
  ghost predicate SoftmaxDoes(f: Math, g: Config, B: nat, T: nat, p: Row, q: Row) {
    && SameBut(p, q, [Slice(ActPtr(g, B, T, 21), B * T * g.V)])
    && RowsAre(q, ActPtr(g, B, T, 21), g.V, SoftmaxRows(f, RowsIn(p, ActPtr(g, B, T, 20), g.V, B * T), g.V))
  }

  method Softmax(mem: array<real>, f: Math, g: Config, B: nat, T: nat)
    requires mem.Length == Total(g, B, T)
    modifies mem
    ensures SoftmaxDoes(f, g, B, T, old(mem[..]), mem[..])
  {
    TwoTensors(g, B, T, PROBS, LOGITS);
    RowsInHold(mem[..], ActPtr(g, B, T, 20), g.V, B * T);
    SoftmaxForward(mem, f, ActPtr(g, B, T, 21), ActPtr(g, B, T, 20), B, T, g.V,
      RowsIn(mem[..], ActPtr(g, B, T, 20), g.V, B * T));
  }

  // The product that makes the logits, and the softmax.
  lemma HeadIs(f: Math, g: Config, B: nat, T: nat, X: seq<Row>, params: Row, m1: Row, m2: Row, m3: Row)
    requires |m1| == Total(g, B, T) && Loaded(m1, g, params)
    requires |X| == B * T && RowsAre(m1, ActPtr(g, B, T, 17), g.C, X)
    requires m2 == M.MatmulSpec(m1, LogitsCall(g, B, T)) && SoftmaxDoes(f, g, B, T, m2, m3)
    ensures Loaded(m3, g, params)
    ensures RowsAre(m3, ActPtr(g, B, T, 21), g.V,
      SoftmaxRows(f, MatmulRows(X, RowOf(params, ParamPtr(g, 0), g.V * g.C), None, g.C, g.V), g.V))
  {
    var c := LogitsCall(g, B, T);
    LogitsCallOk(g, B, T);
    TensorRow(m1, g, params, 0);
    CallIsRows(m1, c, X);
    RowKept(m1, m2, [Slice(c.out, M.Rows(c) * c.OC)], 0, ParamTotal(g));
    TwoTensors(g, B, T, PROBS, LOGITS);
    RowsInAre(m2, ActPtr(g, B, T, 20), g.V, B * T,
      MatmulRows(X, RowOf(params, ParamPtr(g, 0), g.V * g.C), None, g.C, g.V));
    RowKept(m2, m3, [Slice(ActPtr(g, B, T, 21), B * T * g.V)], 0, ParamTotal(g));
  }

  // ---- gpt2_forward ----

  // What follows the layers.
  lemma LastIs(f: Math, g: Config, tokens: seq<nat>, B: nat, T: nat, m0: Row, params: Row, m1: Row, m2: Row, m3: Row,
      m4: Row)
    requires |m1| == Total(g, B, T) && g.L > 0 && g.NH > 0 && Reached(f, g, tokens, B, T, m0, m1, params, g.L)
    requires FinalNormDoes(f, g, B, T, m1, m2) && m3 == M.MatmulSpec(m2, LogitsCall(g, B, T))
    requires SoftmaxDoes(f, g, B, T, m3, m4)
    ensures Loaded(m4, g, params)
    ensures RowsAre(m4, ActPtr(g, B, T, 21), g.V, Probs(NetOf(f, g, params), InputOf(m0, g, tokens, B, T)))
  {
    hide RowsAre, SoftmaxDoes, Stream, NormRows, MatmulRows, SoftmaxRows;
    var net, x := NetOf(f, g, params), InputOf(m0, g, tokens, B, T);
    var X := Stream(net, x, g.L);
    FinalNormIs(f, g, B, T, X, params, m1, m2);
    HeadIs(f, g, B, T, NormRows(f, X, net.lnfw, net.lnfb, g.C), params, m2, m3, m4);
  }

  // The memory may hold anything but must start with the parameters; they are still there at the end.
  method Forward(mem: array<real>, f: Math, g: Config, tokens: seq<nat>, B: nat, T: nat, ghost params: Row)
    requires CallOk(mem.Length, g, tokens, B, T) && Loaded(mem[..], g, params)
    modifies mem
    ensures Loaded(mem[..], g, params)
    ensures RowsAre(mem[..], ActPtr(g, B, T, 21), g.V,
      Probs(NetOf(f, g, params), InputOf(old(mem[..]), g, tokens, B, T)))
  {
    hide EncodeDoes, FinalNormDoes, SoftmaxDoes, RowsAre, SameBut, Reached, Loaded;
    ghost var m0, net, x := mem[..], NetOf(f, g, params), InputOf(mem[..], g, tokens, B, T);
    Encode(mem, g, tokens, B, T);
    EncodeIs(f, g, tokens, B, T, params, m0, mem[..]);
    var l: nat := 0;
    while l < g.L
      invariant l <= g.L && Reached(f, g, tokens, B, T, m0, mem[..], params, l)
    {
      OneLayer(mem, f, g, tokens, B, T, l, m0, params);
      l := l + 1;
    }
    ghost var m1 := mem[..];
    FinalNorm(mem, f, g, B, T);
    ghost var m2 := mem[..];
    LogitsCallOk(g, B, T);
    MatmulForward(mem, LogitsCall(g, B, T));
    ghost var m3 := mem[..];
    Softmax(mem, f, g, B, T);
    LastIs(f, g, tokens, B, T, m0, params, m1, m2, m3, mem[..]);
  }
}
