// One transformer layer of gpt2_forward (M3-gpt/gpt.c): ten calls on slices of the flat memory,
// each of which must find what it needs where an earlier one has left it.

module GptBlock {
  import opened Arith
  import opened GptRows
  import opened GptLayers
  import opened GptTensors
  import opened GptAttention
  import opened GptMatmul
  import M = Matmul

  // The slices of one layer, in this order: the residual stream it reads, its activations, its parameters.
  const RESIDUAL := 0
  const LN1 := 1
  const LN1_MEAN := 2
  const LN1_RSTD := 3
  const QKV := 4
  const ATTY := 5
  const PREATT := 6
  const ATT := 7
  const ATTPROJ := 8
  const RESIDUAL2 := 9
  const LN2 := 10
  const LN2_MEAN := 11
  const LN2_RSTD := 12
  const FCH := 13
  const FCH_GELU := 14
  const FCPROJ := 15
  const RESIDUAL3 := 16
  const LN1W := 17
  const LN1B := 18
  const QKVW := 19
  const QKVB := 20
  const ATTPROJW := 21
  const ATTPROJB := 22
  const LN2W := 23
  const LN2B := 24
  const FCW := 25
  const FCB := 26
  const FCPROJW := 27
  const FCPROJB := 28

  datatype Dims = Dims(B: nat, T: nat, C: nat, NH: nat) {
    function N(): nat { B * T }
  }

  // How long the slices are.
  function Len(d: Dims, i: nat): nat {
    if i == QKV then d.N() * (d.C * 3)
    else if i == PREATT || i == ATT then d.B * d.NH * d.T * d.T
    else if i == LN1_MEAN || i == LN1_RSTD || i == LN2_MEAN || i == LN2_RSTD then d.N()
    else if i == FCH || i == FCH_GELU then d.N() * (4 * d.C)
    else if i <= RESIDUAL3 then d.N() * d.C
    else if i == QKVW then (d.C * 3) * d.C
    else if i == QKVB then d.C * 3
    else if i == ATTPROJW then d.C * d.C
    else if i == FCW then (4 * d.C) * d.C
    else if i == FCB then 4 * d.C
    else if i == FCPROJW then d.C * (4 * d.C)
    else d.C
  }

  // They lie in memory and do not overlap.
  ghost predicate BlockOk(size: nat, d: Dims, s: seq<Slice>) {
    && |s| == 29 && d.NH > 0
    && (forall i: nat :: i < |s| ==> s[i].len == Len(d, i) && In(size, s[i].at, s[i].len))
    && (forall i: nat, j: nat :: i < j < |s| ==> Apart(s[i].at, s[i].len, s[j].at, s[j].len))
  }

  // The parameters of a layer.
  datatype Params = Params(ln1w: Row, ln1b: Row, qkvw: Row, qkvb: Row, attprojw: Row, attprojb: Row, ln2w: Row,
      ln2b: Row,
                           fcw: Row, fcb: Row, fcprojw: Row, fcprojb: Row)

  function ParamAt(m: Row, d: Dims, s: seq<Slice>, i: nat): Row requires i < |s| { RowOf(m, s[i].at, Len(d, i)) }

  function ParamsOf(m: Row, d: Dims, s: seq<Slice>): Params
    requires |s| == 29
  {
    Params(ParamAt(m, d, s, LN1W), ParamAt(m, d, s, LN1B), ParamAt(m, d, s, QKVW), ParamAt(m, d, s, QKVB),
           ParamAt(m, d, s, ATTPROJW), ParamAt(m, d, s, ATTPROJB), ParamAt(m, d, s, LN2W), ParamAt(m, d, s, LN2B),
           ParamAt(m, d, s, FCW), ParamAt(m, d, s, FCB), ParamAt(m, d, s, FCPROJW), ParamAt(m, d, s, FCPROJB))
  }

  // ---- what the layer computes ----

  function AddRows(X: seq<Row>, Y: seq<Row>, C: nat): (Z: seq<Row>)
    ensures |Z| == |X|
  {
    seq(|X|, r requires 0 <= r < |X| => AddRow(X[r], RowAt(Y, r), C))
  }

  function GeluRows(f: Math, X: seq<Row>, n: nat): (Y: seq<Row>)
    ensures |Y| == |X|
  {
    seq(|X|, r requires 0 <= r < |X| => GeluRow(f, X[r], n))
  }

  function QkvRows(f: Math, X: seq<Row>, p: Params, C: nat): (Q: seq<Row>)
    ensures |Q| == |X|
  {
    MatmulRows(NormRows(f, X, p.ln1w, p.ln1b, C), p.qkvw, Some(p.qkvb), C, C * 3)
  }

  // The residual stream after attention, and after the MLP.
  function Attended(f: Math, X: seq<Row>, p: Params, d: Dims, prev: seq<Row>): (R: seq<Row>)
    requires d.NH > 0
    ensures |R| == |X|
  {
    AddRows(X, MatmulRows(AttentionRows(f, QkvRows(f, X, p, d.C), d.B, d.T, d.C, d.NH, prev), p.attprojw,
      Some(p.attprojb), d.C, d.C), d.C)
  }

  function MlpRows(f: Math, X: seq<Row>, p: Params, C: nat): (R: seq<Row>)
    ensures |R| == |X|
  {
    AddRows(X, MatmulRows(GeluRows(f, MatmulRows(NormRows(f, X, p.ln2w, p.ln2b, C), p.fcw, Some(p.fcb), C, 4 * C),
      4 * C),
                          p.fcprojw, Some(p.fcprojb), 4 * C, C), C)
  }

  function BlockRows(f: Math, X: seq<Row>, p: Params, d: Dims, prev: seq<Row>): (R: seq<Row>)
    requires d.NH > 0
    ensures |R| == |X|
  {
    MlpRows(f, Attended(f, X, p, d, prev), p, d.C)
  }

  // ---- elementwise layers on flat slices ----

  lemma FlatAdd(m0: Row, m1: Row, out: nat, x: nat, y: nat, n: nat, C: nat, X: seq<Row>, Y: seq<Row>)
    requires RowOf(m1, out, n * C) == AddRow(RowOf(m0, x, n * C), RowOf(m0, y, n * C), n * C)
    requires |X| == |Y| == n && RowsAre(m0, x, C, X) && RowsAre(m0, y, C, Y)
    ensures RowsAre(m1, out, C, AddRows(X, Y, C))
  {
    forall r: nat | r < n ensures RowOf(m1, Pos(out, C, r), C) == AddRows(X, Y, C)[r] {
      var a, b := RowOf(m1, Pos(out, C, r), C), AddRows(X, Y, C)[r];
      PosIn(0, C, r, n);
      forall i | 0 <= i < C ensures a[i] == b[i] {
        FlatEntry(m1, out, n, C, r, i);
        FlatEntry(m0, x, n, C, r, i);
        FlatEntry(m0, y, n, C, r, i);
        assert RowOf(m1, out, n * C)[r * C + i] == AddRow(RowOf(m0, x, n * C), RowOf(m0, y, n * C), n * C)[r * C + i];
        assert X[r] == RowOf(m0, Pos(x, C, r), C) && Y[r] == RowOf(m0, Pos(y, C, r), C);
      }
    }
  }

  lemma FlatEntry(m: Row, base: nat, n: nat, C: nat, r: nat, i: nat)
    requires r < n && i < C
    ensures r * C + i < n * C && RowOf(m, base, n * C)[r * C + i] == RowOf(m, Pos(base, C, r), C)[i]
  {
    PosIn(0, C, r, n);
    var x, y := RowOf(m, base, n * C), RowOf(m, Pos(base, C, r), C);
    assert x[r * C + i] == Entry(m, base + (r * C + i)) && y[i] == Entry(m, Pos(base, C, r) + i);
  }

  lemma FlatGelu(f: Math, m0: Row, m1: Row, out: nat, x: nat, n: nat, C: nat, X: seq<Row>)
    requires RowOf(m1, out, n * C) == GeluRow(f, RowOf(m0, x, n * C), n * C) && |X| == n && RowsAre(m0, x, C, X)
    ensures RowsAre(m1, out, C, GeluRows(f, X, C))
  {
    forall r: nat | r < n ensures RowOf(m1, Pos(out, C, r), C) == GeluRows(f, X, C)[r] {
      var a, b := RowOf(m1, Pos(out, C, r), C), GeluRows(f, X, C)[r];
      forall i | 0 <= i < C ensures a[i] == b[i] {
        FlatEntry(m1, out, n, C, r, i);
        FlatEntry(m0, x, n, C, r, i);
        assert RowOf(m1, out, n * C)[r * C + i] == GeluRow(f, RowOf(m0, x, n * C), n * C)[r * C + i];
        assert X[r] == RowOf(m0, Pos(x, C, r), C);
      }
    }
  }

  // ---- the calls, as steps on slices ----

  lemma SlicesApart(size: nat, d: Dims, s: seq<Slice>, i: nat, j: nat)
    requires BlockOk(size, d, s) && i < 29 && j < 29 && i != j
    ensures Apart(s[i].at, Len(d, i), s[j].at, Len(d, j)) && In(size, s[i].at, Len(d, i))
      && In(size, s[j].at, Len(d, j))
  {
    if i < j {
      assert Apart(s[i].at, s[i].len, s[j].at, s[j].len);
    } else {
      assert Apart(s[j].at, s[j].len, s[i].at, s[i].len);
    }
  }

  // Rows are what they are.
  lemma RowsInAre(m: Row, base: nat, C: nat, n: nat, X: seq<Row>)
    requires RowsAre(m, base, C, X) && |X| == n
    ensures RowsIn(m, base, C, n) == X
  {
    var Y := RowsIn(m, base, C, n);
    forall r: nat | r < n ensures Y[r] == X[r] { assert RowOf(m, Pos(base, C, r), C) == X[r]; }
  }

  lemma RowsInHold(m: Row, base: nat, C: nat, n: nat)
    ensures RowsAre(m, base, C, RowsIn(m, base, C, n))
  {
  }

  // layernorm_forward: LN1 or LN2, with its means behind it, from input i, with the parameters w and w + 1.
  ghost predicate NormDoes(f: Math, d: Dims, s: seq<Slice>, o: nat, i: nat, w: nat, p: Row, q: Row)
    requires |s| == 29 && o < 27 && i < 29 && w < 28
  {
    var X := RowsIn(p, s[i].at, d.C, d.N());
    && SameBut(p, q, [s[o], s[o + 1], s[o + 2]])
    && RowsAre(q, s[o].at, d.C, NormRows(f, X, ParamAt(p, d, s, w), ParamAt(p, d, s, w + 1), d.C))
    && RowsAre(q, s[o + 1].at, 1, MeanRows(X, d.C)) && RowsAre(q, s[o + 2].at, 1, RstdRows(f, X, d.C))
  }

  method NormStep(mem: array<real>, f: Math, d: Dims, s: seq<Slice>, o: nat, i: nat, w: nat)
    requires BlockOk(mem.Length, d, s) && (o, i, w) in {(LN1, RESIDUAL, LN1W), (LN2, RESIDUAL2, LN2W)}
    modifies mem
    ensures NormDoes(f, d, s, o, i, w, old(mem[..]), mem[..])
  {
    hide RowsAre, RowsIn, NormRows, MeanRows, RstdRows, NormOk, SameBut;
    ghost var X := RowsIn(mem[..], s[i].at, d.C, d.N());
    RowsInHold(mem[..], s[i].at, d.C, d.N());
    NormCallOk(mem.Length, d, s, o, i, w);
    LayerNormForward(mem, f, s[o].at, s[o + 1].at, s[o + 2].at, s[i].at, s[w].at, s[w + 1].at, d.B, d.T, d.C, X);
    assert [s[o], s[o + 1], s[o + 2]] == NormBig(s[o].at, s[o + 1].at, s[o + 2].at, d.B * d.T, d.C);
  }

  lemma NormCallOk(size: nat, d: Dims, s: seq<Slice>, o: nat, i: nat, w: nat)
    requires BlockOk(size, d, s) && (o, i, w) in {(LN1, RESIDUAL, LN1W), (LN2, RESIDUAL2, LN2W)}
    ensures NormOk(size, s[o].at, s[o + 1].at, s[o + 2].at, s[i].at, s[w].at, s[w + 1].at, d.B * d.T, d.C)
  {
    SlicesApart(size, d, s, o, o + 1);
    SlicesApart(size, d, s, o, o + 2);
    SlicesApart(size, d, s, o, i);
    SlicesApart(size, d, s, o, w);
    SlicesApart(size, d, s, o, w + 1);
    SlicesApart(size, d, s, o + 1, i);
    SlicesApart(size, d, s, o + 1, w);
    SlicesApart(size, d, s, o + 1, w + 1);
    SlicesApart(size, d, s, o + 2, i);
    SlicesApart(size, d, s, o + 2, w);
    SlicesApart(size, d, s, o + 2, w + 1);
  }

  // The four matrix products: output, input, weights (then biases), and the row lengths.
  ghost predicate MatmulStepOk(d: Dims, o: nat, i: nat, w: nat, C: nat, OC: nat) {
    && o < 29 && i < 29 && w < 28 && o != i && o != w && o != w + 1
    && Len(d, o) == d.N() * OC && Len(d, i) == d.N() * C && Len(d, w) == OC * C && Len(d, w + 1) == OC
  }

  function CallOf(d: Dims, s: seq<Slice>, o: nat, i: nat, w: nat, C: nat, OC: nat): M.Call
    requires |s| == 29 && o < 29 && i < 29 && w < 28
  {
    M.Call(s[o].at, s[i].at, s[w].at, M.Some(s[w + 1].at), d.B, d.T, C, OC)
  }

  function QkvCall(d: Dims, s: seq<Slice>): M.Call requires |s| == 29 { CallOf(d, s, QKV, LN1, QKVW, d.C, d.C * 3) }
  function AttProjCall(d: Dims, s: seq<Slice>): M.Call requires |s| == 29 {
    CallOf(d, s, ATTPROJ, ATTY, ATTPROJW, d.C, d.C)
  }
  function FchCall(d: Dims, s: seq<Slice>): M.Call requires |s| == 29 { CallOf(d, s, FCH, LN2, FCW, d.C, 4 * d.C) }
  function FcProjCall(d: Dims, s: seq<Slice>): M.Call requires |s| == 29 {
    CallOf(d, s, FCPROJ, FCH_GELU, FCPROJW, 4 * d.C, d.C)
  }

  lemma MatmulCallOk(size: nat, d: Dims, s: seq<Slice>, o: nat, i: nat, w: nat, C: nat, OC: nat)
    requires BlockOk(size, d, s) && MatmulStepOk(d, o, i, w, C, OC)
    ensures M.ValidCall(M.Call(s[o].at, s[i].at, s[w].at, M.Some(s[w + 1].at), d.B, d.T, C, OC), size)
  {
    SlicesApart(size, d, s, o, i);
    SlicesApart(size, d, s, o, w);
    SlicesApart(size, d, s, o, w + 1);
  }

  lemma ProductsOk(d: Dims)
    ensures MatmulStepOk(d, QKV, LN1, QKVW, d.C, d.C * 3) && MatmulStepOk(d, ATTPROJ, ATTY, ATTPROJW, d.C, d.C)
    ensures MatmulStepOk(d, FCH, LN2, FCW, d.C, 4 * d.C) && MatmulStepOk(d, FCPROJ, FCH_GELU, FCPROJW, 4 * d.C, d.C)
  {
  }

  lemma CallsAreOk(size: nat, d: Dims, s: seq<Slice>)
    requires BlockOk(size, d, s)
    ensures M.ValidCall(QkvCall(d, s), size) && M.ValidCall(AttProjCall(d, s), size)
    ensures M.ValidCall(FchCall(d, s), size) && M.ValidCall(FcProjCall(d, s), size)
  {
    ProductsOk(d);
    MatmulCallOk(size, d, s, QKV, LN1, QKVW, d.C, d.C * 3);
    MatmulCallOk(size, d, s, ATTPROJ, ATTY, ATTPROJW, d.C, d.C);
    MatmulCallOk(size, d, s, FCH, LN2, FCW, d.C, 4 * d.C);
    MatmulCallOk(size, d, s, FCPROJ, FCH_GELU, FCPROJW, 4 * d.C, d.C);
  }

  // matmul_forward as rows.
  lemma MatmulDoes(d: Dims, s: seq<Slice>, o: nat, i: nat, w: nat, C: nat, OC: nat, X: seq<Row>, p: Row, q: Row)
    requires BlockOk(|p|, d, s) && MatmulStepOk(d, o, i, w, C, OC) && |X| == d.N() && RowsAre(p, s[i].at, C, X)
    requires q == M.MatmulSpec(p, CallOf(d, s, o, i, w, C, OC))
    ensures SameBut(p, q, [s[o]])
    ensures RowsAre(q, s[o].at, OC, MatmulRows(X, ParamAt(p, d, s, w), Some(ParamAt(p, d, s, w + 1)), C, OC))
  {
    var c := CallOf(d, s, o, i, w, C, OC);
    MatmulCallOk(|p|, d, s, o, i, w, C, OC);
    CallIsRows(p, c, X);
    assert [s[o]] == [Slice(c.out, M.Rows(c) * c.OC)];
  }

  // attention_forward
  ghost predicate AttDoes(f: Math, d: Dims, s: seq<Slice>, p: Row, q: Row)
    requires |s| == 29 && d.NH > 0
  {
    && SameBut(p, q, [s[ATTY], s[PREATT], s[ATT]])
    && RowsAre(q, s[ATTY].at, d.C, AttentionRows(f, RowsIn(p, s[QKV].at, d.C * 3, d.N()), d.B, d.T, d.C, d.NH,
      RowsIn(p, s[ATTY].at, d.C, d.N())))
  }

  method AttentionStep(mem: array<real>, f: Math, d: Dims, s: seq<Slice>)
    requires BlockOk(mem.Length, d, s)
    modifies mem
    ensures AttDoes(f, d, s, old(mem[..]), mem[..])
  {
    AttCallOk(mem.Length, d, s);
    RowsInHold(mem[..], s[QKV].at, d.C * 3, d.N());
    AttentionForward(mem, f, s[ATTY].at, s[PREATT].at, s[ATT].at, s[QKV].at, d.B, d.T, d.C, d.NH,
      RowsIn(mem[..], s[QKV].at, d.C * 3, d.N()));
    assert [s[ATTY], s[PREATT], s[ATT]] == AttBig(s[ATTY].at, s[PREATT].at, s[ATT].at, d.B, d.T, d.C, d.NH);
  }

  lemma AttCallOk(size: nat, d: Dims, s: seq<Slice>)
    requires BlockOk(size, d, s)
    ensures AttOk(size, s[ATTY].at, s[PREATT].at, s[ATT].at, s[QKV].at, d.B, d.T, d.C, d.NH)
  {
    SlicesApart(size, d, s, ATTY, PREATT);
    SlicesApart(size, d, s, ATTY, ATT);
    SlicesApart(size, d, s, PREATT, ATT);
    SlicesApart(size, d, s, ATTY, QKV);
    SlicesApart(size, d, s, PREATT, QKV);
    SlicesApart(size, d, s, ATT, QKV);
  }

  // residual_forward
  ghost predicate AddDoes(d: Dims, s: seq<Slice>, o: nat, i: nat, j: nat, p: Row, q: Row)
    requires |s| == 29 && o < 29 && i < 29 && j < 29
  {
    && SameBut(p, q, [s[o]])
    && RowsAre(q, s[o].at, d.C, AddRows(RowsIn(p, s[i].at, d.C, d.N()), RowsIn(p, s[j].at, d.C, d.N()), d.C))
  }

  method AddStep(mem: array<real>, d: Dims, s: seq<Slice>, o: nat, i: nat, j: nat)
    requires BlockOk(mem.Length, d, s) && (o, i, j) in {(RESIDUAL2, RESIDUAL, ATTPROJ), (RESIDUAL3, RESIDUAL2, FCPROJ)}
    modifies mem
    ensures AddDoes(d, s, o, i, j, old(mem[..]), mem[..])
  {
    ghost var m0 := mem[..];
    SlicesApart(mem.Length, d, s, o, i);
    SlicesApart(mem.Length, d, s, o, j);
    AddInto(mem, s[o].at, s[i].at, s[j].at, d.B * d.T * d.C);
    RowsInHold(m0, s[i].at, d.C, d.N());
    RowsInHold(m0, s[j].at, d.C, d.N());
    FlatAdd(m0, mem[..], s[o].at, s[i].at, s[j].at, d.N(), d.C, RowsIn(m0, s[i].at, d.C, d.N()),
      RowsIn(m0, s[j].at, d.C, d.N()));
    assert [s[o]] == [Slice(s[o].at, d.B * d.T * d.C)];
  }

  // gelu_forward
  ghost predicate GeluDoes(f: Math, d: Dims, s: seq<Slice>, p: Row, q: Row)
    requires |s| == 29
  {
    && SameBut(p, q, [s[FCH_GELU]])
    && RowsAre(q, s[FCH_GELU].at, 4 * d.C, GeluRows(f, RowsIn(p, s[FCH].at, 4 * d.C, d.N()), 4 * d.C))
  }

  method GeluStep(mem: array<real>, f: Math, d: Dims, s: seq<Slice>)
    requires BlockOk(mem.Length, d, s)
    modifies mem
    ensures GeluDoes(f, d, s, old(mem[..]), mem[..])
  {
    ghost var m0 := mem[..];
    SlicesApart(mem.Length, d, s, FCH_GELU, FCH);
    GeluInto(mem, f, s[FCH_GELU].at, s[FCH].at, d.N() * (4 * d.C));
    RowsInHold(m0, s[FCH].at, 4 * d.C, d.N());
    FlatGelu(f, m0, mem[..], s[FCH_GELU].at, s[FCH].at, d.N(), 4 * d.C, RowsIn(m0, s[FCH].at, 4 * d.C, d.N()));
    assert [s[FCH_GELU]] == [Slice(s[FCH_GELU].at, d.N() * (4 * d.C))];
  }

  // ---- what the steps leave alone ----

  // Writing some of the slices 1 .. k-1 is writing within s[1..k].
  lemma Advance(m0: Row, m1: Row, m2: Row, s: seq<Slice>, k: nat, l: nat, ws: seq<Slice>)
    requires 1 <= k <= l <= |s| && SameBut(m0, m1, s[1..k]) && SameBut(m1, m2, ws)
    requires forall i :: 0 <= i < |ws| ==> ws[i] in s[1..l]
    ensures SameBut(m0, m2, s[1..l])
  {
    var big := s[1..l];
    forall x: nat | Outside(big, x) ensures Entry(m2, x) == Entry(m0, x) {
      OutsideFewer(s, k, l, x);
      assert Entry(m1, x) == Entry(m0, x);
      forall i | 0 <= i < |ws| ensures x < ws[i].at || x >= ws[i].at + ws[i].len {
        assert ws[i] in big;
        var j :| 0 <= j < |big| && big[j] == ws[i];
      }
      assert Outside(ws, x);
    }
  }

  lemma OutsideFewer(s: seq<Slice>, k: nat, l: nat, x: nat)
    requires 1 <= k <= l <= |s| && Outside(s[1..l], x)
    ensures Outside(s[1..k], x)
  {
    forall i | 0 <= i < k - 1
      ensures x < s[1..k][i].at || x >= s[1..k][i].at + s[1..k][i].len
    {
      assert s[1..l][i] == s[1..k][i];
    }
  }

  // Slice i is not among them.
  lemma SliceClear(size: nat, d: Dims, s: seq<Slice>, k: nat, i: nat)
    requires BlockOk(size, d, s) && 1 <= k <= 29 && i < 29 && (i == 0 || i >= k)
    ensures Clear(s[1..k], s[i].at, Len(d, i))
  {
    forall j | 0 <= j < k - 1 ensures Apart(s[1..k][j].at, s[1..k][j].len, s[i].at, Len(d, i)) {
      SlicesApart(size, d, s, j + 1, i);
      assert s[1..k][j] == s[j + 1];
    }
  }

  lemma RowsStay(size: nat, d: Dims, s: seq<Slice>, k: nat, i: nat, p: Row, q: Row, C: nat, X: seq<Row>)
    requires BlockOk(size, d, s) && 1 <= k <= 29 && i < 29 && (i == 0 || i >= k) && SameBut(p, q, s[1..k])
    requires |X| * C == Len(d, i) && RowsAre(p, s[i].at, C, X)
    ensures RowsAre(q, s[i].at, C, X)
  {
    SliceClear(size, d, s, k, i);
    RowsKept(p, q, s[1..k], s[i].at, C, X);
  }

  lemma ParamStays(size: nat, d: Dims, s: seq<Slice>, k: nat, i: nat, p: Row, q: Row)
    requires BlockOk(size, d, s) && 1 <= k <= 29 && i < 29 && i >= k && SameBut(p, q, s[1..k])
    ensures ParamAt(q, d, s, i) == ParamAt(p, d, s, i)
  {
    SliceClear(size, d, s, k, i);
    RowKept(p, q, s[1..k], s[i].at, Len(d, i));
  }

  lemma InSlices(s: seq<Slice>, l: nat, i: nat)
    requires 1 <= i < l <= |s|
    ensures s[i] in s[1..l]
  {
    assert s[1..l][i - 1] == s[i];
  }

  lemma PrevStays(size: nat, d: Dims, s: seq<Slice>, p: Row, q: Row)
    requires BlockOk(size, d, s) && SameBut(p, q, s[1..5])
    ensures RowsIn(q, s[ATTY].at, d.C, d.N()) == RowsIn(p, s[ATTY].at, d.C, d.N())
  {
    var P := RowsIn(p, s[ATTY].at, d.C, d.N());
    RowsInHold(p, s[ATTY].at, d.C, d.N());
    RowsStay(size, d, s, 5, ATTY, p, q, d.C, P);
    RowsInAre(q, s[ATTY].at, d.C, d.N(), P);
  }

  // Writing other slices leaves slice i.
  lemma Untouched(size: nat, d: Dims, s: seq<Slice>, ws: seq<Slice>, ks: seq<nat>, i: nat, p: Row, q: Row, C: nat,
      X: seq<Row>)
    requires BlockOk(size, d, s) && i < 29 && |ws| == |ks| && (forall k :: 0 <= k < |ks| ==>
      ks[k] < 29 && ks[k] != i && ws[k] == s[ks[k]])
    requires SameBut(p, q, ws) && |X| * C == Len(d, i) && RowsAre(p, s[i].at, C, X)
    ensures RowsAre(q, s[i].at, C, X)
  {
    forall k | 0 <= k < |ws| ensures Apart(ws[k].at, ws[k].len, s[i].at, |X| * C) { SlicesApart(size, d, s, ks[k], i); }
    RowsKept(p, q, ws, s[i].at, C, X);
  }

  lemma NothingYet(m: Row, s: seq<Slice>)
    requires |s| >= 1
    ensures SameBut(m, m, s[1..1])
  {
  }

  // ---- the layer, call by call ----

  // layernorm and the product that makes queries, keys and values
  lemma QkvIs(f: Math, d: Dims, s: seq<Slice>, X: seq<Row>, m0: Row, m1: Row, m2: Row)
    requires BlockOk(|m0|, d, s) && |X| == d.N() && RowsAre(m0, s[RESIDUAL].at, d.C, X)
    requires NormDoes(f, d, s, LN1, RESIDUAL, LN1W, m0, m1) && m2 == M.MatmulSpec(m1, QkvCall(d, s))
    ensures SameBut(m0, m2, s[1..5]) && RowsAre(m2, s[QKV].at, d.C * 3, QkvRows(f, X, ParamsOf(m0, d, s), d.C))
  {
    hide SameBut, RowsAre, MatmulRows, NormRows, MeanRows, RstdRows;
    var size, p := |m0|, ParamsOf(m0, d, s);
    RowsInAre(m0, s[RESIDUAL].at, d.C, d.N(), X);
    NothingYet(m0, s);
    InSlices(s, 4, LN1); InSlices(s, 4, LN1_MEAN); InSlices(s, 4, LN1_RSTD);
    Advance(m0, m0, m1, s, 1, 4, [s[LN1], s[LN1_MEAN], s[LN1_RSTD]]);
    ParamStays(size, d, s, 4, QKVW, m0, m1);
    ParamStays(size, d, s, 4, QKVB, m0, m1);
    ProductsOk(d);
    SameSize(m0, m1, s[1..4]);
    MatmulDoes(d, s, QKV, LN1, QKVW, d.C, d.C * 3, NormRows(f, X, p.ln1w, p.ln1b, d.C), m1, m2);
    InSlices(s, 5, QKV);
    Advance(m0, m1, m2, s, 4, 5, [s[QKV]]);
  }

  lemma SameSize(p: Row, q: Row, ws: seq<Slice>)
    requires SameBut(p, q, ws)
    ensures |q| == |p|
  {
  }

  // attention and its projection
  lemma AttProjIs(f: Math, d: Dims, s: seq<Slice>, Q: seq<Row>, m0: Row, m2: Row, m3: Row, m4: Row)
    requires BlockOk(|m0|, d, s) && |Q| == d.N() && RowsAre(m2, s[QKV].at, d.C * 3, Q) && SameBut(m0, m2, s[1..5])
    requires AttDoes(f, d, s, m2, m3) && m4 == M.MatmulSpec(m3, AttProjCall(d, s))
    ensures SameBut(m0, m4, s[1..9])
    ensures var p := ParamsOf(m0, d, s);
      RowsAre(m4, s[ATTPROJ].at, d.C,
        MatmulRows(AttentionRows(f, Q, d.B, d.T, d.C, d.NH, RowsIn(m0, s[ATTY].at, d.C, d.N())),
                   p.attprojw, Some(p.attprojb), d.C, d.C))
  {
    hide SameBut, RowsAre, MatmulRows, NormRows, AttentionRows, RowsIn;
    var size, prev := |m0|, RowsIn(m0, s[ATTY].at, d.C, d.N());
    PrevStays(size, d, s, m0, m2);
    RowsInAre(m2, s[QKV].at, d.C * 3, d.N(), Q);
    InSlices(s, 8, ATTY); InSlices(s, 8, PREATT); InSlices(s, 8, ATT);
    Advance(m0, m2, m3, s, 5, 8, [s[ATTY], s[PREATT], s[ATT]]);
    ParamStays(size, d, s, 8, ATTPROJW, m0, m3);
    ParamStays(size, d, s, 8, ATTPROJB, m0, m3);
    ProductsOk(d);
    SameSize(m0, m3, s[1..8]);
    MatmulDoes(d, s, ATTPROJ, ATTY, ATTPROJW, d.C, d.C, AttentionRows(f, Q, d.B, d.T, d.C, d.NH, prev), m3, m4);
    InSlices(s, 9, ATTPROJ);
    Advance(m0, m3, m4, s, 8, 9, [s[ATTPROJ]]);
  }

  // the residual stream after attention
  lemma AttendedIs(f: Math, d: Dims, s: seq<Slice>, X: seq<Row>, m0: Row, m4: Row, m5: Row)
    requires BlockOk(|m0|, d, s) && |X| == d.N() && RowsAre(m0, s[RESIDUAL].at, d.C, X) && SameBut(m0, m4, s[1..9])
    requires var p, Q := ParamsOf(m0, d, s), QkvRows(f, X, ParamsOf(m0, d, s), d.C);
      RowsAre(m4, s[ATTPROJ].at, d.C,
        MatmulRows(AttentionRows(f, Q, d.B, d.T, d.C, d.NH, RowsIn(m0, s[ATTY].at, d.C, d.N())),
                   p.attprojw, Some(p.attprojb), d.C, d.C))
    requires AddDoes(d, s, RESIDUAL2, RESIDUAL, ATTPROJ, m4, m5)
    ensures SameBut(m0, m5, s[1..10])
    ensures RowsAre(m5, s[RESIDUAL2].at, d.C, Attended(f, X, ParamsOf(m0, d, s), d, RowsIn(m0, s[ATTY].at, d.C, d.N())))
  {
    hide SameBut, RowsAre, MatmulRows, NormRows, AttentionRows, AddRows;
    var p, Q := ParamsOf(m0, d, s), QkvRows(f, X, ParamsOf(m0, d, s), d.C);
    RowsStay(|m0|, d, s, 9, RESIDUAL, m0, m4, d.C, X);
    RowsInAre(m4, s[RESIDUAL].at, d.C, d.N(), X);
    RowsInAre(m4, s[ATTPROJ].at, d.C, d.N(),
      MatmulRows(AttentionRows(f, Q, d.B, d.T, d.C, d.NH, RowsIn(m0, s[ATTY].at, d.C, d.N())), p.attprojw,
                 Some(p.attprojb), d.C, d.C));
    InSlices(s, 10, RESIDUAL2);
    Advance(m0, m4, m5, s, 9, 10, [s[RESIDUAL2]]);
  }

  // layernorm and the first product of the MLP
  lemma MlpUpIs(f: Math, d: Dims, s: seq<Slice>, X: seq<Row>, m0: Row, m5: Row, m6: Row, m7: Row)
    requires BlockOk(|m0|, d, s) && |X| == d.N() && RowsAre(m5, s[RESIDUAL2].at, d.C, X) && SameBut(m0, m5, s[1..10])
    requires NormDoes(f, d, s, LN2, RESIDUAL2, LN2W, m5, m6) && m7 == M.MatmulSpec(m6, FchCall(d, s))
    ensures SameBut(m0, m7, s[1..14]) && RowsAre(m7, s[RESIDUAL2].at, d.C, X)
    ensures var p := ParamsOf(m0, d, s);
      RowsAre(m7, s[FCH].at, 4 * d.C,
        MatmulRows(NormRows(f, X, p.ln2w, p.ln2b, d.C), p.fcw, Some(p.fcb), d.C, 4 * d.C))
  {
    hide SameBut, RowsAre, MatmulRows, NormRows, MeanRows, RstdRows, Len, ParamAt, MatmulStepOk;
    var size, p := |m0|, ParamsOf(m0, d, s);
    RowsInAre(m5, s[RESIDUAL2].at, d.C, d.N(), X);
    LenResidual(d);
    ParamStays(size, d, s, 10, LN2W, m0, m5);
    ParamStays(size, d, s, 10, LN2B, m0, m5);
    InSlices(s, 13, LN2); InSlices(s, 13, LN2_MEAN); InSlices(s, 13, LN2_RSTD);
    Advance(m0, m5, m6, s, 10, 13, [s[LN2], s[LN2_MEAN], s[LN2_RSTD]]);
    ParamStays(size, d, s, 13, FCW, m0, m6);
    ParamStays(size, d, s, 13, FCB, m0, m6);
    Untouched(size, d, s, [s[LN2], s[LN2_MEAN], s[LN2_RSTD]], [LN2, LN2_MEAN, LN2_RSTD], RESIDUAL2, m5, m6, d.C, X);
    ProductsOk(d);
    SameSize(m0, m6, s[1..13]);
    MatmulDoes(d, s, FCH, LN2, FCW, d.C, 4 * d.C, NormRows(f, X, p.ln2w, p.ln2b, d.C), m6, m7);
    InSlices(s, 14, FCH);
    Advance(m0, m6, m7, s, 13, 14, [s[FCH]]);
    Untouched(size, d, s, [s[FCH]], [FCH], RESIDUAL2, m6, m7, d.C, X);
  }

  lemma LenResidual(d: Dims)
    ensures d.N() * d.C == Len(d, RESIDUAL2)
  {
  }

  // GELU and the second product
  lemma MlpDownIs(f: Math, d: Dims, s: seq<Slice>, X: seq<Row>, F: seq<Row>, m0: Row, m7: Row, m8: Row, m9: Row)
    requires BlockOk(|m0|, d, s) && |X| == |F| == d.N() && RowsAre(m7, s[RESIDUAL2].at, d.C, X)
    requires RowsAre(m7, s[FCH].at, 4 * d.C, F) && SameBut(m0, m7, s[1..14])
    requires GeluDoes(f, d, s, m7, m8) && m9 == M.MatmulSpec(m8, FcProjCall(d, s))
    ensures SameBut(m0, m9, s[1..16]) && RowsAre(m9, s[RESIDUAL2].at, d.C, X)
    ensures var p := ParamsOf(m0, d, s);
      RowsAre(m9, s[FCPROJ].at, d.C, MatmulRows(GeluRows(f, F, 4 * d.C), p.fcprojw, Some(p.fcprojb), 4 * d.C, d.C))
  {
    hide SameBut, RowsAre, MatmulRows, GeluRows, Len, ParamAt, MatmulStepOk;
    var size := |m0|;
    RowsInAre(m7, s[FCH].at, 4 * d.C, d.N(), F);
    LenResidual(d);
    InSlices(s, 15, FCH_GELU);
    Advance(m0, m7, m8, s, 14, 15, [s[FCH_GELU]]);
    Untouched(size, d, s, [s[FCH_GELU]], [FCH_GELU], RESIDUAL2, m7, m8, d.C, X);
    ParamStays(size, d, s, 15, FCPROJW, m0, m8);
    ParamStays(size, d, s, 15, FCPROJB, m0, m8);
    ProductsOk(d);
    SameSize(m0, m8, s[1..15]);
    MatmulDoes(d, s, FCPROJ, FCH_GELU, FCPROJW, 4 * d.C, d.C, GeluRows(f, F, 4 * d.C), m8, m9);
    InSlices(s, 16, FCPROJ);
    Advance(m0, m8, m9, s, 15, 16, [s[FCPROJ]]);
    Untouched(size, d, s, [s[FCPROJ]], [FCPROJ], RESIDUAL2, m8, m9, d.C, X);
  }

  // the residual stream after the MLP
  lemma MlpIs(d: Dims, s: seq<Slice>, X: seq<Row>, Y: seq<Row>, m0: Row, m9: Row, m10: Row)
    requires BlockOk(|m0|, d, s) && |X| == |Y| == d.N() && SameBut(m0, m9, s[1..16])
    requires RowsAre(m9, s[RESIDUAL2].at, d.C, X) && RowsAre(m9, s[FCPROJ].at, d.C, Y)
    requires AddDoes(d, s, RESIDUAL3, RESIDUAL2, FCPROJ, m9, m10)
    ensures SameBut(m0, m10, s[1..17]) && RowsAre(m10, s[RESIDUAL3].at, d.C, AddRows(X, Y, d.C))
  {
    hide SameBut, RowsAre, AddRows;
    RowsInAre(m9, s[RESIDUAL2].at, d.C, d.N(), X);
    RowsInAre(m9, s[FCPROJ].at, d.C, d.N(), Y);
    InSlices(s, 17, RESIDUAL3);
    Advance(m0, m9, m10, s, 16, 17, [s[RESIDUAL3]]);
  }

  // The memories between the ten calls of a layer.
  ghost predicate LayerDoes(f: Math, d: Dims, s: seq<Slice>, m: seq<Row>)
    requires |s| == 29 && d.NH > 0
  {
    && |m| == 11
    && NormDoes(f, d, s, LN1, RESIDUAL, LN1W, m[0], m[1]) && m[2] == M.MatmulSpec(m[1], QkvCall(d, s))
    && AttDoes(f, d, s, m[2], m[3]) && m[4] == M.MatmulSpec(m[3], AttProjCall(d, s))
    && AddDoes(d, s, RESIDUAL2, RESIDUAL, ATTPROJ, m[4], m[5])
    && NormDoes(f, d, s, LN2, RESIDUAL2, LN2W, m[5], m[6]) && m[7] == M.MatmulSpec(m[6], FchCall(d, s))
    && GeluDoes(f, d, s, m[7], m[8]) && m[9] == M.MatmulSpec(m[8], FcProjCall(d, s))
    && AddDoes(d, s, RESIDUAL3, RESIDUAL2, FCPROJ, m[9], m[10])
  }

  // Each call finds what it needs where an earlier one has left it.
  lemma LayerIs(f: Math, d: Dims, s: seq<Slice>, X: seq<Row>, m: seq<Row>)
    requires |s| == 29 && d.NH > 0 && |m| == 11 && BlockOk(|m[0]|, d, s) && LayerDoes(f, d, s, m)
    requires |X| == d.N() && RowsAre(m[0], s[RESIDUAL].at, d.C, X)
    ensures SameBut(m[0], m[10], s[1..17])
    ensures RowsAre(m[10], s[RESIDUAL3].at, d.C,
      BlockRows(f, X, ParamsOf(m[0], d, s), d, RowsIn(m[0], s[ATTY].at, d.C, d.N())))
  {
    hide SameBut, RowsAre, NormDoes, AttDoes, AddDoes, GeluDoes, MatmulRows, AttentionRows, NormRows, AddRows, GeluRows,
      BlockOk, Len, ParamAt;
    var p, R := ParamsOf(m[0], d, s), Attended(f, X, ParamsOf(m[0], d, s), d, RowsIn(m[0], s[ATTY].at, d.C, d.N()));
    QkvIs(f, d, s, X, m[0], m[1], m[2]);
    AttProjIs(f, d, s, QkvRows(f, X, p, d.C), m[0], m[2], m[3], m[4]);
    AttendedIs(f, d, s, X, m[0], m[4], m[5]);
    MlpUpIs(f, d, s, R, m[0], m[5], m[6], m[7]);
    var F := MatmulRows(NormRows(f, R, p.ln2w, p.ln2b, d.C), p.fcw, Some(p.fcb), d.C, 4 * d.C);
    MlpDownIs(f, d, s, R, F, m[0], m[7], m[8], m[9]);
    MlpIs(d, s, R, MatmulRows(GeluRows(f, F, 4 * d.C), p.fcprojw, Some(p.fcprojb), 4 * d.C, d.C), m[0], m[9], m[10]);
  }

  // The body of the loop over layers.
  method Layer(mem: array<real>, f: Math, d: Dims, s: seq<Slice>, ghost X: seq<Row>)
    requires |s| == 29 && d.NH > 0 && BlockOk(mem.Length, d, s)
    requires |X| == d.N() && RowsAre(mem[..], s[RESIDUAL].at, d.C, X)
    modifies mem
    ensures SameBut(old(mem[..]), mem[..], s[1..17])
    ensures RowsAre(mem[..], s[RESIDUAL3].at, d.C,
      BlockRows(f, X, ParamsOf(old(mem[..]), d, s), d, RowsIn(old(mem[..]), s[ATTY].at, d.C, d.N())))
  {
    hide SameBut, RowsAre, NormDoes, AttDoes, AddDoes, GeluDoes, BlockRows, BlockOk, ParamsOf, RowsIn, M.MatmulSpec,
      M.ValidCall, QkvCall, AttProjCall, FchCall, FcProjCall;
    CallsAreOk(mem.Length, d, s);
    ghost var m0 := mem[..];
    NormStep(mem, f, d, s, LN1, RESIDUAL, LN1W);
    ghost var m1 := mem[..];
    MatmulForward(mem, QkvCall(d, s));
    ghost var m2 := mem[..];
    AttentionStep(mem, f, d, s);
    ghost var m3 := mem[..];
    MatmulForward(mem, AttProjCall(d, s));
    ghost var m4 := mem[..];
    AddStep(mem, d, s, RESIDUAL2, RESIDUAL, ATTPROJ);
    ghost var m5 := mem[..];
    NormStep(mem, f, d, s, LN2, RESIDUAL2, LN2W);
    ghost var m6 := mem[..];
    MatmulForward(mem, FchCall(d, s));
    ghost var m7 := mem[..];
    GeluStep(mem, f, d, s);
    ghost var m8 := mem[..];
    MatmulForward(mem, FcProjCall(d, s));
    ghost var m9 := mem[..];
    AddStep(mem, d, s, RESIDUAL3, RESIDUAL2, FCPROJ);
    LayerIs(f, d, s, X, [m0, m1, m2, m3, m4, m5, m6, m7, m8, m9, mem[..]]);
  }
}
