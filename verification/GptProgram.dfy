// A program for the thread pool that is gpt2_forward of M3-gpt/gpt.c, phase by phase: the layers of
// the main thread as functions on memory. It shows that GptPool.IsPass can be met.

module GptProgram {
  import opened Arith
  import opened GptRows
  import opened GptLayers
  import opened GptTensors
  import opened GptAttention
  import opened GptBlock
  import opened GptLayout
  import opened GptForward
  import opened GptPool
  import P = Pool

  // The k-th cell of these rows.
  function CellOf(rows: seq<Row>, C: nat, k: nat): real
    requires C > 0
  {
    Entry(RowAt(rows, k / C), k % C)
  }

  // Memory with them written into it.
  function Put(m: Row, base: nat, C: nat, rows: seq<Row>): (q: Row)
    ensures |q| == |m|
  {
    seq(|m|, z requires 0 <= z < |m| =>
      if C > 0 && base <= z < base + |rows| * C then CellOf(rows, C, z - base) else m[z])
  }

  ghost predicate Wide(rows: seq<Row>, C: nat) { forall r :: 0 <= r < |rows| ==> |rows[r]| == C }

  lemma PutRows(m: Row, base: nat, C: nat, rows: seq<Row>)
    requires Wide(rows, C) && base + |rows| * C <= |m|
    ensures RowsAre(Put(m, base, C, rows), base, C, rows)
    ensures SameBut(m, Put(m, base, C, rows), [Slice(base, |rows| * C)])
  {
    var q, w := Put(m, base, C, rows), [Slice(base, |rows| * C)];
    forall r: nat | r < |rows| ensures RowOf(q, Pos(base, C, r), C) == rows[r] { PutRow(m, base, C, rows, r); }
    forall x: nat | Outside(w, x) ensures Entry(q, x) == Entry(m, x) { assert w[0] == Slice(base, |rows| * C); }
  }

  lemma PutCell(m: Row, base: nat, C: nat, rows: seq<Row>, r: nat, i: nat, k: nat)
    requires Wide(rows, C) && base + |rows| * C <= |m| && r < |rows| && i < C
    requires k < |rows| * C && k / C == r && k % C == i
    ensures Put(m, base, C, rows)[base + k] == rows[r][i]
  {
    assert CellOf(rows, C, k) == rows[r][i];
    hide CellOf;
    var z := base + k;
    assert base <= z < base + |rows| * C && z - base == k;
  }

  lemma PutRow(m: Row, base: nat, C: nat, rows: seq<Row>, r: nat)
    requires Wide(rows, C) && base + |rows| * C <= |m| && r < |rows|
    ensures RowOf(Put(m, base, C, rows), Pos(base, C, r), C) == rows[r]
  {
    hide Put;
    var q := Put(m, base, C, rows);
    var x := RowOf(q, Pos(base, C, r), C);
    PosIn(0, C, r, |rows|);
    forall i | 0 <= i < C ensures x[i] == rows[r][i] {
      DivModUnique(r, i, C);
      PutCell(m, base, C, rows, r, i, r * C + i);
      assert x[i] == Entry(q, base + (r * C + i));
    }
  }

  // Three tensors, one after the other.
  lemma PutThree(m: Row, a: nat, n: nat, C: nat, X: seq<Row>, b: nat, Y: seq<Row>, c: nat, Z: seq<Row>)
    requires |X| == |Y| == |Z| == n && Wide(X, C) && Wide(Y, 1) && Wide(Z, 1)
    requires a + n * C <= |m| && b + n <= |m| && c + n <= |m|
    requires Apart(a, n * C, b, n) && Apart(a, n * C, c, n) && Apart(b, n, c, n)
    ensures var q := Put(Put(Put(m, a, C, X), b, 1, Y), c, 1, Z);
      && SameBut(m, q, NormBig(a, b, c, n, C)) && RowsAre(q, a, C, X) && RowsAre(q, b, 1, Y) && RowsAre(q, c, 1, Z)
  {
    hide Put, SameBut, RowsAre, Within;
    var big := NormBig(a, b, c, n, C);
    var q1 := Put(m, a, C, X);
    var q2 := Put(q1, b, 1, Y);
    var q3 := Put(q2, c, 1, Z);
    PutRows(m, a, C, X);
    PutRows(q1, b, 1, Y);
    PutRows(q2, c, 1, Z);
    RowsKept(q1, q2, [Slice(b, n)], a, C, X);
    RowsKept(q2, q3, [Slice(c, n)], a, C, X);
    RowsKept(q2, q3, [Slice(c, n)], b, 1, Y);
    OneOf(big, 0);
    OneOf(big, 1);
    OneOf(big, 2);
    SameRefl(m, big);
    SameTrans(m, m, q1, big, [big[0]]);
    SameTrans(m, q1, q2, big, [big[1]]);
    SameTrans(m, q2, q3, big, [big[2]]);
  }

  lemma OneOf(big: seq<Slice>, i: nat)
    requires i < |big|
    ensures Within([big[i]], big)
  {
    forall x: nat | Outside(big, x) ensures Outside([big[i]], x) {
      assert x < big[i].at || x >= big[i].at + big[i].len;
    }
  }

  // ---- the layers of the main thread ----

  function NormRun(f: Math, d: Dims, s: seq<Slice>, o: nat, i: nat, w: nat, p: Row): Row
    requires |s| == 29 && o < 27 && i < 29 && w < 28
  {
    var X := RowsIn(p, s[i].at, d.C, d.N());
    Put(Put(Put(p, s[o].at, d.C, NormRows(f, X, ParamAt(p, d, s, w), ParamAt(p, d, s, w + 1), d.C)),
            s[o + 1].at, 1, MeanRows(X, d.C)), s[o + 2].at, 1, RstdRows(f, X, d.C))
  }

  lemma NormRuns(f: Math, d: Dims, s: seq<Slice>, o: nat, i: nat, w: nat, p: Row)
    requires BlockOk(|p|, d, s) && (o, i, w) in {(LN1, RESIDUAL, LN1W), (LN2, RESIDUAL2, LN2W)}
    ensures NormDoes(f, d, s, o, i, w, p, NormRun(f, d, s, o, i, w, p))
  {
    hide Put, SameBut, RowsAre, RowsIn, RowOf, ParamAt;
    var X := RowsIn(p, s[i].at, d.C, d.N());
    SlicesApart(|p|, d, s, o, o + 1);
    SlicesApart(|p|, d, s, o, o + 2);
    SlicesApart(|p|, d, s, o + 1, o + 2);
    PutThree(p, s[o].at, d.N(), d.C, NormRows(f, X, ParamAt(p, d, s, w), ParamAt(p, d, s, w + 1), d.C),
             s[o + 1].at, MeanRows(X, d.C), s[o + 2].at, RstdRows(f, X, d.C));
    assert [s[o], s[o + 1], s[o + 2]] == NormBig(s[o].at, s[o + 1].at, s[o + 2].at, d.N(), d.C);
  }

  function FinalNormRun(x: Pass, p: Row): Row {
    var X := RowsIn(p, At(x.g, x.B, x.T, x.g.L, RESIDUAL), x.g.C, x.B * x.T);
    Put(Put(Put(p, ActPtr(x.g, x.B, x.T, 17), x.g.C,
      NormRows(x.f, X, RowOf(p, ParamPtr(x.g, 14), x.g.C), RowOf(p, ParamPtr(x.g, 15), x.g.C), x.g.C)),
            ActPtr(x.g, x.B, x.T, 18), 1, MeanRows(X, x.g.C)), ActPtr(x.g, x.B, x.T, 19), 1, RstdRows(x.f, X, x.g.C))
  }

  lemma FinalNormRuns(x: Pass, p: Row)
    requires |p| == x.Size() && x.g.L > 0
    ensures FinalNormDoes(x.f, x.g, x.B, x.T, p, FinalNormRun(x, p))
  {
    hide Put, SameBut, RowsAre, RowsIn, At, ActPtr, ParamPtr;
    var X := RowsIn(p, At(x.g, x.B, x.T, x.g.L, RESIDUAL), x.g.C, x.B * x.T);
    FinalNormOk(x.g, x.B, x.T);
    PutThree(p, ActPtr(x.g, x.B, x.T, 17), x.B * x.T, x.g.C,
             NormRows(x.f, X, RowOf(p, ParamPtr(x.g, 14), x.g.C), RowOf(p, ParamPtr(x.g, 15), x.g.C), x.g.C),
             ActPtr(x.g, x.B, x.T, 18), MeanRows(X, x.g.C), ActPtr(x.g, x.B, x.T, 19), RstdRows(x.f, X, x.g.C));
  }

  function AttRun(f: Math, d: Dims, s: seq<Slice>, p: Row): Row
    requires |s| == 29 && d.NH > 0
  {
    Put(p, s[ATTY].at, d.C, AttentionRows(f, RowsIn(p, s[QKV].at, d.C * 3, d.N()), d.B, d.T, d.C, d.NH,
      RowsIn(p, s[ATTY].at, d.C, d.N())))
  }

  lemma AttRuns(f: Math, d: Dims, s: seq<Slice>, p: Row)
    requires BlockOk(|p|, d, s)
    ensures AttDoes(f, d, s, p, AttRun(f, d, s, p))
  {
    hide Put, RowsAre, SameBut, RowsIn;
    var Y := AttentionRows(f, RowsIn(p, s[QKV].at, d.C * 3, d.N()), d.B, d.T, d.C, d.NH,
      RowsIn(p, s[ATTY].at, d.C, d.N()));
    var big := [s[ATTY], s[PREATT], s[ATT]];
    SlicesApart(|p|, d, s, ATTY, QKV);
    AttWide(f, d, s, p);
    PutRows(p, s[ATTY].at, d.C, Y);
    OneOf(big, 0);
    SameRefl(p, big);
    assert [big[0]] == [Slice(s[ATTY].at, |Y| * d.C)];
    SameTrans(p, p, Put(p, s[ATTY].at, d.C, Y), big, [big[0]]);
  }

  lemma AttWide(f: Math, d: Dims, s: seq<Slice>, p: Row)
    requires |s| == 29 && d.NH > 0
    ensures Wide(AttentionRows(f, RowsIn(p, s[QKV].at, d.C * 3, d.N()), d.B, d.T, d.C, d.NH,
      RowsIn(p, s[ATTY].at, d.C, d.N())), d.C)
  {
    if d.T == 0 { assert d.B * d.T == 0; }
  }

  function AddRun(d: Dims, s: seq<Slice>, o: nat, i: nat, j: nat, p: Row): Row
    requires |s| == 29 && o < 29 && i < 29 && j < 29
  {
    Put(p, s[o].at, d.C, AddRows(RowsIn(p, s[i].at, d.C, d.N()), RowsIn(p, s[j].at, d.C, d.N()), d.C))
  }

  lemma AddRuns(d: Dims, s: seq<Slice>, o: nat, i: nat, j: nat, p: Row)
    requires BlockOk(|p|, d, s) && (o, i, j) in {(RESIDUAL2, RESIDUAL, ATTPROJ), (RESIDUAL3, RESIDUAL2, FCPROJ)}
    ensures AddDoes(d, s, o, i, j, p, AddRun(d, s, o, i, j, p))
  {
    hide Put, RowsAre, SameBut, RowsIn;
    SlicesApart(|p|, d, s, o, i);
    PutRows(p, s[o].at, d.C, AddRows(RowsIn(p, s[i].at, d.C, d.N()), RowsIn(p, s[j].at, d.C, d.N()), d.C));
    assert [s[o]] == [Slice(s[o].at, d.N() * d.C)];
  }

  function GeluRun(f: Math, d: Dims, s: seq<Slice>, p: Row): Row
    requires |s| == 29
  {
    Put(p, s[FCH_GELU].at, 4 * d.C, GeluRows(f, RowsIn(p, s[FCH].at, 4 * d.C, d.N()), 4 * d.C))
  }

  lemma GeluRuns(f: Math, d: Dims, s: seq<Slice>, p: Row)
    requires BlockOk(|p|, d, s)
    ensures GeluDoes(f, d, s, p, GeluRun(f, d, s, p))
  {
    hide Put, RowsAre, SameBut, RowsIn;
    SlicesApart(|p|, d, s, FCH_GELU, FCH);
    PutRows(p, s[FCH_GELU].at, 4 * d.C, GeluRows(f, RowsIn(p, s[FCH].at, 4 * d.C, d.N()), 4 * d.C));
    assert [s[FCH_GELU]] == [Slice(s[FCH_GELU].at, d.N() * (4 * d.C))];
  }

  function EncodeRun(x: Pass, p: Row): Row {
    Put(p, ActPtr(x.g, x.B, x.T, 0), x.g.C, EncodedRows(x.tokens, RowOf(p, ParamPtr(x.g, 0), x.g.V * x.g.C),
      RowOf(p, ParamPtr(x.g, 1), x.g.maxT * x.g.C), x.B, x.T, x.g.C))
  }

  lemma EncodeRuns(x: Pass, p: Row)
    requires |p| == x.Size()
    ensures EncodeDoes(x.g, x.tokens, x.B, x.T, p, EncodeRun(x, p))
  {
    hide Put, RowsAre, SameBut;
    TwoTensors(x.g, x.B, x.T, ENCODED, 0);
    PutRows(p, ActPtr(x.g, x.B, x.T, 0), x.g.C, EncodedRows(x.tokens, RowOf(p, ParamPtr(x.g, 0), x.g.V * x.g.C),
      RowOf(p, ParamPtr(x.g, 1), x.g.maxT * x.g.C), x.B, x.T, x.g.C));
  }

  function SoftmaxRun(x: Pass, p: Row): Row {
    Put(p, ActPtr(x.g, x.B, x.T, 21), x.g.V,
        SoftmaxRows(x.f, RowsIn(p, ActPtr(x.g, x.B, x.T, 20), x.g.V, x.B * x.T), x.g.V))
  }

  lemma SoftmaxRuns(x: Pass, p: Row)
    requires |p| == x.Size()
    ensures SoftmaxDoes(x.f, x.g, x.B, x.T, p, SoftmaxRun(x, p))
  {
    hide Put, RowsAre, SameBut, RowsIn;
    TwoTensors(x.g, x.B, x.T, PROBS, LOGITS);
    PutRows(p, ActPtr(x.g, x.B, x.T, 21), x.g.V,
            SoftmaxRows(x.f, RowsIn(p, ActPtr(x.g, x.B, x.T, 20), x.g.V, x.B * x.T), x.g.V));
  }

  // ---- the program ----

  function Run(x: Pass, step: Step, p: Row): (q: Row)
    requires x.g.NH > 0 && !IsProduct(step)
    ensures |q| == |p|
  {
    match step
    case Encoding => EncodeRun(x, p)
    case Norm1(l) => NormRun(x.f, x.D(), x.S(l), LN1, RESIDUAL, LN1W, p)
    case Attention(l) => AttRun(x.f, x.D(), x.S(l), p)
    case Residual2(l) => AddRun(x.D(), x.S(l), RESIDUAL2, RESIDUAL, ATTPROJ, p)
    case Norm2(l) => NormRun(x.f, x.D(), x.S(l), LN2, RESIDUAL2, LN2W, p)
    case Gelu(l) => GeluRun(x.f, x.D(), x.S(l), p)
    case Residual3(l) => AddRun(x.D(), x.S(l), RESIDUAL3, RESIDUAL2, FCPROJ, p)
    case LastNorm => FinalNormRun(x, p)
    case Softmaxing => SoftmaxRun(x, p)
  }

  lemma RunDoes(x: Pass, j: nat, p: Row)
    requires x.Ok() && j < 10 * x.g.L + 4 && !IsProduct(StepAt(x.g.L, j)) && |p| == x.Size()
    ensures Does(x, StepAt(x.g.L, j), p, Run(x, StepAt(x.g.L, j), p))
  {
    hide NormDoes, AttDoes, AddDoes, GeluDoes, EncodeDoes, FinalNormDoes, SoftmaxDoes, NormRun, AttRun, AddRun, GeluRun,
      EncodeRun, FinalNormRun, SoftmaxRun, BlockOk, Total;
    if 1 <= j <= 10 * x.g.L { LayersAreOk(x.g, x.B, x.T, (j - 1) / 10); }
    match StepAt(x.g.L, j)
    case Encoding => EncodeRuns(x, p);
    case Norm1(l) => NormRuns(x.f, x.D(), x.S(l), LN1, RESIDUAL, LN1W, p);
    case Attention(l) => AttRuns(x.f, x.D(), x.S(l), p);
    case Residual2(l) => AddRuns(x.D(), x.S(l), RESIDUAL2, RESIDUAL, ATTPROJ, p);
    case Norm2(l) => NormRuns(x.f, x.D(), x.S(l), LN2, RESIDUAL2, LN2W, p);
    case Gelu(l) => GeluRuns(x.f, x.D(), x.S(l), p);
    case Residual3(l) => AddRuns(x.D(), x.S(l), RESIDUAL3, RESIDUAL2, FCPROJ, p);
    case LastNorm => FinalNormRuns(x, p);
    case Softmaxing => SoftmaxRuns(x, p);
    case _ =>
  }

  function PhaseOf(x: Pass, step: Step): P.Phase
    requires x.g.NH > 0
  {
    if IsProduct(step) then P.Parallel(CallAt(x, step)) else P.Local(p => Run(x, step, p))
  }

  lemma PassExists(x: Pass)
    requires x.Ok()
    ensures exists program :: IsPass(x, program)
  {
    var n := 10 * x.g.L + 4;
    var program := seq(n, j requires 0 <= j < n => PhaseOf(x, StepAt(x.g.L, j)));
    forall j: nat | j < n ensures IsStep(x, program[j], StepAt(x.g.L, j)) { PhaseIsStep(x, j); }
    assert IsPass(x, program);
  }

  lemma PhaseIsStep(x: Pass, j: nat)
    requires x.Ok() && j < 10 * x.g.L + 4
    ensures IsStep(x, PhaseOf(x, StepAt(x.g.L, j)), StepAt(x.g.L, j))
  {
    hide Does, Run, CallAt, StepAt, Total;
    var step := StepAt(x.g.L, j);
    if !IsProduct(step) {
      forall p: Row | |p| == x.Size() ensures |Run(x, step, p)| == |p| && Does(x, step, p, Run(x, step, p)) {
        RunDoes(x, j, p);
      }
    }
  }
}
