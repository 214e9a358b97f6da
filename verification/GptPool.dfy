// gpt2_forward of M3-gpt/gpt.c on the thread pool: whatever the number of workers, the capacity of
// the ring and the schedule, the pass ends with the rows that the network of GptNetwork defines.

module GptPool {
  import opened GptRows
  import opened GptLayers
  import opened GptTensors
  import opened GptAttention
  import opened GptBlock
  import opened GptLayout
  import opened GptNetwork
  import opened GptForward
  import M = Matmul
  import P = Pool
  import PoolTheorems

  // One call of gpt2_forward, and the calls that it makes.
  datatype Pass = Pass(f: Math, g: Config, tokens: seq<nat>, B: nat, T: nat) {
    function Size(): nat { Total(g, B, T) }
    function D(): Dims { DimsOf(g, B, T) }
    function S(l: nat): (s: seq<Slice>) ensures |s| == 29 { LayerSlices(g, B, T, l) }
    ghost predicate Ok() { CallOk(Size(), g, tokens, B, T) }
  }

  datatype Step =
    | Encoding
    | Norm1(l: nat) | Qkv(l: nat) | Attention(l: nat) | AttProj(l: nat) | Residual2(l: nat)
    | Norm2(l: nat) | Fch(l: nat) | Gelu(l: nat) | FcProj(l: nat) | Residual3(l: nat)
    | LastNorm | Logits | Softmaxing

  // What the step does to memory: a matrix product, or what GptBlock and GptForward say of the layer.
  ghost predicate Does(x: Pass, step: Step, p: Row, q: Row)
    requires x.g.NH > 0
  {
    match step
    case Encoding => EncodeDoes(x.g, x.tokens, x.B, x.T, p, q)
    case Norm1(l) => NormDoes(x.f, x.D(), x.S(l), LN1, RESIDUAL, LN1W, p, q)
    case Attention(l) => AttDoes(x.f, x.D(), x.S(l), p, q)
    case Residual2(l) => AddDoes(x.D(), x.S(l), RESIDUAL2, RESIDUAL, ATTPROJ, p, q)
    case Norm2(l) => NormDoes(x.f, x.D(), x.S(l), LN2, RESIDUAL2, LN2W, p, q)
    case Gelu(l) => GeluDoes(x.f, x.D(), x.S(l), p, q)
    case Residual3(l) => AddDoes(x.D(), x.S(l), RESIDUAL3, RESIDUAL2, FCPROJ, p, q)
    case LastNorm => FinalNormDoes(x.f, x.g, x.B, x.T, p, q)
    case Softmaxing => SoftmaxDoes(x.f, x.g, x.B, x.T, p, q)
    case _ => q == M.MatmulSpec(p, CallAt(x, step))
  }

  predicate IsProduct(step: Step) { step.Qkv? || step.AttProj? || step.Fch? || step.FcProj? || step.Logits? }

  function CallAt(x: Pass, step: Step): M.Call
    requires IsProduct(step)
  {
    match step
    case Qkv(l) => QkvCall(x.D(), x.S(l))
    case AttProj(l) => AttProjCall(x.D(), x.S(l))
    case Fch(l) => FchCall(x.D(), x.S(l))
    case FcProj(l) => FcProjCall(x.D(), x.S(l))
    case Logits => LogitsCall(x.g, x.B, x.T)
  }

  // The i-th call of layer l, and the j-th call of the pass.
  function LayerStep(l: nat, i: nat): Step
    requires i < 10
  {
    if i == 0 then Norm1(l) else if i == 1 then Qkv(l) else if i == 2 then Attention(l) else if i == 3 then AttProj(l)
    else if i == 4 then Residual2(l) else if i == 5 then Norm2(l) else if i == 6 then Fch(l) else if i == 7 then Gelu(l)
    else if i == 8 then FcProj(l) else Residual3(l)
  }

  function StepAt(L: nat, j: nat): Step
    requires j < 10 * L + 4
  {
    if j == 0 then Encoding
    else if j <= 10 * L then LayerStep((j - 1) / 10, (j - 1) % 10)
    else if j == 10 * L + 1 then LastNorm else if j == 10 * L + 2 then Logits else Softmaxing
  }

  // A phase of the pool's program is that step: a product is handed to the pool, and every other
  // layer is run by the main thread and does what its specification says.
  ghost predicate IsStep(x: Pass, phase: P.Phase, step: Step)
    requires x.g.NH > 0
  {
    if IsProduct(step) then phase == P.Parallel(CallAt(x, step))
    else phase.Local? && forall p: Row :: |p| == x.Size() ==> |phase.f(p)| == |p| && Does(x, step, p, phase.f(p))
  }

  // The program of the main thread is the pass.
  ghost predicate IsPass(x: Pass, program: seq<P.Phase>)
    requires x.g.NH > 0
  {
    |program| == 10 * x.g.L + 4 && forall j: nat :: j < |program| ==> IsStep(x, program[j], StepAt(x.g.L, j))
  }

  // ---- the program is one that the pool can run ----

  lemma ProductOk(x: Pass, j: nat)
    requires x.Ok() && j < 10 * x.g.L + 4 && IsProduct(StepAt(x.g.L, j))
    ensures M.ValidCall(CallAt(x, StepAt(x.g.L, j)), x.Size())
  {
    if j <= 10 * x.g.L {
      var l := (j - 1) / 10;
      LayersAreOk(x.g, x.B, x.T, l);
      CallsAreOk(x.Size(), x.D(), x.S(l));
    } else {
      LogitsCallOk(x.g, x.B, x.T);
    }
  }

  lemma PassIsValid(x: Pass, cfg: P.Config)
    requires x.Ok() && |cfg.mem| == x.Size() && IsPass(x, cfg.program)
    ensures P.ValidConfig(cfg)
  {
    forall j | 0 <= j < |cfg.program| ensures P.ValidPhase(cfg.program[j], |cfg.mem|) {
      assert IsStep(x, cfg.program[j], StepAt(x.g.L, j));
      if IsProduct(StepAt(x.g.L, j)) { ProductOk(x, j); }
    }
  }

  // ---- what it leaves, phase by phase ----

  function Layered(l: nat): nat { 1 + 10 * l }

  ghost function Ran(phase: P.Phase, p: Row): Row {
    match phase
    case Parallel(c) => M.MatmulSpec(p, c)
    case Local(f) => f(p)
  }

  lemma SeqNext(cfg: P.Config, j: nat)
    requires P.ValidConfig(cfg) && j < |cfg.program|
    ensures P.SeqMem(cfg, j + 1) == Ran(cfg.program[j], P.SeqMem(cfg, j))
  {
  }

  lemma StepRuns(x: Pass, phase: P.Phase, step: Step, p: Row)
    requires x.g.NH > 0 && IsStep(x, phase, step) && |p| == x.Size()
    ensures Does(x, step, p, Ran(phase, p))
  {
    hide EncodeDoes, NormDoes, AttDoes, AddDoes, GeluDoes, FinalNormDoes, SoftmaxDoes, M.MatmulSpec, CallAt, Total;
  }

  lemma PhaseDoes(x: Pass, cfg: P.Config, j: nat)
    requires x.g.NH > 0 && P.ValidConfig(cfg) && |cfg.mem| == x.Size() && IsPass(x, cfg.program) && j < |cfg.program|
    ensures Does(x, StepAt(x.g.L, j), P.SeqMem(cfg, j), P.SeqMem(cfg, j + 1))
  {
    hide IsStep, Does, StepAt, Ran;
    SeqNext(cfg, j);
    StepRuns(x, cfg.program[j], StepAt(x.g.L, j), P.SeqMem(cfg, j));
  }

  lemma StepIs(L: nat, l: nat, i: nat)
    requires l < L && i < 10
    ensures Layered(l) + i <= 10 * L && StepAt(L, Layered(l) + i) == LayerStep(l, i)
  {
    hide LayerStep;
    assert (10 * l + i) / 10 == l && (10 * l + i) % 10 == i;
  }

  lemma PassLength(x: Pass, program: seq<P.Phase>)
    requires x.g.NH > 0 && IsPass(x, program)
    ensures |program| == Layered(x.g.L) + 3
  {
  }

  lemma LayerPhase(x: Pass, cfg: P.Config, l: nat, i: nat)
    requires x.g.NH > 0 && P.ValidConfig(cfg) && |cfg.mem| == x.Size() && IsPass(x, cfg.program) && l < x.g.L && i < 10
    ensures Does(x, LayerStep(l, i), P.SeqMem(cfg, Layered(l) + i), P.SeqMem(cfg, Layered(l) + i + 1))
  {
    hide Does, StepAt, LayerStep, IsStep, P.SeqMem, P.ValidPhase, Total;
    StepIs(x.g.L, l, i);
    PhaseDoes(x, cfg, Layered(l) + i);
  }

  // The memories between the calls of layer l.
  ghost function Between(cfg: P.Config, l: nat): (m: seq<Row>)
    requires P.ValidConfig(cfg) && Layered(l + 1) <= |cfg.program|
    ensures |m| == 11 && forall i: nat :: i < 11 ==> m[i] == P.SeqMem(cfg, Layered(l) + i)
  {
    seq(11, i requires 0 <= i < 11 => P.SeqMem(cfg, Layered(l) + i))
  }

  lemma LayerRuns(x: Pass, cfg: P.Config, l: nat)
    requires x.g.NH > 0 && P.ValidConfig(cfg) && |cfg.mem| == x.Size() && IsPass(x, cfg.program) && l < x.g.L
    ensures LayerDoes(x.f, x.D(), x.S(l), Between(cfg, l))
  {
    hide NormDoes, AttDoes, AddDoes, GeluDoes, M.MatmulSpec, P.SeqMem, QkvCall, AttProjCall, FchCall, FcProjCall;
    forall i: nat | i < 10 ensures Does(x, LayerStep(l, i), Between(cfg, l)[i], Between(cfg, l)[i + 1]) {
      LayerPhase(x, cfg, l, i);
    }
    TenSteps(x, l, Between(cfg, l));
  }

  lemma TenSteps(x: Pass, l: nat, m: seq<Row>)
    requires x.g.NH > 0 && |m| == 11 && forall i: nat :: i < 10 ==> Does(x, LayerStep(l, i), m[i], m[i + 1])
    ensures LayerDoes(x.f, x.D(), x.S(l), m)
  {
    hide NormDoes, AttDoes, AddDoes, GeluDoes, M.MatmulSpec, QkvCall, AttProjCall, FchCall, FcProjCall;
    assert Does(x, LayerStep(l, 0), m[0], m[1]) && Does(x, LayerStep(l, 1), m[1], m[2]);
    assert Does(x, LayerStep(l, 2), m[2], m[3]) && Does(x, LayerStep(l, 3), m[3], m[4]);
    assert Does(x, LayerStep(l, 4), m[4], m[5]) && Does(x, LayerStep(l, 5), m[5], m[6]);
    assert Does(x, LayerStep(l, 6), m[6], m[7]) && Does(x, LayerStep(l, 7), m[7], m[8]);
    assert Does(x, LayerStep(l, 8), m[8], m[9]) && Does(x, LayerStep(l, 9), m[9], m[10]);
  }

  // Before layer l the memory is as the single-threaded pass has it.
  lemma {:induction false} LayersRun(x: Pass, cfg: P.Config, params: Row, l: nat)
    requires x.Ok() && |cfg.mem| == x.Size() && IsPass(x, cfg.program) && P.ValidConfig(cfg) && l <= x.g.L
    requires Loaded(cfg.mem, x.g, params)
    ensures Reached(x.f, x.g, x.tokens, x.B, x.T, cfg.mem, P.SeqMem(cfg, Layered(l)), params, l)
  {
    hide Reached, Loaded, IsPass, LayerDoes, BlockRows, Stream, RowsAre, SameBut;
    if l == 0 {
      FirstRuns(x, cfg, params);
    } else {
      LayersRun(x, cfg, params, l - 1);
      NextRuns(x, cfg, params, l - 1);
    }
  }

  lemma FirstRuns(x: Pass, cfg: P.Config, params: Row)
    requires x.Ok() && |cfg.mem| == x.Size() && IsPass(x, cfg.program) && P.ValidConfig(cfg)
    requires Loaded(cfg.mem, x.g, params)
    ensures Reached(x.f, x.g, x.tokens, x.B, x.T, cfg.mem, P.SeqMem(cfg, Layered(0)), params, 0)
  {
    hide Reached, Loaded, EncodeDoes;
    PhaseDoes(x, cfg, 0);
    EncodeIs(x.f, x.g, x.tokens, x.B, x.T, params, cfg.mem, P.SeqMem(cfg, 1));
  }

  lemma ReachedStream(x: Pass, m0: Row, m: Row, params: Row, l: nat)
    requires x.g.NH > 0 && l < x.g.L && Reached(x.f, x.g, x.tokens, x.B, x.T, m0, m, params, l)
    ensures RowsAre(m, x.S(l)[RESIDUAL].at, x.D().C,
      Stream(NetOf(x.f, x.g, params), InputOf(m0, x.g, x.tokens, x.B, x.T), l))
  {
    hide RowsAre, Stream;
  }

  lemma NextRuns(x: Pass, cfg: P.Config, params: Row, l: nat)
    requires x.Ok() && |cfg.mem| == x.Size() && IsPass(x, cfg.program) && P.ValidConfig(cfg) && l < x.g.L
    requires Reached(x.f, x.g, x.tokens, x.B, x.T, cfg.mem, P.SeqMem(cfg, Layered(l)), params, l)
    ensures Reached(x.f, x.g, x.tokens, x.B, x.T, cfg.mem, P.SeqMem(cfg, Layered(l + 1)), params, l + 1)
  {
    hide Reached, LayerDoes, IsPass, BlockRows, Stream, BlockOk, SameBut, RowsAre, P.SeqMem, P.ValidPhase,
      ParamsOf, RowsIn;
    PassLength(x, cfg.program);
    var m, X := Between(cfg, l), Stream(NetOf(x.f, x.g, params), InputOf(cfg.mem, x.g, x.tokens, x.B, x.T), l);
    ReachedStream(x, cfg.mem, m[0], params, l);
    LayersAreOk(x.g, x.B, x.T, l);
    LayerRuns(x, cfg, l);
    LayerIs(x.f, x.D(), x.S(l), X, m);
    OneLayerIs(x.f, x.g, x.tokens, x.B, x.T, l, cfg.mem, params, m[0], m[10]);
  }

  lemma LastSteps(L: nat)
    ensures StepAt(L, Layered(L)) == LastNorm && StepAt(L, Layered(L) + 1) == Logits
    ensures StepAt(L, Layered(L) + 2) == Softmaxing
  {
  }

  lemma ThreeSteps(x: Pass, m1: Row, m2: Row, m3: Row, m4: Row)
    requires x.g.NH > 0 && Does(x, LastNorm, m1, m2) && Does(x, Logits, m2, m3) && Does(x, Softmaxing, m3, m4)
    ensures FinalNormDoes(x.f, x.g, x.B, x.T, m1, m2) && m3 == M.MatmulSpec(m2, LogitsCall(x.g, x.B, x.T))
    ensures SoftmaxDoes(x.f, x.g, x.B, x.T, m3, m4)
  {
  }

  lemma LastPhases(x: Pass, cfg: P.Config)
    requires x.g.NH > 0 && P.ValidConfig(cfg) && |cfg.mem| == x.Size() && IsPass(x, cfg.program)
    ensures var n := Layered(x.g.L);
      && n + 3 == |cfg.program|
      && FinalNormDoes(x.f, x.g, x.B, x.T, P.SeqMem(cfg, n), P.SeqMem(cfg, n + 1))
      && P.SeqMem(cfg, n + 2) == M.MatmulSpec(P.SeqMem(cfg, n + 1), LogitsCall(x.g, x.B, x.T))
      && SoftmaxDoes(x.f, x.g, x.B, x.T, P.SeqMem(cfg, n + 2), P.SeqMem(cfg, n + 3))
  {
    hide Does, IsPass, StepAt, P.SeqMem, P.ValidPhase, FinalNormDoes, SoftmaxDoes, M.MatmulSpec;
    PassLength(x, cfg.program);
    LastSteps(x.g.L);
    var n := Layered(x.g.L);
    PhaseDoes(x, cfg, n);
    PhaseDoes(x, cfg, n + 1);
    PhaseDoes(x, cfg, n + 2);
    ThreeSteps(x, P.SeqMem(cfg, n), P.SeqMem(cfg, n + 1), P.SeqMem(cfg, n + 2), P.SeqMem(cfg, n + 3));
  }

  lemma LastRuns(x: Pass, cfg: P.Config, params: Row)
    requires x.Ok() && |cfg.mem| == x.Size() && IsPass(x, cfg.program) && P.ValidConfig(cfg)
    requires Loaded(cfg.mem, x.g, params)
    ensures var m := P.SeqMem(cfg, |cfg.program|);
      && Loaded(m, x.g, params)
      && RowsAre(m, ActPtr(x.g, x.B, x.T, 21), x.g.V,
                 Probs(NetOf(x.f, x.g, params), InputOf(cfg.mem, x.g, x.tokens, x.B, x.T)))
  {
    hide Reached, Loaded, FinalNormDoes, SoftmaxDoes, RowsAre, M.MatmulSpec, IsPass, P.SeqMem, P.ValidPhase, Probs;
    var n := Layered(x.g.L);
    LayersRun(x, cfg, params, x.g.L);
    LastPhases(x, cfg);
    LastIs(x.f, x.g, x.tokens, x.B, x.T, cfg.mem, params, P.SeqMem(cfg, n), P.SeqMem(cfg, n + 1), P.SeqMem(cfg, n + 2),
           P.SeqMem(cfg, n + 3));
  }

  // For every schedule: once the main thread has run the pass, its memory holds the probabilities
  // of the network, and the parameters are still there.
  lemma EverySchedule(x: Pass, cfg: P.Config, params: Row, s: P.State)
    requires x.Ok() && |cfg.mem| == x.Size() && IsPass(x, cfg.program) && Loaded(cfg.mem, x.g, params)
    requires PoolTheorems.Reachable(cfg, s) && (s.main == P.Returned || s.main == P.Phase(|cfg.program|))
    ensures Loaded(s.mem, x.g, params)
    ensures RowsAre(s.mem, ActPtr(x.g, x.B, x.T, 21), x.g.V,
      Probs(NetOf(x.f, x.g, params), InputOf(cfg.mem, x.g, x.tokens, x.B, x.T)))
  {
    hide Reached, Loaded, RowsAre, IsPass, Probs;
    PassIsValid(x, cfg);
    PoolTheorems.SequentialResult(cfg, s);
    LastRuns(x, cfg, params);
  }
}
