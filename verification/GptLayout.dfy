// How M3-gpt/gpt.c lays its tensors out: all parameters in one allocation, all activations in
// another, every tensor of a layer a slice of the tensor of all layers.

module GptLayout {
  import opened Arith
  import opened GptRows
  import opened GptLayers
  import opened GptBlock

  datatype Config = Config(maxT: nat, V: nat, L: nat, NH: nat, C: nat)

  // gpt2_build_from_checkpoint
  function ParamSizes(g: Config): (s: seq<nat>)
    ensures |s| == 16
  {
    [g.V * g.C, g.maxT * g.C, g.L * g.C, g.L * g.C, g.L * (3 * g.C) * g.C, g.L * (3 * g.C), g.L * g.C * g.C, g.L * g.C,
     g.L * g.C, g.L * g.C, g.L * (4 * g.C) * g.C, g.L * (4 * g.C), g.L * g.C * (4 * g.C), g.L * g.C, g.C, g.C]
  }

  lemma SizesAreNat(g: Config, B: nat, T: nat)
    ensures B * T >= 0 && B * T * g.C >= 0 && B * T * g.V >= 0
    ensures g.L * B * T >= 0 && g.L * B * T * g.C >= 0 && g.L * B * T * 3 * g.C >= 0 && g.L * B * T * 4 * g.C >= 0
    ensures g.L * B * g.NH * T * T >= 0
  {
    var n: nat := B * T;
    var k: nat := g.L * B * T;
    var m: nat := g.L * B * g.NH;
    var a: nat := m * T;
  }

  // gpt2_forward
  function ActSizes(g: Config, B: nat, T: nat): (s: seq<nat>)
    ensures |s| == 23
  {
    SizesAreNat(g, B, T);
    [B * T * g.C, g.L * B * T * g.C, g.L * B * T, g.L * B * T, g.L * B * T * 3 * g.C, g.L * B * T * g.C,
     g.L * B * g.NH * T * T, g.L * B * g.NH * T * T, g.L * B * T * g.C, g.L * B * T * g.C, g.L * B * T * g.C,
     g.L * B * T, g.L * B * T, g.L * B * T * 4 * g.C, g.L * B * T * 4 * g.C, g.L * B * T * g.C, g.L * B * T * g.C,
     B * T * g.C, B * T, B * T, B * T * g.V, B * T * g.V, B * T]
  }

  // ---- one allocation ----

  function SumTo(sizes: seq<nat>, i: nat): nat
    requires i <= |sizes|
  {
    if i == 0 then 0 else SumTo(sizes, i - 1) + sizes[i - 1]
  }

  // malloc_and_point_parameters and malloc_and_point_activations: the pointers to the tensors.
  method PointTensors(start: nat, sizes: seq<nat>) returns (ptrs: seq<nat>)
    ensures |ptrs| == |sizes| && forall i: nat {:trigger ptrs[i]} :: i < |sizes| ==> ptrs[i] == start + SumTo(sizes, i)
  {
    ptrs := [];
    var next := start;
    var i: nat := 0;
    while i < |sizes|
      invariant 0 <= i <= |sizes| && |ptrs| == i && next == start + SumTo(sizes, i)
      invariant forall j: nat {:trigger ptrs[j]} :: j < i ==> ptrs[j] == start + SumTo(sizes, j)
    {
      ptrs := ptrs + [next];
      next := next + sizes[i];
      i := i + 1;
    }
  }

  lemma {:induction false} SumMono(sizes: seq<nat>, i: nat, j: nat)
    requires i < j <= |sizes|
    ensures SumTo(sizes, i) + sizes[i] <= SumTo(sizes, j)
    decreases j
  {
    if i + 1 < j { SumMono(sizes, i, j - 1); }
  }

  // The tensors partition the allocation: every cell belongs to exactly one.
  lemma {:induction false} Partition(sizes: seq<nat>, n: nat, x: nat)
    requires n <= |sizes| && x < SumTo(sizes, n)
    ensures exists i: nat :: i < n && OwnsAlone(sizes, n, i, x)
    decreases n
  {
    var i: nat := n - 1;
    if x < SumTo(sizes, i) {
      Partition(sizes, n - 1, x);
      i :| i < n - 1 && OwnsAlone(sizes, n - 1, i, x);
    }
    OneOwner(sizes, n, i, x);
    assert OwnsAlone(sizes, n, i, x);
  }

  predicate OwnsAlone(sizes: seq<nat>, n: nat, i: nat, x: nat)
    requires i < n <= |sizes|
  {
    Owns(sizes, i, x) && forall j: nat :: j < n && Owns(sizes, j, x) ==> j == i
  }

  predicate Owns(sizes: seq<nat>, i: nat, x: nat)
    requires i < |sizes|
  {
    SumTo(sizes, i) <= x < SumTo(sizes, i) + sizes[i]
  }

  lemma OneOwner(sizes: seq<nat>, n: nat, i: nat, x: nat)
    requires i < n <= |sizes| && Owns(sizes, i, x)
    ensures forall j: nat :: j < n && Owns(sizes, j, x) ==> j == i
  {
    forall j: nat | j < n && Owns(sizes, j, x) ensures j == i {
      if j < i { SumMono(sizes, j, i); } else if i < j { SumMono(sizes, i, j); }
    }
  }

  // ---- the two allocations, one after the other in the flat memory ----

  function ParamTotal(g: Config): nat { SumTo(ParamSizes(g), 16) }
  function ParamPtr(g: Config, i: nat): nat requires i < 16 { SumTo(ParamSizes(g), i) }
  function ActPtr(g: Config, B: nat, T: nat, i: nat): nat requires i <= 23 {
    ParamTotal(g) + SumTo(ActSizes(g, B, T), i)
  }
  function Total(g: Config, B: nat, T: nat): nat { ActPtr(g, B, T, 23) }

  lemma SumFour(sizes: seq<nat>, i: nat)
    requires i + 4 <= |sizes|
    ensures SumTo(sizes, i + 4) == SumTo(sizes, i) + sizes[i] + sizes[i + 1] + sizes[i + 2] + sizes[i + 3]
  {
    assert SumTo(sizes, i + 2) == SumTo(sizes, i) + sizes[i] + sizes[i + 1];
  }

  lemma Threefold(l: nat, k: nat, c: nat)
    ensures l * (k * c) == k * (l * c) && l * (k * c) * c == k * (l * c * c) && l * c * (k * c) == k * (l * c * c)
  {
    MulAssoc(l, k, c);
    MulAssoc(k, l, c);
    MulAssoc(k, l * c, c);
    MulAssoc(l * c, k, c);
    MulAssoc(l, c, k * c);
  }

  // The number of parameters: 12 matrices and 13 vectors of the width of the stream in every
  // layer, two tables of embeddings, and the final normalisation.
  lemma ParamCount(g: Config)
    ensures ParamTotal(g) == g.V * g.C + g.maxT * g.C + 12 * (g.L * g.C * g.C) + 13 * (g.L * g.C) + 2 * g.C
  {
    var s := ParamSizes(g);
    SumFour(s, 0);
    SumFour(s, 4);
    SumFour(s, 8);
    SumFour(s, 12);
    Threefold(g.L, 3, g.C);
    Threefold(g.L, 4, g.C);
  }

  lemma Gpt2Small()
    ensures ParamTotal(Config(1024, 50257, 12, 12, 768)) == 124439808
  {
    ParamCount(Config(1024, 50257, 12, 12, 768));
  }

  lemma ActsApart(g: Config, B: nat, T: nat, i: nat, j: nat)
    requires i < j < 23
    ensures ActPtr(g, B, T, i) + ActSizes(g, B, T)[i] <= ActPtr(g, B, T, j)
    ensures ActPtr(g, B, T, j) + ActSizes(g, B, T)[j] <= Total(g, B, T) && ParamTotal(g) <= ActPtr(g, B, T, i)
  {
    SumMono(ActSizes(g, B, T), i, j);
    SumMono(ActSizes(g, B, T), j, 23);
  }

  lemma ParamsApart(g: Config, i: nat, j: nat)
    requires i < j < 16
    ensures ParamPtr(g, i) + ParamSizes(g)[i] <= ParamPtr(g, j) && ParamPtr(g, j) + ParamSizes(g)[j] <= ParamTotal(g)
  {
    SumMono(ParamSizes(g), i, j);
    SumMono(ParamSizes(g), j, 16);
  }

  // ---- the slices of a layer ----

  function DimsOf(g: Config, B: nat, T: nat): Dims { Dims(B, T, g.C, g.NH) }

  function Part(l: nat, n: nat): nat { l * n }

  // Slice i of a layer is the l-th part of activation i, or of parameter i - 15; the residual
  // stream comes from the encoder or from the layer before.
  function At(g: Config, B: nat, T: nat, l: nat, i: nat): nat
    requires i < 29
  {
    var d := DimsOf(g, B, T);
    if i == RESIDUAL then
      if l == 0 then ActPtr(g, B, T, 0) else ActPtr(g, B, T, RESIDUAL3) + Part(l - 1, Len(d, RESIDUAL3))
    else if i <= RESIDUAL3 then ActPtr(g, B, T, i) + Part(l, Len(d, i))
    else ParamPtr(g, i - 15) + Part(l, Len(d, i))
  }

  function LayerSlices(g: Config, B: nat, T: nat, l: nat): (s: seq<Slice>)
    ensures |s| == 29 && forall i: nat :: i < 29 ==> s[i] == Slice(At(g, B, T, l, i), Len(DimsOf(g, B, T), i))
  {
    seq(29, i requires 0 <= i < 29 => Slice(At(g, B, T, l, i), Len(DimsOf(g, B, T), i)))
  }

  // The size of a tensor is that of a layer times the number of layers.
  lemma SizesAreLayers(g: Config, B: nat, T: nat)
    ensures var d := DimsOf(g, B, T); forall i: nat :: 1 <= i <= RESIDUAL3 ==> ActSizes(g, B, T)[i] == g.L * Len(d, i)
  {
    var d := DimsOf(g, B, T);
    var L, n, C := g.L, B * T, g.C;
    MulAssoc(L, B, T);
    MulAssoc(L, n, C);
    MulAssoc(L * n, 3, C); MulAssoc(L, n, 3 * C);
    MulAssoc(L * n, 4, C); MulAssoc(L, n, 4 * C);
    MulAssoc(L, B, g.NH); MulAssoc(L, B * g.NH, T); MulAssoc(L, B * g.NH * T, T);
  }

  lemma ParamSizesAreLayers(g: Config, B: nat, T: nat)
    ensures var d := DimsOf(g, B, T); forall i: nat :: 17 <= i < 29 ==> ParamSizes(g)[i - 15] == g.L * Len(d, i)
  {
    var L, C := g.L, g.C;
    MulAssoc(L, 3 * C, C);
    MulAssoc(L, 4 * C, C);
    MulAssoc(L, C, C);
    MulAssoc(L, C, 4 * C);
  }

  // The offsets of layer l as the code writes them: of its activations, and of its parameters.
  function ActOffsets(l: nat, B: nat, T: nat, NH: nat, C: nat): (s: seq<nat>)
    ensures |s| == 16
  {
    [l * B * T * C, l * B * T, l * B * T, l * B * T * 3 * C, l * B * T * C, l * B * NH * T * T, l * B * NH * T * T,
     l * B * T * C, l * B * T * C, l * B * T * C, l * B * T, l * B * T, l * B * T * 4 * C, l * B * T * 4 * C,
     l * B * T * C, l * B * T * C]
  }

  function ParamOffsets(l: nat, C: nat): (s: seq<nat>)
    ensures |s| == 12
  {
    [l * C, l * C, l * 3 * C * C, l * 3 * C, l * C * C, l * C,
     l * C, l * C, l * 4 * C * C, l * 4 * C, l * C * 4 * C, l * C]
  }

  // The residual stream that the layer reads.
  function ResidualPtr(g: Config, B: nat, T: nat, l: nat): nat {
    if l == 0 then ActPtr(g, B, T, 0) else ActPtr(g, B, T, 16) + ActOffsets(l - 1, B, T, g.NH, g.C)[15]
  }

  lemma CodePointers(g: Config, B: nat, T: nat, l: nat)
    ensures At(g, B, T, l, RESIDUAL) == ResidualPtr(g, B, T, l)
    ensures forall i: nat :: LN1 <= i <= RESIDUAL3 ==>
      At(g, B, T, l, i) == ActPtr(g, B, T, i) + ActOffsets(l, B, T, g.NH, g.C)[i - LN1]
    ensures forall i: nat :: LN1W <= i < 29 ==>
      At(g, B, T, l, i) == ParamPtr(g, i - 15) + ParamOffsets(l, g.C)[i - LN1W]
  {
    ActProducts(l, B, T, g.NH, g.C);
    ParamProducts(l, g.C);
    if l > 0 { ActProducts(l - 1, B, T, g.NH, g.C); }
  }

  lemma ActProducts(l: nat, B: nat, T: nat, NH: nat, C: nat)
    ensures l * B * T == l * (B * T) && l * B * T * C == l * (B * T * C)
    ensures l * B * T * 3 * C == l * (B * T * (C * 3)) && l * B * T * 4 * C == l * (B * T * (4 * C))
    ensures l * B * NH * T * T == l * (B * NH * T * T)
  {
    var n := B * T;
    MulAssoc(l, B, T);
    MulAssoc(l, n, C);
    MulAssoc(l * n, 3, C); MulAssoc(l, n, 3 * C);
    MulAssoc(l * n, 4, C); MulAssoc(l, n, 4 * C);
    MulAssoc(l, B, NH); MulAssoc(l, B * NH, T); MulAssoc(l, B * NH * T, T);
  }

  lemma ParamProducts(l: nat, C: nat)
    ensures l * 3 * C == l * (C * 3) && l * 3 * C * C == l * (C * 3 * C) && l * C * C == l * (C * C)
    ensures l * 4 * C == l * (4 * C) && l * 4 * C * C == l * (4 * C * C) && l * C * 4 * C == l * (C * (4 * C))
  {
    MulAssoc(l, 3, C); MulAssoc(l, 3 * C, C);
    MulAssoc(l, 4, C); MulAssoc(l, 4 * C, C);
    MulAssoc(l, C, C); MulAssoc(l * C, 4, C); MulAssoc(l, C, 4 * C);
  }

  // ---- no overlap ----

  // The tensor that slice i belongs to: where it starts and ends.
  function Tensor(g: Config, B: nat, T: nat, l: nat, i: nat): nat
    requires i < 29
  {
    if i == RESIDUAL then (if l == 0 then 16 else 16 + RESIDUAL3) else if i <= RESIDUAL3 then 16 + i else i - 15
  }

  function Base(g: Config, B: nat, T: nat, k: nat): nat
    requires k < 39
  {
    if k < 16 then ParamPtr(g, k) else ActPtr(g, B, T, k - 16)
  }

  function Size(g: Config, B: nat, T: nat, k: nat): nat
    requires k < 39
  {
    if k < 16 then ParamSizes(g)[k] else ActSizes(g, B, T)[k - 16]
  }

  lemma TensorsApart(g: Config, B: nat, T: nat, j: nat, k: nat)
    requires j < k < 39
    ensures Base(g, B, T, j) + Size(g, B, T, j) <= Base(g, B, T, k)
    ensures Base(g, B, T, k) + Size(g, B, T, k) <= Total(g, B, T)
  {
    if k < 16 {
      ParamsApart(g, j, k);
    } else {
      SumMono(ActSizes(g, B, T), k - 16, 23);
      if j < 16 { SumMono(ParamSizes(g), j, 16); } else { ActsApart(g, B, T, j - 16, k - 16); }
    }
  }

  lemma PartIn(base: nat, l: nat, n: nat, L: nat)
    requires l < L
    ensures base + l * n + n <= base + L * n
  {
    MulMono(l + 1, L, n);
    MulDist(l, 1, n);
  }

  // A slice lies within its tensor.
  lemma SliceIn(g: Config, B: nat, T: nat, l: nat, i: nat)
    requires l < g.L && i < 29
    ensures var k := Tensor(g, B, T, l, i);
      Base(g, B, T, k) <= At(g, B, T, l, i)
        && At(g, B, T, l, i) + Len(DimsOf(g, B, T), i) <= Base(g, B, T, k) + Size(g, B, T, k)
  {
    var d := DimsOf(g, B, T);
    SizesAreLayers(g, B, T);
    ParamSizesAreLayers(g, B, T);
    if i == RESIDUAL {
      if l > 0 { PartIn(ActPtr(g, B, T, RESIDUAL3), l - 1, Len(d, RESIDUAL3), g.L); }
    } else if i <= RESIDUAL3 {
      PartIn(ActPtr(g, B, T, i), l, Len(d, i), g.L);
    } else {
      PartIn(ParamPtr(g, i - 15), l, Len(d, i), g.L);
    }
  }

  lemma SlicesDoNotOverlap(g: Config, B: nat, T: nat, l: nat, i: nat, j: nat)
    requires l < g.L && i < j < 29
    ensures Apart(At(g, B, T, l, i), Len(DimsOf(g, B, T), i), At(g, B, T, l, j), Len(DimsOf(g, B, T), j))
  {
    var k, m := Tensor(g, B, T, l, i), Tensor(g, B, T, l, j);
    if k == m {
      // the residual stream of the layer before, and the one that this layer writes
      PartIn(ActPtr(g, B, T, RESIDUAL3), l - 1, Len(DimsOf(g, B, T), RESIDUAL3), l);
    } else {
      SliceIn(g, B, T, l, i);
      SliceIn(g, B, T, l, j);
      if k < m { TensorsApart(g, B, T, k, m); } else { TensorsApart(g, B, T, m, k); }
    }
  }

  lemma SliceInMemory(g: Config, B: nat, T: nat, l: nat, i: nat)
    requires l < g.L && i < 29
    ensures At(g, B, T, l, i) + Len(DimsOf(g, B, T), i) <= Total(g, B, T)
  {
    SliceIn(g, B, T, l, i);
    var k := Tensor(g, B, T, l, i);
    if k == 0 { TensorsApart(g, B, T, 0, 1); } else { TensorsApart(g, B, T, 0, k); }
  }

  // In every layer the slices are in place: inside their tensors, disjoint, and no call writes
  // what it reads.
  lemma LayersAreOk(g: Config, B: nat, T: nat, l: nat)
    requires l < g.L && g.NH > 0
    ensures BlockOk(Total(g, B, T), DimsOf(g, B, T), LayerSlices(g, B, T, l))
  {
    var s := LayerSlices(g, B, T, l);
    forall i: nat | i < 29 ensures s[i].len == Len(DimsOf(g, B, T), i) && In(Total(g, B, T), s[i].at, s[i].len) {
      SliceInMemory(g, B, T, l, i);
    }
    forall i: nat, j: nat | i < j < 29
      ensures Apart(s[i].at, s[i].len, s[j].at, s[j].len)
    {
      SlicesDoNotOverlap(g, B, T, l, i, j);
    }
  }

  // Slices of different layers of the same tensor are disjoint.
  lemma LayersApart(g: Config, B: nat, T: nat, l: nat, m: nat, i: nat)
    requires l < m && 1 <= i < 29
    ensures At(g, B, T, l, i) + Len(DimsOf(g, B, T), i) <= At(g, B, T, m, i)
  {
    PartIn(0, l, Len(DimsOf(g, B, T), i), m);
  }
}
