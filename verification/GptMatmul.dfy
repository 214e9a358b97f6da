// matmul_forward of M3-gpt/gpt.c as one step of the forward pass: the memory that the thread pool
// leaves (Matmul.MatmulSpec, see PoolTheorems.CallResult) read as rows.

module GptMatmul {
  import opened Arith
  import opened GptRows
  import opened GptLayers
  import opened GptTensors
  import M = Matmul

  function MatmulRows(X: seq<Row>, w: Row, bias: Option<Row>, C: nat, OC: nat): (Y: seq<Row>)
    ensures |Y| == |X|
  {
    seq(|X|, r requires 0 <= r < |X| => MatmulRow(X[r], w, bias, C, OC))
  }

  function BiasRow(m: Row, c: M.Call): Option<Row> {
    match c.bias case None => None case Some(p) => Some(RowOf(m, p, c.OC))
  }

  // The operands of one term.
  lemma TermIs(m: Row, c: M.Call, X: seq<Row>, r: nat, o: nat, i: nat)
    requires RowsAre(m, c.inp, c.C, X) && |X| == M.Rows(c) && r < |X| && o < c.OC && i < c.C
    ensures M.At(m, M.InpCell(M.Args(c, r), i)) == Entry(X[r], i)
    ensures M.At(m, M.WeightCell(M.Args(c, r), o, i)) == Entry(RowOf(m, c.weight, c.OC * c.C), o * c.C + i)
  {
    var x := RowOf(m, Pos(c.inp, c.C, r), c.C);
    assert x == X[r] && x[i] == Entry(m, Pos(c.inp, c.C, r) + i);
    assert M.InpCell(M.Args(c, r), i) == Pos(c.inp, c.C, r) + i;
    PosIn(0, c.C, o, c.OC);
    var w, k := RowOf(m, c.weight, c.OC * c.C), o * c.C + i;
    assert k < |w| && w[k] == Entry(m, c.weight + k) && M.WeightCell(M.Args(c, r), o, i) == c.weight + k;
  }

  lemma BiasIs(m: Row, c: M.Call, r: nat, o: nat)
    requires o < c.OC
    ensures M.BiasOf(m, M.Args(c, r), o) == BiasAt(BiasRow(m, c), o)
  {
    if c.bias.Some? { assert RowOf(m, c.bias.value, c.OC)[o] == Entry(m, c.bias.value + o); }
  }

  // One output: the pool's sum over addresses is the sum over the row.
  lemma {:induction false} DotIs(m: Row, c: M.Call, X: seq<Row>, r: nat, o: nat, i: nat)
    requires RowsAre(m, c.inp, c.C, X) && |X| == M.Rows(c) && r < |X| && o < c.OC && i <= c.C
    ensures M.Dot(m, M.Args(c, r), o, i) ==
      DotRow(X[r], RowOf(m, c.weight, c.OC * c.C), BiasAt(BiasRow(m, c), o), c.C, o, i)
  {
    if i == 0 {
      BiasIs(m, c, r, o);
    } else {
      DotIs(m, c, X, r, o, i - 1);
      TermIs(m, c, X, r, o, i - 1);
    }
  }

  lemma OutputIs(m: Row, c: M.Call, X: seq<Row>, r: nat)
    requires M.ValidCall(c, |m|) && RowsAre(m, c.inp, c.C, X) && |X| == M.Rows(c) && r < |X|
    ensures RowOf(M.MatmulSpec(m, c), Pos(c.out, c.OC, r), c.OC) ==
      MatmulRow(X[r], RowOf(m, c.weight, c.OC * c.C), BiasRow(m, c), c.C, c.OC)
  {
    var q := M.MatmulSpec(m, c);
    var x, y := RowOf(q, Pos(c.out, c.OC, r), c.OC),
      MatmulRow(X[r], RowOf(m, c.weight, c.OC * c.C), BiasRow(m, c), c.C, c.OC);
    M.OutRowInOut(c, r);
    forall o | 0 <= o < c.OC ensures x[o] == y[o] {
      M.RowCell(c, r, o);
      assert x[o] == Entry(q, c.out + (r * c.OC + o));
      assert q[c.out + (r * c.OC + o)] == M.MatmulCell(m, c, c.out + (r * c.OC + o));
      DotIs(m, c, X, r, o, c.C);
    }
  }

  // What one call does to the tensors.
  lemma CallIsRows(m: Row, c: M.Call, X: seq<Row>)
    requires M.ValidCall(c, |m|) && RowsAre(m, c.inp, c.C, X) && |X| == M.Rows(c)
    ensures RowsAre(M.MatmulSpec(m, c), c.out, c.OC,
      MatmulRows(X, RowOf(m, c.weight, c.OC * c.C), BiasRow(m, c), c.C, c.OC))
    ensures SameBut(m, M.MatmulSpec(m, c), [Slice(c.out, M.Rows(c) * c.OC)])
  {
    var q, rows := M.MatmulSpec(m, c), MatmulRows(X, RowOf(m, c.weight, c.OC * c.C), BiasRow(m, c), c.C, c.OC);
    forall r: nat | r < |rows| ensures RowOf(q, Pos(c.out, c.OC, r), c.OC) == rows[r] { OutputIs(m, c, X, r); }
    var w := [Slice(c.out, M.Rows(c) * c.OC)];
    forall x: nat | Outside(w, x) ensures Entry(q, x) == Entry(m, x) {
      assert w[0] == Slice(c.out, M.Rows(c) * c.OC);
      assert !M.InOut(c, x);
    }
  }

  // The rows one after the other, as a single worker would take them.
  method MatmulForward(mem: array<real>, c: M.Call)
    requires M.ValidCall(c, mem.Length)
    modifies mem
    ensures mem[..] == M.MatmulSpec(old(mem[..]), c)
  {
    ghost var m0 := mem[..];
    var b := 0;
    while b < c.B
      invariant 0 <= b <= c.B && RowsComputed(m0, mem[..], c, b * c.T)
    {
      var t := 0;
      while t < c.T
        invariant 0 <= t <= c.T && RowsComputed(m0, mem[..], c, b * c.T + t)
      {
        M.ArgsAtIsArgs(c, b, t);
        ComputeRow(mem, c, M.ArgsAt(c, b, t), b * c.T + t, m0);
        t := t + 1;
      }
      MulDist(b, 1, c.T);
      b := b + 1;
    }
    AllComputed(m0, mem[..], c);
  }

  ghost predicate RowsComputed(m0: Row, m: Row, c: M.Call, k: nat) {
    && |m| == |m0|
    && (forall x: nat {:trigger m[x]} :: x < |m| && !M.InOut(c, x) ==> m[x] == m0[x])
    && (forall r: nat, o: nat {:trigger M.OutCell(M.Args(c, r), o)} ::
      r < k && r < M.Rows(c) && o < c.OC && M.OutCell(M.Args(c, r), o) < |m| ==>
          m[M.OutCell(M.Args(c, r), o)] == M.Dot(m0, M.Args(c, r), o, c.C))
  }

  method ComputeRow(mem: array<real>, c: M.Call, args: M.CalcArgs, ghost k: nat, ghost m0: Row)
    requires M.ValidCall(c, mem.Length) && k < M.Rows(c) && args == M.Args(c, k) && RowsComputed(m0, mem[..], c, k)
    modifies mem
    ensures RowsComputed(m0, mem[..], c, k + 1)
  {
    ghost var m1 := mem[..];
    M.ValidRowIsSafe(c, k, mem.Length);
    M.Calc(mem, args);
    RowComputed(m0, m1, mem[..], c, k);
  }

  lemma RowComputed(m0: Row, m1: Row, m2: Row, c: M.Call, k: nat)
    requires M.ValidCall(c, |m1|) && k < M.Rows(c) && RowsComputed(m0, m1, c, k) && |m2| == |m1|
    requires forall x: nat {:trigger m2[x]} :: x < |m1| && !M.InSlice(x, M.Args(c, k).outBt, c.OC) ==> m2[x] == m1[x]
    requires forall o: nat :: o < c.OC && M.OutCell(M.Args(c, k), o) < |m2| ==>
      m2[M.OutCell(M.Args(c, k), o)] == M.Dot(m1, M.Args(c, k), o, c.C)
    ensures RowsComputed(m0, m2, c, k + 1)
  {
    M.OutRowInOut(c, k);
    PosIn(c.out, c.OC, k, M.Rows(c));
    forall r: nat, o: nat | r < k + 1 && r < M.Rows(c) && o < c.OC && M.OutCell(M.Args(c, r), o) < |m2|
      ensures m2[M.OutCell(M.Args(c, r), o)] == M.Dot(m0, M.Args(c, r), o, c.C)
    {
      if r == k { ThisRow(m0, m1, c, k, o); } else { EarlierRow(m0, m1, m2, c, k, r, o); }
    }
  }

  lemma ThisRow(m0: Row, m1: Row, c: M.Call, k: nat, o: nat)
    requires M.ValidCall(c, |m1|) && k < M.Rows(c) && o < c.OC && RowsComputed(m0, m1, c, k)
    ensures M.Dot(m1, M.Args(c, k), o, c.C) == M.Dot(m0, M.Args(c, k), o, c.C)
  {
    M.DotFrame(m1, m0, c, k, o, c.C);
  }

  lemma EarlierRow(m0: Row, m1: Row, m2: Row, c: M.Call, k: nat, r: nat, o: nat)
    requires r < k < M.Rows(c) && o < c.OC && RowsComputed(m0, m1, c, k) && |m2| == |m1|
      && M.OutCell(M.Args(c, r), o) < |m2|
    requires forall x: nat {:trigger m2[x]} :: x < |m1| && !M.InSlice(x, M.Args(c, k).outBt, c.OC) ==> m2[x] == m1[x]
    ensures m2[M.OutCell(M.Args(c, r), o)] == M.Dot(m0, M.Args(c, r), o, c.C)
  {
    PosApart(c.out, c.OC, r, k);
  }

  lemma NoOutputs(c: M.Call, x: nat)
    requires M.InOut(c, x)
    ensures c.OC > 0
  {
  }

  lemma AllComputed(m0: Row, m: Row, c: M.Call)
    requires M.ValidCall(c, |m0|) && RowsComputed(m0, m, c, M.Rows(c))
    ensures m == M.MatmulSpec(m0, c)
  {
    var q := M.MatmulSpec(m0, c);
    forall x | 0 <= x < |m| ensures m[x] == q[x] {
      assert q[x] == M.MatmulCell(m0, c, x);
      if M.InOut(c, x) {
        NoOutputs(c, x);
        M.CellRow(c, x);
        assert m[M.OutCell(M.Args(c, (x - c.out) / c.OC), (x - c.out) % c.OC)] ==
          M.Dot(m0, M.Args(c, (x - c.out) / c.OC), (x - c.out) % c.OC, c.C);
      }
    }
  }
}
