// The layer functions of M3-gpt/gpt.c except attention, in place on one flat array of reals:
// each leaves, for every position, the row that GptRows defines, and writes nothing else.

module GptLayers {
  import opened Arith
  import opened GptRows

  // ---- slices of the memory ----

  predicate In(size: nat, a: nat, n: nat) { a + n <= size }
  predicate Apart(a: nat, n: nat, b: nat, m: nat) { a + n <= b || b + m <= a }

  // The n cells from a on.
  function RowOf(m: Row, a: nat, n: nat): (r: Row)
    ensures |r| == n
  {
    seq(n, i requires 0 <= i < n => Entry(m, a + i))
  }

  // A slice that may be written: where it starts and how long it is.
  datatype Slice = Slice(at: nat, len: nat)

  predicate Outside(ws: seq<Slice>, x: nat) { forall i :: 0 <= i < |ws| ==> x < ws[i].at || x >= ws[i].at + ws[i].len }

  // Memory q is p except within the slices.
  ghost predicate SameBut(p: Row, q: Row, ws: seq<Slice>) {
    |q| == |p| && forall x: nat {:trigger Entry(q, x)} :: Outside(ws, x) ==> Entry(q, x) == Entry(p, x)
  }

  ghost predicate Clear(ws: seq<Slice>, a: nat, n: nat) {
    forall i :: 0 <= i < |ws| ==> Apart(ws[i].at, ws[i].len, a, n)
  }

  lemma RowKept(p: Row, q: Row, ws: seq<Slice>, a: nat, n: nat)
    requires SameBut(p, q, ws) && Clear(ws, a, n)
    ensures RowOf(q, a, n) == RowOf(p, a, n)
  {
    var r1, r2 := RowOf(q, a, n), RowOf(p, a, n);
    forall i | 0 <= i < n ensures r1[i] == r2[i] {
      forall j | 0 <= j < |ws|
        ensures a + i < ws[j].at || a + i >= ws[j].at + ws[j].len
      {
        assert Apart(ws[j].at, ws[j].len, a, n);
      }
      assert Outside(ws, a + i);
    }
  }

  // Row r of a tensor with C entries in a row.
  function Pos(base: nat, C: nat, r: nat): nat { base + r * C }

  lemma PosIn(base: nat, C: nat, r: nat, n: nat)
    requires r < n
    ensures base <= Pos(base, C, r) && Pos(base, C, r) + C <= base + n * C
  {
    MulMono(r + 1, n, C);
    MulDist(r, 1, C);
  }

  lemma PosApart(base: nat, C: nat, r: nat, s: nat)
    requires r < s
    ensures Pos(base, C, r) + C <= Pos(base, C, s)
  {
    MulMono(r + 1, s, C);
    MulDist(r, 1, C);
  }

  // b * T + t numbers the positions (b, t) in the order of the two outer loops.
  lemma PositionIn(B: nat, T: nat, b: nat, t: nat)
    requires b < B && t < T
    ensures b * T + t < B * T
  {
    MulMono(b + 1, B, T);
    MulDist(b, 1, T);
  }

  lemma PointerIsPos(base: nat, T: nat, C: nat, b: nat, t: nat)
    ensures base + b * T * C + t * C == Pos(base, C, b * T + t)
  {
    MulDist(b * T, t, C);
  }

  // ---- one row ----

  method AddInto(mem: array<real>, out: nat, x: nat, y: nat, n: nat)
    requires In(mem.Length, out, n) && In(mem.Length, x, n) && In(mem.Length, y, n) && Apart(out, n, x, n)
      && Apart(out, n, y, n)
    modifies mem
    ensures RowOf(mem[..], out, n) == AddRow(RowOf(old(mem[..]), x, n), RowOf(old(mem[..]), y, n), n)
    ensures SameBut(old(mem[..]), mem[..], [Slice(out, n)])
  {
    ghost var m0 := mem[..];
    ghost var r := AddRow(RowOf(m0, x, n), RowOf(m0, y, n), n);
    var i := 0;
    while i < n
      invariant 0 <= i <= n && Kept(m0, mem[..], out, n)
      invariant forall z {:trigger mem[z]} :: out <= z < out + i ==> mem[z] == r[z - out]
    {
      mem[out + i] := mem[x + i] + mem[y + i];
      i := i + 1;
    }
    Written(m0, mem[..], out, n, r);
  }

  // Everything but one slice is as it was.
  ghost predicate Kept(p: Row, q: Row, at: nat, n: nat) {
    |q| == |p| && forall z {:trigger q[z]} :: 0 <= z < |p| && (z < at || z >= at + n) ==> q[z] == p[z]
  }

  lemma Written(p: Row, q: Row, at: nat, n: nat, r: Row)
    requires Kept(p, q, at, n) && at + n <= |q| && |r| == n && forall z {:trigger q[z]} :: at <= z < at + n ==>
      q[z] == r[z - at]
    ensures RowOf(q, at, n) == r && SameBut(p, q, [Slice(at, n)])
  {
    var row := RowOf(q, at, n);
    forall i | 0 <= i < n
      ensures row[i] == r[i]
    {
      assert row[i] == Entry(q, at + i);
      assert Entry(q, at + i) == q[at + i];
      assert q[at + i] == r[i];
    }
    assert row == r;
    var w := [Slice(at, n)];
    forall x: nat | Outside(w, x) ensures Entry(q, x) == Entry(p, x) { assert w[0] == Slice(at, n); }
  }

  // What one position of layernorm_forward writes.
  function NormSlices(out: nat, mean: nat, rstd: nat, n: nat): seq<Slice> {
    [Slice(out, n), Slice(mean, 1), Slice(rstd, 1)]
  }

  method MeanOf(mem: array<real>, x: nat, n: nat) returns (m: real)
    requires In(mem.Length, x, n)
    ensures m == Mean(RowOf(mem[..], x, n), n)
  {
    ghost var xs := RowOf(mem[..], x, n);
    m := 0.0;
    var i := 0;
    while i < n
      invariant 0 <= i <= n && m == Sum(xs, i)
    {
      assert xs[i] == mem[x + i];
      m := m + mem[x + i];
      i := i + 1;
    }
    m := Div(m, n as real);
  }

  method RstdOf(mem: array<real>, f: Math, x: nat, n: nat, m: real) returns (s: real)
    requires In(mem.Length, x, n) && m == Mean(RowOf(mem[..], x, n), n)
    ensures s == Rstd(f, RowOf(mem[..], x, n), n)
  {
    ghost var xs := RowOf(mem[..], x, n);
    var v, i := 0.0, 0;
    while i < n
      invariant 0 <= i <= n && v == SquareSum(xs, m, i)
    {
      assert xs[i] == mem[x + i];
      var xshift := mem[x + i] - m;
      v := v + xshift * xshift;
      i := i + 1;
    }
    v := Div(v, n as real);
    s := Div(1.0, f.sqrt(v + EPS));
  }

  // The last loop of a position: normalize, scale and shift.
  method NormalizeInto(mem: array<real>, out: nat, x: nat, w: nat, b: nat, n: nat, m: real, s: real, ghost r: Row)
    requires In(mem.Length, out, n) && In(mem.Length, x, n) && In(mem.Length, w, n) && In(mem.Length, b, n)
    requires Apart(out, n, x, n) && Apart(out, n, w, n) && Apart(out, n, b, n) && |r| == n
    requires forall i: nat :: i < n ==>
      r[i] == NormEntry(RowOf(mem[..], x, n)[i], m, s, RowOf(mem[..], w, n)[i], RowOf(mem[..], b, n)[i])
    modifies mem
    ensures RowOf(mem[..], out, n) == r && SameBut(old(mem[..]), mem[..], [Slice(out, n)])
  {
    ghost var m0 := mem[..];
    var i := 0;
    while i < n
      invariant 0 <= i <= n && Kept(m0, mem[..], out, n)
      invariant forall z {:trigger mem[z]} :: out <= z < out + i ==> mem[z] == r[z - out]
    {
      assert RowOf(m0, x, n)[i] == m0[x + i] == mem[x + i];
      assert RowOf(m0, w, n)[i] == m0[w + i] == mem[w + i];
      assert RowOf(m0, b, n)[i] == m0[b + i] == mem[b + i];
      mem[out + i] := NormEntry(mem[x + i], m, s, mem[w + i], mem[b + i]);
      i := i + 1;
    }
    Written(m0, mem[..], out, n, r);
  }

  method NormInto(mem: array<real>, f: Math, out: nat, mean: nat, rstd: nat, x: nat, w: nat, b: nat, n: nat)
    requires In(mem.Length, out, n) && In(mem.Length, x, n) && In(mem.Length, w, n) && In(mem.Length, b, n)
    requires In(mem.Length, mean, 1) && In(mem.Length, rstd, 1) && Apart(out, n, mean, 1) && Apart(out, n, rstd, 1)
    requires Apart(mean, 1, rstd, 1)
    requires Apart(out, n, x, n) && Apart(out, n, w, n) && Apart(out, n, b, n)
    modifies mem
    ensures RowOf(mem[..], out, n) ==
      LayerNormRow(f, RowOf(old(mem[..]), x, n), RowOf(old(mem[..]), w, n), RowOf(old(mem[..]), b, n), n)
    ensures RowOf(mem[..], mean, 1) == [Mean(RowOf(old(mem[..]), x, n), n)]
    ensures RowOf(mem[..], rstd, 1) == [Rstd(f, RowOf(old(mem[..]), x, n), n)]
    ensures SameBut(old(mem[..]), mem[..], NormSlices(out, mean, rstd, n))
  {
    ghost var m0 := mem[..];
    var m := MeanOf(mem, x, n);
    var s := RstdOf(mem, f, x, n, m);
    NormalizeInto(mem, out, x, w, b, n, m, s, LayerNormRow(f, RowOf(m0, x, n), RowOf(m0, w, n), RowOf(m0, b, n), n));
    ghost var m1 := mem[..];
    mem[mean] := m;
    mem[rstd] := s;
    TwoCells(m0, m1, mem[..], out, n, mean, rstd);
    CellOf(mem[..], mean);
    CellOf(mem[..], rstd);
  }

  lemma CellOf(m: Row, a: nat)
    requires a < |m|
    ensures RowOf(m, a, 1) == [m[a]]
  {
    assert RowOf(m, a, 1)[0] == Entry(m, a + 0);
  }

  lemma TwoCells(p: Row, q: Row, r: Row, out: nat, n: nat, a: nat, b: nat)
    requires SameBut(p, q, [Slice(out, n)]) && |r| == |q| && Apart(out, n, a, 1) && Apart(out, n, b, 1)
    requires forall z {:trigger r[z]} :: 0 <= z < |r| && z != a && z != b ==> r[z] == q[z]
    ensures SameBut(p, r, NormSlices(out, a, b, n)) && RowOf(r, out, n) == RowOf(q, out, n)
  {
    var w, w1 := NormSlices(out, a, b, n), [Slice(out, n)];
    forall x: nat | Outside(w, x) ensures Entry(r, x) == Entry(p, x) {
      assert w[0] == w1[0] && w[1] == Slice(a, 1) && w[2] == Slice(b, 1);
      assert Outside(w1, x);
      assert Entry(q, x) == Entry(p, x);
    }
    var r1, r2 := RowOf(r, out, n), RowOf(q, out, n);
    forall i | 0 <= i < n ensures r1[i] == r2[i] { assert r1[i] == Entry(r, out + i) && r2[i] == Entry(q, out + i); }
  }

  method GeluInto(mem: array<real>, f: Math, out: nat, x: nat, n: nat)
    requires In(mem.Length, out, n) && In(mem.Length, x, n) && Apart(out, n, x, n)
    modifies mem
    ensures RowOf(mem[..], out, n) == GeluRow(f, RowOf(old(mem[..]), x, n), n)
    ensures SameBut(old(mem[..]), mem[..], [Slice(out, n)])
  {
    ghost var m0 := mem[..];
    ghost var r := GeluRow(f, RowOf(m0, x, n), n);
    var i := 0;
    while i < n
      invariant 0 <= i <= n && Kept(m0, mem[..], out, n)
      invariant forall z {:trigger mem[z]} :: out <= z < out + i ==> mem[z] == r[z - out]
    {
      var v := mem[x + i];
      assert RowOf(m0, x, n)[i] == m0[x + i] == v;
      var cube := Cube(v);
      mem[out + i] := GeluOf(f, v, cube);
      i := i + 1;
    }
    Written(m0, mem[..], out, n, r);
  }

  // One position of softmax_forward. Its row is filled with exponentials first and then divided.
  method MaxIn(mem: array<real>, x: nat, n: nat) returns (m: real)
    requires In(mem.Length, x, n)
    ensures m == MaxOf(RowOf(mem[..], x, n), n)
  {
    ghost var xs := RowOf(mem[..], x, n);
    m := FLOOR;
    var i := 0;
    while i < n
      invariant 0 <= i <= n && m == MaxOf(xs, i)
    {
      assert xs[i] == mem[x + i];
      if mem[x + i] > m { m := mem[x + i]; }
      i := i + 1;
    }
  }

  // The cells from `at` on hold the exponentials of a row.
  ghost predicate Exps(f: Math, m: Row, at: nat, s: Row, max: real) {
    forall z {:trigger m[z]} :: at <= z < at + |s| && z < |m| ==> m[z] == f.exp(s[z - at] - max)
  }

  lemma NoExps(f: Math, x: Row, m: real)
    ensures ExpSum(f, x, m, 0) == 0.0
  {
  }

  lemma ExpNext(f: Math, x: Row, m: real, i: nat)
    requires i < |x|
    ensures ExpSum(f, x, m, i) + f.exp(x[i] - m) == ExpSum(f, x, m, i + 1)
  {
  }

  // expf(x[i] - maxval) into out, and their sum.
  method ExpInto(mem: array<real>, f: Math, out: nat, x: nat, n: nat, m: real) returns (sum: real)
    requires In(mem.Length, out, n) && In(mem.Length, x, n) && Apart(out, n, x, n)
    modifies mem
    ensures sum == ExpSum(f, RowOf(old(mem[..]), x, n), m, n) && Kept(old(mem[..]), mem[..], out, n)
    ensures Exps(f, mem[..], out, RowOf(old(mem[..]), x, n), m)
  {
    hide ExpSum;
    ghost var m0 := mem[..];
    ghost var xs := RowOf(m0, x, n);
    NoExps(f, xs, m);
    sum := 0.0;
    var i := 0;
    while i < n
      invariant 0 <= i <= n && Kept(m0, mem[..], out, n) && sum == ExpSum(f, xs, m, i)
      invariant forall z {:trigger mem[z]} :: out <= z < out + i ==> mem[z] == f.exp(xs[z - out] - m)
    {
      assert xs[i] == m0[x + i] == mem[x + i];
      var expv := f.exp(mem[x + i] - m);
      mem[out + i] := expv;
      ExpNext(f, xs, m, i);
      sum := sum + expv;
      i := i + 1;
    }
  }

  method SoftmaxInto(mem: array<real>, f: Math, out: nat, x: nat, n: nat)
    requires In(mem.Length, out, n) && In(mem.Length, x, n) && Apart(out, n, x, n)
    modifies mem
    ensures RowOf(mem[..], out, n) == SoftmaxRow(f, RowOf(old(mem[..]), x, n), n)
    ensures SameBut(old(mem[..]), mem[..], [Slice(out, n)])
  {
    hide ExpSum, MaxOf;
    ghost var m0 := mem[..];
    ghost var r := SoftmaxRow(f, RowOf(m0, x, n), n);
    var m := MaxIn(mem, x, n);
    var sum := ExpInto(mem, f, out, x, n, m);
    ghost var m1 := mem[..];
    var i := 0;
    while i < n
      invariant 0 <= i <= n && Kept(m0, mem[..], out, n)
      invariant forall z {:trigger mem[z]} :: out <= z < out + i ==> mem[z] == r[z - out]
      invariant forall z {:trigger mem[z]} :: out + i <= z < out + n ==> mem[z] == m1[z]
    {
      assert m1[out + i] == f.exp(RowOf(m0, x, n)[i] - m);
      mem[out + i] := Div(mem[out + i], sum);
      assert r[i] == mem[out + i];
      i := i + 1;
    }
    Written(m0, mem[..], out, n, r);
  }
}
