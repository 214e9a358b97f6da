// The layers of M3-gpt/gpt.c as the formulas that they are known by. GptRows says what the loops
// compute, in their order; here it is said what comes out.

module GptFormulas {
  import opened Arith
  import opened GptRows

  // Entries i .. n-1 of x, summed.
  function Total(x: Row, i: nat, n: nat): real
    decreases n - i
  {
    if i >= n then 0.0 else Entry(x, i) + Total(x, i + 1, n)
  }

  // n entries of x from i on times n entries of y from j on, summed.
  function Dot(x: Row, i: nat, y: Row, j: nat, n: nat): real
    decreases n
  {
    if n == 0 then 0.0 else Entry(x, i) * Entry(y, j) + Dot(x, i + 1, y, j + 1, n - 1)
  }

  lemma {:induction false} TotalEnd(x: Row, i: nat, n: nat)
    requires i <= n
    ensures Total(x, i, n + 1) == Total(x, i, n) + Entry(x, n)
    decreases n - i
  {
    if i < n { TotalEnd(x, i + 1, n); } else { assert Total(x, n + 1, n + 1) == 0.0; }
  }

  lemma {:induction false} DotEnd(x: Row, i: nat, y: Row, j: nat, n: nat)
    ensures Dot(x, i, y, j, n + 1) == Dot(x, i, y, j, n) + Entry(x, i + n) * Entry(y, j + n)
    decreases n
  {
    assert Dot(x, i, y, j, n + 1) == Entry(x, i) * Entry(y, j) + Dot(x, i + 1, y, j + 1, n);
    if n > 0 {
      DotEnd(x, i + 1, y, j + 1, n - 1);
      assert i + 1 + (n - 1) == i + n && j + 1 + (n - 1) == j + n;
    }
  }

  lemma {:induction false} SumIs(x: Row, n: nat)
    ensures Sum(x, n) == Total(x, 0, n)
  {
    if n > 0 {
      SumIs(x, n - 1);
      TotalEnd(x, 0, n - 1);
    }
  }

  // ---- reals ----

  lemma DivTimes(a: real, b: real)
    requires b != 0.0
    ensures Div(a, b) * b == a
  {
  }

  lemma SameQuotient(a: real, b: real, c: real)
    requires c != 0.0 && a * c == b * c
    ensures a == b
  {
    assert a == a * c / c && b == b * c / c;
  }

  lemma Undo(p: real, s: real, root: real)
    requires s * root == 1.0
    ensures p * s * root == p
  {
    assert p * s * root == p * (s * root);
  }

  lemma AddTerm(x: real, w: real, v: real, total: real, dot: real, e: real)
    requires x * total == dot && w * total == e
    ensures (x + w * v) * total == dot + e * v
  {
    Distribute(x, w * v, total);
    assert w * v * total == w * total * v;
  }

  lemma Distribute(a: real, b: real, c: real)
    ensures (a + b) * c == a * c + b * c
  {
  }

  // ---- attention ----

  lemma {:induction false} ProductIs(q: Row, k: Row, a: Head, n: nat)
    ensures Product(q, k, a, n) == Dot(q, a.off, k, a.off + a.C, n)
  {
    if n > 0 {
      ProductIs(q, k, a, n - 1);
      DotEnd(q, a.off, k, a.off + a.C, n - 1);
    }
  }

  // The score of key t2: query times key over the square root of the head size.
  lemma ScoreIsDot(f: Math, Q: seq<Row>, t: nat, C: nat, NH: nat, h: nat, n: nat, t2: nat)
    requires NH > 0 && t2 < n && f.sqrt((C / NH) as real) != 0.0
    ensures Scores(Q, t, HeadAt(f, C, NH, h), n)[t2] * f.sqrt((C / NH) as real) ==
      Dot(RowAt(Q, t), h * (C / NH), RowAt(Q, t2), C + h * (C / NH), C / NH)
  {
    var a, root := HeadAt(f, C, NH, h), f.sqrt((C / NH) as real);
    ProductIs(RowAt(Q, t), RowAt(Q, t2), a, a.hs);
    var p := Dot(RowAt(Q, t), a.off, RowAt(Q, t2), C + a.off, a.hs);
    assert Scores(Q, t, a, n)[t2] == p * a.scale;
    DivTimes(1.0, root);
    Undo(p, a.scale, root);
  }

  // ---- softmax ----

  predicate ExpAdds(f: Math, u: real, v: real) { f.exp(u + v) == f.exp(u) * f.exp(v) }

  // What the exponential function is known for.
  ghost predicate Exponential(f: Math) {
    (forall v: real :: f.exp(v) > 0.0) && forall u: real, v: real :: ExpAdds(f, u, v)
  }

  ghost predicate Exponentials(f: Math, x: Row, n: nat, e: Row) {
    forall i: nat :: i < n ==> Entry(e, i) == f.exp(Entry(x, i))
  }

  lemma Shifted(f: Math, x: real, m: real)
    requires Exponential(f)
    ensures f.exp(x - m) * f.exp(m) == f.exp(x)
  {
    assert x - m + m == x;
    assert ExpAdds(f, x - m, m);
  }

  lemma {:induction false} ShiftedSum(f: Math, x: Row, m: real, n: nat, e: Row)
    requires Exponential(f) && Exponentials(f, x, n, e)
    ensures ExpSum(f, x, m, n) * f.exp(m) == Total(e, 0, n)
  {
    if n > 0 {
      ShiftedSum(f, x, m, n - 1, e);
      TotalEnd(e, 0, n - 1);
      Shifted(f, Entry(x, n - 1), m);
      Distribute(ExpSum(f, x, m, n - 1), f.exp(Entry(x, n - 1) - m), f.exp(m));
    }
  }

  lemma {:induction false} TotalPositive(f: Math, x: Row, i: nat, n: nat, e: Row)
    requires Exponential(f) && Exponentials(f, x, n, e) && i <= n
    ensures if i < n then Total(e, i, n) > 0.0 else Total(e, i, n) == 0.0
    decreases n - i
  {
    if i < n { TotalPositive(f, x, i + 1, n, e); }
  }

  lemma NotZero(s: real, k: real)
    requires s * k > 0.0
    ensures s != 0.0
  {
  }

  // A quotient does not notice that both sides were divided by exp(m).
  lemma Cancel(w: real, p: real, s: real, k: real, e: real, total: real)
    requires k != 0.0 && w * s == p && p * k == e && s * k == total
    ensures w * total == e
  {
    assert w * (s * k) == w * s * k;
  }

  // Subtracting the maximum changes nothing: each entry is exp(x_i) over the sum of all.
  lemma SoftmaxIs(f: Math, x: Row, n: nat, e: Row, i: nat)
    requires i < n && Exponential(f) && Exponentials(f, x, n, e)
    ensures Total(e, 0, n) > 0.0 && SoftmaxRow(f, x, n)[i] * Total(e, 0, n) == f.exp(Entry(x, i))
  {
    hide MaxOf, ExpSum, Total, Div;
    var m := MaxOf(x, n);
    var s, p := ExpSum(f, x, m, n), f.exp(Entry(x, i) - m);
    ShiftedSum(f, x, m, n, e);
    TotalPositive(f, x, 0, n, e);
    NotZero(s, f.exp(m));
    Shifted(f, Entry(x, i), m);
    DivTimes(p, s);
    Cancel(SoftmaxRow(f, x, n)[i], p, s, f.exp(m), f.exp(Entry(x, i)), Total(e, 0, n));
  }

  lemma WeightIs(f: Math, s: Row, e: Row, i: nat)
    requires i < |s| && Exponential(f) && Exponentials(f, s, |s|, e)
    ensures Total(e, 0, |s|) > 0.0 && Weights(f, s)[i] * Total(e, 0, |s|) == f.exp(s[i])
  {
    hide MaxOf, ExpSum, Total, Div;
    var m := MaxOf(s, |s|);
    var sum, p := ExpSum(f, s, m, |s|), f.exp(s[i] - m);
    ShiftedSum(f, s, m, |s|, e);
    TotalPositive(f, s, 0, |s|, e);
    NotZero(sum, f.exp(m));
    Shifted(f, s[i], m);
    DivTimes(1.0, sum);
    Undo(p, Inverse(sum), sum);
    Cancel(Weights(f, s)[i], p, sum, f.exp(m), f.exp(s[i]), Total(e, 0, |s|));
  }

  // ---- attention, all passes ----

  lemma NoTerms(Q: seq<Row>, w: Row, a: Head, i: nat, e: Row, v: Row)
    ensures Weighted(Q, w, a, i, 0) == 0.0 == Dot(e, 0, v, 0, 0)
  {
  }

  lemma NextTerm(Q: seq<Row>, w: Row, a: Head, i: nat, n: nat, x: real)
    requires x == Entry(RowAt(Q, n), 2 * a.C + a.off + i)
    ensures Weighted(Q, w, a, i, n + 1) == Weighted(Q, w, a, i, n) + Entry(w, n) * x
  {
  }

  lemma {:induction false} WeightedIs(Q: seq<Row>, w: Row, a: Head, i: nat, n: nat, e: Row, v: Row, total: real)
    requires forall j: nat :: j < n ==> Entry(w, j) * total == Entry(e, j)
    requires forall j: nat :: j < n ==> Entry(v, j) == Entry(RowAt(Q, j), 2 * a.C + a.off + i)
    ensures Weighted(Q, w, a, i, n) * total == Dot(e, 0, v, 0, n)
  {
    hide Weighted, Dot;
    NoTerms(Q, w, a, i, e, v);
    if n > 0 {
      WeightedIs(Q, w, a, i, n - 1, e, v, total);
      DotEnd(e, 0, v, 0, n - 1);
      NextTerm(Q, w, a, i, n - 1, Entry(v, n - 1));
      AddTerm(Weighted(Q, w, a, i, n - 1), Entry(w, n - 1), Entry(v, n - 1), total, Dot(e, 0, v, 0, n - 1),
              Entry(e, n - 1));
    }
  }

  // The scores s of position t in head h, and their exponentials e.
  ghost predicate AreScores(f: Math, Q: seq<Row>, t: nat, C: nat, NH: nat, h: nat, s: Row)
    requires NH > 0
  {
    |s| == t + 1 && forall j: nat :: j <= t ==>
      s[j] * f.sqrt((C / NH) as real) ==
        Dot(RowAt(Q, t), h * (C / NH), RowAt(Q, j), C + h * (C / NH), C / NH)
  }

  lemma ScoresAre(f: Math, Q: seq<Row>, t: nat, C: nat, NH: nat, h: nat, s: Row)
    requires NH > 0 && f.sqrt((C / NH) as real) != 0.0 && AreScores(f, Q, t, C, NH, h, s)
    ensures s == Scores(Q, t, HeadAt(f, C, NH, h), t + 1)
  {
    hide Dot, Scores;
    var r := Scores(Q, t, HeadAt(f, C, NH, h), t + 1);
    forall j | 0 <= j < t + 1 ensures s[j] == r[j] {
      ScoreIsDot(f, Q, t, C, NH, h, t + 1, j);
      SameQuotient(s[j], r[j], f.sqrt((C / NH) as real));
    }
  }

  // Channel i of head h: the values of positions 0 .. t, each weighted with exp(score) over the
  // sum of all.
  lemma AttentionIs(f: Math, Q: seq<Row>, t: nat, C: nat, NH: nat, prev: Row, h: nat, i: nat, s: Row, e: Row, v: Row)
    requires NH > 0 && h < NH && i < C / NH && f.sqrt((C / NH) as real) != 0.0 && Exponential(f)
    requires AreScores(f, Q, t, C, NH, h, s) && Exponentials(f, s, t + 1, e)
    requires forall j: nat :: j <= t ==> Entry(v, j) == Entry(RowAt(Q, j), 2 * C + h * (C / NH) + i)
    ensures h * (C / NH) + i < C && Total(e, 0, t + 1) > 0.0
    ensures AttentionRow(f, Q, t, C, NH, prev)[h * (C / NH) + i] * Total(e, 0, t + 1) == Dot(e, 0, v, 0, t + 1)
  {
    hide Scores, Weights, Weighted, AttentionRow, Total, Dot, AreScores;
    ChannelIs(f, Q, t, C, NH, prev, h, i);
    ScoresAre(f, Q, t, C, NH, h, s);
    TotalPositive(f, s, 0, t + 1, e);
    HeadOutIs(f, Q, t, HeadAt(f, C, NH, h), i, s, e, v);
  }

  lemma HeadOutIs(f: Math, Q: seq<Row>, t: nat, a: Head, i: nat, s: Row, e: Row, v: Row)
    requires Exponential(f) && s == Scores(Q, t, a, t + 1) && Exponentials(f, s, t + 1, e)
    requires forall j: nat :: j <= t ==> Entry(v, j) == Entry(RowAt(Q, j), 2 * a.C + a.off + i)
    ensures HeadOut(f, Q, t, a, i) * Total(e, 0, t + 1) == Dot(e, 0, v, 0, t + 1)
  {
    hide Scores, Weights, Weighted, Total, Dot;
    var w := Weights(f, s);
    forall j: nat | j <= t ensures Entry(w, j) * Total(e, 0, t + 1) == Entry(e, j) {
      WeightIs(f, s, e, j);
    }
    WeightedIs(Q, w, a, i, t + 1, e, v, Total(e, 0, t + 1));
  }

  lemma ChannelIs(f: Math, Q: seq<Row>, t: nat, C: nat, NH: nat, prev: Row, h: nat, i: nat)
    requires h < NH && i < C / NH
    ensures h * (C / NH) + i < C
    ensures AttentionRow(f, Q, t, C, NH, prev)[h * (C / NH) + i] == HeadOut(f, Q, t, HeadAt(f, C, NH, h), i)
  {
    hide HeadOut, HeadAt;
    Channel(C, NH, h, i);
  }

  lemma Channel(C: nat, NH: nat, h: nat, i: nat)
    requires h < NH && i < C / NH
    ensures h * (C / NH) + i < NH * (C / NH) <= C
    ensures (h * (C / NH) + i) / (C / NH) == h && (h * (C / NH) + i) % (C / NH) == i
  {
    MulMono(h + 1, NH, C / NH);
    MulDist(h, 1, C / NH);
    DivModUnique(h, i, C / NH);
  }

  // ---- layernorm ----

  lemma {:induction false} SquareSumIs(x: Row, m: real, n: nat, d: Row)
    requires forall j: nat :: j < n ==> Entry(d, j) == (Entry(x, j) - m) * (Entry(x, j) - m)
    ensures SquareSum(x, m, n) == Total(d, 0, n)
  {
    if n > 0 {
      SquareSumIs(x, m, n - 1, d);
      TotalEnd(d, 0, n - 1);
    }
  }

  lemma MeanIs(x: Row, n: nat, mean: real)
    requires n > 0 && mean * (n as real) == Total(x, 0, n)
    ensures Mean(x, n) == mean
  {
    SumIs(x, n);
    var k := n as real;
    DivTimes(Sum(x, n), k);
    SameQuotient(Mean(x, n), mean, k);
  }

  lemma VarianceIs(x: Row, n: nat, mean: real, variance: real, d: Row)
    requires n > 0 && variance * (n as real) == Total(d, 0, n)
    requires forall j: nat :: j < n ==> Entry(d, j) == (Entry(x, j) - mean) * (Entry(x, j) - mean)
    ensures Div(SquareSum(x, mean, n), n as real) == variance
  {
    hide Total, SquareSum;
    SquareSumIs(x, mean, n, d);
    var k := n as real;
    DivTimes(SquareSum(x, mean, n), k);
    SameQuotient(Div(SquareSum(x, mean, n), k), variance, k);
  }

  // Each entry, less its bias, is its deviation from the mean in units of the root of the variance
  // (plus 1e-5), times its weight.
  lemma NormIs(f: Math, x: Row, w: Row, b: Row, n: nat, mean: real, variance: real, d: Row, i: nat)
    requires i < n && mean * (n as real) == Total(x, 0, n) && variance * (n as real) == Total(d, 0, n)
    requires forall j: nat :: j < n ==> Entry(d, j) == (Entry(x, j) - mean) * (Entry(x, j) - mean)
    requires f.sqrt(variance + 0.00001) != 0.0
    ensures Mean(x, n) == mean && Rstd(f, x, n) * f.sqrt(variance + 0.00001) == 1.0
    ensures (LayerNormRow(f, x, w, b, n)[i] - Entry(b, i)) * f.sqrt(variance + 0.00001) ==
      (Entry(x, i) - mean) * Entry(w, i)
  {
    hide Total, Sum, SquareSum, Mean, Div;
    MeanIs(x, n, mean);
    VarianceIs(x, n, mean, variance, d);
    DivTimes(1.0, f.sqrt(variance + 0.00001));
    Normed(Rstd(f, x, n), f.sqrt(variance + 0.00001), Entry(x, i) - mean, Entry(w, i), Entry(b, i));
  }

  lemma Normed(s: real, root: real, d: real, w: real, b: real)
    requires s * root == 1.0
    ensures (s * d * w + b - b) * root == d * w
  {
    assert s * d * w * root == s * root * (d * w);
  }

  // ---- matmul, gelu, the maximum ----

  lemma {:induction false} DotRowIs(x: Row, w: Row, bias: real, C: nat, o: nat, n: nat)
    ensures DotRow(x, w, bias, C, o, n) == bias + Dot(x, 0, w, o * C, n)
  {
    if n > 0 {
      DotRowIs(x, w, bias, C, o, n - 1);
      DotEnd(x, 0, w, o * C, n - 1);
    }
  }

  // Output o is row o of the weights times x, plus the bias if there is one.
  lemma MatmulIs(x: Row, w: Row, bias: Option<Row>, C: nat, OC: nat, o: nat)
    requires o < OC
    ensures MatmulRow(x, w, bias, C, OC)[o] ==
      Dot(x, 0, w, o * C, C) + (match bias case Some(b) => Entry(b, o) case None => 0.0)
  {
    DotRowIs(x, w, BiasAt(bias, o), C, o, C);
  }

  // The tanh approximation; k is 2 over pi.
  lemma GeluIs(f: Math, x: Row, n: nat, i: nat, k: real, v: real, cube: real)
    requires i < n && k * 3.14159265358979323846 == 2.0 && v == Entry(x, i) && cube == 0.044715 * v * v * v
    ensures 2.0 * GeluRow(f, x, n)[i] == v + v * f.tanh(f.sqrt(k) * (v + cube))
  {
    hide GeluArgument, Cube, GeluOf;
    TwoOverPi(k);
    CubeIs(v, cube);
    GeluHolds(f, v, cube);
    ArgumentIs(f, k, v, cube);
  }

  lemma TwoOverPi(k: real)
    requires k * 3.14159265358979323846 == 2.0
    ensures k == TWO_OVER_PI
  {
  }

  lemma CubeIs(v: real, cube: real)
    requires cube == 0.044715 * v * v * v
    ensures Cube(v) == cube
  {
  }

  lemma ArgumentIs(f: Math, k: real, v: real, cube: real)
    requires k == TWO_OVER_PI
    ensures GeluArgument(f, v, cube) == f.sqrt(k) * (v + cube)
  {
  }

  lemma GeluHolds(f: Math, v: real, cube: real)
    ensures 2.0 * GeluOf(f, v, cube) == v + v * f.tanh(GeluArgument(f, v, cube))
  {
    hide GeluArgument;
    Halves(v, f.tanh(GeluArgument(f, v, cube)));
  }

  lemma Halves(v: real, u: real)
    ensures 2.0 * (0.5 * v * (1.0 + u)) == v + v * u
  {
  }

  // The running maximum is the largest entry, unless all are below -10000.
  lemma {:induction false} MaxIs(x: Row, n: nat)
    ensures MaxOf(x, n) >= -10000.0 && forall i: nat :: i < n ==> Entry(x, i) <= MaxOf(x, n)
    ensures MaxOf(x, n) == -10000.0 || exists i: nat :: i < n && Entry(x, i) == MaxOf(x, n)
  {
    if n > 0 { MaxIs(x, n - 1); }
  }
}
