// What the layers of M3-gpt/gpt.c compute for one position, on rows of reals: without memory,
// without loops, and for any exponential, square root and hyperbolic tangent.

module GptRows {
  type Row = seq<real>

  datatype Option<T> = None | Some(value: T)
  datatype Math = Math(exp: real -> real, sqrt: real -> real, tanh: real -> real)

  // Division as a total function; what a float division by 0.0 gives is not part of this model.
  function Div(a: real, b: real): real { if b == 0.0 then 0.0 else a / b }

  const EPS: real := 0.00001

  function Entry(x: Row, i: nat): real { if i < |x| then x[i] else 0.0 }

  // ---- rows ----

  function AddRow(x: Row, y: Row, n: nat): (r: Row)
    ensures |r| == n
  {
    seq(n, i requires 0 <= i < n => Entry(x, i) + Entry(y, i))
  }

  // The sum of the first n entries, in the order of the loop.
  function Sum(x: Row, n: nat): real { if n == 0 then 0.0 else Sum(x, n - 1) + Entry(x, n - 1) }

  function SquareSum(x: Row, m: real, n: nat): real {
    if n == 0 then 0.0 else SquareSum(x, m, n - 1) + (Entry(x, n - 1) - m) * (Entry(x, n - 1) - m)
  }

  function Mean(x: Row, n: nat): real { Div(Sum(x, n), n as real) }
  function Rstd(f: Math, x: Row, n: nat): real { Div(1.0, f.sqrt(Div(SquareSum(x, Mean(x, n), n), n as real) + EPS)) }

  function NormEntry(x: real, m: real, s: real, w: real, b: real): real { s * (x - m) * w + b }

  function LayerNormRow(f: Math, x: Row, w: Row, b: Row, n: nat): (r: Row)
    ensures |r| == n
  {
    seq(n, i requires 0 <= i < n => NormEntry(Entry(x, i), Mean(x, n), Rstd(f, x, n), Entry(w, i), Entry(b, i)))
  }

  // Output o of a matrix product, after i terms; the weights of one output are C entries in a row.
  function DotRow(x: Row, w: Row, bias: real, C: nat, o: nat, i: nat): real {
    if i == 0 then bias else DotRow(x, w, bias, C, o, i - 1) + Entry(x, i - 1) * Entry(w, o * C + (i - 1))
  }

  function BiasAt(b: Option<Row>, o: nat): real { if b.Some? then Entry(b.value, o) else 0.0 }

  function MatmulRow(x: Row, w: Row, bias: Option<Row>, C: nat, OC: nat): (r: Row)
    ensures |r| == OC
  {
    seq(OC, o requires 0 <= o < OC => DotRow(x, w, BiasAt(bias, o), C, o, C))
  }

  const TWO_OVER_PI: real := 2.0 / 3.14159265358979323846

  function Cube(x: real): real { 0.044715 * x * x * x }

  function GeluArgument(f: Math, x: real, cube: real): real { f.sqrt(TWO_OVER_PI) * (x + cube) }
  function GeluOf(f: Math, x: real, cube: real): real { 0.5 * x * (1.0 + f.tanh(GeluArgument(f, x, cube))) }
  function Gelu(f: Math, x: real): real { GeluOf(f, x, Cube(x)) }

  function GeluRow(f: Math, x: Row, n: nat): (r: Row)
    ensures |r| == n
  {
    seq(n, i requires 0 <= i < n => Gelu(f, Entry(x, i)))
  }

  const FLOOR: real := -10000.0

  // The running maximum, which starts at -10000.
  function MaxOf(x: Row, n: nat): real {
    if n == 0 then FLOOR else var m := MaxOf(x, n - 1); if Entry(x, n - 1) > m then Entry(x, n - 1) else m
  }

  function ExpSum(f: Math, x: Row, m: real, n: nat): real {
    if n == 0 then 0.0 else ExpSum(f, x, m, n - 1) + f.exp(Entry(x, n - 1) - m)
  }

  function SoftmaxRow(f: Math, x: Row, n: nat): (r: Row)
    ensures |r| == n
  {
    var m := MaxOf(x, n);
    seq(n, i requires 0 <= i < n => Div(f.exp(Entry(x, i) - m), ExpSum(f, x, m, n)))
  }

  // ---- attention ----

  // One head: rows of queries, keys and values (3C entries each), the position, the head's
  // offset h*hs within each of the three parts, and its size.
  datatype Head = Head(C: nat, off: nat, hs: nat, scale: real)

  function Product(q: Row, k: Row, a: Head, i: nat): real {
    if i == 0 then 0.0 else Product(q, k, a, i - 1) + Entry(q, a.off + (i - 1)) * Entry(k, a.off + a.C + (i - 1))
  }

  function RowAt(Q: seq<Row>, t: nat): Row { if t < |Q| then Q[t] else [] }

  // The scores of position t against positions 0 .. n-1.
  function Scores(Q: seq<Row>, t: nat, a: Head, n: nat): (r: Row)
    ensures |r| == n
  {
    seq(n, t2 requires 0 <= t2 < n => Product(RowAt(Q, t), RowAt(Q, t2), a, a.hs) * a.scale)
  }

  // Their weights, for 0 .. t.
  function Inverse(s: real): real { if s == 0.0 then 0.0 else Div(1.0, s) }

  function Weights(f: Math, s: Row): (r: Row)
    ensures |r| == |s|
  {
    var m := MaxOf(s, |s|);
    seq(|s|, i requires 0 <= i < |s| => f.exp(Entry(s, i) - m) * Inverse(ExpSum(f, s, m, |s|)))
  }

  // Channel i of the head's output after n positions.
  function Weighted(Q: seq<Row>, w: Row, a: Head, i: nat, n: nat): real {
    if n == 0 then 0.0 else Weighted(Q, w, a, i, n - 1) + Entry(w, n - 1) * Entry(RowAt(Q, n - 1), a.off + 2 * a.C + i)
  }

  function HeadOut(f: Math, Q: seq<Row>, t: nat, a: Head, i: nat): real {
    Weighted(Q, Weights(f, Scores(Q, t, a, t + 1)), a, i, t + 1)
  }

  function HeadAt(f: Math, C: nat, NH: nat, h: nat): Head
    requires NH > 0
  {
    Head(C, h * (C / NH), C / NH, Div(1.0, f.sqrt((C / NH) as real)))
  }

  // The first h heads side by side. Channels beyond keep `prev`.
  function HeadsRow(f: Math, Q: seq<Row>, t: nat, C: nat, NH: nat, prev: Row, h: nat): (r: Row)
    requires NH > 0
    ensures |r| == C
  {
    var hs := C / NH;
    seq(C, c requires 0 <= c < C =>
      if hs > 0 && c < h * hs then HeadOut(f, Q, t, HeadAt(f, C, NH, c / hs), c % hs) else Entry(prev, c))
  }

  // All heads. Channels from NH * (C / NH) on are not written.
  function AttentionRow(f: Math, Q: seq<Row>, t: nat, C: nat, NH: nat, prev: Row): (r: Row)
    requires NH > 0
    ensures |r| == C
  {
    HeadsRow(f, Q, t, C, NH, prev, NH)
  }

  // ---- only positions up to t count ----

  lemma {:induction false} WeightedPrefix(Q: seq<Row>, P: seq<Row>, w: Row, a: Head, i: nat, n: nat)
    requires n <= |Q| && n <= |P| && forall j :: 0 <= j < n ==> Q[j] == P[j]
    ensures Weighted(Q, w, a, i, n) == Weighted(P, w, a, i, n)
  {
    if n > 0 { WeightedPrefix(Q, P, w, a, i, n - 1); }
  }

  lemma HeadPrefix(f: Math, Q: seq<Row>, P: seq<Row>, t: nat, a: Head, i: nat)
    requires t < |Q| && t < |P| && forall j :: 0 <= j <= t ==> Q[j] == P[j]
    ensures HeadOut(f, Q, t, a, i) == HeadOut(f, P, t, a, i)
  {
    var s1, s2 := Scores(Q, t, a, t + 1), Scores(P, t, a, t + 1);
    forall j | 0 <= j < t + 1 ensures s1[j] == s2[j] {
      assert RowAt(Q, j) == RowAt(P, j) && RowAt(Q, t) == RowAt(P, t);
    }
    assert s1 == s2;
    WeightedPrefix(Q, P, Weights(f, Scores(Q, t, a, t + 1)), a, i, t + 1);
  }

  // Attention at position t reads nothing of later positions.
  lemma AttentionPrefix(f: Math, Q: seq<Row>, P: seq<Row>, t: nat, C: nat, NH: nat, prev: Row)
    requires NH > 0 && t < |Q| && t < |P| && forall j :: 0 <= j <= t ==> Q[j] == P[j]
    ensures AttentionRow(f, Q, t, C, NH, prev) == AttentionRow(f, P, t, C, NH, prev)
  {
    var hs := C / NH;
    var r1, r2 := AttentionRow(f, Q, t, C, NH, prev), AttentionRow(f, P, t, C, NH, prev);
    forall c | 0 <= c < C ensures r1[c] == r2[c] {
      if hs > 0 && c < NH * hs { HeadPrefix(f, Q, P, t, HeadAt(f, C, NH, c / hs), c % hs); }
    }
  }

  // The output is determined by the rows, whatever was in memory before, if and only if the heads
  // cover all channels.
  lemma CoveredIff(f: Math, Q: seq<Row>, t: nat, C: nat, NH: nat)
    requires NH > 0
    ensures (forall p: Row, q: Row :: AttentionRow(f, Q, t, C, NH, p) == AttentionRow(f, Q, t, C, NH, q)) <==>
      C % NH == 0
  {
    var hs := C / NH;
    assert C == NH * hs + C % NH;
    if C % NH == 0 {
      forall p: Row, q: Row ensures AttentionRow(f, Q, t, C, NH, p) == AttentionRow(f, Q, t, C, NH, q) {
        if hs == 0 { assert NH * hs == 0; }
      }
    } else {
      var p: Row := seq(C, _ => 0.0);
      var q: Row := seq(C, _ => 1.0);
      assert AttentionRow(f, Q, t, C, NH, p)[NH * hs] == 0.0;
      assert AttentionRow(f, Q, t, C, NH, q)[NH * hs] == 1.0;
    }
  }
}
