// The generation loop of main in M3-gpt/gpt.c: one forward pass for each new token, of which only
// the last row of probabilities is used.

module GptMain {
  import F = GptFormulas
  import opened GptRows
  import opened GptLayers
  import opened GptTensors
  import opened GptLayout
  import opened GptNetwork
  import opened GptForward

  // ---- sample_mult ----

  const COIN: real := 0.5

  // The running sum once entry i is in.
  function Cdf(p: Row, i: nat): real { Sum(p, i + 1) }

  // r is the first index at which the running sum exceeds the coin, or the last index.
  predicate Sampled(p: Row, n: nat, r: nat) {
    r < n && (forall j: nat :: j < r ==> Cdf(p, j) <= COIN) && (COIN < Cdf(p, r) || r == n - 1)
  }

  method SampleMult(mem: array<real>, probs: nat, n: nat) returns (r: nat)
    requires n > 0 && In(mem.Length, probs, n)
    ensures Sampled(RowOf(mem[..], probs, n), n, r)
  {
    ghost var p := RowOf(mem[..], probs, n);
    var cdf := 0.0;
    var i: nat := 0;
    while i < n
      invariant i <= n && cdf == Sum(p, i)
      invariant forall j: nat :: j < i ==> Cdf(p, j) <= COIN
    {
      assert p[i] == mem[probs + i];
      cdf := cdf + mem[probs + i];
      assert cdf == Cdf(p, i);
      if COIN < cdf {
        return i;
      }
      i := i + 1;
    }
    return n - 1;
  }

  lemma SampleIsUnique(p: Row, n: nat, r: nat, s: nat)
    requires Sampled(p, n, r) && Sampled(p, n, s)
    ensures r == s
  {
    assert Cdf(p, r) <= COIN || !(r < s);
    assert Cdf(p, s) <= COIN || !(s < r);
  }

  // The coin is 0.5, and the entries are summed from the first on.
  predicate AtMostHalf(p: Row, j: nat) { F.Total(p, 0, j) <= 0.5 }

  lemma SampledIff(p: Row, n: nat, r: nat)
    ensures Sampled(p, n, r) <==>
      r < n && (forall j: nat :: j <= r ==> AtMostHalf(p, j)) && (!AtMostHalf(p, r + 1) || r == n - 1)
  {
    F.SumIs(p, 0);
    F.SumIs(p, r + 1);
    if Sampled(p, n, r) {
      forall j: nat | j <= r ensures AtMostHalf(p, j) {
        F.SumIs(p, j);
        if j > 0 { assert Cdf(p, j - 1) <= COIN; }
      }
    }
    if forall j: nat :: j <= r ==> AtMostHalf(p, j) {
      forall j: nat | j < r ensures Cdf(p, j) <= COIN {
        F.SumIs(p, j + 1);
        assert AtMostHalf(p, j + 1);
      }
    }
  }

  // On a row of probabilities the loop ends by itself; the last return is for rounding errors only.
  lemma CoinFallsInside(f: Math, x: Row, n: nat, r: nat)
    requires n > 0 && (forall v: real :: f.exp(v) > 0.0) && Sampled(SoftmaxRow(f, x, n), n, r)
    ensures COIN < Cdf(SoftmaxRow(f, x, n), r)
  {
    SumsToOne(f, x, n);
  }

  // ---- the loop ----

  // One sequence of n tokens; what memory holds does not matter.
  function Sequence(tokens: seq<nat>): Input { Input(tokens, 1, |tokens|, []) }

  // The row that decides the token after these: the last one of a pass over them.
  function NextRow(net: Net, tokens: seq<nat>): Row
    requires net.NH > 0 && |tokens| > 0
  {
    RowAt(Probs(net, Sequence(tokens)), |tokens| - 1)
  }

  lemma PassIsNextRow(net: Net, x: Input)
    requires net.NH > 0 && net.C % net.NH == 0 && x.B == 1 && x.T == |x.tokens| > 0
    ensures RowAt(Probs(net, x), x.T - 1) == NextRow(net, x.tokens)
  {
    Causality(net, x, 0, Sequence(x.tokens), 0, x.T - 1);
  }

  lemma PrefixTokens(tokens: seq<nat>, k: nat)
    requires 0 < k <= |tokens|
    ensures SameTokens(Sequence(tokens[..k]), 0, Sequence(tokens), 0, k - 1)
  {
  }

  // It is also the row at that position of a pass over any longer sequence.
  lemma OnePass(net: Net, tokens: seq<nat>, k: nat)
    requires net.NH > 0 && net.C % net.NH == 0 && 0 < k <= |tokens|
    ensures NextRow(net, tokens[..k]) == RowAt(Probs(net, Sequence(tokens)), k - 1)
  {
    hide Probs, Stream, SameTokens, RowAt;
    var x, y := Sequence(tokens[..k]), Sequence(tokens);
    PrefixTokens(tokens, k);
    Causality(net, x, 0, y, 0, k - 1);
    assert x.RowNo(0, k - 1) == y.RowNo(0, k - 1) == k - 1;
  }

  ghost predicate Chosen(net: Net, tokens: seq<nat>, next: nat)
    requires net.NH > 0 && |tokens| > 0
  {
    Sampled(NextRow(net, tokens), net.V, next)
  }

  // gpt2_forward allocates its activations anew; the parameters come first, and `junk` is what
  // malloc has left in the rest.
  method Load(g: Config, params: Row, T: nat, junk: nat -> real) returns (mem: array<real>)
    requires |params| == ParamTotal(g)
    ensures fresh(mem) && mem.Length == Total(g, 1, T) && Loaded(mem[..], g, params)
  {
    var n := Total(g, 1, T);
    mem := new real[n](i requires 0 <= i < n => if i < |params| then params[i] else junk(i));
    ActsApart(g, 1, T, 0, 1);
    var r := RowOf(mem[..], 0, ParamTotal(g));
    forall i | 0 <= i < |params| ensures r[i] == params[i] { assert r[i] == Entry(mem[..], i); }
  }

  // One pass over all tokens so far; at probs is its last row.
  method LastRow(f: Math, g: Config, params: Row, tokens: seq<nat>, junk: nat -> real)
      returns (mem: array<real>, probs: nat)
    requires g.L > 0 && g.NH > 0 && g.C % g.NH == 0 && |params| == ParamTotal(g)
    requires 0 < |tokens| <= g.maxT && forall i :: 0 <= i < |tokens| ==> tokens[i] < g.V
    ensures In(mem.Length, probs, g.V) && RowOf(mem[..], probs, g.V) == NextRow(NetOf(f, g, params), tokens)
  {
    var t := |tokens|;
    mem := Load(g, params, t, junk);
    ghost var x := InputOf(mem[..], g, tokens, 1, t);
    Forward(mem, f, g, tokens, 1, t, params);
    LastRowIs(mem[..], g, NetOf(f, g, params), x);
    probs := LastRowAt(g, t);
  }

  function LastRowAt(g: Config, t: nat): nat requires t > 0 { Pos(ActPtr(g, 1, t, 21), g.V, t - 1) }

  lemma ProbsSize(g: Config, t: nat)
    ensures Base(g, 1, t, PROBS) == ActPtr(g, 1, t, 21) && Size(g, 1, t, PROBS) == t * g.V
  {
  }

  lemma LastRowIs(m: Row, g: Config, net: Net, x: Input)
    requires net.NH > 0 && net.C % net.NH == 0 && net.V == g.V && x.B == 1 && x.T == |x.tokens| > 0
      && |m| == Total(g, 1, x.T)
    requires RowsAre(m, ActPtr(g, 1, x.T, 21), g.V, Probs(net, x))
    ensures In(|m|, LastRowAt(g, x.T), g.V) && RowOf(m, LastRowAt(g, x.T), g.V) == NextRow(net, x.tokens)
  {
    hide Probs, NextRow, Total, ActPtr, RowOf;
    var t := x.T;
    ProbsSize(g, t);
    TwoTensors(g, 1, t, 0, PROBS);
    PosIn(ActPtr(g, 1, t, 21), g.V, t - 1, t);
    assert RowOf(m, LastRowAt(g, t), g.V) == Probs(net, x)[t - 1];
    PassIsNextRow(net, x);
  }

  method NextToken(f: Math, g: Config, params: Row, tokens: seq<nat>, junk: nat -> real) returns (next: nat)
    requires g.L > 0 && g.NH > 0 && g.C % g.NH == 0 && g.V > 0 && |params| == ParamTotal(g)
    requires 0 < |tokens| <= g.maxT && forall i :: 0 <= i < |tokens| ==> tokens[i] < g.V
    ensures next < g.V && Chosen(NetOf(f, g, params), tokens, next)
  {
    var mem, probs := LastRow(f, g, params, tokens, junk);
    next := SampleMult(mem, probs, g.V);
  }

  // The loop of main: tokens start .. n-1 are generated. Every one of them is what one forward pass
  // over the finished sequence selects.
  method Generate(f: Math, g: Config, params: Row, tokens: array<nat>, start: nat, junk: nat -> real)
    requires g.L > 0 && g.NH > 0 && g.C % g.NH == 0 && g.V > 0 && |params| == ParamTotal(g)
    requires 0 < start <= tokens.Length <= g.maxT + 1 && forall i :: 0 <= i < start ==> tokens[i] < g.V
    modifies tokens
    ensures forall i :: 0 <= i < start ==> tokens[i] == old(tokens[i])
    ensures SelfConsistent(NetOf(f, g, params), tokens[..], start)
  {
    ghost var net := NetOf(f, g, params);
    var t := start;
    while t < tokens.Length
      invariant start <= t <= tokens.Length && forall i :: 0 <= i < t ==> tokens[i] < g.V
      invariant forall i :: 0 <= i < start ==> tokens[i] == old(tokens[i])
      invariant AllChosen(net, tokens[..], start, t)
    {
      GenerateOne(f, g, params, tokens, t, junk, start);
      t := t + 1;
    }
    ChosenIsConsistent(net, tokens[..], start);
  }

  method GenerateOne(f: Math, g: Config, params: Row, tokens: array<nat>, t: nat, junk: nat -> real, ghost start: nat)
    requires g.L > 0 && g.NH > 0 && g.C % g.NH == 0 && g.V > 0 && |params| == ParamTotal(g)
    requires 0 < start <= t < tokens.Length <= g.maxT + 1 && forall i :: 0 <= i < t ==> tokens[i] < g.V
    requires AllChosen(NetOf(f, g, params), tokens[..], start, t)
    modifies tokens
    ensures tokens[t] < g.V && forall i :: 0 <= i < t ==> tokens[i] == old(tokens[i])
    ensures AllChosen(NetOf(f, g, params), tokens[..], start, t + 1)
  {
    ghost var was, prefix := tokens[..], tokens[..t];
    assert prefix == was[..t];
    var next := NextToken(f, g, params, tokens[..t], junk);
    tokens[t] := next;
    assert tokens[..][..t] == prefix;
    Extended(NetOf(f, g, params), was, tokens[..], start, t);
  }

  ghost predicate ChosenAt(net: Net, tokens: seq<nat>, k: nat)
    requires net.NH > 0 && 0 < k < |tokens|
  {
    Chosen(net, tokens[..k], tokens[k])
  }

  ghost predicate AllChosen(net: Net, tokens: seq<nat>, start: nat, t: nat)
    requires net.NH > 0 && start > 0
  {
    forall k: nat :: start <= k < t && k < |tokens| ==> ChosenAt(net, tokens, k)
  }

  lemma Extended(net: Net, was: seq<nat>, now: seq<nat>, start: nat, t: nat)
    requires net.NH > 0 && start > 0 && AllChosen(net, was, start, t) && |now| == |was| > t >= start
    requires was[..t] == now[..t] && Chosen(net, was[..t], now[t])
    ensures AllChosen(net, now, start, t + 1)
  {
    forall k: nat | start <= k < t + 1 ensures ChosenAt(net, now, k) {
      if k < t { Kept(net, was, now, k, t); }
    }
  }

  lemma Kept(net: Net, was: seq<nat>, now: seq<nat>, k: nat, t: nat)
    requires net.NH > 0 && 0 < k < t < |was| && |now| == |was| && was[..t] == now[..t] && ChosenAt(net, was, k)
    ensures ChosenAt(net, now, k)
  {
    SamePrefix(was, now, k, t);
  }

  lemma SamePrefix(was: seq<nat>, now: seq<nat>, k: nat, t: nat)
    requires k < t <= |was| && |now| == |was| && was[..t] == now[..t]
    ensures was[..k] == now[..k] && was[k] == now[k]
  {
    assert now[..k] == now[..t][..k] && was[..k] == was[..t][..k];
    assert now[k] == now[..t][k] && was[k] == was[..t][k];
  }

  // Token k is what the row before it selects, in one pass over all tokens.
  ghost predicate SelfConsistent(net: Net, tokens: seq<nat>, start: nat)
    requires net.NH > 0
  {
    forall k: nat {:trigger tokens[k]} :: 0 < start <= k < |tokens| ==>
      Sampled(RowAt(Probs(net, Sequence(tokens)), k - 1), net.V, tokens[k])
  }

  lemma ChosenIsConsistent(net: Net, tokens: seq<nat>, start: nat)
    requires net.NH > 0 && net.C % net.NH == 0 && start > 0 && AllChosen(net, tokens, start, |tokens|)
    ensures SelfConsistent(net, tokens, start)
  {
    forall k: nat | start <= k < |tokens|
      ensures Sampled(RowAt(Probs(net, Sequence(tokens)), k - 1), net.V, tokens[k])
    {
      OnePass(net, tokens, k);
      assert ChosenAt(net, tokens, k);
    }
  }
}
