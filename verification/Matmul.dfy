// The arithmetic of one matmul_forward call (M3-gpt/gpt.c): which rows it has, what
// calc computes for one row, and what the sequential loops would leave in memory.

module Matmul {
  import opened Arith

  datatype Option<T> = None | Some(value: T)

  // All tensors are slices of one flat memory; a pointer is an offset into it.
  type Memory = seq<real>

  // calc_args. `row` names the (b,t) pair the arguments were built for; no step reads it.
  datatype CalcArgs = CalcArgs(row: nat, outBt: nat, inpBt: nat, weight: nat, bias: Option<nat>, C: nat, OC: nat)

  // The parameters of one matmul_forward call.
  datatype Call = Call(out: nat, inp: nat, weight: nat, bias: Option<nat>, B: nat, T: nat, C: nat, OC: nat)

  function Rows(c: Call): nat { c.B * c.T }

  // The arguments built in iteration (b, t) of the two outer loops.
  function ArgsAt(c: Call, b: nat, t: nat): CalcArgs {
    CalcArgs(b * c.T + t, c.out + b * c.T * c.OC + t * c.OC, c.inp + b * c.T * c.C + t * c.C, c.weight, c.bias, c.C,
      c.OC)
  }

  // The same arguments, by position in the order in which the loops visit (b, t).
  function Args(c: Call, row: nat): CalcArgs {
    CalcArgs(row, c.out + row * c.OC, c.inp + row * c.C, c.weight, c.bias, c.C, c.OC)
  }

  lemma ArgsAtIsArgs(c: Call, b: nat, t: nat)
    requires b < c.B && t < c.T
    ensures b * c.T + t < Rows(c)
    ensures ArgsAt(c, b, t) == Args(c, b * c.T + t)
  {
    MulMono(b + 1, c.B, c.T);
    MulDist(b, 1, c.T);
    MulDist(b * c.T, t, c.OC);
    MulDist(b * c.T, t, c.C);
  }

  function At(mem: Memory, a: nat): real { if a < |mem| then mem[a] else 0.0 }

  // The cells that calc reads and writes for output o and step i.
  function InpCell(a: CalcArgs, i: nat): nat { a.inpBt + i }
  function WeightCell(a: CalcArgs, o: nat, i: nat): nat { a.weight + o * a.C + i }
  function BiasCell(p: nat, o: nat): nat { p + o }
  function OutCell(a: CalcArgs, o: nat): nat { a.outBt + o }

  function BiasOf(mem: Memory, a: CalcArgs, o: nat): real {
    match a.bias case None => 0.0 case Some(p) => At(mem, BiasCell(p, o))
  }

  // The value of `val` in calc after i iterations of the inner loop, for output o.
  function Dot(mem: Memory, a: CalcArgs, o: nat, i: nat): real {
    if i == 0 then BiasOf(mem, a, o)
    else Dot(mem, a, o, i - 1) + At(mem, InpCell(a, i - 1)) * At(mem, WeightCell(a, o, i - 1))
  }

  predicate InSlice(x: nat, base: nat, len: nat) { base <= x < base + len }

  predicate InOut(c: Call, x: nat) { InSlice(x, c.out, Rows(c) * c.OC) }

  predicate InInputs(c: Call, x: nat) {
    || InSlice(x, c.inp, Rows(c) * c.C)
    || InSlice(x, c.weight, c.OC * c.C)
    || (c.bias.Some? && InSlice(x, c.bias.value, c.OC))
  }

  // The slices lie in memory and the output overlaps none of the inputs.
  ghost predicate ValidCall(c: Call, size: nat) {
    && c.out + Rows(c) * c.OC <= size
    && c.inp + Rows(c) * c.C <= size
    && c.weight + c.OC * c.C <= size
    && (c.bias.Some? ==> c.bias.value + c.OC <= size)
    && (forall x: nat :: InOut(c, x) ==> !InInputs(c, x))
  }

  // Memory after the sequential loops: cell (row, o) of the output holds bias[o] plus the
  // products in order of i, and every other cell is unchanged.
  function MatmulCell(mem: Memory, c: Call, x: nat): real {
    if InOut(c, x) && c.OC > 0
    then Dot(mem, Args(c, (x - c.out) / c.OC), (x - c.out) % c.OC, c.C)
    else At(mem, x)
  }

  function MatmulSpec(mem: Memory, c: Call): (r: Memory)
    ensures |r| == |mem|
  {
    seq(|mem|, x requires 0 <= x < |mem| => MatmulCell(mem, c, x))
  }

  // ---- addresses ----

  lemma RowCell(c: Call, row: nat, o: nat)
    requires row < Rows(c) && o < c.OC
    ensures InOut(c, OutCell(Args(c, row), o))
    ensures (row * c.OC + o) / c.OC == row && (row * c.OC + o) % c.OC == o
  {
    MulMono(row + 1, Rows(c), c.OC);
    MulDist(row, 1, c.OC);
    DivModUnique(row, o, c.OC);
  }

  // The whole row lies in the output slice.
  lemma OutRowInOut(c: Call, row: nat)
    requires row < Rows(c)
    ensures c.out + row * c.OC + c.OC <= c.out + Rows(c) * c.OC
  {
    MulMono(row + 1, Rows(c), c.OC);
    MulDist(row, 1, c.OC);
  }

  // Output cells of different rows are different cells.
  lemma RowsDisjoint(c: Call, r1: nat, o1: nat, r2: nat, o2: nat)
    requires r1 < Rows(c) && r2 < Rows(c) && o1 < c.OC && o2 < c.OC
    ensures OutCell(Args(c, r1), o1) == OutCell(Args(c, r2), o2) ==> r1 == r2 && o1 == o2
  {
    DivModUnique(r1, o1, c.OC);
    DivModUnique(r2, o2, c.OC);
  }

  // Every cell of the output belongs to some row.
  lemma CellRow(c: Call, x: nat)
    requires InOut(c, x) && c.OC > 0
    ensures (x - c.out) / c.OC < Rows(c) && (x - c.out) % c.OC < c.OC
    ensures x == OutCell(Args(c, (x - c.out) / c.OC), (x - c.out) % c.OC)
  {
    var q := (x - c.out) / c.OC;
    MulMono(Rows(c), q, c.OC);
  }

  // Reading the operands of one row touches only the input slices.
  lemma ReadsAreInputs(c: Call, row: nat, o: nat, i: nat)
    requires row < Rows(c) && o < c.OC && i < c.C
    ensures InInputs(c, InpCell(Args(c, row), i)) && InInputs(c, WeightCell(Args(c, row), o, i))
  {
    MulMono(row + 1, Rows(c), c.C);
    MulMono(o + 1, c.OC, c.C);
    MulDist(row, 1, c.C);
    MulDist(o, 1, c.C);
  }

  // Memories that agree outside the output slice give the same sums.
  lemma {:induction false} DotFrame(m1: Memory, m2: Memory, c: Call, row: nat, o: nat, i: nat)
    requires ValidCall(c, |m1|) && |m1| == |m2| && row < Rows(c) && o < c.OC && i <= c.C
    requires forall x: nat :: x < |m1| && !InOut(c, x) ==> m1[x] == m2[x]
    ensures Dot(m1, Args(c, row), o, i) == Dot(m2, Args(c, row), o, i)
  {
    if i == 0 {
      if c.bias.Some? { assert InInputs(c, BiasCell(c.bias.value, o)); }
    } else {
      DotFrame(m1, m2, c, row, o, i - 1);
      ReadsAreInputs(c, row, o, i - 1);
    }
  }

  // ---- calc ----

  // The operands of one row are in memory and outside the row being written.
  ghost predicate SafeRow(args: CalcArgs, size: nat) {
    && args.outBt + args.OC <= size
    && (forall i: nat :: i < args.C ==> SafeRead(args, InpCell(args, i), size))
    && (forall o: nat, i: nat :: o < args.OC && i < args.C ==> SafeRead(args, WeightCell(args, o, i), size))
    && (args.bias.Some? ==> forall o: nat :: o < args.OC ==> SafeRead(args, BiasCell(args.bias.value, o), size))
  }

  ghost predicate SafeRead(args: CalcArgs, x: nat, size: nat) { x < size && !InSlice(x, args.outBt, args.OC) }

  lemma ValidRowIsSafe(c: Call, row: nat, size: nat)
    requires ValidCall(c, size) && row < Rows(c)
    ensures SafeRow(Args(c, row), size)
  {
    var args := Args(c, row);
    OutRowInOut(c, row);
    forall x: nat | InInputs(c, x) ensures SafeRead(args, x, size) {
      InputIsSafe(c, row, x, size);
    }
    forall i: nat | i < args.C ensures InInputs(c, InpCell(args, i)) {
      MulMono(row + 1, Rows(c), c.C);
      MulDist(row, 1, c.C);
    }
    forall o: nat, i: nat | o < args.OC && i < args.C ensures InInputs(c, WeightCell(args, o, i)) {
      ReadsAreInputs(c, row, o, i);
    }
  }

  lemma InputIsSafe(c: Call, row: nat, x: nat, size: nat)
    requires ValidCall(c, size) && row < Rows(c) && InInputs(c, x)
    ensures SafeRead(Args(c, row), x, size)
  {
    OutRowInOut(c, row);
    assert InOut(c, x) <==> c.out <= x < c.out + Rows(c) * c.OC;
  }

  // calc: computes one row of the output in place.
  method Calc(mem: array<real>, args: CalcArgs)
    requires SafeRow(args, mem.Length)
    modifies mem
    ensures forall x: nat :: x < mem.Length && !InSlice(x, args.outBt, args.OC) ==> mem[x] == old(mem[x])
    ensures forall o: nat :: o < args.OC ==> mem[OutCell(args, o)] == Dot(old(mem[..]), args, o, args.C)
  {
    ghost var m0 := mem[..];
    var o := 0;
    while o < args.OC
      invariant 0 <= o <= args.OC
      invariant forall x: nat :: x < mem.Length && !InSlice(x, args.outBt, args.OC) ==> mem[x] == m0[x]
      invariant forall p: nat :: p < o ==> mem[OutCell(args, p)] == Dot(m0, args, p, args.C)
    {
      assert args.bias.Some? ==> SafeRead(args, BiasCell(args.bias.value, o), mem.Length);
      var val := if args.bias.Some? then mem[args.bias.value + o] else 0.0;
      var wrow := args.weight + o * args.C;
      var i := 0;
      while i < args.C
        invariant 0 <= i <= args.C
        invariant val == Dot(m0, args, o, i)
      {
        assert SafeRead(args, InpCell(args, i), mem.Length);
        assert SafeRead(args, WeightCell(args, o, i), mem.Length);
        val := val + mem[args.inpBt + i] * mem[wrow + i];
        i := i + 1;
      }
      mem[args.outBt + o] := val;
      o := o + 1;
    }
  }
}
