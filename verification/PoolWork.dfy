// The jobs and the memory: which row is where, and what the cells hold.

module PoolWork {
  import opened Matmul
  import opened Ring
  import opened Pool
  import opened PoolInvariant
  import opened PoolSafety

  // The arguments of the job a worker carries.
  function Claim(p: WorkerPc): Option<CalcArgs> { if Carries(p) then Some(p.args) else None }

  ghost predicate Work(cfg: Config, s: State)
    requires ValidConfig(cfg)
  {
    WellPlaced(cfg, s.main) && s.ring.Valid() && QueueInv(cfg, s) && CarryInv(cfg, s) && MemInv(cfg, s)
  }

  // A step that moves no job and writes no cell.
  ghost predicate Quiet(cfg: Config, s: State, s': State)
    requires WellPlaced(cfg, s.main)
  {
    && s'.ring == s.ring && s'.popped == s.popped && s'.mem == s.mem && |s'.workers| == |s.workers|
    && WellPlaced(cfg, s'.main) && InCall(s'.main) == InCall(s.main)
      && BasePhase(cfg, s'.main) == BasePhase(cfg, s.main)
    && (InCall(s.main) ==> PushedRows(cfg, s'.main) == PushedRows(cfg, s.main))
    && forall w :: 0 <= w < |s.workers| ==>
         Claim(s'.workers[w]) == Claim(s.workers[w])
         && (s'.workers[w] == s.workers[w] || !Calculates(s'.workers[w]) || (s'.workers[w].Start? && s'.workers[w].o ==
           0))
  }

  lemma QuietKeeps(cfg: Config, s: State, s': State)
    requires ValidConfig(cfg) && Work(cfg, s) && Quiet(cfg, s, s')
    ensures Work(cfg, s')
  {
    if InCall(s.main) {
      forall r: nat | Carried(s.workers, r) ensures Carried(s'.workers, r) {
        var w :| 0 <= w < |s.workers| && Carries(s.workers[w]) && s.workers[w].args.row == r;
        assert Claim(s'.workers[w]) == Claim(s.workers[w]);
      }
    }
  }

  lemma AnnounceQuiet(cfg: Config, s: State)
    requires WellPlaced(cfg, s.main) && Announcing(s.main)
    ensures Quiet(cfg, s, AnnounceStep(s, Rows(CurrentCall(cfg, s.main))))
  {
  }

  lemma BroadcastQuiet(cfg: Config, s: State)
    requires WellPlaced(cfg, s.main) && Pushing(s.main) && !s.main.Push? && MainSafe(cfg, s)
    ensures Quiet(cfg, s, PushStep(cfg, s))
  {
  }

  lemma DrainQuiet(cfg: Config, s: State)
    requires WellPlaced(cfg, s.main) && Draining(s.main) && !s.main.DoneUnlock?
    ensures Quiet(cfg, s, DrainStep(s))
  {
  }

  lemma ShutdownQuiet(cfg: Config, s: State)
    requires WellPlaced(cfg, s.main) && ShuttingDown(s.main)
    ensures Quiet(cfg, s, ShutdownStep(s))
  {
  }

  lemma WaitQuiet(cfg: Config, s: State, w: nat)
    requires WellPlaced(cfg, s.main) && w < |s.workers| && Waits(s.workers[w])
    ensures Quiet(cfg, s, WaitStep(s, w))
  {
  }

  lemma TakeQuiet(cfg: Config, s: State, w: nat)
    requires WellPlaced(cfg, s.main) && w < |s.workers| && Takes(s.workers[w]) && !s.workers[w].Pop? && WorkerSafe(s, w)
    ensures Quiet(cfg, s, TakeStep(s, w))
  {
  }

  lemma RetireQuiet(cfg: Config, s: State, w: nat)
    requires WellPlaced(cfg, s.main) && w < |s.workers| && Retires(s.workers[w])
    ensures Quiet(cfg, s, RetireStep(s, w))
  {
  }

  lemma SpuriousQuiet(cfg: Config, s: State, t: Tid)
    requires WellPlaced(cfg, s.main) && Enabled(cfg, s, Spurious(t))
    ensures Quiet(cfg, s, Apply(cfg, s, Spurious(t)))
  {
  }

  // ---- the steps that do something ----

  // A phase begins or is run by the main thread alone.
  lemma PhaseKeeps(cfg: Config, s: State)
    requires ValidConfig(cfg) && Work(cfg, s) && RingInv(s) && RemainInv(s) && s.main.Phase?
    ensures Work(cfg, PhaseStep(cfg, s))
  {
    InFlightZero(s.workers);
  }

  lemma PushKeeps(cfg: Config, s: State)
    requires ValidConfig(cfg) && Work(cfg, s) && s.main.Push? && MainSafe(cfg, s)
    ensures Work(cfg, PushStep(cfg, s))
  {
  }

  // The end of a call: no job is left, so every row is done.
  lemma CallEnds(cfg: Config, s: State)
    requires ValidConfig(cfg) && Work(cfg, s) && RemainInv(s) && s.main.DoneUnlock?
    ensures Work(cfg, DrainStep(s))
  {
    InFlightZero(s.workers);
    var c := CurrentCall(cfg, s.main);
    var base := SeqMem(cfg, s.main.k);
    forall x | 0 <= x < |s.mem| ensures s.mem[x] == MatmulCell(base, c, x) {
      if InOut(c, x) && c.OC > 0 {
        CellRow(c, x);
        var r := (x - c.out) / c.OC;
        assert !Carried(s.workers, r);
        assert PrefixDone(base, s.mem, Args(c, r), c.OC);
      }
    }
    assert s.mem == MatmulSpec(base, c);
  }

  // The oldest queued row changes hands.
  lemma PopKeeps(cfg: Config, s: State, w: nat)
    requires ValidConfig(cfg) && Work(cfg, s) && RingInv(s) && RemainInv(s)
    requires w < |s.workers| && s.workers[w].Pop? && WorkerSafe(s, w)
    ensures Work(cfg, TakeStep(s, w))
  {
    hide SeqMem, PrefixDone;
    var s' := TakeStep(s, w);
    var c := CurrentCall(cfg, s.main);
    var (args, ring) := s.ring.Pop();
    assert s.ring.Contents()[0] == Args(c, s.popped) == args;
    forall i | 0 <= i < ring.count ensures ring.Contents()[i] == Args(c, s'.popped + i) {
      assert ring.Contents()[i] == s.ring.Contents()[i + 1];
    }
    StillCarried(s, s', w);
    assert s'.workers[w].args.row == s.popped && Carried(s'.workers, s.popped);
  }

  // Rows carried by the other workers stay carried.
  lemma StillCarried(s: State, s': State, w: nat)
    requires w < |s.workers| == |s'.workers| && (forall v :: 0 <= v < |s.workers| && v != w ==>
      s'.workers[v] == s.workers[v])
    ensures forall r: nat :: Carried(s.workers, r) && !(Carries(s.workers[w]) && s.workers[w].args.row == r) ==>
      Carried(s'.workers, r)
  {
    forall r: nat | Carried(s.workers, r) && !(Carries(s.workers[w]) && s.workers[w].args.row == r)
      ensures Carried(s'.workers, r)
    {
      var v :| 0 <= v < |s.workers| && Carries(s.workers[v]) && s.workers[v].args.row == r;
      assert s'.workers[v] == s.workers[v];
    }
  }

  // calc without a store: the partial sum grows, or the row is complete.
  lemma SumKeeps(cfg: Config, s: State, w: nat)
    requires ValidConfig(cfg) && Work(cfg, s) && w < |s.workers| && Calculates(s.workers[w]) && WorkerSafe(s, w)
    requires s.workers[w].Mac? ==> s.workers[w].i < s.workers[w].args.C
    ensures Work(cfg, CalcStep(s, w))
  {
    hide SeqMem;
    var s' := CalcStep(s, w);
    var c := CurrentCall(cfg, s.main);
    var base := SeqMem(cfg, s.main.k);
    var p := s.workers[w];
    StillCarried(s, s', w);
    assert ValidPhase(cfg.program[s.main.k], |cfg.mem|);
    assert WorkerMem(base, s.mem, p);
    if s'.workers[w].Mac? {
      assert Carried(s'.workers, p.args.row);
      SumIsDot(base, s, w, c);
    }
  }

  lemma SumIsDot(base: Memory, s: State, w: nat, c: Call)
    requires ValidCall(c, |s.mem|) && CallMem(base, s, c) && w < |s.workers| && Calculates(s.workers[w])
      && WorkerSafe(s, w)
    requires s.workers[w].args.row < Rows(c) && s.workers[w].args == Args(c, s.workers[w].args.row)
    requires s.workers[w].o < c.OC && (s.workers[w].Mac? ==> s.workers[w].i < c.C)
    ensures CalcStep(s, w).workers[w].Mac? && WorkerMem(base, s.mem, CalcStep(s, w).workers[w])
  {
    var p := s.workers[w];
    var a := p.args;
    assert WorkerMem(base, s.mem, p);
    if p.Start? {
      DotFrame(s.mem, base, c, a.row, p.o, 0);
    } else {
      ReadsAreInputs(c, a.row, p.o, p.i);
      assert s.mem[InpCell(a, p.i)] == base[InpCell(a, p.i)];
      assert s.mem[WeightCell(a, p.o, p.i)] == base[WeightCell(a, p.o, p.i)];
    }
  }

  // A store: one more output of this row is done, and no other row is touched.
  lemma StoreKeeps(cfg: Config, s: State, w: nat)
    requires ValidConfig(cfg) && Work(cfg, s) && w < |s.workers| && WorkerSafe(s, w)
    requires s.workers[w].Mac? && s.workers[w].i >= s.workers[w].args.C
    ensures Work(cfg, CalcStep(s, w))
  {
    hide SeqMem;
    var s' := CalcStep(s, w);
    var c := CurrentCall(cfg, s.main);
    var base := SeqMem(cfg, s.main.k);
    var p := s.workers[w];
    StillCarried(s, s', w);
    assert WorkerMem(base, s.mem, p);
    RowCell(c, p.args.row, p.o);
    assert s'.workers[w] == Start(p.args, p.o + 1) && Carries(s'.workers[w]);
    assert PrefixDone(base, s'.mem, p.args,
      p.o + 1) by { StoreFrame(base, s.mem, s'.mem, c, p.args.row, p.o, p.args.row, p.o); }
    forall r: nat | r < s.popped && !Carried(s'.workers, r) ensures PrefixDone(base, s'.mem, Args(c, r), c.OC) {
      StoreFrame(base, s.mem, s'.mem, c, p.args.row, p.o, r, c.OC);
    }
    forall v | 0 <= v < |s.workers| ensures WorkerMem(base, s'.mem, s'.workers[v]) {
      if v != w && Calculates(s.workers[v]) {
        assert WorkerMem(base, s.mem, s.workers[v]);
        StoreFrame(base, s.mem, s'.mem, c, p.args.row, p.o, s.workers[v].args.row, s.workers[v].o);
      }
    }
  }

  // Writing output o of one row leaves the finished prefix of any row alone, as long as that
  // prefix does not reach the written cell.
  lemma StoreFrame(base: Memory, m: Memory, m': Memory, c: Call, row: nat, o: nat, r: nat, n: nat)
    requires row < Rows(c) && o < c.OC && r < Rows(c) && n <= c.OC && (r == row ==> n <= o)
    requires PrefixDone(base, m, Args(c, r), n)
    requires |m'| == |m| && OutCell(Args(c, row), o) < |m|
    requires forall x: nat :: x < |m| && x != OutCell(Args(c, row), o) ==> m'[x] == m[x]
    ensures PrefixDone(base, m', Args(c, r), n)
  {
    forall p: nat | p < n ensures At(m', OutCell(Args(c, r), p)) == Dot(base, Args(c, r), p, c.C) {
      RowsDisjoint(c, row, o, r, p);
    }
  }
}
