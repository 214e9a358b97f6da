// The inductive invariant of the thread pool.

module PoolInvariant {
  import opened Matmul
  import opened Ring
  import opened Pool

  // ---- bookkeeping read off the program counters ----

  // Rows pushed so far in the current call.
  function PushedRows(cfg: Config, m: MainPc): nat
    requires InCall(m) && m.k < |cfg.program| && cfg.program[m.k].Parallel?
  {
    match m
    case Pushed(_, r) => r + 1
    case PushSignalled(_, r) => r + 1
    case Row(_, r) => r
    case Inc(_, r) => r
    case FullTest(_, r) => r
    case FullAsleep(_, r) => r
    case FullAwake(_, r) => r
    case Push(_, r) => r
    case _ => Rows(CurrentCall(cfg, m))
  }

  // 1 while the current row is counted in `remaining` but not yet in the ring.
  function Announced(m: MainPc): nat {
    if m.FullTest? || m.FullAsleep? || m.FullAwake? || m.Push? then 1 else 0
  }

  // The worker holds a popped job whose row is not finished.
  predicate Carries(p: WorkerPc) { p.Popped? || p.PopSignalled? || p.Start? || p.Mac? }

  // The worker has popped a job that it has not yet subtracted from `remaining`.
  predicate Owes(p: WorkerPc) { Carries(p) || p.Computed? || p.Dec? }

  function InFlight(ws: seq<WorkerPc>): nat {
    if ws == [] then 0 else InFlight(ws[..|ws| - 1]) + (if Owes(ws[|ws| - 1]) then 1 else 0)
  }

  predicate Carried(ws: seq<WorkerPc>, row: nat) {
    exists w :: 0 <= w < |ws| && Carries(ws[w]) && ws[w].args.row == row
  }

  // ---- the invariant, clause by clause ----

  ghost predicate LockInv(s: State) {
    && (s.lock == Some(Main) <==> MainHolds(s.main))
    && (forall w :: 0 <= w < |s.workers| ==> (WorkerHolds(s.workers[w]) <==> s.lock == Some(Worker(w))))
    && (s.lock.Some? && s.lock.value.Worker? ==> s.lock.value.w < |s.workers|)
  }

  // The ring is well formed, and the two ring operations are reached only when they may run.
  ghost predicate RingInv(s: State) {
    && s.ring.Valid() && |s.workers| > 0
    && (s.main.Push? ==> s.ring.count < |s.ring.cells|)
    && (forall w :: 0 <= w < |s.workers| && s.workers[w].Pop? ==> s.ring.count > 0 && !s.finished)
  }

  // `remaining` counts the buffered jobs, the popped but uncounted ones, and the row that the
  // main thread has announced but not pushed yet.
  ghost predicate RemainInv(s: State) {
    && s.remaining == s.ring.count + InFlight(s.workers) + Announced(s.main)
    && (!InCall(s.main) || s.main.DoneUnlock? ==> s.remaining == 0)
  }

  // The ring holds the rows from `popped` up to the last one pushed, in order.
  ghost predicate QueueInv(cfg: Config, s: State)
    requires WellPlaced(cfg, s.main) && s.ring.Valid()
  {
    InCall(s.main) ==>
      && PushedRows(cfg, s.main) == s.popped + s.ring.count
      && (forall i :: 0 <= i < s.ring.count ==> s.ring.Contents()[i] == Args(CurrentCall(cfg, s.main), s.popped + i))
  }

  ghost predicate CarryInv(cfg: Config, s: State)
    requires WellPlaced(cfg, s.main)
  {
    && (forall w :: 0 <= w < |s.workers| && Carries(s.workers[w]) ==>
          InCall(s.main) && s.workers[w].args.row < s.popped
          && s.workers[w].args == Args(CurrentCall(cfg, s.main), s.workers[w].args.row))
    && (forall v, w :: 0 <= v < w < |s.workers| && Carries(s.workers[v]) && Carries(s.workers[w]) ==>
          s.workers[v].args.row != s.workers[w].args.row)
  }

  predicate Finished(m: MainPc) { m.FinBroadcast? || m.FinUnlock? || m.Join? || m.Returned? }

  ghost predicate FinishInv(s: State) {
    && (s.finished <==> Finished(s.main))
    && (forall w :: 0 <= w < |s.workers| && (s.workers[w].Quit? || s.workers[w].Exited?) ==> s.finished)
    && (s.main.Returned? ==> forall w :: 0 <= w < |s.workers| ==> s.workers[w] == Exited)
  }

  // The lock holder has changed the shared state and is about to broadcast.
  ghost predicate Pending(s: State)
    requires LockInv(s)
  {
    match s.lock
    case None => false
    case Some(Main) => s.main.Pushed? || s.main.FinBroadcast?
    case Some(Worker(w)) => s.workers[w].Popped? || s.workers[w].Deced?
  }

  // Sleepers' conditions hold, unless a broadcast is on its way.
  ghost predicate WakeInv(s: State)
    requires LockInv(s)
  {
    !Pending(s) ==>
      && (forall w :: 0 <= w < |s.workers| && s.workers[w].Asleep? ==> s.ring.count == 0 && !s.finished)
      && (s.main.FullAsleep? ==> s.ring.count == |s.ring.cells|)
      && (s.main.DoneAsleep? ==> s.remaining > 0)
  }

  // The first o outputs of the row described by a hold the sequential sums over `base`.
  ghost predicate PrefixDone(base: Memory, mem: Memory, a: CalcArgs, o: nat) {
    forall p: nat :: p < o ==> At(mem, OutCell(a, p)) == Dot(base, a, p, a.C)
  }

  ghost predicate WorkerMem(base: Memory, mem: Memory, p: WorkerPc) {
    match p
    case Start(a, o) => o <= a.OC && PrefixDone(base, mem, a, o)
    case Mac(a, o, i, val) => o < a.OC && i <= a.C && PrefixDone(base, mem, a, o) && val == Dot(base, a, o, i)
    case _ => true
  }

  ghost predicate CallMem(base: Memory, s: State, c: Call) {
    && |s.mem| == |base|
    && (forall x: nat :: x < |s.mem| && !InOut(c, x) ==> s.mem[x] == base[x])
    && (forall r: nat :: r < s.popped && !Carried(s.workers, r) ==> PrefixDone(base, s.mem, Args(c, r), c.OC))
    && (forall w :: 0 <= w < |s.workers| ==> WorkerMem(base, s.mem, s.workers[w]))
  }

  // The phase whose starting memory is the reference for the current memory.
  function BasePhase(cfg: Config, m: MainPc): nat {
    if InCall(m) || m.Phase? then m.k else |cfg.program|
  }

  ghost predicate MemInv(cfg: Config, s: State)
    requires ValidConfig(cfg) && WellPlaced(cfg, s.main)
  {
    var base := SeqMem(cfg, BasePhase(cfg, s.main));
    if InCall(s.main) then CallMem(base, s, CurrentCall(cfg, s.main)) else s.mem == base
  }

  ghost predicate Inv(cfg: Config, s: State)
    requires ValidConfig(cfg)
  {
    && WellPlaced(cfg, s.main) && LockInv(s) && RingInv(s) && RemainInv(s) && QueueInv(cfg, s) && CarryInv(cfg, s)
    && FinishInv(s) && WakeInv(s) && MemInv(cfg, s)
  }

  // ---- the in-flight count ----

  lemma {:induction false} InFlightUpdate(ws: seq<WorkerPc>, w: nat, p: WorkerPc)
    requires w < |ws|
    ensures InFlight(ws[w := p]) == InFlight(ws) - (if Owes(ws[w]) then 1 else 0) + (if Owes(p) then 1 else 0)
  {
    var n := |ws| - 1;
    if w < n {
      assert ws[w := p][..n] == ws[..n][w := p];
      InFlightUpdate(ws[..n], w, p);
    } else {
      assert ws[w := p][..n] == ws[..n];
    }
  }

  lemma {:induction false} InFlightWake(ws: seq<WorkerPc>)
    ensures InFlight(WakeAll(ws)) == InFlight(ws)
  {
    if ws != [] {
      var n := |ws| - 1;
      assert WakeAll(ws)[..n] == WakeAll(ws[..n]);
      InFlightWake(ws[..n]);
    }
  }

  lemma {:induction false} InFlightZero(ws: seq<WorkerPc>)
    ensures InFlight(ws) == 0 <==> forall w :: 0 <= w < |ws| ==> !Owes(ws[w])
  {
    if ws != [] {
      var n := |ws| - 1;
      InFlightZero(ws[..n]);
      assert forall w :: 0 <= w < n ==> ws[..n][w] == ws[w];
      assert ws[n] == ws[|ws| - 1];
    }
  }

  // ---- initial states ----

  lemma InitInv(cfg: Config, s: State)
    requires ValidConfig(cfg) && Init(cfg, s)
    ensures Inv(cfg, s)
  {
    InFlightZero(s.workers);
  }

  // ---- safety of the next step ----

  lemma InvIsSafe(cfg: Config, s: State, e: Event)
    requires ValidConfig(cfg) && Inv(cfg, s) && Enabled(cfg, s, e)
    ensures Safe(cfg, s, e)
  {
    if e.Run? && e.t.Worker? {
      var w := e.t.w;
      if s.workers[w].Start? || s.workers[w].Mac? {
        var c := CurrentCall(cfg, s.main);
        assert ValidPhase(cfg.program[s.main.k], |cfg.mem|);
        assert WorkerMem(SeqMem(cfg, s.main.k), s.mem, s.workers[w]);
        CalcIsSafe(cfg, s, w, c);
      } else if s.workers[w].Quit? {
        assert !InCall(s.main);
      }
    }
  }

  lemma CalcIsSafe(cfg: Config, s: State, w: nat, c: Call)
    requires w < |s.workers| && ValidCall(c, |s.mem|)
    requires Carries(s.workers[w]) && s.workers[w].args.row < Rows(c)
      && s.workers[w].args == Args(c, s.workers[w].args.row)
    requires s.workers[w].Start? || (s.workers[w].Mac? && s.workers[w].o < c.OC)
    ensures WorkerSafe(s, w)
  {
    ValidRowIsSafe(c, s.workers[w].args.row, |s.mem|);
    var a := s.workers[w].args;
    var o := s.workers[w].o;
    if s.workers[w].Mac? && s.workers[w].i < a.C {
      assert SafeRead(a, InpCell(a, s.workers[w].i), |s.mem|);
      assert SafeRead(a, WeightCell(a, o, s.workers[w].i), |s.mem|);
    }
    if a.bias.Some? && o < a.OC { assert SafeRead(a, BiasCell(a.bias.value, o), |s.mem|); }
  }
}
