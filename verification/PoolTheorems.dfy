// What holds in every reachable state, for every program, number of workers and capacity.

module PoolTheorems {
  import opened Matmul
  import opened Ring
  import opened Pool
  import opened PoolInvariant
  import opened PoolSafety
  import opened PoolWork

  lemma WorkKept(cfg: Config, s: State, e: Event)
    requires ValidConfig(cfg) && Inv(cfg, s) && Enabled(cfg, s, e) && Safe(cfg, s, e)
    ensures Work(cfg, Apply(cfg, s, e))
  {
    var s' := Apply(cfg, s, e);
    match e {
      case Spurious(t) => SpuriousQuiet(cfg, s, t); QuietKeeps(cfg, s, s');
      case Run(Main) =>
        if s.main.Phase? { PhaseKeeps(cfg, s); }
        else if Announcing(s.main) { AnnounceQuiet(cfg, s); QuietKeeps(cfg, s, s'); }
        else if s.main.Push? { PushKeeps(cfg, s); }
        else if Pushing(s.main) { BroadcastQuiet(cfg, s); QuietKeeps(cfg, s, s'); }
        else if s.main.DoneUnlock? { CallEnds(cfg, s); }
        else if Draining(s.main) { DrainQuiet(cfg, s); QuietKeeps(cfg, s, s'); }
        else { ShutdownQuiet(cfg, s); QuietKeeps(cfg, s, s'); }
      case Run(Worker(w)) =>
        var p := s.workers[w];
        if Waits(p) { WaitQuiet(cfg, s, w); QuietKeeps(cfg, s, s'); }
        else if p.Pop? { PopKeeps(cfg, s, w); }
        else if Takes(p) { TakeQuiet(cfg, s, w); QuietKeeps(cfg, s, s'); }
        else if p.Start? || (p.Mac? && p.i < p.args.C) { SumKeeps(cfg, s, w); }
        else if p.Mac? { StoreKeeps(cfg, s, w); }
        else { RetireQuiet(cfg, s, w); QuietKeeps(cfg, s, s'); }
    }
  }

  lemma StepKeepsInv(cfg: Config, s: State, e: Event)
    requires ValidConfig(cfg) && Inv(cfg, s) && Enabled(cfg, s, e) && Safe(cfg, s, e)
    ensures Inv(cfg, Apply(cfg, s, e))
  {
    var s' := Apply(cfg, s, e);
    ApplyEffect(cfg, s, e);
    LockKept(s, s', e.t);
    WakeKept(s, s', e.t);
    FinishKept(s, s', e.t);
    RingKept(s, s', e.t);
    RemainKept(s, s', e.t);
    WorkKept(cfg, s, e);
  }

  lemma {:induction false} RunKeepsInv(cfg: Config, states: seq<State>, events: seq<Event>, n: nat)
    requires ValidConfig(cfg) && IsRun(cfg, states, events) && n < |states|
    ensures Inv(cfg, states[n])
  {
    if n == 0 {
      InitInv(cfg, states[0]);
    } else {
      RunKeepsInv(cfg, states, events, n - 1);
      assert Moves(cfg, states[n - 1], events[n - 1], states[n]);
      StepKeepsInv(cfg, states[n - 1], events[n - 1]);
    }
  }

  ghost predicate Reachable(cfg: Config, s: State) {
    exists states: seq<State>, events: seq<Event> :: IsRun(cfg, states, events) && states[|events|] == s
  }

  lemma ReachableInv(cfg: Config, s: State)
    requires ValidConfig(cfg) && Reachable(cfg, s)
    ensures Inv(cfg, s)
  {
    var states: seq<State>, events: seq<Event> :| IsRun(cfg, states, events) && states[|events|] == s;
    RunKeepsInv(cfg, states, events, |events|);
  }

  // ---- safety ----

  // No assertion of the source can fail, the ring is never overrun or underrun, and calc
  // never leaves memory, whatever the schedule.
  lemma NoFault(cfg: Config, s: State, e: Event)
    requires ValidConfig(cfg) && Reachable(cfg, s) && Enabled(cfg, s, e)
    ensures Safe(cfg, s, e)
  {
    ReachableInv(cfg, s);
    InvIsSafe(cfg, s, e);
  }

  // Whenever the main thread is between two phases, or has shut the pool down, memory is
  // exactly what the single-threaded program has at that point.
  lemma SequentialResult(cfg: Config, s: State)
    requires ValidConfig(cfg) && Reachable(cfg, s)
    ensures s.main.Phase? ==> s.main.k <= |cfg.program| && s.mem == SeqMem(cfg, s.main.k)
    ensures s.main == Returned ==> s.mem == SeqMem(cfg, |cfg.program|)
  {
    ReachableInv(cfg, s);
  }

  // In particular, the call that has just returned wrote bias plus products to every output
  // cell, in the order of the sequential loops, and nothing else.
  lemma CallResult(cfg: Config, s: State, c: Call)
    requires ValidConfig(cfg) && Reachable(cfg, s)
    requires s.main.Phase? && 0 < s.main.k <= |cfg.program| && cfg.program[s.main.k - 1] == Parallel(c)
    ensures forall b: nat, t: nat, o: nat :: b < c.B && t < c.T && o < c.OC ==>
      At(s.mem, OutCell(ArgsAt(c, b, t), o)) == Dot(SeqMem(cfg, s.main.k - 1), ArgsAt(c, b, t), o, c.C)
    ensures |s.mem| == |cfg.mem| && forall x: nat :: x < |s.mem| && !InOut(c, x) ==>
      s.mem[x] == SeqMem(cfg, s.main.k - 1)[x]
  {
    ReachableInv(cfg, s);
    var base := SeqMem(cfg, s.main.k - 1);
    assert s.mem == MatmulSpec(base, c);
    assert ValidPhase(cfg.program[s.main.k - 1], |cfg.mem|);
    forall b: nat, t: nat, o: nat | b < c.B && t < c.T && o < c.OC
      ensures At(s.mem, OutCell(ArgsAt(c, b, t), o)) == Dot(base, ArgsAt(c, b, t), o, c.C)
    {
      ArgsAtIsArgs(c, b, t);
      RowCell(c, b * c.T + t, o);
    }
  }

  // Two jobs computing at the same time never share an output cell, and neither reads a cell
  // that the other writes.
  lemma RunningJobsAreIndependent(cfg: Config, s: State, v: nat, w: nat, p: nat, q: nat)
    requires ValidConfig(cfg) && Reachable(cfg, s) && v < |s.workers| && w < |s.workers| && v != w
    requires Carries(s.workers[v]) && Carries(s.workers[w])
    requires p < s.workers[v].args.OC && q < s.workers[w].args.OC
    ensures OutCell(s.workers[v].args, p) != OutCell(s.workers[w].args, q)
    ensures SafeRow(s.workers[v].args, |s.mem|)
    ensures InCall(s.main) && s.main.k < |cfg.program| && cfg.program[s.main.k].Parallel?
    ensures !InInputs(cfg.program[s.main.k].call, OutCell(s.workers[v].args, p))
  {
    ReachableInv(cfg, s);
    var c := CurrentCall(cfg, s.main);
    assert ValidPhase(cfg.program[s.main.k], |cfg.mem|);
    RowsDisjoint(c, s.workers[v].args.row, p, s.workers[w].args.row, q);
    RowCell(c, s.workers[v].args.row, p);
    ValidRowIsSafe(c, s.workers[v].args.row, |s.mem|);
  }

  // ---- accounting ----

  // With the lock free, `remaining` is the buffered jobs, plus the popped ones not yet
  // subtracted, plus one if the main thread is inside the wait for a full ring.
  lemma RemainingAccounts(cfg: Config, s: State)
    requires ValidConfig(cfg) && Reachable(cfg, s) && s.lock == None
    ensures s.remaining ==
      s.ring.count + InFlight(s.workers) + (if s.main.FullAsleep? || s.main.FullAwake? then 1 else 0)
    ensures |s.ring.cells| > 0 && s.ring.tail == (s.ring.head + s.ring.count) % |s.ring.cells|
  {
    ReachableInv(cfg, s);
    s.ring.TailIsRemainder();
  }

  // Where the job of a row is.
  datatype Place = Unpushed | Buffered(slot: nat) | Running(w: nat) | Done

  ghost predicate IsAt(cfg: Config, s: State, row: nat, place: Place)
    requires WellPlaced(cfg, s.main) && InCall(s.main) && s.ring.Valid()
  {
    var c := CurrentCall(cfg, s.main);
    match place
    case Unpushed => row >= PushedRows(cfg, s.main)
    case Buffered(slot) => slot < s.ring.count && s.ring.Contents()[slot] == Args(c, row)
    case Running(w) => w < |s.workers| && Carries(s.workers[w]) && s.workers[w].args == Args(c, row)
    case Done => row < s.popped && !Carried(s.workers, row)
  }

  // Every row of the current call has its job in exactly one place.
  lemma EveryJobHasOnePlace(cfg: Config, s: State, row: nat)
    requires ValidConfig(cfg) && Reachable(cfg, s) && InCall(s.main)
    requires WellPlaced(cfg, s.main) && row < Rows(CurrentCall(cfg, s.main))
    ensures s.ring.Valid()
    ensures exists place :: IsAt(cfg, s, row, place) && forall other :: IsAt(cfg, s, row, other) ==> other == place
  {
    ReachableInv(cfg, s);
    var place :=
      if row >= PushedRows(cfg, s.main) then Unpushed
      else if row >= s.popped then Buffered(row - s.popped)
      else if Carried(s.workers, row) then
        var w :| 0 <= w < |s.workers| && Carries(s.workers[w]) && s.workers[w].args.row == row; Running(w)
      else Done;
    assert IsAt(cfg, s, row, place);
    forall other | IsAt(cfg, s, row, other) ensures other == place {
      match other
      case Unpushed =>
      case Buffered(slot) => assert s.ring.Contents()[slot] == Args(CurrentCall(cfg, s.main), s.popped + slot);
      case Running(w) => assert Carried(s.workers, row);
      case Done =>
    }
  }

  // Jobs leave the ring in the order in which the loops made them: pop number n is row n.
  lemma PopsInOrder(cfg: Config, s: State, w: nat)
    requires ValidConfig(cfg) && Reachable(cfg, s) && w < |s.workers| && s.workers[w].Pop?
    ensures WorkerSafe(s, w) && InCall(s.main) && WellPlaced(cfg, s.main)
    ensures WorkerStep(s, w).workers[w] == Popped(Args(CurrentCall(cfg, s.main), s.popped))
    ensures WorkerStep(s, w).popped == s.popped + 1
  {
    ReachableInv(cfg, s);
    InvIsSafe(cfg, s, Run(Worker(w)));
    assert s.ring.Contents()[0] == Args(CurrentCall(cfg, s.main), s.popped);
  }

  // ---- no lost wakeup, no deadlock ----

  // With the lock free, every sleeper is right to sleep: the condition of its while loop holds.
  lemma NoLostWakeup(cfg: Config, s: State, t: Tid)
    requires ValidConfig(cfg) && Reachable(cfg, s) && s.lock == None && IsAsleep(s, t)
    ensures SleepsRightly(s, t)
  {
    ReachableInv(cfg, s);
  }

  // Until the main thread has returned, some thread can run.
  lemma NoDeadlock(cfg: Config, s: State)
    requires ValidConfig(cfg) && Reachable(cfg, s) && s.main != Returned
    ensures exists t :: Enabled(cfg, s, Run(t))
  {
    ReachableInv(cfg, s);
    InvCanRun(cfg, s);
  }

  lemma InvCanRun(cfg: Config, s: State)
    requires ValidConfig(cfg) && Inv(cfg, s) && s.main != Returned
    ensures exists t :: Enabled(cfg, s, Run(t))
  {
    if s.lock.Some? {
      assert Enabled(cfg, s, Run(s.lock.value));
    } else if w :| 0 <= w < |s.workers| && !WorkerBlocked(s, w) {
      assert Enabled(cfg, s, Run(Worker(w)));
    } else {
      InFlightZero(s.workers);
      forall w | 0 <= w < |s.workers| ensures s.workers[w].Asleep? || s.workers[w].Exited? {
        assert WorkerBlocked(s, w);
      }
      assert !Pending(s);
      assert InFlight(s.workers) == 0;
      assert s.workers[0].Asleep? || s.workers[0].Exited?;
      assert !s.main.FullAsleep?;
      assert !s.main.DoneAsleep?;
      assert Enabled(cfg, s, Run(Main));
    }
  }

  // Once the shutdown has been reached, every worker that has left its loop did so with the
  // ring empty and nothing remaining.
  lemma ShutdownIsClean(cfg: Config, s: State)
    requires ValidConfig(cfg) && Reachable(cfg, s) && s.finished
    ensures s.ring.count == 0 && s.remaining == 0
    ensures forall w :: 0 <= w < |s.workers| ==> !Owes(s.workers[w])
  {
    ReachableInv(cfg, s);
    InFlightZero(s.workers);
  }
}
