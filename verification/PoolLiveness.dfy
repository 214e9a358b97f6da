// Every run ends: a rank that each executed statement lowers and each spurious wakeup raises
// by at most two.

module PoolLiveness {
  import opened Arith
  import opened Matmul
  import opened Ring
  import opened Pool
  import opened PoolInvariant
  import opened PoolSafety
  import opened PoolWork
  import opened PoolTheorems

  // The most that one broadcast to n workers and the main thread can cost.
  function Wakeups(n: nat): nat { 2 * n + 2 }

  // Steps of calc from output o to the end.
  function CalcLeft(a: CalcArgs, o: nat): nat { if o < a.OC then (a.OC - o) * (a.C + 2) + 1 else 1 }

  function WorkerRank(p: WorkerPc, n: nat): nat {
    match p
    case Exited => 0
    case Quit => 1
    case Asleep => 2
    case Pop => 2
    case Test => 3
    case Awake => 4
    case Top => 4
    case DecSignalled => 5
    case Deced => 6 + Wakeups(n)
    case Dec => 7 + Wakeups(n)
    case Computed => 8 + Wakeups(n)
    case Start(a, o) => 8 + Wakeups(n) + CalcLeft(a, o)
    case Mac(a, o, i, _) => 8 + Wakeups(n) + CalcLeft(a, o + 1) + 1 + (if i < a.C then a.C - i else 0)
    case PopSignalled(a) => 9 + Wakeups(n) + CalcLeft(a, 0)
    case Popped(a) => 10 + 2 * Wakeups(n) + CalcLeft(a, 0)
  }

  // What a buffered and an unpushed job of call c still cost.
  function BufferedRank(c: Call, n: nat): nat { 10 + 2 * Wakeups(n) + CalcLeft(Args(c, 0), 0) }
  function UnpushedRank(c: Call, n: nat): nat { BufferedRank(c, n) + Wakeups(n) + 9 }

  // What the phases from k on cost, the shutdown included.
  function PhaseRank(cfg: Config, k: nat, n: nat): nat
    decreases |cfg.program| - k
  {
    if k >= |cfg.program| then 5 + Wakeups(n)
    else match cfg.program[k]
      case Parallel(c) => 9 + Rows(c) * UnpushedRank(c, n) + PhaseRank(cfg, k + 1, n)
      case Local(_) => 1 + PhaseRank(cfg, k + 1, n)
  }

  // What the rows from r on and the later phases cost.
  function RowsRank(cfg: Config, k: nat, r: nat, n: nat): nat
    requires k < |cfg.program| && cfg.program[k].Parallel? && r <= Rows(cfg.program[k].call)
  {
    (Rows(cfg.program[k].call) - r) * UnpushedRank(cfg.program[k].call, n) + PhaseRank(cfg, k + 1, n)
  }

  ghost function MainRank(cfg: Config, m: MainPc, n: nat): nat
    requires WellPlaced(cfg, m)
  {
    match m
    case Phase(k) => PhaseRank(cfg, k, n)
    case Row(k, r) => RowsRank(cfg, k, r, n) + 8
    case Inc(k, r) => RowsRank(cfg, k, r, n) + 7
    case FullAwake(k, r) => RowsRank(cfg, k, r, n) + 5
    case FullTest(k, r) => RowsRank(cfg, k, r, n) + 4
    case FullAsleep(k, r) => RowsRank(cfg, k, r, n) + 3
    case Push(k, r) => RowsRank(cfg, k, r, n) + 2
    case Pushed(k, r) => RowsRank(cfg, k, r + 1, n) + 10 + Wakeups(n)
    case PushSignalled(k, r) => RowsRank(cfg, k, r + 1, n) + 9
    case DoneAwake(k) => PhaseRank(cfg, k + 1, n) + 5
    case DoneTest(k) => PhaseRank(cfg, k + 1, n) + 4
    case DoneAsleep(k) => PhaseRank(cfg, k + 1, n) + 3
    case DoneUnlock(k) => PhaseRank(cfg, k + 1, n) + 1
    case SetFinished => 4 + Wakeups(n)
    case FinBroadcast => 3 + Wakeups(n)
    case FinUnlock => 2
    case Join => 1
    case Returned => 0
  }

  function WorkersRank(ws: seq<WorkerPc>, n: nat): nat {
    if ws == [] then 0 else WorkersRank(ws[..|ws| - 1], n) + WorkerRank(ws[|ws| - 1], n)
  }

  ghost function RingRank(cfg: Config, s: State): nat
    requires WellPlaced(cfg, s.main)
  {
    if InCall(s.main) then s.ring.count * BufferedRank(CurrentCall(cfg, s.main), |s.workers|) else 0
  }

  ghost function Rank(cfg: Config, s: State): nat
    requires WellPlaced(cfg, s.main)
  {
    MainRank(cfg, s.main, |s.workers|) + WorkersRank(s.workers, |s.workers|) + RingRank(cfg, s)
  }

  lemma {:induction false} WorkersRankUpdate(ws: seq<WorkerPc>, w: nat, p: WorkerPc, n: nat)
    requires w < |ws|
    ensures WorkersRank(ws[w := p], n) == WorkersRank(ws, n) - WorkerRank(ws[w], n) + WorkerRank(p, n)
  {
    var k := |ws| - 1;
    if w < k {
      assert ws[w := p][..k] == ws[..k][w := p];
      WorkersRankUpdate(ws[..k], w, p, n);
    } else {
      assert ws[w := p][..k] == ws[..k];
    }
  }

  lemma {:induction false} WorkersRankWake(ws: seq<WorkerPc>, n: nat)
    ensures WorkersRank(WakeAll(ws), n) <= WorkersRank(ws, n) + 2 * |ws|
  {
    if ws != [] {
      var k := |ws| - 1;
      assert WakeAll(ws)[..k] == WakeAll(ws[..k]);
      WorkersRankWake(ws[..k], n);
    }
  }

  lemma NextRow(cfg: Config, k: nat, r: nat, n: nat)
    requires k < |cfg.program| && cfg.program[k].Parallel? && r < Rows(cfg.program[k].call)
    ensures RowsRank(cfg, k, r, n) == RowsRank(cfg, k, r + 1, n) + UnpushedRank(cfg.program[k].call, n)
  {
    var c := cfg.program[k].call;
    MulDist(Rows(c) - (r + 1), 1, UnpushedRank(c, n));
  }

  lemma NextOutput(a: CalcArgs, o: nat)
    requires o < a.OC
    ensures CalcLeft(a, o) == CalcLeft(a, o + 1) + a.C + 2
  {
    MulDist(a.OC - (o + 1), 1, a.C + 2);
  }

  // ---- every statement lowers the rank ----

  // Main steps that leave the workers and the ring's load alone.
  lemma MainMoves(cfg: Config, s: State, s': State)
    requires WellPlaced(cfg, s.main) && WellPlaced(cfg, s'.main) && s'.workers == s.workers
      && RingRank(cfg, s') == RingRank(cfg, s)
    requires MainRank(cfg, s'.main, |s.workers|) < MainRank(cfg, s.main, |s.workers|)
    ensures Rank(cfg, s') < Rank(cfg, s)
  {
  }

  lemma PhaseLowers(cfg: Config, s: State)
    requires WellPlaced(cfg, s.main) && s.main.Phase? && s.ring.count == 0
    ensures WellPlaced(cfg, PhaseStep(cfg, s).main) && Rank(cfg, PhaseStep(cfg, s)) < Rank(cfg, s)
  {
    MainMoves(cfg, s, PhaseStep(cfg, s));
  }

  lemma AnnounceLowers(cfg: Config, s: State)
    requires WellPlaced(cfg, s.main) && Announcing(s.main)
    ensures var s' := AnnounceStep(s, Rows(CurrentCall(cfg, s.main)));
            WellPlaced(cfg, s'.main) && Rank(cfg, s') < Rank(cfg, s)
  {
    MainMoves(cfg, s, AnnounceStep(s, Rows(CurrentCall(cfg, s.main))));
  }

  lemma PushLowers(cfg: Config, s: State)
    requires WellPlaced(cfg, s.main) && Pushing(s.main) && MainSafe(cfg, s)
    ensures WellPlaced(cfg, PushStep(cfg, s).main) && Rank(cfg, PushStep(cfg, s)) < Rank(cfg, s)
  {
    match s.main
    case Push(_, _) => PushedLowers(cfg, s);
    case Pushed(_, _) => WorkersRankWake(s.workers, |s.workers|);
    case PushSignalled(_, _) => MainMoves(cfg, s, PushStep(cfg, s));
  }

  lemma PushedLowers(cfg: Config, s: State)
    requires WellPlaced(cfg, s.main) && s.main.Push? && MainSafe(cfg, s)
    ensures Rank(cfg, PushStep(cfg, s)) < Rank(cfg, s)
  {
    var n := |s.workers|;
    NextRow(cfg, s.main.k, s.main.r, n);
    MulDist(s.ring.count, 1, BufferedRank(CurrentCall(cfg, s.main), n));
  }

  lemma DrainLowers(cfg: Config, s: State)
    requires WellPlaced(cfg, s.main) && Draining(s.main) && (s.main.DoneUnlock? ==> s.ring.count == 0)
    ensures WellPlaced(cfg, DrainStep(s).main) && Rank(cfg, DrainStep(s)) < Rank(cfg, s)
  {
    MainMoves(cfg, s, DrainStep(s));
  }

  lemma ShutdownLowers(cfg: Config, s: State)
    requires WellPlaced(cfg, s.main) && ShuttingDown(s.main)
    ensures WellPlaced(cfg, ShutdownStep(s).main) && Rank(cfg, ShutdownStep(s)) < Rank(cfg, s)
  {
    WorkersRankWake(s.workers, |s.workers|);
  }

  // A worker's step without a broadcast.
  lemma WorkerMoves(cfg: Config, s: State, s': State, w: nat, p: WorkerPc)
    requires WellPlaced(cfg, s.main) && s'.main == s.main && w < |s.workers| && s'.workers == s.workers[w := p]
    requires WorkerRank(p, |s.workers|) + RingRank(cfg, s') < WorkerRank(s.workers[w], |s.workers|) + RingRank(cfg, s)
    ensures Rank(cfg, s') < Rank(cfg, s)
  {
    WorkersRankUpdate(s.workers, w, p, |s.workers|);
  }

  // A worker's broadcast pays for everyone it wakes.
  lemma WorkerSignals(cfg: Config, s: State, s': State, w: nat, p: WorkerPc)
    requires WellPlaced(cfg, s.main) && w < |s.workers| && s.workers[w] != Asleep
    requires s' == Goto(Broadcast(s), w, p)
      && WorkerRank(p, |s.workers|) + Wakeups(|s.workers|) < WorkerRank(s.workers[w], |s.workers|)
    ensures WellPlaced(cfg, s'.main) && Rank(cfg, s') < Rank(cfg, s)
  {
    var n := |s.workers|;
    WorkersRankWake(s.workers, n);
    WorkersRankUpdate(WakeAll(s.workers), w, p, n);
  }

  lemma WaitLowers(cfg: Config, s: State, w: nat)
    requires WellPlaced(cfg, s.main) && w < |s.workers| && Waits(s.workers[w])
    ensures WellPlaced(cfg, WaitStep(s, w).main) && Rank(cfg, WaitStep(s, w)) < Rank(cfg, s)
  {
    var s' := WaitStep(s, w);
    WorkerMoves(cfg, s, s', w, s'.workers[w]);
  }

  lemma TakeLowers(cfg: Config, s: State, w: nat)
    requires ValidConfig(cfg) && Inv(cfg, s) && w < |s.workers| && Takes(s.workers[w]) && WorkerSafe(s, w)
    ensures WellPlaced(cfg, TakeStep(s, w).main) && Rank(cfg, TakeStep(s, w)) < Rank(cfg, s)
  {
    var s' := TakeStep(s, w);
    if s.workers[w].Pop? {
      var c := CurrentCall(cfg, s.main);
      MulDist(s'.ring.count, 1, BufferedRank(c, |s.workers|));
      assert s.ring.Contents()[0] == Args(c, s.popped);
      WorkerMoves(cfg, s, s', w, s'.workers[w]);
    } else if s.workers[w].Popped? {
      WorkerSignals(cfg, s, s', w, s'.workers[w]);
    } else {
      WorkerMoves(cfg, s, s', w, s'.workers[w]);
    }
  }

  lemma CalcLowers(cfg: Config, s: State, w: nat)
    requires WellPlaced(cfg, s.main) && w < |s.workers| && Calculates(s.workers[w]) && WorkerSafe(s, w)
    ensures WellPlaced(cfg, CalcStep(s, w).main) && Rank(cfg, CalcStep(s, w)) < Rank(cfg, s)
  {
    var s' := CalcStep(s, w);
    if s.workers[w].o < s.workers[w].args.OC { NextOutput(s.workers[w].args, s.workers[w].o); }
    WorkerMoves(cfg, s, s', w, s'.workers[w]);
  }

  lemma RetireLowers(cfg: Config, s: State, w: nat)
    requires WellPlaced(cfg, s.main) && w < |s.workers| && Retires(s.workers[w])
    ensures WellPlaced(cfg, RetireStep(s, w).main) && Rank(cfg, RetireStep(s, w)) < Rank(cfg, s)
  {
    var s' := RetireStep(s, w);
    if s.workers[w].Deced? {
      WorkerSignals(cfg, s, s', w, DecSignalled);
    } else {
      WorkerMoves(cfg, s, s', w, s'.workers[w]);
    }
  }

  lemma SpuriousRaises(cfg: Config, s: State, t: Tid)
    requires ValidConfig(cfg) && Inv(cfg, s) && Enabled(cfg, s, Spurious(t))
    ensures WellPlaced(cfg, Apply(cfg, s, Spurious(t)).main)
      && Rank(cfg, Apply(cfg, s, Spurious(t))) == Rank(cfg, s) + 2
  {
    if t.Worker? { WorkersRankUpdate(s.workers, t.w, Awake, |s.workers|); }
  }

  lemma StatementLowers(cfg: Config, s: State, t: Tid)
    requires ValidConfig(cfg) && Inv(cfg, s) && Enabled(cfg, s, Run(t)) && Safe(cfg, s, Run(t))
    ensures WellPlaced(cfg, Apply(cfg, s, Run(t)).main) && Rank(cfg, Apply(cfg, s, Run(t))) < Rank(cfg, s)
  {
    match t
    case Main =>
      if s.main.Phase? { PhaseLowers(cfg, s); }
      else if Announcing(s.main) { AnnounceLowers(cfg, s); }
      else if Pushing(s.main) { PushLowers(cfg, s); }
      else if Draining(s.main) { DrainLowers(cfg, s); }
      else { ShutdownLowers(cfg, s); }
    case Worker(w) =>
      var p := s.workers[w];
      if Waits(p) { WaitLowers(cfg, s, w); }
      else if Takes(p) { TakeLowers(cfg, s, w); }
      else if Calculates(p) { CalcLowers(cfg, s, w); }
      else { RetireLowers(cfg, s, w); }
  }

  // ---- whole runs ----

  function Statements(events: seq<Event>): nat {
    if events == [] then 0 else Statements(events[..|events| - 1]) + (if events[|events| - 1].Run? then 1 else 0)
  }

  function SpuriousWakeups(events: seq<Event>): nat {
    if events == [] then 0 else SpuriousWakeups(events[..|events| - 1]) + (if events[|events| - 1].Run? then 0 else 1)
  }

  // Any schedule, fair or not: the number of statements executed is bounded by the rank of the
  // initial state plus two for each spurious wakeup.
  lemma {:induction false} RunsAreBounded(cfg: Config, states: seq<State>, events: seq<Event>)
    requires ValidConfig(cfg) && IsRun(cfg, states, events)
    ensures WellPlaced(cfg, states[0].main) && WellPlaced(cfg, states[|events|].main)
    ensures Statements(events) + Rank(cfg, states[|events|]) <= Rank(cfg, states[0]) + 2 * SpuriousWakeups(events)
  {
    if events != [] {
      var n := |events| - 1;
      assert IsRun(cfg, states[..n + 1], events[..n]) by {
        forall i | 0 <= i < n ensures Moves(cfg, states[..n + 1][i], events[..n][i], states[..n + 1][i + 1]) {
          assert Moves(cfg, states[i], events[i], states[i + 1]);
        }
      }
      RunsAreBounded(cfg, states[..n + 1], events[..n]);
      RunKeepsInv(cfg, states, events, n);
      assert Moves(cfg, states[n], events[n], states[n + 1]);
      match events[n]
      case Run(t) => StatementLowers(cfg, states[n], t);
      case Spurious(t) => SpuriousRaises(cfg, states[n], t);
    }
  }

  // A run that cannot be extended by a statement has finished: the main thread has returned,
  // every worker has exited, and memory is that of the single-threaded program.
  lemma StuckMeansFinished(cfg: Config, s: State)
    requires ValidConfig(cfg) && Reachable(cfg, s) && forall t :: !Enabled(cfg, s, Run(t))
    ensures s.main == Returned && s.mem == SeqMem(cfg, |cfg.program|)
    ensures forall w :: 0 <= w < |s.workers| ==> s.workers[w] == Exited
  {
    ReachableInv(cfg, s);
    if s.main != Returned { InvCanRun(cfg, s); }
  }

  // 3 for each unpushed row, 2 for each buffered job, 1 for each job in flight.
  function WorkLeft(cfg: Config, s: State): int
    requires InCall(s.main) && s.main.k < |cfg.program| && cfg.program[s.main.k].Parallel?
  {
    3 * (Rows(CurrentCall(cfg, s.main)) - PushedRows(cfg, s.main)) + 2 * s.ring.count + InFlight(s.workers)
  }

  // The measure in terms of the shared counters.
  lemma WorkLeftCounters(cfg: Config, s: State)
    requires ValidConfig(cfg) && Inv(cfg, s) && InCall(s.main)
    ensures WorkLeft(cfg, s) ==
      3 * Rows(CurrentCall(cfg, s.main)) - 3 * s.popped - 2 * s.ring.count + s.remaining - Announced(s.main)
  {
  }

  // Within a call the measure falls by one on each push, pop and completion and never rises.
  lemma WorkLeftFalls(cfg: Config, s: State, e: Event)
    requires ValidConfig(cfg) && Inv(cfg, s) && Enabled(cfg, s, e) && Safe(cfg, s, e)
    requires InCall(s.main) && InCall(Apply(cfg, s, e).main)
    ensures WellPlaced(cfg, Apply(cfg, s, e).main)
    ensures WorkLeft(cfg, Apply(cfg, s, e)) == WorkLeft(cfg, s) - (if Delivers(s, e) then 1 else 0)
  {
    StepKeepsInv(cfg, s, e);
    WorkLeftCounters(cfg, s);
    WorkLeftCounters(cfg, Apply(cfg, s, e));
    CountersMove(cfg, s, e);
  }

  lemma CountersMove(cfg: Config, s: State, e: Event)
    requires WellPlaced(cfg, s.main) && Enabled(cfg, s, e) && Safe(cfg, s, e)
    requires InCall(s.main) && InCall(Apply(cfg, s, e).main)
    ensures var s' := Apply(cfg, s, e);
            && s'.main.k == s.main.k
            && s'.remaining - 3 * s'.popped - 2 * s'.ring.count - Announced(s'.main)
               == s.remaining - 3 * s.popped - 2 * s.ring.count - Announced(s.main) - (if Delivers(s, e) then 1 else 0)
  {
  }

  // The statements that push, pop or complete a job.
  predicate Delivers(s: State, e: Event) {
    match e
    case Run(Main) => s.main.Push?
    case Run(Worker(w)) => w < |s.workers| && (s.workers[w].Pop? || s.workers[w].Dec?)
    case Spurious(_) => false
  }
}
