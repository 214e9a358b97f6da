// Every step keeps the invariant.

module PoolSafety {
  import opened Matmul
  import opened Ring
  import opened Pool
  import opened PoolInvariant

  // ---- what one step of thread t can do ----

  // Of the other threads, at most sleepers change, and only by waking up.
  ghost predicate Shape(s: State, s': State, t: Tid) {
    && |s'.workers| == |s.workers|
    && (forall v :: 0 <= v < |s.workers| && t != Worker(v) ==>
          s'.workers[v] == s.workers[v] || (s.workers[v].Asleep? && s'.workers[v].Awake?))
    && (t != Main ==> s'.main == s.main || s'.main == WakeMain(s.main))
    && (Signals(s, t) ==> NoSleepers(s'))
  }

  // The lock is taken only when free and given back only by its holder; only the holder
  // changes the ring or the flag.
  ghost predicate LockMove(s: State, s': State, t: Tid) {
    && s'.lock == (if Holds(s', t) == Holds(s, t) then s.lock else if Holds(s', t) then Some(t) else None)
    && (Holds(s', t) ==> Holds(s, t) || s.lock == None)
    && (s'.ring != s.ring || s'.finished != s.finished ==> Holds(s, t))
    && s'.ring.Valid() && |s'.ring.cells| == |s.ring.cells|
    && (s'.finished <==> s.finished || (t == Main && s.main.SetFinished?))
  }

  // Either no sleeper's condition can have become false or a broadcast follows under the
  // same lock; t goes to sleep only while its own condition holds; nothing is lost from count.
  ghost predicate WakeMove(s: State, s': State, t: Tid) {
    && ((s'.ring.count == s.ring.count && s'.finished == s.finished && s'.remaining >= s.remaining) || Signals(s', t))
    && (IsAsleep(s', t) ==> SleepsRightly(s', t))
    && s'.remaining - s'.ring.count - InFlight(s'.workers) - Announced(s'.main)
       == s.remaining - s.ring.count - InFlight(s.workers) - Announced(s.main)
  }

  // Where the flag, the exits and the two ring operations are reached from.
  ghost predicate FlowMove(s: State, s': State, t: Tid) {
    && (Finished(s'.main) <==> Finished(s.main) || (t == Main && s.main.SetFinished?))
    && (InCall(s.main) && !InCall(s'.main) ==> s.main.DoneUnlock?)
    && (t == Main && s'.main.DoneUnlock? ==> s'.remaining <= 0)
    && (t == Main && s'.main.Push? ==> s'.ring.count < |s'.ring.cells|)
    && (s'.remaining != s.remaining ==>
          match t case Main => s.main.Inc? case Worker(w) => w < |s.workers| && s.workers[w].Dec?)
    && (t == Main && s'.main.Returned? ==> forall w :: 0 <= w < |s.workers| ==> s.workers[w] == Exited)
    && (t.Worker? && t.w < |s.workers| == |s'.workers| ==>
          && s.workers[t.w] != Exited
          && (s'.workers[t.w].Pop? ==> s'.ring.count > 0 && !s'.finished)
          && (s'.workers[t.w].Quit? || s'.workers[t.w].Exited? ==> s.finished || s.workers[t.w].Quit?))
  }

  predicate Holds(s: State, t: Tid) {
    match t case Main => MainHolds(s.main) case Worker(w) => w < |s.workers| && WorkerHolds(s.workers[w])
  }

  predicate Signals(s: State, t: Tid) {
    match t
    case Main => s.main.Pushed? || s.main.FinBroadcast?
    case Worker(w) => w < |s.workers| && (s.workers[w].Popped? || s.workers[w].Deced?)
  }

  predicate IsAsleep(s: State, t: Tid) {
    match t
    case Main => s.main.FullAsleep? || s.main.DoneAsleep?
    case Worker(w) => w < |s.workers| && s.workers[w].Asleep?
  }

  ghost predicate NoSleepers(s: State) {
    !IsAsleep(s, Main) && forall v :: 0 <= v < |s.workers| ==> !s.workers[v].Asleep?
  }

  // The condition of the while loop around t's cond_wait.
  predicate SleepsRightly(s: State, t: Tid) {
    match t
    case Main => if s.main.FullAsleep? then s.ring.count == |s.ring.cells| else s.remaining > 0
    case Worker(_) => s.ring.count == 0 && !s.finished
  }

  ghost predicate Effect(s: State, s': State, t: Tid) {
    Shape(s, s', t) && LockMove(s, s', t) && WakeMove(s, s', t) && FlowMove(s, s', t)
  }

  lemma PhaseEffect(cfg: Config, s: State)
    requires s.ring.Valid() && s.main.Phase? && !MainBlocked(cfg, s)
    ensures Effect(s, PhaseStep(cfg, s), Main)
  {
  }

  lemma AnnounceEffect(cfg: Config, s: State, rows: nat)
    requires s.ring.Valid() && Announcing(s.main) && !MainBlocked(cfg, s)
    ensures Effect(s, AnnounceStep(s, rows), Main)
  {
  }

  lemma PushEffect(cfg: Config, s: State)
    requires s.ring.Valid() && WellPlaced(cfg, s.main) && Pushing(s.main) && MainSafe(cfg, s)
    ensures Effect(s, PushStep(cfg, s), Main)
  {
    InFlightWake(s.workers);
  }

  lemma DrainEffect(cfg: Config, s: State)
    requires s.ring.Valid() && Draining(s.main) && !MainBlocked(cfg, s)
    ensures Effect(s, DrainStep(s), Main)
  {
  }

  lemma ShutdownEffect(cfg: Config, s: State)
    requires s.ring.Valid() && ShuttingDown(s.main) && !MainBlocked(cfg, s)
    ensures Effect(s, ShutdownStep(s), Main)
  {
    InFlightWake(s.workers);
  }

  lemma WaitEffect(s: State, w: nat)
    requires s.ring.Valid() && w < |s.workers| && Waits(s.workers[w]) && !WorkerBlocked(s, w)
    ensures Effect(s, WaitStep(s, w), Worker(w))
  {
    InFlightUpdate(s.workers, w, WaitStep(s, w).workers[w]);
  }

  lemma TakeEffect(s: State, w: nat)
    requires s.ring.Valid() && w < |s.workers| && Takes(s.workers[w]) && WorkerSafe(s, w)
    ensures Effect(s, TakeStep(s, w), Worker(w))
  {
    TakeShape(s, w);
    TakeWake(s, w);
  }

  lemma TakeShape(s: State, w: nat)
    requires s.ring.Valid() && w < |s.workers| && Takes(s.workers[w]) && WorkerSafe(s, w)
    ensures Shape(s, TakeStep(s, w), Worker(w))
  {
  }

  lemma TakeWake(s: State, w: nat)
    requires s.ring.Valid() && w < |s.workers| && Takes(s.workers[w]) && WorkerSafe(s, w)
    ensures WakeMove(s, TakeStep(s, w), Worker(w))
  {
    InFlightWake(s.workers);
    InFlightUpdate(if Signals(s, Worker(w)) then WakeAll(s.workers) else s.workers, w, TakeStep(s, w).workers[w]);
  }

  lemma CalcEffect(s: State, w: nat)
    requires s.ring.Valid() && w < |s.workers| && Calculates(s.workers[w]) && WorkerSafe(s, w)
    ensures Effect(s, CalcStep(s, w), Worker(w))
  {
    InFlightUpdate(s.workers, w, CalcStep(s, w).workers[w]);
  }

  lemma RetireEffect(s: State, w: nat)
    requires s.ring.Valid() && w < |s.workers| && Retires(s.workers[w]) && !WorkerBlocked(s, w)
    ensures Effect(s, RetireStep(s, w), Worker(w))
  {
    RetireShape(s, w);
    RetireWake(s, w);
  }

  lemma RetireShape(s: State, w: nat)
    requires s.ring.Valid() && w < |s.workers| && Retires(s.workers[w]) && !WorkerBlocked(s, w)
    ensures Shape(s, RetireStep(s, w), Worker(w))
  {
  }

  lemma RetireWake(s: State, w: nat)
    requires s.ring.Valid() && w < |s.workers| && Retires(s.workers[w]) && !WorkerBlocked(s, w)
    ensures WakeMove(s, RetireStep(s, w), Worker(w))
  {
    InFlightWake(s.workers);
    InFlightUpdate(if Signals(s, Worker(w)) then WakeAll(s.workers) else s.workers, w, RetireStep(s, w).workers[w]);
  }

  lemma SpuriousEffect(cfg: Config, s: State, t: Tid)
    requires s.ring.Valid() && Enabled(cfg, s, Spurious(t))
    ensures Effect(s, Apply(cfg, s, Spurious(t)), t)
  {
    if t.Worker? { InFlightUpdate(s.workers, t.w, Awake); }
  }

  lemma ApplyEffect(cfg: Config, s: State, e: Event)
    requires s.ring.Valid() && WellPlaced(cfg, s.main) && Enabled(cfg, s, e) && Safe(cfg, s, e)
    ensures Effect(s, Apply(cfg, s, e), e.t)
  {
    match e
    case Spurious(t) => SpuriousEffect(cfg, s, t);
    case Run(Main) =>
      if s.main.Phase? { PhaseEffect(cfg, s); }
      else if Announcing(s.main) { AnnounceEffect(cfg, s, Rows(CurrentCall(cfg, s.main))); }
      else if Pushing(s.main) { PushEffect(cfg, s); }
      else if Draining(s.main) { DrainEffect(cfg, s); }
      else { ShutdownEffect(cfg, s); }
    case Run(Worker(w)) =>
      var p := s.workers[w];
      if Waits(p) { WaitEffect(s, w); }
      else if Takes(p) { TakeEffect(s, w); }
      else if Calculates(p) { CalcEffect(s, w); }
      else { RetireEffect(s, w); }
  }

  // ---- what follows from the effect alone ----

  lemma LockKept(s: State, s': State, t: Tid)
    requires LockInv(s) && (t.Worker? ==> t.w < |s.workers|) && Shape(s, s', t) && LockMove(s, s', t)
    ensures LockInv(s')
  {
  }

  lemma WakeKept(s: State, s': State, t: Tid)
    requires LockInv(s) && LockInv(s') && (t.Worker? ==> t.w < |s.workers|) && Effect(s, s', t) && WakeInv(s)
    ensures WakeInv(s')
  {
  }

  lemma FinishKept(s: State, s': State, t: Tid)
    requires (t.Worker? ==> t.w < |s.workers|) && Effect(s, s', t) && FinishInv(s)
    ensures FinishInv(s')
  {
  }

  lemma RingKept(s: State, s': State, t: Tid)
    requires LockInv(s) && (t.Worker? ==> t.w < |s.workers|) && Effect(s, s', t) && RingInv(s)
    ensures RingInv(s')
  {
  }

  lemma RemainKept(s: State, s': State, t: Tid)
    requires LockInv(s) && (t.Worker? ==> t.w < |s.workers|) && Effect(s, s', t) && RemainInv(s)
    ensures RemainInv(s')
  {
    InFlightZero(s.workers);
  }
}
