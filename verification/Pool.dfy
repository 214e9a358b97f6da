// The matmul thread pool of M3-gpt/gpt.c as a step relation: the main thread running a list
// of phases, N workers, one mutex, one condition variable used only with broadcast, and a
// ring of capacity K. One step is one statement of one thread; pthread_cond_wait releases
// the mutex and sleeps in one step (POSIX.1-2017), can wake spuriously, and returns only
// after it has got the mutex again.

module Pool {
  import opened Matmul
  import opened Ring

  // What the main thread does between its start and the shutdown: matmul_forward calls, and
  // the other layers, which only the main thread runs.
  datatype Phase = Parallel(call: Call) | Local(f: Memory -> Memory)

  datatype Config = Config(program: seq<Phase>, mem: Memory)

  ghost predicate ValidConfig(cfg: Config) {
    forall i :: 0 <= i < |cfg.program| ==> ValidPhase(cfg.program[i], |cfg.mem|)
  }

  ghost predicate ValidPhase(p: Phase, size: nat) {
    match p
    case Parallel(c) => ValidCall(c, size)
    case Local(f) => forall m: Memory :: |m| == size ==> |f(m)| == size
  }

  // Memory after the first k phases, run one after the other by a single thread.
  ghost function SeqMem(cfg: Config, k: nat): (m: Memory)
    requires ValidConfig(cfg) && k <= |cfg.program|
    ensures |m| == |cfg.mem|
  {
    if k == 0 then cfg.mem else
      var m := SeqMem(cfg, k - 1);
      match cfg.program[k - 1]
      case Parallel(c) => MatmulSpec(m, c)
      case Local(f) => assert ValidPhase(cfg.program[k - 1], |cfg.mem|); f(m)
  }

  datatype Tid = Main | Worker(w: nat)

  // Program points of the main thread. k is the phase; r counts the rows already handled.
  datatype MainPc =
    | Phase(k: nat)                    // between phases; after the last one, before the shutdown's lock
    | Row(k: nat, r: nat)              // loop head; mutex_lock next
    | Inc(k: nat, r: nat)              // remaining++
    | FullTest(k: nat, r: nat) | FullAsleep(k: nat, r: nat) | FullAwake(k: nat, r: nat)
    | Push(k: nat, r: nat)             // buffer_push
    | Pushed(k: nat, r: nat)           // cond_broadcast
    | PushSignalled(k: nat, r: nat)    // mutex_unlock
    | DoneTest(k: nat) | DoneAsleep(k: nat) | DoneAwake(k: nat)
    | DoneUnlock(k: nat)
    | SetFinished | FinBroadcast | FinUnlock
    | Join | Returned

  datatype WorkerPc =
    | Top                              // mutex_lock at the loop head
    | Test | Asleep | Awake            // while (buf_count == 0 && !finished) cond_wait
    | Quit                             // the two asserts, unlock, break
    | Pop                              // buffer_pop
    | Popped(args: CalcArgs)           // cond_broadcast
    | PopSignalled(args: CalcArgs)     // mutex_unlock
    | Start(args: CalcArgs, o: nat)    // calc, loop over outputs
    | Mac(args: CalcArgs, o: nat, i: nat, val: real)
    | Computed                         // second mutex_lock
    | Dec                              // remaining--
    | Deced                            // cond_broadcast
    | DecSignalled                     // mutex_unlock
    | Exited

  // `popped` counts the jobs popped in the current call; no step reads it.
  datatype State = State(lock: Option<Tid>, main: MainPc, workers: seq<WorkerPc>, ring: Ring<CalcArgs>,
                         remaining: int, finished: bool, mem: Memory, popped: nat)

  ghost predicate Init(cfg: Config, s: State) {
    && s.lock == None && s.main == Phase(0)
    && |s.workers| > 0 && (forall w :: 0 <= w < |s.workers| ==> s.workers[w] == Top)
    && |s.ring.cells| > 0 && s.ring.head == s.ring.tail == s.ring.count == 0
    && s.remaining == 0 && !s.finished && s.mem == cfg.mem && s.popped == 0
  }

  function WakeAll(ws: seq<WorkerPc>): (r: seq<WorkerPc>)
    ensures |r| == |ws|
  {
    seq(|ws|, w requires 0 <= w < |ws| => if ws[w] == Asleep then Awake else ws[w])
  }

  function WakeMain(m: MainPc): MainPc {
    match m
    case FullAsleep(k, r) => FullAwake(k, r)
    case DoneAsleep(k) => DoneAwake(k)
    case _ => m
  }

  function Broadcast(s: State): State {
    s.(main := WakeMain(s.main), workers := WakeAll(s.workers))
  }

  // The points at which a thread holds the mutex.
  predicate MainHolds(m: MainPc) {
    || m.Inc? || m.FullTest? || m.Push? || m.Pushed? || m.PushSignalled? || m.DoneTest? || m.DoneUnlock?
    || m.SetFinished? || m.FinBroadcast? || m.FinUnlock?
  }

  predicate WorkerHolds(p: WorkerPc) {
    || p.Test? || p.Quit? || p.Pop? || p.Popped? || p.PopSignalled? || p.Dec? || p.Deced? || p.DecSignalled?
  }

  predicate MainBlocked(cfg: Config, s: State) {
    match s.main
    case Phase(k) => k >= |cfg.program| && s.lock.Some?
    case Row(_, _) => s.lock.Some?
    case FullAwake(_, _) => s.lock.Some?
    case DoneAwake(_) => s.lock.Some?
    case FullAsleep(_, _) => true
    case DoneAsleep(_) => true
    case Join => exists w :: 0 <= w < |s.workers| && s.workers[w] != Exited
    case Returned => true
    case _ => false
  }

  predicate WorkerBlocked(s: State, w: nat)
    requires w < |s.workers|
  {
    match s.workers[w]
    case Top => s.lock.Some?
    case Awake => s.lock.Some?
    case Computed => s.lock.Some?
    case Asleep => true
    case Exited => true
    case _ => false
  }

  // The main thread is inside matmul_forward call k.
  predicate InCall(m: MainPc) {
    !m.Phase? && !m.SetFinished? && !m.FinBroadcast? && !m.FinUnlock? && !m.Join? && !m.Returned?
  }

  ghost predicate WellPlaced(cfg: Config, m: MainPc) {
    && (InCall(m) ==> m.k < |cfg.program| && cfg.program[m.k].Parallel?)
    && (m.Phase? ==> m.k <= |cfg.program|)
    && (m.Row? ==> m.r <= Rows(cfg.program[m.k].call))
    && (m.Inc? || m.FullTest? || m.FullAsleep? || m.FullAwake? || m.Push? || m.Pushed? || m.PushSignalled? ==>
          m.r < Rows(cfg.program[m.k].call))
  }

  function CurrentCall(cfg: Config, m: MainPc): Call
    requires InCall(m) && m.k < |cfg.program| && cfg.program[m.k].Parallel?
  {
    cfg.program[m.k].call
  }

  // Assertions of the source, and the preconditions its unchecked operations rely on: the
  // ring is neither overrun nor underrun and calc stays inside memory.
  ghost predicate MainSafe(cfg: Config, s: State) {
    match s.main
    case Phase(k) => k < |cfg.program| && cfg.program[k].Parallel? ==> s.remaining == 0
    case Push(k, r) => s.ring.Valid() && s.ring.count < |s.ring.cells|
    case _ => true
  }

  ghost predicate WorkerSafe(s: State, w: nat)
    requires w < |s.workers|
  {
    match s.workers[w]
    case Quit => s.ring.count == 0 && s.remaining == 0
    case Pop => s.ring.Valid() && s.ring.count > 0
    case Start(a, o) => o < a.OC && a.bias.Some? ==> BiasCell(a.bias.value, o) < |s.mem|
    case Mac(a, o, i, _) =>
      if i < a.C then InpCell(a, i) < |s.mem| && WeightCell(a, o, i) < |s.mem| else OutCell(a, o) < |s.mem|
    case _ => true
  }

  // ---- statements of the main thread ----

  // Between matmul_forward calls.
  ghost function PhaseStep(cfg: Config, s: State): State
    requires s.main.Phase?
  {
    var k := s.main.k;
    if k >= |cfg.program| then s.(lock := Some(Main), main := SetFinished)
    else match cfg.program[k]
      case Parallel(_) => s.(main := Row(k, 0), popped := 0)
      case Local(f) => s.(main := Phase(k + 1), mem := f(s.mem))
  }

  // The part of matmul_forward's loop that announces a row and waits for room in the ring.
  predicate Announcing(m: MainPc) { m.Row? || m.Inc? || m.FullTest? || m.FullAwake? }

  function AnnounceStep(s: State, rows: nat): State
    requires Announcing(s.main)
  {
    match s.main
    case Row(k, r) => s.(lock := Some(Main), main := if r < rows then Inc(k, r) else DoneTest(k))
    case Inc(k, r) => s.(remaining := s.remaining + 1, main := FullTest(k, r))
    case FullTest(k, r) =>
      if s.ring.count == |s.ring.cells| then s.(lock := None, main := FullAsleep(k, r)) else s.(main := Push(k, r))
    case FullAwake(k, r) => s.(lock := Some(Main), main := FullTest(k, r))
  }

  // The part that pushes it.
  predicate Pushing(m: MainPc) { m.Push? || m.Pushed? || m.PushSignalled? }

  ghost function PushStep(cfg: Config, s: State): State
    requires Pushing(s.main) && WellPlaced(cfg, s.main) && MainSafe(cfg, s)
  {
    match s.main
    case Push(k, r) => s.(ring := s.ring.Push(Args(CurrentCall(cfg, s.main), r)), main := Pushed(k, r))
    case Pushed(k, r) => Broadcast(s).(main := PushSignalled(k, r))
    case PushSignalled(k, r) => s.(lock := None, main := Row(k, r + 1))
  }

  // The end of matmul_forward, which waits until `remaining` is 0.
  predicate Draining(m: MainPc) { m.DoneTest? || m.DoneAwake? || m.DoneUnlock? }

  function DrainStep(s: State): State
    requires Draining(s.main)
  {
    match s.main
    case DoneTest(k) => if s.remaining > 0 then s.(lock := None, main := DoneAsleep(k)) else s.(main := DoneUnlock(k))
    case DoneAwake(k) => s.(lock := Some(Main), main := DoneTest(k))
    case DoneUnlock(k) => s.(lock := None, main := Phase(k + 1))
  }

  // The shutdown at the end of main.
  predicate ShuttingDown(m: MainPc) { m.SetFinished? || m.FinBroadcast? || m.FinUnlock? || m.Join? }

  function ShutdownStep(s: State): State
    requires ShuttingDown(s.main)
  {
    match s.main
    case SetFinished => s.(finished := true, main := FinBroadcast)
    case FinBroadcast => Broadcast(s).(main := FinUnlock)
    case FinUnlock => s.(lock := None, main := Join)
    case Join => s.(main := Returned)
  }

  ghost function MainStep(cfg: Config, s: State): State
    requires WellPlaced(cfg, s.main) && !MainBlocked(cfg, s) && MainSafe(cfg, s)
  {
    if s.main.Phase? then PhaseStep(cfg, s)
    else if Announcing(s.main) then AnnounceStep(s, Rows(CurrentCall(cfg, s.main)))
    else if Pushing(s.main) then PushStep(cfg, s)
    else if Draining(s.main) then DrainStep(s)
    else ShutdownStep(s)
  }

  // ---- statements of worker w ----

  // A step of worker w that only moves its program counter.
  function Goto(s: State, w: nat, p: WorkerPc): State
    requires w < |s.workers|
  {
    s.(workers := s.workers[w := p])
  }

  // The head of the worker's loop: wait for a job or for the shutdown.
  predicate Waits(p: WorkerPc) { p.Top? || p.Test? || p.Awake? || p.Quit? }

  function WaitStep(s: State, w: nat): State
    requires w < |s.workers| && Waits(s.workers[w])
  {
    match s.workers[w]
    case Top => Goto(s, w, Test).(lock := Some(Worker(w)))
    case Test =>
      if s.ring.count == 0 && !s.finished then Goto(s, w, Asleep).(lock := None)
      else if s.finished then Goto(s, w, Quit) else Goto(s, w, Pop)
    case Awake => Goto(s, w, Test).(lock := Some(Worker(w)))
    case Quit => Goto(s, w, Exited).(lock := None)
  }

  predicate Takes(p: WorkerPc) { p.Pop? || p.Popped? || p.PopSignalled? }

  ghost function TakeStep(s: State, w: nat): State
    requires w < |s.workers| && Takes(s.workers[w]) && WorkerSafe(s, w)
  {
    match s.workers[w]
    case Pop =>
      var (args, ring) := s.ring.Pop();
      Goto(s, w, Popped(args)).(ring := ring, popped := s.popped + 1)
    case Popped(a) => Goto(Broadcast(s), w, PopSignalled(a))
    case PopSignalled(a) => Goto(s, w, Start(a, 0)).(lock := None)
  }

  // calc, one multiply-add or one store at a time, without the lock.
  predicate Calculates(p: WorkerPc) { p.Start? || p.Mac? }

  ghost function CalcStep(s: State, w: nat): State
    requires w < |s.workers| && Calculates(s.workers[w]) && WorkerSafe(s, w)
  {
    match s.workers[w]
    case Start(a, o) => if o < a.OC then Goto(s, w, Mac(a, o, 0, BiasOf(s.mem, a, o))) else Goto(s, w, Computed)
    case Mac(a, o, i, val) =>
      if i < a.C then Goto(s, w, Mac(a, o, i + 1, val + s.mem[InpCell(a, i)] * s.mem[WeightCell(a, o, i)]))
      else Goto(s, w, Start(a, o + 1)).(mem := s.mem[OutCell(a, o) := val])
  }

  predicate Retires(p: WorkerPc) { p.Computed? || p.Dec? || p.Deced? || p.DecSignalled? }

  function RetireStep(s: State, w: nat): State
    requires w < |s.workers| && Retires(s.workers[w])
  {
    match s.workers[w]
    case Computed => Goto(s, w, Dec).(lock := Some(Worker(w)))
    case Dec => Goto(s, w, Deced).(remaining := s.remaining - 1)
    case Deced => Goto(Broadcast(s), w, DecSignalled)
    case DecSignalled => Goto(s, w, Top).(lock := None)
  }

  ghost function WorkerStep(s: State, w: nat): State
    requires w < |s.workers| && !WorkerBlocked(s, w) && WorkerSafe(s, w)
  {
    var p := s.workers[w];
    if Waits(p) then WaitStep(s, w)
    else if Takes(p) then TakeStep(s, w)
    else if Calculates(p) then CalcStep(s, w)
    else RetireStep(s, w)
  }

  // Run(t): thread t executes its next statement. Spurious(t): cond_wait of t wakes unasked.
  datatype Event = Run(t: Tid) | Spurious(t: Tid)

  ghost predicate Enabled(cfg: Config, s: State, e: Event) {
    match e
    case Run(Main) => WellPlaced(cfg, s.main) && !MainBlocked(cfg, s)
    case Run(Worker(w)) => w < |s.workers| && !WorkerBlocked(s, w)
    case Spurious(Main) => s.main.FullAsleep? || s.main.DoneAsleep?
    case Spurious(Worker(w)) => w < |s.workers| && s.workers[w].Asleep?
  }

  ghost predicate Safe(cfg: Config, s: State, e: Event)
    requires Enabled(cfg, s, e)
  {
    match e
    case Run(Main) => MainSafe(cfg, s)
    case Run(Worker(w)) => WorkerSafe(s, w)
    case Spurious(_) => true
  }

  ghost function Apply(cfg: Config, s: State, e: Event): State
    requires Enabled(cfg, s, e) && Safe(cfg, s, e)
  {
    match e
    case Run(Main) => MainStep(cfg, s)
    case Run(Worker(w)) => WorkerStep(s, w)
    case Spurious(Main) => s.(main := WakeMain(s.main))
    case Spurious(Worker(w)) => Goto(s, w, Awake)
  }

  // A run: the states an arbitrary schedule passes through.
  ghost predicate IsRun(cfg: Config, states: seq<State>, events: seq<Event>) {
    && |states| == |events| + 1 && Init(cfg, states[0])
    && forall i :: 0 <= i < |events| ==> Moves(cfg, states[i], events[i], states[i + 1])
  }

  ghost predicate Moves(cfg: Config, s: State, e: Event, s': State) {
    Enabled(cfg, s, e) && Safe(cfg, s, e) && s' == Apply(cfg, s, e)
  }
}
