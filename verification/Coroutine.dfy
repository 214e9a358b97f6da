// The scheduler of M2-libco/co.c as a transition system: one step is what the running coroutine
// does up to its next call into the library or the next switch. setjmp and longjmp become a
// saved program point; rand becomes a free choice.

module Coroutine {
  import opened CoList

  type Id = nat
  const MAIN: Id := 0

  datatype Option<T> = None | Some(value: T)

  // Where a coroutine is, or will go on when it is resumed. In Loop it is at the loop of
  // co_wait(target); `wakes` counts the returns of the co_yield there, `stamp` is the number of
  // the call and `alive` tells whether the target was not yet dead at the call. Fallen: the
  // co_yield at the end of wrapper has returned.
  datatype Point = Unstarted | Client | Loop(target: Id, wakes: nat, stamp: nat, alive: bool) | Exit | Fallen

  datatype Thread = Thread(status: Status, waiter: Option<Id>, point: Point, entries: nat)

  // `cos` keeps the coroutines that were freed, in `reaped`, to state that nobody touches them.
  datatype State = State(list: seq<Id>, coNum: int, current: Id, cos: map<Id, Thread>, reaped: set<Id>, clock: nat)

  datatype Event = Start(id: Id) | Wait(target: Id) | Reap | Finish | Switch(choice: Id)

  function Init(): State {
    State([MAIN], 1, MAIN, map[MAIN := Thread(Running, None, Client, 1)], {}, 0)
  }

  function Put(s: State, c: Id, t: Thread): State { s.(cos := s.cos[c := t]) }

  predicate Candidate(s: State, c: Id) {
    c in s.list && c in s.cos && (s.cos[c].status == New || s.cos[c].status == Running)
  }

  // ---- the steps ----

  // co_start
  function StartStep(s: State, id: Id): State {
    Put(s, id, Thread(New, None, Unstarted, 0)).(list := Inserted(s.list, s.current, id), coNum := s.coNum + 1)
  }

  // co_wait, up to its loop
  function WaitStep(s: State, target: Id): State
    requires s.current in s.cos && target in s.cos
  {
    var me, it := s.cos[s.current], s.cos[target];
    var s1 := Put(s, s.current, me.(status := Waiting, point := Loop(target, 0, s.clock, it.status != Dead)));
    Put(s1, target, s1.cos[target].(waiter := Some(s.current))).(clock := s.clock + 1)
  }

  // The loop of co_wait ends: remove_co(target).
  function ReapStep(s: State): State
    requires s.current in s.cos && s.cos[s.current].point.Loop?
  {
    var me := s.cos[s.current];
    Put(s, s.current, me.(point := Client)).(list := Removed(s.list, me.point.target), coNum := s.coNum - 1,
                                            reaped := s.reaped + {me.point.target})
  }

  // The client function returns to wrapper.
  function FinishStep(s: State): State
    requires s.current in s.cos && (s.cos[s.current].waiter.Some? ==> s.cos[s.current].waiter.value in s.cos)
  {
    var me := s.cos[s.current];
    var s1 := Put(s, s.current, me.(status := Dead, point := Exit));
    if me.waiter.None? then s1 else Put(s1, me.waiter.value, s1.cos[me.waiter.value].(status := Running))
  }

  function Resumed(t: Thread): Thread {
    match t.point
    case Unstarted =>
      t.(status := if t.status == New then Running else t.status, point := Client, entries := t.entries + 1)
    case Client => t
    case Loop(target, wakes, stamp, alive) => t.(point := Loop(target, wakes + 1, stamp, alive))
    case Exit => t.(point := Fallen)
    case Fallen => t
  }

  // co_yield with its choice.
  function SwitchStep(s: State, choice: Id): State
    requires choice in s.cos
  {
    Put(s, choice, Resumed(s.cos[choice])).(current := choice)
  }

  predicate TargetDead(s: State, t: Id) { t in s.cos && s.cos[t].status == Dead }

  // The rules for clients: a handle is waited on at most once, by somebody else, and main has no
  // handle. The assert of co_wait ends the program for a target that is itself waiting.
  predicate MayWait(s: State, t: Id) {
    t in s.cos && t !in s.reaped && t != s.current && t != MAIN && s.cos[t].waiter.None? && s.cos[t].status != Waiting
  }

  // What the running coroutine can do.
  predicate Enabled(s: State, e: Event) {
    s.current in s.cos &&
    var me := s.cos[s.current];
    match e
    case Start(id) => me.point.Client? && id !in s.cos
    case Wait(t) => me.point.Client? && MayWait(s, t)
    case Reap => me.point.Loop? && TargetDead(s, me.point.target)
    case Finish => me.point.Client? && s.current != MAIN && (me.waiter.Some? ==> me.waiter.value in s.cos)
    case Switch(choice) => Candidate(s, choice) && (me.point.Loop? ==> !TargetDead(s, me.point.target))
  }

  function Apply(s: State, e: Event): State
    requires Enabled(s, e)
  {
    match e
    case Start(id) => StartStep(s, id)
    case Wait(t) => WaitStep(s, t)
    case Reap => ReapStep(s)
    case Finish => FinishStep(s)
    case Switch(choice) => SwitchStep(s, choice)
  }

  // The hypothesis of the progress claims: no co_wait on a coroutine that is already dead.
  predicate Careful(s: State, e: Event) { e.Wait? && e.target in s.cos ==> s.cos[e.target].status != Dead }

  predicate IsRun(s: State, run: seq<Event>, t: State)
    decreases |run|
  {
    if run == [] then s == t else Enabled(s, run[0]) && IsRun(Apply(s, run[0]), run[1..], t)
  }

  predicate IsCarefulRun(s: State, run: seq<Event>, t: State)
    decreases |run|
  {
    if run == [] then s == t
    else Enabled(s, run[0]) && Careful(s, run[0]) && IsCarefulRun(Apply(s, run[0]), run[1..], t)
  }

  // ---- the invariant ----

  ghost predicate ListInv(s: State) {
    && Distinct(s.list) && s.coNum == |s.list| && s.current in s.list && MAIN in s.list
    && (forall c :: c in s.list <==> c in s.cos && c !in s.reaped) && s.reaped <= s.cos.Keys
  }

  ghost predicate StatusInv(s: State, c: Id)
    requires c in s.cos
  {
    var t := s.cos[c];
    && (t.status == New <==> t.point.Unstarted?) && (t.status == Dead <==> t.point.Exit?) && !t.point.Fallen?
    && t.entries == (if t.status == New then 0 else 1)
    && (c == s.current ==> t.status != New) && (c in s.reaped ==> t.status == Dead)
    && (c == MAIN ==> t.status != Dead && t.status != New && t.waiter.None?)
  }

  // A coroutine in the loop of co_wait and its target know each other; it sleeps exactly as long
  // as the target lives, and among sleepers the later call is the one waited for.
  ghost predicate WaitInv(s: State, c: Id)
    requires c in s.cos
  {
    var t := s.cos[c];
    && (t.point.Loop? ==>
      var u := t.point.target;
      && u in s.cos && u !in s.reaped && u != c && s.cos[u].waiter == Some(c) && t.point.stamp < s.clock
      && (if s.cos[u].status == Dead then
            if t.point.alive then t.status == Running && t.point.wakes == (if c == s.current then 1 else 0)
            else c == s.current && t.status == Waiting && t.point.wakes == 0
          else t.point.alive && t.status == Waiting && t.point.wakes == 0)
      && (s.cos[u].status == Waiting && s.cos[u].point.Loop? ==> s.cos[u].point.stamp > t.point.stamp))
    && (t.waiter.Some? && c !in s.reaped ==>
          t.waiter.value in s.cos && s.cos[t.waiter.value].point.Loop? && s.cos[t.waiter.value].point.target == c)
  }

  ghost predicate ThreadInv(s: State, c: Id) { c in s.cos ==> StatusInv(s, c) && WaitInv(s, c) }

  ghost predicate Inv(s: State) { ListInv(s) && forall c: Id :: ThreadInv(s, c) }

  // Nobody has waited for a dead coroutine: whoever is marked as waiting is in the loop of
  // co_wait, for a target that is not dead.
  ghost predicate Clean(s: State) { forall c: Id :: CleanThread(s, c) }

  ghost predicate CleanThread(s: State, c: Id) {
    c in s.cos ==>
      && (s.cos[c].point.Loop? ==> s.cos[c].point.alive)
      && (s.cos[c].status == Waiting ==> s.cos[c].point.Loop? && !TargetDead(s, s.cos[c].point.target))
  }

  // ---- one lemma for each kind of step ----

  lemma InitInv()
    ensures Inv(Init()) && Clean(Init())
  {
  }

  lemma StartKeeps(s: State, id: Id)
    requires Inv(s) && Enabled(s, Start(id))
    ensures Inv(StartStep(s, id)) && (Clean(s) ==> Clean(StartStep(s, id)))
  {
    var s' := StartStep(s, id);
    InsertedMembers(s.list, s.current, id);
    forall c: Id ensures ThreadInv(s', c) && (Clean(s) ==> CleanThread(s', c)) {
      assert ThreadInv(s, c) && (Clean(s) ==> CleanThread(s, c));
    }
  }

  lemma WaitKeeps(s: State, u: Id)
    requires Inv(s) && Enabled(s, Wait(u))
    ensures Inv(WaitStep(s, u)) && (Clean(s) && s.cos[u].status != Dead ==> Clean(WaitStep(s, u)))
  {
    var s' := WaitStep(s, u);
    assert ThreadInv(s, u) && ThreadInv(s, s.current);
    forall c: Id ensures ThreadInv(s', c) && (Clean(s) && s.cos[u].status != Dead ==> CleanThread(s', c)) {
      assert ThreadInv(s, c) && (Clean(s) ==> CleanThread(s, c));
    }
  }

  lemma ReapKeeps(s: State)
    requires Inv(s) && Enabled(s, Reap)
    ensures Inv(ReapStep(s)) && (Clean(s) ==> Clean(ReapStep(s)))
  {
    var s' := ReapStep(s);
    var u := s.cos[s.current].point.target;
    assert ThreadInv(s, s.current) && ThreadInv(s, u) && ThreadInv(s, MAIN);
    RemovedMembers(s.list, u);
    forall c: Id ensures ThreadInv(s', c) && (Clean(s) ==> CleanThread(s', c)) {
      assert ThreadInv(s, c) && (Clean(s) ==> CleanThread(s, c) && CleanThread(s, s.current));
    }
  }

  lemma FinishKeeps(s: State)
    requires Inv(s) && Enabled(s, Finish)
    ensures Inv(FinishStep(s)) && (Clean(s) ==> Clean(FinishStep(s)))
  {
    var s' := FinishStep(s);
    assert ThreadInv(s, s.current);
    if s.cos[s.current].waiter.Some? { assert ThreadInv(s, s.cos[s.current].waiter.value); }
    forall c: Id ensures ThreadInv(s', c) && (Clean(s) ==> CleanThread(s', c)) {
      assert ThreadInv(s, c) && (Clean(s) ==> CleanThread(s, c));
      if c in s.cos && s.cos[c].point.Loop? { assert ThreadInv(s, s.cos[c].point.target); }
    }
  }

  lemma SwitchKeeps(s: State, choice: Id)
    requires Inv(s) && Enabled(s, Switch(choice))
    ensures Inv(SwitchStep(s, choice)) && (Clean(s) ==> Clean(SwitchStep(s, choice)))
  {
    var s' := SwitchStep(s, choice);
    assert ThreadInv(s, choice) && ThreadInv(s, s.current);
    forall c: Id ensures ThreadInv(s', c) && (Clean(s) ==> CleanThread(s', c)) {
      assert ThreadInv(s, c) && (Clean(s) ==> CleanThread(s, c));
    }
  }

  lemma StepKeeps(s: State, e: Event)
    requires Inv(s) && Enabled(s, e)
    ensures Inv(Apply(s, e)) && (Clean(s) && Careful(s, e) ==> Clean(Apply(s, e)))
  {
    match e
    case Start(id) => StartKeeps(s, id);
    case Wait(u) => WaitKeeps(s, u);
    case Reap => ReapKeeps(s);
    case Finish => FinishKeeps(s);
    case Switch(choice) => SwitchKeeps(s, choice);
  }

  // ---- every reachable state ----

  lemma {:induction false} RunKeeps(s: State, run: seq<Event>, t: State)
    requires Inv(s) && IsRun(s, run, t)
    ensures Inv(t)
    decreases |run|
  {
    if run != [] {
      StepKeeps(s, run[0]);
      RunKeeps(Apply(s, run[0]), run[1..], t);
    }
  }

  lemma {:induction false} CarefulRunKeeps(s: State, run: seq<Event>, t: State)
    requires Inv(s) && Clean(s) && IsCarefulRun(s, run, t)
    ensures Inv(t) && Clean(t)
    decreases |run|
  {
    if run != [] {
      StepKeeps(s, run[0]);
      CarefulRunKeeps(Apply(s, run[0]), run[1..], t);
    }
  }

  // The list is acyclic, as long as co_num says, and holds the running coroutine and exactly the
  // coroutines that have not been reaped; each function has been entered at most once.
  lemma ReachableList(run: seq<Event>, s: State)
    requires IsRun(Init(), run, s)
    ensures Distinct(s.list) && s.coNum == |s.list| && s.current in s.list
    ensures forall c :: c in s.list <==> c in s.cos && c !in s.reaped
    ensures forall c :: c in s.cos ==> s.cos[c].entries <= 1 && !s.cos[c].point.Fallen?
  {
    InitInv();
    RunKeeps(Init(), run, s);
    forall c | c in s.cos ensures s.cos[c].entries <= 1 && !s.cos[c].point.Fallen? {
      assert ThreadInv(s, c);
    }
  }

  // No assert of the library fails, and no step touches a coroutine that was freed.
  lemma NoFault(run: seq<Event>, s: State, e: Event)
    requires IsRun(Init(), run, s) && Enabled(s, e)
    ensures e.Reap? ==> s.coNum > 0 && s.cos[s.current].point.target != s.current
    ensures e.Reap? ==> s.cos[s.current].point.target in s.list
    ensures e.Switch? ==> s.cos[s.current].status != New && e.choice in s.list
    ensures e.Finish? && s.cos[s.current].waiter.Some? ==> s.cos[s.current].waiter.value in s.list
    ensures s.cos[s.current].point.Loop? ==> s.cos[s.current].point.target in s.list
  {
    InitInv();
    RunKeeps(Init(), run, s);
    assert ThreadInv(s, s.current);
    if s.cos[s.current].waiter.Some? { assert ThreadInv(s, s.cos[s.current].waiter.value); }
  }

  // Only a new or running coroutine gets the processor, and the dead stay dead.
  lemma OnlyCandidatesRun(s: State, e: Event)
    requires Inv(s) && Enabled(s, e)
    ensures Apply(s, e).current != s.current ==> Candidate(s, Apply(s, e).current)
    ensures forall c :: c in s.cos && s.cos[c].status == Dead ==>
      c in Apply(s, e).cos && Apply(s, e).cos[c].status == Dead
  {
    assert ThreadInv(s, s.current);
    forall c | c in s.cos && s.cos[c].status == Dead ensures c in Apply(s, e).cos && Apply(s, e).cos[c].status == Dead {
      assert ThreadInv(s, c);
      if e.Finish? && s.cos[s.current].waiter.Some? { assert ThreadInv(s, s.cos[s.current].waiter.value); }
    }
  }

  lemma {:induction false} DeadIsFinal(s: State, run: seq<Event>, t: State, c: Id)
    requires Inv(s) && IsRun(s, run, t) && c in s.cos && s.cos[c].status == Dead
    ensures c in t.cos && t.cos[c].status == Dead && t.cos[c].entries == s.cos[c].entries
    decreases |run|
  {
    if run != [] {
      StepKeeps(s, run[0]);
      OnlyCandidatesRun(s, run[0]);
      assert ThreadInv(s, c) && ThreadInv(Apply(s, run[0]), c);
      DeadIsFinal(Apply(s, run[0]), run[1..], t, c);
    }
  }

  // co_wait returns with its target dead, after at most one return of the co_yield inside; the
  // caller is marked as running then if and only if the target was not dead at the call.
  lemma WaitReturns(run: seq<Event>, s: State)
    requires IsRun(Init(), run, s) && Enabled(s, Reap)
    ensures var p := s.cos[s.current].point;
      && s.cos[p.target].status == Dead && p.wakes == (if p.alive then 1 else 0)
      && (Apply(s, Reap).cos[s.current].status == Running <==> p.alive)
      && (Apply(s, Reap).cos[s.current].status == Waiting <==> !p.alive)
  {
    InitInv();
    RunKeeps(Init(), run, s);
    assert ThreadInv(s, s.current);
  }

  // ---- progress ----

  // Following the wait-for edges from c.
  ghost function LeadsTo(s: State, c: Id): (r: Id)
    requires Inv(s) && Clean(s) && c in s.cos && c !in s.reaped && s.cos[c].status != Dead
    ensures Candidate(s, r)
    decreases if s.cos[c].point.Loop? && s.cos[c].status == Waiting then s.clock - s.cos[c].point.stamp else 0
  {
    assert ThreadInv(s, c) && CleanThread(s, c);
    if s.cos[c].status == Waiting then
      assert ThreadInv(s, s.cos[c].point.target) && CleanThread(s, s.cos[c].point.target);
      LeadsTo(s, s.cos[c].point.target)
    else c
  }

  // The wait-for graph has no cycle: the stamps grow along its edges.
  lemma EdgesGrow(run: seq<Event>, s: State, c: Id)
    requires IsRun(Init(), run, s) && c in s.cos && s.cos[c].status == Waiting && s.cos[c].point.Loop?
    ensures var u := s.cos[c].point.target;
      u in s.cos && u != c && (s.cos[u].status == Waiting && s.cos[u].point.Loop? ==>
        s.cos[c].point.stamp < s.cos[u].point.stamp)
  {
    InitInv();
    RunKeeps(Init(), run, s);
    assert ThreadInv(s, c);
  }

  // Whoever waits leads to a coroutine that can run ...
  lemma WaitersLead(run: seq<Event>, s: State, c: Id)
    requires IsCarefulRun(Init(), run, s) && c in s.list && c in s.cos && s.cos[c].status == Waiting
    ensures Inv(s) && Clean(s) && c !in s.reaped && Candidate(s, LeadsTo(s, c))
    ensures s.cos[c].point.Loop? && s.cos[c].point.target in s.list
  {
    InitInv();
    CarefulRunKeeps(Init(), run, s);
    assert ThreadInv(s, c) && CleanThread(s, c);
  }

  // ... and main is never dead, so co_yield always has a choice.
  lemma AlwaysACandidate(run: seq<Event>, s: State)
    requires IsCarefulRun(Init(), run, s)
    ensures exists r :: Candidate(s, r) && r in s.list
  {
    InitInv();
    CarefulRunKeeps(Init(), run, s);
    assert ThreadInv(s, MAIN);
    var r := LeadsTo(s, MAIN);
  }

  // After any run at all, if nobody can be chosen then somebody has called co_wait on a coroutine
  // that was already dead, and has been marked as waiting since.
  ghost predicate Stale(s: State, c: Id) {
    c in s.list && c in s.cos && s.cos[c].status == Waiting && (s.cos[c].point.Loop? ==> !s.cos[c].point.alive)
  }

  lemma NobodyMeansStale(run: seq<Event>, s: State)
    requires IsRun(Init(), run, s) && forall r :: !Candidate(s, r)
    ensures exists c :: Stale(s, c)
  {
    InitInv();
    RunKeeps(Init(), run, s);
    assert ThreadInv(s, MAIN);
    var c := Sleeper(s, MAIN);
  }

  // Following the edges from a coroutine that is not dead ends at one that can run or is stale.
  ghost function Sleeper(s: State, c: Id): (r: Id)
    requires Inv(s) && c in s.cos && c !in s.reaped && s.cos[c].status != Dead
    ensures Candidate(s, r) || Stale(s, r)
    decreases if s.cos[c].point.Loop? && s.cos[c].status == Waiting then s.clock - s.cos[c].point.stamp else 0
  {
    assert ThreadInv(s, c);
    if s.cos[c].status == Waiting && s.cos[c].point.Loop? && s.cos[c].point.alive then
      assert ThreadInv(s, s.cos[c].point.target);
      Sleeper(s, s.cos[c].point.target)
    else c
  }

  // Without the rule the claim fails: main waits for a coroutine that has already died, is marked
  // as waiting ever after, and then nobody can be chosen.
  const DIES: seq<Event> := [Start(1), Switch(1), Finish]
  const WAITED: seq<Event> := [Switch(MAIN), Wait(1), Reap]

  function Mid(): State {
    State([MAIN, 1], 2, 1, map[MAIN := Thread(Running, None, Client, 1), 1 := Thread(Dead, None, Exit, 1)], {}, 0)
  }

  function Stuck(): State {
    State([MAIN], 1, MAIN, map[MAIN := Thread(Waiting, None, Client, 1), 1 := Thread(Dead, Some(MAIN), Exit, 1)], {1},
      1)
  }

  lemma Dies()
    ensures IsRun(Init(), DIES, Mid())
  {
    var s1 := Apply(Init(), Start(1));
    assert s1 == State([MAIN, 1], 2, MAIN,
      map[MAIN := Thread(Running, None, Client, 1), 1 := Thread(New, None, Unstarted, 0)], {}, 0);
    var s2 := Apply(s1, Switch(1));
    assert s2 == State([MAIN, 1], 2, 1,
      map[MAIN := Thread(Running, None, Client, 1), 1 := Thread(Running, None, Client, 1)], {}, 0);
    assert Apply(s2, Finish) == Mid();
    assert DIES[1..] == [Switch(1), Finish] && DIES[1..][1..] == [Finish];
    assert IsRun(s2, [Finish], Mid());
    assert IsRun(s1, [Switch(1), Finish], Mid());
  }

  lemma Waited()
    ensures IsRun(Mid(), WAITED, Stuck())
  {
    var s1 := Apply(Mid(), Switch(MAIN));
    assert s1 == Mid().(current := MAIN);
    var s2 := Apply(s1, Wait(1));
    assert s2 == State([MAIN, 1], 2, MAIN,
      map[MAIN := Thread(Waiting, None, Loop(1, 0, 0, false), 1), 1 := Thread(Dead, Some(MAIN), Exit, 1)], {}, 1);
    assert Apply(s2, Reap) == Stuck();
    assert WAITED[1..] == [Wait(1), Reap] && WAITED[1..][1..] == [Reap];
    assert IsRun(s2, [Reap], Stuck());
    assert IsRun(s1, [Wait(1), Reap], Stuck());
  }

  lemma {:induction false} RunsJoin(s: State, a: seq<Event>, t: State, b: seq<Event>, u: State)
    requires IsRun(s, a, t) && IsRun(t, b, u)
    ensures IsRun(s, a + b, u)
    decreases |a|
  {
    if a == [] {
      assert a + b == b;
    } else {
      assert (a + b)[1..] == a[1..] + b;
      RunsJoin(Apply(s, a[0]), a[1..], t, b, u);
    }
  }

  lemma DeadWaitSticks()
    ensures IsRun(Init(), DIES + WAITED, Stuck()) && forall r :: !Candidate(Stuck(), r)
  {
    Dies();
    Waited();
    RunsJoin(Init(), DIES, Mid(), WAITED, Stuck());
  }
}
