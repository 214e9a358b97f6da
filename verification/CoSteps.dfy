// What the functions of M2-libco/co.c do to their list in place are the steps of the transition
// system: each takes a scheduler that shows a state to one that shows the state after the step.

module CoSteps {
  import opened CoList
  import opened Coroutine

  // What the library stores, read off the heap.
  datatype Fields = Fields(status: Status, waiter: Co?)
  datatype View = View(list: seq<Co>, coNum: int, current: Co, fields: map<Co, Fields>)

  function FieldsOf(l: seq<Co>): map<Co, Fields>
    reads l
  {
    map c | c in l :: Fields(c.status, c.waiter)
  }

  ghost function ViewOf(sch: Scheduler): View
    requires sch.Valid()
    reads sch, sch.list
  {
    View(sch.list, sch.coNum, sch.current, FieldsOf(sch.list))
  }

  // It is state s, where `who` says which coroutine is which.
  ghost predicate Shows(v: View, s: State, who: map<Co, Id>) {
    && Named(v.list, s.list, who) && Distinct(v.list) && s.coNum == v.coNum && Injective(who)
    && who.Values <= s.cos.Keys && v.current in v.list && v.current in who && who[v.current] == s.current
    && forall c :: c in v.list ==> c in who && c in v.fields && IsShown(who[c], v.fields[c], s, who)
  }

  ghost predicate IsShown(id: Id, f: Fields, s: State, who: map<Co, Id>) {
    && id in s.cos && s.cos[id].status == f.status
    && if f.waiter == null then s.cos[id].waiter == None
       else f.waiter in who && s.cos[id].waiter == Some(who[f.waiter])
  }

  ghost predicate Injective(who: map<Co, Id>) { forall c, d :: c in who && d in who && who[c] == who[d] ==> c == d }

  ghost predicate Named(l: seq<Co>, ids: seq<Id>, who: map<Co, Id>) {
    |l| == |ids| && forall i :: 0 <= i < |l| ==> l[i] in who && who[l[i]] == ids[i]
  }

  lemma NamesDiffer(l: seq<Co>, ids: seq<Id>, who: map<Co, Id>)
    requires Named(l, ids, who) && Injective(who) && Distinct(l)
    ensures Distinct(ids)
  {
  }

  // The names of a longer list, and of a shorter one.
  lemma NamesInserted(l: seq<Co>, ids: seq<Id>, who: map<Co, Id>, at: Co, co: Co, id: Id)
    requires Named(l, ids, who) && Injective(who) && Distinct(l) && at in l && co !in who
    ensures Named(Inserted(l, at, co), Inserted(ids, who[at], id), who[co := id])
  {
    var i :| 0 <= i < |l| && l[i] == at;
    NamesDiffer(l, ids, who);
    InsertedAt(l, i, co);
    InsertedAt(ids, i, id);
  }

  lemma NamesRemoved(l: seq<Co>, ids: seq<Id>, who: map<Co, Id>, co: Co)
    requires Named(l, ids, who) && Injective(who) && Distinct(l) && co in l
    ensures Named(Removed(l, co), Removed(ids, who[co]), who)
  {
    var i :| 0 <= i < |l| && l[i] == co;
    NamesDiffer(l, ids, who);
    RemovedAt(l, i);
    RemovedAt(ids, i);
  }

  // init
  method Begin() returns (sch: Scheduler, ghost who: map<Co, Id>)
    ensures fresh(sch) && fresh(sch.list) && sch.Valid() && Shows(ViewOf(sch), Init(), who)
  {
    sch := new Scheduler();
    who := map[sch.current := MAIN];
  }

  // ---- co_start ----

  method Started(sch: Scheduler, ghost s: State, ghost who: map<Co, Id>, ghost id: Id) returns (co: Co)
    requires sch.Valid() && Shows(ViewOf(sch), s, who) && Coroutine.Enabled(s, Start(id))
    modifies sch, sch.current`next
    ensures fresh(co) && sch.Valid() && Shows(ViewOf(sch), Apply(s, Start(id)), who[co := id])
  {
    hide Shows, Inserted, Distinct, Apply, Coroutine.Enabled;
    ghost var v := ViewOf(sch);
    co := sch.CoStart();
    InsertedInto(v, s, who, co);
    assert ViewOf(sch).fields == v.fields[co := Fields(New, null)];
    StartShown(v, ViewOf(sch), s, who, co, id);
  }

  lemma InsertedInto(v: View, s: State, who: map<Co, Id>, co: Co)
    requires Shows(v, s, who) && co !in who
    ensures |Inserted(v.list, v.current, co)| == |v.list| + 1
    ensures forall y :: y in Inserted(v.list, v.current, co) <==> y in v.list || y == co
  {
    InsertedMembers(v.list, v.current, co);
  }

  lemma InjectiveMore(who: map<Co, Id>, co: Co, id: Id)
    requires Injective(who) && co !in who && id !in who.Values
    ensures Injective(who[co := id])
  {
  }

  lemma StartShown(v: View, w: View, s: State, who: map<Co, Id>, co: Co, id: Id)
    requires Shows(v, s, who) && Coroutine.Enabled(s, Start(id)) && co !in who
    requires w == View(Inserted(v.list, v.current, co), v.coNum + 1, v.current, v.fields[co := Fields(New, null)])
    ensures Shows(w, Apply(s, Start(id)), who[co := id])
  {
    hide Inserted, Distinct, Injective, Named;
    NamesInserted(v.list, s.list, who, v.current, co, id);
    InjectiveMore(who, co, id);
    InsertedMembers(v.list, v.current, co);
    forall c | c in w.list
      ensures c in who[co := id] && c in w.fields
      ensures IsShown(who[co := id][c], w.fields[c], Apply(s, Start(id)), who[co := id])
    {
      assert c in v.list || c == co;
    }
  }

  // ---- co_wait ----

  method Waits(sch: Scheduler, co: Co, ghost s: State, ghost who: map<Co, Id>)
    requires sch.Valid() && Shows(ViewOf(sch), s, who) && co in sch.list && co in who
    requires Coroutine.Enabled(s, Wait(who[co]))
    modifies sch.current`status, co`waiter
    ensures sch.Valid() && Shows(ViewOf(sch), Apply(s, Wait(who[co])), who)
  {
    hide Shows, Distinct, Apply, Coroutine.Enabled;
    ghost var v := ViewOf(sch);
    WaitMembers(v, co, s, who);
    sch.BeginWait(co);
    assert ViewOf(sch).fields == WaitFields(v.fields, v.current, co);
    WaitShown(v, ViewOf(sch), s, who, co);
  }

  lemma WaitMembers(v: View, co: Co, s: State, who: map<Co, Id>)
    requires Shows(v, s, who) && co in v.list && co in who && Coroutine.Enabled(s, Wait(who[co]))
    ensures co in v.fields && co != v.current && v.fields[co].status != Waiting
  {
  }

  // The caller waits, and the target knows it.
  function WaitFields(fields: map<Co, Fields>, me: Co, co: Co): map<Co, Fields>
    requires me in fields && co in fields
  {
    fields[me := fields[me].(status := Waiting)][co := Fields(fields[co].status, me)]
  }

  lemma WaitShown(v: View, w: View, s: State, who: map<Co, Id>, co: Co)
    requires Shows(v, s, who) && co in v.list && co in who && Coroutine.Enabled(s, Wait(who[co]))
    requires w == v.(fields := WaitFields(v.fields, v.current, co))
    ensures Shows(w, Apply(s, Wait(who[co])), who)
  {
  }

  // The end of co_wait. Only a coroutine that is still in the list is waited for.
  method Reaped(sch: Scheduler, co: Co, ghost s: State, ghost who: map<Co, Id>)
    requires sch.Valid() && Shows(ViewOf(sch), s, who) && Inv(s) && Coroutine.Enabled(s, Reap)
    requires co in who && who[co] == s.cos[s.current].point.target
    modifies sch, sch.list`next
    ensures sch.Valid() && Shows(ViewOf(sch), Apply(s, Reap), who)
  {
    hide Shows, Removed, Distinct, Inv, Apply, Coroutine.Enabled;
    ghost var v := ViewOf(sch);
    TargetInList(v, co, s, who);
    sch.RemoveCo(co);
    RemovedFrom(v, s, who, co);
    assert ViewOf(sch).fields == v.fields - {co};
    ReapShown(v, ViewOf(sch), s, who, co);
  }

  lemma TargetInList(v: View, co: Co, s: State, who: map<Co, Id>)
    requires Shows(v, s, who) && Inv(s) && Coroutine.Enabled(s, Reap) && co in who
    requires who[co] == s.cos[s.current].point.target
    ensures co in v.list && co != v.current
  {
    assert ThreadInv(s, s.current);
    var i :| 0 <= i < |s.list| && s.list[i] == who[co];
    assert v.list[i] == co;
  }

  lemma RemovedFrom(v: View, s: State, who: map<Co, Id>, co: Co)
    requires Shows(v, s, who) && co in v.list
    ensures |Removed(v.list, co)| == |v.list| - 1
    ensures forall y :: y in Removed(v.list, co) <==> y in v.list && y != co
  {
    RemovedMembers(v.list, co);
  }

  lemma ReapShown(v: View, w: View, s: State, who: map<Co, Id>, co: Co)
    requires Shows(v, s, who) && Coroutine.Enabled(s, Reap) && co in v.list && co != v.current
    requires who[co] == s.cos[s.current].point.target
    requires w == View(Removed(v.list, co), v.coNum - 1, v.current, v.fields - {co})
    ensures Shows(w, Apply(s, Reap), who)
  {
    NamesRemoved(v.list, s.list, who, co);
    RemovedMembers(v.list, co);
  }

  // ---- the end of wrapper ----

  method Finished(sch: Scheduler, ghost s: State, ghost who: map<Co, Id>)
    requires sch.Valid() && Shows(ViewOf(sch), s, who) && Inv(s) && Coroutine.Enabled(s, Finish)
    modifies sch.current`status, (if sch.current.waiter == null then {} else {sch.current.waiter})`status
    ensures sch.Valid() && Shows(ViewOf(sch), Apply(s, Finish), who)
  {
    hide Shows, Distinct, Apply, Coroutine.Enabled, Inv;
    ghost var v := ViewOf(sch);
    WaiterIsOther(v, s, who);
    sch.Die();
    assert ViewOf(sch).fields == DeadFields(v.fields, v.current);
    FinishShown(v, ViewOf(sch), s, who);
  }

  // The coroutine is dead, and who waits for it can run.
  function DeadFields(fields: map<Co, Fields>, me: Co): map<Co, Fields>
    requires me in fields
  {
    var dead := fields[me := fields[me].(status := Dead)];
    if fields[me].waiter != null && fields[me].waiter in fields
    then dead[fields[me].waiter := fields[fields[me].waiter].(status := Running)]
    else dead
  }

  lemma FinishShown(v: View, w: View, s: State, who: map<Co, Id>)
    requires Shows(v, s, who) && Inv(s) && Coroutine.Enabled(s, Finish) && v.current in v.fields
    requires w == v.(fields := DeadFields(v.fields, v.current))
    ensures Shows(w, Apply(s, Finish), who)
  {
    WaiterIsOther(v, s, who);
  }

  lemma WaiterIsOther(v: View, s: State, who: map<Co, Id>)
    requires Shows(v, s, who) && Inv(s) && Coroutine.Enabled(s, Finish)
    ensures v.current in v.fields && v.fields[v.current].waiter != v.current
  {
    assert ThreadInv(s, s.current);
    if s.cos[s.current].waiter.Some? { assert ThreadInv(s, s.cos[s.current].waiter.value); }
  }

  // ---- co_yield ----

  // Once rand() has given a candidate, exactly a switch that the system allows.
  method Switched(sch: Scheduler, rands: seq<nat>, ghost s: State, ghost who: map<Co, Id>) returns (choice: Co?)
    requires sch.Valid() && sch.list != [] && Shows(ViewOf(sch), s, who) && Inv(s) && MaySwitch(s)
    modifies sch`current, sch.list`status
    ensures sch.Valid() && (choice == null ==> Shows(ViewOf(sch), s, who))
    ensures choice != null ==> choice in who && Coroutine.Enabled(s, Switch(who[choice]))
    ensures choice != null ==> Shows(ViewOf(sch), Apply(s, Switch(who[choice])), who)
    ensures choice == null <==> old(NoneBefore(sch.list, rands, |rands|))
    ensures choice != null ==> old(Picks(sch.list, rands, choice))
  {
    hide Shows, Distinct, Apply, Coroutine.Enabled, MaySwitch, Inv, StartsNew, NoneBefore, Picks, Rolled;
    ghost var v := ViewOf(sch);
    choice := sch.Choose(rands);
    if choice != null {
      CandidateShown(v, choice, s, who);
      InvStartsNew(s);
      sch.Resume(choice);
      assert ViewOf(sch).fields == v.fields[choice := Fields(Running, v.fields[choice].waiter)];
      SwitchShown(v, ViewOf(sch), s, who, choice);
    }
  }

  // The other way round: whatever switch the system allows, one roll of rand() makes co_yield take it,
  // and no other.
  lemma EverySwitch(sch: Scheduler, s: State, who: map<Co, Id>, id: Id)
    requires sch.Valid() && sch.list != [] && Shows(ViewOf(sch), s, who) && Coroutine.Enabled(s, Switch(id))
    ensures exists co: Co, rand: nat :: co in sch.list && co in who && who[co] == id && Takes(sch.list, rand, co)
  {
    var i := Listed(ViewOf(sch), s, who, id);
    var co := sch.list[i];
    hide Shows, Takes, Coroutine.Enabled;
    EachCanBeTaken(sch.list, co);
    var rand: nat :| Takes(sch.list, rand, co);
  }

  lemma Listed(v: View, s: State, who: map<Co, Id>, id: Id) returns (i: nat)
    requires Shows(v, s, who) && Coroutine.Enabled(s, Switch(id))
    ensures i < |v.list| && v.list[i] in who && who[v.list[i]] == id
    ensures v.list[i] in v.fields && v.fields[v.list[i]].status in {New, Running}
  {
    i :| i < |s.list| && s.list[i] == id;
    assert v.list[i] in v.list;
  }

  // The running coroutine is not about to return from co_wait.
  predicate MaySwitch(s: State) {
    s.current in s.cos && (s.cos[s.current].point.Loop? ==> !TargetDead(s, s.cos[s.current].point.target))
  }

  // A coroutine is new exactly as long as it has not been entered.
  predicate StartsNew(s: State) {
    forall c :: c in s.cos ==> (s.cos[c].status == New <==> s.cos[c].point.Unstarted?)
  }

  lemma InvStartsNew(s: State)
    requires Inv(s)
    ensures StartsNew(s)
  {
    forall c | c in s.cos ensures s.cos[c].status == New <==> s.cos[c].point.Unstarted? { assert ThreadInv(s, c); }
  }

  lemma CandidateShown(v: View, choice: Co, s: State, who: map<Co, Id>)
    requires Shows(v, s, who) && choice in v.list && choice in v.fields && v.fields[choice].status in {New, Running}
    requires MaySwitch(s)
    ensures choice in who && Coroutine.Enabled(s, Switch(who[choice]))
  {
    var i :| 0 <= i < |v.list| && v.list[i] == choice;
    assert s.list[i] == who[choice];
  }

  lemma SwitchShown(v: View, w: View, s: State, who: map<Co, Id>, choice: Co)
    requires Shows(v, s, who) && StartsNew(s) && choice in v.list && choice in who
      && Coroutine.Enabled(s, Switch(who[choice]))
    requires choice in v.fields && w == v.(current := choice, fields := v.fields[choice := Fields(Running,
      v.fields[choice].waiter)])
    ensures Shows(w, Apply(s, Switch(who[choice])), who)
  {
  }
}
