// The coroutine list of M2-libco/co.c: a linked list with a cursor, changed in place.

module CoList {
  datatype Status = New | Running | Waiting | Dead

  // ---- the list as a sequence ----

  predicate Distinct<T(==)>(l: seq<T>) { forall i, j :: 0 <= i < j < |l| ==> l[i] != l[j] }

  // x put right after `at`.
  function Inserted<T(==)>(l: seq<T>, at: T, x: T): seq<T> {
    if l == [] then [] else if l[0] == at then [at, x] + l[1..] else [l[0]] + Inserted(l[1..], at, x)
  }

  function Removed<T(==)>(l: seq<T>, x: T): seq<T> {
    if l == [] then [] else if l[0] == x then l[1..] else [l[0]] + Removed(l[1..], x)
  }

  lemma {:induction false} InsertedAt<T>(l: seq<T>, i: nat, x: T)
    requires i < |l| && Distinct(l)
    ensures Inserted(l, l[i], x) == l[..i + 1] + [x] + l[i + 1..]
  {
    if i > 0 {
      InsertedAt(l[1..], i - 1, x);
      assert l[..i + 1] == [l[0]] + l[1..][..i] && l[i + 1..] == l[1..][i..];
    } else {
      assert l[..1] == [l[0]];
    }
  }

  lemma {:induction false} RemovedAt<T>(l: seq<T>, i: nat)
    requires i < |l| && Distinct(l)
    ensures Removed(l, l[i]) == l[..i] + l[i + 1..]
  {
    if i > 0 {
      RemovedAt(l[1..], i - 1);
      assert l[..i] == [l[0]] + l[1..][..i - 1] && l[i + 1..] == l[1..][i..];
    }
  }

  // Where the members are afterwards.
  ghost predicate IsInserted<T>(l: seq<T>, i: nat, x: T, m: seq<T>)
    requires i < |l|
  {
    && |m| == |l| + 1 && Distinct(m)
    && forall j {:trigger m[j]} :: 0 <= j < |m| ==> m[j] == if j <= i then l[j] else if j == i + 1 then x else l[j - 1]
  }

  ghost predicate IsRemoved<T>(l: seq<T>, i: nat, m: seq<T>)
    requires i < |l|
  {
    && |m| == |l| - 1 && Distinct(m)
    && forall j {:trigger m[j]} :: 0 <= j < |m| ==> m[j] == if j < i then l[j] else l[j + 1]
  }

  lemma InsertedIndex<T>(l: seq<T>, i: nat, x: T)
    requires i < |l| && Distinct(l) && x !in l
    ensures IsInserted(l, i, x, Inserted(l, l[i], x))
  {
    hide Inserted, Distinct;
    InsertedAt(l, i, x);
    var m := l[..i + 1] + [x] + l[i + 1..];
    assert forall j {:trigger m[j]} :: 0 <= j < |m| ==>
      m[j] == if j <= i then l[j] else if j == i + 1 then x else l[j - 1];
    StillDistinct(l, i, x, m);
  }

  lemma StillDistinct<T>(l: seq<T>, i: nat, x: T, m: seq<T>)
    requires i < |l| && Distinct(l) && x !in l && |m| == |l| + 1
    requires forall j {:trigger m[j]} :: 0 <= j < |m| ==>
      m[j] == if j <= i then l[j] else if j == i + 1 then x else l[j - 1]
    ensures Distinct(m)
  {
  }

  lemma RemovedIndex<T>(l: seq<T>, i: nat)
    requires i < |l| && Distinct(l)
    ensures IsRemoved(l, i, Removed(l, l[i]))
  {
    hide Removed, Distinct;
    RemovedAt(l, i);
    var m := l[..i] + l[i + 1..];
    assert forall j {:trigger m[j]} :: 0 <= j < |m| ==> m[j] == if j < i then l[j] else l[j + 1];
    RestDistinct(l, i, m);
  }

  lemma RestDistinct<T>(l: seq<T>, i: nat, m: seq<T>)
    requires i < |l| && Distinct(l) && |m| == |l| - 1
    requires forall j {:trigger m[j]} :: 0 <= j < |m| ==> m[j] == if j < i then l[j] else l[j + 1]
    ensures Distinct(m)
  {
  }

  // Inserting adds exactly x, removing takes away exactly x, and the order of the rest stays.
  lemma InsertedMembers<T>(l: seq<T>, at: T, x: T)
    requires Distinct(l) && at in l && x !in l
    ensures var m := Inserted(l, at, x); Distinct(m) && |m| == |l| + 1 && forall y :: y in m <==> y in l || y == x
  {
    var i :| 0 <= i < |l| && l[i] == at;
    InsertedIndex(l, i, x);
    InsertedAt(l, i, x);
    forall y ensures y in Inserted(l, at, x) <==> y in l || y == x {
      assert l == l[..i + 1] + l[i + 1..];
    }
  }

  lemma RemovedMembers<T>(l: seq<T>, x: T)
    requires Distinct(l) && x in l
    ensures var m := Removed(l, x); Distinct(m) && |m| == |l| - 1 && forall y :: y in m <==> y in l && y != x
  {
    var i :| 0 <= i < |l| && l[i] == x;
    RemovedIndex(l, i);
    var m := Removed(l, x);
    forall y | y in l && y != x ensures y in m {
      var j :| 0 <= j < |l| && l[j] == y;
      assert if j < i then m[j] == y else m[j - 1] == y;
    }
  }

  lemma InsertThenRemove<T>(l: seq<T>, at: T, x: T)
    requires Distinct(l) && at in l && x !in l
    ensures Removed(Inserted(l, at, x), x) == l
  {
    var i :| 0 <= i < |l| && l[i] == at;
    InsertedIndex(l, i, x);
    RemovedIndex(Inserted(l, at, x), i + 1);
  }

  // ---- the list in place ----

  class Co {
    var status: Status
    var waiter: Co?
    var next: Co?
    constructor ()
      ensures status == New && waiter == null && next == null
    {
      status, waiter, next := New, null, null;
    }
  }

  // The pointer to member i, which is NULL past the end.
  function At(l: seq<Co>, i: nat): Co? { if i < |l| then l[i] else null }

  lemma AtInserted(l: seq<Co>, i: nat, x: Co, m: seq<Co>, j: nat)
    requires i < |l| && IsInserted(l, i, x, m) && j < |m|
    ensures m[j] == (if j <= i then l[j] else if j == i + 1 then x else l[j - 1])
    ensures At(m, j + 1) == (if j < i then At(l, j + 1) else if j == i then x else At(l, j))
    ensures (m[j] == m[i] <==> j == i) && (m[j] == m[i + 1] <==> j == i + 1)
  {
  }

  lemma AtRemoved(l: seq<Co>, k: nat, m: seq<Co>, j: nat)
    requires k < |l| && IsRemoved(l, k, m) && j < |m|
    ensures m[j] == if j < k then l[j] else l[j + 1]
    ensures At(m, j + 1) == if j + 1 < k then At(l, j + 1) else At(l, j + 2)
  {
  }

  // ---- which member co_yield chooses ----

  // The member that a random number selects.
  function Rolled(l: seq<Co>, rand: nat): (c: Co)
    requires l != []
    ensures c in l
  {
    l[rand % |l|]
  }

  predicate MayRun(c: Co) reads c { c.status == New || c.status == Running }

  // None of the first i rolls gives a candidate.
  ghost predicate NoneBefore(l: seq<Co>, rands: seq<nat>, i: nat)
    requires l != [] && i <= |rands|
    reads l
  {
    forall j :: 0 <= j < i ==> !MayRun(Rolled(l, rands[j]))
  }

  // The first roll that gives a candidate gives c.
  ghost predicate Picks(l: seq<Co>, rands: seq<nat>, c: Co)
    requires l != []
    reads l, c
  {
    MayRun(c) && exists i :: 0 <= i < |rands| && Rolled(l, rands[i]) == c && NoneBefore(l, rands, i)
  }

  class Scheduler {
    var coNum: int
    var current: Co?
    var head: Co?
    ghost var list: seq<Co>

    // From head, `next` runs through `list` and ends; the cursor is on it.
    ghost predicate Valid() reads this, list {
      && Distinct(list) && coNum == |list| && current != null && current in list && head == At(list, 0)
      && forall i: nat {:trigger list[i]} :: i < |list| ==> list[i].next == At(list, i + 1)
    }

    // init: main alone.
    constructor ()
      ensures Valid() && fresh(list) && |list| == 1 && list[0] == current && list[0].status == Running
      ensures list[0].waiter == null
    {
      var main := new Co();
      main.status := Running;
      current, head, coNum, list := main, main, 1, [main];
    }

    method InsertCo(co: Co)
      requires current != null ==> Valid() && co !in list
      modifies this, (if current == null then {co} else {current, co})`next
      ensures old(current) != null ==>
        Valid() && list == Inserted<Co>(old(list), old(current), co) && current == old(current)
      ensures old(current) == null ==> current == co && co.next == null && head == old(head) && coNum == old(coNum) + 1
    {
      if current == null {
        current := co;
        co.next := null;
      } else {
        ghost var i: nat :| i < |list| && list[i] == current;
        InsertedIndex(list, i, co);
        LinkAfter(co, i, Inserted<Co>(list, current, co));
      }
      coNum := coNum + 1;
    }

    method LinkAfter(co: Co, ghost i: nat, ghost m: seq<Co>)
      requires Valid() && i < |list| && list[i] == current && co !in list && IsInserted(list, i, co, m)
      modifies this`list, {current, co}`next
      ensures list == m && Distinct(m) && current in m && head == At(m, 0)
      ensures forall j: nat {:trigger m[j]} :: j < |m| ==> m[j].next == At(m, j + 1)
    {
      var temp := current.next;
      current.next := co;
      co.next := temp;
      forall j: nat | j < |m| ensures m[j].next == At(m, j + 1) {
        AtInserted(list, i, co, m, j);
        assert m[j] == current <==> j == i;
        assert m[j] == co <==> j == i + 1;
      }
      assert m[i] == current;
      list := m;
    }

    // The loop of remove_co: the member whose link leads to co, or null if that is head.
    method FindLink(co: Co, ghost k: nat) returns (prev: Co?)
      requires Valid() && k < |list| && list[k] == co
      ensures prev == if k == 0 then null else list[k - 1]
    {
      prev := null;
      var temp := head;
      ghost var i: nat := 0;
      while temp != null
        invariant i <= k && temp == list[i] && prev == (if i == 0 then null else list[i - 1])
        decreases k - i
      {
        if temp == co {
          break;
        }
        prev := temp;
        temp := temp.next;
        i := i + 1;
      }
    }

    // The asserts of remove_co are its precondition.
    method RemoveCo(co: Co)
      requires Valid() && co in list && current != co
      modifies this, list`next
      ensures Valid() && list == Removed(old(list), co) && current == old(current)
    {
      ghost var k: nat :| k < |list| && list[k] == co;
      ghost var c: nat :| c < |list| && list[c] == current;
      ghost var m := Removed(list, co);
      RemovedIndex(list, k);
      assert (if c < k then m[c] else m[c - 1]) == current;
      var prev := FindLink(co, k);
      Unlink(prev, co, k, m);
    }

    // What the loop does once it has found co.
    method Unlink(prev: Co?, co: Co, ghost k: nat, ghost m: seq<Co>)
      requires Valid() && k < |list| && list[k] == co && prev == (if k == 0 then null else list[k - 1])
      requires IsRemoved(list, k, m) && current in m
      modifies this, list`next
      ensures Valid() && list == m && current == old(current)
    {
      if prev == null {
        head := co.next;
      } else {
        prev.next := co.next;
      }
      forall j: nat | j < |m| ensures m[j].next == At(m, j + 1) {
        AtRemoved(list, k, m, j);
        assert m[j] == prev <==> j + 1 == k;
      }
      list := m;
      coNum := coNum - 1;
    }

    // co_start
    method CoStart() returns (co: Co)
      requires Valid()
      modifies this, current`next
      ensures Valid() && fresh(co) && list == Inserted<Co>(old(list), old(current), co) && current == old(current)
      ensures co.status == New && co.waiter == null
    {
      co := new Co();
      InsertCo(co);
    }

    // co_wait, up to its loop; its assert is the second precondition.
    method BeginWait(co: Co)
      requires Valid() && co in list && co != current && co.status != Waiting
      modifies current`status, co`waiter
      ensures Valid() && current.status == Waiting && co.waiter == current && co.status == old(co.status)
    {
      current.status := Waiting;
      co.waiter := current;
    }

    // The end of wrapper, before it yields.
    method Die()
      requires Valid() && (current.waiter != null ==> current.waiter != current)
      modifies current`status, (if current.waiter == null then {} else {current.waiter})`status
      ensures Valid() && current.status == Dead && current.waiter == old(current.waiter)
      ensures current.waiter != null ==> current.waiter.status == Running
    {
      current.status := Dead;
      if current.waiter != null { current.waiter.status := Running; }
    }

    // co_yield once it has chosen: a new coroutine starts in wrapper, which marks it as running.
    method Resume(choice: Co)
      requires Valid() && choice in list
      modifies this`current, choice`status
      ensures Valid() && current == choice
      ensures choice.status == if old(choice.status) == New then Running else old(choice.status)
    {
      current := choice;
      if current.status == New { current.status := Running; }
    }

    // rand() may give any value; the walk never runs off the list.
    method RandomSelectCo(rand: nat) returns (choice: Co)
      requires Valid()
      ensures choice == Rolled(list, rand)
    {
      var num := rand % coNum;
      var temp := head;
      ghost var i: nat := 0;
      while num > 0
        invariant 0 <= num && i + num == rand % coNum && temp == list[i]
        decreases num
      {
        num := num - 1;
        temp := temp.next;
        i := i + 1;
      }
      choice := temp;
    }

    // The loop at the start of co_yield, for as many rolls as it takes: the first candidate.
    method Choose(rands: seq<nat>) returns (choice: Co?)
      requires Valid()
      ensures choice != null ==> choice in list && MayRun(choice) && Picks(list, rands, choice)
      ensures choice == null <==> NoneBefore(list, rands, |rands|)
    {
      hide Rolled;
      var i := 0;
      choice := null;
      while i < |rands|
        invariant 0 <= i <= |rands| && NoneBefore(list, rands, i)
      {
        var c := RandomSelectCo(rands[i]);
        if c.status == New || c.status == Running { return c; }
        i := i + 1;
      }
    }
  }

  // What the rolls decide is one coroutine.
  lemma PicksOnce(l: seq<Co>, rands: seq<nat>, c: Co, d: Co)
    requires l != [] && Picks(l, rands, c) && Picks(l, rands, d)
    ensures c == d
  {
    var i :| 0 <= i < |rands| && Rolled(l, rands[i]) == c && NoneBefore(l, rands, i);
    var j :| 0 <= j < |rands| && Rolled(l, rands[j]) == d && NoneBefore(l, rands, j);
    hide Rolled;
    assert !(i < j) && !(j < i);
  }

  // Every member can be the choice: rand() only has to give its position.
  lemma EachCanBeChosen(l: seq<Co>, c: Co)
    requires c in l
    ensures exists rand: nat :: Rolled(l, rand) == c
  {
    var i: nat :| i < |l| && l[i] == c;
    assert i % |l| == i;
    assert Rolled(l, i) == c;
  }

  // One roll makes co_yield take c, and nothing else.
  ghost predicate Takes(l: seq<Co>, rand: nat, c: Co)
    requires l != []
    reads l, c
  {
    Picks(l, [rand], c) && forall d: Co :: d in l && Picks(l, [rand], d) ==> d == c
  }

  // If it may run, one such roll is enough, and no other coroutine is chosen then.
  lemma EachCanBeTaken(l: seq<Co>, c: Co)
    requires c in l && MayRun(c)
    ensures exists rand: nat :: Takes(l, rand, c)
  {
    EachCanBeChosen(l, c);
    var rand: nat :| Rolled(l, rand) == c;
    hide Rolled;
    assert [rand][0] == rand && NoneBefore(l, [rand], 0);
    assert Picks(l, [rand], c);
    forall d: Co | d in l && Picks(l, [rand], d) ensures d == c { PicksOnce(l, [rand], c, d); }
    assert Takes(l, rand, c);
  }
}
