// The job ring of M3-gpt/gpt.c: buffer, head, tail and buf_count.

module Ring {
  import opened Arith

  // The ring as a value, for the step relation. The capacity is |cells|.
  datatype Ring<T> = Ring(cells: seq<T>, head: nat, tail: nat, count: nat) {
    ghost predicate Valid() {
      && |cells| > 0 && head < |cells| && count <= |cells|
      && tail == if head + count < |cells| then head + count else head + count - |cells|
    }

    // The same as the remainder that the C code maintains.
    lemma TailIsRemainder()
      requires Valid()
      ensures tail == (head + count) % |cells|
    {
      ModWrap(head + count, |cells|);
    }

    // The queued jobs, oldest first.
    ghost function Contents(): (s: seq<T>)
      requires Valid()
      ensures |s| == count
    {
      if head + count <= |cells| then cells[head..head + count]
      else cells[head..] + cells[..head + count - |cells|]
    }

    function Push(x: T): (r: Ring<T>)
      requires Valid() && count < |cells|
      ensures r.Valid() && |r.cells| == |cells| && r.count == count + 1
      ensures r.Contents() == Contents() + [x]
    {
      ModWrap(tail + 1, |cells|);
      Ring(cells[tail := x], head, (tail + 1) % |cells|, count + 1)
    }

    function Pop(): (r: (T, Ring<T>))
      requires Valid() && count > 0
      ensures r.1.Valid() && |r.1.cells| == |cells| && r.1.count == count - 1
      ensures [r.0] + r.1.Contents() == Contents()
    {
      ModWrap(head + 1, |cells|);
      (cells[head], Ring(cells, (head + 1) % |cells|, tail, count - 1))
    }
  }

  // The globals as the C code keeps them; the two operations update them in place.
  class JobRing<T> {
    const buffer: array<T>
    var head: nat
    var tail: nat
    var bufCount: nat

    ghost function View(): Ring<T> reads this, buffer { Ring(buffer[..], head, tail, bufCount) }

    ghost predicate Valid() reads this, buffer { View().Valid() }

    constructor (size: nat, fill: T)
      requires size > 0
      ensures Valid() && fresh(buffer) && buffer.Length == size && View().Contents() == []
    {
      buffer := new T[size](_ => fill);
      head, tail, bufCount := 0, 0, 0;
    }

    // buffer_push: its caller has waited until the ring is not full.
    method BufferPush(args: T)
      requires Valid() && bufCount < buffer.Length
      modifies this, buffer
      ensures Valid() && View() == old(View()).Push(args)
      ensures View().Contents() == old(View().Contents()) + [args]
    {
      ghost var before := View();
      ModWrap(tail + 1, buffer.Length);
      buffer[tail] := args;
      tail := (tail + 1) % buffer.Length;
      bufCount := bufCount + 1;
      assert View() == before.Push(args);
    }

    // buffer_pop: its caller has waited until the ring is not empty.
    method BufferPop() returns (args: T)
      requires Valid() && bufCount > 0
      modifies this
      ensures Valid() && (args, View()) == old(View()).Pop()
      ensures [args] + View().Contents() == old(View().Contents())
    {
      ghost var before := View();
      args := buffer[head];
      ModWrap(head + 1, buffer.Length);
      head := (head + 1) % buffer.Length;
      bufCount := bufCount - 1;
      assert (args, View()) == before.Pop();
    }
  }
}
