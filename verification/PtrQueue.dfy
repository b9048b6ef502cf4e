/** The per-thread log queues of the G1 barriers: a buffer filled downwards from its end, handed off when its byte
    index reaches zero. */
module PtrQueue {
  const OOP_SIZE: nat := 8

  /** A queue's buffer and byte index, and the full buffers it has handed off.  No buffer yet is an empty one. */
  datatype Log = Log(buf: seq<nat>, index: nat, completed: seq<seq<nat>>)

  predicate Valid(l: Log) {
    l.index % OOP_SIZE == 0 && l.index <= |l.buf| * OOP_SIZE
  }

  /** `handle_zero_index`: the full buffer is recorded, a new one (of whatever content) takes its place. */
  function Refilled(l: Log, buffer: seq<nat>): Log {
    Log(buffer, |buffer| * OOP_SIZE, if l.buf == [] then l.completed else l.completed + [l.buf])
  }

  /** The store below the index, and of the lowered index. */
  function Pushed(l: Log, v: nat): Log
    requires Valid(l) && l.index != 0
  {
    Log(l.buf[l.index / OOP_SIZE - 1 := v], l.index - OOP_SIZE, l.completed)
  }

  // ---- what a queue has logged ----

  function All(buffers: seq<seq<nat>>): multiset<nat> {
    if buffers == [] then multiset{} else All(buffers[..|buffers| - 1]) + multiset(buffers[|buffers| - 1])
  }

  /** Every entry, in the current buffer or in one handed off, as often as it was logged. */
  function Entries(l: Log): multiset<nat>
    requires Valid(l)
  {
    All(l.completed) + multiset(l.buf[l.index / OOP_SIZE..])
  }

  /** A push adds one entry and loses none. */
  lemma PushAdds(l: Log, v: nat)
    requires Valid(l) && l.index != 0
    ensures Valid(Pushed(l, v)) && Entries(Pushed(l, v)) == Entries(l) + multiset{v}
  {
    var k := l.index / OOP_SIZE - 1;
    assert Pushed(l, v).index / OOP_SIZE == k;
    assert Pushed(l, v).buf[k..] == [v] + l.buf[k + 1..];
  }

  /** A refill at index zero keeps exactly the entries there were, whatever the new buffer contains. */
  lemma RefillKeeps(l: Log, buffer: seq<nat>)
    requires Valid(l) && l.index == 0
    ensures Valid(Refilled(l, buffer)) && Entries(Refilled(l, buffer)) == Entries(l)
  {
    assert buffer[|buffer| * OOP_SIZE / OOP_SIZE..] == [];
    assert l.buf[0..] == l.buf;
    if l.buf != [] {
      var full := l.completed + [l.buf];
      assert full[..|full| - 1] == l.completed;
    }
  }

  /** The queue as the emitted code works on it. */
  class Queue {
    var buf: array<nat>
    var index: nat
    var completed: seq<seq<nat>>
    const capacity: nat

    ghost predicate Ok()
      reads this, buf
    {
      0 < capacity && Valid(View())
    }

    ghost function View(): Log
      reads this, buf
    {
      Log(buf[..], index, completed)
    }

    constructor (capacity: nat)
      requires 0 < capacity
      ensures Ok() && fresh(buf) && this.capacity == capacity && View() == Log([], 0, [])
    {
      this.capacity := capacity;
      buf := new nat[0];
      index := 0;
      completed := [];
    }

    method HandleZeroIndex()
      requires Ok() && index == 0
      modifies this
      ensures Ok() && fresh(buf) && index == capacity * OOP_SIZE
      ensures View() == Refilled(old(View()), buf[..])
    {
      var full := buf[..];
      buf := new nat[capacity](_ => 0);
      index := capacity * OOP_SIZE;
      if |full| != 0 {
        completed := completed + [full];
      }
    }

    /** `generate_satb_log_enqueue` and its siblings: restart after a refill, then store and lower the index. */
    method Enqueue(v: nat)
      requires Ok()
      modifies this, buf
      ensures Ok() && (buf == old(buf) || fresh(buf))
      ensures Entries(View()) == old(Entries(View())) + multiset{v}
      ensures index + OOP_SIZE == if old(index) == 0 then capacity * OOP_SIZE else old(index)
    {
      while index == 0
        invariant Ok() && (buf == old(buf) || fresh(buf))
        invariant Entries(View()) == old(Entries(View()))
        invariant index == old(index) || (old(index) == 0 && index == capacity * OOP_SIZE)
        invariant buf == old(buf) ==> buf[..] == old(buf[..])
        decreases if index == 0 then 1 else 0
      {
        ghost var before := View();
        HandleZeroIndex();
        RefillKeeps(before, buf[..]);
      }
      ghost var before := View();
      PushAdds(before, v);
      buf[index / OOP_SIZE - 1] := v;
      index := index - OOP_SIZE;
      assert View() == Pushed(before, v);
    }
  }
}
