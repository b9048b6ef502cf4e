/** The C++ interpreter's frame making room for one more monitor: the expression stack moves down in place, by the
    size of a monitor, and the new slot opens between it and the older monitors. */
module MoreMonitors {
  /** Words of a monitor, and the one of them that holds the locked object. */
  const ENTRY: nat := 2
  const OBJ: nat := 1

  /** Memory by words, and the frame's pointers into it.  The stack grows down; `stack` is the word below its top. */
  class InterpreterFrame {
    const mem: array<int>
    var stack: int
    var stackBase: int
    var stackLimit: int
    var frameBottom: int
    var sp: int

    constructor (mem: array<int>, stack: int, stackBase: int, stackLimit: int, sp: int)
      ensures this.mem == mem && this.stack == stack && this.stackBase == stackBase
      ensures this.stackLimit == stackLimit && this.frameBottom == sp && this.sp == sp
    {
      this.mem := mem;
      this.stack, this.stackBase, this.stackLimit, this.frameBottom, this.sp := stack, stackBase, stackLimit, sp, sp;
    }

    predicate Ok()
      reads this
    {
      0 <= stackLimit <= stack < stackBase <= mem.Length
    }

    /** The operands, topmost first. */
    function Operands(): seq<int>
      requires Ok()
      reads this, mem
    {
      mem[stack + 1..stackBase]
    }

    /** `generate_more_monitors`. */
    method MoreMonitors()
      requires Ok() && stackLimit >= ENTRY
      modifies this, mem
      ensures Ok()
      ensures stack == old(stack) - ENTRY && stackBase == old(stackBase) - ENTRY
      ensures stackLimit == old(stackLimit) - ENTRY && sp == old(sp) - ENTRY && frameBottom == sp
      ensures Operands() == old(Operands())
      ensures mem[stackBase + OBJ] == 0
      ensures forall k :: 0 <= k <= stack || old(stackBase) <= k < mem.Length ==> mem[k] == old(mem[k])
    {
      var bottom := stackBase - ENTRY;
      stackBase := bottom;
      sp := sp - ENTRY;
      frameBottom := sp;
      stackLimit := stackLimit - ENTRY;
      stack := stack - ENTRY;
      MoveDown(mem, stack + 1, bottom);
      ghost var moved := mem[stack + 1..bottom];
      mem[bottom + OBJ] := 0;
      assert mem[stack + 1..bottom] == moved;
    }
  }

  /** The copy loop, upwards from the first word, so that no word is overwritten before it is read. */
  method MoveDown(mem: array<int>, first: nat, bottom: nat)
    requires first <= bottom && bottom + ENTRY <= mem.Length
    modifies mem
    ensures mem[first..bottom] == old(mem[first + ENTRY..bottom + ENTRY])
    ensures forall k :: 0 <= k < first || bottom <= k < mem.Length ==> mem[k] == old(mem[k])
  {
    var at := first;
    while at != bottom
      invariant first <= at <= bottom
      invariant mem[first..at] == old(mem[first + ENTRY..at + ENTRY])
      invariant forall k :: 0 <= k < first || at <= k < mem.Length ==> mem[k] == old(mem[k])
      decreases bottom - at
    {
      mem[at] := mem[at + ENTRY];
      at := at + 1;
    }
  }
}
