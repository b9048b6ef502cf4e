/** C1's peephole pass over its low-level operations (LIR), which gives every branch and call its delay slot: the
    operation before it where that is allowed, else a nop. */
module DelaySlots {
  // Registers by their numbers in the frame map.
  const O0: nat := 14
  const G3: nat := 21
  const G5: nat := 23
  const O7: nat := 25
  const LAST_ALLOCATABLE: nat := 19

  datatype Opr =
    | Cpu(r: nat, kind: nat)
    | CpuPair(lo: nat, hi: nat)
    | Fpu(n: nat, kind: nat)
    | FpuPair(n: nat)
    | Stack(slot: nat)
    | StackPair(slot: nat)
    | Mem(base: nat, disp: int)
    | IntConst(value: int)
    | OtherConst(id: nat)

  datatype MoveKind = Normal | Volatile | Unaligned
  datatype ArithCode = Add | Shl | Shr | Ushr
  datatype CallKind = Static | OptVirtual | InlineCache | VTable(offset: int)

  /** An operation; `info` is zero where there is no debug information. */
  datatype Op =
    | Label(id: nat)
    | Nop
    | Move(src: Opr, dst: Opr, patch: bool, moveKind: MoveKind, moveInfo: nat)
    | Arith(code: ArithCode, a: Opr, b: Opr, result: Opr, arithInfo: nat)
    | NullCheck(r: nat, checkInfo: nat)
    | Compare(a: Opr, b: Opr)
    | Other(id: nat, otherInfo: nat)
    | Branch(cond: nat, target: nat, toBlock: bool)
    | Call(callKind: CallKind, callee: nat, callInfo: nat)
    | Delay(op: Op, delayInfo: nat)

  datatype Flags = Flags(fill: bool, verifyOops: bool, patchALot: bool)

  predicate IsRegister(o: Opr) {
    o.Cpu? || o.CpuPair? || o.Fpu? || o.FpuPair?
  }

  predicate Simm13(n: int) {
    -4096 <= n < 4096
  }

  predicate SameKind(a: Opr, b: Opr) {
    (a.Cpu? && b.Cpu? && a.kind == b.kind) || (a.Fpu? && b.Fpu? && a.kind == b.kind)
  }

  predicate SingleMove(f: Flags, op: Op)
    requires op.Move?
  {
    var src, dst := op.src, op.dst;
    if src == dst || f.verifyOops then false
    else if src.CpuPair? || dst.CpuPair? || op.patch then false
    else if (src.FpuPair? || dst.FpuPair?) && !op.moveKind.Normal? then false
    else if IsRegister(dst) && src.Mem? && Simm13(src.disp) then !f.patchALot
    else if IsRegister(dst) && src.Stack? then true
    else if IsRegister(src) && dst.Mem? && Simm13(dst.disp) then !f.patchALot
    else if IsRegister(src) && dst.Stack? then true
    else IsRegister(dst) && (SameKind(src, dst) || (src.IntConst? && Simm13(src.value)))
  }

  /** `is_single_instruction`. */
  predicate Single(f: Flags, op: Op) {
    match op
    case NullCheck(_, _) => true
    case Arith(_, _, _, result, _) => result.Cpu?
    case Move(_, _, _, _, _) => SingleMove(f, op)
    case _ => false
  }

  function Info(op: Op): nat {
    match op
    case Move(_, _, _, _, info) => info
    case Arith(_, _, _, _, info) => info
    case NullCheck(_, info) => info
    case Other(_, info) => info
    case Call(_, _, info) => info
    case Delay(_, info) => info
    case _ => 0
  }

  predicate Control(op: Op) {
    op.Branch? || op.Call?
  }

  /** Whether the operation before a branch or call goes into its delay slot. */
  predicate Fits(f: Flags, prev: Op, op: Op) {
    match op
    case Branch(_, _, toBlock) => f.fill && toBlock && Single(f, prev) && Info(prev) == 0
    case Call(kind, _, _) =>
      && f.fill && prev.Move? && Info(prev) == 0
      && (!kind.VTable? || !prev.dst.Cpu? || prev.dst.r != O0)
      && Single(f, prev)
    case _ => false
  }

  /** The filled list. */
  function Fill(f: Flags, ops: seq<Op>): seq<Op>
    decreases |ops|
  {
    if ops == [] then []
    else if |ops| >= 2 && Fits(f, ops[0], ops[1]) then [ops[1], Delay(ops[0], Info(ops[1]))] + Fill(f, ops[2..])
    else if Control(ops[0]) then [ops[0], Delay(Nop, Info(ops[0]))] + Fill(f, ops[1..])
    else [ops[0]] + Fill(f, ops[1..])
  }

  predicate NoDelays(ops: seq<Op>) {
    forall i :: 0 <= i < |ops| ==> !ops[i].Delay?
  }

  /** The operations of a list, filled in place. */
  class LirList {
    var ops: seq<Op>

    constructor (ops: seq<Op>)
      ensures this.ops == ops
    {
      this.ops := ops;
    }

    method AtPut(i: nat, op: Op)
      requires i < |ops|
      modifies this
      ensures ops == old(ops)[i := op]
    {
      ops := ops[i := op];
    }

    method InsertBefore(i: nat, op: Op)
      requires i <= |ops|
      modifies this
      ensures ops == old(ops)[..i] + [op] + old(ops)[i..]
    {
      ops := ops[..i] + [op] + ops[i..];
    }

    /** The slot of the branch or call at an index: the operation before it is swapped in, or a nop inserted.
        Returns where to go on. */
    method FillAt(f: Flags, i: nat, ghost done: seq<Op>, ghost rest: seq<Op>) returns (next: nat)
      requires 0 < i < |ops| && Control(ops[i]) && |done| == i && ops == done + [ops[i]] + rest
      modifies this
      ensures ops == After(f, done, old(ops[i])) + rest && next == |After(f, done, old(ops[i]))|
    {
      var prev, op := ops[i - 1], ops[i];
      if Fits(f, prev, op) {
        AtPut(i - 1, op);
        AtPut(i, Delay(prev, Info(op)));
        next := i + 1;
      } else {
        InsertBefore(i + 1, Delay(Nop, Info(op)));
        next := i + 2;
      }
    }

    /** A list starts with its block's label, so there is an operation before every branch or call. */
    method Peephole(f: Flags)
      requires ops != [] && ops[0].Label? && NoDelays(ops)
      modifies this
      ensures ops == Fill(f, old(ops))
    {
      ghost var was, done, rest := ops, [], ops;
      var i := 0;
      while i < |ops|
        invariant ops == done + rest && |done| == i && Between(f, was, done, rest)
        decreases |rest|
      {
        var op := ops[i];
        ghost var tail := rest[1..];
        assert rest[0] == op && ops == done + [op] + tail;
        BetweenNext(f, was, done, rest);
        if Control(op) { i := FillAt(f, i, done, tail); } else { i := i + 1; }
        done, rest := After(f, done, op), tail;
      }
      assert |rest| == 0;
      BetweenEnds(f, was, done, rest);
    }
  }

  // ---- the loop's invariant ----

  /** What the pass makes of a filled front and the rest: the last operation of the front may still move. */
  ghost function Partial(f: Flags, done: seq<Op>, rest: seq<Op>): seq<Op> {
    var n := |done|;
    if n == 0 || done[n - 1].Delay? then done + Fill(f, rest) else done[..n - 1] + Fill(f, [done[n - 1]] + rest)
  }

  /** The front with one more operation. */
  ghost function After(f: Flags, done: seq<Op>, op: Op): seq<Op> {
    var n := |done|;
    if !Control(op) then done + [op]
    else if n != 0 && Fits(f, done[n - 1], op) then done[..n - 1] + [op, Delay(done[n - 1], Info(op))]
    else done + [op, Delay(Nop, Info(op))]
  }

  lemma AfterPartial(f: Flags, done: seq<Op>, op: Op, rest: seq<Op>)
    requires !op.Delay? && (done != [] ==> !Control(done[|done| - 1]))
    ensures Partial(f, done, [op] + rest) == Partial(f, After(f, done, op), rest)
    ensures After(f, done, op) != [] && !Control(After(f, done, op)[|After(f, done, op)| - 1])
  {
    if !Control(op) {
      PassStep(f, done, op, rest);
    } else if done != [] && Fits(f, done[|done| - 1], op) {
      SwapStep(f, done, op, rest);
    } else {
      InsertStep(f, done, op, rest);
    }
  }

  /** The list taken apart between two operations: what is done makes, with the rest, the filled whole. */
  ghost predicate Between(f: Flags, was: seq<Op>, done: seq<Op>, rest: seq<Op>) {
    && NoDelays(rest) && was != [] && was[0].Label?
    && (if done == [] then rest == was else !Control(done[|done| - 1]))
    && Partial(f, done, rest) == Fill(f, was)
  }

  lemma BetweenNext(f: Flags, was: seq<Op>, done: seq<Op>, rest: seq<Op>)
    requires Between(f, was, done, rest) && rest != []
    ensures Between(f, was, After(f, done, rest[0]), rest[1..]) && (Control(rest[0]) ==> done != [])
  {
    assert rest == [rest[0]] + rest[1..];
    AfterPartial(f, done, rest[0], rest[1..]);
  }

  lemma BetweenEnds(f: Flags, was: seq<Op>, done: seq<Op>, rest: seq<Op>)
    requires Between(f, was, done, rest) && rest == []
    ensures done == Fill(f, was)
  {
    PartialEnd(f, done);
  }

  lemma PartialEnd(f: Flags, done: seq<Op>)
    requires done != [] ==> !Control(done[|done| - 1])
    ensures Partial(f, done, []) == done
  {
    var n := |done|;
    if n != 0 && !done[n - 1].Delay? {
      assert Fill(f, [done[n - 1]]) == [done[n - 1]] + Fill(f, []);
      assert [done[n - 1]] + [] == [done[n - 1]];
    }
  }

  /** A last operation that stays where it is. */
  lemma LastStays(f: Flags, p: Op, op: Op, rest: seq<Op>)
    requires !Control(p) && !Fits(f, p, op)
    ensures Fill(f, [p] + ([op] + rest)) == [p] + Fill(f, [op] + rest)
  {
    assert ([p] + ([op] + rest))[1..] == [op] + rest;
  }

  lemma ControlFills(f: Flags, op: Op, rest: seq<Op>)
    requires Control(op)
    ensures Fill(f, [op] + rest) == [op, Delay(Nop, Info(op))] + Fill(f, rest)
  {
    assert ([op] + rest)[1..] == rest;
  }

  lemma SwapStep(f: Flags, done: seq<Op>, op: Op, rest: seq<Op>)
    requires done != [] && Fits(f, done[|done| - 1], op)
    ensures var n := |done| - 1;
            Partial(f, done, [op] + rest) == Partial(f, done[..n] + [op, Delay(done[n], Info(op))], rest)
  {
    var n := |done| - 1;
    var pair := [done[n]] + ([op] + rest);
    assert pair[2..] == rest;
    assert Fill(f, pair) == [op, Delay(done[n], Info(op))] + Fill(f, rest);
  }

  lemma InsertStep(f: Flags, done: seq<Op>, op: Op, rest: seq<Op>)
    requires Control(op) && (done != [] ==> !Control(done[|done| - 1]) && !Fits(f, done[|done| - 1], op))
    ensures Partial(f, done, [op] + rest) == Partial(f, done + [op, Delay(Nop, Info(op))], rest)
  {
    ControlFills(f, op, rest);
    if done != [] && !done[|done| - 1].Delay? {
      LastStays(f, done[|done| - 1], op, rest);
      assert done[..|done| - 1] + [done[|done| - 1]] == done;
    }
  }

  lemma PassStep(f: Flags, done: seq<Op>, op: Op, rest: seq<Op>)
    requires !Control(op) && !op.Delay? && (done != [] ==> !Control(done[|done| - 1]))
    ensures Partial(f, done, [op] + rest) == Partial(f, done + [op], rest)
  {
    if done != [] && !done[|done| - 1].Delay? {
      LastStays(f, done[|done| - 1], op, rest);
      assert done[..|done| - 1] + [done[|done| - 1]] == done;
    }
    assert (done + [op])[..|done|] == done;
  }

  // ---- the shape of a filled list ----

  predicate HasInfo(op: Op) {
    || (op.Move? && op.moveInfo != 0) || (op.Arith? && op.arithInfo != 0) || (op.NullCheck? && op.checkInfo != 0)
    || (op.Other? && op.otherInfo != 0)
  }

  /** Every branch and call is followed by a delay slot, every delay slot follows one, it carries the debug information
      of its call, and the operation in it has none of its own. */
  predicate Slotted(ops: seq<Op>)
    decreases |ops|
  {
    if ops == [] then true
    else if Control(ops[0])
    then
      && |ops| >= 2 && ops[1].Delay? && !Control(ops[1].op) && !HasInfo(ops[1].op)
      && ops[1].delayInfo == (if ops[0].Call? then ops[0].callInfo else 0) && Slotted(ops[2..])
    else !ops[0].Delay? && Slotted(ops[1..])
  }

  lemma {:induction false} FillSlots(f: Flags, ops: seq<Op>)
    requires NoDelays(ops)
    ensures Slotted(Fill(f, ops))
    decreases |ops|
  {
    if ops != [] {
      if |ops| >= 2 && Fits(f, ops[0], ops[1]) {
        FillSlots(f, ops[2..]);
        assert Fill(f, ops)[2..] == Fill(f, ops[2..]);
      } else {
        FillSlots(f, ops[1..]);
        if Control(ops[0]) { assert Fill(f, ops)[2..] == Fill(f, ops[1..]); }
        else { assert Fill(f, ops)[1..] == Fill(f, ops[1..]); }
      }
    }
  }

  /** The list with every delay slot emptied again. */
  function Undo(ops: seq<Op>): seq<Op>
    decreases |ops|
  {
    if ops == [] then []
    else if |ops| >= 2 && ops[1].Delay?
    then (if ops[1].op.Nop? then [ops[0]] else [ops[1].op, ops[0]]) + Undo(ops[2..])
    else [ops[0]] + Undo(ops[1..])
  }

  lemma UndoPair(op: Op, slot: Op, info: nat, rest: seq<Op>)
    ensures Undo([op, Delay(slot, info)] + rest) == (if slot.Nop? then [op] else [slot, op]) + Undo(rest)
  {
    var ops := [op, Delay(slot, info)] + rest;
    assert ops[2..] == rest && ops[1] == Delay(slot, info);
  }

  lemma UndoPlain(op: Op, rest: seq<Op>)
    requires rest != [] ==> !rest[0].Delay?
    ensures Undo([op] + rest) == [op] + Undo(rest)
  {
    assert ([op] + rest)[1..] == rest;
  }

  /** No operation is lost, added or put in another order. */
  lemma {:induction false} FillLosesNothing(f: Flags, ops: seq<Op>)
    requires NoDelays(ops)
    ensures Undo(Fill(f, ops)) == ops
    decreases |ops|
  {
    if ops != [] {
      if |ops| >= 2 && Fits(f, ops[0], ops[1]) {
        FillLosesNothing(f, ops[2..]);
        UndoPair(ops[1], ops[0], Info(ops[1]), Fill(f, ops[2..]));
        assert ops == [ops[0], ops[1]] + ops[2..];
      } else {
        FillLosesNothing(f, ops[1..]);
        assert ops == [ops[0]] + ops[1..];
        if Control(ops[0]) {
          UndoPair(ops[0], Nop, Info(ops[0]), Fill(f, ops[1..]));
        } else {
          FirstIsNoDelay(f, ops[1..]);
          UndoPlain(ops[0], Fill(f, ops[1..]));
        }
      }
    }
  }

  lemma FirstIsNoDelay(f: Flags, ops: seq<Op>)
    requires NoDelays(ops)
    ensures Fill(f, ops) != [] ==> !Fill(f, ops)[0].Delay?
  {
  }
}
