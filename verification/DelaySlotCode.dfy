/** How many instructions C1 emits for an operation: a delay slot holds one. */
module DelaySlotCode {
  import opened Bits
  import opened DelaySlots
  import SetConstant

  /** `set` of a number of 32 bits. */
  function SetLength(value: int): nat {
    |SetConstant.InternalSet(SetConstant.Wrap(value))|
  }

  /** A displacement too large for the instruction is put into a register first. */
  predicate NeedsRegister(disp: int, unaligned: bool) {
    !Simm13(disp) && (!unaligned || Simm13(disp + 4))
  }

  /** A load or store of a field: what is not aligned, or patched a lot, goes in halves if it is a double. */
  function FieldLength(f: Flags, r: Opr, disp: int, unaligned: bool): nat {
    if NeedsRegister(disp, unaligned) then SetLength(disp) + 1
    else if r.FpuPair? && (unaligned || f.patchALot) then 2
    else 1
  }

  /** Moves of one word between registers of a kind or a register and a stack slot, of fields, and of int constants. */
  predicate Moves(op: Op) {
    && op.Move?
    && match (op.src, op.dst)
       case (Cpu(_, _), Cpu(_, _)) => true
       case (Fpu(_, _), Fpu(_, _)) => true
       case (_, Stack(_)) => op.src.Cpu? || op.src.Fpu?
       case (Stack(_), _) => op.dst.Cpu? || op.dst.Fpu?
       case (Mem(_, _), _) => op.dst.Cpu? || op.dst.Fpu? || op.dst.FpuPair?
       case (_, Mem(_, _)) => op.src.Cpu? || op.src.Fpu? || op.src.FpuPair?
       case (IntConst(_), Cpu(_, _)) => true
       case _ => false
  }

  function MoveLength(f: Flags, op: Op): nat
    requires Moves(op)
  {
    var unaligned := op.moveKind.Unaligned?;
    match (op.src, op.dst)
    case (Mem(_, disp), _) => FieldLength(f, op.dst, disp, unaligned)
    case (_, Mem(_, disp)) => FieldLength(f, op.src, disp, unaligned)
    case (IntConst(value), _) => SetLength(value)
    // a move of a register to itself is swallowed
    case (Cpu(r, _), Cpu(q, _)) => if r == q then 0 else 1
    case _ => 1
  }

  /** The operations that come into question: nops, the loads of null checks, adds and shifts of ints, moves. */
  predicate Sized(op: Op) {
    op.Nop? || op.NullCheck? || (op.Arith? && op.result.Cpu?) || Moves(op)
  }

  function Length(f: Flags, op: Op): nat
    requires Sized(op)
  {
    if op.Move? then MoveLength(f, op) else 1
  }

  lemma SetSmall(value: int)
    requires Simm13(value)
    ensures SetLength(value) == 1
  {
    var word := SetConstant.WORD;
    if value >= 0 { DivUnique(value, word, 0, value); } else { DivUnique(value, word, -1, value + word); }
  }

  lemma SetSomething(value: int)
    ensures SetLength(value) >= 1
  {
  }

  /** What the pass takes for a single instruction is one. */
  lemma SingleIsOne(f: Flags, op: Op)
    requires Single(f, op) && (op.Move? ==> Moves(op))
    ensures Sized(op) && Length(f, op) == 1
  {
    if op.Move? && op.src.IntConst? { SetSmall(op.src.value); }
  }

  /** Operands of one word; registers of one kind; and constants for which `set` has no shorter form. */
  predicate Plain(op: Op)
    requires Moves(op)
  {
    && !op.patch && !op.src.FpuPair? && !op.dst.FpuPair?
    && (op.src.Cpu? && op.dst.Cpu? ==> op.src.kind == op.dst.kind)
    && (op.src.Fpu? && op.dst.Fpu? ==> op.src.kind == op.dst.kind && op.src.n != op.dst.n)
    && (op.src.IntConst? && !Simm13(op.src.value) ==> SetLength(op.src.value) > 1)
  }

  /** The displacements the emitter asserts it can handle. */
  predicate DispHandled(o: Opr, op: Op)
    requires op.Move?
  {
    o.Mem? ==> NeedsRegister(o.disp, op.moveKind.Unaligned?) || Simm13(o.disp)
  }

  /** And of the plain moves it misses none, unless told to keep its hands off. */
  lemma SingleIffOne(f: Flags, op: Op)
    requires Moves(op) && Plain(op) && !f.verifyOops && !f.patchALot
    requires DispHandled(op.src, op) && DispHandled(op.dst, op)
    ensures Single(f, op) <==> Length(f, op) == 1
  {
    if op.src.IntConst? && Simm13(op.src.value) { SetSmall(op.src.value); }
    if op.src.Mem? { SetSomething(op.src.disp); }
    if op.dst.Mem? { SetSomething(op.dst.disp); }
  }

  /** The operation in front of a branch to a block goes into its slot just when it is one instruction that needs no
      debug information. */
  lemma BranchTakesIff(f: Flags, op: Op, cond: nat, target: nat, toBlock: bool)
    requires f == Flags(true, false, false) && Sized(op) && !op.Nop?
    requires op.Move? ==> Plain(op) && DispHandled(op.src, op) && DispHandled(op.dst, op)
    ensures Fits(f, op, Branch(cond, target, toBlock)) <==> toBlock && !HasInfo(op) && Length(f, op) == 1
  {
    if op.Move? { SingleIffOne(f, op); }
  }

  /** Every delay slot of a filled list holds exactly one instruction. */
  lemma {:induction false} SlotsHoldOne(f: Flags, ops: seq<Op>, i: nat)
    requires NoDelays(ops) && i < |Fill(f, ops)| && Fill(f, ops)[i].Delay?
    requires forall k :: 0 <= k < |ops| && ops[k].Move? && Single(f, ops[k]) ==> Moves(ops[k])
    ensures var op := Fill(f, ops)[i].op; Sized(op) && Length(f, op) == 1
    decreases |ops|
  {
    if |ops| >= 2 && Fits(f, ops[0], ops[1]) {
      if i < 2 {
        SingleIsOne(f, ops[0]);
      } else {
        SlotsHoldOne(f, ops[2..], i - 2);
      }
    } else if Control(ops[0]) {
      if i >= 2 { SlotsHoldOne(f, ops[1..], i - 2); }
    } else {
      SlotsHoldOne(f, ops[1..], i - 1);
    }
  }

  // ---- large frames ----

  /** The test of `load` and `store` for an offset that needs a register: as it is written the sum is the condition, and
      the word size or zero is what is tested. */
  predicate InRegister(lp64: bool, offset: int, isLong: bool) {
    !Simm13(if offset + (if isLong then 1 else 0) != 0 then (if lp64 then 8 else 4) else 0)
  }

  /** The offset is in a register, or in the instruction's thirteen bits. */
  predicate Encodable(lp64: bool, offset: int, isLong: bool) {
    InRegister(lp64, offset, isLong) || Simm13(offset)
  }

  /** So the offset of a stack slot never goes into a register: the move can be encoded just where the slot is near
      enough to the stack pointer. */
  lemma SlotEncodableIff(lp64: bool, offset: int, isLong: bool)
    ensures Encodable(lp64, offset, isLong) <==> -4096 <= offset < 4096
  {
  }
}
