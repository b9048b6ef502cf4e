/** Filling delay slots does not change what a list of operations does: for every machine, start and length of run,
    the filled list, whose slots run after the decision of a branch and after the instructions of a call, ends as
    the plain list does. */
module DelaySlotSemantics {
  import opened DelaySlots

  datatype Loc = Reg(r: nat) | FReg(n: nat) | Frame(slot: nat) | Word(addr: int)

  /** Registers, frame and heap, and the condition codes. */
  datatype Store = Store(locs: map<Loc, int>, codes: int)

  /** What the machine, the rest of the program and the klasses do, all of it arbitrary. */
  datatype Machine = Machine(
    alu: (ArithCode, int, int) -> int,
    compare: (int, int) -> int,
    holds: (nat, int) -> bool,
    other: (nat, Store) -> Store,
    constant: nat -> int,
    klassOf: int -> int,
    methodAt: (int, int) -> int,
    entry: int -> int,
    nonOop: int,
    returnTo: nat -> int,
    callee: (nat, Store) -> Store)

  function Get(s: Store, l: Loc): int {
    if l in s.locs then s.locs[l] else 0
  }

  function Put(s: Store, l: Loc, v: int): Store {
    s.(locs := s.locs[l := v])
  }

  function LocOf(s: Store, o: Opr): Loc
    requires !o.IntConst? && !o.OtherConst?
  {
    match o
    case Cpu(r, _) => Reg(r)
    case CpuPair(lo, _) => Reg(lo)
    case Fpu(n, _) => FReg(n)
    case FpuPair(n) => FReg(n)
    case Stack(slot) => Frame(slot)
    case StackPair(slot) => Frame(slot)
    case Mem(base, disp) => Word(Get(s, Reg(base)) + disp)
  }

  function Value(c: Machine, s: Store, o: Opr): int {
    match o
    case IntConst(value) => value
    case OtherConst(id) => c.constant(id)
    case _ => Get(s, LocOf(s, o))
  }

  function Assign(s: Store, o: Opr, v: int): Store {
    if o.IntConst? || o.OtherConst? then s else Put(s, LocOf(s, o), v)
  }

  /** An operation that neither branches nor calls. */
  function Effect(c: Machine, s: Store, op: Op): Store {
    match op
    case Move(src, dst, _, _, _) => Assign(s, dst, Value(c, s, src))
    case Arith(code, a, b, result, _) => Assign(s, result, c.alu(code, Value(c, s, a), Value(c, s, b)))
    case Compare(a, b) => s.(codes := c.compare(Value(c, s, a), Value(c, s, b)))
    case Other(id, _) => c.other(id, s)
    case _ => s
  }

  /** The instructions emitted for a call up to and with the call itself, which sets O7. */
  function Enter(c: Machine, s: Store, op: Op): Store
    requires op.Call?
  {
    var s1 := match op.callKind
      case InlineCache => Put(s, Reg(G5), c.nonOop)
      case VTable(offset) =>
        var m := c.methodAt(c.klassOf(Get(s, Reg(O0))), offset);
        Put(Put(s, Reg(G5), m), Reg(G3), c.entry(m))
      case _ => s;
    Put(s1, Reg(O7), c.returnTo(op.callee))
  }

  datatype Outcome = JumpTo(target: nat, s: Store) | End(s: Store) | Stuck

  /** A list run from its front to the first jump, delay slots being of no account. */
  function Plain(c: Machine, ops: seq<Op>, s: Store): Outcome
    decreases |ops|
  {
    if ops == [] then End(s)
    else match ops[0]
      case Branch(cond, target, _) => if c.holds(cond, s.codes) then JumpTo(target, s) else Plain(c, ops[1..], s)
      case Call(_, callee, _) => Plain(c, ops[1..], c.callee(callee, Enter(c, s, ops[0])))
      case _ => Plain(c, ops[1..], Effect(c, s, ops[0]))
  }

  /** The same as the machine does it: the decision and the call come first, then the slot. */
  function Slots(c: Machine, ops: seq<Op>, s: Store): Outcome
    decreases |ops|
  {
    if ops == [] then End(s)
    else if Control(ops[0]) then
      if |ops| < 2 || !ops[1].Delay? then Stuck
      else match ops[0]
        case Branch(cond, target, _) =>
          var after := Effect(c, s, ops[1].op);
          if c.holds(cond, s.codes) then JumpTo(target, after) else Slots(c, ops[2..], after)
        case Call(_, callee, _) => Slots(c, ops[2..], c.callee(callee, Effect(c, Enter(c, s, ops[0]), ops[1].op)))
    else Slots(c, ops[1..], Effect(c, s, ops[0]))
  }

  // ---- what may pass a branch or a call ----

  /** The registers of an operand are ones the register allocator gives out. */
  predicate AllocatedOpr(o: Opr) {
    match o
    case Cpu(r, _) => r <= LAST_ALLOCATABLE
    case CpuPair(lo, hi) => lo <= LAST_ALLOCATABLE && hi <= LAST_ALLOCATABLE
    case Mem(base, _) => base <= LAST_ALLOCATABLE
    case _ => true
  }

  predicate Allocated(ops: seq<Op>) {
    forall i :: 0 <= i < |ops| && ops[i].Move? ==> AllocatedOpr(ops[i].src) && AllocatedOpr(ops[i].dst)
  }

  lemma SingleKeepsCodes(f: Flags, c: Machine, s: Store, op: Op)
    requires Single(f, op)
    ensures Effect(c, s, op).codes == s.codes
  {
  }

  /** A move and a call commute: the callee starts in the same state. */
  predicate Commute(c: Machine, s: Store, move: Op, call: Op)
    requires call.Call?
  {
    Effect(c, Enter(c, s, call), move) == Enter(c, Effect(c, s, move), call)
  }

  lemma PutsCommute(s: Store, l1: Loc, v1: int, l2: Loc, v2: int)
    requires l1 != l2
    ensures Put(Put(s, l1, v1), l2, v2) == Put(Put(s, l2, v2), l1, v1)
  {
  }

  /** What a call sets is not among the registers the allocator gives out. */
  lemma EnterElsewhere(c: Machine, s: Store, call: Op, l: Loc)
    requires call.Call? && (l.Reg? ==> l.r <= LAST_ALLOCATABLE)
    ensures Get(Enter(c, s, call), l) == Get(s, l)
  {
  }

  lemma EnterAfterPut(c: Machine, s: Store, call: Op, l: Loc, v: int)
    requires call.Call? && (l.Reg? ==> l.r <= LAST_ALLOCATABLE)
    requires call.callKind.VTable? ==> l != Reg(O0)
    ensures Enter(c, Put(s, l, v), call) == Put(Enter(c, s, call), l, v)
  {
    var o7 := c.returnTo(call.callee);
    match call.callKind {
      case InlineCache =>
        PutsCommute(s, l, v, Reg(G5), c.nonOop);
        PutsCommute(Put(s, Reg(G5), c.nonOop), l, v, Reg(O7), o7);
      case VTable(offset) =>
        var m := c.methodAt(c.klassOf(Get(s, Reg(O0))), offset);
        var s1 := Put(s, Reg(G5), m);
        PutsCommute(s, l, v, Reg(G5), m);
        PutsCommute(s1, l, v, Reg(G3), c.entry(m));
        PutsCommute(Put(s1, Reg(G3), c.entry(m)), l, v, Reg(O7), o7);
      case _ => PutsCommute(s, l, v, Reg(O7), o7);
    }
  }

  lemma MoveCommutes(f: Flags, c: Machine, s: Store, move: Op, call: Op)
    requires call.Call? && Fits(f, move, call) && AllocatedOpr(move.src) && AllocatedOpr(move.dst)
    ensures Commute(c, s, move, call)
  {
    var e := Enter(c, s, call);
    var src, dst := move.src, move.dst;
    if src.Mem? { EnterElsewhere(c, s, call, Reg(src.base)); }
    if !src.IntConst? && !src.OtherConst? { EnterElsewhere(c, s, call, LocOf(s, src)); }
    if dst.Mem? { EnterElsewhere(c, s, call, Reg(dst.base)); }
    if !dst.IntConst? && !dst.OtherConst? { EnterAfterPut(c, s, call, LocOf(s, dst), Value(c, s, src)); }
  }

  /** A store in which the receiver register has one value and a move into it brings another. */
  function Apart(src: Opr): Store {
    match src
    case Cpu(r, _) => Store(map[Reg(O0) := 5, Reg(r) := 6], 0)
    case Stack(slot) => Store(map[Reg(O0) := 5, Frame(slot) := 6], 0)
    case Mem(base, disp) =>
      Store(map[Reg(O0) := 5, Word(disp) := 6, Word(disp + 5) := 6], 0)
    case IntConst(value) => Store(map[Reg(O0) := value + 1], 0)
    case _ => Store(map[], 0)
  }

  /** A machine on which a method is its receiver. */
  function Echo(): Machine {
    Machine((_, _, _) => 0, (_, _) => 0, (_, _) => false, (_, s) => s, _ => 0,
            x => x, (k, _) => k, x => x, 0, _ => 0, (_, s) => s)
  }

  lemma ReceiverCantPass(f: Flags, move: Op, call: Op)
    requires call.Call? && call.callKind.VTable? && move.Move? && Single(f, move)
    requires move.dst.Cpu? && move.dst.r == O0 && AllocatedOpr(move.src)
    ensures !Commute(Echo(), Apart(move.src), move, call)
  {
    var c, s := Echo(), Apart(move.src);
    var brought := Value(c, s, move.src);
    assert brought != Get(s, Reg(O0));
    var late, early := Effect(c, Enter(c, s, call), move), Enter(c, Effect(c, s, move), call);
    assert Get(late, Reg(G5)) == Get(s, Reg(O0)) && Get(early, Reg(G5)) == brought;
  }

  /** Of the moves that are single instructions, just those that set the receiver may not pass a vtable call; any
      may pass the other calls. */
  lemma FitsIsNeeded(f: Flags, move: Op, call: Op)
    requires call.Call? && move.Move? && Single(f, move) && Info(move) == 0 && f.fill
    requires AllocatedOpr(move.src) && AllocatedOpr(move.dst)
    ensures (forall c, s :: Commute(c, s, move, call)) <==> Fits(f, move, call)
  {
    if Fits(f, move, call) {
      forall c, s ensures Commute(c, s, move, call) { MoveCommutes(f, c, s, move, call); }
    } else {
      ReceiverCantPass(f, move, call);
    }
  }

  // ---- whole runs ----

  lemma {:induction false} FilledOutcome(f: Flags, c: Machine, ops: seq<Op>, s: Store)
    requires NoDelays(ops) && Allocated(ops)
    ensures Slots(c, Fill(f, ops), s) == Plain(c, ops, s)
    decreases |ops|
  {
    if ops != [] {
      if |ops| >= 2 && Fits(f, ops[0], ops[1]) {
        SwappedOutcome(f, c, ops, s);
      } else {
        UnswappedOutcome(f, c, ops, s);
      }
    }
  }

  lemma {:induction false} SwappedOutcome(f: Flags, c: Machine, ops: seq<Op>, s: Store)
    requires NoDelays(ops) && Allocated(ops) && |ops| >= 2 && Fits(f, ops[0], ops[1])
    ensures Slots(c, Fill(f, ops), s) == Plain(c, ops, s)
    decreases |ops|, 0
  {
    var filled, rest := Fill(f, ops), Fill(f, ops[2..]);
    assert filled[2..] == rest;
    assert ops[1..][1..] == ops[2..];
    var s1 := Effect(c, s, ops[0]);
    assert Plain(c, ops, s) == Plain(c, ops[1..], s1);
    match ops[1] {
      case Branch(cond, target, _) =>
        SingleKeepsCodes(f, c, s, ops[0]);
        FilledOutcome(f, c, ops[2..], s1);
      case Call(_, callee, _) =>
        MoveCommutes(f, c, s, ops[0], ops[1]);
        FilledOutcome(f, c, ops[2..], c.callee(callee, Enter(c, s1, ops[1])));
    }
  }

  lemma {:induction false} UnswappedOutcome(f: Flags, c: Machine, ops: seq<Op>, s: Store)
    requires NoDelays(ops) && Allocated(ops) && ops != [] && !(|ops| >= 2 && Fits(f, ops[0], ops[1]))
    ensures Slots(c, Fill(f, ops), s) == Plain(c, ops, s)
    decreases |ops|, 0
  {
    var filled, rest := Fill(f, ops), Fill(f, ops[1..]);
    if ops[0].Branch? {
      assert filled[2..] == rest;
      FilledOutcome(f, c, ops[1..], s);
    } else if ops[0].Call? {
      assert filled[2..] == rest;
      FilledOutcome(f, c, ops[1..], c.callee(ops[0].callee, Enter(c, s, ops[0])));
    } else {
      assert filled[1..] == rest;
      FilledOutcome(f, c, ops[1..], Effect(c, s, ops[0]));
    }
  }

  datatype Target = Outside | Inside(ops: seq<Op>)

  /** The list from a label on. */
  function From(ops: seq<Op>, target: nat): Target {
    if ops == [] then Outside else if ops[0] == Label(target) then Inside(ops) else From(ops[1..], target)
  }

  lemma {:induction false} FilledFrom(f: Flags, ops: seq<Op>, target: nat)
    requires NoDelays(ops) && Allocated(ops)
    ensures From(ops, target).Outside? ==> From(Fill(f, ops), target).Outside?
    ensures From(ops, target).Inside? ==>
              && NoDelays(From(ops, target).ops) && Allocated(From(ops, target).ops)
              && From(Fill(f, ops), target) == Inside(Fill(f, From(ops, target).ops))
    decreases |ops|
  {
    var filled := Fill(f, ops);
    if ops != [] && ops[0] != Label(target) {
      if |ops| >= 2 && Fits(f, ops[0], ops[1]) {
        FilledFrom(f, ops[2..], target);
        assert filled[1..][1..] == Fill(f, ops[2..]) && ops[1..][1..] == ops[2..];
        assert From(ops, target) == From(ops[1..], target) == From(ops[2..], target);
        assert From(filled, target) == From(filled[1..], target) == From(filled[1..][1..], target);
      } else {
        FilledFrom(f, ops[1..], target);
        if Control(ops[0]) {
          assert filled[1..][1..] == Fill(f, ops[1..]);
          assert From(filled, target) == From(filled[1..], target) == From(filled[1..][1..], target);
        } else {
          assert filled[1..] == Fill(f, ops[1..]);
        }
      }
    }
  }

  /** A run from a label over at most so many jumps; it is left where a jump leads out of the list. */
  function RunPlain(c: Machine, ops: seq<Op>, target: nat, s: Store, jumps: nat): Outcome
    decreases jumps
  {
    match From(ops, target)
    case Outside => JumpTo(target, s)
    case Inside(rest) =>
      var o := Plain(c, rest, s);
      if o.JumpTo? && jumps != 0 then RunPlain(c, ops, o.target, o.s, jumps - 1) else o
  }

  function RunSlots(c: Machine, ops: seq<Op>, target: nat, s: Store, jumps: nat): Outcome
    decreases jumps
  {
    match From(ops, target)
    case Outside => JumpTo(target, s)
    case Inside(rest) =>
      var o := Slots(c, rest, s);
      if o.JumpTo? && jumps != 0 then RunSlots(c, ops, o.target, o.s, jumps - 1) else o
  }

  /** Every run of the filled list ends as that of the plain list, in the same state. */
  lemma {:induction false} FillPreservesRuns(f: Flags, c: Machine, ops: seq<Op>, target: nat, s: Store, jumps: nat)
    requires NoDelays(ops) && Allocated(ops)
    ensures RunSlots(c, Fill(f, ops), target, s, jumps) == RunPlain(c, ops, target, s, jumps)
    decreases jumps
  {
    FilledFrom(f, ops, target);
    if From(ops, target).Inside? {
      var rest := From(ops, target).ops;
      FilledOutcome(f, c, rest, s);
      var o := Plain(c, rest, s);
      if o.JumpTo? && jumps != 0 { FillPreservesRuns(f, c, ops, o.target, o.s, jumps - 1); }
    }
  }
}
