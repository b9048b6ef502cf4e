/** The code `check_klass_subtype_fast_path` emits, instruction by instruction: two comparisons, conditional branches
    with delay slots that may be annulled, and the instanceof variant that sets a result register in those slots. */
module SubtypeFastPath {
  import opened Wrappers

  type Reg = nat
  type Word = int

  datatype Instr =
    | Nop
    | Set(value: Word, to: Reg)
    | Cmp(a: Reg, b: Reg)
    | CmpConst(a: Reg, n: Word)
    | LoadOffset(base: Reg, to: Reg)
    | LoadWord(base: Reg, offset: Reg, to: Reg)
    | LoadWordAt(base: Reg, n: Word, to: Reg)

  datatype Cond = Equal | NotEqual | Always

  datatype Label = Success | Failure | SlowPath | Fallthrough

  /** Code up to the label at its end; a branch carries the instruction in its delay slot. */
  datatype Code =
    | End
    | Do(i: Instr, rest: Code)
    | Branch(cond: Cond, annul: bool, target: Label, delay: Instr, rest: Code)

  /** What the code reads: a klass's super check offset, and the word at an offset in a klass. */
  datatype Klasses = Klasses(checkOffset: Word -> Word, wordAt: (Word, Word) -> Word)

  datatype Machine = Machine(regs: map<Reg, Word>, equal: bool)

  datatype Exit = Exit(at: Label, m: Machine)

  function Read(m: Machine, r: Reg): Word {
    if r in m.regs then m.regs[r] else 0
  }

  function Write(m: Machine, r: Reg, w: Word): Machine {
    m.(regs := m.regs[r := w])
  }

  function Exec1(k: Klasses, m: Machine, i: Instr): Machine {
    match i
    case Nop => m
    case Set(value, to) => Write(m, to, value)
    case Cmp(a, b) => m.(equal := Read(m, a) == Read(m, b))
    case CmpConst(a, n) => m.(equal := Read(m, a) == n)
    case LoadOffset(base, to) => Write(m, to, k.checkOffset(Read(m, base)))
    case LoadWord(base, offset, to) => Write(m, to, k.wordAt(Read(m, base), Read(m, offset)))
    case LoadWordAt(base, n, to) => Write(m, to, k.wordAt(Read(m, base), n))
  }

  predicate Taken(cond: Cond, m: Machine) {
    match cond
    case Equal => m.equal
    case NotEqual => !m.equal
    case Always => true
  }

  /** The delay slot runs before a taken branch, and before going on unless annulled; the annul bit of a branch that
      is always taken annuls the slot all the same. */
  function Exec(k: Klasses, m: Machine, code: Code): Exit
    decreases code
  {
    match code
    case End => Exit(Fallthrough, m)
    case Do(i, rest) => Exec(k, Exec1(k, m, i), rest)
    case Branch(cond, annul, target, delay, rest) =>
      if Taken(cond, m) then Exit(target, if cond.Always? && annul then m else Exec1(k, m, delay))
      else Exec(k, if annul then m else Exec1(k, m, delay), rest)
  }

  // ---- the emitter ----

  datatype Offset = Loaded | InRegister(r: Reg) | Constant(n: Word)

  /** The registers; the optional result register; and which of the labels the caller supplied. */
  datatype Options = Options(
    sub: Reg, super: Reg, temp: Reg, temp2: Reg, offset: Offset, result: Option<Reg>,
    success: bool, failure: bool, slow: bool)

  function SuccessLabel(o: Options): Label {
    if o.success then Success else Fallthrough
  }

  function FailureLabel(o: Options): Label {
    if o.failure then Failure else Fallthrough
  }

  function SlowLabel(o: Options): Label {
    if o.slow then SlowPath else Fallthrough
  }

  function Slot(o: Options, value: Word): Instr {
    if o.result.Some? then Set(value, o.result.value) else Nop
  }

  function BoolSet(o: Options, value: Word, rest: Code): Code {
    if o.result.Some? then Do(Set(value, o.result.value), rest) else rest
  }

  /** `FINAL_JUMP` with a value to set, and without. */
  function FinalJump(o: Options, target: Label, value: Word): Code {
    if target == Fallthrough then BoolSet(o, value, End)
    else Branch(Always, o.result.Some?, target, Slot(o, value), End)
  }

  function PlainJump(target: Label): Code {
    if target == Fallthrough then End else Branch(Always, false, target, Nop, End)
  }

  /** After an offset in a register was compared with that of the secondary super cache. */
  function OffsetTail(o: Options): Code {
    if !o.failure then Branch(Equal, o.result.Some?, SlowLabel(o), Nop, BoolSet(o, 0, End))
    else Branch(NotEqual, o.result.Some?, FailureLabel(o), Slot(o, 0), PlainJump(SlowLabel(o)))
  }

  /** After the display word was compared, the offset being in a register.  Without a result to set, the next
      comparison is in the delay slot. */
  function RegisterTail(o: Options, offset: Reg, sc: Word): Code {
    if o.result.Some? then Branch(Equal, true, SuccessLabel(o), Slot(o, 1), Do(CmpConst(offset, sc), OffsetTail(o)))
    else Branch(Equal, false, SuccessLabel(o), CmpConst(offset, sc), OffsetTail(o))
  }

  /** The same for the constant offset of the secondary super cache. */
  function CacheTail(o: Options): Code {
    if !o.slow then Branch(Equal, o.result.Some?, SuccessLabel(o), Slot(o, 1), End)
    else Branch(NotEqual, false, SlowLabel(o), Nop, FinalJump(o, SuccessLabel(o), 1))
  }

  /** And for any other constant. */
  function DisplayTail(o: Options): Code {
    if !o.failure then Branch(Equal, o.result.Some?, SuccessLabel(o), Slot(o, 1), BoolSet(o, 0, End))
    else Branch(NotEqual, o.result.Some?, FailureLabel(o), Slot(o, 0), FinalJump(o, SuccessLabel(o), 1))
  }

  function Front(o: Options, sc: Word): Code {
    match o.offset
    case Loaded =>
      Do(LoadOffset(o.super, o.temp2),
         Do(LoadWord(o.sub, o.temp2, o.temp), Do(Cmp(o.super, o.temp), RegisterTail(o, o.temp2, sc))))
    case InRegister(r) => Do(LoadWord(o.sub, r, o.temp), Do(Cmp(o.super, o.temp), RegisterTail(o, r, sc)))
    case Constant(n) =>
      Do(LoadWordAt(o.sub, n, o.temp),
         Do(Cmp(o.super, o.temp), if n == sc then CacheTail(o) else DisplayTail(o)))
  }

  function FastPath(o: Options, sc: Word): Code {
    Do(Cmp(o.super, o.sub), Branch(Equal, o.result.Some?, SuccessLabel(o), Slot(o, 1), Front(o, sc)))
  }

  // ---- what it decides ----

  /** The registers the emitter asserts to be different. */
  predicate Asserted(o: Options) {
    && o.sub != o.super && o.sub != o.temp && o.super != o.temp
    && (o.offset.InRegister? ==> o.offset.r != o.sub && o.offset.r != o.super)
  }

  /** What it does not assert: the register that holds the offset, its own second temporary if it loads it, survives
      the load of the display word and is neither operand. */
  predicate DistinctRegisters(o: Options) {
    && Asserted(o)
    && (o.offset.InRegister? ==> o.offset.r != o.temp)
    && (o.offset.Loaded? ==> o.temp2 !in {o.sub, o.super, o.temp})
  }

  /** At most one label is left out, as the emitter asserts of a check without a result register. */
  predicate LabelsGiven(o: Options) {
    (o.success && o.failure) || (o.success && o.slow) || (o.failure && o.slow)
  }

  function OffsetValue(o: Options, k: Klasses, m: Machine): Word {
    match o.offset
    case Loaded => k.checkOffset(Read(m, o.super))
    case InRegister(r) => Read(m, r)
    case Constant(n) => n
  }

  datatype Outcome = Yes | No | Unknown

  /** The decision by the klasses alone: the same klass, the word the display has for the super, or undecided when
      that word is only a cache. */
  function Decision(k: Klasses, sub: Word, super: Word, offset: Word, sc: Word): Outcome {
    if sub == super || k.wordAt(sub, offset) == super then Yes
    else if offset == sc then Unknown
    else No
  }

  function LabelFor(o: Options, d: Outcome): Label {
    match d
    case Yes => SuccessLabel(o)
    case No => FailureLabel(o)
    case Unknown => SlowLabel(o)
  }

  /** The last jump to success carries the annul bit, and with it its delay slot is never run. */
  predicate ResultAnnulled(o: Options, sc: Word) {
    && o.result.Some? && o.offset.Constant? && o.success
    && if o.offset.n == sc then o.slow else o.failure
  }

  /** Right register contents on leaving: one for yes, zero for no. */
  predicate ResultRight(o: Options, d: Outcome, m: Machine)
    requires o.result.Some?
  {
    match d
    case Yes => Read(m, o.result.value) == 1
    case No => Read(m, o.result.value) == 0
    case Unknown => true
  }

  lemma FinalJumpLeaves(o: Options, k: Klasses, m: Machine, target: Label, value: Word)
    ensures Exec(k, m, FinalJump(o, target, value))
            ==
            Exit(target, if o.result.None? || target != Fallthrough then m else Write(m, o.result.value, value))
  {
    if target == Fallthrough { BoolSetLeaves(o, k, m, value); }
  }

  lemma BoolSetLeaves(o: Options, k: Klasses, m: Machine, value: Word)
    ensures Exec(k, m, BoolSet(o, value, End)) == Exit(Fallthrough, Exec1(k, m, Slot(o, value)))
  {
    if o.result.Some? { assert Exec(k, Write(m, o.result.value, value), End).at == Fallthrough; }
  }

  lemma PlainJumpLeaves(k: Klasses, m: Machine, target: Label)
    ensures Exec(k, m, PlainJump(target)) == Exit(target, m)
  {
  }

  /** What follows the comparison of the offset with that of the cache. */
  lemma OffsetDecides(o: Options, k: Klasses, m: Machine)
    ensures var e := Exec(k, m, OffsetTail(o));
            var d := if m.equal then Unknown else No;
            e.at == LabelFor(o, d) && (o.result.Some? ==> ResultRight(o, d, e.m))
  {
    PlainJumpLeaves(k, m, SlowLabel(o));
    PlainJumpLeaves(k, Exec1(k, m, Slot(o, 0)), SlowLabel(o));
    BoolSetLeaves(o, k, m, 0);
    if o.result.None? && o.failure { assert Slot(o, 0) == Nop; }
  }

  lemma RegisterTailDecides(o: Options, k: Klasses, m: Machine, offset: Reg, sc: Word)
    ensures var e := Exec(k, m, RegisterTail(o, offset, sc));
            var d := if m.equal then Yes else if Read(m, offset) == sc then Unknown else No;
            e.at == LabelFor(o, d) && (o.result.Some? ==> ResultRight(o, d, e.m))
  {
    var m1 := Exec1(k, m, CmpConst(offset, sc));
    OffsetDecides(o, k, m1);
    assert Exec(k, m, Do(CmpConst(offset, sc), OffsetTail(o))) == Exec(k, m1, OffsetTail(o));
  }

  lemma CacheTailDecides(o: Options, k: Klasses, m: Machine)
    ensures var e := Exec(k, m, CacheTail(o));
            var d := if m.equal then Yes else Unknown;
            && e.at == LabelFor(o, d)
            && (o.result.Some? ==> if m.equal && o.slow && o.success then e.m == m else ResultRight(o, d, e.m))
  {
    FinalJumpLeaves(o, k, m, SuccessLabel(o), 1);
    if !o.slow { assert Exec(k, m, End).at == Fallthrough; }
  }

  lemma DisplayTailDecides(o: Options, k: Klasses, m: Machine)
    ensures var e := Exec(k, m, DisplayTail(o));
            var d := if m.equal then Yes else No;
            && e.at == LabelFor(o, d)
            && (o.result.Some? ==> if m.equal && o.failure && o.success then e.m == m else ResultRight(o, d, e.m))
  {
    FinalJumpLeaves(o, k, m, SuccessLabel(o), 1);
    BoolSetLeaves(o, k, m, 0);
  }

  /** The machine when the display word has been compared. */
  function Compared(o: Options, k: Klasses, m: Machine): Machine {
    var m1 := if o.offset.Loaded? then Exec1(k, m, LoadOffset(o.super, o.temp2)) else m;
    var load := match o.offset
      case Loaded => LoadWord(o.sub, o.temp2, o.temp)
      case InRegister(r) => LoadWord(o.sub, r, o.temp)
      case Constant(n) => LoadWordAt(o.sub, n, o.temp);
    Exec1(k, Exec1(k, m1, load), Cmp(o.super, o.temp))
  }

  function Tail(o: Options, sc: Word): Code {
    match o.offset
    case Loaded => RegisterTail(o, o.temp2, sc)
    case InRegister(r) => RegisterTail(o, r, sc)
    case Constant(n) => if n == sc then CacheTail(o) else DisplayTail(o)
  }

  lemma TwoSteps(k: Klasses, m: Machine, i: Instr, j: Instr, rest: Code)
    ensures Exec(k, m, Do(i, Do(j, rest))) == Exec(k, Exec1(k, Exec1(k, m, i), j), rest)
  {
    assert Exec(k, m, Do(i, Do(j, rest))) == Exec(k, Exec1(k, m, i), Do(j, rest));
  }

  lemma FrontCompares(o: Options, k: Klasses, m: Machine, sc: Word)
    ensures Exec(k, m, Front(o, sc)) == Exec(k, Compared(o, k, m), Tail(o, sc))
  {
    var cmp, tail := Cmp(o.super, o.temp), Tail(o, sc);
    match o.offset {
      case Loaded =>
        var m1 := Exec1(k, m, LoadOffset(o.super, o.temp2));
        assert Exec(k, m, Front(o, sc)) == Exec(k, m1, Front(o, sc).rest);
        TwoSteps(k, m1, LoadWord(o.sub, o.temp2, o.temp), cmp, tail);
      case InRegister(r) => TwoSteps(k, m, LoadWord(o.sub, r, o.temp), cmp, tail);
      case Constant(n) => TwoSteps(k, m, LoadWordAt(o.sub, n, o.temp), cmp, tail);
    }
  }

  lemma FrontDecides(o: Options, k: Klasses, m: Machine, sc: Word)
    requires DistinctRegisters(o) && Read(m, o.sub) != Read(m, o.super)
    ensures var e := Exec(k, m, Front(o, sc));
            var d := Decision(k, Read(m, o.sub), Read(m, o.super), OffsetValue(o, k, m), sc);
            && e.at == LabelFor(o, d)
            && (o.result.Some? ==>
                  if ResultAnnulled(o, sc) && d.Yes? then e.m == Compared(o, k, m) else ResultRight(o, d, e.m))
  {
    var m1 := Compared(o, k, m);
    FrontCompares(o, k, m, sc);
    match o.offset {
      case Loaded => RegisterTailDecides(o, k, m1, o.temp2, sc);
      case InRegister(r) => RegisterTailDecides(o, k, m1, r, sc);
      case Constant(n) => if n == sc { CacheTailDecides(o, k, m1); } else { DisplayTailDecides(o, k, m1); }
    }
  }

  /** Whatever the options, the code leaves at the label its decision calls for; and the result register holds the
      answer unless the jump that should set it is annulled. */
  lemma FastPathDecides(o: Options, k: Klasses, m: Machine, sc: Word)
    requires DistinctRegisters(o)
    ensures var e := Exec(k, m, FastPath(o, sc));
            var d := Decision(k, Read(m, o.sub), Read(m, o.super), OffsetValue(o, k, m), sc);
            && e.at == LabelFor(o, d)
            && (o.result.Some? && !ResultAnnulled(o, sc) ==> ResultRight(o, d, e.m))
  {
    var m1 := Exec1(k, m, Cmp(o.super, o.sub));
    assert Exec(k, m, FastPath(o, sc)) == Exec(k, m1, FastPath(o, sc).rest);
    if !m1.equal {
      var slot := Exec1(k, m1, Slot(o, 1));
      FrontDecides(o, k, m1, sc);
      assert o.result.None? ==> slot == m1;
    }
  }

  // ---- exactly which registers it is right for ----

  /** The code leaves at the label of its decision on every machine. */
  ghost predicate AlwaysDecides(o: Options, sc: Word) {
    forall k, m ::
      Exec(k, m, FastPath(o, sc)).at
      ==
      LabelFor(o, Decision(k, Read(m, o.sub), Read(m, o.super), OffsetValue(o, k, m), sc))
  }

  ghost predicate AlwaysRight(o: Options, sc: Word)
    requires o.result.Some?
  {
    forall k, m ::
      ResultRight(o, Decision(k, Read(m, o.sub), Read(m, o.super), OffsetValue(o, k, m), sc),
                  Exec(k, m, FastPath(o, sc)).m)
  }

  /** Two unrelated klasses, an offset in the display, and a one in the result register. */
  function Start(o: Options, sc: Word): Machine {
    var regs := if o.result.Some? then map[o.result.value := 1] else map[];
    var regs' := if o.offset.InRegister? then regs[o.offset.r := sc + 1] else regs;
    Machine(regs'[o.sub := sc + 3][o.super := sc + 2], false)
  }

  /** Where the offset is overwritten by the display word, a display word that looks like the cache's offset; else a
      display of the sub that does hold the super, and no other. */
  function Misleading(o: Options, sc: Word): Klasses {
    var clobbered := o.offset.InRegister? || o.temp2 == o.temp;
    Klasses(_ => sc + 1, (k, _) => if clobbered then sc else if k == sc + 3 then sc + 2 else 0)
  }

  lemma MisleadingTail(o: Options, k: Klasses, m: Machine, offset: Reg, sc: Word)
    requires !m.equal
    ensures var e := Exec(k, m, RegisterTail(o, offset, sc));
            && (Read(m, offset) == sc ==> e.at == SlowLabel(o) && (o.result.Some? ==> e.m.regs == m.regs))
            && (Read(m, offset) != sc ==>
                  e.at == FailureLabel(o) && (o.result.Some? ==> Read(e.m, o.result.value) == 0))
  {
    var m1 := Exec1(k, m, CmpConst(offset, sc));
    assert Exec(k, m, Do(CmpConst(offset, sc), OffsetTail(o))) == Exec(k, m1, OffsetTail(o));
    PlainJumpLeaves(k, m1, SlowLabel(o));
    PlainJumpLeaves(k, Exec1(k, m1, Slot(o, 0)), SlowLabel(o));
    BoolSetLeaves(o, k, m1, 0);
    if o.result.None? { assert Slot(o, 0) == Nop; }
  }

  /** With a register it must not share, the code takes a wrong turn, and a result register ends up wrong. */
  lemma AliasMisleads(o: Options, sc: Word)
    requires Asserted(o) && !DistinctRegisters(o) && 0 < sc
    ensures var k, m := Misleading(o, sc), Start(o, sc);
            var e, d := Exec(k, m, FastPath(o, sc)), Decision(k, sc + 3, sc + 2, OffsetValue(o, k, m), sc);
            && Read(m, o.sub) == sc + 3 && Read(m, o.super) == sc + 2
            && (LabelsGiven(o) ==> e.at != LabelFor(o, d)) && (o.result.Some? ==> !ResultRight(o, d, e.m))
  {
    var k, m := Misleading(o, sc), Start(o, sc);
    var m1 := Exec1(k, m, Cmp(o.super, o.sub));
    var m2 := if o.result.Some? then m1 else Exec1(k, m1, Slot(o, 1));
    assert Exec(k, m, FastPath(o, sc)) == Exec(k, m1, FastPath(o, sc).rest);
    assert m2 == m1 && Exec(k, m, FastPath(o, sc)) == Exec(k, m1, Front(o, sc));
    FrontCompares(o, k, m1, sc);
    var m3 := Compared(o, k, m1);
    assert !m3.equal;
    MisleadingTail(o, k, m3, if o.offset.Loaded? then o.temp2 else o.offset.r, sc);
  }

  /** Given what the emitter asserts, the code decides right on every machine if and only if the register that holds
      the offset is none of the other three. */
  lemma FastPathRightIff(o: Options, sc: Word)
    requires Asserted(o) && LabelsGiven(o) && 0 < sc
    ensures AlwaysDecides(o, sc) <==> DistinctRegisters(o)
  {
    if DistinctRegisters(o) {
      forall k, m
        ensures Exec(k, m, FastPath(o, sc)).at
                ==
                LabelFor(o, Decision(k, Read(m, o.sub), Read(m, o.super), OffsetValue(o, k, m), sc))
      {
        FastPathDecides(o, k, m, sc);
      }
    } else {
      AliasMisleads(o, sc);
    }
  }

  lemma AnnulledMisses(o: Options, sc: Word)
    requires DistinctRegisters(o) && o.result.Some? && ResultAnnulled(o, sc)
    ensures !AlwaysRight(o, sc)
  {
    // a super found in the display of a sub, and some other value left in the result register
    var k := Klasses(_ => 0, (_, _) => 7);
    var m := Machine(map[o.sub := 8, o.super := 7], false);
    var m1 := Exec1(k, m, Cmp(o.super, o.sub));
    assert Exec(k, m, FastPath(o, sc)) == Exec(k, m1, FastPath(o, sc).rest) == Exec(k, m1, Front(o, sc));
    FrontDecides(o, k, m1, sc);
    assert !ResultRight(o, Decision(k, 8, 7, OffsetValue(o, k, m), sc), Exec(k, m, FastPath(o, sc)).m);
  }

  /** The result register is right on every machine exactly when, besides, that jump is not among the code. */
  lemma ResultRightIff(o: Options, sc: Word)
    requires Asserted(o) && o.result.Some? && 0 < sc
    ensures AlwaysRight(o, sc) <==> DistinctRegisters(o) && !ResultAnnulled(o, sc)
  {
    if !DistinctRegisters(o) {
      AliasMisleads(o, sc);
    } else if ResultAnnulled(o, sc) {
      AnnulledMisses(o, sc);
    } else {
      forall k, m
        ensures ResultRight(o, Decision(k, Read(m, o.sub), Read(m, o.super), OffsetValue(o, k, m), sc),
                            Exec(k, m, FastPath(o, sc)).m)
      {
        FastPathDecides(o, k, m, sc);
      }
    }
  }
}
