/** Loading constants in the 64-bit VM: `internal_sethi`, `internal_set` and `set64`, which pick a sequence by the
    value's bits, and the size predicted for it. */
module SetConstant {
  import opened Bits

  const WORD: nat := 0x1_0000_0000_0000_0000

  /** The zero register, the destination and the extra register of `set64`. */
  datatype Reg = G0 | D | T

  datatype Instr =
    | Sethi(x: nat, to: Reg)
    | OrImm(from: Reg, imm: int, to: Reg)
    | OrReg(from: Reg, other: Reg, to: Reg)
    | XorImm(from: Reg, imm: int, to: Reg)
    | AddImm(from: Reg, imm: int, to: Reg)
    | Sllx(from: Reg, n: nat, to: Reg)
    | Nop

  datatype File = File(d: nat, t: nat)

  function Get(f: File, r: Reg): nat {
    match r
    case G0 => 0
    case D => f.d
    case T => f.t
  }

  function Set(f: File, r: Reg, w: nat): File {
    match r
    case G0 => f
    case D => f.(d := w)
    case T => f.(t := w)
  }

  predicate Simm13(n: int) {
    -4096 <= n < 4096
  }

  /** The fields an instruction has: 32 bits of which `sethi` takes 22, signed immediates of thirteen bits, and
      shift counts of six. */
  predicate Encodable(i: Instr) {
    match i
    case Sethi(x, _) => x < TWO_32
    case OrImm(_, imm, _) => Simm13(imm)
    case XorImm(_, imm, _) => Simm13(imm)
    case AddImm(_, imm, _) => Simm13(imm)
    case Sllx(_, n, _) => n < 64
    case _ => true
  }

  function Wrap(x: int): nat {
    x % WORD
  }

  /** Clears the low ten bits. */
  function Clear10(x: nat): nat {
    x - x % 1024
  }

  function Exec1(f: File, i: Instr): File {
    match i
    case Sethi(x, to) => Set(f, to, Clear10(x))
    case OrImm(from, imm, to) => Set(f, to, Or(Get(f, from), Wrap(imm)))
    case OrReg(from, other, to) => Set(f, to, Or(Get(f, from), Get(f, other)))
    case XorImm(from, imm, to) => Set(f, to, Xor(Get(f, from), Wrap(imm)))
    case AddImm(from, imm, to) => Set(f, to, Wrap(Get(f, from) + imm))
    case Sllx(from, n, to) => Set(f, to, Wrap(Get(f, from) * Pow2(n)))
    case Nop => f
  }

  function Exec(f: File, code: seq<Instr>): File
    decreases |code|
  {
    if code == [] then f else Exec(Exec1(f, code[0]), code[1..])
  }

  // ---- the emitters ----

  function High(v: nat): nat {
    v / TWO_32
  }

  function Low32(v: nat): nat {
    v % TWO_32
  }

  function Low10(v: nat): nat {
    v % 1024
  }

  /** The bits of the low word above the low ten, in two groups. */
  function Middle(v: nat): nat {
    Low32(v) / 0x10_0000
  }

  function Lower(v: nat): nat {
    Low32(v) / 1024 % 1024
  }

  function Signed64(v: nat): int {
    if v >= WORD / 2 then v - WORD else v
  }

  function When(b: bool, code: seq<Instr>): seq<Instr> {
    if b then code else []
  }

  /** The two groups are shifted in only where they are not zero, the shifts of a group left out being added to the
      next one. */
  function ShiftIn(v: nat): seq<Instr> {
    if Low32(v) < 1024 then [Sllx(D, 32, D)]
    else
      When(Middle(v) != 0, [Sllx(D, 12, D), OrImm(D, Middle(v), D)])
      + When(Lower(v) != 0, [Sllx(D, (if Middle(v) != 0 then 0 else 12) + 10, D), OrImm(D, Lower(v), D)])
      + [Sllx(D, (if Lower(v) != 0 then 0 else 10) + 10, D)]
  }

  function Load32(x: nat, r: Reg): seq<Instr> {
    [Sethi(x, r)] + When(Low10(x) != 0, [OrImm(r, Low10(x), r)])
  }

  function InternalSethi(v: nat): seq<Instr> {
    if High(v) == 0 && Low32(v) < TWO_32 / 2 then [Sethi(Low32(v), D)]
    else if High(v) == TWO_32 - 1 then [Sethi(TWO_32 - 1 - Low32(v), D), XorImm(D, -1024, D)]
    else Load32(High(v), D) + ShiftIn(v)
  }

  /** `patchable_sethi`: padded so that any other value can be patched in. */
  function Padded(code: seq<Instr>): seq<Instr> {
    code + seq(if |code| < 7 then 7 - |code| else 0, _ => Nop)
  }

  /** `inv_hi22(hi22(value)) == value`: the comparison sign-extends the low word. */
  predicate OnlyHigh22(v: nat) {
    Signed64(v) == Signed32(Clear10(Low32(v)))
  }

  /** `internal_set` without relocation. */
  function InternalSet(v: nat): seq<Instr> {
    if Simm13(Signed64(v)) then [OrImm(G0, Signed64(v), D)]
    else if OnlyHigh22(v) then InternalSethi(v)
    else InternalSethi(v) + When(Low10(v) != 0, [AddImm(D, Low10(v), D)])
  }

  function Set64(v: nat): seq<Instr> {
    var hi, lo := High(v), Low32(v);
    if Simm13(Signed32(lo)) && Signed64(v) == Signed32(lo) then [OrImm(G0, Signed32(lo), D)]
    else if hi == 0 then Load32(lo, D)
    else if hi == TWO_32 - 1 then [Sethi(TWO_32 - 1 - lo, D), XorImm(D, Low10(lo) - 1024, D)]
    else if lo == 0 then
      (if Simm13(Signed32(hi)) then [OrImm(G0, Signed32(hi), D)] else Load32(hi, D)) + [Sllx(D, 32, D)]
    else
      [Sethi(hi, T), Sethi(lo, D)]
      + When(Low10(hi) != 0, [OrImm(T, Low10(hi), T)])
      + When(Low10(lo) != 0, [OrImm(D, Low10(lo), D)])
      + [Sllx(T, 32, T), OrReg(D, T, D)]
  }

  /** The instructions `size_of_sethi` counts. */
  function SethiCount(v: nat): nat {
    if High(v) == 0 && Low32(v) < TWO_32 / 2 then 1
    else if High(v) == TWO_32 - 1 then 2
    else
      2 + (if Low10(High(v)) != 0 then 1 else 0)
      + if Low32(v) < 1024 then 0 else (if Middle(v) != 0 then 2 else 0) + (if Lower(v) != 0 then 2 else 0)
  }

  const INSTRUCTION_BYTES: nat := 4

  /** What it returns: bytes, but for the worst case a number of instructions. */
  function SizeOfSethi(v: nat, worstCase: bool): nat {
    if worstCase then 7 else INSTRUCTION_BYTES * SethiCount(v)
  }

  // ---- running them ----

  lemma {:induction false} ExecAppend(f: File, a: seq<Instr>, b: seq<Instr>)
    ensures Exec(f, a + b) == Exec(Exec(f, a), b)
    decreases |a|
  {
    if a == [] {
      assert a + b == b;
    } else {
      assert (a + b)[1..] == a[1..] + b;
      ExecAppend(Exec1(f, a[0]), a[1..], b);
    }
  }

  lemma ExecOne(f: File, i: Instr)
    ensures Exec(f, [i]) == Exec1(f, i)
  {
  }

  lemma ExecTwo(f: File, i: Instr, j: Instr)
    ensures Exec(f, [i, j]) == Exec1(Exec1(f, i), j)
  {
    assert [i, j][1..] == [j];
    ExecOne(Exec1(f, i), j);
  }

  lemma ExecWhen(f: File, b: bool, i: Instr)
    ensures Exec(f, When(b, [i])) == if b then Exec1(f, i) else f
  {
    ExecOne(f, i);
  }

  /** An or of bits below a cleared part adds them. */
  lemma OrTen(a: nat, low: nat)
    requires low < 1024
    ensures Or(a * 1024, low) == a * 1024 + low
  {
    Powers();
    OrAbove(a, low, 10);
  }

  lemma OrTwelve(a: nat, low: nat)
    requires low < 4096
    ensures Or(a * 4096, low) == a * 4096 + low
  {
    Powers();
    OrAbove(a, low, 12);
  }

  lemma OrHalf(a: nat, low: nat)
    requires low < TWO_32
    ensures Or(low, a * TWO_32) == a * TWO_32 + low
  {
    Powers();
    OrAbove(a, low, 32);
    OrCommutes(low, a * TWO_32);
  }

  lemma WrapSmall(x: int)
    requires 0 <= x < WORD
    ensures Wrap(x) == x
  {
    DivUnique(x, WORD, 0, x);
  }

  lemma WrapNegative(x: int)
    requires x < 0 <= x + WORD
    ensures Wrap(x) == x + WORD
  {
    DivUnique(x, WORD, -1, x + WORD);
  }

  lemma OrBits(x: nat, r: Reg, f: File)
    requires r != G0 && Get(f, r) == Clear10(x)
    ensures Exec1(f, OrImm(r, Low10(x), r)) == Set(f, r, x)
  {
    var low := Low10(x);
    assert Or(Clear10(x), low) == x by {
      assert Clear10(x) == x / 1024 * 1024;
      OrTen(x / 1024, low);
    }
    WrapSmall(low);
  }

  /** A word of 32 bits. */
  lemma Load32Exact(f: File, x: nat, r: Reg)
    requires r != G0
    ensures Exec(f, Load32(x, r)) == Set(f, r, x)
  {
    var f1 := Exec1(f, Sethi(x, r));
    ExecAppend(f, [Sethi(x, r)], When(Low10(x) != 0, [OrImm(r, Low10(x), r)]));
    ExecOne(f, Sethi(x, r));
    ExecWhen(f1, Low10(x) != 0, OrImm(r, Low10(x), r));
    if Low10(x) != 0 { OrBits(x, r, f1); }
  }

  lemma ShiftBy(f: File, r: Reg, n: nat, moved: nat)
    requires r != G0 && moved == Get(f, r) * Pow2(n) && moved < WORD
    ensures Exec1(f, Sllx(r, n, r)) == Set(f, r, moved)
  {
    WrapSmall(moved);
  }

  /** A shift that makes room and an or that fills it. */
  lemma MakeRoom(f: File, n: nat, moved: nat, group: nat)
    requires moved == f.d * Pow2(n) && moved < WORD && group < WORD && Or(moved, group) == moved + group
    ensures Exec(f, [Sllx(D, n, D), OrImm(D, group, D)]) == f.(d := moved + group)
  {
    ExecTwo(f, Sllx(D, n, D), OrImm(D, group, D));
    ShiftBy(f, D, n, moved);
    WrapSmall(group);
  }

  lemma RoomPowers()
    ensures Pow2(10) == 1024 && Pow2(12) == 4096 && Pow2(20) == 0x10_0000 && Pow2(22) == 0x40_0000 && Pow2(32) == TWO_32
  {
    Powers();
    assert Pow2(22) == 4 * Pow2(20);
  }

  /** The first group, if any: afterwards the destination holds the bits so far, or they still lack twelve. */
  lemma MiddleIn(f: File, v: nat)
    requires v < WORD && f.d == High(v)
    ensures Exec(f, When(Middle(v) != 0, [Sllx(D, 12, D), OrImm(D, Middle(v), D)]))
            ==
            f.(d := if Middle(v) != 0 then High(v) * 4096 + Middle(v) else High(v))
  {
    if Middle(v) != 0 {
      RoomPowers();
      OrTwelve(High(v), Middle(v));
      MakeRoom(f, 12, High(v) * 4096, Middle(v));
    }
  }

  /** The second group. */
  lemma LowerIn(f: File, v: nat, n: nat, unit: nat)
    requires unit == Pow2(n) && (unit == 1024 || unit == 4096 * 1024) && f.d * unit < WORD
    ensures Exec(f, When(Lower(v) != 0, [Sllx(D, n, D), OrImm(D, Lower(v), D)]))
            ==
            f.(d := if Lower(v) != 0 then f.d * unit + Lower(v) else f.d)
  {
    if Lower(v) != 0 {
      OrTen(f.d * (unit / 1024), Lower(v));
      MakeRoom(f, n, f.d * unit, Lower(v));
    }
  }

  lemma Fields(v: nat)
    requires v < WORD
    ensures Middle(v) < 4096 && Lower(v) < 1024 && High(v) < TWO_32
    ensures v == High(v) * TWO_32 + Middle(v) * 0x10_0000 + Lower(v) * 1024 + Low10(v)
    ensures Low32(v) < 1024 <==> Middle(v) == 0 && Lower(v) == 0
  {
  }

  lemma ShiftInExact(f: File, v: nat)
    requires v < WORD && f.d == High(v)
    ensures Exec(f, ShiftIn(v)) == f.(d := Clear10(v))
  {
    Fields(v);
    RoomPowers();
    if Low32(v) < 1024 {
      ExecOne(f, Sllx(D, 32, D));
      ShiftBy(f, D, 32, f.d * TWO_32);
    } else {
      var skip, last := (if Middle(v) != 0 then 0 else 12) + 10, (if Lower(v) != 0 then 0 else 10) + 10;
      var a := When(Middle(v) != 0, [Sllx(D, 12, D), OrImm(D, Middle(v), D)]);
      var b := When(Lower(v) != 0, [Sllx(D, skip, D), OrImm(D, Lower(v), D)]);
      ExecAppend(f, a + b, [Sllx(D, last, D)]);
      ExecAppend(f, a, b);
      MiddleIn(f, v);
      var f1 := Exec(f, a);
      LowerIn(f1, v, skip, if Middle(v) != 0 then 1024 else 4096 * 1024);
      var f2 := Exec(f1, b);
      ExecOne(f2, Sllx(D, last, D));
      ShiftBy(f2, D, last, f2.d * if Lower(v) != 0 then 1024 else 0x10_0000);
    }
  }

  // ---- the constants come out ----

  lemma ComplementQuotient(x: nat)
    requires x < TWO_32
    ensures (TWO_32 - 1 - x) / 1024 == 0x40_0000 - 1 - x / 1024
  {
    DivUnique(TWO_32 - 1 - x, 1024, 0x40_0000 - 1 - x / 1024, 1023 - x % 1024);
  }

  /** A cleared complement, turned over by sign-extended ones. */
  lemma Complement(x: nat, low: nat)
    requires x < TWO_32 && low < 1024
    ensures Xor(Clear10(TWO_32 - 1 - x), Wrap(low - 1024)) == WORD - TWO_32 + Clear10(x) + low
  {
    var a := (TWO_32 - 1 - x) / 1024;
    var ones := 0x40_0000_0000_0000 - 1;
    assert Pow2(54) == ones + 1 && Pow2(10) == 1024 by {
      Powers();
      assert Pow2(54) == 4 * Pow2(52);
    }
    assert a == 0x40_0000 - 1 - x / 1024 by { ComplementQuotient(x); }
    assert Wrap(low - 1024) == ones * 1024 + low by { WrapNegative(low - 1024); }
    assert Clear10(TWO_32 - 1 - x) == a * 1024;
    assert Xor(a * 1024, ones * 1024 + low) == Xor(a, ones) * 1024 + low by { XorAbove(a, ones, low, 10); }
    assert Xor(a, ones) == ones - a by { XorOnes(a, 54); }
  }

  lemma TopHalf(v: nat)
    requires v < WORD && High(v) == TWO_32 - 1
    ensures Clear10(v) == WORD - TWO_32 + Clear10(Low32(v))
  {
    var lo := Low32(v);
    assert v == WORD - TWO_32 + lo;
    DivUnique(v, 1024, (WORD - TWO_32) / 1024 + lo / 1024, lo % 1024);
  }

  /** The sequence leaves the value with its low ten bits clear, in the destination only. */
  lemma SethiExact(f: File, v: nat)
    requires v < WORD
    ensures Exec(f, InternalSethi(v)) == f.(d := Clear10(v))
  {
    if High(v) == 0 && Low32(v) < TWO_32 / 2 {
      ExecOne(f, Sethi(Low32(v), D));
      assert Low32(v) == v;
    } else if High(v) == TWO_32 - 1 {
      ExecTwo(f, Sethi(TWO_32 - 1 - Low32(v), D), XorImm(D, -1024, D));
      Complement(Low32(v), 0);
      TopHalf(v);
    } else {
      Load32Exact(f, High(v), D);
      ExecAppend(f, Load32(High(v), D), ShiftIn(v));
      ShiftInExact(f.(d := High(v)), v);
    }
  }

  lemma OnlyHigh22Clear(v: nat)
    requires v < WORD && OnlyHigh22(v)
    ensures Clear10(v) == v
  {
    var lo := Low32(v);
    assert Signed64(v) == Signed32(Clear10(lo));
    var k := if v >= WORD / 2 then WORD else 0;
    var j := if Clear10(lo) >= TWO_32 / 2 then TWO_32 else 0;
    assert v == 1024 * (lo / 1024 + k / 1024 - j / 1024);
    DivUnique(v, 1024, lo / 1024 + k / 1024 - j / 1024, 0);
  }

  lemma SmallSet(f: File, v: nat)
    requires v < WORD && Simm13(Signed64(v))
    ensures Exec(f, [OrImm(G0, Signed64(v), D)]) == f.(d := v)
  {
    ExecOne(f, OrImm(G0, Signed64(v), D));
    if v >= WORD / 2 { WrapNegative(Signed64(v)); } else { WrapSmall(Signed64(v)); }
  }

  /** `set` loads every value exactly, and touches no other register. */
  lemma SetExact(f: File, v: nat)
    requires v < WORD
    ensures Exec(f, InternalSet(v)) == f.(d := v)
  {
    if Simm13(Signed64(v)) {
      SmallSet(f, v);
    } else if OnlyHigh22(v) {
      SethiExact(f, v);
      OnlyHigh22Clear(v);
    } else {
      var add, f1 := AddImm(D, Low10(v), D), f.(d := Clear10(v));
      SethiExact(f, v);
      ExecAppend(f, InternalSethi(v), When(Low10(v) != 0, [add]));
      ExecWhen(f1, Low10(v) != 0, add);
      WrapSmall(Clear10(v) + Low10(v));
    }
  }

  /** Shifted by half a word, a sign extension is gone. */
  lemma ShiftedHigh(d: nat, hi: nat)
    requires hi < TWO_32 && (d == hi || d == hi + WORD - TWO_32)
    ensures Wrap(d * TWO_32) == hi * TWO_32
  {
    DivUnique(d * TWO_32, WORD, if d == hi then 0 else TWO_32 - 1, hi * TWO_32);
  }

  lemma LoadedHigh(f: File, hi: nat)
    requires hi < TWO_32
    ensures var load := if Simm13(Signed32(hi)) then [OrImm(G0, Signed32(hi), D)] else Load32(hi, D);
            Exec(f, load).d == hi || Exec(f, load).d == hi + WORD - TWO_32
  {
    if !Simm13(Signed32(hi)) {
      Load32Exact(f, hi, D);
    } else {
      ExecOne(f, OrImm(G0, Signed32(hi), D));
      if Signed32(hi) < 0 { WrapNegative(Signed32(hi)); } else { WrapSmall(Signed32(hi)); }
    }
  }

  lemma Set64Shifted(f: File, hi: nat)
    requires hi < TWO_32
    ensures var load := if Simm13(Signed32(hi)) then [OrImm(G0, Signed32(hi), D)] else Load32(hi, D);
            Exec(f, load + [Sllx(D, 32, D)]).d == hi * TWO_32
  {
    var load := if Simm13(Signed32(hi)) then [OrImm(G0, Signed32(hi), D)] else Load32(hi, D);
    var f1 := Exec(f, load);
    assert Exec(f, load + [Sllx(D, 32, D)]) == Exec1(f1, Sllx(D, 32, D)) by {
      ExecAppend(f, load, [Sllx(D, 32, D)]);
      ExecOne(f1, Sllx(D, 32, D));
    }
    assert Pow2(32) == TWO_32 by { Powers(); }
    LoadedHigh(f, hi);
    ShiftedHigh(f1.d, hi);
  }

  lemma Set64Joined(f: File, hi: nat, lo: nat)
    requires hi < TWO_32 && lo < TWO_32
    ensures Exec(f, [Sethi(hi, T), Sethi(lo, D)]
                    + When(Low10(hi) != 0, [OrImm(T, Low10(hi), T)])
                    + When(Low10(lo) != 0, [OrImm(D, Low10(lo), D)])
                    + [Sllx(T, 32, T), OrReg(D, T, D)]).d
            ==
            hi * TWO_32 + lo
  {
    var a := [Sethi(hi, T), Sethi(lo, D)];
    var b := When(Low10(hi) != 0, [OrImm(T, Low10(hi), T)]);
    var c := When(Low10(lo) != 0, [OrImm(D, Low10(lo), D)]);
    var e := [Sllx(T, 32, T), OrReg(D, T, D)];
    ExecAppend(f, a + b + c, e);
    ExecAppend(f, a + b, c);
    ExecAppend(f, a, b);
    ExecTwo(f, Sethi(hi, T), Sethi(lo, D));
    var f1 := File(Clear10(lo), Clear10(hi));
    ExecWhen(f1, Low10(hi) != 0, OrImm(T, Low10(hi), T));
    OrBits(hi, T, f1);
    var f2 := File(Clear10(lo), hi);
    ExecWhen(f2, Low10(lo) != 0, OrImm(D, Low10(lo), D));
    OrBits(lo, D, f2);
    var f3 := File(lo, hi);
    assert Exec(f, a + b + c) == f3;
    ExecTwo(f3, Sllx(T, 32, T), OrReg(D, T, D));
    RoomPowers();
    ShiftBy(f3, T, 32, hi * TWO_32);
    OrHalf(hi, lo);
  }

  /** `set64` loads every value exactly as well. */
  lemma Set64Exact(f: File, v: nat)
    requires v < WORD
    ensures Exec(f, Set64(v)).d == v
  {
    var hi, lo := High(v), Low32(v);
    if Simm13(Signed32(lo)) && Signed64(v) == Signed32(lo) {
      ExecOne(f, OrImm(G0, Signed32(lo), D));
    } else if hi == 0 {
      Load32Exact(f, lo, D);
    } else if hi == TWO_32 - 1 {
      ExecTwo(f, Sethi(TWO_32 - 1 - lo, D), XorImm(D, Low10(lo) - 1024, D));
      Complement(lo, Low10(lo));
    } else if lo == 0 {
      Set64Shifted(f, hi);
    } else {
      Set64Joined(f, hi, lo);
    }
  }

  // ---- sizes and fields ----

  lemma CountExact(v: nat)
    requires v < WORD
    ensures 1 <= |InternalSethi(v)| == SethiCount(v) <= 7
    ensures |Padded(InternalSethi(v))| == 7
  {
    Fields(v);
  }

  /** The size of a value is exactly the bytes emitted for it. */
  lemma SizeExact(v: nat)
    requires v < WORD
    ensures SizeOfSethi(v, false) == INSTRUCTION_BYTES * |InternalSethi(v)|
  {
    CountExact(v);
  }

  /** The size returned is enough for the value if and only if the worst case was not asked for or one instruction
      does. */
  lemma SizeSufficesIff(v: nat, worstCase: bool)
    requires v < WORD
    ensures SizeOfSethi(v, worstCase) >= INSTRUCTION_BYTES * |InternalSethi(v)|
            <==>
            !worstCase || (High(v) == 0 && Low32(v) < TWO_32 / 2)
  {
    CountExact(v);
  }

  lemma {:induction false} NopsDoNothing(f: File, n: nat)
    ensures Exec(f, seq(n, _ => Nop)) == f
  {
    if n != 0 {
      assert seq(n, _ => Nop)[1..] == seq(n - 1, _ => Nop);
      NopsDoNothing(f, n - 1);
    }
  }

  /** The padded sequence loads the same. */
  lemma PaddedExact(f: File, v: nat)
    requires v < WORD
    ensures Exec(f, Padded(InternalSethi(v))) == f.(d := Clear10(v))
  {
    var code := InternalSethi(v);
    var n := if |code| < 7 then 7 - |code| else 0;
    ExecAppend(f, code, seq(n, _ => Nop));
    SethiExact(f, v);
    NopsDoNothing(Exec(f, code), n);
  }

  predicate AllEncodable(code: seq<Instr>) {
    forall i :: 0 <= i < |code| ==> Encodable(code[i])
  }

  lemma Load32Fits(x: nat, r: Reg)
    requires x < TWO_32
    ensures AllEncodable(Load32(x, r))
  {
  }

  lemma ShiftInFits(v: nat)
    requires v < WORD
    ensures AllEncodable(ShiftIn(v))
  {
    Fields(v);
  }

  lemma SethiFits(v: nat)
    requires v < WORD
    ensures AllEncodable(InternalSethi(v))
  {
    Fields(v);
    Load32Fits(High(v), D);
    ShiftInFits(v);
  }

  lemma Set64Fits(v: nat)
    requires v < WORD
    ensures AllEncodable(Set64(v))
  {
    Fields(v);
    Load32Fits(High(v), D);
    Load32Fits(Low32(v), D);
  }

  /** Every constant, immediate and shift count of the three emitters fits its field. */
  lemma FieldsFit(v: nat)
    requires v < WORD
    ensures AllEncodable(InternalSethi(v)) && AllEncodable(InternalSet(v)) && AllEncodable(Set64(v))
  {
    SethiFits(v);
    Set64Fits(v);
  }
}
