/** Patching the displacement of a branch or call, and reading its destination back. */
module BranchPatch {
  import opened Bits
  import opened Wrappers

  /** Instructions are words of 32 bits; positions are signed numbers of 32 bits. */
  type Inst = nat

  predicate Position(p: int) {
    -(TWO_32 / 2) <= p < TWO_32 / 2
  }

  /** The result of the arithmetic cut down to a position. */
  function Wrap(x: int): int {
    var r := x % TWO_32;
    if r >= TWO_32 / 2 then r - TWO_32 else r
  }

  // ---- formats ----

  /** The displacement is the low so many bits, or split in two as in branches on register contents. */
  datatype Format = Low(bits: nat) | Split

  /** By `op` and `op2`; none where the code should not be reached. */
  function FormatOf(inst: Inst): Option<Format> {
    var op, op2 := inst / 0x4000_0000, inst / 0x40_0000 % 8;
    if op == 1 then Some(Low(30))
    else if op != 0 then None
    else if op2 == 3 then Some(Split)
    else if op2 == 5 || op2 == 1 then Some(Low(19))
    else if op2 == 6 || op2 == 2 || op2 == 7 then Some(Low(22))
    else None
  }

  /** The displacement field: `wdisp` and `wdisp16` of a distance in bytes. */
  function Field(format: Format, distance: int): nat {
    match format
    case Low(bits) => distance / 4 % Pow2(bits)
    case Split => distance / 4 % 0x4000 + distance / 0x1_0000 % 4 * 0x10_0000
  }

  function Mask(format: Format): nat {
    Field(format, -4)
  }

  function Put(format: Format, inst: Inst, distance: int): nat {
    var m := Mask(format);
    Or(And(inst, if m < TWO_32 then TWO_32 - 1 - m else 0), Field(format, distance))
  }

  function Patched(dest: int, inst: Inst, pos: int): Option<Inst> {
    match FormatOf(inst)
    case None => None
    case Some(format) => Some(Put(format, inst, dest - pos))
  }

  /** `inv_wdisp` and `inv_wdisp16`: the field sign-extended. */
  function Distance(format: Format, inst: Inst): int {
    match format
    case Low(bits) =>
      var field := inst % Pow2(bits);
      4 * if 2 * field >= Pow2(bits) then field - Pow2(bits) else field
    case Split =>
      var low, high := inst % 0x4000, inst / 0x10_0000 % 4;
      4 * ((if high >= 2 then high - 4 else high) * 0x4000 + low)
  }

  function Destination(inst: Inst, pos: int): Option<int> {
    match FormatOf(inst)
    case None => None
    case Some(format) => Some(Wrap(Distance(format, inst) + pos))
  }

  predicate Known(format: Format) {
    format.Split? || format.bits == 19 || format.bits == 22 || format.bits == 30
  }

  lemma FieldPowers()
    ensures Pow2(19) == 0x8_0000 && Pow2(22) == 0x40_0000 && Pow2(30) == 0x4000_0000
  {
    Powers();
    assert Pow2(20) == 2 * Pow2(19);
    assert Pow2(22) == 4 * Pow2(20);
    assert Pow2(32) == 4 * Pow2(30);
  }

  // ---- what patching does to the word ----

  /** The bits that are not displacement. */
  function Rest(format: Format, inst: Inst): int {
    match format
    case Low(bits) => inst - inst % Pow2(bits)
    case Split => inst / 0x40_0000 * 0x40_0000 + inst / 0x4000 % 64 * 0x4000
  }

  lemma LowMask(bits: nat)
    requires Known(Low(bits))
    ensures Mask(Low(bits)) == Pow2(bits) - 1
  {
    var p := Pow2(bits);
    FieldPowers();
    DivUnique(-1, p, -1, p - 1);
  }

  lemma Multiples(x: nat, p: nat)
    requires 0 < p
    ensures x / p * p == x - x % p >= 0
  {
    Scale(p, x / p);
  }

  lemma HighMask(bits: nat)
    requires Known(Low(bits))
    ensures Pow2(bits) < TWO_32 == Pow2(bits + (32 - bits)) && TWO_32 - Pow2(bits) == (Pow2(32 - bits) - 1) * Pow2(bits)
  {
    FieldPowers();
    Powers();
    assert Pow2(13) == 0x2000;
    if bits == 19 {
      assert 32 - bits == 13;
    } else if bits == 22 {
      assert 32 - bits == 10;
    } else {
      assert 32 - bits == 2;
    }
  }

  /** A mask of the bits from a place on leaves the multiple of that place. */
  lemma AndFrom(inst: Inst, mask: nat, k: nat, n: nat)
    requires inst < Pow2(k + n) && mask == (Pow2(n) - 1) * Pow2(k)
    ensures And(inst, mask) == inst - inst % Pow2(k)
  {
    var p := Pow2(k);
    AndAbove(inst, mask, 0, k, n, p);
    AndBelow(inst % p, 0);
    Multiples(inst, p);
  }

  lemma LowKept(bits: nat, inst: Inst)
    requires inst < TWO_32 && Known(Low(bits))
    ensures Mask(Low(bits)) < TWO_32 && And(inst, TWO_32 - 1 - Mask(Low(bits))) == Rest(Low(bits), inst)
  {
    HighMask(bits);
    LowMask(bits);
    AndFrom(inst, TWO_32 - Pow2(bits), bits, 32 - bits);
  }

  /** The kept bits and the field share none. */
  lemma LowApart(inst: Inst, field: nat, bits: nat)
    requires field < Pow2(bits)
    ensures inst - inst % Pow2(bits) >= 0 && And(inst - inst % Pow2(bits), field) == 0
  {
    var p := Pow2(bits);
    var q := inst / p;
    Multiples(inst, p);
    assert q >= 0 by { Scale(p, q); }
    AndParts(q * p, field, q, 0, 0, field, bits, p);
    AndBelow(q, 0);
  }

  lemma SplitPowers()
    ensures Pow2(2) == 4 && Pow2(6) == 64 && Pow2(8) == 256 && Pow2(10) == 1024 && Pow2(14) == 0x4000
    ensures Pow2(18) == 0x4_0000
  {
    Powers();
    assert Pow2(8) == 4 * Pow2(6);
    assert Pow2(14) == 4 * Pow2(12);
    assert Pow2(20) == 4 * Pow2(18);
  }

  /** What is left of a word above its low fourteen bits. */
  lemma KeptUpper(y: nat)
    requires y < 0x4_0000
    ensures And(y, 1023 * 256 + 63) == y / 256 * 256 + y % 64
  {
    SplitPowers();
    var r := y % 256;
    AndAbove(y, 1023 * 256 + 63, 63, 8, 10, 256);
    AndRemainder(r, 6, 64);
    ModOfMod(y, 4, 64);
  }

  lemma KeptAll(inst: Inst)
    ensures And(inst, (1023 * 256 + 63) * 0x4000) == And(inst / 0x4000, 1023 * 256 + 63) * 0x4000
  {
    SplitPowers();
    var q, r := inst / 0x4000, inst % 0x4000;
    AndParts(inst, (1023 * 256 + 63) * 0x4000, q, r, 1023 * 256 + 63, 0, 14, 0x4000);
    AndBelow(r, 0);
  }

  lemma SplitMask()
    ensures Mask(Split) == TWO_32 - 1 - (1023 * 256 + 63) * 0x4000
  {
  }

  lemma SplitKept(inst: Inst)
    requires inst < TWO_32
    ensures And(inst, TWO_32 - 1 - Mask(Split)) == Rest(Split, inst)
  {
    var y := inst / 0x4000;
    assert Mask(Split) == TWO_32 - 1 - (1023 * 256 + 63) * 0x4000 by { SplitMask(); }
    assert And(inst, (1023 * 256 + 63) * 0x4000) == And(y, 1023 * 256 + 63) * 0x4000 by { KeptAll(inst); }
    assert And(y, 1023 * 256 + 63) == y / 256 * 256 + y % 64 by { KeptUpper(y); }
    assert y / 256 == inst / 0x40_0000 by { DivOfDiv(inst, 0x4000, 256); }
  }

  /** The kept bits and the field share none. */
  lemma SplitApart(upper: nat, kept: nat, low: nat, high: nat)
    requires kept < 64 && low < 0x4000 && high < 4
    ensures And(upper * 0x40_0000 + kept * 0x4000, low + high * 0x10_0000) == 0
  {
    SplitPowers();
    var x, field := upper * 0x40_0000 + kept * 0x4000, low + high * 0x10_0000;
    AndParts(x, field, upper * 256 + kept, 0, high * 64, low, 14, 0x4000);
    AndParts(upper * 256 + kept, high * 64, upper * 4, kept, high, 0, 6, 64);
    AndParts(upper * 4, high, upper, 0, 0, high, 2, 4);
    AndBelow(kept, 0);
    AndBelow(upper, 0);
  }

  lemma Kept(format: Format, inst: Inst)
    requires inst < TWO_32 && Known(format)
    ensures Mask(format) < TWO_32 && And(inst, TWO_32 - 1 - Mask(format)) == Rest(format, inst)
  {
    if format.Low? {
      LowKept(format.bits, inst);
    } else {
      SplitMask();
      SplitKept(inst);
    }
  }

  lemma KeptApart(format: Format, inst: Inst, distance: int)
    requires Known(format)
    ensures Rest(format, inst) >= 0 && And(Rest(format, inst), Field(format, distance)) == 0
  {
    match format {
      case Low(bits) => LowApart(inst, Field(format, distance), bits);
      case Split => SplitApart(inst / 0x40_0000, inst / 0x4000 % 64, distance / 4 % 0x4000, distance / 0x1_0000 % 4);
    }
  }

  /** Patching is a sum of what is kept and the field. */
  lemma PutIsSum(format: Format, inst: Inst, distance: int)
    requires inst < TWO_32 && Known(format)
    ensures Put(format, inst, distance) == Rest(format, inst) + Field(format, distance)
  {
    Kept(format, inst);
    KeptApart(format, inst, distance);
    OrSum(Rest(format, inst), Field(format, distance));
  }

  lemma LowParts(inst: Inst, field: nat, p: nat)
    requires 0 < p && field < p
    ensures var i := inst - inst % p + field; i >= 0 && i / p == inst / p && i % p == field
  {
    var q := inst / p;
    assert inst - inst % p == p * q;
    DivUnique(inst - inst % p + field, p, q, field);
    assert inst % p <= inst by { Scale(p, q); }
  }

  lemma SplitParts(upper: nat, kept: nat, low: nat, high: nat)
    requires kept < 64 && low < 0x4000 && high < 4
    ensures var i := upper * 0x40_0000 + kept * 0x4000 + (low + high * 0x10_0000);
            i / 0x40_0000 == upper && i / 0x4000 % 64 == kept && i % 0x4000 == low && i / 0x10_0000 % 4 == high
  {
    var i := upper * 0x40_0000 + kept * 0x4000 + (low + high * 0x10_0000);
    assert i / 0x4000 == upper * 256 + high * 64 + kept;
    assert i / 0x10_0000 == upper * 4 + high;
  }

  /** Nothing but the displacement changes. */
  lemma RestStays(format: Format, inst: Inst, distance: int)
    requires inst < TWO_32 && Known(format)
    ensures Rest(format, Put(format, inst, distance)) == Rest(format, inst)
  {
    FieldPowers();
    PutIsSum(format, inst, distance);
    if format.Low? {
      LowParts(inst, Field(format, distance), Pow2(format.bits));
    } else {
      SplitParts(inst / 0x40_0000, inst / 0x4000 % 64, distance / 4 % 0x4000, distance / 0x1_0000 % 4);
    }
  }

  lemma FormatByUpper(a: Inst, b: Inst)
    requires a / 0x40_0000 == b / 0x40_0000
    ensures FormatOf(a) == FormatOf(b)
  {
    assert a / 0x4000_0000 == a / 0x40_0000 / 256 && b / 0x4000_0000 == b / 0x40_0000 / 256;
  }

  lemma UpperStays(inst: Inst, field: nat, p: nat)
    requires (p == 0x8_0000 || p == 0x40_0000) && field < p
    ensures (inst - inst % p + field) / 0x40_0000 == inst / 0x40_0000
  {
    var i := inst - inst % p + field;
    LowParts(inst, field, p);
    DivOfDiv(i, p, 0x40_0000 / p);
    DivOfDiv(inst, p, 0x40_0000 / p);
  }

  /** The patched word is still an instruction of the same format. */
  lemma FormatStays(inst: Inst, distance: int)
    requires inst < TWO_32 && FormatOf(inst).Some?
    ensures var i := Put(FormatOf(inst).value, inst, distance); FormatOf(i) == FormatOf(inst) && i < TWO_32
  {
    var format := FormatOf(inst).value;
    var i := Put(format, inst, distance);
    FieldPowers();
    PutIsSum(format, inst, distance);
    match format {
      case Low(bits) =>
        LowParts(inst, Field(format, distance), Pow2(bits));
        if bits != 30 {
          UpperStays(inst, Field(format, distance), Pow2(bits));
          FormatByUpper(i, inst);
        }
      case Split =>
        SplitParts(inst / 0x40_0000, inst / 0x4000 % 64, distance / 4 % 0x4000, distance / 0x1_0000 % 4);
        FormatByUpper(i, inst);
    }
  }

  // ---- reading the destination back ----

  /** The words a displacement field can tell apart. */
  function Reach(format: Format): nat {
    if format.Low? then Pow2(format.bits) else 0x1_0000
  }

  function SignExtended(field: int, p: int): int {
    if 2 * field >= p then field - p else field
  }

  lemma LowDistance(bits: nat, inst: Inst, distance: int)
    requires inst < TWO_32 && Known(Low(bits))
    ensures var p := Pow2(bits);
            Distance(Low(bits), Put(Low(bits), inst, distance)) == 4 * SignExtended(distance / 4 % p, p)
  {
    PutIsSum(Low(bits), inst, distance);
    LowParts(inst, Field(Low(bits), distance), Pow2(bits));
  }

  lemma SplitDistance(inst: Inst, distance: int)
    requires inst < TWO_32
    ensures Distance(Split, Put(Split, inst, distance)) == 4 * SignExtended(distance / 4 % 0x1_0000, 0x1_0000)
  {
    var low, high := distance / 4 % 0x4000, distance / 0x1_0000 % 4;
    PutIsSum(Split, inst, distance);
    SplitParts(inst / 0x40_0000, inst / 0x4000 % 64, low, high);
    SplitSixteen(distance / 4);
    assert distance / 0x1_0000 == distance / 4 / 0x4000;
  }

  lemma SplitSixteen(m: int)
    ensures m % 0x1_0000 == m / 0x4000 % 4 * 0x4000 + m % 0x4000
  {
  }

  lemma WrapIs(x: int, y: int)
    requires Position(y)
    ensures Wrap(x) == y <==> (x - y) % TWO_32 == 0
  {
  }

  /** The remainder nearest zero. */
  lemma NearestUnique(m: int, p: int, q: int, u: int)
    requires 0 < p && m == p * q + u && -p <= 2 * u < p
    ensures SignExtended(m % p, p) == u
  {
    if u >= 0 {
      DivUnique(m, p, q, u);
    } else {
      assert p * (q - 1) == p * q - p;
      DivUnique(m, p, q - 1, u + p);
    }
  }

  /** What can be represented: whole words, and within reach as a number of 32 bits. */
  predicate Fits(p: int, distance: int) {
    distance % 4 == 0 && -2 * p <= Wrap(distance) < 2 * p
  }

  lemma Regroup(p: int, k: int, t: int, u: int)
    requires 4 * (p * k) == TWO_32
    ensures 4 * u + TWO_32 * t == 4 * (p * (k * t) + u)
  {
    assert p * k * t == p * (k * t);
  }

  /** A distance in whole words is its wrapped one and a number of turns. */
  lemma WrapTurns(distance: int) returns (u: int, t: int)
    requires distance % 4 == 0
    ensures Wrap(distance) == 4 * u && distance == 4 * u + TWO_32 * t
  {
    t := (distance - Wrap(distance)) / TWO_32;
    u := distance / 4 - TWO_32 / 4 * t;
  }

  lemma FitsComesBack(p: nat, k: nat, distance: int)
    requires 0 < p && 4 * (p * k) == TWO_32 && Fits(p, distance)
    ensures 4 * SignExtended(distance / 4 % p, p) == Wrap(distance)
  {
    var u, t := WrapTurns(distance);
    var m := p * (k * t) + u;
    assert distance == 4 * m by { Regroup(p, k, t, u); }
    assert distance / 4 == m by { DivUnique(distance, 4, m, 0); }
    NearestUnique(m, p, k * t, u);
  }

  lemma ComesBackFits(p: int, distance: int, s: int)
    requires 4 * p <= TWO_32 && -2 * p <= 4 * s < 2 * p && (4 * s - distance) % TWO_32 == 0
    ensures Fits(p, distance)
  {
    var t := (4 * s - distance) / TWO_32;
    assert distance == 4 * (s - TWO_32 / 4 * t) && distance - 4 * s == TWO_32 * -t;
    WholeWords(s - TWO_32 / 4 * t, -t);
    WrapIs(distance, 4 * s);
  }

  lemma WholeWords(x: int, t: int)
    ensures 4 * x % 4 == 0 && TWO_32 * t % TWO_32 == 0
  {
  }

  lemma SignBound(m: int, p: int)
    requires 0 < p && p % 2 == 0
    ensures -2 * p <= 4 * SignExtended(m % p, p) < 2 * p
  {
    assert 0 <= m % p < p;
  }

  lemma DistanceBack(format: Format, inst: Inst, distance: int)
    requires inst < TWO_32 && Known(format)
    ensures Distance(format, Put(format, inst, distance))
            ==
            4 * SignExtended(distance / 4 % Reach(format), Reach(format))
  {
    if format.Low? { LowDistance(format.bits, inst, distance); } else { SplitDistance(inst, distance); }
  }

  /** How often the reach goes into the address space. */
  function Times(format: Format): nat
    requires Known(format)
  {
    match format
    case Split => 0x4000
    case Low(bits) => if bits == 19 then 0x800 else if bits == 22 then 0x100 else 1
  }

  lemma Reaches(format: Format)
    requires Known(format)
    ensures 4 * (Reach(format) * Times(format)) == TWO_32
    ensures 0 < Reach(format) && Reach(format) % 2 == 0 && 4 * Reach(format) <= TWO_32
  {
    FieldPowers();
  }

  lemma DistanceIff(dest: int, pos: int, p: int, k: nat)
    requires Position(dest) && 0 < p && p % 2 == 0 && 4 * p <= TWO_32 && 4 * (p * k) == TWO_32
    ensures var d := dest - pos;
            Wrap(4 * SignExtended(d / 4 % p, p) + pos) == dest <==> Fits(p, d)
  {
    var d := dest - pos;
    var s := SignExtended(d / 4 % p, p);
    WrapIs(4 * s + pos, dest);
    assert 4 * s + pos - dest == 4 * s - d;
    if Fits(p, d) {
      FitsComesBack(p, k, d);
      WrapCongruent(d);
    }
    if (4 * s - d) % TWO_32 == 0 {
      SignBound(d / 4, p);
      ComesBackFits(p, d, s);
    }
  }

  lemma WrapCongruent(x: int)
    ensures (Wrap(x) - x) % TWO_32 == 0
  {
  }

  /** The destination read back is the one patched in exactly when the distance fits the format; for a call any
      whole number of words does. */
  lemma RoundTripIff(dest: int, inst: Inst, pos: int)
    requires inst < TWO_32 && Position(dest) && Position(pos) && FormatOf(inst).Some?
    ensures var i := Patched(dest, inst, pos).value;
            Destination(i, pos) == Some(dest) <==> Fits(Reach(FormatOf(inst).value), dest - pos)
  {
    var format, d := FormatOf(inst).value, dest - pos;
    var i, p := Put(format, inst, d), Reach(format);
    assert FormatOf(i) == Some(format) by { FormatStays(inst, d); }
    assert Distance(format, i) == 4 * SignExtended(d / 4 % p, p) by { DistanceBack(format, inst, d); }
    assert Wrap(4 * SignExtended(d / 4 % p, p) + pos) == dest <==> Fits(p, d) by {
      Reaches(format);
      DistanceIff(dest, pos, p, Times(format));
    }
  }

  lemma CallsReachAll(distance: int)
    ensures Fits(Reach(Low(30)), distance) <==> distance % 4 == 0
  {
    FieldPowers();
  }

  /** Patching again forgets the earlier destination. */
  lemma Repatched(dest1: int, pos1: int, dest2: int, pos2: int, inst: Inst)
    requires inst < TWO_32 && FormatOf(inst).Some?
    ensures Patched(dest2, Patched(dest1, inst, pos1).value, pos2) == Patched(dest2, inst, pos2)
  {
    var format := FormatOf(inst).value;
    FormatStays(inst, dest1 - pos1);
    RestStays(format, inst, dest1 - pos1);
    PutIsSum(format, inst, dest2 - pos2);
    PutIsSum(format, Put(format, inst, dest1 - pos1), dest2 - pos2);
  }

  /** A word of format 1 or 2 from its fields: `op`, the five bits of a register or of annul and condition, `op2`, and
      the rest. */
  function Encoded(op: nat, middle: nat, op2: nat, rest: nat): Inst {
    op * 0x4000_0000 + middle * 0x200_0000 + op2 * 0x40_0000 + rest
  }

  lemma FieldsDecoded(op: nat, middle: nat, op2: nat, rest: nat)
    requires op < 4 && middle < 32 && op2 < 8 && rest < 0x40_0000
    ensures var i := Encoded(op, middle, op2, rest); i < TWO_32 && i / 0x4000_0000 == op && i / 0x40_0000 % 8 == op2
  {
    var i := Encoded(op, middle, op2, rest);
    DivUnique(i, 0x4000_0000, op, middle * 0x200_0000 + op2 * 0x40_0000 + rest);
    DivUnique(i, 0x40_0000, op * 256 + middle * 8 + op2, rest);
    DivUnique(op * 256 + middle * 8 + op2, 8, op * 32 + middle, op2);
  }

  /** Of the words the emitters put together, calls and the six kinds of branches are patched and read, and nothing
      else: not arithmetic, not memory accesses, not `sethi`, not the unused code. */
  lemma PatchedWords(op: nat, middle: nat, op2: nat, rest: nat, dest: int, pos: int)
    requires op < 4 && middle < 32 && op2 < 8 && rest < 0x40_0000
    ensures var i := Encoded(op, middle, op2, rest);
            && (Patched(dest, i, pos).Some? <==> Destination(i, pos).Some?)
            && (Patched(dest, i, pos).Some? <==> op == 1 || (op == 0 && op2 in {1, 2, 3, 5, 6, 7}))
  {
    FieldsDecoded(op, middle, op2, rest);
  }

  // ---- the fields of each kind of instruction ----

  /** A prefix in front of the field's bits. */
  lemma LowSplit(i: Inst, p: nat, q: nat, r: nat)
    requires 0 < p && r < p && i == p * q + r
    ensures i % p == r && i - i % p == p * q
  {
    DivUnique(i, p, q, r);
  }

  /** Branches on predicted conditions, integer and floating: the displacement is the low nineteen bits, below the
      condition codes' number and the prediction. */
  lemma PredictedBranch(middle: nat, op2: nat, rest: nat, dest: int, pos: int)
    requires middle < 32 && (op2 == 1 || op2 == 5) && rest < 0x40_0000
    ensures var i := Encoded(0, middle, op2, rest);
            && Patched(dest, i, pos)
               == Some(Encoded(0, middle, op2, rest / 0x8_0000 * 0x8_0000 + (dest - pos) / 4 % 0x8_0000))
            && Destination(i, pos) == Some(Wrap(4 * SignExtended(rest % 0x8_0000, 0x8_0000) + pos))
  {
    var i := Encoded(0, middle, op2, rest);
    var q, r := middle * 64 + op2 * 8 + rest / 0x8_0000, rest % 0x8_0000;
    assert i < TWO_32 && FormatOf(i) == Some(Low(19)) by { FieldsDecoded(0, middle, op2, rest); }
    assert Put(Low(19), i, dest - pos) == Rest(Low(19), i) + Field(Low(19), dest - pos) by {
      PutIsSum(Low(19), i, dest - pos);
    }
    assert i % 0x8_0000 == r && i - i % 0x8_0000 == 0x8_0000 * q by { LowSplit(i, 0x8_0000, q, r); }
    FieldPowers();
  }

  /** Plain branches, integer, floating and coprocessor: the low twenty-two bits, all that is behind `op2`. */
  lemma PlainBranch(middle: nat, op2: nat, rest: nat, dest: int, pos: int)
    requires middle < 32 && (op2 == 2 || op2 == 6 || op2 == 7) && rest < 0x40_0000
    ensures var i := Encoded(0, middle, op2, rest);
            && Patched(dest, i, pos) == Some(Encoded(0, middle, op2, (dest - pos) / 4 % 0x40_0000))
            && Destination(i, pos) == Some(Wrap(4 * SignExtended(rest, 0x40_0000) + pos))
  {
    var i := Encoded(0, middle, op2, rest);
    assert i < TWO_32 && FormatOf(i) == Some(Low(22)) by { FieldsDecoded(0, middle, op2, rest); }
    assert Put(Low(22), i, dest - pos) == Rest(Low(22), i) + Field(Low(22), dest - pos) by {
      PutIsSum(Low(22), i, dest - pos);
    }
    LowSplit(i, 0x40_0000, middle * 8 + op2, rest);
    FieldPowers();
  }

  /** Branches on register contents: two bits above the prediction and the register, fourteen below. */
  lemma RegisterBranch(middle: nat, high: nat, between: nat, low: nat, dest: int, pos: int)
    requires middle < 32 && high < 4 && between < 64 && low < 0x4000
    ensures var i := Encoded(0, middle, 3, high * 0x10_0000 + between * 0x4000 + low);
            var m := (dest - pos) / 4;
            && Patched(dest, i, pos)
               == Some(Encoded(0, middle, 3, m / 0x4000 % 4 * 0x10_0000 + between * 0x4000 + m % 0x4000))
            && Destination(i, pos) == Some(Wrap(4 * SignExtended(high * 0x4000 + low, 0x1_0000) + pos))
  {
    var i := Encoded(0, middle, 3, high * 0x10_0000 + between * 0x4000 + low);
    FieldsDecoded(0, middle, 3, high * 0x10_0000 + between * 0x4000 + low);
    PutIsSum(Split, i, dest - pos);
    SplitParts(middle * 8 + 3, between, low, high);
    assert (dest - pos) / 0x1_0000 == (dest - pos) / 4 / 0x4000;
  }

  /** Calls: all thirty bits behind `op`. */
  lemma CallWord(displacement: nat, dest: int, pos: int)
    requires displacement < 0x4000_0000
    ensures var i := 0x4000_0000 + displacement;
            && Patched(dest, i, pos) == Some(0x4000_0000 + (dest - pos) / 4 % 0x4000_0000)
            && Destination(i, pos) == Some(Wrap(4 * SignExtended(displacement, 0x4000_0000) + pos))
  {
    var i := 0x4000_0000 + displacement;
    FieldPowers();
    DivUnique(i, 0x4000_0000, 1, displacement);
    PutIsSum(Low(30), i, dest - pos);
  }
}
