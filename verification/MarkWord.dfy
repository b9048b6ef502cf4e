/** The object header ("mark") as a machine word, and the register computations the emitted lock code
    performs on it.  Bit layout, most significant first:

      [header      | age | 0 | 01]  neutral         [ptr | 00]  stack-locked, ptr is the box
      [thread|epoch| age | 1 | 01]  biased          [ptr | 10]  inflated

    Words are naturals below 2^64, in the 32-bit VM below 2^32, and their bit fields are written with division and
    remainder; module `MarkWordBits` shows that these forms are what the emitted and, or and xor instructions
    compute. */
module MarkWord {
  import opened Bits

  type Word = nat

  /** How many words there are.  In the 32-bit VM it is the low 32 bits that are stored and that the condition codes
      tell of. */
  function Words(lp64: bool): nat {
    if lp64 then 0x1_0000_0000_0000_0000 else TWO_32
  }

  /** What `sub` leaves in a register. */
  function Sub(lp64: bool, a: Word, b: Word): Word {
    (a - b) % Words(lp64)
  }

  function StackBias(lp64: bool): Word {
    if lp64 then 2047 else 0
  }

  // ---- lock bits ----

  predicate Biased(mark: Word) {
    mark % 8 == 5
  }

  predicate Neutral(mark: Word) {
    mark % 8 == 1
  }

  predicate Inflated(mark: Word) {
    mark % 4 == 2
  }

  /** The test `mark & monitor_value`. */
  predicate MonitorBit(mark: Word) {
    mark % 4 >= 2
  }

  /** The word `mark | unlocked_value`. */
  function OrUnlocked(mark: Word): Word {
    mark - mark % 2 + 1
  }

  /** The lock bits are the low bits of the three, and the unlocked bit is the lowest. */
  lemma LowBits(mark: Word)
    ensures mark % 8 % 4 == mark % 4 && mark % 8 % 2 == mark % 2
    ensures OrUnlocked(mark) % 2 == 1
  {
    ModOfMod(mark, 2, 4);
    ModOfMod(mark, 4, 2);
    DivUnique(OrUnlocked(mark), 2, mark / 2, 1);
  }

  /** What the kinds of marks are not, and what they look like to the CAS lock. */
  lemma MarkFacts(mark: Word)
    ensures Biased(mark) ==> !Neutral(mark) && !Inflated(mark) && !MonitorBit(mark) && mark % 8 != 0
    ensures Neutral(mark) ==> !Inflated(mark) && !MonitorBit(mark) && OrUnlocked(mark) == mark && mark % 8 != 0
    ensures Neutral(mark) ==> mark % 4 == 1
    ensures Inflated(mark) ==> MonitorBit(mark) && mark % 8 != 0 && mark % 2 == 0
    ensures mark % 8 == 0 ==> !Inflated(mark) && !MonitorBit(mark) && OrUnlocked(mark) == mark + 1
    ensures OrUnlocked(mark) % 2 == 1
  {
    LowBits(mark);
    ModOfMod(mark, 2, 2);
  }

  // ---- the recursion test ----

  /** `offset & 0xfffff003`, the constant sign-extended: clears a page offset that is a multiple of four. */
  function RecursionMask(offset: Word): Word {
    offset - offset % 4096 + offset % 4
  }

  /** What `compiler_lock_object` stores as displaced header after a lost CAS: zero means recursive.
      `spReg` is the stack pointer register, which in the 64-bit VM is 2047 below the stack address. */
  function ServerRecursion(lp64: bool, seen: Word, spReg: Word): Word {
    RecursionMask(Sub(lp64, Sub(lp64, seen, StackBias(lp64)), spReg))
  }

  /** The same test in C1's `lock_object`, which does not subtract the stack bias. */
  function ClientRecursion(lp64: bool, seen: Word, spReg: Word): Word {
    RecursionMask(Sub(lp64, seen, spReg))
  }

  /** A word less than a page above the stack pointer, with both lock bits clear. */
  predicate Near(sp: Word, seen: Word) {
    sp <= seen < sp + 4096 && seen % 4 == 0
  }

  lemma ServerRecursionIffNear(lp64: bool, seen: Word, sp: Word)
    requires sp % 8 == 0 && 4096 <= sp <= Words(lp64) - 4096 && seen < Words(lp64)
    ensures ServerRecursion(lp64, seen, sp - StackBias(lp64)) == 0 <==> Near(sp, seen)
  {
    SubBoth(lp64, seen, sp, StackBias(lp64));
    ClientRecursionIffNear(lp64, seen, sp);
  }

  lemma SubBoth(lp64: bool, a: Word, b: Word, k: Word)
    requires k <= b < Words(lp64) && a < Words(lp64)
    ensures Sub(lp64, Sub(lp64, a, k), b - k) == Sub(lp64, a, b)
  {
    SubCases(lp64, a, k);
    SubCases(lp64, a, b);
    SubCases(lp64, Sub(lp64, a, k), b - k);
  }

  lemma ClientRecursionIffNear(lp64: bool, seen: Word, sp: Word)
    requires sp % 8 == 0 && sp <= Words(lp64) - 4096 && seen < Words(lp64)
    ensures ClientRecursion(lp64, seen, sp) == 0 <==> Near(sp, seen)
  {
    SubCases(lp64, seen, sp);
    MaskZero(Sub(lp64, seen, sp));
    if sp <= seen { OffsetFours(seen, sp); }
  }

  lemma OffsetFours(seen: Word, sp: Word)
    requires sp % 8 == 0 && sp <= seen
    ensures (seen - sp) % 4 == seen % 4
  {
    DivUnique(seen - sp, 4, seen / 4 - 2 * (sp / 8), seen % 4);
  }

  lemma SubCases(lp64: bool, a: Word, b: Word)
    requires a < Words(lp64) && b < Words(lp64)
    ensures Sub(lp64, a, b) == if b <= a then a - b else a - b + Words(lp64)
  {
    var n := Words(lp64);
    if b <= a { DivUnique(a - b, n, 0, a - b); } else { DivUnique(a - b, n, -1, a - b + n); }
  }

  lemma MaskZero(d: Word)
    ensures RecursionMask(d) == 0 <==> d < 4096 && d % 4 == 0
  {
    assert d == 4096 * (d / 4096) + d % 4096;
  }

  lemma BiasedOffset(seen: Word, sp: Word)
    requires seen % 8 == 0 && sp % 8 == 0 && 4096 <= sp
    ensures ClientRecursion(true, seen, sp - StackBias(true)) != 0
  {
    var x, n := seen - (sp - 2047), Words(true);
    var d := x % n;
    assert d == 4 * (2 * (seen / 8) - 2 * (sp / 8) + 511 - x / n * (n / 4)) + 3;
    DivUnique(d, 4, 2 * (seen / 8) - 2 * (sp / 8) + 511 - x / n * (n / 4), 3);
    assert d == 4096 * (d / 4096) + d % 4096;
  }

  /** Without the missing subtraction C1's test never recognises one of the thread's own boxes in the 64-bit VM,
      and it does accept some unlocked headers as recursive locks. */
  lemma ClientRecursionNeedsNoBias(seen: Word, sp: Word)
    requires seen % 8 == 0 && sp % 8 == 0 && 4096 <= sp
    ensures ClientRecursion(true, seen, sp - StackBias(true)) != 0
    ensures Neutral(0x1_0001) && ClientRecursion(true, 0x1_0001, 0x1_0000 - StackBias(true)) == 0
  {
    BiasedOffset(seen, sp);
  }

  // ---- bias fields ----

  /** The epoch starts above the lock, bias and age bits, and above the one cms bit of the 64-bit VM. */
  function EpochUnit(lp64: bool): nat {
    if lp64 then 256 else 128
  }

  function Epoch(lp64: bool, mark: Word): nat {
    mark / EpochUnit(lp64) % 4
  }

  /** The mark with only its lock bits, age and epoch kept. */
  function OwnerFree(lp64: bool, mark: Word): Word {
    mark % 128 + Epoch(lp64, mark) * EpochUnit(lp64)
  }

  /** The rest: the thread a biased mark points at, zero when it is biased anonymously. */
  function BiasOwner(lp64: bool, mark: Word): int {
    mark - OwnerFree(lp64, mark)
  }

  function WithoutAge(mark: Word): Word {
    mark % 8 + mark / 128 * 128
  }

  /** Where `biased_locking_enter` sends a mark it has just loaded, with the operands of the CAS it does there. */
  datatype Triage =
    | CasLock
    | BiasedToUs
    | Acquire(compare: Word, update: Word)
    | Rebias(compare: Word, update: Word)
    | Revoke(compare: Word, update: Word)

  function BiasTriage(lp64: bool, mark: Word, proto: Word, thread: Word): Triage {
    if !Biased(mark) then CasLock
    else
      var ours := thread + proto;
      if WithoutAge(mark) == WithoutAge(ours) then BiasedToUs
      else if mark % 8 != ours % 8 then Revoke(mark, proto)
      else
        // The masking sits in the delay slot of the epoch branch, which is not annulled: it has happened
        // on both sides of that branch.
        var masked := OwnerFree(lp64, mark);
        if Epoch(lp64, mark) != Epoch(lp64, ours) then Rebias(masked, ours)
        else Acquire(masked, thread + masked)
  }

  /** A bias the prototype's epoch still honours. */
  predicate ValidBias(lp64: bool, mark: Word, proto: Word, thread: Word) {
    Biased(mark) && BiasOwner(lp64, mark) == thread && Epoch(lp64, mark) == Epoch(lp64, proto)
  }

  predicate ThreadPointer(thread: Word) {
    thread != 0 && thread % 1024 == 0
  }

  predicate BiasedPrototype(lp64: bool, proto: Word) {
    Biased(proto) && BiasOwner(lp64, proto) == 0
  }

  lemma Split8(q: nat, r: nat)
    ensures (8 * q + r) % 8 == r % 8
  {
    DivUnique(8 * q + r, 8, q + r / 8, r % 8);
  }

  lemma Split128(q: nat, r: nat)
    requires r < 128
    ensures (128 * q + r) / 128 == q && (128 * q + r) % 128 == r
  {
    DivUnique(128 * q + r, 128, q, r);
  }

  lemma Split256(q: nat, r: nat)
    requires r < 256
    ensures (256 * q + r) / 256 == q
  {
    DivUnique(256 * q + r, 256, q, r);
  }

  lemma AddFours(k: nat, q: nat)
    ensures (4 * k + q) % 4 == q % 4 && (8 * k + q) % 4 == q % 4
  {
    DivUnique(4 * k + q, 4, k + q / 4, q % 4);
    DivUnique(8 * k + q, 4, 2 * k + q / 4, q % 4);
  }

  /** A word made of a thread pointer and an owner-free part has just these two parts. */
  lemma JoinParts(lp64: bool, thread: Word, low: Word)
    requires thread % 1024 == 0 && BiasOwner(lp64, low) == 0
    ensures (thread + low) % 8 == low % 8 && Epoch(lp64, thread + low) == Epoch(lp64, low)
    ensures BiasOwner(lp64, thread + low) == thread
  {
    var k := thread / 1024;
    Split8(128 * k, low);
    assert (thread + low) % 128 == low % 128 by { Add128s(8 * k, low); }
    if lp64 {
      Split256(4 * k + low / 256, low % 256);
      AddFours(k, low / 256);
    } else {
      Split128(8 * k + low / 128, low % 128);
      AddFours(k, low / 128);
    }
  }

  lemma Add128s(k: nat, low: nat)
    ensures (128 * k + low) % 128 == low % 128
  {
    Split128(k + low / 128, low % 128);
  }

  lemma OwnerFreeParts(lp64: bool, mark: Word)
    ensures var masked := OwnerFree(lp64, mark);
            && BiasOwner(lp64, masked) == 0 && masked % 8 == mark % 8 && Epoch(lp64, masked) == Epoch(lp64, mark)
  {
    var e, r := Epoch(lp64, mark), mark % 128;
    assert r % 8 == mark % 8 by { ModOfMod(mark, 16, 8); }
    if lp64 { FieldsOver256(e, r); } else { FieldsOver128(e, r); }
    assert e % 4 == e;
  }

  lemma FieldsOver256(e: nat, r: nat)
    requires e < 4 && r < 128
    ensures (r + e * 256) % 8 == r % 8 && (r + e * 256) % 128 == r && (r + e * 256) / 256 == e
  {
    Split8(32 * e, r);
    Split128(2 * e, r);
    Split256(e, r);
  }

  lemma FieldsOver128(e: nat, r: nat)
    requires e < 4 && r < 128
    ensures (r + e * 128) % 8 == r % 8 && (r + e * 128) % 128 == r && (r + e * 128) / 128 == e
  {
    Split8(16 * e, r);
    Split128(e, r);
  }

  lemma AgeFreeParts(a: Word)
    ensures WithoutAge(a) / 128 == a / 128 && WithoutAge(a) % 128 == a % 8
  {
    DivUnique(WithoutAge(a), 128, a / 128, a % 8);
  }

  /** Words that agree except in their age agree in owner and epoch. */
  lemma SameButAge(lp64: bool, a: Word, b: Word)
    requires WithoutAge(a) == WithoutAge(b)
    ensures a % 8 == b % 8 && Epoch(lp64, a) == Epoch(lp64, b) && BiasOwner(lp64, a) == BiasOwner(lp64, b)
  {
    AgeFreeParts(a);
    AgeFreeParts(b);
    ModOfMod(a, 16, 8);
    ModOfMod(b, 16, 8);
    DivOfDiv(a, 128, 2);
    DivOfDiv(b, 128, 2);
  }

  /** Words that agree in lock bits, owner and epoch agree except in their age. */
  lemma PartsDetermine(lp64: bool, a: Word, b: Word)
    requires a % 8 == b % 8 && Epoch(lp64, a) == Epoch(lp64, b) && BiasOwner(lp64, a) == BiasOwner(lp64, b)
    ensures WithoutAge(a) == WithoutAge(b)
  {
    assert a - a % 128 == b - b % 128;
    assert a / 128 == b / 128;
  }

  /** Under a biased prototype a biased mark never reaches the CAS lock or the revocation, the way in without
      a CAS is a bias that is ours and current, and every CAS compares with an owner-free word and would install
      a current bias to us. */
  lemma TriageBiasedPrototype(lp64: bool, mark: Word, proto: Word, thread: Word)
    requires Biased(mark) && BiasedPrototype(lp64, proto) && ThreadPointer(thread)
    ensures var r := BiasTriage(lp64, mark, proto, thread);
            && !r.CasLock? && !r.Revoke?
            && (r.Rebias? <==> Epoch(lp64, mark) != Epoch(lp64, proto))
            && (r.BiasedToUs? <==> ValidBias(lp64, mark, proto, thread))
            && (!r.BiasedToUs? ==>
                  BiasOwner(lp64, r.compare) == 0 && ValidBias(lp64, r.update, proto, thread))
  {
    JoinParts(lp64, thread, proto);
    OwnerFreeParts(lp64, mark);
    JoinParts(lp64, thread, OwnerFree(lp64, mark));
    if ValidBias(lp64, mark, proto, thread) { PartsDetermine(lp64, mark, thread + proto); }
    if WithoutAge(mark) == WithoutAge(thread + proto) {
      SameButAge(lp64, mark, thread + proto);
    }
  }

  lemma TriagePlainPrototype(lp64: bool, mark: Word, proto: Word, thread: Word)
    requires Neutral(proto) && ThreadPointer(thread)
    ensures BiasTriage(lp64, mark, proto, thread) == if Biased(mark) then Revoke(mark, proto) else CasLock
  {
    var ours := thread + proto;
    Split8(128 * (thread / 1024), proto);
    if WithoutAge(mark) == WithoutAge(ours) { SameButAge(lp64, mark, ours); }
  }
}
