/** The bitwise instructions of the lock code compute the arithmetic forms of `MarkWord`. */
module MarkWordBits {
  import opened Bits
  import opened MarkWord

  // The masks of markOop.
  const LOCK_MASK: nat := 3
  const BIAS_MASK: nat := 7
  const AGE_MASK: nat := 0x78
  const MONITOR: nat := 2
  const UNLOCKED: nat := 1

  function EpochMask(lp64: bool): nat {
    3 * EpochUnit(lp64)
  }

  function EpochShift(lp64: bool): nat {
    if lp64 then 8 else 7
  }

  /** Masking low bits is a remainder. */
  lemma AndLow(x: Word)
    ensures And(x, LOCK_MASK) == x % 4 && And(x, BIAS_MASK) == x % 8 && And(x, 127) == x % 128
  {
    Powers();
    AndOnes(x, 2);
    AndOnes(x, 3);
    AndOnes(x, 7);
    ShiftIsDivision(x, 2);
    ShiftIsDivision(x, 3);
    ShiftIsDivision(x, 7);
  }

  /** The bit tested for an inflated lock, and the word made to compare with an unlocked header. */
  lemma LockBits(x: Word)
    ensures And(x, MONITOR) != 0 <==> MonitorBit(x)
    ensures Or(x, UNLOCKED) == OrUnlocked(x)
  {
    AndBit(x, 2);
    AndBit(x / 2, 1);
    AndBelow(x / 2 / 2, 0);
    if x != 0 { assert Or(x / 2, 0) == x / 2; }
  }

  /** The width of a word. */
  function Width(lp64: bool): nat {
    if lp64 then 64 else 32
  }

  lemma WordPowers(lp64: bool)
    ensures Pow2(Width(lp64)) == Words(lp64)
    ensures Pow2(Width(lp64) - 12) * 4096 == Words(lp64) && Pow2(Width(lp64) - 7) * 128 == Words(lp64)
  {
    Powers();
    PowSum(12, Width(lp64) - 12);
    PowSum(7, Width(lp64) - 7);
  }

  /** `0xfffff003` sign-extended to a word. */
  lemma RecursionMaskIsAnd(lp64: bool, offset: Word)
    requires offset < Words(lp64)
    ensures And(offset, Words(lp64) - 4093) == RecursionMask(offset)
  {
    var r, n := offset % 4096, Width(lp64) - 12;
    WordPowers(lp64);
    Powers();
    AndAbove(offset, Words(lp64) - 4093, 3, 12, n, 4096);
    AndLow(r);
    ModOfMod(offset, 1024, 4);
  }

  /** Clearing the age. */
  lemma WithoutAgeIsAnd(lp64: bool, x: Word)
    requires x < Words(lp64)
    ensures And(x, Words(lp64) - 1 - AGE_MASK) == WithoutAge(x)
  {
    var r, n := x % 128, Width(lp64) - 7;
    WordPowers(lp64);
    Powers();
    AndAbove(x, Words(lp64) - 1 - AGE_MASK, 7, 7, n, 128);
    AndLow(r);
    ModOfMod(x, 16, 8);
  }

  // ---- the bias triage ----

  /** `biased_locking_enter` in its own operations: what is tested is the exclusive or of the mark and the word
      it would be if biased to us, with the age cleared. */
  function BitTriage(lp64: bool, mark: Word, proto: Word, thread: Word): Triage {
    if And(mark, BIAS_MASK) != 5 then CasLock
    else
      var ours := Or(thread, proto);
      var difference := And(Xor(mark, ours), Words(lp64) - 1 - AGE_MASK);
      if difference == 0 then BiasedToUs
      else if And(difference, BIAS_MASK) != 0 then Revoke(mark, proto)
      else
        var masked := And(mark, BIAS_MASK + AGE_MASK + EpochMask(lp64));
        if And(difference, EpochMask(lp64)) != 0 then Rebias(masked, ours)
        else Acquire(masked, Or(thread, masked))
  }

  /** The exclusive or is zero in a field just when the words agree in it. */
  lemma XorFields(a: Word, b: Word)
    ensures Xor(a, b) % 8 == 0 <==> a % 8 == b % 8
    ensures Xor(a, b) / 128 == 0 <==> a / 128 == b / 128
  {
    Powers();
    XorLow(a, b, 3);
    XorShr(a, b, 7);
    XorZero(a / 128, b / 128);
    AsDivision(a);
    AsDivision(b);
    AsDivision(Xor(a, b));
  }

  lemma AsDivision(x: nat)
    ensures Low(x, 2) == x % 4 && Low(x, 3) == x % 8 && Shr(x, 7) == x / 128 && Shr(x, 8) == x / 256
  {
    Powers();
    ShiftIsDivision(x, 2);
    ShiftIsDivision(x, 3);
    ShiftIsDivision(x, 7);
    ShiftIsDivision(x, 8);
  }

  lemma XorEpoch(lp64: bool, a: Word, b: Word)
    ensures Epoch(lp64, Xor(a, b)) == 0 <==> Epoch(lp64, a) == Epoch(lp64, b)
  {
    var k := EpochShift(lp64);
    XorShr(a, b, k);
    XorLow(Shr(a, k), Shr(b, k), 2);
    AsDivision(a);
    AsDivision(b);
    AsDivision(Xor(a, b));
    AsDivision(Shr(a, k));
    AsDivision(Shr(b, k));
    AsDivision(Shr(Xor(a, b), k));
  }

  lemma EpochIsAnd(lp64: bool, x: Word)
    ensures And(x, EpochMask(lp64)) == Epoch(lp64, x) * EpochUnit(lp64)
  {
    var unit := EpochUnit(lp64);
    var q, r := x / unit, x % unit;
    Powers();
    AndParts(x, EpochMask(lp64), q, r, 3, 0, EpochShift(lp64), unit);
    AndBelow(r, 0);
    AndLow(q);
  }

  lemma AndSix(y: nat)
    ensures And(y, 6) == y / 2 % 4 * 2
  {
    AndBit(y, 6);
    AndLow(y / 2);
  }

  lemma AndAt128(x: nat, high: nat)
    ensures And(x, high * 128 + 127) == And(x / 128, high) * 128 + x % 128
  {
    var q, r := x / 128, x % 128;
    Powers();
    AndParts(x, high * 128 + 127, q, r, high, 127, 7, 128);
    AndLow(r);
    DivUnique(r, 128, 0, r);
  }

  lemma OwnerFreeIsAnd(lp64: bool, mark: Word)
    ensures And(mark, BIAS_MASK + AGE_MASK + EpochMask(lp64)) == OwnerFree(lp64, mark)
  {
    AndAt128(mark, if lp64 then 6 else 3);
    AndSix(mark / 128);
    AndLow(mark / 128);
    DivOfDiv(mark, 128, 2);
  }

  lemma AgeAside(lp64: bool, x: Word)
    ensures WithoutAge(x) % 8 == x % 8 && Epoch(lp64, WithoutAge(x)) == Epoch(lp64, x)
    ensures WithoutAge(x) == 0 <==> x % 8 == 0 && x / 128 == 0
  {
    Split128(x / 128, x % 8);
    Split8(16 * (x / 128), x % 8);
    DivOfDiv(x, 128, 2);
    DivOfDiv(WithoutAge(x), 128, 2);
  }

  /** What the three tests of the difference find out. */
  lemma DifferenceTests(lp64: bool, mark: Word, ours: Word)
    requires mark < Words(lp64) && ours < Words(lp64)
    ensures var difference := And(Xor(mark, ours), Words(lp64) - 1 - AGE_MASK);
            && (difference == 0 <==> WithoutAge(mark) == WithoutAge(ours))
            && (And(difference, BIAS_MASK) == 0 <==> mark % 8 == ours % 8)
            && (And(difference, EpochMask(lp64)) == 0 <==> Epoch(lp64, mark) == Epoch(lp64, ours))
  {
    var x := Xor(mark, ours);
    assert x < Words(lp64) by {
      WordPowers(lp64);
      XorBelow(mark, ours, Width(lp64));
    }
    var difference := And(x, Words(lp64) - 1 - AGE_MASK);
    assert difference == WithoutAge(x) by { WithoutAgeIsAnd(lp64, x); }
    assert x % 8 == 0 <==> mark % 8 == ours % 8 by { XorFields(mark, ours); }
    assert difference == 0 <==> WithoutAge(mark) == WithoutAge(ours) by {
      AgeAside(lp64, x);
      XorFields(mark, ours);
      SameParts(mark, ours);
    }
    assert And(difference, BIAS_MASK) == x % 8 by {
      AndLow(difference);
      AgeAside(lp64, x);
    }
    assert And(difference, EpochMask(lp64)) == Epoch(lp64, x) * EpochUnit(lp64) by {
      EpochIsAnd(lp64, difference);
      AgeAside(lp64, x);
    }
    XorEpoch(lp64, mark, ours);
  }

  lemma OwnerFreeSmall(lp64: bool, mark: Word)
    ensures OwnerFree(lp64, mark) < 1024
  {
  }

  lemma AlignedBelow(lp64: bool, thread: Word)
    requires thread % 1024 == 0 && thread < Words(lp64)
    ensures thread + 1024 <= Words(lp64)
  {
    assert thread == 1024 * (thread / 1024);
  }

  /** With an aligned thread pointer and a prototype that names no owner, the two triages agree. */
  lemma BitTriageIsTriage(lp64: bool, mark: Word, proto: Word, thread: Word)
    requires mark < Words(lp64) && proto < 1024 && thread % 1024 == 0 && thread < Words(lp64)
    ensures BitTriage(lp64, mark, proto, thread) == BiasTriage(lp64, mark, proto, thread)
  {
    var ours, masked := thread + proto, OwnerFree(lp64, mark);
    AlignedBelow(lp64, thread);
    assert Or(thread, proto) == ours by { OrIsSum(thread, proto); }
    assert And(mark, BIAS_MASK) == mark % 8 by { AndLow(mark); }
    assert And(mark, BIAS_MASK + AGE_MASK + EpochMask(lp64)) == masked by { OwnerFreeIsAnd(lp64, mark); }
    assert Or(thread, masked) == thread + masked by {
      OwnerFreeSmall(lp64, mark);
      OrIsSum(thread, masked);
    }
    DifferenceTests(lp64, mark, ours);
  }

  lemma SameParts(a: Word, b: Word)
    ensures WithoutAge(a) == WithoutAge(b) <==> a % 8 == b % 8 && a / 128 == b / 128
  {
    AgeFreeParts(a);
    AgeFreeParts(b);
  }

  lemma OrIsSum(thread: Word, low: Word)
    requires thread % 1024 == 0 && low < 1024
    ensures Or(thread, low) == thread + low
  {
    var k := 10;
    Powers();
    ShiftIsDivision(thread, k);
    OrDisjoint(thread, low, k);
  }
}
