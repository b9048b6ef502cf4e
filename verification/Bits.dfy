/** The bitwise operations on natural numbers, and their meaning for the division and remainder by powers of two
    that stand for shifts and bit fields elsewhere. */
module Bits {
  function And(a: nat, b: nat): nat {
    if a == 0 then 0 else (if a % 2 == 1 && b % 2 == 1 then 1 else 0) + 2 * And(a / 2, b / 2)
  }

  function Or(a: nat, b: nat): nat {
    if a == 0 then b else if b == 0 then a
    else (if a % 2 == 1 then 1 else b % 2) + 2 * Or(a / 2, b / 2)
  }

  function Xor(a: nat, b: nat): nat {
    if a == 0 then b else (if a % 2 == b % 2 then 0 else 1) + 2 * Xor(a / 2, b / 2)
  }

  // ---- words of 32 bits ----

  const TWO_32: nat := 0x1_0000_0000

  /** Such a word as a signed number. */
  function Signed32(x: int): int {
    if x >= TWO_32 / 2 then x - TWO_32 else x
  }

  // ---- shifts and fields, a bit at a time ----

  function Pow2(k: nat): (r: nat)
    ensures 0 < r
  {
    if k == 0 then 1 else 2 * Pow2(k - 1)
  }

  lemma Powers()
    ensures Pow2(2) == 4 && Pow2(3) == 8 && Pow2(7) == 128 && Pow2(8) == 256 && Pow2(10) == 1024
    ensures Pow2(12) == 4096 && Pow2(20) == 0x10_0000 && Pow2(32) == 0x1_0000_0000
    ensures Pow2(52) == 0x10_0000_0000_0000 && Pow2(57) == 0x200_0000_0000_0000
    ensures Pow2(64) == 0x1_0000_0000_0000_0000
  {
    assert Pow2(10) == 1024;
    assert Pow2(20) == 0x10_0000;
    assert Pow2(30) == 0x4000_0000;
    assert Pow2(40) == 0x100_0000_0000;
    assert Pow2(50) == 0x4_0000_0000_0000;
    assert Pow2(60) == 0x1000_0000_0000_0000;
  }

  /** The word shifted right. */
  function Shr(x: nat, k: nat): nat
    decreases k
  {
    if k == 0 then x else Shr(x / 2, k - 1)
  }

  /** The low bits of a word. */
  function Low(x: nat, k: nat): nat
    decreases k
  {
    if k == 0 then 0 else x % 2 + 2 * Low(x / 2, k - 1)
  }

  /** A word put together from the bits above and the low bits. */
  function Join(high: nat, low: nat, k: nat): nat
    decreases k
  {
    if k == 0 then high else low % 2 + 2 * Join(high, low / 2, k - 1)
  }

  lemma Scale(m: int, d: int)
    requires 0 < m
    ensures d >= 1 ==> m * d >= m
    ensures d <= -1 ==> m * d <= -m
  {
  }

  lemma DivUnique(x: int, m: nat, q: int, r: nat)
    requires 0 < m && r < m && x == m * q + r
    ensures x / m == q && x % m == r
  {
    var d := x / m - q;
    assert m * d == r - x % m by { assert x == m * (x / m) + x % m; }
    Scale(m, d);
  }

  lemma ScaledRange(a: nat, t: nat, b: nat)
    requires 0 < a && t < b
    ensures 0 <= a * t && a * t + a <= a * b
  {
    Scale(a, b - t);
    Scale(a, t);
    assert a * (b - t) == a * b - a * t;
  }

  lemma DivOfDiv(x: int, a: nat, b: nat)
    requires 0 < a && 0 < b
    ensures x / a / b == x / (a * b)
  {
    var q, r := x / a, x % a;
    var s, t := q / b, q % b;
    assert x == a * b * s + (a * t + r) by {
      assert x == a * q + r && q == b * s + t;
      assert a * (b * s + t) == a * b * s + a * t;
    }
    ScaledRange(a, t, b);
    DivUnique(x, a * b, s, a * t + r);
  }

  lemma ModOfMod(x: int, a: nat, b: nat)
    requires 0 < a && 0 < b
    ensures x % (a * b) % b == x % b
  {
    var q, r := x / (a * b), x % (a * b);
    assert x == a * b * q + r && a * b * q == b * (a * q);
    DivUnique(x, b, a * q + r / b, r % b);
  }

  lemma DivStep(x: nat, k: nat)
    requires 0 < k
    ensures x / Pow2(k) == x / 2 / Pow2(k - 1) && x % Pow2(k) == x % 2 + 2 * (x / 2 % Pow2(k - 1))
  {
    var m := Pow2(k - 1);
    var q, r := x / 2 / m, x / 2 % m;
    assert x / 2 == m * q + r;
    assert 2 * (m * q) == 2 * m * q;
    DivUnique(x, 2 * m, q, x % 2 + 2 * r);
  }

  /** Shifting right and masking are division and remainder by a power of two. */
  lemma {:induction false} ShiftIsDivision(x: nat, k: nat)
    ensures Shr(x, k) == x / Pow2(k) && Low(x, k) == x % Pow2(k)
    decreases k
  {
    if k == 0 {
      assert Pow2(0) == 1;
    } else {
      DivStep(x, k);
      ShiftIsDivision(x / 2, k - 1);
    }
  }

  /** Joining is the sum of the shifted upper part and the lower one. */
  lemma {:induction false} JoinIsSum(high: nat, low: nat, k: nat)
    requires low < Pow2(k)
    ensures Join(high, low, k) == high * Pow2(k) + low
    decreases k
  {
    if k != 0 {
      JoinIsSum(high, low / 2, k - 1);
      assert high * Pow2(k) == 2 * (high * Pow2(k - 1));
    }
  }

  // ---- exclusive or ----

  lemma XorBit(a: nat, b: nat)
    ensures Xor(a, b) % 2 == (if a % 2 == b % 2 then 0 else 1) && Xor(a, b) / 2 == Xor(a / 2, b / 2)
  {
    if a != 0 { DivUnique(Xor(a, b), 2, Xor(a / 2, b / 2), if a % 2 == b % 2 then 0 else 1); }
  }

  lemma {:induction false} XorZero(a: nat, b: nat)
    ensures Xor(a, b) == 0 <==> a == b
  {
    if a != 0 { XorZero(a / 2, b / 2); }
  }

  lemma {:induction false} XorShr(a: nat, b: nat, k: nat)
    ensures Shr(Xor(a, b), k) == Xor(Shr(a, k), Shr(b, k))
    decreases k
  {
    if k != 0 {
      XorBit(a, b);
      XorShr(a / 2, b / 2, k - 1);
    }
  }

  /** The low bits of an exclusive or are zero just when the operands agree in them. */
  lemma {:induction false} XorLow(a: nat, b: nat, k: nat)
    ensures Low(Xor(a, b), k) == 0 <==> Low(a, k) == Low(b, k)
    decreases k
  {
    if k != 0 {
      XorBit(a, b);
      XorLow(a / 2, b / 2, k - 1);
    }
  }

  lemma {:induction false} XorBelow(a: nat, b: nat, k: nat)
    requires a < Pow2(k) && b < Pow2(k)
    ensures Xor(a, b) < Pow2(k)
    decreases k
  {
    if k != 0 {
      XorBit(a, b);
      XorBelow(a / 2, b / 2, k - 1);
    }
  }

  lemma {:induction false} XorOnes(a: nat, k: nat)
    requires a < Pow2(k)
    ensures Xor(a, Pow2(k) - 1) == Pow2(k) - 1 - a
    decreases k
  {
    if k != 0 {
      XorBit(a, Pow2(k) - 1);
      XorOnes(a / 2, k - 1);
    }
  }

  lemma JoinBit(high: nat, low: nat, k: nat)
    requires k != 0
    ensures Join(high, low, k) % 2 == low % 2 && Join(high, low, k) / 2 == Join(high, low / 2, k - 1)
  {
    DivUnique(Join(high, low, k), 2, Join(high, low / 2, k - 1), low % 2);
  }

  lemma {:induction false} XorJoin(a: nat, b: nat, low: nat, k: nat)
    ensures Xor(Join(a, 0, k), Join(b, low, k)) == Join(Xor(a, b), low, k)
    decreases k
  {
    if k != 0 {
      var x, y := Join(a, 0, k - 1), Join(b, low / 2, k - 1);
      JoinBit(a, 0, k);
      JoinBit(b, low, k);
      XorBit(Join(a, 0, k), Join(b, low, k));
      XorJoin(a, b, low / 2, k - 1);
      assert Xor(Join(a, 0, k), Join(b, low, k)) == low % 2 + 2 * Xor(x, y);
    }
  }

  lemma XorAbove(a: nat, b: nat, low: nat, k: nat)
    requires low < Pow2(k)
    ensures Xor(a * Pow2(k), b * Pow2(k) + low) == Xor(a, b) * Pow2(k) + low
  {
    JoinIsSum(a, 0, k);
    JoinIsSum(b, low, k);
    JoinIsSum(Xor(a, b), low, k);
    XorJoin(a, b, low, k);
  }

  // ---- and, or ----

  lemma AndBit(a: nat, b: nat)
    ensures And(a, b) % 2 == (if a % 2 == 1 && b % 2 == 1 then 1 else 0) && And(a, b) / 2 == And(a / 2, b / 2)
  {
    if a != 0 { DivUnique(And(a, b), 2, And(a / 2, b / 2), if a % 2 == 1 && b % 2 == 1 then 1 else 0); }
  }

  /** A mask taken apart. */
  lemma {:induction false} AndSplit(x: nat, high: nat, low: nat, k: nat)
    ensures And(x, Join(high, low, k)) == Join(And(Shr(x, k), high), And(Low(x, k), low), k)
    decreases k
  {
    if k != 0 {
      var rest := Join(high, low / 2, k - 1);
      assert Join(high, low, k) / 2 == rest && Join(high, low, k) % 2 == low % 2;
      AndBit(x, Join(high, low, k));
      AndSplit(x / 2, high, low / 2, k - 1);
      assert Low(x, k) / 2 == Low(x / 2, k - 1) && Low(x, k) % 2 == x % 2;
      AndBit(Low(x, k), low);
    }
  }

  /** A mask of ones. */
  lemma {:induction false} AndOnes(x: nat, k: nat)
    ensures And(x, Pow2(k) - 1) == Low(x, k)
    decreases k
  {
    if k == 0 {
      AndBelow(x, 0);
    } else {
      AndBit(x, Pow2(k) - 1);
      AndOnes(x / 2, k - 1);
    }
  }

  lemma AndRemainder(x: nat, k: nat, unit: nat)
    requires unit == Pow2(k)
    ensures And(x, unit - 1) == x % unit
  {
    AndOnes(x, k);
    ShiftIsDivision(x, k);
  }

  lemma {:induction false} LowAll(x: nat, k: nat)
    requires x < Pow2(k)
    ensures Low(x, k) == x
    decreases k
  {
    if k != 0 { LowAll(x / 2, k - 1); }
  }

  lemma {:induction false} ShrBound(x: nat, k: nat, n: nat)
    requires x < Pow2(k + n)
    ensures Shr(x, k) < Pow2(n)
    decreases k
  {
    if k != 0 { ShrBound(x / 2, k - 1, n); }
  }

  lemma {:induction false} PowSum(k: nat, n: nat)
    ensures Pow2(k + n) == Pow2(k) * Pow2(n)
    decreases k
  {
    if k != 0 {
      PowSum(k - 1, n);
      assert Pow2(k + n) == 2 * (Pow2(k - 1) * Pow2(n)) == (2 * Pow2(k - 1)) * Pow2(n);
    }
  }

  lemma {:induction false} AndBelow(x: nat, low: nat)
    ensures And(x, low) <= low
  {
    if x != 0 { AndBelow(x / 2, low / 2); }
  }

  lemma AndAllOnes(x: nat, n: nat)
    requires x < Pow2(n)
    ensures And(x, Pow2(n) - 1) == x
  {
    AndOnes(x, n);
    LowAll(x, n);
  }

  /** A mask of ones above some low part, on a word that has no more bits. */
  lemma AndUpperOnes(x: nat, low: nat, k: nat, n: nat)
    requires x < Pow2(k + n)
    ensures And(x, Join(Pow2(n) - 1, low, k)) == Join(Shr(x, k), And(Low(x, k), low), k)
  {
    AndSplit(x, Pow2(n) - 1, low, k);
    ShrBound(x, k, n);
    AndAllOnes(Shr(x, k), n);
  }

  /** A mask of ones above some low part, as arithmetic. */
  lemma AndAbove(x: nat, mask: nat, low: nat, k: nat, n: nat, unit: nat)
    requires x < Pow2(k + n) && unit == Pow2(k) && low < unit && mask == (Pow2(n) - 1) * unit + low
    ensures And(x, mask) == x / unit * unit + And(x % unit, low)
  {
    JoinIsSum(Pow2(n) - 1, low, k);
    AndUpperOnes(x, low, k, n);
    ShiftIsDivision(x, k);
    AndBelow(x % unit, low);
    JoinIsSum(x / unit, And(x % unit, low), k);
  }

  /** Words with no bit in common. */
  lemma {:induction false} OrDisjoint(a: nat, b: nat, k: nat)
    requires Low(a, k) == 0 && b < Pow2(k)
    ensures Or(a, b) == a + b
    decreases k
  {
    if k != 0 && a != 0 && b != 0 { OrDisjoint(a / 2, b / 2, k - 1); }
  }

  lemma MultipleLow(x: nat, k: nat)
    ensures Low(x * Pow2(k), k) == 0
  {
    ShiftIsDivision(x * Pow2(k), k);
    DivUnique(x * Pow2(k), Pow2(k), x, 0);
  }

  /** A multiple of a power of two and a smaller number. */
  lemma OrAbove(x: nat, low: nat, k: nat)
    requires low < Pow2(k)
    ensures Or(x * Pow2(k), low) == x * Pow2(k) + low
  {
    MultipleLow(x, k);
    OrDisjoint(x * Pow2(k), low, k);
  }

  /** A word and a mask taken apart at the same bit. */
  lemma AndParts(x: nat, mask: nat, q: nat, r: nat, high: nat, low: nat, k: nat, unit: nat)
    requires unit == Pow2(k) && x == q * unit + r && mask == high * unit + low && r < unit && low < unit
    ensures And(x, mask) == And(q, high) * unit + And(r, low)
  {
    JoinIsSum(high, low, k);
    AndSplit(x, high, low, k);
    assert Shr(x, k) == q && Low(x, k) == r by {
      ShiftIsDivision(x, k);
      DivUnique(x, unit, q, r);
    }
    AndBelow(r, low);
    JoinIsSum(And(q, high), And(r, low), k);
  }

  lemma OrCommutes(a: nat, b: nat)
    ensures Or(a, b) == Or(b, a)
  {
  }

  /** An or of words with no bit in common is their sum. */
  lemma {:induction false} OrSum(a: nat, b: nat)
    requires And(a, b) == 0
    ensures Or(a, b) == a + b
  {
    if a != 0 && b != 0 { OrSum(a / 2, b / 2); }
  }
}
