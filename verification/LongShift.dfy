/** The shifts of a long held in two 32-bit registers, `lshl`, `lshr` and `lushr`, as the instructions emitted for
    whatever registers the caller names. */
module LongShift {
  import opened Bits

  type Reg = nat

  /** The register file, of 32-bit words; a register not in it holds zero. */
  type File = map<Reg, nat>

  function Get(f: File, r: Reg): nat {
    if r in f then f[r] else 0
  }

  predicate Words(f: File) {
    forall r :: r in f ==> f[r] < TWO_32
  }

  // ---- instructions ----

  /** The shift instructions use the low five bits of the count. */
  function Sll(x: nat, n: nat): nat {
    Wrap(x * Pow2(n % 32))
  }

  function Srl(x: nat, n: nat): nat {
    Quotient(x, Pow2(n % 32))
  }

  function Sra(x: nat, n: nat): nat {
    Wrap(Signed32(x) / Pow2(n % 32))
  }

  function Wrap(x: int): nat {
    x % TWO_32
  }

  function Quotient(x: nat, m: nat): nat
    requires 0 < m
  {
    assert x / m >= 0 by { DivUnique(x, m, x / m, x % m); }
    x / m
  }

  lemma SllIsProduct(x: nat, n: nat)
    requires n < 32
    ensures Sll(x, n) == Wrap(x * Pow2(n))
  {
    assert n % 32 == n;
  }

  lemma SrlIsQuotient(x: nat, n: nat)
    requires n < 32
    ensures Srl(x, n) == x / Pow2(n) >= 0
  {
    assert n % 32 == n;
  }

  // ---- arithmetic of the halves ----

  lemma Powers32(n: nat)
    requires n <= 32
    ensures Pow2(n) * Pow2(32 - n) == TWO_32
  {
    PowSum(n, 32 - n);
    Powers();
  }

  lemma ScaledBelow(x: nat, m: nat, p: nat)
    requires x < m && 0 < p
    ensures x * p + p <= m * p
  {
    Scale(p, m - x);
    assert p * (m - x) == m * p - x * p;
  }

  lemma QuotientBelow(x: nat, m: nat, k: nat)
    requires 0 < m && x < m * k
    ensures 0 <= x / m < k
  {
    var d := k - x / m;
    assert m * d == m * k - m * (x / m) == m * k - x + x % m;
    Positive(m, d);
    Scale(m, x / m);
    assert m * (x / m) == x - x % m;
  }

  lemma Positive(m: int, d: int)
    requires 0 < m && 0 < m * d
    ensures 0 < d
  {
  }

  /** A word times a power of two: what stays and what is pushed out. */
  lemma PushOut(x: nat, p: nat, q: nat)
    requires p * q == TWO_32 && 0 < p && 0 < q
    ensures x * p == TWO_32 * (x / q) + x % q * p && x % q * p + p <= TWO_32
    ensures Wrap(x * p) == x % q * p && x / q >= 0
  {
    var a, b := x / q, x % q;
    assert x == q * a + b;
    assert x * p == TWO_32 * a + b * p by { assert (q * a + b) * p == p * q * a + b * p; }
    ScaledBelow(b, q, p);
    assert b * p >= 0;
    DivUnique(x * p, TWO_32, a, b * p);
    assert a >= 0 by { Scale(q, a); }
  }

  /** A left shift by halves. */
  lemma LeftByHalves(high: nat, low: nat, p: nat, q: nat)
    requires p * q == TWO_32 && 0 < p && 0 < q && low < TWO_32
    ensures (high * TWO_32 + low) * p % (TWO_32 * TWO_32) == (Wrap(high * p) + low / q) * TWO_32 + Wrap(low * p)
    ensures 0 <= low / q < p && Wrap(high * p) == high % q * p
  {
    PushOut(high, p, q);
    PushOut(low, p, q);
    var a, b, c, d := high / q, high % q * p, low / q, low % q * p;
    QuotientBelow(low, q, p);
    var x := (high * TWO_32 + low) * p;
    assert x == TWO_32 * (high * p) + low * p;
    assert x == TWO_32 * TWO_32 * a + (b + c) * TWO_32 + d;
    DivUnique(x, TWO_32 * TWO_32, a, (b + c) * TWO_32 + d);
  }

  /** A right shift by halves, of a high half that may be negative. */
  lemma RightByHalves(high: int, low: nat, p: nat, q: nat)
    requires p * q == TWO_32 && 0 < p && 0 < q && low < TWO_32
    ensures (high * TWO_32 + low) / p == high / p * TWO_32 + (high % p * q + low / p)
    ensures 0 <= low / p < q && 0 <= high % p * q + low / p < TWO_32
  {
    var a, b, c, d := high / p, high % p, low / p, low % p;
    assert high == p * a + b && low == p * c + d;
    QuotientBelow(low, p, q);
    ScaledBelow(b, p, q);
    var k := a * TWO_32 + (b * q + c);
    assert high * TWO_32 + low == p * k + d by {
      assert high * TWO_32 == p * (a * TWO_32) + b * TWO_32;
      assert b * TWO_32 == p * (b * q);
    }
    DivUnique(high * TWO_32 + low, p, k, d);
  }

  // ---- what the shifts mean ----

  datatype Shift = Left | RightArithmetic | RightLogical

  function Long(high: int, low: int): int {
    high * TWO_32 + low
  }

  /** Multiplication by a power of two modulo 2^64; division by it, rounded down, of the signed or the unsigned
      long. */
  function Meaning(shift: Shift, high: nat, low: nat, n: nat): int {
    match shift
    case Left => Long(high, low) * Pow2(n) % (TWO_32 * TWO_32)
    case RightArithmetic => Long(Signed32(high), low) / Pow2(n) % (TWO_32 * TWO_32)
    case RightLogical => Long(high, low) / Pow2(n)
  }

  lemma {:induction false} ShrTwice(x: nat, k: nat)
    ensures Shr(x, k) / 2 == Shr(x, k + 1)
    decreases k
  {
    if k != 0 { ShrTwice(x / 2, k - 1); }
  }

  /** One less and one more, so that no single shift is by 32. */
  lemma SrlTwice(x: nat, n: nat)
    requires n < 32
    ensures Srl(Srl(x, 31 - n), 1) == x / Pow2(32 - n)
  {
    ShiftIsDivision(x, 31 - n);
    ShrTwice(x, 31 - n);
    ShiftIsDivision(x, 32 - n);
    assert Pow2(1) == 2;
  }

  lemma WrapDouble(x: int)
    ensures Wrap(2 * Wrap(x)) == Wrap(2 * x)
  {
    var y := 2 * Wrap(x);
    DivUnique(2 * x, TWO_32, 2 * (x / TWO_32) + y / TWO_32, y % TWO_32);
  }

  lemma Doubled(x: nat, p: nat)
    ensures x * (2 * p) == 2 * (x * p)
  {
  }

  lemma SllTwice(x: nat, n: nat)
    requires n < 32
    ensures Sll(Sll(x, 31 - n), 1) == Wrap(x * Pow2(32 - n))
  {
    var x' := x * Pow2(31 - n);
    assert Pow2(1) == 2 && Sll(x, 31 - n) == Wrap(x');
    assert x * Pow2(32 - n) == 2 * x' by { Doubled(x, Pow2(31 - n)); }
    WrapDouble(x');
  }

  lemma LeftPushed(high: nat, low: nat, n: nat)
    requires low < TWO_32 && n < 32
    ensures Or(Sll(high, n), Srl(Srl(low, 31 - n), 1)) == Sll(high, n) + low / Pow2(32 - n)
  {
    var p, q := Pow2(n), Pow2(32 - n);
    var kept, pushed := Sll(high, n), low / q;
    assert p * q == TWO_32 by { Powers32(n); }
    assert Srl(Srl(low, 31 - n), 1) == pushed by { SrlTwice(low, n); }
    assert 0 <= pushed < p by { QuotientBelow(low, q, p); }
    assert kept == high % q * p by {
      SllIsProduct(high, n);
      PushOut(high, p, q);
    }
    MultipleLow(high % q, n);
    OrDisjoint(kept, pushed, n);
  }

  lemma LeftValue(high: nat, low: nat, n: nat)
    requires low < TWO_32 && n < 32
    ensures Long(high, low) * Pow2(n) % (TWO_32 * TWO_32) == Long(Sll(high, n) + low / Pow2(32 - n), Sll(low, n))
  {
    Powers32(n);
    SllIsProduct(high, n);
    SllIsProduct(low, n);
    LeftByHalves(high, low, Pow2(n), Pow2(32 - n));
  }

  lemma LeftSmall(high: nat, low: nat, n: nat)
    requires high < TWO_32 && low < TWO_32 && n < 32
    ensures Long(Or(Sll(high, n), Srl(Srl(low, 31 - n), 1)), Sll(low, n)) == Meaning(Left, high, low, n)
  {
    LeftPushed(high, low, n);
    LeftValue(high, low, n);
  }

  lemma OrWithMultiple(a: nat, x: nat, k: nat)
    requires a < Pow2(k)
    ensures Or(a, x * Pow2(k)) == x * Pow2(k) + a
  {
    OrAbove(x, a, k);
    OrCommutes(a, x * Pow2(k));
  }

  lemma SignedRemainder(x: nat, p: nat, q: nat)
    requires p * q == TWO_32 && 0 < p && 0 < q
    ensures Signed32(x) % p == x % p
  {
    var a, b := x / p, x % p;
    assert x - TWO_32 == p * (a - q) + b;
    DivUnique(x - TWO_32, p, a - q, b);
  }

  /** The low half of either right shift. */
  lemma RightLowHalf(high: nat, low: nat, n: nat)
    requires high < TWO_32 && low < TWO_32 && n < 32
    ensures var p := Pow2(n);
            Or(Srl(low, n), Sll(Sll(high, 31 - n), 1)) == high % p * Pow2(32 - n) + Quotient(low, p)
  {
    var p, q := Pow2(n), Pow2(32 - n);
    var moved, kept := Sll(Sll(high, 31 - n), 1), Srl(low, n);
    assert p * q == TWO_32 by { Powers32(n); }
    assert moved == high % p * q by {
      SllTwice(high, n);
      PushOut(high, q, p);
    }
    assert kept == Quotient(low, p) by { SrlIsQuotient(low, n); }
    assert kept < q by { QuotientBelow(low, p, q); }
    OrWithMultiple(kept, high % p, 32 - n);
  }

  /** Either right shift by halves, its high half perhaps taken as signed. */
  lemma RightHalves(h: int, high: nat, low: nat, n: nat)
    requires high < TWO_32 && low < TWO_32 && n < 32 && h % Pow2(n) == high % Pow2(n)
    ensures var half := Or(Srl(low, n), Sll(Sll(high, 31 - n), 1));
            half < TWO_32 && Long(h, low) / Pow2(n) == Long(h / Pow2(n), half)
  {
    Powers32(n);
    RightByHalves(h, low, Pow2(n), Pow2(32 - n));
    RightLowHalf(high, low, n);
  }

  lemma RightLogicalSmall(high: nat, low: nat, n: nat)
    requires high < TWO_32 && low < TWO_32 && n < 32
    ensures Long(Srl(high, n), Or(Srl(low, n), Sll(Sll(high, 31 - n), 1))) == Meaning(RightLogical, high, low, n)
  {
    RightHalves(high, high, low, n);
    SrlIsQuotient(high, n);
  }

  lemma WrapLong(high: int, low: nat)
    requires low < TWO_32
    ensures Long(high, low) % (TWO_32 * TWO_32) == Long(Wrap(high), low)
  {
    DivUnique(Long(high, low), TWO_32 * TWO_32, high / TWO_32, Long(Wrap(high), low));
  }

  lemma SignedMod(high: nat, n: nat)
    requires n <= 32
    ensures Signed32(high) % Pow2(n) == high % Pow2(n)
  {
    Powers32(n);
    SignedRemainder(high, Pow2(n), Pow2(32 - n));
  }

  lemma SraIsQuotient(x: nat, n: nat)
    requires n < 32
    ensures Sra(x, n) == Wrap(Signed32(x) / Pow2(n))
  {
    assert n % 32 == n;
  }

  lemma RightArithmeticSmall(high: nat, low: nat, n: nat)
    requires high < TWO_32 && low < TWO_32 && n < 32
    ensures Long(Sra(high, n), Or(Srl(low, n), Sll(Sll(high, 31 - n), 1))) == Meaning(RightArithmetic, high, low, n)
  {
    var h, half := Signed32(high), Or(Srl(low, n), Sll(Sll(high, 31 - n), 1));
    SignedMod(high, n);
    RightHalves(h, high, low, n);
    WrapLong(h / Pow2(n), half);
    SraIsQuotient(high, n);
  }

  // ---- counts from 32 ----

  lemma PowBig(n: nat)
    requires 32 <= n
    ensures Pow2(n) == TWO_32 * Pow2(n - 32)
  {
    PowSum(32, n - 32);
    Powers();
  }

  lemma Distribute(high: nat, low: nat, p: nat, m: nat)
    requires m == TWO_32 * p
    ensures Long(high, low) * m == TWO_32 * TWO_32 * (high * p) + TWO_32 * (low * p)
  {
  }

  lemma WrapScaled(v: int, a: int, x: nat)
    requires v == TWO_32 * TWO_32 * a + TWO_32 * x
    ensures v % (TWO_32 * TWO_32) == Long(Wrap(x), 0)
  {
    DivUnique(v, TWO_32 * TWO_32, a + x / TWO_32, TWO_32 * (x % TWO_32));
  }

  lemma LeftBig(high: nat, low: nat, n: nat)
    requires high < TWO_32 && low < TWO_32 && 32 <= n < 64
    ensures Long(Sll(low, n - 32), 0) == Meaning(Left, high, low, n)
  {
    var p, m := Pow2(n - 32), Pow2(n);
    assert m == TWO_32 * p by { PowBig(n); }
    var v, a, x := Long(high, low) * m, high * p, low * p;
    assert v == TWO_32 * TWO_32 * a + TWO_32 * x by { Distribute(high, low, p, m); }
    assert v % (TWO_32 * TWO_32) == Long(Wrap(x), 0) by { WrapScaled(v, a, x); }
    assert Sll(low, n - 32) == Wrap(x) by { assert (n - 32) % 32 == n - 32; }
  }

  lemma DropLowHalf(high: int, low: nat, p: nat)
    requires low < TWO_32 && 0 < p
    ensures Long(high, low) / (TWO_32 * p) == high / p
  {
    var a, b := high / p, high % p;
    assert Long(high, low) == TWO_32 * p * a + (TWO_32 * b + low) by { assert high == p * a + b; }
    DivUnique(Long(high, low), TWO_32 * p, a, TWO_32 * b + low);
  }

  /** Dividing by 2^32 and more drops the low half. */
  lemma DropLow(high: int, low: nat, n: nat)
    requires low < TWO_32 && 32 <= n < 64
    ensures Long(high, low) / Pow2(n) == high / Pow2(n - 32)
  {
    PowSum(32, n - 32);
    Powers();
    DropLowHalf(high, low, Pow2(n - 32));
  }

  lemma RightLogicalBig(high: nat, low: nat, n: nat)
    requires high < TWO_32 && low < TWO_32 && 32 <= n < 64
    ensures Long(0, Srl(high, n - 32)) == Meaning(RightLogical, high, low, n)
  {
    DropLow(high, low, n);
    SrlIsQuotient(high, n - 32);
  }

  lemma SignWord(high: nat)
    requires high < TWO_32
    ensures Sra(high, 31) == if Signed32(high) < 0 then TWO_32 - 1 else 0
  {
    assert Pow2(31) == TWO_32 / 2 by { PowSum(1, 31); Powers(); assert Pow2(1) == 2; }
    if Signed32(high) < 0 { DivUnique(Signed32(high), TWO_32 / 2, -1, Signed32(high) + TWO_32 / 2); }
    else { DivUnique(Signed32(high), TWO_32 / 2, 0, Signed32(high)); }
  }

  lemma QuotientSign(x: int, m: nat)
    requires 0 < m && -(TWO_32 / 2) <= x < TWO_32 / 2
    ensures x < 0 ==> -(TWO_32 / 2) <= x / m < 0
    ensures x >= 0 ==> 0 <= x / m <= x
  {
    var q := x / m;
    assert x == m * q + x % m;
    Scale(m, q);
    if x < 0 {
      assert m * q >= x - m + 1;
      Below(m, q);
    } else {
      Below(m, q);
    }
  }

  lemma Below(m: nat, q: int)
    requires 0 < m
    ensures q >= 0 ==> m * q >= q
    ensures q < 0 ==> m * q <= q
  {
  }

  lemma SignExtend(q: int)
    requires -(TWO_32 / 2) <= q < TWO_32 / 2
    ensures q % (TWO_32 * TWO_32) == Long(if q < 0 then TWO_32 - 1 else 0, Wrap(q))
  {
    if q < 0 {
      DivUnique(q, TWO_32, -1, q + TWO_32);
      DivUnique(q, TWO_32 * TWO_32, -1, q + TWO_32 * TWO_32);
    } else {
      DivUnique(q, TWO_32, 0, q);
      DivUnique(q, TWO_32 * TWO_32, 0, q);
    }
  }

  lemma RightArithmeticBig(high: nat, low: nat, n: nat)
    requires high < TWO_32 && low < TWO_32 && 32 <= n < 64
    ensures Long(Sra(high, 31), Sra(high, n - 32)) == Meaning(RightArithmetic, high, low, n)
  {
    var h := Signed32(high);
    var q := h / Pow2(n - 32);
    assert Meaning(RightArithmetic, high, low, n) == q % (TWO_32 * TWO_32) by { DropLow(h, low, n); }
    assert Sra(high, n - 32) == Wrap(q) by { assert (n - 32) % 32 == n - 32; }
    assert -(TWO_32 / 2) <= q < TWO_32 / 2 && (q < 0 <==> h < 0) by { QuotientSign(h, Pow2(n - 32)); }
    SignWord(high);
    SignExtend(q);
  }

  // ---- the emitted code ----

  datatype Regs = Regs(inHigh: Reg, inLow: Reg, count: Reg, outHigh: Reg, outLow: Reg, temp: Reg)

  /** The count masked, and 31 subtracted from it into the temporary. */
  function Start(g: Regs, f: File): File {
    var f1 := f[g.count := Get(f, g.count) % 64];
    f1[g.temp := Wrap(Get(f1, g.count) - 31)]
  }

  /** The branch taken when that difference is positive; its delay slot, annulled otherwise, makes it the count
      less 32. */
  predicate IsBig(g: Regs, f: File) {
    Signed32(Get(f, g.count) % 64) > 31
  }

  function Negated(g: Regs, f: File): File {
    f[g.temp := Wrap(0 - Get(f, g.temp))]
  }

  function Decremented(g: Regs, f: File): File {
    f[g.temp := Wrap(Get(f, g.temp) - 1)]
  }

  function ShiftLow(shift: Shift, g: Regs, f: File): File {
    var x, n := Get(f, g.inLow), Get(f, g.count);
    f[g.outLow := if shift.Left? then Sll(x, n) else Srl(x, n)]
  }

  /** The two places where the low half may be shifted, the second when the count is in its register. */
  function ShiftLowFirst(shift: Shift, g: Regs, f: File): File {
    if g.count != g.outLow then ShiftLow(shift, g, f) else f
  }

  function ShiftLowLast(shift: Shift, g: Regs, f: File): File {
    if g.count == g.outLow then ShiftLow(shift, g, f) else f
  }

  function SmallLeft(g: Regs, f: File): File {
    var f1 := f[g.temp := Srl(Get(f, g.inLow), Get(f, g.temp))];
    var f2 := ShiftLowFirst(Left, g, f1);
    var f3 := f2[g.outHigh := Sll(Get(f2, g.inHigh), Get(f2, g.count))];
    var f4 := ShiftLowLast(Left, g, f3);
    var f5 := f4[g.temp := Srl(Get(f4, g.temp), 1)];
    f5[g.outHigh := Or(Get(f5, g.outHigh), Get(f5, g.temp))]
  }

  function BigLeft(g: Regs, f: File): File {
    var f1 := f[g.outHigh := Sll(Get(f, g.inLow), Get(f, g.temp))];
    f1[g.outLow := 0]
  }

  function ShiftHigh(shift: Shift, x: nat, n: nat): nat {
    if shift.RightArithmetic? then Sra(x, n) else Srl(x, n)
  }

  function SmallRight(shift: Shift, g: Regs, f: File): File {
    var f1 := ShiftLowFirst(shift, g, f);
    var f2 := f1[g.temp := Sll(Get(f1, g.inHigh), Get(f1, g.temp))];
    var f3 := f2[g.outHigh := ShiftHigh(shift, Get(f2, g.inHigh), Get(f2, g.count))];
    var f4 := f3[g.temp := Sll(Get(f3, g.temp), 1)];
    var f5 := ShiftLowLast(shift, g, f4);
    f5[g.outLow := Or(Get(f5, g.outLow), Get(f5, g.temp))]
  }

  function BigRight(shift: Shift, g: Regs, f: File): File {
    var f1 := f[g.outLow := ShiftHigh(shift, Get(f, g.inHigh), Get(f, g.temp))];
    f1[g.outHigh := if shift.RightArithmetic? then Sra(Get(f1, g.inHigh), 31) else 0]
  }

  function Run(shift: Shift, g: Regs, f: File): File {
    var f1 := Start(g, f);
    if IsBig(g, f) then
      var f2 := Decremented(g, f1);
      if shift.Left? then BigLeft(g, f2) else BigRight(shift, g, f2)
    else
      var f2 := Negated(g, f1);
      if shift.Left? then SmallLeft(g, f2) else SmallRight(shift, g, f2)
  }

  // ---- which registers it is right for ----

  /** The emitters' alias checks, and that the halves of a long are in different registers. */
  predicate Asserted(shift: Shift, g: Regs) {
    && g.temp != g.inHigh && g.temp != g.inLow && g.temp != g.count
    && (if shift.Left? then g.temp != g.outLow && g.outLow != g.inHigh
        else g.temp != g.outHigh && g.outHigh != g.inLow)
    && g.inHigh != g.inLow && g.outHigh != g.outLow
  }

  /** What has to hold besides: the mask must not change an input, the temporary must survive both outputs, and
      no output may overwrite an input still to be read. */
  predicate AliasOk(shift: Shift, g: Regs) {
    && g.count != g.inHigh && g.count != g.inLow
    && g.temp != g.outHigh && g.temp != g.outLow
    && (if shift.Left? then g.count == g.outLow ==> g.outHigh != g.inLow else g.outLow != g.inHigh)
  }

  predicate RightOn(shift: Shift, g: Regs, f: File) {
    var f' := Run(shift, g, f);
    Long(Get(f', g.outHigh), Get(f', g.outLow))
    ==
    Meaning(shift, Get(f, g.inHigh), Get(f, g.inLow), Get(f, g.count) % 64)
  }

  lemma SmallLeftHalves(g: Regs, f: File, h: nat, l: nat, n: nat)
    requires Asserted(Left, g) && AliasOk(Left, g)
    requires Get(f, g.inHigh) == h && Get(f, g.inLow) == l && Get(f, g.count) == n && n < 32 && Get(f, g.temp) == 31 - n
    ensures Get(SmallLeft(g, f), g.outHigh) == Or(Sll(h, n), Srl(Srl(l, 31 - n), 1))
    ensures Get(SmallLeft(g, f), g.outLow) == Sll(l, n)
  {
  }

  lemma SmallRightHalves(shift: Shift, g: Regs, f: File, h: nat, l: nat, n: nat)
    requires !shift.Left? && Asserted(shift, g) && AliasOk(shift, g)
    requires Get(f, g.inHigh) == h && Get(f, g.inLow) == l && Get(f, g.count) == n && n < 32 && Get(f, g.temp) == 31 - n
    ensures Get(SmallRight(shift, g, f), g.outHigh) == ShiftHigh(shift, h, n)
    ensures Get(SmallRight(shift, g, f), g.outLow) == Or(Srl(l, n), Sll(Sll(h, 31 - n), 1))
  {
  }

  lemma StartParts(g: Regs, f: File)
    requires g.temp != g.count
    ensures var n := Get(f, g.count) % 64;
            && IsBig(g, f) == (n >= 32) && Get(Start(g, f), g.count) == n
            && (n < 32 ==> Get(Negated(g, Start(g, f)), g.temp) == 31 - n)
            && (n >= 32 ==> Get(Decremented(g, Start(g, f)), g.temp) == n - 32)
  {
  }

  lemma RightWhenOk(shift: Shift, g: Regs, f: File)
    requires Words(f) && Asserted(shift, g) && AliasOk(shift, g)
    ensures RightOn(shift, g, f)
  {
    var h, l, n := Get(f, g.inHigh), Get(f, g.inLow), Get(f, g.count) % 64;
    StartParts(g, f);
    if n < 32 {
      var f2 := Negated(g, Start(g, f));
      match shift {
        case Left => SmallLeftHalves(g, f2, h, l, n); LeftSmall(h, l, n);
        case RightArithmetic => SmallRightHalves(shift, g, f2, h, l, n); RightArithmeticSmall(h, l, n);
        case RightLogical => SmallRightHalves(shift, g, f2, h, l, n); RightLogicalSmall(h, l, n);
      }
    } else {
      match shift {
        case Left => LeftBig(h, l, n);
        case RightArithmetic => RightArithmeticBig(h, l, n);
        case RightLogical => RightLogicalBig(h, l, n);
      }
    }
  }

  // ---- and which it is wrong for ----

  lemma SllByZero(x: nat)
    requires x < TWO_32
    ensures Sll(x, 0) == x
  {
    assert Pow2(0) == 1;
  }

  lemma SrlByZero(x: nat)
    ensures Srl(x, 0) == x
  {
    assert Pow2(0) == 1;
  }

  lemma ShiftsOfZero(n: nat)
    ensures Sll(0, n) == 0 && Srl(0, n) == 0 && Sra(0, n) == 0
  {
    DivUnique(0, Pow2(n % 32), 0, 0);
  }

  lemma MeaningOfZero(shift: Shift, high: nat, low: nat)
    requires high < TWO_32 / 2 && low < TWO_32
    ensures Meaning(shift, high, low, 0) == Long(high, low)
  {
    assert Pow2(0) == 1;
  }

  /** Registers for which a count of zero already comes out wrong. */
  function Spoiler(shift: Shift, g: Regs): File {
    if g.count == g.inHigh then map[g.inHigh := 64]
    else if g.count == g.inLow then map[g.inLow := 64]
    else if shift.Left? || g.temp != g.outLow then map[g.inHigh := 1]
    else map[g.inLow := 1]
  }

  /** With zero in the inputs and the count, zero comes out. */
  lemma ZeroStaysZero(shift: Shift, g: Regs, f: File)
    requires Asserted(shift, g) && Get(f, g.inHigh) == 0 && Get(f, g.inLow) == 0 && Get(f, g.count) == 0
    ensures var f' := if shift.Left? then SmallLeft(g, f) else SmallRight(shift, g, f);
            Get(f', g.outHigh) == 0 && Get(f', g.outLow) == 0
  {
    ShiftsOfZero(0);
    ShiftsOfZero(1);
    ShiftsOfZero(Get(f, g.temp));
    var f1 := ShiftLowFirst(shift, g, f);
    ShiftsOfZero(Get(f1, g.temp));
  }

  lemma WrongLeft(g: Regs, f: File)
    requires Asserted(Left, g) && !AliasOk(Left, g) && g.count != g.inHigh && g.count != g.inLow
    requires Get(f, g.inHigh) == 1 && Get(f, g.inLow) == 0 && Get(f, g.count) == 0 && Get(f, g.temp) == 31
    ensures var f' := SmallLeft(g, f); Get(f', g.outHigh) == 0 || Get(f', g.outLow) == 1
  {
    ShiftsOfZero(31);
    ShiftsOfZero(0);
    SllByZero(1);
    ShiftsOfZero(1);
    if g.temp == g.outHigh { assert Srl(1, 1) == 0 by { assert Pow2(1) == 2; } }
  }

  lemma WrongRight(shift: Shift, g: Regs, f: File)
    requires !shift.Left? && Asserted(shift, g) && g.count != g.inHigh && g.count != g.inLow
    requires g.temp == g.outLow || g.outLow == g.inHigh
    requires Get(f, g.count) == 0 && Get(f, g.temp) == 31
    requires Get(f, g.inHigh) == if g.temp == g.outLow then 0 else 1
    requires Get(f, g.inLow) == if g.temp == g.outLow then 1 else 0
    ensures var f' := SmallRight(shift, g, f);
            if g.temp == g.outLow then Get(f', g.outLow) == 0 else Get(f', g.outHigh) == 0
  {
    ShiftsOfZero(0);
    ShiftsOfZero(1);
    ShiftsOfZero(31);
    SrlByZero(1);
  }

  lemma SpoilerSpoils(shift: Shift, g: Regs)
    requires Asserted(shift, g) && !AliasOk(shift, g)
    ensures !RightOn(shift, g, Spoiler(shift, g))
  {
    var f := Spoiler(shift, g);
    var f2 := Negated(g, Start(g, f));
    StartParts(g, f);
    MeaningOfZero(shift, Get(f, g.inHigh), Get(f, g.inLow));
    if g.count == g.inHigh || g.count == g.inLow {
      ZeroStaysZero(shift, g, f2);
    } else if shift.Left? {
      WrongLeft(g, f2);
    } else {
      WrongRight(shift, g, f2);
    }
  }

  /** The emitted code shifts every long by every count exactly when these further conditions hold; the emitters'
      own checks do not imply them. */
  lemma RightIff(shift: Shift, g: Regs)
    requires Asserted(shift, g)
    ensures (forall f :: Words(f) ==> RightOn(shift, g, f)) <==> AliasOk(shift, g)
  {
    if AliasOk(shift, g) {
      forall f | Words(f) ensures RightOn(shift, g, f) { RightWhenOk(shift, g, f); }
    } else {
      SpoilerSpoils(shift, g);
      assert Words(Spoiler(shift, g));
    }
  }
}
