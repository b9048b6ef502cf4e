/** Comparisons of longs held in two 32-bit registers: C1's conditional branch, and `lcmp` in its V8 and V9 forms. */
module LongCompare {
  import opened Bits

  /** A long as its halves. */
  datatype Long = Long(high: nat, low: nat)

  predicate Valid(x: Long) {
    x.high < TWO_32 && x.low < TWO_32
  }

  function Value(x: Long): int {
    Signed32(x.high) * TWO_32 + x.low
  }

  // ---- condition codes ----

  datatype Codes = Codes(n: bool, z: bool, v: bool, c: bool)

  datatype Result = Result(word: nat, codes: Codes)

  /** `subcc`, and with a borrow coming in `subccc`. */
  function Sub(a: nat, b: nat, borrow: bool): Result {
    var d := a - b - if borrow then 1 else 0;
    var s := Signed32(a) - Signed32(b) - if borrow then 1 else 0;
    var r := d % TWO_32;
    Result(r, Codes(r >= TWO_32 / 2, r == 0, s < -(TWO_32 / 2) || s >= TWO_32 / 2, d < 0))
  }

  /** `orcc`. */
  function OrCodes(a: nat, b: nat): Codes {
    var r := Or(a, b);
    Codes(r >= TWO_32 / 2, r == 0, false, false)
  }

  datatype Test = Equal | NotEqual | Less | LessEqual | Greater | GreaterEqual | GreaterUnsigned

  predicate Taken(t: Test, k: Codes) {
    match t
    case Equal => k.z
    case NotEqual => !k.z
    case Less => k.n != k.v
    case LessEqual => k.z || k.n != k.v
    case Greater => !k.z && k.n == k.v
    case GreaterEqual => k.n == k.v
    case GreaterUnsigned => !k.c && !k.z
  }

  // ---- C1's branch ----

  datatype Cond = Eql | Neq | Lss | Leq | Gtr | Geq

  predicate Holds(c: Cond, x: int, y: int) {
    match c
    case Eql => x == y
    case Neq => x != y
    case Lss => x < y
    case Leq => x <= y
    case Gtr => x > y
    case Geq => x >= y
  }

  /** The condition for exchanged operands. */
  function Mirror(c: Cond): Cond {
    match c
    case Eql => Eql
    case Neq => Neq
    case Lss => Gtr
    case Leq => Geq
    case Gtr => Lss
    case Geq => Leq
  }

  function TestFor(c: Cond): Test {
    match c
    case Eql => Equal
    case Neq => NotEqual
    case Lss => Less
    case Leq => LessEqual
    case Gtr => Greater
    case Geq => GreaterEqual
  }

  /** The subtraction of the halves; for equality the two results are or-ed, since the last codes tell only of
      the high one. */
  function CompareCodes(c: Cond, x: Long, y: Long): Codes {
    var low := Sub(x.low, y.low, false);
    var high := Sub(x.high, y.high, low.codes.c);
    if c.Eql? || c.Neq? then OrCodes(high.word, low.word) else high.codes
  }

  /** A constant zero is compared without a subtraction. */
  function ZeroCodes(x: Long): Codes {
    OrCodes(x.high, x.low)
  }

  /** The branch as generated: of the orderings only less and greater-or-equal reach the comparison, the others
      have their operands exchanged; a constant zero on the right is tested by itself for equality. */
  predicate Branches(c: Cond, x: Long, y: Long, yIsConstant: bool) {
    if c.Gtr? || c.Leq? then Taken(TestFor(Mirror(c)), CompareCodes(Mirror(c), y, x))
    else if yIsConstant && y == Long(0, 0) && (c.Eql? || c.Neq?) then Taken(TestFor(c), ZeroCodes(x))
    else Taken(TestFor(c), CompareCodes(c, x, y))
  }

  lemma MirrorHolds(c: Cond, x: int, y: int)
    ensures Holds(Mirror(c), y, x) == Holds(c, x, y)
  {
  }

  lemma OrZero(a: nat, b: nat)
    ensures Or(a, b) == 0 <==> a == 0 && b == 0
  {
  }

  /** The sign of a difference is in N and V together. */
  lemma LessCodes(a: nat, b: nat, borrow: bool)
    requires a < TWO_32 && b < TWO_32
    ensures var k := Sub(a, b, borrow).codes;
            k.n != k.v <==> Signed32(a) - Signed32(b) - (if borrow then 1 else 0) < 0
  {
  }

  lemma CompareIsRight(c: Cond, x: Long, y: Long)
    requires Valid(x) && Valid(y) && (c.Eql? || c.Neq? || c.Lss? || c.Geq?)
    ensures Taken(TestFor(c), CompareCodes(c, x, y)) <==> Holds(c, Value(x), Value(y))
  {
    var low := Sub(x.low, y.low, false);
    var high := Sub(x.high, y.high, low.codes.c);
    OrZero(high.word, low.word);
    LessCodes(x.high, y.high, low.codes.c);
  }

  /** For every condition and every pair of longs the branch is taken just when the condition holds. */
  lemma BranchIsRight(c: Cond, x: Long, y: Long, yIsConstant: bool)
    requires Valid(x) && Valid(y)
    ensures Branches(c, x, y, yIsConstant) <==> Holds(c, Value(x), Value(y))
  {
    if c.Gtr? || c.Leq? {
      CompareIsRight(Mirror(c), y, x);
      MirrorHolds(c, Value(x), Value(y));
    } else {
      CompareIsRight(c, x, y);
      OrZero(x.high, x.low);
    }
  }

  /** The two conditions that are mirrored could not be tested on these codes: zero in the high half is not
      equality, so the test fails just for the longs above by less than 2^32. */
  lemma UnmirroredWrongIff(c: Cond, x: Long, y: Long)
    requires Valid(x) && Valid(y) && (c.Gtr? || c.Leq?)
    ensures (Taken(TestFor(c), CompareCodes(c, x, y)) != Holds(c, Value(x), Value(y)))
            <==> 0 < Value(x) - Value(y) < TWO_32
  {
    LessCodes(x.high, y.high, x.low < y.low);
  }

  // ---- lcmp ----

  function Sign(d: int): int {
    if d < 0 then -1 else if d == 0 then 0 else 1
  }

  /** A conditional move. */
  function MovCc(t: Test, k: Codes, value: int, else_: int): int {
    if Taken(t, k) then value else else_
  }

  /** The low halves are compared in the annulled delay slot, so only when the high ones are equal. */
  function LcmpV9(x: Long, y: Long): int {
    var high := Sub(x.high, y.high, false).codes;
    if Taken(Equal, high) then
      var low := Sub(x.low, y.low, false).codes;
      MovCc(GreaterUnsigned, low, 1, MovCc(Equal, low, 0, -1))
    else MovCc(Greater, high, 1, -1)
  }

  /** The V8 form, which branches; falling through both tests of the high codes would go on to the low part with
      codes of the high one. */
  function LcmpV8(x: Long, y: Long): int {
    var high := Sub(x.high, y.high, false).codes;
    var equal := Taken(Equal, high);
    if !equal && Taken(Less, high) then -1
    else if !equal && Taken(Greater, high) then 1
    else
      var k := if equal then Sub(x.low, y.low, false).codes else high;
      if Taken(Equal, k) then 0 else if Taken(GreaterUnsigned, k) then 1 else -1
  }

  /** Both forms give the sign of the difference. */
  lemma LcmpIsSign(x: Long, y: Long)
    requires Valid(x) && Valid(y)
    ensures LcmpV9(x, y) == Sign(Value(x) - Value(y)) && LcmpV8(x, y) == LcmpV9(x, y)
  {
    LessCodes(x.high, y.high, false);
  }

  // ---- lneg ----

  /** `subcc` and `subc` from the zero register. */
  function Lneg(x: Long): Long {
    var low := Sub(0, x.low, false);
    Long(Sub(0, x.high, low.codes.c).word, low.word)
  }

  lemma LnegHalves(x: Long)
    requires Valid(x)
    ensures Lneg(x) == if x.low != 0 then Long(TWO_32 - 1 - x.high, TWO_32 - x.low)
                       else if x.high != 0 then Long(TWO_32 - x.high, 0) else x
  {
    if x.low != 0 {
      DivUnique(0 - x.low, TWO_32, -1, TWO_32 - x.low);
      DivUnique(0 - x.high - 1, TWO_32, -1, TWO_32 - 1 - x.high);
    } else if x.high != 0 {
      DivUnique(0 - x.high, TWO_32, -1, TWO_32 - x.high);
    }
  }

  /** The negation modulo 2^64; twice, it is the long itself. */
  lemma LnegIsMinus(x: Long)
    requires Valid(x)
    ensures var y := Lneg(x);
            && Valid(y) && Lneg(y) == x
            && (Value(y) == -Value(x) || (Value(x) == Value(y) == -(TWO_32 * TWO_32 / 2)))
  {
    LnegHalves(x);
    LnegHalves(Lneg(x));
  }
}
