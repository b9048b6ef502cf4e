/** The Java calling convention's argument layout: where each argument of a signature goes, in registers or on the
    stack.  Ints and floats come first, in order; longs and doubles then take aligned pairs behind all of them. */
module ArgLayout {
  import opened Bits

  const INT_BASE: nat := 1000
  const FLT_BASE: nat := 3000
  const STK_BASE: nat := 4000
  const INT_MAX: nat := 6
  const FLT_MAX: nat := 32

  /** 64-bit pointers; and longs in one (named twice) register instead of two. */
  datatype Mode = Mode(lp64: bool, oneEntry: bool)

  predicate Supported(m: Mode) {
    m.lp64 ==> m.oneEntry
  }

  // ---- what precedes an argument ----

  /** How many arguments among the first ones compete for integer registers, and are floats, longs, doubles. */
  datatype Tally = Tally(ints: nat, flts: nat, longs: nat, dbls: nat)

  predicate TakesInt(m: Mode, c: char) {
    c == 'I' || c == 'P' || (c == 'L' && m.oneEntry)
  }

  function One(b: bool): nat {
    if b then 1 else 0
  }

  function Before(m: Mode, s: string, n: nat): Tally
    requires n <= |s|
  {
    if n == 0 then Tally(0, 0, 0, 0)
    else
      var t, c := Before(m, s, n - 1), s[n - 1];
      Tally(t.ints + One(TakesInt(m, c)), t.flts + One(c == 'F'), t.longs + One(c == 'L'), t.dbls + One(c == 'D'))
  }

  function Min(a: nat, b: nat): nat {
    if a < b then a else b
  }

  function RoundUp(n: nat): nat {
    (n + 1) / 2 * 2
  }

  /** Where register pairs start: behind all single registers, aligned. */
  function IntPairs(m: Mode, s: string): nat {
    RoundUp(Min(INT_MAX, Before(m, s, |s|).ints))
  }

  function FltPairs(m: Mode, s: string): nat {
    RoundUp(Min(FLT_MAX, Before(m, s, |s|).flts))
  }

  /** The register pair a long or double would have. */
  function LongPair(m: Mode, s: string, i: nat): nat
    requires i <= |s|
  {
    IntPairs(m, s) + 2 * Before(m, s, i).longs
  }

  function DblPair(m: Mode, s: string, i: nat): nat
    requires i <= |s|
  {
    FltPairs(m, s) + 2 * Before(m, s, i).dbls
  }

  /** Arguments that find no register: one slot each, or two. */
  predicate SpillsOne(m: Mode, s: string, i: nat)
    requires i < |s|
  {
    || ((s[i] == 'I' || (s[i] == 'P' && !m.lp64)) && Before(m, s, i).ints >= INT_MAX)
    || (s[i] == 'F' && Before(m, s, i).flts >= FLT_MAX)
  }

  predicate SpillsTwo(m: Mode, s: string, i: nat)
    requires i < |s|
  {
    || (s[i] == 'P' && m.lp64 && Before(m, s, i).ints >= INT_MAX)
    || (s[i] == 'L' && if m.oneEntry then Before(m, s, i).ints >= INT_MAX else LongPair(m, s, i) >= INT_MAX)
    || (s[i] == 'D' && DblPair(m, s, i) >= FLT_MAX)
  }

  function OnesBefore(m: Mode, s: string, n: nat): nat
    requires n <= |s|
  {
    if n == 0 then 0 else OnesBefore(m, s, n - 1) + One(SpillsOne(m, s, n - 1))
  }

  function TwosBefore(m: Mode, s: string, n: nat): nat
    requires n <= |s|
  {
    if n == 0 then 0 else TwosBefore(m, s, n - 1) + One(SpillsTwo(m, s, n - 1))
  }

  function StackPairs(m: Mode, s: string): nat {
    RoundUp(OnesBefore(m, s, |s|))
  }

  // ---- the reference layout ----

  /** The upper half of a long or double has no place of its own. */
  datatype Place = Nowhere | Single(at: nat) | Pair(at: nat)

  /** Each argument's place from what precedes it and the totals. */
  function PlaceOf(m: Mode, s: string, i: nat): Place
    requires i < |s|
  {
    var b, c := Before(m, s, i), s[i];
    var pointer64 := c == 'P' && m.lp64;
    if c == 'h' then Nowhere
    else if SpillsOne(m, s, i) then Single(STK_BASE + OnesBefore(m, s, i))
    else if SpillsTwo(m, s, i) then Pair(STK_BASE + StackPairs(m, s) + 2 * TwosBefore(m, s, i))
    else if c == 'F' then Single(FLT_BASE + b.flts)
    else if c == 'D' then Pair(FLT_BASE + DblPair(m, s, i))
    else if c == 'L' && !m.oneEntry then Pair(INT_BASE + LongPair(m, s, i))
    else
      var at := INT_BASE + if m.oneEntry then 2 * b.ints else b.ints;
      if c == 'L' || pointer64 then Pair(at) else Single(at)
  }

  /** Both halves of a pair. */
  function Smeared(at: nat): nat {
    Or(at, (at + 1) * 0x1_0000)
  }

  /** The places as the table holds them: a pair's second half in the upper bits. */
  function Encode(p: Place): nat {
    match p
    case Nowhere => 0
    case Single(at) => at
    case Pair(at) => Smeared(at)
  }

  /** The entry read as the tool prints it: the low sixteen bits, and what is above them. */
  predicate Reads(p: Place, entry: int) {
    match p
    case Nowhere => entry == 0
    case Single(at) => entry % 0x1_0000 == at && entry / 0x1_0000 == 0 && entry != 0
    case Pair(at) => entry % 0x1_0000 == at && entry / 0x1_0000 == at + 1 && entry != 0
  }

  /** An entry is read back as the place it stands for. */
  lemma EntryReads(p: Place)
    requires !p.Nowhere? ==> 0 < p.at < 0x1_0000
    ensures Reads(p, Encode(p))
  {
    match p {
      case Nowhere =>
      case Single(at) => DivUnique(at, 0x1_0000, 0, at);
      case Pair(at) =>
        SmallOr(at, at + 1);
        DivUnique(at + (at + 1) * 0x1_0000, 0x1_0000, at + 1, at);
    }
  }

  lemma SmallOr(low: nat, high: nat)
    requires low < 0x1_0000
    ensures Or(low, high * 0x1_0000) == low + high * 0x1_0000
  {
    assert Pow2(16) == 0x1_0000 by { Powers(); }
    OrCommutes(low, high * 0x1_0000);
    OrAbove(high, low, 16);
  }

  predicate Letter(c: char) {
    c in {'I', 'P', 'F', 'L', 'D', 'h'}
  }

  /** Known letters, and a half behind every long and double; behind the last letter is what the table held there. */
  predicate WellFormedAt(s: string, behind: int, i: nat)
    requires i < |s|
  {
    && Letter(s[i])
    && (s[i] == 'L' || s[i] == 'D' ==> (if i + 1 < |s| then s[i + 1] as int else behind) == 'h' as int)
  }

  predicate WellFormed(s: string, behind: int) {
    forall i :: 0 <= i < |s| ==> WellFormedAt(s, behind, i)
  }

  // ---- the two passes ----

  /** Single registers used and single stack slots needed by the whole signature. */
  method CountPass(m: Mode, s: string) returns (intCnt: nat, fltCnt: nat, stkCnt: nat)
    ensures intCnt == Min(INT_MAX, Before(m, s, |s|).ints) && fltCnt == Min(FLT_MAX, Before(m, s, |s|).flts)
    ensures stkCnt == OnesBefore(m, s, |s|)
  {
    intCnt, fltCnt, stkCnt := 0, 0, 0;
    for i := 0 to |s|
      invariant intCnt == Min(INT_MAX, Before(m, s, i).ints) && fltCnt == Min(FLT_MAX, Before(m, s, i).flts)
      invariant stkCnt == OnesBefore(m, s, i)
    {
      match s[i] {
        case 'L' => if m.oneEntry && intCnt < INT_MAX { intCnt := intCnt + 1; }
        case 'P' =>
          if intCnt < INT_MAX { intCnt := intCnt + 1; }
          else if !m.lp64 { stkCnt := stkCnt + 1; }
        case 'I' => if intCnt < INT_MAX { intCnt := intCnt + 1; } else { stkCnt := stkCnt + 1; }
        case 'F' => if fltCnt < FLT_MAX { fltCnt := fltCnt + 1; } else { stkCnt := stkCnt + 1; }
        case _ =>
      }
    }
  }

  /** The next free registers and slots, single and in pairs. */
  datatype Next = Next(intReg: nat, fltReg: nat, stkReg: nat, intPair: nat, fltPair: nat, stkPair: nat)

  /** What they are when an argument's turn comes. */
  ghost predicate AtTurn(m: Mode, s: string, i: nat, n: Next)
    requires i <= |s|
  {
    && n.intReg == Min(INT_MAX, Before(m, s, i).ints) && n.fltReg == Min(FLT_MAX, Before(m, s, i).flts)
    && n.stkReg == OnesBefore(m, s, i)
    && (!m.oneEntry ==> n.intPair == Min(INT_MAX, LongPair(m, s, i)))
    && n.fltPair == Min(FLT_MAX, DblPair(m, s, i))
    && n.stkPair == StackPairs(m, s) + 2 * TwosBefore(m, s, i)
  }

  method PlaceInt(m: Mode, s: string, i: nat, n: Next) returns (n': Next, entry: int)
    requires i < |s| && AtTurn(m, s, i, n) && (s[i] == 'I' || (s[i] == 'P' && !m.lp64))
    ensures AtTurn(m, s, i + 1, n') && entry == Encode(PlaceOf(m, s, i))
  {
    if n.intReg < INT_MAX {
      entry := INT_BASE + if m.oneEntry then 2 * n.intReg else n.intReg;
      n' := n.(intReg := n.intReg + 1);
    } else {
      entry := STK_BASE + n.stkReg;
      n' := n.(stkReg := n.stkReg + 1);
    }
  }

  method PlaceLong(m: Mode, s: string, i: nat, n: Next) returns (n': Next, at: nat)
    requires Supported(m) && i < |s| && AtTurn(m, s, i, n) && (s[i] == 'L' || (s[i] == 'P' && m.lp64))
    ensures AtTurn(m, s, i + 1, n') && PlaceOf(m, s, i) == Pair(at)
  {
    if m.oneEntry && n.intReg < INT_MAX {
      at := INT_BASE + 2 * n.intReg;
      n' := n.(intReg := n.intReg + 1);
    } else if !m.oneEntry && n.intPair < INT_MAX {
      at := INT_BASE + n.intPair;
      n' := n.(intPair := n.intPair + 2);
    } else {
      at := STK_BASE + n.stkPair;
      n' := n.(stkPair := n.stkPair + 2);
    }
  }

  method PlaceFlt(m: Mode, s: string, i: nat, n: Next) returns (n': Next, entry: int)
    requires i < |s| && AtTurn(m, s, i, n) && s[i] == 'F'
    ensures AtTurn(m, s, i + 1, n') && entry == Encode(PlaceOf(m, s, i))
  {
    if n.fltReg < FLT_MAX {
      entry := FLT_BASE + n.fltReg;
      n' := n.(fltReg := n.fltReg + 1);
    } else {
      entry := STK_BASE + n.stkReg;
      n' := n.(stkReg := n.stkReg + 1);
    }
  }

  method PlaceDbl(m: Mode, s: string, i: nat, n: Next) returns (n': Next, at: nat)
    requires i < |s| && AtTurn(m, s, i, n) && s[i] == 'D'
    ensures AtTurn(m, s, i + 1, n') && PlaceOf(m, s, i) == Pair(at)
  {
    if n.fltPair < FLT_MAX {
      at := FLT_BASE + n.fltPair;
      n' := n.(fltPair := n.fltPair + 2);
    } else {
      at := STK_BASE + n.stkPair;
      n' := n.(stkPair := n.stkPair + 2);
    }
  }

  /** The table's entry for one letter, the next letter being in the table behind it; none where the letter is
      unknown or a half is missing. */
  method PlaceNext(m: Mode, s: string, i: nat, next: int, n: Next, ghost behind: int)
    returns (ok: bool, n': Next, entry: int)
    requires Supported(m) && i < |s| && AtTurn(m, s, i, n)
    requires next == if i + 1 < |s| then s[i + 1] as int else behind
    ensures ok <==> WellFormedAt(s, behind, i)
    ensures ok ==> AtTurn(m, s, i + 1, n') && entry == Encode(PlaceOf(m, s, i))
  {
    var c := s[i];
    var at: nat;
    ok, n', entry := true, n, 0;
    if (c == 'L' || c == 'D') && next != 'h' as int {
      ok := false;
    } else if c == 'I' || (c == 'P' && !m.lp64) {
      n', entry := PlaceInt(m, s, i, n);
    } else if c == 'L' || c == 'P' {
      n', at := PlaceLong(m, s, i, n);
      entry := Smeared(at);
    } else if c == 'F' {
      n', entry := PlaceFlt(m, s, i, n);
    } else if c == 'D' {
      n', at := PlaceDbl(m, s, i, n);
      entry := Smeared(at);
    } else if c != 'h' {
      ok := false;
    }
  }

  method FillLetters(sig: array<int>, s: string)
    requires |s| < sig.Length
    modifies sig
    ensures forall i :: 0 <= i < |s| ==> sig[i] == s[i] as int
    ensures forall i :: |s| <= i < sig.Length ==> sig[i] == old(sig[i])
  {
    for i := 0 to |s|
      invariant forall k :: 0 <= k < i ==> sig[k] == s[k] as int
      invariant forall k :: |s| <= k < sig.Length ==> sig[k] == old(sig[k])
    {
      sig[i] := s[i] as int;
    }
  }

  lemma {:induction false} SpillsBelow(m: Mode, s: string, n: nat)
    requires n <= |s|
    ensures OnesBefore(m, s, n) + TwosBefore(m, s, n) <= n
    decreases n
  {
    if n != 0 { SpillsBelow(m, s, n - 1); }
  }

  lemma PlaceBelow(m: Mode, s: string, i: nat)
    requires Supported(m) && i < |s| && Letter(s[i])
    ensures var p := PlaceOf(m, s, i); !p.Nowhere? ==> 0 < p.at < STK_BASE + 2 * |s| + 1
  {
    SpillsBelow(m, s, i);
    SpillsBelow(m, s, |s|);
    CountsGrow(m, s, i + 1, |s|);
  }

  /** All numbers of stack slots have sixteen bits: more than the tool's table has room for. */
  predicate SlotsNumbered(s: string) {
    STK_BASE + 2 * |s| < 0x1_0000
  }

  method LayoutPass(m: Mode, sig: array<int>, s: string, first: Next) returns (ok: bool, last: Next)
    requires |s| < sig.Length && Supported(m) && AtTurn(m, s, 0, first)
    requires forall i :: 0 <= i < |s| ==> sig[i] == s[i] as int
    modifies sig
    ensures ok <==> WellFormed(s, old(sig[|s|]))
    ensures ok ==> AtTurn(m, s, |s|, last) && forall i :: 0 <= i < |s| ==> sig[i] == Encode(PlaceOf(m, s, i))
    ensures forall i :: |s| <= i < sig.Length ==> sig[i] == old(sig[i])
  {
    last := first;
    ghost var behind := sig[|s|];
    for i := 0 to |s|
      invariant AtTurn(m, s, i, last)
      invariant forall k :: 0 <= k < i ==> WellFormedAt(s, behind, k) && sig[k] == Encode(PlaceOf(m, s, k))
      invariant forall k :: i <= k < sig.Length ==> sig[k] == old(sig[k])
    {
      var fits, n', entry := PlaceNext(m, s, i, sig[i + 1], last, behind);
      if !fits { return false, last; }
      sig[i] := entry;
      last := n';
    }
    return true, last;
  }

  /** The layout in place: the table is filled with the letters, then entry by entry with the places.  The second
      pass uses just the single registers and slots that the first one counted. */
  method JavaConvention(m: Mode, sig: array<int>, s: string) returns (ok: bool)
    requires |s| < sig.Length
    modifies sig
    ensures ok <==> Supported(m) && WellFormed(s, old(sig[|s|]))
    ensures ok ==> forall i :: 0 <= i < |s| ==> sig[i] == Encode(PlaceOf(m, s, i))
    ensures ok && SlotsNumbered(s) ==> forall i :: 0 <= i < |s| ==> Reads(PlaceOf(m, s, i), sig[i])
    ensures forall i :: |s| <= i < sig.Length ==> sig[i] == old(sig[i])
  {
    if m.lp64 && !m.oneEntry { return false; }
    FillLetters(sig, s);
    var intCnt, fltCnt, stkCnt := CountPass(m, s);
    var last: Next;
    ok, last := LayoutPass(m, sig, s, Next(0, 0, 0, RoundUp(intCnt), RoundUp(fltCnt), RoundUp(stkCnt)));
    assert ok ==> last.intReg == intCnt && last.fltReg == fltCnt && last.stkReg == stkCnt;
    if ok && SlotsNumbered(s) {
      forall i | 0 <= i < |s| ensures Reads(PlaceOf(m, s, i), Encode(PlaceOf(m, s, i))) {
        assert WellFormedAt(s, old(sig[|s|]), i);
        PlaceBelow(m, s, i);
        EntryReads(PlaceOf(m, s, i));
      }
    }
  }

  // ---- what the layout promises ----

  lemma {:induction false} CountsGrow(m: Mode, s: string, i: nat, j: nat)
    requires i <= j <= |s|
    ensures var a, b := Before(m, s, i), Before(m, s, j);
            a.ints <= b.ints && a.flts <= b.flts && a.longs <= b.longs && a.dbls <= b.dbls
    ensures OnesBefore(m, s, i) <= OnesBefore(m, s, j) && TwosBefore(m, s, i) <= TwosBefore(m, s, j)
  {
    if i != j { CountsGrow(m, s, i, j - 1); }
  }

  /** The cells a place covers, from the first up to the end. */
  function End(p: Place): int
    requires !p.Nowhere?
  {
    p.at + if p.Pair? then 2 else 1
  }

  datatype Area = Ints | Flts | Stack

  function AreaOf(m: Mode, s: string, i: nat): Area
    requires i < |s|
  {
    if SpillsOne(m, s, i) || SpillsTwo(m, s, i) then Stack
    else if s[i] == 'F' || s[i] == 'D' then Flts
    else Ints
  }

  predicate Within(m: Mode, area: Area, p: Place)
    requires !p.Nowhere?
  {
    match area
    case Ints => INT_BASE <= p.at < End(p) <= INT_BASE + if m.oneEntry then 2 * INT_MAX else INT_MAX
    case Flts => FLT_BASE <= p.at < End(p) <= FLT_BASE + FLT_MAX
    case Stack => STK_BASE <= p.at
  }

  /** Every argument has a place in its area. */
  lemma PlaceWithin(m: Mode, s: string, i: nat)
    requires Supported(m) && i < |s| && Letter(s[i])
    ensures var p := PlaceOf(m, s, i);
            (p.Nowhere? <==> s[i] == 'h') && (!p.Nowhere? ==> Within(m, AreaOf(m, s, i), p))
  {
    CountsGrow(m, s, i + 1, |s|);
    EvenBelow(LongPair(m, s, i), INT_MAX);
    EvenBelow(DblPair(m, s, i), FLT_MAX);
  }

  /** An even register number below an even limit leaves room for its pair. */
  lemma EvenBelow(n: int, limit: int)
    requires limit % 2 == 0
    ensures n % 2 == 0 && n < limit ==> n + 2 <= limit
  {
  }

  /** Pairs are aligned. */
  lemma PairsAligned(m: Mode, s: string, i: nat)
    requires Supported(m) && i < |s|
    ensures PlaceOf(m, s, i).Pair? ==> PlaceOf(m, s, i).at % 2 == 0
  {
  }

  predicate Apart(p: Place, q: Place) {
    !p.Nowhere? && !q.Nowhere? ==> End(p) <= q.at || End(q) <= p.at
  }

  lemma IntsApart(m: Mode, s: string, i: nat, j: nat)
    requires Supported(m) && i < j < |s| && Letter(s[i]) && Letter(s[j])
    requires AreaOf(m, s, i) == Ints && AreaOf(m, s, j) == Ints
    ensures Apart(PlaceOf(m, s, i), PlaceOf(m, s, j))
  {
    CountsGrow(m, s, i + 1, j);
    CountsGrow(m, s, j + 1, |s|);
  }

  lemma FltsApart(m: Mode, s: string, i: nat, j: nat)
    requires i < j < |s| && AreaOf(m, s, i) == Flts && AreaOf(m, s, j) == Flts
    ensures Apart(PlaceOf(m, s, i), PlaceOf(m, s, j))
  {
    CountsGrow(m, s, i + 1, j);
    CountsGrow(m, s, j + 1, |s|);
  }

  lemma StackApart(m: Mode, s: string, i: nat, j: nat)
    requires i < j < |s| && AreaOf(m, s, i) == Stack && AreaOf(m, s, j) == Stack
    ensures Apart(PlaceOf(m, s, i), PlaceOf(m, s, j))
  {
    CountsGrow(m, s, i + 1, j);
    CountsGrow(m, s, j + 1, |s|);
  }

  /** No two arguments share a register or a stack slot. */
  lemma PlacesApart(m: Mode, s: string, i: nat, j: nat)
    requires Supported(m) && i < j < |s| && Letter(s[i]) && Letter(s[j])
    ensures Apart(PlaceOf(m, s, i), PlaceOf(m, s, j))
  {
    PlaceWithin(m, s, i);
    PlaceWithin(m, s, j);
    if AreaOf(m, s, i) == AreaOf(m, s, j) {
      match AreaOf(m, s, i) {
        case Ints => IntsApart(m, s, i, j);
        case Flts => FltsApart(m, s, i, j);
        case Stack => StackApart(m, s, i, j);
      }
    }
  }

  // ---- and that it wastes nothing ----

  /** What arguments are counted by: those for integer registers, floats, longs and doubles in pairs, and those that
      spill into one slot or two. */
  datatype Class = IntClass | FltClass | LongClass | DblClass | OneClass | TwoClass

  predicate Counted(m: Mode, s: string, i: nat, class_: Class)
    requires i < |s|
  {
    match class_
    case IntClass => TakesInt(m, s[i])
    case FltClass => s[i] == 'F'
    case LongClass => s[i] == 'L'
    case DblClass => s[i] == 'D'
    case OneClass => SpillsOne(m, s, i)
    case TwoClass => SpillsTwo(m, s, i)
  }

  function Count(m: Mode, s: string, n: nat, class_: Class): nat
    requires n <= |s|
  {
    match class_
    case IntClass => Before(m, s, n).ints
    case FltClass => Before(m, s, n).flts
    case LongClass => Before(m, s, n).longs
    case DblClass => Before(m, s, n).dbls
    case OneClass => OnesBefore(m, s, n)
    case TwoClass => TwosBefore(m, s, n)
  }

  /** The argument that has so many of its class before it. */
  lemma {:induction false} Nth(m: Mode, s: string, n: nat, class_: Class, k: nat) returns (j: nat)
    requires n <= |s| && k < Count(m, s, n, class_)
    ensures j < n && Counted(m, s, j, class_) && Count(m, s, j, class_) == k
    decreases n
  {
    if Count(m, s, n - 1, class_) <= k { j := n - 1; } else { j := Nth(m, s, n - 1, class_, k); }
  }

  function AreaBase(area: Area): nat {
    match area
    case Ints => INT_BASE
    case Flts => FLT_BASE
    case Stack => STK_BASE
  }

  /** Where another argument of the same area ends, at most one cell of padding away. */
  ghost predicate Adjoins(m: Mode, s: string, i: nat, j: nat)
    requires i < |s| && j < |s|
  {
    var p, q := PlaceOf(m, s, i), PlaceOf(m, s, j);
    && !p.Nowhere? && !q.Nowhere? && AreaOf(m, s, i) == AreaOf(m, s, j)
    && End(q) <= p.at <= End(q) + if p.Pair? || (m.oneEntry && AreaOf(m, s, i).Ints?) then 1 else 0
  }

  /** The argument in front of one in integer registers. */
  lemma IntsAdjoin(m: Mode, s: string, i: nat) returns (j: nat)
    requires Supported(m) && i < |s| && Letter(s[i]) && AreaOf(m, s, i) == Ints && s[i] != 'h'
    requires PlaceOf(m, s, i).at > INT_BASE
    ensures j < |s| && j != i && Adjoins(m, s, i, j)
  {
    if s[i] == 'L' && !m.oneEntry {
      var k := Before(m, s, i).longs;
      if k > 0 {
        j := Nth(m, s, i, LongClass, k - 1);
        assert LongPair(m, s, j) < LongPair(m, s, i);
      } else {
        var ints := Min(INT_MAX, Before(m, s, |s|).ints);
        j := Nth(m, s, |s|, IntClass, ints - 1);
      }
    } else {
      j := Nth(m, s, i, IntClass, Before(m, s, i).ints - 1);
    }
  }

  lemma FltsAdjoin(m: Mode, s: string, i: nat) returns (j: nat)
    requires i < |s| && AreaOf(m, s, i) == Flts && PlaceOf(m, s, i).at > FLT_BASE
    ensures j < |s| && j != i && Adjoins(m, s, i, j)
  {
    if s[i] == 'D' {
      var k := Before(m, s, i).dbls;
      if k > 0 {
        j := Nth(m, s, i, DblClass, k - 1);
        assert DblPair(m, s, j) < DblPair(m, s, i);
      } else {
        var flts := Min(FLT_MAX, Before(m, s, |s|).flts);
        j := Nth(m, s, |s|, FltClass, flts - 1);
      }
    } else {
      j := Nth(m, s, i, FltClass, Before(m, s, i).flts - 1);
    }
  }

  lemma StackAdjoins(m: Mode, s: string, i: nat) returns (j: nat)
    requires i < |s| && AreaOf(m, s, i) == Stack && PlaceOf(m, s, i).at > STK_BASE
    ensures j < |s| && j != i && Adjoins(m, s, i, j)
  {
    if SpillsOne(m, s, i) {
      j := Nth(m, s, i, OneClass, OnesBefore(m, s, i) - 1);
    } else if TwosBefore(m, s, i) > 0 {
      j := Nth(m, s, i, TwoClass, TwosBefore(m, s, i) - 1);
    } else {
      j := Nth(m, s, |s|, OneClass, OnesBefore(m, s, |s|) - 1);
    }
  }

  /** An argument is first in its area or directly behind another, but for the padding of a pair. */
  lemma NoGaps(m: Mode, s: string, i: nat)
    requires Supported(m) && i < |s| && Letter(s[i]) && s[i] != 'h'
    ensures || PlaceOf(m, s, i).at == AreaBase(AreaOf(m, s, i))
            || exists j :: 0 <= j < |s| && j != i && Adjoins(m, s, i, j)
  {
    if PlaceOf(m, s, i).at != AreaBase(AreaOf(m, s, i)) {
      PlaceWithin(m, s, i);
      var j: nat;
      match AreaOf(m, s, i) {
        case Ints => j := IntsAdjoin(m, s, i);
        case Flts => j := FltsAdjoin(m, s, i);
        case Stack => j := StackAdjoins(m, s, i);
      }
    }
  }

  /** The registers of its kind. */
  function RegisterArea(c: char): Area {
    if c == 'F' || c == 'D' then Flts else Ints
  }

  function AreaEnd(m: Mode, area: Area): nat
    requires !area.Stack?
  {
    if area.Flts? then FLT_BASE + FLT_MAX else INT_BASE + if m.oneEntry then 2 * INT_MAX else INT_MAX
  }

  /** An argument that takes the last register of an area, or all but one that could not hold a pair. */
  ghost predicate Fills(m: Mode, s: string, j: nat, area: Area)
    requires j < |s| && !area.Stack?
  {
    var q := PlaceOf(m, s, j);
    AreaOf(m, s, j) == area && !q.Nowhere? && AreaEnd(m, area) - 1 <= End(q) <= AreaEnd(m, area)
  }

  /** An argument goes to the stack only when the registers of its kind are full. */
  lemma SpillsOnlyWhenFull(m: Mode, s: string, i: nat)
    requires Supported(m) && i < |s| && AreaOf(m, s, i) == Stack
    ensures exists j :: 0 <= j < |s| && Fills(m, s, j, RegisterArea(s[i]))
  {
    var j: nat;
    CountsGrow(m, s, i, |s|);
    if s[i] == 'D' {
      j := LastDouble(m, s, i);
    } else if s[i] == 'F' {
      j := Nth(m, s, i, FltClass, FLT_MAX - 1);
    } else if s[i] == 'L' && !m.oneEntry {
      j := LastLong(m, s, i);
    } else {
      j := Nth(m, s, i, IntClass, INT_MAX - 1);
    }
    assert Fills(m, s, j, RegisterArea(s[i]));
  }

  lemma LastDouble(m: Mode, s: string, i: nat) returns (j: nat)
    requires i < |s| && s[i] == 'D' && DblPair(m, s, i) >= FLT_MAX
    ensures j < |s| && Fills(m, s, j, Flts)
  {
    var first := FltPairs(m, s);
    if first == FLT_MAX {
      j := Nth(m, s, |s|, FltClass, Min(FLT_MAX, Before(m, s, |s|).flts) - 1);
    } else {
      j := Nth(m, s, i, DblClass, (FLT_MAX - first) / 2 - 1);
    }
  }

  lemma LastLong(m: Mode, s: string, i: nat) returns (j: nat)
    requires Supported(m) && !m.oneEntry && i < |s| && s[i] == 'L' && LongPair(m, s, i) >= INT_MAX
    ensures j < |s| && Fills(m, s, j, Ints)
  {
    var first := IntPairs(m, s);
    if first == INT_MAX {
      j := Nth(m, s, |s|, IntClass, Min(INT_MAX, Before(m, s, |s|).ints) - 1);
    } else {
      j := Nth(m, s, i, LongClass, (INT_MAX - first) / 2 - 1);
    }
  }

  /** The single places of an area are in the order of the signature, and so are the pairs. */
  lemma InOrder(m: Mode, s: string, i: nat, j: nat)
    requires Supported(m) && i < j < |s| && Letter(s[i]) && Letter(s[j]) && s[i] != 'h' && s[j] != 'h'
    requires AreaOf(m, s, i) == AreaOf(m, s, j) && PlaceOf(m, s, i).Pair? == PlaceOf(m, s, j).Pair?
    ensures PlaceOf(m, s, i).at < PlaceOf(m, s, j).at
  {
    CountsGrow(m, s, i + 1, j);
  }
}
