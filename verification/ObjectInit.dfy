/** Clearing the body of a new object: C1's `initialize_object` and the countdown loop it falls back on.  Memory is
    by words; offsets are in bytes as in the emitted code. */
module ObjectInit {
  function WordSize(lp64: bool): nat {
    if lp64 then 8 else 4
  }

  /** `initialize_body`: the index is lowered first, and the store is in the delay slot, annulled on leaving. */
  method InitializeBody(lp64: bool, mem: array<int>, base: nat, size: nat)
    requires size % WordSize(lp64) == 0 && base + size / WordSize(lp64) <= mem.Length
    modifies mem
    ensures var end := base + size / if lp64 then 8 else 4;
            && (forall k :: base <= k < end ==> mem[k] == 0)
            && (forall k :: 0 <= k < base || end <= k < mem.Length ==> mem[k] == old(mem[k]))
  {
    var w := WordSize(lp64);
    var index: int := size - w;
    while index >= 0
      invariant -w <= index <= size - w && index % w == 0
      invariant forall k :: base + index / w + 1 <= k < base + size / w ==> mem[k] == 0
      invariant forall k :: 0 <= k < base + index / w + 1 || base + size / w <= k < mem.Length ==> mem[k] == old(mem[k])
      decreases index
    {
      mem[base + index / w] := 0;
      index := index - w;
    }
  }

  /** Explicit stores, a word or two at a time, from the header to the end. */
  method StoreZeros(mem: array<int>, obj: nat, header: nat, size: nat, step: nat)
    requires (step == 1 || step == 2) && header % step == 0 && size % step == 0
    requires header <= size && obj + size <= mem.Length
    modifies mem
    ensures forall k :: obj + header <= k < obj + size ==> mem[k] == 0
    ensures forall k :: 0 <= k < obj + header || obj + size <= k < mem.Length ==> mem[k] == old(mem[k])
  {
    var i := header;
    while i < size
      invariant header <= i <= size && i % step == 0
      invariant forall k :: obj + header <= k < obj + i ==> mem[k] == 0
      invariant forall k :: 0 <= k < obj + header || obj + i <= k < mem.Length ==> mem[k] == old(mem[k])
      decreases size - i
    {
      mem[obj + i] := 0;
      if step == 2 { mem[obj + i + 1] := 0; }
      i := i + step;
    }
  }

  /** Sizes are in words.  A size not known at compile time, and a large one, take the loop; the 32-bit VM on V9
      stores double words up to twice the threshold. */
  method InitializeObject(lp64: bool, v9: bool, mem: array<int>, obj: nat, mark: int, klass: int, size: nat,
                          known: bool)
    requires 2 <= size && obj + size <= mem.Length && (lp64 || size % 2 == 0)
    modifies mem
    ensures mem[obj] == mark && mem[obj + 1] == klass
    ensures forall k :: obj + 2 <= k < obj + size ==> mem[k] == 0
    ensures forall k :: 0 <= k < obj || obj + size <= k < mem.Length ==> mem[k] == old(mem[k])
  {
    var header, threshold, w := 2, 5, WordSize(lp64);
    mem[obj], mem[obj + 1] := mark, klass;
    if !known || !((!lp64 && v9 && size < 2 * threshold) || size <= threshold) {
      InitializeBody(lp64, mem, obj + header, (size - header) * w);
      assert (size - header) * w / w == size - header;
    } else if !lp64 && v9 {
      StoreZeros(mem, obj, header, size, 2);
    } else {
      StoreZeros(mem, obj, header, size, 1);
    }
  }
}
