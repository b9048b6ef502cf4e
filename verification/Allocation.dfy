/** Allocation from eden and from thread-local buffers (TLABs), run by any number of threads: `eden_allocate`,
    `tlab_allocate` and `tlab_refill`, as the fast allocation stubs string them together.  A step is one access
    to the shared top of eden, or a stretch of code that touches only the thread's own TLAB.  Addresses and sizes
    are in bytes. */
module Allocation {
  import opened Bits

  type Tid = nat
  type Addr = int

  const WORD_BYTES: nat := 8
  const INT_BYTES: nat := 4
  const ALIGNMENT: nat := 8
  const TWO_31: nat := 0x8000_0000

  /** The bounds of eden, the header size in words of an int array, the reserve in words behind the end of
      every TLAB, and the step by which the waste limit grows. */
  datatype Config = Config(edenStart: Addr, edenEnd: Addr, headerWords: nat, reserveWords: nat, wasteStep: nat)

  /** A thread's allocation buffer: [start, end) plus the reserve, of which [start, top) is in use.  All zero when
      it has none.  `desired` and `waste` are in words. */
  datatype Tlab = Tlab(start: Addr, top: Addr, end: Addr, desired: nat, waste: nat)

  /** A dead int array written over the rest of a discarded TLAB, with the length stored in it. */
  datatype Filler = NoFiller | Filler(at: Addr, length: nat)

  /** What a piece of eden is wanted for: an object, or a new TLAB for an object of that size. */
  datatype Purpose = ForObject(size: nat) | ForTlab(size: nat, filler: Filler)

  /** The registers `obj` and `end` of `eden_allocate`; the latter also serves as `free`. */
  datatype Pc =
    | Idle
    | LoadEnd(purpose: Purpose)
    | LoadTop(purpose: Purpose, end: Addr)
    | CasTop(purpose: Purpose, obj: Addr, end: Addr)
    | Install(purpose: Purpose, obj: Addr)
    | RetryTlab(size: nat)

  datatype Thread = Thread(tlab: Tlab, pc: Pc)

  datatype Range = Range(lo: Addr, hi: Addr)

  /** `objects` are all the ranges handed out, `fillers` the dead arrays left behind. */
  datatype State = State(top: Addr, threads: map<Tid, Thread>, objects: seq<Range>, fillers: seq<Range>)

  datatype Event =
    | TlabAllocate(t: Tid, size: nat)
    | RefillAndAllocate(t: Tid, size: nat)
    | EdenAllocate(t: Tid, size: nat)
    | Go(t: Tid)

  // ---- 32-bit condition codes on pointer-sized registers ----

  function Low32(x: int): nat {
    x % TWO_32
  }

  function Signed32(x: int): int {
    if Low32(x) < TWO_31 then Low32(x) else Low32(x) - TWO_32
  }

  /** The condition `lessUnsigned` after comparing two registers, on the 32-bit codes. */
  predicate LessUnsigned(x: int, y: int) {
    Low32(x) < Low32(y)
  }

  /** The condition `less`. */
  predicate Less(x: int, y: int) {
    Signed32(x) < Signed32(y)
  }

  // ---- tlab_allocate ----

  function NewObject(s: State, t: Tid, tlab: Tlab, size: nat): State
    requires t in s.threads
  {
    State(s.top, s.threads[t := Thread(tlab.(top := tlab.top + size), Idle)],
          s.objects + [Range(tlab.top, tlab.top + size)], s.fillers)
  }

  function GiveUp(s: State, t: Tid): State
    requires t in s.threads
  {
    s.(threads := s.threads[t := s.threads[t].(pc := Idle)])
  }

  function TlabStep(s: State, t: Tid, size: nat): State
    requires t in s.threads
  {
    var tlab := s.threads[t].tlab;
    if Less(tlab.end - tlab.top, size) then GiveUp(s, t) else NewObject(s, t, tlab, size)
  }

  // ---- eden_allocate ----

  /** The size of the piece wanted. */
  function Wanted(tlab: Tlab, purpose: Purpose): nat {
    match purpose
    case ForObject(size) => size
    case ForTlab(_, _) => tlab.desired * WORD_BYTES
  }

  /** From the label `retry` to the CAS: computes the free space into `end`, and the new top in the delay slot. */
  function Retry(th: Thread, purpose: Purpose, obj: Addr, end: Addr): Pc {
    var size := Wanted(th.tlab, purpose);
    if LessUnsigned(end - obj, size) then Idle else CasTop(purpose, obj, obj + size)
  }

  /** The CAS and what follows it.  A lost CAS leaves the new top in `end` and, through the delay slot of the
      branch back to `retry`, in `obj` too. */
  function CasStep(s: State, t: Tid, purpose: Purpose, obj: Addr, end: Addr): State
    requires t in s.threads
  {
    var th := s.threads[t];
    if s.top != obj then s.(threads := s.threads[t := th.(pc := Retry(th, purpose, s.top, s.top))])
    else match purpose
      case ForObject(size) =>
        State(end, s.threads[t := th.(pc := Idle)], s.objects + [Range(obj, end)], s.fillers)
      case ForTlab(_, _) =>
        s.(top := end, threads := s.threads[t := th.(pc := Install(purpose, obj))])
  }

  // ---- tlab_refill ----

  /** The length of the filler array for a TLAB with `free` words left: stored as a 32-bit field. */
  function FillerLength(c: Config, free: int): nat {
    Low32((free - c.headerWords + c.reserveWords) * (WORD_BYTES / INT_BYTES))
  }

  /** Where an int array of that length ends. */
  function FillerRange(c: Config, f: Filler): Range
    requires f.Filler?
  {
    Range(f.at, f.at + c.headerWords * WORD_BYTES + f.length * INT_BYTES)
  }

  /** Keeps a TLAB with more free words than the waste limit and allocates the object in eden; discards it
      otherwise, with a filler unless there was none. */
  function RefillStep(c: Config, s: State, t: Tid, size: nat): State
    requires t in s.threads
  {
    var tlab := s.threads[t].tlab;
    var free := (tlab.end - tlab.top) / WORD_BYTES;
    var th :=
      if free > tlab.waste then Thread(tlab.(waste := tlab.waste + c.wasteStep), LoadEnd(ForObject(size)))
      else
        var filler := if tlab.top == 0 then NoFiller else Filler(tlab.top, FillerLength(c, free));
        Thread(tlab, LoadEnd(ForTlab(size, filler)));
    s.(threads := s.threads[t := th])
  }

  /** Stores the bounds of the new TLAB; the filler of the old one is final from here on. */
  function InstallStep(c: Config, s: State, t: Tid, purpose: Purpose, obj: Addr): State
    requires t in s.threads && purpose.ForTlab?
  {
    var tlab := s.threads[t].tlab;
    var end := obj + tlab.desired * WORD_BYTES - c.reserveWords * WORD_BYTES;
    var tlab' := tlab.(start := obj, top := obj, end := end);
    s.(threads := s.threads[t := Thread(tlab', RetryTlab(purpose.size))],
       fillers := if purpose.filler.NoFiller? then s.fillers else s.fillers + [FillerRange(c, purpose.filler)])
  }

  // ---- allocate_array ----

  const MAX_ARRAY_LENGTH: nat := 0x0100_0000

  /** The size register for an array of `length` elements of 2^`log` bytes behind a header of `header` words, or
      nothing when the unsigned 32-bit comparison sends the length to the slow case. */
  function ArraySize(length: int, log: nat, header: nat): (r: (bool, int))
    requires log <= 3
  {
    if LessUnsigned(MAX_ARRAY_LENGTH, length) then (false, 0)
    else
      var bytes := Low32(length) * (if log == 0 then 1 else if log == 1 then 2 else if log == 2 then 4 else 8);
      var padded := bytes + header * WORD_BYTES + (ALIGNMENT - 1);
      (true, padded - padded % ALIGNMENT)
  }

  // ---- the whole system ----

  predicate ValidSize(size: nat) {
    0 < size < TWO_31 && size % ALIGNMENT == 0
  }

  function GoStep(c: Config, s: State, t: Tid): State
    requires t in s.threads
  {
    var th := s.threads[t];
    match th.pc
    case Idle => s
    case LoadEnd(purpose) => s.(threads := s.threads[t := th.(pc := LoadTop(purpose, c.edenEnd))])
    case LoadTop(purpose, end) => s.(threads := s.threads[t := th.(pc := Retry(th, purpose, s.top, end))])
    case CasTop(purpose, obj, end) => CasStep(s, t, purpose, obj, end)
    case Install(purpose, obj) => if purpose.ForTlab? then InstallStep(c, s, t, purpose, obj) else s
    case RetryTlab(size) => TlabStep(s, t, size)
  }

  function Step(c: Config, s: State, e: Event): State {
    if e.t !in s.threads then s
    else if e.Go? then GoStep(c, s, e.t)
    else if !s.threads[e.t].pc.Idle? || !ValidSize(e.size) then s
    else match e
      case TlabAllocate(t, size) => TlabStep(s, t, size)
      case RefillAndAllocate(t, size) => RefillStep(c, s, t, size)
      case EdenAllocate(t, size) => s.(threads := s.threads[t := s.threads[t].(pc := LoadEnd(ForObject(size)))])
  }

  function Run(c: Config, s: State, es: seq<Event>): State
    decreases |es|
  {
    if es == [] then s else Run(c, Step(c, s, es[0]), es[1..])
  }
}
