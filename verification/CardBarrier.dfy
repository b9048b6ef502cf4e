/** The card-marking write barrier (`g1_write_barrier_post` and its C1 form) behind reference stores, run by any
    number of threads beside any number of refinement threads that clean logged cards and scan them.

    Stores of a mutator, to fields and to the card table, pass through its store buffer in order, as the TSO memory
    model of the machine allows.  Loads look into the thread's own buffer first. */
module CardBarrier {
  import opened Bits
  import opened PtrQueue

  type Tid = nat
  /** An address; zero is null. */
  type Addr = nat

  // HeapRegion::LogOfHRGrainBytes; the sizes of regions and cards.
  const LOG_GRAIN: nat := 20
  const GRAIN: nat := 0x10_0000
  const CARD: nat := 512
  /** What the integer condition codes tell of. */
  const ICC_BITS: nat := 32
  /** How far apart regions may be for the bits C1's filter tests in the 64-bit VM to tell them apart. */
  const CLIENT_REACH: nat := 0x10_0000_0000_0000

  function Region(a: Addr): nat {
    a / GRAIN
  }

  function Card(a: Addr): nat {
    a / CARD
  }

  /** A reference the remembered sets have to know of. */
  predicate Cross(a: Addr, v: Addr) {
    v != 0 && Region(a) != Region(v)
  }

  // ---- the filter ----

  /** Which code was emitted behind the store: none when a constant null is stored; the assembler's; C1's. */
  datatype Code = NoBarrier | Assembled | Client

  /** Whether the emitted code leaves the card alone.  C1 branches on the 32-bit condition codes after comparing
      the shifted word, and then tests for null. */
  predicate Filtered(code: Code, a: Addr, v: Addr) {
    match code
    case NoBarrier => true
    case Assembled => Shr(Xor(a, v), LOG_GRAIN) == 0
    case Client => Low(Shr(Xor(a, v), LOG_GRAIN), ICC_BITS) == 0 || v == 0
  }

  lemma ShrIsRegion(a: Addr, k: nat)
    requires k == LOG_GRAIN
    ensures Shr(a, k) == Region(a)
  {
    Powers();
    ShiftIsDivision(a, k);
  }

  /** The assembler's filter is exactly the test for one region. */
  lemma AssembledFilter(a: Addr, v: Addr)
    ensures Filtered(Assembled, a, v) <==> Region(a) == Region(v)
  {
    var k := LOG_GRAIN;
    XorShr(a, v, k);
    ShrIsRegion(a, k);
    ShrIsRegion(v, k);
    XorZero(Shr(a, k), Shr(v, k));
  }

  lemma LowIsRemainder(x: nat, k: nat)
    requires k == ICC_BITS
    ensures Low(x, k) == x % TWO_32
  {
    Powers();
    ShiftIsDivision(x, k);
  }

  lemma ClientFilter(a: Addr, v: Addr)
    ensures Filtered(Client, a, v) <==> v == 0 || Region(a) % TWO_32 == Region(v) % TWO_32
  {
    var k := LOG_GRAIN;
    XorShr(a, v, k);
    ShrIsRegion(a, k);
    ShrIsRegion(v, k);
    XorLow(Region(a), Region(v), ICC_BITS);
    LowIsRemainder(Region(a), ICC_BITS);
    LowIsRemainder(Region(v), ICC_BITS);
  }

  lemma RegionFrom(start: Addr, a: Addr)
    requires start % GRAIN == 0 && start <= a
    ensures Region(a) == Region(start) + (a - start) / GRAIN
  {
    DivUnique(a, GRAIN, Region(start) + (a - start) / GRAIN, (a - start) % GRAIN);
  }

  /** Numbers less than 2^32 above a third are the same if their low 32 bits are. */
  lemma CloseCongruent(base: nat, x: nat, y: nat)
    requires base <= x < base + TWO_32 && base <= y < base + TWO_32 && x % TWO_32 == y % TWO_32
    ensures x == y
  {
    assert x - y == TWO_32 * (x / TWO_32 - y / TWO_32);
  }

  /** Two addresses of a heap that is no larger than C1's filter reaches. */
  lemma ClientFilterSound(start: Addr, a: Addr, v: Addr)
    requires start % GRAIN == 0 && start <= a < start + CLIENT_REACH && Filtered(Client, a, v)
    requires v == 0 || start <= v < start + CLIENT_REACH
    ensures !Cross(a, v)
  {
    if v != 0 {
      ClientFilter(a, v);
      RegionFrom(start, a);
      RegionFrom(start, v);
      CloseCongruent(Region(start), Region(a), Region(v));
    }
  }

  lemma ClientFilterDrops(start: Addr)
    requires start % GRAIN == 0
    ensures var v := start + CLIENT_REACH; Filtered(Client, start, v) && Cross(start, v)
  {
    var v := start + CLIENT_REACH;
    RegionFrom(start, v);
    assert Region(v) == Region(start) + TWO_32;
    DivUnique(Region(v), TWO_32, Region(start) / TWO_32 + 1, Region(start) % TWO_32);
    ClientFilter(start, v);
  }

  /** C1's filter drops no store within a heap that matters just when the heap is at most 2^52 bytes long, wherever it
      lies; the first field of a longer one is where it fails. */
  lemma ClientFilterReach(start: Addr, end: Addr)
    requires 0 < start < end && start % GRAIN == 0
    ensures (forall a, v :: start <= a < end && start <= v < end && Filtered(Client, a, v) ==> !Cross(a, v))
            <==>
            end - start <= CLIENT_REACH
  {
    if end - start <= CLIENT_REACH {
      forall a, v | start <= a < end && start <= v < end && Filtered(Client, a, v) ensures !Cross(a, v) {
        ClientFilterSound(start, a, v);
      }
    } else {
      ClientFilterDrops(start);
    }
  }

  // ---- the system ----

  datatype Write = RefWrite(a: Addr, v: Addr) | CardWrite(card: nat)

  datatype Pc =
    | Idle
    | LoadCard(card: nat)
    | Enqueue(card: nat)

  datatype Mutator = Mutator(pc: Pc, buffer: seq<Write>, queue: Log)

  /** A refinement thread has taken a completed buffer and works through its cards. */
  datatype Refiner =
    | Resting
    | Holding(cards: seq<nat>)
    | Cleaning(cards: seq<nat>, card: nat)
    | Scanning(cards: seq<nat>, card: nat, done: set<Addr>)

  /** An entry of a remembered set: a card, and the region some field on it points into. */
  datatype Entry = Entry(card: nat, region: nat)

  datatype State = State(
    heap: map<Addr, Addr>,
    dirty: set<nat>,
    mutators: map<Tid, Mutator>,
    refiners: map<Tid, Refiner>,
    remembered: set<Entry>)

  /** `ordered`: the card is loaded only after the reference store has reached memory.
      `start`, `end`: the heap. */
  datatype Config = Config(ordered: bool, refiners: set<Tid>, capacity: nat, start: Addr, end: Addr)

  datatype Event =
    | Store(t: Tid, code: Code, a: Addr, v: Addr)
    | Go(t: Tid)
    | Refill(t: Tid, blank: seq<nat>)
    | Drain(t: Tid)
    | Take(r: Tid, t: Tid, k: nat)
    | Refine(r: Tid)
    | Visit(r: Tid, a: Addr)

  predicate SeesDirty(s: State, m: Mutator, card: nat) {
    card in s.dirty || CardWrite(card) in m.buffer
  }

  function WithMutator(s: State, t: Tid, m: Mutator): State {
    s.(mutators := s.mutators[t := m])
  }

  function WithRefiner(s: State, r: Tid, x: Refiner): State {
    s.(refiners := s.refiners[r := x])
  }

  predicate InHeap(c: Config, a: Addr) {
    c.start <= a < c.end
  }

  /** Stores are into the heap, of null or a reference into it. */
  predicate CanStore(c: Config, code: Code, a: Addr, v: Addr) {
    InHeap(c, a) && (v == 0 || InHeap(c, v)) && (code.NoBarrier? ==> v == 0)
  }

  function MutatorStep(c: Config, s: State, m: Mutator, e: Event): Mutator
    requires e.Store? || e.Go? || e.Refill?
  {
    match e
    case Store(_, code, a, v) =>
      if m.pc.Idle? && CanStore(c, code, a, v)
      then m.(pc := if Filtered(code, a, v) then Idle else LoadCard(Card(a)), buffer := m.buffer + [RefWrite(a, v)])
      else m
    case Go(_) => (
      match m.pc
      case Idle => m
      case LoadCard(card) =>
        if c.ordered && m.buffer != [] then m
        else if SeesDirty(s, m, card) then m.(pc := Idle)
        else m.(pc := Enqueue(card), buffer := m.buffer + [CardWrite(card)])
      case Enqueue(card) =>
        if Valid(m.queue) && m.queue.index != 0 then m.(pc := Idle, queue := Pushed(m.queue, card)) else m
    )
    case Refill(_, blank) =>
      // the hand-off takes a lock, which empties the store buffer
      if m.pc.Enqueue? && m.queue.index == 0 && m.buffer == [] && |blank| == c.capacity
      then m.(queue := Refilled(m.queue, blank)) else m
  }

  /** The oldest buffered store reaches memory. */
  function Drained(s: State, t: Tid): State
    requires t in s.mutators && s.mutators[t].buffer != []
  {
    var m := s.mutators[t];
    var s1 := WithMutator(s, t, m.(buffer := m.buffer[1..]));
    match m.buffer[0]
    case RefWrite(a, v) => s1.(heap := s.heap[a := v])
    case CardWrite(card) => s1.(dirty := s.dirty + {card})
  }

  /** `concurrentRefineOneCard`, card after card: one not dirty is passed over; a dirty one is cleaned, and only
      then are its fields read.  The scan is over when every field on the card has been visited. */
  function RefineStep(s: State, r: Tid): State
    requires r in s.refiners
  {
    match s.refiners[r]
    case Resting => s
    case Holding(cards) =>
      if cards == [] then WithRefiner(s, r, Resting)
      else if cards[0] in s.dirty then WithRefiner(s, r, Cleaning(cards[1..], cards[0]))
      else WithRefiner(s, r, Holding(cards[1..]))
    case Cleaning(cards, card) => WithRefiner(s.(dirty := s.dirty - {card}), r, Scanning(cards, card, {}))
    case Scanning(cards, card, done) =>
      if forall a | a in s.heap :: Card(a) == card ==> a in done then WithRefiner(s, r, Holding(cards)) else s
  }

  function Visited(s: State, r: Tid, a: Addr): State
    requires r in s.refiners && s.refiners[r].Scanning?
  {
    var x := s.refiners[r];
    var s1 := WithRefiner(s, r, x.(done := x.done + {a}));
    if a in s.heap && Cross(a, s.heap[a]) then s1.(remembered := s.remembered + {Entry(x.card, Region(s.heap[a]))})
    else s1
  }

  function Without(buffers: seq<seq<nat>>, k: nat): seq<seq<nat>>
    requires k < |buffers|
  {
    buffers[..k] + buffers[k + 1..]
  }

  /** A completed buffer leaves the queue set for a refinement thread. */
  function Taken(s: State, r: Tid, t: Tid, k: nat): State
    requires r in s.refiners && t in s.mutators && k < |s.mutators[t].queue.completed|
  {
    var m := s.mutators[t];
    var q := m.queue.(completed := Without(m.queue.completed, k));
    WithRefiner(WithMutator(s, t, m.(queue := q)), r, Holding(m.queue.completed[k]))
  }

  function Step(c: Config, s: State, e: Event): State {
    match e
    case Drain(t) => if t in s.mutators && s.mutators[t].buffer != [] then Drained(s, t) else s
    case Take(r, t, k) =>
      if r in s.refiners && s.refiners[r].Resting? && t in s.mutators && k < |s.mutators[t].queue.completed|
      then Taken(s, r, t, k) else s
    case Refine(r) => if r in s.refiners then RefineStep(s, r) else s
    case Visit(r, a) =>
      if r in s.refiners && s.refiners[r].Scanning? && Card(a) == s.refiners[r].card then Visited(s, r, a) else s
    case _ => if e.t in s.mutators then WithMutator(s, e.t, MutatorStep(c, s, s.mutators[e.t], e)) else s
  }

  function Run(c: Config, s: State, es: seq<Event>): State
    decreases |es|
  {
    if es == [] then s else Run(c, Step(c, s, es[0]), es[1..])
  }
}
