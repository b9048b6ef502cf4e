/** The fast paths of object locking as a protocol on one object: `compiler_lock_object` and
    `compiler_unlock_object`, C1's `lock_object` and `unlock_object`, and `biased_locking_enter`/`exit` in front
    of both.  Each step of a thread is one access to shared memory together with the register instructions
    up to the next one; a run is any sequence of such steps by any number of threads. */
module Locking {
  import opened MarkWord

  /** The address range of a thread's stack. */
  datatype Stack = Stack(lo: Word, hi: Word)

  /** What stays fixed while the fast paths run: the machine, the flag UseBiasedLocking, the header the object
      has when it is neither locked nor biased, the header prototype of its class, whether a monitor has
      waiters, and the threads, each known by its JavaThread pointer. */
  datatype Config = Config(lp64: bool, useBias: bool, header: Word, proto: Word, waiters: bool,
                           stacks: map<Word, Stack>)

  /** The next memory access of the lock code, with the registers live there. */
  datatype LockStage =
    | Load
    | BiasCas(compare: Word, update: Word)
    | RevokeCas(compare: Word)
    | BusyCas(mark: Word)
    | SaveWon(mark: Word)
    | Publish
    | SaveLost(mark: Word, scratch: Word)
    | SaveRecursion(scratch: Word)
    | ClientSave(mark: Word)
    | ClientCas(mark: Word)
    | OwnerCas
    | OwnerSave(seen: Word)

  /** The next memory access of the unlock code. */
  datatype UnlockStage =
    | CheckBias
    | LoadMark
    | LoadSaved(mark: Word)
    | ClientLoadSaved
    | RestoreCas(saved: Word)
    | LoadOwner
    | StoreOwner
    | Failed

  /** A thread is outside the code, locking with a BasicLock `box` of its frame (in the code of C1 when
      `client`), or unlocking its innermost box. */
  datatype Pc =
    | Idle
    | Locking(box: Word, sp: Word, client: bool, stage: LockStage)
    | Unlocking(client: bool, exit: UnlockStage)

  /** `boxes` are the locks the thread holds on the object, outermost first. */
  datatype Thread = Thread(pc: Pc, boxes: seq<Word>)

  /** The object's mark, the displaced header word at every box address, and the owner of its monitor. */
  datatype Memory = Memory(mark: Word, saved: Word -> Word, owner: Word)

  datatype State = State(mem: Memory, threads: map<Word, Thread>)

  /** A thread may start to lock with a box of its frame, start to unlock its innermost box, or go on. */
  datatype Event =
    | Lock(t: Word, box: Word, sp: Word, client: bool)
    | Unlock(t: Word, client: bool)
    | Go(t: Word)

  predicate OnStack(c: Config, t: Word, a: Word)
    requires t in c.stacks
  {
    c.stacks[t].lo <= a < c.stacks[t].hi
  }

  /** Stacks are more than 4095 bytes apart, and no closer to either end of the address space. */
  ghost predicate Separated(c: Config) {
    && (forall t :: t in c.stacks ==> 4096 <= c.stacks[t].lo <= c.stacks[t].hi <= Words(c.lp64) - 4096)
    && (forall t, u :: t in c.stacks && u in c.stacks && t != u ==>
          c.stacks[t].hi + 4095 <= c.stacks[u].lo || c.stacks[u].hi + 4095 <= c.stacks[t].lo)
  }

  ghost predicate ValidConfig(c: Config) {
    && Separated(c)
    && (forall t :: t in c.stacks ==> ThreadPointer(t))
    && Neutral(c.header) && c.header < Words(c.lp64)
    && (BiasedPrototype(c.lp64, c.proto) || Neutral(c.proto))
  }

  function Top(th: Thread): Word
    requires th.boxes != []
  {
    th.boxes[|th.boxes| - 1]
  }

  function Save(m: Memory, box: Word, value: Word): Memory {
    var before := m.saved;
    m.(saved := (a: Word) => if a == box then value else before(a))
  }

  // ---- lock ----

  /** What follows `biased_locking_enter` when it falls through with `mark` still in the mark register. */
  function AfterBias(client: bool, mark: Word): LockStage {
    if client then ClientSave(OrUnlocked(mark))
    else if MonitorBit(mark) then OwnerCas
    else BusyCas(OrUnlocked(mark))
  }

  datatype Outcome = Next(stage: LockStage) | Success | GiveUp

  /** The load of the mark, up to the first CAS of whichever path it selects. */
  function Loaded(c: Config, self: Word, client: bool, mark: Word): Outcome {
    if !c.useBias then Next(AfterBias(client, mark))
    else match BiasTriage(c.lp64, mark, c.proto, self)
      case CasLock => Next(AfterBias(client, mark))
      case BiasedToUs => Success
      case Acquire(compare, update) => Next(BiasCas(compare, update))
      case Rebias(compare, update) => Next(BiasCas(compare, update))
      case Revoke(compare, update) => Next(RevokeCas(compare))
  }

  /** The value a lost CAS leaves to be stored as displaced header: zero for a recursive lock. */
  function Recursion(c: Config, sp: Word, client: bool, seen: Word): Word {
    var spReg := Sub(c.lp64, sp, StackBias(c.lp64));
    if client then ClientRecursion(c.lp64, seen, spReg) else ServerRecursion(c.lp64, seen, spReg)
  }

  /** One step inside the lock code. */
  function LockStep(c: Config, m: Memory, self: Word, box: Word, sp: Word, client: bool, stage: LockStage)
    : (Memory, Outcome)
  {
    match stage
    case Load => (m, Loaded(c, self, client, m.mark))
    case BiasCas(compare, update) => if m.mark == compare then (m.(mark := update), Success) else (m, GiveUp)
    case RevokeCas(compare) =>
      (if m.mark == compare then m.(mark := c.proto) else m, Next(AfterBias(client, compare)))
    case BusyCas(mark) =>
      // transiently installs BUSY, the zero mark
      if m.mark == mark then (m.(mark := 0), Next(SaveWon(mark)))
      else (m, Next(SaveLost(mark, Recursion(c, sp, client, m.mark))))
    case SaveWon(mark) => (Save(m, box, mark), Next(Publish))
    case Publish => (m.(mark := box), Success)
    case SaveLost(mark, scratch) => (Save(m, box, mark), Next(SaveRecursion(scratch)))
    case SaveRecursion(scratch) => (Save(m, box, scratch), if scratch == 0 then Success else GiveUp)
    case ClientSave(mark) => (Save(m, box, mark), Next(ClientCas(mark)))
    case ClientCas(mark) =>
      if m.mark == mark then (m.(mark := box), Success)
      else (m, Next(SaveRecursion(Recursion(c, sp, client, m.mark))))
    case OwnerCas => (if m.owner == 0 then m.(owner := self) else m, Next(OwnerSave(m.owner)))
    case OwnerSave(seen) => (Save(m, box, box), if seen == 0 then Success else GiveUp)
  }

  /** Slow cases leave the object as it is and the thread outside the code without the lock. */
  function Leave(th: Thread, box: Word, sp: Word, client: bool, r: Outcome): Thread {
    match r
    case Next(stage) => Thread(Locking(box, sp, client, stage), th.boxes)
    case Success => Thread(Idle, th.boxes + [box])
    case GiveUp => Thread(Idle, th.boxes)
  }

  // ---- unlock ----

  function AfterUnlockBias(client: bool): UnlockStage {
    if client then ClientLoadSaved else LoadMark
  }

  datatype ExitOutcome = Continue(exit: UnlockStage) | Released | StillHeld

  /** One step inside the unlock code for the innermost box. */
  function UnlockStep(c: Config, m: Memory, self: Word, box: Word, client: bool, exit: UnlockStage)
    : (Memory, ExitOutcome)
  {
    var saved := m.saved(box);
    match exit
    case CheckBias => (m, if Biased(m.mark) then Released else Continue(AfterUnlockBias(client)))
    case LoadMark => (m, Continue(LoadSaved(m.mark)))
    case LoadSaved(mark) =>
      (m, if saved == 0 then Released else Continue(if MonitorBit(mark) then LoadOwner else RestoreCas(saved)))
    case ClientLoadSaved => (m, if saved == 0 then Released else Continue(RestoreCas(saved)))
    case RestoreCas(header) => if m.mark == box then (m.(mark := header), Released) else (m, Continue(Failed))
    // no recursions; the two queues stay as they are
    case LoadOwner => (m, Continue(if m.owner == self && !c.waiters then StoreOwner else Failed))
    case StoreOwner => (m.(owner := 0), Released)
    case Failed => (m, StillHeld)
  }

  function Exit(th: Thread, client: bool, r: ExitOutcome): Thread
    requires th.boxes != []
  {
    match r
    case Continue(exit) => Thread(Unlocking(client, exit), th.boxes)
    case Released => Thread(Idle, th.boxes[..|th.boxes| - 1])
    case StillHeld => Thread(Idle, th.boxes)
  }

  // ---- the whole system ----

  predicate CanLock(c: Config, t: Word, th: Thread, box: Word, sp: Word, client: bool) {
    && t in c.stacks && th.pc.Idle?
    && OnStack(c, t, box) && box % 8 == 0 && box !in th.boxes
    && OnStack(c, t, sp) && sp % 8 == 0
    && (client ==> !c.lp64)
  }

  /** The next memory access of a thread. */
  function Advance(c: Config, m: Memory, self: Word, th: Thread): (Memory, Thread) {
    match th.pc
    case Idle => (m, th)
    case Locking(box, sp, client, stage) =>
      var r := LockStep(c, m, self, box, sp, client, stage);
      (r.0, Leave(th, box, sp, client, r.1))
    case Unlocking(client, exit) =>
      if th.boxes == [] then (m, th)
      else
        var r := UnlockStep(c, m, self, Top(th), client, exit);
        (r.0, Exit(th, client, r.1))
  }

  /** What an event does to memory and to its own thread; one that is not enabled does nothing. */
  function Act(c: Config, m: Memory, e: Event, th: Thread): (Memory, Thread) {
    match e
    case Lock(t, box, sp, client) =>
      (m, if CanLock(c, t, th, box, sp, client) then th.(pc := Locking(box, sp, client, Load)) else th)
    case Unlock(t, client) =>
      (m, if th.pc.Idle? && th.boxes != []
          then th.(pc := Unlocking(client, if c.useBias then CheckBias else AfterUnlockBias(client))) else th)
    case Go(t) => Advance(c, m, t, th)
  }

  function Step(c: Config, s: State, e: Event): State {
    if e.t !in s.threads then s
    else
      var r := Act(c, s.mem, e, s.threads[e.t]);
      State(r.0, s.threads[e.t := r.1])
  }

  function Run(c: Config, s: State, es: seq<Event>): State
    decreases |es|
  {
    if es == [] then s else Run(c, Step(c, s, es[0]), es[1..])
  }

  predicate Holds(s: State, t: Word) {
    t in s.threads && s.threads[t].boxes != []
  }
}
